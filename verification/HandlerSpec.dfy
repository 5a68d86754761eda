/** The four custom ops of netkv/rostam_server/main.go as handlers of the dispatcher: what they
    decode from their arguments, the value they write, and why routing by the standard
    [keyLen u16][key] prefix puts every access under the mutex of the key they use. */
module HandlerSpec {
  import opened Bytes
  import opened DispatcherModel

  datatype OpName = Aru | Casw | App | Shft

  // ---------- arguments ----------

  /** The standard key prefix, as the router and the client's EncodeKeyArgs use it. */
  function StdKey(args: seq<byte>): Option<Key> {
    if |args| < 2 then None
    else
      var off := 2 + FromBigEndian(args[..2]);
      if |args| < off then None else Some(args[2..off])
  }

  /** Bytes of payload a handler insists on after the key. */
  function PayloadNeed(name: OpName): nat {
    match name
    case Aru | Casw => 16
    case App | Shft => 0
  }

  /** The key a handler decodes, or nothing if it rejects its arguments as too short. */
  function HandlerKey(name: OpName, args: seq<byte>): Option<Key> {
    if |args| < 2 then None
    else
      var off := 2 + FromBigEndian(args[..2]);
      if |args| < off + PayloadNeed(name) then None else Some(args[2..off])
  }

  /** What follows the key. */
  function Payload(args: seq<byte>): seq<byte>
    requires StdKey(args).Some?
  {
    args[2 + FromBigEndian(args[..2])..]
  }

  function FirstI64(p: seq<byte>): i64
    requires |p| >= 8
  {
    ToI64(GetU64(p[..8]))
  }

  function SecondI64(p: seq<byte>): i64
    requires |p| >= 16
  {
    ToI64(GetU64(p[8..16]))
  }

  // ---------- records ----------

  /** games, best and score of the packed 24-byte record. */
  datatype Record = Record(games: i64, best: i64, score: i64)

  const ZERO_RECORD := Record(0, 0, 0)

  /** An absent or short value reads as zeros. */
  function DecodeRecord(v: Option<Value>): Record {
    if v.Some? && |v.value| >= 24 then
      Record(ToI64(GetU64(v.value[0..8])), ToI64(GetU64(v.value[8..16])), ToI64(GetU64(v.value[16..24])))
    else ZERO_RECORD
  }

  function EncodeRecord(r: Record): (v: Value)
    ensures |v| == 24
  {
    PutU64(ToU64(r.games)) + PutU64(ToU64(r.best)) + PutU64(ToU64(r.score))
  }

  function UpdateRecord(r: Record, streak: i64, points: i64): Record {
    Record(Wrap(r.games + 1), if streak > r.best then streak else r.best, Wrap(r.score + points))
  }

  /** A counter of 8 big-endian bytes; an absent or short value reads as 0. */
  function DecodeCounter(v: Option<Value>): u64 {
    if v.Some? && |v.value| >= 8 then GetU64(v.value[0..8]) else 0
  }

  // ---------- what each op does with the value it found ----------

  datatype Decision = Write(value: Value, result: Result) | Keep(result: Result)

  /** Decided only by the arguments and the current value of the key. */
  function Decide(name: OpName, args: seq<byte>, cur: Option<Value>): Decision {
    if HandlerKey(name, args).None? then Keep(Error)
    else
    var p := Payload(args);
    match name
    case Aru =>
      var out := EncodeRecord(UpdateRecord(DecodeRecord(cur), FirstI64(p), SecondI64(p)));
      Write(out, Ok(out))
    case Casw =>
      if ToI64(DecodeCounter(cur)) != FirstI64(p) then Keep(Ok([0]))
      else Write(PutU64(ToU64(SecondI64(p))), Ok([1]))
    case App =>
      Write((if cur.Some? then cur.value else []) + p, Ok([]))
    case Shft =>
      Write(PutU64((2 * DecodeCounter(cur) + 1) % TWO_64), Ok([]))
  }

  // ---------- the handler as the dispatcher sees it ----------

  /** Get the key, decide, Put if there is something to write, return. An error of the cache is
      passed on. */
  function Course(key: Option<Key>, decide: Option<Value> -> Decision, seen: seq<Seen>): Action {
    if key.None? then Return(Error)
    else if |seen| == 0 then Get(key.value)
    else if seen[0].Failed? then Return(Error)
    else
      match decide(if seen[0].Found? then Some(seen[0].value) else None)
      case Keep(r) => Return(r)
      case Write(v, r) =>
        if |seen| == 1 then Put(key.value, v)
        else if seen[1].Failed? then Return(Error)
        else Return(r)
  }

  /** Call's routing: the mutex of the key's shard, or all of them when no key can be extracted. */
  function RouteOf(shardOf: Key -> nat, args: seq<byte>): Route {
    match StdKey(args)
    case Some(key) => Shard(shardOf(key))
    case None => Barrier
  }

  function HandlerOp(shardOf: Key -> nat, name: OpName, args: seq<byte>, fails: nat -> bool): Op {
    Op(RouteOf(shardOf, args), seen => Course(HandlerKey(name, args), cur => Decide(name, args, cur), seen), 2, fails)
  }

  /** Handler and router decode the same key. */
  lemma SameKey(name: OpName, args: seq<byte>)
    ensures HandlerKey(name, args).Some? ==> StdKey(args) == HandlerKey(name, args)
  {
  }

  /** The op gets its key, decides and puts. */
  ghost predicate Takes(op: Op, key: Option<Key>, decide: Option<Value> -> Decision) {
    op.limit == 2 && forall seen: seq<Seen> :: op.act(seen) == Course(key, decide, seen)
  }

  /** So every access of a handler is covered by the mutex its route takes. */
  lemma HandlersRouted(cfg: Config, o: OpId, name: OpName, args: seq<byte>, fails: nat -> bool)
    requires o < |cfg.ops| && cfg.ops[o] == HandlerOp(cfg.shardOf, name, args, fails)
    requires forall k :: cfg.shardOf(k) < cfg.shards
    ensures RoutedOp(cfg, o) && ReadWrite(cfg, o)
  {
    SameKey(name, args);
    CourseRouted(cfg, o, HandlerKey(name, args), cur => Decide(name, args, cur));
  }

  lemma CourseRouted(cfg: Config, o: OpId, key: Option<Key>, decide: Option<Value> -> Decision)
    requires o < |cfg.ops| && Takes(cfg.ops[o], key, decide)
    requires key.Some? ==> cfg.ops[o].route == Shard(cfg.shardOf(key.value))
    requires !cfg.ops[o].route.Unlocked? && Hi(cfg, o) <= cfg.shards
    ensures RoutedOp(cfg, o)
  {
    forall seen: seq<Seen> ensures ActionOk(cfg, o, cfg.ops[o].act(seen)) {
      assert cfg.ops[o].act(seen) == Course(key, decide, seen);
    }
  }

  function Find(m: Cache, key: Key): Option<Value> {
    if key in m then Some(m[key]) else None
  }

  /** A whole handler run at once: rejected arguments and a failing Get change nothing, and so
      does a failing Put. */
  function CourseOutcome(key: Option<Key>, decide: Option<Value> -> Decision, fails: nat -> bool, m: Cache)
    : (Result, Cache)
  {
    if key.None? || fails(0) then (Error, m)
    else match decide(Find(m, key.value))
      case Keep(r) => (r, m)
      case Write(v, r) => if fails(1) then (Error, m) else (r, m[key.value := v])
  }

  function Outcome(name: OpName, args: seq<byte>, fails: nat -> bool, m: Cache): (Result, Cache) {
    CourseOutcome(HandlerKey(name, args), cur => Decide(name, args, cur), fails, m)
  }

  lemma OneAccess(op: Op, m: Cache, seen: seq<Seen>, a: Action)
    requires Bounded(op) && op.act(seen) == a
    ensures a.Return? ==> Exec(op, m, seen) == (a.result, m)
    ensures !a.Return? ==>
              Exec(op, m, seen) == Exec(op, Access(op, |seen|, a, m).1, seen + [Access(op, |seen|, a, m).0])
  {
  }

  lemma ExecCourse(op: Op, key: Option<Key>, decide: Option<Value> -> Decision, m: Cache)
    requires Takes(op, key, decide)
    ensures Bounded(op) && Exec(op, m, []) == CourseOutcome(key, decide, op.fails, m)
  {
    OneAccess(op, m, [], Course(key, decide, []));
    if key.Some? {
      var x := Access(op, 0, Get(key.value), m).0;
      assert [] + [x] == [x];
      OneAccess(op, m, [x], Course(key, decide, [x]));
      var d := decide(Find(m, key.value));
      if !op.fails(0) && d.Write? {
        var (y, m') := Access(op, 1, Put(key.value, d.value), m);
        assert [x] + [y] == [x, y];
        OneAccess(op, m', [x, y], Course(key, decide, [x, y]));
      }
    }
  }

  /** The automaton, run with nobody else about, does what the handler does. */
  lemma ExecIsOutcome(shardOf: Key -> nat, name: OpName, args: seq<byte>, fails: nat -> bool, m: Cache)
    ensures Bounded(HandlerOp(shardOf, name, args, fails))
    ensures Exec(HandlerOp(shardOf, name, args, fails), m, []) == Outcome(name, args, fails, m)
  {
    ExecCourse(HandlerOp(shardOf, name, args, fails), HandlerKey(name, args), cur => Decide(name, args, cur), m);
  }

  // ---------- round trips ----------

  lemma I64Words(v: i64)
    ensures ToI64(GetU64(PutU64(ToU64(v)))) == v
  {
    U64ReadsBack(ToU64(v));
  }

  lemma RecordReadsBack(r: Record)
    ensures DecodeRecord(Some(EncodeRecord(r))) == r
  {
    var v := EncodeRecord(r);
    assert v[0..8] == PutU64(ToU64(r.games));
    assert v[8..16] == PutU64(ToU64(r.best));
    assert v[16..24] == PutU64(ToU64(r.score));
    I64Words(r.games);
    I64Words(r.best);
    I64Words(r.score);
  }

  lemma CounterReadsBack(v: u64)
    ensures DecodeCounter(Some(PutU64(v))) == v
  {
    assert PutU64(v)[0..8] == PutU64(v);
    U64ReadsBack(v);
  }

  /** The client's [keyLen u16][key] prefix (keys shorter than 64 KiB). */
  function EncodeKeyArgs(key: Key): seq<byte>
    requires |key| < 0x1_0000
  {
    BigEndian(2, |key|) + key
  }

  /** The client's prefix followed by two int64, as casIncr and atomicUpdate build it. */
  function EncodePairArgs(key: Key, a: i64, b: i64): seq<byte>
    requires |key| < 0x1_0000
  {
    EncodeKeyArgs(key) + (PutU64(ToU64(a)) + PutU64(ToU64(b)))
  }

  /** The server decodes what the client encoded: the key, and everything after it. */
  lemma KeyArgsReadBack(key: Key, tail: seq<byte>)
    requires |key| < 0x1_0000
    ensures StdKey(EncodeKeyArgs(key) + tail) == Some(key)
    ensures Payload(EncodeKeyArgs(key) + tail) == tail
  {
    var args := EncodeKeyArgs(key) + tail;
    Pow256Values();
    BigEndianReadsBack(2, |key|);
    assert args[..2] == BigEndian(2, |key|);
    assert args[2..2 + |key|] == key;
  }

  lemma PairArgsReadBack(name: OpName, key: Key, a: i64, b: i64)
    requires |key| < 0x1_0000
    ensures StdKey(EncodePairArgs(key, a, b)) == HandlerKey(name, EncodePairArgs(key, a, b)) == Some(key)
    ensures var p := Payload(EncodePairArgs(key, a, b));
            |p| == 16 && FirstI64(p) == a && SecondI64(p) == b
  {
    var p := PutU64(ToU64(a)) + PutU64(ToU64(b));
    KeyArgsReadBack(key, p);
    assert p[..8] == PutU64(ToU64(a)) && p[8..16] == PutU64(ToU64(b));
    I64Words(a);
    I64Words(b);
  }
}

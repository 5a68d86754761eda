/** netkv/rostam_server/main.go in its own form: the transaction context, the four handlers and
    the dispatcher that locks around them. Each handler is proved to be the whole-handler step of
    HandlerSpec; how such steps interleave is the subject of DispatcherModel. */
module BenchServer {
  import opened Bytes
  import opened DispatcherModel
  import opened HandlerSpec

  datatype GetError = NoError | NotFound | OtherError

  function From(fails: nat -> bool, k: nat): nat -> bool {
    (n: nat) => fails(k + n)
  }

  /** The cache behind ops.TxContext. fails(n) says that its n-th access ends in an error. */
  class TxContext {
    var entries: Cache
    var accesses: nat
    const fails: nat -> bool

    constructor (entries: Cache, fails: nat -> bool)
      ensures this.entries == entries && this.fails == fails && accesses == 0
    {
      this.entries, this.fails, accesses := entries, fails, 0;
    }

    method Get(key: Key) returns (value: Value, err: GetError)
      modifies this`accesses
      ensures accesses == old(accesses) + 1
      ensures err == if fails(old(accesses)) then OtherError else if key in entries then NoError else NotFound
      ensures err.NoError? ==> key in entries && value == entries[key]
    {
      accesses := accesses + 1;
      if fails(accesses - 1) {
        return [], OtherError;
      } else if key in entries {
        return entries[key], NoError;
      }
      return [], NotFound;
    }

    method Put(key: Key, value: Value) returns (ok: bool)
      modifies this
      ensures accesses == old(accesses) + 1
      ensures ok == !fails(old(accesses))
      ensures entries == if ok then old(entries)[key := value] else old(entries)
    {
      ok := !fails(accesses);
      accesses := accesses + 1;
      if ok {
        entries := entries[key := value];
      }
    }
  }

  /** What a handler that goes on to write ends with. */
  lemma WriteOutcome(name: OpName, args: seq<byte>, fails: nat -> bool, m: Cache, key: Key, v: Value, r: Result)
    requires HandlerKey(name, args) == Some(key) && !fails(0)
    requires Decide(name, args, Find(m, key)) == Write(v, r)
    ensures Outcome(name, args, fails, m) == if fails(1) then (Error, m) else (r, m[key := v])
  {
  }

  lemma Updates(games: i64, best: i64, score: i64, streak: i64, points: i64)
    ensures EncodeRecord(UpdateRecord(Record(games, best, score), streak, points)) ==
              PutU64(ToU64(Wrap(games as int + 1))) + PutU64(ToU64(if streak > best then streak else best))
              + PutU64(ToU64(Wrap(score as int + points as int)))
  {
  }

  /** The record after one more match, from the value found, if any. */
  method FoldMatch(found: bool, cur: seq<byte>, streak: i64, points: i64) returns (out: Value)
    ensures out == EncodeRecord(UpdateRecord(DecodeRecord(if found then Some(cur) else None), streak, points))
  {
    var games, best, score: i64 := 0, 0, 0;
    if found && |cur| >= 24 {
      games := ToI64(GetU64(cur[0..8]));
      best := ToI64(GetU64(cur[8..16]));
      score := ToI64(GetU64(cur[16..24]));
    }
    assert Record(games, best, score) == DecodeRecord(if found then Some(cur) else None);
    Updates(games, best, score, streak, points);
    games := Wrap(games as int + 1);
    if streak > best {
      best := streak;
    }
    score := Wrap(score as int + points as int);
    out := PutU64(ToU64(games)) + PutU64(ToU64(best)) + PutU64(ToU64(score));
  }

  method HandleAtomicRecordUpdate(tx: TxContext, args: seq<byte>) returns (r: Result)
    modifies tx
    ensures (r, tx.entries) == Outcome(Aru, args, From(tx.fails, old(tx.accesses)), old(tx.entries))
  {
    if |args| < 2 {
      return Error;
    }
    var off := 2 + FromBigEndian(args[0..2]);
    assert args[0..2] == args[..2];
    if |args| < off + 16 {
      return Error;
    }
    var key, payload := args[2..off], args[off..];
    var streak, points := ToI64(GetU64(payload[..8])), ToI64(GetU64(payload[8..16]));
    var cur, err := tx.Get(key);
    if err.OtherError? {
      return Error;
    }
    var out := FoldMatch(err.NoError?, cur, streak, points);
    assert Payload(args) == payload;
    WriteOutcome(Aru, args, From(tx.fails, old(tx.accesses)), tx.entries, key, out, Ok(out));
    var ok := tx.Put(key, out);
    return if ok then Ok(out) else Error;
  }

  method HandleCASWrite(tx: TxContext, args: seq<byte>) returns (r: Result)
    modifies tx
    ensures (r, tx.entries) == Outcome(Casw, args, From(tx.fails, old(tx.accesses)), old(tx.entries))
  {
    if |args| < 2 {
      return Error;
    }
    var off := 2 + FromBigEndian(args[0..2]);
    assert args[0..2] == args[..2];
    if |args| < off + 16 {
      return Error;
    }
    var key, payload := args[2..off], args[off..];
    var expected, newVal := ToI64(GetU64(payload[..8])), ToI64(GetU64(payload[8..16]));
    var cur: i64 := 0;
    var v, err := tx.Get(key);
    if err.OtherError? {
      return Error;
    }
    if err.NoError? && |v| >= 8 {
      cur := ToI64(GetU64(v[0..8]));
    }
    if cur != expected {
      return Ok([0]);
    }
    var out := PutU64(ToU64(newVal));
    assert Decide(Casw, args, Find(tx.entries, key)) == Write(out, Ok([1]));
    var ok := tx.Put(key, out);
    return if ok then Ok([1]) else Error;
  }

  method HandleAppend(tx: TxContext, args: seq<byte>) returns (r: Result)
    modifies tx
    ensures (r, tx.entries) == Outcome(App, args, From(tx.fails, old(tx.accesses)), old(tx.entries))
  {
    if |args| < 2 {
      return Error;
    }
    var off := 2 + FromBigEndian(args[0..2]);
    assert args[0..2] == args[..2];
    if |args| < off {
      return Error;
    }
    var key, suffix := args[2..off], args[off..];
    var cur: seq<byte> := [];
    var v, err := tx.Get(key);
    if err.OtherError? {
      return Error;
    }
    if err.NoError? {
      cur := v;
    }
    var ok := tx.Put(key, cur + suffix);
    return if ok then Ok([]) else Error;
  }

  method HandleShift(tx: TxContext, args: seq<byte>) returns (r: Result)
    modifies tx
    ensures (r, tx.entries) == Outcome(Shft, args, From(tx.fails, old(tx.accesses)), old(tx.entries))
  {
    if |args| < 2 {
      return Error;
    }
    var off := 2 + FromBigEndian(args[0..2]);
    assert args[0..2] == args[..2];
    if |args| < off {
      return Error;
    }
    var key := args[2..off];
    var v: u64 := 0;
    var cur, err := tx.Get(key);
    if err.OtherError? {
      return Error;
    }
    if err.NoError? && |cur| >= 8 {
      v := GetU64(cur[0..8]);
    }
    v := (2 * v + 1) % TWO_64;
    var ok := tx.Put(key, PutU64(v));
    return if ok then Ok([]) else Error;
  }

  /** The custom ops main registers; the builtins are not part of this model. */
  function Lookup(name: string): Option<OpName> {
    if name == "aru" then Some(Aru)
    else if name == "casw" then Some(Casw)
    else if name == "app" then Some(App)
    else if name == "shft" then Some(Shft)
    else None
  }

  class BenchDispatcher {
    const tx: TxContext
    const opMu: array<bool>
    const shardIndex: Key -> nat

    constructor (tx: TxContext, numShards: nat, shardIndex: Key -> nat)
      requires forall k :: shardIndex(k) < numShards
      ensures Valid() && fresh(opMu) && this.tx == tx && this.shardIndex == shardIndex
    {
      this.tx, this.shardIndex := tx, shardIndex;
      var mutexes := new bool[numShards](_ => false);
      opMu := mutexes;
    }

    /** Every key has a shard, and nobody holds a mutex. */
    ghost predicate Valid()
      reads opMu
    {
      && (forall k :: shardIndex(k) < opMu.Length)
      && (forall j :: 0 <= j < opMu.Length ==> !opMu[j])
    }

    /** mu.Lock(): here nobody else is about, so a mutex that is taken must be free. */
    method Lock(j: nat)
      requires j < opMu.Length && !opMu[j]
      modifies opMu
      ensures opMu[..] == old(opMu[..])[j := true]
    {
      opMu[j] := true;
    }

    method Unlock(j: nat)
      requires j < opMu.Length && opMu[j]
      modifies opMu
      ensures opMu[..] == old(opMu[..])[j := false]
    {
      opMu[j] := false;
    }

    /** Just the mutex of the key's shard is held if the arguments hold a key, and otherwise all. */
    predicate Guarded(args: seq<byte>)
      reads opMu
    {
      forall j :: 0 <= j < opMu.Length ==>
        (opMu[j] <==> StdKey(args).None? || j == shardIndex(StdKey(args).value))
    }

    /** Runs the handler under the mutex of the key's shard, or under all of them, taken in ascending
        order, and lets go of every mutex it took. */
    method Call(name: string, args: seq<byte>) returns (r: Result)
      requires Valid()
      modifies opMu, tx
      ensures Valid()
      ensures name !in ["aru", "casw", "app", "shft"] ==> r == Error && tx.entries == old(tx.entries)
      ensures var fails := From(tx.fails, old(tx.accesses));
              && (name == "aru" ==> (r, tx.entries) == Outcome(Aru, args, fails, old(tx.entries)))
              && (name == "casw" ==> (r, tx.entries) == Outcome(Casw, args, fails, old(tx.entries)))
              && (name == "app" ==> (r, tx.entries) == Outcome(App, args, fails, old(tx.entries)))
              && (name == "shft" ==> (r, tx.entries) == Outcome(Shft, args, fails, old(tx.entries)))
    {
      var h := Lookup(name);
      if h.None? {
        return Error;
      }
      var key := StdKey(args);
      if key.Some? {
        var j := shardIndex(key.value);
        Lock(j);
        assert opMu[..][j];
        r := Handle(h.value, args);
        Unlock(j);
        assert forall i :: 0 <= i < opMu.Length ==> !opMu[..][i];
        return;
      }
      for i := 0 to opMu.Length
        modifies opMu
        invariant forall j :: 0 <= j < opMu.Length ==> opMu[..][j] == (j < i)
      {
        assert !opMu[..][i];
        Lock(i);
      }
      assert forall j :: 0 <= j < opMu.Length ==> opMu[..][j];
      r := Handle(h.value, args);
      for i := 0 to opMu.Length
        modifies opMu
        invariant forall j :: 0 <= j < opMu.Length ==> opMu[..][j] == (j >= i)
      {
        assert opMu[..][i];
        Unlock(i);
      }
      assert forall j :: 0 <= j < opMu.Length ==> !opMu[..][j];
    }

    /** The registered handler runs only under the mutexes of its route. */
    method Handle(h: OpName, args: seq<byte>) returns (r: Result)
      requires Guarded(args)
      modifies tx
      ensures (r, tx.entries) == Outcome(h, args, From(tx.fails, old(tx.accesses)), old(tx.entries))
    {
      match h
      case Aru => r := HandleAtomicRecordUpdate(tx, args);
      case Casw => r := HandleCASWrite(tx, args);
      case App => r := HandleAppend(tx, args);
      case Shft => r := HandleShift(tx, args);
    }
  }
}

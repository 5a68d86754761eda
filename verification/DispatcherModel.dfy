/** The dispatcher of netkv/rostam_server/main.go: one mutex per cache shard. A routable
    read-write op holds the mutex of its key's shard while its handler runs; any other read-write
    op takes every mutex in ascending order and releases them in ascending order; other ops take
    none. Handlers reach the shared cache one Get or Put at a time, and any two accesses of
    different ops may interleave. */
module DispatcherModel {
  import opened Bytes

  type Key = seq<byte>
  type Value = seq<byte>
  type Cache = map<Key, Value>
  type OpId = nat

  /** What one access to the cache told the handler. */
  datatype Seen = Found(value: Value) | Absent | Stored | Failed

  datatype Result = Ok(out: seq<byte>) | Error

  datatype Action = Get(key: Key) | Put(key: Key, value: Value) | Return(result: Result)

  datatype Route = Shard(index: nat) | Barrier | Unlocked

  /** An op in flight. Its handler is deterministic: the next action depends on what its accesses
      have told it so far, and after `limit` of them it returns. fails(n) says that the cache
      answers the n-th access of this op with an error of its own. */
  datatype Op = Op(route: Route, act: seq<Seen> -> Action, limit: nat, fails: nat -> bool)

  /** Shard mutexes, the cache's key-to-shard function, the ops and the initial cache. */
  datatype Config = Config(shards: nat, shardOf: Key -> nat, ops: seq<Op>, initial: Cache)

  // ---------- one op alone ----------

  ghost predicate Bounded(op: Op) {
    forall seen: seq<Seen> :: |seen| >= op.limit ==> op.act(seen).Return?
  }

  /** A failed access changes nothing. */
  function Access(op: Op, n: nat, a: Action, m: Cache): (Seen, Cache)
    requires !a.Return?
  {
    if op.fails(n) then (Failed, m)
    else match a
      case Get(k) => (if k in m then Found(m[k]) else Absent, m)
      case Put(k, v) => (Stored, m[k := v])
  }

  /** Running the rest of a handler with nobody else about: its result and the cache it leaves. */
  ghost function Exec(op: Op, m: Cache, seen: seq<Seen>): (Result, Cache)
    requires Bounded(op)
    decreases op.limit - |seen|
  {
    match op.act(seen)
    case Return(r) => (r, m)
    case a => var (s, m') := Access(op, |seen|, a, m); Exec(op, m', seen + [s])
  }

  ghost predicate Runnable(cfg: Config, order: seq<OpId>) {
    forall i :: 0 <= i < |order| ==> order[i] < |cfg.ops| && Bounded(cfg.ops[order[i]])
  }

  /** The cache after running whole ops one after another. */
  ghost function Serial(cfg: Config, order: seq<OpId>): Cache
    requires Runnable(cfg, order)
  {
    if order == [] then cfg.initial
    else Exec(cfg.ops[order[|order| - 1]], Serial(cfg, order[..|order| - 1]), []).1
  }

  // ---------- many ops at once ----------

  /** The range of mutexes an op takes. */
  function Lo(cfg: Config, o: OpId): nat
    requires o < |cfg.ops|
  {
    if cfg.ops[o].route.Shard? then cfg.ops[o].route.index else 0
  }

  function Hi(cfg: Config, o: OpId): nat
    requires o < |cfg.ops|
  {
    match cfg.ops[o].route
    case Shard(i) => i + 1
    case Barrier => cfg.shards
    case Unlocked => 0
  }

  predicate ReadWrite(cfg: Config, o: OpId) {
    o < |cfg.ops| && !cfg.ops[o].route.Unlocked?
  }

  predicate Locks(cfg: Config, o: OpId, j: nat)
    requires o < |cfg.ops|
  {
    Lo(cfg, o) <= j < Hi(cfg, o)
  }

  /** The key belongs to a shard op o locks. */
  predicate Covers(cfg: Config, o: OpId, k: Key)
    requires o < |cfg.ops|
  {
    Locks(cfg, o, cfg.shardOf(k))
  }

  /** Read-write handlers touch only keys their mutexes cover; other handlers never Put. */
  predicate ActionOk(cfg: Config, o: OpId, a: Action)
    requires o < |cfg.ops|
  {
    match a
    case Get(k) => ReadWrite(cfg, o) ==> Covers(cfg, o, k)
    case Put(k, _) => ReadWrite(cfg, o) && Covers(cfg, o, k)
    case Return(_) => true
  }

  ghost predicate WellRouted(cfg: Config) {
    forall o :: 0 <= o < |cfg.ops| ==> RoutedOp(cfg, o)
  }

  ghost predicate RoutedOp(cfg: Config, o: OpId)
    requires o < |cfg.ops|
  {
    && Bounded(cfg.ops[o])
    && Hi(cfg, o) <= cfg.shards
    && forall seen: seq<Seen> :: ActionOk(cfg, o, cfg.ops[o].act(seen))
  }

  /** Where an op stands: about to take mutex `next`, running, about to release mutex `next`, or
      back. */
  datatype Pc =
    | Acquiring(next: nat)
    | Running(seen: seq<Seen>)
    | Releasing(next: nat, result: Result)
    | Done(result: Result)

  /** `order` records the order in which handlers of read-write ops returned. */
  datatype State = State(locks: seq<Option<OpId>>, cache: Cache, pcs: seq<Pc>, order: seq<OpId>)

  datatype Act = Lock | Begin | Handle | Unlock | Finish

  predicate Enabled(cfg: Config, s: State, o: OpId, act: Act) {
    && o < |cfg.ops| == |s.pcs|
    && |s.locks| == cfg.shards
    && var pc := s.pcs[o];
       match act
       case Lock => pc.Acquiring? && pc.next < Hi(cfg, o) <= |s.locks| && s.locks[pc.next].None?
       case Begin => pc.Acquiring? && pc.next == Hi(cfg, o)
       case Handle => pc.Running?
       case Unlock => pc.Releasing? && pc.next < Hi(cfg, o) <= |s.locks|
       case Finish => pc.Releasing? && pc.next == Hi(cfg, o)
  }

  function Goto(s: State, o: OpId, pc: Pc): State
    requires o < |s.pcs|
  {
    s.(pcs := s.pcs[o := pc])
  }

  function Effect(cfg: Config, s: State, o: OpId, act: Act): State
    requires Enabled(cfg, s, o, act)
  {
    var pc := s.pcs[o];
    match act
    case Lock => Goto(s, o, Acquiring(pc.next + 1)).(locks := s.locks[pc.next := Some(o)])
    case Begin => Goto(s, o, Running([]))
    case Handle => Handled(cfg, s, o)
    case Unlock => Goto(s, o, Releasing(pc.next + 1, pc.result)).(locks := s.locks[pc.next := None])
    case Finish => Goto(s, o, Done(pc.result))
  }

  /** One action of the handler of op o. */
  function Handled(cfg: Config, s: State, o: OpId): State
    requires o < |cfg.ops| == |s.pcs| && s.pcs[o].Running?
  {
    var op, seen := cfg.ops[o], s.pcs[o].seen;
    match op.act(seen)
    case Return(r) =>
      Goto(s, o, Releasing(Lo(cfg, o), r)).(order := if ReadWrite(cfg, o) then s.order + [o] else s.order)
    case a =>
      var (x, m) := Access(op, |seen|, a, s.cache);
      Goto(s, o, Running(seen + [x])).(cache := m)
  }

  ghost predicate Init(cfg: Config, s: State) {
    && |s.locks| == cfg.shards && |s.pcs| == |cfg.ops|
    && (forall j :: 0 <= j < |s.locks| ==> s.locks[j].None?)
    && (forall o :: 0 <= o < |s.pcs| ==> s.pcs[o] == Acquiring(Lo(cfg, o)))
    && s.cache == cfg.initial && s.order == []
  }

  /** A run is a list of (op, act) choices of the scheduler. */
  ghost predicate Follows(cfg: Config, s: State, run: seq<(OpId, Act)>, t: State)
    decreases |run|
  {
    if run == [] then s == t
    else
      && Enabled(cfg, s, run[0].0, run[0].1)
      && Follows(cfg, Effect(cfg, s, run[0].0, run[0].1), run[1..], t)
  }

  ghost predicate Reaches(cfg: Config, s: State, run: seq<(OpId, Act)>, t: State) {
    WellRouted(cfg) && Init(cfg, s) && Follows(cfg, s, run, t)
  }

  ghost predicate AllDone(s: State) {
    forall o :: 0 <= o < |s.pcs| ==> s.pcs[o].Done?
  }
}

/** What the custom ops leave behind after any concurrent run: any mixture of the four ops, on any
    keys, with any cache failures, beside any other ops that leave the key in question alone. The
    interleaving is reduced to a serial order by DispatcherSerial; here the value of one key is
    reduced to the calls on it that returned without an error, and these to closed forms. */
module ConcurrentOps {
  import opened Bytes
  import opened DispatcherModel
  import opened DispatcherSerial
  import opened HandlerSpec
  import opened Folds

  /** A call of one of the four ops; fails(n) is the fate of its n-th cache access. */
  datatype Request = Request(name: OpName, args: seq<byte>, fails: nat -> bool)

  /** An op that, run alone, never changes the value of the key. */
  ghost predicate LeavesAlone(op: Op, key: Key) {
    Bounded(op) ==> forall m :: Find(Exec(op, m, []).1, key) == Find(m, key)
  }

  /** Op o of the run is requests[o]; where there is none, it is some op that leaves the key alone. */
  ghost predicate Serves(cfg: Config, requests: seq<Option<Request>>, key: Key) {
    && |cfg.ops| == |requests|
    && forall o :: 0 <= o < |requests| ==> ServesOne(cfg, o, requests[o], key)
  }

  ghost predicate ServesOne(cfg: Config, o: OpId, request: Option<Request>, key: Key)
    requires o < |cfg.ops|
  {
    match request
    case Some(q) => cfg.ops[o] == HandlerOp(cfg.shardOf, q.name, q.args, q.fails)
    case None => LeavesAlone(cfg.ops[o], key)
  }

  predicate Names(requests: seq<Option<Request>>, o: OpId, key: Key) {
    o < |requests| && requests[o].Some? && HandlerKey(requests[o].value.name, requests[o].value.args) == Some(key)
  }

  /** The requests on this key are all of one op; on other keys they may be any. */
  ghost predicate Only(requests: seq<Option<Request>>, name: OpName, key: Key) {
    forall o :: 0 <= o < |requests| && Names(requests, o, key) ==> requests[o].value.name == name
  }

  /** A request on the key that came back without an error. */
  predicate Succeeded(requests: seq<Option<Request>>, key: Key, t: State, o: OpId) {
    Names(requests, o, key) && o < |t.pcs| && t.pcs[o].Done? && t.pcs[o].result.Ok?
  }

  /** Those of an order, in order. */
  function Winners(requests: seq<Option<Request>>, key: Key, t: State, order: seq<OpId>): seq<OpId> {
    if order == [] then []
    else
      var n := |order| - 1;
      Winners(requests, key, t, order[..n]) + if Succeeded(requests, key, t, order[n]) then [order[n]] else []
  }

  /** ids lists the requests on the key that succeeded, each once. */
  ghost predicate Lists(requests: seq<Option<Request>>, key: Key, t: State, ids: seq<OpId>) {
    && Distinct(ids)
    && forall o: OpId :: o in ids <==> Succeeded(requests, key, t, o)
  }

  lemma {:induction false} WinnersOf(requests: seq<Option<Request>>, key: Key, t: State, order: seq<OpId>)
    requires Distinct(order)
    ensures Distinct(Winners(requests, key, t, order))
    ensures forall o: OpId :: o in Winners(requests, key, t, order) <==> o in order && Succeeded(requests, key, t, o)
  {
    if order != [] {
      var n := |order| - 1;
      WinnersOf(requests, key, t, order[..n]);
      assert order == order[..n] + [order[n]];
      assert order[n] !in order[..n];
    }
  }

  /** The value of its key after one successful call. */
  function After(q: Request, cur: Option<Value>): Option<Value> {
    var d := Decide(q.name, q.args, cur);
    if d.Write? then Some(d.value) else cur
  }

  /** A handler run at once: success does to its key what the op says, anything else nothing, and
      no other key changes. */
  lemma OutcomeAt(q: Request, m: Cache, key: Key)
    ensures var (r, n) := Outcome(q.name, q.args, q.fails, m);
            Find(n, key) == if HandlerKey(q.name, q.args) == Some(key) && r.Ok? then After(q, Find(m, key))
                            else Find(m, key)
  {
  }

  /** The ops that write whatever they find return Ok exactly if the arguments hold a key and
      neither access of the cache fails. */
  lemma OutcomeOk(q: Request, m: Cache)
    requires !q.name.Casw?
    ensures Outcome(q.name, q.args, q.fails, m).0.Ok? <==>
              HandlerKey(q.name, q.args).Some? && !q.fails(0) && !q.fails(1)
  {
  }

  lemma SerialStep(cfg: Config, requests: seq<Option<Request>>, key: Key, order: seq<OpId>)
    requires Serves(cfg, requests, key) && Runnable(cfg, order) && order != []
    ensures Runnable(cfg, order[..|order| - 1])
    ensures var n := |order| - 1;
            var before := Find(Serial(cfg, order[..n]), key);
            Find(Serial(cfg, order), key) ==
              if Names(requests, order[n], key) && SerialResult(cfg, order, n).Ok? then
                After(requests[order[n]].value, before)
              else before
  {
    var n := |order| - 1;
    var o, m := order[n], Serial(cfg, order[..n]);
    assert ServesOne(cfg, o, requests[o], key);
    if requests[o].Some? {
      var q := requests[o].value;
      ExecIsOutcome(cfg.shardOf, q.name, q.args, q.fails, m);
      OutcomeAt(q, m, key);
    }
  }

  /** The results of the finished run are those of the order. */
  ghost predicate Results(cfg: Config, t: State, order: seq<OpId>)
    requires Runnable(cfg, order)
  {
    forall i :: 0 <= i < |order| ==>
      order[i] < |t.pcs| && t.pcs[order[i]] == Done(SerialResult(cfg, order, i))
  }

  lemma ResultsBefore(cfg: Config, t: State, order: seq<OpId>, n: nat)
    requires Runnable(cfg, order) && Results(cfg, t, order) && n <= |order|
    ensures Runnable(cfg, order[..n]) && Results(cfg, t, order[..n])
  {
    forall i | 0 <= i < n
      ensures order[i] < |t.pcs| && t.pcs[order[i]] == Done(SerialResult(cfg, order[..n], i))
    {
      SameResult(cfg, order, n, i);
    }
  }

  lemma SameResult(cfg: Config, order: seq<OpId>, n: nat, i: nat)
    requires Runnable(cfg, order) && i < n <= |order|
    ensures Runnable(cfg, order[..n]) && SerialResult(cfg, order[..n], i) == SerialResult(cfg, order, i)
  {
    assert order[..n][..i] == order[..i];
  }

  /** Read through dec, each request on the key acts on its value as step. */
  ghost predicate ActsAs<R(!new)>(requests: seq<Option<Request>>, key: Key, dec: Option<Value> -> R, step: (R, nat) -> R) {
    forall o: nat, cur :: Names(requests, o, key) ==> dec(After(requests[o].value, cur)) == step(dec(cur), o)
  }

  lemma {:induction false} SerialFold<R(!new)>(cfg: Config, requests: seq<Option<Request>>, key: Key, t: State,
                                               order: seq<OpId>, dec: Option<Value> -> R, step: (R, nat) -> R)
    requires Serves(cfg, requests, key) && Runnable(cfg, order) && Results(cfg, t, order)
    requires ActsAs(requests, key, dec, step)
    ensures dec(Find(Serial(cfg, order), key)) ==
              Fold(step, dec(Find(cfg.initial, key)), Winners(requests, key, t, order))
  {
    if order != [] {
      var n := |order| - 1;
      var o, before := order[n], Winners(requests, key, t, order[..n]);
      SerialStep(cfg, requests, key, order);
      ResultsBefore(cfg, t, order, n);
      SerialFold(cfg, requests, key, t, order[..n], dec, step);
      if Succeeded(requests, key, t, o) {
        assert (before + [o])[..|before|] == before;
      } else {
        assert before + [] == before;
      }
    }
  }

  lemma FinishedOrder(cfg: Config, requests: seq<Option<Request>>, key: Key, s: State, run: seq<(OpId, Act)>, t: State)
    requires Serves(cfg, requests, key) && Reaches(cfg, s, run, t) && AllDone(t)
    ensures Runnable(cfg, t.order) && Results(cfg, t, t.order) && t.cache == Serial(cfg, t.order)
    ensures Lists(requests, key, t, Winners(requests, key, t, t.order))
  {
    Serializable(cfg, s, run, t);
    WinnersOf(requests, key, t, t.order);
    forall o: OpId | Succeeded(requests, key, t, o) ensures o in t.order {
      assert ServesOne(cfg, o, requests[o], key);
      assert ReadWrite(cfg, o);
    }
  }

  /** After any finished run the value of a key is the fold of exactly the requests on it that
      returned Ok, in the order in which their handlers returned. */
  lemma ConcurrentFold<R(!new)>(cfg: Config, requests: seq<Option<Request>>, key: Key, s: State,
                                run: seq<(OpId, Act)>, t: State, dec: Option<Value> -> R, step: (R, nat) -> R)
    requires Serves(cfg, requests, key) && ActsAs(requests, key, dec, step)
    requires Reaches(cfg, s, run, t) && AllDone(t)
    ensures var won := Winners(requests, key, t, t.order);
            && Lists(requests, key, t, won)
            && dec(Find(t.cache, key)) == Fold(step, dec(Find(cfg.initial, key)), won)
  {
    FinishedOrder(cfg, requests, key, s, run, t);
    SerialFold(cfg, requests, key, t, t.order, dec, step);
  }

  /** And which those are depends on no schedule: a request for aru, app or shft returned Ok exactly
      if its arguments hold a key and neither of its accesses fails. */
  lemma SucceedsIff(cfg: Config, requests: seq<Option<Request>>, key: Key, s: State, run: seq<(OpId, Act)>,
                    t: State, o: OpId)
    requires Serves(cfg, requests, key) && Reaches(cfg, s, run, t) && AllDone(t)
    requires o < |requests| && requests[o].Some? && !requests[o].value.name.Casw?
    ensures o < |t.pcs| && t.pcs[o].Done?
    ensures var q := requests[o].value;
            t.pcs[o].result.Ok? <==> HandlerKey(q.name, q.args).Some? && !q.fails(0) && !q.fails(1)
  {
    FinishedOrder(cfg, requests, key, s, run, t);
    Serializable(cfg, s, run, t);
    var q := requests[o].value;
    assert ServesOne(cfg, o, requests[o], key) && ReadWrite(cfg, o);
    var i :| 0 <= i < |t.order| && t.order[i] == o;
    var m := Serial(cfg, t.order[..i]);
    ExecIsOutcome(cfg.shardOf, q.name, q.args, q.fails, m);
    OutcomeOk(q, m);
  }

  // ---------- aru ----------

  datatype Match = Match(streak: i64, points: i64)

  /** The match a request reports, read from its arguments. */
  function MatchOf(args: seq<byte>): Match {
    if HandlerKey(Aru, args).None? then Match(0, 0)
    else Match(FirstI64(Payload(args)), SecondI64(Payload(args)))
  }

  /** The client's arguments report its match, and name its key. */
  lemma ClientMatch(key: Key, m: Match)
    requires |key| < 0x1_0000
    ensures MatchOf(EncodePairArgs(key, m.streak, m.points)) == m
    ensures HandlerKey(Aru, EncodePairArgs(key, m.streak, m.points)) == Some(key)
  {
    PairArgsReadBack(Aru, key, m.streak, m.points);
  }

  function ArgsOf(requests: seq<Option<Request>>, o: OpId): seq<byte> {
    if o < |requests| && requests[o].Some? then requests[o].value.args else []
  }

  function MatchesOf(requests: seq<Option<Request>>, ids: seq<OpId>): (ms: seq<Match>)
    ensures |ms| == |ids| && forall i :: 0 <= i < |ids| ==> ms[i] == MatchOf(ArgsOf(requests, ids[i]))
  {
    seq(|ids|, i requires 0 <= i < |ids| => MatchOf(ArgsOf(requests, ids[i])))
  }

  function Plus(r: Record, m: Match): Record {
    UpdateRecord(r, m.streak, m.points)
  }

  function MatchStep(requests: seq<Option<Request>>): (Record, nat) -> Record {
    (r: Record, o: nat) => Plus(r, MatchOf(ArgsOf(requests, o)))
  }

  lemma SumsCommute(s: int, a: int, b: int)
    ensures Wrap(Wrap(s + a) + b) == Wrap(Wrap(s + b) + a)
  {
    WrapOfWrap(s + a, b);
    WrapOfWrap(s + b, a);
  }

  function Greater(x: i64, y: i64): i64 {
    if y > x then y else x
  }

  lemma GreaterCommutes(x: i64, a: i64, b: i64)
    ensures Greater(Greater(x, a), b) == Greater(Greater(x, b), a)
  {
  }

  lemma PlusIs(r: Record, m: Match)
    ensures Plus(r, m) == Record(Wrap(r.games + 1), Greater(r.best, m.streak), Wrap(r.score + m.points))
  {
  }

  lemma UpdatesCommute(r: Record, a: Match, b: Match)
    ensures Plus(Plus(r, a), b) == Plus(Plus(r, b), a)
  {
    PlusIs(r, a);
    PlusIs(r, b);
    PlusIs(Plus(r, a), b);
    PlusIs(Plus(r, b), a);
    SumsCommute(r.score, a.points, b.points);
    GreaterCommutes(r.best, a.streak, b.streak);
  }

  lemma MatchesCommute(requests: seq<Option<Request>>)
    ensures Commute(MatchStep(requests))
  {
    forall r: Record, a: nat, b: nat
      ensures MatchStep(requests)(MatchStep(requests)(r, a), b) == MatchStep(requests)(MatchStep(requests)(r, b), a)
    {
      UpdatesCommute(r, MatchOf(ArgsOf(requests, a)), MatchOf(ArgsOf(requests, b)));
    }
  }

  function Points(ms: seq<Match>): int {
    if ms == [] then 0 else Points(ms[..|ms| - 1]) + ms[|ms| - 1].points
  }

  function Best(b: i64, ms: seq<Match>): (m: i64)
    ensures m >= b && forall i :: 0 <= i < |ms| ==> m >= ms[i].streak
    ensures m == b || exists i :: 0 <= i < |ms| && m == ms[i].streak
  {
    if ms == [] then b
    else
      var m := Best(b, ms[..|ms| - 1]);
      if ms[|ms| - 1].streak > m then ms[|ms| - 1].streak else m
  }

  /** The record r after the given matches: their number, the greatest streak, the sum. */
  function Total(r: Record, ms: seq<Match>): Record {
    Record(Wrap(r.games + |ms|), Best(r.best, ms), Wrap(r.score + Points(ms)))
  }

  lemma TotalStep(r: Record, ms: seq<Match>)
    requires ms != []
    ensures Total(r, ms) == Plus(Total(r, ms[..|ms| - 1]), ms[|ms| - 1])
  {
    WrapSteps(r, |ms|, Points(ms[..|ms| - 1]), ms[|ms| - 1].points);
  }

  lemma WrapSteps(r: Record, n: nat, sum: int, more: int)
    requires n > 0
    ensures Wrap(Wrap(r.games + (n - 1)) + 1) == Wrap(r.games + n)
    ensures Wrap(Wrap(r.score + sum) + more) == Wrap(r.score + (sum + more))
  {
    WrapOfWrap(r.games + (n - 1), 1);
    WrapOfWrap(r.score + sum, more);
  }

  lemma {:induction false} FoldMatches(requests: seq<Option<Request>>, r: Record, ids: seq<OpId>)
    ensures Fold(MatchStep(requests), r, ids) == Total(r, MatchesOf(requests, ids))
  {
    if ids == [] {
      assert Total(r, []) == r;
    } else {
      var n := |ids| - 1;
      FoldMatches(requests, r, ids[..n]);
      assert MatchesOf(requests, ids)[..n] == MatchesOf(requests, ids[..n]);
      TotalStep(r, MatchesOf(requests, ids));
    }
  }

  lemma AruActs(requests: seq<Option<Request>>, key: Key)
    requires Only(requests, Aru, key)
    ensures ActsAs(requests, key, DecodeRecord, MatchStep(requests))
  {
    forall o: nat, cur | Names(requests, o, key)
      ensures DecodeRecord(After(requests[o].value, cur)) == MatchStep(requests)(DecodeRecord(cur), o)
    {
      RecordReadsBack(Plus(DecodeRecord(cur), MatchOf(ArgsOf(requests, o))));
    }
  }

  /** After any concurrent run in which the requests on a key are `aru`, whatever the schedule, the
      other requests and the failures: the record counts the requests that returned Ok, and holds
      their greatest streak and the sum of their points modulo 2^64, in whatever order one lists
      them. */
  lemma ConcurrentRecord(cfg: Config, requests: seq<Option<Request>>, key: Key, s: State,
                         run: seq<(OpId, Act)>, t: State, ids: seq<OpId>)
    requires Serves(cfg, requests, key) && Only(requests, Aru, key)
    requires Reaches(cfg, s, run, t) && AllDone(t) && Lists(requests, key, t, ids)
    ensures DecodeRecord(Find(t.cache, key)) ==
              Total(DecodeRecord(Find(cfg.initial, key)), MatchesOf(requests, ids))
  {
    var r, won := DecodeRecord(Find(cfg.initial, key)), Winners(requests, key, t, t.order);
    AruActs(requests, key);
    ConcurrentFold(cfg, requests, key, s, run, t, DecodeRecord, MatchStep(requests));
    SameMembers(won, ids);
    MatchesCommute(requests);
    Rearrange(MatchStep(requests), r, won, ids);
    FoldMatches(requests, r, ids);
  }

  // ---------- shft ----------

  function Pow2(n: nat): (p: nat)
    ensures p >= 1
  {
    if n == 0 then 1 else 2 * Pow2(n - 1)
  }

  function Shifted(v: u64, n: nat): u64 {
    (v * Pow2(n) + Pow2(n) - 1) % TWO_64
  }

  lemma Remainder(x: int, q: int, r: int)
    requires x == TWO_64 * q + r && 0 <= r < TWO_64
    ensures x % TWO_64 == r
  {
  }

  lemma DoubleMod(x: nat)
    ensures (2 * (x % TWO_64) + 1) % TWO_64 == (2 * x + 1) % TWO_64
  {
    var r := x % TWO_64;
    var y := 2 * r + 1;
    Remainder(2 * x + 1, 2 * (x / TWO_64) + y / TWO_64, y % TWO_64);
  }

  lemma ShiftOnce(v: u64, n: nat)
    ensures (2 * Shifted(v, n) + 1) % TWO_64 == Shifted(v, n + 1)
  {
    var p, vp := Pow2(n), v * Pow2(n);
    assert v * (2 * p) == 2 * vp;
    DoubleMod(vp + p - 1);
  }

  lemma Times16(n: nat)
    ensures Pow2(n + 4) == 16 * Pow2(n)
  {
    assert Pow2(n + 2) == 4 * Pow2(n);
  }

  lemma Times65536(n: nat)
    ensures Pow2(n + 16) == 0x1_0000 * Pow2(n)
  {
    Times16(n);
    Times16(n + 4);
    Times16(n + 8);
    Times16(n + 12);
  }

  lemma {:induction false} Pow2Multiple(n: nat) returns (q: nat)
    requires n >= 64
    ensures Pow2(n) == TWO_64 * q && q >= 1
  {
    if n > 64 {
      q := Pow2Multiple(n - 1);
      q := 2 * q;
    } else {
      Pow2Of64();
      q := 1;
    }
  }

  lemma Pow2Of64()
    ensures Pow2(64) == TWO_64
  {
    Times65536(0);
    Times65536(16);
    Times65536(32);
    Times65536(48);
  }

  lemma Swap(v: nat, q: nat)
    ensures v * (TWO_64 * q) == TWO_64 * (v * q)
  {
  }

  /** From the 64th shift on every bit is a one. */
  lemma AllOnes(v: u64, n: nat)
    requires n >= 64
    ensures Shifted(v, n) == TWO_64 - 1
  {
    var q := Pow2Multiple(n);
    Swap(v, q);
    Remainder(v * Pow2(n) + Pow2(n) - 1, v * q + q - 1, TWO_64 - 1);
  }

  const SHIFT: (int, nat) -> int := (v: int, o: nat) => (2 * v + 1) % TWO_64

  const COUNTER: Option<Value> -> int := (v: Option<Value>) => DecodeCounter(v) as int

  lemma ShiftActs(requests: seq<Option<Request>>, key: Key)
    requires Only(requests, Shft, key)
    ensures ActsAs(requests, key, COUNTER, SHIFT)
  {
    forall o: nat, cur | Names(requests, o, key)
      ensures COUNTER(After(requests[o].value, cur)) == SHIFT(COUNTER(cur), o)
    {
      CounterReadsBack((2 * DecodeCounter(cur) + 1) % TWO_64);
    }
  }

  lemma {:induction false} FoldShift(v: u64, order: seq<OpId>)
    ensures Fold(SHIFT, v as int, order) == Shifted(v, |order|)
  {
    if order != [] {
      FoldShift(v, order[..|order| - 1]);
      ShiftOnce(v, |order| - 1);
    }
  }

  /** After any concurrent run in which the requests on a key are `shft`, n of which returned Ok, its
      counter is v*2^n + 2^n - 1 modulo 2^64, and all ones from n = 64 on. */
  lemma ConcurrentShift(cfg: Config, requests: seq<Option<Request>>, key: Key, s: State,
                        run: seq<(OpId, Act)>, t: State, ids: seq<OpId>)
    requires Serves(cfg, requests, key) && Only(requests, Shft, key)
    requires Reaches(cfg, s, run, t) && AllDone(t) && Lists(requests, key, t, ids)
    ensures DecodeCounter(Find(t.cache, key)) == Shifted(DecodeCounter(Find(cfg.initial, key)), |ids|)
    ensures |ids| >= 64 ==> DecodeCounter(Find(t.cache, key)) == TWO_64 - 1
  {
    var v, won := DecodeCounter(Find(cfg.initial, key)), Winners(requests, key, t, t.order);
    ShiftActs(requests, key);
    ConcurrentFold(cfg, requests, key, s, run, t, COUNTER, SHIFT);
    SameMembers(won, ids);
    FoldShift(v, won);
    if |ids| >= 64 {
      AllOnes(v, |ids|);
    }
  }

  /** A bitmask request as the benchmark makes it, no access of which fails. */
  predicate ClientShift(request: Option<Request>, key: Key)
    requires |key| < 0x1_0000
  {
    request.Some? && request.value.name == Shft && request.value.args == EncodeKeyArgs(key)
    && !request.value.fails(0) && !request.value.fails(1)
  }

  lemma ClientsSucceed(cfg: Config, requests: seq<Option<Request>>, key: Key, s: State,
                       run: seq<(OpId, Act)>, t: State, o: OpId)
    requires |key| < 0x1_0000 && Serves(cfg, requests, key) && Reaches(cfg, s, run, t) && AllDone(t)
    requires o < |requests| && ClientShift(requests[o], key)
    ensures Names(requests, o, key) && Succeeded(requests, key, t, o)
  {
    ClientShiftKey(key);
    SucceedsIff(cfg, requests, key, s, run, t, o);
  }

  ghost predicate AllClients(requests: seq<Option<Request>>, key: Key)
    requires |key| < 0x1_0000
  {
    forall o :: 0 <= o < |requests| && Names(requests, o, key) ==> ClientShift(requests[o], key)
  }

  lemma ClientsListed(cfg: Config, requests: seq<Option<Request>>, key: Key, s: State,
                      run: seq<(OpId, Act)>, t: State, ids: seq<OpId>)
    requires |key| < 0x1_0000 && Serves(cfg, requests, key) && Reaches(cfg, s, run, t) && AllDone(t)
    requires Distinct(ids) && forall o: OpId :: o in ids <==> Names(requests, o, key)
    requires AllClients(requests, key)
    ensures Lists(requests, key, t, ids) && Only(requests, Shft, key)
  {
    forall o: OpId ensures o in ids <==> Succeeded(requests, key, t, o) {
      if Names(requests, o, key) {
        ClientsSucceed(cfg, requests, key, s, run, t, o);
      }
    }
  }

  /** If the requests on a key are the benchmark's own, and no access of theirs fails, all of them
      succeed: n of them turn its counter v into v*2^n + 2^n - 1 modulo 2^64, whatever else runs. */
  lemma ClientShifts(cfg: Config, requests: seq<Option<Request>>, key: Key, s: State,
                     run: seq<(OpId, Act)>, t: State, ids: seq<OpId>)
    requires |key| < 0x1_0000 && Serves(cfg, requests, key) && Reaches(cfg, s, run, t) && AllDone(t)
    requires Distinct(ids) && forall o: OpId :: o in ids <==> Names(requests, o, key)
    requires AllClients(requests, key)
    ensures Lists(requests, key, t, ids)
    ensures DecodeCounter(Find(t.cache, key)) == Shifted(DecodeCounter(Find(cfg.initial, key)), |ids|)
  {
    ClientsListed(cfg, requests, key, s, run, t, ids);
    ConcurrentShift(cfg, requests, key, s, run, t, ids);
  }

  /** And such a request does name its key. */
  lemma ClientShiftKey(key: Key)
    requires |key| < 0x1_0000
    ensures HandlerKey(Shft, EncodeKeyArgs(key)) == Some(key)
  {
    KeyArgsReadBack(key, []);
    assert EncodeKeyArgs(key) + [] == EncodeKeyArgs(key);
  }

  // ---------- app ----------

  function Content(v: Option<Value>): Value {
    if v.Some? then v.value else []
  }

  /** What follows the key in a request's arguments. */
  function Suffix(args: seq<byte>): Value {
    if StdKey(args).None? then [] else Payload(args)
  }

  /** The suffixes of the requests, one after another in the given order. */
  function Joined(requests: seq<Option<Request>>, order: seq<OpId>): Value {
    if order == [] then []
    else Joined(requests, order[..|order| - 1]) + Suffix(ArgsOf(requests, order[|order| - 1]))
  }

  function AppendStep(requests: seq<Option<Request>>): (Value, nat) -> Value {
    (v: Value, o: nat) => v + Suffix(ArgsOf(requests, o))
  }

  lemma {:induction false} FoldAppend(v: Value, requests: seq<Option<Request>>, order: seq<OpId>)
    ensures Fold(AppendStep(requests), v, order) == v + Joined(requests, order)
  {
    if order != [] {
      var n := |order| - 1;
      FoldAppend(v, requests, order[..n]);
      Regroup(v, Joined(requests, order[..n]), Suffix(ArgsOf(requests, order[n])));
    } else {
      Regroup(v, [], []);
    }
  }

  lemma Regroup(a: Value, b: Value, c: Value)
    ensures (a + b) + c == a + (b + c) && a + [] == a
  {
  }

  /** The client's arguments carry its suffix, and name its key. */
  lemma ClientSuffix(key: Key, suffix: Value)
    requires |key| < 0x1_0000
    ensures Suffix(EncodeKeyArgs(key) + suffix) == suffix
    ensures HandlerKey(App, EncodeKeyArgs(key) + suffix) == Some(key)
  {
    KeyArgsReadBack(key, suffix);
  }

  /** After any concurrent run in which the requests on a key are `app`, its value has grown by the
      suffix of every request that returned Ok, each once, in the order in which their handlers
      returned. */
  lemma ConcurrentAppend(cfg: Config, requests: seq<Option<Request>>, key: Key, s: State,
                         run: seq<(OpId, Act)>, t: State)
    requires Serves(cfg, requests, key) && Only(requests, App, key)
    requires Reaches(cfg, s, run, t) && AllDone(t)
    ensures var won := Winners(requests, key, t, t.order);
            && Lists(requests, key, t, won)
            && Content(Find(t.cache, key)) == Content(Find(cfg.initial, key)) + Joined(requests, won)
  {
    ConcurrentFold(cfg, requests, key, s, run, t, Content, AppendStep(requests));
    FoldAppend(Content(Find(cfg.initial, key)), requests, Winners(requests, key, t, t.order));
  }
}

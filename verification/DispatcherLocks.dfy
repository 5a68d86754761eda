/** Mutual exclusion, deadlock freedom and termination of the dispatcher. */
module DispatcherLocks {
  import opened Bytes
  import opened DispatcherModel

  /** The mutexes an op holds: a prefix of its range while acquiring, a suffix while releasing. */
  predicate Holds(cfg: Config, o: OpId, pc: Pc, j: nat)
    requires o < |cfg.ops|
  {
    match pc
    case Acquiring(n) => Lo(cfg, o) <= j < n
    case Running(_) => Locks(cfg, o, j)
    case Releasing(n, _) => n <= j < Hi(cfg, o)
    case Done(_) => false
  }

  predicate PcOk(cfg: Config, o: OpId, pc: Pc)
    requires o < |cfg.ops|
  {
    (pc.Acquiring? || pc.Releasing?) ==> Lo(cfg, o) <= pc.next <= Hi(cfg, o)
  }

  ghost predicate LockInv(cfg: Config, s: State) {
    && |s.pcs| == |cfg.ops| && |s.locks| == cfg.shards
    && (forall o :: 0 <= o < |s.pcs| ==> PcOk(cfg, o, s.pcs[o]))
    && (forall o, j :: 0 <= o < |s.pcs| && 0 <= j < |s.locks| ==>
          (Holds(cfg, o, s.pcs[o], j) <==> s.locks[j] == Some(o)))
    && (forall j :: 0 <= j < |s.locks| && s.locks[j].Some? ==> s.locks[j].value < |s.pcs|)
  }

  /** Moving within its own program, holding what it held. */
  lemma LockMoved(cfg: Config, s: State, o: OpId, pc: Pc)
    requires LockInv(cfg, s) && o < |s.pcs| && PcOk(cfg, o, pc)
    requires forall j :: 0 <= j < |s.locks| ==> (Holds(cfg, o, pc, j) <==> Holds(cfg, o, s.pcs[o], j))
    ensures LockInv(cfg, Goto(s, o, pc))
  {
  }

  lemma LockTaken(cfg: Config, s: State, o: OpId)
    requires LockInv(cfg, s) && Enabled(cfg, s, o, Lock)
    ensures LockInv(cfg, Effect(cfg, s, o, Lock))
  {
    var n, t := s.pcs[o].next, Effect(cfg, s, o, Lock);
    assert t.locks == s.locks[n := Some(o)] && t.pcs == s.pcs[o := Acquiring(n + 1)];
    forall p, j | 0 <= p < |t.pcs| && 0 <= j < |t.locks|
      ensures Holds(cfg, p, t.pcs[p], j) <==> t.locks[j] == Some(p)
    {
      assert Holds(cfg, p, s.pcs[p], j) <==> s.locks[j] == Some(p);
    }
  }

  lemma LockReleased(cfg: Config, s: State, o: OpId)
    requires LockInv(cfg, s) && Enabled(cfg, s, o, Unlock)
    ensures LockInv(cfg, Effect(cfg, s, o, Unlock))
  {
    var n, t := s.pcs[o].next, Effect(cfg, s, o, Unlock);
    assert t.locks == s.locks[n := None];
    assert Holds(cfg, o, s.pcs[o], n) <==> s.locks[n] == Some(o);
    forall p, j | 0 <= p < |t.pcs| && 0 <= j < |t.locks|
      ensures Holds(cfg, p, t.pcs[p], j) <==> t.locks[j] == Some(p)
    {
      assert Holds(cfg, p, s.pcs[p], j) <==> s.locks[j] == Some(p);
    }
  }

  lemma LockKept(cfg: Config, s: State, o: OpId, act: Act)
    requires WellRouted(cfg) && LockInv(cfg, s) && Enabled(cfg, s, o, act)
    ensures LockInv(cfg, Effect(cfg, s, o, act))
  {
    var t := Effect(cfg, s, o, act);
    match act
    case Lock => LockTaken(cfg, s, o);
    case Unlock => LockReleased(cfg, s, o);
    case _ =>
      assert RoutedOp(cfg, o);
      LockMoved(cfg, s, o, t.pcs[o]);
      assert t.locks == s.locks && t.pcs == s.pcs[o := t.pcs[o]];
  }

  lemma {:induction false} LocksAlong(cfg: Config, s: State, run: seq<(OpId, Act)>, t: State)
    requires WellRouted(cfg) && LockInv(cfg, s) && Follows(cfg, s, run, t)
    ensures LockInv(cfg, t)
    decreases |run|
  {
    if run != [] {
      LockKept(cfg, s, run[0].0, run[0].1);
      LocksAlong(cfg, Effect(cfg, s, run[0].0, run[0].1), run[1..], t);
    }
  }

  /** In every reachable state the mutexes owned by an op are exactly a contiguous range. */
  lemma HeldRange(cfg: Config, s: State, run: seq<(OpId, Act)>, t: State, o: OpId, j: nat)
    requires Reaches(cfg, s, run, t) && o < |cfg.ops| && j < cfg.shards
    ensures |t.pcs| == |cfg.ops| && |t.locks| == cfg.shards
    ensures t.locks[j] == Some(o) <==>
              match t.pcs[o]
              case Acquiring(n) => Lo(cfg, o) <= j < n
              case Running(_) => Lo(cfg, o) <= j < Hi(cfg, o)
              case Releasing(n, _) => n <= j < Hi(cfg, o)
              case Done(_) => false
  {
    LocksAlong(cfg, s, run, t);
  }

  /** No two handlers run on the same shard, and nothing read-write runs beside a barrier. */
  lemma MutualExclusion(cfg: Config, s: State, run: seq<(OpId, Act)>, t: State, o: OpId, p: OpId)
    requires Reaches(cfg, s, run, t) && o != p
    requires o < |t.pcs| && p < |t.pcs| && t.pcs[o].Running? && t.pcs[p].Running?
    ensures |t.pcs| == |cfg.ops|
    ensures forall k :: !(Covers(cfg, o, k) && Covers(cfg, p, k))
    ensures cfg.ops[o].route.Barrier? ==> !cfg.ops[p].route.Shard?
    ensures cfg.ops[o].route.Barrier? && cfg.ops[p].route.Barrier? ==> cfg.shards == 0
  {
    LocksAlong(cfg, s, run, t);
    Disjoint(cfg, t, o, p);
    assert RoutedOp(cfg, p);
    assert cfg.ops[p].route.Shard? ==> Locks(cfg, p, cfg.ops[p].route.index);
    assert cfg.ops[p].route.Barrier? && cfg.shards > 0 ==> Locks(cfg, p, 0);
  }

  lemma Disjoint(cfg: Config, t: State, o: OpId, p: OpId)
    requires WellRouted(cfg) && LockInv(cfg, t) && o != p
    requires o < |t.pcs| && p < |t.pcs| && t.pcs[o].Running? && t.pcs[p].Running?
    ensures forall j: nat :: !(Locks(cfg, o, j) && Locks(cfg, p, j))
  {
    assert RoutedOp(cfg, o);
    forall j: nat | Locks(cfg, o, j) ensures !Locks(cfg, p, j) {
      assert Holds(cfg, o, t.pcs[o], j) && t.locks[j] == Some(o);
      assert Holds(cfg, p, t.pcs[p], j) <==> t.locks[j] == Some(p);
    }
  }

  // ---------- deadlock freedom ----------

  predicate CanMove(cfg: Config, s: State, o: OpId) {
    || Enabled(cfg, s, o, Lock) || Enabled(cfg, s, o, Begin) || Enabled(cfg, s, o, Handle)
    || Enabled(cfg, s, o, Unlock) || Enabled(cfg, s, o, Finish)
  }

  /** As long as an op is unfinished, some op can move. */
  lemma NoDeadlock(cfg: Config, s: State, run: seq<(OpId, Act)>, t: State)
    requires Reaches(cfg, s, run, t)
    requires forall o :: !CanMove(cfg, t, o)
    ensures AllDone(t)
  {
    LocksAlong(cfg, s, run, t);
    forall o | 0 <= o < |t.pcs| ensures t.pcs[o].Done? {
      if !t.pcs[o].Done? {
        var p := SomeoneMoves(cfg, t, o);
      }
    }
  }

  /** Whoever owns the mutex an op waits for is itself past that mutex, and so further up the
      ascending order: following the owners ends at an op that can move. */
  lemma {:induction false} SomeoneMoves(cfg: Config, s: State, o: OpId) returns (p: OpId)
    requires WellRouted(cfg) && LockInv(cfg, s) && o < |s.pcs| && !s.pcs[o].Done?
    ensures CanMove(cfg, s, p)
    decreases if s.pcs[o].Acquiring? then 1 + cfg.shards - s.pcs[o].next else 0
  {
    var pc := s.pcs[o];
    assert RoutedOp(cfg, o);
    if pc.Acquiring? && pc.next < Hi(cfg, o) && s.locks[pc.next].Some? {
      var owner := s.locks[pc.next].value;
      assert Holds(cfg, owner, s.pcs[owner], pc.next);
      p := SomeoneMoves(cfg, s, owner);
    } else {
      p := o;
    }
  }

  /** An op on one shard is kept waiting only by an op that holds that very shard's mutex; whatever
      goes on under the other mutexes, it goes on as well. */
  lemma ShardsIndependent(cfg: Config, s: State, run: seq<(OpId, Act)>, t: State, o: OpId)
    requires Reaches(cfg, s, run, t) && o < |cfg.ops| && cfg.ops[o].route.Shard?
    ensures |t.pcs| == |cfg.ops| && |t.locks| == cfg.shards && cfg.ops[o].route.index < cfg.shards
    ensures !t.pcs[o].Done? && !CanMove(cfg, t, o) ==>
              exists p :: 0 <= p < |t.pcs| && p != o && t.locks[cfg.ops[o].route.index] == Some(p)
    ensures forall j :: 0 <= j < cfg.shards && t.locks[j] == Some(o) ==> j == cfg.ops[o].route.index
  {
    LocksAlong(cfg, s, run, t);
    assert RoutedOp(cfg, o);
    var j := cfg.ops[o].route.index;
    if !t.pcs[o].Done? && !CanMove(cfg, t, o) {
      assert t.pcs[o] == Acquiring(j) && t.locks[j].Some?;
      assert Holds(cfg, o, t.pcs[o], j) <==> t.locks[j] == Some(o);
    }
    forall i | 0 <= i < cfg.shards && t.locks[i] == Some(o) ensures i == j {
      assert Holds(cfg, o, t.pcs[o], i);
    }
  }

  // ---------- termination ----------

  function Rank(cfg: Config, o: OpId, pc: Pc): int
    requires o < |cfg.ops|
  {
    var w := Hi(cfg, o) - Lo(cfg, o);
    match pc
    case Acquiring(n) => (Hi(cfg, o) - n) + 1 + cfg.ops[o].limit + 1 + w + 1
    case Running(seen) => (cfg.ops[o].limit - |seen|) + 1 + w + 1
    case Releasing(n, _) => (Hi(cfg, o) - n) + 1
    case Done(_) => 0
  }

  function Measure(cfg: Config, pcs: seq<Pc>): int
    requires |pcs| <= |cfg.ops|
  {
    if pcs == [] then 0
    else Measure(cfg, pcs[..|pcs| - 1]) + Rank(cfg, |pcs| - 1, pcs[|pcs| - 1])
  }

  lemma {:induction false} MeasureUpdate(cfg: Config, pcs: seq<Pc>, o: OpId, pc: Pc)
    requires |pcs| <= |cfg.ops| && o < |pcs|
    ensures Measure(cfg, pcs[o := pc]) == Measure(cfg, pcs) - Rank(cfg, o, pcs[o]) + Rank(cfg, o, pc)
  {
    var n := |pcs| - 1;
    if o < n {
      MeasureUpdate(cfg, pcs[..n], o, pc);
      assert pcs[o := pc][..n] == pcs[..n][o := pc];
    } else {
      assert pcs[o := pc][..n] == pcs[..n];
    }
  }

  ghost predicate WithinLimit(cfg: Config, s: State) {
    && |s.pcs| == |cfg.ops|
    && (forall o :: 0 <= o < |s.pcs| ==>
          PcOk(cfg, o, s.pcs[o]) && (s.pcs[o].Running? ==> |s.pcs[o].seen| <= cfg.ops[o].limit))
  }

  lemma StepDescends(cfg: Config, s: State, o: OpId, act: Act)
    requires WellRouted(cfg) && WithinLimit(cfg, s) && Enabled(cfg, s, o, act)
    ensures WithinLimit(cfg, Effect(cfg, s, o, act))
    ensures Measure(cfg, Effect(cfg, s, o, act).pcs) < Measure(cfg, s.pcs)
  {
    var t := Effect(cfg, s, o, act);
    assert RoutedOp(cfg, o);
    assert t.pcs == s.pcs[o := t.pcs[o]];
    MeasureUpdate(cfg, s.pcs, o, t.pcs[o]);
  }

  lemma {:induction false} MeasureNat(cfg: Config, pcs: seq<Pc>)
    requires |pcs| <= |cfg.ops|
    requires forall o :: 0 <= o < |pcs| ==>
               PcOk(cfg, o, pcs[o]) && (pcs[o].Running? ==> |pcs[o].seen| <= cfg.ops[o].limit)
               && Lo(cfg, o) <= Hi(cfg, o)
    ensures Measure(cfg, pcs) >= 0
  {
    if pcs != [] {
      MeasureNat(cfg, pcs[..|pcs| - 1]);
    }
  }

  lemma {:induction false} RunDescends(cfg: Config, s: State, run: seq<(OpId, Act)>, t: State)
    requires WellRouted(cfg) && WithinLimit(cfg, s) && Follows(cfg, s, run, t)
    ensures |run| <= Measure(cfg, s.pcs)
    decreases |run|
  {
    if run == [] {
      MeasureNat(cfg, s.pcs);
    } else {
      StepDescends(cfg, s, run[0].0, run[0].1);
      RunDescends(cfg, Effect(cfg, s, run[0].0, run[0].1), run[1..], t);
    }
  }

  lemma {:induction false} StartMeasure(cfg: Config, pcs: seq<Pc>, limit: nat)
    requires WellRouted(cfg) && |pcs| <= |cfg.ops|
    requires forall o :: 0 <= o < |pcs| ==> pcs[o] == Acquiring(Lo(cfg, o)) && cfg.ops[o].limit <= limit
    ensures Measure(cfg, pcs) <= |pcs| * (2 * cfg.shards + limit + 3)
  {
    if pcs != [] {
      var n := |pcs| - 1;
      StartMeasure(cfg, pcs[..n], limit);
      assert RoutedOp(cfg, n);
      assert Rank(cfg, n, pcs[n]) <= 2 * cfg.shards + limit + 3;
      OneMore(n, 2 * cfg.shards + limit + 3);
    }
  }

  lemma OneMore(n: nat, k: nat)
    ensures (n + 1) * k == n * k + k
  {
  }

  /** No schedule runs for ever: with handlers of at most `limit` accesses, each op takes at most
      2*shards + limit + 3 steps. */
  lemma RunsEnd(cfg: Config, s: State, run: seq<(OpId, Act)>, t: State, limit: nat)
    requires Reaches(cfg, s, run, t) && forall o :: 0 <= o < |cfg.ops| ==> cfg.ops[o].limit <= limit
    ensures |run| <= |cfg.ops| * (2 * cfg.shards + limit + 3)
  {
    RunDescends(cfg, s, run, t);
    StartMeasure(cfg, s.pcs, limit);
  }
}

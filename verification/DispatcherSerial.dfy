/** Every interleaved run of the dispatcher is equivalent to running whole ops one after another,
    in the order in which their handlers returned. */
module DispatcherSerial {
  import opened Bytes
  import opened DispatcherModel
  import opened DispatcherLocks

  /** The part of a cache that op o may touch, and the part it may not. */
  ghost function Inside(cfg: Config, o: OpId, m: Cache): Cache
    requires o < |cfg.ops|
  {
    map k | k in m && Covers(cfg, o, k) :: m[k]
  }

  ghost function Outside(cfg: Config, o: OpId, m: Cache): Cache
    requires o < |cfg.ops|
  {
    map k | k in m && !Covers(cfg, o, k) :: m[k]
  }

  /** A handler cannot see or change what its mutexes do not cover. */
  lemma {:induction false} ExecFrame(cfg: Config, o: OpId, m: Cache, seen: seq<Seen>)
    requires ReadWrite(cfg, o) && RoutedOp(cfg, o)
    ensures Exec(cfg.ops[o], m, seen).0 == Exec(cfg.ops[o], Inside(cfg, o, m), seen).0
    ensures Inside(cfg, o, Exec(cfg.ops[o], m, seen).1) == Exec(cfg.ops[o], Inside(cfg, o, m), seen).1
    ensures Outside(cfg, o, Exec(cfg.ops[o], m, seen).1) == Outside(cfg, o, m)
    decreases cfg.ops[o].limit - |seen|
  {
    var op := cfg.ops[o];
    var a := op.act(seen);
    assert ActionOk(cfg, o, a);
    if !a.Return? {
      var (x, m') := Access(op, |seen|, a, m);
      AccessFrame(cfg, o, |seen|, a, m);
      ExecFrame(cfg, o, m', seen + [x]);
    }
  }

  lemma AccessFrame(cfg: Config, o: OpId, n: nat, a: Action, m: Cache)
    requires ReadWrite(cfg, o) && ActionOk(cfg, o, a) && !a.Return?
    ensures Access(cfg.ops[o], n, a, m).0 == Access(cfg.ops[o], n, a, Inside(cfg, o, m)).0
    ensures Inside(cfg, o, Access(cfg.ops[o], n, a, m).1) == Access(cfg.ops[o], n, a, Inside(cfg, o, m)).1
    ensures Outside(cfg, o, Access(cfg.ops[o], n, a, m).1) == Outside(cfg, o, m)
  {
  }

  ghost predicate SameAt(m: Cache, n: Cache, k: Key) {
    && (k in m <==> k in n)
    && (k in m ==> m[k] == n[k])
  }

  lemma SameEverywhere(m: Cache, n: Cache)
    requires forall k: Key :: SameAt(m, n, k)
    ensures m == n
  {
    assert forall k :: k in m ==> SameAt(m, n, k);
    assert forall k :: k in n ==> SameAt(m, n, k);
  }

  /** Handler o has returned. */
  predicate Returned(pc: Pc) {
    pc.Releasing? || pc.Done?
  }

  /** `order` lists the read-write ops whose handlers have returned, each once. */
  ghost predicate OrderInv(cfg: Config, s: State) {
    && |s.pcs| == |cfg.ops|
    && (forall i, j :: 0 <= i < j < |s.order| ==> s.order[i] != s.order[j])
    && (forall i :: 0 <= i < |s.order| ==> ReadWrite(cfg, s.order[i]) && Returned(s.pcs[s.order[i]]))
    && (forall o :: 0 <= o < |s.pcs| && ReadWrite(cfg, o) && Returned(s.pcs[o]) ==> o in s.order)
  }

  /** An op in mid-handler will end as it would have, had it run alone on the committed cache. */
  ghost predicate OnTrack(cfg: Config, s: State, o: OpId, committed: Cache)
    requires o < |cfg.ops| && Bounded(cfg.ops[o]) && o < |s.pcs| && s.pcs[o].Running?
  {
    Exec(cfg.ops[o], Inside(cfg, o, committed), [])
      == Exec(cfg.ops[o], Inside(cfg, o, s.cache), s.pcs[o].seen)
  }

  /** Some running handler may have touched key k. */
  ghost predicate Busy(cfg: Config, s: State, k: Key) {
    exists o :: 0 <= o < |s.pcs| && o < |cfg.ops| && s.pcs[o].Running? && Covers(cfg, o, k)
  }

  ghost predicate CacheInv(cfg: Config, s: State, committed: Cache) {
    && (forall o :: 0 <= o < |s.pcs| && ReadWrite(cfg, o) && Bounded(cfg.ops[o]) && s.pcs[o].Running? ==>
          OnTrack(cfg, s, o, committed))
    && (forall k: Key :: !Busy(cfg, s, k) ==> SameAt(s.cache, committed, k))
  }

  /** Each returned op has the result of its place in the serial order. */
  ghost predicate ResultInv(cfg: Config, s: State)
    requires Runnable(cfg, s.order) && |s.pcs| == |cfg.ops|
  {
    forall i :: 0 <= i < |s.order| && Returned(s.pcs[s.order[i]]) ==>
      s.pcs[s.order[i]].result == SerialResult(cfg, s.order, i)
  }

  ghost function SerialResult(cfg: Config, order: seq<OpId>, i: nat): Result
    requires Runnable(cfg, order) && i < |order|
  {
    Exec(cfg.ops[order[i]], Serial(cfg, order[..i]), []).0
  }

  ghost predicate Inv(cfg: Config, s: State) {
    && LockInv(cfg, s) && OrderInv(cfg, s) && Runnable(cfg, s.order)
    && CacheInv(cfg, s, Serial(cfg, s.order)) && ResultInv(cfg, s)
  }

  lemma OrderKept(cfg: Config, s: State, o: OpId, act: Act)
    requires WellRouted(cfg) && OrderInv(cfg, s) && Enabled(cfg, s, o, act)
    ensures OrderInv(cfg, Effect(cfg, s, o, act))
    ensures Runnable(cfg, Effect(cfg, s, o, act).order)
  {
    var t := Effect(cfg, s, o, act);
    forall i | 0 <= i < |t.order| ensures t.order[i] < |cfg.ops| && Bounded(cfg.ops[t.order[i]]) {
      assert RoutedOp(cfg, t.order[i]);
    }
    if t.order != s.order {
      assert t.order[|t.order| - 1] == o;
    }
  }

  /** No other running handler covers a key of an op that holds all its mutexes. */
  lemma CoversAlone(cfg: Config, s: State, o: OpId, p: OpId, k: Key)
    requires WellRouted(cfg) && LockInv(cfg, s) && o != p && o < |s.pcs| && p < |s.pcs|
    requires s.pcs[o].Running? || s.pcs[o] == Acquiring(Hi(cfg, o))
    requires s.pcs[p].Running?
    ensures !(Covers(cfg, o, k) && Covers(cfg, p, k))
  {
    assert RoutedOp(cfg, o);
    var j := cfg.shardOf(k);
    if Locks(cfg, o, j) {
      assert Holds(cfg, o, s.pcs[o], j) && s.locks[j] == Some(o);
      assert Holds(cfg, p, s.pcs[p], j) <==> s.locks[j] == Some(p);
    }
  }

  /** A key stays busy while op o moves, unless o was the one running over it and stops. */
  lemma BusyCarried(cfg: Config, s: State, t: State, o: OpId, k: Key)
    requires o < |s.pcs| == |t.pcs| <= |cfg.ops| && t.pcs == s.pcs[o := t.pcs[o]]
    requires s.pcs[o].Running? && Covers(cfg, o, k) ==> t.pcs[o].Running?
    ensures Busy(cfg, s, k) ==> Busy(cfg, t, k)
  {
    if Busy(cfg, s, k) {
      var p :| 0 <= p < |s.pcs| && p < |cfg.ops| && s.pcs[p].Running? && Covers(cfg, p, k);
      assert t.pcs[p].Running?;
    }
  }

  /** Taking and releasing mutexes. */
  lemma CacheMoved(cfg: Config, s: State, o: OpId, act: Act, committed: Cache)
    requires CacheInv(cfg, s, committed) && Enabled(cfg, s, o, act) && !act.Handle? && !act.Begin?
    ensures CacheInv(cfg, Effect(cfg, s, o, act), committed)
  {
    var t := Effect(cfg, s, o, act);
    forall k: Key | !Busy(cfg, t, k) ensures SameAt(t.cache, committed, k) {
      BusyCarried(cfg, s, t, o, k);
    }
    forall p | 0 <= p < |t.pcs| && ReadWrite(cfg, p) && Bounded(cfg.ops[p]) && t.pcs[p].Running?
      ensures OnTrack(cfg, t, p, committed)
    {
      assert OnTrack(cfg, s, p, committed);
    }
  }

  /** A handler that starts finds the committed values under its mutexes. */
  lemma CacheBegun(cfg: Config, s: State, o: OpId, committed: Cache)
    requires WellRouted(cfg) && LockInv(cfg, s) && CacheInv(cfg, s, committed) && Enabled(cfg, s, o, Begin)
    ensures CacheInv(cfg, Effect(cfg, s, o, Begin), committed)
  {
    var t := Effect(cfg, s, o, Begin);
    forall k: Key | Covers(cfg, o, k) ensures SameAt(s.cache, committed, k) {
      forall p | 0 <= p < |s.pcs| && s.pcs[p].Running? ensures !Covers(cfg, p, k) {
        CoversAlone(cfg, s, o, p, k);
      }
    }
    forall k: Key | !Busy(cfg, t, k) ensures SameAt(t.cache, committed, k) {
      BusyCarried(cfg, s, t, o, k);
    }
    assert forall k: Key :: Covers(cfg, o, k) ==> SameAt(s.cache, committed, k);
    assert Inside(cfg, o, committed) == Inside(cfg, o, s.cache);
    forall p | 0 <= p < |t.pcs| && ReadWrite(cfg, p) && Bounded(cfg.ops[p]) && t.pcs[p].Running?
      ensures OnTrack(cfg, t, p, committed)
    {
      assert p != o ==> OnTrack(cfg, s, p, committed);
    }
  }

  /** One access of one handler: its own course is the one it was on, and nobody else's changes. */
  lemma CacheAccessed(cfg: Config, s: State, o: OpId, committed: Cache)
    requires WellRouted(cfg) && LockInv(cfg, s) && CacheInv(cfg, s, committed) && Enabled(cfg, s, o, Handle)
    requires !cfg.ops[o].act(s.pcs[o].seen).Return?
    ensures CacheInv(cfg, Handled(cfg, s, o), committed)
  {
    var t, op, seen := Handled(cfg, s, o), cfg.ops[o], s.pcs[o].seen;
    var a := op.act(seen);
    assert RoutedOp(cfg, o) && ActionOk(cfg, o, a);
    forall k: Key | !Busy(cfg, t, k) ensures SameAt(t.cache, committed, k) {
      BusyCarried(cfg, s, t, o, k);
      assert !Covers(cfg, o, k) by {
        assert t.pcs[o].Running?;
      }
    }
    forall p | 0 <= p < |t.pcs| && ReadWrite(cfg, p) && Bounded(cfg.ops[p]) && t.pcs[p].Running?
      ensures OnTrack(cfg, t, p, committed)
    {
      assert OnTrack(cfg, s, p, committed);
      if p == o {
        AccessFrame(cfg, o, |seen|, a, s.cache);
      } else if a.Put? {
        CoversAlone(cfg, s, o, p, a.key);
        assert Inside(cfg, p, t.cache) == Inside(cfg, p, s.cache);
      }
    }
  }

  /** A handler that returns commits: what its mutexes cover is now what it left there. */
  lemma CacheCommitted(cfg: Config, s: State, o: OpId, committed: Cache)
    requires WellRouted(cfg) && LockInv(cfg, s) && CacheInv(cfg, s, committed) && Enabled(cfg, s, o, Handle)
    requires cfg.ops[o].act(s.pcs[o].seen).Return? && ReadWrite(cfg, o) && Bounded(cfg.ops[o])
    ensures CacheInv(cfg, Handled(cfg, s, o), Exec(cfg.ops[o], committed, []).1)
    ensures cfg.ops[o].act(s.pcs[o].seen).result == Exec(cfg.ops[o], committed, []).0
  {
    var t, op := Handled(cfg, s, o), cfg.ops[o];
    var after := Exec(op, committed, []).1;
    assert RoutedOp(cfg, o) && OnTrack(cfg, s, o, committed);
    ExecFrame(cfg, o, committed, []);
    assert Inside(cfg, o, after) == Inside(cfg, o, s.cache) && Outside(cfg, o, after) == Outside(cfg, o, committed);
    forall k: Key ensures SameAt(after, if Covers(cfg, o, k) then s.cache else committed, k) {
      assert k in after <==> k in Inside(cfg, o, after) || k in Outside(cfg, o, after);
      assert k in s.cache && Covers(cfg, o, k) <==> k in Inside(cfg, o, s.cache);
      assert k in committed && !Covers(cfg, o, k) <==> k in Outside(cfg, o, committed);
    }
    forall k: Key | !Busy(cfg, t, k) ensures SameAt(t.cache, after, k) {
      assert SameAt(after, if Covers(cfg, o, k) then s.cache else committed, k);
      if !Covers(cfg, o, k) {
        BusyCarried(cfg, s, t, o, k);
      }
    }
    forall p | 0 <= p < |t.pcs| && ReadWrite(cfg, p) && Bounded(cfg.ops[p]) && t.pcs[p].Running?
      ensures OnTrack(cfg, t, p, after)
    {
      assert OnTrack(cfg, s, p, committed);
      forall k: Key | Covers(cfg, p, k) ensures SameAt(after, committed, k) {
        CoversAlone(cfg, s, o, p, k);
        assert SameAt(after, if Covers(cfg, o, k) then s.cache else committed, k);
      }
      InsideSame(cfg, p, after, committed);
    }
  }

  lemma InsideSame(cfg: Config, p: OpId, m: Cache, n: Cache)
    requires p < |cfg.ops| && forall k: Key | Covers(cfg, p, k) :: SameAt(m, n, k)
    ensures Inside(cfg, p, m) == Inside(cfg, p, n)
  {
    assert forall k :: k in Inside(cfg, p, m) ==> SameAt(m, n, k);
    assert forall k :: k in Inside(cfg, p, n) ==> SameAt(m, n, k);
  }

  predicate Commits(cfg: Config, s: State, o: OpId, act: Act)
    requires Enabled(cfg, s, o, act)
  {
    act.Handle? && cfg.ops[o].act(s.pcs[o].seen).Return? && ReadWrite(cfg, o)
  }

  lemma InvKept(cfg: Config, s: State, o: OpId, act: Act)
    requires WellRouted(cfg) && Inv(cfg, s) && Enabled(cfg, s, o, act)
    ensures Inv(cfg, Effect(cfg, s, o, act)) && s.order <= Effect(cfg, s, o, act).order
  {
    LockKept(cfg, s, o, act);
    OrderKept(cfg, s, o, act);
    if Commits(cfg, s, o, act) {
      CommitKept(cfg, s, o);
    } else {
      OtherKept(cfg, s, o, act);
    }
  }

  lemma CommitKept(cfg: Config, s: State, o: OpId)
    requires WellRouted(cfg) && Inv(cfg, s) && Enabled(cfg, s, o, Handle) && Commits(cfg, s, o, Handle)
    requires Runnable(cfg, Handled(cfg, s, o).order)
    ensures CacheInv(cfg, Handled(cfg, s, o), Serial(cfg, Handled(cfg, s, o).order))
    ensures ResultInv(cfg, Handled(cfg, s, o))
  {
    var t := Handled(cfg, s, o);
    assert RoutedOp(cfg, o);
    assert t.order[..|t.order| - 1] == s.order;
    CacheCommitted(cfg, s, o, Serial(cfg, s.order));
    ResultsKept(cfg, s, o, t);
  }

  lemma OtherKept(cfg: Config, s: State, o: OpId, act: Act)
    requires WellRouted(cfg) && Inv(cfg, s) && Enabled(cfg, s, o, act) && !Commits(cfg, s, o, act)
    ensures Effect(cfg, s, o, act).order == s.order
    ensures CacheInv(cfg, Effect(cfg, s, o, act), Serial(cfg, s.order))
    ensures ResultInv(cfg, Effect(cfg, s, o, act))
  {
    var committed := Serial(cfg, s.order);
    if act.Handle? && !cfg.ops[o].act(s.pcs[o].seen).Return? {
      CacheAccessed(cfg, s, o, committed);
    } else if act.Begin? {
      CacheBegun(cfg, s, o, committed);
    } else if act.Handle? {
      CacheUnlocked(cfg, s, o, committed);
    } else {
      CacheMoved(cfg, s, o, act, committed);
    }
    OtherResults(cfg, s, o, act);
  }

  lemma OtherResults(cfg: Config, s: State, o: OpId, act: Act)
    requires OrderInv(cfg, s) && Runnable(cfg, s.order) && ResultInv(cfg, s)
    requires Enabled(cfg, s, o, act) && !Commits(cfg, s, o, act)
    ensures Effect(cfg, s, o, act).order == s.order && ResultInv(cfg, Effect(cfg, s, o, act))
  {
    var t := Effect(cfg, s, o, act);
    assert t.order == s.order && t.pcs == s.pcs[o := t.pcs[o]];
    assert Returned(t.pcs[o]) && ReadWrite(cfg, o) ==> Returned(s.pcs[o]) && t.pcs[o].result == s.pcs[o].result;
    ResultsCarried(cfg, s, o, t);
  }

  lemma ResultsCarried(cfg: Config, s: State, o: OpId, t: State)
    requires OrderInv(cfg, s) && Runnable(cfg, s.order) && ResultInv(cfg, s)
    requires o < |s.pcs| == |t.pcs| && t.order == s.order && t.pcs == s.pcs[o := t.pcs[o]]
    requires Returned(t.pcs[o]) && ReadWrite(cfg, o) ==> Returned(s.pcs[o]) && t.pcs[o].result == s.pcs[o].result
    ensures ResultInv(cfg, t)
  {
  }

  /** An op that takes no mutex covers no key, so its return commits nothing. */
  lemma CacheUnlocked(cfg: Config, s: State, o: OpId, committed: Cache)
    requires CacheInv(cfg, s, committed) && Enabled(cfg, s, o, Handle)
    requires cfg.ops[o].act(s.pcs[o].seen).Return? && !ReadWrite(cfg, o)
    ensures CacheInv(cfg, Handled(cfg, s, o), committed)
  {
    var t := Handled(cfg, s, o);
    forall k: Key | !Busy(cfg, t, k) ensures SameAt(t.cache, committed, k) {
      BusyCarried(cfg, s, t, o, k);
    }
    forall p | 0 <= p < |t.pcs| && ReadWrite(cfg, p) && Bounded(cfg.ops[p]) && t.pcs[p].Running?
      ensures OnTrack(cfg, t, p, committed)
    {
      assert OnTrack(cfg, s, p, committed);
    }
  }

  lemma ResultsKept(cfg: Config, s: State, o: OpId, t: State)
    requires OrderInv(cfg, s) && Runnable(cfg, s.order) && ResultInv(cfg, s)
    requires o < |s.pcs| && Bounded(cfg.ops[o]) && s.pcs[o].Running?
    requires t.order == s.order + [o] && Runnable(cfg, t.order)
    requires |t.pcs| == |s.pcs| && t.pcs == s.pcs[o := t.pcs[o]] && t.pcs[o].Releasing?
    requires t.pcs[o].result == Exec(cfg.ops[o], Serial(cfg, s.order), []).0
    ensures ResultInv(cfg, t)
  {
    forall i | 0 <= i < |t.order| && Returned(t.pcs[t.order[i]])
      ensures t.pcs[t.order[i]].result == SerialResult(cfg, t.order, i)
    {
      assert t.order[..i] == s.order[..i];
      if i == |s.order| {
        assert s.order[..i] == s.order;
      } else {
        assert t.order[i] == s.order[i] && s.order[i] != o;
      }
    }
  }

  lemma {:induction false} InvAlong(cfg: Config, s: State, run: seq<(OpId, Act)>, t: State)
    requires WellRouted(cfg) && Inv(cfg, s) && Follows(cfg, s, run, t)
    ensures Inv(cfg, t) && s.order <= t.order
    decreases |run|
  {
    if run != [] {
      InvKept(cfg, s, run[0].0, run[0].1);
      InvAlong(cfg, Effect(cfg, s, run[0].0, run[0].1), run[1..], t);
    }
  }

  lemma InitInv(cfg: Config, s: State)
    requires WellRouted(cfg) && Init(cfg, s)
    ensures Inv(cfg, s)
  {
    assert forall k: Key :: SameAt(s.cache, Serial(cfg, s.order), k);
    assert forall o :: 0 <= o < |s.pcs| ==> RoutedOp(cfg, o);
  }

  // ---------- what callers may rely on ----------

  /** When every op is done, the cache is that of a serial run of the read-write ops, each of them
      exactly once, and every one of them returned what it returns in that serial run. */
  lemma Serializable(cfg: Config, s: State, run: seq<(OpId, Act)>, t: State)
    requires Reaches(cfg, s, run, t) && AllDone(t)
    ensures Runnable(cfg, t.order) && t.cache == Serial(cfg, t.order)
    ensures forall o :: ReadWrite(cfg, o) <==> o in t.order
    ensures forall i, j :: 0 <= i < j < |t.order| ==> t.order[i] != t.order[j]
    ensures |t.pcs| == |cfg.ops| && forall i :: 0 <= i < |t.order| ==>
              t.pcs[t.order[i]] == Done(SerialResult(cfg, t.order, i))
  {
    InitInv(cfg, s);
    InvAlong(cfg, s, run, t);
    forall k: Key ensures SameAt(t.cache, Serial(cfg, t.order), k) {
      assert !Busy(cfg, t, k);
    }
    SameEverywhere(t.cache, Serial(cfg, t.order));
  }

  /** The serial order respects real time: an op that was back before another took its first
      mutex comes before it. */
  lemma RealTimeOrder(cfg: Config, s: State, run0: seq<(OpId, Act)>, mid: State, run1: seq<(OpId, Act)>,
                      t: State, o: OpId, p: OpId)
    requires Reaches(cfg, s, run0, mid) && Follows(cfg, mid, run1, t) && AllDone(t)
    requires ReadWrite(cfg, o) && ReadWrite(cfg, p)
    requires |mid.pcs| == |cfg.ops| && mid.pcs[o].Done? && mid.pcs[p] == Acquiring(Lo(cfg, p))
    ensures exists i, j :: 0 <= i < j < |t.order| && t.order[i] == o && t.order[j] == p
  {
    InitInv(cfg, s);
    InvAlong(cfg, s, run0, mid);
    InvAlong(cfg, mid, run1, t);
    Precedes(cfg, mid, t, o, p);
  }

  lemma Precedes(cfg: Config, mid: State, t: State, o: OpId, p: OpId)
    requires OrderInv(cfg, mid) && OrderInv(cfg, t) && mid.order <= t.order && AllDone(t)
    requires ReadWrite(cfg, o) && ReadWrite(cfg, p)
    requires mid.pcs[o].Done? && mid.pcs[p].Acquiring?
    ensures exists i, j :: 0 <= i < j < |t.order| && t.order[i] == o && t.order[j] == p
  {
    var i :| 0 <= i < |mid.order| && mid.order[i] == o;
    assert Returned(t.pcs[p]) && p in t.order;
    var j :| 0 <= j < |t.order| && t.order[j] == p;
    assert t.order[i] == o;
    forall n | 0 <= n < |mid.order| ensures mid.order[n] != p {
      assert Returned(mid.pcs[mid.order[n]]);
    }
  }

  /** Until then, a key no running handler covers holds its committed value. */
  lemma QuietKeys(cfg: Config, s: State, run: seq<(OpId, Act)>, t: State, k: Key)
    requires Reaches(cfg, s, run, t)
    requires forall o :: 0 <= o < |t.pcs| && o < |cfg.ops| && t.pcs[o].Running? ==> !Covers(cfg, o, k)
    ensures Runnable(cfg, t.order) && SameAt(t.cache, Serial(cfg, t.order), k)
  {
    InitInv(cfg, s);
    InvAlong(cfg, s, run, t);
    assert !Busy(cfg, t, k);
  }
}

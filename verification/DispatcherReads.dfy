/** Reads without a mutex. An op that takes none may Get a key while a handler is in the middle of
    its work; when handlers put last, as the four ops of this server do, it still sees only values
    of the serial order. */
module DispatcherReads {
  import opened Bytes
  import opened DispatcherModel
  import opened DispatcherLocks
  import opened DispatcherSerial
  import opened HandlerSpec

  /** After a Put the handler returns. */
  ghost predicate PutsLast(op: Op) {
    forall seen: seq<Seen>, x: Seen :: op.act(seen).Put? ==> op.act(seen + [x]).Return?
  }

  ghost predicate WritersPutLast(cfg: Config) {
    forall o :: 0 <= o < |cfg.ops| && ReadWrite(cfg, o) ==> PutsLast(cfg.ops[o])
  }

  lemma HandlersPutLast(shardOf: Key -> nat, name: OpName, args: seq<byte>, fails: nat -> bool)
    ensures PutsLast(HandlerOp(shardOf, name, args, fails))
  {
    var op := HandlerOp(shardOf, name, args, fails);
    var key := HandlerKey(name, args);
    var decide := (cur: Option<Value>) => Decide(name, args, cur);
    forall seen: seq<Seen>, x: Seen | op.act(seen).Put? ensures op.act(seen + [x]).Return? {
      assert op.act(seen) == Course(key, decide, seen);
      CoursePutsLast(key, decide, seen, x);
    }
  }

  lemma CoursePutsLast(key: Option<Key>, decide: Option<Value> -> Decision, seen: seq<Seen>, x: Seen)
    requires Course(key, decide, seen).Put?
    ensures Course(key, decide, seen + [x]).Return?
  {
    assert |seen| == 1 && (seen + [x])[0] == seen[0];
  }

  /** A handler that has not put yet leaves what it covers as committed; one that has is about to
      return. */
  ghost predicate CleanOrReady(cfg: Config, s: State, o: OpId, committed: Cache)
    requires o < |cfg.ops| && o < |s.pcs| && s.pcs[o].Running?
  {
    Inside(cfg, o, s.cache) == Inside(cfg, o, committed) || cfg.ops[o].act(s.pcs[o].seen).Return?
  }

  ghost predicate CleanInv(cfg: Config, s: State)
    requires Runnable(cfg, s.order)
  {
    forall o :: 0 <= o < |s.pcs| && ReadWrite(cfg, o) && s.pcs[o].Running? ==>
      CleanOrReady(cfg, s, o, Serial(cfg, s.order))
  }

  /** While a handler runs, or is about to, no other running handler covers its keys. */
  lemma Alone(cfg: Config, s: State, o: OpId, k: Key)
    requires WellRouted(cfg) && LockInv(cfg, s) && o < |s.pcs|
    requires s.pcs[o].Running? || s.pcs[o] == Acquiring(Hi(cfg, o))
    requires Covers(cfg, o, k)
    ensures forall p :: 0 <= p < |s.pcs| && p != o && s.pcs[p].Running? ==> !Covers(cfg, p, k)
  {
    forall p | 0 <= p < |s.pcs| && p != o && s.pcs[p].Running? ensures !Covers(cfg, p, k) {
      CoversAlone(cfg, s, o, p, k);
    }
  }

  lemma CleanBegun(cfg: Config, s: State, o: OpId, committed: Cache)
    requires WellRouted(cfg) && LockInv(cfg, s) && CacheInv(cfg, s, committed) && Enabled(cfg, s, o, Begin)
    ensures Inside(cfg, o, s.cache) == Inside(cfg, o, committed)
  {
    forall k: Key | Covers(cfg, o, k) ensures SameAt(s.cache, committed, k) {
      Alone(cfg, s, o, k);
      assert !Busy(cfg, s, k);
    }
    InsideSame(cfg, o, s.cache, committed);
  }

  /** An access of one handler leaves what another covers. */
  lemma AccessElsewhere(cfg: Config, s: State, o: OpId, p: OpId)
    requires WellRouted(cfg) && LockInv(cfg, s) && Enabled(cfg, s, o, Handle) && o != p
    requires p < |s.pcs| && s.pcs[p].Running?
    ensures forall k: Key :: Covers(cfg, p, k) ==> SameAt(Handled(cfg, s, o).cache, s.cache, k)
    ensures Inside(cfg, p, Handled(cfg, s, o).cache) == Inside(cfg, p, s.cache)
  {
    var a := cfg.ops[o].act(s.pcs[o].seen);
    assert RoutedOp(cfg, o) && ActionOk(cfg, o, a);
    if a.Put? {
      CoversAlone(cfg, s, o, p, a.key);
    }
  }

  /** A commit leaves what another running handler covers. */
  lemma CommitElsewhere(cfg: Config, s: State, o: OpId, p: OpId, committed: Cache)
    requires WellRouted(cfg) && LockInv(cfg, s) && o != p && ReadWrite(cfg, o) && Bounded(cfg.ops[o])
    requires o < |s.pcs| && p < |s.pcs| && s.pcs[o].Running? && s.pcs[p].Running?
    ensures Inside(cfg, p, Exec(cfg.ops[o], committed, []).1) == Inside(cfg, p, committed)
  {
    var after := Exec(cfg.ops[o], committed, []).1;
    assert RoutedOp(cfg, o);
    ExecFrame(cfg, o, committed, []);
    forall k: Key | Covers(cfg, p, k) ensures SameAt(after, committed, k) {
      CoversAlone(cfg, s, o, p, k);
      assert k in after <==> k in Outside(cfg, o, after);
      assert k in committed <==> k in Outside(cfg, o, committed);
    }
    InsideSame(cfg, p, after, committed);
  }

  lemma CleanKeptAt(cfg: Config, s: State, o: OpId, act: Act, p: OpId, committed: Cache)
    requires WellRouted(cfg) && WritersPutLast(cfg) && LockInv(cfg, s) && CacheInv(cfg, s, committed)
    requires Enabled(cfg, s, o, act) && !Commits(cfg, s, o, act)
    requires p < |s.pcs| && ReadWrite(cfg, p) && Effect(cfg, s, o, act).pcs[p].Running?
    requires s.pcs[p].Running? ==> CleanOrReady(cfg, s, p, committed)
    ensures CleanOrReady(cfg, Effect(cfg, s, o, act), p, committed)
  {
    if act.Begin? && p == o {
      CleanBegun(cfg, s, o, committed);
    } else if act.Handle? && p != o {
      AccessElsewhere(cfg, s, o, p);
    } else if act.Handle? {
      assert PutsLast(cfg.ops[o]);
    }
  }

  lemma CleanCommitted(cfg: Config, s: State, o: OpId, p: OpId)
    requires WellRouted(cfg) && Inv(cfg, s) && CleanInv(cfg, s) && Enabled(cfg, s, o, Handle)
    requires Commits(cfg, s, o, Handle) && Runnable(cfg, Handled(cfg, s, o).order)
    requires p < |s.pcs| && ReadWrite(cfg, p) && Handled(cfg, s, o).pcs[p].Running?
    ensures CleanOrReady(cfg, Handled(cfg, s, o), p, Serial(cfg, Handled(cfg, s, o).order))
  {
    var t := Handled(cfg, s, o);
    assert t.order[..|t.order| - 1] == s.order;
    assert RoutedOp(cfg, o);
    CommitElsewhere(cfg, s, o, p, Serial(cfg, s.order));
    assert CleanOrReady(cfg, s, p, Serial(cfg, s.order));
  }

  lemma CleanOther(cfg: Config, s: State, o: OpId, act: Act, p: OpId)
    requires WellRouted(cfg) && WritersPutLast(cfg) && Inv(cfg, s) && CleanInv(cfg, s)
    requires Enabled(cfg, s, o, act) && !Commits(cfg, s, o, act)
    requires p < |s.pcs| && ReadWrite(cfg, p) && Effect(cfg, s, o, act).pcs[p].Running?
    ensures Effect(cfg, s, o, act).order == s.order
    ensures CleanOrReady(cfg, Effect(cfg, s, o, act), p, Serial(cfg, s.order))
  {
    OtherKept(cfg, s, o, act);
    CleanKeptAt(cfg, s, o, act, p, Serial(cfg, s.order));
  }

  lemma CleanKept(cfg: Config, s: State, o: OpId, act: Act)
    requires WellRouted(cfg) && WritersPutLast(cfg) && Inv(cfg, s) && CleanInv(cfg, s) && Enabled(cfg, s, o, act)
    ensures Inv(cfg, Effect(cfg, s, o, act)) && CleanInv(cfg, Effect(cfg, s, o, act))
  {
    var t := Effect(cfg, s, o, act);
    InvKept(cfg, s, o, act);
    forall p | 0 <= p < |t.pcs| && ReadWrite(cfg, p) && t.pcs[p].Running?
      ensures CleanOrReady(cfg, t, p, Serial(cfg, t.order))
    {
      if Commits(cfg, s, o, act) {
        CleanCommitted(cfg, s, o, p);
      } else {
        CleanOther(cfg, s, o, act, p);
      }
    }
  }

  lemma {:induction false} CleanAlong(cfg: Config, s: State, run: seq<(OpId, Act)>, t: State)
    requires WellRouted(cfg) && WritersPutLast(cfg) && Inv(cfg, s) && CleanInv(cfg, s) && Follows(cfg, s, run, t)
    ensures Inv(cfg, t) && CleanInv(cfg, t)
    decreases |run|
  {
    if run != [] {
      CleanKept(cfg, s, run[0].0, run[0].1);
      CleanAlong(cfg, Effect(cfg, s, run[0].0, run[0].1), run[1..], t);
    }
  }

  /** The value of k in m is the one after the first n ops of the order. */
  ghost predicate AfterPrefix(cfg: Config, m: Cache, k: Key, order: seq<OpId>, n: nat) {
    n <= |order| && Runnable(cfg, order[..n]) && SameAt(m, Serial(cfg, order[..n]), k)
  }

  lemma QuietPrefix(cfg: Config, s: State, k: Key, order: seq<OpId>)
    requires Inv(cfg, s) && !Busy(cfg, s, k) && s.order <= order
    ensures AfterPrefix(cfg, s.cache, k, order, |s.order|)
  {
    assert order[..|s.order|] == s.order;
  }

  lemma CleanPrefix(cfg: Config, s: State, o: OpId, k: Key, order: seq<OpId>)
    requires Runnable(cfg, s.order) && s.order <= order && o < |cfg.ops| && Covers(cfg, o, k)
    requires Inside(cfg, o, s.cache) == Inside(cfg, o, Serial(cfg, s.order))
    ensures AfterPrefix(cfg, s.cache, k, order, |s.order|)
  {
    assert order[..|s.order|] == s.order;
    SameInside(cfg, o, s.cache, Serial(cfg, s.order), k);
  }

  /** A handler about to return, and running over key k. */
  ghost predicate Ready(cfg: Config, s: State, o: OpId, k: Key) {
    && o < |s.pcs| && ReadWrite(cfg, o) && s.pcs[o].Running? && Covers(cfg, o, k)
    && cfg.ops[o].act(s.pcs[o].seen).Return?
  }

  lemma OwnCommit(cfg: Config, s: State, o: OpId, act: Act, k: Key)
    requires WellRouted(cfg) && LockInv(cfg, s) && Ready(cfg, s, o, k) && Enabled(cfg, s, o, act)
    ensures var u := Effect(cfg, s, o, act);
            u.cache == s.cache && |u.order| == |s.order| + 1 && !Busy(cfg, u, k)
  {
    Alone(cfg, s, o, k);
  }

  lemma OtherStep(cfg: Config, s: State, p: OpId, act: Act, o: OpId, k: Key)
    requires WellRouted(cfg) && LockInv(cfg, s) && Ready(cfg, s, o, k) && Enabled(cfg, s, p, act) && p != o
    ensures var u := Effect(cfg, s, p, act);
            Ready(cfg, u, o, k) && SameAt(u.cache, s.cache, k) && |u.order| >= |s.order|
  {
    if act.Handle? {
      AccessElsewhere(cfg, s, p, o);
    }
  }

  /** Whatever the others do before a ready handler commits, the key it covers stays as it is, and
      then that is the committed value. */
  lemma {:induction false} ReadyCommits(cfg: Config, s: State, run: seq<(OpId, Act)>, t: State, o: OpId, k: Key)
    returns (n: nat)
    requires WellRouted(cfg) && Inv(cfg, s) && Follows(cfg, s, run, t) && AllDone(t) && Ready(cfg, s, o, k)
    ensures n > |s.order| && AfterPrefix(cfg, s.cache, k, t.order, n)
    decreases |run|
  {
    assert run != [];
    var p, act := run[0].0, run[0].1;
    var u := Effect(cfg, s, p, act);
    InvKept(cfg, s, p, act);
    if p == o {
      OwnCommit(cfg, s, o, act, k);
      InvAlong(cfg, u, run[1..], t);
      QuietPrefix(cfg, u, k, t.order);
      n := |u.order|;
    } else {
      OtherStep(cfg, s, p, act, o, k);
      n := ReadyCommits(cfg, u, run[1..], t, o, k);
    }
  }

  /** At any moment of any run every key holds its value after some prefix of the final serial
      order, no shorter than what has been committed: what an op without a mutex gets. */
  lemma ReadsAreSerial(cfg: Config, s: State, run0: seq<(OpId, Act)>, mid: State, run1: seq<(OpId, Act)>,
                       t: State, k: Key) returns (n: nat)
    requires Reaches(cfg, s, run0, mid) && Follows(cfg, mid, run1, t) && AllDone(t) && WritersPutLast(cfg)
    ensures n >= |mid.order| && AfterPrefix(cfg, mid.cache, k, t.order, n)
  {
    InitInv(cfg, s);
    CleanAlong(cfg, s, run0, mid);
    InvAlong(cfg, mid, run1, t);
    n := ReadNow(cfg, mid, run1, t, k);
  }

  /** So a lone Get is told what it would have been told after those ops and no others. */
  lemma LoneGet(cfg: Config, s: State, run0: seq<(OpId, Act)>, mid: State, run1: seq<(OpId, Act)>,
                t: State, u: OpId, k: Key) returns (n: nat)
    requires Reaches(cfg, s, run0, mid) && Follows(cfg, mid, run1, t) && AllDone(t) && WritersPutLast(cfg)
    requires Enabled(cfg, mid, u, Handle) && cfg.ops[u].act(mid.pcs[u].seen) == Get(k)
    ensures |mid.order| <= n <= |t.order| && Runnable(cfg, t.order[..n])
    ensures var op, seen := cfg.ops[u], mid.pcs[u].seen;
            Effect(cfg, mid, u, Handle).pcs[u] ==
              Running(seen + [Access(op, |seen|, Get(k), Serial(cfg, t.order[..n])).0])
  {
    n := ReadsAreSerial(cfg, s, run0, mid, run1, t, k);
  }

  lemma ReadNow(cfg: Config, mid: State, run: seq<(OpId, Act)>, t: State, k: Key) returns (n: nat)
    requires WellRouted(cfg) && Inv(cfg, mid) && CleanInv(cfg, mid) && Follows(cfg, mid, run, t) && AllDone(t)
    requires mid.order <= t.order
    ensures n >= |mid.order| && AfterPrefix(cfg, mid.cache, k, t.order, n)
  {
    n := |mid.order|;
    if Busy(cfg, mid, k) {
      var o :| 0 <= o < |mid.pcs| && o < |cfg.ops| && mid.pcs[o].Running? && Covers(cfg, o, k);
      assert CleanOrReady(cfg, mid, o, Serial(cfg, mid.order));
      if Ready(cfg, mid, o, k) {
        n := ReadyCommits(cfg, mid, run, t, o, k);
      } else {
        CleanPrefix(cfg, mid, o, k, t.order);
      }
    } else {
      QuietPrefix(cfg, mid, k, t.order);
    }
  }

  lemma SameInside(cfg: Config, o: OpId, m: Cache, n: Cache, k: Key)
    requires o < |cfg.ops| && Inside(cfg, o, m) == Inside(cfg, o, n) && Covers(cfg, o, k)
    ensures SameAt(m, n, k)
  {
    assert k in m <==> k in Inside(cfg, o, m);
    assert k in n <==> k in Inside(cfg, o, n);
    if k in m {
      assert m[k] == Inside(cfg, o, m)[k] && n[k] == Inside(cfg, o, n)[k];
    }
  }
}

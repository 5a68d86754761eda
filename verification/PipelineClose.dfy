/** Closing the engine while calls are live. The engine's close() takes the CompareAndSwap on
    `dead` without holding mu, so it may come between a call's second dead check and its push.
    The engine is closed after the workers have returned; this module proves what that is worth:
    exactly when close() can cost a call its answer for good. */
module PipelineClose {
  import opened Bytes
  import opened PipelineModel
  import opened PipelineInvariant
  import opened PipelineTheorems

  const TAKE: Step := ByClose(EngineCas)

  /** In a reachable state, closing now can never lose a waiter, whatever happens next, exactly
      when no call is about to push on a live connection with a working writer. */
  lemma CloseIsSafeExactly(s0: State, steps: seq<Step>, s: State)
    requires Reaches(s0, steps, s) && s.closer.CloserIdle? && !s.reader.Crashed?
    ensures SafeToClose(s) <==> forall more, t :: Leads(s, [TAKE] + more, t) ==> !LostWaiter(t)
  {
    InitInv(s0);
    InvAlong(s0, steps, s);
    if SafeToClose(s) {
      forall more, t | Leads(s, [TAKE] + more, t) ensures !LostWaiter(t) {
        assert ([TAKE] + more)[1..] == more;
        InvKept(s, TAKE);
        ClosesOnce(Effect(s, TAKE), more, t);
        InvAlong(Effect(s, TAKE), more, t);
        WaiterHasSlot(t);
      }
    } else {
      var more, t := Lose(s);
      assert Leads(s, [TAKE] + more, t);
    }
  }

  /** Closing while every call is still outside, or already back, is safe. */
  lemma QuietCloseIsSafe(s: State)
    requires forall c :: 0 <= c < |s.calls| ==> s.calls[c].Start? || s.calls[c].Returned?
    ensures SafeToClose(s)
  {
  }

  /** The unsafe states are reached: one call on a fresh connection, past its second dead check. */
  lemma UnsafeReached(s0: State) returns (steps: seq<Step>, s: State)
    requires Init(s0) && |s0.calls| >= 1
    ensures Reaches(s0, steps, s) && s.closer.CloserIdle? && !s.reader.Crashed? && !SafeToClose(s)
  {
    var s1 := CallEffect(s0, 0, Check);
    var s2 := CallEffect(s1, 0, Lock);
    s := CallEffect(s2, 0, Recheck);
    assert s.calls[0] == WantPush;
    steps := [];
    Next(s2, ByCall(0, Recheck), steps, s); steps := [ByCall(0, Recheck)] + steps;
    Next(s1, ByCall(0, Lock), steps, s); steps := [ByCall(0, Lock)] + steps;
    Next(s0, ByCall(0, Check), steps, s); steps := [ByCall(0, Check)] + steps;
  }

  lemma Next(s: State, step: Step, rest: seq<Step>, t: State)
    requires Allowed(s, step) && Follows(Effect(s, step), rest, t)
    ensures Follows(s, [step] + rest, t)
  {
    assert ([step] + rest)[1..] == rest;
  }

  lemma {:induction false} ClosesOnce(s: State, steps: seq<Step>, t: State)
    requires !s.closer.CloserIdle? && Leads(s, steps, t)
    ensures Follows(s, steps, t)
    decreases |steps|
  {
    if steps != [] {
      CloserNeverIdle(s, steps[0]);
      ClosesOnce(Effect(s, steps[0]), steps[1..], t);
    }
  }

  lemma CloserNeverIdle(s: State, step: Step)
    requires !s.closer.CloserIdle? && Enabled(s, step)
    ensures !Effect(s, step).closer.CloserIdle?
  {
    match step
    case ByCall(c, act) => assert CallEffect(s, c, act).closer == s.closer;
    case ByLoop(act) => assert LoopEffect(s, act).closer == s.closer;
    case ByServer(body) => assert Answered(s, ParseBody(body)).closer == s.closer;
    case ByClose(act) =>
  }

  // ---------- a run that loses a waiter ----------

  /** Call c has passed its second dead check on a connection that is dead but still open. */
  ghost predicate Doomed(s: State, c: CallId) {
    && s.dead && !s.closed && !s.werr && s.buf == [] && s.window >= 1
    && |s.boxes| == |s.fills| == |s.calls|
    && c < |s.calls| && s.calls[c] == WantPush && s.boxes[c].None?
    && Distinct(s.fifo)
    && (forall i :: 0 <= i < |s.fifo| ==> s.fifo[i] < |s.calls| && s.fifo[i] != c && s.boxes[s.fifo[i]].None?)
  }

  lemma First(s: State, step: Step, rest: seq<Step>, t: State)
    requires Enabled(s, step) && Leads(Effect(s, step), rest, t)
    ensures Leads(s, [step] + rest, t)
  {
    assert ([step] + rest)[1..] == rest;
  }

  /** With the connection declared dead and its socket still open, the call about to push is doomed. */
  lemma DoomedBy(s: State) returns (c: CallId)
    requires Inv(s) && s.closer.CloserIdle? && !s.reader.Crashed? && !SafeToClose(s)
    ensures Doomed(CloseEffect(s, EngineCas), c) && c !in s.pushed
    ensures !s.reader.ReaderClosing? && !s.reader.Draining? && !s.reader.Exited?
    ensures s.reader.Sending? ==> !s.reader.draining
  {
    c :| 0 <= c < |s.calls| && s.calls[c] == WantPush;
    assert s.holder == Some(c) && s.buf == [];
  }

  lemma Lose(s: State) returns (more: seq<Step>, t: State)
    requires Inv(s) && s.closer.CloserIdle? && !s.reader.Crashed? && !SafeToClose(s)
    ensures Leads(s, [TAKE] + more, t) && LostWaiter(t)
  {
    var c := DoomedBy(s);
    var s1 := CloseEffect(s, EngineCas);
    if s.reader.Matching? {
      more, t := LoseMatching(s, c);
    } else if s.reader.Sending? {
      HandIsEmpty(s);
      more, t := LoseSending(s1, c);
    } else if s.reader.Reading? {
      more, t := LoseReading(s1, c);
    } else {
      more, t := LoseFailing(s1, c);
    }
    First(s, TAKE, more, t);
  }

  lemma HandIsEmpty(s: State)
    requires Inv(s) && s.reader.Sending?
    ensures s.reader.call < |s.calls| && s.boxes[s.reader.call].None?
    ensures s.reader.call in s.pushed && s.reader.call !in s.fifo
  {
    var k := Popped(s) - 1;
    assert s.pushed[k] == s.reader.call && s.fills[s.reader.call] == 0;
    forall i | 0 <= i < |s.fifo| ensures s.fifo[i] != s.reader.call {
      assert s.fifo[i] == s.pushed[Popped(s) + i];
    }
  }

  lemma LoseMatching(s: State, c: CallId) returns (more: seq<Step>, t: State)
    requires Inv(s) && s.closer.CloserIdle? && !s.dead && s.reader.Matching?
    requires Doomed(CloseEffect(s, EngineCas), c) && c !in s.pushed
    ensures Leads(CloseEffect(s, EngineCas), more, t) && LostWaiter(t)
  {
    var s1 := CloseEffect(s, EngineCas);
    FirstSlot(s);
    var s2 := LoopEffect(s1, Match);
    more, t := LoseSending(s2, c);
    First(s1, ByLoop(Match), more, t);
    more := [ByLoop(Match)] + more;
  }

  lemma LoseSending(s: State, c: CallId) returns (steps: seq<Step>, t: State)
    requires Doomed(s, c) && s.reader.Sending? && !s.reader.draining
    requires s.reader.call < |s.calls| && s.boxes[s.reader.call].None?
    requires s.reader.call != c && s.reader.call !in s.fifo
    ensures Leads(s, steps, t) && LostWaiter(t)
  {
    steps, t := LoseReading(LoopEffect(s, Send), c);
    First(s, ByLoop(Send), steps, t);
    steps := [ByLoop(Send)] + steps;
  }

  lemma LoseReading(s: State, c: CallId) returns (steps: seq<Step>, t: State)
    requires Doomed(s, c) && s.reader.Reading?
    ensures Leads(s, steps, t) && LostWaiter(t)
  {
    steps, t := LoseFailing(LoopEffect(s, ReadError), c);
    First(s, ByLoop(ReadError), steps, t);
    steps := [ByLoop(ReadError)] + steps;
  }

  lemma LoseFailing(s: State, c: CallId) returns (steps: seq<Step>, t: State)
    requires Doomed(s, c) && s.reader.ReaderFailing?
    ensures Leads(s, steps, t) && LostWaiter(t)
  {
    steps, t := LoseDraining(LoopEffect(s, CasDead), c);
    First(s, ByLoop(CasDead), steps, t);
    steps := [ByLoop(CasDead)] + steps;
  }

  lemma {:induction false} LoseDraining(s: State, c: CallId) returns (steps: seq<Step>, t: State)
    requires Doomed(s, c) && s.reader.Draining?
    ensures Leads(s, steps, t) && LostWaiter(t)
    decreases |s.fifo|
  {
    if s.fifo == [] {
      steps, t := LosePushing(LoopEffect(s, DrainDone), c);
      First(s, ByLoop(DrainDone), steps, t);
      steps := [ByLoop(DrainDone)] + steps;
    } else {
      var s1 := LoopEffect(s, Drain);
      var s2 := LoopEffect(s1, Send);
      assert s2.fifo == s.fifo[1..];
      steps, t := LoseDraining(s2, c);
      First(s1, ByLoop(Send), steps, t);
      First(s, ByLoop(Drain), [ByLoop(Send)] + steps, t);
      steps := [ByLoop(Drain)] + ([ByLoop(Send)] + steps);
    }
  }

  lemma LosePushing(s: State, c: CallId) returns (steps: seq<Step>, t: State)
    requires Doomed(s, c) && s.reader.Exited? && s.fifo == []
    ensures Leads(s, steps, t) && LostWaiter(t)
  {
    var s1 := CallEffect(s, c, Push);
    var s2 := CallEffect(s1, c, Write(0, true));
    var s3 := CallEffect(s2, c, Write(0, true));
    var s4 := CallEffect(s3, c, Flush(2, true));
    t := CallEffect(s4, c, Unlock);
    assert t.calls[c] == Waiting && t.boxes[c].None?;
    steps := [];
    First(s4, ByCall(c, Unlock), steps, t); steps := [ByCall(c, Unlock)] + steps;
    First(s3, ByCall(c, Flush(2, true)), steps, t); steps := [ByCall(c, Flush(2, true))] + steps;
    First(s2, ByCall(c, Write(0, true)), steps, t); steps := [ByCall(c, Write(0, true))] + steps;
    First(s1, ByCall(c, Write(0, true)), steps, t); steps := [ByCall(c, Write(0, true))] + steps;
    First(s, ByCall(c, Push), steps, t); steps := [ByCall(c, Push)] + steps;
  }
}

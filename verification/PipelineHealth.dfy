/** A connection on which nothing goes wrong: no read, write or flush fails, nobody closes, and
    every response holds the payload it declares. Then every call gets its answer, byte for byte
    what the server sent for it. And on a connection that is dead, no new call gets anywhere. */
module PipelineHealth {
  import opened Bytes
  import opened PipelineModel
  import opened PipelineInvariant
  import opened PipelineTheorems

  /** A response of at least five bytes that holds its declared payload, whose length does not wrap. */
  predicate GoodBody(body: seq<byte>) {
    5 <= |body| < TWO_32 && GetU32(body[1..5]) < 0xFFFF_FFFB && 5 + GetU32(body[1..5]) <= |body|
  }

  /** Nothing fails in this step. */
  predicate Quiet(step: Step) {
    match step
    case ByCall(_, act) => (act.Write? ==> act.ok) && (act.Flush? ==> act.ok)
    case ByLoop(act) => !act.ReadError?
    case ByServer(body) => GoodBody(body)
    case ByClose(_) => false
  }

  predicate QuietRun(steps: seq<Step>) {
    forall i :: 0 <= i < |steps| ==> Quiet(steps[i])
  }

  predicate CallFine(pc: CallPc) {
    match pc
    case Bailing | Failing | Closing => false
    case WriteBody(failed) => !failed
    case Flushing(failed) => !failed
    case Unlocking(failed) => !failed
    case Returned(r) => r.Answer?
    case _ => true
  }

  predicate ReaderFine(r: ReaderPc) {
    match r
    case Reading => true
    case Matching(reply) => reply.Answer?
    case Sending(_, reply, draining) => reply.Answer? && !draining
    case _ => false
  }

  /** Nothing is dead or failed, and all that is on its way to a call is an answer. */
  ghost predicate Healthy(s: State) {
    && !s.dead && !s.closed && !s.werr && s.closer.CloserIdle? && ReaderFine(s.reader)
    && (forall c :: 0 <= c < |s.calls| ==> CallFine(s.calls[c]))
    && (forall c :: 0 <= c < |s.boxes| && s.boxes[c].Some? ==> s.boxes[c].value.Answer?)
    && (forall i :: 0 <= i < |s.replies| ==> s.replies[i].Fine? && s.replies[i].reply.Answer?)
  }

  lemma HealthyCall(s: State, c: CallId, act: CallerAct)
    requires Healthy(s) && CallEnabled(s, c, act) && Quiet(ByCall(c, act))
    ensures Healthy(CallEffect(s, c, act))
  {
  }

  lemma HealthyLoop(s: State, act: ReaderAct)
    requires Healthy(s) && LoopEnabled(s, act) && !act.ReadError?
    ensures Healthy(LoopEffect(s, act))
  {
  }

  lemma HealthKept(s: State, step: Step)
    requires Healthy(s) && Enabled(s, step) && Quiet(step)
    ensures Healthy(Effect(s, step))
  {
    match step
    case ByCall(c, act) => HealthyCall(s, c, act);
    case ByLoop(act) => HealthyLoop(s, act);
    case ByServer(body) => BodyParsed(body);
    case ByClose(_) =>
  }

  lemma {:induction false} HealthAlong(s: State, steps: seq<Step>, t: State)
    requires Healthy(s) && Follows(s, steps, t) && QuietRun(steps)
    ensures Healthy(t)
    decreases |steps|
  {
    if steps != [] {
      HealthKept(s, steps[0]);
      assert QuietRun(steps[1..]);
      HealthAlong(Effect(s, steps[0]), steps[1..], t);
    }
  }

  lemma HealthyFromStart(s: State, steps: seq<Step>, t: State)
    requires Reaches(s, steps, t) && QuietRun(steps)
    ensures Healthy(t)
  {
    HealthAlong(s, steps, t);
  }

  // ---------- answers are what the server sent ----------

  /** The bodies the server sent in a run, in order. */
  function Bodies(steps: seq<Step>): seq<seq<byte>> {
    if steps == [] then []
    else (if steps[0].ByServer? then [steps[0].body] else []) + Bodies(steps[1..])
  }

  lemma RepliesStep(s: State, step: Step)
    requires Enabled(s, step)
    ensures Effect(s, step).replies == s.replies + if step.ByServer? then [ParseBody(step.body)] else []
  {
    match step
    case ByCall(c, act) => assert CallEffect(s, c, act).replies == s.replies;
    case ByLoop(act) => assert LoopEffect(s, act).replies == s.replies;
    case ByServer(body) =>
    case ByClose(act) => assert CloseEffect(s, act).replies == s.replies;
  }

  lemma {:induction false} RepliesAreBodies(s: State, steps: seq<Step>, t: State)
    requires Follows(s, steps, t)
    ensures |t.replies| == |s.replies| + |Bodies(steps)| && t.replies[..|s.replies|] == s.replies
    ensures forall i :: 0 <= i < |Bodies(steps)| ==> t.replies[|s.replies| + i] == ParseBody(Bodies(steps)[i])
    decreases |steps|
  {
    if steps != [] {
      var u := Effect(s, steps[0]);
      RepliesStep(s, steps[0]);
      RepliesAreBodies(u, steps[1..], t);
      if steps[0].ByServer? {
        assert t.replies[|s.replies|] == t.replies[..|u.replies|][|s.replies|];
        assert t.replies[..|s.replies|] == t.replies[..|u.replies|][..|s.replies|];
      }
    }
  }

  lemma {:induction false} BodiesBounded(s: State, steps: seq<Step>, t: State, i: nat)
    requires Follows(s, steps, t) && i < |Bodies(steps)|
    ensures |Bodies(steps)[i]| < TWO_32
    decreases |steps|
  {
    if steps != [] {
      if steps[0].ByServer? {
        if i > 0 {
          BodiesBounded(Effect(s, steps[0]), steps[1..], t, i - 1);
        }
      } else {
        BodiesBounded(Effect(s, steps[0]), steps[1..], t, i);
      }
    }
  }

  /** The i-th response answers the i-th push; a call returns its status byte and the payload it
      declares. */
  ghost predicate Answers(body: seq<byte>, r: Reply) {
    && GoodBody(body)
    && r == Answer(body[0], body[5..5 + GetU32(body[1..5]) as int])
  }

  lemma ParsedAnswers(body: seq<byte>, r: Reply)
    requires |body| < TWO_32 && ParseBody(body) == Fine(r)
    ensures Answers(body, r)
  {
    BodyParsed(body);
  }

  /** A call that returns a status and payload was sent exactly these, in the response whose number
      is that of the call's push. */
  lemma AnswerIsBody(s: State, steps: seq<Step>, t: State, c: CallId) returns (i: nat)
    requires Reaches(s, steps, t) && c < |t.calls| && t.calls[c].Returned? && t.calls[c].reply.Answer?
    ensures i < |Bodies(steps)| && i < |t.pushed| && t.pushed[i] == c
    ensures Answers(Bodies(steps)[i], t.calls[c].reply)
  {
    OwnAnswer(s, steps, t, c);
    FramesNeverMix(s, steps, t);
    RepliesAreBodies(s, steps, t);
    i :| 0 <= i < |t.served| && t.served[i] == c && t.replies[i] == Fine(t.calls[c].reply);
    BodiesBounded(s, steps, t, i);
    ParsedAnswers(Bodies(steps)[i], t.calls[c].reply);
  }

  /** While nothing goes wrong, a call that has returned has returned an answer: its own. */
  lemma HealthyAnswers(s: State, steps: seq<Step>, t: State, c: CallId)
    requires Reaches(s, steps, t) && QuietRun(steps)
    requires c < |t.calls| && t.calls[c].Returned?
    ensures t.calls[c].reply.Answer? && IsAnswerTo(t, c, t.calls[c].reply)
  {
    HealthyFromStart(s, steps, t);
    OwnAnswer(s, steps, t, c);
  }

  // ---------- and all of them get there ----------

  /** Status 0 and an empty payload. */
  const EMPTY: seq<byte> := [0] + PutU32(0)

  lemma EmptyIsGood()
    ensures GoodBody(EMPTY)
  {
    assert EMPTY[1..5] == PutU32(0);
    U32ReadsBack(0);
  }

  /** The same step with nothing going wrong. */
  function Calmed(s: State, step: Step): Step {
    match step
    case ByCall(c, Write(_, _)) => ByCall(c, Write(0, true))
    case ByCall(c, Flush(_, _)) => ByCall(c, Flush(|s.buf|, true))
    case ByServer(_) => ByServer(EMPTY)
    case _ => step
  }

  lemma CalmedIsQuiet(s: State, step: Step)
    requires Healthy(s) && Owes(s, step)
    ensures Enabled(s, Calmed(s, step)) && Quiet(Calmed(s, step))
  {
    EmptyIsGood();
  }

  /** A run in which nothing goes wrong, and that could not go on without something going wrong, has
      given every call its answer. */
  lemma AllAnswered(s: State, steps: seq<Step>, t: State)
    requires Reaches(s, steps, t) && QuietRun(steps)
    requires forall step :: Enabled(t, step) ==> !Quiet(step)
    ensures forall c :: 0 <= c < |t.calls| ==>
              t.calls[c].Returned? && t.calls[c].reply.Answer? && IsAnswerTo(t, c, t.calls[c].reply)
  {
    HealthyFromStart(s, steps, t);
    forall step ensures !Owes(t, step) {
      if Owes(t, step) {
        CalmedIsQuiet(t, step);
      }
    }
    NoDeadlock(s, steps, t);
    forall c | 0 <= c < |t.calls|
      ensures t.calls[c].Returned? && t.calls[c].reply.Answer? && IsAnswerTo(t, c, t.calls[c].reply)
    {
      HealthyAnswers(s, steps, t, c);
    }
  }

  // ---------- a dead connection ----------

  /** On its way in, before the second check, or turned away. */
  predicate Outside(pc: CallPc) {
    pc.Start? || pc.WantLock? || pc.Locked? || pc.Bailing? || pc == Returned(Dead)
  }

  lemma TurnedAwayStep(s: State, step: Step, c: CallId)
    requires Enabled(s, step) && s.dead && c < |s.calls| && Outside(s.calls[c]) && c !in s.pushed
    ensures var t := Effect(s, step);
            && t.dead && c < |t.calls| && Outside(t.calls[c]) && c !in t.pushed
            && (s.calls[c].Start? || s.calls[c].Returned? ==> t.calls[c].Start? || t.calls[c].Returned?)
  {
    match step
    case ByCall(b, act) => TurnedAwayCall(s, b, act, c);
    case ByLoop(act) =>
      assert LoopEffect(s, act).calls == s.calls && LoopEffect(s, act).pushed == s.pushed && LoopEffect(s, act).dead;
    case ByServer(body) => assert Answered(s, ParseBody(body)).calls == s.calls;
    case ByClose(act) =>
      assert CloseEffect(s, act).calls == s.calls && CloseEffect(s, act).pushed == s.pushed && CloseEffect(s, act).dead;
  }

  lemma TurnedAwayCall(s: State, b: CallId, act: CallerAct, c: CallId)
    requires CallEnabled(s, b, act) && s.dead && c < |s.calls| && Outside(s.calls[c]) && c !in s.pushed
    ensures var t := CallEffect(s, b, act);
            && t.dead && c < |t.calls| && Outside(t.calls[c]) && c !in t.pushed
            && (s.calls[c].Start? || s.calls[c].Returned? ==> t.calls[c].Start? || t.calls[c].Returned?)
  {
  }

  /** Once the connection is dead, a call that has not passed its second check never pushes and can
      only come back with errPConnDead; one that has not begun never even waits for the mutex. */
  lemma {:induction false} TurnedAway(s: State, steps: seq<Step>, t: State, c: CallId)
    requires Follows(s, steps, t) && s.dead && c < |s.calls| && Outside(s.calls[c]) && c !in s.pushed
    ensures t.dead && c < |t.calls| && Outside(t.calls[c]) && c !in t.pushed
    ensures s.calls[c].Start? || s.calls[c].Returned? ==> t.calls[c].Start? || t.calls[c] == Returned(Dead)
    decreases |steps|
  {
    if steps != [] {
      TurnedAwayStep(s, steps[0], c);
      TurnedAway(Effect(s, steps[0]), steps[1..], t, c);
    }
  }

  // ---------- the socket is closed once ----------

  predicate Closes(step: Step) {
    step == ByLoop(CloseSocket) || step == ByClose(EngineClose) || (step.ByCall? && step.act == Close)
  }

  /** Only whoever won the CompareAndSwap is about to close, and the socket is still open then. */
  ghost predicate CloserInv(s: State) {
    && (forall c :: 0 <= c < |s.calls| && s.calls[c] == Closing ==> s.killer == ByCaller(c) && !s.closed)
    && (s.reader.ReaderClosing? ==> s.killer == ByReader && !s.closed)
    && (s.closer.CloserClosing? ==> s.killer == ByEngine && !s.closed)
    && (s.killer != Nobody <==> s.dead) && (s.closed ==> s.dead)
  }

  /** What one step does about closing. */
  predicate ClosedBy(s: State, t: State, step: Step) {
    (Closes(step) ==> !s.closed && t.closed) && (!Closes(step) ==> t.closed == s.closed)
  }

  /** Nothing about closing changes but that call c may have moved on, though not to close. */
  ghost predicate KeepsClosers(s: State, t: State, c: CallId) {
    && |t.calls| == |s.calls| && (c < |t.calls| ==> t.calls[c] != Closing)
    && (forall b :: 0 <= b < |s.calls| && b != c ==> t.calls[b] == s.calls[b])
    && t.killer == s.killer && t.dead == s.dead && t.closed == s.closed
    && t.reader == s.reader && t.closer == s.closer
  }

  lemma EnteringKeeps(s: State, c: CallId, act: CallerAct)
    requires CallEnabled(s, c, act) && Entering(act)
    ensures KeepsClosers(s, CallEffect(s, c, act), c)
  {
  }

  lemma WritingKeeps(s: State, c: CallId, act: CallerAct)
    requires CallEnabled(s, c, act) && Writing(act)
    ensures KeepsClosers(s, CallEffect(s, c, act), c)
  {
  }

  lemma LeavingKeeps(s: State, c: CallId, act: CallerAct)
    requires CallEnabled(s, c, act) && (act.Unlock? || act.Receive?)
    ensures KeepsClosers(s, CallEffect(s, c, act), c)
  {
  }

  lemma CloserCall(s: State, c: CallId, act: CallerAct)
    requires CloserInv(s) && CallEnabled(s, c, act)
    ensures CloserInv(CallEffect(s, c, act)) && ClosedBy(s, CallEffect(s, c, act), ByCall(c, act))
  {
    if act.Cas? {
      assert CloserInv(CallEffect(s, c, Cas));
    } else if act.Close? {
      assert CloserInv(CallEffect(s, c, Close));
    } else if Entering(act) {
      EnteringKeeps(s, c, act);
    } else if Writing(act) {
      WritingKeeps(s, c, act);
    } else {
      LeavingKeeps(s, c, act);
    }
  }

  lemma CloserLoop(s: State, act: ReaderAct)
    requires CloserInv(s) && LoopEnabled(s, act)
    ensures CloserInv(LoopEffect(s, act)) && ClosedBy(s, LoopEffect(s, act), ByLoop(act))
  {
  }

  lemma CloserEngine(s: State, act: EngineAct)
    requires CloserInv(s) && CloseEnabled(s, act)
    ensures CloserInv(CloseEffect(s, act)) && ClosedBy(s, CloseEffect(s, act), ByClose(act))
  {
  }

  lemma CloserKept(s: State, step: Step)
    requires CloserInv(s) && Enabled(s, step)
    ensures CloserInv(Effect(s, step)) && ClosedBy(s, Effect(s, step), step)
  {
    match step
    case ByCall(c, act) => CloserCall(s, c, act);
    case ByLoop(act) => CloserLoop(s, act);
    case ByServer(body) => assert CloserInv(Answered(s, ParseBody(body)));
    case ByClose(act) => CloserEngine(s, act);
  }

  function CloseSteps(steps: seq<Step>): nat {
    if steps == [] then 0 else (if Closes(steps[0]) then 1 else 0) + CloseSteps(steps[1..])
  }

  lemma {:induction false} ClosedAlong(s: State, steps: seq<Step>, t: State)
    requires CloserInv(s) && Leads(s, steps, t)
    ensures CloserInv(t) && (s.closed ==> t.closed)
    ensures CloseSteps(steps) == if t.closed && !s.closed then 1 else 0
    decreases |steps|
  {
    if steps != [] {
      CloserKept(s, steps[0]);
      ClosedAlong(Effect(s, steps[0]), steps[1..], t);
    }
  }

  /** However many callers fail, the read loop and the engine with them: in any run, wherever the
      engine closes, the socket is closed at most once, by whoever set `dead`. */
  lemma ClosedOnce(s: State, steps: seq<Step>, t: State)
    requires Init(s) && Leads(s, steps, t)
    ensures CloseSteps(steps) == if t.closed then 1 else 0
  {
    ClosedAlong(s, steps, t);
  }

  // ---------- the window can be used ----------

  /** The first k calls have written their frames and wait, nothing else has happened. */
  ghost predicate Waiters(s: State, k: nat) {
    && k <= |s.calls| == |s.boxes| && k == |s.fifo| && |s.out| == 2 * k && |s.served| == 0
    && s.holder.None? && s.buf == [] && !s.werr && !s.dead && !s.closed && s.reader.Reading? && s.replies == []
    && (forall c :: 0 <= c < |s.boxes| ==> s.boxes[c].None?)
    && (forall c :: 0 <= c < k ==> s.calls[c] == Waiting)
    && (forall c :: k <= c < |s.calls| ==> s.calls[c] == Start)
  }

  lemma {:induction false} Append(s: State, steps: seq<Step>, t: State, step: Step)
    requires Follows(s, steps, t) && Allowed(t, step)
    ensures Follows(s, steps + [step], Effect(t, step))
    decreases |steps|
  {
    if steps == [] {
      assert (steps + [step])[1..] == [];
    } else {
      assert (steps + [step])[1..] == steps[1..] + [step];
      Append(Effect(s, steps[0]), steps[1..], t, step);
    }
  }

  lemma Enter(s0: State, steps: seq<Step>, s: State, c: CallId) returns (more: seq<Step>, t: State)
    requires Reaches(s0, steps, s) && Waiters(s, c) && c < |s.calls|
    ensures Reaches(s0, more, t) && t == s.(calls := s.calls[c := WantPush], holder := Some(c))
  {
    var s1 := CallEffect(s, c, Check);
    var s2 := CallEffect(s1, c, Lock);
    Append(s0, steps, s, ByCall(c, Check));
    Append(s0, steps + [ByCall(c, Check)], s1, ByCall(c, Lock));
    more := steps + [ByCall(c, Check)] + [ByCall(c, Lock)] + [ByCall(c, Recheck)];
    Append(s0, steps + [ByCall(c, Check)] + [ByCall(c, Lock)], s2, ByCall(c, Recheck));
    t := CallEffect(s2, c, Recheck);
    assert t.calls == s.calls[c := WantPush];
  }

  lemma WriteWhole(s0: State, steps: seq<Step>, s: State, c: CallId) returns (more: seq<Step>, t: State)
    requires Reaches(s0, steps, s) && c < |s.calls| == |s.boxes| && s.calls[c] == WantPush && !s.reader.Crashed?
    requires |s.fifo| < s.window && s.buf == [] && !s.werr && !s.closed
    ensures Reaches(s0, more, t)
    ensures t == s.(calls := s.calls[c := Flushing(false)], fifo := s.fifo + [c], pushed := s.pushed + [c],
                    buf := [Header(c), Body(c)])
  {
    var p, w := ByCall(c, Push), ByCall(c, Write(0, true));
    var s1 := CallEffect(s, c, Push);
    var s2 := CallEffect(s1, c, Write(0, true));
    t := CallEffect(s2, c, Write(0, true));
    Append(s0, steps, s, p);
    Append(s0, steps + [p], s1, w);
    Append(s0, steps + [p] + [w], s2, w);
    more := steps + [p] + [w] + [w];
    assert t.buf == [Header(c), Body(c)] && t.calls == s.calls[c := Flushing(false)] && t.out == s.out;
  }

  lemma Finish(s0: State, steps: seq<Step>, s: State, c: CallId) returns (more: seq<Step>, t: State)
    requires Reaches(s0, steps, s) && c < |s.calls| == |s.boxes| && s.calls[c] == Flushing(false)
    requires !s.werr && !s.closed && !s.reader.Crashed?
    ensures Reaches(s0, more, t)
    ensures t == s.(calls := s.calls[c := Waiting], holder := None, out := s.out + s.buf, buf := [])
  {
    var f := ByCall(c, Flush(|s.buf|, true));
    var s1 := CallEffect(s, c, Flush(|s.buf|, true));
    t := CallEffect(s1, c, Unlock);
    Append(s0, steps, s, f);
    Append(s0, steps + [f], s1, ByCall(c, Unlock));
    more := steps + [f] + [ByCall(c, Unlock)];
    assert s.buf[..|s.buf|] == s.buf && s.buf[|s.buf|..] == [];
    assert t.calls == s.calls[c := Waiting];
  }

  lemma OneMore(s0: State, steps: seq<Step>, s: State, c: CallId) returns (more: seq<Step>, t: State)
    requires Reaches(s0, steps, s) && Waiters(s, c) && c < |s.calls| && c < s.window
    ensures Reaches(s0, more, t) && Waiters(t, c + 1) && t.window == s.window && |t.calls| == |s.calls|
  {
    var s1, s2;
    more, s1 := Enter(s0, steps, s, c);
    more, s2 := WriteWhole(s0, more, s1, c);
    more, t := Finish(s0, more, s2, c);
  }

  /** Requests are pipelined: with enough calls, a whole window of them is delivered before the
      server has answered any. */
  lemma {:induction false} WindowFills(s: State, k: nat) returns (steps: seq<Step>, t: State)
    requires Init(s) && k <= s.window && k <= |s.calls|
    ensures Reaches(s, steps, t) && Waiters(t, k) && t.window == s.window && |t.calls| == |s.calls|
  {
    if k == 0 {
      return [], s;
    }
    steps, t := WindowFills(s, k - 1);
    steps, t := OneMore(s, steps, t, k - 1);
  }
}

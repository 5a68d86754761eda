/** The promises of the pipelined connection, for any number of calls and every interleaving. */
module PipelineTheorems {
  import opened Bytes
  import opened PipelineModel
  import opened PipelineInvariant

  /** t is reached from a fresh connection, the engine closing only where it is safe. */
  ghost predicate Reaches(s: State, steps: seq<Step>, t: State) {
    Init(s) && Follows(s, steps, t)
  }

  // ---------- safety ----------

  /** A call that returns a status and payload got the server's answer to its own frame. */
  lemma OwnAnswer(s: State, steps: seq<Step>, t: State, c: CallId)
    requires Reaches(s, steps, t)
    requires c < |t.calls| && t.calls[c].Returned? && t.calls[c].reply.Answer?
    ensures IsAnswerTo(t, c, t.calls[c].reply)
  {
    InitInv(s);
    InvAlong(s, steps, t);
  }

  /** Frames arrive whole and in push order: what has been delivered is the header and body of each
      pushed call in turn, as far as it goes, the server's next two pieces are one request, and what
      it has answered is a prefix of the pushes. */
  lemma FramesNeverMix(s: State, steps: seq<Step>, t: State)
    requires Reaches(s, steps, t)
    ensures IsStream(t.pushed, t.out)
    ensures 2 * |t.served| + 1 < |t.out| ==> RequestArrived(t)
    ensures t.served <= t.pushed
  {
    InitInv(s);
    InvAlong(s, steps, t);
    assert ServerInv(t) && StreamInv(t);
  }

  /** No run leaves a call waiting on a slot nobody will fill. */
  lemma NoLostWaiter(s: State, steps: seq<Step>, t: State)
    requires Reaches(s, steps, t)
    ensures !LostWaiter(t)
  {
    InitInv(s);
    InvAlong(s, steps, t);
    WaiterHasSlot(t);
  }

  lemma WaiterHasSlot(t: State)
    requires Inv(t)
    ensures !LostWaiter(t)
  {
    if t.reader.Exited? {
      forall c | 0 <= c < |t.calls| && t.calls[c] == Waiting ensures t.boxes[c].Some? {
        FilledOrQueued(t, c);
      }
    }
  }

  /** The slot of a call that has pushed is full, in the read loop's hand, or in the fifo. */
  lemma FilledOrQueued(t: State, c: CallId)
    requires FifoInv(t) && SlotInv(t) && c < |t.calls| && HasPushed(t.calls[c])
    ensures t.boxes[c].Some? || InHand(t.reader, c) || c in t.fifo
  {
    var i :| 0 <= i < |t.pushed| && t.pushed[i] == c;
    if i >= Popped(t) {
      assert t.fifo[i - Popped(t)] == c;
    }
  }

  /** Each slot is filled at most once, so the read loop never blocks on a one-slot channel. */
  lemma FilledOnce(s: State, steps: seq<Step>, t: State)
    requires Reaches(s, steps, t)
    ensures |t.fills| == |t.calls| && forall c :: 0 <= c < |t.fills| ==> t.fills[c] <= 1
    ensures t.reader.Sending? ==> LoopEnabled(t, Send)
  {
    InitInv(s);
    InvAlong(s, steps, t);
    forall c | 0 <= c < |t.fills| ensures t.fills[c] <= 1 {
      if c in t.pushed {
        var i :| 0 <= i < |t.pushed| && t.pushed[i] == c;
      }
    }
    if t.reader.Sending? {
      SendIsFree(t);
    }
  }

  lemma SendIsFree(t: State)
    requires FifoInv(t) && ReaderInv(t) && SlotInv(t) && t.reader.Sending?
    ensures LoopEnabled(t, Send)
  {
    var c, k := t.reader.call, Popped(t) - 1;
    assert t.pushed[k] == c && c < |t.calls| && t.fills[c] == 0;
  }

  /** Never more than `window` frames are delivered and unmatched; once the read loop has exited,
      a call about to push finds room. */
  lemma WindowKept(s: State, steps: seq<Step>, t: State)
    requires Reaches(s, steps, t)
    ensures |t.out| <= 2 * (Popped(t) + t.window)
    ensures t.reader.Exited? ==> |t.fifo| <= 1
    ensures t.reader.Exited? && !NoWantPush(t) ==> |t.fifo| < t.window
  {
    InitInv(s);
    InvAlong(s, steps, t);
    assert FifoInv(t) && StreamInv(t) && LateInv(t);
  }

  // ---------- the body of a response ----------

  /** The declared payload length is one of the five for which Go's uint32 sum 5+plen wraps. */
  predicate Wraps(body: seq<byte>) {
    |body| >= 5 && GetU32(body[1..5]) >= TWO_32 - 5
  }

  /** The read loop panics on a body exactly when the declared length wraps; otherwise it accepts
      exactly the bodies that hold the declared payload, and takes exactly that payload. */
  lemma BodyParsed(body: seq<byte>)
    requires |body| < TWO_32
    ensures ParseBody(body).Panics? <==> Wraps(body)
    ensures ParseBody(body).Fine? <==>
              |body| >= 5 && !Wraps(body) && 5 + GetU32(body[1..5]) <= |body|
    ensures ParseBody(body).Fine? ==>
              var r := ParseBody(body).reply;
              r.Answer? && r.status == body[0] && |r.payload| == GetU32(body[1..5]) &&
              [r.status] + PutU32(|r.payload|) + r.payload <= body
  {
    if |body| >= 5 {
      var plen := GetU32(body[1..5]);
      if plen < TWO_32 - 5 && 5 + plen <= |body| {
        BigEndianOfRead(body[1..5]);
        assert [body[0]] + body[1..5] + body[5..5 + plen] == body[..5 + plen];
      }
    }
  }

  /** A frame the server builds from any status and payload of less than 2^32 - 5 bytes is read
      back as that status and payload. */
  lemma BodyReadsBack(status: byte, payload: seq<byte>)
    requires |payload| < TWO_32 - 5
    ensures ParseBody([status] + PutU32(|payload|) + payload) == Fine(Answer(status, payload))
  {
    var body := [status] + PutU32(|payload|) + payload;
    assert body[1..5] == PutU32(|payload|);
    U32ReadsBack(|payload|);
    assert body[5..5 + |payload|] == payload;
  }

  /** Five bytes are enough to bring the read loop, and the process, down. */
  lemma WrapExample()
    ensures ParseBody([0, 255, 255, 255, 255]).Panics?
  {
    var body: seq<byte> := [0, 255, 255, 255, 255];
    var b: seq<byte> := [255, 255, 255, 255];
    assert body[1..5] == b;
    assert b[..3] == [255, 255, 255] && b[..3][..2] == [255, 255] && b[..3][..2][..1] == [255];
    assert FromBigEndian(b[..3][..2][..1]) == 255;
    assert FromBigEndian(b[..3][..2]) == 65535;
    assert FromBigEndian(b[..3]) == 16777215;
    assert FromBigEndian(b) == 4294967295;
  }

  predicate NoPanics(replies: seq<Parsed>) {
    forall i :: 0 <= i < |replies| ==> !replies[i].Panics?
  }

  lemma RepliesGrow(s: State, step: Step)
    requires Enabled(s, step) && NoPanics(s.replies)
    requires step.ByServer? ==> !Wraps(step.body)
    ensures NoPanics(Effect(s, step).replies)
  {
    match step
    case ByCall(c, act) => assert CallEffect(s, c, act).replies == s.replies;
    case ByLoop(act) => assert LoopEffect(s, act).replies == s.replies;
    case ByServer(body) => BodyParsed(body);
    case ByClose(act) => assert CloseEffect(s, act).replies == s.replies;
  }

  /** The read loop crashes only if the server has sent a body whose declared length wraps. */
  lemma CrashNeedsWrap(s: State, steps: seq<Step>, t: State)
    requires Reaches(s, steps, t) && t.reader.Crashed?
    ensures exists i :: 0 <= i < |steps| && steps[i].ByServer? && Wraps(steps[i].body)
  {
    InitInv(s);
    InvAlong(s, steps, t);
    if forall i :: 0 <= i < |steps| && steps[i].ByServer? ==> !Wraps(steps[i].body) {
      NoPanicsAlong(s, steps, t);
    }
  }

  lemma {:induction false} NoPanicsAlong(s: State, steps: seq<Step>, t: State)
    requires Follows(s, steps, t) && NoPanics(s.replies)
    requires forall i :: 0 <= i < |steps| && steps[i].ByServer? ==> !Wraps(steps[i].body)
    ensures NoPanics(t.replies)
    decreases |steps|
  {
    if steps != [] {
      RepliesGrow(s, steps[0]);
      NoPanicsAlong(Effect(s, steps[0]), steps[1..], t);
    }
  }

  // ---------- termination ----------

  function Rank(pc: CallPc): nat {
    match pc
    case Start => 16
    case WantLock => 15
    case Locked => 14
    case WantPush => 13
    case WriteHeader => 6
    case WriteBody(_) => 5
    case Flushing(_) => 4
    case Unlocking(_) => 3
    case Failing => 2
    case Bailing | Closing | Waiting => 1
    case Returned(_) => 0
  }

  function ReaderRank(r: ReaderPc): nat {
    match r
    case Matching(_) => 6
    case Sending(_, _, draining) => if draining then 2 else 5
    case Reading => 4
    case ReaderFailing => 3
    case ReaderClosing => 2
    case Draining => 1
    case Exited | Crashed => 0
  }

  function CloserRank(c: CloserPc): nat {
    if c.CloserIdle? then 2 else if c.CloserClosing? then 1 else 0
  }

  function RankSum(calls: seq<CallPc>): nat {
    if calls == [] then 0 else RankSum(calls[..|calls| - 1]) + Rank(calls[|calls| - 1])
  }

  lemma {:induction false} RankSumUpdate(calls: seq<CallPc>, c: CallId, pc: CallPc)
    requires c < |calls|
    ensures RankSum(calls[c := pc]) == RankSum(calls) - Rank(calls[c]) + Rank(pc)
  {
    var n := |calls| - 1;
    if c < n {
      RankSumUpdate(calls[..n], c, pc);
      assert calls[c := pc][..n] == calls[..n][c := pc];
    } else {
      assert calls[c := pc][..n] == calls[..n];
    }
  }

  /** Every push pays for the answer to it, for reading and matching that answer, and for
      draining its slot. */
  function Measure(s: State): int {
    RankSum(s.calls) + 4 * (|s.pushed| - |s.served|) + 3 * (|s.replies| - s.read) + 2 * |s.fifo|
    + ReaderRank(s.reader) + CloserRank(s.closer)
  }

  lemma StepDescends(s: State, step: Step)
    requires Enabled(s, step)
    ensures Measure(Effect(s, step)) < Measure(s)
  {
    match step
    case ByCall(c, act) => CallDescends(s, c, act);
    case ByLoop(act) => LoopDescends(s, act);
    case ByServer(body) => ServerDescends(s, ParseBody(body));
    case ByClose(act) => CloseDescends(s, act);
  }

  lemma CallDescends(s: State, c: CallId, act: CallerAct)
    requires CallEnabled(s, c, act)
    ensures Measure(CallEffect(s, c, act)) < Measure(s)
  {
    var pc := CallEffect(s, c, act).calls[c];
    RankSumUpdate(s.calls, c, pc);
    RankFalls(s, c, act);
  }

  /** A push gives up enough rank to pay for what it starts. */
  lemma RankFalls(s: State, c: CallId, act: CallerAct)
    requires CallEnabled(s, c, act)
    ensures Rank(CallEffect(s, c, act).calls[c]) < Rank(s.calls[c]) - (if act.Push? then 6 else 0)
  {
  }

  lemma LoopDescends(s: State, act: ReaderAct)
    requires LoopEnabled(s, act)
    ensures Measure(LoopEffect(s, act)) < Measure(s)
  {
  }

  lemma ServerDescends(s: State, p: Parsed)
    requires RequestArrived(s)
    ensures Measure(Answered(s, p)) < Measure(s)
  {
  }

  lemma CloseDescends(s: State, act: EngineAct)
    requires CloseEnabled(s, act)
    ensures Measure(CloseEffect(s, act)) < Measure(s)
  {
  }

  /** Every run from a fresh connection with n calls has at most 16n + 6 steps. */
  lemma RunsEnd(s: State, steps: seq<Step>, t: State)
    requires Reaches(s, steps, t)
    ensures |steps| <= 16 * |s.calls| + 6
  {
    InitInv(s);
    RunDescends(s, steps, t);
    StartRank(s.calls);
  }

  lemma {:induction false} RunDescends(s: State, steps: seq<Step>, t: State)
    requires Inv(s) && Follows(s, steps, t)
    ensures |steps| <= Measure(s)
    decreases |steps|
  {
    if steps != [] {
      StepDescends(s, steps[0]);
      InvKept(s, steps[0]);
      RunDescends(Effect(s, steps[0]), steps[1..], t);
    }
  }

  lemma {:induction false} StartRank(calls: seq<CallPc>)
    requires forall c :: 0 <= c < |calls| ==> calls[c] == Start
    ensures RankSum(calls) == 16 * |calls|
  {
    if calls != [] {
      StartRank(calls[..|calls| - 1]);
    }
  }

  // ---------- deadlock freedom ----------

  /** A step the program or the server owes. The network need not fail an open socket, and the
      engine need not close. */
  predicate Owes(s: State, step: Step) {
    && Enabled(s, step)
    && (step == ByLoop(ReadError) ==> s.closed)
    && step != ByClose(EngineCas)
  }

  ghost predicate AllReturned(s: State) {
    forall c :: 0 <= c < |s.calls| ==> s.calls[c].Returned?
  }

  /** A run that can go no further has returned every call, unless the read loop crashed. */
  lemma NoDeadlock(s: State, steps: seq<Step>, t: State)
    requires Reaches(s, steps, t)
    requires forall step :: !Owes(t, step)
    ensures AllReturned(t) || t.reader.Crashed?
  {
    InitInv(s);
    InvAlong(s, steps, t);
    if !AllReturned(t) && !t.reader.Crashed? {
      var c :| 0 <= c < |t.calls| && !t.calls[c].Returned?;
      var step := NextStep(t, c);
    }
  }

  /** As long as call c has not returned, somebody owes a step. */
  lemma NextStep(s: State, c: CallId) returns (step: Step)
    requires Inv(s) && !s.reader.Crashed?
    requires c < |s.calls| && !s.calls[c].Returned?
    ensures Owes(s, step)
  {
    if s.closer.CloserClosing? {
      step := ByClose(EngineClose);
    } else if !Idle(s) {
      step := LoopStep(s);
    } else if s.dead && !s.closed {
      step := ByCall(s.killer.call, Close);
    } else if s.holder.Some? {
      step := HolderStep(s);
    } else if s.calls[c].Waiting? {
      step := WaiterStep(s, c);
    } else {
      step := FreeCallStep(s, c);
    }
  }

  lemma FreeCallStep(s: State, c: CallId) returns (step: Step)
    requires LockInv(s) && SlotInv(s) && s.holder.None? && !s.reader.Crashed?
    requires c < |s.calls| && !s.calls[c].Returned? && !s.calls[c].Waiting?
    ensures Owes(s, step)
  {
    match s.calls[c]
    case Start => step := ByCall(c, Check);
    case WantLock => step := ByCall(c, Lock);
    case Failing => step := ByCall(c, Cas);
    case Closing => step := ByCall(c, Close);
  }

  /** The read loop waits for the server on an open socket, or is gone. */
  predicate Idle(s: State) {
    (s.reader.Reading? && s.read == |s.replies| && !s.closed) || s.reader.Exited?
  }

  lemma LoopStep(s: State) returns (step: Step)
    requires Inv(s) && !s.reader.Crashed? && !Idle(s)
    ensures Owes(s, step)
  {
    if s.reader.Sending? {
      SendIsFree(s);
    }
    step := BusyLoopStep(s);
  }

  lemma BusyLoopStep(s: State) returns (step: Step)
    requires ReaderInv(s) && ServerInv(s) && !s.reader.Crashed? && !Idle(s)
    requires s.reader.Sending? ==> LoopEnabled(s, Send)
    ensures Owes(s, step)
  {
    match s.reader
    case Reading => step := ByLoop(if s.read < |s.replies| then Read else ReadError);
    case Matching(_) => step := ByLoop(Match);
    case Sending(_, _, _) => step := ByLoop(Send);
    case ReaderFailing => step := ByLoop(CasDead);
    case ReaderClosing => step := ByLoop(CloseSocket);
    case Draining => step := ByLoop(if s.fifo == [] then DrainDone else Drain);
  }

  /** With the read loop waiting and slots in the fifo, a failed caller is on its way to fail()
      or the server has a request to answer. */
  lemma Outstanding(s: State) returns (step: Step)
    requires Inv(s) && s.reader.Reading? && Idle(s) && !s.dead && s.fifo != []
    requires s.holder.Some? ==> !IsWriting(s.calls[s.holder.value])
    ensures Owes(s, step)
  {
    if s.werr {
      var c := s.culprit.value;
      assert s.calls[c].Failing? by {
        assert HoldsLock(s.calls[c]) ==> s.holder == Some(c);
      }
      step := ByCall(c, Cas);
    } else {
      assert s.buf == [] && |s.out| == 2 * |s.pushed|;
      var k := |s.served|;
      assert s.out[2 * k] == Header(s.pushed[k]) && s.out[2 * k + 1] == Body(s.pushed[k]);
      step := ByServer([]);
    }
  }

  lemma HolderStep(s: State) returns (step: Step)
    requires Inv(s) && Idle(s) && (s.dead ==> s.closed) && s.holder.Some?
    ensures Owes(s, step)
  {
    var h := s.holder.value;
    if s.calls[h].WantPush? && |s.fifo| >= s.window {
      assert s.reader.Exited? ==> s.fifo == [];
      step := Outstanding(s);
    } else {
      step := FreeHolderStep(s);
    }
  }

  lemma FreeHolderStep(s: State) returns (step: Step)
    requires LockInv(s) && SlotInv(s) && Idle(s) && s.holder.Some?
    requires s.calls[s.holder.value].WantPush? ==> |s.fifo| < s.window
    ensures Owes(s, step)
  {
    var h := s.holder.value;
    match s.calls[h]
    case Locked => step := ByCall(h, Recheck);
    case Bailing => step := ByCall(h, Bail);
    case WantPush => step := ByCall(h, Push);
    case WriteHeader => step := ByCall(h, Write(0, !s.werr));
    case WriteBody(_) => step := ByCall(h, Write(0, !s.werr));
    case Flushing(_) =>
      var ok := !s.werr && (!s.closed || s.buf == []);
      step := ByCall(h, Flush(if ok then |s.buf| else 0, ok));
    case Unlocking(_) => step := ByCall(h, Unlock);
  }

  lemma WaiterStep(s: State, c: CallId) returns (step: Step)
    requires Inv(s) && Idle(s) && (s.dead ==> s.closed) && s.holder.None?
    requires c < |s.calls| && s.calls[c] == Waiting
    ensures Owes(s, step)
  {
    if s.boxes[c].Some? {
      step := ByCall(c, Receive);
    } else {
      FilledOrQueued(s, c);
      WaiterHasSlot(s);
      step := Outstanding(s);
    }
  }
}

/** pconn's own methods, in the order of their source, each run among everybody else: before every
    action of its own, a thread lets the others take any number of steps. What a method does is a
    run of the state machine, so its theorems hold of it. Blocking is waiting for `patience` turns.
    A method stops short of its end in two cases only: the process has crashed, or the very thing it
    waits for still is not there. Every loop but the waits ends because the measure of the machine
    falls. */
module PipelineProgram {
  import opened Bytes
  import opened PipelineModel
  import opened PipelineInvariant
  import opened PipelineTheorems
  import opened PipelineHealth

  datatype Thread = Caller(c: CallId) | ReadLoop

  predicate Mine(th: Thread, step: Step) {
    match th
    case Caller(c) => step.ByCall? && step.c == c
    case ReadLoop => step.ByLoop?
  }

  predicate KeepsPlace(s: State, t: State, th: Thread) {
    && |t.calls| == |s.calls|
    && (th.Caller? && th.c < |s.calls| ==> t.calls[th.c] == s.calls[th.c])
    && (th.ReadLoop? && !t.reader.Crashed? ==> t.reader == s.reader)
  }

  lemma OtherCall(s: State, c: CallId, act: CallerAct, th: Thread)
    requires CallEnabled(s, c, act) && th != Caller(c)
    ensures KeepsPlace(s, CallEffect(s, c, act), th)
  {
  }

  lemma OtherLoop(s: State, act: ReaderAct, th: Thread)
    requires LoopEnabled(s, act) && !th.ReadLoop?
    ensures KeepsPlace(s, LoopEffect(s, act), th)
  {
  }

  /** Where an action leaves a call that stands at pc, finds the connection dead or not, and its slot
      as given. */
  function Place(pc: CallPc, dead: bool, box: Option<Reply>, act: CallerAct): CallPc {
    match act
    case Check => if dead then Returned(Dead) else WantLock
    case Lock => Locked
    case Recheck => if dead then Bailing else WantPush
    case Bail => Returned(Dead)
    case Push => WriteHeader
    case Write(_, ok) =>
      if pc.WriteBody? then Flushing(pc.failed || !ok) else WriteBody(!ok)
    case Flush(_, ok) => if pc.Flushing? then Unlocking(pc.failed || !ok) else pc
    case Unlock => if pc.Unlocking? && pc.failed then Failing else Waiting
    case Cas => if dead then Returned(Dead) else Closing
    case Close => Returned(Dead)
    case Receive => if box.Some? then Returned(box.value) else pc
  }

  /** An action of a call, as far as the fields a caller looks at go. */
  lemma PlaceAfter(s: State, c: CallId, act: CallerAct)
    requires CallEnabled(s, c, act)
    ensures var t := CallEffect(s, c, act);
            && t.reader == s.reader && |t.calls| == |s.calls| && t.dead == (s.dead || act.Cas?)
            && t.calls[c] == Place(s.calls[c], s.dead, s.boxes[c], act)
  {
  }

  /** The others move neither a call's nor the read loop's place in its program. */
  lemma OthersKeep(s: State, step: Step, th: Thread)
    requires Enabled(s, step) && !Mine(th, step)
    ensures KeepsPlace(s, Effect(s, step), th)
  {
    match step
    case ByCall(c, act) => OtherCall(s, c, act, th);
    case ByLoop(act) => OtherLoop(s, act, th);
    case ByServer(body) => assert Effect(s, step) == Answered(s, ParseBody(body));
    case ByClose(act) => assert CloseEffect(s, act).calls == s.calls;
  }

  lemma {:induction false} FollowsOn(s: State, steps: seq<Step>, t: State, step: Step)
    requires Follows(s, steps, t) && Allowed(t, step)
    ensures Follows(s, steps + [step], Effect(t, step))
    decreases |steps|
  {
    if steps == [] {
      assert (steps + [step])[1..] == [];
    } else {
      assert (steps + [step])[1..] == steps[1..] + [step];
      FollowsOn(Effect(s, steps[0]), steps[1..], t, step);
    }
  }

  /** The invariant, which every reachable state has. */
  lemma Reached(s: State, steps: seq<Step>, t: State)
    requires Reaches(s, steps, t)
    ensures Inv(t)
  {
    InitInv(s);
    InvAlong(s, steps, t);
  }

  /** What the network makes of handing `all` to the writer: a wish, as far as it may be granted. */
  function Granted(s: State, all: seq<Piece>, wish: (nat, bool)): (r: (nat, bool))
    ensures WriterMay(s, all, r.0, r.1)
  {
    if s.werr then (0, false)
    else if s.closed then (0, wish.1)
    else (if wish.0 <= |all| then wish.0 else |all|, wish.1)
  }

  /** A flush succeeds only by delivering all of its buffer, and an empty one cannot fail. */
  function Flushed(s: State, wish: (nat, bool)): (r: (nat, bool))
    ensures WriterMay(s, s.buf, r.0, r.1)
    ensures (r.1 ==> r.0 == |s.buf|) && (!r.1 ==> s.werr || s.buf != [])
  {
    if s.werr then (0, false)
    else if s.buf == [] then (0, true)
    else if s.closed then (0, false)
    else if wish.1 then (|s.buf|, true)
    else (if wish.0 <= |s.buf| then wish.0 else |s.buf|, false)
  }

  class PConn {
    ghost const start: State
    ghost var trace: seq<Step>
    /** fifo, w, mu, dead and the socket, as the state machine has them. */
    var s: State
    /** What the others try before this thread's k-th action, and what the network makes of it. */
    const schedule: nat -> seq<Step>
    const network: nat -> (nat, bool)
    var tick: nat

    ghost predicate Valid()
      reads this
    {
      Reaches(start, trace, s)
    }

    constructor (window: nat, callers: nat, others: nat -> seq<Step>, net: nat -> (nat, bool))
      requires window >= 1
      ensures Valid() && |s.calls| == callers && s.reader == Reading
      ensures forall c :: 0 <= c < callers ==> s.calls[c] == Start
      ensures (forall k :: net(k).1) && (forall k, i :: 0 <= i < |others(k)| ==> Quiet(others(k)[i])) ==> Calm()
    {
      var first := State(window, seq(callers, _ => Start), None, [], [], false, [], [], [], 0, Reading,
                          false, false, CloserIdle, seq(callers, _ => None), [], seq(callers, _ => 0), None, Nobody);
      start, trace, s := first, [], first;
      schedule, network, tick := others, net, 0;
    }

    /** The steps that anybody may still take, at most. */
    ghost function Left(): nat
      reads this
      requires Valid()
    {
      Reached(start, trace, s);
      RunDescends(s, [], s);
      Measure(s)
    }

    /** Nothing has gone wrong, and neither the network nor the others will make it. */
    ghost predicate Calm()
      reads this
    {
      && Valid() && QuietRun(trace)
      && (forall k :: network(k).1)
      && (forall k, i :: 0 <= i < |schedule(k)| ==> Quiet(schedule(k)[i]))
    }

    lemma CalmState()
      requires Calm()
      ensures Healthy(s)
    {
      HealthyFromStart(start, trace, s);
    }

    lemma CallsFine(c: CallId)
      requires Calm() && c < |s.calls|
      ensures CallFine(s.calls[c]) && !s.dead && !s.reader.Crashed?
    {
      CalmState();
    }

    method Act(step: Step)
      requires Valid() && Allowed(s, step)
      modifies this`s, this`trace
      ensures Valid() && s == Effect(old(s), step) && Left() < old(Left())
      ensures old(Calm()) && Quiet(step) ==> Calm()
    {
      FollowsOn(start, trace, s, step);
      StepDescends(s, step);
      trace := trace + [step];
      s := Effect(s, step);
    }

    /** The others' turn. */
    method Others(th: Thread) returns (alive: bool)
      requires Valid()
      modifies this
      ensures Valid() && (alive <==> !s.reader.Crashed?)
      ensures KeepsPlace(old(s), s, th) && Left() <= old(Left()) && (old(Calm()) ==> Calm())
    {
      var steps := schedule(tick);
      tick := tick + 1;
      for i := 0 to |steps|
        invariant Valid() && KeepsPlace(old(s), s, th) && Left() <= old(Left()) && (old(Calm()) ==> Calm())
      {
        if Allowed(s, steps[i]) && !Mine(th, steps[i]) {
          OthersKeep(s, steps[i], th);
          Act(steps[i]);
        }
      }
      alive := !s.reader.Crashed?;
    }

    // ---------- a caller ----------

    /** An action of call c, as far as its own place goes. */
    method CallAct(c: CallId, act: CallerAct)
      requires Valid() && !s.reader.Crashed? && CallEnabled(s, c, act)
      modifies this`s, this`trace
      ensures Valid() && !s.reader.Crashed? && c < |s.calls| == |old(s).calls|
      ensures s.calls[c] == Place(old(s).calls[c], old(s).dead, old(s).boxes[c], act)
      ensures s.dead == (old(s).dead || act.Cas?)
      ensures old(Calm()) && Quiet(ByCall(c, act)) ==> Calm()
    {
      Act(ByCall(c, act));
      PlaceAfter(old(s), c, act);
    }

    lemma Sized()
      requires Valid()
      ensures |s.boxes| == |s.calls|
    {
      Reached(start, trace, s);
    }

    /** Call c is kept from going on: the mutex is held, the fifo is full, or its slot is empty. */
    predicate Blocked(c: CallId)
      reads this
    {
      && c < |s.calls| == |s.boxes|
      && match s.calls[c]
         case WantLock => s.holder.Some?
         case WantPush => |s.fifo| >= s.window
         case Waiting => s.boxes[c].None?
         case _ => false
    }

    predicate Stuck(c: CallId)
      reads this
    {
      s.reader.Crashed? || Blocked(c)
    }

    /** Once call c has returned from fail(), the connection is dead, and closed if it was c that
        declared it so. */
    lemma FailedFor(c: CallId)
      requires Valid() && c < |s.calls|
      ensures s.calls[c] == Closing ==> s.dead
      ensures s.calls[c].Returned? && s.killer == ByCaller(c) ==> s.closed
    {
      Reached(start, trace, s);
    }

    /** fail(), as a caller runs it. */
    method FailCall(c: CallId) returns (done: bool)
      requires Valid() && c < |s.calls| && s.calls[c] == Failing
      modifies this
      ensures Valid() && c < |s.calls|
      ensures done ==> s.calls[c] == Returned(Dead) && s.dead && (s.killer == ByCaller(c) ==> s.closed)
      ensures !done ==> s.reader.Crashed?
    {
      done := Others(Caller(c));
      if !done {
        return;
      }
      Sized();
      CallAct(c, Cas);
      if s.calls[c] == Closing {
        done := Others(Caller(c));
        if !done {
          return;
        }
        Sized();
        FailedFor(c);
        CallAct(c, Close);
      }
      FailedFor(c);
    }

    /** Up to the lock: the first check. */
    method Enter(c: CallId, patience: nat) returns (r: Option<Reply>, pushed: bool)
      requires Valid() && c < |s.calls| && s.calls[c] == Start
      modifies this
      ensures Valid() && c < |s.calls|
      ensures r.Some? ==> !pushed && r.value == Dead && s.calls[c] == Returned(Dead)
      ensures pushed ==> s.calls[c] == WriteHeader
      ensures r.None? && !pushed ==> Stuck(c)
      ensures old(Calm()) ==> Calm()
    {
      var alive := Others(Caller(c));
      if !alive {
        return None, false;
      }
      Sized();
      CallAct(c, Check);
      if s.calls[c] == Returned(Dead) {
        return Some(Dead), false;
      }
      alive := Others(Caller(c));
      for i := 0 to patience
        invariant Valid() && c < |s.calls| && s.calls[c] == WantLock && (alive <==> !s.reader.Crashed?)
        invariant old(Calm()) ==> Calm()
      {
        if alive && s.holder.Some? {
          alive := Others(Caller(c));
        }
      }
      Sized();
      if !alive || s.holder.Some? {
        return None, false;
      }
      CallAct(c, Lock);
      r, pushed := Push(c, patience);
    }

    /** The second check, and the push or the way out. */
    method Push(c: CallId, patience: nat) returns (r: Option<Reply>, pushed: bool)
      requires Valid() && c < |s.calls| && s.calls[c] == Locked
      modifies this
      ensures Valid() && c < |s.calls|
      ensures r.Some? ==> !pushed && r.value == Dead && s.calls[c] == Returned(Dead)
      ensures pushed ==> s.calls[c] == WriteHeader
      ensures r.None? && !pushed ==> Stuck(c)
      ensures old(Calm()) ==> Calm()
    {
      var alive := Others(Caller(c));
      if !alive {
        return None, false;
      }
      Sized();
      CallAct(c, Recheck);
      alive := Others(Caller(c));
      if !alive {
        return None, false;
      }
      if s.calls[c] == Bailing {
        Sized();
        CallAct(c, Bail);
        return Some(Dead), false;
      }
      pushed := PushSlot(c, patience);
      r := None;
    }

    /** p.fifo <- rc: waits for room. */
    method PushSlot(c: CallId, patience: nat) returns (pushed: bool)
      requires Valid() && !s.reader.Crashed? && c < |s.calls| && s.calls[c] == WantPush
      modifies this
      ensures Valid() && c < |s.calls|
      ensures if pushed then s.calls[c] == WriteHeader else Stuck(c)
      ensures old(Calm()) ==> Calm()
    {
      var alive := true;
      for i := 0 to patience
        invariant Valid() && c < |s.calls| && s.calls[c] == WantPush && (alive <==> !s.reader.Crashed?)
        invariant old(Calm()) ==> Calm()
      {
        if alive && |s.fifo| >= s.window {
          alive := Others(Caller(c));
        }
      }
      Sized();
      pushed := alive && |s.fifo| < s.window;
      if pushed {
        CallAct(c, PipelineModel.Push);
      }
    }

    /** One write of the header or the frame. */
    method Write(c: CallId) returns (alive: bool, err: bool)
      requires Valid() && c < |s.calls| && (s.calls[c].WriteHeader? || s.calls[c].WriteBody?)
      modifies this
      ensures Valid() && c < |s.calls| && (alive <==> !s.reader.Crashed?)
      ensures alive ==>
        s.calls[c] == if old(s.calls[c]).WriteHeader? then WriteBody(err) else Flushing(old(s.calls[c]).failed || err)
      ensures old(Calm()) ==> Calm() && !err
    {
      err := true;
      alive := Others(Caller(c));
      if Calm() {
        CalmState();
      }
      if alive {
        Sized();
        var got := Granted(s, Handed(s, c), network(tick));
        err := !got.1;
        CallAct(c, CallerAct.Write(got.0, got.1));
      }
    }

    /** The flush and the unlock, after two writes. */
    method FlushFrame(c: CallId, err: bool) returns (alive: bool, failed: bool)
      requires Valid() && c < |s.calls| && s.calls[c] == Flushing(err)
      modifies this
      ensures Valid() && c < |s.calls| && (alive <==> !s.reader.Crashed?)
      ensures alive ==> s.calls[c] == (if failed then Failing else Waiting) && (err ==> failed)
      ensures old(Calm()) ==> Calm() && failed == err
    {
      failed := err;
      alive := Others(Caller(c));
      if !alive {
        return;
      }
      Sized();
      if Calm() {
        CalmState();
      }
      var got := Flushed(s, network(tick));
      failed := err || !got.1;
      CallAct(c, Flush(got.0, got.1));
      alive := Others(Caller(c));
      if alive {
        Sized();
        CallAct(c, Unlock);
      }
    }

    /** The two writes, the flush and the unlock; failed is err1 != nil || err2 != nil || err3 != nil. */
    method WriteFrame(c: CallId) returns (alive: bool, failed: bool)
      requires Valid() && c < |s.calls| && s.calls[c] == WriteHeader
      modifies this
      ensures Valid() && c < |s.calls| && (alive <==> !s.reader.Crashed?)
      ensures alive ==> s.calls[c] == if failed then Failing else Waiting
      ensures old(Calm()) ==> Calm() && !failed
    {
      var err1, err2;
      failed := false;
      alive, err1 := Write(c);
      if !alive {
        return;
      }
      alive, err2 := Write(c);
      if !alive {
        return;
      }
      alive, failed := FlushFrame(c, err1 || err2);
    }

    /** call(): what it returns is the server's answer to its own frame, or errPConnDead; it returns
        nothing only if the process has crashed or it is blocked. While nothing goes wrong, it returns
        the answer or is blocked. */
    method Call(c: CallId, patience: nat) returns (r: Option<Reply>)
      requires Valid() && c < |s.calls| && s.calls[c] == Start
      modifies this
      ensures Valid()
      ensures r.Some? ==> c < |s.calls| && s.calls[c] == Returned(r.value)
      ensures r.Some? && r.value.Answer? ==> IsAnswerTo(s, c, r.value)
      ensures r.None? ==> Stuck(c)
      ensures old(Calm()) ==> Calm() && (r.Some? ==> r.value.Answer?) && (r.None? ==> Blocked(c))
    {
      var pushed;
      r, pushed := Enter(c, patience);
      if Calm() {
        CallsFine(c);
      }
      if !pushed {
        return;
      }
      var alive, failed := WriteFrame(c);
      if Calm() {
        CallsFine(c);
      }
      if !alive {
        return None;
      }
      if failed {
        var done := FailCall(c);
        return if done then Some(Dead) else None;
      }
      r := Await(c, patience);
    }

    /** <-rc */
    method Await(c: CallId, patience: nat) returns (r: Option<Reply>)
      requires Valid() && c < |s.calls| && s.calls[c] == Waiting
      modifies this
      ensures Valid()
      ensures r.Some? ==> c < |s.calls| && s.calls[c] == Returned(r.value)
      ensures r.Some? && r.value.Answer? ==> IsAnswerTo(s, c, r.value)
      ensures r.None? ==> Stuck(c)
      ensures old(Calm()) ==> Calm() && (r.Some? ==> r.value.Answer?) && (r.None? ==> Blocked(c))
    {
      var alive := Others(Caller(c));
      Sized();
      for i := 0 to patience
        invariant Valid() && c < |s.calls| == |s.boxes| && s.calls[c] == Waiting && (alive <==> !s.reader.Crashed?)
        invariant old(Calm()) ==> Calm()
      {
        if alive && s.boxes[c].None? {
          alive := Others(Caller(c));
          Sized();
        }
      }
      if Calm() {
        CallsFine(c);
      }
      if !alive || s.boxes[c].None? {
        return None;
      }
      r := s.boxes[c];
      CallAct(c, Receive);
      if Calm() {
        CallsFine(c);
      }
      if r.value.Answer? {
        OwnAnswer(start, trace, s, c);
      }
    }

    // ---------- the read loop ----------

    /** An action of the read loop, as far as its own place goes. */
    method LoopAct(act: ReaderAct)
      requires Valid() && !s.reader.Crashed? && LoopEnabled(s, act)
      modifies this`s, this`trace
      ensures Valid() && s.reader == LoopEffect(old(s), act).reader && Left() < old(Left())
      ensures old(Calm()) && !act.ReadError? ==> Calm()
    {
      Act(ByLoop(act));
    }

    /** A slot is at hand for every response: <-p.fifo never waits. */
    lemma SlotAtHand()
      requires Valid() && s.reader.Matching?
      ensures s.fifo != []
    {
      Reached(start, trace, s);
      assert FifoInv(s) && ServerInv(s) && ReaderInv(s);
    }

    /** The slot in the read loop's hand is free. */
    lemma SlotFree()
      requires Valid() && s.reader.Sending?
      ensures LoopEnabled(s, Send)
    {
      Reached(start, trace, s);
      SendIsFree(s);
    }

    /** Sending into a one-slot channel: the slot is always free, so this never waits. */
    method Fill() returns (alive: bool)
      requires Valid() && s.reader.Sending?
      modifies this
      ensures Valid() && (alive <==> !s.reader.Crashed?)
      ensures alive ==> s.reader == if old(s.reader).draining then Draining else Reading
      ensures Left() <= old(Left()) && (old(Calm()) ==> Calm())
    {
      alive := Others(ReadLoop);
      if alive {
        SlotFree();
        LoopAct(Send);
      }
    }

    /** The read loop has nothing to read. */
    predicate NoResponse()
      reads this
    {
      s.reader == Reading && s.read >= |s.replies|
    }

    /** One response: read it, check it, match it with the oldest slot. Failing is leaving the loop. */
    method ReadOne(patience: nat) returns (go: bool)
      requires Valid() && s.reader == Reading
      modifies this
      ensures Valid()
      ensures go ==> (s.reader == Reading || s.reader == ReaderFailing) && Left() < old(Left())
      ensures !go ==> s.reader.Crashed? || NoResponse()
      ensures old(Calm()) ==> Calm() && (if go then s.reader == Reading else NoResponse())
    {
      var alive := Others(ReadLoop);
      if Calm() {
        CalmState();
      }
      if !alive {
        return false;
      }
      var fault := !network(tick).1;
      for i := 0 to patience
        invariant Valid() && (alive <==> !s.reader.Crashed?) && (alive ==> s.reader == Reading)
        invariant Left() <= old(Left()) && (old(Calm()) ==> Calm())
      {
        if alive && !fault && s.read >= |s.replies| {
          alive := Others(ReadLoop);
        }
      }
      if Calm() {
        CalmState();
      }
      if !alive || (!fault && s.read >= |s.replies|) {
        return false;
      }
      if fault {
        LoopAct(ReadError);
        return true;
      }
      LoopAct(Read);
      go := MatchOne();
      if Calm() {
        CalmState();
      }
    }

    /** The rest of a turn, once the frame is read. */
    method MatchOne() returns (go: bool)
      requires Valid() && (s.reader.Matching? || s.reader == ReaderFailing || s.reader.Crashed?)
      modifies this
      ensures Valid() && Left() <= old(Left())
      ensures go ==> s.reader == Reading || s.reader == ReaderFailing
      ensures !go ==> s.reader.Crashed?
      ensures old(Calm()) ==> Calm()
    {
      if !s.reader.Matching? {
        return !s.reader.Crashed?;
      }
      go := Others(ReadLoop);
      if go {
        SlotAtHand();
        LoopAct(Match);
        go := Fill();
      }
    }

    /** fail(), as the read loop runs it. */
    method FailLoop() returns (alive: bool)
      requires Valid() && s.reader == ReaderFailing
      modifies this
      ensures Valid() && (alive <==> !s.reader.Crashed?) && (alive ==> s.reader == Draining)
    {
      alive := Others(ReadLoop);
      if !alive {
        return;
      }
      LoopAct(CasDead);
      if s.reader == ReaderClosing {
        alive := Others(ReadLoop);
        if alive {
          LoopAct(CloseSocket);
        }
      }
    }

    /** readLoop(): when it is over, nobody waits on a slot that stays empty; it is not over only if
        the process has crashed or there is no response to read. While nothing goes wrong it is never
        over: it has matched every response there is. */
    method RunReadLoop(patience: nat) returns (exited: bool)
      requires Valid() && s.reader == Reading
      modifies this
      ensures Valid()
      ensures exited ==> s.reader == Exited && !LostWaiter(s)
      ensures !exited ==> s.reader.Crashed? || NoResponse()
      ensures old(Calm()) ==> Calm() && !exited && NoResponse()
    {
      while s.reader == Reading
        invariant Valid() && (s.reader == Reading || s.reader == ReaderFailing) && (old(Calm()) ==> Calm())
        decreases Left()
      {
        var go := ReadOne(patience);
        if !go {
          return false;
        }
      }
      if Calm() {
        CalmState();
      }
      exited := FailLoop();
      while exited && s.reader == Draining
        invariant Valid() && (exited <==> !s.reader.Crashed?)
        invariant exited ==> s.reader == Draining || s.reader == Exited
        decreases Left(), exited
      {
        exited := DrainOne();
      }
      if exited {
        NoLostWaiter(start, trace, s);
      }
    }

    /** One turn of the final select. */
    method DrainOne() returns (alive: bool)
      requires Valid() && s.reader == Draining
      modifies this
      ensures Valid() && (alive <==> !s.reader.Crashed?)
      ensures alive ==> s.reader == Draining || s.reader == Exited
      ensures Left() <= old(Left()) && (alive ==> Left() < old(Left()))
    {
      alive := Others(ReadLoop);
      if !alive {
        return;
      }
      if s.fifo == [] {
        LoopAct(DrainDone);
      } else {
        LoopAct(Drain);
        alive := Fill();
      }
    }
  }
}

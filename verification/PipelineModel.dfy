/** The pipelined connection of netkv/pipeline.go as a state machine. Any number of calls share
    one connection; every atomic action of a caller, of the read loop, of the server at the other
    end and of the engine's close() is one Step. What the network and the scheduler choose
    (which action runs, how many pieces a write delivers, whether it fails) is a parameter of
    the step, so a run is a list of steps. */
module PipelineModel {
  import opened Bytes

  type CallId = nat

  /** What a call returns: the server's status and payload, or errPConnDead. */
  datatype Reply = Answer(status: byte, payload: seq<byte>) | Dead

  /** One request on the wire: its 4-byte length header, then the frame itself. */
  datatype Piece = Header(call: CallId) | Body(call: CallId)

  // ---------- the body of a response frame ----------

  datatype Parsed = Fine(reply: Reply) | Malformed | Panics

  /** The read loop's checks on a body. The sum is Go's uint32 arithmetic, and slicing a body
      from 5 to a smaller bound panics. */
  function ParseBody(body: seq<byte>): Parsed {
    if |body| < 5 then Malformed
    else
      var plen := GetU32(body[1..5]);
      var end := (5 + plen) % TWO_32;
      if |body| % TWO_32 < end then Malformed
      else if end < 5 || end > |body| then Panics
      else Fine(Answer(body[0], body[5..end]))
  }

  /** Where a call stands; `failed` is err1 != nil || err2 != nil || err3 != nil so far. */
  datatype CallPc =
    | Start
    | WantLock
    | Locked
    | Bailing
    | WantPush
    | WriteHeader
    | WriteBody(failed: bool)
    | Flushing(failed: bool)
    | Unlocking(failed: bool)
    | Failing
    | Closing
    | Waiting
    | Returned(reply: Reply)

  /** Where the read loop stands. Sending(c, r, draining) is about to send r into c's slot. */
  datatype ReaderPc =
    | Reading
    | Matching(reply: Reply)
    | Sending(call: CallId, reply: Reply, draining: bool)
    | ReaderFailing
    | ReaderClosing
    | Draining
    | Exited
    | Crashed

  /** The engine's close(): before, between its CompareAndSwap and its Close, after. */
  datatype CloserPc = CloserIdle | CloserClosing | CloserDone

  /** Who won the CompareAndSwap on `dead`. */
  datatype Killer = Nobody | ByCaller(call: CallId) | ByReader | ByEngine

  /** fifo, w (buf and its sticky error werr), mu (holder), dead and the socket's closed flag are
      the fields of pconn; out is what the socket has delivered to the server, served the requests
      it has answered, replies what the read loop makes of each answer, and boxes the one-slot
      result channels.
      pushed, fills, culprit and killer record history and never enable or disable a step. */
  datatype State = State(
    window: nat,
    calls: seq<CallPc>,
    holder: Option<CallId>,
    fifo: seq<CallId>,
    buf: seq<Piece>,
    werr: bool,
    out: seq<Piece>,
    served: seq<CallId>,
    replies: seq<Parsed>,
    read: nat,
    reader: ReaderPc,
    dead: bool,
    closed: bool,
    closer: CloserPc,
    boxes: seq<Option<Reply>>,
    pushed: seq<CallId>,
    fills: seq<nat>,
    culprit: Option<CallId>,
    killer: Killer
  )

  // ---------- steps ----------

  datatype CallerAct =
    | Check
    | Lock
    | Recheck
    | Bail
    | Push
    | Write(n: nat, ok: bool)
    | Flush(n: nat, ok: bool)
    | Unlock
    | Cas
    | Close
    | Receive

  datatype ReaderAct = Read | ReadError | Match | Send | CasDead | CloseSocket | Drain | DrainDone

  datatype EngineAct = EngineCas | EngineClose

  datatype Step =
    | ByCall(c: CallId, act: CallerAct)
    | ByLoop(loop: ReaderAct)
    | ByServer(body: seq<byte>)
    | ByClose(close: EngineAct)

  /** A write or flush that delivers n of the pieces `all` and then succeeds or fails. The error
      of a bufio.Writer is sticky, and nothing more is delivered on a closed socket. */
  predicate WriterMay(s: State, all: seq<Piece>, n: nat, ok: bool) {
    && n <= |all|
    && (s.werr ==> !ok && n == 0)
    && (s.closed ==> n == 0)
  }

  /** What the buffered writer holds once call c has handed it its next piece. */
  function Handed(s: State, c: CallId): seq<Piece>
    requires c < |s.calls|
  {
    s.buf + [if s.calls[c].WriteHeader? then Header(c) else Body(c)]
  }

  predicate CallEnabled(s: State, c: CallId, act: CallerAct) {
    && c < |s.calls| == |s.boxes|
    && var pc := s.calls[c];
       match act
       case Check => pc.Start?
       case Lock => pc.WantLock? && s.holder.None?
       case Recheck => pc.Locked?
       case Bail => pc.Bailing?
       case Push => pc.WantPush? && |s.fifo| < s.window
       case Write(n, ok) => (pc.WriteHeader? || pc.WriteBody?) && WriterMay(s, Handed(s, c), n, ok)
       case Flush(n, ok) =>
         && pc.Flushing?
         && WriterMay(s, s.buf, n, ok)
         && (ok ==> n == |s.buf|)
         && (!ok ==> s.werr || s.buf != [])
       case Unlock => pc.Unlocking?
       case Cas => pc.Failing?
       case Close => pc.Closing?
       case Receive => pc.Waiting? && s.boxes[c].Some?
  }

  predicate LoopEnabled(s: State, act: ReaderAct) {
    match act
    case Read => s.reader.Reading? && s.read < |s.replies|
    case ReadError => s.reader.Reading?
    case Match => s.reader.Matching? && s.fifo != []
    case Send =>
      && s.reader.Sending?
      && s.reader.call < |s.boxes| == |s.fills|
      && s.boxes[s.reader.call].None?
    case CasDead => s.reader.ReaderFailing?
    case CloseSocket => s.reader.ReaderClosing?
    case Drain => s.reader.Draining? && s.fifo != []
    case DrainDone => s.reader.Draining? && s.fifo == []
  }

  /** The next request has arrived complete. */
  predicate RequestArrived(s: State) {
    && var k := 2 * |s.served|;
    && k + 1 < |s.out|
    && s.out[k].Header? && s.out[k + 1] == Body(s.out[k].call)
  }

  predicate CloseEnabled(s: State, act: EngineAct) {
    match act
    case EngineCas => s.closer.CloserIdle?
    case EngineClose => s.closer.CloserClosing?
  }

  /** A crashed read loop takes the whole process with it. */
  predicate Enabled(s: State, step: Step) {
    && !s.reader.Crashed?
    && match step
       case ByCall(c, act) => CallEnabled(s, c, act)
       case ByLoop(act) => LoopEnabled(s, act)
       case ByServer(body) => RequestArrived(s) && |body| < TWO_32
       case ByClose(act) => CloseEnabled(s, act)
  }

  function Goto(s: State, c: CallId, pc: CallPc): State
    requires c < |s.calls|
  {
    s.(calls := s.calls[c := pc])
  }

  function Written(s: State, c: CallId, all: seq<Piece>, n: nat, ok: bool): State
    requires n <= |all|
  {
    s.(out := s.out + all[..n], buf := all[n..], werr := s.werr || !ok,
       culprit := if !s.werr && !ok then Some(c) else s.culprit)
  }

  function CallEffect(s: State, c: CallId, act: CallerAct): State
    requires CallEnabled(s, c, act)
  {
    match act
    case Check => Goto(s, c, if s.dead then Returned(Dead) else WantLock)
    case Lock => Goto(s, c, Locked).(holder := Some(c))
    case Recheck => Goto(s, c, if s.dead then Bailing else WantPush)
    case Bail => Goto(s, c, Returned(Dead)).(holder := None)
    case Push => Goto(s, c, WriteHeader).(fifo := s.fifo + [c], pushed := s.pushed + [c])
    case Write(n, ok) =>
      var pc := if s.calls[c].WriteHeader? then WriteBody(!ok) else Flushing(s.calls[c].failed || !ok);
      Goto(Written(s, c, Handed(s, c), n, ok), c, pc)
    case Flush(n, ok) => Goto(Written(s, c, s.buf, n, ok), c, Unlocking(s.calls[c].failed || !ok))
    case Unlock => Goto(s, c, if s.calls[c].failed then Failing else Waiting).(holder := None)
    case Cas =>
      if s.dead then Goto(s, c, Returned(Dead))
      else Goto(s, c, Closing).(dead := true, killer := ByCaller(c))
    case Close => Goto(s, c, Returned(Dead)).(closed := true)
    case Receive => Goto(s, c, Returned(s.boxes[c].value)).(boxes := s.boxes[c := None])
  }

  function LoopEffect(s: State, act: ReaderAct): State
    requires LoopEnabled(s, act)
  {
    match act
    case Read =>
      s.(read := s.read + 1,
         reader := match s.replies[s.read]
           case Fine(r) => Matching(r)
           case Malformed => ReaderFailing
           case Panics => Crashed)
    case ReadError => s.(reader := ReaderFailing)
    case Match => s.(reader := Sending(s.fifo[0], s.reader.reply, false), fifo := s.fifo[1..])
    case Send =>
      var c := s.reader.call;
      s.(boxes := s.boxes[c := Some(s.reader.reply)], fills := s.fills[c := s.fills[c] + 1],
         reader := if s.reader.draining then Draining else Reading)
    case CasDead =>
      if s.dead then s.(reader := Draining)
      else s.(reader := ReaderClosing, dead := true, killer := ByReader)
    case CloseSocket => s.(reader := Draining, closed := true)
    case Drain => s.(reader := Sending(s.fifo[0], Dead, true), fifo := s.fifo[1..])
    case DrainDone => s.(reader := Exited)
  }

  /** The server answers, and the read loop will make `parsed` of the answer. */
  function Answered(s: State, parsed: Parsed): State
    requires RequestArrived(s)
  {
    s.(served := s.served + [s.out[2 * |s.served|].call], replies := s.replies + [parsed])
  }

  function CloseEffect(s: State, act: EngineAct): State
    requires CloseEnabled(s, act)
  {
    match act
    case EngineCas =>
      if s.dead then s.(closer := CloserDone)
      else s.(closer := CloserClosing, dead := true, killer := ByEngine)
    case EngineClose => s.(closer := CloserDone, closed := true)
  }

  function Effect(s: State, step: Step): State
    requires Enabled(s, step)
  {
    match step
    case ByCall(c, act) => CallEffect(s, c, act)
    case ByLoop(act) => LoopEffect(s, act)
    case ByServer(body) => Answered(s, ParseBody(body))
    case ByClose(act) => CloseEffect(s, act)
  }

  // ---------- runs ----------

  ghost predicate Init(s: State) {
    && s.window >= 1
    && |s.boxes| == |s.fills| == |s.calls|
    && (forall c :: 0 <= c < |s.calls| ==> s.calls[c] == Start && s.boxes[c].None? && s.fills[c] == 0)
    && s.holder.None? && s.fifo == [] && s.buf == [] && !s.werr && s.out == []
    && s.served == [] && s.replies == [] && s.read == 0 && s.reader == Reading
    && !s.dead && !s.closed && s.closer == CloserIdle
    && s.pushed == [] && s.culprit.None? && s.killer == Nobody
  }

  predicate NoWantPush(s: State) {
    forall c :: 0 <= c < |s.calls| ==> s.calls[c] != WantPush
  }

  /** The engine's close() may take its CompareAndSwap: no call sits between its second dead
      check and its push, unless the connection is already dead or its writer has failed.
      A close() that overlaps no live call always satisfies this. */
  predicate SafeToClose(s: State) {
    s.dead || s.werr || NoWantPush(s)
  }

  /** An enabled step, the engine closing only where it is safe. */
  predicate Allowed(s: State, step: Step) {
    && Enabled(s, step)
    && (step == ByClose(EngineCas) ==> SafeToClose(s))
  }

  /** t is reached from s by the given steps, whoever chose them. */
  ghost predicate Leads(s: State, steps: seq<Step>, t: State)
    decreases |steps|
  {
    if steps == [] then s == t
    else
      && Enabled(s, steps[0])
      && Leads(Effect(s, steps[0]), steps[1..], t)
  }

  /** t is reached from s by the given steps, the engine closing only where it is safe. */
  ghost predicate Follows(s: State, steps: seq<Step>, t: State)
    decreases |steps|
  {
    if steps == [] then s == t
    else Allowed(s, steps[0]) && Follows(Effect(s, steps[0]), steps[1..], t)
  }

  /** The read loop is gone and a call waits on an empty slot. */
  ghost predicate LostWaiter(s: State) {
    && s.reader.Exited?
    && |s.boxes| == |s.calls|
    && exists c :: 0 <= c < |s.calls| && s.calls[c] == Waiting && s.boxes[c].None?
  }

  /** r is what the server answered to call c's own frame. */
  ghost predicate IsAnswerTo(s: State, c: CallId, r: Reply) {
    && |s.replies| == |s.served|
    && exists i :: 0 <= i < |s.served| && s.served[i] == c && s.replies[i] == Fine(r)
  }
}

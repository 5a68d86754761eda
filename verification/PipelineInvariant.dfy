/** What every step of the pipelined connection keeps. */
module PipelineInvariant {
  import opened Bytes
  import opened PipelineModel

  /** Not yet pushed, in the critical section, and between push and unlock. */
  predicate BeforePush(pc: CallPc) {
    pc.Start? || pc.WantLock? || pc.Locked? || pc.Bailing? || pc.WantPush?
  }

  predicate HasPushed(pc: CallPc) {
    !BeforePush(pc) && !pc.Returned?
  }

  predicate HoldsLock(pc: CallPc) {
    pc.Locked? || pc.Bailing? || pc.WantPush? || IsWriting(pc)
  }

  predicate IsWriting(pc: CallPc) {
    pc.WriteHeader? || pc.WriteBody? || pc.Flushing? || pc.Unlocking?
  }

  /** The caller has seen a write error and will call, or is inside, fail(). */
  predicate SawError(pc: CallPc) {
    || ((pc.WriteBody? || pc.Flushing? || pc.Unlocking?) && pc.failed)
    || pc.Failing? || pc.Closing?
  }

  /** The three stretches of pconn.call: up to the push, the push and the writes, and the rest. */
  predicate Entering(act: CallerAct) {
    act.Check? || act.Lock? || act.Recheck? || act.Bail?
  }

  predicate Writing(act: CallerAct) {
    act.Push? || act.Write? || act.Flush?
  }

  predicate Leaving(act: CallerAct) {
    act.Unlock? || act.Cas? || act.Close? || act.Receive?
  }

  function Popped(s: State): int {
    |s.pushed| - |s.fifo|
  }

  ghost predicate Distinct(q: seq<CallId>) {
    forall i, j :: 0 <= i < j < |q| ==> q[i] != q[j]
  }

  /** The fifo is the tail of the history of pushes. */
  ghost predicate Aligned(fifo: seq<CallId>, pushed: seq<CallId>) {
    && |fifo| <= |pushed|
    && fifo == pushed[|pushed| - |fifo|..]
  }

  /** The slots are a window onto the history of pushes: a call pushes at most once. */
  ghost predicate FifoOk(window: nat, calls: seq<CallPc>, fifo: seq<CallId>, pushed: seq<CallId>) {
    && window >= 1
    && |fifo| <= window
    && Aligned(fifo, pushed)
    && Distinct(pushed)
    && (forall i :: 0 <= i < |pushed| ==> pushed[i] < |calls| && !BeforePush(calls[pushed[i]]))
    && (forall c :: 0 <= c < |calls| && HasPushed(calls[c]) ==> c in pushed)
  }

  ghost predicate FifoInv(s: State) {
    FifoOk(s.window, s.calls, s.fifo, s.pushed)
  }

  /** The holder of mu is the one call in the critical section; once it has pushed it is the
      last to have done so. */
  ghost predicate LockOk(calls: seq<CallPc>, holder: Option<CallId>, pushed: seq<CallId>) {
    && (forall c :: 0 <= c < |calls| ==> (HoldsLock(calls[c]) <==> holder == Some(c)))
    && (holder.Some? ==> holder.value < |calls|)
    && (holder.Some? && IsWriting(calls[holder.value]) ==>
          (pushed != [] && pushed[|pushed| - 1] == holder.value))
  }

  ghost predicate LockInv(s: State) {
    LockOk(s.calls, s.holder, s.pushed)
  }

  /** ps is a prefix of the stream the pushes call for: header and body of each call, in order. */
  ghost predicate IsStream(pushed: seq<CallId>, ps: seq<Piece>) {
    && |ps| <= 2 * |pushed|
    && (forall i :: 0 <= i < |pushed| && 2 * i < |ps| ==> ps[2 * i] == Header(pushed[i]))
    && (forall i :: 0 <= i < |pushed| && 2 * i + 1 < |ps| ==> ps[2 * i + 1] == Body(pushed[i]))
  }

  /** What the holder of mu is doing, as far as its frame goes. */
  function HolderPc(calls: seq<CallPc>, holder: Option<CallId>): CallPc {
    if holder.Some? && holder.value < |calls| then calls[holder.value] else Start
  }

  /** Pieces of the last pushed call not yet handed to the writer. */
  function Owed(pc: CallPc): nat {
    if pc.WriteHeader? then 2 else if pc.WriteBody? then 1 else 0
  }

  /** Until the writer fails, delivered and buffered pieces are exactly the stream of the pushes;
      afterwards what was delivered is a prefix of it. Only a call in the middle of its own frame
      leaves pieces in the buffer. */
  ghost predicate StreamOk(pc: CallPc, buf: seq<Piece>, werr: bool, out: seq<Piece>, pushed: seq<CallId>) {
    && IsStream(pushed, out)
    && (!werr ==>
          && IsStream(pushed, out + buf)
          && |out| + |buf| == 2 * |pushed| - Owed(pc)
          && (buf != [] ==> pc.WriteBody? || pc.Flushing?))
  }

  ghost predicate StreamInv(s: State) {
    StreamOk(HolderPc(s.calls, s.holder), s.buf, s.werr, s.out, s.pushed)
  }

  /** The server has answered a prefix of the pushes, in order. */
  ghost predicate ServerOk(out: seq<Piece>, served: seq<CallId>, replies: seq<Parsed>, read: nat, pushed: seq<CallId>) {
    && |served| == |replies|
    && read <= |replies|
    && 2 * |served| <= |out|
    && |served| <= |pushed|
    && (forall i :: 0 <= i < |served| ==> served[i] == pushed[i])
  }

  ghost predicate ServerInv(s: State) {
    ServerOk(s.out, s.served, s.replies, s.read, s.pushed)
  }

  /** While the read loop matches, slots popped and bodies read stay in step. */
  ghost predicate ReaderOk(reader: ReaderPc, popped: int, read: nat, replies: seq<Parsed>, pushed: seq<CallId>) {
    match reader
    case Reading => popped == read
    case Matching(r) =>
      && 1 <= read <= |replies|
      && popped == read - 1 && replies[read - 1] == Fine(r)
    case Sending(c, r, draining) =>
      && 1 <= popped <= |pushed| && c == pushed[popped - 1]
      && (if draining then r == Dead else popped == read <= |replies| && replies[read - 1] == Fine(r))
    case Crashed => 1 <= read <= |replies| && replies[read - 1].Panics?
    case _ => true
  }

  ghost predicate ReaderInv(s: State) {
    ReaderOk(s.reader, Popped(s), s.read, s.replies, s.pushed)
  }

  predicate InHand(reader: ReaderPc, c: CallId) {
    reader.Sending? && reader.call == c
  }

  /** The i-th pushed slot has been filled exactly once if it was popped and is not in the read
      loop's hand, and never otherwise; a filled slot is full until its call returns. */
  ghost predicate SlotOk(calls: seq<CallPc>, popped: int, reader: ReaderPc, boxes: seq<Option<Reply>>,
                         pushed: seq<CallId>, fills: seq<nat>)
  {
    && |boxes| == |fills| == |calls|
    && (forall i :: 0 <= i < |pushed| && pushed[i] < |fills| ==>
          fills[pushed[i]] == if i < popped && !InHand(reader, pushed[i]) then 1 else 0)
    && (forall c :: 0 <= c < |fills| && c !in pushed ==> fills[c] == 0)
    && (forall c :: 0 <= c < |fills| && fills[c] == 0 ==> boxes[c].None?)
    && (forall c :: 0 <= c < |fills| && fills[c] != 0 && !calls[c].Returned? ==> boxes[c].Some?)
  }

  ghost predicate SlotInv(s: State) {
    SlotOk(s.calls, Popped(s), s.reader, s.boxes, s.pushed, s.fills)
  }

  /** Every answer delivered or returned is the server's answer to that call's frame. */
  ghost predicate AnswerInv(s: State) {
    && |s.boxes| == |s.calls|
    && (forall c :: 0 <= c < |s.calls| && s.boxes[c].Some? && s.boxes[c].value.Answer? ==>
          IsAnswerTo(s, c, s.boxes[c].value))
    && (forall c :: 0 <= c < |s.calls| && s.calls[c].Returned? && s.calls[c].reply.Answer? ==>
          IsAnswerTo(s, c, s.calls[c].reply))
  }

  /** The caller that met the first write error is on its way to fail(), or the connection is
      dead; no caller sees an error unless the writer failed. */
  ghost predicate ErrorOk(calls: seq<CallPc>, werr: bool, dead: bool, culprit: Option<CallId>) {
    && (forall c :: 0 <= c < |calls| && SawError(calls[c]) ==> werr)
    && (forall c :: 0 <= c < |calls| && calls[c].Closing? ==> dead)
    && (werr ==> culprit.Some? && culprit.value < |calls| && (dead || SawError(calls[culprit.value])))
  }

  ghost predicate ErrorInv(s: State) {
    ErrorOk(s.calls, s.werr, s.dead, s.culprit)
  }

  /** Who declared the connection dead, and what that is worth: a caller does so only after the
      writer failed, and whoever does so then closes the socket. */
  ghost predicate DeathInv(s: State) {
    && (s.dead <==> s.killer != Nobody)
    && (s.closed ==> s.dead)
    && (match s.killer
        case Nobody => true
        case ByCaller(c) => s.werr && c < |s.calls| && (s.closed || s.calls[c] == Closing)
        case ByReader => s.closed || s.reader.ReaderClosing? || s.reader.Crashed?
        case ByEngine => s.closed || (s.closer.CloserClosing? && (s.werr || NoWantPush(s))))
    && (s.reader.ReaderClosing? ==> s.killer == ByReader)
    && (s.closer.CloserClosing? ==> s.dead)
  }

  /** The read loop is past its fail(). */
  predicate Past(r: ReaderPc) {
    r.Draining? || r.Exited? || (r.Sending? && r.draining)
  }

  /** A call that pushed after the drain cannot come to wait: it is still writing, and its flush
      will fail, or it has already seen the error. */
  predicate LateSlot(pc: CallPc, werr: bool, buf: seq<Piece>) {
    || pc.WriteHeader? || SawError(pc) || pc == Returned(Dead)
    || ((pc.WriteBody? || pc.Flushing?) && (werr || buf != []))
  }

  ghost predicate LateInv(s: State) {
    && (Past(s.reader) ==> s.dead && (s.closed || s.werr || NoWantPush(s)))
    && (s.reader.Exited? ==>
          && |s.fifo| <= 1
          && (!s.closed && !s.werr ==> s.fifo == [])
          && (!NoWantPush(s) ==> s.fifo == [])
          && (s.fifo != [] ==> s.fifo[0] < |s.calls| && LateSlot(s.calls[s.fifo[0]], s.werr, s.buf)))
  }

  ghost predicate Inv(s: State) {
    && FifoInv(s) && LockInv(s) && StreamInv(s) && ServerInv(s) && ReaderInv(s) && SlotInv(s)
    && AnswerInv(s) && ErrorInv(s) && DeathInv(s) && LateInv(s)
  }

  lemma InitInv(s: State)
    requires Init(s)
    ensures Inv(s)
  {
  }

  lemma FifoEntering(s: State, c: CallId, act: CallerAct)
    requires FifoInv(s) && CallEnabled(s, c, act) && Entering(act)
    ensures FifoInv(CallEffect(s, c, act))
  {
  }

  lemma FifoWriting(s: State, c: CallId, act: CallerAct)
    requires FifoInv(s) && CallEnabled(s, c, act) && Writing(act)
    ensures FifoInv(CallEffect(s, c, act))
  {
    if act.Push? {
      FifoPush(s, c);
    } else {
      FifoGoto(s, c, CallEffect(s, c, act).calls[c]);
    }
  }

  lemma FifoPush(s: State, c: CallId)
    requires FifoInv(s) && CallEnabled(s, c, Push)
    ensures FifoInv(CallEffect(s, c, Push))
  {
    var calls, pushed := s.calls[c := WriteHeader], s.pushed + [c];
    assert pushed[|pushed| - 1] == c;
    forall b | 0 <= b < |calls| && HasPushed(calls[b]) ensures b in pushed {
      assert b != c ==> b in s.pushed;
    }
  }

  lemma FifoGoto(s: State, c: CallId, pc: CallPc)
    requires FifoInv(s) && c < |s.calls| && HasPushed(s.calls[c]) && !BeforePush(pc)
    ensures FifoInv(Goto(s, c, pc))
  {
  }

  lemma FifoLeaving(s: State, c: CallId, act: CallerAct)
    requires FifoInv(s) && CallEnabled(s, c, act) && Leaving(act)
    ensures FifoInv(CallEffect(s, c, act))
  {
    FifoGoto(s, c, CallEffect(s, c, act).calls[c]);
  }

  lemma FifoLoop(s: State, act: ReaderAct)
    requires FifoInv(s) && LoopEnabled(s, act)
    ensures FifoInv(LoopEffect(s, act))
  {
  }

  lemma LockEntering(s: State, c: CallId, act: CallerAct)
    requires LockInv(s) && CallEnabled(s, c, act) && Entering(act)
    ensures LockInv(CallEffect(s, c, act))
  {
  }

  lemma LockWriting(s: State, c: CallId, act: CallerAct)
    requires LockInv(s) && CallEnabled(s, c, act) && Writing(act)
    ensures LockInv(CallEffect(s, c, act))
  {
  }

  lemma LockLeaving(s: State, c: CallId, act: CallerAct)
    requires LockInv(s) && CallEnabled(s, c, act) && Leaving(act)
    ensures LockInv(CallEffect(s, c, act))
  {
  }

  lemma StreamEntering(s: State, c: CallId, act: CallerAct)
    requires StreamInv(s) && LockInv(s) && FifoInv(s) && CallEnabled(s, c, act) && Entering(act)
    ensures StreamInv(CallEffect(s, c, act))
  {
  }

  /** The next piece of the call that pushed last extends the stream. */
  lemma StreamExtended(pushed: seq<CallId>, ps: seq<Piece>, c: CallId, piece: Piece)
    requires IsStream(pushed, ps) && pushed != [] && pushed[|pushed| - 1] == c
    requires || (|ps| == 2 * |pushed| - 2 && piece == Header(c))
             || (|ps| == 2 * |pushed| - 1 && piece == Body(c))
    ensures IsStream(pushed, ps + [piece])
  {
  }

  lemma StreamCut(pushed: seq<CallId>, ps: seq<Piece>, n: nat)
    requires IsStream(pushed, ps) && n <= |ps|
    ensures IsStream(pushed, ps[..n])
  {
  }

  lemma StreamHanded(pushed: seq<CallId>, out: seq<Piece>, buf: seq<Piece>, c: CallId, all: seq<Piece>, n: nat)
    requires IsStream(pushed, out + buf) && pushed != [] && pushed[|pushed| - 1] == c
    requires |all| == |buf| + 1 && all[..|buf|] == buf && n <= |all|
    requires || (|out| + |buf| == 2 * |pushed| - 2 && all[|buf|] == Header(c))
             || (|out| + |buf| == 2 * |pushed| - 1 && all[|buf|] == Body(c))
    ensures IsStream(pushed, out + all[..n]) && IsStream(pushed, out + all[..n] + all[n..])
  {
    assert out + all == out + buf + [all[|buf|]];
    StreamExtended(pushed, out + buf, c, all[|buf|]);
    assert (out + all)[..|out| + n] == out + all[..n];
    StreamCut(pushed, out + all, |out| + n);
    assert out + all[..n] + all[n..] == out + all;
  }

  lemma StreamWriting(s: State, c: CallId, act: CallerAct)
    requires StreamInv(s) && LockInv(s) && CallEnabled(s, c, act) && Writing(act)
    ensures StreamInv(CallEffect(s, c, act))
  {
    match act
    case Push =>
    case Write(n, ok) => StreamWritten(s, c, n, ok);
    case Flush(n, ok) => StreamFlushed(s, c, n, ok);
  }

  lemma StreamWritten(s: State, c: CallId, n: nat, ok: bool)
    requires StreamInv(s) && LockInv(s) && CallEnabled(s, c, Write(n, ok))
    ensures StreamInv(CallEffect(s, c, Write(n, ok)))
  {
    var all := Handed(s, c);
    if s.werr {
      assert s.out + all[..0] == s.out;
    } else {
      StreamHanded(s.pushed, s.out, s.buf, c, all, n);
    }
  }

  lemma StreamFlushed(s: State, c: CallId, n: nat, ok: bool)
    requires StreamInv(s) && LockInv(s) && CallEnabled(s, c, Flush(n, ok))
    ensures StreamInv(CallEffect(s, c, Flush(n, ok)))
  {
    if s.werr {
      assert s.out + s.buf[..0] == s.out;
    } else {
      assert (s.out + s.buf)[..|s.out| + n] == s.out + s.buf[..n];
      StreamCut(s.pushed, s.out + s.buf, |s.out| + n);
      assert s.out + s.buf[..n] + s.buf[n..] == s.out + s.buf;
    }
  }

  lemma StreamLeaving(s: State, c: CallId, act: CallerAct)
    requires StreamInv(s) && LockInv(s) && FifoInv(s) && CallEnabled(s, c, act) && Leaving(act)
    ensures StreamInv(CallEffect(s, c, act))
  {
  }

  lemma ServerEntering(s: State, c: CallId, act: CallerAct)
    requires ServerInv(s) && StreamInv(s) && FifoInv(s) && CallEnabled(s, c, act) && Entering(act)
    ensures ServerInv(CallEffect(s, c, act))
  {
  }

  lemma ServerWriting(s: State, c: CallId, act: CallerAct)
    requires ServerInv(s) && StreamInv(s) && FifoInv(s) && CallEnabled(s, c, act) && Writing(act)
    ensures ServerInv(CallEffect(s, c, act))
  {
  }

  lemma ServerLeaving(s: State, c: CallId, act: CallerAct)
    requires ServerInv(s) && StreamInv(s) && FifoInv(s) && CallEnabled(s, c, act) && Leaving(act)
    ensures ServerInv(CallEffect(s, c, act))
  {
  }

  lemma ServerLoop(s: State, act: ReaderAct)
    requires ServerInv(s) && StreamInv(s) && FifoInv(s) && LoopEnabled(s, act)
    ensures ServerInv(LoopEffect(s, act))
  {
  }

  lemma ServerServer(s: State, p: Parsed)
    requires ServerInv(s) && StreamInv(s) && FifoInv(s) && RequestArrived(s)
    ensures ServerInv(Answered(s, p))
  {
  }

  lemma ReaderEntering(s: State, c: CallId, act: CallerAct)
    requires ReaderInv(s) && |s.fifo| <= |s.pushed| && s.read <= |s.replies| && CallEnabled(s, c, act) && Entering(act)
    ensures ReaderInv(CallEffect(s, c, act))
  {
  }

  lemma ReaderWriting(s: State, c: CallId, act: CallerAct)
    requires ReaderInv(s) && |s.fifo| <= |s.pushed| && s.read <= |s.replies| && CallEnabled(s, c, act) && Writing(act)
    ensures ReaderInv(CallEffect(s, c, act))
  {
  }

  lemma ReaderLeaving(s: State, c: CallId, act: CallerAct)
    requires ReaderInv(s) && |s.fifo| <= |s.pushed| && s.read <= |s.replies| && CallEnabled(s, c, act) && Leaving(act)
    ensures ReaderInv(CallEffect(s, c, act))
  {
  }

  lemma ReaderLoop(s: State, act: ReaderAct)
    requires ReaderInv(s) && |s.fifo| <= |s.pushed| && s.read <= |s.replies| && LoopEnabled(s, act)
    requires s.fifo != [] ==> s.fifo[0] == s.pushed[Popped(s)]
    ensures ReaderInv(LoopEffect(s, act))
  {
  }

  lemma SlotEntering(s: State, c: CallId, act: CallerAct)
    requires SlotInv(s) && FifoInv(s) && ReaderInv(s) && CallEnabled(s, c, act) && Entering(act)
    ensures SlotInv(CallEffect(s, c, act))
  {
  }

  lemma SlotWriting(s: State, c: CallId, act: CallerAct)
    requires SlotInv(s) && FifoInv(s) && ReaderInv(s) && CallEnabled(s, c, act) && Writing(act)
    ensures SlotInv(CallEffect(s, c, act))
  {
  }

  lemma SlotLeaving(s: State, c: CallId, act: CallerAct)
    requires SlotInv(s) && FifoInv(s) && ReaderInv(s) && CallEnabled(s, c, act) && Leaving(act)
    ensures SlotInv(CallEffect(s, c, act))
  {
  }

  lemma SlotLoop(s: State, act: ReaderAct)
    requires SlotInv(s) && ReaderInv(s) && LoopEnabled(s, act)
    requires |s.fifo| <= |s.pushed| && Distinct(s.pushed)
    requires s.fifo != [] ==> s.fifo[0] == s.pushed[Popped(s)]
    ensures SlotInv(LoopEffect(s, act))
  {
    if act.Send? {
      SlotSend(s);
    } else if act.Match? || act.Drain? {
      SlotPop(s, act);
    }
  }

  lemma SlotSend(s: State)
    requires SlotInv(s) && ReaderInv(s) && LoopEnabled(s, Send)
    requires |s.fifo| <= |s.pushed| && Distinct(s.pushed)
    ensures SlotInv(LoopEffect(s, Send))
  {
    var c, k := s.reader.call, Popped(s) - 1;
    assert c == s.pushed[k] && s.fills[c] == 0;
  }

  lemma SlotPop(s: State, act: ReaderAct)
    requires SlotInv(s) && LoopEnabled(s, act) && (act.Match? || act.Drain?)
    requires |s.fifo| <= |s.pushed| && Distinct(s.pushed)
    requires s.fifo[0] == s.pushed[Popped(s)]
    ensures SlotInv(LoopEffect(s, act))
  {
  }

  lemma AnswerEntering(s: State, c: CallId, act: CallerAct)
    requires AnswerInv(s) && ServerInv(s) && ReaderInv(s) && CallEnabled(s, c, act) && Entering(act)
    ensures AnswerInv(CallEffect(s, c, act))
  {
  }

  lemma AnswerWriting(s: State, c: CallId, act: CallerAct)
    requires AnswerInv(s) && ServerInv(s) && ReaderInv(s) && CallEnabled(s, c, act) && Writing(act)
    ensures AnswerInv(CallEffect(s, c, act))
  {
  }

  lemma AnswerLeaving(s: State, c: CallId, act: CallerAct)
    requires AnswerInv(s) && ServerInv(s) && ReaderInv(s) && CallEnabled(s, c, act) && Leaving(act)
    ensures AnswerInv(CallEffect(s, c, act))
  {
  }

  lemma AnswerLoop(s: State, act: ReaderAct)
    requires AnswerInv(s) && ServerInv(s) && ReaderInv(s) && LoopEnabled(s, act)
    ensures AnswerInv(LoopEffect(s, act))
  {
  }

  lemma AnswerServer(s: State, p: Parsed)
    requires AnswerInv(s) && ServerInv(s) && ReaderInv(s) && RequestArrived(s)
    ensures AnswerInv(Answered(s, p))
  {
    var t := Answered(s, p);
    forall c, r | IsAnswerTo(s, c, r) ensures IsAnswerTo(t, c, r) {
      var i :| 0 <= i < |s.served| && s.served[i] == c && s.replies[i] == Fine(r);
      assert t.served[i] == c && t.replies[i] == Fine(r);
    }
  }

  lemma ErrorEntering(s: State, c: CallId, act: CallerAct)
    requires ErrorInv(s) && CallEnabled(s, c, act) && Entering(act)
    ensures ErrorInv(CallEffect(s, c, act))
  {
  }

  lemma ErrorWriting(s: State, c: CallId, act: CallerAct)
    requires ErrorInv(s) && CallEnabled(s, c, act) && Writing(act)
    ensures ErrorInv(CallEffect(s, c, act))
  {
  }

  lemma ErrorLeaving(s: State, c: CallId, act: CallerAct)
    requires ErrorInv(s) && CallEnabled(s, c, act) && Leaving(act)
    ensures ErrorInv(CallEffect(s, c, act))
  {
  }

  lemma DeathEntering(s: State, c: CallId, act: CallerAct)
    requires DeathInv(s) && ErrorInv(s) && CallEnabled(s, c, act) && Entering(act)
    ensures DeathInv(CallEffect(s, c, act))
  {
  }

  lemma DeathWriting(s: State, c: CallId, act: CallerAct)
    requires DeathInv(s) && ErrorInv(s) && CallEnabled(s, c, act) && Writing(act)
    ensures DeathInv(CallEffect(s, c, act))
  {
  }

  lemma DeathLeaving(s: State, c: CallId, act: CallerAct)
    requires DeathInv(s) && ErrorInv(s) && CallEnabled(s, c, act) && Leaving(act)
    ensures DeathInv(CallEffect(s, c, act))
  {
  }

  lemma DeathLoop(s: State, act: ReaderAct)
    requires DeathInv(s) && ErrorInv(s) && LoopEnabled(s, act)
    ensures DeathInv(LoopEffect(s, act))
  {
  }

  lemma DeathClose(s: State, act: EngineAct)
    requires DeathInv(s) && ErrorInv(s) && CloseEnabled(s, act) && (act.EngineCas? ==> SafeToClose(s))
    ensures DeathInv(CloseEffect(s, act))
  {
  }

  lemma LateEntering(s: State, c: CallId, act: CallerAct)
    requires LateInv(s) && DeathInv(s) && LockInv(s) && FifoInv(s) && StreamInv(s) && CallEnabled(s, c, act) && Entering(act)
    ensures LateInv(CallEffect(s, c, act))
  {
  }

  lemma LateWriting(s: State, c: CallId, act: CallerAct)
    requires LateInv(s) && DeathInv(s) && LockInv(s) && FifoInv(s) && StreamInv(s) && CallEnabled(s, c, act) && Writing(act)
    ensures LateInv(CallEffect(s, c, act))
  {
  }

  lemma LateLeaving(s: State, c: CallId, act: CallerAct)
    requires LateInv(s) && DeathInv(s) && LockInv(s) && FifoInv(s) && StreamInv(s) && CallEnabled(s, c, act) && Leaving(act)
    ensures LateInv(CallEffect(s, c, act))
  {
  }

  lemma LateLoop(s: State, act: ReaderAct)
    requires LateInv(s) && DeathInv(s) && LockInv(s) && FifoInv(s) && StreamInv(s) && LoopEnabled(s, act)
    ensures LateInv(LoopEffect(s, act))
  {
  }

  lemma LateClose(s: State, act: EngineAct)
    requires LateInv(s) && DeathInv(s) && LockInv(s) && FifoInv(s) && StreamInv(s) && CloseEnabled(s, act) && (act.EngineCas? ==> SafeToClose(s))
    ensures LateInv(CloseEffect(s, act))
  {
  }

  /** The oldest slot in the fifo belongs to the oldest push not yet popped. */
  lemma FirstSlot(s: State)
    requires FifoInv(s) && s.fifo != []
    ensures s.fifo[0] == s.pushed[Popped(s)]
  {
  }

  lemma InvEntering(s: State, c: CallId, act: CallerAct)
    requires Inv(s) && CallEnabled(s, c, act) && Entering(act)
    ensures Inv(CallEffect(s, c, act))
  {
    FifoEntering(s, c, act); LockEntering(s, c, act); StreamEntering(s, c, act); ServerEntering(s, c, act);
    ReaderEntering(s, c, act); SlotEntering(s, c, act); AnswerEntering(s, c, act); ErrorEntering(s, c, act);
    DeathEntering(s, c, act); LateEntering(s, c, act);
  }

  lemma InvWriting(s: State, c: CallId, act: CallerAct)
    requires Inv(s) && CallEnabled(s, c, act) && Writing(act)
    ensures Inv(CallEffect(s, c, act))
  {
    FifoWriting(s, c, act); LockWriting(s, c, act); StreamWriting(s, c, act); ServerWriting(s, c, act);
    ReaderWriting(s, c, act); SlotWriting(s, c, act); AnswerWriting(s, c, act); ErrorWriting(s, c, act);
    DeathWriting(s, c, act); LateWriting(s, c, act);
  }

  lemma InvLeaving(s: State, c: CallId, act: CallerAct)
    requires Inv(s) && CallEnabled(s, c, act) && Leaving(act)
    ensures Inv(CallEffect(s, c, act))
  {
    FifoLeaving(s, c, act); LockLeaving(s, c, act); StreamLeaving(s, c, act); ServerLeaving(s, c, act);
    ReaderLeaving(s, c, act); SlotLeaving(s, c, act); AnswerLeaving(s, c, act); ErrorLeaving(s, c, act);
    DeathLeaving(s, c, act); LateLeaving(s, c, act);
  }

  lemma InvCall(s: State, c: CallId, act: CallerAct)
    requires Inv(s) && CallEnabled(s, c, act)
    ensures Inv(CallEffect(s, c, act))
  {
    if Entering(act) {
      InvEntering(s, c, act);
    } else if Writing(act) {
      InvWriting(s, c, act);
    } else {
      InvLeaving(s, c, act);
    }
  }

  /** The read loop leaves the lock, the stream and the write errors alone. */
  lemma OtherLoop(s: State, act: ReaderAct)
    requires LockInv(s) && StreamInv(s) && ErrorInv(s) && LoopEnabled(s, act)
    ensures LockInv(LoopEffect(s, act)) && StreamInv(LoopEffect(s, act)) && ErrorInv(LoopEffect(s, act))
  {
  }

  /** An answer changes nothing but what the read loop has yet to read. */
  lemma OtherServer(s: State, p: Parsed)
    requires FifoInv(s) && LockInv(s) && StreamInv(s) && SlotInv(s) && ErrorInv(s) && RequestArrived(s)
    ensures FifoInv(Answered(s, p)) && LockInv(Answered(s, p)) && StreamInv(Answered(s, p))
    ensures SlotInv(Answered(s, p)) && ErrorInv(Answered(s, p))
  {
  }

  lemma ReaderServer(s: State, p: Parsed)
    requires ReaderInv(s) && |s.fifo| <= |s.pushed| && s.read <= |s.replies| && RequestArrived(s)
    ensures ReaderInv(Answered(s, p))
  {
  }

  lemma DeathServer(s: State, p: Parsed)
    requires DeathInv(s) && LateInv(s) && RequestArrived(s)
    ensures DeathInv(Answered(s, p)) && LateInv(Answered(s, p))
  {
  }

  lemma OtherClose(s: State, act: EngineAct)
    requires FifoInv(s) && LockInv(s) && StreamInv(s) && ServerInv(s) && SlotInv(s) && CloseEnabled(s, act)
    ensures FifoInv(CloseEffect(s, act)) && LockInv(CloseEffect(s, act)) && StreamInv(CloseEffect(s, act))
    ensures ServerInv(CloseEffect(s, act)) && SlotInv(CloseEffect(s, act))
  {
  }

  lemma ReaderClose(s: State, act: EngineAct)
    requires ReaderInv(s) && |s.fifo| <= |s.pushed| && AnswerInv(s) && ErrorInv(s) && CloseEnabled(s, act)
    ensures ReaderInv(CloseEffect(s, act)) && AnswerInv(CloseEffect(s, act)) && ErrorInv(CloseEffect(s, act))
  {
  }

  lemma InvLoop(s: State, act: ReaderAct)
    requires Inv(s) && LoopEnabled(s, act)
    ensures Inv(LoopEffect(s, act))
  {
    if s.fifo != [] {
      FirstSlot(s);
    }
    OtherLoop(s, act); FifoLoop(s, act); ServerLoop(s, act); ReaderLoop(s, act);
    SlotLoop(s, act); AnswerLoop(s, act); DeathLoop(s, act); LateLoop(s, act);
  }

  lemma InvServer(s: State, p: Parsed)
    requires Inv(s) && RequestArrived(s)
    ensures Inv(Answered(s, p))
  {
    OtherServer(s, p); ServerServer(s, p); ReaderServer(s, p); AnswerServer(s, p); DeathServer(s, p);
  }

  lemma InvClose(s: State, act: EngineAct)
    requires Inv(s) && CloseEnabled(s, act) && (act.EngineCas? ==> SafeToClose(s))
    ensures Inv(CloseEffect(s, act))
  {
    OtherClose(s, act); ReaderClose(s, act); DeathClose(s, act); LateClose(s, act);
  }

  lemma InvKept(s: State, step: Step)
    requires Inv(s) && Allowed(s, step)
    ensures Inv(Effect(s, step))
  {
    match step
    case ByCall(c, act) => InvCall(s, c, act);
    case ByLoop(act) => InvLoop(s, act);
    case ByServer(body) => InvServer(s, ParseBody(body));
    case ByClose(act) => InvClose(s, act);
  }

  /** The invariant holds in every state of every run. */
  lemma {:induction false} InvAlong(s: State, steps: seq<Step>, t: State)
    requires Inv(s) && Follows(s, steps, t)
    ensures Inv(t)
    decreases |steps|
  {
    if steps != [] {
      InvKept(s, steps[0]);
      InvAlong(Effect(s, steps[0]), steps[1..], t);
    }
  }
}

/** The optimistic increment of netkv/main.go: read the counter, ask the server to write cur+1 on
    condition that it still holds cur, re-read and retry on a lost race, up to 1000 times. Any
    number of clients run it against one key. Each request is one atomic step of the server: for the
    conditional writes that is what DispatcherSerial proves of their handlers, and for the reads,
    which take no mutex, what DispatcherReads proves of a lone Get. */
module CasLoop {
  import opened Bytes
  import opened DispatcherModel
  import opened HandlerSpec

  const RETRIES: nat := 1000

  datatype Outcome = Incremented | TooManyRetries | TransportError

  /** Where a client stands in casIncr. `tries` conditional writes of this call have failed, and
      `since` increments of the other clients had been accepted when the call began; `until` is
      their number when it ended. */
  datatype Client =
    | Idle
    | Starting(since: nat)
    | Trying(cur: i64, tries: nat, since: nat)
    | Rereading(tries: nat, since: nat)
    | Back(outcome: Outcome, since: nat, until: nat)

  /** The value of the key and the clients; accepted and rejected count conditional writes, and
      own[k] counts the accepted ones of client k. */
  datatype State = State(entry: Option<Value>, clients: seq<Client>, accepted: nat, rejected: nat, own: seq<nat>)

  /** The increments accepted from everybody but client k. */
  function Others(s: State, k: nat): nat {
    if k < |s.own| && s.own[k] <= s.accepted then s.accepted - s.own[k] else 0
  }

  function Counter(s: State): i64 {
    ToI64(DecodeCounter(s.entry))
  }

  /** A request may be lost on its way to the server or its reply on the way back; either way
      the client sees an error. */
  datatype Act = Call | ReRead(failed: bool) | Cas(lost: Loss) | GiveUp

  datatype Loss = Delivered | RequestLost | ReplyLost

  predicate Enabled(s: State, k: nat, act: Act) {
    && k < |s.clients|
    && var c := s.clients[k];
       match act
       case Call => c.Idle? || c.Back?
       case ReRead(_) => c.Starting? || c.Rereading?
       case Cas(_) => c.Trying? && c.tries < RETRIES
       case GiveUp => c.Trying? && c.tries >= RETRIES
  }

  /** The server's answer to the conditional write of cur+1, on the arguments the client encodes. */
  function Answer(entry: Option<Value>, key: Key, cur: i64): Decision
    requires |key| < 0x1_0000
  {
    Decide(Casw, EncodePairArgs(key, cur, Wrap(cur as int + 1)), entry)
  }

  /** The client's reading of the reply: len(res) >= 1 && res[0] == 1. */
  predicate Accepted(r: Result) {
    r.Ok? && |r.out| >= 1 && r.out[0] == 1
  }

  function Goto(s: State, k: nat, c: Client): State
    requires k < |s.clients|
  {
    s.(clients := s.clients[k := c])
  }

  function Effect(s: State, key: Key, k: nat, act: Act): State
    requires |key| < 0x1_0000 && Enabled(s, k, act)
  {
    var c := s.clients[k];
    match act
    case Call => Goto(s, k, Starting(Others(s, k)))
    case ReRead(failed) =>
      if failed then Goto(s, k, Back(TransportError, c.since, Others(s, k)))
      else Goto(s, k, Trying(Counter(s), if c.Rereading? then c.tries else 0, c.since))
    case GiveUp => Goto(s, k, Back(TooManyRetries, c.since, Others(s, k)))
    case Cas(lost) =>
      if lost.RequestLost? then Goto(s, k, Back(TransportError, c.since, Others(s, k)))
      else Written(s, key, k, lost.ReplyLost?)
  }

  /** The server handles client k's conditional write; the client may not hear of it. */
  function Written(s: State, key: Key, k: nat, unheard: bool): State
    requires |key| < 0x1_0000 && k < |s.clients| && s.clients[k].Trying?
  {
    var c := s.clients[k];
    var d := Answer(s.entry, key, c.cur);
    var won := Accepted(d.result);
    var heard := if won then Back(Incremented, c.since, Others(s, k)) else Rereading(c.tries + 1, c.since);
    Goto(s, k, if unheard then Back(TransportError, c.since, Others(s, k)) else heard)
    .(entry := if d.Write? then Some(d.value) else s.entry,
      accepted := s.accepted + if won then 1 else 0,
      rejected := s.rejected + if won then 0 else 1,
      own := if won && k < |s.own| then s.own[k := s.own[k] + 1] else s.own)
  }

  /** No client is in a call, and no conditional write has been made. */
  ghost predicate Init(s: State) {
    && s.accepted == 0 && s.rejected == 0 && |s.own| == |s.clients|
    && forall k :: 0 <= k < |s.clients| ==> s.clients[k].Idle? && s.own[k] == 0
  }

  ghost predicate Follows(s: State, key: Key, run: seq<(nat, Act)>, t: State)
    requires |key| < 0x1_0000
    decreases |run|
  {
    if run == [] then s == t
    else Enabled(s, run[0].0, run[0].1) && Follows(Effect(s, key, run[0].0, run[0].1), key, run[1..], t)
  }

  // ---------- one conditional write ----------

  /** The server accepts exactly when the client's value is current, and then the counter is one
      higher; otherwise nothing changes. */
  lemma AnswerMeans(entry: Option<Value>, key: Key, cur: i64)
    requires |key| < 0x1_0000
    ensures var d := Answer(entry, key, cur);
            var now := ToI64(DecodeCounter(entry));
            && (Accepted(d.result) <==> cur == now)
            && (d.Write? <==> cur == now)
            && (d.Write? ==> ToI64(DecodeCounter(Some(d.value))) == Wrap(now as int + 1))
  {
    var next := Wrap(cur as int + 1);
    PairArgsReadBack(Casw, key, cur, next);
    CounterReadsBack(ToU64(next));
  }

  /** One attempt, answered: with the current value it succeeds, adds one and ends the call; with any
      other it changes nothing, counts as one more failed try, and the next read brings the current
      value. */
  lemma AttemptMeans(s: State, key: Key, k: nat)
    requires |key| < 0x1_0000 && k < |s.clients| && s.clients[k].Trying? && s.clients[k].tries < 1000
    ensures var c, u := s.clients[k], Effect(s, key, k, Cas(Delivered));
            if c.cur == Counter(s) then
              && u.clients[k] == Back(Incremented, c.since, Others(s, k))
              && Counter(u) == Wrap(Counter(s) as int + 1) && u.accepted == s.accepted + 1 && u.rejected == s.rejected
            else
              && u.entry == s.entry && u.accepted == s.accepted && u.rejected == s.rejected + 1
              && Enabled(u, k, ReRead(false))
              && Effect(u, key, k, ReRead(false)).clients[k] == Trying(Counter(s), c.tries + 1, c.since)
  {
    AnswerMeans(s.entry, key, s.clients[k].cur);
  }

  /** A call begins with a read and no failed try; left alone, its first attempt succeeds. */
  lemma AloneIncrements(s: State, key: Key, k: nat)
    requires |key| < 0x1_0000 && Enabled(s, k, Call)
    ensures var u := Effect(s, key, k, Call);
            && Enabled(u, k, ReRead(false))
            && var v := Effect(u, key, k, ReRead(false));
               && v.clients[k] == Trying(Counter(s), 0, Others(s, k)) && Enabled(v, k, Cas(Delivered))
               && Effect(v, key, k, Cas(Delivered)).clients[k] == Back(Incremented, Others(s, k), Others(s, k))
               && Counter(Effect(v, key, k, Cas(Delivered))) == Wrap(Counter(s) as int + 1)
  {
    var v := Effect(Effect(s, key, k, Call), key, k, ReRead(false));
    AttemptMeans(v, key, k);
  }

  /** What a client reports when a request or its reply is lost; a request lost on its way changes
      nothing. */
  lemma LossMeans(s: State, key: Key, k: nat)
    requires |key| < 0x1_0000 && k < |s.clients|
    ensures Enabled(s, k, Cas(RequestLost)) ==>
              var u := Effect(s, key, k, Cas(RequestLost));
              u.entry == s.entry && u.accepted == s.accepted && u.clients[k].Back? && u.clients[k].outcome == TransportError
    ensures Enabled(s, k, Cas(ReplyLost)) ==>
              var u := Effect(s, key, k, Cas(ReplyLost));
              u.clients[k].Back? && u.clients[k].outcome == TransportError
    ensures Enabled(s, k, ReRead(true)) ==>
              var u := Effect(s, key, k, ReRead(true));
              u.entry == s.entry && u.clients[k].Back? && u.clients[k].outcome == TransportError
  {
  }

  // ---------- stale clients ----------

  /** The client holds a value the counter no longer has. */
  predicate Stale(c: Client, now: i64) {
    c.Trying? && c.cur != now
  }

  function StaleCount(clients: seq<Client>, now: i64): (n: nat)
    ensures n <= |clients|
  {
    if clients == [] then 0
    else StaleCount(clients[..|clients| - 1], now) + if Stale(clients[|clients| - 1], now) then 1 else 0
  }

  lemma {:induction false} StaleUpdate(clients: seq<Client>, k: nat, c: Client, now: i64)
    requires k < |clients|
    ensures StaleCount(clients[k := c], now) ==
              StaleCount(clients, now) - (if Stale(clients[k], now) then 1 else 0)
                                       + (if Stale(c, now) then 1 else 0)
  {
    var n := |clients| - 1;
    if k < n {
      StaleUpdate(clients[..n], k, c, now);
      assert clients[k := c][..n] == clients[..n][k := c];
    } else {
      assert clients[k := c][..n] == clients[..n];
    }
  }

  lemma {:induction false} NotAllStale(clients: seq<Client>, k: nat, now: i64)
    requires k < |clients| && !Stale(clients[k], now)
    ensures StaleCount(clients, now) <= |clients| - 1
  {
    var n := |clients| - 1;
    if k < n {
      NotAllStale(clients[..n], k, now);
    }
  }

  // ---------- the invariant ----------

  /** Every failed try of a call was caused by an increment of somebody else accepted meanwhile. */
  predicate ClientOk(c: Client, now: i64, others: nat) {
    match c
    case Idle => true
    case Starting(since) => since <= others
    case Trying(cur, tries, since) =>
      tries <= RETRIES && since + tries + (if cur != now then 1 else 0) <= others
    case Rereading(tries, since) => tries <= RETRIES && since + tries <= others
    case Back(outcome, since, until) =>
      since <= until <= others && (outcome.TooManyRetries? ==> since + RETRIES <= until)
  }

  ghost predicate ClientsOk(clients: seq<Client>, now: i64, accepted: nat, own: seq<nat>) {
    && |own| == |clients|
    && forall k :: 0 <= k < |clients| ==> own[k] <= accepted && ClientOk(clients[k], now, accepted - own[k])
  }

  /** What n clients may fail while the others' increments are accepted. */
  function Budget(n: nat, accepted: nat): nat {
    if n == 0 || accepted == 0 then 0 else Budget(n, accepted - 1) + (n - 1)
  }

  predicate BudgetOk(clients: seq<Client>, now: i64, accepted: nat, rejected: nat) {
    rejected + StaleCount(clients, now) <= Budget(|clients|, accepted)
  }

  ghost predicate Inv(s: State, seed: i64) {
    && Counter(s) == Wrap(seed + s.accepted)
    && ClientsOk(s.clients, Counter(s), s.accepted, s.own)
    && BudgetOk(s.clients, Counter(s), s.accepted, s.rejected)
  }

  /** What one conditional write of client k comes to. */
  ghost predicate OneWrite(s: State, t: State, k: nat)
    requires k < |s.clients| && s.clients[k].Trying?
  {
    var c := s.clients[k];
    && |t.clients| == |s.clients| && t.clients == s.clients[k := t.clients[k]]
    && if c.cur == Counter(s) then
         && t.accepted == s.accepted + 1 && t.rejected == s.rejected
         && |t.own| == |s.own| && (k < |s.own| ==> t.own == s.own[k := s.own[k] + 1])
         && Counter(t) == Wrap(Counter(s) as int + 1)
         && (t.clients[k] == Back(Incremented, c.since, Others(s, k))
             || t.clients[k] == Back(TransportError, c.since, Others(s, k)))
       else
         && t.accepted == s.accepted && t.rejected == s.rejected + 1 && t.entry == s.entry && t.own == s.own
         && (t.clients[k] == Rereading(c.tries + 1, c.since)
             || t.clients[k] == Back(TransportError, c.since, Others(s, k)))
  }

  lemma WrittenMeans(s: State, key: Key, k: nat, unheard: bool)
    requires |key| < 0x1_0000 && k < |s.clients| && s.clients[k].Trying?
    ensures OneWrite(s, Written(s, key, k, unheard), k)
  {
    AnswerMeans(s.entry, key, s.clients[k].cur);
  }

  lemma CasKept(s: State, t: State, seed: i64, k: nat)
    requires Inv(s, seed) && k < |s.clients| && s.clients[k].Trying? && s.clients[k].tries < RETRIES
    requires OneWrite(s, t, k)
    ensures Inv(t, seed)
  {
    if s.clients[k].cur == Counter(s) {
      WrapOfWrap(seed + s.accepted, 1);
      CasWon(s, t, k);
    } else {
      CasLost(s, t, k);
    }
  }

  lemma CasWon(s: State, t: State, k: nat)
    requires ClientsOk(s.clients, Counter(s), s.accepted, s.own)
    requires BudgetOk(s.clients, Counter(s), s.accepted, s.rejected)
    requires k < |s.clients| && s.clients[k].Trying? && s.clients[k].tries < RETRIES
    requires OneWrite(s, t, k) && s.clients[k].cur == Counter(s)
    ensures ClientsOk(t.clients, Counter(t), t.accepted, t.own)
    ensures BudgetOk(t.clients, Counter(t), t.accepted, t.rejected)
  {
    AcceptKept(s.clients, k, t.clients[k], Counter(s), Counter(t), s.accepted, s.rejected, s.own);
  }

  lemma CasLost(s: State, t: State, k: nat)
    requires ClientsOk(s.clients, Counter(s), s.accepted, s.own)
    requires BudgetOk(s.clients, Counter(s), s.accepted, s.rejected)
    requires k < |s.clients| && s.clients[k].Trying? && s.clients[k].tries < RETRIES
    requires OneWrite(s, t, k) && s.clients[k].cur != Counter(s)
    ensures Counter(t) == Counter(s) && t.accepted == s.accepted
    ensures ClientsOk(t.clients, Counter(t), t.accepted, t.own)
    ensures BudgetOk(t.clients, Counter(t), t.accepted, t.rejected)
  {
    RejectKept(s.clients, k, t.clients[k], Counter(s), s.accepted, s.rejected, s.own);
  }

  lemma QuietKept(s: State, seed: i64, k: nat, c: Client)
    requires Inv(s, seed) && k < |s.clients| && !Stale(c, Counter(s))
    requires ClientOk(c, Counter(s), Others(s, k))
    ensures Inv(Goto(s, k, c), seed)
  {
    StaleUpdate(s.clients, k, c, Counter(s));
  }

  lemma InvKept(s: State, key: Key, seed: i64, k: nat, act: Act)
    requires |key| < 0x1_0000 && Inv(s, seed) && Enabled(s, k, act)
    ensures Inv(Effect(s, key, k, act), seed)
  {
    match act
    case Call => QuietKept(s, seed, k, Starting(Others(s, k)));
    case ReRead(failed) => QuietKept(s, seed, k, Effect(s, key, k, act).clients[k]);
    case GiveUp => QuietKept(s, seed, k, Back(TooManyRetries, s.clients[k].since, Others(s, k)));
    case Cas(lost) =>
      if lost.RequestLost? {
        QuietKept(s, seed, k, Back(TransportError, s.clients[k].since, Others(s, k)));
      } else {
        WrittenMeans(s, key, k, lost.ReplyLost?);
        CasKept(s, Written(s, key, k, lost.ReplyLost?), seed, k);
      }
  }

  /** An accepted write may make every other client stale, and no more. */
  lemma AcceptKept(clients: seq<Client>, k: nat, c: Client, now: i64, next: i64, accepted: nat, rejected: nat,
                   own: seq<nat>)
    requires ClientsOk(clients, now, accepted, own) && BudgetOk(clients, now, accepted, rejected)
    requires k < |clients| && ClientOk(c, next, accepted - own[k]) && !c.Trying?
    ensures ClientsOk(clients[k := c], next, accepted + 1, own[k := own[k] + 1])
    ensures BudgetOk(clients[k := c], next, accepted + 1, rejected)
  {
    NotAllStale(clients[k := c], k, next);
  }

  /** A rejected write uses up the staleness of its client. */
  lemma RejectKept(clients: seq<Client>, k: nat, c: Client, now: i64, accepted: nat, rejected: nat, own: seq<nat>)
    requires ClientsOk(clients, now, accepted, own) && BudgetOk(clients, now, accepted, rejected)
    requires k < |clients| && Stale(clients[k], now) && ClientOk(c, now, accepted - own[k]) && !c.Trying?
    ensures ClientsOk(clients[k := c], now, accepted, own)
    ensures BudgetOk(clients[k := c], now, accepted, rejected + 1)
  {
    StaleUpdate(clients, k, c, now);
  }

  lemma {:induction false} InvAlong(s: State, key: Key, seed: i64, run: seq<(nat, Act)>, t: State)
    requires |key| < 0x1_0000 && Inv(s, seed) && Follows(s, key, run, t)
    ensures Inv(t, seed) && |t.clients| == |s.clients|
    decreases |run|
  {
    if run != [] {
      InvKept(s, key, seed, run[0].0, run[0].1);
      InvAlong(Effect(s, key, run[0].0, run[0].1), key, seed, run[1..], t);
    }
  }

  lemma {:induction false} NoneStale(clients: seq<Client>, now: i64)
    requires forall k :: 0 <= k < |clients| ==> clients[k].Idle?
    ensures StaleCount(clients, now) == 0
  {
    if clients != [] {
      NoneStale(clients[..|clients| - 1], now);
    }
  }

  lemma InitInv(s: State)
    requires Init(s)
    ensures Inv(s, Counter(s))
  {
    NoneStale(s.clients, Counter(s));
  }

  // ---------- what the benchmark may rely on ----------

  /** In every reachable state the counter is the seed plus the accepted writes, modulo 2^64. */
  lemma NoLostUpdates(s: State, key: Key, run: seq<(nat, Act)>, t: State)
    requires |key| < 0x1_0000 && Init(s) && Follows(s, key, run, t)
    ensures Counter(t) == Wrap(Counter(s) + t.accepted)
  {
    InitInv(s);
    InvAlong(s, key, Counter(s), run, t);
  }

  /** Over any run of K clients, failed conditional writes number at most K-1 times the accepted
      ones. */
  lemma ContentionBound(s: State, key: Key, run: seq<(nat, Act)>, t: State)
    requires |key| < 0x1_0000 && Init(s) && Follows(s, key, run, t) && |s.clients| > 0
    ensures t.rejected <= (|s.clients| - 1) * t.accepted
  {
    InitInv(s);
    InvAlong(s, key, Counter(s), run, t);
    BudgetIsProduct(|s.clients|, t.accepted);
  }

  lemma {:induction false} BudgetIsProduct(n: nat, accepted: nat)
    requires n > 0
    ensures Budget(n, accepted) == (n - 1) * accepted
  {
    if accepted > 0 {
      BudgetIsProduct(n, accepted - 1);
    }
  }

  /** own[k] counts the accepted conditional writes of client k, so Others counts everybody else's. */
  lemma {:induction false} OwnCounted(s: State, key: Key, run: seq<(nat, Act)>, t: State, k: nat)
    requires |key| < 0x1_0000 && Follows(s, key, run, t) && |s.own| == |s.clients| && k < |s.own|
    ensures |t.own| == |t.clients| == |s.clients|
    ensures t.own[k] == s.own[k] + Wins(s, key, run, k)
    decreases |run|
  {
    if run != [] {
      OwnCounted(Effect(s, key, run[0].0, run[0].1), key, run[1..], t, k);
    }
  }

  /** The accepted conditional writes of client k in a run. */
  ghost function Wins(s: State, key: Key, run: seq<(nat, Act)>, k: nat): nat
    requires |key| < 0x1_0000
    decreases |run|
  {
    if run == [] || !Enabled(s, run[0].0, run[0].1) then 0
    else
      var u := Effect(s, key, run[0].0, run[0].1);
      (if run[0].0 == k && u.accepted > s.accepted then 1 else 0) + Wins(u, key, run[1..], k)
  }

  /** A call gives up when it has made 1000 attempts, and goes on trying until then. */
  lemma GivesUpAt(s: State, key: Key, run: seq<(nat, Act)>, t: State, k: nat)
    requires |key| < 0x1_0000 && Init(s) && Follows(s, key, run, t)
    requires k < |t.clients| && t.clients[k].Trying?
    ensures Enabled(t, k, GiveUp) <==> t.clients[k].tries == 1000
    ensures Enabled(t, k, Cas(Delivered)) <==> t.clients[k].tries < 1000
  {
    InitInv(s);
    InvAlong(s, key, Counter(s), run, t);
  }

  /** From its start on, a call keeps the count it began with. */
  lemma {:induction false} SinceKept(s: State, key: Key, run: seq<(nat, Act)>, t: State, k: nat)
    requires |key| < 0x1_0000 && Follows(s, key, run, t)
    requires k < |s.clients| && !s.clients[k].Idle? && forall i :: 0 <= i < |run| ==> run[i] != (k, Call)
    ensures k < |t.clients| && !t.clients[k].Idle? && t.clients[k].since == s.clients[k].since
    decreases |run|
  {
    if run != [] {
      var u := Effect(s, key, run[0].0, run[0].1);
      assert run[0] != (k, Call);
      assert u.clients[k].Idle? || u.clients[k].since == s.clients[k].since;
      forall i | 0 <= i < |run[1..]| ensures run[1..][i] != (k, Call) {
        assert run[1..][i] == run[i + 1];
      }
      SinceKept(u, key, run[1..], t, k);
    }
  }

  /** A call that began in state a and gives up has seen at least 1000 increments of other clients
      accepted in between. */
  lemma GivesUpOnlyUnderLoad(s: State, key: Key, run0: seq<(nat, Act)>, a: State, run1: seq<(nat, Act)>,
                             t: State, k: nat)
    requires |key| < 0x1_0000 && Init(s) && Follows(s, key, run0, a) && Enabled(a, k, Call)
    requires Follows(Effect(a, key, k, Call), key, run1, t)
    requires forall i :: 0 <= i < |run1| ==> run1[i] != (k, Call)
    requires k < |t.clients| && t.clients[k].Back? && t.clients[k].outcome.TooManyRetries?
    ensures Others(t, k) - Others(a, k) >= 1000
    ensures k < |t.own| && Others(t, k) == t.accepted - t.own[k]
  {
    InitInv(s);
    InvAlong(s, key, Counter(s), run0, a);
    InvKept(a, key, Counter(s), k, Call);
    InvAlong(Effect(a, key, k, Call), key, Counter(s), run1, t);
    SinceKept(Effect(a, key, k, Call), key, run1, t, k);
  }
}

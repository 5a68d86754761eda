/** casIncr of netkv/main.go in its own form: the retry loop of one client against a server that
    other clients increment between its requests. */
module CasClient {
  import opened Bytes
  import opened DispatcherModel
  import opened HandlerSpec
  import opened CasLoop

  /** The value after n more increments by others. */
  function Bumped(entry: Option<Value>, n: nat): Option<Value> {
    if n == 0 then entry else Some(PutU64(ToU64(Wrap(ToI64(DecodeCounter(entry)) as int + n))))
  }

  lemma BumpedCounter(entry: Option<Value>, n: nat)
    ensures ToI64(DecodeCounter(Bumped(entry, n))) == Wrap(ToI64(DecodeCounter(entry)) as int + n)
  {
    CounterReadsBack(ToU64(Wrap(ToI64(DecodeCounter(entry)) as int + n)));
  }

  lemma ManyMore(entry: Option<Value>, n: nat, total: int)
    requires ToI64(DecodeCounter(entry)) == Wrap(total)
    ensures ToI64(DecodeCounter(Bumped(entry, n))) == Wrap(total + n)
  {
    BumpedCounter(entry, n);
    WrapOfWrap(total, n);
  }

  lemma OneMore(entry: Option<Value>, key: Key, cur: i64, total: int)
    requires |key| < 0x1_0000 && ToI64(DecodeCounter(entry)) == Wrap(total)
    ensures var d := Answer(entry, key, cur);
            && (Accepted(d.result) <==> cur == ToI64(DecodeCounter(entry)))
            && (d.Write? <==> cur == ToI64(DecodeCounter(entry)))
            && (d.Write? ==> ToI64(DecodeCounter(Some(d.value))) == Wrap(total + 1))
  {
    AnswerMeans(entry, key, cur);
    WrapOfWrap(total, 1);
  }

  /** One key as this client meets it. Just before its n-th request, others(n) increments of other
      clients have been accepted; loss(n) is the fate of that request. base is the counter at the
      start; own and foreign count the increments accepted since, of this client and of others. */
  class Server {
    const key: Key
    const others: nat -> nat
    const loss: nat -> Loss
    const base: i64
    var entry: Option<Value>
    var requests: nat
    ghost var foreign: nat
    ghost var own: nat

    constructor (key: Key, entry: Option<Value>, others: nat -> nat, loss: nat -> Loss)
      requires |key| < 0x1_0000
      ensures this.key == key && this.entry == entry && this.others == others && this.loss == loss
      ensures Valid() && requests == foreign == own == 0
    {
      this.key, this.entry, this.others, this.loss := key, entry, others, loss;
      base := ToI64(DecodeCounter(entry));
      requests, foreign, own := 0, 0, 0;
    }

    function Counter(): i64
      reads this
    {
      ToI64(DecodeCounter(entry))
    }

    /** Nobody's increment has been lost. */
    ghost predicate Valid()
      reads this
    {
      |key| < 0x1_0000 && Counter() == Wrap(base as int + own + foreign)
    }

    /** The others' increments before the next request. */
    method Interfere()
      requires Valid()
      modifies this
      ensures Valid()
      ensures requests == old(requests) + 1 && own == old(own)
      ensures foreign == old(foreign) + others(old(requests))
      ensures foreign == old(foreign) ==> entry == old(entry)
    {
      ManyMore(entry, others(requests), base as int + own + foreign);
      entry := Bumped(entry, others(requests));
      foreign := foreign + others(requests);
      requests := requests + 1;
    }

    /** getI64: a shorter or absent response reads as 0. */
    method GetI64() returns (cur: i64, failed: bool)
      requires Valid()
      modifies this
      ensures Valid() && own == old(own) && foreign >= old(foreign)
      ensures requests == old(requests) + 1 && (failed <==> !loss(old(requests)).Delivered?)
      ensures !failed ==> cur == Counter()
    {
      Interfere();
      if !loss(requests - 1).Delivered? {
        return 0, true;
      }
      var res := if entry.Some? then entry.value else [];
      if |res| < 8 {
        return 0, false;
      }
      return ToI64(GetU64(res[0..8])), false;
    }

    /** The server handles a casw request for cur+1. What it answers, the client may not hear. A
        rejection means the counter is no longer cur. */
    method Casw(cur: i64) returns (res: Result, failed: bool)
      requires Valid()
      modifies this
      ensures Valid() && foreign >= old(foreign)
      ensures requests == old(requests) + 1 && (failed <==> !loss(old(requests)).Delivered?)
      ensures own == old(own) || own == old(own) + 1
      ensures foreign == old(foreign) + others(old(requests))
      ensures !failed ==> (own == old(own) + 1 <==> Accepted(res))
      ensures !failed && own == old(own) ==> Counter() != cur && (cur == old(Counter()) ==> foreign > old(foreign))
    {
      Interfere();
      var fate := loss(requests - 1);
      if fate.RequestLost? {
        return Error, true;
      }
      var d := Answer(entry, key, cur);
      OneMore(entry, key, cur, base as int + own + foreign);
      if d.Write? {
        entry := Some(d.value);
        own := own + 1;
      }
      return d.result, fate.ReplyLost?;
    }
  }

  /** Requests from the lo-th up to the hi-th were all answered. */
  predicate Delivered(loss: nat -> Loss, lo: nat, hi: nat) {
    forall n :: lo <= n < hi ==> loss(n).Delivered?
  }

  /** One turn of the loop: a conditional write, and if it is rejected, another read. */
  method Attempt(srv: Server, cur: i64) returns (over: Option<Outcome>, next: i64)
    requires srv.Valid() && cur == srv.Counter()
    modifies srv
    ensures srv.Valid() && srv.requests > old(srv.requests)
    ensures match over
            case None =>
              && srv.requests == old(srv.requests) + 2
              && srv.own == old(srv.own) && srv.foreign > old(srv.foreign) && next == srv.Counter()
              && Delivered(srv.loss, old(srv.requests), srv.requests)
            case Some(outcome) =>
              && srv.foreign >= old(srv.foreign) && !outcome.TooManyRetries?
              && old(srv.own) <= srv.own <= old(srv.own) + 1
              && (outcome.Incremented? ==> srv.own == old(srv.own) + 1)
              && (outcome.TransportError? <==> !srv.loss(srv.requests - 1).Delivered?)
              && Delivered(srv.loss, old(srv.requests), srv.requests - 1)
    ensures srv.others(old(srv.requests)) == 0 && srv.loss(old(srv.requests)).Delivered? ==>
              over == Some(Incremented) && srv.requests == old(srv.requests) + 1
  {
    next := cur;
    var res, lost := srv.Casw(cur);
    if lost {
      return Some(TransportError), next;
    }
    if Accepted(res) {
      return Some(Incremented), next;
    }
    next, lost := srv.GetI64();
    over := if lost then Some(TransportError) else None;
  }

  /** One call increments the counter exactly once if it reports success, not at all if it gives
      up, and at most once if the transport failed; it gives up only after 1000 increments of
      others, and reports a transport error exactly if a request failed, which is then its last.
      Nobody's increment is lost. It makes 1000 attempts before it gives up, and left alone succeeds
      with the first. */
  method CasIncr(srv: Server) returns (outcome: Outcome)
    requires srv.Valid()
    modifies srv
    ensures srv.Valid() && srv.foreign >= old(srv.foreign) && srv.requests > old(srv.requests)
    ensures outcome.Incremented? ==> srv.own == old(srv.own) + 1
    ensures outcome.TooManyRetries? ==> srv.own == old(srv.own) && srv.foreign >= old(srv.foreign) + 1000
    ensures outcome.TooManyRetries? ==> srv.requests == old(srv.requests) + 1 + 2 * 1000
    ensures var n := old(srv.requests);
            srv.loss(n).Delivered? && srv.loss(n + 1).Delivered? && srv.others(n + 1) == 0 ==>
              outcome == Incremented && srv.requests == n + 2
    ensures outcome.TransportError? ==> old(srv.own) <= srv.own <= old(srv.own) + 1
    ensures outcome.TransportError? <==> !srv.loss(srv.requests - 1).Delivered?
    ensures Delivered(srv.loss, old(srv.requests), srv.requests - 1)
  {
    var cur, failed := srv.GetI64();
    if failed {
      return TransportError;
    }
    for i := 0 to 1000
      invariant srv.Valid() && srv.own == old(srv.own) && srv.foreign >= old(srv.foreign) + i
      invariant cur == srv.Counter()
      invariant srv.requests == old(srv.requests) + 1 + 2 * i
      invariant i > 0 ==> !(srv.others(old(srv.requests) + 1) == 0)
      invariant Delivered(srv.loss, old(srv.requests), srv.requests)
    {
      var over;
      over, cur := Attempt(srv, cur);
      if over.Some? {
        return over.value;
      }
    }
    return TooManyRetries;
  }
}

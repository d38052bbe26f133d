/**
 Runs in which the timer is never stopped, whatever its periods and callbacks, and whether or not its waits
 fail: what is let through is the first offer each time, and callbacks run in the order of their starts.
 */
module TimerOrder {
  import opened TimerProtocol

  predicate Unstopped<P>(es: seq<Event<P>>) {
    forall i :: 0 <= i < |es| ==> !es[i].Stop?
  }

  // Some start was offered after the latest handler cleared the flag.
  predicate OfferedSinceClear<P>(log: seq<Obs<P>>) {
    log != [] &&
    match log[|log| - 1]
    case Accepted(_, _, _, _) => true
    case Refused(_, _) => true
    case Delivered(_, _, _) => false
    case _ => OfferedSinceClear(log[..|log| - 1])
  }

  // Each offer is accepted if it is the first since a handler last cleared the flag, and else refused.
  ghost predicate PassesFirst<P>(log: seq<Obs<P>>) {
    forall i :: 0 <= i < |log| && (log[i].Accepted? || log[i].Refused?) ==>
      (log[i].Accepted? <==> !OfferedSinceClear(log[..i]))
  }

  ghost predicate OfferInv<P>(s: State<P>) {
    s.running == OfferedSinceClear(s.log) && PassesFirst(s.log)
  }

  // There is a wait exactly while the flag is set, and callbacks run in the order of acceptance.
  ghost predicate RisingInv<P>(s: State<P>) {
    && s.pending.Keys == (if s.running then {s.nextId - 1} else {})
    && (s.running ==> s.nextId > 0)
    && (forall i, j :: 0 <= i < j < |Calls(s)| ==> Calls(s)[i].id < Calls(s)[j].id)
    && (forall i :: 0 <= i < |Calls(s)| ==> Calls(s)[i].id < (if s.running then s.nextId - 1 else s.nextId))
    && (s.handler.Handling? ==>
          && s.handler.id < (if s.running then s.nextId - 1 else s.nextId)
          && forall i :: 0 <= i < |Calls(s)| ==> Calls(s)[i].id < s.handler.id)
  }

  lemma OfferAppend<P>(s: State<P>, t: State<P>, o: Obs<P>)
    requires OfferInv(s) && t.log == s.log + [o] && !o.Stopped?
    requires o.Accepted? ==> !s.running && t.running
    requires o.Refused? ==> s.running && t.running
    requires o.Delivered? ==> !t.running
    requires o.Called? || o.ErrorLogged? ==> t.running == s.running
    ensures OfferInv(t)
  {
    assert t.log[..|s.log|] == s.log;
    forall i | 0 <= i < |t.log| && (t.log[i].Accepted? || t.log[i].Refused?)
      ensures t.log[i].Accepted? <==> !OfferedSinceClear(t.log[..i])
    {
      if i < |s.log| {
        assert t.log[..i] == s.log[..i];
      }
    }
  }

  lemma RisingStart<P>(s: State<P>, seconds: int, payload: P, callback: Callback)
    requires RisingInv(s)
    ensures RisingInv(StartStep(s, seconds, payload, callback))
  {
    var t := StartStep(s, seconds, payload, callback);
    StartLog(s, seconds, payload, callback);
    assert Calls(t) == Calls(s);
    assert !s.running ==> t.pending.Keys == {s.nextId};
  }

  lemma OrderStart<P>(s: State<P>, seconds: int, payload: P, callback: Callback)
    requires OfferInv(s) && RisingInv(s)
    ensures OfferInv(StartStep(s, seconds, payload, callback)) && RisingInv(StartStep(s, seconds, payload, callback))
  {
    var t := StartStep(s, seconds, payload, callback);
    RisingStart(s, seconds, payload, callback);
    if s.running {
      OfferAppend(s, t, Refused(payload, s.clock));
    } else {
      OfferAppend(s, t, Accepted(s.nextId, payload, s.clock, s.clock + seconds));
    }
  }

  lemma OrderDeliver<P>(s: State<P>, id: nat)
    requires OfferInv(s) && RisingInv(s) && Enabled(s, Deliver(id))
    ensures OfferInv(DeliverStep(s, id)) && RisingInv(DeliverStep(s, id))
  {
    assert id in s.pending.Keys;
    DeliverLog(s, id);
    assert Calls(DeliverStep(s, id)) == Calls(s);
    OfferAppend(s, DeliverStep(s, id), Delivered(id, s.pending[id].status.code, s.clock));
  }

  lemma RisingReturn<P>(s: State<P>)
    requires RisingInv(s) && Enabled(s, Finish)
    ensures RisingInv(ReturnStep(s))
  {
    ReturnLog(s);
  }

  lemma OrderReturn<P>(s: State<P>)
    requires OfferInv(s) && RisingInv(s) && Enabled(s, Finish)
    ensures OfferInv(ReturnStep(s)) && RisingInv(ReturnStep(s))
  {
    RisingReturn(s);
    match s.handler.wait.status.code
    case Success => OfferAppend(s, ReturnStep(s), Called(s.handler.id, s.handler.wait.payload, s.clock));
    case OperationAborted =>
    case OtherError => OfferAppend(s, ReturnStep(s), ErrorLogged(s.handler.id, s.clock));
  }

  lemma OrderQuietly<P>(s: State<P>, t: State<P>)
    requires OfferInv(s) && RisingInv(s) && t.log == s.log && t.pending.Keys == s.pending.Keys
    requires t.running == s.running && t.nextId == s.nextId && t.handler == s.handler
    ensures OfferInv(t) && RisingInv(t)
  {
    assert Calls(t) == Calls(s);
  }

  lemma OrderStep<P>(s: State<P>, e: Event<P>)
    requires OfferInv(s) && RisingInv(s) && Enabled(s, e) && !e.Stop?
    ensures OfferInv(Step(s, e)) && RisingInv(Step(s, e))
  {
    match e
    case Start(seconds, payload, callback) => OrderStart(s, seconds, payload, callback);
    case Deliver(id) => OrderDeliver(s, id);
    case Finish =>
      OrderReturn(s);
      if Restarts(s) {
        OrderStart(ReturnStep(s), s.handler.wait.callback.seconds, s.handler.wait.payload, s.handler.wait.callback);
      }
    case Tick(_) => OrderQuietly(s, Step(s, e));
    case Expire(_) => OrderQuietly(s, Step(s, e));
    case Fail(_) => OrderQuietly(s, Step(s, e));
  }

  lemma {:induction false} OrderAfter<P>(s: State<P>, es: seq<Event<P>>)
    requires OfferInv(s) && RisingInv(s) && Possible(s, es) && Unstopped(es)
    ensures OfferInv(After(s, es)) && RisingInv(After(s, es))
    decreases |es|
  {
    if es == [] {
    } else {
      OrderStep(s, es[0]);
      OrderAfter(Step(s, es[0]), es[1..]);
    }
  }

  lemma OrderOfRun<P>(clock: int, es: seq<Event<P>>)
    requires Possible(Initial(clock), es) && Unstopped(es)
    ensures OfferInv(After(Initial(clock), es)) && RisingInv(After(Initial(clock), es))
  {
    OrderAfter(Initial(clock), es);
  }
}

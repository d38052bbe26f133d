/** What is logged as an error, and where aborts and failures come from. */
module TimerErrors {
  import opened TimerProtocol
  import opened TimerOrder

  function Errors<P>(s: State<P>): (r: seq<Obs<P>>)
    ensures forall i :: 0 <= i < |r| ==> r[i].ErrorLogged?
  {
    Pick(s.log, KErrorLogged)
  }

  // The errors logged are the failed deliveries, in order, less the one on the strand.
  ghost predicate ErrorsInv<P>(s: State<P>) {
    var mid := s.handler.Handling? && s.handler.wait.status == Settled(OtherError);
    && |Deliveries(s, OtherError)| == |Errors(s)| + (if mid then 1 else 0)
    && (mid ==> Deliveries(s, OtherError)[|Errors(s)|].id == s.handler.id)
    && (forall i :: 0 <= i < |Errors(s)| ==> Errors(s)[i].id == Deliveries(s, OtherError)[i].id)
  }

  lemma ErrorReturned<P>(s: State<P>)
    requires Enabled(s, Finish)
    ensures Errors(ReturnStep(s)) ==
            if s.handler.wait.status.code == OtherError then Errors(s) + [ErrorLogged(s.handler.id, s.clock)]
            else Errors(s)
  {
    match s.handler.wait.status.code
    case Success => PickAppend(s.log, Called(s.handler.id, s.handler.wait.payload, s.clock));
    case OperationAborted =>
    case OtherError => PickAppend(s.log, ErrorLogged(s.handler.id, s.clock));
  }

  lemma ErrorsDeliver<P>(s: State<P>, id: nat)
    requires ErrorsInv(s) && Enabled(s, Deliver(id))
    ensures ErrorsInv(DeliverStep(s, id))
  {
    DeliverLog(s, id);
    assert Errors(DeliverStep(s, id)) == Errors(s);
    if s.pending[id].status.code != OtherError {
      assert Deliveries(DeliverStep(s, id), OtherError) == Deliveries(s, OtherError);
    }
  }

  lemma ErrorsFinish<P>(s: State<P>)
    requires ErrorsInv(s) && Enabled(s, Finish)
    ensures ErrorsInv(Step(s, Finish))
  {
    ReturnLog(s);
    ErrorReturned(s);
    FinishLog(s);
    assert Deliveries(Step(s, Finish), OtherError) == Deliveries(s, OtherError);
    assert Errors(Step(s, Finish)) == Errors(ReturnStep(s));
  }

  lemma ErrorsQuietly<P>(s: State<P>, t: State<P>)
    requires ErrorsInv(s) && t.handler == s.handler && Errors(t) == Errors(s)
    requires Deliveries(t, OtherError) == Deliveries(s, OtherError)
    ensures ErrorsInv(t)
  {
  }

  lemma ErrorsStep<P>(s: State<P>, e: Event<P>)
    requires ErrorsInv(s) && Enabled(s, e)
    ensures ErrorsInv(Step(s, e))
  {
    match e
    case Start(seconds, payload, callback) =>
      StartLog(s, seconds, payload, callback);
      ErrorsQuietly(s, Step(s, e));
    case Stop =>
      if s.running {
        StopLog(s);
        ErrorsQuietly(s, Step(s, e));
      }
    case Deliver(id) => ErrorsDeliver(s, id);
    case Finish => ErrorsFinish(s);
    case _ => ErrorsQuietly(s, Step(s, e));
  }

  lemma {:induction false} ErrorsAfter<P>(s: State<P>, es: seq<Event<P>>)
    requires ErrorsInv(s) && Possible(s, es)
    ensures ErrorsInv(After(s, es))
    decreases |es|
  {
    if es == [] {
    } else {
      ErrorsStep(s, es[0]);
      ErrorsAfter(Step(s, es[0]), es[1..]);
    }
  }

  // In every run an error is logged for each delivery that failed, once its handler has ended, and for no other.
  lemma ErrorsAreLogged<P>(clock: int, es: seq<Event<P>>)
    requires Possible(Initial(clock), es)
    ensures var s := After(Initial(clock), es);
            && |Errors(s)| <= |Deliveries(s, OtherError)| <= |Errors(s)| + 1
            && (s.handler.NoHandler? ==> |Errors(s)| == |Deliveries(s, OtherError)|)
            && (forall i :: 0 <= i < |Errors(s)| ==> Errors(s)[i].id == Deliveries(s, OtherError)[i].id)
  {
    ErrorsAfter(Initial(clock), es);
  }

  // Where codes come from

  // No wait has the code, neither undelivered nor on the strand nor delivered.
  ghost predicate Without<P>(s: State<P>, code: Code) {
    && (forall id :: id in s.pending ==> s.pending[id].status != Settled(code))
    && (s.handler.Handling? ==> s.handler.wait.status != Settled(code))
    && Deliveries(s, code) == []
  }

  lemma WithoutStep<P>(s: State<P>, e: Event<P>, code: Code)
    requires Without(s, code) && Enabled(s, e)
    requires (code == OtherError && !e.Fail?) || (code == OperationAborted && !e.Stop? && RisingInv(s))
    ensures Without(Step(s, e), code)
  {
    match e
    case Start(seconds, payload, callback) => WithoutStart(s, seconds, payload, callback, code);
    case Stop =>
      if s.running {
        StopLog(s);
      }
    case Deliver(id) => DeliverLog(s, id);
    case Finish =>
      ReturnLog(s);
      if Restarts(s) {
        if code == OperationAborted {
          RisingReturn(s);
        }
        var wait := s.handler.wait;
        WithoutStart(ReturnStep(s), wait.callback.seconds, wait.payload, wait.callback, code);
      }
    case _ => assert Deliveries(Step(s, e), code) == Deliveries(s, code);
  }

  // A start aborts nothing where there is no wait on a clear flag.
  lemma WithoutStart<P>(s: State<P>, seconds: int, payload: P, callback: Callback, code: Code)
    requires Without(s, code) && (code == OtherError || (code == OperationAborted && RisingInv(s)))
    ensures Without(StartStep(s, seconds, payload, callback), code)
  {
    StartLog(s, seconds, payload, callback);
    assert code == OperationAborted && !s.running ==> s.pending.Keys == {};
  }

  lemma {:induction false} NoFailures<P>(s: State<P>, es: seq<Event<P>>)
    requires Without(s, OtherError) && Possible(s, es) && forall i :: 0 <= i < |es| ==> !es[i].Fail?
    ensures Without(After(s, es), OtherError)
    decreases |es|
  {
    if es == [] {
    } else {
      WithoutStep(s, es[0], OtherError);
      NoFailures(Step(s, es[0]), es[1..]);
    }
  }

  // Where no wait fails, no error is logged, whatever is stopped: an abort is none.
  lemma AbortsAreNotErrors<P>(clock: int, es: seq<Event<P>>)
    requires Possible(Initial(clock), es) && forall i :: 0 <= i < |es| ==> !es[i].Fail?
    ensures Errors(After(Initial(clock), es)) == []
  {
    NoFailures(Initial(clock), es);
    ErrorsAfter(Initial(clock), es);
  }

  lemma {:induction false} NoAborts<P>(s: State<P>, es: seq<Event<P>>)
    requires Without(s, OperationAborted) && OfferInv(s) && RisingInv(s) && Possible(s, es) && Unstopped(es)
    ensures Without(After(s, es), OperationAborted)
    decreases |es|
  {
    if es == [] {
    } else {
      WithoutStep(s, es[0], OperationAborted);
      OrderStep(s, es[0]);
      NoAborts(Step(s, es[0]), es[1..]);
    }
  }

  // Where nothing is stopped, no wait is aborted, whatever fails: a failure is no abort.
  lemma OnlyStopsAbort<P>(clock: int, es: seq<Event<P>>)
    requires Possible(Initial(clock), es) && Unstopped(es)
    ensures Without(After(Initial(clock), es), OperationAborted)
  {
    NoAborts(Initial(clock), es);
  }
}

/**
 Timers that are never stopped and whose waits never fail, all starts using one period and one
 callback. With a Quiet callback this is a parking-lot filter (debounce); with a Restart callback it
 is one of the two self-restarting timers.
 */
module TimerRhythm {
  import opened TimerProtocol

  predicate Regular(callback: Callback, period: int) {
    callback == Quiet || callback == Restart(period)
  }

  // What the surroundings of a timer may do: every start uses the one period and callback; whether stops
  // and failing waits may occur is a matter of the environment.
  predicate Admitted<P>(e: Event<P>, period: int, callback: Callback, stops: bool, failures: bool) {
    && (e.Start? ==> e.seconds == period && e.callback == callback)
    && (e.Stop? ==> stops)
    && (e.Fail? ==> failures)
  }

  predicate MetBy<P>(es: seq<Event<P>>, period: int, callback: Callback, stops: bool, failures: bool) {
    forall i :: 0 <= i < |es| ==> Admitted(es[i], period, callback, stops, failures)
  }

  // Neither stops nor failures.
  predicate Steady<P>(es: seq<Event<P>>, period: int, callback: Callback) {
    MetBy(es, period, callback, false, false)
  }

  ghost predicate QueueInv<P>(s: State<P>, callback: Callback) {
    && s.pending.Keys == (if s.running then {s.nextId - 1} else {})
    && (s.running ==> s.nextId > 0)
    && (forall id :: id in s.pending ==>
          s.pending[id].callback == callback
          && (s.pending[id].status.Live? || s.pending[id].status == Settled(Success)))
    && (s.handler.Handling? ==> s.handler.wait.callback == callback && s.handler.wait.status == Settled(Success))
  }

  // The i-th call is that of the i-th accepted start.
  ghost predicate InOrder<P>(calls: seq<Obs<P>>) {
    forall i :: 0 <= i < |calls| ==> calls[i].Called? && calls[i].id == i
  }

  ghost predicate OrderInv<P>(s: State<P>) {
    && |Calls(s)| + (if s.handler.Handling? then 1 else 0) + (if s.running then 1 else 0) == s.nextId
    && (s.handler.Handling? ==> s.handler.id == |Calls(s)|)
    && InOrder(Calls(s))
  }

  ghost predicate Spaced<P>(accepts: seq<Obs<P>>, period: int)
    requires forall i :: 0 <= i < |accepts| ==> accepts[i].Accepted?
  {
    && (forall i :: 0 <= i < |accepts| ==> accepts[i].deadline == accepts[i].at + period)
    && (forall i :: 0 <= i < |accepts| - 1 ==> accepts[i].at + period <= accepts[i + 1].at)
  }

  ghost predicate SpacingInv<P>(s: State<P>, period: int) {
    && Spaced(Accepts(s), period)
    && s.nextId == |Accepts(s)|
    && (!s.running && s.nextId > 0 ==> Accepts(s)[s.nextId - 1].at + period <= s.clock)
  }

  // Each start but the first comes no later than the call before it.
  ghost predicate Chained<P>(accepts: seq<Obs<P>>, calls: seq<Obs<P>>)
    requires forall i :: 0 <= i < |accepts| ==> accepts[i].Accepted?
    requires forall i :: 0 <= i < |calls| ==> calls[i].Called?
  {
    && (calls != [] ==> |calls| < |accepts|)
    && (forall n :: 0 <= n < |calls| ==> accepts[n + 1].at <= calls[n].at)
  }

  // A restarting timer is armed, or its handler is on the strand.
  ghost predicate ChainInv<P>(s: State<P>, callback: Callback) {
    callback.Restart? ==>
      && (s.nextId > 0 && s.handler.NoHandler? ==> s.running)
      && Chained(Accepts(s), Calls(s))
  }

  ghost predicate BeatInv<P>(s: State<P>, period: int, callback: Callback) {
    QueueInv(s, callback) && OrderInv(s) && SpacingInv(s, period)
  }

  ghost predicate RhythmInv<P>(s: State<P>, period: int, callback: Callback) {
    Inv(s) && BeatInv(s, period, callback) && ChainInv(s, callback)
  }

  lemma BeatStart<P>(s: State<P>, payload: P, period: int, callback: Callback)
    requires WaitsInv(s) && BeatInv(s, period, callback)
    ensures BeatInv(StartStep(s, period, payload, callback), period, callback)
  {
    var t := StartStep(s, period, payload, callback);
    StartLog(s, period, payload, callback);
    assert Calls(t) == Calls(s);
    if s.running {
      assert Accepts(t) == Accepts(s);
    } else {
      BeatAccept(s, payload, period, callback);
    }
  }

  lemma BeatAccept<P>(s: State<P>, payload: P, period: int, callback: Callback)
    requires WaitsInv(s) && BeatInv(s, period, callback) && !s.running
    ensures BeatInv(StartStep(s, period, payload, callback), period, callback)
  {
    var t := StartStep(s, period, payload, callback);
    var o := Accepted(s.nextId, payload, s.clock, s.clock + period);
    StartLog(s, period, payload, callback);
    assert t.pending.Keys == {s.nextId};
    SpacedAppend(Accepts(s), o, period);
  }

  lemma SpacedAppend<P>(accepts: seq<Obs<P>>, o: Obs<P>, period: int)
    requires forall i :: 0 <= i < |accepts| ==> accepts[i].Accepted?
    requires o.Accepted? && o.deadline == o.at + period && Spaced(accepts, period)
    requires accepts != [] ==> accepts[|accepts| - 1].at + period <= o.at
    ensures Spaced(accepts + [o], period)
  {
  }

  lemma ChainStart<P>(s: State<P>, payload: P, period: int, callback: Callback)
    requires ChainInv(s, callback)
    ensures ChainInv(StartStep(s, period, payload, callback), callback)
  {
    StartLog(s, period, payload, callback);
    assert Calls(StartStep(s, period, payload, callback)) == Calls(s);
  }

  lemma BeatDeliver<P>(s: State<P>, id: nat, period: int, callback: Callback)
    requires WaitsInv(s) && BeatInv(s, period, callback) && Enabled(s, Deliver(id))
    ensures BeatInv(Step(s, Deliver(id)), period, callback)
    ensures ChainInv(s, callback) ==> ChainInv(Step(s, Deliver(id)), callback)
  {
    var t := Step(s, Deliver(id));
    DeliverLog(s, id);
    assert Accepts(t) == Accepts(s) && Calls(t) == Calls(s);
    assert id in s.pending.Keys;
  }

  lemma BeatReturn<P>(s: State<P>, period: int, callback: Callback)
    requires BeatInv(s, period, callback) && Enabled(s, Finish)
    ensures BeatInv(ReturnStep(s), period, callback)
  {
    ReturnLog(s);
    assert Accepts(ReturnStep(s)) == Accepts(s);
  }

  lemma BeatFinish<P>(s: State<P>, period: int, callback: Callback)
    requires Inv(s) && BeatInv(s, period, callback) && Enabled(s, Finish) && Regular(callback, period)
    ensures BeatInv(Step(s, Finish), period, callback)
  {
    BeatReturn(s, period, callback);
    if Restarts(s) {
      InvReturn(s);
      BeatStart(ReturnStep(s), s.handler.wait.payload, period, callback);
    }
  }

  // The restart makes the next start no later than the call, unless an earlier start already did.
  lemma ChainFinish<P>(s: State<P>, period: int)
    requires WaitsInv(s) && BeatInv(s, period, Restart(period)) && ChainInv(s, Restart(period)) && Enabled(s, Finish)
    ensures ChainInv(Step(s, Finish), Restart(period))
  {
    var r := ReturnStep(s);
    var t := Step(s, Finish);
    var o := Called(s.handler.id, s.handler.wait.payload, s.clock);
    assert Restarts(s);
    ReturnLog(s);
    FinishLog(s);
    StartLog(r, period, s.handler.wait.payload, Restart(period));
    assert Calls(t) == Calls(s) + [o];
    assert Accepts(r) == Accepts(s);
    if s.running {
      assert Accepts(s)[|Calls(s)| + 1].at <= s.clock;
      ChainedAppend(Accepts(s), Calls(s), Accepts(s), o);
    } else {
      ChainedAppend(Accepts(s), Calls(s), Accepts(t), o);
    }
  }

  lemma ChainedAppend<P>(accepts: seq<Obs<P>>, calls: seq<Obs<P>>, accepts': seq<Obs<P>>, o: Obs<P>)
    requires (forall i :: 0 <= i < |accepts'| ==> accepts'[i].Accepted?)
             && (forall i :: 0 <= i < |calls| ==> calls[i].Called?)
    requires accepts <= accepts' && o.Called? && Chained(accepts, calls)
    requires |calls| + 1 < |accepts'| && accepts'[|calls| + 1].at <= o.at
    ensures Chained(accepts', calls + [o])
  {
  }

  lemma BeatQuietly<P>(s: State<P>, e: Event<P>, period: int, callback: Callback)
    requires BeatInv(s, period, callback) && Enabled(s, e) && (e.Tick? || e.Expire?)
    ensures BeatInv(Step(s, e), period, callback)
  {
    assert Step(s, e).pending.Keys == s.pending.Keys;
    assert Step(s, e).log == s.log;
  }

  lemma BeatStep<P>(s: State<P>, e: Event<P>, period: int, callback: Callback)
    requires Inv(s) && BeatInv(s, period, callback) && Enabled(s, e)
    requires Admitted(e, period, callback, false, false) && Regular(callback, period)
    ensures BeatInv(Step(s, e), period, callback)
  {
    match e
    case Start(_, payload, _) => BeatStart(s, payload, period, callback);
    case Deliver(id) => BeatDeliver(s, id, period, callback);
    case Finish => BeatFinish(s, period, callback);
    case Tick(_) => BeatQuietly(s, e, period, callback);
    case Expire(_) => BeatQuietly(s, e, period, callback);
  }

  lemma ChainStep<P>(s: State<P>, e: Event<P>, period: int, callback: Callback)
    requires RhythmInv(s, period, callback) && Enabled(s, e)
    requires Admitted(e, period, callback, false, false) && Regular(callback, period)
    ensures ChainInv(Step(s, e), callback)
  {
    match e
    case Start(_, payload, _) => ChainStart(s, payload, period, callback);
    case Deliver(id) => BeatDeliver(s, id, period, callback);
    case Finish =>
      if callback.Restart? {
        ChainFinish(s, period);
      }
    case Tick(_) =>
    case Expire(_) =>
  }

  lemma RhythmStep<P>(s: State<P>, e: Event<P>, period: int, callback: Callback)
    requires RhythmInv(s, period, callback) && Enabled(s, e)
    requires Admitted(e, period, callback, false, false) && Regular(callback, period)
    ensures RhythmInv(Step(s, e), period, callback)
  {
    InvStep(s, e);
    BeatStep(s, e, period, callback);
    ChainStep(s, e, period, callback);
  }

  lemma {:induction false} RhythmAfter<P>(s: State<P>, es: seq<Event<P>>, period: int, callback: Callback)
    requires RhythmInv(s, period, callback) && Possible(s, es)
    requires Steady(es, period, callback) && Regular(callback, period)
    ensures RhythmInv(After(s, es), period, callback)
    decreases |es|
  {
    if es == [] {
    } else {
      var t := Step(s, es[0]);
      assert RhythmInv(t, period, callback) by { RhythmStep(s, es[0], period, callback); }
      assert Steady(es[1..], period, callback);
      RhythmAfter(t, es[1..], period, callback);
    }
  }

  lemma RhythmInitial<P>(clock: int, period: int, callback: Callback)
    ensures RhythmInv(Initial<P>(clock), period, callback)
  {
    InvInitial<P>(clock);
  }

  // What holds of stops and failures as well

  // Every wait has the one callback, every deadline is one period away.
  ghost predicate Carries<P>(s: State<P>, period: int, callback: Callback) {
    && (forall id :: id in s.pending ==> s.pending[id].callback == callback)
    && (s.handler.Handling? ==> s.handler.wait.callback == callback)
    && (forall k :: 0 <= k < |s.log| && s.log[k].Accepted? ==> s.log[k].deadline == s.log[k].at + period)
  }

  lemma CarriesStep<P>(s: State<P>, e: Event<P>, period: int, callback: Callback)
    requires Carries(s, period, callback) && Enabled(s, e)
    requires Admitted(e, period, callback, true, true) && Regular(callback, period)
    ensures Carries(Step(s, e), period, callback)
  {
    match e
    case Finish => assert Carries(ReturnStep(s), period, callback);
    case _ =>
  }

  lemma {:induction false} CarriesAfter<P>(s: State<P>, es: seq<Event<P>>, period: int, callback: Callback)
    requires Carries(s, period, callback) && Possible(s, es)
    requires MetBy(es, period, callback, true, true) && Regular(callback, period)
    ensures Carries(After(s, es), period, callback)
    decreases |es|
  {
    if es == [] {
    } else {
      CarriesStep(s, es[0], period, callback);
      CarriesAfter(Step(s, es[0]), es[1..], period, callback);
    }
  }

  // Every wait has the one payload.
  ghost predicate Loaded<P>(s: State<P>, payload: P) {
    && (forall id :: id in s.pending ==> s.pending[id].payload == payload)
    && (s.handler.Handling? ==> s.handler.wait.payload == payload)
  }

  lemma LoadedStep<P>(s: State<P>, e: Event<P>, payload: P)
    requires Loaded(s, payload) && Enabled(s, e) && (e.Start? ==> e.payload == payload)
    ensures Loaded(Step(s, e), payload)
  {
    match e
    case Finish => assert Loaded(ReturnStep(s), payload);
    case _ =>
  }
}

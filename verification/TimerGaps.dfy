/** What lies between two accepted starts of one timer, on every run, stops and failures included. */
module TimerGaps {
  import opened TimerProtocol

  // The observations made where the flag is stored to.
  predicate StoresFlag<P>(o: Obs<P>) {
    o.Accepted? || o.Stopped? || o.Delivered?
  }

  // The latest store set the flag.
  predicate Set<P>(log: seq<Obs<P>>) {
    log != [] && if StoresFlag(log[|log| - 1]) then log[|log| - 1].Accepted? else Set(log[..|log| - 1])
  }

  // A start is accepted only where the latest store cleared the flag.
  ghost predicate FlagLogged<P>(s: State<P>) {
    && s.running == Set(s.log)
    && (forall k :: 0 <= k < |s.log| && s.log[k].Accepted? ==> !Set(s.log[..k]))
  }

  ghost predicate InTime<P>(log: seq<Obs<P>>) {
    forall j, k :: 0 <= j < k < |log| ==> log[j].at <= log[k].at
  }

  // Times in the log do not run backwards, and a success is delivered no earlier than its deadline.
  ghost predicate TimesLogged<P>(s: State<P>) {
    && (forall k :: 0 <= k < |s.log| && s.log[k].Accepted? ==>
          && s.log[k].id < s.nextId
          && (s.log[k].id in s.pending ==> s.pending[s.log[k].id].deadline == s.log[k].deadline))
    && (forall k :: 0 <= k < |s.log| && s.log[k].Delivered? ==> s.log[k].id < s.nextId)
    && (forall k :: 0 <= k < |s.log| ==> s.log[k].at <= s.clock)
    && InTime(s.log)
    && (forall j, k :: 0 <= j < |s.log| && 0 <= k < |s.log| && s.log[j].Accepted? && s.log[k].Delivered?
                       && s.log[j].id == s.log[k].id && s.log[k].code == Success ==>
                         s.log[j].deadline <= s.log[k].at)
  }

  // One observation more

  lemma FlagAppend<P>(s: State<P>, t: State<P>, o: Obs<P>)
    requires FlagLogged(s) && t.log == s.log + [o]
    requires t.running == if StoresFlag(o) then o.Accepted? else s.running
    requires o.Accepted? ==> !s.running
    ensures FlagLogged(t)
  {
    assert t.log[..|s.log|] == s.log;
    forall k | 0 <= k < |t.log| && t.log[k].Accepted?
      ensures !Set(t.log[..k])
    {
      if k < |s.log| {
        assert t.log[..k] == s.log[..k];
      }
    }
  }

  // Every wait of t is one of s, with the same deadline.
  ghost predicate SameWaits<P>(s: State<P>, t: State<P>) {
    forall id :: id in t.pending ==> id in s.pending && t.pending[id].deadline == s.pending[id].deadline
  }

  lemma TimesAccept<P>(s: State<P>, seconds: int, payload: P, callback: Callback)
    requires TimesLogged(s) && !s.running
    ensures TimesLogged(StartStep(s, seconds, payload, callback))
  {
  }

  lemma TimesDeliver<P>(s: State<P>, id: nat)
    requires WaitsInv(s) && TimesLogged(s) && Enabled(s, Deliver(id))
    ensures TimesLogged(DeliverStep(s, id))
  {
    assert Owns(s, id, s.pending[id]);
  }

  lemma InTimeAppend<P>(log: seq<Obs<P>>, o: Obs<P>)
    requires InTime(log) && forall k :: 0 <= k < |log| ==> log[k].at <= o.at
    ensures InTime(log + [o])
  {
  }

  lemma TimesAppend<P>(s: State<P>, t: State<P>, o: Obs<P>)
    requires TimesLogged(s) && t.log == s.log + [o] && !o.Accepted? && !o.Delivered? && o.at == s.clock
    requires SameWaits(s, t) && t.clock == s.clock && t.nextId == s.nextId
    ensures TimesLogged(t)
  {
    InTimeAppend(s.log, o);
    assert forall k :: 0 <= k < |t.log| && (t.log[k].Accepted? || t.log[k].Delivered?) ==>
                         k < |s.log| && t.log[k] == s.log[k];
  }

  lemma TimesQuiet<P>(s: State<P>, t: State<P>)
    requires TimesLogged(s) && t.log == s.log && SameWaits(s, t) && s.clock <= t.clock && t.nextId == s.nextId
    ensures TimesLogged(t)
  {
  }

  ghost predicate LogInv<P>(s: State<P>) {
    WaitsInv(s) && FlagLogged(s) && TimesLogged(s)
  }

  lemma LoggedStart<P>(s: State<P>, seconds: int, payload: P, callback: Callback)
    requires FlagLogged(s) && TimesLogged(s)
    ensures FlagLogged(StartStep(s, seconds, payload, callback))
            && TimesLogged(StartStep(s, seconds, payload, callback))
  {
    var t := StartStep(s, seconds, payload, callback);
    if s.running {
      FlagAppend(s, t, Refused(payload, s.clock));
      TimesAppend(s, t, Refused(payload, s.clock));
    } else {
      FlagAppend(s, t, Accepted(s.nextId, payload, s.clock, s.clock + seconds));
      TimesAccept(s, seconds, payload, callback);
    }
  }

  lemma LoggedReturn<P>(s: State<P>)
    requires FlagLogged(s) && TimesLogged(s) && Enabled(s, Finish)
    ensures FlagLogged(ReturnStep(s)) && TimesLogged(ReturnStep(s))
  {
    var t := ReturnStep(s);
    if s.handler.wait.status.code == OperationAborted {
      TimesQuiet(s, t);
    } else {
      var o := if s.handler.wait.status.code == Success then Called(s.handler.id, s.handler.wait.payload, s.clock)
               else ErrorLogged(s.handler.id, s.clock);
      FlagAppend(s, t, o);
      TimesAppend(s, t, o);
    }
  }

  lemma LoggedStep<P>(s: State<P>, e: Event<P>)
    requires LogInv(s) && Enabled(s, e)
    ensures FlagLogged(Step(s, e)) && TimesLogged(Step(s, e))
  {
    var t := Step(s, e);
    match e
    case Start(seconds, payload, callback) => LoggedStart(s, seconds, payload, callback);
    case Stop =>
      if s.running {
        FlagAppend(s, t, Stopped(s.nextId, s.clock));
        TimesAppend(s, t, Stopped(s.nextId, s.clock)) by { assert SameWaits(s, t); }
      }
    case Deliver(id) =>
      FlagAppend(s, t, Delivered(id, s.pending[id].status.code, s.clock));
      TimesDeliver(s, id);
    case Finish =>
      LoggedReturn(s);
      if Restarts(s) {
        LoggedStart(ReturnStep(s), s.handler.wait.callback.seconds, s.handler.wait.payload, s.handler.wait.callback);
      }
    case _ => TimesQuiet(s, t);
  }

  lemma {:induction false} LoggedAfter<P>(s: State<P>, es: seq<Event<P>>)
    requires Inv(s) && LogInv(s) && Possible(s, es)
    ensures LogInv(After(s, es))
    decreases |es|
  {
    if es == [] {
    } else {
      LoggedStep(s, es[0]);
      InvStep(s, es[0]);
      LoggedAfter(Step(s, es[0]), es[1..]);
    }
  }

  // After an acceptance the flag is cleared again only by a stop or a delivery.
  lemma {:induction false} Clearing<P>(log: seq<Obs<P>>, p: nat, q: nat) returns (k: nat)
    requires p < q <= |log| && log[p].Accepted? && !Set(log[..q])
    ensures p < k < q && (log[k].Stopped? || log[k].Delivered?)
    decreases q
  {
    assert log[..q][..q - 1] == log[..q - 1];
    if StoresFlag(log[q - 1]) {
      k := q - 1;
    } else {
      k := Clearing(log, p, q - 1);
    }
  }

  // Whatever else happens in the run: where nothing between two acceptances stopped the timer, and nothing
  // was delivered there but the success of the first, the second comes no earlier than the first's deadline.
  lemma GapReachesDeadline<P>(clock: int, es: seq<Event<P>>, p: nat, q: nat)
    requires Possible(Initial(clock), es)
    requires var log := After(Initial(clock), es).log;
             && p < q < |log| && log[p].Accepted? && log[q].Accepted?
             && forall k :: p < k < q ==>
                  !log[k].Stopped? && (log[k].Delivered? ==> log[k].id == log[p].id && log[k].code == Success)
    ensures var log := After(Initial(clock), es).log; log[p].deadline <= log[q].at
  {
    InvInitial<P>(clock);
    LoggedAfter(Initial(clock), es);
    var log := After(Initial(clock), es).log;
    var k := Clearing(log, p, q);
    assert log[k].Delivered?;
  }
}

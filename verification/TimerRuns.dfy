/** What holds on every run of one timer, whatever the interleaving. */
module TimerRuns {
  import opened TimerProtocol

  ghost predicate HasCalled<P>(s: State<P>, id: nat) {
    exists i :: 0 <= i < |Calls(s)| && Calls(s)[i].id == id
  }

  // At most one wait is live, and it is the newest. A set flag means the newest start is still
  // undelivered and was not aborted. Nothing is said of a clear flag: see FlagCanLie.
  lemma FlagIsOneSided<P>(clock: int, es: seq<Event<P>>)
    requires Possible(Initial(clock), es)
    ensures var s := After(Initial(clock), es);
            && (forall i, j :: i in s.pending && j in s.pending ==>
                  s.pending[i].status.Live? && s.pending[j].status.Live? ==> i == j)
            && (s.running ==> s.nextId > 0 && s.nextId - 1 in s.pending
                              && s.pending[s.nextId - 1].status != Settled(OperationAborted))
  {
    InvInitial<P>(clock);
    InvAfter(Initial(clock), es);
  }

  // Every accepted start is delivered with one of the three codes or still waiting, and the
  // callbacks that ran are the successes, less one that is on the strand.
  lemma Accounting<P>(clock: int, es: seq<Event<P>>)
    requires Possible(Initial(clock), es)
    ensures var s := After(Initial(clock), es);
            && |Accepts(s)| == |Deliveries(s, Success)| + |Deliveries(s, OperationAborted)|
                               + |Deliveries(s, OtherError)| + |s.pending|
            && |Deliveries(s, Success)| - 1 <= |Calls(s)| <= |Deliveries(s, Success)|
            && (s.handler.NoHandler? ==> |Calls(s)| == |Deliveries(s, Success)|)
  {
    InvInitial<P>(clock);
    InvAfter(Initial(clock), es);
  }

  // A callback runs at most once, with the payload its start was given, not before its deadline,
  // and never for a wait that was delivered as aborted or failed.
  lemma CallbackContract<P>(clock: int, es: seq<Event<P>>, i: nat)
    requires Possible(Initial(clock), es) && i < |Calls(After(Initial(clock), es))|
    ensures var s := After(Initial(clock), es);
            var c := Calls(s)[i];
            && c.id < |Accepts(s)|
            && c.payload == Accepts(s)[c.id].payload
            && Accepts(s)[c.id].deadline <= c.at
            && (forall j :: 0 <= j < |Calls(s)| && Calls(s)[j].id == c.id ==> j == i)
            && (forall code, j :: code != Success && 0 <= j < |Deliveries(s, code)| ==>
                  Deliveries(s, code)[j].id != c.id)
  {
    InvInitial<P>(clock);
    InvAfter(Initial(clock), es);
    var s := After(Initial(clock), es);
    assert Calls(s)[i].id == Deliveries(s, Success)[i].id;
    assert Apart(Deliveries(s, Success), Deliveries(s, Success), true);
    forall code, j | code != Success && 0 <= j < |Deliveries(s, code)|
      ensures Deliveries(s, code)[j].id != Calls(s)[i].id
    {
      assert Apart(Deliveries(s, Success), Deliveries(s, code), false);
    }
  }

  // Stopping

  ghost predicate CanCall<P(!new)>(s: State<P>, id: nat) {
    exists more :: Possible(s, more) && HasCalled(After(s, more), id)
  }

  // No continuation can run the callback of a wait that settled without success before it was called.
  ghost predicate Silenced<P>(s: State<P>, id: nat) {
    && id < s.nextId
    && !HasCalled(s, id)
    && (id in s.pending ==> s.pending[id].status.Settled? && s.pending[id].status.code != Success)
    && (s.handler.Handling? && s.handler.id == id ==> s.handler.wait.status != Settled(Success))
  }

  lemma StillSilenced<P>(s: State<P>, e: Event<P>, id: nat)
    requires Inv(s) && Enabled(s, e) && Silenced(s, id)
    ensures Silenced(Step(s, e), id)
  {
    CallsLogged(s, e);
    if e.Finish? {
      assert Restarts(s) && !s.running ==> Step(s, e).nextId == s.nextId + 1;
    } else {
      SilencedQuietly(s, e, id);
    }
  }

  lemma SilencedQuietly<P>(s: State<P>, e: Event<P>, id: nat)
    requires Inv(s) && Enabled(s, e) && Silenced(s, id) && !e.Finish? && Calls(Step(s, e)) == Calls(s)
    ensures Silenced(Step(s, e), id)
  {
  }

  lemma {:induction false} ForeverSilenced<P>(s: State<P>, es: seq<Event<P>>, id: nat)
    requires Inv(s) && Silenced(s, id) && Possible(s, es)
    ensures !HasCalled(After(s, es), id)
    decreases |es|
  {
    if es == [] {
    } else {
      StillSilenced(s, es[0], id);
      InvStep(s, es[0]);
      ForeverSilenced(Step(s, es[0]), es[1..], id);
    }
  }

  lemma CannotCall<P(!new)>(s: State<P>, id: nat)
    requires Inv(s) && Silenced(s, id)
    ensures !CanCall(s, id)
  {
    forall more | Possible(s, more)
      ensures !HasCalled(After(s, more), id)
    {
      ForeverSilenced(s, more, id);
    }
  }

  // The newest wait can run its callback after a stop if and only if it had expired before the stop.
  lemma StopSilencesUnlessExpired<P(!new)>(clock: int, es: seq<Event<P>>)
    requires Possible(Initial(clock), es) && After(Initial(clock), es).running
    ensures After(Initial(clock), es).nextId > 0
    ensures var s := After(Initial(clock), es);
            var id := s.nextId - 1;
            var t := StopStep(s);
            && id in s.pending
            && (forall j :: j in t.pending ==> !t.pending[j].status.Live?)
            && (CanCall(t, id) <==> s.pending[id].status == Settled(Success))
  {
    InvInitial<P>(clock);
    InvAfter(Initial(clock), es);
    StopThenCall(After(Initial(clock), es));
  }

  lemma StopThenCall<P(!new)>(s: State<P>)
    requires Inv(s) && s.running
    ensures CanCall(StopStep(s), s.nextId - 1) <==> s.pending[s.nextId - 1].status == Settled(Success)
  {
    var id: nat := s.nextId - 1;
    var t := StopStep(s);
    InvStop(s);
    if s.pending[id].status == Settled(Success) {
      var more := DeliverAndRun(t, id);
      assert Possible(t, more) && HasCalled(After(t, more), id);
    } else {
      NotCalledWhilePending(t, id);
      assert Silenced(t, id);
      CannotCall(t, id);
    }
  }

  lemma NotCalledWhilePending<P>(s: State<P>, id: nat)
    requires Inv(s) && id in s.pending
    ensures !HasCalled(s, id)
  {
    forall i | 0 <= i < |Calls(s)|
      ensures Calls(s)[i].id != id
    {
      assert Calls(s)[i].id == Deliveries(s, Success)[i].id;
    }
  }

  lemma DeliverAndRun<P>(s: State<P>, id: nat) returns (more: seq<Event<P>>)
    requires Inv(s) && id in s.pending && s.pending[id].status == Settled(Success)
    ensures Possible(s, more) && HasCalled(After(s, more), id)
  {
    if s.handler.Handling? {
      var t := Step(s, Finish);
      assert id in t.pending && t.pending[id].status == Settled(Success);
      var rest := DeliverAndRunIdle(t, id);
      more := [Finish] + rest;
      Prefixed(s, Finish, rest);
    } else {
      more := DeliverAndRunIdle(s, id);
    }
  }

  lemma DeliverAndRunIdle<P>(s: State<P>, id: nat) returns (more: seq<Event<P>>)
    requires s.handler.NoHandler? && id in s.pending && s.pending[id].status == Settled(Success)
    ensures Possible(s, more) && HasCalled(After(s, more), id)
  {
    var d := Step(s, Deliver(id));
    var f := Step(d, Finish);
    CallsLogged(d, Finish);
    assert Calls(f)[|Calls(d)|].id == id;
    RunOfTwo(s, Deliver(id), Finish);
    more := [Deliver(id), Finish];
  }

  // When the flag means what its name says

  // Some start accepted since the last effective stop is still undelivered.
  ghost predicate CurrentWait<P>(s: State<P>) {
    exists id :: id in s.pending && Mark(s) <= id
  }

  // A wait accepted before the last effective stop is still undelivered.
  ghost predicate Stale<P>(s: State<P>) {
    exists id :: id in s.pending && id < Mark(s)
  }

  ghost predicate Starts<P>(s: State<P>, e: Event<P>) {
    e.Start? || (e.Finish? && Restarts(s))
  }

  // The discipline: no start is accepted while a wait from before the last stop is undelivered.
  ghost predicate Disciplined<P>(s: State<P>, es: seq<Event<P>>)
    ensures Disciplined(s, es) ==> Possible(s, es)
    decreases |es|
  {
    es == [] || (&& Enabled(s, es[0])
                 && (Starts(s, es[0]) && !s.running ==> !Stale(s))
                 && Disciplined(Step(s, es[0]), es[1..]))
  }

  ghost predicate FlagInv<P>(s: State<P>) {
    && Mark(s) <= s.nextId
    && (s.running ==> Mark(s) < s.nextId && s.pending.Keys == {s.nextId - 1})
    && (!s.running ==> forall id :: id in s.pending.Keys ==> id < Mark(s))
  }

  ghost predicate DisciplineInv<P>(s: State<P>) {
    Inv(s) && FlagInv(s)
  }

  lemma KeysAfter<P>(s: State<P>, e: Event<P>)
    requires Enabled(s, e)
    ensures Step(s, e).pending.Keys ==
            if Starts(s, e) && !s.running then s.pending.Keys + {s.nextId}
            else if e.Deliver? then s.pending.Keys - {e.id}
            else s.pending.Keys
  {
  }

  lemma FlagStep<P>(s: State<P>, e: Event<P>)
    requires FlagInv(s) && Enabled(s, e) && (Starts(s, e) && !s.running ==> !Stale(s))
    ensures FlagInv(Step(s, e))
  {
    MarkLogged(s, e);
    KeysAfter(s, e);
    if Starts(s, e) && !s.running {
      assert s.pending.Keys == {};
    }
  }

  lemma DisciplineStep<P>(s: State<P>, e: Event<P>)
    requires DisciplineInv(s) && Enabled(s, e) && (Starts(s, e) && !s.running ==> !Stale(s))
    ensures DisciplineInv(Step(s, e))
  {
    InvStep(s, e);
    FlagStep(s, e);
  }

  lemma {:induction false} DisciplineAfter<P>(s: State<P>, es: seq<Event<P>>)
    requires DisciplineInv(s) && Disciplined(s, es)
    ensures DisciplineInv(After(s, es))
    decreases |es|
  {
    if es == [] {
    } else {
      DisciplineStep(s, es[0]);
      DisciplineAfter(Step(s, es[0]), es[1..]);
    }
  }

  // On disciplined runs the flag is set exactly while a start since the last stop is undelivered.
  lemma FlagIsExact<P>(clock: int, es: seq<Event<P>>)
    requires Disciplined(Initial(clock), es)
    ensures var s := After(Initial(clock), es); s.running <==> CurrentWait(s)
  {
    InvInitial<P>(clock);
    DisciplineAfter(Initial(clock), es);
    var s := After(Initial(clock), es);
    if s.running {
      assert s.nextId - 1 in s.pending.Keys;
    }
  }

  // Without the discipline the flag can be clear while the timer is armed.
  lemma FlagCanLie(payload: int, seconds: int)
    ensures var es := [Start(seconds, payload, Quiet), Stop, Start(seconds, payload, Quiet), Deliver(0)];
            && Possible(Initial(0), es)
            && !After(Initial(0), es).running
            && CurrentWait(After(Initial(0), es))
  {
    var start := Start(seconds, payload, Quiet);
    var s0 := Initial<int>(0);
    var s1 := Step(s0, start);
    var s2 := Step(s1, Stop);
    var s3 := Step(s2, start);
    var s4 := Step(s3, Deliver(0));
    RunOfFour(s0, start, Stop, start, Deliver(0));
    MarkLogged(s0, start);
    MarkLogged(s1, Stop);
    MarkLogged(s2, start);
    MarkLogged(s3, Deliver(0));
    assert Mark(s4) == 1 && 1 in s4.pending;
  }

  // The discipline is exactly what is needed: after a start made on a clear flag, the flag stays
  // exact in every disciplined continuation if and only if no stale wait was left at that start.
  lemma DisciplineIsExact<P>(clock: int, es: seq<Event<P>>, seconds: int, payload: P, callback: Callback)
    requires Disciplined(Initial(clock), es) && !After(Initial(clock), es).running
    ensures var s := After(Initial(clock), es);
            var t := StartStep(s, seconds, payload, callback);
            (forall more :: Disciplined(t, more) ==> (After(t, more).running <==> CurrentWait(After(t, more))))
            <==> !Stale(s)
  {
    InvInitial<P>(clock);
    DisciplineAfter(Initial(clock), es);
    var s := After(Initial(clock), es);
    var t := StartStep(s, seconds, payload, callback);
    if Stale(s) {
      var more := StaleDelivery(s, seconds, payload, callback);
      assert Disciplined(t, more);
    } else {
      DisciplineStep(s, Start(seconds, payload, callback));
      forall more | Disciplined(t, more)
        ensures After(t, more).running <==> CurrentWait(After(t, more))
      {
        DisciplineAfter(t, more);
        var u := After(t, more);
        if u.running {
          assert u.nextId - 1 in u.pending.Keys;
        }
      }
    }
  }

  lemma StaleDelivery<P>(s: State<P>, seconds: int, payload: P, callback: Callback) returns (more: seq<Event<P>>)
    requires DisciplineInv(s) && !s.running && Stale(s)
    ensures var t := StartStep(s, seconds, payload, callback);
            Disciplined(t, more) && !After(t, more).running && CurrentWait(After(t, more))
  {
    var start := Start(seconds, payload, callback);
    var t := Step(s, start);
    var id :| id in s.pending && id < Mark(s);
    InvStart(s, seconds, payload, callback);
    MarkLogged(s, start);
    assert s.nextId in t.pending && id in t.pending && t.pending[id].status.Settled?;
    more := FinishThenDeliver(t, id, s.nextId);
  }

  lemma FinishThenDeliver<P>(s: State<P>, stale: nat, current: nat) returns (more: seq<Event<P>>)
    requires s.running && (s.handler.Handling? ==> s.handler.wait.status.Settled?)
    requires stale in s.pending && s.pending[stale].status.Settled?
    requires stale != current && current in s.pending && Mark(s) <= current
    ensures Disciplined(s, more) && !After(s, more).running && CurrentWait(After(s, more))
  {
    if s.handler.Handling? {
      MarkLogged(s, Finish);
      var rest := LastDelivery(Step(s, Finish), stale, current);
      more := [Finish] + rest;
      assert more[1..] == rest;
    } else {
      more := LastDelivery(s, stale, current);
    }
  }

  lemma LastDelivery<P>(s: State<P>, stale: nat, current: nat) returns (more: seq<Event<P>>)
    requires s.handler.NoHandler? && stale in s.pending && s.pending[stale].status.Settled?
    requires stale != current && current in s.pending && Mark(s) <= current
    ensures Disciplined(s, more) && !After(s, more).running && CurrentWait(After(s, more))
  {
    more := [Deliver(stale)];
    var t := Step(s, Deliver(stale));
    MarkLogged(s, Deliver(stale));
    assert more[1..] == [];
    assert After(s, more) == After(t, []) == t;
    assert current in t.pending;
  }
}

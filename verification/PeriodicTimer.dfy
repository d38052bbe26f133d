/** The device-status and heartbeat timers: the timeout handler starts its own timer again. */
module PeriodicTimer {
  import opened TimerProtocol
  import opened TimerRhythm
  import opened TimerRate

  // Error-free runs in which every start, from outside or from the handler, uses the one period.
  predicate PeriodicRun<P>(clock: int, es: seq<Event<P>>, period: int) {
    Possible(Initial(clock), es) && Steady(es, period, Restart(period))
  }

  lemma PeriodicState<P>(clock: int, es: seq<Event<P>>, period: int)
    requires PeriodicRun(clock, es, period)
    ensures RhythmInv(After(Initial(clock), es), period, Restart(period))
  {
    RhythmInitial<P>(clock, period, Restart(period));
    RhythmAfter(Initial(clock), es, period, Restart(period));
  }

  // Once started, the timer has exactly one undelivered wait or a handler in mid-execution, and never
  // two undelivered waits; with no handler on the strand the flag is set.
  lemma ChainNeverDies<P>(clock: int, es: seq<Event<P>>, period: int)
    requires PeriodicRun(clock, es, period) && Accepts(After(Initial(clock), es)) != []
    ensures var s := After(Initial(clock), es);
            && |s.pending| <= 1
            && (|s.pending| == 1 <==> s.running)
            && (s.handler.NoHandler? ==> |s.pending| == 1)
  {
    PeriodicState(clock, es, period);
    var s := After(Initial(clock), es);
    assert |s.pending| == |s.pending.Keys|;
  }

  // The failed wait of a chain, as it is delivered and finished: no other wait, and nothing left to restart.
  ghost predicate Ending<P>(s: State<P>, id: nat) {
    && (s.running <==> id in s.pending)
    && (forall j :: j in s.pending ==> j == id && s.pending[j].status == Settled(OtherError))
    && (s.handler.Handling? && !s.running ==> s.handler.wait.status == Settled(OtherError))
  }

  // What goes on in and below the timer, without a call from outside.
  predicate Internal<P>(e: Event<P>) {
    !e.Start? && !e.Stop?
  }

  lemma StillEnding<P>(s: State<P>, e: Event<P>, id: nat)
    requires Ending(s, id) && Enabled(s, e) && Internal(e)
    ensures Ending(Step(s, e), id) && Accepts(Step(s, e)) == Accepts(s)
  {
    match e
    case Deliver(_) => PickAppend(s.log, Delivered(id, OtherError, s.clock));
    case Finish =>
      ReturnLog(s);
      if Restarts(s) {
        StartLog(ReturnStep(s), s.handler.wait.callback.seconds, s.handler.wait.payload, s.handler.wait.callback);
      }
    case _ =>
  }

  lemma {:induction false} EndingAfter<P>(s: State<P>, es: seq<Event<P>>, id: nat)
    requires Ending(s, id) && Possible(s, es) && forall i :: 0 <= i < |es| ==> Internal(es[i])
    ensures Ending(After(s, es), id) && Accepts(After(s, es)) == Accepts(s)
    decreases |es|
  {
    if es == [] {
    } else {
      StillEnding(s, es[0], id);
      EndingAfter(Step(s, es[0]), es[1..], id);
    }
  }

  // When the wait of any periodic run fails, nothing is accepted any more until a start from outside,
  // whatever goes on meanwhile; once the failure is delivered the flag is clear and no wait is left.
  lemma FailureEndsChain<P>(clock: int, es: seq<Event<P>>, period: int, id: nat, more: seq<Event<P>>)
    requires PeriodicRun(clock, es, period) && Enabled(After(Initial(clock), es), Fail(id))
    requires Possible(Step(After(Initial(clock), es), Fail(id)), more)
    requires forall i :: 0 <= i < |more| ==> Internal(more[i])
    ensures var s := After(Initial(clock), es);
            var t := After(Step(s, Fail(id)), more);
            && Accepts(t) == Accepts(s)
            && (id !in t.pending ==> !t.running && t.pending == map[])
  {
    PeriodicState(clock, es, period);
    var s := After(Initial(clock), es);
    FailureIsEnding(s, period, id);
    EndingAfter(Step(s, Fail(id)), more, id);
  }

  lemma FailureIsEnding<P>(s: State<P>, period: int, id: nat)
    requires QueueInv(s, Restart(period)) && Enabled(s, Fail(id))
    ensures Ending(Step(s, Fail(id)), id) && Accepts(Step(s, Fail(id))) == Accepts(s)
  {
    assert id in s.pending.Keys;
  }

  // The shortest such run.
  lemma FailedRun(period: int)
    ensures var es := [Start(period, 0, Restart(period)), Fail(0), Deliver(0), Finish];
            && Possible(Initial<int>(0), es)
            && var s := After(Initial<int>(0), es);
            |Accepts(s)| == 1 && s.pending == map[] && s.handler.NoHandler?
  {
    var start := Start(period, 0, Restart(period));
    var s1 := Step(Initial(0), start);
    var s2 := Step(s1, Fail(0));
    var s3 := Step(s2, Deliver(0));
    RunOfFour(Initial(0), start, Fail(0), Deliver(0), Finish);
    StartLog(Initial(0), period, 0, Restart(period));
    PickAppend(s2.log, Delivered(0, OtherError, 0));
    ReturnLog(s3);
  }

  // Whether a chain once started goes on in every run, given what may happen to its waits.
  ghost predicate StaysAlive(period: int, failures: bool) {
    forall clock: int, es: seq<Event<int>> | Possible(Initial(clock), es)
                                             && MetBy(es, period, Restart(period), false, failures) ::
      var s := After(Initial(clock), es);
      Accepts(s) != [] && s.handler.NoHandler? ==> |s.pending| == 1
  }

  // A started chain goes on in every run exactly when none of its waits can fail.
  lemma ChainSurvivalIsExact(period: int, failures: bool)
    ensures StaysAlive(period, failures) <==> !failures
  {
    if failures {
      FailedRun(period);
      var es := [Start(period, 0, Restart(period)), Fail(0), Deliver(0), Finish];
      assert Possible(Initial<int>(0), es) && MetBy(es, period, Restart(period), false, failures);
    } else {
      forall clock: int, es: seq<Event<int>> | Possible(Initial(clock), es)
                                               && MetBy(es, period, Restart(period), false, failures)
        ensures var s := After(Initial(clock), es); Accepts(s) != [] && s.handler.NoHandler? ==> |s.pending| == 1
      {
        assert Steady(es, period, Restart(period));
        if Accepts(After(Initial(clock), es)) != [] {
          ChainNeverDies(clock, es, period);
        }
      }
    }
  }

  // From any state of a started timer the environment can bring about the next timeout.
  lemma NextTimeoutPossible<P>(clock: int, es: seq<Event<P>>, period: int) returns (more: seq<Event<P>>)
    requires PeriodicRun(clock, es, period) && Accepts(After(Initial(clock), es)) != []
    ensures Possible(After(Initial(clock), es), more) && Steady(more, period, Restart(period))
    ensures |Calls(After(After(Initial(clock), es), more))| == |Calls(After(Initial(clock), es))| + 1
  {
    PeriodicState(clock, es, period);
    var s := After(Initial(clock), es);
    if s.handler.Handling? {
      more := FinishFrom(s, period);
    } else {
      assert s.nextId - 1 in s.pending.Keys;
      if s.pending[s.nextId - 1].status.Live? {
        more := WaitFrom(s, s.nextId - 1, period);
      } else {
        more := DeliverFrom(s, s.nextId - 1, period);
      }
    }
  }

  lemma FinishFrom<P>(s: State<P>, period: int) returns (more: seq<Event<P>>)
    requires s.handler.Handling? && s.handler.wait.status == Settled(Success)
    ensures Possible(s, more) && Steady(more, period, Restart(period)) && |Calls(After(s, more))| == |Calls(s)| + 1
  {
    CallsLogged(s, Finish);
    Prefixed(s, Finish, []);
    more := [Finish] + [];
  }

  lemma DeliverFrom<P>(s: State<P>, id: nat, period: int) returns (more: seq<Event<P>>)
    requires s.handler.NoHandler? && id in s.pending && s.pending[id].status == Settled(Success)
    ensures Possible(s, more) && Steady(more, period, Restart(period)) && |Calls(After(s, more))| == |Calls(s)| + 1
  {
    CallsLogged(s, Deliver(id));
    var rest := FinishFrom(Step(s, Deliver(id)), period);
    Prefixed(s, Deliver(id), rest);
    more := [Deliver(id)] + rest;
  }

  lemma WaitFrom<P>(s: State<P>, id: nat, period: int) returns (more: seq<Event<P>>)
    requires s.handler.NoHandler? && id in s.pending && s.pending[id].status.Live?
    ensures Possible(s, more) && Steady(more, period, Restart(period)) && |Calls(After(s, more))| == |Calls(s)| + 1
  {
    var tick: Event<P> := Tick(if s.clock <= s.pending[id].deadline then s.pending[id].deadline else s.clock);
    var t := Step(s, tick);
    var rest := DeliverFrom(Step(t, Expire(id)), id, period);
    Prefixed(t, Expire(id), rest);
    Prefixed(s, tick, [Expire(id)] + rest);
    more := [tick] + ([Expire(id)] + rest);
  }

  // A call belongs to the start of the same number, and comes no earlier than that start's deadline.
  lemma CallOfStart<P>(s: State<P>, period: int, n: nat)
    requires RhythmInv(s, period, Restart(period)) && n < |Calls(s)|
    ensures n < |Accepts(s)| && Calls(s)[n].id == n
    ensures Accepts(s)[n].deadline == Accepts(s)[n].at + period && Accepts(s)[n].deadline <= Calls(s)[n].at
  {
    assert Calls(s)[n].id == n;
  }

  // The n-th timeout comes no earlier than n + 1 periods after the first start, in every run with the one
  // period: whatever is stopped, fails or is delivered out of order.
  lemma DriftBelow<P>(clock: int, es: seq<Event<P>>, period: int, n: nat)
    requires Possible(Initial(clock), es) && MetBy(es, period, Restart(period), true, true)
    requires n < |Calls(After(Initial(clock), es))|
    ensures var s := After(Initial(clock), es);
            Accepts(s) != [] && Accepts(s)[0].at + (n + 1) * period <= Calls(s)[n].at
  {
    CallsTakeTime(clock, es, period, Restart(period), n);
  }

  // Every call so far came at most lag after its deadline.
  ghost predicate Prompt<P>(s: State<P>, lag: int) {
    forall n :: 0 <= n < |Calls(s)| ==>
      Calls(s)[n].id < |Accepts(s)| && Calls(s)[n].at <= Accepts(s)[Calls(s)[n].id].deadline + lag
  }

  lemma {:induction false} StartsKeepUp<P>(s: State<P>, period: int, lag: int, n: nat)
    requires RhythmInv(s, period, Restart(period)) && Prompt(s, lag)
    requires n < |Accepts(s)| && n <= |Calls(s)|
    ensures Accepts(s)[n].at <= Accepts(s)[0].at + n * (period + lag)
  {
    if n == 0 {
    } else {
      StartsKeepUp(s, period, lag, n - 1);
      assert Calls(s)[n - 1].id == n - 1;
      assert Accepts(s)[(n - 1) + 1].at <= Calls(s)[n - 1].at;
      OnceMore(n - 1, period + lag);
    }
  }

  // When every call is at most lag late, the n-th timeout comes no later than n + 1 lengthened periods.
  lemma DriftAbove<P>(clock: int, es: seq<Event<P>>, period: int, lag: int, n: nat)
    requires PeriodicRun(clock, es, period) && n < |Calls(After(Initial(clock), es))|
    requires Prompt(After(Initial(clock), es), lag)
    ensures var s := After(Initial(clock), es);
            Accepts(s) != [] && Calls(s)[n].at <= Accepts(s)[0].at + (n + 1) * (period + lag)
  {
    PeriodicState(clock, es, period);
    var s := After(Initial(clock), es);
    CallOfStart(s, period, n);
    StartsKeepUp(s, period, lag, n);
    OnceMore(n, period + lag);
  }
}

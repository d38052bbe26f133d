/** The parking-lot filter: what a debounced timer lets through. */
module FilterTimer {
  import opened TimerProtocol
  import opened TimerOrder
  import opened TimerRhythm
  import opened TimerRate
  import TimerGaps

  predicate FilterRun<P>(clock: int, es: seq<Event<P>>, period: int) {
    Possible(Initial(clock), es) && Steady(es, period, Quiet)
  }

  lemma FilterState<P>(clock: int, es: seq<Event<P>>, period: int)
    requires FilterRun(clock, es, period)
    ensures RhythmInv(After(Initial(clock), es), period, Quiet)
  {
    RhythmInitial<P>(clock, period, Quiet);
    RhythmAfter(Initial(clock), es, period, Quiet);
  }

  // An offer is let through if and only if it is the first since a handler last cleared the flag, as long as the
  // timer is not stopped; failed waits, other periods and other callbacks do not matter.
  lemma FirstOffersPass<P>(clock: int, es: seq<Event<P>>)
    requires Possible(Initial(clock), es) && Unstopped(es)
    ensures PassesFirst(After(Initial(clock), es).log)
  {
    OrderOfRun(clock, es);
  }

  // Snapshots that are n acceptances apart are at least n periods apart.
  lemma SnapshotsAreSpaced<P>(clock: int, es: seq<Event<P>>, period: int, i: nat, j: nat)
    requires FilterRun(clock, es, period) && i <= j < |Accepts(After(Initial(clock), es))|
    ensures var accepts := Accepts(After(Initial(clock), es));
            (j - i) * period <= accepts[j].at - accepts[i].at
  {
    FilterState(clock, es, period);
    SpacedApart(Accepts(After(Initial(clock), es)), period, i, j);
  }

  // The same locally, in runs with stops and failures anywhere else: two acceptances are at least a period
  // apart when no stop took effect between them and only the success of the first was delivered there.
  lemma SpacedWhereUndisturbed<P>(clock: int, es: seq<Event<P>>, period: int, p: nat, q: nat)
    requires Possible(Initial(clock), es) && MetBy(es, period, Quiet, true, true)
    requires var log := After(Initial(clock), es).log;
             && p < q < |log| && log[p].Accepted? && log[q].Accepted?
             && forall k :: p < k < q ==>
                  !log[k].Stopped? && (log[k].Delivered? ==> log[k].id == log[p].id && log[k].code == Success)
    ensures var log := After(Initial(clock), es).log; log[p].at + period <= log[q].at
  {
    TimerGaps.GapReachesDeadline(clock, es, p, q);
    CarriesAfter(Initial(clock), es, period, Quiet);
  }

  // At most one snapshot more than the number of whole periods passes in any span of time.
  lemma RateIsBounded<P>(clock: int, es: seq<Event<P>>, period: int, from: int, to: int)
    requires FilterRun(clock, es, period) && period > 0 && from <= to
    ensures CountWithin(Accepts(After(Initial(clock), es)), from, to) <= (to - from) / period + 1
  {
    FilterState(clock, es, period);
    CountIsBounded(Accepts(After(Initial(clock), es)), period, from, to);
  }

  // What is delivered

  function Payloads<P>(obs: seq<Obs<P>>): (r: seq<P>)
    requires forall i :: 0 <= i < |obs| ==> obs[i].Accepted? || obs[i].Refused? || obs[i].Called?
    ensures |r| == |obs|
    ensures forall i :: 0 <= i < |obs| ==> r[i] == obs[i].payload
  {
    seq(|obs|, i requires 0 <= i < |obs| => obs[i].payload)
  }

  // The payloads of all starts, accepted or not, in the order in which they were made.
  function Offered<P>(log: seq<Obs<P>>): seq<P> {
    if log == [] then []
    else
      var o := log[|log| - 1];
      Offered(log[..|log| - 1]) + (if o.Accepted? || o.Refused? then [o.payload] else [])
  }

  lemma OfferedAppend<P>(log: seq<Obs<P>>, o: Obs<P>)
    ensures Offered(log + [o]) == Offered(log) + (if o.Accepted? || o.Refused? then [o.payload] else [])
  {
    assert (log + [o])[..|log|] == log;
  }

  ghost predicate Subsequence<P>(xs: seq<P>, ys: seq<P>)
    decreases |ys|
  {
    xs == []
    || (ys != [] && (|| (xs[|xs| - 1] == ys[|ys| - 1] && Subsequence(xs[..|xs| - 1], ys[..|ys| - 1]))
                     || Subsequence(xs, ys[..|ys| - 1])))
  }

  // Elements at rising places make a subsequence.
  lemma {:induction false} RisingIsSubsequence<P>(xs: seq<P>, ys: seq<P>, places: seq<nat>)
    requires |places| == |xs| && forall i :: 0 <= i < |xs| ==> places[i] < |ys| && xs[i] == ys[places[i]]
    requires forall i, j :: 0 <= i < j < |places| ==> places[i] < places[j]
    ensures Subsequence(xs, ys)
    decreases |ys|
  {
    if xs == [] {
    } else {
      var m, n := |xs| - 1, |ys| - 1;
      if places[m] == n {
        RisingIsSubsequence(xs[..m], ys[..n], places[..m]);
      } else {
        RisingIsSubsequence(xs, ys[..n], places);
      }
    }
  }

  lemma {:induction false} SubsequenceOf<P>(xs: seq<P>, ys: seq<P>, zs: seq<P>)
    requires Subsequence(xs, ys) && Subsequence(ys, zs)
    ensures Subsequence(xs, zs)
    decreases |zs|
  {
    if xs == [] {
    } else {
      var zs' := zs[..|zs| - 1];
      if Subsequence(ys, zs') {
        SubsequenceOf(xs, ys, zs');
      } else {
        var ys' := ys[..|ys| - 1];
        if Subsequence(xs, ys') {
          SubsequenceOf(xs, ys', zs');
        } else {
          SubsequenceOf(xs[..|xs| - 1], ys', zs');
        }
      }
    }
  }

  lemma {:induction false} AcceptedAmongOffered<P>(log: seq<Obs<P>>)
    ensures Subsequence(Payloads(Pick(log, KAccepted)), Offered(log))
  {
    if log == [] {
    } else {
      var rest := log[..|log| - 1];
      var o := log[|log| - 1];
      AcceptedAmongOffered(rest);
      var xs, ys := Payloads(Pick(rest, KAccepted)), Offered(rest);
      if o.Accepted? {
        assert Payloads(Pick(log, KAccepted)) == xs + [o.payload] && Offered(log) == ys + [o.payload];
        assert (xs + [o.payload])[..|xs|] == xs && (ys + [o.payload])[..|ys|] == ys;
      } else if o.Refused? {
        assert Payloads(Pick(log, KAccepted)) == xs && Offered(log) == ys + [o.payload];
        assert (ys + [o.payload])[..|ys|] == ys;
      } else {
        assert Offered(log) == ys && Payloads(Pick(log, KAccepted)) == xs;
      }
    }
  }

  // As long as the timer is not stopped, the delivered payloads are an in-order subsequence of everything that
  // was offered, whether or not waits fail.
  lemma DeliveredInOrder<P>(clock: int, es: seq<Event<P>>)
    requires Possible(Initial(clock), es) && Unstopped(es)
    ensures var s := After(Initial(clock), es); Subsequence(Payloads(Calls(s)), Offered(s.log))
  {
    var s := After(Initial(clock), es);
    assert RisingInv(s) by { OrderOfRun(clock, es); }
    assert Inv(s) by {
      InvInitial<P>(clock);
      InvAfter(Initial(clock), es);
    }
    RisingIsSubsequence(Payloads(Calls(s)), Payloads(Accepts(s)),
                        seq(|Calls(s)|, i requires 0 <= i < |Calls(s)| => Calls(s)[i].id));
    AcceptedAmongOffered(s.log);
    SubsequenceOf(Payloads(Calls(s)), Payloads(Accepts(s)), Offered(s.log));
  }

  // When no wait fails either, they are the first of the accepted ones, and at most two are outstanding.
  lemma DeliveredFirst<P>(clock: int, es: seq<Event<P>>, period: int)
    requires FilterRun(clock, es, period)
    ensures var s := After(Initial(clock), es);
            && |Calls(s)| <= |Accepts(s)| <= |Calls(s)| + 2
            && Payloads(Calls(s)) == Payloads(Accepts(s))[..|Calls(s)|]
  {
    FilterState(clock, es, period);
    var s := After(Initial(clock), es);
    forall i | 0 <= i < |Calls(s)|
      ensures Payloads(Calls(s))[i] == Payloads(Accepts(s))[i]
    {
      assert Calls(s)[i].id == i;
    }
  }

  // A snapshot expires and the filter is stopped before its handler runs; the next one is delivered first.
  function Overtaking(period: int): seq<Event<int>> {
    [Start(period, 0, Quiet), Tick(period), Expire(0), Stop]
    + ([Start(period, 1, Quiet), Tick(2 * period), Expire(1), Deliver(1)]
       + [Finish, Deliver(0), Finish])
  }

  // The state after the first four events, and after the second four.
  function Stranded(period: int): State<int> {
    State(false, period, 1, map[0 := Wait(period, 0, Quiet, Settled(Success))], NoHandler,
          [Accepted(0, 0, 0, period), Stopped(1, period)])
  }

  function Overtaken(period: int): State<int> {
    State(false, 2 * period, 2, map[0 := Wait(period, 0, Quiet, Settled(Success))],
          Handling(1, Wait(2 * period, 1, Quiet, Settled(Success))),
          Stranded(period).log + [Accepted(1, 1, period, 2 * period)] + [Delivered(1, Success, 2 * period)])
  }

  lemma UpToStranded(period: int)
    requires period > 0
    ensures Possible(Initial(0), [Start(period, 0, Quiet), Tick(period), Expire(0), Stop])
    ensures After(Initial(0), [Start(period, 0, Quiet), Tick(period), Expire(0), Stop]) == Stranded(period)
  {
    RunOfFour(Initial(0), Start(period, 0, Quiet), Tick(period), Expire(0), Stop);
  }

  lemma UpToOvertaken(period: int)
    requires period > 0
    ensures Possible(Stranded(period), [Start(period, 1, Quiet), Tick(2 * period), Expire(1), Deliver(1)])
    ensures After(Stranded(period), [Start(period, 1, Quiet), Tick(2 * period), Expire(1), Deliver(1)])
            == Overtaken(period)
  {
    RunOfFour(Stranded(period), Start(period, 1, Quiet), Tick(2 * period), Expire(1), Deliver(1));
  }

  lemma UpToTheEnd(period: int)
    requires period > 0
    ensures Possible(Overtaken(period), [Finish, Deliver(0), Finish])
    ensures After(Overtaken(period), [Finish, Deliver(0), Finish]).log
            == Overtaken(period).log + [Called(1, 1, 2 * period)] + [Delivered(0, Success, 2 * period)]
               + [Called(0, 0, 2 * period)]
  {
    RunOfThree(Overtaken(period), Finish, Deliver(0), Finish);
  }

  lemma StopLosesOrder(period: int)
    requires period > 0
    ensures Possible(Initial(0), Overtaking(period)) && MetBy(Overtaking(period), period, Quiet, true, false)
    ensures var s := After(Initial(0), Overtaking(period));
            Payloads(Calls(s)) == [1, 0] && Offered(s.log) == [0, 1] && !Subsequence(Payloads(Calls(s)), Offered(s.log))
  {
    var first, second, third := Overtaking(period)[..4], Overtaking(period)[4..8], Overtaking(period)[8..];
    assert first == [Start(period, 0, Quiet), Tick(period), Expire(0), Stop];
    assert second == [Start(period, 1, Quiet), Tick(2 * period), Expire(1), Deliver(1)];
    assert third == [Finish, Deliver(0), Finish];
    UpToStranded(period);
    UpToOvertaken(period);
    UpToTheEnd(period);
    RunsCompose(Stranded(period), second, third);
    RunsCompose(Initial(0), first, second + third);
    assert Overtaking(period) == first + (second + third);
    ReadOvertaking(period, After(Initial(0), Overtaking(period)));
    assert [1, 0][..1] == [1] && [0, 1][..1] == [0];
  }

  lemma ReadOvertaking(period: int, s: State<int>)
    requires s.log
                   == Overtaken(period).log + [Called(1, 1, 2 * period)] + [Delivered(0, Success, 2 * period)]
                      + [Called(0, 0, 2 * period)]
    ensures Payloads(Calls(s)) == [1, 0] && Offered(s.log) == [0, 1]
  {
    var log := Overtaken(period).log;
    var first, delivered := Called(1, 1, 2 * period), Delivered(0, Success, 2 * period);
    var second := Called(0, 0, 2 * period);
    ReadOvertaken(period);
    PickAppend(log, first);
    PickAppend(log + [first], delivered);
    PickAppend(log + [first] + [delivered], second);
    OfferedAppend(log, first);
    OfferedAppend(log + [first], delivered);
    OfferedAppend(log + [first] + [delivered], second);
    assert Calls(s) == [first, second];
  }

  lemma ReadOvertaken(period: int)
    ensures Pick(Overtaken(period).log, KCalled) == [] && Offered(Overtaken(period).log) == [0, 1]
  {
    var a, b := Accepted(0, 0, 0, period), Stopped(1, period);
    var c, d := Accepted(1, 1, period, 2 * period), Delivered(1, Success, 2 * period);
    var none: seq<Obs<int>> := [];
    PickAppend(none, a);
    PickAppend([a], b);
    PickAppend([a, b], c);
    PickAppend([a, b] + [c], d);
    OfferedAppend(none, a);
    OfferedAppend([a], b);
    OfferedAppend([a, b], c);
    OfferedAppend([a, b] + [c], d);
    assert none + [a] == [a] && [a] + [b] == [a, b];
  }

  // Whether a filter lets first offers and no others pass in every run, given what its environment may do.
  ghost predicate KeepsFirst(period: int, stops: bool, failures: bool) {
    forall clock: int, es: seq<Event<int>> | Possible(Initial(clock), es)
                                             && MetBy(es, period, Quiet, stops, failures) ::
      PassesFirst(After(Initial(clock), es).log)
  }

  // First offers alone pass in every run exactly when nothing stops the filter; failed waits do not matter.
  lemma FirstOffersAreExact(period: int, stops: bool, failures: bool)
    ensures KeepsFirst(period, stops, failures) <==> !stops
  {
    if stops {
      var start := Start(period, 0, Quiet);
      var es := [start, Stop, start];
      RunOfThree(Initial(0), start, Stop, start);
      var log := After(Initial(0), es).log;
      assert log == [Accepted(0, 0, 0, period), Stopped(1, 0), Accepted(1, 0, 0, period)];
      assert log[..2] == [Accepted(0, 0, 0, period), Stopped(1, 0)] && log[..2][..1] == [Accepted(0, 0, 0, period)];
      assert OfferedSinceClear(log[..2]);
      assert MetBy(es, period, Quiet, stops, failures);
    } else {
      forall clock: int, es: seq<Event<int>> | Possible(Initial(clock), es) && MetBy(es, period, Quiet, stops, failures)
        ensures PassesFirst(After(Initial(clock), es).log)
      {
        FirstOffersPass(clock, es);
      }
    }
  }

  // Whether a filter delivers in order in every run, given what its environment may do.
  ghost predicate KeepsOrder(period: int, stops: bool, failures: bool) {
    forall clock: int, es: seq<Event<int>> | Possible(Initial(clock), es)
                                             && MetBy(es, period, Quiet, stops, failures) ::
      var s := After(Initial(clock), es);
      Subsequence(Payloads(Calls(s)), Offered(s.log))
  }

  // Both conditions are needed: after a stop, or after a failed wait, the next snapshot may follow at once.
  lemma StopBreaksSpacing(payload: int, period: int)
    requires period > 0
    ensures var es := [Start(period, payload, Quiet), Stop, Start(period, payload, Quiet)];
            && Possible(Initial(0), es)
            && |Accepts(After(Initial(0), es))| == 2
            && Accepts(After(Initial(0), es))[0].at == Accepts(After(Initial(0), es))[1].at
  {
    var start := Start(period, payload, Quiet);
    var wait := Wait(period, payload, Quiet, Live);
    var first, stopped := Accepted(0, payload, 0, period), Stopped(1, 0);
    var armed := State(true, 0, 1, map[0 := wait], NoHandler, [first]);
    var aborted := map[0 := wait.(status := Settled(OperationAborted))];
    var cleared := State(false, 0, 1, aborted, NoHandler, [first] + [stopped]);
    assert Step(Initial(0), start) == armed && Step(armed, Stop) == cleared;
    RunOfThree(Initial(0), start, Stop, start);
    AcceptsOfOne(first, stopped);
    StartLog(cleared, period, payload, Quiet);
  }

  lemma FailureBreaksSpacing(payload: int, period: int)
    requires period > 0
    ensures var es := [Start(period, payload, Quiet), Fail(0), Deliver(0), Start(period, payload, Quiet)];
            && Possible(Initial(0), es)
            && |Accepts(After(Initial(0), es))| == 2
            && Accepts(After(Initial(0), es))[0].at == Accepts(After(Initial(0), es))[1].at
  {
    var start := Start(period, payload, Quiet);
    var wait := Wait(period, payload, Quiet, Live);
    var first, failure := Accepted(0, payload, 0, period), Delivered(0, OtherError, 0);
    var armed := State(true, 0, 1, map[0 := wait], NoHandler, [first]);
    var failed := armed.(pending := map[0 := wait.(status := Settled(OtherError))]);
    var cleared := State(false, 0, 1, map[], Handling(0, wait.(status := Settled(OtherError))), [first] + [failure]);
    assert Step(Initial(0), start) == armed && Step(armed, Fail(0)) == failed && Step(failed, Deliver(0)) == cleared;
    RunOfFour(Initial(0), start, Fail(0), Deliver(0), start);
    AcceptsOfOne(first, failure);
    StartLog(cleared, period, payload, Quiet);
  }

  lemma AcceptsOfOne<P>(first: Obs<P>, o: Obs<P>)
    requires first.Accepted? && !o.Accepted?
    ensures Pick([first] + [o], KAccepted) == [first]
  {
    var none: seq<Obs<P>> := [];
    PickAppend(none, first);
    assert none + [first] == [first];
    PickAppend([first], o);
  }

  // Whether a filter spaces its snapshots in every run, given what its environment may do.
  ghost predicate KeepsSpacing(period: int, stops: bool, failures: bool) {
    forall clock: int, es: seq<Event<int>> | Possible(Initial(clock), es)
                                             && MetBy(es, period, Quiet, stops, failures) ::
      Spaced(Accepts(After(Initial(clock), es)), period)
  }

  // A filter spaces its snapshots in every run exactly when nothing stops it and none of its waits fails.
  lemma SpacingIsExact(period: int, stops: bool, failures: bool)
    requires period > 0
    ensures KeepsSpacing(period, stops, failures) <==> !stops && !failures
  {
    var start := Start(period, 0, Quiet);
    if stops {
      StopBreaksSpacing(0, period);
      BrokenBy([start, Stop, start], period, stops, failures);
    } else if failures {
      FailureBreaksSpacing(0, period);
      BrokenBy([start, Fail(0), Deliver(0), start], period, stops, failures);
    } else {
      forall clock: int, es: seq<Event<int>> | Possible(Initial(clock), es) && MetBy(es, period, Quiet, stops, failures)
        ensures Spaced(Accepts(After(Initial(clock), es)), period)
      {
        assert Steady(es, period, Quiet);
        FilterState(clock, es, period);
      }
    }
  }

  lemma BrokenBy(es: seq<Event<int>>, period: int, stops: bool, failures: bool)
    requires period > 0 && Possible(Initial(0), es) && MetBy(es, period, Quiet, stops, failures)
    requires |Accepts(After(Initial(0), es))| == 2
    requires Accepts(After(Initial(0), es))[0].at == Accepts(After(Initial(0), es))[1].at
    ensures !KeepsSpacing(period, stops, failures)
  {
    var accepts := Accepts(After(Initial(0), es));
    assert accepts[1].at < accepts[0].at + period;
    assert !Spaced(accepts, period);
  }
}

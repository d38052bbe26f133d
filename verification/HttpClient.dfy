/** One request to the central server: resolve, connect, write, read, shut down, and report once. */
module HttpClient {

  // A completion code. NotConnected is the one code that the shutdown is forgiven.
  datatype Ec = Clear | NotConnected | Failed(code: int)

  datatype Stage = Resolve | Connect | Write | Read

  datatype Report = Report(ec: Ec, msg: string)

  // An operation that is outstanding, with the codes that the earlier stages of its run returned.
  datatype Pending = Pending(stage: Stage, codes: seq<Ec>)

  // The completion of the outstanding operation of a run; that of a read carries what the shutdown after it would
  // return and whether the response's status is 200.
  datatype Event = Start | Completed(run: nat, ec: Ec, shutdown: Ec, statusOk: bool)

  // What the stages of one run returned, in order, and the status if it was looked at.
  datatype Exchange = Exchange(run: nat, codes: seq<Ec>, statusOk: bool)

  // The response message: one for all runs, and no run empties it. A read that fails is taken to leave it.
  datatype Response = Empty | Received(statusOk: bool)

  // Runs are numbered as they are started.
  datatype State = State(
    started: nat,
    outstanding: map<nat, Pending>,
    response: Response,
    finished: seq<Exchange>,
    reports: seq<Report>)

  const IDLE := State(0, map[], Empty, [], [])

  function Started(s: State): State {
    s.(started := s.started + 1, outstanding := s.outstanding[s.started := Pending(Resolve, [])])
  }

  function Callback(s: State, x: Exchange, report: Report): State {
    s.(finished := s.finished + [x], reports := s.reports + [report])
  }

  function OnRead(s: State, x: Exchange, shutdown: Ec): State {
    if shutdown != Clear && shutdown != NotConnected then Callback(s, x, Report(shutdown, "Shutdown Error"))
    else if x.statusOk then Callback(s, x, Report(shutdown, ""))
    else Callback(s, x, Report(shutdown, "Status Not Ok"))
  }

  // A handler that fails reports and starts nothing; one that succeeds starts the next stage.
  function OnCompleted(s: State, run: nat, ec: Ec, shutdown: Ec, statusOk: bool): State
    requires run in s.outstanding
  {
    var p := s.outstanding[run];
    var done := s.(outstanding := s.outstanding - {run});
    if ec != Clear then
      Callback(done, Exchange(run, p.codes + [ec], statusOk),
               Report(ec, match p.stage
                          case Resolve => "Resolve Error"
                          case Connect => "Connect Error"
                          case Write => "Write Error"
                          case Read => "Read Error"))
    else
      match p.stage
      case Resolve => s.(outstanding := s.outstanding[run := Pending(Connect, p.codes + [Clear])])
      case Connect => s.(outstanding := s.outstanding[run := Pending(Write, p.codes + [Clear])])
      case Write => s.(outstanding := s.outstanding[run := Pending(Read, p.codes + [Clear])])
      case Read =>
        OnRead(done.(response := Received(statusOk)), Exchange(run, p.codes + [Clear, shutdown], statusOk), shutdown)
  }

  // A run can be started at any time, also while others are going on.
  predicate Enabled(s: State, e: Event) {
    match e
    case Start => true
    case Completed(run, _, _, _) => run in s.outstanding
  }

  function Step(s: State, e: Event): State
    requires Enabled(s, e)
  {
    match e
    case Start => Started(s)
    case Completed(run, ec, shutdown, statusOk) => OnCompleted(s, run, ec, shutdown, statusOk)
  }

  predicate Possible(s: State, es: seq<Event>)
    decreases |es|
  {
    es == [] || (Enabled(s, es[0]) && Possible(Step(s, es[0]), es[1..]))
  }

  function After(s: State, es: seq<Event>): State
    requires Possible(s, es)
    decreases |es|
  {
    if es == [] then s else After(Step(s, es[0]), es[1..])
  }

  // What happened, from the events alone

  function Starts(es: seq<Event>): nat {
    if es == [] then 0 else Starts(es[..|es| - 1]) + (if es[|es| - 1].Start? then 1 else 0)
  }

  // The codes of a run: those of its completions, and that of the shutdown after a read that succeeded.
  function CodesOf(es: seq<Event>, run: nat): seq<Ec> {
    if es == [] then [] else WithCode(CodesOf(es[..|es| - 1], run), run, es[|es| - 1])
  }

  function WithCode(codes: seq<Ec>, run: nat, e: Event): seq<Ec> {
    if e.Start? || e.run != run then codes
    else if |codes| == 3 && e.ec == Clear then codes + [Clear, e.shutdown]
    else codes + [e.ec]
  }

  // Whether the status was 200 at the latest completion of a run.
  function StatusOf(es: seq<Event>, run: nat): bool {
    if es == [] then false
    else if es[|es| - 1].Completed? && es[|es| - 1].run == run then es[|es| - 1].statusOk
    else StatusOf(es[..|es| - 1], run)
  }

  // What a report ought to say, from the codes alone: the first stage that failed names it.

  const LABELS := ["Resolve Error", "Connect Error", "Write Error", "Read Error", "Shutdown Error"]

  predicate StageFailed(i: nat, ec: Ec) {
    ec != Clear && !(i == 4 && ec == NotConnected)
  }

  // The first position at or after i at which a stage failed, or the number of codes.
  function FirstFailure(codes: seq<Ec>, i: nat): (r: nat)
    requires i <= |codes|
    ensures i <= r <= |codes|
    ensures forall j :: i <= j < r ==> !StageFailed(j, codes[j])
    ensures r < |codes| ==> StageFailed(r, codes[r])
    decreases |codes| - i
  {
    if i == |codes| || StageFailed(i, codes[i]) then i else FirstFailure(codes, i + 1)
  }

  function Verdict(x: Exchange): Report
    requires 1 <= |x.codes| <= 5
  {
    var i := FirstFailure(x.codes, 0);
    if i < |x.codes| then Report(x.codes[i], LABELS[i])
    else Report(x.codes[i - 1], if x.statusOk then "" else "Status Not Ok")
  }

  // A finished exchange went through all five stages or stopped at the first failure.
  ghost predicate Complete(x: Exchange) {
    && 1 <= |x.codes| <= 5
    && (FirstFailure(x.codes, 0) >= |x.codes| - 1)
    && (FirstFailure(x.codes, 0) == |x.codes| ==> |x.codes| == 5)
  }

  function StageNumber(stage: Stage): nat {
    match stage
    case Resolve => 0
    case Connect => 1
    case Write => 2
    case Read => 3
  }

  // The verdict, stage by stage.
  lemma VerdictByStage(x: Exchange)
    requires Complete(x)
    ensures Verdict(x).ec == x.codes[|x.codes| - 1]
    ensures |x.codes| == 1 ==> Verdict(x).msg == "Resolve Error"
    ensures |x.codes| == 2 ==> Verdict(x).msg == "Connect Error"
    ensures |x.codes| == 3 ==> Verdict(x).msg == "Write Error"
    ensures |x.codes| == 4 ==> Verdict(x).msg == "Read Error"
    ensures |x.codes| == 5 && x.codes[4] != Clear && x.codes[4] != NotConnected ==> Verdict(x).msg == "Shutdown Error"
    ensures |x.codes| == 5 && (x.codes[4] == Clear || x.codes[4] == NotConnected) ==>
              Verdict(x).msg == if x.statusOk then "" else "Status Not Ok"
  {
  }

  ghost predicate UnderWay(p: Pending) {
    |p.codes| == StageNumber(p.stage) && forall i :: 0 <= i < |p.codes| ==> p.codes[i] == Clear
  }

  // An exchange that got as far as receiving its response.
  predicate WasRead(x: Exchange) {
    |x.codes| == 5
  }

  ghost predicate Inv(s: State) {
    && (forall run :: run in s.outstanding ==> UnderWay(s.outstanding[run]))
    && |s.reports| == |s.finished|
    && (forall i :: 0 <= i < |s.finished| ==> Complete(s.finished[i]) && s.reports[i] == Verdict(s.finished[i]))
    && (s.response.Empty? <==> forall i :: 0 <= i < |s.finished| ==> !WasRead(s.finished[i]))
  }

  // The state has recorded what happened: every run started is either under way or finished, once, and with the
  // codes and the status of its own completions.
  ghost predicate Recorded(s: State, past: seq<Event>) {
    && s.started == Starts(past)
    && (forall run :: run in s.outstanding ==> run < s.started && s.outstanding[run].codes == CodesOf(past, run))
    && (forall i :: 0 <= i < |s.finished| ==>
          var x := s.finished[i];
          && x.run < s.started && x.run !in s.outstanding
          && x.codes == CodesOf(past, x.run) && x.statusOk == StatusOf(past, x.run))
    && (forall i, j :: 0 <= i < j < |s.finished| ==> s.finished[i].run != s.finished[j].run)
    && (forall run :: s.started <= run ==> CodesOf(past, run) == [])
    && |s.finished| + |s.outstanding| == s.started
  }

  // Codes that are all clear but possibly the last.
  lemma LastDecides(codes: seq<Ec>)
    requires 1 <= |codes| <= 5 && forall i :: 0 <= i < |codes| - 1 ==> codes[i] == Clear
    ensures FirstFailure(codes, 0) == if StageFailed(|codes| - 1, codes[|codes| - 1]) then |codes| - 1 else |codes|
  {
    assert forall i :: 0 <= i < |codes| - 1 ==> !StageFailed(i, codes[i]);
  }

  // One exchange more, with its verdict.
  lemma CallbackKeeps(s: State, x: Exchange)
    requires Inv(s) && Complete(x) && (WasRead(x) ==> s.response.Received?)
    ensures Inv(Callback(s, x, Verdict(x)))
  {
    var t := Callback(s, x, Verdict(x));
    assert !WasRead(x) || WasRead(t.finished[|s.finished|]);
    assert forall i :: 0 <= i < |s.finished| ==> t.finished[i] == s.finished[i];
  }

  lemma ReadKeeps(s: State, x: Exchange, shutdown: Ec)
    requires Inv(s) && |x.codes| == 5 && x.codes[4] == shutdown && forall i :: 0 <= i < 4 ==> x.codes[i] == Clear
    ensures Inv(OnRead(s.(response := Received(x.statusOk)), x, shutdown))
  {
    var t := OnRead(s.(response := Received(x.statusOk)), x, shutdown);
    LastDecides(x.codes);
    assert t.finished == s.finished + [x] && t.reports == s.reports + [Verdict(x)];
    assert WasRead(t.finished[|s.finished|]);
  }

  lemma StepKeeps(s: State, e: Event)
    requires Inv(s) && Enabled(s, e)
    ensures Inv(Step(s, e))
  {
    match e
    case Start =>
    case Completed(run, ec, shutdown, statusOk) =>
      if ec != Clear {
        FailureKeeps(s, run, ec, shutdown, statusOk);
      } else {
        SuccessKeeps(s, run, shutdown, statusOk);
      }
  }

  lemma FailureKeeps(s: State, run: nat, ec: Ec, shutdown: Ec, statusOk: bool)
    requires Inv(s) && run in s.outstanding && ec != Clear
    ensures Inv(OnCompleted(s, run, ec, shutdown, statusOk))
  {
    var p := s.outstanding[run];
    LastDecides(p.codes + [ec]);
    CallbackKeeps(s.(outstanding := s.outstanding - {run}), Exchange(run, p.codes + [ec], statusOk));
  }

  lemma SuccessKeeps(s: State, run: nat, shutdown: Ec, statusOk: bool)
    requires Inv(s) && run in s.outstanding
    ensures Inv(OnCompleted(s, run, Clear, shutdown, statusOk))
  {
    var p := s.outstanding[run];
    if p.stage == Read {
      var x := Exchange(run, p.codes + [Clear, shutdown], statusOk);
      ReadKeeps(s.(outstanding := s.outstanding - {run}), x, shutdown);
    } else {
      NextStageKeeps(s, run, OnCompleted(s, run, Clear, shutdown, statusOk).outstanding[run]);
    }
  }

  lemma NextStageKeeps(s: State, run: nat, p: Pending)
    requires Inv(s) && UnderWay(p)
    ensures Inv(s.(outstanding := s.outstanding[run := p]))
  {
  }

  // One event more

  lemma OneMore(past: seq<Event>, e: Event)
    ensures Starts(past + [e]) == Starts(past) + (if e.Start? then 1 else 0)
    ensures forall run :: CodesOf(past + [e], run) == WithCode(CodesOf(past, run), run, e)
    ensures forall run :: StatusOf(past + [e], run) ==
                          (if e.Completed? && e.run == run then e.statusOk else StatusOf(past, run))
  {
    assert (past + [e])[..|past|] == past;
  }

  lemma StartRecorded(s: State, past: seq<Event>)
    requires Recorded(s, past)
    ensures Recorded(Started(s), past + [Start])
  {
    OneMore(past, Start);
    assert Started(s).outstanding.Keys == s.outstanding.Keys + {s.started};
    assert |Started(s).outstanding.Keys| == |s.outstanding.Keys| + 1;
  }

  // The run goes on.
  lemma StageRecorded(s: State, past: seq<Event>, e: Event, p: Pending)
    requires Recorded(s, past) && e.Completed? && e.run in s.outstanding
    requires p.codes == WithCode(s.outstanding[e.run].codes, e.run, e)
    ensures Recorded(s.(outstanding := s.outstanding[e.run := p]), past + [e])
  {
    OneMore(past, e);
    assert s.outstanding[e.run := p].Keys == s.outstanding.Keys;
    assert |s.outstanding[e.run := p].Keys| == |s.outstanding.Keys|;
  }

  // The run is over.
  lemma FinishRecorded(s: State, past: seq<Event>, e: Event, t: State)
    requires Recorded(s, past) && e.Completed? && e.run in s.outstanding
    requires t.started == s.started && t.outstanding == s.outstanding - {e.run}
    requires t.finished == s.finished + [Exchange(e.run, WithCode(s.outstanding[e.run].codes, e.run, e), e.statusOk)]
    ensures Recorded(t, past + [e])
  {
    OneMore(past, e);
    assert t.outstanding.Keys == s.outstanding.Keys - {e.run};
    assert |t.outstanding.Keys| == |s.outstanding.Keys| - 1;
  }

  lemma StepRecorded(s: State, past: seq<Event>, e: Event)
    requires Inv(s) && Recorded(s, past) && Enabled(s, e)
    ensures Recorded(Step(s, e), past + [e])
  {
    match e
    case Start => StartRecorded(s, past);
    case Completed(run, ec, shutdown, statusOk) =>
      if ec != Clear || s.outstanding[run].stage == Read {
        LastOfRun(s, run, ec, shutdown, statusOk);
        FinishRecorded(s, past, e, Step(s, e));
      } else {
        StageRecorded(s, past, e, Step(s, e).outstanding[run]);
      }
  }

  // A failure and a completed read finish their run, with its codes.
  lemma LastOfRun(s: State, run: nat, ec: Ec, shutdown: Ec, statusOk: bool)
    requires Inv(s) && run in s.outstanding && (ec != Clear || s.outstanding[run].stage == Read)
    ensures var t := OnCompleted(s, run, ec, shutdown, statusOk);
            var codes := WithCode(s.outstanding[run].codes, run, Completed(run, ec, shutdown, statusOk));
            && t.started == s.started && t.outstanding == s.outstanding - {run}
            && t.finished == s.finished + [Exchange(run, codes, statusOk)]
  {
    assert UnderWay(s.outstanding[run]);
  }

  lemma {:induction false} AfterKeeps(s: State, past: seq<Event>, es: seq<Event>)
    requires Inv(s) && Recorded(s, past) && Possible(s, es)
    ensures Inv(After(s, es)) && Recorded(After(s, es), past + es)
    decreases |es|
  {
    if es == [] {
      assert past + es == past;
    } else {
      var t := Step(s, es[0]);
      assert Inv(t) by { StepKeeps(s, es[0]); }
      assert Recorded(t, past + [es[0]]) by { StepRecorded(s, past, es[0]); }
      AfterKeeps(t, past + [es[0]], es[1..]);
      Joined(past, es);
    }
  }

  lemma Joined(past: seq<Event>, es: seq<Event>)
    requires es != []
    ensures past + [es[0]] + es[1..] == past + es
  {
  }

  // Every run that was started, also where runs overlap, is either still going on with one operation outstanding or
  // has made exactly one report, which is the verdict on the codes and the status of its own completions.
  lemma OneReportEach(es: seq<Event>)
    requires Possible(IDLE, es)
    ensures var s := After(IDLE, es);
            && |s.reports| + |s.outstanding| == Starts(es)
            && |s.finished| == |s.reports|
            && (forall i, j :: 0 <= i < j < |s.finished| ==> s.finished[i].run != s.finished[j].run)
            && (forall i :: 0 <= i < |s.reports| ==>
                  var x := s.finished[i];
                  && x.run < Starts(es) && x.run !in s.outstanding
                  && x.codes == CodesOf(es, x.run) && x.statusOk == StatusOf(es, x.run)
                  && Complete(x) && s.reports[i] == Verdict(x))
  {
    assert Inv(After(IDLE, es)) && Recorded(After(IDLE, es), es) by {
      AfterKeeps(IDLE, [], es);
      assert [] + es == es;
    }
    RecordedReports(After(IDLE, es), es);
  }

  lemma RecordedReports(s: State, es: seq<Event>)
    requires Inv(s) && Recorded(s, es)
    ensures |s.reports| + |s.outstanding| == Starts(es)
    ensures forall i :: 0 <= i < |s.reports| ==>
              var x := s.finished[i];
              && x.run < Starts(es) && x.run !in s.outstanding
              && x.codes == CodesOf(es, x.run) && x.statusOk == StatusOf(es, x.run)
              && Complete(x) && s.reports[i] == Verdict(x)
  {
  }

  // Each run is started only when none is going on.
  predicate OneByOne(s: State, es: seq<Event>)
    requires Possible(s, es)
    decreases |es|
  {
    es == [] || ((es[0].Start? ==> s.outstanding == map[]) && OneByOne(Step(s, es[0]), es[1..]))
  }

  // Then one operation at most is outstanding.
  lemma {:induction false} OneOutstanding(s: State, es: seq<Event>)
    requires |s.outstanding| <= 1 && Possible(s, es) && OneByOne(s, es)
    ensures |After(s, es).outstanding| <= 1
    decreases |es|
  {
    if es == [] {
    } else {
      OneOrNone(s, es[0]);
      OneOutstanding(Step(s, es[0]), es[1..]);
    }
  }

  lemma OneOrNone(s: State, e: Event)
    requires |s.outstanding| <= 1 && Enabled(s, e) && (e.Start? ==> s.outstanding == map[])
    ensures |Step(s, e).outstanding| <= 1
  {
    var t := Step(s, e);
    if e.Start? {
      assert t.outstanding == map[s.started := Pending(Resolve, [])];
    } else if e.run in t.outstanding {
      assert t.outstanding.Keys == s.outstanding.Keys;
      assert |t.outstanding.Keys| == |s.outstanding.Keys|;
    } else {
      assert t.outstanding.Keys == s.outstanding.Keys - {e.run};
      assert |t.outstanding.Keys| == |s.outstanding.Keys| - 1;
    }
  }

  // The response is empty, as it should be when a read starts, if and only if no earlier run completed its read.
  lemma ResponseEmptyExactly(es: seq<Event>)
    requires Possible(IDLE, es)
    ensures var s := After(IDLE, es);
            s.response.Empty? <==> forall i :: 0 <= i < |s.finished| ==> !WasRead(s.finished[i])
  {
    AfterKeeps(IDLE, [], es);
  }

  // Central's handlers

  // They log a success when the code they are given is clear, whatever the message.
  predicate LogsSuccess(report: Report) {
    report.ec == Clear
  }

  // The exchange as it went: every stage passed and the status was 200.
  ghost predicate Succeeded(x: Exchange) {
    |x.codes| == 5 && (forall i :: 0 <= i < 5 ==> !StageFailed(i, x.codes[i])) && x.statusOk
  }

  // A success is logged exactly when all five codes are clear; the status plays no part.
  lemma LoggedSuccessIsClearCodes(x: Exchange)
    requires Complete(x)
    ensures LogsSuccess(Verdict(x)) <==> |x.codes| == 5 && forall i :: 0 <= i < 5 ==> x.codes[i] == Clear
  {
    var r := FirstFailure(x.codes, 0);
    if r < |x.codes| {
      assert x.codes[r] != Clear;
    } else {
      assert forall i :: 0 <= i < 4 ==> !StageFailed(i, x.codes[i]);
    }
  }

  lemma VerdictIsTrueWhen(x: Exchange)
    requires Complete(x)
    ensures (LogsSuccess(Verdict(x)) <==> Succeeded(x)) <==>
            (FirstFailure(x.codes, 0) < |x.codes| || (x.statusOk <==> x.codes[4] == Clear))
  {
    LoggedSuccessIsClearCodes(x);
    var r := FirstFailure(x.codes, 0);
    if r < |x.codes| {
      assert StageFailed(r, x.codes[r]);
    } else {
      assert forall i :: 0 <= i < 5 ==> !StageFailed(i, x.codes[i]);
    }
  }

  // So in every run the log tells the truth about a request if and only if a stage failed, or the status is 200
  // just when the shutdown was clean.
  lemma LogIsTrueWhen(es: seq<Event>, i: nat)
    requires Possible(IDLE, es) && i < |After(IDLE, es).reports|
    ensures i < |After(IDLE, es).finished|
    ensures var s := After(IDLE, es);
            var x := s.finished[i];
            && Complete(x)
            && ((LogsSuccess(s.reports[i]) <==> Succeeded(x)) <==>
                (FirstFailure(x.codes, 0) < |x.codes| || (x.statusOk <==> x.codes[4] == Clear)))
  {
    OneReportEach(es);
    VerdictIsTrueWhen(After(IDLE, es).finished[i]);
  }

  // A run, by its number, in which every stage passes, up to a shutdown and a status of any kind.
  function Smooth(shutdown: Ec, statusOk: bool): seq<Event> {
    UpToRead(0) + [Completed(0, Clear, shutdown, statusOk)]
  }

  function UpToRead(run: nat): seq<Event> {
    [Start] + ([Passed(run)] + ([Passed(run)] + ([Passed(run)] + [])))
  }

  function Passed(run: nat): Event {
    Completed(run, Clear, Clear, true)
  }

  lemma Prefixed(s: State, e: Event, es: seq<Event>)
    requires Enabled(s, e) && Possible(Step(s, e), es)
    ensures Possible(s, [e] + es) && After(s, [e] + es) == After(Step(s, e), es)
  {
    assert ([e] + es)[1..] == es;
  }

  lemma {:induction false} RunsCompose(s: State, es: seq<Event>, rest: seq<Event>)
    requires Possible(s, es) && Possible(After(s, es), rest)
    ensures Possible(s, es + rest) && After(s, es + rest) == After(After(s, es), rest)
    decreases |es|
  {
    if es == [] {
      assert es + rest == rest;
    } else {
      assert (es + rest)[1..] == es[1..] + rest;
      RunsCompose(Step(s, es[0]), es[1..], rest);
    }
  }

  lemma Passing(s: State, run: nat, p: Pending, t: State)
    requires s.outstanding == map[run := p] && p.stage != Read && t == s.(outstanding := t.outstanding)
    requires exists q :: t.outstanding == map[run := q] && q.codes == p.codes + [Clear]
                         && StageNumber(q.stage) == StageNumber(p.stage) + 1
    ensures Enabled(s, Passed(run)) && Step(s, Passed(run)) == t
  {
    var q :| t.outstanding == map[run := q] && q.codes == p.codes + [Clear]
             && StageNumber(q.stage) == StageNumber(p.stage) + 1;
    assert map[run := p][run := q] == map[run := q];
  }

  // A run started with nothing else outstanding, and three stages passed.
  lemma UpToReadRun(s: State)
    requires s.outstanding == map[]
    ensures Possible(s, UpToRead(s.started))
    ensures After(s, UpToRead(s.started))
            == s.(started := s.started + 1, outstanding := map[s.started := Pending(Read, [Clear, Clear, Clear])])
  {
    var run := s.started;
    var passed := Passed(run);
    var resolving := s.(started := run + 1, outstanding := map[run := Pending(Resolve, [])]);
    var connecting := resolving.(outstanding := map[run := Pending(Connect, [Clear])]);
    var writing := resolving.(outstanding := map[run := Pending(Write, [Clear, Clear])]);
    var reading := resolving.(outstanding := map[run := Pending(Read, [Clear, Clear, Clear])]);
    assert Started(s) == resolving;
    Passing(resolving, run, Pending(Resolve, []), connecting);
    Passing(connecting, run, Pending(Connect, [Clear]), writing);
    Passing(writing, run, Pending(Write, [Clear, Clear]), reading);
    Prefixed(writing, passed, []);
    Prefixed(connecting, passed, [passed] + []);
    Prefixed(resolving, passed, [passed] + ([passed] + []));
    Prefixed(s, Start, [passed] + ([passed] + ([passed] + [])));
  }

  lemma SmoothRun(shutdown: Ec, statusOk: bool)
    ensures Possible(IDLE, Smooth(shutdown, statusOk))
    ensures After(IDLE, Smooth(shutdown, statusOk))
            == OnRead(IDLE.(started := 1, response := Received(statusOk)),
                      Exchange(0, [Clear, Clear, Clear, Clear, shutdown], statusOk), shutdown)
  {
    var last := Completed(0, Clear, shutdown, statusOk);
    UpToReadRun(IDLE);
    var reading := After(IDLE, UpToRead(0));
    assert [Clear, Clear, Clear] + [Clear, shutdown] == [Clear, Clear, Clear, Clear, shutdown];
    assert reading.outstanding - {0} == map[];
    assert [last][1..] == [];
    assert After(reading, [last]) == Step(reading, last);
    RunsCompose(IDLE, UpToRead(0), [last]);
  }

  // A run in which all goes well is reported so.
  lemma SuccessIsReported()
    ensures Possible(IDLE, Smooth(Clear, true))
    ensures var s := After(IDLE, Smooth(Clear, true));
            s.reports == [Report(Clear, "")] && LogsSuccess(s.reports[0]) && Succeeded(s.finished[0])
  {
    SmoothRun(Clear, true);
  }

  // A second run's read does meet the response of the first.
  lemma SecondReadMeetsAResponse(statusOk: bool)
    ensures Possible(IDLE, Smooth(Clear, statusOk) + UpToRead(1))
    ensures var s := After(IDLE, Smooth(Clear, statusOk) + UpToRead(1));
            s.outstanding == map[1 := Pending(Read, [Clear, Clear, Clear])] && s.response == Received(statusOk)
  {
    SmoothRun(Clear, statusOk);
    UpToReadRun(After(IDLE, Smooth(Clear, statusOk)));
    RunsCompose(IDLE, Smooth(Clear, statusOk), UpToRead(1));
  }

  // Both ways to be wrong occur. A request answered with another status is logged as sent.
  lemma RefusedRequestLoggedAsSent()
    ensures Possible(IDLE, Smooth(Clear, false))
    ensures var s := After(IDLE, Smooth(Clear, false));
            && s.reports == [Report(Clear, "Status Not Ok")] && LogsSuccess(s.reports[0])
            && |s.finished| == 1 && !Succeeded(s.finished[0])
  {
    SmoothRun(Clear, false);
  }

  // And one that succeeded, with a shutdown that is forgiven, is logged as a failure.
  lemma ForgivenShutdownLoggedAsFailure()
    ensures Possible(IDLE, Smooth(NotConnected, true))
    ensures var s := After(IDLE, Smooth(NotConnected, true));
            && s.reports == [Report(NotConnected, "")] && !LogsSuccess(s.reports[0])
            && |s.finished| == 1 && Succeeded(s.finished[0])
  {
    SmoothRun(NotConnected, true);
  }

  /** The session object: every handler reports or starts the next operation. */
  class HttpClientSession {
    var started: nat
    var outstanding: map<nat, Pending>
    var response: Response
    ghost var finished: seq<Exchange>
    var reports: seq<Report>

    constructor ()
      ensures Value() == IDLE
    {
      started, outstanding, response, reports := 0, map[], Empty, [];
      finished := [];
    }

    ghost function Value(): State
      reads this
    {
      State(started, outstanding, response, finished, reports)
    }

    method Run()
      modifies this
      ensures Value() == Started(old(Value()))
    {
      outstanding := outstanding[started := Pending(Resolve, [])];
      started := started + 1;
    }

    method Call(ec: Ec, msg: string, ghost x: Exchange)
      modifies this`reports, this`finished
      ensures Value() == Callback(old(Value()), x, Report(ec, msg))
    {
      reports := reports + [Report(ec, msg)];
      finished := finished + [x];
    }

    // The outstanding operation of a run has completed, and its handler starts the next one in its place.
    method Next(run: nat, stage: Stage)
      requires run in outstanding
      modifies this`outstanding
      ensures outstanding == old(outstanding)[run := Pending(stage, old(outstanding)[run].codes + [Clear])]
    {
      outstanding := outstanding[run := Pending(stage, outstanding[run].codes + [Clear])];
    }

    method OnResolve(run: nat, ec: Ec, ghost shutdown: Ec, ghost statusOk: bool)
      requires run in outstanding && outstanding[run].stage == Resolve
      modifies this
      ensures Value() == OnCompleted(old(Value()), run, ec, shutdown, statusOk)
    {
      if ec != Clear {
        ghost var codes := outstanding[run].codes + [ec];
        outstanding := outstanding - {run};
        Call(ec, "Resolve Error", Exchange(run, codes, statusOk));
        return;
      }
      Next(run, Connect);
    }

    method OnConnect(run: nat, ec: Ec, ghost shutdown: Ec, ghost statusOk: bool)
      requires run in outstanding && outstanding[run].stage == Connect
      modifies this
      ensures Value() == OnCompleted(old(Value()), run, ec, shutdown, statusOk)
    {
      if ec != Clear {
        ghost var codes := outstanding[run].codes + [ec];
        outstanding := outstanding - {run};
        Call(ec, "Connect Error", Exchange(run, codes, statusOk));
        return;
      }
      Next(run, Write);
    }

    method OnWrite(run: nat, ec: Ec, ghost shutdown: Ec, ghost statusOk: bool)
      requires run in outstanding && outstanding[run].stage == Write
      modifies this
      ensures Value() == OnCompleted(old(Value()), run, ec, shutdown, statusOk)
    {
      if ec != Clear {
        ghost var codes := outstanding[run].codes + [ec];
        outstanding := outstanding - {run};
        Call(ec, "Write Error", Exchange(run, codes, statusOk));
        return;
      }
      Next(run, Read);
    }

    method OnReadDone(run: nat, ec: Ec, shutdown: Ec, statusOk: bool)
      requires run in outstanding && outstanding[run].stage == Read
      modifies this
      ensures Value() == OnCompleted(old(Value()), run, ec, shutdown, statusOk)
    {
      ghost var codes := outstanding[run].codes;
      outstanding := outstanding - {run};
      if ec != Clear {
        Call(ec, "Read Error", Exchange(run, codes + [ec], statusOk));
        return;
      }
      response := Received(statusOk);
      ghost var x := Exchange(run, codes + [Clear, shutdown], statusOk);
      if shutdown != Clear && shutdown != NotConnected {
        Call(shutdown, "Shutdown Error", x);
        return;
      }
      if response.statusOk {
        Call(shutdown, "", x);
      } else {
        Call(shutdown, "Status Not Ok", x);
      }
    }
  }
}

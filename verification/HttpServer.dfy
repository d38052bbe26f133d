/** One connection of the camera server: read a request, write its response, and again while it is kept alive. */
module HttpServer {

  datatype Request = Request(isPost: bool, version: int, keepAlive: bool, body: string)

  datatype Response = Response(status: int, version: int, keepAlive: bool, body: string)

  datatype Message<T> = Cleared | Filled(value: T)

  // The response a request gets.
  function Answer(req: Request): Response {
    if req.isPost then Response(200, req.version, req.keepAlive, "{\"code\": \"0\", \"msg\": \"success\"}")
    else Response(400, req.version, req.keepAlive, "{\"code\": \"-1\", \"msg\": \"fail\"}")
  }

  // An asynchronous operation that has been started and not yet completed.
  datatype Op = Reading | Writing(keepAlive: bool)

  datatype ReadResult = Got(req: Request) | EndOfStream | ReadFailed

  datatype Event = ReadDone(result: ReadResult) | WriteDone(ok: bool)

  // The session's messages, the operations outstanding, and what passed over the wire so far.
  datatype State = State(
    req: Message<Request>,
    res: Message<Response>,
    outstanding: multiset<Op>,
    requests: seq<Request>,
    responses: seq<Response>,
    closed: bool)

  const NEW_SESSION := State(Cleared, Cleared, multiset{}, [], [], false)

  function DoReadStep(s: State): State {
    s.(req := Cleared, outstanding := s.outstanding + multiset{Reading})
  }

  function DoCloseStep(s: State): State {
    s.(closed := true)
  }

  function SendStep(s: State, res: Response): State {
    s.(res := Filled(res), outstanding := s.outstanding + multiset{Writing(res.keepAlive)})
  }

  function OnReadStep(s: State, result: ReadResult): State {
    var t := s.(outstanding := s.outstanding - multiset{Reading});
    match result
    case EndOfStream => DoCloseStep(t)
    case ReadFailed => t
    case Got(req) => SendStep(t.(req := Filled(req), requests := t.requests + [req]), Answer(req))
  }

  function OnWriteStep(s: State, keepAlive: bool, ok: bool): State
    requires s.res.Filled?
  {
    var t := s.(outstanding := s.outstanding - multiset{Writing(keepAlive)});
    if !ok then t
    else
      var u := t.(responses := t.responses + [t.res.value]);
      if keepAlive then DoReadStep(u) else DoCloseStep(u)
  }

  // Either kind of completion may come whenever an operation of that kind is outstanding.
  ghost predicate Next(s: State, e: Event, t: State) {
    match e
    case ReadDone(result) => Reading in s.outstanding && t == OnReadStep(s, result)
    case WriteDone(ok) =>
      s.res.Filled? && exists keepAlive :: Writing(keepAlive) in s.outstanding && t == OnWriteStep(s, keepAlive, ok)
  }

  // A run of a session: the states it goes through, from the first read on.
  ghost predicate Run(states: seq<State>, events: seq<Event>) {
    && |states| == |events| + 1
    && states[0] == DoReadStep(NEW_SESSION)
    && forall i :: 0 <= i < |events| ==> Next(states[i], events[i], states[i + 1])
  }

  ghost predicate Inv(s: State) {
    && (s.outstanding == multiset{} || s.outstanding == multiset{Reading}
        || (&& s.res.Filled? && s.outstanding == multiset{Writing(s.res.value.keepAlive)}
            && |s.requests| == |s.responses| + 1
            && s.res.value == Answer(s.requests[|s.responses|])))
    && (s.closed ==> s.outstanding == multiset{})
    && (Reading in s.outstanding ==> s.req.Cleared? && |s.requests| == |s.responses|)
    && |s.responses| <= |s.requests| <= |s.responses| + 1
    && (forall i :: 0 <= i < |s.responses| ==> s.responses[i] == Answer(s.requests[i]))
    && (forall i :: 0 <= i < |s.requests| - 1 ==> s.requests[i].keepAlive)
    && (Reading in s.outstanding && s.requests != [] ==> s.requests[|s.requests| - 1].keepAlive)
  }

  lemma ReadKeeps(s: State, result: ReadResult)
    requires Inv(s) && Reading in s.outstanding
    ensures Inv(OnReadStep(s, result))
  {
    assert s.outstanding == multiset{Reading};
    if result.Got? {
      GotKeeps(s, result.req);
    } else {
      assert OnReadStep(s, result).outstanding == multiset{};
    }
  }

  lemma GotKeeps(s: State, req: Request)
    requires Inv(s) && s.outstanding == multiset{Reading}
    ensures Inv(OnReadStep(s, Got(req)))
  {
    assert OnReadStep(s, Got(req)).outstanding == multiset{Writing(req.keepAlive)};
  }

  lemma WriteKeeps(s: State, keepAlive: bool, ok: bool)
    requires Inv(s) && s.res.Filled? && Writing(keepAlive) in s.outstanding
    ensures Inv(OnWriteStep(s, keepAlive, ok))
    ensures keepAlive == s.res.value.keepAlive
  {
    assert s.outstanding == multiset{Writing(s.res.value.keepAlive)};
    assert OnWriteStep(s, keepAlive, ok).outstanding == if ok && keepAlive then multiset{Reading} else multiset{};
  }

  lemma {:induction false} RunKeeps(states: seq<State>, events: seq<Event>, i: nat)
    requires Run(states, events) && i < |states|
    ensures Inv(states[i])
  {
    if i == 0 {
      assert states[0].outstanding == multiset{Reading};
    } else {
      RunKeeps(states, events, i - 1);
      var s, e := states[i - 1], events[i - 1];
      assert Next(s, e, states[(i - 1) + 1]);
      match e
      case ReadDone(result) => ReadKeeps(s, result);
      case WriteDone(ok) =>
        var keepAlive :| Writing(keepAlive) in s.outstanding && states[i] == OnWriteStep(s, keepAlive, ok);
        WriteKeeps(s, keepAlive, ok);
    }
  }

  const SUCCESS := "{\"code\": \"0\", \"msg\": \"success\"}"
  const FAILURE := "{\"code\": \"-1\", \"msg\": \"fail\"}"

  // At every moment of every run: one operation at most is outstanding; a read finds the request empty; the
  // responses written answer the requests read, in order, all but at most the last, with 200 to a POST and 400 to
  // anything else; and every request before the last asked to be kept alive.
  lemma ServerSession(states: seq<State>, events: seq<Event>, i: nat)
    requires Run(states, events) && i < |states|
    ensures var s := states[i];
            && |s.outstanding| <= 1
            && (Reading in s.outstanding ==> s.req.Cleared?)
            && |s.responses| <= |s.requests| <= |s.responses| + 1
            && (forall j :: 0 <= j < |s.responses| ==>
                  && s.responses[j].status == (if s.requests[j].isPost then 200 else 400)
                  && s.responses[j].body == (if s.requests[j].isPost then SUCCESS else FAILURE)
                  && s.responses[j].version == s.requests[j].version
                  && s.responses[j].keepAlive == s.requests[j].keepAlive)
            && (forall j :: 0 <= j < |s.requests| - 1 ==> s.requests[j].keepAlive)
  {
    RunKeeps(states, events, i);
  }

  // A run that goes on was not closed: nothing is read, written or completed after a close.
  lemma NothingAfterClose(states: seq<State>, events: seq<Event>, i: nat)
    requires Run(states, events) && i < |events|
    ensures !states[i].closed
  {
    RunKeeps(states, events, i);
    assert Next(states[i], events[i], states[i + 1]);
  }

  // The latest request asked to be kept alive.
  predicate LastKeptAlive(s: State) {
    s.requests != [] && s.requests[|s.requests| - 1].keepAlive
  }

  // A run comes to rest exactly when the stream ended, an operation failed, or the response to a request that is
  // not to be kept alive was written; it is closed then, unless an operation failed.
  lemma RestAfter(states: seq<State>, events: seq<Event>, i: nat)
    requires Run(states, events) && i < |events|
    ensures var t := states[i + 1];
            && (t.outstanding == multiset{} <==>
                  match events[i]
                  case ReadDone(result) => !result.Got?
                  case WriteDone(ok) => !ok || !LastKeptAlive(states[i]))
            && (t.closed <==>
                  match events[i]
                  case ReadDone(result) => result.EndOfStream?
                  case WriteDone(ok) => ok && !LastKeptAlive(states[i]))
  {
    RunKeeps(states, events, i);
    var s := states[i];
    assert Next(s, events[i], states[i + 1]);
    assert !s.closed;
    match events[i]
    case ReadDone(result) =>
      assert s.outstanding == multiset{Reading};
    case WriteDone(ok) =>
      var keepAlive :| Writing(keepAlive) in s.outstanding && states[i + 1] == OnWriteStep(s, keepAlive, ok);
      WriteKeeps(s, keepAlive, ok);
      assert s.outstanding == multiset{Writing(keepAlive)};
  }

  // The requests that the reads of a run got, and the number of its writes that went through.

  function RequestsIn(events: seq<Event>): seq<Request> {
    if events == [] then [] else WithRequest(RequestsIn(events[..|events| - 1]), events[|events| - 1])
  }

  function WithRequest(requests: seq<Request>, e: Event): seq<Request> {
    if e.ReadDone? && e.result.Got? then requests + [e.result.req] else requests
  }

  function WritesIn(events: seq<Event>): nat {
    if events == [] then 0
    else WritesIn(events[..|events| - 1]) + (if events[|events| - 1] == WriteDone(true) then 1 else 0)
  }

  lemma OneEvent(s: State, e: Event, t: State)
    requires Next(s, e, t)
    ensures t.requests == WithRequest(s.requests, e)
    ensures |t.responses| == |s.responses| + (if e == WriteDone(true) then 1 else 0)
  {
  }

  // What the session counts as read and written is what its reads and writes brought about.
  lemma {:induction false} Transcript(states: seq<State>, events: seq<Event>, i: nat)
    requires Run(states, events) && i < |states|
    ensures states[i].requests == RequestsIn(events[..i]) && |states[i].responses| == WritesIn(events[..i])
  {
    if i == 0 {
    } else {
      Transcript(states, events, i - 1);
      CountedTo(events, i);
      OneEvent(states[i - 1], events[i - 1], states[(i - 1) + 1]);
    }
  }

  lemma CountedTo(events: seq<Event>, i: nat)
    requires 0 < i <= |events|
    ensures RequestsIn(events[..i]) == WithRequest(RequestsIn(events[..i - 1]), events[i - 1])
    ensures WritesIn(events[..i]) == WritesIn(events[..i - 1]) + (if events[i - 1] == WriteDone(true) then 1 else 0)
  {
    assert events[..i][..i - 1] == events[..i - 1];
  }

  /** The session object; each handler is the transition of the same name. */
  class Session {
    var req: Message<Request>
    var res: Message<Response>
    var outstanding: multiset<Op>
    ghost var requests: seq<Request>
    ghost var responses: seq<Response>
    var closed: bool

    constructor ()
      ensures Value() == NEW_SESSION
    {
      req, res, outstanding, closed := Cleared, Cleared, multiset{}, false;
      requests, responses := [], [];
    }

    ghost function Value(): State
      reads this
    {
      State(req, res, outstanding, requests, responses, closed)
    }

    method DoRead()
      modifies this
      ensures Value() == DoReadStep(old(Value()))
    {
      req := Cleared;
      outstanding := outstanding + multiset{Reading};
    }

    method OnRead(result: ReadResult)
      requires Reading in outstanding
      modifies this
      ensures Value() == OnReadStep(old(Value()), result)
    {
      outstanding := outstanding - multiset{Reading};
      if result == EndOfStream {
        DoClose();
        return;
      }
      if result == ReadFailed {
        return;
      }
      req := Filled(result.req);
      requests := requests + [result.req];
      Handle(result.req);
    }

    // Every request gets its response, by its method.
    method Handle(request: Request)
      modifies this`res, this`outstanding
      ensures Value() == SendStep(old(Value()), Answer(request))
      ensures res.Filled? && res.value.status == (if request.isPost then 200 else 400)
      ensures res.value.body == if request.isPost then SUCCESS else FAILURE
      ensures res.value.version == request.version && res.value.keepAlive == request.keepAlive
    {
      res := Cleared;
      if request.isPost {
        res := Filled(Response(200, request.version, request.keepAlive, "{\"code\": \"0\", \"msg\": \"success\"}"));
        SendResponse();
      } else {
        res := Filled(Response(400, request.version, request.keepAlive, "{\"code\": \"-1\", \"msg\": \"fail\"}"));
        SendResponse();
      }
    }

    method SendResponse()
      requires res.Filled?
      modifies this`outstanding
      ensures Value() == SendStep(old(Value()), res.value)
    {
      outstanding := outstanding + multiset{Writing(res.value.keepAlive)};
    }

    method OnWrite(keepAlive: bool, ok: bool)
      requires Writing(keepAlive) in outstanding && res.Filled?
      modifies this
      ensures Value() == OnWriteStep(old(Value()), keepAlive, ok)
    {
      outstanding := outstanding - multiset{Writing(keepAlive)};
      if !ok {
        return;
      }
      responses := responses + [res.value];
      if !keepAlive {
        DoClose();
        return;
      }
      DoRead();
    }

    method DoClose()
      modifies this`closed
      ensures Value() == DoCloseStep(old(Value()))
    {
      closed := true;
    }
  }
}

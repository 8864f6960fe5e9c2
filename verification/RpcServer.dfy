/** JSON-RPC 2.0 on the daemon's side of one connection. What a handler answers,
    and whether a write succeeds, are inputs. */
module RpcServer {
  import opened Domain

  /** JSON values are opaque apart from null. */
  datatype Json = Null | Value(text: string)

  datatype Id = Number(n: int) | Text(s: string)

  /** The methods the dispatcher knows by name, and every other name. */
  datatype Method =
    | Hello | AppendEvent | RecordFeedback | AddMemory | ForgetMemory | ListMemories | GetMemory | ListEntities
    | GetEntityPage | SearchMemory | ReadContext | InspectProvenance | ListConflicts | GetConflict | ResolveConflict
    | WorkerStatus | WhyMemory | DaemonShutdown | DaemonRebuildIndexes
    | Unknown(name: string)

  /** A null id reads as an absent one. */
  datatype Request = Request(jsonrpc: string, id: Option<Id>, target: Method, params: Json)

  datatype RpcError = RpcError(code: int, message: string)

  datatype Response = Response(id: Option<Id>, result: Option<Json>, error: Option<RpcError>)

  /** What the handler returns, a refusal of its parameters included. */
  datatype Answer = Answered(value: Json) | Refused(error: RpcError)

  function Answering(id: Option<Id>, answer: Answer): Response {
    match answer
    case Answered(value) => Response(id, Some(value), None)
    case Refused(error) => Response(id, None, Some(error))
  }

  /** What is answered to a request, its id apart. */
  function Verdict(req: Request, answer: Answer): Answer {
    if req.jsonrpc != "2.0" then Refused(RpcError(-32600, "jsonrpc must be \"2.0\""))
    else if req.target.Unknown? then Refused(RpcError(-32601, "method not found: " + req.target.name))
    else answer
  }

  /** Sections 4.1 and 5 of JSON-RPC 2.0: a request is answered if and only if it
      carries an id, with that id and with a result or an error but not both. */
  function Dispatch(req: Request, answer: Answer): (r: Option<Response>)
    ensures r.Some? <==> req.id.Some?
    ensures r.Some? ==> r.value.id == req.id && (r.value.result.Some? <==> r.value.error.None?)
  {
    if req.id.None? then None else Some(Answering(req.id, Verdict(req, answer)))
  }

  // ---- One connection -------------------------------------------------------

  datatype Frame = Reply(response: Response) | Push(note: Json)

  datatype Event =
    | Received(req: Request, answer: Answer, written: bool)
    | Garbled(message: string, written: bool)
    | Notified(note: Option<Json>, written: bool)
    | Eof
    | Shutdown

  /** The frames one event puts on the wire, and whether the loop goes on. */
  function Handle(e: Event): (seq<Frame>, bool) {
    match e
    case Received(req, answer, written) =>
      (match Dispatch(req, answer)
       case None => ([], true)
       case Some(resp) => if written then ([Reply(resp)], true) else ([], false))
    case Garbled(message, written) =>
      (if written then [Reply(Response(None, None, Some(RpcError(-32700, message))))] else [], false)
    case Notified(note, written) =>
      if note.None? then ([], true)
      else if written then ([Push(note.value)], true)
      else ([], false)
    case Eof => ([], false)
    case Shutdown => ([], false)
  }

  function Serve(events: seq<Event>): seq<Frame> {
    if events == [] then []
    else
      var (frames, goesOn) := Handle(events[0]);
      frames + (if goesOn then Serve(events[1..]) else [])
  }

  /** What a request with an id is answered: an error for another protocol version
      or an unknown method, and otherwise what the handler says. */
  predicate Answers(req: Request, answer: Answer, resp: Response) {
    && resp.id == req.id
    && (if req.jsonrpc != "2.0" then
          resp.result == None && resp.error == Some(RpcError(-32600, "jsonrpc must be \"2.0\""))
        else if req.target.Unknown? then
          resp.result == None && resp.error == Some(RpcError(-32601, "method not found: " + req.target.name))
        else match answer
          case Answered(value) => resp.result == Some(value) && resp.error == None
          case Refused(error) => resp.result == None && resp.error == Some(error))
  }

  /** What one event puts on the wire and whether the loop outlives it: an answer
      to a request with an id, nothing for one without, the note of a
      notification, and a parse error before the end for what cannot be read. A
      failed write ends the loop. */
  lemma ServeEffect(e: Event, rest: seq<Event>)
    ensures e.Received? && e.req.id.None? ==> Serve([e] + rest) == Serve(rest)
    ensures e.Received? && e.req.id.Some? && e.written ==>
              exists resp :: Answers(e.req, e.answer, resp) && Serve([e] + rest) == [Reply(resp)] + Serve(rest)
    ensures e.Garbled? && e.written ==>
              Serve([e] + rest) == [Reply(Response(None, None, Some(RpcError(-32700, e.message))))]
    ensures e.Notified? && e.note.None? ==> Serve([e] + rest) == Serve(rest)
    ensures e.Notified? && e.note.Some? && e.written ==> Serve([e] + rest) == [Push(e.note.value)] + Serve(rest)
    ensures (e.Received? && e.req.id.Some?) || e.Garbled? || (e.Notified? && e.note.Some?) ==>
              e.written || Serve([e] + rest) == []
    ensures e.Eof? || e.Shutdown? ==> Serve([e] + rest) == []
  {
    if e.Received? && e.req.id.Some? {
      assert Answers(e.req, e.answer, Dispatch(e.req, e.answer).value);
    }
    assert ([e] + rest)[1..] == rest;
    assert [] + Serve(rest) == Serve(rest);
  }

  /** The connection loop. */
  method HandleConnection(events: seq<Event>) returns (frames: seq<Frame>)
    ensures frames == Serve(events)
  {
    frames := [];
    var i := 0;
    assert [] + Serve(events) == Serve(events);
    while i < |events|
      invariant 0 <= i <= |events|
      invariant frames + Serve(events[i..]) == Serve(events)
    {
      ServeFrom(events, i, frames);
      frames := frames + Handle(events[i]).0;
      if !Handle(events[i]).1 {
        return;
      }
      i := i + 1;
    }
    assert frames + [] == frames;
  }

  lemma ServeFrom(events: seq<Event>, i: nat, before: seq<Frame>)
    requires i < |events|
    ensures var (frames, goesOn) := Handle(events[i]);
            before + Serve(events[i..]) == (before + frames) + if goesOn then Serve(events[i + 1..]) else []
    ensures !Handle(events[i]).1 ==> before + Serve(events[i..]) == before + Handle(events[i]).0
  {}

  // ---- Every request with an id is answered once, in order ------------------

  /** The answers the events call for, up to the one that ends the connection. */
  function Owed(events: seq<Event>): seq<Response> {
    if events == [] then []
    else OwedFor(events[0]) + (if Handle(events[0]).1 then Owed(events[1..]) else [])
  }

  function OwedFor(e: Event): seq<Response> {
    if e.Received? && e.req.id.Some? then [Answering(e.req.id, Verdict(e.req, e.answer))] else []
  }

  function RepliesWithId(frames: seq<Frame>): seq<Response> {
    if frames == [] then [] else ReplyIn(frames[0]) + RepliesWithId(frames[1..])
  }

  function ReplyIn(frame: Frame): seq<Response> {
    if frame.Reply? && frame.response.id.Some? then [frame.response] else []
  }

  ghost predicate LastWriteFails(events: seq<Event>) {
    events != [] && var e := events[0];
    if Handle(e).1 then LastWriteFails(events[1..]) else e.Received? && e.req.id.Some? && !e.written
  }

  lemma {:induction false} RepliesOfConcat(a: seq<Frame>, b: seq<Frame>)
    ensures RepliesWithId(a + b) == RepliesWithId(a) + RepliesWithId(b)
  {
    if a == [] {
      assert a + b == b;
    } else {
      RepliesOfConcat(a[1..], b);
      assert (a + b)[0] == a[0] && (a + b)[1..] == a[1..] + b;
      var first, rest, more := ReplyIn(a[0]), RepliesWithId(a[1..]), RepliesWithId(b);
      assert first + (rest + more) == (first + rest) + more;
    }
  }

  /** The replies written are the answers owed, each once and in the order the
      requests arrived; only the last can be missing, when its write failed. */
  lemma {:induction false} AnswersOnceInOrder(events: seq<Event>)
    ensures RepliesWithId(Serve(events)) == if LastWriteFails(events) then Front(Owed(events)) else Owed(events)
    ensures LastWriteFails(events) ==> Owed(events) != []
  {
    if events != [] {
      if Handle(events[0]).1 {
        AnswersOnceInOrder(events[1..]);
        RepliesOfConcat(Handle(events[0]).0, Serve(events[1..]));
        FrontOfConcat(OwedFor(events[0]), Owed(events[1..]));
      } else {
        assert Serve(events) == Handle(events[0]).0;
        assert Owed(events) == OwedFor(events[0]);
      }
    }
  }

  lemma FrontOfConcat<T>(a: seq<T>, b: seq<T>)
    ensures b != [] ==> a + Front(b) == Front(a + b)
  {}

  function Front<T>(s: seq<T>): seq<T> {
    if s == [] then [] else s[..|s| - 1]
  }

  /** A frame that replies without an id reports a message that could not be
      parsed, and nothing follows it. */
  lemma {:induction false} OnlyParseErrorsLackAnId(events: seq<Event>, k: nat)
    requires k < |Serve(events)| && Serve(events)[k].Reply? && Serve(events)[k].response.id.None?
    ensures k == |Serve(events)| - 1
    ensures Serve(events)[k].response.error.Some? && Serve(events)[k].response.error.value.code == -32700
  {
    var (frames, goesOn) := Handle(events[0]);
    if k >= |frames| {
      OnlyParseErrorsLackAnId(events[1..], k - |frames|);
    }
  }
}

/** Concurrent calls, server replies, pushed notes and the end of a connection,
    in every interleaving. */
module RpcSession {
  import opened Domain
  import opened RpcServer
  import opened RpcClient

  datatype Phase = Writing | Waiting | Done(outcome: Outcome)

  /** A request the server took, with what its handler answered. */
  datatype Exchange = Exchange(req: Request, answer: Answer)

  datatype World = World(
    client: Client,
    phases: map<int, Phase>,
    requests: map<int, Request>,
    toServer: seq<Request>,
    served: seq<Exchange>,
    serverUp: bool,
    toClient: seq<Frame>)

  const START := World(FRESH, map[], map[], [], [], true, [])

  datatype Action =
    | Call(target: Method, params: Json)
    | Write(id: int)
    | WriteFails(id: int, arrived: bool)
    | Serves(answer: Answer, written: bool)
    | Pushes(note: Json, written: bool)
    | ServerStops
    | Reads
    | ReaderExits
    | Returns(id: int)

  /** One step; an action that is not possible changes nothing. */
  function Step(w: World, a: Action): World {
    match a
    case Call(target, params) =>
      var id := w.client.nextId;
      w.(client := Register(w.client), phases := w.phases[id := Writing],
         requests := w.requests[id := Request("2.0", Some(Number(id)), target, params)])
    case Write(id) =>
      if id in w.phases && w.phases[id].Writing? && id in w.requests then
        w.(phases := w.phases[id := Waiting], toServer := w.toServer + [w.requests[id]])
      else w
    case WriteFails(id, arrived) =>
      if id in w.phases && w.phases[id].Writing? && id in w.requests then
        w.(client := Abandon(w.client, id), phases := w.phases[id := Done(Io)],
           toServer := if arrived then w.toServer + [w.requests[id]] else w.toServer)
      else w
    case Serves(answer, written) =>
      if w.serverUp && w.toServer != [] then
        var (frames, goesOn) := Handle(Received(w.toServer[0], answer, written));
        w.(toServer := w.toServer[1..], served := w.served + [Exchange(w.toServer[0], answer)],
           toClient := w.toClient + frames, serverUp := goesOn)
      else w
    case Pushes(note, written) =>
      if w.serverUp then
        var (frames, goesOn) := Handle(Notified(Some(note), written));
        w.(toClient := w.toClient + frames, serverUp := goesOn)
      else w
    case ServerStops => w.(serverUp := false)
    case Reads =>
      if w.client.reading && w.toClient != [] then
        w.(client := Deliver(w.client, w.toClient[0]), toClient := w.toClient[1..])
      else w
    case ReaderExits => if w.client.reading then w.(client := Exit(w.client)) else w
    case Returns(id) =>
      if id in w.phases && w.phases[id].Waiting? && id in w.client.slots && !w.client.slots[id].Empty? then
        w.(phases := w.phases[id := Done(
          if w.client.slots[id].Holding? then OutcomeOf(w.client.slots[id].response) else Closed)])
      else w
  }

  function Run(w: World, actions: seq<Action>): World
    decreases |actions|
  {
    if actions == [] then w else Run(Step(w, actions[0]), actions[1..])
  }

  // ---- The invariant --------------------------------------------------------

  /** Every request that ever reached the server, in order of arrival. */
  function Arrived(w: World): seq<Request> {
    RequestsOf(w.served) + w.toServer
  }

  function RequestsOf(served: seq<Exchange>): seq<Request> {
    seq(|served|, i requires 0 <= i < |served| => served[i].req)
  }

  /** The reply some served exchange produced. */
  ghost predicate FromServed(w: World, r: Response) {
    exists k :: 0 <= k < |w.served| && Dispatch(w.served[k].req, w.served[k].answer) == Some(r)
  }

  /** A registered call: numbered below the counter, with its own request. */
  predicate Registered(w: World, id: int) {
    && id < w.client.nextId && id in w.requests && id in w.client.slots
    && w.requests[id].id == Some(Number(id)) && w.requests[id].jsonrpc == "2.0"
  }

  ghost predicate CallsRegistered(w: World) {
    && (forall id :: id in w.phases ==> Registered(w, id))
    && (forall id :: id in w.requests ==> id in w.phases)
    && (forall id :: id in w.client.slots ==> id in w.phases)
    && (forall id :: id in w.client.pending ==> id in w.client.slots && w.client.slots[id].Empty?)
  }

  predicate OwnRequest(w: World, r: Request) {
    && r.id.Some? && r.id.value.Number?
    && r.id.value.n in w.phases && !w.phases[r.id.value.n].Writing?
    && r.id.value.n in w.requests && w.requests[r.id.value.n] == r
  }

  /** Each request arrives at most once, after its call wrote it. */
  ghost predicate ArrivedOnce(w: World) {
    && (forall k :: 0 <= k < |Arrived(w)| ==> OwnRequest(w, Arrived(w)[k]))
    && (forall j, k :: 0 <= j < k < |Arrived(w)| ==> Arrived(w)[j] != Arrived(w)[k])
  }

  ghost predicate FramesFromServed(w: World) {
    forall k :: 0 <= k < |w.toClient| && w.toClient[k].Reply? ==> FromServed(w, w.toClient[k].response)
  }

  /** A reply off the wire to this very call. */
  ghost predicate OwnReply(w: World, id: int, r: Response) {
    exists k :: 0 <= k < |w.served| && AnswersCall(w, id, k)
                && r == OffTheWire(Dispatch(w.served[k].req, w.served[k].answer).value)
  }

  predicate AnswersCall(w: World, id: int, k: nat)
    requires k < |w.served|
  {
    id in w.requests && w.served[k].req == w.requests[id] && w.served[k].req.id.Some?
  }

  ghost predicate SlotsOwn(w: World) {
    forall id :: id in w.client.slots && w.client.slots[id].Holding? ==> OwnReply(w, id, w.client.slots[id].response)
  }

  ghost predicate OutcomeOwn(w: World, id: int, o: Outcome) {
    o.Closed? || o.Io? || exists r :: OwnReply(w, id, r) && o == OutcomeOf(r)
  }

  ghost predicate OutcomesOwn(w: World) {
    forall id :: id in w.phases && w.phases[id].Done? ==> OutcomeOwn(w, id, w.phases[id].outcome)
  }

  ghost predicate Consistent(w: World) {
    CallsRegistered(w) && ArrivedOnce(w) && FramesFromServed(w) && SlotsOwn(w) && OutcomesOwn(w)
  }

  // ---- Each step keeps it ---------------------------------------------------

  /** What never goes back: requests, exchanges and outcomes. */
  ghost predicate Extends(w: World, v: World) {
    && w.served <= v.served
    && (forall id :: id in w.requests ==> id in v.requests && v.requests[id] == w.requests[id])
  }

  lemma OutcomesExtend(w: World, v: World)
    requires Extends(w, v)
    ensures forall id, o :: OutcomeOwn(w, id, o) ==> OutcomeOwn(v, id, o)
    ensures forall id, r :: OwnReply(w, id, r) ==> OwnReply(v, id, r)
    ensures forall r :: FromServed(w, r) ==> FromServed(v, r)
  {}

  lemma StepExtends(w: World, a: Action)
    requires CallsRegistered(w)
    ensures Extends(w, Step(w, a))
  {}

  /** A reply served with a call's number is the reply to that call. */
  lemma ReplyIsOwn(w: World, r: Response, id: int)
    requires Consistent(w) && FromServed(w, r) && r.id == Some(Number(id))
    ensures OwnReply(w, id, OffTheWire(r))
  {
    var k :| 0 <= k < |w.served| && Dispatch(w.served[k].req, w.served[k].answer) == Some(r);
    assert Arrived(w)[k] == w.served[k].req;
    assert OwnRequest(w, w.served[k].req);
    assert AnswersCall(w, id, k);
  }

  lemma CallKeeps(w: World, target: Method, params: Json)
    requires Consistent(w)
    ensures Consistent(Step(w, Call(target, params)))
  {
    var v := Step(w, Call(target, params));
    StepExtends(w, Call(target, params));
    OutcomesExtend(w, v);
    assert w.client.nextId !in w.phases;
    assert Arrived(v) == Arrived(w);
    forall k | 0 <= k < |Arrived(v)|
      ensures OwnRequest(v, Arrived(v)[k])
    {
      assert OwnRequest(w, Arrived(w)[k]);
    }
  }

  lemma SendKeeps(w: World, a: Action)
    requires Consistent(w) && (a.Write? || a.WriteFails?)
    ensures Consistent(Step(w, a))
  {
    var v := Step(w, a);
    if v != w {
      StepExtends(w, a);
      OutcomesExtend(w, v);
      var r := w.requests[a.id];
      assert Registered(w, a.id);
      var sent := Arrived(v) != Arrived(w);
      assert v.toServer == w.toServer || v.toServer == w.toServer + [r];
      assert Arrived(v) == Arrived(w) || Arrived(v) == Arrived(w) + [r];
      forall k | 0 <= k < |Arrived(w)|
        ensures OwnRequest(v, Arrived(w)[k]) && Arrived(w)[k] != r
      {
        assert OwnRequest(w, Arrived(w)[k]);
      }
    }
  }

  lemma ServesKeeps(w: World, answer: Answer, written: bool)
    requires Consistent(w)
    ensures Consistent(Step(w, Serves(answer, written)))
  {
    var v := Step(w, Serves(answer, written));
    if w.serverUp && w.toServer != [] {
      StepExtends(w, Serves(answer, written));
      OutcomesExtend(w, v);
      var n := |w.served|;
      assert Arrived(v) == Arrived(w);
      forall k | 0 <= k < |Arrived(v)|
        ensures OwnRequest(v, Arrived(v)[k])
      {
        assert OwnRequest(w, Arrived(w)[k]);
      }
      forall k | 0 <= k < |v.toClient| && v.toClient[k].Reply?
        ensures FromServed(v, v.toClient[k].response)
      {
        if k < |w.toClient| {
          assert v.toClient[k] == w.toClient[k];
        } else {
          assert v.served[n] == Exchange(w.toServer[0], answer);
        }
      }
    }
  }

  lemma ReadsKeeps(w: World)
    requires Consistent(w)
    ensures Consistent(Step(w, Reads))
  {
    var v := Step(w, Reads);
    if w.client.reading && w.toClient != [] {
      StepExtends(w, Reads);
      OutcomesExtend(w, v);
      assert Arrived(v) == Arrived(w);
      forall k | 0 <= k < |Arrived(v)|
        ensures OwnRequest(v, Arrived(v)[k])
      {
        assert OwnRequest(w, Arrived(w)[k]);
      }
      var frame := w.toClient[0];
      if v.client.slots != w.client.slots {
        ReplyIsOwn(w, frame.response, frame.response.id.value.n);
      }
    }
  }

  lemma LocalKeeps(w: World, a: Action)
    requires Consistent(w) && (a.Pushes? || a.ServerStops? || a.ReaderExits? || a.Returns?)
    ensures Consistent(Step(w, a))
  {
    var v := Step(w, a);
    StepExtends(w, a);
    OutcomesExtend(w, v);
    assert Arrived(v) == Arrived(w);
    forall k | 0 <= k < |Arrived(v)|
      ensures OwnRequest(v, Arrived(v)[k])
    {
      assert OwnRequest(w, Arrived(w)[k]);
    }
  }

  lemma StepKeepsConsistent(w: World, a: Action)
    requires Consistent(w)
    ensures Consistent(Step(w, a))
  {
    match a {
      case Call(target, params) => CallKeeps(w, target, params);
      case Write(_) => SendKeeps(w, a);
      case WriteFails(_, _) => SendKeeps(w, a);
      case Serves(answer, written) => ServesKeeps(w, answer, written);
      case Reads => ReadsKeeps(w);
      case _ => LocalKeeps(w, a);
    }
  }

  lemma {:induction false} RunKeepsConsistent(w: World, actions: seq<Action>)
    requires Consistent(w)
    ensures Consistent(Run(w, actions))
    decreases |actions|
  {
    if actions != [] {
      StepKeepsConsistent(w, actions[0]);
      RunKeepsConsistent(Step(w, actions[0]), actions[1..]);
    }
  }

  // ---- Calls get their own replies, once ------------------------------------

  function CallerSees(req: Request, answer: Answer): Outcome {
    match Verdict(req, answer) case Answered(v) => Ok(v) case Refused(e) => Failed(e)
  }

  /** The server took this call's request once, and the caller sees what that one
      exchange answered. */
  ghost predicate AnsweredBy(w: World, id: int, o: Outcome, k: nat) {
    && k < |w.served| && id in w.requests && w.served[k].req == w.requests[id]
    && o == CallerSees(w.served[k].req, w.served[k].answer)
    && forall j :: 0 <= j < |w.served| && w.served[j].req.id == Some(Number(id)) ==> j == k
  }

  /** In every run, a call that completes was closed, could not be written, or
      sees the answer to its own request and to no other. */
  lemma CallSeesItsOwnAnswer(actions: seq<Action>, id: int)
    requires id in Run(START, actions).phases && Run(START, actions).phases[id].Done?
    ensures var w := Run(START, actions);
            var o := w.phases[id].outcome;
            o.Closed? || o.Io? || exists k: nat :: AnsweredBy(w, id, o, k)
  {
    var w := Run(START, actions);
    var o := w.phases[id].outcome;
    assert Consistent(START);
    RunKeepsConsistent(START, actions);
    if !o.Closed? && !o.Io? {
      var r :| OwnReply(w, id, r) && o == OutcomeOf(r);
      var k :| 0 <= k < |w.served| && AnswersCall(w, id, k)
               && r == OffTheWire(Dispatch(w.served[k].req, w.served[k].answer).value);
      AnswerSurvivesTheWire(w.served[k].req, w.served[k].answer);
      forall j | 0 <= j < |w.served| && w.served[j].req.id == Some(Number(id))
        ensures j == k
      {
        assert Arrived(w)[j] == w.served[j].req && Arrived(w)[k] == w.served[k].req;
        assert OwnRequest(w, Arrived(w)[j]);
      }
      assert AnsweredBy(w, id, o, k);
    }
  }

  /** A completed call stays as it completed. */
  lemma {:induction false} OutcomeIsFinal(w: World, actions: seq<Action>, id: int)
    requires Consistent(w) && id in w.phases && w.phases[id].Done?
    ensures id in Run(w, actions).phases && Run(w, actions).phases[id] == w.phases[id]
    decreases |actions|
  {
    if actions != [] {
      StepKeepsConsistent(w, actions[0]);
      OutcomeIsFinal(Step(w, actions[0]), actions[1..], id);
    }
  }

  // ---- When the reader has gone ---------------------------------------------

  /** With the reader gone, a channel stays as it is. */
  lemma {:induction false} SlotIsFinal(w: World, actions: seq<Action>, id: int)
    requires Consistent(w) && !w.client.reading && id in w.phases
    ensures var v := Run(w, actions);
            && Consistent(v) && !v.client.reading
            && id in v.client.slots && v.client.slots[id] == w.client.slots[id]
    decreases |actions|
  {
    if actions != [] {
      StepKeepsConsistent(w, actions[0]);
      SlotIsFinal(Step(w, actions[0]), actions[1..], id);
    }
  }

  ghost predicate Completes(w: World, actions: seq<Action>, id: int) {
    id in Run(w, actions).phases && Run(w, actions).phases[id].Done?
  }

  /** With the reader gone, a caller already waiting completes in some run exactly
      when its channel is not empty: a call registered after the reader exited
      waits for ever. */
  lemma WaiterCompletesIff(w: World, id: int)
    requires Consistent(w) && !w.client.reading && id in w.phases && w.phases[id].Waiting?
    ensures (exists actions :: Completes(w, actions, id)) <==> !w.client.slots[id].Empty?
  {
    if w.client.slots[id].Empty? {
      forall actions
        ensures !Completes(w, actions, id)
      {
        EmptyWaits(w, actions, id);
      }
    } else {
      assert Step(w, Returns(id)) == Run(Step(w, Returns(id)), []) == Run(w, [Returns(id)]) by {
        assert [Returns(id)][1..] == [];
      }
      assert Completes(w, [Returns(id)], id);
    }
  }

  lemma {:induction false} EmptyWaits(w: World, actions: seq<Action>, id: int)
    requires Consistent(w) && !w.client.reading
    requires id in w.phases && w.phases[id].Waiting? && w.client.slots[id].Empty?
    ensures !Completes(w, actions, id)
    decreases |actions|
  {
    if actions != [] {
      StepKeepsConsistent(w, actions[0]);
      EmptyWaits(Step(w, actions[0]), actions[1..], id);
    }
  }

  /** The call just registered and written. */
  function Made(w: World, target: Method, params: Json): World {
    Step(Step(w, Call(target, params)), Write(w.client.nextId))
  }

  lemma MadeWaits(w: World, target: Method, params: Json)
    requires Consistent(w)
    ensures var v, id := Made(w, target, params), w.client.nextId;
            && Consistent(v) && v.client.reading == w.client.reading
            && id in v.phases && v.phases[id].Waiting?
            && id in v.client.pending && v.client.slots[id].Empty?
  {
    StepKeepsConsistent(w, Call(target, params));
    StepKeepsConsistent(Step(w, Call(target, params)), Write(w.client.nextId));
  }

  /** The call is over, its channel was used, or the reader can still use it. */
  ghost predicate Servable(w: World, id: int) {
    && id in w.phases && id in w.client.slots
    && (w.phases[id].Done? || !w.client.slots[id].Empty? || (w.client.reading && id in w.client.pending))
  }

  lemma {:induction false} StaysServable(w: World, actions: seq<Action>, id: int)
    requires Consistent(w) && Servable(w, id)
    ensures Consistent(Run(w, actions)) && Servable(Run(w, actions), id)
    decreases |actions|
  {
    if actions != [] {
      StepKeepsConsistent(w, actions[0]);
      StaysServable(Step(w, actions[0]), actions[1..], id);
    }
  }

  lemma ServableCompletes(w: World, id: int)
    requires Consistent(w) && Servable(w, id) && w.phases[id].Waiting?
    ensures exists actions :: Completes(w, actions, id)
  {
    assert [ReaderExits, Returns(id)][1..] == [Returns(id)] && [Returns(id)][1..] == [];
    if w.client.slots[id].Empty? {
      var closed := Step(w, ReaderExits);
      assert closed.client.slots[id] == Dropped;
      assert Run(w, [ReaderExits, Returns(id)]) == Run(closed, [Returns(id)]) == Run(Step(closed, Returns(id)), []);
      assert Completes(w, [ReaderExits, Returns(id)], id);
    } else {
      assert Run(w, [Returns(id)]) == Run(Step(w, Returns(id)), []);
      assert Completes(w, [Returns(id)], id);
    }
  }

  /** A call that is registered and, whatever happens in between, written can
      complete if and only if the reader was running when it was registered:
      otherwise it waits for ever. */
  lemma CallCompletesIff(w: World, target: Method, params: Json, between: seq<Action>)
    requires Consistent(w)
    requires var u := Run(Step(w, Call(target, params)), between);
             w.client.nextId in u.phases && u.phases[w.client.nextId].Writing?
    ensures var u := Run(Step(w, Call(target, params)), between);
            var id := w.client.nextId;
            (exists actions :: Completes(Step(u, Write(id)), actions, id)) <==> w.client.reading
  {
    var id := w.client.nextId;
    var called := Step(w, Call(target, params));
    var u := Run(called, between);
    var v := Step(u, Write(id));
    StepKeepsConsistent(w, Call(target, params));
    RunKeepsConsistent(called, between);
    StepKeepsConsistent(u, Write(id));
    if w.client.reading {
      StaysServable(called, between, id);
      ServableCompletes(v, id);
    } else {
      SlotIsFinal(called, between, id);
      forall actions
        ensures !Completes(v, actions, id)
      {
        EmptyWaits(v, actions, id);
      }
    }
  }

  /** Reader exit closes every call then pending: whatever happens next, such a
      call can only end closed or, if it was still being written, with the write
      error; and once written it does end when it is next scheduled. */
  lemma ExitClosesPending(w: World, actions: seq<Action>, id: int)
    requires Consistent(w) && w.client.reading && id in w.client.pending && !w.phases[id].Done?
    ensures var v := Run(Step(w, ReaderExits), actions);
            && id in v.phases
            && (v.phases[id].Done? ==> v.phases[id].outcome.Closed? || v.phases[id].outcome.Io?)
            && (v.phases[id].Waiting? ==> Step(v, Returns(id)).phases[id] == Done(Closed))
  {
    var u := Step(w, ReaderExits);
    StepKeepsConsistent(w, ReaderExits);
    assert u.client.slots[id] == Dropped;
    DroppedCloses(u, actions, id);
  }

  lemma {:induction false} DroppedCloses(w: World, actions: seq<Action>, id: int)
    requires Consistent(w) && !w.client.reading && id in w.phases && w.client.slots[id].Dropped?
    requires w.phases[id].Done? ==> w.phases[id].outcome.Closed? || w.phases[id].outcome.Io?
    ensures var v := Run(w, actions);
            && id in v.phases
            && (v.phases[id].Done? ==> v.phases[id].outcome.Closed? || v.phases[id].outcome.Io?)
            && (v.phases[id].Waiting? ==> Step(v, Returns(id)).phases[id] == Done(Closed))
    decreases |actions|
  {
    if actions != [] {
      StepKeepsConsistent(w, actions[0]);
      SlotIsFinal(w, [actions[0]], id);
      assert Run(w, [actions[0]]) == Step(w, actions[0]) by {
        assert [actions[0]][1..] == [];
      }
      DroppedCloses(Step(w, actions[0]), actions[1..], id);
    }
  }
}

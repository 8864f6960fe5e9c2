/** The client's side of one connection: callers register a one-shot channel
    under a fresh id, and one reader delivers replies and closes what is left. */
module RpcClient {
  import opened Domain
  import opened RpcServer

  /** A one-shot channel: nothing yet, a reply, or its sender dropped. */
  datatype Slot = Empty | Holding(response: Response) | Dropped

  datatype Client = Client(nextId: int, pending: set<int>, slots: map<int, Slot>, reading: bool, notes: seq<Json>)

  const FRESH := Client(1, {}, map[], true, [])

  function Register(c: Client): Client {
    c.(nextId := c.nextId + 1, pending := c.pending + {c.nextId}, slots := c.slots[c.nextId := Empty])
  }

  /** A call whose request could not be written. */
  function Abandon(c: Client, id: int): Client {
    c.(pending := c.pending - {id})
  }

  /** What a reply looks like after the wire: a null result reads as none. */
  function OffTheWire(r: Response): Response {
    if r.result == Some(Null) then r.(result := None) else r
  }

  /** A reply with a numeric id goes to the caller waiting for it; pushed notes go
      to subscribers; every other frame is dropped. */
  function Deliver(c: Client, frame: Frame): Client {
    match frame
    case Reply(resp) =>
      if resp.id.Some? && resp.id.value.Number? && resp.id.value.n in c.pending then
        c.(pending := c.pending - {resp.id.value.n}, slots := c.slots[resp.id.value.n := Holding(OffTheWire(resp))])
      else c
    case Push(note) => c.(notes := c.notes + [note])
  }

  function DeliverAll(c: Client, frames: seq<Frame>): Client
    decreases |frames|
  {
    if frames == [] then c else DeliverAll(Deliver(c, frames[0]), frames[1..])
  }

  /** The reader stops: every sender still pending is dropped. */
  function Exit(c: Client): Client {
    Client(c.nextId, {}, map id | id in c.slots :: if id in c.pending then Dropped else c.slots[id], false, c.notes)
  }

  datatype Outcome = Ok(value: Json) | Failed(error: RpcError) | Closed | Io

  function OutcomeOf(r: Response): Outcome {
    if r.error.Some? then Failed(r.error.value)
    else Ok(if r.result.Some? then r.result.value else Null)
  }

  /** The caller gets back what the dispatcher answered, a null included. */
  lemma AnswerSurvivesTheWire(req: Request, answer: Answer)
    requires req.id.Some?
    ensures OutcomeOf(OffTheWire(Dispatch(req, answer).value))
            == match Verdict(req, answer) case Answered(v) => Ok(v) case Refused(e) => Failed(e)
  {}

  /** A call gets the next id, an empty channel and a place among the pending; one
      whose request cannot be written loses that place, so that no reply reaches
      it. */
  lemma CallEffect(c: Client, resp: Response)
    requires c.nextId !in c.pending && resp.id == Some(Number(c.nextId))
    ensures var called := Register(c);
            && called == c.(nextId := c.nextId + 1, pending := called.pending, slots := c.slots[c.nextId := Empty])
            && called.pending == c.pending + {c.nextId}
            && Deliver(called, Reply(resp)).pending == c.pending
    ensures var abandoned := Abandon(Register(c), c.nextId);
            && abandoned == Register(c).(pending := c.pending)
            && Deliver(abandoned, Reply(resp)) == abandoned
  {
    assert c.pending + {c.nextId} - {c.nextId} == c.pending;
  }

  function NotesIn(frames: seq<Frame>): seq<Json> {
    if frames == [] then []
    else (if frames[0].Push? then [frames[0].note] else []) + NotesIn(frames[1..])
  }

  /** Pushed notes reach the subscribers, all of them and in order, and nothing
      else does. */
  lemma {:induction false} NotesEffect(c: Client, frames: seq<Frame>)
    ensures DeliverAll(c, frames).notes == c.notes + NotesIn(frames)
    decreases |frames|
  {
    if frames != [] {
      NotesEffect(Deliver(c, frames[0]), frames[1..]);
    }
  }

  /** A reply with the id of a pending call goes to that call alone, and ends its
      wait; any other reply changes nothing. */
  lemma DeliverEffect(c: Client, resp: Response)
    ensures var c' := Deliver(c, Reply(resp));
            if exists id :: id in c.pending && resp.id == Some(Number(id)) then
              var id := resp.id.value.n;
              && c' == c.(pending := c.pending - {id}, slots := c'.slots)
              && id in c'.slots && c'.slots == c.slots[id := c'.slots[id]] && c'.slots[id].Holding?
              && c'.slots[id].response.id == resp.id && c'.slots[id].response.error == resp.error
              && c'.slots[id].response.result == if resp.result == Some(Null) then None else resp.result
            else c' == c
  {}

  method Pick<T>(s: set<T>) returns (x: T)
    requires |s| > 0
    ensures x in s
  {
    x :| x in s;
  }

  class Connection {
    var nextId: int
    var pending: set<int>
    var slots: map<int, Slot>
    var reading: bool
    var notes: seq<Json>

    ghost predicate Valid()
      reads this
    {
      pending <= slots.Keys
    }

    function State(): Client
      reads this
    {
      Client(nextId, pending, slots, reading, notes)
    }

    constructor ()
      ensures Valid() && State() == FRESH
    {
      nextId, pending, slots, reading, notes := 1, {}, map[], true, [];
    }

    method BeginCall() returns (id: int)
      requires Valid()
      modifies this
      ensures Valid() && id == old(nextId) && State() == Register(old(State()))
    {
      id := nextId;
      nextId := nextId + 1;
      slots := slots[id := Empty];
      pending := pending + {id};
    }

    method AbandonCall(id: int)
      requires Valid()
      modifies this
      ensures Valid() && State() == Abandon(old(State()), id)
    {
      pending := pending - {id};
    }

    /** A call up to its wait: it stays registered only if its request could be
        written. */
    method StartCall(written: bool) returns (id: int)
      requires Valid()
      modifies this
      ensures Valid() && id == old(nextId)
      ensures State() == if written then Register(old(State())) else Abandon(Register(old(State())), id)
    {
      id := BeginCall();
      if !written {
        AbandonCall(id);
      }
    }

    /** Reads frames until the connection ends, then closes what is pending. */
    method ReaderLoop(frames: seq<Frame>)
      requires Valid()
      modifies this
      ensures Valid() && State() == Exit(DeliverAll(old(State()), frames))
    {
      var i := 0;
      while i < |frames|
        invariant 0 <= i <= |frames| && Valid()
        invariant DeliverAll(State(), frames[i..]) == DeliverAll(old(State()), frames)
      {
        assert frames[i..][1..] == frames[i + 1..];
        match frames[i] {
          case Reply(resp) =>
            if resp.id.Some? && resp.id.value.Number? {
              var id := resp.id.value.n;
              if id in pending {
                pending := pending - {id};
                slots := slots[id := Holding(OffTheWire(resp))];
              }
            }
          case Push(note) =>
            notes := notes + [note];
        }
        i := i + 1;
      }
      assert frames[i..] == [];
      DropPending();
    }

    /** The reader has stopped: drop every sender still pending. */
    method DropPending()
      requires Valid()
      modifies this
      ensures Valid() && State() == Exit(old(State()))
    {
      ghost var last := State();
      reading := false;
      var drained := pending;
      pending := {};
      while |drained| > 0
        invariant pending == {} && !reading && nextId == last.nextId && notes == last.notes
        invariant drained <= last.pending && slots.Keys == last.slots.Keys
        invariant forall id :: id in slots ==>
                    slots[id] == if id in last.pending && id !in drained then Dropped else last.slots[id]
        decreases |drained|
      {
        var k := Pick(drained);
        drained := drained - {k};
        slots := slots[k := Dropped];
      }
      assert forall id :: id in slots ==> slots[id] == Exit(last).slots[id];
      assert slots == Exit(last).slots;
    }
  }
}

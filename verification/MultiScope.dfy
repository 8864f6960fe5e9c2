/** Memories with several scopes. Two unresolved conflicts can then share two
    memories, and picking a different one in each makes them supersede one
    another: superseded_by has a cycle and both facts are gone. One event with
    four candidates is enough to reach such conflicts. */
module MultiScope {
  import opened Domain
  import opened Tables
  import opened Engines
  import opened IndexInvariant
  import opened Conflicts
  import opened WorkerCoverage
  import opened ResolutionCoverage
  import opened Supersession
  import opened OneScope
  import opened Extraction
  import Checkpoint

  /** Picking x in one conflict and y in another that both hold x and y. */
  lemma CrossedPicksCycle(st: Engine, i: nat, j: nat, x: MemoryId, y: MemoryId, now: int)
    requires Grounded(st.db) && i != j && x != y
    requires OpenMember(st.db, i, x) && OpenMember(st.db, i, y)
    requires OpenMember(st.db, j, x) && OpenMember(st.db, j, y)
    ensures var first := ResolveConflict(st, st.db.conflicts[i].id, Pick(x), now);
            var second := ResolveConflict(first.state, st.db.conflicts[j].id, Pick(y), now);
            && first.Done? && second.Done?
            && second.state.db.memories.Keys == st.db.memories.Keys
            && second.state.db.memories[x].supersededBy == Some(y)
            && second.state.db.memories[y].supersededBy == Some(x)
            && !Forest(second.state.db.memories)
            && (forall id :: id in st.db.conflicts[i].members ==> !Active(second.state.db.memories[id]))
  {
    PickEffect(st, i, x, now);
    var first := ResolveConflict(st, st.db.conflicts[i].id, Pick(x), now).state;
    ResolveKeepsGrounded(st, st.db.conflicts[i].id, Pick(x), now);
    PickEffect(first, j, y, now);
    var second := ResolveConflict(first, st.db.conflicts[j].id, Pick(y), now).state;
    CrossedRedirects(st.db.memories, first.db.memories, second.db.memories,
                     Losers(st.db.conflicts[i].members, x), Losers(st.db.conflicts[j].members, y), x, y);
  }

  /** Two redirections, each making the other's winner a loser. */
  lemma CrossedRedirects(m0: MemoryTable, m1: MemoryTable, m2: MemoryTable,
                         losers1: set<MemoryId>, losers2: set<MemoryId>, x: MemoryId, y: MemoryId)
    requires x in m0 && y in m0 && y in losers1 && x in losers2 && y !in losers2
    requires Redirected(m0, m1, losers1, x) && Redirected(m1, m2, losers2, y)
    ensures m2[x].supersededBy == Some(y) && m2[y].supersededBy == Some(x)
    ensures !Forest(m2)
    ensures forall id :: id in m0 && (id == x || id in losers1) ==> id in m2 && !Active(m2[id])
  {
    assert x in m0.Keys && y in m0.Keys;
    if Forest(m2) {
      assert Rooted(m2, x);
      var n: nat :| RootedWithin(m2, x, n);
      CycleHasNoRoot(m2, x, y, n);
    }
  }

  /** A pick that is accepted redirects every other member to the winner and
      closes exactly that conflict. */
  lemma PickEffect(st: Engine, k: nat, winner: MemoryId, now: int)
    requires Grounded(st.db) && OpenMember(st.db, k, winner)
    ensures var o := ResolveConflict(st, st.db.conflicts[k].id, Pick(winner), now);
            var c := st.db.conflicts[k];
            && o.Done?
            && Redirected(st.db.memories, o.state.db.memories, Losers(c.members, winner), winner)
            && o.state.db.conflicts == st.db.conflicts[k := c.(resolution := Picked, resolvedAt := Some(now))]
  {
    var c := st.db.conflicts[k];
    assert forall id :: id in c.members ==> id in st.db.memories;
    RetireAllShrinks(st, c.members, LosesTo(winner), now);
    RetireAllRelation(st, c.members, LosesTo(winner), now);
  }

  lemma {:induction false} CycleHasNoRoot(memories: MemoryTable, x: MemoryId, y: MemoryId, n: nat)
    requires x in memories && y in memories
    requires memories[x].supersededBy == Some(y) && memories[y].supersededBy == Some(x)
    ensures !RootedWithin(memories, x, n)
    decreases n
  {
    if n >= 2 {
      CycleHasNoRoot(memories, x, y, n - 2);
    }
  }

  // ---- A run that reaches it ------------------------------------------------

  /** The user says that the parser uses some tool, in some scopes: one event,
      with one candidate. */
  function Said(scope: Scope, tool: string, id: nat): Minted {
    Minted(Stated(Claim, scope, id, "The " + "parser" + " uses " + tool, "parser", "uses", tool),
           id, id, 0, Some([0, id + 1]))
  }

  const X := Said(["a", "b"], "Nom", 0)
  const Y := Said(["a"], "Pest", 1)
  const Z := Said(["b"], "Logos", 2)
  const U := Said(["a", "b"], "Lalrpop", 3)

  function EventOf(w: Minted): Event {
    Event(EventKey(w.memoryId, w.memoryId), w.candidate.text)
  }

  /** The candidate each of the four events yields. */
  function Talk(e: Event): seq<Minted> {
    match e.key.id
    case 0 => [X]
    case 1 => [Y]
    case 2 => [Z]
    case 3 => [U]
    case _ => []
  }

  lemma SaidIsExtracted(scope: Scope, tool: string, id: nat, e: Event)
    requires e.key.id == id
    ensures FromOneText(e, [Said(scope, tool, id)])
  {
    var c := NOTHING.(uses := Some(("parser", tool)));
    assert Specific(scope, id, c) == [Said(scope, tool, id).candidate];
    assert CandidatesOf([Said(scope, tool, id)]) == Extract(scope, id, c);
  }

  lemma TalkIsSpoken()
    ensures Spoken(Talk)
  {
    forall e
      ensures FromOneText(e, Talk(e))
    {
      match e.key.id
      case 0 => SaidIsExtracted(["a", "b"], "Nom", 0, e);
      case 1 => SaidIsExtracted(["a"], "Pest", 1, e);
      case 2 => SaidIsExtracted(["b"], "Logos", 2, e);
      case 3 => SaidIsExtracted(["a", "b"], "Lalrpop", 3, e);
      case _ =>
        assert Extract([], e.key.id, NOTHING) == [];
        assert CandidatesOf([]) == Extract([], e.key.id, NOTHING);
    }
  }

  function Row(w: Minted): Memory {
    ToMemory(w, 0.92, false)
  }

  /** The embedder takes the memory's text and the index has its dimension. */
  predicate Embeds(st: Engine, m: Memory) {
    var vector := st.embedder.embed(ComposeText(m));
    vector.Some? && |vector.value| == st.index.dim
  }

  predicate Takes(st: Engine, w: Minted) {
    Embeds(st, Row(w))
  }

  /** The embedder takes the four claims. */
  predicate Works(st: Engine) {
    Takes(st, X) && Takes(st, Y) && Takes(st, Z) && Takes(st, U)
  }

  ghost predicate SameEmbedder(st: Engine, st': Engine) {
    st'.embedder == st.embedder && st'.index.dim == st.index.dim
  }

  /** The tables after one more claim: its row, and its contradictions filed. */
  ghost predicate Heard(db: Db, db': Db, w: Minted) {
    && Grounded(db')
    && db'.memories == db.memories[w.memoryId := Row(w)]
    && (if Uncontradicted(db, Row(w)) then db'.conflicts == db.conflicts
        else exists k :: FiledAt(db.conflicts, db'.conflicts, k, w, Detect(db, w.candidate)))
  }

  /** The engine after the event that states the claim is drained. */
  function Told(st: Engine, w: Minted): Engine {
    DrainEvent(st, EventOf(w), [w])
  }

  lemma EventOfOne(st: Engine, w: Minted)
    ensures ProcessEvent(st, [w]) == ProcessCandidate(st, w)
  {
    var o := ProcessCandidate(st, w);
    assert [w][1..] == [];
    assert ProcessEvent(o.state, []) == Done(o.state);
  }

  /** Draining the event does to the tables what processing the claim does. */
  lemma ToldTables(st: Engine, w: Minted)
    ensures var o, st' := ProcessCandidate(st, w), Told(st, w);
            && st'.db.memories == o.state.db.memories && st'.db.order == o.state.db.order
            && st'.db.conflicts == o.state.db.conflicts && st'.db.rows == o.state.db.rows
            && st'.index == o.state.index && st'.embedder == o.state.embedder
            && (Grounded(st'.db) <==> Grounded(o.state.db)) && (Covered(st'.db) <==> Covered(o.state.db))
  {
    EventOfOne(st, w);
    GroundedDependsOnTables(ProcessCandidate(st, w).state.db, Told(st, w).db);
  }

  lemma SaidEffect(st: Engine, scope: Scope, tool: string, id: nat)
    requires Grounded(st.db) && Takes(st, Said(scope, tool, id)) && id !in st.db.memories
    requires forall i :: 0 <= i < |st.db.conflicts| ==> st.db.conflicts[i].id != id
    ensures var w := Said(scope, tool, id);
            && ProcessCandidate(st, w).Done?
            && SameEmbedder(st, Told(st, w)) && Heard(st.db, Told(st, w).db, w)
  {
    var w := Said(scope, tool, id);
    var m := Row(w);
    SaidIsPromoted(w);
    CandidateKeepsGrounded(st, w);
    DetectIsContradiction(st.db, w.candidate, m);
    if Detect(st.db, w.candidate) != [] {
      SaidIsFiled(st, w);
    } else {
      RememberTables(st, m, w.linked);
    }
    ToldTables(st, w);
  }

  predicate Asserted(w: Minted) {
    w == Said(w.candidate.scope, if w.candidate.obj.Some? then w.candidate.obj.value else "", w.memoryId)
  }

  lemma SaidIsPromoted(w: Minted)
    requires Asserted(w)
    ensures ComputeConfidence(w.candidate) == 0.92 && Decide(w.candidate, 0.92) == Promote
  {}

  lemma SaidIsFiled(st: Engine, w: Minted)
    requires Asserted(w) && Grounded(st.db) && Takes(st, w) && w.memoryId !in st.db.memories
    requires forall i :: 0 <= i < |st.db.conflicts| ==> st.db.conflicts[i].id != w.conflictId
    requires Detect(st.db, w.candidate) != []
    ensures var o := ProcessCandidate(st, w);
            && o.Done? && SameEmbedder(st, o.state) && o.state.db.memories == st.db.memories[w.memoryId := Row(w)]
            && exists k :: FiledAt(st.db.conflicts, o.state.db.conflicts, k, w, Detect(st.db, w.candidate))
  {
    SaidIsPromoted(w);
    RememberTables(st, Row(w), w.linked);
    RecordConflictFiles(st, w, Detect(st.db, w.candidate));
    var k := FiledSomewhere(st.db.conflicts, w, Detect(st.db, w.candidate));
  }

  lemma Meets()
    ensures Intersects(["a", "b"], ["a"]) && Intersects(["a"], ["a", "b"])
    ensures Intersects(["a", "b"], ["b"]) && Intersects(["b"], ["a", "b"])
    ensures Intersects(["a", "b"], ["a", "b"])
    ensures !Intersects(["a"], ["b"]) && !Intersects(["b"], ["a"])
  {
    assert "a" in ["a", "b"] && "b" in ["a", "b"] && "a" in ["a"] && "b" in ["b"];
    assert "a"[0] != "b"[0];
  }

  /** What hearing a claim that some stored claim contradicts does. */
  lemma HeardContested(db: Db, db': Db, w: Minted, other: MemoryId) returns (k: nat)
    requires Grounded(db) && HasSpo(w.candidate) && w.candidate.kind == Claim && Heard(db, db', w)
    requires ActiveIn(db, other) && Contradict(db.memories[other], Row(w))
    ensures FiledAt(db.conflicts, db'.conflicts, k, w, Detect(db, w.candidate))
    ensures forall id :: ActiveIn(db, id) && Contradict(db.memories[id], Row(w)) ==> id in db'.conflicts[k].members
  {
    DetectIsContradiction(db, w.candidate, Row(w));
    k :| FiledAt(db.conflicts, db'.conflicts, k, w, Detect(db, w.candidate));
    forall id | ActiveIn(db, id) && Contradict(db.memories[id], Row(w))
      ensures id in db'.conflicts[k].members
    {
      assert db.memories[id] in Detect(db, w.candidate);
    }
  }

  ghost predicate OnTopic(c: Conflict, scope: Scope) {
    c.resolution == Unresolved && c.scope == scope && c.subj == Some("parser") && c.pred == Some("uses")
  }

  ghost predicate HeardX(db: Db) {
    Grounded(db) && db.memories == map[0 := Row(X)] && db.conflicts == []
  }

  ghost predicate HeardY(db: Db) {
    && Grounded(db) && db.memories == map[0 := Row(X), 1 := Row(Y)]
    && |db.conflicts| == 1 && OnTopic(db.conflicts[0], ["a"]) && db.conflicts[0].id == 1
    && 0 in db.conflicts[0].members && 1 in db.conflicts[0].members
  }

  ghost predicate HeardZ(db: Db) {
    && Grounded(db) && db.memories == map[0 := Row(X), 1 := Row(Y), 2 := Row(Z)]
    && |db.conflicts| == 2 && OnTopic(db.conflicts[0], ["a"]) && OnTopic(db.conflicts[1], ["b"])
    && db.conflicts[0].id == 1 && db.conflicts[1].id == 2
    && 0 in db.conflicts[0].members && 1 in db.conflicts[0].members
    && 0 in db.conflicts[1].members && 2 in db.conflicts[1].members
  }

  /** Both unresolved conflicts hold X and Z; the first holds everything. */
  ghost predicate HeardU(db: Db) {
    && Grounded(db) && db.memories == map[0 := Row(X), 1 := Row(Y), 2 := Row(Z), 3 := Row(U)]
    && OpenMember(db, 0, 0) && OpenMember(db, 0, 2) && OpenMember(db, 1, 0) && OpenMember(db, 1, 2)
    && OpenMember(db, 0, 1) && OpenMember(db, 0, 3)
    && |db.conflicts| == 2 && db.conflicts[0].id == 1 && db.conflicts[1].id == 2
    && OnTopic(db.conflicts[0], ["a"]) && 3 !in db.conflicts[1].members
  }

  lemma HearX(st: Engine)
    requires Grounded(st.db) && Takes(st, X) && st.db.memories == map[] && st.db.conflicts == []
    ensures ProcessCandidate(st, X).Done? && SameEmbedder(st, Told(st, X)) && HeardX(Told(st, X).db)
  {
    SaidEffect(st, ["a", "b"], "Nom", 0);
  }

  lemma HearY(st: Engine)
    requires Takes(st, Y) && HeardX(st.db)
    ensures ProcessCandidate(st, Y).Done? && SameEmbedder(st, Told(st, Y)) && HeardY(Told(st, Y).db)
  {
    Meets();
    SaidEffect(st, ["a"], "Pest", 1);
    var k := HeardContested(st.db, Told(st, Y).db, Y, 0);
  }

  lemma HearZ(st: Engine)
    requires Takes(st, Z) && HeardY(st.db)
    ensures SameEmbedder(st, Told(st, Z)) && HeardZ(Told(st, Z).db)
  {
    Meets();
    SaidEffect(st, ["b"], "Logos", 2);
    var k := HeardContested(st.db, Told(st, Z).db, Z, 0);
    assert k == 1;
  }

  lemma HearU(st: Engine)
    requires Takes(st, U) && HeardZ(st.db)
    ensures HeardU(Told(st, U).db)
  {
    Meets();
    SaidEffect(st, ["a", "b"], "Lalrpop", 3);
    var k := HeardContested(st.db, Told(st, U).db, U, 0);
    HearUnderFirst(st.db, Told(st, U).db, k);
  }

  lemma HearUnderFirst(db: Db, db': Db, k: nat)
    requires HeardZ(db) && Grounded(db') && db'.memories == db.memories[3 := Row(U)]
    requires FiledAt(db.conflicts, db'.conflicts, k, U, Detect(db, U.candidate))
    requires forall id :: ActiveIn(db, id) && Contradict(db.memories[id], Row(U)) ==> id in db'.conflicts[k].members
    ensures HeardU(db')
  {
    Meets();
    assert Contradict(db.memories[1], Row(U)) && Contradict(db.memories[2], Row(U));
    assert SameTopic(db.conflicts[0], db'.conflicts[k]) && !(0 < k);
  }

  lemma FourClaims(st: Engine)
    requires Grounded(st.db) && Works(st) && st.db.memories == map[] && st.db.conflicts == []
    ensures HeardU(Told(Told(Told(Told(st, X), Y), Z), U).db)
  {
    HearX(st);
    HearY(Told(st, X));
    HearZ(Told(Told(st, X), Y));
    HearU(Told(Told(Told(st, X), Y), Z));
  }

  // ---- From the log to the claims -------------------------------------------

  /** A fresh daemon with events waiting in its log. */
  function Logged(embedder: Embedder, events: seq<Event>): Engine {
    Boot(embedder).(db := EMPTY_DB.(events := events))
  }

  lemma {:induction false} RunConcat(st: Engine, a: seq<Op>, b: seq<Op>)
    ensures Run(st, a + b) == Run(Run(st, a), b)
    decreases |a|
  {
    if a == [] {
      assert a + b == b;
    } else {
      assert (a + b)[0] == a[0] && (a + b)[1..] == a[1..] + b;
      RunConcat(Step(st, a[0]), a[1..], b);
    }
  }

  lemma RunOne(st: Engine, a: Op)
    ensures Run(st, [a]) == Step(st, a)
  {
    assert [a][1..] == [];
    assert Run(Step(st, a), []) == Step(st, a);
  }

  lemma RunTwo(st: Engine, a: Op, b: Op)
    ensures Run(st, [a, b]) == Step(Step(st, a), b)
  {
    assert [a] + [b] == [a, b];
    RunConcat(st, [a], [b]);
    RunOne(st, a);
    RunOne(Step(st, a), b);
  }

  const DISPUTE: seq<Op> := [OpAppend(EventOf(X)), OpAppend(EventOf(Y)), OpDrain(Talk)]
  const TALK: seq<Op> :=
    [OpAppend(EventOf(X)), OpAppend(EventOf(Y))] + [OpAppend(EventOf(Z)), OpAppend(EventOf(U))] + [OpDrain(Talk)]

  /** Nothing is checkpointed yet, so a drain takes the whole log. */
  lemma DrainTakesLog(st: Engine)
    requires Checkpoint.Increasing(st.db.events) && |st.db.events| < BATCH_SIZE && st.db.checkpoint == None
    ensures Drain(st, Talk) == DrainEvents(st, st.db.events, Talk)
  {
    Checkpoint.EventsAfterIsSlice(st.db.events, 0, BATCH_SIZE);
    assert st.db.events[0..] == st.db.events;
  }

  lemma DrainOne(st: Engine, w: Minted, rest: seq<Event>)
    requires Talk(EventOf(w)) == [w]
    ensures DrainEvents(st, [EventOf(w)] + rest, Talk) == DrainEvents(Told(st, w), rest, Talk)
  {
    assert ([EventOf(w)] + rest)[1..] == rest;
  }

  lemma DisputeDrained(st: Engine)
    requires st.db.events == [EventOf(X), EventOf(Y)] && st.db.checkpoint == None
    ensures Drain(st, Talk) == Told(Told(st, X), Y)
  {
    DrainTakesLog(st);
    assert [EventOf(X), EventOf(Y)] == [EventOf(X)] + [EventOf(Y)] && [EventOf(Y)] == [EventOf(Y)] + [];
    DrainOne(st, X, [EventOf(Y)]);
    DrainOne(Told(st, X), Y, []);
  }

  lemma TalkDrained(st: Engine)
    requires st.db.events == [EventOf(X), EventOf(Y), EventOf(Z), EventOf(U)] && st.db.checkpoint == None
    ensures Drain(st, Talk) == Told(Told(Told(Told(st, X), Y), Z), U)
  {
    DrainTakesLog(st);
    assert st.db.events == [EventOf(X)] + [EventOf(Y), EventOf(Z), EventOf(U)];
    assert [EventOf(Y), EventOf(Z), EventOf(U)] == [EventOf(Y)] + [EventOf(Z), EventOf(U)];
    assert [EventOf(Z), EventOf(U)] == [EventOf(Z)] + [EventOf(U)] && [EventOf(U)] == [EventOf(U)] + [];
    DrainOne(st, X, [EventOf(Y), EventOf(Z), EventOf(U)]);
    DrainOne(Told(st, X), Y, [EventOf(Z), EventOf(U)]);
    DrainOne(Told(Told(st, X), Y), Z, [EventOf(U)]);
    DrainOne(Told(Told(Told(st, X), Y), Z), U, []);
  }

  lemma TwoAppends(embedder: Embedder)
    ensures Run(Boot(embedder), [OpAppend(EventOf(X)), OpAppend(EventOf(Y))])
            == Logged(embedder, [EventOf(X), EventOf(Y)])
  {
    RunTwo(Boot(embedder), OpAppend(EventOf(X)), OpAppend(EventOf(Y)));
    assert EMPTY_DB.events + [EventOf(X)] == [EventOf(X)];
    assert Step(Boot(embedder), OpAppend(EventOf(X))) == Logged(embedder, [EventOf(X)]);
    assert [EventOf(X)] + [EventOf(Y)] == [EventOf(X), EventOf(Y)];
  }

  lemma DisputeRuns(embedder: Embedder)
    ensures Run(Boot(embedder), DISPUTE) == Told(Told(Logged(embedder, [EventOf(X), EventOf(Y)]), X), Y)
  {
    TwoAppends(embedder);
    assert DISPUTE == [OpAppend(EventOf(X)), OpAppend(EventOf(Y))] + [OpDrain(Talk)];
    RunConcat(Boot(embedder), [OpAppend(EventOf(X)), OpAppend(EventOf(Y))], [OpDrain(Talk)]);
    RunOne(Logged(embedder, [EventOf(X), EventOf(Y)]), OpDrain(Talk));
    DisputeDrained(Logged(embedder, [EventOf(X), EventOf(Y)]));
  }

  lemma TalkRuns(embedder: Embedder)
    ensures var st := Logged(embedder, [EventOf(X), EventOf(Y), EventOf(Z), EventOf(U)]);
            Run(Boot(embedder), TALK) == Told(Told(Told(Told(st, X), Y), Z), U)
  {
    var two := Logged(embedder, [EventOf(X), EventOf(Y)]);
    var four := Logged(embedder, [EventOf(X), EventOf(Y), EventOf(Z), EventOf(U)]);
    TwoAppends(embedder);
    RunTwo(two, OpAppend(EventOf(Z)), OpAppend(EventOf(U)));
    assert [EventOf(X), EventOf(Y)] + [EventOf(Z)] == [EventOf(X), EventOf(Y), EventOf(Z)];
    assert Step(two, OpAppend(EventOf(Z))) == Logged(embedder, [EventOf(X), EventOf(Y), EventOf(Z)]);
    assert [EventOf(X), EventOf(Y), EventOf(Z)] + [EventOf(U)] == four.db.events;
    RunConcat(Boot(embedder), [OpAppend(EventOf(X)), OpAppend(EventOf(Y))],
              [OpAppend(EventOf(Z)), OpAppend(EventOf(U))]);
    RunConcat(Boot(embedder),
              [OpAppend(EventOf(X)), OpAppend(EventOf(Y))] + [OpAppend(EventOf(Z)), OpAppend(EventOf(U))],
              [OpDrain(Talk)]);
    RunOne(four, OpDrain(Talk));
    TalkDrained(four);
  }

  lemma TalkHeard(embedder: Embedder)
    requires Works(Boot(embedder))
    ensures HeardU(Run(Boot(embedder), TALK).db)
  {
    TalkRuns(embedder);
    FourClaims(Logged(embedder, [EventOf(X), EventOf(Y), EventOf(Z), EventOf(U)]));
  }

  // ---- The picks ------------------------------------------------------------

  const PICKS: seq<Op> := [OpResolve(1, Pick(0), 0), OpResolve(2, Pick(2), 0)]

  ghost predicate Wreck(db: Db) {
    && db.memories.Keys == {0, 1, 2, 3}
    && !Forest(db.memories)
    && forall id :: id in db.memories ==> !Active(db.memories[id])
  }

  lemma HeardByAll(db: Db)
    requires HeardU(db)
    ensures db.memories.Keys == {0, 1, 2, 3}
    ensures db.conflicts[0].id == 1 && db.conflicts[1].id == 2
    ensures forall id :: id in db.memories ==> id in db.conflicts[0].members
  {}

  lemma PicksWreck(st: Engine)
    requires HeardU(st.db)
    ensures Wreck(Step(Step(st, OpResolve(1, Pick(0), 0)), OpResolve(2, Pick(2), 0)).db)
  {
    HeardByAll(st.db);
    CrossedPicksCycle(st, 0, 1, 0, 2, 0);
    var first := Step(st, OpResolve(1, Pick(0), 0));
    assert first == ResolveConflict(st, 1, Pick(0), 0).state;
    assert Step(first, OpResolve(2, Pick(2), 0)) == ResolveConflict(first, 2, Pick(2), 0).state;
  }

  /** The counterexample: on a fresh daemon with a working embedder, four events
      of one claim each, one drain and two picks leave a cycle and no active
      memory at all. */
  lemma CycleIsReachable(embedder: Embedder)
    requires Works(Boot(embedder))
    ensures Spoken(Talk) && Wreck(Run(Boot(embedder), TALK + PICKS).db)
  {
    TalkIsSpoken();
    TalkHeard(embedder);
    var st := Run(Boot(embedder), TALK);
    PicksWreck(st);
    RunConcat(Boot(embedder), TALK, PICKS);
    RunTwo(st, PICKS[0], PICKS[1]);
  }
}

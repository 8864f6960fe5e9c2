/** Assembling a context package: three sources merged by memory id, scored,
    sorted, bucketed by kind and fitted to a token budget. The neighbours the
    graph returns, the entities the query names and the order in which the hash
    map of merged items is walked are inputs. */
module ReadPath {
  import opened Domain
  import opened Sorting
  import opened Tables
  import opened VectorIndexes
  import opened Engines

  const RECENT_WINDOW: nat := 32
  const ENTITY_PER_HIT_LIMIT: nat := 16

  datatype Source = FromVector | FromEntity | FromRecent

  datatype WorkItem = WorkItem(
    memory: Memory, sources: set<Source>, similarity: Option<real>, entityMatch: bool)

  datatype Lens = Lens(
    minConfidence: real,
    claimWeight: real, decisionWeight: real, preferenceWeight: real, episodeWeight: real,
    maxPerKind: nat)

  datatype Scoring = Scoring(
    vectorWeight: real, entityWeight: real, recencyWeight: real, confidenceWeight: real, halfLife: real)

  /** Recency as a function of the decay constant and the age in seconds. */
  type Decay = (real, int) -> real

  datatype Request = Request(
    scope: Scope, lens: Lens, tokenBudget: nat,
    neighbours: seq<Neighbour>, anchors: seq<EntityId>, now: int)

  datatype Scored = Scored(item: WorkItem, score: real, recency: real)

  datatype Entry = Entry(
    memoryId: MemoryId, score: real, similarity: Option<real>, entityMatch: bool, recency: real,
    confidence: real, sources: set<Source>, sourceEvents: seq<EventId>, keptIn: MemoryKind)

  datatype Package = Package(
    scope: Scope,
    claims: seq<Memory>, decisions: seq<Memory>, preferences: seq<Memory>, episodes: seq<Memory>,
    conflicts: seq<Conflict>,
    tokenEstimate: nat)

  // ---- Scoring and budgets --------------------------------------------------

  function Combined(s: Scoring, similarity: real, entityMatch: bool, recency: real, confidence: real): real {
    s.vectorWeight * similarity
    + s.entityWeight * (if entityMatch then 0.5 else 0.0)
    + s.recencyWeight * recency
    + s.confidenceWeight * confidence
  }

  function WeightFor(lens: Lens, kind: MemoryKind): real {
    match kind
    case Claim => lens.claimWeight
    case Decision => lens.decisionWeight
    case Preference => lens.preferenceWeight
    case Episode => lens.episodeWeight
  }

  function WeightSum(lens: Lens): real {
    lens.claimWeight + lens.decisionWeight + lens.preferenceWeight + lens.episodeWeight
  }

  /** Round half away from zero, then cast to an unsigned integer: negative
      values saturate at zero. */
  function RoundUnsigned(x: real): nat {
    if x < 0.0 then 0 else (x + 0.5).Floor
  }

  function BudgetFor(lens: Lens, kind: MemoryKind, total: nat): nat {
    if WeightSum(lens) <= 0.0 then 0
    else RoundUnsigned(total as real * (WeightFor(lens, kind) / WeightSum(lens)))
  }

  /** Four characters a token, rounded up. */
  function TokensOf(text: string): nat {
    (|text| + 3) / 4
  }

  function SumTokens(memories: seq<Memory>): nat {
    if memories == [] then 0 else TokensOf(memories[0].text) + SumTokens(memories[1..])
  }

  // ---- Merging the sources --------------------------------------------------

  function Better(previous: Option<real>, similarity: real): real {
    if previous.Some? && previous.value > similarity then previous.value else similarity
  }

  function ItemFor(items: map<MemoryId, WorkItem>, m: Memory): WorkItem {
    if m.id in items then items[m.id] else WorkItem(m, {}, None, false)
  }

  function MergeVector(
    items: map<MemoryId, WorkItem>, hits: seq<IndexHit>, scopes: Scope, memories: map<MemoryId, Memory>)
    : map<MemoryId, WorkItem>
    decreases |hits|
  {
    if hits == [] then items
    else
      var h := hits[0];
      if !Intersects(scopes, h.scope) || h.memoryId !in memories then MergeVector(items, hits[1..], scopes, memories)
      else
        var m := memories[h.memoryId];
        var w := ItemFor(items, m);
        MergeVector(
          items[m.id :=
            w.(sources := w.sources + {FromVector}, similarity := Some(Better(w.similarity, h.similarity)))],
          hits[1..], scopes, memories)
  }

  function MergeListed(items: map<MemoryId, WorkItem>, listed: seq<Memory>, scopes: Scope, source: Source)
    : map<MemoryId, WorkItem>
    decreases |listed|
  {
    if listed == [] then items
    else
      var m := listed[0];
      if !Intersects(scopes, m.scope) then MergeListed(items, listed[1..], scopes, source)
      else
        var w := ItemFor(items, m);
        MergeListed(
          items[m.id := w.(sources := w.sources + {source}, entityMatch := w.entityMatch || source == FromEntity)],
          listed[1..], scopes, source)
  }

  /** Memories not yet listed, in order. */
  function AddUnseen(hits: seq<Memory>, more: seq<Memory>): seq<Memory>
    decreases |more|
  {
    if more == [] then hits
    else AddUnseen(if more[0].id in Ids(hits) then hits else hits + [more[0]], more[1..])
  }

  function EntityAnchored(db: Db, anchors: seq<EntityId>, scopes: Scope, hits: seq<Memory>): seq<Memory>
    decreases |anchors|
  {
    if anchors == [] then hits
    else
      EntityAnchored(db, anchors[1..], scopes,
                     AddUnseen(hits, MemoriesForEntity(db, anchors[0], scopes, ENTITY_PER_HIT_LIMIT)))
  }

  function MergedItems(db: Db, index: Index, req: Request): map<MemoryId, WorkItem> {
    var scopes := ExpandInherited(req.scope);
    var fromVector := MergeVector(map[], Search(index, req.neighbours), scopes, db.memories);
    var fromEntity := MergeListed(fromVector, EntityAnchored(db, req.anchors, scopes, []), scopes, FromEntity);
    MergeListed(fromEntity, RecentInScope(db, scopes, RECENT_WINDOW), scopes, FromRecent)
  }

  // ---- Ranking --------------------------------------------------------------

  function Score(w: WorkItem, scoring: Scoring, decay: Decay, now: int): Scored {
    var recency := decay(scoring.halfLife, now - w.memory.updatedAt);
    Scored(w, Combined(scoring, if w.similarity.Some? then w.similarity.value else 0.0, w.entityMatch, recency,
                       w.memory.confidence), recency)
  }

  /** The items at or above the lens floor, in the order the map is walked. */
  function ScoreAll(
    items: map<MemoryId, WorkItem>, walk: seq<MemoryId>, req: Request, scoring: Scoring, decay: Decay): seq<Scored>
    decreases |walk|
  {
    if walk == [] then []
    else
      (if walk[0] in items && items[walk[0]].memory.confidence >= req.lens.minConfidence
       then [Score(items[walk[0]], scoring, decay, req.now)] else [])
      + ScoreAll(items, walk[1..], req, scoring, decay)
  }

  /** Score descending, then most recently updated. */
  predicate BestFirst(a: Scored, b: Scored) {
    a.score > b.score || (a.score == b.score && a.item.memory.updatedAt >= b.item.memory.updatedAt)
  }

  function Bucket(ranked: seq<Scored>, kind: MemoryKind): seq<Scored> {
    Filter(ranked, (x: Scored) => x.item.memory.kind == kind)
  }

  /** How many items the greedy fill keeps after some were taken. */
  function Fill(items: seq<Scored>, taken: nat, consumed: nat, max: nat, budget: nat): (n: nat)
    ensures n <= |items|
  {
    if items == [] || taken >= max then 0
    else
      var tokens := TokensOf(items[0].item.memory.text);
      if consumed + tokens > budget && taken > 0 then 0
      else 1 + Fill(items[1..], taken + 1, consumed + tokens, max, budget)
  }

  function Kept(ranked: seq<Scored>, lens: Lens, kind: MemoryKind, total: nat): seq<Scored> {
    var items := Bucket(ranked, kind);
    items[..Fill(items, 0, 0, lens.maxPerKind, BudgetFor(lens, kind, total))]
  }

  function MemoriesOf(items: seq<Scored>): seq<Memory> {
    if items == [] then [] else [items[0].item.memory] + MemoriesOf(items[1..])
  }

  function EntryOf(x: Scored, kind: MemoryKind): Entry {
    var m := x.item.memory;
    Entry(m.id, x.score, x.item.similarity, x.item.entityMatch, x.recency, m.confidence,
          x.item.sources, m.sources, kind)
  }

  function EntriesOf(items: seq<Scored>, kind: MemoryKind): seq<Entry> {
    if items == [] then [] else [EntryOf(items[0], kind)] + EntriesOf(items[1..], kind)
  }

  function OpenConflicts(conflicts: seq<Conflict>, scopes: Scope): seq<Conflict> {
    Filter(conflicts, (c: Conflict) => c.resolution == Unresolved && Intersects(scopes, c.scope))
  }

  function Assemble(db: Db, ranked: seq<Scored>, req: Request): (Package, seq<Entry>) {
    var claims := Kept(ranked, req.lens, Claim, req.tokenBudget);
    var decisions := Kept(ranked, req.lens, Decision, req.tokenBudget);
    var preferences := Kept(ranked, req.lens, Preference, req.tokenBudget);
    var episodes := Kept(ranked, req.lens, Episode, req.tokenBudget);
    (Package(ExpandInherited(req.scope),
             MemoriesOf(claims), MemoriesOf(decisions), MemoriesOf(preferences), MemoriesOf(episodes),
             OpenConflicts(db.conflicts, ExpandInherited(req.scope)),
             SumTokens(MemoriesOf(claims)) + SumTokens(MemoriesOf(decisions))
             + SumTokens(MemoriesOf(preferences)) + SumTokens(MemoriesOf(episodes))),
     EntriesOf(claims, Claim) + EntriesOf(decisions, Decision)
     + EntriesOf(preferences, Preference) + EntriesOf(episodes, Episode))
  }

  function ReadContext(
    db: Db, index: Index, req: Request, scoring: Scoring, decay: Decay, walk: seq<MemoryId>): (Package, seq<Entry>)
  {
    Assemble(db, Sort(ScoreAll(MergedItems(db, index, req), walk, req, scoring, decay), BestFirst), req)
  }

  /** The walk visits every key of the merged items once, in some order. */
  ghost predicate Walks(walk: seq<MemoryId>, items: map<MemoryId, WorkItem>) {
    NoDuplicates(walk) && forall id :: id in walk <==> id in items
  }
}

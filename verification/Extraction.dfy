/** What the extractor makes of one user event. Matching the patterns against the
    text is an input; which candidates come out, in what order, with which kind,
    scope, subject and predicate, is modelled. */
module Extraction {
  import opened Domain
  import opened Tables
  import opened Engines
  import opened IndexInvariant
  import opened Conflicts
  import opened WorkerCoverage

  datatype Habit = Habit(always: bool, what: string, text: string)

  datatype Attribute = Attribute(name: string, word: string, value: string)

  /** What each pattern captured, trimmed. An event of another actor, or without
      text, captures nothing. */
  datatype Captures = Captures(
    prefers: Option<string>,
    habit: Option<Habit>,
    decided: Option<string>,
    letsUse: Option<string>,
    uses: Option<(string, string)>,
    attribute: Option<Attribute>,
    remember: Option<string>)

  const NOTHING := Captures(None, None, None, None, None, None, None)

  function Stated(
    kind: MemoryKind, scope: Scope, source: EventId, text: string, subj: string, pred: string, obj: string): Candidate
  {
    Candidate(kind, scope, text, Some(subj), Some(pred), Some(obj), None, [source], ExplicitUser)
  }

  function FromPrefers(scope: Scope, source: EventId, c: Captures): seq<Candidate> {
    match c.prefers
    case None => []
    case Some(what) => [Stated(Preference, scope, source, "User prefers " + what, "user", "prefers", what)]
  }

  function FromHabit(scope: Scope, source: EventId, c: Captures): seq<Candidate> {
    match c.habit
    case None => []
    case Some(Habit(always, what, text)) =>
      [Stated(Preference, scope, source, text, "user", if always then "always" else "never", what)]
  }

  function FromDecision(scope: Scope, source: EventId, c: Captures): seq<Candidate> {
    if c.decided.Some? then
      [Stated(Decision, scope, source, "Decided: " + c.decided.value, "we", "decided", c.decided.value)]
    else if c.letsUse.Some? then
      [Stated(Decision, scope, source, "Use " + c.letsUse.value, "we", "decided", c.letsUse.value)]
    else []
  }

  function FromUses(scope: Scope, source: EventId, c: Captures): seq<Candidate> {
    match c.uses
    case None => []
    case Some((subject, tool)) =>
      [Stated(Claim, scope, source, "The " + subject + " uses " + tool, subject, "uses", tool)]
  }

  function FromAttribute(scope: Scope, source: EventId, c: Captures): seq<Candidate> {
    match c.attribute
    case None => []
    case Some(Attribute(name, word, value)) =>
      [Stated(Claim, scope, source, "User's " + name + " is " + value, "user", "has-" + word, value)]
  }

  function Specific(scope: Scope, source: EventId, c: Captures): seq<Candidate> {
    FromPrefers(scope, source, c) + FromHabit(scope, source, c) + FromDecision(scope, source, c)
    + FromUses(scope, source, c) + FromAttribute(scope, source, c)
  }

  /** The general assertion is only made when nothing more specific was. */
  function Extract(scope: Scope, source: EventId, c: Captures): seq<Candidate> {
    if Specific(scope, source, c) == [] && c.remember.Some? then
      [Stated(Claim, scope, source, c.remember.value, "user", "asserts", c.remember.value)]
    else Specific(scope, source, c)
  }

  // ---- One event never contradicts itself -----------------------------------

  /** A whole fact stated by the user in the event's scope, good for promotion. */
  predicate Explicit(c: Candidate, scope: Scope, source: EventId) {
    && HasSpo(c) && c.scope == scope && c.sources == [source] && c.pred.value != ""
    && Decide(c, ComputeConfidence(c)) == Promote
  }

  ghost predicate OnePredicateEach(candidates: seq<Candidate>) {
    forall i, j :: 0 <= i < j < |candidates| ==> candidates[i].pred != candidates[j].pred
  }

  /** The pattern a predicate comes from, by its first letter. */
  function Stage(c: Candidate): nat
    requires c.pred.Some? && c.pred.value != ""
  {
    match c.pred.value[0]
    case 'p' => 0
    case 'd' => 2
    case 'u' => 3
    case 'h' => 4
    case _ => 1
  }

  ghost predicate Staged(candidates: seq<Candidate>, from: nat, to: nat, scope: Scope, source: EventId) {
    && (forall i :: 0 <= i < |candidates| ==>
          Explicit(candidates[i], scope, source) && from <= Stage(candidates[i]) < to)
    && (forall i, j :: 0 <= i < j < |candidates| ==> Stage(candidates[i]) < Stage(candidates[j]))
  }

  lemma JoinStaged(
    a: seq<Candidate>, b: seq<Candidate>, from: nat, mid: nat, to: nat, scope: Scope, source: EventId)
    requires from <= mid <= to && Staged(a, from, mid, scope, source) && Staged(b, mid, to, scope, source)
    ensures Staged(a + b, from, to, scope, source)
  {}

  lemma StatedIsExplicit(
    kind: MemoryKind, scope: Scope, source: EventId, text: string, subj: string, pred: string, obj: string)
    requires kind != Episode && pred != ""
    ensures Explicit(Stated(kind, scope, source, text, subj, pred, obj), scope, source)
  {}

  lemma SingleStaged(c: Candidate, n: nat, scope: Scope, source: EventId)
    requires Explicit(c, scope, source) && Stage(c) == n
    ensures Staged([c], n, n + 1, scope, source)
  {}

  lemma EarlyParts(scope: Scope, source: EventId, c: Captures)
    ensures Staged(FromPrefers(scope, source, c), 0, 1, scope, source)
    ensures Staged(FromHabit(scope, source, c), 1, 2, scope, source)
    ensures Staged(FromDecision(scope, source, c), 2, 3, scope, source)
  {
    assert "prefers"[0] == 'p' && "always"[0] == 'a' && "never"[0] == 'n' && "decided"[0] == 'd';
    var prefers, habit := FromPrefers(scope, source, c), FromHabit(scope, source, c);
    var decision := FromDecision(scope, source, c);
    if prefers != [] {
      StatedIsExplicit(Preference, scope, source, prefers[0].text, "user", "prefers", prefers[0].obj.value);
      SingleStaged(prefers[0], 0, scope, source);
    }
    if habit != [] {
      StatedIsExplicit(Preference, scope, source, habit[0].text, "user", habit[0].pred.value, habit[0].obj.value);
      SingleStaged(habit[0], 1, scope, source);
    }
    if decision != [] {
      StatedIsExplicit(Decision, scope, source, decision[0].text, "we", "decided", decision[0].obj.value);
      SingleStaged(decision[0], 2, scope, source);
    }
  }

  lemma LateParts(scope: Scope, source: EventId, c: Captures)
    ensures Staged(FromUses(scope, source, c), 3, 4, scope, source)
    ensures Staged(FromAttribute(scope, source, c), 4, 5, scope, source)
  {
    assert "uses"[0] == 'u';
    var uses, attribute := FromUses(scope, source, c), FromAttribute(scope, source, c);
    if uses != [] {
      StatedIsExplicit(Claim, scope, source, uses[0].text, uses[0].subj.value, "uses", uses[0].obj.value);
      SingleStaged(uses[0], 3, scope, source);
    }
    if attribute != [] {
      var pred := attribute[0].pred.value;
      assert pred == "has-" + c.attribute.value.word && pred[0] == 'h';
      StatedIsExplicit(Claim, scope, source, attribute[0].text, "user", pred, attribute[0].obj.value);
      SingleStaged(attribute[0], 4, scope, source);
    }
  }

  lemma SpecificIsStaged(scope: Scope, source: EventId, c: Captures)
    ensures Staged(Specific(scope, source, c), 0, 5, scope, source)
  {
    var prefers, habit := FromPrefers(scope, source, c), FromHabit(scope, source, c);
    var decision, uses := FromDecision(scope, source, c), FromUses(scope, source, c);
    EarlyParts(scope, source, c);
    LateParts(scope, source, c);
    JoinStaged(prefers, habit, 0, 1, 2, scope, source);
    JoinStaged(prefers + habit, decision, 0, 2, 3, scope, source);
    JoinStaged(prefers + habit + decision, uses, 0, 3, 4, scope, source);
    JoinStaged(prefers + habit + decision + uses, FromAttribute(scope, source, c), 0, 4, 5, scope, source);
  }

  lemma StagedAreDistinct(candidates: seq<Candidate>, scope: Scope, source: EventId)
    requires Staged(candidates, 0, 5, scope, source)
    ensures OnePredicateEach(candidates)
  {
    forall i, j | 0 <= i < j < |candidates|
      ensures candidates[i].pred != candidates[j].pred
    {
      assert Stage(candidates[i]) < Stage(candidates[j]);
    }
  }

  /** Every candidate of an event is an explicit fact in the event's own scope,
      and no two have the same predicate. */
  lemma ExtractedAreDistinct(scope: Scope, source: EventId, c: Captures)
    ensures forall i :: 0 <= i < |Extract(scope, source, c)| ==> Explicit(Extract(scope, source, c)[i], scope, source)
    ensures OnePredicateEach(Extract(scope, source, c))
  {
    SpecificIsStaged(scope, source, c);
    StagedAreDistinct(Specific(scope, source, c), scope, source);
    if Extract(scope, source, c) != Specific(scope, source, c) {
      StatedIsExplicit(Claim, scope, source, c.remember.value, "user", "asserts", c.remember.value);
    }
  }

  function CandidatesOf(work: seq<Minted>): seq<Candidate> {
    seq(|work|, i requires 0 <= i < |work| => work[i].candidate)
  }

  /** The candidates are what the extractor makes of one text. */
  ghost predicate FromOneText(e: Event, work: seq<Minted>) {
    exists scope, c :: CandidatesOf(work) == Extract(scope, e.key.id, c)
  }

  /** Every event's candidates are. */
  ghost predicate Spoken(work: Event -> seq<Minted>) {
    forall e :: FromOneText(e, work(e))
  }

  /** What an event stores under a predicate none of its candidates has was there
      before. */
  lemma {:induction false} EventAddsItsPredicates(st: Engine, work: seq<Minted>, pred: string)
    requires forall i :: 0 <= i < |work| ==> work[i].candidate.pred != Some(pred)
    ensures var memories' := ProcessEvent(st, work).state.db.memories;
            forall id :: id in memories' && memories'[id].pred == Some(pred) ==>
                           id in st.db.memories && st.db.memories[id].pred == Some(pred)
    decreases |work|
  {
    if work != [] {
      var o := ProcessCandidate(st, work[0]);
      CandidateMemories(st, work[0]);
      assert WorkerRow(work[0]).pred != Some(pred);
      if o.Done? {
        assert forall i :: 0 <= i < |work[1..]| ==> work[1..][i] == work[i + 1];
        EventAddsItsPredicates(o.state, work[1..], pred);
      }
    }
  }

  /** A candidate is contested only by what was stored before its event. */
  lemma ContestedOnlyByEarlierEvents(st: Engine, e: Event, work: seq<Minted>, j: nat)
    requires Grounded(st.db) && FromOneText(e, work) && j < |work|
    ensures var before := ProcessEvent(st, work[..j]).state.db;
            forall x :: x in Detect(before, work[j].candidate) ==> x.id in st.db.memories
  {
    var scope, c :| CandidatesOf(work) == Extract(scope, e.key.id, c);
    ExtractedAreDistinct(scope, e.key.id, c);
    var w := work[j];
    assert CandidatesOf(work)[j] == w.candidate;
    forall i | 0 <= i < j
      ensures work[..j][i].candidate.pred != Some(w.candidate.pred.value)
    {
      assert CandidatesOf(work)[i] == work[i].candidate;
    }
    var before := ProcessEvent(st, work[..j]).state.db;
    EventKeepsGrounded(st, work[..j]);
    EventAddsItsPredicates(st, work[..j], w.candidate.pred.value);
    DetectIsContradiction(before, w.candidate, WorkerRow(w));
  }

  // ---- Which candidates there are -------------------------------------------

  /** What each pattern makes of its capture. */
  ghost predicate Yields(c: Captures, kind: MemoryKind, text: string, subj: string, pred: string, obj: string) {
    || (c.prefers == Some(obj) && kind == Preference && text == "User prefers " + obj && subj == "user"
        && pred == "prefers")
    || (c.habit.Some? && c.habit.value.what == obj && kind == Preference && text == c.habit.value.text
        && subj == "user" && pred == if c.habit.value.always then "always" else "never")
    || (c.decided == Some(obj) && kind == Decision && text == "Decided: " + obj && subj == "we" && pred == "decided")
    || (c.decided.None? && c.letsUse == Some(obj) && kind == Decision && text == "Use " + obj && subj == "we"
        && pred == "decided")
    || (c.uses == Some((subj, obj)) && kind == Claim && text == "The " + subj + " uses " + obj && pred == "uses")
    || (c.attribute.Some? && c.attribute.value.value == obj && kind == Claim && subj == "user"
        && text == "User's " + c.attribute.value.name + " is " + obj && pred == "has-" + c.attribute.value.word)
    || (c.remember == Some(obj) && c == NOTHING.(remember := c.remember) && kind == Claim && text == obj
        && subj == "user" && pred == "asserts")
  }

  /** The candidates of an event are exactly what its patterns yield, stated by
      the user, without a confidence of their own. */
  lemma ExtractEffect(scope: Scope, source: EventId, c: Captures, x: Candidate)
    ensures x in Extract(scope, source, c) <==>
            && x.subj.Some? && x.pred.Some? && x.obj.Some?
            && Yields(c, x.kind, x.text, x.subj.value, x.pred.value, x.obj.value)
            && x.scope == scope && x.sources == [source] && x.confidence == None && x.provenance == ExplicitUser
  {
    assert x in Specific(scope, source, c) <==>
           || x in FromPrefers(scope, source, c) || x in FromHabit(scope, source, c)
           || x in FromDecision(scope, source, c) || x in FromUses(scope, source, c)
           || x in FromAttribute(scope, source, c);
    assert Specific(scope, source, c) == [] <==> c == NOTHING.(remember := c.remember);
  }
}

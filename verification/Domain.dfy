/** The value types of toffee-core: memories, candidates, conflicts, scopes, and
    the scalar rules that turn a candidate into a promotion decision.
    Identifiers and timestamps are ordered opaque values. */
module Domain {

  datatype Option<+T> = None | Some(value: T)

  type MemoryId = nat
  type EventId = nat
  type EntityId = nat
  type ConflictId = nat
  type Scope = seq<string>
  type Vector = seq<real>

  datatype MemoryKind = Claim | Decision | Preference | Episode

  /** A row of the memories table. */
  datatype Memory = Memory(
    id: MemoryId,
    kind: MemoryKind,
    scope: Scope,
    text: string,
    subj: Option<string>,
    pred: Option<string>,
    obj: Option<string>,
    confidence: real,
    sources: seq<EventId>,
    createdAt: int,
    updatedAt: int,
    supersededBy: Option<MemoryId>,
    deletedAt: Option<int>)

  predicate Active(m: Memory) {
    m.supersededBy.None? && m.deletedAt.None?
  }

  datatype Provenance =
    ExplicitUser | AgentConfirmed | RepeatedPattern | AgentInferred | ToolOutput | Manual

  datatype Candidate = Candidate(
    kind: MemoryKind,
    scope: Scope,
    text: string,
    subj: Option<string>,
    pred: Option<string>,
    obj: Option<string>,
    confidence: Option<real>,
    sources: seq<EventId>,
    provenance: Provenance)

  datatype Resolution = Unresolved | Picked | Merged | RejectedAll

  datatype Conflict = Conflict(
    id: ConflictId,
    scope: Scope,
    subj: Option<string>,
    pred: Option<string>,
    members: seq<MemoryId>,
    resolution: Resolution,
    createdAt: int,
    resolvedAt: Option<int>)

  datatype Feedback = Helpful | Wrong | Stale | Correct

  // ---- Scopes -------------------------------------------------------------

  predicate Intersects(a: Scope, b: Scope) {
    exists s :: s in a && s in b
  }

  const SCOPE_GLOBAL := "global"
  const SCOPE_USER_ME := "user:me"

  /** Requested scopes followed by the inherited ones that are missing. */
  function ExpandInherited(requested: Scope): Scope {
    if requested == [] then []
    else
      requested
      + (if SCOPE_USER_ME in requested then [] else [SCOPE_USER_ME])
      + (if SCOPE_GLOBAL in requested then [] else [SCOPE_GLOBAL])
  }

  /** Expansion keeps the request as a prefix, adds exactly the two inherited
      scopes to any non-empty request, and is a closure: expanding twice adds
      nothing. */
  lemma ExpandInheritedIsClosure(requested: Scope)
    ensures requested <= ExpandInherited(requested)
    ensures requested != [] ==>
              forall s :: s in ExpandInherited(requested) <==> s in requested || s == SCOPE_USER_ME || s == SCOPE_GLOBAL
    ensures ExpandInherited(ExpandInherited(requested)) == ExpandInherited(requested)
  {}

  // ---- Confidence and promotion -------------------------------------------

  const PROMOTE_THRESHOLD := 0.7
  const DISCARD_THRESHOLD := 0.4

  function ClampUnit(x: real): real {
    if x < 0.0 then 0.0 else if x > 1.0 then 1.0 else x
  }

  function ComputeConfidence(c: Candidate): real {
    ClampUnit(match c.confidence
              case Some(given) => given
              case None =>
                match c.provenance
                case ExplicitUser => 0.92
                case AgentConfirmed => 0.85
                case RepeatedPattern => 0.75
                case Manual => 0.95
                case AgentInferred => 0.55
                case ToolOutput => 0.5)
  }

  function ApplyFeedback(current: real, feedback: Feedback): real {
    ClampUnit(match feedback
              case Helpful => current + 0.05
              case Correct => current + 0.10
              case Stale => current - 0.15
              case Wrong => current - 0.40)
  }

  datatype Decision = Discard | SaveEpisode | Promote

  predicate HasSpo(c: Candidate) {
    c.subj.Some? && c.pred.Some? && c.obj.Some?
  }

  function Decide(c: Candidate, confidence: real): Decision {
    if c.kind.Episode? || !HasSpo(c) then
      if confidence < DISCARD_THRESHOLD then Discard else SaveEpisode
    else if confidence >= PROMOTE_THRESHOLD then Promote
    else if confidence >= DISCARD_THRESHOLD then SaveEpisode
    else Discard
  }

  /** Two memories state different objects for one subject and predicate in a
      shared scope: the rule of the conflict detector. */
  predicate Contradict(a: Memory, b: Memory) {
    && a.subj.Some? && a.pred.Some?
    && a.subj == b.subj && a.pred == b.pred
    && a.obj != b.obj
    && Intersects(a.scope, b.scope)
  }
}

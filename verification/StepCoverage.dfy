/** One step of the engine and contradictions. */
module StepCoverage {
  import opened Tables
  import opened Engines
  import opened Conflicts
  import opened ResolutionCoverage
  import opened WorkerCoverage

  /** A step the coverage claim speaks about, from this state. */
  ghost predicate CoveredOp(st: Engine, op: Op) {
    match op
    case OpDrain(work) => EventsComplete(st, EventsAfter(st.db.events, st.db.checkpoint, BATCH_SIZE), work)
    case OpAdd(_, _) => false
    case OpResolve(_, action, _) => !action.Merge?
    case _ => true
  }

  lemma StepKeepsGrounded(st: Engine, op: Op)
    requires Grounded(st.db)
    ensures var db' := Step(st, op).db;
            && Grounded(db') && Evolves(st.db, db')
            && (DisjointScopes(st.db.conflicts) ==> DisjointScopes(db'.conflicts))
            && (Covered(st.db) && CoveredOp(st, op) ==> Covered(db'))
  {
    match op
    case OpAppend(event) =>
      GroundedDependsOnTables(st.db, InsertEvent(st.db, event));
    case OpDrain(work) =>
      DrainKeepsGrounded(st, EventsAfter(st.db.events, st.db.checkpoint, BATCH_SIZE), work);
    case OpAdd(memory, linked) => RememberGrounded(st, memory, linked);
    case OpForget(id, now) => ForgetShrinks(st, id, now);
    case OpFeedback(id, kind, now) => FeedbackShrinks(st, id, kind, now);
    case OpResolve(conflict, action, now) =>
      ResolveKeepsGrounded(st, conflict, action, now);
      if Covered(st.db) && !action.Merge? {
        ResolveKeepsCovered(st, conflict, action, now);
      }
    case OpRebuild => RebuildShrinks(st);
    case OpRestart(embedder) =>
  }
}

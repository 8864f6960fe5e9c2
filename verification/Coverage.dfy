/** No contradiction is silently absorbed: after any run of worker drains whose
    events complete, forgets, feedback, picks and reject-alls, two active
    memories that contradict each other are both members of one unresolved
    conflict. For the operations outside that claim (manual add, merge, a failed
    event) the exact condition is given. */
module Coverage {
  import opened Engines
  import opened Conflicts
  import opened StepCoverage

  /** Over every run: tables stay well formed, stored facts are neither changed,
      lost nor revived, and unresolved conflicts on one subject and predicate
      keep disjoint scopes. */
  lemma {:induction false} RunKeepsGrounded(st: Engine, ops: seq<Op>)
    requires Grounded(st.db)
    ensures var db' := Run(st, ops).db;
            && Grounded(db') && Evolves(st.db, db')
            && (DisjointScopes(st.db.conflicts) ==> DisjointScopes(db'.conflicts))
    decreases |ops|
  {
    if ops != [] {
      StepKeepsGrounded(st, ops[0]);
      RunKeepsGrounded(Step(st, ops[0]), ops[1..]);
    }
  }

  ghost predicate CoveredRun(st: Engine, ops: seq<Op>)
    decreases |ops|
  {
    ops != [] ==> CoveredOp(st, ops[0]) && CoveredRun(Step(st, ops[0]), ops[1..])
  }

  lemma {:induction false} RunKeepsCovered(st: Engine, ops: seq<Op>)
    requires Grounded(st.db) && Covered(st.db) && CoveredRun(st, ops)
    ensures Covered(Run(st, ops).db)
    decreases |ops|
  {
    if ops != [] {
      StepKeepsGrounded(st, ops[0]);
      RunKeepsCovered(Step(st, ops[0]), ops[1..]);
    }
  }

  /** The headline, from a fresh daemon: scopes on one topic stay disjoint in
      every run, and in a run of the claim's operations any two active
      contradicting memories are members of one unresolved conflict. */
  lemma NoContradictionAbsorbed(embedder: Embedder, ops: seq<Op>)
    ensures DisjointScopes(Run(Boot(embedder), ops).db.conflicts)
    ensures CoveredRun(Boot(embedder), ops) ==> Covered(Run(Boot(embedder), ops).db)
  {
    RunKeepsGrounded(Boot(embedder), ops);
    if CoveredRun(Boot(embedder), ops) {
      RunKeepsCovered(Boot(embedder), ops);
    }
  }
}

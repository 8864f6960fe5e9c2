/** Short runs of a fresh daemon, one for each operation outside the coverage
    claim, after which two active memories contradict each other and no
    unresolved conflict holds both. */
module AbsorbedContradictions {
  import opened Domain
  import opened Tables
  import opened Engines
  import opened Conflicts
  import opened WorkerCoverage
  import opened ResolutionCoverage
  import opened MultiScope
  import opened Extraction
  import opened IndexInvariant

  // ---- A manual add ---------------------------------------------------------

  const ADDS: seq<Op> := [OpAdd(Row(X), Some([])), OpAdd(Row(Y), Some([]))]

  lemma AddUncontested(st: Engine, m: Memory)
    requires Grounded(st.db) && Covered(st.db) && InsertMemory(st.db, m).Some?
    requires m.supersededBy.None? && m.deletedAt.None?
    ensures var db' := Step(st, OpAdd(m, Some([]))).db;
            && Grounded(db') && (Covered(db') <==> Uncontradicted(st.db, m))
            && db'.memories == st.db.memories[m.id := m] && db'.conflicts == st.db.conflicts
  {
    RememberCoverage(st, m, Some([]));
    RememberTables(st, m, Some([]));
  }

  /** Adding by hand two claims that contradict each other, whatever the
      embedder does. */
  lemma ManualAddAbsorbs(embedder: Embedder)
    ensures !Covered(Run(Boot(embedder), ADDS).db)
  {
    var boot := Boot(embedder);
    var st := Step(boot, ADDS[0]);
    AddUncontested(boot, Row(X));
    Meets();
    assert ActiveIn(st.db, 0) && Contradict(st.db.memories[0], Row(Y));
    AddUncontested(st, Row(Y));
    assert ADDS[1..] == [ADDS[1]];
    assert Run(st, [ADDS[1]]) == Run(Step(st, ADDS[1]), []);
  }

  // ---- A merge --------------------------------------------------------------

  /** A claim on another subject, and a merge of the dispute onto that subject. */
  const BYSTANDER :=
    Memory(2, Claim, ["a"], "The lexer uses Logos", Some("lexer"), Some("uses"), Some("Logos"), 0.9, [], 0, 0,
           None, None)
  const ONTO := Action.Merge("The lexer uses Nom", Some("lexer"), None, Some("Nom"), None, 3, Some([]))
  const MERGED :=
    Memory(3, Claim, ["a"], "The lexer uses Nom", Some("lexer"), Some("uses"), Some("Nom"), 0.95, [], 0, 0,
           None, None)

  const MERGES: seq<Op> := [OpAdd(BYSTANDER, Some([])), OpResolve(1, ONTO, 0)]

  lemma ToldKeepsCovered(st: Engine, w: Minted)
    requires Grounded(st.db) && Covered(st.db) && ProcessCandidate(st, w).Done?
    ensures Grounded(Told(st, w).db) && Covered(Told(st, w).db)
  {
    CandidateKeepsGrounded(st, w);
    CandidateKeepsCovered(st, w);
    ToldTables(st, w);
  }

  /** Two events state facts that contradict each other, and are drained. */
  lemma DisputeHeard(embedder: Embedder)
    requires Takes(Boot(embedder), X) && Takes(Boot(embedder), Y)
    ensures var st := Run(Boot(embedder), DISPUTE);
            SameEmbedder(Boot(embedder), st) && HeardY(st.db) && Covered(st.db)
  {
    var st := Logged(embedder, [EventOf(X), EventOf(Y)]);
    DisputeRuns(embedder);
    HearX(st);
    ToldKeepsCovered(st, X);
    HearY(Told(st, X));
    ToldKeepsCovered(Told(st, X), Y);
  }

  lemma BystanderContradicts(m: Memory)
    requires m.scope == ["a"] && m.subj == Some("lexer") && m.pred == Some("uses") && m.obj == Some("Nom")
    ensures Contradict(BYSTANDER, m)
  {
    assert |"Logos"| != |"Nom"|;
    assert "a" in ["a"];
  }

  lemma MergedIsRemembered(st: Engine, m: Memory)
    requires Embeds(st, MERGED) && InsertMemory(st.db, m).Some? && ComposeText(m) == ComposeText(MERGED)
    ensures Remember(st, m, Some([])).Done?
  {}

  /** Closing the dispute in favour of the merged claim, which the bystander
      contradicts. */
  lemma MergeAcrossBystander(st: Engine)
    requires Grounded(st.db) && Covered(st.db) && Embeds(st, MERGED)
    requires |st.db.conflicts| == 1 && OnTopic(st.db.conflicts[0], ["a"]) && st.db.conflicts[0].id == 1
    requires ActiveIn(st.db, 2) && st.db.memories[2] == BYSTANDER && 2 !in st.db.conflicts[0].members
    requires 3 !in st.db.memories
    ensures var db' := Step(st, OpResolve(1, ONTO, 0)).db;
            !Covered(db') && |db'.conflicts| == 1 && db'.conflicts[0].resolution == Merged
  {
    var c := st.db.conflicts[0];
    var m := MergedMemory(st.db, c, ONTO, 0);
    assert FindConflict(st.db.conflicts, 1) == Some(0);
    MergedIsRemembered(st, m);
    MergeMemories(st, m, Some([]), c.members, 0);
    BystanderContradicts(m);
    CompletedMergeCoverage(st, 1, ONTO, 0);
  }

  /** The bystander is added while the dispute is open. */
  lemma BystanderAdded(st: Engine)
    requires HeardY(st.db) && Covered(st.db)
    ensures var st' := Step(st, OpAdd(BYSTANDER, Some([])));
            && SameEmbedder(st, st') && Grounded(st'.db) && Covered(st'.db)
            && st'.db.memories == st.db.memories[2 := BYSTANDER] && st'.db.conflicts == st.db.conflicts
            && 2 !in st.db.conflicts[0].members
  {
    AddUncontested(st, BYSTANDER);
    assert Uncontradicted(st.db, BYSTANDER) by {
      assert |"parser"| != |"lexer"|;
    }
    assert MembersExist(st.db) && 2 !in st.db.memories;
  }

  /** Two events whose claims contradict each other, a third claim added by hand,
      and a completed merge whose result contradicts the third. */
  lemma MergeAbsorbs(embedder: Embedder)
    requires Takes(Boot(embedder), X) && Takes(Boot(embedder), Y) && Embeds(Boot(embedder), MERGED)
    ensures Spoken(Talk)
    ensures var db' := Run(Boot(embedder), DISPUTE + MERGES).db;
            !Covered(db') && |db'.conflicts| == 1 && db'.conflicts[0].resolution == Merged
  {
    TalkIsSpoken();
    DisputeHeard(embedder);
    var st := Run(Boot(embedder), DISPUTE);
    DisputeMerged(st);
    RunConcat(Boot(embedder), DISPUTE, MERGES);
    RunTwo(st, MERGES[0], MERGES[1]);
  }

  lemma DisputeMerged(st: Engine)
    requires HeardY(st.db) && Covered(st.db) && Embeds(st, MERGED)
    ensures var db' := Step(Step(st, MERGES[0]), MERGES[1]).db;
            !Covered(db') && |db'.conflicts| == 1 && db'.conflicts[0].resolution == Merged
  {
    BystanderAdded(st);
    MergeAcrossBystander(Step(st, MERGES[0]));
  }

  /** A merge to a third answer whose links fail. */
  const THIRD := Action.Merge("The parser uses Logos", None, None, Some("Logos"), None, 2, None)

  lemma ThirdContradicts(m: Memory)
    requires m.scope == ["a"] && m.subj == Some("parser") && m.pred == Some("uses") && m.obj == Some("Logos")
    ensures Contradict(Row(Y), m)
  {
    assert |"Logos"| != |"Pest"|;
    assert "a" in ["a"];
  }

  lemma HalfMerged(st: Engine)
    requires HeardY(st.db) && Covered(st.db)
    ensures var db' := Step(st, OpResolve(1, THIRD, 0)).db;
            && !Covered(db') && db'.conflicts == st.db.conflicts
            && ActiveIn(db', 0) && ActiveIn(db', 1) && ActiveIn(db', 2)
  {
    var m := MergedMemory(st.db, st.db.conflicts[0], THIRD, 0);
    MergeOutcome(st, 0, THIRD, 0);
    assert Step(st, OpResolve(1, THIRD, 0)) == Remember(st, m, None).state;
    ThirdContradicts(m);
    StoredUnlinked(st, m);
  }

  lemma StoredUnlinked(st: Engine, m: Memory)
    requires HeardY(st.db) && Covered(st.db) && Contradict(Row(Y), m)
    requires m.id == 2 && InsertMemory(st.db, m).Some? && Active(m)
    ensures var db' := Remember(st, m, None).state.db;
            && !Covered(db') && db'.conflicts == st.db.conflicts
            && ActiveIn(db', 0) && ActiveIn(db', 1) && ActiveIn(db', 2)
  {
    RememberTables(st, m, None);
    RememberCoverage(st, m, None);
    assert ActiveIn(st.db, 1) && st.db.memories[1] == Row(Y);
  }

  /** The same two events, and a merge that fails after it stored its memory: all
      three are active and the still open conflict does not name the third. */
  lemma FailedMergeAbsorbs(embedder: Embedder)
    requires Takes(Boot(embedder), X) && Takes(Boot(embedder), Y)
    ensures Spoken(Talk)
    ensures var db' := Run(Boot(embedder), DISPUTE + [OpResolve(1, THIRD, 0)]).db;
            && !Covered(db') && ActiveIn(db', 0) && ActiveIn(db', 1) && ActiveIn(db', 2)
            && |db'.conflicts| == 1 && db'.conflicts[0].resolution == Unresolved
  {
    TalkIsSpoken();
    DisputeHeard(embedder);
    HalfMerged(Run(Boot(embedder), DISPUTE));
    RunConcat(Boot(embedder), DISPUTE, [OpResolve(1, THIRD, 0)]);
    RunOne(Run(Boot(embedder), DISPUTE), OpResolve(1, THIRD, 0));
  }

  // ---- A failed candidate ---------------------------------------------------

  /** The only embedding row is the first claim's. */
  lemma FirstRow(st: Engine)
    requires Grounded(st.db) && Takes(st, X) && st.db.memories == map[] && st.db.conflicts == [] && st.db.rows == map[]
    ensures forall s :: s in Told(st, X).db.rows ==> Told(st, X).db.rows[s].memoryId == 0
  {
    SaidIsPromoted(X);
    assert Detect(st.db, X.candidate) == [];
    ToldTables(st, X);
  }

  lemma RefusedClaim(st: Engine)
    requires HeardX(st.db) && Covered(st.db) && st.embedder.embed(ComposeText(Row(Y))).None?
    requires forall s :: s in st.db.rows ==> st.db.rows[s].memoryId == 0
    ensures var o := ProcessCandidate(st, Y);
            o.Failed? && !Covered(o.state.db) && o.state.db.conflicts == []
  {
    Meets();
    SaidIsPromoted(Y);
    assert ActiveIn(st.db, 0) && Contradict(st.db.memories[0], Row(Y));
    DetectIsContradiction(st.db, Y.candidate, Row(Y));
    RecordConflictFiles(st, Y, Detect(st.db, Y.candidate));
    RememberTables(st, Row(Y), Y.linked);
    ContestedOutcome(st, Y);
  }

  /** Two events, the second of which contradicts the first and has a text the
      embedder refuses: it is stored and active, and no conflict is filed. */
  lemma FailedCandidateAbsorbs(embedder: Embedder)
    requires Takes(Boot(embedder), X) && embedder.embed(ComposeText(Row(Y))).None?
    ensures Spoken(Talk)
    ensures var db' := Run(Boot(embedder), DISPUTE).db; !Covered(db') && db'.conflicts == []
  {
    var st := Logged(embedder, [EventOf(X), EventOf(Y)]);
    TalkIsSpoken();
    DisputeRuns(embedder);
    HearX(st);
    ToldKeepsCovered(st, X);
    FirstRow(st);
    RefusedClaim(Told(st, X));
    ToldTables(Told(st, X), Y);
  }
}

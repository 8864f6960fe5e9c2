/** Which logged events the worker still attempts. An event appended while a
    batch is in flight, or after the clock stepped back, can fall behind the point
    the worker has reached; such an event is never attempted, and every other one
    is, by draining alone. */
module Attempts {
  import opened Domain
  import opened Sorting
  import opened Tables
  import opened Checkpoint

  /** The events of the batch in flight that were not handled yet. */
  function Pending(w: Worker): seq<Event> {
    if w.attempted && w.batch != [] then w.batch[1..] else w.batch
  }

  /** The checkpoint once the batch in flight is done. */
  function Horizon(w: Worker): Option<EventKey> {
    if w.batch == [] then w.checkpoint else Some(w.batch[|w.batch| - 1].key)
  }

  /** Draining only: no appends and no crashes. */
  ghost predicate Drains(actions: seq<Action>) {
    forall i :: 0 <= i < |actions| ==> actions[i].Fetch? || actions[i].Attempt? || actions[i].Commit?
  }

  /** The continuation attempts the key once more. */
  ghost predicate Reaches(w: Worker, actions: seq<Action>, key: EventKey) {
    multiset(Trace(w, actions).attempts)[key] > multiset(w.attempts)[key]
  }

  /** A batch of logged events ahead of the checkpoint, as every fetch makes it. */
  ghost predicate Sound(w: Worker) {
    && DistinctKeys(w.log) && BatchAhead(w) && (w.attempted ==> w.batch != [])
    && (forall e :: e in w.batch ==> e in w.log)
  }

  lemma FetchedAreLogged(log: seq<Event>, checkpoint: Option<EventKey>, limit: nat)
    ensures forall e :: e in EventsAfter(log, checkpoint, limit) ==> e in log
  {
    var waiting := Filter(log, (e: Event) => After(e, checkpoint));
    FilterElements(log, (e: Event) => After(e, checkpoint));
    SortElements(waiting, OldestFirst);
  }

  lemma DrainStepKeepsSound(w: Worker, a: Action)
    requires Sound(w) && !a.Append? && !a.Crash?
    ensures Sound(Next(w, a)) && Next(w, a).log == w.log
  {
    CheckpointAdvances(w, a);
    if a.Fetch? {
      FetchedAreLogged(w.log, w.checkpoint, Engines.BATCH_SIZE);
    }
  }

  // ---- Events left behind ---------------------------------------------------

  ghost predicate Passed(w: Worker, e: Event) {
    e !in Pending(w) && !After(e, Horizon(w))
  }

  /** Logged events with one key are one event. */
  lemma OneEventPerKey(log: seq<Event>, e: Event, f: Event)
    requires DistinctKeys(log) && e in log && f in log && e.key == f.key
    ensures e == f
  {}

  lemma PassedStaysPassed(w: Worker, a: Action, e: Event)
    requires Sound(w) && !a.Append? && !a.Crash? && e in w.log && Passed(w, e)
    ensures Passed(Next(w, a), e)
    ensures multiset(Next(w, a).attempts)[e.key] == multiset(w.attempts)[e.key]
  {
    match a
    case Fetch =>
      if w.batch == [] {
        FetchedAhead(w.log, w.checkpoint, Engines.BATCH_SIZE);
        var batch := EventsAfter(w.log, w.checkpoint, Engines.BATCH_SIZE);
        if batch != [] {
          assert After(batch[|batch| - 1], w.checkpoint);
        }
      }
    case Attempt =>
      if w.batch != [] && !w.attempted {
        assert w.batch[0] in w.batch;
        if w.batch[0].key == e.key {
          OneEventPerKey(w.log, w.batch[0], e);
        }
      }
    case Commit =>
  }

  lemma {:induction false} PassedIsNeverReached(w: Worker, actions: seq<Action>, e: Event)
    requires Sound(w) && Drains(actions) && e in w.log && Passed(w, e)
    ensures !Reaches(w, actions, e.key)
    decreases |actions|
  {
    if actions != [] {
      DrainStepKeepsSound(w, actions[0]);
      PassedStaysPassed(w, actions[0], e);
      assert forall i :: 0 <= i < |actions[1..]| ==> actions[1..][i] == actions[i + 1];
      PassedIsNeverReached(Next(w, actions[0]), actions[1..], e);
    }
  }

  // ---- Events still ahead ---------------------------------------------------

  lemma {:induction false} TraceConcat(w: Worker, a: seq<Action>, b: seq<Action>)
    ensures Trace(w, a + b) == Trace(Trace(w, a), b)
    decreases |a|
  {
    if a == [] {
      assert a + b == b;
    } else {
      assert (a + b)[0] == a[0] && (a + b)[1..] == a[1..] + b;
      TraceConcat(Next(w, a[0]), a[1..], b);
    }
  }

  lemma {:induction false} AttemptsOnlyGrow(w: Worker, actions: seq<Action>, key: EventKey)
    ensures multiset(w.attempts)[key] <= multiset(Trace(w, actions).attempts)[key]
    decreases |actions|
  {
    if actions != [] {
      AttemptsOnlyGrow(Next(w, actions[0]), actions[1..], key);
    }
  }

  lemma {:induction false} RoundsDrain(n: nat)
    ensures Drains(Rounds(n))
  {
    if n > 0 {
      RoundsDrain(n - 1);
    }
  }

  /** Handling a whole batch attempts each of its events. */
  lemma {:induction false} RoundsReach(w: Worker, i: nat)
    requires !w.attempted && i < |w.batch|
    ensures Reaches(w, Rounds(|w.batch|), w.batch[i].key)
    decreases |w.batch|
  {
    var key := w.batch[i].key;
    var next := Next(Next(w, Attempt), Commit);
    var actions := Rounds(|w.batch|);
    assert actions[0] == Attempt && actions[1..][0] == Commit && actions[1..][1..] == Rounds(|next.batch|);
    assert Trace(w, actions) == Trace(Next(w, Attempt), actions[1..]) == Trace(next, Rounds(|next.batch|));
    assert next.attempts == w.attempts + [w.batch[0].key];
    if i == 0 {
      AttemptsOnlyGrow(next, Rounds(|next.batch|), key);
    } else {
      RoundsReach(next, i - 1);
    }
  }

  /** An event beyond a batch is beyond the checkpoint the batch leaves. */
  lemma BeyondTheBatch(log: seq<Event>, checkpoint: Option<EventKey>, limit: nat, e: Event)
    requires DistinctKeys(log) && e in log && After(e, checkpoint) && limit > 0
    ensures var batch := EventsAfter(log, checkpoint, limit);
            batch != [] && (e in batch || KeyLess(batch[|batch| - 1].key, e.key))
  {
    var keep := (x: Event) => After(x, checkpoint);
    var waiting := Filter(log, keep);
    var sorted := Sort(waiting, OldestFirst);
    FilterElements(log, keep);
    SortElements(waiting, OldestFirst);
    SortedWaiting(log, checkpoint);
    var k :| 0 <= k < |sorted| && sorted[k] == e;
    if limit <= k {
      assert OldestFirst(sorted[limit - 1], sorted[k]);
    }
  }

  /** Draining batch after batch gets to every event above the checkpoint. */
  lemma {:induction false} DrainsReach(w: Worker, e: Event) returns (actions: seq<Action>)
    requires Sound(w) && w.batch == [] && e in w.log && After(e, w.checkpoint)
    ensures Drains(actions) && Reaches(w, actions, e.key)
    decreases CountEventsAfter(w.log, w.checkpoint)
  {
    var batch := EventsAfter(w.log, w.checkpoint, Engines.BATCH_SIZE);
    var fetched := Next(w, Fetch);
    var first := [Fetch] + Rounds(|batch|);
    RoundsDrain(|batch|);
    assert first[1..] == Rounds(|batch|);
    assert Trace(w, first) == Trace(fetched, Rounds(|batch|));
    BeyondTheBatch(w.log, w.checkpoint, Engines.BATCH_SIZE, e);
    if e in batch {
      var i :| 0 <= i < |batch| && batch[i] == e;
      RoundsReach(fetched, i);
      actions := first;
    } else {
      var next := Trace(w, first);
      var last := batch[|batch| - 1];
      RoundsCommitBatch(fetched);
      FetchedAreLogged(w.log, w.checkpoint, Engines.BATCH_SIZE);
      FetchedAhead(w.log, w.checkpoint, Engines.BATCH_SIZE);
      assert last in batch && After(last, w.checkpoint);
      assert next.checkpoint == Some(last.key) && next.batch == [] && !next.attempted by {
        RoundsEndUnattempted(fetched);
      }
      Runtimes.FewerAfter(w.log, w.checkpoint, last.key);
      var rest := DrainsReach(next, e);
      AttemptsOnlyGrow(w, first, e.key);
      TraceConcat(w, first, rest);
      actions := first + rest;
    }
  }

  lemma {:induction false} RoundsEndUnattempted(w: Worker)
    requires !w.attempted
    ensures !Trace(w, Rounds(|w.batch|)).attempted
    decreases |w.batch|
  {
    if w.batch != [] {
      var next := Next(Next(w, Attempt), Commit);
      var actions := Rounds(|w.batch|);
      assert actions[0] == Attempt && actions[1..][0] == Commit && actions[1..][1..] == Rounds(|next.batch|);
      assert Trace(w, actions) == Trace(Next(w, Attempt), actions[1..]) == Trace(next, Rounds(|next.batch|));
      RoundsEndUnattempted(next);
    }
  }

  /** The same with a batch in flight. */
  lemma StillReached(w: Worker, e: Event) returns (actions: seq<Action>)
    requires Sound(w) && e in w.log && (e in Pending(w) || After(e, Horizon(w)))
    ensures Drains(actions) && Reaches(w, actions, e.key)
  {
    var start := if w.attempted then [Commit] else [];
    var begun := Trace(w, start);
    assert begun.batch == Pending(w) && !begun.attempted && begun.attempts == w.attempts && begun.log == w.log by {
      assert [Commit][1..] == [];
    }
    var n := |begun.batch|;
    RoundsDrain(n);
    TraceConcat(w, start, Rounds(n));
    if e in begun.batch {
      var i :| 0 <= i < n && begun.batch[i] == e;
      RoundsReach(begun, i);
      actions := start + Rounds(n);
    } else {
      var idle := Trace(begun, Rounds(n));
      RoundsCommitBatch(begun);
      RoundsEndUnattempted(begun);
      assert idle.checkpoint == Horizon(w);
      var rest := DrainsReach(idle, e);
      TraceConcat(w, start + Rounds(n), rest);
      AttemptsOnlyGrow(w, start + Rounds(n), e.key);
      actions := start + Rounds(n) + rest;
    }
  }

  /** A logged event is attempted again by draining, without appends or crashes,
      if and only if it is in the batch in flight and not handled yet, or its key
      is above the last one of that batch; with no batch in flight, if and only if
      its key is above the checkpoint. */
  lemma AttemptedIff(w: Worker, e: Event)
    requires Sound(w) && e in w.log
    ensures (exists actions :: Drains(actions) && Reaches(w, actions, e.key)) <==>
            e in Pending(w) || After(e, Horizon(w))
    ensures w.batch == [] ==>
              ((exists actions :: Drains(actions) && Reaches(w, actions, e.key)) <==> After(e, w.checkpoint))
  {
    if e in Pending(w) || After(e, Horizon(w)) {
      var actions := StillReached(w, e);
    } else {
      forall actions | Drains(actions)
        ensures !Reaches(w, actions, e.key)
      {
        PassedIsNeverReached(w, actions, e);
      }
    }
  }

  // ---- A run that leaves an event behind ------------------------------------

  const PROMPT := Event(EventKey(5, 0), "")
  const LATE := Event(EventKey(3, 1), "")

  const SKIPPING: seq<Action> := [Append(PROMPT), Fetch, Attempt, Commit, Append(LATE)]

  lemma SkippedAfter()
    ensures Trace(FRESH, SKIPPING) == Worker([PROMPT, LATE], Some(PROMPT.key), [], false, [PROMPT.key], 1, 0)
  {
    var w1 := Next(FRESH, Append(PROMPT));
    assert w1.log == [PROMPT];
    assert Filter([PROMPT], (e: Event) => After(e, None)) == [PROMPT] + Filter([], (e: Event) => After(e, None));
    assert Sort([PROMPT], OldestFirst) == Insert(PROMPT, Sort([], OldestFirst), OldestFirst) == [PROMPT];
    assert EventsAfter([PROMPT], None, Engines.BATCH_SIZE) == [PROMPT];
    var w2 := Next(w1, Fetch);
    var w3 := Next(w2, Attempt);
    var w4 := Next(w3, Commit);
    assert SKIPPING[1..] == [Fetch, Attempt, Commit, Append(LATE)];
    assert [Fetch, Attempt, Commit, Append(LATE)][1..] == [Attempt, Commit, Append(LATE)];
    assert [Attempt, Commit, Append(LATE)][1..] == [Commit, Append(LATE)];
    assert [Commit, Append(LATE)][1..] == [Append(LATE)] && [Append(LATE)][1..] == [];
    assert Trace(w4, [Append(LATE)]) == Trace(Next(w4, Append(LATE)), []);
    assert Trace(w3, [Commit, Append(LATE)]) == Trace(w4, [Append(LATE)]);
    assert Trace(w2, [Attempt, Commit, Append(LATE)]) == Trace(w3, [Commit, Append(LATE)]);
  }

  /** After the clock steps back between two appends, the second event is logged
      and stays unattempted in every continuation, crashes included. */
  lemma LateEventIsSkipped(actions: seq<Action>)
    requires AllNewKeys(Trace(FRESH, SKIPPING), actions)
    ensures LATE in Trace(FRESH, SKIPPING).log
    ensures LATE.key !in Trace(Trace(FRESH, SKIPPING), actions).attempts
  {
    SkippedAfter();
    var w := Trace(FRESH, SKIPPING);
    assert LATE == w.log[1];
    LateKeyNeverAttempted(w, LATE.key, actions);
    assert multiset(w.attempts)[LATE.key] == 0;
    assert LATE.key in Trace(w, actions).attempts ==> LATE.key in multiset(Trace(w, actions).attempts);
  }
}

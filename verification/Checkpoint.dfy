/** The worker's progress through the event log, one atomic action at a time:
    events arrive while a batch is in flight, and the process may die between
    handling an event and moving the checkpoint past it. */
module Checkpoint {
  import opened Domain
  import opened Sorting
  import opened Tables
  import opened Engines
  import Runtimes

  /** The log and checkpoint survive a crash; the batch does not. The attempts,
      the number of events checkpointed and the number of crashes are history. */
  datatype Worker = Worker(
    log: seq<Event>,
    checkpoint: Option<EventKey>,
    batch: seq<Event>,  // events of the current batch not yet checkpointed
    attempted: bool,  // the head of the batch has been handled
    attempts: seq<EventKey>,
    committed: nat,
    crashes: nat)

  datatype Action = Append(event: Event) | Fetch | Attempt | Commit | Crash

  const FRESH := Worker([], None, [], false, [], 0, 0)

  /** An action that is not enabled does nothing. Handling an event counts as an
      attempt whether it succeeds or records a failure. */
  function Next(w: Worker, a: Action): Worker {
    match a
    case Append(event) => w.(log := w.log + [event])
    case Fetch =>
      if w.batch != [] then w else w.(batch := EventsAfter(w.log, w.checkpoint, BATCH_SIZE), attempted := false)
    case Attempt =>
      if w.batch == [] || w.attempted then w
      else w.(attempts := w.attempts + [w.batch[0].key], attempted := true)
    case Commit =>
      if w.batch == [] || !w.attempted then w
      else
        w.(checkpoint := Some(w.batch[0].key), batch := w.batch[1..], attempted := false, committed := w.committed + 1)
    case Crash => w.(batch := [], attempted := false, crashes := w.crashes + 1)
  }

  function Trace(w: Worker, actions: seq<Action>): Worker
    decreases |actions|
  {
    if actions == [] then w else Trace(Next(w, actions[0]), actions[1..])
  }

  // ---- Order ----------------------------------------------------------------

  ghost predicate Increasing(log: seq<Event>) {
    forall i, j :: 0 <= i < j < |log| ==> KeyLess(log[i].key, log[j].key)
  }

  /** On an increasing log the query returns the next events in log order. */
  lemma EventsAfterIsSlice(log: seq<Event>, p: nat, limit: nat)
    requires Increasing(log) && p <= |log|
    ensures var checkpoint := if p == 0 then None else Some(log[p - 1].key);
            && EventsAfter(log, checkpoint, limit) == (if p + limit <= |log| then log[p..p + limit] else log[p..])
            && CountEventsAfter(log, checkpoint) == |log| - p
  {
    var checkpoint := if p == 0 then None else Some(log[p - 1].key);
    var keep := (e: Event) => After(e, checkpoint);
    forall i | 0 <= i < |log|
      ensures keep(log[i]) <==> p <= i
    {
      if 0 < p <= i {
        assert KeyLess(log[p - 1].key, log[i].key);
      } else if i < p - 1 {
        assert KeyLess(log[i].key, log[p - 1].key);
      }
    }
    FilterSuffix(log, p, keep);
    assert SortedBy(log[p..], OldestFirst);
    SortOfSorted(log[p..], OldestFirst);
    if p + limit < |log| {
      assert log[p..][..limit] == log[p..p + limit];
    }
  }

  // ---- First attempts -------------------------------------------------------

  /** The distinct keys in the order they first appear. */
  function FirstAttempts(attempts: seq<EventKey>): seq<EventKey> {
    if attempts == [] then []
    else
      var earlier := FirstAttempts(attempts[..|attempts| - 1]);
      var last := attempts[|attempts| - 1];
      if last in earlier then earlier else earlier + [last]
  }

  function Keys(events: seq<Event>): seq<EventKey> {
    if events == [] then [] else Keys(events[..|events| - 1]) + [events[|events| - 1].key]
  }

  lemma {:induction false} KeysAt(events: seq<Event>)
    ensures |Keys(events)| == |events|
    ensures forall i :: 0 <= i < |events| ==> Keys(events)[i] == events[i].key
  {
    if events != [] {
      KeysAt(events[..|events| - 1]);
    }
  }

  /** The number of events attempted at least once. */
  function Reached(w: Worker): nat {
    |FirstAttempts(w.attempts)|
  }

  /** An event was handled before a crash and not yet handled again. */
  predicate Owed(w: Worker) {
    Reached(w) > w.committed && !w.attempted
  }

  /** The checkpoint is the key of the last committed event, the batch is the log
      from there on, the first attempts are the log in order without gaps and
      are at most one event ahead, and attempts beyond the first are paid for by
      crashes. */
  ghost predicate Inv(w: Worker) {
    && Increasing(w.log)
    && w.committed + |w.batch| <= |w.log|
    && w.checkpoint == (if w.committed == 0 then None else Some(w.log[w.committed - 1].key))
    && w.batch == w.log[w.committed..w.committed + |w.batch|]
    && w.committed <= Reached(w) <= w.committed + 1 && Reached(w) <= |w.log|
    && (w.attempted ==> w.batch != [] && Reached(w) == w.committed + 1)
    && FirstAttempts(w.attempts) == Keys(w.log[..Reached(w)])
    && |w.attempts| + (if Owed(w) then 1 else 0) <= Reached(w) + w.crashes
    && forall key ::
         multiset(w.attempts)[key] + (if Owed(w) && key == w.log[w.committed].key then 1 else 0) <= 1 + w.crashes
  }

  /** An appended event comes after every event already in the log. */
  ghost predicate InOrder(w: Worker, a: Action) {
    a.Append? ==> forall i :: 0 <= i < |w.log| ==> KeyLess(w.log[i].key, a.event.key)
  }

  lemma AppendKeepsInv(w: Worker, e: Event)
    requires Inv(w) && InOrder(w, Append(e))
    ensures Inv(Next(w, Append(e)))
  {
    var w' := Next(w, Append(e));
    assert forall i :: 0 <= i < |w.log| ==> w'.log[i] == w.log[i];
    assert w'.log[..Reached(w)] == w.log[..Reached(w)];
    assert w'.log[w.committed..w.committed + |w.batch|] == w.log[w.committed..w.committed + |w.batch|];
  }

  lemma AttemptKeepsInv(w: Worker)
    requires Inv(w)
    ensures Inv(Next(w, Attempt))
  {
    if w.batch != [] && !w.attempted {
      var w' := Next(w, Attempt);
      var key := w.batch[0].key;
      assert key == w.log[w.committed].key;
      assert w'.attempts[..|w'.attempts| - 1] == w.attempts;
      KeysAt(w.log[..Reached(w)]);
      if Reached(w) == w.committed {
        assert key !in FirstAttempts(w.attempts);
        assert w.log[..w.committed + 1][..w.committed] == w.log[..w.committed];
        FreshKeyUnused(w.attempts, key);
      } else {
        assert FirstAttempts(w.attempts)[w.committed] == key;
      }
    }
  }

  lemma {:induction false} FreshKeyUnused(attempts: seq<EventKey>, key: EventKey)
    ensures key in FirstAttempts(attempts) <==> key in attempts
  {
    if attempts != [] {
      FreshKeyUnused(attempts[..|attempts| - 1], key);
      assert attempts == attempts[..|attempts| - 1] + [attempts[|attempts| - 1]];
    }
  }

  lemma FetchKeepsInv(w: Worker)
    requires Inv(w)
    ensures Inv(Next(w, Fetch))
  {
    if w.batch == [] {
      var w' := Next(w, Fetch);
      EventsAfterIsSlice(w.log, w.committed, BATCH_SIZE);
      assert !w.attempted && w' == w.(batch := w'.batch);
      assert w'.batch == w.log[w.committed..w.committed + |w'.batch|];
      assert Reached(w') == Reached(w) && Owed(w') == Owed(w);
    }
  }

  lemma NextKeepsInv(w: Worker, a: Action)
    requires Inv(w) && InOrder(w, a)
    ensures Inv(Next(w, a))
  {
    match a
    case Append(e) => AppendKeepsInv(w, e);
    case Fetch => FetchKeepsInv(w);
    case Attempt => AttemptKeepsInv(w);
    case Commit =>
    case Crash =>
  }

  ghost predicate AllInOrder(w: Worker, actions: seq<Action>)
    decreases |actions|
  {
    actions != [] ==> InOrder(w, actions[0]) && AllInOrder(Next(w, actions[0]), actions[1..])
  }

  lemma {:induction false} TraceKeepsInv(w: Worker, actions: seq<Action>)
    requires Inv(w) && AllInOrder(w, actions)
    ensures Inv(Trace(w, actions))
    decreases |actions|
  {
    if actions != [] {
      NextKeepsInv(w, actions[0]);
      TraceKeepsInv(Next(w, actions[0]), actions[1..]);
    }
  }

  /** Over every interleaving of in-order appends, batches, failures and crashes:
      first attempts are a prefix of the log, at most one event beyond the
      checkpoint; replays are bounded by crashes, in total and for each event;
      and the reported queue depth is the number of events not checkpointed. */
  lemma WorkerProgress(actions: seq<Action>)
    requires AllInOrder(FRESH, actions)
    ensures var w := Trace(FRESH, actions);
            && FirstAttempts(w.attempts) <= Keys(w.log)
            && w.committed <= Reached(w) <= w.committed + 1
            && |w.attempts| <= Reached(w) + w.crashes
            && (forall key :: multiset(w.attempts)[key] <= 1 + w.crashes)
            && CountEventsAfter(w.log, w.checkpoint) == |w.log| - w.committed
  {
    assert Inv(FRESH);
    TraceKeepsInv(FRESH, actions);
    var w := Trace(FRESH, actions);
    EventsAfterIsSlice(w.log, w.committed, BATCH_SIZE);
    KeysAt(w.log);
    KeysAt(w.log[..Reached(w)]);
  }

  // ---- An event that always panics ------------------------------------------

  /** No attempt of the event returns: a panic unwinds the batch and ends the
      worker, so the checkpoint is never moved past the event. */
  ghost predicate NeverReturns(w: Worker, actions: seq<Action>, key: EventKey)
    decreases |actions|
  {
    actions != [] ==>
      && (actions[0].Commit? && w.attempted && w.batch != [] ==> w.batch[0].key != key)
      && NeverReturns(Next(w, actions[0]), actions[1..], key)
  }

  ghost predicate NotPast(w: Worker, key: EventKey) {
    forall p :: 0 <= p < |w.log| && w.log[p].key == key ==> w.committed <= p
  }

  lemma {:induction false} StaysBefore(w: Worker, actions: seq<Action>, key: EventKey)
    requires Inv(w) && AllInOrder(w, actions) && NeverReturns(w, actions, key) && NotPast(w, key)
    ensures NotPast(Trace(w, actions), key)
    decreases |actions|
  {
    if actions != [] {
      NextKeepsInv(w, actions[0]);
      assert w.batch != [] ==> w.batch[0] == w.log[w.committed];
      StaysBefore(Next(w, actions[0]), actions[1..], key);
    }
  }

  lemma BeyondReachUnattempted(w: Worker, q: nat)
    requires Inv(w) && w.committed < q < |w.log|
    ensures w.log[q].key !in w.attempts
  {
    var reached := w.log[..Reached(w)];
    KeysAt(reached);
    FreshKeyUnused(w.attempts, w.log[q].key);
    forall r | 0 <= r < |Keys(reached)|
      ensures Keys(reached)[r] != w.log[q].key
    {
      assert KeyLess(w.log[r].key, w.log[q].key);
    }
    assert w.log[q].key !in Keys(reached);
  }

  /** An event whose every attempt panics stops the worker for good: whatever
      arrives and however often the worker is restarted, the event and all later
      ones stay unprocessed, and no later one is even attempted. */
  lemma PanicStopsTheQueue(actions: seq<Action>, p: nat)
    requires AllInOrder(FRESH, actions) && p < |Trace(FRESH, actions).log|
    requires NeverReturns(FRESH, actions, Trace(FRESH, actions).log[p].key)
    ensures var w := Trace(FRESH, actions);
            && w.committed <= p && CountEventsAfter(w.log, w.checkpoint) >= |w.log| - p
            && forall q :: p < q < |w.log| ==> w.log[q].key !in w.attempts
  {
    assert Inv(FRESH);
    TraceKeepsInv(FRESH, actions);
    var w := Trace(FRESH, actions);
    StaysBefore(FRESH, actions, w.log[p].key);
    EventsAfterIsSlice(w.log, w.committed, BATCH_SIZE);
    forall q | p < q < |w.log|
      ensures w.log[q].key !in w.attempts
    {
      BeyondReachUnattempted(w, q);
    }
  }

  // ---- A drain is one batch of these actions --------------------------------

  /** Handle and commit n events. */
  function Rounds(n: nat): seq<Action> {
    if n == 0 then [] else [Attempt, Commit] + Rounds(n - 1)
  }

  lemma {:induction false} RoundsCommitBatch(w: Worker)
    requires !w.attempted
    ensures var w' := Trace(w, Rounds(|w.batch|));
            && w'.log == w.log && w'.batch == [] && w'.crashes == w.crashes
            && w'.committed == w.committed + |w.batch|
            && w'.checkpoint == if w.batch == [] then w.checkpoint else Some(w.batch[|w.batch| - 1].key)
    decreases |w.batch|
  {
    if w.batch != [] {
      var next := Next(Next(w, Attempt), Commit);
      RoundsCommitBatch(next);
      var actions := Rounds(|w.batch|);
      assert actions[0] == Attempt && actions[1..][0] == Commit && actions[1..][1..] == Rounds(|next.batch|);
      assert Trace(w, actions) == Trace(Next(w, Attempt), actions[1..]) == Trace(next, Rounds(|next.batch|));
    }
  }

  /** A drain of the engine, whatever its events do, moves log and checkpoint as
      an uninterrupted batch does. */
  lemma DrainIsOneBatch(st: Engine, w: Worker, work: Event -> seq<Minted>)
    requires w.log == st.db.events && w.checkpoint == st.db.checkpoint && w.batch == [] && !w.attempted
    ensures var batch := EventsAfter(st.db.events, st.db.checkpoint, BATCH_SIZE);
            var w' := Trace(w, [Fetch] + Rounds(|batch|));
            var st' := Drain(st, work);
            && w'.log == st'.db.events && w'.checkpoint == st'.db.checkpoint
            && w'.batch == [] && w'.committed == w.committed + |batch|
  {
    var batch := EventsAfter(st.db.events, st.db.checkpoint, BATCH_SIZE);
    var fetched := Next(w, Fetch);
    assert ([Fetch] + Rounds(|batch|))[1..] == Rounds(|batch|);
    RoundsCommitBatch(fetched);
    Runtimes.DrainKeepsLog(st, batch, work);
  }

  // ---- Any order of appends -------------------------------------------------

  /** What a batch keeps when events may be appended out of order. */
  ghost predicate BatchAhead(w: Worker) {
    && SortedBy(w.batch, OldestFirst)
    && (forall i :: 0 <= i < |w.batch| ==> After(w.batch[i], w.checkpoint))
    && (forall i, j :: 0 <= i < j < |w.batch| ==> w.batch[i].key != w.batch[j].key)
  }

  /** Event keys are never reused. */
  ghost predicate DistinctKeys(log: seq<Event>) {
    forall i, j :: 0 <= i < j < |log| ==> log[i].key != log[j].key
  }

  ghost predicate NewKey(w: Worker, a: Action) {
    a.Append? ==> forall i :: 0 <= i < |w.log| ==> w.log[i].key != a.event.key
  }

  lemma FetchedAhead(log: seq<Event>, checkpoint: Option<EventKey>, limit: nat)
    requires DistinctKeys(log)
    ensures var batch := EventsAfter(log, checkpoint, limit);
            && SortedBy(batch, OldestFirst)
            && (forall i, j :: 0 <= i < j < |batch| ==> batch[i].key != batch[j].key)
            && (forall i :: 0 <= i < |batch| ==> After(batch[i], checkpoint))
  {
    SortedWaiting(log, checkpoint);
  }

  lemma SortedWaiting(log: seq<Event>, checkpoint: Option<EventKey>)
    requires DistinctKeys(log)
    ensures var sorted := Sort(Filter(log, (e: Event) => After(e, checkpoint)), OldestFirst);
            && SortedBy(sorted, OldestFirst)
            && (forall i, j :: 0 <= i < j < |sorted| ==> sorted[i].key != sorted[j].key)
            && (forall i :: 0 <= i < |sorted| ==> After(sorted[i], checkpoint))
  {
    var waiting := Filter(log, (e: Event) => After(e, checkpoint));
    WaitingEvents(log, checkpoint);
    SortSorts(waiting, OldestFirst);
    SortElements(waiting, OldestFirst);
    SortKeepsNoDuplicates(waiting, OldestFirst);
    var sorted := Sort(waiting, OldestFirst);
    forall i | 0 <= i < |sorted|
      ensures sorted[i] in waiting
    {
      assert sorted[i] in multiset(sorted);
      assert sorted[i] in multiset(waiting);
    }
    forall i, j | 0 <= i < j < |sorted|
      ensures sorted[i].key != sorted[j].key
    {
      assert sorted[i] in waiting && sorted[j] in waiting && sorted[i] != sorted[j];
    }
  }

  lemma WaitingEvents(log: seq<Event>, checkpoint: Option<EventKey>)
    requires DistinctKeys(log)
    ensures var waiting := Filter(log, (e: Event) => After(e, checkpoint));
            && NoDuplicates(waiting)
            && (forall e :: e in waiting ==> After(e, checkpoint))
            && (forall e, f :: e in waiting && f in waiting && e != f ==> e.key != f.key)
  {
    assert NoDuplicates(log);
    FilterElements(log, (e: Event) => After(e, checkpoint));
    FilterKeepsNoDuplicates(log, (e: Event) => After(e, checkpoint));
  }

  /** The checkpoint never moves back, whatever order events arrive in. */
  lemma CheckpointAdvances(w: Worker, a: Action)
    requires DistinctKeys(w.log) && BatchAhead(w) && NewKey(w, a)
    ensures DistinctKeys(Next(w, a).log) && BatchAhead(Next(w, a))
    ensures var w' := Next(w, a);
            w'.checkpoint == w.checkpoint
            || (w'.checkpoint.Some? && (w.checkpoint.None? || KeyLess(w.checkpoint.value, w'.checkpoint.value)))
  {
    if a.Fetch? {
      FetchedAhead(w.log, w.checkpoint, BATCH_SIZE);
    } else if a.Commit? && w.batch != [] && w.attempted {
      forall i | 0 <= i < |w.batch[1..]|
        ensures After(w.batch[1..][i], Some(w.batch[0].key))
      {
        assert OldestFirst(w.batch[0], w.batch[i + 1]);
      }
    }
  }

  ghost predicate AllNewKeys(w: Worker, actions: seq<Action>)
    decreases |actions|
  {
    actions != [] ==> NewKey(w, actions[0]) && AllNewKeys(Next(w, actions[0]), actions[1..])
  }

  /** Why the order of appends matters: a key at or below the checkpoint, as an
      event appended after the clock stepped back would have, is never attempted
      again in any continuation. */
  lemma {:induction false} LateKeyNeverAttempted(w: Worker, key: EventKey, actions: seq<Action>)
    requires DistinctKeys(w.log) && BatchAhead(w) && AllNewKeys(w, actions)
    requires w.checkpoint.Some? && !KeyLess(w.checkpoint.value, key)
    ensures multiset(Trace(w, actions).attempts)[key] == multiset(w.attempts)[key]
    decreases |actions|
  {
    if actions != [] {
      var a := actions[0];
      CheckpointAdvances(w, a);
      var w' := Next(w, a);
      if a.Attempt? && w.batch != [] && !w.attempted {
        assert After(w.batch[0], w.checkpoint);
        assert w.batch[0].key != key;
      }
      LateKeyNeverAttempted(w', key, actions[1..]);
    }
  }
}

/** When a read fails and what that costs. The first line that does not decode
    decides both: a complete line, or the partial last one, such as a line cut
    inside a character. */
module TailerFailures {
  import opened Domain
  import opened Tailer

  // ---- The first undecodable line -------------------------------------------

  predicate Undecodable(file: Bytes, b: nat, utf8: Bytes -> bool) {
    b < |file| && Boundary(file, b) && !utf8(file[b..LineEnd(file, b)])
  }

  function FirstUndecodable(file: Bytes, off: nat, utf8: Bytes -> bool): (b: Option<nat>)
    requires Boundary(file, off)
    ensures b.Some? ==> off <= b.value && Undecodable(file, b.value, utf8)
    ensures forall c: nat :: off <= c && (b.Some? ==> c < b.value) ==> !Undecodable(file, c, utf8)
    decreases |file| - off
  {
    if off == |file| then None
    else
      var end := LineEnd(file, off);
      if !utf8(file[off..end]) then Some(off)
      else if file[end - 1] != NL then None
      else FirstUndecodable(file, end, utf8)
  }

  /** A read of one file fails exactly when an undecodable line comes before the
      cap: fewer lines worth keeping lie before it. It then stops at that line. */
  lemma {:induction false} ReadFailsAt(file: Bytes, off: nat, count: nat, utf8: Bytes -> bool)
    requires Boundary(file, off) && count < MAX_LINES
    ensures var r := ReadFrom(file, off, count, utf8);
            var b := FirstUndecodable(file, off, utf8);
            && (r.invalid <==> b.Some? && count + |Kept(file, off, b.value)| < MAX_LINES)
            && (r.invalid ==> r.offset == b.value)
    decreases |file| - off
  {
    if off < |file| {
      var end := LineEnd(file, off);
      if Finished(file, off, end, utf8) {
        if Oversize(file[off..end]) {
          ReadSkips(file, off, count, utf8);
          ReadFailsAt(file, end, count, utf8);
        } else {
          ReadKeeps(file, off, count, utf8);
          if count + 1 < MAX_LINES {
            ReadFailsAt(file, end, count + 1, utf8);
          }
        }
      } else {
        ReadStops(file, off, count, utf8);
      }
    }
  }

  /** The same without naming the first such line. */
  lemma ReadFailsIff(file: Bytes, off: nat, count: nat, utf8: Bytes -> bool)
    requires Boundary(file, off) && count < MAX_LINES
    ensures ReadFrom(file, off, count, utf8).invalid <==>
            exists b :: off <= b <= |file| && Undecodable(file, b, utf8) && count + |Kept(file, off, b)| < MAX_LINES
  {
    ReadFailsAt(file, off, count, utf8);
    var first := FirstUndecodable(file, off, utf8);
    forall b | off <= b <= |file| && Undecodable(file, b, utf8) && count + |Kept(file, off, b)| < MAX_LINES
      ensures first.Some? && |Kept(file, off, first.value)| <= |Kept(file, off, b)|
    {
      KeptSplits(file, off, first.value, b);
    }
  }

  // ---- A source over several files ------------------------------------------

  /** The next read of the file fails. */
  predicate Blocked(t: Tail, utf8: Bytes -> bool)
    requires Boundary(t.file, t.offset)
  {
    var b := FirstUndecodable(t.file, t.offset, utf8);
    b.Some? && |Kept(t.file, t.offset, b.value)| < MAX_LINES
  }

  ghost predicate OnBoundaries(tails: seq<Tail>) {
    forall i :: 0 <= i < |tails| ==> Boundary(tails[i].file, tails[i].offset) && Boundary(tails[i].file, tails[i].saved)
  }

  lemma PumpFails(t: Tail, utf8: Bytes -> bool)
    requires Boundary(t.file, t.offset) && t.saved <= |t.file|
    ensures Pump(t, utf8).1 <==> !Blocked(t, utf8)
    ensures !Pump(t, utf8).1 ==> Pump(t, utf8).0 == t.(offset := FirstUndecodable(t.file, t.offset, utf8).value)
  {
    ReadFailsAt(t.file, t.offset, 0, utf8);
  }

  /** The first file whose read fails, or the number of files. */
  function FailingFile(tails: seq<Tail>, utf8: Bytes -> bool): (f: nat)
    requires forall i :: 0 <= i < |tails| ==> Boundary(tails[i].file, tails[i].offset)
    ensures f <= |tails| && (f < |tails| ==> Blocked(tails[f], utf8))
    ensures forall i :: 0 <= i < f ==> !Blocked(tails[i], utf8)
    decreases |tails|
  {
    if tails == [] then 0 else if Blocked(tails[0], utf8) then 0 else 1 + FailingFile(tails[1..], utf8)
  }

  /** A call reads the files before the first failing one, stops inside that one
      and leaves the rest. */
  lemma {:induction false} PumpAllEffect(tails: seq<Tail>, utf8: Bytes -> bool, i: nat)
    requires InBounds(tails) && OnBoundaries(tails) && i < |tails|
    ensures PumpAll(tails, utf8).1 <==> FailingFile(tails, utf8) == |tails|
    ensures PumpAll(tails, utf8).0[i] == if i <= FailingFile(tails, utf8) then Pump(tails[i], utf8).0 else tails[i]
    decreases |tails|
  {
    PumpFails(tails[0], utf8);
    if !Blocked(tails[0], utf8) {
      if i > 0 {
        PumpAllEffect(tails[1..], utf8, i - 1);
      } else if |tails| > 1 {
        PumpAllEffect(tails[1..], utf8, 0);
      }
    }
  }

  // ---- What a failed call loses ---------------------------------------------

  /** The lines a failing call takes from a file: those before the undecodable
      line, or any at all when the file itself can be read. */
  function TakenFrom(t: Tail, utf8: Bytes -> bool): seq<Bytes>
    requires Boundary(t.file, t.offset)
  {
    if Blocked(t, utf8) then Kept(t.file, t.offset, FirstUndecodable(t.file, t.offset, utf8).value)
    else Kept(t.file, t.offset, |t.file|)
  }

  lemma UnreadableIsNotKept(file: Bytes, off: nat)
    requires Boundary(file, off) && NoLineFrom(file, off)
    ensures Kept(file, off, |file|) == []
  {}

  /** A read that succeeds takes a line exactly when there is one to keep. */
  lemma ReadTakesSome(t: Tail, utf8: Bytes -> bool)
    requires Conserved(t) && !Blocked(t, utf8)
    ensures var t' := Pump(t, utf8).0;
            Kept(t.file, t.offset, t'.offset) == [] <==> Kept(t.file, t.offset, |t.file|) == []
    ensures Pump(t, utf8).0.saved == t.saved <==> Kept(t.file, t.offset, |t.file|) == []
  {
    var r := ReadFrom(t.file, t.offset, 0, utf8);
    PumpFails(t, utf8);
    ReadFromCollects(t.file, t.offset, 0, utf8);
    ReadFromExhausts(t.file, t.offset, 0, utf8);
    ReadFromLast(t.file, t.offset, 0, utf8);
    TextsLength(r.lines);
    KeptSplitsAt(t.file, t.offset, r.offset);
    if r.lines == [] {
      UnreadableIsNotKept(t.file, r.offset);
    }
  }

  lemma KeptSplitsAt(file: Bytes, from: nat, mid: nat)
    requires from <= mid <= |file| && Boundary(file, from) && Boundary(file, mid)
    ensures Kept(file, from, |file|) == Kept(file, from, mid) + Kept(file, mid, |file|)
  {
    KeptSplits(file, from, mid, |file|);
  }

  lemma LossOfReadFile(t: Tail, utf8: Bytes -> bool)
    requires Conserved(t) && !Blocked(t, utf8)
    ensures var t' := Pump(t, utf8).0.(delivered := t.delivered);
            && (Conserved(t') <==> TakenFrom(t, utf8) == [])
            && (Conserved(t'.(offset := t'.saved)) <==> TakenFrom(t, utf8) == [])
  {
    var t' := Pump(t, utf8).0;
    PumpFails(t, utf8);
    PumpConserves(t, utf8);
    ReadTakesSome(t, utf8);
    KeptSplits(t.file, 0, t.offset, t'.offset);
    KeptSplits(t.file, 0, t'.saved, t'.offset);
  }

  lemma LossOfBlockedFile(t: Tail, utf8: Bytes -> bool)
    requires Conserved(t) && Blocked(t, utf8)
    ensures var t' := Pump(t, utf8).0;
            && t'.delivered == t.delivered && t'.saved == t.saved
            && (Conserved(t') <==> TakenFrom(t, utf8) == [])
            && Conserved(t'.(offset := t'.saved))
  {
    var b := FirstUndecodable(t.file, t.offset, utf8).value;
    PumpFails(t, utf8);
    KeptSplits(t.file, 0, t.offset, b);
    KeptSplits(t.file, t.saved, t.offset, b);
    RestartConserves(t);
  }

  /** What a failing call leaves of one file. */
  lemma FailedStepAt(tails: seq<Tail>, utf8: Bytes -> bool, i: nat)
    requires InBounds(tails) && OnBoundaries(tails) && i < |tails| && FailingFile(tails, utf8) < |tails|
    ensures var t' := Step(tails, ReadNext, utf8).0[i];
            t' == if i <= FailingFile(tails, utf8) then Pump(tails[i], utf8).0.(delivered := tails[i].delivered)
            else tails[i]
  {
    PumpAllEffect(tails, utf8, i);
  }

  /** A call fails exactly when some file is blocked. It then loses, for now,
      what it took from the files up to the first blocked one. A restart brings
      back the blocked file's lines, but not those of the files before it, whose
      saved offsets have moved. */
  lemma FailedReadLoses(tails: seq<Tail>, utf8: Bytes -> bool, i: nat)
    requires InBounds(tails) && AllConserved(tails) && i < |tails|
    ensures var (tails', ok) := Step(tails, ReadNext, utf8);
            var f := FailingFile(tails, utf8);
            && (ok <==> f == |tails|)
            && (!ok ==>
                  && (Conserved(tails'[i]) <==> i > f || TakenFrom(tails[i], utf8) == [])
                  && (Conserved(tails'[i].(offset := tails'[i].saved)) <==> i >= f || TakenFrom(tails[i], utf8) == []))
  {
    assert OnBoundaries(tails);
    var f := FailingFile(tails, utf8);
    PumpAllEffect(tails, utf8, i);
    if f < |tails| {
      FailedStepAt(tails, utf8, i);
      if i < f {
        LossOfReadFile(tails[i], utf8);
      } else if i == f {
        LossOfBlockedFile(tails[i], utf8);
      } else {
        RestartConserves(tails[i]);
      }
    }
  }

  // ---- Runs -----------------------------------------------------------------

  /** Whenever the source is read, no file is blocked. */
  ghost predicate NeverBlocked(tails: seq<Tail>, actions: seq<Action>, utf8: Bytes -> bool)
    requires InBounds(tails)
    decreases |actions|
  {
    actions != [] ==>
      && (actions[0].ReadNext? ==> OnBoundaries(tails) && FailingFile(tails, utf8) == |tails|)
      && NeverBlocked(Step(tails, actions[0], utf8).0, actions[1..], utf8)
  }

  /** A run has no failed read exactly when no file is blocked when it is read. */
  lemma {:induction false} RunSucceedsIff(tails: seq<Tail>, actions: seq<Action>, utf8: Bytes -> bool)
    requires InBounds(tails) && AllConserved(tails)
    ensures Run(tails, actions, utf8).Some? <==> NeverBlocked(tails, actions, utf8)
    decreases |actions|
  {
    if actions != [] {
      assert OnBoundaries(tails);
      if actions[0].ReadNext? && tails != [] {
        PumpAllEffect(tails, utf8, 0);
      }
      StepConserves(tails, actions[0], utf8);
      var (next, ok) := Step(tails, actions[0], utf8);
      if ok {
        RunSucceedsIff(next, actions[1..], utf8);
      }
    }
  }

  /** The headline without the premise that reads succeed: from no files at all,
      a run in which no file is blocked when it is read fails no read and
      conserves every file. */
  lemma UnblockedRunsConserve(actions: seq<Action>, utf8: Bytes -> bool)
    ensures Run([], actions, utf8).Some? <==> NeverBlocked([], actions, utf8)
    ensures NeverBlocked([], actions, utf8) ==> AllConserved(Run([], actions, utf8).value)
  {
    RunSucceedsIff([], actions, utf8);
    ManyReadsEqualOne(actions, utf8);
  }

  // ---- A complete undecodable line stops the source -------------------------

  /** The line at b is complete and will never decode. */
  predicate Spoiled(file: Bytes, b: nat, utf8: Bytes -> bool) {
    Undecodable(file, b, utf8) && file[LineEnd(file, b) - 1] == NL
  }

  /** A read from the offset gets as far as b. */
  predicate Near(file: Bytes, off: nat, b: nat) {
    off <= b <= |file| && Boundary(file, off) && |Kept(file, off, b)| < MAX_LINES
  }

  predicate StuckAt(t: Tail, b: nat, utf8: Bytes -> bool) {
    Spoiled(t.file, b, utf8) && Near(t.file, t.offset, b) && Near(t.file, t.saved, b)
  }

  lemma SpoiledBlocks(t: Tail, b: nat, utf8: Bytes -> bool)
    requires Spoiled(t.file, b, utf8) && Near(t.file, t.offset, b)
    ensures Blocked(t, utf8) && Near(t.file, FirstUndecodable(t.file, t.offset, utf8).value, b)
  {
    KeptSplits(t.file, t.offset, FirstUndecodable(t.file, t.offset, utf8).value, b);
  }

  lemma StuckPump(t: Tail, b: nat, utf8: Bytes -> bool)
    requires StuckAt(t, b, utf8)
    ensures Blocked(t, utf8) && StuckAt(Pump(t, utf8).0.(delivered := t.delivered), b, utf8)
  {
    SpoiledBlocks(t, b, utf8);
    PumpFails(t, utf8);
  }

  lemma GrowthStaysSpoiled(file: Bytes, more: Bytes, b: nat, utf8: Bytes -> bool)
    requires Spoiled(file, b, utf8)
    ensures Spoiled(file + more, b, utf8)
  {
    SameLineEnd(file, more, b);
    var end := LineEnd(file, b);
    assert (file + more)[b..end] == file[b..end];
  }

  lemma GrowthStaysNear(file: Bytes, more: Bytes, off: nat, b: nat)
    requires Near(file, off, b) && Boundary(file, b)
    ensures Near(file + more, off, b)
  {
    KeptAfterGrowth(file, more, off, b);
  }

  /** The tails after a run that goes on past failed reads. */
  function RunOn(tails: seq<Tail>, actions: seq<Action>, utf8: Bytes -> bool): seq<Tail>
    requires InBounds(tails)
    decreases |actions|
  {
    if actions == [] then tails else RunOn(Step(tails, actions[0], utf8).0, actions[1..], utf8)
  }

  lemma PumpOnBoundaries(t: Tail, utf8: Bytes -> bool)
    requires Boundary(t.file, t.offset) && Boundary(t.file, t.saved)
    ensures var t' := Pump(t, utf8).0; Boundary(t'.file, t'.offset) && Boundary(t'.file, t'.saved)
  {
    ReadFromCollects(t.file, t.offset, 0, utf8);
    ReadFromLast(t.file, t.offset, 0, utf8);
  }

  lemma StepOnBoundaries(tails: seq<Tail>, a: Action, utf8: Bytes -> bool, j: nat)
    requires InBounds(tails) && OnBoundaries(tails) && j < |Step(tails, a, utf8).0|
    ensures var t := Step(tails, a, utf8).0[j]; Boundary(t.file, t.offset) && Boundary(t.file, t.saved)
  {
    if a.ReadNext? {
      PumpAllEffect(tails, utf8, j);
      PumpOnBoundaries(tails[j], utf8);
    }
  }

  /** What the files have delivered; nothing for a file not known yet. */
  function DeliveredOf(tails: seq<Tail>, j: nat): seq<Bytes> {
    if j < |tails| then tails[j].delivered else []
  }

  lemma StepStaysStuck(tails: seq<Tail>, a: Action, i: nat, b: nat, utf8: Bytes -> bool)
    requires InBounds(tails) && OnBoundaries(tails) && i < |tails| && StuckAt(tails[i], b, utf8)
    ensures StuckAt(Step(tails, a, utf8).0[i], b, utf8)
  {
    match a
    case Discover(file) =>
    case Grow(k, more) =>
      GrowthStaysSpoiled(tails[i].file, more, b, utf8);
      GrowthStaysNear(tails[i].file, more, tails[i].offset, b);
      GrowthStaysNear(tails[i].file, more, tails[i].saved, b);
    case Restart =>
    case ReadNext =>
      StuckPump(tails[i], b, utf8);
      PumpAllEffect(tails, utf8, i);
      FailedStepAt(tails, utf8, i);
  }

  /** While some file is blocked nothing is delivered. */
  lemma BlockedStepDelivers(tails: seq<Tail>, a: Action, i: nat, utf8: Bytes -> bool)
    requires InBounds(tails) && OnBoundaries(tails) && i < |tails| && Blocked(tails[i], utf8)
    ensures forall j :: DeliveredOf(Step(tails, a, utf8).0, j) == DeliveredOf(tails, j)
  {
    if a.ReadNext? {
      PumpAllEffect(tails, utf8, i);
    }
  }

  /** Once some file is stuck the source delivers no further line of any file,
      whatever is found, appended, read or restarted. */
  lemma {:induction false} StuckFileStopsSource(
    tails: seq<Tail>, actions: seq<Action>, i: nat, b: nat, utf8: Bytes -> bool)
    requires InBounds(tails) && OnBoundaries(tails) && i < |tails| && StuckAt(tails[i], b, utf8)
    ensures forall j :: DeliveredOf(RunOn(tails, actions, utf8), j) == DeliveredOf(tails, j)
    decreases |actions|
  {
    if actions != [] {
      var next := Step(tails, actions[0], utf8).0;
      forall j | 0 <= j < |next|
        ensures Boundary(next[j].file, next[j].offset) && Boundary(next[j].file, next[j].saved)
      {
        StepOnBoundaries(tails, actions[0], utf8, j);
      }
      StuckPump(tails[i], b, utf8);
      BlockedStepDelivers(tails, actions[0], i, utf8);
      StepStaysStuck(tails, actions[0], i, b, utf8);
      StuckFileStopsSource(next, actions[1..], i, b, utf8);
    }
  }

  // ---- A run that loses a line ----------------------------------------------

  const MIXED: Bytes := [97, NL, 255, NL]

  /** One read of a file whose second line does not decode returns nothing, though
      the tailer is past the first line; and no call ever delivers it. */
  lemma LineBeforeUndecodableIsLost(utf8: Bytes -> bool, more: seq<Action>)
    requires utf8([97, NL]) && !utf8([255, NL])
    ensures RunOn([], [Discover(MIXED), ReadNext], utf8) == [Tail(MIXED, 2, 0, [])]
    ensures Kept(MIXED, 0, 2) == [[97]]
    ensures DeliveredOf(RunOn([Tail(MIXED, 2, 0, [])], more, utf8), 0) == []
  {
    assert LineEnd(MIXED, 0) == 2 && LineEnd(MIXED, 2) == 4;
    assert MIXED[0..2] == [97, NL] && MIXED[2..4] == [255, NL];
    assert [97, NL][..1] == [97] && Trim([97, NL]) == Trim([97]) == [97];
    assert Kept(MIXED, 0, 2) == [[97]] + Kept(MIXED, 2, 2);
    var found := Tail(MIXED, 0, 0, []);
    assert FirstUndecodable(MIXED, 0, utf8) == FirstUndecodable(MIXED, 2, utf8) == Some(2);
    PumpFails(found, utf8);
    assert PumpAll([found], utf8) == ([found.(offset := 2)] + [], false);
    assert Step([found], ReadNext, utf8).0 == [found.(offset := 2)];
    assert Step([], Discover(MIXED), utf8).0 == [found];
    assert [Discover(MIXED), ReadNext][1..] == [ReadNext] && [ReadNext][1..] == [];
    assert RunOn([found], [ReadNext], utf8) == RunOn(Step([found], ReadNext, utf8).0, [], utf8);
    StuckFileStopsSource([Tail(MIXED, 2, 0, [])], more, 0, 2, utf8);
  }

  // ---- What counts as a line ------------------------------------------------

  lemma {:induction false} TrimmedEnd(raw: Bytes) returns (tail: Bytes)
    ensures raw == Trim(raw) + tail && forall i :: 0 <= i < |tail| ==> tail[i] == 10 || tail[i] == 13
    ensures Trim(raw) != [] ==> Trim(raw)[|Trim(raw)| - 1] != 10 && Trim(raw)[|Trim(raw)| - 1] != 13
    decreases |raw|
  {
    if raw != [] && (raw[|raw| - 1] == NL || raw[|raw| - 1] == CR) {
      tail := TrimmedEnd(raw[..|raw| - 1]);
      tail := tail + [raw[|raw| - 1]];
      assert raw == raw[..|raw| - 1] + [raw[|raw| - 1]];
    } else {
      tail := [];
    }
  }

  /** A line ends at the first newline from its start. Its newlines and carriage
      returns are taken off its end, and it is kept unless more than a mebibyte is
      left. */
  lemma LineEffect(file: Bytes, off: nat, n: nat)
    requires off <= n < |file| && file[n] == 10 && forall k :: off <= k < n ==> file[k] != 10
    ensures exists line: Bytes, tail: Bytes :: && file[off..n + 1] == line + tail
                                 && (forall i :: 0 <= i < |tail| ==> tail[i] == 10 || tail[i] == 13)
                                 && (line != [] ==> line[|line| - 1] != 10 && line[|line| - 1] != 13)
                                 && Kept(file, off, n + 1) == if |line| > 1048576 then [] else [line]
  {
    assert LineEnd(file, off) == n + 1;
    var raw := file[off..n + 1];
    var tail := TrimmedEnd(raw);
    assert Kept(file, n + 1, n + 1) == [];
    assert Kept(file, off, n + 1) == (if Oversize(raw) then [] else [Trim(raw)]) + Kept(file, n + 1, n + 1);
    assert raw == Trim(raw) + tail;
  }

  /** One read gives at most 256 lines, and fewer, if it does not fail, only when
      no complete line is left. */
  lemma BatchEffect(file: Bytes, off: nat, utf8: Bytes -> bool)
    requires Boundary(file, off)
    ensures var r := ReadFrom(file, off, 0, utf8);
            && |r.lines| <= 256 && Texts(r.lines) == Kept(file, off, r.offset)
            && (!r.invalid && |r.lines| < 256 ==> forall k :: r.offset <= k < |file| ==> file[k] != 10)
  {
    ReadFromExhausts(file, off, 0, utf8);
    ReadFromCollects(file, off, 0, utf8);
  }
}

/** Grouping lines into records: a line with the configured prefix starts a new
    record, and a record that grows too large is flushed early. */
module Multiline {
  import opened Domain
  import opened Utf8

  /** No prefix, or an empty one, makes every line a record of its own. */
  datatype Config = Config(startsWith: Option<string>, maxBytes: nat)

  predicate IsBoundary(config: Config, line: string) {
    config.startsWith.None? || config.startsWith.value == "" || config.startsWith.value <= line
  }

  /** The lines of one record, joined by newlines. */
  function Join(lines: seq<string>): string {
    if lines == [] then ""
    else if |lines| == 1 then lines[0]
    else lines[0] + "\n" + Join(lines[1..])
  }

  function Concat(groups: seq<seq<string>>): seq<string> {
    if groups == [] then [] else groups[0] + Concat(groups[1..])
  }

  function JoinEach(groups: seq<seq<string>>): seq<string> {
    if groups == [] then [] else [Join(groups[0])] + JoinEach(groups[1..])
  }

  // ---- The accumulator on groups of lines -----------------------------------

  /** Feeding one line to the lines buffered so far: the record it completes, if
      any, and the lines buffered next. */
  function Push(config: Config, group: seq<string>, line: string): (Option<seq<string>>, seq<string>) {
    if IsBoundary(config, line) && group != [] then (Some(group), [line])
    else if ByteLen(Join(group + [line])) >= config.maxBytes then (Some(group + [line]), [])
    else (None, group + [line])
  }

  /** The records of a whole stream, the final flush included. */
  function Records(config: Config, group: seq<string>, lines: seq<string>): seq<seq<string>>
    decreases |lines|
  {
    if lines == [] then (if group == [] then [] else [group])
    else
      var (emitted, next) := Push(config, group, lines[0]);
      (if emitted.Some? then [emitted.value] else []) + Records(config, next, lines[1..])
  }

  /** Nothing is lost, added or reordered. */
  lemma {:induction false} RecordsConserveLines(config: Config, group: seq<string>, lines: seq<string>)
    ensures Concat(Records(config, group, lines)) == group + lines
    decreases |lines|
  {
    if lines == [] {
      assert group != [] ==> Concat([group]) == group + Concat([]);
    } else {
      var (emitted, next) := Push(config, group, lines[0]);
      RecordsConserveLines(config, next, lines[1..]);
      var rest := Records(config, next, lines[1..]);
      if emitted.Some? {
        assert ([emitted.value] + rest)[1..] == rest;
        assert Concat([emitted.value] + rest) == emitted.value + Concat(rest);
      } else {
        assert [] + rest == rest;
      }
      assert group + lines == (group + [lines[0]]) + lines[1..];
    }
  }

  ghost predicate BoundaryOnlyFirst(config: Config, group: seq<string>) {
    forall i :: 0 < i < |group| ==> !IsBoundary(config, group[i])
  }

  /** The lines before the pushed one stay together, and the pushed line either
      joins them or starts the next record. */
  lemma PushSplits(config: Config, group: seq<string>, line: string)
    requires BoundaryOnlyFirst(config, group)
    ensures var (emitted, next) := Push(config, group, line);
            && BoundaryOnlyFirst(config, next)
            && (emitted.None? ==> next == group + [line])
            && (emitted.Some? ==> emitted.value != [] && BoundaryOnlyFirst(config, emitted.value))
            && (emitted.Some? && next != [] ==> next == [line] && IsBoundary(config, line))
            && (emitted.Some? && next == [] ==> ByteLen(Join(emitted.value)) >= config.maxBytes)
  {}

  ghost predicate StartsWell(config: Config, record: seq<string>) {
    record != [] && BoundaryOnlyFirst(config, record)
  }

  /** A prefix line occurs only at the start of a record, and a record that does
      not start with one follows a record flushed for its size. */
  ghost predicate FollowsWell(config: Config, previous: seq<string>, record: seq<string>) {
    record != [] && (IsBoundary(config, record[0]) || ByteLen(Join(previous)) >= config.maxBytes)
  }

  lemma {:induction false} FirstRecord(config: Config, group: seq<string>, lines: seq<string>)
    requires group + lines != []
    ensures Records(config, group, lines) != [] && Records(config, group, lines)[0] != []
    ensures Records(config, group, lines)[0][0] == (group + lines)[0]
    decreases |lines|
  {
    if lines != [] {
      var (emitted, next) := Push(config, group, lines[0]);
      if emitted.None? {
        assert group + lines == next + lines[1..];
        FirstRecord(config, next, lines[1..]);
        assert [] + Records(config, next, lines[1..]) == Records(config, next, lines[1..]);
      }
    }
  }

  lemma {:induction false} RecordsStartAtBoundaries(config: Config, group: seq<string>, lines: seq<string>)
    requires BoundaryOnlyFirst(config, group)
    ensures forall i :: 0 <= i < |Records(config, group, lines)| ==>
              StartsWell(config, Records(config, group, lines)[i])
    ensures forall i :: 0 < i < |Records(config, group, lines)| ==>
              FollowsWell(config, Records(config, group, lines)[i - 1], Records(config, group, lines)[i])
    decreases |lines|
  {
    if lines != [] {
      var (emitted, next) := Push(config, group, lines[0]);
      PushSplits(config, group, lines[0]);
      RecordsStartAtBoundaries(config, next, lines[1..]);
      var rest := Records(config, next, lines[1..]);
      if emitted.None? {
        assert [] + rest == rest;
      } else {
        ConsFollowsWell(config, emitted.value, rest);
        if rest != [] && next != [] {
          FirstRecord(config, next, lines[1..]);
        }
      }
    }
  }

  lemma ConsFollowsWell(config: Config, first: seq<string>, rest: seq<seq<string>>)
    requires forall i :: 0 < i < |rest| ==> FollowsWell(config, rest[i - 1], rest[i])
    ensures rest == [] || FollowsWell(config, first, rest[0]) ==>
              forall i :: 0 < i < |[first] + rest| ==> FollowsWell(config, ([first] + rest)[i - 1], ([first] + rest)[i])
  {
    if rest == [] || FollowsWell(config, first, rest[0]) {
      var all := [first] + rest;
      forall i | 0 < i < |all|
        ensures FollowsWell(config, all[i - 1], all[i])
      {
        if i > 1 {
          assert FollowsWell(config, rest[i - 2], rest[i - 1]);
        }
      }
    }
  }

  /** Beyond its first line it was below the limit each time it grew. */
  ghost predicate GrewBelow(config: Config, record: seq<string>, to: nat) {
    forall k :: 1 < k < to && k <= |record| ==> ByteLen(Join(record[..k])) < config.maxBytes
  }

  lemma {:induction false} RecordsGrowBelow(config: Config, group: seq<string>, lines: seq<string>)
    requires GrewBelow(config, group, |group| + 1)
    ensures forall i :: 0 <= i < |Records(config, group, lines)| ==>
              GrewBelow(config, Records(config, group, lines)[i], |Records(config, group, lines)[i]|)
    decreases |lines|
  {
    if lines != [] {
      var (emitted, next) := Push(config, group, lines[0]);
      var longer := group + [lines[0]];
      assert forall k :: 0 <= k <= |group| ==> longer[..k] == group[..k];
      assert longer[..|longer|] == longer;
      RecordsGrowBelow(config, next, lines[1..]);
    }
  }

  /** What a stream is cut into: lines that do not start with the prefix follow
      one another in a record until it reaches the limit; any other line, and a
      line after a record that reached it, starts the next. Without a prefix
      every line starts one. */
  lemma RecordsEffect(config: Config, lines: seq<string>, i: nat)
    requires i < |Records(config, [], lines)|
    ensures var records := Records(config, [], lines);
            var prefix := if config.startsWith.Some? then config.startsWith.value else "";
            && records[i] != []
            && (forall k :: 0 < k < |records[i]| ==> prefix != "" && !(prefix <= records[i][k]))
            && (forall k :: 1 < k < |records[i]| ==> ByteLen(Join(records[i][..k])) < config.maxBytes)
            && (i > 0 ==> prefix == "" || prefix <= records[i][0] || ByteLen(Join(records[i - 1])) >= config.maxBytes)
  {
    var records := Records(config, [], lines);
    RecordsStartAtBoundaries(config, [], lines);
    RecordsGrowBelow(config, [], lines);
    assert StartsWell(config, records[i]) && GrewBelow(config, records[i], |records[i]|);
    forall k | 0 < k < |records[i]|
      ensures !IsBoundary(config, records[i][k])
    {
      assert BoundaryOnlyFirst(config, records[i]);
    }
    if i > 0 {
      assert FollowsWell(config, records[i - 1], records[i]);
    }
  }

  // ---- Joining records ------------------------------------------------------

  lemma {:induction false} JoinConcat(a: seq<string>, b: seq<string>)
    requires a != [] && b != []
    ensures Join(a + b) == Join(a) + "\n" + Join(b)
  {
    if |a| == 1 {
      assert a + b == [a[0]] + b && (a + b)[1..] == b;
    } else {
      JoinConcat(a[1..], b);
      assert (a + b)[1..] == a[1..] + b;
    }
  }

  lemma {:induction false} JoinOfJoins(groups: seq<seq<string>>)
    requires forall i :: 0 <= i < |groups| ==> groups[i] != []
    ensures Join(JoinEach(groups)) == Join(Concat(groups))
    ensures |JoinEach(groups)| == |groups|
    ensures groups != [] ==> Concat(groups) != []
  {
    if groups != [] {
      JoinOfJoins(groups[1..]);
      var rest := JoinEach(groups[1..]);
      assert JoinEach(groups)[1..] == rest;
      if |groups| > 1 {
        assert |groups[1..]| == |groups| - 1 && |rest| == |groups| - 1;
        JoinConcat(groups[0], Concat(groups[1..]));
        assert Join(JoinEach(groups)) == Join(groups[0]) + "\n" + Join(rest);
      } else {
        assert groups[1..] == [] && JoinEach(groups) == [Join(groups[0])];
        assert Concat(groups) == groups[0] + [] == groups[0];
      }
    }
  }

  /** Joining the emitted records with newlines gives the input joined with
      newlines. */
  lemma StreamRoundTrip(config: Config, lines: seq<string>)
    ensures Join(JoinEach(Records(config, [], lines))) == Join(lines)
  {
    RecordsConserveLines(config, [], lines);
    RecordsStartAtBoundaries(config, [], lines);
    JoinOfJoins(Records(config, [], lines));
    assert [] + lines == lines;
  }

  // ---- The accumulator object -----------------------------------------------

  class MultilineAccumulator {
    const config: Config
    var buffer: string
    ghost var group: seq<string>  // the lines in the buffer

    ghost predicate Valid()
      reads this
    {
      buffer == Join(group) && forall i :: 0 <= i < |group| ==> group[i] != ""
    }

    constructor (config: Config)
      ensures Valid() && group == [] && this.config == config
    {
      this.config := config;
      buffer, group := "", [];
    }

    /** Callers drop empty lines before they get here. */
    method PushLine(line: string) returns (record: Option<string>)
      requires Valid() && line != ""
      modifies this
      ensures Valid()
      ensures var (emitted, next) := Push(config, old(group), line);
              && group == next
              && record == (if emitted.Some? then Some(Join(emitted.value)) else None)
    {
      if IsBoundary(config, line) && buffer != "" {
        record := Some(buffer);
        buffer := line;
        group := [line];
        return;
      }
      if group != [] {
        JoinConcat(group, [line]);
      } else {
        assert group + [line] == [line];
      }
      if buffer != "" {
        buffer := buffer + "\n";
      }
      buffer := buffer + line;
      assert buffer == Join(group + [line]);
      group := group + [line];
      if ByteLen(buffer) >= config.maxBytes {
        record := Some(buffer);
        buffer, group := "", [];
        return;
      }
      return None;
    }

    method Flush() returns (record: Option<string>)
      requires Valid()
      modifies this
      ensures Valid() && group == []
      ensures record == if old(group) == [] then None else Some(Join(old(group)))
    {
      if buffer == "" {
        return None;
      }
      record := Some(buffer);
      buffer, group := "", [];
    }
  }

  /** Feeding a whole stream through the object emits its records. */
  method Accumulate(config: Config, lines: seq<string>) returns (records: seq<string>)
    requires forall i :: 0 <= i < |lines| ==> lines[i] != ""
    ensures records == JoinEach(Records(config, [], lines))
    ensures Join(records) == Join(lines)
  {
    var acc := new MultilineAccumulator(config);
    records := [];
    ghost var emitted: seq<seq<string>> := [];
    var i := 0;
    assert [] + Records(config, [], lines) == Records(config, [], lines);
    while i < |lines|
      invariant 0 <= i <= |lines| && acc.Valid() && acc.config == config && fresh(acc)
      invariant records == JoinEach(emitted)
      invariant emitted + Records(config, acc.group, lines[i..]) == Records(config, [], lines)
    {
      assert lines[i..][1..] == lines[i + 1..];
      ghost var group := acc.group;
      var r := acc.PushLine(lines[i]);
      if r.Some? {
        ghost var done := Push(config, group, lines[i]).0.value;
        JoinEachSnoc(emitted, done);
        assert emitted + ([done] + Records(config, acc.group, lines[i + 1..]))
               == (emitted + [done]) + Records(config, acc.group, lines[i + 1..]);
        emitted := emitted + [done];
        records := records + [r.value];
      } else {
        assert [] + Records(config, acc.group, lines[i + 1..]) == Records(config, acc.group, lines[i + 1..]);
      }
      i := i + 1;
    }
    ghost var last := acc.group;
    var r := acc.Flush();
    if r.Some? {
      JoinEachSnoc(emitted, last);
      records := records + [r.value];
    } else {
      assert emitted + [] == emitted;
    }
    StreamRoundTrip(config, lines);
  }

  lemma {:induction false} JoinEachSnoc(groups: seq<seq<string>>, last: seq<string>)
    ensures JoinEach(groups + [last]) == JoinEach(groups) + [Join(last)]
  {
    if groups != [] {
      JoinEachSnoc(groups[1..], last);
      assert (groups + [last])[1..] == groups[1..] + [last];
    } else {
      assert JoinEach([last]) == [Join(last)] + JoinEach([]);
    }
  }
}

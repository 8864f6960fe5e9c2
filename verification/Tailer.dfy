/** Tailing append-only JSONL files: byte offsets over files that grow between
    reads, partial and oversize lines, the batch cap, and the registry from which
    a restarted process resumes. */
module Tailer {
  import opened Domain
  import opened Utf8

  type Bytes = seq<Byte>

  const NL: Byte := 10
  const CR: Byte := 13
  const MAX_LINE_BYTES: nat := 1024 * 1024
  const MAX_LINES: nat := 256

  datatype TailedLine = TailedLine(line: Bytes, nextOffset: nat)

  // ---- Lines of a file ------------------------------------------------------

  /** Just past the newline that ends the line at off, or the end of the file. */
  function LineEnd(file: Bytes, off: nat): (end: nat)
    requires off <= |file|
    ensures off <= end <= |file| && (off < |file| ==> off < end)
    ensures forall k :: off <= k < end - 1 ==> file[k] != NL
    ensures off < end && file[end - 1] != NL ==> end == |file|
    decreases |file| - off
  {
    if off == |file| then off
    else if file[off] == NL then off + 1
    else LineEnd(file, off + 1)
  }

  /** No line ends at or after an offset. */
  ghost predicate NoLineFrom(file: Bytes, off: nat) {
    forall k :: off <= k < |file| ==> file[k] != NL
  }

  function Trim(raw: Bytes): Bytes {
    if raw != [] && (raw[|raw| - 1] == NL || raw[|raw| - 1] == CR) then Trim(raw[..|raw| - 1]) else raw
  }

  predicate Oversize(raw: Bytes) {
    |Trim(raw)| > MAX_LINE_BYTES
  }

  /** An offset at which a line begins. */
  predicate Boundary(file: Bytes, off: nat) {
    off <= |file| && (off == 0 || file[off - 1] == NL)
  }

  /** The newline-terminated lines between two offsets that are not oversize. */
  function Kept(file: Bytes, from: nat, to: nat): seq<Bytes>
    requires from <= to <= |file|
    decreases |file| - from
  {
    var end := LineEnd(file, from);
    if from == to || end > to || end == from || file[end - 1] != NL then []
    else (if Oversize(file[from..end]) then [] else [Trim(file[from..end])]) + Kept(file, end, to)
  }

  // ---- One read -------------------------------------------------------------

  /** What the read loop does from an offset with `count` lines already
      collected: the further lines, the offset reached, and whether a line was
      not valid UTF-8. */
  datatype ReadResult = ReadResult(lines: seq<TailedLine>, offset: nat, invalid: bool)

  function ReadFrom(file: Bytes, off: nat, count: nat, utf8: Bytes -> bool): (r: ReadResult)
    requires off <= |file|
    ensures off <= r.offset <= |file|
    decreases |file| - off
  {
    if off == |file| then ReadResult([], off, false)
    else
      var end := LineEnd(file, off);
      var raw := file[off..end];
      if !utf8(raw) then ReadResult([], off, true)
      else if raw == [] || raw[|raw| - 1] != NL then ReadResult([], off, false)
      else if Oversize(raw) then ReadFrom(file, end, count, utf8)
      else
        var line := TailedLine(Trim(raw), end);
        if count + 1 >= MAX_LINES then ReadResult([line], end, false)
        else
          var rest := ReadFrom(file, end, count + 1, utf8);
          ReadResult([line] + rest.lines, rest.offset, rest.invalid)
  }

  function Texts(lines: seq<TailedLine>): seq<Bytes> {
    if lines == [] then [] else [lines[0].line] + Texts(lines[1..])
  }

  /** A read stops at a line boundary and collects exactly the kept lines between
      its two offsets. */
  lemma {:induction false} ReadFromCollects(file: Bytes, off: nat, count: nat, utf8: Bytes -> bool)
    requires Boundary(file, off)
    ensures var r := ReadFrom(file, off, count, utf8);
            Boundary(file, r.offset) && Texts(r.lines) == Kept(file, off, r.offset)
    decreases |file| - off
  {
    if off < |file| {
      var end := LineEnd(file, off);
      var raw := file[off..end];
      if utf8(raw) && raw[|raw| - 1] == NL {
        if Oversize(raw) {
          ReadFromCollects(file, end, count, utf8);
        } else if count + 1 < MAX_LINES {
          ReadFromCollects(file, end, count + 1, utf8);
          var line, rest := TailedLine(Trim(raw), end), ReadFrom(file, end, count + 1, utf8);
          assert ([line] + rest.lines)[1..] == rest.lines;
        } else {
          assert Texts([TailedLine(Trim(raw), end)]) == [Trim(raw)];
        }
      }
    }
  }

  /** Past the last line collected from off lie only oversize lines. */
  ghost predicate EndsWell(file: Bytes, off: nat, r: ReadResult) {
    && Boundary(file, r.offset)
    && (r.lines != [] ==>
          var last := r.lines[|r.lines| - 1].nextOffset;
          off < last <= r.offset && Boundary(file, last) && Kept(file, last, r.offset) == [])
  }

  lemma {:induction false} ReadFromLast(file: Bytes, off: nat, count: nat, utf8: Bytes -> bool)
    requires Boundary(file, off)
    ensures EndsWell(file, off, ReadFrom(file, off, count, utf8))
    decreases |file| - off
  {
    if off < |file| {
      var end := LineEnd(file, off);
      ReadStops(file, off, count, utf8);
      if Finished(file, off, end, utf8) {
        if Oversize(file[off..end]) {
          ReadFromLast(file, end, count, utf8);
          OversizeLineEndsWell(file, off, count, utf8);
        } else if count + 1 < MAX_LINES {
          ReadFromLast(file, end, count + 1, utf8);
          ReadFromCollects(file, end, count + 1, utf8);
          KeptLineEndsWell(file, off, count, utf8);
        } else {
          CappedLineEndsWell(file, off, count, utf8);
        }
      }
    }
  }

  lemma OversizeLineEndsWell(file: Bytes, off: nat, count: nat, utf8: Bytes -> bool)
    requires off < |file|
    requires var end := LineEnd(file, off);
             && utf8(file[off..end]) && file[end - 1] == NL && Oversize(file[off..end])
             && EndsWell(file, end, ReadFrom(file, end, count, utf8))
    ensures EndsWell(file, off, ReadFrom(file, off, count, utf8))
  {}

  lemma KeptLineEndsWell(file: Bytes, off: nat, count: nat, utf8: Bytes -> bool)
    requires off < |file| && count + 1 < MAX_LINES
    requires var end := LineEnd(file, off);
             && utf8(file[off..end]) && file[end - 1] == NL && !Oversize(file[off..end])
             && EndsWell(file, end, ReadFrom(file, end, count + 1, utf8))
             && Texts(ReadFrom(file, end, count + 1, utf8).lines)
                == Kept(file, end, ReadFrom(file, end, count + 1, utf8).offset)
    ensures EndsWell(file, off, ReadFrom(file, off, count, utf8))
  {
    var end := LineEnd(file, off);
  }

  lemma CappedLineEndsWell(file: Bytes, off: nat, count: nat, utf8: Bytes -> bool)
    requires off < |file| && count + 1 >= MAX_LINES
    requires var end := LineEnd(file, off);
             utf8(file[off..end]) && file[end - 1] == NL && !Oversize(file[off..end])
    ensures EndsWell(file, off, ReadFrom(file, off, count, utf8))
  {}

  /** A read returns at most the cap, and without an error it returns fewer only
      when no complete line is left. */
  lemma {:induction false} ReadFromExhausts(file: Bytes, off: nat, count: nat, utf8: Bytes -> bool)
    requires off <= |file| && count < MAX_LINES
    ensures var r := ReadFrom(file, off, count, utf8);
            && count + |r.lines| <= MAX_LINES
            && (!r.invalid && count + |r.lines| < MAX_LINES ==> NoLineFrom(file, r.offset))
    decreases |file| - off
  {
    if off < |file| {
      var end := LineEnd(file, off);
      var raw := file[off..end];
      if utf8(raw) && raw[|raw| - 1] == NL {
        if Oversize(raw) {
          ReadFromExhausts(file, end, count, utf8);
        } else if count + 1 < MAX_LINES {
          ReadFromExhausts(file, end, count + 1, utf8);
        }
      }
    }
  }

  lemma {:induction false} KeptSplits(file: Bytes, from: nat, mid: nat, to: nat)
    requires from <= mid <= to <= |file| && Boundary(file, from) && Boundary(file, mid)
    ensures Kept(file, from, to) == Kept(file, from, mid) + Kept(file, mid, to)
    decreases |file| - from
  {
    if from < mid {
      KeptSplits(file, LineEnd(file, from), mid, to);
    }
  }

  /** Appending to a file changes no line before its old end. */
  lemma {:induction false} KeptAfterGrowth(file: Bytes, more: Bytes, from: nat, to: nat)
    requires from <= to <= |file| && Boundary(file, from) && Boundary(file, to)
    ensures Kept(file + more, from, to) == Kept(file, from, to)
    decreases |file| - from
  {
    if from < to {
      var end := LineEnd(file, from);
      SameLineEnd(file, more, from);
      assert (file + more)[from..end] == file[from..end];
      KeptAfterGrowth(file, more, end, to);
    }
  }

  lemma SameLineEnd(file: Bytes, more: Bytes, from: nat)
    requires from < |file| && file[LineEnd(file, from) - 1] == NL
    ensures LineEnd(file + more, from) == LineEnd(file, from)
  {
    var end, end' := LineEnd(file, from), LineEnd(file + more, from);
    assert (file + more)[end - 1] == NL;
    assert end' <= end;
    assert (file + more)[end' - 1] == file[end' - 1];
  }

  // ---- The tailer and the registry ------------------------------------------

  /** A file on disk; None when the path does not resolve. */
  datatype FileState = FileState(inode: nat, bytes: Bytes)

  datatype RegistryEntry = RegistryEntry(inode: nat, lastOffset: nat)

  class Registry {
    var entries: map<string, RegistryEntry>

    constructor ()
      ensures entries == map[]
    {
      entries := map[];
    }

    method Upsert(path: string, entry: RegistryEntry)
      modifies this
      ensures entries == old(entries)[path := entry]
    {
      entries := entries[path := entry];
    }

    /** Advance an entry; an unknown path is ignored. */
    method Advance(path: string, offset: nat)
      modifies this
      ensures entries == if path in old(entries) then old(entries)[path := old(entries)[path].(lastOffset := offset)]
                         else old(entries)
    {
      if path in entries {
        entries := entries[path := entries[path].(lastOffset := offset)];
      }
    }
  }

  /** What the caller gets of a read, and the offset it leaves. */
  predicate Gives(read: ReadResult, r: Option<seq<TailedLine>>, offset: nat) {
    offset == read.offset && r == if read.invalid then None else Some(read.lines)
  }

  class JsonlTailer {
    const path: string
    var inode: nat
    var offset: nat

    /** A known file of the same inode resumes at its saved offset, if the file
        still reaches that far; every other file starts at 0. */
    constructor OpenWithRegistry(path: string, registry: Registry, file: FileState)
      modifies registry
      ensures this.path == path && inode == file.inode
      ensures offset == if path in old(registry.entries) && old(registry.entries)[path].inode == file.inode
                           && old(registry.entries)[path].lastOffset <= |file.bytes|
                        then old(registry.entries)[path].lastOffset else 0
      ensures registry.entries == old(registry.entries)[path := RegistryEntry(inode, offset)]
    {
      this.path := path;
      inode := file.inode;
      if path in registry.entries && registry.entries[path].inode == file.inode
         && registry.entries[path].lastOffset <= |file.bytes| {
        offset := registry.entries[path].lastOffset;
      } else {
        offset := 0;
      }
      new;
      registry.Upsert(path, RegistryEntry(inode, offset));
    }

    /** Reads on from the offset; a rotated or truncated file starts over. None is
        an I/O error: the lines collected so far are dropped, yet the offset stays
        advanced past them. */
    method ReadAvailableLines(file: Option<FileState>, utf8: Bytes -> bool) returns (r: Option<seq<TailedLine>>)
      modifies this
      ensures file.None? ==> r == Some([]) && offset == old(offset) && inode == old(inode)
      ensures file.Some? ==> inode == file.value.inode
      ensures file.Some? && old(inode) == file.value.inode && old(offset) <= |file.value.bytes| ==>
                Gives(ReadFrom(file.value.bytes, old(offset), 0, utf8), r, offset)
      ensures file.Some? && (old(inode) != file.value.inode || old(offset) > |file.value.bytes|) ==>
                Gives(ReadFrom(file.value.bytes, 0, 0, utf8), r, offset)
    {
      if file.None? {
        return Some([]);
      }
      if file.value.inode != inode {
        inode := file.value.inode;
        offset := 0;
      }
      if offset > |file.value.bytes| {
        offset := 0;
      }
      if |file.value.bytes| == offset {
        return Some([]);
      }
      r := CollectLines(file.value.bytes, utf8);
    }

    /** The read loop from the current offset. */
    method CollectLines(bytes: Bytes, utf8: Bytes -> bool) returns (r: Option<seq<TailedLine>>)
      requires offset <= |bytes|
      modifies this`offset
      ensures Gives(ReadFrom(bytes, old(offset), 0, utf8), r, offset)
    {
      var out := [];
      ghost var expected := ReadFrom(bytes, offset, 0, utf8);
      ReadStarts(bytes, offset, utf8);
      while offset < |bytes|
        invariant offset <= |bytes| && |out| < MAX_LINES
        invariant Continues(expected, out, ReadAfter(bytes, offset, |out|, utf8))
        decreases |bytes| - offset
      {
        var end := LineEnd(bytes, offset);
        var raw := bytes[offset..end];
        if !utf8(raw) {
          ReadEnds(expected, out, bytes, offset, utf8);
          return None;
        }
        if raw[|raw| - 1] != NL {
          ReadEnds(expected, out, bytes, offset, utf8);
          return Some(out);
        }
        ReadGoesOn(expected, out, bytes, offset, utf8);
        if !Oversize(raw) {
          out := out + [TailedLine(Trim(raw), end)];
        }
        offset := end;
        if |out| >= MAX_LINES {
          ReadEnds(expected, out, bytes, offset, utf8);
          return Some(out);
        }
      }
      ReadEnds(expected, out, bytes, offset, utf8);
      return Some(out);
    }
  }

  /** The rest of a read, which is over when the cap is reached. */
  function ReadAfter(file: Bytes, off: nat, count: nat, utf8: Bytes -> bool): ReadResult
    requires off <= |file|
  {
    if count >= MAX_LINES then ReadResult([], off, false) else ReadFrom(file, off, count, utf8)
  }

  lemma ReadStarts(file: Bytes, off: nat, utf8: Bytes -> bool)
    requires off <= |file|
    ensures Continues(ReadFrom(file, off, 0, utf8), [], ReadAfter(file, off, 0, utf8))
  {
    assert [] + ReadFrom(file, off, 0, utf8).lines == ReadFrom(file, off, 0, utf8).lines;
  }

  /** At the cap, at the end of the file, or at an unfinished or undecodable line
      the whole read is what was collected. */
  lemma ReadEnds(whole: ReadResult, out: seq<TailedLine>, file: Bytes, off: nat, utf8: Bytes -> bool)
    requires off <= |file| && Continues(whole, out, ReadAfter(file, off, |out|, utf8))
    requires |out| >= MAX_LINES || off == |file| || !Finished(file, off, LineEnd(file, off), utf8)
    ensures whole.lines == out && whole.offset == off
    ensures whole.invalid <==> |out| < MAX_LINES && off < |file| && !utf8(file[off..LineEnd(file, off)])
  {
    if |out| < MAX_LINES && off < |file| {
      ReadStops(file, off, |out|, utf8);
    }
    assert out + [] == out;
  }

  lemma ReadGoesOn(whole: ReadResult, out: seq<TailedLine>, file: Bytes, off: nat, utf8: Bytes -> bool)
    requires off < |file| && |out| < MAX_LINES && Continues(whole, out, ReadAfter(file, off, |out|, utf8))
    requires Finished(file, off, LineEnd(file, off), utf8)
    ensures var end := LineEnd(file, off);
            if Oversize(file[off..end]) then Continues(whole, out, ReadAfter(file, end, |out|, utf8))
            else Continues(whole, out + [TailedLine(Trim(file[off..end]), end)], ReadAfter(file, end, |out| + 1, utf8))
  {
    var end := LineEnd(file, off);
    if Oversize(file[off..end]) {
      ReadSkips(file, off, |out|, utf8);
    } else {
      ReadKeeps(file, off, |out|, utf8);
      ContinuesCons(whole, out, TailedLine(Trim(file[off..end]), end), ReadAfter(file, end, |out| + 1, utf8));
    }
  }

  predicate Finished(file: Bytes, off: nat, end: nat, utf8: Bytes -> bool)
    requires off <= end <= |file|
  {
    off < end && utf8(file[off..end]) && file[end - 1] == NL
  }

  /** At an undecodable or unfinished line the read ends where it is. */
  lemma ReadStops(file: Bytes, off: nat, count: nat, utf8: Bytes -> bool)
    requires off < |file|
    ensures var end := LineEnd(file, off);
            !Finished(file, off, end, utf8) ==>
              ReadFrom(file, off, count, utf8) == ReadResult([], off, !utf8(file[off..end]))
  {}

  lemma ReadSkips(file: Bytes, off: nat, count: nat, utf8: Bytes -> bool)
    requires off < |file| && Finished(file, off, LineEnd(file, off), utf8)
    ensures var end := LineEnd(file, off);
            Oversize(file[off..end]) ==> ReadFrom(file, off, count, utf8) == ReadFrom(file, end, count, utf8)
  {}

  /** A kept line comes first. */
  lemma ReadKeeps(file: Bytes, off: nat, count: nat, utf8: Bytes -> bool)
    requires off < |file| && Finished(file, off, LineEnd(file, off), utf8)
    requires !Oversize(file[off..LineEnd(file, off)])
    ensures var end := LineEnd(file, off);
            var rest := ReadAfter(file, end, count + 1, utf8);
            ReadFrom(file, off, count, utf8)
            == ReadResult([TailedLine(Trim(file[off..end]), end)] + rest.lines, rest.offset, rest.invalid)
  {}

  lemma ContinuesCons(whole: ReadResult, out: seq<TailedLine>, line: TailedLine, rest: ReadResult)
    requires Continues(whole, out, ReadResult([line] + rest.lines, rest.offset, rest.invalid))
    ensures Continues(whole, out + [line], rest)
  {}

  /** The whole read is what was collected followed by the rest. */
  ghost predicate Continues(whole: ReadResult, out: seq<TailedLine>, rest: ReadResult) {
    whole == ReadResult(out + rest.lines, rest.offset, rest.invalid)
  }

  // ---- A source over several files ------------------------------------------

  /** One file: its bytes, the tailer's offset, the offset saved in the registry,
      and the lines returned to the caller so far. */
  datatype Tail = Tail(file: Bytes, offset: nat, saved: nat, delivered: seq<Bytes>)

  datatype Action = Discover(file: Bytes) | Grow(i: nat, more: Bytes) | ReadNext | Restart

  function LastOffset(lines: seq<TailedLine>, saved: nat): nat {
    if lines == [] then saved else lines[|lines| - 1].nextOffset
  }

  lemma {:induction false} OffsetsInBounds(file: Bytes, off: nat, count: nat, utf8: Bytes -> bool)
    requires off <= |file|
    ensures forall i :: 0 <= i < |ReadFrom(file, off, count, utf8).lines| ==>
              ReadFrom(file, off, count, utf8).lines[i].nextOffset <= |file|
    decreases |file| - off
  {
    if off < |file| {
      var end := LineEnd(file, off);
      var raw := file[off..end];
      if utf8(raw) && raw[|raw| - 1] == NL {
        if Oversize(raw) {
          OffsetsInBounds(file, end, count, utf8);
        } else if count + 1 < MAX_LINES {
          OffsetsInBounds(file, end, count + 1, utf8);
        }
      }
    }
  }

  /** The turn a line holds, if the parser recognises one. */
  function TurnIn<T>(line: TailedLine, parse: Bytes -> Option<T>): seq<T> {
    match parse(line.line)
    case Some(turn) => [turn]
    case None => []
  }

  function TurnsOf<T>(lines: seq<TailedLine>, parse: Bytes -> Option<T>): seq<T> {
    if lines == [] then [] else TurnIn(lines[0], parse) + TurnsOf(lines[1..], parse)
  }

  /** Turns come line by line. */
  lemma {:induction false} TurnsInOrder<T>(a: seq<TailedLine>, b: seq<TailedLine>, parse: Bytes -> Option<T>)
    ensures TurnsOf(a + b, parse) == TurnsOf(a, parse) + TurnsOf(b, parse)
    decreases |a|
  {
    if a == [] {
      assert a + b == b;
    } else {
      TurnsInOrder(a[1..], b, parse);
      assert (a + b)[0] == a[0] && (a + b)[1..] == a[1..] + b;
      var first, rest, more := TurnIn(a[0], parse), TurnsOf(a[1..], parse), TurnsOf(b, parse);
      assert first + (rest + more) == (first + rest) + more;
    }
  }

  lemma TurnsOfOne<T>(line: TailedLine, parse: Bytes -> Option<T>)
    ensures TurnsOf([line], parse) == TurnIn(line, parse)
  {
    assert [line][1..] == [];
    assert TurnIn(line, parse) + [] == TurnIn(line, parse);
  }

  lemma TurnsOfSnoc<T>(lines: seq<TailedLine>, last: TailedLine, parse: Bytes -> Option<T>)
    ensures TurnsOf(lines + [last], parse) == TurnsOf(lines, parse) + TurnIn(last, parse)
  {
    TurnsInOrder(lines, [last], parse);
    TurnsOfOne(last, parse);
  }

  /** The loop over one file's lines: the registry entry advances over every
      line, whether or not it holds a turn. */
  method AdvanceOver<T>(registry: Registry, path: string, lines: seq<TailedLine>, parse: Bytes -> Option<T>)
    returns (turns: seq<T>)
    requires path in registry.entries
    modifies registry
    ensures turns == TurnsOf(lines, parse)
    ensures var entry := old(registry.entries)[path];
            registry.entries == old(registry.entries)[path := entry.(lastOffset := LastOffset(lines, entry.lastOffset))]
  {
    turns := [];
    var i := 0;
    assert lines[..0] == [];
    while i < |lines|
      invariant 0 <= i <= |lines| && path in registry.entries
      invariant turns == TurnsOf(lines[..i], parse)
      invariant registry.entries == old(registry.entries)[path :=
                  old(registry.entries)[path].(lastOffset :=
                    LastOffset(lines[..i], old(registry.entries)[path].lastOffset))]
    {
      assert lines[..i + 1] == lines[..i] + [lines[i]];
      TurnsOfSnoc(lines[..i], lines[i], parse);
      match parse(lines[i].line) {
        case Some(turn) => turns := turns + [turn];
        case None =>
      }
      registry.Advance(path, lines[i].nextOffset);
      i := i + 1;
    }
    assert lines[..i] == lines;
  }

  /** Reading one file and advancing its registry entry line by line; false when
      the read ends in an error, which drops the lines it collected. */
  function Pump(t: Tail, utf8: Bytes -> bool): (r: (Tail, bool))
    requires t.offset <= |t.file| && t.saved <= |t.file|
    ensures r.0.file == t.file && r.0.offset <= |t.file| && r.0.saved <= |t.file|
  {
    var read := ReadFrom(t.file, t.offset, 0, utf8);
    OffsetsInBounds(t.file, t.offset, 0, utf8);
    if read.invalid then (t.(offset := read.offset), false)
    else (Tail(t.file, read.offset, LastOffset(read.lines, t.saved), t.delivered + Texts(read.lines)), true)
  }

  /** One file's part of a call: what it does to the tailer's offset, to the saved
      one and to the lines delivered is what Pump does. */
  method PumpFile<T>(
    tailer: JsonlTailer, registry: Registry, file: FileState, utf8: Bytes -> bool, parse: Bytes -> Option<T>,
    ghost delivered: seq<Bytes>)
    returns (turns: Option<seq<T>>, ghost lines: seq<TailedLine>)
    requires tailer.path in registry.entries && tailer.inode == file.inode
    requires tailer.offset <= |file.bytes| && registry.entries[tailer.path].lastOffset <= |file.bytes|
    modifies tailer, registry
    ensures var t := Tail(file.bytes, old(tailer.offset), old(registry.entries)[tailer.path].lastOffset, delivered);
            var (t', ok) := Pump(t, utf8);
            && tailer.offset == t'.offset && tailer.inode == old(tailer.inode)
            && registry.entries.Keys == old(registry.entries).Keys
            && registry.entries[tailer.path] == old(registry.entries)[tailer.path].(lastOffset := t'.saved)
            && (forall path :: path in registry.entries && path != tailer.path ==>
                  registry.entries[path] == old(registry.entries)[path])
            && (ok <==> turns.Some?) && t'.delivered == delivered + Texts(lines)
            && (ok ==> turns.value == TurnsOf(lines, parse))
  {
    var read := tailer.ReadAvailableLines(Some(file), utf8);
    if read.None? {
      assert delivered + Texts([]) == delivered;
      return None, [];
    }
    var found := AdvanceOver(registry, tailer.path, read.value, parse);
    return Some(found), read.value;
  }

  predicate InBounds(tails: seq<Tail>) {
    forall i :: 0 <= i < |tails| ==> tails[i].offset <= |tails[i].file| && tails[i].saved <= |tails[i].file|
  }

  // ---- The source object ----------------------------------------------------

  ghost predicate DistinctTailers(tailers: seq<JsonlTailer>) {
    forall i, j :: 0 <= i < j < |tailers| ==> tailers[i] != tailers[j] && tailers[i].path != tailers[j].path
  }

  /** Every file is known and has not been rotated or truncated. */
  ghost predicate Known(tailers: seq<JsonlTailer>, registry: Registry, files: seq<FileState>)
    reads tailers, registry
  {
    && |files| == |tailers| && DistinctTailers(tailers)
    && forall i :: 0 <= i < |tailers| ==>
         && tailers[i].path in registry.entries && tailers[i].inode == files[i].inode
         && tailers[i].offset <= |files[i].bytes|
         && registry.entries[tailers[i].path].lastOffset <= |files[i].bytes|
  }

  /** The files are read in turn until one read fails. */
  function PumpAll(tails: seq<Tail>, utf8: Bytes -> bool): (r: (seq<Tail>, bool))
    requires InBounds(tails)
    ensures |r.0| == |tails| && InBounds(r.0)
    decreases |tails|
  {
    if tails == [] then ([], true)
    else
      var (t, ok) := Pump(tails[0], utf8);
      if !ok then ([t] + tails[1..], false)
      else
        var (ts, allOk) := PumpAll(tails[1..], utf8);
        ([t] + ts, allOk)
  }

  /** Pumping stops at the first file whose read fails. */
  lemma {:induction false} PumpAllAt(tails: seq<Tail>, f: nat, utf8: Bytes -> bool, j: nat)
    requires InBounds(tails) && f <= |tails| && j < |tails|
    requires forall i :: 0 <= i < f ==> Pump(tails[i], utf8).1
    requires f < |tails| ==> !Pump(tails[f], utf8).1
    ensures PumpAll(tails, utf8).1 <==> f == |tails|
    ensures PumpAll(tails, utf8).0[j] == if j <= f then Pump(tails[j], utf8).0 else tails[j]
    decreases |tails|
  {
    if f > 0 {
      assert Pump(tails[0], utf8).1;
      assert forall i :: 0 <= i < |tails[1..]| ==> tails[1..][i] == tails[i + 1];
      if |tails| > 1 {
        PumpAllAt(tails[1..], f - 1, utf8, if j > 0 then j - 1 else 0);
      }
    }
  }

  function JoinTurns<T>(lines: seq<seq<TailedLine>>, parse: Bytes -> Option<T>): seq<T> {
    if lines == [] then []
    else JoinTurns(lines[..|lines| - 1], parse) + TurnsOf(lines[|lines| - 1], parse)
  }

  /** The tailer's offset and the saved one are the tail's. */
  ghost predicate At(tailer: JsonlTailer, registry: Registry, t: Tail)
    reads tailer, registry
  {
    && tailer.path in registry.entries
    && tailer.offset == t.offset && registry.entries[tailer.path].lastOffset == t.saved
  }

  /** The first files were pumped and the others not touched. */
  ghost predicate Progress(
    tailers: seq<JsonlTailer>, registry: Registry, files: seq<FileState>, before: seq<Tail>, i: nat,
    utf8: Bytes -> bool)
    reads tailers, registry
  {
    && Known(tailers, registry, files) && |before| == |tailers| && InBounds(before) && i <= |tailers|
    && (forall j :: 0 <= j < |tailers| ==> before[j].file == files[j].bytes)
    && (forall j :: 0 <= j < i ==> Pump(before[j], utf8).1 && At(tailers[j], registry, Pump(before[j], utf8).0))
    && (forall j :: i <= j < |tailers| ==> At(tailers[j], registry, before[j]))
  }

  /** The turn of one file in a call. */
  method ReadFileAt<T>(
    tailers: seq<JsonlTailer>, registry: Registry, files: seq<FileState>, ghost before: seq<Tail>, i: nat,
    utf8: Bytes -> bool, parse: Bytes -> Option<T>)
    returns (turns: Option<seq<T>>, ghost lines: seq<TailedLine>)
    requires Progress(tailers, registry, files, before, i, utf8) && i < |tailers|
    modifies tailers[i], registry
    ensures turns.Some? <==> Pump(before[i], utf8).1
    ensures turns.Some? ==>
              && Progress(tailers, registry, files, before, i + 1, utf8) && turns.value == TurnsOf(lines, parse)
              && Pump(before[i], utf8).0.delivered == before[i].delivered + Texts(lines)
    ensures turns.None? ==>
              forall j :: 0 <= j < |tailers| ==>
                At(tailers[j], registry, if j <= i then Pump(before[j], utf8).0 else before[j])
  {
    assert At(tailers[i], registry, before[i]);
    turns, lines := PumpFile(tailers[i], registry, files[i], utf8, parse, before[i].delivered);
    assert At(tailers[i], registry, Pump(before[i], utf8).0);
    forall j | 0 <= j < |tailers| && j != i
      ensures At(tailers[j], registry, if j < i then Pump(before[j], utf8).0 else before[j])
    {
      assert tailers[j] != tailers[i] && tailers[j].path != tailers[i].path;
    }
  }

  /** One call of the source: it reads its files in turn, drops everything when a
      read fails, and leaves the offsets and the registry as PumpAll does. */
  method ReadNext<T>(
    tailers: seq<JsonlTailer>, registry: Registry, files: seq<FileState>, utf8: Bytes -> bool,
    parse: Bytes -> Option<T>, ghost before: seq<Tail>)
    returns (turns: Option<seq<T>>, ghost lines: seq<seq<TailedLine>>)
    requires Progress(tailers, registry, files, before, 0, utf8)
    modifies tailers, registry
    ensures forall i :: 0 <= i < |tailers| ==> At(tailers[i], registry, PumpAll(before, utf8).0[i])
    ensures turns.Some? <==> PumpAll(before, utf8).1
    ensures turns.Some? ==>
              && turns.value == JoinTurns(lines, parse) && |lines| == |tailers|
              && forall i :: 0 <= i < |tailers| ==>
                   PumpAll(before, utf8).0[i].delivered == before[i].delivered + Texts(lines[i])
  {
    var out: seq<T> := [];
    lines := [];
    var i := 0;
    while i < |tailers|
      invariant |lines| == i && Progress(tailers, registry, files, before, i, utf8)
      invariant forall j :: 0 <= j < i ==> Pump(before[j], utf8).0.delivered == before[j].delivered + Texts(lines[j])
      invariant out == JoinTurns(lines, parse)
    {
      var found: Option<seq<T>>;
      ghost var read: seq<TailedLine>;
      found, read := ReadFileAt(tailers, registry, files, before, i, utf8, parse);
      if found.None? {
        PumpAllStops(before, i, utf8);
        return None, lines;
      }
      assert (lines + [read])[..|lines|] == lines;
      lines := lines + [read];
      out := out + found.value;
      i := i + 1;
    }
    PumpAllStops(before, i, utf8);
    turns := Some(out);
  }

  lemma PumpAllStops(tails: seq<Tail>, f: nat, utf8: Bytes -> bool)
    requires InBounds(tails) && f <= |tails|
    requires forall i :: 0 <= i < f ==> Pump(tails[i], utf8).1
    requires f < |tails| ==> !Pump(tails[f], utf8).1
    ensures PumpAll(tails, utf8).1 <==> f == |tails|
    ensures forall j :: 0 <= j < |tails| ==>
              PumpAll(tails, utf8).0[j] == if j <= f then Pump(tails[j], utf8).0 else tails[j]
  {
    forall j | 0 <= j < |tails|
      ensures PumpAll(tails, utf8).1 <==> f == |tails|
      ensures PumpAll(tails, utf8).0[j] == if j <= f then Pump(tails[j], utf8).0 else tails[j]
    {
      PumpAllAt(tails, f, utf8, j);
    }
    if tails != [] {
      PumpAllAt(tails, f, utf8, 0);
    }
  }

  /** A failed call returns nothing, not even what earlier files yielded. */
  function Undelivered(before: seq<Tail>, after: seq<Tail>): seq<Tail>
    requires |before| == |after|
  {
    seq(|after|, i requires 0 <= i < |after| => after[i].(delivered := before[i].delivered))
  }

  /** A step; its flag says whether a read returned an error. */
  function Step(tails: seq<Tail>, a: Action, utf8: Bytes -> bool): (r: (seq<Tail>, bool))
    requires InBounds(tails)
    ensures |tails| <= |r.0| && InBounds(r.0)
  {
    match a
    case Discover(file) => (tails + [Tail(file, 0, 0, [])], true)
    case Grow(i, more) =>
      (if i < |tails| then tails[i := tails[i].(file := tails[i].file + more)] else tails, true)
    case Restart =>
      (seq(|tails|, i requires 0 <= i < |tails| => tails[i].(offset := tails[i].saved)), true)
    case ReadNext =>
      var (ts, ok) := PumpAll(tails, utf8);
      if ok then (ts, true) else (Undelivered(tails, ts), false)
  }

  /** What a tail owes and has paid: the lines delivered are exactly the kept
      lines up to the offset, offsets lie on line boundaries, and between the
      saved offset and the tailer's there are only oversize lines. */
  ghost predicate Conserved(t: Tail) {
    && Boundary(t.file, t.offset) && Boundary(t.file, t.saved) && t.saved <= t.offset
    && t.delivered == Kept(t.file, 0, t.offset)
    && Kept(t.file, t.saved, t.offset) == []
  }

  ghost predicate AllConserved(tails: seq<Tail>) {
    forall i :: 0 <= i < |tails| ==> Conserved(tails[i])
  }

  lemma PumpConserves(t: Tail, utf8: Bytes -> bool)
    requires Conserved(t)
    ensures var (t', ok) := Pump(t, utf8);
            && t'.file == t.file && t.offset <= t'.offset && Boundary(t.file, t'.offset)
            && (ok ==> Conserved(t'))
            && (ok && |t'.delivered| < |t.delivered| + MAX_LINES ==> NoLineFrom(t'.file, t'.offset))
            && |t'.delivered| <= |t.delivered| + MAX_LINES
  {
    var r := ReadFrom(t.file, t.offset, 0, utf8);
    ReadFromCollects(t.file, t.offset, 0, utf8);
    ReadFromLast(t.file, t.offset, 0, utf8);
    ReadFromExhausts(t.file, t.offset, 0, utf8);
    KeptSplits(t.file, 0, t.offset, r.offset);
    KeptSplits(t.file, t.saved, t.offset, r.offset);
    TextsLength(r.lines);
    if r.lines == [] {
      assert t.delivered + Texts(r.lines) == t.delivered;
    }
  }

  lemma {:induction false} TextsLength(lines: seq<TailedLine>)
    ensures |Texts(lines)| == |lines|
  {
    if lines != [] {
      TextsLength(lines[1..]);
    }
  }

  lemma {:induction false} PumpAllConserves(tails: seq<Tail>, utf8: Bytes -> bool)
    requires InBounds(tails) && AllConserved(tails)
    ensures PumpAll(tails, utf8).1 ==> AllConserved(PumpAll(tails, utf8).0)
    decreases |tails|
  {
    if tails != [] {
      PumpConserves(tails[0], utf8);
      PumpAllConserves(tails[1..], utf8);
    }
  }

  lemma GrowthConserves(t: Tail, more: Bytes)
    requires Conserved(t)
    ensures Conserved(t.(file := t.file + more))
  {
    KeptAfterGrowth(t.file, more, 0, t.offset);
    KeptAfterGrowth(t.file, more, t.saved, t.offset);
  }

  lemma RestartConserves(t: Tail)
    requires Conserved(t)
    ensures Conserved(t.(offset := t.saved))
  {
    KeptSplits(t.file, 0, t.saved, t.offset);
  }

  /** Every step but a failed read conserves every file. */
  lemma StepConserves(tails: seq<Tail>, a: Action, utf8: Bytes -> bool)
    requires InBounds(tails) && AllConserved(tails)
    ensures Step(tails, a, utf8).1 ==> AllConserved(Step(tails, a, utf8).0)
  {
    match a
    case Discover(file) =>
      assert Conserved(Tail(file, 0, 0, []));
    case Grow(i, more) =>
      if i < |tails| {
        GrowthConserves(tails[i], more);
      }
    case Restart =>
      forall i | 0 <= i < |tails|
        ensures Conserved(tails[i].(offset := tails[i].saved))
      {
        RestartConserves(tails[i]);
      }
    case ReadNext => PumpAllConserves(tails, utf8);
  }

  /** The tails after a run, or None once a read fails. */
  function Run(tails: seq<Tail>, actions: seq<Action>, utf8: Bytes -> bool): Option<seq<Tail>>
    requires InBounds(tails)
    decreases |actions|
  {
    if actions == [] then Some(tails)
    else
      var (next, ok) := Step(tails, actions[0], utf8);
      if ok then Run(next, actions[1..], utf8) else None
  }

  lemma {:induction false} RunConserves(tails: seq<Tail>, actions: seq<Action>, utf8: Bytes -> bool)
    requires InBounds(tails) && AllConserved(tails)
    ensures var r := Run(tails, actions, utf8); r.Some? ==> AllConserved(r.value)
    decreases |actions|
  {
    if actions != [] {
      StepConserves(tails, actions[0], utf8);
      var (next, ok) := Step(tails, actions[0], utf8);
      if ok {
        RunConserves(next, actions[1..], utf8);
      }
    }
  }

  /** Over any interleaving of discovery, growth, capped reads and restarts in
      which no read fails, each file's delivered lines are exactly its complete
      lines up to the offset that are not oversize, once and in order; the offset
      is at a line boundary and the saved one lags it only by oversize lines. */
  lemma ManyReadsEqualOne(actions: seq<Action>, utf8: Bytes -> bool)
    ensures var r := Run([], actions, utf8);
            r.Some? ==> forall i :: 0 <= i < |r.value| ==> Conserved(r.value[i])
  {
    RunConserves([], actions, utf8);
  }
}

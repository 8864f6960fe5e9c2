/** Resolving the entities a candidate mentions: its subject and object by name,
    created when unknown, then every known entity whose name or alias its text
    contains. Names are compared through two lower-casings, the language's and
    SQLite's, which only knows ASCII. */
module EntityResolver {
  import opened Domain
  import opened Sorting
  import opened Utf8
  import opened WholeWord

  datatype Entity = Entity(id: EntityId, name: string, aliases: seq<string>, deleted: bool)

  /** What the language's library knows about text. */
  datatype Text = Text(lower: string -> string, isSpace: char -> bool, isWord: char -> bool)

  const STOPLIST: seq<string> := [
    "user", "we", "i", "you", "they", "the", "a", "an", "this", "that", "it", "thing", "things",
    "us", "them", "everyone", "anyone", "someone"]

  // ---- Cleaning a name ------------------------------------------------------

  function TrimStart(s: string, drop: char -> bool): string {
    if s != "" && drop(s[0]) then TrimStart(s[1..], drop) else s
  }

  function TrimEnd(s: string, drop: char -> bool): string {
    if s != "" && drop(s[|s| - 1]) then TrimEnd(s[..|s| - 1], drop) else s
  }

  function Trim(s: string, text: Text): string {
    TrimEnd(TrimStart(s, text.isSpace), text.isSpace)
  }

  datatype Strip = Stripped(rest: string) | Kept | Sliced

  /** Slicing at a byte inside a character panics. */
  function StripPrefix(s: string, prefix: string): Strip {
    if ByteLen(s) < |prefix| then Kept
    else match CutAt(s, |prefix|)
      case None => Sliced
      case Some(n) => if LowerAscii(s[..n]) == prefix then Stripped(s[n..]) else Kept
  }

  const ARTICLES: seq<string> := ["the ", "a ", "an "]

  /** Strips at most one article; None when slicing panics. */
  function StripArticle(s: string, articles: seq<string>, text: Text): Option<string>
    decreases |articles|
  {
    if articles == [] then Some(s)
    else match StripPrefix(s, articles[0])
      case Sliced => None
      case Stripped(rest) => Some(Trim(rest, text))
      case Kept => StripArticle(s, articles[1..], text)
  }

  function CleanName(raw: string, text: Text): Option<string> {
    match StripArticle(Trim(raw, text), ARTICLES, text)
    case None => None
    case Some(s) => Some(Trim(TrimEnd(s, (c: char) => c in ".!?,;:"), text))
  }

  // ---- The entities table ---------------------------------------------------

  predicate Live(e: Entity) {
    !e.deleted
  }

  function FindFirst(rows: seq<Entity>, want: Entity -> bool): (r: Option<Entity>)
    ensures r.Some? ==> r.value in rows && want(r.value)
    ensures r.None? ==> forall e :: e in rows ==> !want(e)
  {
    if rows == [] then None else if want(rows[0]) then Some(rows[0]) else FindFirst(rows[1..], want)
  }

  predicate Named(e: Entity, needle: string) {
    Live(e) && LowerAscii(e.name) == needle
  }

  predicate Aliased(e: Entity, needle: string, text: Text) {
    Live(e) && exists i :: 0 <= i < |e.aliases| && text.lower(e.aliases[i]) == needle
  }

  /** By name first, then by alias. */
  function FindByNeedle(rows: seq<Entity>, needle: string, text: Text): Option<Entity> {
    var exact := FindFirst(rows, (e: Entity) => Named(e, needle));
    if exact.Some? then exact else FindFirst(rows, (e: Entity) => Aliased(e, needle, text))
  }

  function FindByName(rows: seq<Entity>, name: string, text: Text): Option<Entity> {
    FindByNeedle(rows, text.lower(name), text)
  }

  /** The unique index on the lower-cased name of live rows, and the key. */
  predicate Insertable(rows: seq<Entity>, e: Entity) {
    forall i :: 0 <= i < |rows| ==>
             rows[i].id != e.id && (Live(rows[i]) ==> LowerAscii(rows[i].name) != LowerAscii(e.name))
  }

  datatype NameResult = Hit(entity: Entity, rows: seq<Entity>) | Ignored | Broken

  /** Find or create the entity a raw name stands for. */
  function ResolveName(raw: string, rows: seq<Entity>, newId: EntityId, text: Text): NameResult {
    match CleanName(raw, text)
    case None => Broken
    case Some(name) =>
      if name == "" || text.lower(name) in STOPLIST || ByteLen(name) < 2 then Ignored
      else match FindByName(rows, name, text)
        case Some(e) => Hit(e, rows)
        case None =>
          var e := Entity(newId, name, [], false);
          if Insertable(rows, e) then Hit(e, rows + [e]) else Broken
  }

  // ---- Resolving a candidate ------------------------------------------------

  datatype Mention = Mention(subj: Option<string>, obj: Option<string>, text: string)

  datatype Outcome = Resolved(ids: seq<EntityId>, rows: seq<Entity>) | Failed

  function AddId(ids: seq<EntityId>, id: EntityId): seq<EntityId> {
    if id in ids then ids else ids + [id]
  }

  function ResolveSpo(raw: Option<string>, o: Outcome, newId: EntityId, text: Text): Outcome {
    if o.Failed? || raw.None? then o
    else match ResolveName(raw.value, o.rows, newId, text)
      case Broken => Failed
      case Ignored => o
      case Hit(e, rows) => Resolved(AddId(o.ids, e.id), rows)
  }

  predicate NameLe(a: string, b: string) {
    a == "" || (b != "" && (a[0] < b[0] || (a[0] == b[0] && NameLe(a[1..], b[1..]))))
  }

  predicate ByName(a: Entity, b: Entity) {
    NameLe(a.name, b.name)
  }

  predicate LongestFirst(a: Entity, b: Entity) {
    ByteLen(a.name) >= ByteLen(b.name)
  }

  /** Live entities ordered by name, then stably by length. */
  function Known(rows: seq<Entity>): seq<Entity> {
    Sort(Sort(Filter(rows, Live), ByName), LongestFirst)
  }

  /** Whether the text contains one of the needles as a word; the search stops at
      the first that is present or panics. */
  function Mentions(haystack: string, needles: seq<string>, text: Text): Verdict
    decreases |needles|
  {
    if needles == [] then Absent
    else if text.lower(needles[0]) == "" then Mentions(haystack, needles[1..], text)
    else match Search(haystack, text.lower(needles[0]), text.isWord, 0)
      case Present => Present
      case Panics => Panics
      case Absent => Mentions(haystack, needles[1..], text)
  }

  function ScanText(known: seq<Entity>, haystack: string, o: Outcome, text: Text): Outcome
    decreases |known|
  {
    if o.Failed? || known == [] then o
    else if known[0].id in o.ids then ScanText(known[1..], haystack, o, text)
    else match Mentions(haystack, [known[0].name] + known[0].aliases, text)
      case Panics => Failed
      case Absent => ScanText(known[1..], haystack, o, text)
      case Present => ScanText(known[1..], haystack, Resolved(o.ids + [known[0].id], o.rows), text)
  }

  function ResolveNames(m: Mention, rows: seq<Entity>, fresh1: EntityId, fresh2: EntityId, text: Text): Outcome {
    ResolveSpo(m.obj, ResolveSpo(m.subj, Resolved([], rows), fresh1, text), fresh2, text)
  }

  /** The subject, the object, then the text against the table as it is now. */
  function Resolve(m: Mention, rows: seq<Entity>, fresh1: EntityId, fresh2: EntityId, text: Text): Outcome {
    var o := ResolveNames(m, rows, fresh1, fresh2, text);
    if o.Failed? then o else ScanText(Known(o.rows), text.lower(m.text), o, text)
  }

  // ---- Properties -----------------------------------------------------------

  /** Live entities have different lower-cased names, and ids are a key. */
  ghost predicate UniqueNames(rows: seq<Entity>) {
    forall i, j :: 0 <= i < j < |rows| ==>
      && rows[i].id != rows[j].id
      && (Live(rows[i]) && Live(rows[j]) ==> LowerAscii(rows[i].name) != LowerAscii(rows[j].name))
  }

  lemma {:induction false} ScanTextOutcome(known: seq<Entity>, haystack: string, o: Outcome, text: Text)
    requires o.Resolved? && NoDuplicates(o.ids)
    ensures var r := ScanText(known, haystack, o, text);
            r.Resolved? ==> r.rows == o.rows && NoDuplicates(r.ids) && o.ids <= r.ids
    decreases |known|
  {
    if known != [] {
      if known[0].id in o.ids {
        ScanTextOutcome(known[1..], haystack, o, text);
      } else {
        match Mentions(haystack, [known[0].name] + known[0].aliases, text)
        case Absent => ScanTextOutcome(known[1..], haystack, o, text);
        case Present => ScanTextOutcome(known[1..], haystack, Resolved(o.ids + [known[0].id], o.rows), text);
        case Panics =>
      }
    }
  }

  lemma SpoKeepsUnique(raw: Option<string>, o: Outcome, newId: EntityId, text: Text)
    requires o.Resolved? ==> UniqueNames(o.rows) && NoDuplicates(o.ids)
    ensures var r := ResolveSpo(raw, o, newId, text);
            r.Resolved? ==> o.Resolved? && UniqueNames(r.rows) && NoDuplicates(r.ids) && o.rows <= r.rows
  {}

  /** Resolution keeps names unique, only adds rows, and returns no id twice. */
  lemma ResolveKeepsUnique(m: Mention, rows: seq<Entity>, fresh1: EntityId, fresh2: EntityId, text: Text)
    requires UniqueNames(rows)
    ensures var r := Resolve(m, rows, fresh1, fresh2, text);
            r.Resolved? ==> UniqueNames(r.rows) && rows <= r.rows && NoDuplicates(r.ids)
  {
    var o1 := ResolveSpo(m.subj, Resolved([], rows), fresh1, text);
    SpoKeepsUnique(m.subj, Resolved([], rows), fresh1, text);
    var o2 := ResolveSpo(m.obj, o1, fresh2, text);
    SpoKeepsUnique(m.obj, o1, fresh2, text);
    if o2.Resolved? {
      ScanTextOutcome(Known(o2.rows), text.lower(m.text), o2, text);
    }
  }

  /** Both lower-casings agree on the name the raw text cleans to. */
  ghost predicate Plain(raw: Option<string>, text: Text) {
    raw.Some? && CleanName(raw.value, text).Some? ==>
      var name := CleanName(raw.value, text).value;
      text.lower(name) == LowerAscii(name)
  }

  /** A resolved name is found again in any table that only grew by entities with
      other lower-cased names, provided the lower-casings agree on it. */
  lemma {:induction false} FoundAgain(rows: seq<Entity>, want: Entity -> bool, e: Entity)
    requires FindFirst(rows, want).None? && want(e)
    ensures FindFirst(rows + [e], want) == Some(e)
  {
    if rows == [] {
      assert (rows + [e])[0] == e;
    } else {
      assert !want(rows[0]) by { assert rows[0] in rows; }
      assert (rows + [e])[1..] == rows[1..] + [e];
      FoundAgain(rows[1..], want, e);
    }
  }

  lemma {:induction false} StillFound(rows: seq<Entity>, want: Entity -> bool, e: Entity)
    requires FindFirst(rows, want).Some?
    ensures FindFirst(rows + [e], want) == FindFirst(rows, want)
  {
    if !want(rows[0]) {
      assert (rows + [e])[1..] == rows[1..] + [e];
      StillFound(rows[1..], want, e);
    }
  }

  lemma {:induction false} StillAbsent(rows: seq<Entity>, want: Entity -> bool, e: Entity)
    requires FindFirst(rows, want).None? && !want(e)
    ensures FindFirst(rows + [e], want).None?
  {
    if rows != [] {
      assert !want(rows[0]) by { assert rows[0] in rows; }
      assert (rows + [e])[1..] == rows[1..] + [e];
      StillAbsent(rows[1..], want, e);
    } else {
      assert (rows + [e])[1..] == [];
    }
  }

  /** A created entity is what the same name finds next time exactly when the two
      lower-casings agree on it. Otherwise the lookup misses the row that the
      unique index holds, and resolving the name again fails. */
  lemma CreatedNameFoundAgain(raw: string, rows: seq<Entity>, fresh1: EntityId, fresh2: EntityId, text: Text)
    requires ResolveName(raw, rows, fresh1, text).Hit? && ResolveName(raw, rows, fresh1, text).rows != rows
    ensures var first := ResolveName(raw, rows, fresh1, text);
            var second := ResolveName(raw, first.rows, fresh2, text);
            && (second == Hit(first.entity, first.rows) <==> Plain(Some(raw), text))
            && (!Plain(Some(raw), text) ==> second == Broken)
  {
    var first := ResolveName(raw, rows, fresh1, text);
    var name := CleanName(raw, text).value;
    var needle := text.lower(name);
    var e := first.entity;
    var byName := (x: Entity) => Named(x, needle);
    var byAlias := (x: Entity) => Aliased(x, needle, text);
    assert e == Entity(fresh1, name, [], false) && first.rows == rows + [e];
    if Plain(Some(raw), text) {
      FoundAgain(rows, byName, e);
    } else {
      StillAbsent(rows, byName, e);
      StillAbsent(rows, byAlias, e);
      assert first.rows[|rows|] == e;
      assert !Insertable(first.rows, Entity(fresh2, name, [], false));
    }
  }

  /** Resolving a name a second time, after another name was resolved in between. */
  lemma FindSurvivesInsert(rows: seq<Entity>, name: string, e: Entity, text: Text)
    requires FindByName(rows, name, text).Some? && e.aliases == []
    requires text.lower(name) == LowerAscii(e.name) ==> FindFirst(rows, (x: Entity) => Named(x, text.lower(name))).Some?
    ensures FindByName(rows + [e], name, text) == FindByName(rows, name, text)
  {
    var needle := text.lower(name);
    var byName := (x: Entity) => Named(x, needle);
    var byAlias := (x: Entity) => Aliased(x, needle, text);
    if FindFirst(rows, byName).Some? {
      StillFound(rows, byName, e);
    } else {
      StillAbsent(rows, byName, e);
      StillFound(rows, byAlias, e);
    }
  }

  /** Resolving the name adds an entity. */
  ghost predicate Creates(raw: Option<string>, rows: seq<Entity>, newId: EntityId, text: Text) {
    && raw.Some?
    && ResolveName(raw.value, rows, newId, text).Hit?
    && ResolveName(raw.value, rows, newId, text).rows != rows
  }

  /** The name, if resolving it adds an entity, is one the lower-casings agree on. */
  ghost predicate Settles(raw: Option<string>, rows: seq<Entity>, newId: EntityId, text: Text) {
    Creates(raw, rows, newId, text) ==> Plain(raw, text)
  }

  /** A name that settles finds the same entity again and changes nothing. */
  lemma NameIsStable(raw: string, rows: seq<Entity>, fresh1: EntityId, fresh2: EntityId, text: Text)
    requires Settles(Some(raw), rows, fresh1, text) && ResolveName(raw, rows, fresh1, text).Hit?
    ensures var first := ResolveName(raw, rows, fresh1, text);
            ResolveName(raw, first.rows, fresh2, text) == Hit(first.entity, first.rows)
  {
    var first := ResolveName(raw, rows, fresh1, text);
    if first.rows != rows {
      CreatedNameFoundAgain(raw, rows, fresh1, fresh2, text);
    }
  }

  /** A name already found is found again after a settling one was resolved. */
  lemma NameSurvivesOther(
    raw: string, other: string, rows: seq<Entity>, fresh1: EntityId, fresh2: EntityId, fresh3: EntityId, text: Text)
    requires ResolveName(raw, rows, fresh1, text).Hit? && ResolveName(raw, rows, fresh1, text).rows == rows
    requires ResolveName(other, rows, fresh2, text).Hit? && Settles(Some(other), rows, fresh2, text)
    ensures var grown := ResolveName(other, rows, fresh2, text).rows;
            ResolveName(raw, grown, fresh3, text) == Hit(ResolveName(raw, rows, fresh1, text).entity, grown)
  {
    var name, otherName := CleanName(raw, text).value, CleanName(other, text).value;
    var grown := ResolveName(other, rows, fresh2, text).rows;
    FoundNotCreated(raw, rows, fresh1, text);
    if grown != rows {
      var e := Entity(fresh2, otherName, [], false);
      assert grown == rows + [e];
      assert FindByName(rows, otherName, text).None?;
      assert text.lower(name) != text.lower(otherName);
      FindSurvivesInsert(rows, name, e, text);
    }
  }

  lemma FoundNotCreated(raw: string, rows: seq<Entity>, newId: EntityId, text: Text)
    requires ResolveName(raw, rows, newId, text).Hit? && ResolveName(raw, rows, newId, text).rows == rows
    ensures FindByName(rows, CleanName(raw, text).value, text).Some?
  {
    assert |rows + [Entity(newId, CleanName(raw, text).value, [], false)]| == |rows| + 1;
  }

  /** A name that is found stays found, perhaps as another entity. */
  lemma FoundStaysFound(raw: string, rows: seq<Entity>, fresh1: EntityId, e: Entity, fresh2: EntityId, text: Text)
    requires ResolveName(raw, rows, fresh1, text).Hit? && ResolveName(raw, rows, fresh1, text).rows == rows
    ensures ResolveName(raw, rows + [e], fresh2, text).Hit?
    ensures ResolveName(raw, rows + [e], fresh2, text).rows == rows + [e]
  {
    var needle := text.lower(CleanName(raw, text).value);
    var byName := (x: Entity) => Named(x, needle);
    var byAlias := (x: Entity) => Aliased(x, needle, text);
    FoundNotCreated(raw, rows, fresh1, text);
    if FindFirst(rows, byName).Some? {
      StillFound(rows, byName, e);
    } else {
      StillFound(rows, byAlias, e);
    }
  }

  /** A created name that does not settle is lost: another call fails on it or
      takes the one entity created since for it. */
  lemma LostName(raw: string, rows: seq<Entity>, newId: EntityId, more: seq<Entity>, newer: EntityId, text: Text)
    requires Creates(Some(raw), rows, newId, text) && !Plain(Some(raw), text)
    requires |more| <= 1 && forall e :: e in more ==> e.id != newId && e.aliases == []
    ensures var again := ResolveName(raw, ResolveName(raw, rows, newId, text).rows + more, newer, text);
            again.Broken? || (again.Hit? && again.entity.id != newId)
  {
    var first := ResolveName(raw, rows, newId, text);
    var name := CleanName(raw, text).value;
    var needle := text.lower(name);
    var byName := (x: Entity) => Named(x, needle);
    var byAlias := (x: Entity) => Aliased(x, needle, text);
    var e := first.entity;
    var grown := first.rows + more;
    assert e == Entity(newId, name, [], false) && first.rows == rows + [e];
    assert FindFirst(rows, byName).None? && FindFirst(rows, byAlias).None?;
    assert forall x :: x in grown <==> x in rows || x == e || x in more;
    assert !byName(e) && !byAlias(e);
    assert forall x :: x in grown && byName(x) ==> x in more;
    assert forall x :: x in grown && !byName(x) && byAlias(x) ==> false;
    assert grown[|rows|] == e;
    assert !Insertable(grown, Entity(newer, name, [], false));
  }

  lemma LostSubject(
    m: Mention, rows: seq<Entity>, fresh1: EntityId, fresh2: EntityId, fresh3: EntityId, text: Text)
    requires ResolveNames(m, rows, fresh1, fresh2, text).Resolved?
    requires Creates(m.subj, rows, fresh1, text) && !Plain(m.subj, text)
    ensures ResolveNames(m, rows, fresh1, fresh2, text).ids[..1] == [fresh1]
    ensures var o2 := ResolveNames(m, rows, fresh1, fresh2, text);
            var again := ResolveSpo(m.subj, Resolved([], o2.rows), fresh3, text);
            again.Resolved? ==> |again.ids| == 1 && again.ids[0] != fresh1
  {
    var o1 := ResolveSpo(m.subj, Resolved([], rows), fresh1, text);
    var o2 := ResolveSpo(m.obj, o1, fresh2, text);
    var first := ResolveName(m.subj.value, rows, fresh1, text);
    assert first.entity.id == fresh1 && o1 == Resolved([fresh1], first.rows);
    if o2.rows == o1.rows {
      assert o1.rows + [] == o1.rows;
      LostName(m.subj.value, rows, fresh1, [], fresh3, text);
    } else {
      var e := ResolveName(m.obj.value, o1.rows, fresh2, text).entity;
      assert o2.rows == o1.rows + [e] && e.aliases == [];
      assert o1.rows[|rows|].id == fresh1;
      LostName(m.subj.value, rows, fresh1, [e], fresh3, text);
    }
  }

  /** A call never forgets its first id. */
  lemma FirstIdStays(m: Mention, rows: seq<Entity>, fresh1: EntityId, fresh2: EntityId, text: Text)
    requires Resolve(m, rows, fresh1, fresh2, text).Resolved?
    ensures var o1 := ResolveSpo(m.subj, Resolved([], rows), fresh1, text);
            var o2 := ResolveNames(m, rows, fresh1, fresh2, text);
            var r := Resolve(m, rows, fresh1, fresh2, text);
            && o1.Resolved? && o2.Resolved? && r.rows == o2.rows && o1.ids <= o2.ids <= r.ids
  {
    var o2 := ResolveNames(m, rows, fresh1, fresh2, text);
    assert NoDuplicates(o2.ids);
    ScanTextOutcome(Known(o2.rows), text.lower(m.text), o2, text);
  }

  /** A subject that is not lost is resolved without touching the grown table. */
  lemma SubjectTouchesNothing(
    m: Mention, rows: seq<Entity>, fresh1: EntityId, fresh2: EntityId, fresh3: EntityId, text: Text)
    requires ResolveNames(m, rows, fresh1, fresh2, text).Resolved? && Settles(m.subj, rows, fresh1, text)
    ensures var o2 := ResolveNames(m, rows, fresh1, fresh2, text);
            var again := ResolveSpo(m.subj, Resolved([], o2.rows), fresh3, text);
            again.Resolved? && again.rows == o2.rows
  {
    var o1 := ResolveSpo(m.subj, Resolved([], rows), fresh1, text);
    var o2 := ResolveSpo(m.obj, o1, fresh2, text);
    if m.subj.Some? && ResolveName(m.subj.value, rows, fresh1, text).Hit? {
      NameIsStable(m.subj.value, rows, fresh1, fresh3, text);
      if o2.rows != o1.rows {
        var e := ResolveName(m.obj.value, o1.rows, fresh2, text).entity;
        assert o2.rows == o1.rows + [e];
        FoundStaysFound(m.subj.value, o1.rows, fresh3, e, fresh3, text);
      }
    }
  }

  lemma SubjectAgain(
    m: Mention, rows: seq<Entity>, fresh1: EntityId, fresh2: EntityId, fresh3: EntityId, text: Text)
    requires ResolveNames(m, rows, fresh1, fresh2, text).Resolved? && Settles(m.subj, rows, fresh1, text)
    requires Settles(m.obj, ResolveSpo(m.subj, Resolved([], rows), fresh1, text).rows, fresh2, text)
    ensures var o1 := ResolveSpo(m.subj, Resolved([], rows), fresh1, text);
            var o2 := ResolveNames(m, rows, fresh1, fresh2, text);
            ResolveSpo(m.subj, Resolved([], o2.rows), fresh3, text) == Resolved(o1.ids, o2.rows)
  {
    if m.subj.Some? && ResolveName(m.subj.value, rows, fresh1, text).Hit? {
      var o1 := ResolveSpo(m.subj, Resolved([], rows), fresh1, text);
      NameIsStable(m.subj.value, rows, fresh1, fresh3, text);
      if m.obj.Some? && ResolveName(m.obj.value, o1.rows, fresh2, text).Hit? {
        NameSurvivesOther(m.subj.value, m.obj.value, o1.rows, fresh3, fresh2, fresh3, text);
      }
    }
  }

  /** When both names settle the second call is the first. */
  lemma SettledResolvesAgain(
    m: Mention, rows: seq<Entity>, fresh1: EntityId, fresh2: EntityId, fresh3: EntityId, fresh4: EntityId, text: Text)
    requires Resolve(m, rows, fresh1, fresh2, text).Resolved? && Settles(m.subj, rows, fresh1, text)
    requires Settles(m.obj, ResolveSpo(m.subj, Resolved([], rows), fresh1, text).rows, fresh2, text)
    ensures var first := Resolve(m, rows, fresh1, fresh2, text);
            Resolve(m, first.rows, fresh3, fresh4, text) == first
  {
    var o1 := ResolveSpo(m.subj, Resolved([], rows), fresh1, text);
    var o2 := ResolveNames(m, rows, fresh1, fresh2, text);
    FirstIdStays(m, rows, fresh1, fresh2, text);
    SubjectAgain(m, rows, fresh1, fresh2, fresh3, text);
    var again1 := Resolved(o1.ids, o2.rows);
    assert ResolveSpo(m.obj, again1, fresh4, text) == o2 by {
      if m.obj.Some? && ResolveName(m.obj.value, o1.rows, fresh2, text).Hit? {
        NameIsStable(m.obj.value, o1.rows, fresh2, fresh4, text);
      } else if m.obj.Some? {
        assert ResolveName(m.obj.value, o1.rows, fresh2, text) == Ignored;
        assert ResolveName(m.obj.value, o2.rows, fresh4, text) == Ignored;
      }
    }
  }

  /** Resolving a mention again on the grown table returns the same ids and adds
      nothing exactly when the two lower-casings agree on every name the first
      call created. */
  lemma ResolveIsIdempotent(
    m: Mention, rows: seq<Entity>, fresh1: EntityId, fresh2: EntityId, fresh3: EntityId, fresh4: EntityId, text: Text)
    requires Resolve(m, rows, fresh1, fresh2, text).Resolved?
    ensures var first := Resolve(m, rows, fresh1, fresh2, text);
            var o1 := ResolveSpo(m.subj, Resolved([], rows), fresh1, text);
            Resolve(m, first.rows, fresh3, fresh4, text) == first <==>
              Settles(m.subj, rows, fresh1, text) && Settles(m.obj, o1.rows, fresh2, text)
  {
    var first := Resolve(m, rows, fresh1, fresh2, text);
    var o1 := ResolveSpo(m.subj, Resolved([], rows), fresh1, text);
    var second := Resolve(m, first.rows, fresh3, fresh4, text);
    FirstIdStays(m, rows, fresh1, fresh2, text);
    if !Settles(m.subj, rows, fresh1, text) {
      LostSubject(m, rows, fresh1, fresh2, fresh3, text);
      if second.Resolved? {
        FirstIdStays(m, first.rows, fresh3, fresh4, text);
        assert second.ids[0] != fresh1 && first.ids[0] == fresh1;
      }
    } else if !Settles(m.obj, o1.rows, fresh2, text) {
      SubjectTouchesNothing(m, rows, fresh1, fresh2, fresh3, text);
      CreatedNameFoundAgain(m.obj.value, o1.rows, fresh2, fresh4, text);
      assert ResolveNames(m, first.rows, fresh3, fresh4, text).Failed?;
    } else {
      SettledResolvesAgain(m, rows, fresh1, fresh2, fresh3, fresh4, text);
    }
  }

  // ---- When cleaning a name panics ------------------------------------------

  predicate SplitsAt(s: string, k: nat) {
    ByteLen(s) >= k && CutAt(s, k).None?
  }

  predicate StartsWithA(s: string) {
    |s| >= 2 && AsciiLower(s[0]) == 'a' && s[1] == ' '
  }

  lemma LowerAsciiAt(s: string)
    ensures |LowerAscii(s)| == |s|
    ensures forall i :: 0 <= i < |s| ==> LowerAscii(s)[i] == AsciiLower(s[i])
  {}

  /** A stripped prefix is plain ASCII, so no offset inside it splits. */
  lemma StrippedIsAscii(s: string, prefix: string, k: nat)
    requires StripPrefix(s, prefix).Stripped? && IsAscii(prefix) && k <= |prefix|
    ensures |prefix| <= |s| && LowerAscii(s[..|prefix|]) == prefix && !SplitsAt(s, k)
  {
    var n := CutAt(s, |prefix|).value;
    LowerAsciiAt(s[..n]);
    forall i | 0 <= i < k
      ensures Width(s[..k][i]) == 1
    {
      assert AsciiLower(s[..n][i]) == prefix[i] && Width(prefix[i]) == 1;
    }
    AsciiCuts(s[..k], 0);
    CutAtIsPrefix(s, k);
  }

  /** Cleaning a name panics exactly when the trimmed name has a character across
      its second or fourth byte, or across its third and no "a " to strip
      first. Plain ASCII names never panic. */
  lemma CleanNamePanics(raw: string, text: Text)
    ensures var s := Trim(raw, text);
            && (CleanName(raw, text).None? <==>
                SplitsAt(s, 2) || SplitsAt(s, 4) || (SplitsAt(s, 3) && !StartsWithA(s)))
            && (IsAscii(s) ==> CleanName(raw, text).Some?)
  {
    var s := Trim(raw, text);
    var the, a, an := StripPrefix(s, "the "), StripPrefix(s, "a "), StripPrefix(s, "an ");
    assert ARTICLES[1..] == ["a ", "an "] && ARTICLES[1..][1..] == ["an "] && ARTICLES[1..][1..][1..] == [];
    if IsAscii(s) {
      forall k | k in {2, 3, 4}
        ensures !SplitsAt(s, k)
      {
        if ByteLen(s) >= k {
          AsciiCuts(s, k);
        }
      }
    }
    assert StartsWithA(s) <==> a.Stripped? by {
      if StartsWithA(s) {
        CutAtIsPrefix(s, 2);
        assert Width(s[0]) == 1 && s[..2] == [s[0], s[1]];
        assert ByteLen([s[0], s[1]]) == 1 + ByteLen([s[1]]) && ByteLen([s[1]]) == 1 + ByteLen("");
        assert LowerAscii([s[0], s[1]]) == [AsciiLower(s[0])] + LowerAscii([s[1]]) == "a ";
      }
      if a.Stripped? {
        StrippedIsAscii(s, "a ", 2);
        LowerAsciiAt(s[..2]);
      }
    }
    if the.Stripped? {
      StrippedIsAscii(s, "the ", 2);
      StrippedIsAscii(s, "the ", 3);
      StrippedIsAscii(s, "the ", 4);
    } else if a.Stripped? {
      StrippedIsAscii(s, "a ", 2);
    } else if an.Stripped? {
      StrippedIsAscii(s, "an ", 2);
      StrippedIsAscii(s, "an ", 3);
    }
  }

  // ---- The table and the loops ----------------------------------------------

  /** Rows are only added, and names stay unique. */
  ghost predicate Grown(a: seq<Entity>, b: seq<Entity>) {
    a <= b && (UniqueNames(a) ==> UniqueNames(b))
  }

  lemma {:induction false} ScanKeepsRows(known: seq<Entity>, haystack: string, o: Outcome, text: Text)
    requires o.Resolved?
    ensures ScanText(known, haystack, o, text).Resolved? ==> ScanText(known, haystack, o, text).rows == o.rows
    decreases |known|
  {
    if known != [] {
      ScanKeepsRows(known[1..], haystack, o, text);
      ScanKeepsRows(known[1..], haystack, Resolved(o.ids + [known[0].id], o.rows), text);
    }
  }

  class EntityTable {
    var rows: seq<Entity>

    constructor ()
      ensures rows == []
    {
      rows := [];
    }

    method InsertEntity(e: Entity) returns (ok: bool)
      modifies this
      ensures ok == Insertable(old(rows), e)
      ensures rows == if ok then old(rows) + [e] else old(rows)
    {
      ok := Insertable(rows, e);
      if ok {
        rows := rows + [e];
      }
    }

    /** The entity a raw name stands for, created when unknown; not `ok` when
        cleaning panics or the insert is refused. */
    method ResolveOrCreate(raw: string, newId: EntityId, text: Text) returns (ok: bool, found: Option<Entity>)
      modifies this
      ensures ok == !ResolveName(raw, old(rows), newId, text).Broken?
      ensures match ResolveName(raw, old(rows), newId, text)
              case Hit(e, grown) => found == Some(e) && rows == grown
              case Ignored => found == None && rows == old(rows)
              case Broken => rows == old(rows)
    {
      ok, found := true, None;
      var cleaned := CleanName(raw, text);
      if cleaned.None? {
        ok := false;
        return;
      }
      var name := cleaned.value;
      if name == "" || text.lower(name) in STOPLIST || ByteLen(name) < 2 {
        return;
      }
      found := FindByName(rows, name, text);
      if found.None? {
        var e := Entity(newId, name, [], false);
        ok := InsertEntity(e);
        found := if ok then Some(e) else None;
      }
    }

    /** Whether the text mentions one of the needles. */
    method MentionsAny(haystack: string, needles: seq<string>, text: Text) returns (r: Verdict)
      ensures r == Mentions(haystack, needles, text)
    {
      var i := 0;
      while i < |needles|
        invariant 0 <= i <= |needles|
        invariant Mentions(haystack, needles[i..], text) == Mentions(haystack, needles, text)
      {
        assert needles[i..][1..] == needles[i + 1..];
        var needle := text.lower(needles[i]);
        if needle != "" {
          r := ContainsWholeWord(haystack, needle, text.isWord);
          if r != Absent {
            return;
          }
        }
        i := i + 1;
      }
      return Absent;
    }

    /** One turn of the loop over subject and object. */
    method AddNamed(raw: Option<string>, newId: EntityId, ids0: seq<EntityId>, seen0: set<EntityId>, text: Text)
      returns (ok: bool, ids: seq<EntityId>, seen: set<EntityId>)
      requires forall id :: id in seen0 <==> id in ids0
      modifies this
      ensures match ResolveSpo(raw, Resolved(ids0, old(rows)), newId, text)
              case Resolved(found, grown) => ok && ids == found && rows == grown
              case Failed => !ok && rows == old(rows)
      ensures forall id :: id in seen <==> id in ids
      ensures Grown(old(rows), rows)
    {
      ok, ids, seen := true, ids0, seen0;
      if raw.Some? {
        var e;
        ok, e := ResolveOrCreate(raw.value, newId, text);
        if ok && e.Some? && e.value.id !in seen {
          seen := seen + {e.value.id};
          ids := ids + [e.value.id];
        }
      }
    }

    method AddBothNames(m: Mention, subjId: EntityId, objId: EntityId, text: Text)
      returns (ok: bool, ids: seq<EntityId>, seen: set<EntityId>)
      modifies this
      ensures match ResolveNames(m, old(rows), subjId, objId, text)
              case Resolved(found, grown) => ok && ids == found && rows == grown
              case Failed => !ok
      ensures forall id :: id in seen <==> id in ids
      ensures Grown(old(rows), rows)
    {
      ok, ids, seen := AddNamed(m.subj, subjId, [], {}, text);
      if ok {
        ghost var rows1 := rows;
        ok, ids, seen := AddNamed(m.obj, objId, ids, seen, text);
      }
    }

    /** Subject and object by name, then every known entity the text mentions. A
        failure keeps the entities created on the way. */
    method ResolveMention(m: Mention, subjId: EntityId, objId: EntityId, text: Text) returns (r: Option<seq<EntityId>>)
      modifies this
      ensures match Resolve(m, old(rows), subjId, objId, text)
              case Resolved(found, grown) => r == Some(found) && rows == grown
              case Failed => r == None
      ensures Grown(old(rows), rows)
    {
      var ok, ids, seen := AddBothNames(m, subjId, objId, text);
      if !ok {
        return None;
      }
      ScanKeepsRows(Known(rows), text.lower(m.text), Resolved(ids, rows), text);
      r := ScanKnown(ids, seen, text.lower(m.text), text);
    }

    method ScanKnown(ids0: seq<EntityId>, seen0: set<EntityId>, haystack: string, text: Text)
      returns (r: Option<seq<EntityId>>)
      requires forall id :: id in seen0 <==> id in ids0
      ensures match ScanText(Known(rows), haystack, Resolved(ids0, rows), text)
              case Resolved(ids, _) => r == Some(ids)
              case Failed => r == None
    {
      var ids, seen := ids0, seen0;
      var known := Known(rows);
      var i := 0;
      while i < |known|
        invariant 0 <= i <= |known|
        invariant forall id :: id in seen <==> id in ids
        invariant ScanText(known[i..], haystack, Resolved(ids, rows), text)
                  == ScanText(known, haystack, Resolved(ids0, rows), text)
      {
        assert known[i..][1..] == known[i + 1..];
        var e := known[i];
        if e.id !in seen {
          var verdict := MentionsAny(haystack, [e.name] + e.aliases, text);
          if verdict == Panics {
            return None;
          }
          if verdict == Present {
            seen := seen + {e.id};
            ids := ids + [e.id];
          }
        }
        i := i + 1;
      }
      return Some(ids);
    }
  }
}

/** What entity resolution answers, in terms of the names, the table and the text
    alone. */
module ResolverEffects {
  import opened Domain
  import opened Sorting
  import opened Utf8
  import opened WholeWord
  import opened EntityResolver

  // ---- Cleaning a name ------------------------------------------------------

  predicate All(s: string, keep: char -> bool) {
    forall i :: 0 <= i < |s| ==> keep(s[i])
  }

  predicate Punctuation(c: char) {
    c == '.' || c == '!' || c == '?' || c == ',' || c == ';' || c == ':'
  }

  predicate IsArticle(s: string) {
    LowerAscii(s) == "the " || LowerAscii(s) == "a " || LowerAscii(s) == "an "
  }

  predicate OpensWithArticle(s: string) {
    exists n :: 0 <= n <= |s| && IsArticle(s[..n])
  }

  /** The name without the space around it, one article and the punctuation after
      it. */
  ghost predicate Cleans(raw: string, name: string, text: Text) {
    exists lead, article, gap, trail, marks, rest ::
      CleanParts(raw, name, lead, article, gap, trail, marks, rest, text)
  }

  predicate CleanParts(
    raw: string, name: string, lead: string, article: string, gap: string, trail: string, marks: string, rest: string,
    text: Text)
  {
    && raw == lead + article + gap + name + trail + marks + rest
    && All(lead, text.isSpace) && All(gap, text.isSpace) && All(trail, text.isSpace) && All(rest, text.isSpace)
    && All(marks, Punctuation)
    && (if article == "" then !OpensWithArticle(name + trail + marks) else IsArticle(article))
    && (name != "" ==> !text.isSpace(name[0]) && !text.isSpace(name[|name| - 1]))
    && (name != "" && trail == "" ==> !Punctuation(name[|name| - 1]))
  }

  lemma {:induction false} TrimStartParts(s: string, drop: char -> bool) returns (lead: string)
    ensures s == lead + TrimStart(s, drop) && All(lead, drop)
    ensures TrimStart(s, drop) != "" ==> !drop(TrimStart(s, drop)[0])
    decreases |s|
  {
    if s != "" && drop(s[0]) {
      lead := TrimStartParts(s[1..], drop);
      assert s == [s[0]] + s[1..];
      lead := [s[0]] + lead;
    } else {
      lead := "";
    }
  }

  lemma {:induction false} TrimEndParts(s: string, drop: char -> bool) returns (trail: string)
    ensures s == TrimEnd(s, drop) + trail && All(trail, drop)
    ensures TrimEnd(s, drop) != "" ==> !drop(TrimEnd(s, drop)[|TrimEnd(s, drop)| - 1])
    decreases |s|
  {
    if s != "" && drop(s[|s| - 1]) {
      trail := TrimEndParts(s[..|s| - 1], drop);
      assert s == s[..|s| - 1] + [s[|s| - 1]];
      trail := trail + [s[|s| - 1]];
    } else {
      trail := "";
    }
  }

  lemma TrimParts(s: string, text: Text) returns (lead: string, rest: string)
    ensures s == lead + Trim(s, text) + rest && All(lead, text.isSpace) && All(rest, text.isSpace)
    ensures var t := Trim(s, text); t != "" ==> !text.isSpace(t[0]) && !text.isSpace(t[|t| - 1])
  {
    lead := TrimStartParts(s, text.isSpace);
    rest := TrimEndParts(TrimStart(s, text.isSpace), text.isSpace);
    assert s == lead + (Trim(s, text) + rest);
  }

  /** A prefix that lower-cases to the article is stripped. */
  lemma ArticleIsStripped(s: string, prefix: string, n: nat)
    requires n <= |s| && LowerAscii(s[..n]) == prefix && IsAscii(prefix)
    ensures StripPrefix(s, prefix) == Stripped(s[n..])
  {
    LowerAsciiAt(s[..n]);
    forall i | 0 <= i < n
      ensures Width(s[..n][i]) == 1
    {
      assert AsciiLower(s[..n][i]) == prefix[i];
    }
    AsciiCuts(s[..n], 0);
    CutAtIsPrefix(s, n);
  }

  /** Stripping takes off one article, where there is one. */
  lemma StripArticleParts(s: string, text: Text) returns (article: string)
    requires StripArticle(s, ARTICLES, text).Some?
    ensures if article == "" then StripArticle(s, ARTICLES, text) == Some(s) && !OpensWithArticle(s)
            else IsArticle(article) && article <= s
                 && StripArticle(s, ARTICLES, text) == Some(Trim(s[|article|..], text))
  {
    var the, a, an := StripPrefix(s, "the "), StripPrefix(s, "a "), StripPrefix(s, "an ");
    assert ARTICLES[1..] == ["a ", "an "] && ARTICLES[1..][1..] == ["an "] && ARTICLES[1..][1..][1..] == [];
    if the.Stripped? {
      article := s[..CutAt(s, 4).value];
    } else if a.Stripped? {
      article := s[..CutAt(s, 2).value];
    } else if an.Stripped? {
      article := s[..CutAt(s, 3).value];
    } else {
      article := "";
      forall n | 0 <= n <= |s|
        ensures !IsArticle(s[..n])
      {
        if LowerAscii(s[..n]) == "the " {
          ArticleIsStripped(s, "the ", n);
        } else if LowerAscii(s[..n]) == "a " {
          ArticleIsStripped(s, "a ", n);
        } else if LowerAscii(s[..n]) == "an " {
          ArticleIsStripped(s, "an ", n);
        }
      }
    }
  }

  lemma Regroup(
    lead: string, article: string, gap: string, name: string, trail: string, marks: string, rest2: string, rest: string)
    ensures lead + (article + gap + (name + trail + marks) + rest2) + rest
            == lead + article + gap + name + trail + marks + (rest2 + rest)
  {
    var inner := name + trail + marks;
    assert article + gap + inner + rest2 == article + gap + name + trail + marks + rest2;
    assert lead + (article + gap + name + trail + marks + rest2)
           == lead + article + gap + name + trail + marks + rest2;
  }

  /** The name between its leading article and its trailing marks. */
  lemma CoreParts(s2: string, text: Text) returns (trail: string, marks: string)
    requires s2 != "" ==> !text.isSpace(s2[0])
    ensures var name := Trim(TrimEnd(s2, (c: char) => c in ".!?,;:"), text);
            && s2 == name + trail + marks && All(trail, text.isSpace) && All(marks, Punctuation)
            && (name != "" ==> !text.isSpace(name[0]) && !text.isSpace(name[|name| - 1]))
            && (name != "" && trail == "" ==> !Punctuation(name[|name| - 1]))
  {
    var drop := (c: char) => c in ".!?,;:";
    marks := TrimEndParts(s2, drop);
    var s3 := TrimEnd(s2, drop);
    assert forall c :: drop(c) <==> Punctuation(c);
    assert s3 != "" ==> s3[0] == s2[0];
    assert TrimStart(s3, text.isSpace) == s3;
    trail := TrimEndParts(s3, text.isSpace);
  }

  /** Trimmed text without its article, and what was taken off. */
  lemma ArticleParts(s1: string, text: Text) returns (article: string, gap: string, rest: string)
    requires s1 != "" ==> !text.isSpace(s1[0])
    requires StripArticle(s1, ARTICLES, text).Some?
    ensures var s2 := StripArticle(s1, ARTICLES, text).value;
            && s1 == article + gap + s2 + rest && All(gap, text.isSpace) && All(rest, text.isSpace)
            && (s2 != "" ==> !text.isSpace(s2[0]))
            && (if article == "" then gap == "" && rest == "" && !OpensWithArticle(s2) else IsArticle(article))
  {
    article := StripArticleParts(s1, text);
    if article == "" {
      gap, rest := "", "";
      assert "" + "" + s1 + "" == s1;
    } else {
      var after := s1[|article|..];
      gap, rest := TrimParts(after, text);
      AfterArticle(s1, article, gap, Trim(after, text), rest);
    }
  }

  lemma AfterArticle(s: string, article: string, gap: string, name: string, rest: string)
    requires article <= s && s[|article|..] == gap + name + rest
    ensures s == article + gap + name + rest
  {
    assert s == article + s[|article|..];
    assert article + (gap + name + rest) == article + gap + name + rest;
  }

  /** What cleaning gives back is the name without the space around it, one
      article, and the punctuation at its end. */
  lemma CleanEffect(raw: string, text: Text)
    requires CleanName(raw, text).Some?
    ensures Cleans(raw, CleanName(raw, text).value, text)
  {
    var lead, rest := TrimParts(raw, text);
    var article, gap, rest2 := ArticleParts(Trim(raw, text), text);
    var trail, marks := CoreParts(StripArticle(Trim(raw, text), ARTICLES, text).value, text);
    var name := CleanName(raw, text).value;
    Regroup(lead, article, gap, name, trail, marks, rest2, rest);
    assert CleanParts(raw, name, lead, article, gap, trail, marks, rest2 + rest, text);
  }

  // ---- Finding or creating an entity ----------------------------------------

  predicate SameName(e: Entity, needle: string) {
    !e.deleted && LowerAscii(e.name) == needle
  }

  predicate SameAlias(e: Entity, needle: string, text: Text) {
    !e.deleted && exists i :: 0 <= i < |e.aliases| && text.lower(e.aliases[i]) == needle
  }

  /** Pronouns, articles and names under two bytes stand for nothing; a name known
      as a live entity's name, or else as an alias, stands for it; any other is
      created, unless its id or its lower-cased name is taken. */
  lemma NameEffect(raw: string, rows: seq<Entity>, newId: EntityId, name: string, text: Text)
    requires CleanName(raw, text) == Some(name)
    ensures var r := ResolveName(raw, rows, newId, text);
            var needle := text.lower(name);
            if name == "" || ByteLen(name) < 2
               || needle in ["user", "we", "i", "you", "they", "the", "a", "an", "this", "that", "it", "thing",
                             "things", "us", "them", "everyone", "anyone", "someone"]
            then r == Ignored
            else if exists e :: e in rows && SameName(e, needle)
            then r.Hit? && r.rows == rows && r.entity in rows && SameName(r.entity, needle)
            else if exists e :: e in rows && SameAlias(e, needle, text)
            then r.Hit? && r.rows == rows && r.entity in rows && SameAlias(r.entity, needle, text)
            else if exists e :: e in rows && (e.id == newId || SameName(e, LowerAscii(name))) then r == Broken
            else r == Hit(Entity(newId, name, [], false), rows + [Entity(newId, name, [], false)])
  {
    var needle := text.lower(name);
    assert STOPLIST == ["user", "we", "i", "you", "they", "the", "a", "an", "this", "that", "it", "thing",
                        "things", "us", "them", "everyone", "anyone", "someone"];
    var byName := FindFirst(rows, (e: Entity) => Named(e, needle));
    var byAlias := FindFirst(rows, (e: Entity) => Aliased(e, needle, text));
    assert byName.Some? <==> exists e :: e in rows && SameName(e, needle);
    assert byAlias.Some? <==> exists e :: e in rows && SameAlias(e, needle, text);
    assert !Insertable(rows, Entity(newId, name, [], false)) <==>
           exists e :: e in rows && (e.id == newId || SameName(e, LowerAscii(name)));
  }

  // ---- Reading the text -----------------------------------------------------

  /** The text has the name or an alias of the entity as a whole word. */
  ghost predicate Mentioned(e: Entity, words: string, text: Text) {
    exists needle :: (needle == e.name || needle in e.aliases) && NeedleIn(needle, words, text)
  }

  ghost predicate NeedleIn(needle: string, words: string, text: Text) {
    text.lower(needle) != "" && HasWholeWord(words, text.lower(needle), text.isWord)
  }

  lemma {:induction false} MentionsDecide(words: string, needles: seq<string>, text: Text)
    requires Mentions(words, needles, text) != Panics
    ensures Mentions(words, needles, text) == Present <==>
            exists needle :: needle in needles && NeedleIn(needle, words, text)
    decreases |needles|
  {
    if needles != [] {
      var first := text.lower(needles[0]);
      if first != "" {
        SearchDecides(words, first, text.isWord, 0);
      }
      if first == "" || Search(words, first, text.isWord, 0) == Absent {
        MentionsDecide(words, needles[1..], text);
        assert !NeedleIn(needles[0], words, text);
      } else {
        assert NeedleIn(needles[0], words, text);
      }
      assert forall n :: n in needles <==> n == needles[0] || n in needles[1..];
    }
  }

  ghost function FoundIn(ids: seq<EntityId>, known: seq<Entity>, words: string, text: Text): seq<EntityId>
    decreases |known|
  {
    if known == [] then []
    else (if known[0].id !in ids && Mentioned(known[0], words, text) then [known[0].id] else [])
         + FoundIn(ids, known[1..], words, text)
  }

  lemma {:induction false} FoundIgnores(
    ids: seq<EntityId>, id: EntityId, known: seq<Entity>, words: string, text: Text)
    requires forall e :: e in known ==> e.id != id
    ensures FoundIn(ids + [id], known, words, text) == FoundIn(ids, known, words, text)
    decreases |known|
  {
    if known != [] {
      assert known[0] in known;
      FoundIgnores(ids, id, known[1..], words, text);
    }
  }

  /** The scan adds exactly the entities mentioned that are not yet there, in the
      order in which they are known. */
  lemma {:induction false} ScanExactly(known: seq<Entity>, words: string, o: Outcome, text: Text)
    requires o.Resolved? && ScanText(known, words, o, text).Resolved?
    requires forall i, j :: 0 <= i < j < |known| ==> known[i].id != known[j].id
    ensures ScanText(known, words, o, text).ids == o.ids + FoundIn(o.ids, known, words, text)
    decreases |known|
  {
    if known == [] {
      assert o.ids + [] == o.ids;
    } else {
      assert forall i :: 0 <= i < |known[1..]| ==> known[1..][i] == known[i + 1];
      ScanOne(known, words, o, text);
      FoundOne(o.ids, known, words, text);
      ScanExactly(known[1..], words, Resolved(AfterOne(o.ids, known[0], words, text), o.rows), text);
    }
  }

  /** The ids after the entity's turn. */
  ghost function AfterOne(ids: seq<EntityId>, e: Entity, words: string, text: Text): seq<EntityId> {
    if e.id !in ids && Mentioned(e, words, text) then ids + [e.id] else ids
  }

  lemma FoundOne(ids: seq<EntityId>, known: seq<Entity>, words: string, text: Text)
    requires known != [] && forall i, j :: 0 <= i < j < |known| ==> known[i].id != known[j].id
    ensures var next := AfterOne(ids, known[0], words, text);
            next + FoundIn(next, known[1..], words, text) == ids + FoundIn(ids, known, words, text)
  {
    var e, rest := known[0], known[1..];
    assert forall i :: 0 <= i < |rest| ==> rest[i] == known[i + 1];
    var found := FoundIn(ids, rest, words, text);
    if e.id !in ids && Mentioned(e, words, text) {
      FoundIgnores(ids, e.id, rest, words, text);
      assert (ids + [e.id]) + found == ids + ([e.id] + found);
    } else {
      assert [] + found == found;
    }
  }

  /** The scan's turn for the first known entity. */
  lemma ScanOne(known: seq<Entity>, words: string, o: Outcome, text: Text)
    requires known != [] && o.Resolved? && ScanText(known, words, o, text).Resolved?
    ensures var e := known[0];
            ScanText(known, words, o, text)
            == ScanText(known[1..], words, Resolved(AfterOne(o.ids, e, words, text), o.rows), text)
  {
    var e := known[0];
    if e.id !in o.ids {
      var needles := [e.name] + e.aliases;
      MentionsDecide(words, needles, text);
      assert forall n :: n in needles <==> n == e.name || n in e.aliases;
    }
  }

  // ---- The order of the known -----------------------------------------------

  /** Longer names first; equally long ones by name. */
  predicate KnownBefore(a: Entity, b: Entity) {
    ByteLen(a.name) > ByteLen(b.name) || (ByteLen(a.name) == ByteLen(b.name) && NameLe(a.name, b.name))
  }

  lemma {:induction false} NamesOrdered(a: string, b: string, c: string)
    ensures NameLe(a, b) || NameLe(b, a)
    ensures NameLe(a, b) && NameLe(b, c) ==> NameLe(a, c)
    decreases |a| + |b| + |c|
  {
    if a != "" && b != "" {
      NamesOrdered(a[1..], b[1..], if c == "" then c else c[1..]);
    }
  }

  lemma ByNameIsOrder()
    ensures TotalPreorder(ByName)
  {
    forall a: Entity, b: Entity
      ensures ByName(a, b) || ByName(b, a)
    {
      NamesOrdered(a.name, b.name, "");
    }
    forall a: Entity, b: Entity, c: Entity | ByName(a, b) && ByName(b, c)
      ensures ByName(a, c)
    {
      NamesOrdered(a.name, b.name, c.name);
    }
  }

  lemma {:induction false} InsertKeepsKnown(x: Entity, s: seq<Entity>)
    requires SortedBy(s, KnownBefore) && forall y :: y in s ==> ByName(x, y)
    ensures SortedBy(Insert(x, s, LongestFirst), KnownBefore)
    decreases |s|
  {
    if s != [] {
      assert s[0] in s;
      if LongestFirst(x, s[0]) {
        forall i | 0 <= i < |s|
          ensures KnownBefore(x, s[i])
        {
          assert s[i] in s;
          assert i > 0 ==> KnownBefore(s[0], s[i]);
        }
      } else {
        assert forall i :: 0 <= i < |s[1..]| ==> s[1..][i] == s[i + 1];
        InsertKeepsKnown(x, s[1..]);
        InsertElements(x, s[1..], LongestFirst);
        var rest := Insert(x, s[1..], LongestFirst);
        forall y | y in rest
          ensures KnownBefore(s[0], y)
        {
          assert y in multiset(rest);
          if y != x {
            assert y in s[1..];
            var i :| 0 <= i < |s[1..]| && s[1..][i] == y;
            assert s[i + 1] == y;
          }
        }
      }
    }
  }

  lemma {:induction false} LongestOfNamed(s: seq<Entity>)
    requires SortedBy(s, ByName)
    ensures SortedBy(Sort(s, LongestFirst), KnownBefore)
    decreases |s|
  {
    if s != [] {
      assert forall i :: 0 <= i < |s[1..]| ==> s[1..][i] == s[i + 1];
      LongestOfNamed(s[1..]);
      SortElements(s[1..], LongestFirst);
      forall y | y in Sort(s[1..], LongestFirst)
        ensures ByName(s[0], y)
      {
        assert y in s[1..];
        var i :| 0 <= i < |s[1..]| && s[1..][i] == y;
        assert s[i + 1] == y;
      }
      InsertKeepsKnown(s[0], Sort(s[1..], LongestFirst));
    }
  }

  /** The live entities, each once, longest name first. */
  ghost predicate KnownInOrder(rows: seq<Entity>, known: seq<Entity>) {
    && (forall e :: e in known <==> e in rows && !e.deleted)
    && (forall i, j :: 0 <= i < j < |known| ==> known[i].id != known[j].id && KnownBefore(known[i], known[j]))
  }

  lemma KnownAreInOrder(rows: seq<Entity>)
    requires UniqueNames(rows)
    ensures KnownInOrder(rows, Known(rows))
  {
    var live := Filter(rows, Live);
    var named := Sort(live, ByName);
    FilterElements(rows, Live);
    FilterKeepsNoDuplicates(rows, Live);
    SortElements(live, ByName);
    SortKeepsNoDuplicates(live, ByName);
    ByNameIsOrder();
    SortSorts(live, ByName);
    SortElements(named, LongestFirst);
    SortKeepsNoDuplicates(named, LongestFirst);
    LongestOfNamed(named);
    DistinctRowsDistinctIds(rows, Known(rows));
  }

  lemma DistinctRowsDistinctIds(rows: seq<Entity>, known: seq<Entity>)
    requires UniqueNames(rows) && NoDuplicates(known) && forall e :: e in known ==> e in rows
    ensures forall i, j :: 0 <= i < j < |known| ==> known[i].id != known[j].id
  {
    forall i, j | 0 <= i < j < |known|
      ensures known[i].id != known[j].id
    {
      assert known[i] in known && known[j] in known && known[i] != known[j];
    }
  }

  /** A call that resolves gives the entities its subject and object stand for,
      each once, and then every other live entity whose name or alias the
      lower-cased text has as a whole word, longest name first, against the table
      as it is after the names. */
  lemma ResolveEffect(m: Mention, rows: seq<Entity>, fresh1: EntityId, fresh2: EntityId, text: Text)
    requires UniqueNames(rows) && Resolve(m, rows, fresh1, fresh2, text).Resolved?
    ensures var r := Resolve(m, rows, fresh1, fresh2, text);
            exists names, known ::
              && NamedBy(m, rows, fresh1, fresh2, names, r.rows, text) && KnownInOrder(r.rows, known)
              && r.ids == names + FoundIn(names, known, text.lower(m.text), text)
  {
    var r := Resolve(m, rows, fresh1, fresh2, text);
    var o1 := ResolveSpo(m.subj, Resolved([], rows), fresh1, text);
    var o := ResolveNames(m, rows, fresh1, fresh2, text);
    SpoKeepsUnique(m.subj, Resolved([], rows), fresh1, text);
    SpoKeepsUnique(m.obj, o1, fresh2, text);
    FirstIdStays(m, rows, fresh1, fresh2, text);
    KnownAreInOrder(o.rows);
    ScanExactly(Known(o.rows), text.lower(m.text), o, text);
    NamesAreStood(m, rows, fresh1, fresh2, text);
  }

  function IdsOfName(raw: Option<string>, rows: seq<Entity>, newId: EntityId, text: Text): seq<EntityId> {
    if raw.None? || !ResolveName(raw.value, rows, newId, text).Hit? then []
    else [ResolveName(raw.value, rows, newId, text).entity.id]
  }

  lemma NamesAreStood(m: Mention, rows: seq<Entity>, fresh1: EntityId, fresh2: EntityId, text: Text)
    requires ResolveNames(m, rows, fresh1, fresh2, text).Resolved?
    ensures var o := ResolveNames(m, rows, fresh1, fresh2, text);
            NamedBy(m, rows, fresh1, fresh2, o.ids, o.rows, text)
  {
    var o1 := ResolveSpo(m.subj, Resolved([], rows), fresh1, text);
    var subj, obj := IdsOfName(m.subj, rows, fresh1, text), IdsOfName(m.obj, o1.rows, fresh2, text);
    NameIsStood(m.subj, [], rows, fresh1, text);
    NameIsStood(m.obj, subj, o1.rows, fresh2, text);
    assert o1 == Resolved(subj, o1.rows);
  }

  lemma NameIsStood(raw: Option<string>, ids: seq<EntityId>, rows: seq<Entity>, newId: EntityId, text: Text)
    requires ResolveSpo(raw, Resolved(ids, rows), newId, text).Resolved? && |ids| <= 1
    ensures var found := IdsOfName(raw, rows, newId, text);
            var o := ResolveSpo(raw, Resolved(ids, rows), newId, text);
            Stands(raw, rows, newId, found, o.rows, text) && o.ids == if found == ids then ids else ids + found
  {}

  /** One name's part: the entity it stands for, if any, and the table after it. */
  predicate Stands(
    raw: Option<string>, rows: seq<Entity>, newId: EntityId, found: seq<EntityId>, grown: seq<Entity>, text: Text)
  {
    if raw.None? then found == [] && grown == rows
    else match ResolveName(raw.value, rows, newId, text)
      case Ignored => found == [] && grown == rows
      case Hit(e, after) => found == [e.id] && grown == after
      case Broken => false
  }

  /** Subject first, then object, the same entity once. */
  ghost predicate NamedBy(
    m: Mention, rows: seq<Entity>, fresh1: EntityId, fresh2: EntityId, names: seq<EntityId>, grown: seq<Entity>,
    text: Text)
  {
    exists subj, obj, between ::
      && Stands(m.subj, rows, fresh1, subj, between, text) && Stands(m.obj, between, fresh2, obj, grown, text)
      && names == if obj == subj then subj else subj + obj
  }
}

/** The feature-hashing embedder before normalisation: every token, and its
    three-byte prefix and suffix, adds a signed amount to one bucket. Amounts are
    counted in halves. The prefix and suffix are slices of the token's UTF-8
    bytes, and slicing inside a character panics. */
module HashEmbedder {
  import opened Domain
  import opened Utf8

  const FNV_OFFSET: bv64 := 0xcbf2_9ce4_8422_2325
  const FNV_PRIME: bv64 := 0x100_0000_01b3

  function FnvStep(h: bv64, b: Byte): bv64 {
    (h ^ (b as bv64)) * FNV_PRIME
  }

  function FnvFrom(h: bv64, bytes: seq<Byte>): bv64
    decreases |bytes|
  {
    if bytes == [] then h else FnvFrom(FnvStep(h, bytes[0]), bytes[1..])
  }

  function Hash(s: string): bv64 {
    FnvFrom(FNV_OFFSET, Encode(s))
  }

  method Fnv1a(s: string) returns (h: bv64)
    ensures h == Hash(s)
  {
    var bytes := Encode(s);
    h := FNV_OFFSET;
    var i := 0;
    while i < |bytes|
      invariant 0 <= i <= |bytes|
      invariant FnvFrom(h, bytes[i..]) == Hash(s)
    {
      assert bytes[i..][1..] == bytes[i + 1..];
      h := FnvStep(h, bytes[i]);
      i := i + 1;
    }
  }

  function BucketOf(h: bv64, dim: nat): (k: nat)
    requires dim > 0
    ensures k < dim
  {
    h as int % dim
  }

  function SignOf(h: bv64): int {
    if (h >> 32) & 1 == 0 then 1 else -1
  }

  // ---- Prefix and suffix pieces ---------------------------------------------

  /** A short token is its own single piece; None when a slice panics. */
  function Pieces(token: string): Option<seq<string>> {
    if ByteLen(token) <= 3 then Some([token])
    else match (CutAt(token, 3), CutAt(token, ByteLen(token) - 3))
      case (Some(i), Some(j)) => Some([token[..i], token[j..]])
      case _ => None
  }

  lemma {:induction false} ByteLenSplit(s: string, n: nat)
    requires n <= |s|
    ensures ByteLen(s) == ByteLen(s[..n]) + ByteLen(s[n..])
  {
    if n > 0 {
      ByteLenSplit(s[1..], n - 1);
      assert s[..n][1..] == s[1..][..n - 1] && s[n..] == s[1..][n - 1..];
    } else {
      assert s[..0] == "" && s[0..] == s;
    }
  }

  /** A token embeds exactly when it takes at most three bytes, or some of its
      leading characters and some of its trailing ones take exactly three. */
  lemma PiecesExist(token: string)
    ensures Pieces(token).Some? <==>
            (|| ByteLen(token) <= 3
             || exists i, j :: 0 <= i <= |token| && 0 <= j <= |token|
                               && ByteLen(token[..i]) == 3 && ByteLen(token[j..]) == 3)
    ensures IsAscii(token) ==> Pieces(token).Some?
  {
    var n := ByteLen(token);
    if n > 3 {
      if IsAscii(token) {
        AsciiCuts(token, 3);
        AsciiCuts(token, n - 3);
      }
      forall i, j | 0 <= i <= |token| && 0 <= j <= |token| && ByteLen(token[..i]) == 3 && ByteLen(token[j..]) == 3
        ensures Pieces(token).Some?
      {
        PiecesAt(token, i, j);
      }
      if Pieces(token).Some? {
        PiecesWidths(token);
      }
    }
  }

  lemma PiecesAt(token: string, i: nat, j: nat)
    requires ByteLen(token) > 3 && i <= |token| && j <= |token|
    requires ByteLen(token[..i]) == 3 && ByteLen(token[j..]) == 3
    ensures Pieces(token) == Some([token[..i], token[j..]])
  {
    CutAtIsPrefix(token, i);
    CutAtIsPrefix(token, j);
    ByteLenSplit(token, j);
  }

  lemma PiecesWidths(token: string)
    requires ByteLen(token) > 3 && Pieces(token).Some?
    ensures exists i, j :: 0 <= i <= |token| && 0 <= j <= |token|
                           && ByteLen(token[..i]) == 3 && ByteLen(token[j..]) == 3
  {
    var n := ByteLen(token);
    var i, j := CutAt(token, 3).value, CutAt(token, n - 3).value;
    CutAtIsExact(token, 3);
    CutAtIsExact(token, n - 3);
    ByteLenSplit(token, j);
    assert ByteLen(token[..i]) == 3 && ByteLen(token[j..]) == 3;
  }

  const NAIVE := "na\U{00EF}ve"

  /** An ordinary accented word makes the embedder panic. */
  lemma AccentedWordPanics()
    ensures Pieces(NAIVE).None?
  {
    assert NAIVE[1..][1..] == "\U{00EF}ve" && Width('\U{00EF}') == 2;
    assert ByteLen("ve") == 2 by { assert "ve"[1..] == "e" && ByteLen("e") == 1 + ByteLen(""); }
    assert ByteLen("\U{00EF}ve") == 4 by { assert "\U{00EF}ve"[1..] == "ve"; }
    assert ByteLen(NAIVE[1..]) == 5 && ByteLen(NAIVE) == 6;
    assert CutAt("\U{00EF}ve", 1).None?;
    assert CutAt(NAIVE[1..], 2).None?;
  }

  // ---- The specification: one bucket at a time ------------------------------

  /** What a hashed string adds to bucket k. */
  function Push(s: string, amount: int, dim: nat, k: nat): int
    requires dim > 0
  {
    if BucketOf(Hash(s), dim) == k then SignOf(Hash(s)) * amount else 0
  }

  function PushAll(pieces: seq<string>, amount: int, dim: nat, k: nat): int
    requires dim > 0
  {
    if pieces == [] then 0 else Push(pieces[0], amount, dim, k) + PushAll(pieces[1..], amount, dim, k)
  }

  function TokenWeight(token: string, dim: nat, k: nat): int
    requires dim > 0
  {
    Push(token, 2, dim, k) + match Pieces(token) case None => 0 case Some(pieces) => PushAll(pieces, 1, dim, k)
  }

  /** Halves in bucket k of the vector for a list of tokens. */
  function Weight(tokens: seq<string>, dim: nat, k: nat): int
    requires dim > 0
  {
    if tokens == [] then 0 else TokenWeight(tokens[0], dim, k) + Weight(tokens[1..], dim, k)
  }

  // ---- The accumulation in place --------------------------------------------

  method AddTo(v: array<int>, s: string, amount: int)
    requires v.Length > 0
    modifies v
    ensures forall k :: 0 <= k < v.Length ==> v[k] == old(v[k]) + Push(s, amount, v.Length, k)
  {
    var h := Fnv1a(s);
    var bucket := BucketOf(h, v.Length);
    v[bucket] := v[bucket] + SignOf(h) * amount;
  }

  /** Panics exactly when some token cannot be sliced, or there is a token and
      no bucket to put it in; otherwise fills the vector of the whole list. */
  method Accumulate(tokens: seq<string>, dim: nat) returns (v: array<int>, panicked: bool)
    ensures fresh(v) && v.Length == dim
    ensures panicked <==> exists i :: 0 <= i < |tokens| && (dim == 0 || Pieces(tokens[i]).None?)
    ensures !panicked ==> forall k :: 0 <= k < dim ==> v[k] == Weight(tokens, dim, k)
  {
    v, panicked := new int[dim](_ => 0), false;
    var i := 0;
    while i < |tokens|
      invariant 0 <= i <= |tokens| && (i > 0 ==> dim > 0)
      invariant forall i' :: 0 <= i' < i ==> Pieces(tokens[i']).Some?
      invariant forall k :: 0 <= k < dim ==> v[k] + Weight(tokens[i..], dim, k) == Weight(tokens, dim, k)
    {
      if dim == 0 {
        panicked := true;
        return;
      }
      assert tokens[i..][1..] == tokens[i + 1..];
      AddTo(v, tokens[i], 2);
      if Pieces(tokens[i]).None? {
        panicked := true;
        return;
      }
      var pieces := Pieces(tokens[i]).value;
      var j := 0;
      while j < |pieces|
        invariant 0 <= j <= |pieces|
        invariant forall k :: 0 <= k < dim ==>
                    v[k] + PushAll(pieces[j..], 1, dim, k) + Weight(tokens[i + 1..], dim, k) == Weight(tokens, dim, k)
      {
        assert pieces[j..][1..] == pieces[j + 1..];
        AddTo(v, pieces[j], 1);
        j := j + 1;
      }
      i := i + 1;
    }
  }

  // ---- Laws -----------------------------------------------------------------

  function Total(tokens: seq<string>, weigh: string -> int): int {
    if tokens == [] then 0 else weigh(tokens[0]) + Total(tokens[1..], weigh)
  }

  lemma {:induction false} TotalOfConcat(a: seq<string>, b: seq<string>, weigh: string -> int)
    ensures Total(a + b, weigh) == Total(a, weigh) + Total(b, weigh)
  {
    if a == [] {
      assert a + b == b;
    } else {
      TotalOfConcat(a[1..], b, weigh);
      assert (a + b)[0] == a[0] && (a + b)[1..] == a[1..] + b;
    }
  }

  function WeighIn(dim: nat, k: nat): string -> int
    requires dim > 0
  {
    (token: string) => TokenWeight(token, dim, k)
  }

  lemma {:induction false} WeightIsTotal(tokens: seq<string>, dim: nat, k: nat)
    requires dim > 0
    ensures Weight(tokens, dim, k) == Total(tokens, WeighIn(dim, k))
  {
    if tokens != [] {
      WeightIsTotal(tokens[1..], dim, k);
    }
  }

  /** The vector of two token lists together is the sum of their vectors. */
  lemma WeightOfConcat(a: seq<string>, b: seq<string>, dim: nat, k: nat)
    requires dim > 0
    ensures Weight(a + b, dim, k) == Weight(a, dim, k) + Weight(b, dim, k)
  {
    WeightIsTotal(a, dim, k);
    WeightIsTotal(b, dim, k);
    WeightIsTotal(a + b, dim, k);
    TotalOfConcat(a, b, WeighIn(dim, k));
  }

  /** Taking one occurrence out of a list. */
  lemma RemoveOne(a: seq<string>, b: seq<string>, i: nat)
    requires a != [] && i < |b| && b[i] == a[0] && multiset(a) == multiset(b)
    ensures multiset(a[1..]) == multiset(b[..i] + b[i + 1..])
  {
    assert a == [a[0]] + a[1..];
    assert b == b[..i] + [b[i]] + b[i + 1..];
    assert multiset(a[1..]) == multiset(a) - multiset{a[0]};
    assert multiset(b[..i] + b[i + 1..]) == multiset(b) - multiset{b[i]};
  }

  /** Permuting the tokens leaves the vector unchanged. */
  lemma {:induction false} WeightOfPermutation(a: seq<string>, b: seq<string>, dim: nat, k: nat)
    requires dim > 0 && multiset(a) == multiset(b)
    ensures Weight(a, dim, k) == Weight(b, dim, k)
    decreases |a|
  {
    if a == [] {
      assert |multiset(b)| == 0;
    } else {
      assert a[0] in multiset(b);
      var i :| 0 <= i < |b| && b[i] == a[0];
      RemoveOne(a, b, i);
      WeightOfPermutation(a[1..], b[..i] + b[i + 1..], dim, k);
      WeightWithout(b, i, dim, k);
    }
  }

  lemma WeightWithout(b: seq<string>, i: nat, dim: nat, k: nat)
    requires dim > 0 && i < |b|
    ensures Weight(b, dim, k) == TokenWeight(b[i], dim, k) + Weight(b[..i] + b[i + 1..], dim, k)
  {
    assert b == b[..i] + b[i..] && b[i..][1..] == b[i + 1..];
    WeightOfConcat(b[..i], b[i..], dim, k);
    WeightOfConcat(b[..i], b[i + 1..], dim, k);
  }

  // ---- Tokenising -----------------------------------------------------------

  /** Maximal runs of alphanumeric characters, lower-cased, after a run in
      progress. */
  function TokensFrom(run: string, s: string, isAlnum: char -> bool): seq<string>
    decreases |s|
  {
    if s == "" then (if run == "" then [] else [LowerAscii(run)])
    else if isAlnum(s[0]) then TokensFrom(run + [s[0]], s[1..], isAlnum)
    else (if run == "" then [] else [LowerAscii(run)]) + TokensFrom("", s[1..], isAlnum)
  }

  function Tokenize(s: string, isAlnum: char -> bool): seq<string> {
    TokensFrom("", s, isAlnum)
  }

  /** Whether a character is alphanumeric does not depend on its ASCII case. */
  ghost predicate CaseBlind(isAlnum: char -> bool) {
    forall c :: isAlnum(AsciiLower(c)) == isAlnum(c)
  }

  lemma {:induction false} LowerAsciiSnoc(s: string, c: char)
    ensures LowerAscii(s + [c]) == LowerAscii(s) + [AsciiLower(c)]
  {
    if s != "" {
      LowerAsciiSnoc(s[1..], c);
      assert (s + [c])[1..] == s[1..] + [c];
    }
  }

  /** Only the case-folded text matters, run in progress included. */
  lemma {:induction false} TokensFromIgnoreCase(run: string, s: string, run': string, s': string, isAlnum: char -> bool)
    requires CaseBlind(isAlnum) && LowerAscii(run) == LowerAscii(run') && LowerAscii(s) == LowerAscii(s')
    ensures TokensFrom(run, s, isAlnum) == TokensFrom(run', s', isAlnum)
    decreases |s|
  {
    assert run == "" <==> run' == "";
    if s != "" {
      assert AsciiLower(s[0]) == LowerAscii(s)[0] == LowerAscii(s')[0] == AsciiLower(s'[0]);
      assert LowerAscii(s[1..]) == LowerAscii(s)[1..] == LowerAscii(s')[1..] == LowerAscii(s'[1..]);
      assert isAlnum(s[0]) == isAlnum(AsciiLower(s[0])) == isAlnum(s'[0]);
      LowerAsciiSnoc(run, s[0]);
      LowerAsciiSnoc(run', s'[0]);
      TokensFromIgnoreCase(run + [s[0]], s[1..], run' + [s'[0]], s'[1..], isAlnum);
      TokensFromIgnoreCase("", s[1..], "", s'[1..], isAlnum);
    }
  }

  /** Texts that differ only in ASCII case have the same tokens, so the same
      vector. */
  lemma EmbeddingIgnoresCase(s: string, s': string, isAlnum: char -> bool, dim: nat, k: nat)
    requires CaseBlind(isAlnum) && LowerAscii(s) == LowerAscii(s') && dim > 0
    ensures Tokenize(s, isAlnum) == Tokenize(s', isAlnum)
    ensures Weight(Tokenize(s, isAlnum), dim, k) == Weight(Tokenize(s', isAlnum), dim, k)
  {
    TokensFromIgnoreCase("", s, "", s', isAlnum);
  }

  // ---- What the pieces are --------------------------------------------------

  lemma {:induction false} FnvOfConcat(h: bv64, a: seq<Byte>, b: seq<Byte>)
    ensures FnvFrom(h, a + b) == FnvFrom(FnvFrom(h, a), b)
    decreases |a|
  {
    if a == [] {
      assert a + b == b;
    } else {
      assert (a + b)[0] == a[0] && (a + b)[1..] == a[1..] + b;
      FnvOfConcat(FnvStep(h, a[0]), a[1..], b);
    }
  }

  lemma JoinBytes(a: seq<Byte>, b: seq<Byte>, c: seq<Byte>)
    ensures a + (b + c) == (a + b) + c
  {}

  lemma {:induction false} EncodeOfConcat(a: string, b: string)
    ensures Encode(a + b) == Encode(a) + Encode(b)
  {
    if a == "" {
      assert a + b == b;
    } else {
      EncodeOfConcat(a[1..], b);
      assert (a + b)[0] == a[0] && (a + b)[1..] == a[1..] + b;
      JoinBytes(EncodeChar(a[0]), Encode(a[1..]), Encode(b));
    }
  }

  /** One byte of FNV-1a: it is xored in and the result multiplied by the prime. */
  lemma StepEffect(h: bv64, b: Byte)
    ensures FnvStep(h, b) == (h ^ (b as bv64)) * FNV_PRIME
  {}

  /** The 64-bit FNV-1a hash: from its offset basis, byte after byte. */
  lemma HashEffect(s: string, c: char, b: Byte)
    requires c as int < 128 && b as int == c as int
    ensures Hash("") == 0xcbf2_9ce4_8422_2325 && FNV_PRIME == 0x100_0000_01b3
    ensures Hash(s + [c]) == FnvStep(Hash(s), b)
  {
    EncodeOfConcat(s, [c]);
    assert [c][1..] == "";
    assert Encode([c]) == [b] + Encode("");
    assert [b] + [] == [b] && [b][1..] == [];
    FnvOfConcat(FNV_OFFSET, Encode(s), [b]);
    assert FnvFrom(Hash(s), [b]) == FnvFrom(FnvStep(Hash(s), b), []);
  }

  /** What a hashed piece adds to a bucket: its amount in the bucket its hash
      selects, positive or negative by the hash's 33rd bit. */
  function Share(s: string, amount: int, dim: nat, k: nat): int
    requires dim > 0
  {
    if Hash(s) as int % dim != k then 0 else if (Hash(s) >> 32) & 1 == 0 then amount else -amount
  }

  /** A token counts twice a half, and its first and last three bytes, or a short
      token once more, count a half each. */
  lemma TokenEffect(token: string, dim: nat, k: nat)
    requires dim > 0
    ensures ByteLen(token) <= 3 ==>
              Weight([token], dim, k) == Share(token, 2, dim, k) + Share(token, 1, dim, k)
    ensures forall i, j :: && 0 <= i <= |token| && 0 <= j <= |token| && ByteLen(token) > 3
                           && ByteLen(token[..i]) == 3 && ByteLen(token[j..]) == 3 ==>
              Weight([token], dim, k)
              == Share(token, 2, dim, k) + Share(token[..i], 1, dim, k) + Share(token[j..], 1, dim, k)
  {
    assert [token][1..] == [];
    assert Weight([token], dim, k) == TokenWeight(token, dim, k) + Weight([], dim, k);
    if ByteLen(token) <= 3 {
      OnePiece(token, dim, k);
    }
    forall i, j | 0 <= i <= |token| && 0 <= j <= |token| && ByteLen(token) > 3
                  && ByteLen(token[..i]) == 3 && ByteLen(token[j..]) == 3
      ensures Weight([token], dim, k)
              == Share(token, 2, dim, k) + Share(token[..i], 1, dim, k) + Share(token[j..], 1, dim, k)
    {
      PiecesAt(token, i, j);
      TwoPieces(token[..i], token[j..], dim, k);
    }
  }

  lemma OnePiece(piece: string, dim: nat, k: nat)
    requires dim > 0
    ensures PushAll([piece], 1, dim, k) == Share(piece, 1, dim, k)
  {
    assert [piece][1..] == [];
  }

  lemma TwoPieces(a: string, b: string, dim: nat, k: nat)
    requires dim > 0
    ensures PushAll([a, b], 1, dim, k) == Share(a, 1, dim, k) + Share(b, 1, dim, k)
  {
    assert [a, b][1..] == [b];
    OnePiece(b, dim, k);
  }

  lemma {:induction false} TokensSplit(run: string, a: string, sep: char, b: string, isAlnum: char -> bool)
    requires !isAlnum(sep)
    ensures TokensFrom(run, a + [sep] + b, isAlnum) == TokensFrom(run, a, isAlnum) + Tokenize(b, isAlnum)
    decreases |a|
  {
    var all := a + [sep] + b;
    if a == "" {
      assert all[0] == sep && all[1..] == b;
    } else {
      assert all[0] == a[0] && all[1..] == a[1..] + [sep] + b;
      if isAlnum(a[0]) {
        TokensSplit(run + [a[0]], a[1..], sep, b, isAlnum);
      } else {
        TokensSplit("", a[1..], sep, b, isAlnum);
        var head := if run == "" then [] else [LowerAscii(run)];
        assert head + (TokensFrom("", a[1..], isAlnum) + Tokenize(b, isAlnum))
               == (head + TokensFrom("", a[1..], isAlnum)) + Tokenize(b, isAlnum);
      }
    }
  }

  lemma {:induction false} TokensOfRun(run: string, s: string, isAlnum: char -> bool)
    requires forall i :: 0 <= i < |s| ==> isAlnum(s[i])
    ensures TokensFrom(run, s, isAlnum) == if run + s == "" then [] else [LowerAscii(run + s)]
    decreases |s|
  {
    if s == "" {
      assert run + s == run;
    } else {
      assert forall i :: 0 <= i < |s[1..]| ==> s[1..][i] == s[i + 1];
      TokensOfRun(run + [s[0]], s[1..], isAlnum);
      assert run + [s[0]] + s[1..] == run + s;
    }
  }

  /** A character that is not alphanumeric separates the tokens before it from
      those after it; characters that all are make up one token, lower-cased. */
  lemma TokensEffect(a: string, sep: char, b: string, isAlnum: char -> bool)
    requires !isAlnum(sep)
    ensures Tokenize(a + [sep] + b, isAlnum) == Tokenize(a, isAlnum) + Tokenize(b, isAlnum)
    ensures (forall i :: 0 <= i < |a| ==> isAlnum(a[i])) ==>
              Tokenize(a, isAlnum) == if a == "" then [] else [LowerAscii(a)]
  {
    TokensSplit("", a, sep, b, isAlnum);
    if forall i :: 0 <= i < |a| ==> isAlnum(a[i]) {
      TokensOfRun("", a, isAlnum);
      assert "" + a == a;
    }
  }
}

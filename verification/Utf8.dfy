/** Strings as UTF-8: how many bytes their characters take, where they can be
    sliced, and ASCII lower-casing, which is all that SQLite and the embedder do. */
module Utf8 {
  import opened Domain

  newtype Byte = b: int | 0 <= b < 256

  /** Bytes a character takes. */
  function Width(c: char): (w: nat)
    ensures 1 <= w <= 4
  {
    var code := c as int;
    if code < 0x80 then 1 else if code < 0x800 then 2 else if code < 0x1_0000 then 3 else 4
  }

  function ByteLen(s: string): nat {
    if s == "" then 0 else Width(s[0]) + ByteLen(s[1..])
  }

  function EncodeChar(c: char): (bytes: seq<Byte>)
    ensures |bytes| == Width(c)
  {
    var code := c as int;
    if code < 0x80 then [code as Byte]
    else if code < 0x800 then [(0xC0 + code / 0x40) as Byte, Continuation(code)]
    else if code < 0x1_0000 then
      [(0xE0 + code / 0x1000) as Byte, Continuation(code / 0x40), Continuation(code)]
    else
      [(0xF0 + code / 0x4_0000) as Byte, Continuation(code / 0x1000), Continuation(code / 0x40), Continuation(code)]
  }

  function Continuation(code: nat): Byte {
    (0x80 + code % 0x40) as Byte
  }

  function Encode(s: string): (bytes: seq<Byte>)
    ensures |bytes| == ByteLen(s)
  {
    if s == "" then [] else EncodeChar(s[0]) + Encode(s[1..])
  }

  /** How many characters take exactly this many bytes; None inside one. */
  function CutAt(s: string, bytes: nat): (r: Option<nat>)
    requires bytes <= ByteLen(s)
    ensures r.Some? ==> r.value <= |s|
  {
    if bytes == 0 then Some(0)
    else if bytes < Width(s[0]) then None
    else match CutAt(s[1..], bytes - Width(s[0]))
      case None => None
      case Some(n) => Some(n + 1)
  }

  function AsciiLower(c: char): char {
    if 'A' <= c <= 'Z' then (c as int + 32) as char else c
  }

  function LowerAscii(s: string): string {
    if s == "" then "" else [AsciiLower(s[0])] + LowerAscii(s[1..])
  }

  predicate IsAscii(s: string) {
    forall i :: 0 <= i < |s| ==> Width(s[i]) == 1
  }

  /** CutAt finds the one prefix of that many bytes, when there is one. */
  lemma {:induction false} CutAtIsPrefix(s: string, n: nat)
    requires n <= |s|
    ensures ByteLen(s[..n]) <= ByteLen(s) && CutAt(s, ByteLen(s[..n])) == Some(n)
  {
    if n > 0 {
      CutAtIsPrefix(s[1..], n - 1);
      assert s[..n][1..] == s[1..][..n - 1];
    }
  }

  lemma {:induction false} CutAtIsExact(s: string, bytes: nat)
    requires bytes <= ByteLen(s) && CutAt(s, bytes).Some?
    ensures ByteLen(s[..CutAt(s, bytes).value]) == bytes
  {
    if bytes > 0 {
      CutAtIsExact(s[1..], bytes - Width(s[0]));
      var n := CutAt(s, bytes).value;
      assert s[..n][1..] == s[1..][..n - 1];
    }
  }

  lemma {:induction false} AsciiCuts(s: string, bytes: nat)
    requires IsAscii(s) && bytes <= ByteLen(s)
    ensures ByteLen(s) == |s| && CutAt(s, bytes) == Some(bytes)
  {
    if s != "" {
      assert forall i :: 0 <= i < |s[1..]| ==> s[1..][i] == s[i + 1];
      AsciiCuts(s[1..], if bytes == 0 then 0 else bytes - 1);
    }
  }

  /** Lower-casing changes the 26 capital letters of ASCII and nothing else. */
  lemma {:induction false} LowerAsciiEffect(s: string)
    ensures |LowerAscii(s)| == |s|
    ensures forall i :: 0 <= i < |s| ==>
              LowerAscii(s)[i] as int == s[i] as int + if 65 <= s[i] as int <= 90 then 32 else 0
  {
    if s != "" {
      LowerAsciiEffect(s[1..]);
    }
  }

  /** The code a leading byte and its continuations stand for, six bits each. */
  function CodeOf(lead: int, bytes: seq<Byte>): int {
    if bytes == [] then lead else CodeOf(lead, bytes[..|bytes| - 1]) * 64 + (bytes[|bytes| - 1] as int - 128)
  }

  lemma LastSix(lead: int, bytes: seq<Byte>, code: nat)
    requires CodeOf(lead, bytes) == code / 64
    ensures CodeOf(lead, bytes + [Continuation(code)]) == code
    ensures 128 <= Continuation(code) as int < 192
  {
    assert (bytes + [Continuation(code)])[..|bytes|] == bytes;
  }

  lemma SixMore(code: nat)
    ensures code / 64 / 64 == code / 4096 && code / 4096 / 64 == code / 262144
  {}

  /** UTF-8: a character takes as many bytes as its code needs, the first under
      the marker for their number, and its bytes give its code back. */
  lemma EncodeEffect(c: char)
    ensures var code, bytes := c as int, EncodeChar(c);
            && |bytes| == (if code < 128 then 1 else if code < 2048 then 2 else if code < 65536 then 3 else 4)
            && CodeOf(bytes[0] as int - (if code < 128 then 0 else if code < 2048 then 192
                                         else if code < 65536 then 224 else 240), bytes[1..]) == code
  {
    var code, bytes := c as int, EncodeChar(c);
    SixMore(code);
    if 128 <= code {
      var a := [Continuation(code)];
      if code < 2048 {
        LastSix(code / 64, [], code);
        assert bytes[1..] == [] + a;
      } else if code < 65536 {
        LastSix(code / 4096, [], code / 64);
        LastSix(code / 4096, [Continuation(code / 64)], code);
        assert [] + [Continuation(code / 64)] == [Continuation(code / 64)];
        assert bytes[1..] == [Continuation(code / 64)] + a;
      } else {
        var b, d := [Continuation(code / 64)], [Continuation(code / 4096)];
        LastSix(code / 262144, [], code / 4096);
        assert [] + d == d;
        LastSix(code / 262144, d, code / 64);
        LastSix(code / 262144, d + b, code);
        assert bytes[1..] == d + b + a;
      }
    }
  }
}

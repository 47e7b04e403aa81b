/** The byte tests of the host's reader against the characters they stand for: a text is UTF-8 when it
    encodes Unicode scalar values, and white space is the encoding of a white-space character. */
module Utf8Text {
  import opened Framing

  predicate IsScalar(c: nat) {
    c < 0xD800 || 0xE000 <= c < 0x11_0000
  }

  /** The bytes that encode one scalar value. */
  function Encoded(c: nat): (bytes: Bytes)
    requires IsScalar(c)
    ensures 1 <= |bytes| <= 4
  {
    if c < 0x80 then [c as char]
    else if c < 0x800 then [(0xC0 + c / 64) as char, (0x80 + c % 64) as char]
    else if c < 0x1_0000 then
      [(0xE0 + c / 4096) as char, (0x80 + c / 64 % 64) as char, (0x80 + c % 64) as char]
    else
      [(0xF0 + c / 262144) as char, (0x80 + c / 4096 % 64) as char, (0x80 + c / 64 % 64) as char,
       (0x80 + c % 64) as char]
  }

  predicate AllScalars(cs: seq<nat>) {
    forall i :: 0 <= i < |cs| ==> IsScalar(cs[i])
  }

  function EncodedAll(cs: seq<nat>): Bytes
    requires AllScalars(cs)
  {
    if cs == [] then [] else Encoded(cs[0]) + EncodedAll(cs[1..])
  }

  lemma WidthOfEncoded(c: nat, rest: Bytes)
    requires IsScalar(c)
    ensures Utf8Width(Encoded(c) + rest) == |Encoded(c)|
  {
    var s, e := Encoded(c) + rest, Encoded(c);
    assert forall i :: 0 <= i < |e| ==> s[i] == e[i];
  }

  /** The scalar value a well-formed sequence encodes. */
  lemma DecodedTwo(s: Bytes) returns (c: nat)
    requires Utf8Width(s) == 2
    ensures IsScalar(c) && s[..2] == Encoded(c)
  {
    c := (s[0] as nat - 0xC0) * 64 + (s[1] as nat - 0x80);
    assert c / 64 == s[0] as nat - 0xC0 && c % 64 == s[1] as nat - 0x80;
  }

  lemma DecodedThree(s: Bytes) returns (c: nat)
    requires Utf8Width(s) == 3
    ensures IsScalar(c) && s[..3] == Encoded(c)
  {
    c := (s[0] as nat - 0xE0) * 4096 + (s[1] as nat - 0x80) * 64 + (s[2] as nat - 0x80);
    assert c % 64 == s[2] as nat - 0x80 && c / 4096 == s[0] as nat - 0xE0;
    assert c / 64 % 64 == s[1] as nat - 0x80;
  }

  lemma DecodedFour(s: Bytes) returns (c: nat)
    requires Utf8Width(s) == 4
    ensures IsScalar(c) && s[..4] == Encoded(c)
  {
    var a, b, d, e := s[0] as nat - 0xF0, s[1] as nat - 0x80, s[2] as nat - 0x80, s[3] as nat - 0x80;
    c := a * 262144 + b * 4096 + d * 64 + e;
    assert c % 64 == e && c / 64 == a * 4096 + b * 64 + d;
    assert c / 4096 == a * 64 + b && c / 262144 == a;
  }

  lemma Decoded(s: Bytes) returns (c: nat)
    requires Utf8Width(s) > 0
    ensures IsScalar(c) && s[..Utf8Width(s)] == Encoded(c)
  {
    if Utf8Width(s) == 1 {
      c := s[0] as nat;
    } else if Utf8Width(s) == 2 {
      c := DecodedTwo(s);
    } else if Utf8Width(s) == 3 {
      c := DecodedThree(s);
    } else {
      c := DecodedFour(s);
    }
  }

  lemma {:induction false} EncodedIsUtf8(cs: seq<nat>)
    requires AllScalars(cs)
    ensures IsUtf8(EncodedAll(cs))
    decreases |cs|
  {
    if cs != [] {
      EncodedIsUtf8(cs[1..]);
      WidthOfEncoded(cs[0], EncodedAll(cs[1..]));
      FirstEncoded(cs[0], EncodedAll(cs[1..]));
    }
  }

  lemma FirstEncoded(c: nat, rest: Bytes)
    requires IsScalar(c) && IsUtf8(rest) && Utf8Width(Encoded(c) + rest) == |Encoded(c)|
    ensures IsUtf8(Encoded(c) + rest)
  {
    assert (Encoded(c) + rest)[|Encoded(c)|..] == rest;
  }

  lemma {:induction false} Utf8Decodes(s: Bytes) returns (cs: seq<nat>)
    requires IsUtf8(s)
    ensures AllScalars(cs) && EncodedAll(cs) == s
    decreases |s|
  {
    if s == [] {
      cs := [];
    } else {
      var n := Utf8Width(s);
      var c := Decoded(s);
      var more := Utf8Decodes(s[n..]);
      cs := [c] + more;
      assert cs[1..] == more && s == s[..n] + s[n..];
    }
  }

  ghost predicate Encodes(cs: seq<nat>, s: Bytes) {
    AllScalars(cs) && EncodedAll(cs) == s
  }

  /** The host takes a line for text exactly when it encodes some sequence of scalar values: no overlong
      form, no surrogate, nothing beyond the last code point, no stray or missing byte. */
  lemma Utf8Exactly(s: Bytes)
    ensures IsUtf8(s) <==> exists cs: seq<nat> :: Encodes(cs, s)
  {
    if IsUtf8(s) {
      var cs := Utf8Decodes(s);
      assert Encodes(cs, s);
    }
    if cs: seq<nat> :| Encodes(cs, s) {
      EncodedIsUtf8(cs);
    }
  }

  /** The characters with the white-space property. */
  predicate IsWhite(c: nat) {
    || 0x9 <= c <= 0xD || c in {0x20, 0x85, 0xA0, 0x1680, 0x2028, 0x2029, 0x202F, 0x205F, 0x3000}
    || 0x2000 <= c <= 0x200A
  }

  /** What the host trims from the ends of names and values are exactly those characters. */
  lemma WhiteExactly(c: nat)
    requires IsScalar(c)
    ensures WhiteAt(Encoded(c), 0, |Encoded(c)|) <==> IsWhite(c)
  {
    if c < 0x800 {
      assert c >= 0x80 ==> c == (c / 64) * 64 + c % 64;
    } else if c < 0x1_0000 {
      assert c == (c / 4096) * 4096 + (c / 64 % 64) * 64 + c % 64;
    }
  }
}

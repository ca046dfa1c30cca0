/**
 Which octets are UTF-8: a scan by the byte ranges of section 4 of RFC 3629, and the encoding of
 section 3, of whose results it accepts exactly all.
 */
module Utf8 {
  import opened Bytes

  predicate Trails(s: seq<byte>) {
    forall i :: 0 <= i < |s| ==> 0x80 <= s[i] <= 0xBF
  }

  /** How long a character that starts with these two bytes is; 0 for none. */
  function Width(first: byte, second: byte): nat {
    if first < 0x80 then 1
    else if 0xC2 <= first <= 0xDF then 2
    else if first == 0xE0 && second < 0xA0 then 0
    else if first == 0xED && second > 0x9F then 0
    else if 0xE0 <= first <= 0xEF then 3
    else if first == 0xF0 && second < 0x90 then 0
    else if first == 0xF4 && second > 0x8F then 0
    else if 0xF0 <= first <= 0xF4 then 4
    else 0
  }

  predicate ValidUtf8(s: seq<byte>) {
    s == [] ||
    (var width := Width(s[0], if |s| > 1 then s[1] else 0);
     0 < width <= |s| && Trails(s[1..width]) && ValidUtf8(s[width..]))
  }

  // ---------------------------------------------------------------------------------------
  // The encoding
  // ---------------------------------------------------------------------------------------

  /** A code point that may be encoded: no surrogate. */
  predicate Scalar(cp: nat) {
    cp < 0xD800 || 0xE000 <= cp < 0x11_0000
  }

  function Trail(n: nat): byte {
    (0x80 + n % 64) as byte
  }

  function EncodeOne(cp: nat): seq<byte>
    requires Scalar(cp)
  {
    if cp < 0x80 then [cp as byte]
    else if cp < 0x800 then [(0xC0 + cp / 64) as byte, Trail(cp)]
    else if cp < 0x1_0000 then [(0xE0 + cp / 4096) as byte, Trail(cp / 64), Trail(cp)]
    else [(0xF0 + cp / 262144) as byte, Trail(cp / 4096), Trail(cp / 64), Trail(cp)]
  }

  ghost predicate AllScalar(cps: seq<nat>) {
    forall i :: 0 <= i < |cps| ==> Scalar(cps[i])
  }

  function Encode(cps: seq<nat>): seq<byte>
    requires AllScalar(cps)
  {
    if cps == [] then [] else EncodeOne(cps[0]) + Encode(cps[1..])
  }

  /** The code point of one character. */
  function DecodeOne(s: seq<byte>): nat
    requires OneCharacter(s)
  {
    if |s| == 1 then s[0] as nat
    else
      var last := s[|s| - 1] as nat - 0x80;
      if |s| == 2 then (s[0] as nat - 0xC0) * 64 + last
      else if |s| == 3 then (s[0] as nat - 0xE0) * 4096 + (s[1] as nat - 0x80) * 64 + last
      else (s[0] as nat - 0xF0) * 262144 + (s[1] as nat - 0x80) * 4096 + (s[2] as nat - 0x80) * 64 + last
  }

  /** The digits of a number in base 64. */
  lemma Digits(a: nat, b: nat, c: nat, d: nat)
    requires b < 64 && c < 64 && d < 64
    ensures var n := a * 262144 + b * 4096 + c * 64 + d;
            n / 262144 == a && n / 4096 % 64 == b && n / 64 % 64 == c && n % 64 == d
  {
    var n := a * 262144 + b * 4096 + c * 64 + d;
    assert n / 64 == a * 4096 + b * 64 + c;
    assert n / 4096 == a * 64 + b;
  }

  predicate OneCharacter(s: seq<byte>) {
    s != [] && |s| == Width(s[0], if |s| > 1 then s[1] else 0) && Trails(s[1..])
  }

  lemma DecodesTwo(s: seq<byte>)
    requires |s| == 2 && OneCharacter(s)
    ensures Scalar(DecodeOne(s)) && EncodeOne(DecodeOne(s)) == s
  {
    assert s[1..][0] == s[1];
    Digits(0, 0, s[0] as nat - 0xC0, s[1] as nat - 0x80);
    var cp := DecodeOne(s);
    assert 0x80 <= cp < 0x800 && cp / 64 == s[0] as nat - 0xC0;
  }

  lemma DecodesThree(s: seq<byte>)
    requires |s| == 3 && OneCharacter(s)
    ensures Scalar(DecodeOne(s)) && EncodeOne(DecodeOne(s)) == s
  {
    assert s[1..][0] == s[1] && s[1..][1] == s[2];
    Digits(0, s[0] as nat - 0xE0, s[1] as nat - 0x80, s[2] as nat - 0x80);
    var cp := DecodeOne(s);
    assert cp == (s[0] as nat - 0xE0) * 4096 + (s[1] as nat - 0x80) * 64 + (s[2] as nat - 0x80);
    assert cp / 4096 == s[0] as nat - 0xE0;
    assert 0x800 <= cp < 0x1_0000 && Scalar(cp);
  }

  lemma DecodesFour(s: seq<byte>)
    requires |s| == 4 && OneCharacter(s)
    ensures Scalar(DecodeOne(s)) && EncodeOne(DecodeOne(s)) == s
  {
    assert s[1..][0] == s[1] && s[1..][1] == s[2] && s[1..][2] == s[3];
    Digits(s[0] as nat - 0xF0, s[1] as nat - 0x80, s[2] as nat - 0x80, s[3] as nat - 0x80);
    var cp := DecodeOne(s);
    assert 0x1_0000 <= cp < 0x11_0000 && Scalar(cp);
  }

  lemma DecodeEncodes(s: seq<byte>)
    requires OneCharacter(s)
    ensures Scalar(DecodeOne(s)) && EncodeOne(DecodeOne(s)) == s
  {
    if |s| == 2 {
      DecodesTwo(s);
    } else if |s| == 3 {
      DecodesThree(s);
    } else if |s| == 4 {
      DecodesFour(s);
    }
  }

  lemma EncodeHasWidth(cp: nat)
    requires Scalar(cp)
    ensures OneCharacter(EncodeOne(cp))
  {
  }

  lemma ValidStep(first: seq<byte>, rest: seq<byte>)
    requires OneCharacter(first)
    ensures ValidUtf8(first + rest) <==> ValidUtf8(rest)
  {
    var s := first + rest;
    assert s[|first|..] == rest && s[1..|first|] == first[1..];
  }

  lemma {:induction false} EncodedIsValid(cps: seq<nat>)
    requires AllScalar(cps)
    ensures ValidUtf8(Encode(cps))
  {
    if cps != [] {
      EncodedIsValid(cps[1..]);
      EncodeHasWidth(cps[0]);
      ValidStep(EncodeOne(cps[0]), Encode(cps[1..]));
    }
  }

  lemma FirstCharacter(s: seq<byte>) returns (first: seq<byte>, rest: seq<byte>)
    requires ValidUtf8(s) && s != []
    ensures s == first + rest && OneCharacter(first) && ValidUtf8(rest)
  {
    var width := Width(s[0], if |s| > 1 then s[1] else 0);
    first, rest := s[..width], s[width..];
    assert first[1..] == s[1..width];
  }

  lemma {:induction false} ValidIsEncoded(s: seq<byte>) returns (cps: seq<nat>)
    requires ValidUtf8(s)
    ensures AllScalar(cps) && Encode(cps) == s
    decreases |s|
  {
    if s == [] {
      cps := [];
    } else {
      var first, rest := FirstCharacter(s);
      DecodeEncodes(first);
      var others := ValidIsEncoded(rest);
      cps := [DecodeOne(first)] + others;
      assert cps[1..] == others;
    }
  }

  /** The scan accepts exactly the encodings of sequences of code points without surrogates. */
  lemma ValidIff(s: seq<byte>)
    ensures ValidUtf8(s) <==> exists cps :: AllScalar(cps) && Encode(cps) == s
  {
    if ValidUtf8(s) {
      var cps := ValidIsEncoded(s);
    }
    forall cps | AllScalar(cps) && Encode(cps) == s
      ensures ValidUtf8(s)
    {
      EncodedIsValid(cps);
    }
  }
}

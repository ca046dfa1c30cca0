/**
 The lifetime grammar of minting.py: the regular expression; the decompositions it stands for; and a
 scanner that reads a string once and finds its decomposition. Digits are the ASCII ones.
 */
module Lifetimes {
  import opened Options
  import opened Regexes

  // The source's pattern, piece by piece: \d+, \d{1,3}, \d{2} and (?:\d+c)?
  const DIGITS := OneOrMore(Digit)
  const UP_TO_THREE := Cat(Digit, Cat(Optional(Digit), Optional(Digit)))
  const TWO := Cat(Digit, Digit)
  const CLOCK := Cat(UP_TO_THREE, Cat(Char(':'), Cat(TWO, Optional(Cat(Char(':'), TWO)))))

  function Field(c: char): Regex {
    Optional(Cat(DIGITS, Char(c)))
  }

  const UNITS := Cat(Field('d'), Cat(Field('h'), Cat(Field('m'), Field('s'))))
  const LIFETIME := Alt(DIGITS, Alt(CLOCK, UNITS))

  /** validate_lifetime accepts exactly these. */
  ghost predicate Accepted(value: string) {
    value != "" && Matches(LIFETIME, value)
  }

  /** The three shapes, with their digit fields. */
  datatype Lifetime =
    | Seconds(n: string)
    | Clock(h: string, m: string, s: Option<string>)
    | Units(days: Option<string>, hours: Option<string>, minutes: Option<string>, seconds: Option<string>)

  predicate AllDigits(s: string) {
    forall i :: 0 <= i < |s| ==> IsDigit(s[i])
  }

  predicate Number(s: string) {
    s != "" && AllDigits(s)
  }

  predicate NumberOrNone(f: Option<string>) {
    f.Some? ==> Number(f.value)
  }

  predicate WellFormed(l: Lifetime) {
    match l
    case Seconds(n) => Number(n)
    case Clock(h, m, s) =>
      Number(h) && |h| <= 3 && AllDigits(m) && |m| == 2 && (s.Some? ==> AllDigits(s.value) && |s.value| == 2)
    case Units(d, h, m, s) =>
      NumberOrNone(d) && NumberOrNone(h) && NumberOrNone(m) && NumberOrNone(s) &&
      (d.Some? || h.Some? || m.Some? || s.Some?)
  }

  function PrintField(f: Option<string>, c: char): string {
    match f
    case None => ""
    case Some(n) => n + [c]
  }

  function Print(l: Lifetime): string {
    match l
    case Seconds(n) => n
    case Clock(h, m, s) => h + (":" + (m + (if s.Some? then ":" + s.value else "")))
    case Units(d, h, m, s) =>
      PrintField(d, 'd') + (PrintField(h, 'h') + (PrintField(m, 'm') + PrintField(s, 's')))
  }

  // ---------------------------------------------------------------------------------------
  // The scanner
  // ---------------------------------------------------------------------------------------

  /** The length of the digits s starts with. */
  function DigitRun(s: string): (n: nat)
    ensures n <= |s| && AllDigits(s[..n]) && (n < |s| ==> !IsDigit(s[n]))
  {
    if s == "" || !IsDigit(s[0]) then 0
    else
      var n := DigitRun(s[1..]);
      assert s[..n + 1] == [s[0]] + s[1..][..n];
      n + 1
  }

  /** A field with the unit c, if s starts with one, and the rest of s. */
  function ScanField(s: string, c: char): (Option<string>, string) {
    var n := DigitRun(s);
    if 0 < n < |s| && s[n] == c then (Some(s[..n]), s[n + 1..]) else (None, s)
  }

  function ScanUnits(s: string): Option<Lifetime> {
    var (days, rest1) := ScanField(s, 'd');
    var (hours, rest2) := ScanField(rest1, 'h');
    var (minutes, rest3) := ScanField(rest2, 'm');
    var (seconds, rest4) := ScanField(rest3, 's');
    if rest4 == "" && s != "" then Some(Units(days, hours, minutes, seconds)) else None
  }

  /** What follows the hours and their colon: two digits, or two and two with a colon between. */
  function ScanClock(h: string, rest: string): Option<Lifetime> {
    if |h| > 3 then None
    else if |rest| == 2 && AllDigits(rest) then Some(Clock(h, rest, None))
    else if |rest| == 5 && AllDigits(rest[..2]) && rest[2] == ':' && AllDigits(rest[3..])
    then Some(Clock(h, rest[..2], Some(rest[3..])))
    else None
  }

  function Scan(s: string): Option<Lifetime> {
    var n := DigitRun(s);
    if n == 0 then None
    else if n == |s| then Some(Seconds(s))
    else if s[n] == ':' then ScanClock(s[..n], s[n + 1..])
    else ScanUnits(s)
  }

  lemma {:induction false} RunStops(digits: string, rest: string)
    requires AllDigits(digits) && (rest != "" ==> !IsDigit(rest[0]))
    ensures DigitRun(digits + rest) == |digits|
  {
    if digits == "" {
      assert digits + rest == rest;
    } else {
      RunStops(digits[1..], rest);
      assert (digits + rest)[1..] == digits[1..] + rest;
    }
  }

  lemma ScanFieldSound(s: string, c: char)
    ensures var (f, rest) := ScanField(s, c);
            NumberOrNone(f) && s == PrintField(f, c) + rest
  {
    var n := DigitRun(s);
    if 0 < n < |s| && s[n] == c {
      assert s == s[..n] + [c] + s[n + 1..];
    }
  }

  /** A printed field is read back, unless the rest could start with one and this one is absent. */
  lemma ScanFieldReads(f: Option<string>, c: char, rest: string)
    requires NumberOrNone(f) && !IsDigit(c)
    requires f == None ==> ScanField(rest, c) == (None, rest)
    ensures ScanField(PrintField(f, c) + rest, c) == (f, rest)
  {
    match f
    case None => assert "" + rest == rest;
    case Some(n) =>
      RunStops(n, [c] + rest);
      assert n + [c] + rest == n + ([c] + rest);
      assert (n + [c] + rest)[..|n|] == n && (n + [c] + rest)[|n| + 1..] == rest;
  }

  /** A field with another unit in front keeps this one from being found. */
  lemma ScanFieldPasses(f: Option<string>, other: char, rest: string, c: char)
    requires NumberOrNone(f) && !IsDigit(other) && other != c
    requires ScanField(rest, c) == (None, rest)
    ensures ScanField(PrintField(f, other) + rest, c) == (None, PrintField(f, other) + rest)
  {
    match f
    case None => assert "" + rest == rest;
    case Some(n) =>
      RunStops(n, [other] + rest);
      assert n + [other] + rest == n + ([other] + rest);
  }

  lemma ScanUnitsReads(l: Lifetime)
    requires l.Units? && WellFormed(l)
    ensures ScanUnits(Print(l)) == Some(l) && Scan(Print(l)) == Some(l)
  {
    var p4 := PrintField(l.seconds, 's');
    var p3 := PrintField(l.minutes, 'm') + p4;
    var p2 := PrintField(l.hours, 'h') + p3;
    assert p4 == p4 + "";
    ScanFieldReads(l.seconds, 's', "");
    ScanFieldPasses(l.seconds, 's', "", 'm');
    ScanFieldPasses(l.seconds, 's', "", 'h');
    ScanFieldPasses(l.seconds, 's', "", 'd');
    ScanFieldReads(l.minutes, 'm', p4);
    ScanFieldPasses(l.minutes, 'm', p4, 'h');
    ScanFieldPasses(l.minutes, 'm', p4, 'd');
    ScanFieldReads(l.hours, 'h', p3);
    ScanFieldPasses(l.hours, 'h', p3, 'd');
    ScanFieldReads(l.days, 'd', p2);
    StartsWithField(l);
  }

  /** A unit lifetime starts with digits and a unit letter. */
  lemma StartsWithField(l: Lifetime)
    requires l.Units? && WellFormed(l)
    ensures var s := Print(l);
            0 < DigitRun(s) < |s| && s[DigitRun(s)] != ':'
  {
    var s := Print(l);
    assert forall t: string :: "" + t == t;
    if l.days.Some? {
      LeadingField(l.days.value, 'd',
                   PrintField(l.hours, 'h') + (PrintField(l.minutes, 'm') + PrintField(l.seconds, 's')));
    } else if l.hours.Some? {
      LeadingField(l.hours.value, 'h', PrintField(l.minutes, 'm') + PrintField(l.seconds, 's'));
    } else if l.minutes.Some? {
      LeadingField(l.minutes.value, 'm', PrintField(l.seconds, 's'));
    } else {
      LeadingField(l.seconds.value, 's', "");
      assert s == l.seconds.value + "s" + "";
    }
  }

  lemma LeadingField(n: string, c: char, rest: string)
    requires Number(n) && !IsDigit(c)
    ensures var s := n + [c] + rest;
            DigitRun(s) == |n| && s[|n|] == c
  {
    RunStops(n, [c] + rest);
    assert n + [c] + rest == n + ([c] + rest);
  }

  lemma ScanClockReads(l: Lifetime)
    requires l.Clock? && WellFormed(l)
    ensures Scan(Print(l)) == Some(l)
  {
    var rest := l.m + (if l.s.Some? then ":" + l.s.value else "");
    var s := Print(l);
    RunStops(l.h, ":" + rest);
    assert s[..|l.h|] == l.h && s[|l.h| + 1..] == rest;
    if l.s.Some? {
      assert rest[..2] == l.m && rest[3..] == l.s.value;
      assert rest[2] == ':';
    } else {
      assert rest == l.m;
    }
  }

  /** The scanner finds l in s exactly when l is well formed and prints as s. */
  lemma ScanIff(s: string, l: Lifetime)
    ensures Scan(s) == Some(l) <==> WellFormed(l) && Print(l) == s
  {
    if WellFormed(l) && Print(l) == s {
      match l
      case Seconds(n) =>
        RunStops(n, "");
        assert n + "" == n;
      case Clock(_, _, _) => ScanClockReads(l);
      case Units(_, _, _, _) => ScanUnitsReads(l);
    } else if Scan(s) == Some(l) {
      ScanSound(s, l);
    }
  }

  lemma ScanSound(s: string, l: Lifetime)
    requires Scan(s) == Some(l)
    ensures WellFormed(l) && Print(l) == s
  {
    var n := DigitRun(s);
    if n == |s| {
      assert s[..n] == s;
    } else if s[n] == ':' {
      var rest := s[n + 1..];
      assert s == s[..n] + (":" + rest);
      if |rest| == 2 {
        assert rest == rest + "";
      } else {
        assert rest == rest[..2] + (":" + rest[3..]);
      }
    } else {
      var (days, rest1) := ScanField(s, 'd');
      var (hours, rest2) := ScanField(rest1, 'h');
      var (minutes, rest3) := ScanField(rest2, 'm');
      ScanFieldSound(s, 'd');
      ScanFieldSound(rest1, 'h');
      ScanFieldSound(rest2, 'm');
      ScanFieldSound(rest3, 's');
      assert l.seconds == None ==> rest3 == "";
      assert PrintField(l.seconds, 's') == rest3;
    }
  }

  /** Every accepted string has exactly one shape and one decomposition. */
  lemma UniqueDecomposition(a: Lifetime, b: Lifetime)
    requires WellFormed(a) && WellFormed(b) && Print(a) == Print(b)
    ensures a == b
  {
    ScanIff(Print(a), a);
    ScanIff(Print(b), b);
  }

  // ---------------------------------------------------------------------------------------
  // The scanner and the regular expression
  // ---------------------------------------------------------------------------------------

  lemma {:induction false} DigitsIff(s: string)
    ensures Matches(DIGITS, s) <==> Number(s)
    decreases |s|
  {
    if |s| > 1 {
      DigitsIff(s[1..]);
      assert s == s[..1] + s[1..];
      if Number(s) {
        assert Matches(Digit, s[..1]);
      }
      if Matches(DIGITS, s) {
        assert Matches(OneOrMore(Digit), s) && !Matches(Digit, s);
        var i :| 0 < i < |s| && Matches(Digit, s[..i]) && Matches(DIGITS, s[i..]);
        assert i == 1;
      }
    }
  }

  lemma TwoIff(s: string)
    ensures Matches(TWO, s) <==> |s| == 2 && AllDigits(s)
  {
    if Matches(TWO, s) {
      var x, y := CatElim(Digit, Digit, s);
    }
    if |s| == 2 && AllDigits(s) {
      assert s == s[..1] + s[1..];
      CatIntro(Digit, Digit, s[..1], s[1..]);
    }
  }

  lemma DigitAtMost(s: string)
    requires Matches(Optional(Digit), s)
    ensures |s| <= 1 && AllDigits(s)
  {
    assert s != "" ==> Matches(Digit, s);
  }

  lemma UpToThreeElim(s: string)
    requires Matches(UP_TO_THREE, s)
    ensures Number(s) && |s| <= 3
  {
    var x, y := CatElim(Digit, Cat(Optional(Digit), Optional(Digit)), s);
    var y1, y2 := CatElim(Optional(Digit), Optional(Digit), y);
    DigitAtMost(y1);
    DigitAtMost(y2);
    assert |x| == 1 && AllDigits(x) && s == x + (y1 + y2);
  }

  lemma UpToThreeIntro(s: string)
    requires Number(s) && |s| <= 3
    ensures Matches(UP_TO_THREE, s)
  {
    var m := if |s| < 2 then |s| else 2;
    assert Matches(Optional(Digit), s[1..m]) && Matches(Optional(Digit), s[m..]);
    CatIntro(Optional(Digit), Optional(Digit), s[1..m], s[m..]);
    assert s[1..] == s[1..m] + s[m..] && s == s[..1] + s[1..];
    CatIntro(Digit, Cat(Optional(Digit), Optional(Digit)), s[..1], s[1..]);
  }

  lemma FieldElim(c: char, s: string) returns (f: Option<string>)
    requires Matches(Field(c), s)
    ensures NumberOrNone(f) && s == PrintField(f, c)
  {
    f := None;
    if s != "" {
      var x, y := CatElim(DIGITS, Char(c), s);
      DigitsIff(x);
      f := Some(x);
    }
  }

  lemma FieldIntro(c: char, f: Option<string>)
    requires NumberOrNone(f)
    ensures Matches(Field(c), PrintField(f, c))
  {
    if f.Some? {
      DigitsIff(f.value);
      CatIntro(DIGITS, Char(c), f.value, [c]);
    }
  }

  lemma UnitsElim(s: string) returns (l: Lifetime)
    requires s != "" && Matches(UNITS, s)
    ensures WellFormed(l) && Print(l) == s
  {
    var d, rest1 := CatElim(Field('d'), Cat(Field('h'), Cat(Field('m'), Field('s'))), s);
    var h, rest2 := CatElim(Field('h'), Cat(Field('m'), Field('s')), rest1);
    var m, sec := CatElim(Field('m'), Field('s'), rest2);
    var fd := FieldElim('d', d);
    var fh := FieldElim('h', h);
    var fm := FieldElim('m', m);
    var fs := FieldElim('s', sec);
    l := Units(fd, fh, fm, fs);
  }

  lemma UnitsIntro(l: Lifetime)
    requires l.Units? && WellFormed(l)
    ensures Matches(UNITS, Print(l))
  {
    FieldIntro('d', l.days);
    FieldIntro('h', l.hours);
    FieldIntro('m', l.minutes);
    FieldIntro('s', l.seconds);
    CatIntro(Field('m'), Field('s'), PrintField(l.minutes, 'm'), PrintField(l.seconds, 's'));
    CatIntro(Field('h'), Cat(Field('m'), Field('s')), PrintField(l.hours, 'h'),
             PrintField(l.minutes, 'm') + PrintField(l.seconds, 's'));
    CatIntro(Field('d'), Cat(Field('h'), Cat(Field('m'), Field('s'))), PrintField(l.days, 'd'),
             PrintField(l.hours, 'h') + (PrintField(l.minutes, 'm') + PrintField(l.seconds, 's')));
  }

  lemma ClockElim(s: string) returns (l: Lifetime)
    requires Matches(CLOCK, s)
    ensures WellFormed(l) && Print(l) == s
  {
    var tail := Optional(Cat(Char(':'), TWO));
    var h, rest1 := CatElim(UP_TO_THREE, Cat(Char(':'), Cat(TWO, tail)), s);
    var colon, rest2 := CatElim(Char(':'), Cat(TWO, tail), rest1);
    var m, rest3 := CatElim(TWO, tail, rest2);
    UpToThreeElim(h);
    TwoIff(m);
    if rest3 == "" {
      l := Clock(h, m, None);
    } else {
      var colon2, sec := CatElim(Char(':'), TWO, rest3);
      TwoIff(sec);
      l := Clock(h, m, Some(sec));
    }
  }

  lemma ClockIntro(l: Lifetime)
    requires l.Clock? && WellFormed(l)
    ensures Matches(CLOCK, Print(l))
  {
    var tail := Optional(Cat(Char(':'), TWO));
    var last := if l.s.Some? then ":" + l.s.value else "";
    UpToThreeIntro(l.h);
    TwoIff(l.m);
    if l.s.Some? {
      TwoIff(l.s.value);
      CatIntro(Char(':'), TWO, ":", l.s.value);
    }
    assert Matches(tail, last);
    CatIntro(TWO, tail, l.m, last);
    CatIntro(Char(':'), Cat(TWO, tail), ":", l.m + last);
    CatIntro(UP_TO_THREE, Cat(Char(':'), Cat(TWO, tail)), l.h, ":" + (l.m + last));
  }

  lemma AcceptedScans(s: string)
    requires Accepted(s)
    ensures Scan(s).Some?
  {
    assert Matches(DIGITS, s) || Matches(Alt(CLOCK, UNITS), s);
    if Matches(DIGITS, s) {
      DigitsIff(s);
      ScanIff(s, Seconds(s));
    } else if Matches(CLOCK, s) {
      var l := ClockElim(s);
      ScanIff(s, l);
    } else {
      var l := UnitsElim(s);
      ScanIff(s, l);
    }
  }

  lemma WellFormedAccepted(l: Lifetime)
    requires WellFormed(l)
    ensures Accepted(Print(l))
  {
    match l
    case Seconds(n) => DigitsIff(n);
    case Clock(_, _, _) => ClockIntro(l);
    case Units(_, _, _, _) => UnitsIntro(l);
  }

  /** The scanner accepts exactly the language of the regular expression without the empty string. */
  lemma ScannerIsRegex(s: string)
    ensures Scan(s).Some? <==> Accepted(s)
  {
    if Accepted(s) {
      AcceptedScans(s);
    }
    if Scan(s).Some? {
      ScanIff(s, Scan(s).value);
      WellFormedAccepted(Scan(s).value);
    }
  }

  /** Hours and minutes are accepted exactly with one to three digits before the colon and two after it. */
  lemma ClockIff(h: string, m: string)
    requires AllDigits(h) && AllDigits(m)
    ensures Scan(h + (":" + m)).Some? <==> 1 <= |h| <= 3 && |m| == 2
  {
    var s := h + (":" + m);
    ScanIff(s, Clock(h, m, None));
    assert m + "" == m;
    assert s[|h|] == ':' && forall i :: 0 <= i < |s| && i != |h| ==> IsDigit(s[i]);
    if Scan(s).Some? {
      OneColon(s, |h|, Scan(s).value);
    }
  }

  lemma OneColon(s: string, n: nat, l: Lifetime)
    requires n < |s| && s[n] == ':' && Scan(s) == Some(l)
    requires forall i :: 0 <= i < |s| && i != n ==> IsDigit(s[i])
    ensures l.Clock? && l.h == s[..n] && l.s == None && l.m == s[n + 1..]
  {
    ScanIff(s, l);
  }
}

/** Regular expressions, given meaning by a matching relation. */
module Regexes {
  datatype Regex =
    | Digit
    | Range(low: char, high: char)
    | Char(c: char)
    | Cat(first: Regex, second: Regex)
    | Alt(left: Regex, right: Regex)
    | Optional(body: Regex)
    | OneOrMore(body: Regex)

  predicate IsDigit(c: char) {
    '0' <= c <= '9'
  }

  /** r matches the whole of s. */
  ghost predicate Matches(r: Regex, s: string)
    decreases r, |s|
  {
    match r
    case Digit => |s| == 1 && IsDigit(s[0])
    case Range(low, high) => |s| == 1 && low <= s[0] <= high
    case Char(c) => s == [c]
    case Cat(a, b) => exists i :: 0 <= i <= |s| && Matches(a, s[..i]) && Matches(b, s[i..])
    case Alt(a, b) => Matches(a, s) || Matches(b, s)
    case Optional(a) => s == "" || Matches(a, s)
    case OneOrMore(a) => Matches(a, s) || exists i :: 0 < i < |s| && Matches(a, s[..i]) && Matches(r, s[i..])
  }

  lemma CatIntro(a: Regex, b: Regex, s: string, t: string)
    requires Matches(a, s) && Matches(b, t)
    ensures Matches(Cat(a, b), s + t)
  {
    assert (s + t)[..|s|] == s && (s + t)[|s|..] == t;
  }

  lemma CatElim(a: Regex, b: Regex, s: string) returns (x: string, y: string)
    requires Matches(Cat(a, b), s)
    ensures s == x + y && Matches(a, x) && Matches(b, y)
  {
    var i :| 0 <= i <= |s| && Matches(a, s[..i]) && Matches(b, s[i..]);
    x, y := s[..i], s[i..];
  }
}

/** The username rule of minting.py, and why it keeps the realm out of a request's reach. */
module Usernames {
  import opened Regexes

  predicate IsLetter(c: char) {
    'A' <= c <= 'Z' || 'a' <= c <= 'z'
  }

  predicate IsNameChar(c: char) {
    IsLetter(c) || '0' <= c <= '9' || c == '_' || c == '-'
  }

  /** A letter and at most 63 more letters, digits, underscores and hyphens. */
  predicate ValidUsername(s: string) {
    1 <= |s| <= 64 && IsLetter(s[0]) && forall i :: 0 <= i < |s| ==> IsNameChar(s[i])
  }

  // The source's pattern: [A-Za-z][A-Za-z0-9_-]{0,63}
  const LETTER := Alt(Range('A', 'Z'), Range('a', 'z'))
  const NAME_CHAR := Alt(LETTER, Alt(Range('0', '9'), Alt(Char('_'), Char('-'))))

  /** r at most n times. */
  function UpTo(n: nat, r: Regex): Regex
    requires n > 0
  {
    if n == 1 then Optional(r) else Optional(Cat(r, UpTo(n - 1, r)))
  }

  const USERNAME := Cat(LETTER, UpTo(63, NAME_CHAR))

  lemma NameCharIff(s: string)
    ensures Matches(LETTER, s) <==> |s| == 1 && IsLetter(s[0])
    ensures Matches(NAME_CHAR, s) <==> |s| == 1 && IsNameChar(s[0])
  {
    assert Matches(LETTER, s) <==> Matches(Range('A', 'Z'), s) || Matches(Range('a', 'z'), s);
    assert Matches(Alt(Char('_'), Char('-')), s) <==> |s| == 1 && (s[0] == '_' || s[0] == '-');
    assert Matches(Alt(Range('0', '9'), Alt(Char('_'), Char('-'))), s) <==>
           Matches(Range('0', '9'), s) || Matches(Alt(Char('_'), Char('-')), s);
  }

  lemma {:induction false} UpToIff(n: nat, s: string)
    requires n > 0
    ensures Matches(UpTo(n, NAME_CHAR), s) <==> |s| <= n && forall i :: 0 <= i < |s| ==> IsNameChar(s[i])
    decreases n
  {
    if s == "" {
    } else if n == 1 {
      NameCharIff(s);
    } else {
      assert s == s[..1] + s[1..];
      NameCharIff(s[..1]);
      UpToIff(n - 1, s[1..]);
      if Matches(UpTo(n, NAME_CHAR), s) {
        var x, y := CatElim(NAME_CHAR, UpTo(n - 1, NAME_CHAR), s);
        NameCharIff(x);
        assert y == s[1..] && x == s[..1];
      }
      if |s| <= n && forall i :: 0 <= i < |s| ==> IsNameChar(s[i]) {
        CatIntro(NAME_CHAR, UpTo(n - 1, NAME_CHAR), s[..1], s[1..]);
      }
    }
  }

  /** The rule accepts exactly what the source's pattern matches. */
  lemma UsernameIff(s: string)
    ensures ValidUsername(s) <==> Matches(USERNAME, s)
  {
    if s != "" {
      NameCharIff(s[..1]);
      UpToIff(63, s[1..]);
      assert s == s[..1] + s[1..];
    }
    if Matches(USERNAME, s) {
      var x, y := CatElim(LETTER, UpTo(63, NAME_CHAR), s);
      NameCharIff(x);
      assert s[..1] == x && s[1..] == y;
      assert forall i :: 0 < i < |s| ==> s[i] == y[i - 1];
    }
    if ValidUsername(s) {
      CatIntro(LETTER, UpTo(63, NAME_CHAR), s[..1], s[1..]);
    }
  }

  /** The values that tests/test_minting.py lists as good and as bad. */
  lemma ListedUsernames()
    ensures ValidUsername("gstark") && ValidUsername("a") && ValidUsername("user_name") && ValidUsername("user-name")
    ensures ValidUsername("A1") && !ValidUsername("") && !ValidUsername("1abc") && !ValidUsername("-abc")
    ensures !ValidUsername("user@CERN.CH") && !ValidUsername("../etc/passwd") && !ValidUsername("user name")
    ensures !ValidUsername("user/root")
  {
    assert "user@CERN.CH"[4] == '@' && "user name"[4] == ' ' && "user/root"[4] == '/';
  }

  /**
   However a principal built from a valid username is cut at an "@" with no "@" before it, the
   parts are that username and the service's own realm.
   */
  lemma NoRealmSmuggled(username: string, realm: string, name: string, rest: string)
    requires ValidUsername(username) && '@' !in name
    requires username + "@" + realm == name + "@" + rest
    ensures name == username && rest == realm
  {
    var principal := username + "@" + realm;
    assert principal[|name|] == '@' && principal[|username|] == '@';
    assert name == principal[..|name|] && username == principal[..|username|];
    assert rest == principal[|name| + 1..] && realm == principal[|username| + 1..];
  }
}

/**
 The shell's reading of a command line, as far as sections 2.2.2 (single quotes), 2.2.3 (double
 quotes) and 2.6.5 (field splitting at blanks) of the POSIX Shell Command Language go, and Python's
 shlex.quote, which the patched cern-get-keytab puts passwords through.
 */
module Shell {
  import opened Options

  /** The characters shlex.quote leaves unquoted. */
  predicate Safe(c: char) {
    'A' <= c <= 'Z' || 'a' <= c <= 'z' || '0' <= c <= '9' || '+' <= c <= '/' ||
    c == '_' || c == '@' || c == '%' || c == '=' || c == ':'
  }

  predicate AllSafe(s: string) {
    forall i :: 0 <= i < |s| ==> Safe(s[i])
  }

  /** Each single quote becomes: close, a double-quoted single quote, open. */
  function Escape(s: string): string {
    if s == "" then ""
    else (if s[0] == '\'' then "'\"'\"'" else [s[0]]) + Escape(s[1..])
  }

  function Quote(s: string): string {
    if s == "" then "''"
    else if AllSafe(s) then s
    else "'" + (Escape(s) + "'")
  }

  datatype Mode = Unquoted | InSingle | InDouble

  /** Characters with a meaning of their own outside quotes: no line this module is about has one. */
  predicate Active(c: char) {
    c == '|' || c == '&' || c == ';' || c == '<' || c == '>' || c == '(' || c == ')' || c == '$' || c == '`' ||
    c == '\\' || c == '\n' || c == '*' || c == '?' || c == '[' || c == '#' || c == '~' || c == '!' || c == '{' ||
    c == '}'
  }

  function Text(word: Option<string>): string {
    if word.Some? then word.value else ""
  }

  function Flush(word: Option<string>): seq<string> {
    if word.Some? then [word.value] else []
  }

  function Prepend(words: seq<string>, more: Option<seq<string>>): Option<seq<string>> {
    if more.Some? then Some(words + more.value) else None
  }

  /**
   The words of s, given the quoting in force and the word begun so far; None for an open quote, an
   active character outside quotes, or an expansion inside double quotes.
   */
  function Lex(s: string, mode: Mode, word: Option<string>): Option<seq<string>> {
    if s == "" then
      if mode == Unquoted then Some(Flush(word)) else None
    else
      var c, rest := s[0], s[1..];
      match mode
      case Unquoted =>
        if c == ' ' || c == '\t' then Prepend(Flush(word), Lex(rest, Unquoted, None))
        else if c == '\'' then Lex(rest, InSingle, Some(Text(word)))
        else if c == '"' then Lex(rest, InDouble, Some(Text(word)))
        else if Active(c) then None
        else Lex(rest, Unquoted, Some(Text(word) + [c]))
      case InSingle =>
        if c == '\'' then Lex(rest, Unquoted, word) else Lex(rest, InSingle, Some(Text(word) + [c]))
      case InDouble =>
        if c == '"' then Lex(rest, Unquoted, word)
        else if c == '$' || c == '`' || c == '\\' then None
        else Lex(rest, InDouble, Some(Text(word) + [c]))
  }

  /** Read where a word begins, `piece` adds these words, the last one possibly unfinished. */
  ghost predicate Denotes(piece: string, words: seq<string>) {
    words != [] &&
    forall rest: string ::
      Lex(piece + rest, Unquoted, None)
      == Prepend(words[..|words| - 1], Lex(rest, Unquoted, Some(words[|words| - 1])))
  }

  /** A safe character outside quotes just joins the word. */
  lemma SafeStep(c: char, rest: string, word: Option<string>)
    requires Safe(c)
    ensures Lex([c] + rest, Unquoted, word) == Lex(rest, Unquoted, Some(Text(word) + [c]))
  {
    assert !Active(c) && c != ' ' && c != '\t' && c != '\'' && c != '"';
    assert ([c] + rest)[0] == c && ([c] + rest)[1..] == rest;
  }

  lemma {:induction false} SafeLexes(s: string, word: string, rest: string)
    requires AllSafe(s)
    ensures Lex(s + rest, Unquoted, Some(word)) == Lex(rest, Unquoted, Some(word + s))
  {
    if s == "" {
      assert s + rest == rest && word + s == word;
    } else {
      assert s + rest == [s[0]] + (s[1..] + rest);
      SafeStep(s[0], s[1..] + rest, Some(word));
      SafeLexes(s[1..], word + [s[0]], rest);
      assert word + [s[0]] + s[1..] == word + s;
    }
  }

  /** The five characters that stand for a single quote. */
  lemma QuotedQuote(word: string, rest: string)
    ensures Lex("'\"'\"'" + rest, InSingle, Some(word)) == Lex(rest, InSingle, Some(word + "'"))
  {
    var s := "'\"'\"'" + rest;
    assert s[1..] == "\"'\"'" + rest;
    assert s[1..][1..] == "'\"'" + rest;
    assert s[1..][1..][1..] == "\"'" + rest;
    assert s[1..][1..][1..][1..] == "'" + rest;
    assert s[1..][1..][1..][1..][1..] == rest;
    assert Lex(s, InSingle, Some(word)) == Lex(s[1..], Unquoted, Some(word));
    assert Lex(s[1..], Unquoted, Some(word)) == Lex(s[1..][1..], InDouble, Some(word));
    assert Lex(s[1..][1..], InDouble, Some(word)) == Lex(s[1..][1..][1..], InDouble, Some(word + "'"));
    assert Lex(s[1..][1..][1..], InDouble, Some(word + "'")) == Lex(s[1..][1..][1..][1..], Unquoted, Some(word + "'"));
  }

  lemma {:induction false} EscapeLexes(s: string, word: string, rest: string)
    ensures Lex(Escape(s) + ("'" + rest), InSingle, Some(word)) == Lex(rest, Unquoted, Some(word + s))
  {
    var tail := "'" + rest;
    if s == "" {
      assert Escape(s) + tail == tail && tail[1..] == rest && word + s == word;
    } else {
      EscapeLexes(s[1..], word + [s[0]], rest);
      assert word + [s[0]] + s[1..] == word + s;
      if s[0] == '\'' {
        assert Escape(s) + tail == "'\"'\"'" + (Escape(s[1..]) + tail);
        QuotedQuote(word, Escape(s[1..]) + tail);
        assert [s[0]] == "'";
      } else {
        assert Escape(s) + tail == [s[0]] + (Escape(s[1..]) + tail);
        assert ([s[0]] + (Escape(s[1..]) + tail))[1..] == Escape(s[1..]) + tail;
      }
    }
  }

  /** Quoting round trip: whatever a string holds, quoted it is read back as that one word. */
  lemma QuoteDenotes(s: string)
    ensures Denotes(Quote(s), [s])
  {
    assert [s][..0] == [];
    forall rest: string
      ensures Lex(Quote(s) + rest, Unquoted, None) == Prepend([], Lex(rest, Unquoted, Some(s)))
    {
      QuoteLexes(s, rest);
      PrependNothing(Lex(rest, Unquoted, Some(s)));
    }
  }

  /** A string is left as it is exactly when it is not empty and holds only these characters. */
  lemma QuoteUnchangedIff(s: string)
    ensures Quote(s) == s <==>
            && s != ""
            && forall i :: 0 <= i < |s| ==>
                 'A' <= s[i] <= 'Z' || 'a' <= s[i] <= 'z' || '0' <= s[i] <= '9' || s[i] in "_@%+=:,./-"
  {
    EscapeGrows(s);
    forall i | 0 <= i < |s|
      ensures Safe(s[i]) <==>
              'A' <= s[i] <= 'Z' || 'a' <= s[i] <= 'z' || '0' <= s[i] <= '9' || s[i] in "_@%+=:,./-"
    {
      SafeIff(s[i]);
    }
  }

  lemma SafeIff(c: char)
    ensures Safe(c) <==> 'A' <= c <= 'Z' || 'a' <= c <= 'z' || '0' <= c <= '9' || c in "_@%+=:,./-"
  {
    var marks := "_@%+=:,./-";
    assert marks[0] == '_' && marks[1] == '@' && marks[2] == '%' && marks[3] == '+' && marks[4] == '=';
    assert marks[5] == ':' && marks[6] == ',' && marks[7] == '.' && marks[8] == '/' && marks[9] == '-';
  }

  lemma {:induction false} EscapeGrows(s: string)
    ensures |Escape(s)| >= |s|
  {
    if s != "" {
      EscapeGrows(s[1..]);
    }
  }

  /** A line without quotes that can be read holds none of the characters the shell acts on. */
  lemma {:induction false} ReadHoldsNoMeta(s: string, word: Option<string>)
    requires Lex(s, Unquoted, word).Some? && '\'' !in s && '"' !in s
    ensures '$' !in s && '`' !in s && '\\' !in s && ';' !in s && '&' !in s && '|' !in s && '<' !in s && '>' !in s
    ensures '(' !in s && ')' !in s && '*' !in s && '?' !in s && '[' !in s && '#' !in s && '~' !in s && '\n' !in s
    ensures '!' !in s && '{' !in s && '}' !in s
    decreases |s|
  {
    if s != "" {
      assert s[0] in s && s == [s[0]] + s[1..];
      ReadHoldsNoMeta(s[1..], if s[0] == ' ' || s[0] == '\t' then None else Some(Text(word) + [s[0]]));
    }
  }

  lemma PrependNothing(more: Option<seq<string>>)
    ensures Prepend([], more) == more
  {
    if more.Some? {
      assert [] + more.value == more.value;
    }
  }

  lemma QuoteLexes(s: string, rest: string)
    ensures Lex(Quote(s) + rest, Unquoted, None) == Lex(rest, Unquoted, Some(s))
  {
    if s != "" && AllSafe(s) {
      SafeStarts(s, rest);
      SafeLexes(s[1..], [s[0]], rest);
      assert [s[0]] + s[1..] == s;
    } else {
      var inner := Escape(s) + ("'" + rest);
      assert Quote(s) + rest == "'" + inner;
      QuoteOpens(inner);
      EscapeLexes(s, "", rest);
      assert "" + s == s;
    }
  }

  lemma SafeStarts(s: string, rest: string)
    requires s != "" && Safe(s[0])
    ensures Lex(s + rest, Unquoted, None) == Lex(s[1..] + rest, Unquoted, Some([s[0]]))
  {
    assert s + rest == [s[0]] + (s[1..] + rest);
    SafeStep(s[0], s[1..] + rest, None);
    assert "" + [s[0]] == [s[0]];
  }

  lemma QuoteOpens(inner: string)
    ensures Lex("'" + inner, Unquoted, None) == Lex(inner, InSingle, Some(""))
  {
    assert ("'" + inner)[1..] == inner;
  }

  lemma SafeDenotes(s: string)
    requires s != "" && AllSafe(s)
    ensures Denotes(s, [s])
  {
    QuoteDenotes(s);
  }

  lemma JoinDenotes(p: string, ps: seq<string>, q: string, qs: seq<string>)
    requires Denotes(p, ps) && Denotes(q, qs)
    ensures Denotes(p + " " + q, ps + qs)
  {
    var last := ps[|ps| - 1];
    forall rest: string
      ensures Lex(p + " " + q + rest, Unquoted, None)
           == Prepend((ps + qs)[..|ps + qs| - 1], Lex(rest, Unquoted, Some((ps + qs)[|ps + qs| - 1])))
    {
      var after := " " + (q + rest);
      assert p + " " + q + rest == p + after;
      assert after[1..] == q + rest;
      assert Lex(after, Unquoted, Some(last)) == Prepend([last], Lex(q + rest, Unquoted, None));
      var more := Lex(rest, Unquoted, Some(qs[|qs| - 1]));
      assert Lex(p + after, Unquoted, None)
          == Prepend(ps[..|ps| - 1], Prepend([last], Prepend(qs[..|qs| - 1], more)));
      if more.Some? {
        assert ps[..|ps| - 1] + ([last] + (qs[..|qs| - 1] + more.value))
            == (ps + qs)[..|ps + qs| - 1] + more.value;
      }
    }
  }

  lemma DenotesLexes(p: string, ps: seq<string>)
    requires Denotes(p, ps)
    ensures Lex(p, Unquoted, None) == Some(ps)
  {
    assert p + "" == p;
    assert Lex("", Unquoted, Some(ps[|ps| - 1])) == Some([ps[|ps| - 1]]);
    assert ps[..|ps| - 1] + [ps[|ps| - 1]] == ps;
  }

  /** " ".join */
  function Join(pieces: seq<string>): string {
    if pieces == [] then ""
    else if |pieces| == 1 then pieces[0]
    else Join(pieces[..|pieces| - 1]) + " " + pieces[|pieces| - 1]
  }

  lemma {:induction false} JoinConcat(a: seq<string>, b: seq<string>)
    requires a != [] && b != []
    ensures Join(a + b) == Join(a) + " " + Join(b)
    decreases |b|
  {
    var init, last := b[..|b| - 1], b[|b| - 1];
    assert (a + b)[..|a + b| - 1] == a + init;
    if init == [] {
      assert a + init == a;
    } else {
      JoinConcat(a, init);
      assert Join(a) + " " + Join(init) + " " + last == Join(a) + " " + (Join(init) + " " + last);
    }
  }

  /** A value that needs no quotes to be one word. */
  predicate PlainWord(s: string) {
    s != "" && AllSafe(s)
  }

  predicate PlainWords(words: seq<string>) {
    forall i :: 0 <= i < |words| ==> PlainWord(words[i])
  }

  lemma {:induction false} PlainWordsDenote(words: seq<string>)
    requires words != [] && PlainWords(words)
    ensures Denotes(Join(words), words)
    ensures '\0' !in Join(words)
  {
    var init, last := words[..|words| - 1], words[|words| - 1];
    assert PlainWord(last);
    SafeDenotes(last);
    if init != [] {
      PlainWordsDenote(init);
      JoinDenotes(Join(init), init, last, [last]);
      assert init + [last] == words;
    } else {
      assert words == [last];
    }
  }

  lemma PlainWordsLex(words: seq<string>)
    requires words != [] && PlainWords(words)
    ensures Lex(Join(words), Unquoted, None) == Some(words) && '\0' !in Join(words)
  {
    PlainWordsDenote(words);
    DenotesLexes(Join(words), words);
  }

  lemma PrependTwice(a: seq<string>, b: seq<string>, more: Option<seq<string>>)
    ensures Prepend(a, Prepend(b, more)) == Prepend(a + b, more)
  {
    if more.Some? {
      assert a + (b + more.value) == a + b + more.value;
    }
  }

  /** A line that reads as words does so before a blank too, whatever comes after. */
  lemma {:induction false} LexThenBlank(p: string, mode: Mode, word: Option<string>, words: seq<string>, rest: string)
    requires Lex(p, mode, word) == Some(words)
    ensures Lex(p + (" " + rest), mode, word) == Prepend(words, Lex(rest, Unquoted, None))
    decreases |p|
  {
    var line := p + (" " + rest);
    if p == "" {
      assert line == " " + rest && line[1..] == rest;
    } else {
      var c := p[0];
      assert line[0] == c && line[1..] == p[1..] + (" " + rest);
      if mode == Unquoted && (c == ' ' || c == '\t') {
        var others := Lex(p[1..], Unquoted, None).value;
        LexThenBlank(p[1..], Unquoted, None, others, rest);
        PrependTwice(Flush(word), others, Lex(rest, Unquoted, None));
      } else {
        var (next, begun) := After(c, mode, word);
        assert Lex(p, mode, word) == Lex(p[1..], next, begun);
        LexThenBlank(p[1..], next, begun, words, rest);
      }
    }
  }

  /** The quoting and the word after a character that ends no word. */
  function After(c: char, mode: Mode, word: Option<string>): (Mode, Option<string>) {
    if mode == Unquoted && c == '\'' then (InSingle, Some(Text(word)))
    else if mode == Unquoted && c == '"' then (InDouble, Some(Text(word)))
    else if (mode == InSingle && c == '\'') || (mode == InDouble && c == '"') then (Unquoted, word)
    else (mode, Some(Text(word) + [c]))
  }

  /** A readable line and a quoted word after it are read as the line's words and that one. */
  lemma LineLexes(line: string, words: seq<string>, s: string)
    requires Lex(line, Unquoted, None) == Some(words)
    ensures Lex(line + " " + Quote(s), Unquoted, None) == Some(words + [s])
    ensures '\0' in line + " " + Quote(s) <==> '\0' in line || '\0' in s
  {
    LexThenBlank(line, Unquoted, None, words, Quote(s));
    assert line + " " + Quote(s) == line + (" " + Quote(s));
    QuoteDenotes(s);
    DenotesLexes(Quote(s), [s]);
    QuoteKeeps(s, '\0');
  }

  lemma {:induction false} EscapeKeeps(s: string, c: char)
    requires c != '\'' && c != '"'
    ensures c in Escape(s) <==> c in s
  {
    if s != "" {
      EscapeKeeps(s[1..], c);
      assert s == [s[0]] + s[1..];
    }
  }

  /** Quoting neither adds nor hides a character other than the two quotes. */
  lemma QuoteKeeps(s: string, c: char)
    requires c != '\'' && c != '"'
    ensures c in Quote(s) <==> c in s
  {
    EscapeKeeps(s, c);
  }
}

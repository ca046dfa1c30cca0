/**
 The path of a password through the patched cern-get-keytab: from the bytes piped to its standard
 input, through a quoted word of a shell command line, to an argument of msktutil.

 The commands are the ones the user-mode branch of main builds, which passes nothing for the
 arguments left out here. The values that go into a command unquoted may be any strings.
 */
module KeytabTool {
  import opened Options
  import opened Shell
  import Usernames

  // ---------------------------------------------------------------------------------------
  // Standard input
  // ---------------------------------------------------------------------------------------

  /** Text mode reads "\r\n" and "\r" as "\n". */
  function Universal(s: string): string {
    if s == "" then ""
    else if s[0] == '\r' then "\n" + Universal(if |s| > 1 && s[1] == '\n' then s[2..] else s[1..])
    else [s[0]] + Universal(s[1..])
  }

  function ReadLine(s: string): string {
    if s == "" then ""
    else if s[0] == '\n' then "\n"
    else [s[0]] + ReadLine(s[1..])
  }

  function StripNewlines(s: string): string {
    if s != "" && s[|s| - 1] == '\n' then StripNewlines(s[..|s| - 1]) else s
  }

  /** The password the script takes from a standard input holding `piped`. */
  function TakenPassword(piped: string): string {
    StripNewlines(ReadLine(Universal(piped)))
  }

  predicate OneLine(s: string) {
    '\n' !in s && '\r' !in s
  }

  lemma {:induction false} UniversalOf(s: string)
    ensures '\r' !in Universal(s)
    ensures OneLine(s) ==> Universal(s + "\n") == s + "\n"
    decreases |s|
  {
    if s == "" {
      assert s + "\n" == "\n" && "\n"[1..] == "";
      assert Universal("\n") == ['\n'] + Universal("");
    } else {
      UniversalOf(s[1..]);
      if |s| > 1 {
        UniversalOf(s[2..]);
      }
      if OneLine(s) {
        assert forall c :: c in s[1..] ==> c in s;
        assert s[0] in s;
        assert (s + "\n")[1..] == s[1..] + "\n";
        assert s + "\n" == [s[0]] + (s[1..] + "\n");
      }
    }
  }

  lemma {:induction false} LineOf(s: string)
    ensures '\n' !in StripNewlines(ReadLine(s))
    ensures '\r' !in s ==> '\r' !in StripNewlines(ReadLine(s))
    ensures '\n' !in s ==> StripNewlines(ReadLine(s + "\n")) == s
  {
    if s == "" {
      assert s + "\n" == "\n" && StripNewlines("\n") == StripNewlines("\n"[..0]);
    } else if s[0] == '\n' {
      assert StripNewlines("\n") == StripNewlines("\n"[..0]);
    } else {
      LineOf(s[1..]);
      StripKeepsHead(s[0], ReadLine(s[1..]));
      assert (s + "\n")[1..] == s[1..] + "\n";
      StripKeepsHead(s[0], ReadLine(s[1..] + "\n"));
      assert [s[0]] + s[1..] == s;
      assert forall c :: c in s[1..] ==> c in s;
    }
  }

  lemma {:induction false} StripKeepsHead(c: char, s: string)
    requires c != '\n'
    ensures StripNewlines([c] + s) == [c] + StripNewlines(s)
    decreases |s|
  {
    if s != "" && s[|s| - 1] == '\n' {
      assert ([c] + s)[..|[c] + s| - 1] == [c] + s[..|s| - 1];
      StripKeepsHead(c, s[..|s| - 1]);
    }
  }

  /** The script takes what stands before the first line ending of either kind. */
  lemma {:induction false} TakenIs(piped: string) returns (n: nat)
    ensures n <= |piped| && TakenPassword(piped) == piped[..n] && OneLine(piped[..n])
    ensures n < |piped| ==> piped[n] == '\n' || piped[n] == '\r'
  {
    if piped == "" || piped[0] == '\n' || piped[0] == '\r' {
      n := 0;
      assert StripNewlines("\n") == StripNewlines("\n"[..0]);
    } else {
      var rest := TakenIs(piped[1..]);
      n := rest + 1;
      StripKeepsHead(piped[0], ReadLine(Universal(piped[1..])));
      assert piped[..n] == [piped[0]] + piped[1..][..rest];
    }
  }

  /** The script takes the password that was piped exactly when it is one line. */
  lemma TakenIff(password: string)
    ensures TakenPassword(password + "\n") == password <==> OneLine(password)
  {
    UniversalOf(password);
    UniversalOf(password + "\n");
    LineOf(Universal(password + "\n"));
    LineOf(password);
  }

  // ---------------------------------------------------------------------------------------
  // The command line
  // ---------------------------------------------------------------------------------------

  /**
   What the command is built from; the password comes separately. "" stands for every value the
   script's conditions treat as absent.
   */
  datatype Inputs = Inputs(
    krb5conf: string, keytab: string, kdc: string, enctypes: string, login: string, verbose: bool, debug: bool)

  const KRB5_CONFIG := "KRB5_CONFIG="
  const MSKTUTIL := "/usr/sbin/msktutil"
  const UPDATE := "--update"
  const DONT_EXPIRE := "--dont-expire-password"
  const BASE := "--base"
  const USERS := "OU=Users"
  const VERBOSE := "--verbose"
  const KEYTAB := "--keytab"
  const SERVER := "--server"
  const ENCTYPES := "--enctypes"
  const AES_ONLY := "24"
  const DONT_CHANGE := "--dont-change-password"
  const SERVICE_ACCOUNT := "--use-service-account"
  const ACCOUNT_NAME := "--account-name"
  const OLD_PASSWORD := "--old-account-password"

  function Program(o: Inputs): seq<string> {
    (if o.krb5conf != "" then [KRB5_CONFIG + o.krb5conf] else []) + [MSKTUTIL, UPDATE, DONT_EXPIRE] + [BASE, USERS]
  }

  function Flags(o: Inputs): seq<string> {
    (if o.verbose then [VERBOSE] else []) + (if o.debug then [VERBOSE, VERBOSE] else [])
  }

  function Target(o: Inputs): seq<string> {
    (if o.keytab != "" then [KEYTAB, o.keytab] else []) + (if o.kdc != "" then [SERVER, o.kdc] else [])
  }

  function Enctypes(o: Inputs): string {
    if o.enctypes != "" then o.enctypes else AES_ONLY
  }

  /** The pieces before the password: an assignment, the program, and its arguments. */
  function Prefix(o: Inputs): seq<string> {
    Program(o) + Flags(o) + Target(o) + [ENCTYPES, Enctypes(o)] + [DONT_CHANGE, SERVICE_ACCOUNT] +
    [ACCOUNT_NAME, o.login] + [OLD_PASSWORD]
  }

  /** The command line. */
  function Line(o: Inputs, password: string): string {
    Join(Prefix(o)) + " " + Quote(password)
  }

  lemma JoinPair(a: string, b: string)
    ensures Join([a, b]) == a + " " + b
  {
    JoinConcat([a], [b]);
    assert [a] + [b] == [a, b];
  }

  /** A piece appended to the command appends its words to the line. */
  lemma Grow(cmd: seq<string>, words: seq<string>, piece: string, more: seq<string>)
    requires (cmd == [] <==> words == []) && more != [] && Join(cmd) == Join(words) && piece == Join(more)
    ensures Join(cmd + [piece]) == Join(words + more)
  {
    if cmd == [] {
      assert cmd + [piece] == [piece] && words + more == more;
    } else {
      JoinConcat(cmd, [piece]);
      JoinConcat(words, more);
    }
  }

  /** One of the source's appends, with the words it stands for. */
  method Append(cmd: seq<string>, ghost words: seq<string>, a: string, b: string)
    returns (cmd': seq<string>, ghost words': seq<string>)
    requires cmd != [] && words != [] && Join(cmd) == Join(words)
    ensures cmd' == cmd + [a + " " + b] && words' == words + [a, b] && Join(cmd') == Join(words')
  {
    JoinPair(a, b);
    Grow(cmd, words, a + " " + b, [a, b]);
    cmd', words' := cmd + [a + " " + b], words + [a, b];
  }

  /** The program with its fixed options, then the flags. */
  method BuildProgram(o: Inputs) returns (cmd: seq<string>, ghost words: seq<string>)
    ensures cmd != [] && words == Program(o) + Flags(o) && Join(cmd) == Join(words)
  {
    cmd := [];
    if o.krb5conf != "" {
      cmd := cmd + [KRB5_CONFIG + o.krb5conf];
    }
    words := cmd;
    JoinConcat([MSKTUTIL, UPDATE], [DONT_EXPIRE]);
    JoinPair(MSKTUTIL, UPDATE);
    assert [MSKTUTIL, UPDATE] + [DONT_EXPIRE] == [MSKTUTIL, UPDATE, DONT_EXPIRE];
    Grow(cmd, words, MSKTUTIL + " " + UPDATE + " " + DONT_EXPIRE, [MSKTUTIL, UPDATE, DONT_EXPIRE]);
    cmd, words := cmd + [MSKTUTIL + " " + UPDATE + " " + DONT_EXPIRE], words + [MSKTUTIL, UPDATE, DONT_EXPIRE];
    cmd, words := Append(cmd, words, BASE, USERS);
    assert words == Program(o);
    if o.verbose {
      Grow(cmd, words, VERBOSE, [VERBOSE]);
      cmd, words := cmd + [VERBOSE], words + [VERBOSE];
    }
    if o.debug {
      cmd, words := Append(cmd, words, VERBOSE, VERBOSE);
    }
  }

  /** The keytab and the server, if there are any. */
  method AppendTarget(o: Inputs, cmd: seq<string>, ghost words: seq<string>)
    returns (cmd': seq<string>, ghost words': seq<string>)
    requires cmd != [] && words != [] && Join(cmd) == Join(words)
    ensures cmd' != [] && words' == words + Target(o) && Join(cmd') == Join(words')
  {
    cmd', words' := cmd, words;
    if o.keytab != "" {
      cmd', words' := Append(cmd', words', KEYTAB, o.keytab);
    }
    if o.kdc != "" {
      cmd', words' := Append(cmd', words', SERVER, o.kdc);
    }
  }

  lemma TwoAtOnce(words: seq<string>, a: string, b: string)
    ensures words + [a, b] == words + [a] + [b]
  {
  }

  /**
   call_msktutil, for the arguments the user-mode branch gives it; main has made sure of a login and
   a password. The line goes to the shell.
   */
  method CallMsktutil(o: Inputs, password: string) returns (line: string)
    requires o.login != "" && password != ""
    ensures line == Line(o, password)
  {
    var cmd;
    ghost var words;
    cmd, words := BuildProgram(o);
    cmd, words := AppendTarget(o, cmd, words);
    cmd, words := Append(cmd, words, ENCTYPES, if o.enctypes != "" then o.enctypes else AES_ONLY);
    cmd, words := Append(cmd, words, DONT_CHANGE, SERVICE_ACCOUNT);
    cmd, words := Append(cmd, words, ACCOUNT_NAME, o.login);
    TwoAtOnce(words, OLD_PASSWORD, Quote(password));
    cmd, words := Append(cmd, words, OLD_PASSWORD, Quote(password));
    line := Join(cmd);
    JoinConcat(Prefix(o), [Quote(password)]);
  }

  // ---------------------------------------------------------------------------------------
  // From standard input to msktutil
  // ---------------------------------------------------------------------------------------

  /**
   What became of a password: asked for on the terminal, refused by the process call for a NUL, left
   to shell features that module Shell does not read, or made words.
   */
  datatype Fate = Prompted | Refused | Unread | Ran(words: seq<string>)

  function Execute(line: string): Fate {
    if '\0' in line then Refused
    else
      match Lex(line, Unquoted, None)
      case None => Unread
      case Some(words) => Ran(words)
  }

  /** The user-mode branch with no password option and standard input not a terminal. */
  method UserMode(o: Inputs, piped: string) returns (fate: Fate)
    requires o.login != ""
    ensures fate == FateOf(o, TakenPassword(piped))
  {
    var password := StripNewlines(ReadLine(Universal(piped)));
    if password == "" {
      return Prompted;
    }
    var line := CallMsktutil(o, password);
    return Execute(line);
  }

  function FateOf(o: Inputs, password: string): Fate {
    if password == "" then Prompted else Execute(Line(o, password))
  }

  /** The shell can read what comes before the password, as these words. */
  ghost predicate Reads(o: Inputs, words: seq<string>) {
    Lex(Join(Prefix(o)), Unquoted, None) == Some(words) && '\0' !in Join(Prefix(o))
  }

  /**
   Password delivery: whatever the words before it come to, a password sent with a newline after it
   reaches msktutil as the one word after them, unchanged, exactly when it is not empty and holds no
   newline, carriage return or NUL.
   */
  lemma DeliveredIff(o: Inputs, words: seq<string>, password: string)
    requires Reads(o, words)
    ensures FateOf(o, TakenPassword(password + "\n")) == Ran(words + [password])
       <==> password != "" && OneLine(password) && '\0' !in password
  {
    var taken := TakenPassword(password + "\n");
    TakenIff(password);
    LineLexes(Join(Prefix(o)), words, taken);
    assert (words + [taken])[|words|] == taken && (words + [password])[|words|] == password;
  }

  /** Values that need no quotes, as the paths and usernames the service passes are. */
  ghost predicate Plain(o: Inputs) {
    && Usernames.ValidUsername(o.login)
    && (o.krb5conf != "" ==> PlainWord(o.krb5conf)) && (o.keytab != "" ==> PlainWord(o.keytab))
    && (o.kdc != "" ==> PlainWord(o.kdc)) && (o.enctypes != "" ==> PlainWord(o.enctypes))
  }

  /** How often a word occurs. */
  function Count(words: seq<string>, word: string): nat {
    if words == [] then 0 else (if words[0] == word then 1 else 0) + Count(words[1..], word)
  }

  lemma {:induction false} CountMore(words: seq<string>, more: seq<string>, word: string)
    ensures Count(words + more, word) == Count(words, word) + Count(more, word)
  {
    if words == [] {
      assert words + more == more;
    } else {
      CountMore(words[1..], more, word);
      assert (words + more)[1..] == words[1..] + more;
    }
  }

  lemma {:induction false} CountNone(words: seq<string>, word: string)
    requires word !in words
    ensures Count(words, word) == 0
  {
    if words != [] {
      assert words[0] in words;
      CountNone(words[1..], word);
    }
  }

  /** Every occurrence of the option is followed by the value, and there are n of them. */
  ghost predicate Gives(words: seq<string>, option: string, value: string, n: nat) {
    && Count(words, option) == n
    && forall i :: 0 <= i < |words| && words[i] == option ==> i + 1 < |words| && words[i + 1] == value
  }

  /** No value is itself an option. */
  ghost predicate NoOptions(o: Inputs) {
    !IsOption(o.keytab) && !IsOption(o.kdc) && !IsOption(o.enctypes)
  }

  /** The words that are options, the password's left out. */
  predicate IsOption(word: string) {
    || word == BASE || word == UPDATE || word == DONT_EXPIRE || word == VERBOSE || word == KEYTAB || word == SERVER
    || word == ENCTYPES || word == DONT_CHANGE || word == SERVICE_ACCOUNT || word == ACCOUNT_NAME
  }

  lemma OptionsBeginAlike(word: string)
    requires IsOption(word)
    ensures word != "" && word[0] == '-'
  {
    assert BASE[0] == UPDATE[0] == KEYTAB[0] == SERVER[0] == VERBOSE[0] == ENCTYPES[0] == ACCOUNT_NAME[0] == '-';
    assert SERVICE_ACCOUNT[0] == DONT_EXPIRE[0] == DONT_CHANGE[0] == '-';
  }

  predicate Unlike(x: string, a: string, b: string, c: string, d: string, e: string, f: string, g: string, h: string,
                   i: string, j: string)
  {
    x != a && x != b && x != c && x != d && x != e && x != f && x != g && x != h && x != i && x != j
  }

  /** No two options are the same word. */
  lemma OptionsDiffer()
    ensures Unlike(BASE, UPDATE, DONT_EXPIRE, VERBOSE, KEYTAB, SERVER, ENCTYPES, DONT_CHANGE, SERVICE_ACCOUNT,
                   ACCOUNT_NAME, OLD_PASSWORD)
    ensures Unlike(UPDATE, BASE, DONT_EXPIRE, VERBOSE, KEYTAB, SERVER, ENCTYPES, DONT_CHANGE, SERVICE_ACCOUNT,
                   ACCOUNT_NAME, OLD_PASSWORD)
    ensures Unlike(DONT_EXPIRE, BASE, UPDATE, VERBOSE, KEYTAB, SERVER, ENCTYPES, DONT_CHANGE, SERVICE_ACCOUNT,
                   ACCOUNT_NAME, OLD_PASSWORD)
    ensures Unlike(VERBOSE, BASE, UPDATE, DONT_EXPIRE, KEYTAB, SERVER, ENCTYPES, DONT_CHANGE, SERVICE_ACCOUNT,
                   ACCOUNT_NAME, OLD_PASSWORD)
    ensures Unlike(KEYTAB, BASE, UPDATE, DONT_EXPIRE, VERBOSE, SERVER, ENCTYPES, DONT_CHANGE, SERVICE_ACCOUNT,
                   ACCOUNT_NAME, OLD_PASSWORD)
    ensures Unlike(SERVER, BASE, UPDATE, DONT_EXPIRE, VERBOSE, KEYTAB, ENCTYPES, DONT_CHANGE, SERVICE_ACCOUNT,
                   ACCOUNT_NAME, OLD_PASSWORD)
    ensures Unlike(ENCTYPES, BASE, UPDATE, DONT_EXPIRE, VERBOSE, KEYTAB, SERVER, DONT_CHANGE, SERVICE_ACCOUNT,
                   ACCOUNT_NAME, OLD_PASSWORD)
    ensures Unlike(ACCOUNT_NAME, BASE, UPDATE, DONT_EXPIRE, VERBOSE, KEYTAB, SERVER, ENCTYPES, DONT_CHANGE,
                   SERVICE_ACCOUNT, OLD_PASSWORD)
    ensures DONT_CHANGE != SERVICE_ACCOUNT && DONT_CHANGE != OLD_PASSWORD && SERVICE_ACCOUNT != OLD_PASSWORD
  {
    assert |BASE| == 6 && |VERBOSE| == 9 && |ENCTYPES| == 10 && |ACCOUNT_NAME| == 14 && |SERVICE_ACCOUNT| == 21;
    assert |UPDATE| == |KEYTAB| == |SERVER| == 8 && |DONT_EXPIRE| == |DONT_CHANGE| == |OLD_PASSWORD| == 22;
    assert UPDATE[2] == 'u' && KEYTAB[2] == 'k' && SERVER[2] == 's';
    assert DONT_EXPIRE[7] == 'e' && DONT_CHANGE[7] == 'c' && OLD_PASSWORD[2] == 'o' && DONT_CHANGE[2] == 'd';
    assert DONT_EXPIRE[2] == 'd';
  }

  lemma GivesMore(words: seq<string>, more: seq<string>, option: string, value: string, n: nat, m: nat)
    requires Gives(words, option, value, n) && Gives(more, option, value, m)
    ensures Gives(words + more, option, value, n + m)
  {
    CountMore(words, more, option);
    forall i | 0 <= i < |words + more| && (words + more)[i] == option
      ensures i + 1 < |words + more| && (words + more)[i + 1] == value
    {
      if i < |words| {
        assert words[i] == option;
      } else {
        assert more[i - |words|] == option;
      }
    }
  }

  lemma GivesNone(words: seq<string>, option: string, value: string)
    requires option !in words
    ensures Gives(words, option, value, 0)
  {
    CountNone(words, option);
  }

  lemma GivesPair(option: string, value: string)
    requires option != value
    ensures Gives([option, value], option, value, 1)
  {
    TwoOnce(option, value);
  }

  lemma SevenGive(a: seq<string>, b: seq<string>, c: seq<string>, d: seq<string>, e: seq<string>, f: seq<string>,
                  g: seq<string>, option: string, value: string, inA: nat, inC: nat, inD: nat, inF: nat)
    requires Gives(a, option, value, inA) && option !in b && Gives(c, option, value, inC)
    requires Gives(d, option, value, inD) && option !in e && Gives(f, option, value, inF) && option !in g
    ensures Gives(a + b + c + d + e + f + g, option, value, inA + inC + inD + inF)
  {
    GivesNone(b, option, value);
    GivesNone(e, option, value);
    GivesNone(g, option, value);
    GivesMore(a, b, option, value, inA, 0);
    GivesMore(a + b, c, option, value, inA, inC);
    GivesMore(a + b + c, d, option, value, inA + inC, inD);
    GivesMore(a + b + c + d, e, option, value, inA + inC + inD, 0);
    GivesMore(a + b + c + d + e, f, option, value, inA + inC + inD, inF);
    GivesMore(a + b + c + d + e + f, g, option, value, inA + inC + inD + inF, 0);
  }

  lemma NoneOfTwo(a: string, b: string, option: string, value: string)
    requires option != a && option != b
    ensures option !in [a, b] && Gives([a, b], option, value, 0)
  {
    GivesNone([a, b], option, value);
  }

  lemma FlagsHaveNone(o: Inputs, option: string)
    requires option != VERBOSE
    ensures option !in Flags(o) && Count(Flags(o), option) == 0
  {
    CountNone(Flags(o), option);
  }

  /** What the program and the target give, the whole gives, for an option that stands nowhere else. */
  lemma PrefixGives(o: Inputs, option: string, value: string, program: nat, target: nat)
    requires Gives(Program(o), option, value, program) && Gives(Target(o), option, value, target)
    requires option != VERBOSE && option != ENCTYPES && option != Enctypes(o) && option != ACCOUNT_NAME
    requires option != o.login && option != DONT_CHANGE && option != SERVICE_ACCOUNT && option != OLD_PASSWORD
    ensures Gives(Prefix(o), option, value, program + target)
  {
    FlagsHaveNone(o, option);
    NoneOfTwo(ENCTYPES, Enctypes(o), option, value);
    NoneOfTwo(DONT_CHANGE, SERVICE_ACCOUNT, option, value);
    NoneOfTwo(ACCOUNT_NAME, o.login, option, value);
    SevenGive(Program(o), Flags(o), Target(o), [ENCTYPES, Enctypes(o)], [DONT_CHANGE, SERVICE_ACCOUNT],
              [ACCOUNT_NAME, o.login], [OLD_PASSWORD], option, value, program, target, 0, 0);
  }

  /** The words of a command that are not options. */
  lemma ValuesAreNoOptions(o: Inputs, option: string)
    requires Plain(o) && NoOptions(o) && IsOption(option)
    ensures option != Enctypes(o) && option != o.login && option != MSKTUTIL && option != USERS
    ensures option != KRB5_CONFIG + o.krb5conf
    ensures o.keytab != "" ==> option != o.keytab
    ensures o.kdc != "" ==> option != o.kdc
  {
    OptionsBeginAlike(option);
    assert MSKTUTIL[0] == '/' && AES_ONLY[0] == '2' && USERS[0] == 'O' && KRB5_CONFIG[0] == 'K';
    assert (KRB5_CONFIG + o.krb5conf)[0] == 'K';
  }

  lemma ProgramGivesNone(o: Inputs, option: string, value: string)
    requires Plain(o) && NoOptions(o) && IsOption(option) && option != UPDATE && option != DONT_EXPIRE && option != BASE
    ensures Gives(Program(o), option, value, 0)
  {
    ValuesAreNoOptions(o, option);
    GivesNone(Program(o), option, value);
  }

  lemma TargetGivesNone(o: Inputs, option: string, value: string)
    requires Plain(o) && NoOptions(o) && IsOption(option) && option != KEYTAB && option != SERVER
    ensures Gives(Target(o), option, value, 0)
  {
    ValuesAreNoOptions(o, option);
    GivesNone(Target(o), option, value);
  }

  lemma BaseInProgram(o: Inputs)
    requires Plain(o) && NoOptions(o)
    ensures Gives(Program(o), BASE, USERS, 1)
  {
    OptionsDiffer();
    ValuesAreNoOptions(o, BASE);
    var head := (if o.krb5conf != "" then [KRB5_CONFIG + o.krb5conf] else []) + [MSKTUTIL, UPDATE, DONT_EXPIRE];
    GivesNone(head, BASE, USERS);
    GivesPair(BASE, USERS);
    GivesMore(head, [BASE, USERS], BASE, USERS, 0, 1);
  }

  lemma BaseGiven(o: Inputs)
    requires Plain(o) && NoOptions(o)
    ensures Gives(Prefix(o), BASE, USERS, 1)
  {
    OptionsDiffer();
    ValuesAreNoOptions(o, BASE);
    BaseInProgram(o);
    TargetGivesNone(o, BASE, USERS);
    PrefixGives(o, BASE, USERS, 1, 0);
  }

  lemma TargetGives(o: Inputs)
    requires Plain(o) && NoOptions(o)
    ensures Gives(Target(o), KEYTAB, o.keytab, if o.keytab != "" then 1 else 0)
    ensures Gives(Target(o), SERVER, o.kdc, if o.kdc != "" then 1 else 0)
  {
    OptionsDiffer();
    ValuesAreNoOptions(o, KEYTAB);
    ValuesAreNoOptions(o, SERVER);
    var keytab := if o.keytab != "" then [KEYTAB, o.keytab] else [];
    var server := if o.kdc != "" then [SERVER, o.kdc] else [];
    GivesNone(server, KEYTAB, o.keytab);
    GivesNone(keytab, SERVER, o.kdc);
    GivesPair(KEYTAB, o.keytab);
    GivesPair(SERVER, o.kdc);
    GivesMore(keytab, server, KEYTAB, o.keytab, |keytab| / 2, 0);
    GivesMore(keytab, server, SERVER, o.kdc, 0, |server| / 2);
  }

  lemma KeytabGiven(o: Inputs)
    requires Plain(o) && NoOptions(o)
    ensures Gives(Prefix(o), KEYTAB, o.keytab, if o.keytab != "" then 1 else 0)
  {
    OptionsDiffer();
    TargetGives(o);
    ValuesAreNoOptions(o, KEYTAB);
    ProgramGivesNone(o, KEYTAB, o.keytab);
    PrefixGives(o, KEYTAB, o.keytab, 0, if o.keytab != "" then 1 else 0);
  }

  lemma ServerGiven(o: Inputs)
    requires Plain(o) && NoOptions(o)
    ensures Gives(Prefix(o), SERVER, o.kdc, if o.kdc != "" then 1 else 0)
  {
    OptionsDiffer();
    TargetGives(o);
    ValuesAreNoOptions(o, SERVER);
    ProgramGivesNone(o, SERVER, o.kdc);
    PrefixGives(o, SERVER, o.kdc, 0, if o.kdc != "" then 1 else 0);
  }

  /** An option of the two pairs before the password. */
  lemma LatePairGives(o: Inputs, option: string, value: string, enctypes: nat, account: nat)
    requires Gives(Program(o), option, value, 0) && Gives(Target(o), option, value, 0) && option != VERBOSE
    requires Gives([ENCTYPES, Enctypes(o)], option, value, enctypes)
    requires Gives([ACCOUNT_NAME, o.login], option, value, account)
    requires option != DONT_CHANGE && option != SERVICE_ACCOUNT && option != OLD_PASSWORD
    ensures Gives(Prefix(o), option, value, enctypes + account)
  {
    FlagsHaveNone(o, option);
    NoneOfTwo(DONT_CHANGE, SERVICE_ACCOUNT, option, value);
    SevenGive(Program(o), Flags(o), Target(o), [ENCTYPES, Enctypes(o)], [DONT_CHANGE, SERVICE_ACCOUNT],
              [ACCOUNT_NAME, o.login], [OLD_PASSWORD], option, value, 0, 0, enctypes, account);
  }

  lemma EnctypesGiven(o: Inputs)
    requires Plain(o) && NoOptions(o)
    ensures Gives(Prefix(o), ENCTYPES, Enctypes(o), 1)
  {
    OptionsDiffer();
    ValuesAreNoOptions(o, ENCTYPES);
    ProgramGivesNone(o, ENCTYPES, Enctypes(o));
    TargetGivesNone(o, ENCTYPES, Enctypes(o));
    GivesPair(ENCTYPES, Enctypes(o));
    NoneOfTwo(ACCOUNT_NAME, o.login, ENCTYPES, Enctypes(o));
    LatePairGives(o, ENCTYPES, Enctypes(o), 1, 0);
  }

  lemma AccountGiven(o: Inputs)
    requires Plain(o) && NoOptions(o)
    ensures Gives(Prefix(o), ACCOUNT_NAME, o.login, 1)
  {
    OptionsDiffer();
    ValuesAreNoOptions(o, ACCOUNT_NAME);
    ProgramGivesNone(o, ACCOUNT_NAME, o.login);
    TargetGivesNone(o, ACCOUNT_NAME, o.login);
    NoneOfTwo(ENCTYPES, Enctypes(o), ACCOUNT_NAME, o.login);
    GivesPair(ACCOUNT_NAME, o.login);
    LatePairGives(o, ACCOUNT_NAME, o.login, 0, 1);
  }

  /** How often a word occurs in the whole of the command. */
  lemma SevenCount(a: seq<string>, b: seq<string>, c: seq<string>, d: seq<string>, e: seq<string>, f: seq<string>,
                   g: seq<string>, word: string)
    ensures Count(a + b + c + d + e + f + g, word)
         == Count(a, word) + Count(b, word) + Count(c, word) + Count(d, word) + Count(e, word) + Count(f, word) +
            Count(g, word)
  {
    CountMore(a, b, word);
    CountMore(a + b, c, word);
    CountMore(a + b + c, d, word);
    CountMore(a + b + c + d, e, word);
    CountMore(a + b + c + d + e, f, word);
    CountMore(a + b + c + d + e + f, g, word);
  }

  lemma NoFlagElsewhere(o: Inputs, flag: string)
    requires Plain(o) && NoOptions(o) && IsOption(flag)
    requires flag != KEYTAB && flag != SERVER && flag != ENCTYPES && flag != ACCOUNT_NAME
    ensures Count(Target(o), flag) == 0
    ensures Count([ENCTYPES, Enctypes(o)], flag) == 0 && Count([ACCOUNT_NAME, o.login], flag) == 0
  {
    ValuesAreNoOptions(o, flag);
    TargetGivesNone(o, flag, "");
    NoneOfTwo(ENCTYPES, Enctypes(o), flag, "");
    NoneOfTwo(ACCOUNT_NAME, o.login, flag, "");
  }

  /** A flag that is no value occurs as often as in the program, the flags and the fixed pair of flags. */
  lemma FlagCount(o: Inputs, flag: string, program: nat, flags: nat, pair: nat)
    requires Plain(o) && NoOptions(o) && IsOption(flag)
    requires flag != KEYTAB && flag != SERVER && flag != ENCTYPES && flag != ACCOUNT_NAME && flag != OLD_PASSWORD
    requires Count(Program(o), flag) == program && Count(Flags(o), flag) == flags
    requires Count([DONT_CHANGE, SERVICE_ACCOUNT], flag) == pair
    ensures Count(Prefix(o), flag) == program + flags + pair
  {
    NoFlagElsewhere(o, flag);
    GivesNone([OLD_PASSWORD], flag, "");
    SevenCount(Program(o), Flags(o), Target(o), [ENCTYPES, Enctypes(o)], [DONT_CHANGE, SERVICE_ACCOUNT],
               [ACCOUNT_NAME, o.login], [OLD_PASSWORD], flag);
  }

  lemma CopiesCount(word: string, one: bool, two: bool)
    ensures Count((if one then [word] else []) + (if two then [word, word] else []), word)
         == (if one then 1 else 0) + (if two then 2 else 0)
  {
    CountMore(if one then [word] else [], if two then [word, word] else [], word);
    assert [word, word][1..] == [word] && [word][1..] == [];
  }

  lemma VerboseGiven(o: Inputs)
    requires Plain(o) && NoOptions(o)
    ensures Count(Prefix(o), VERBOSE) == (if o.verbose then 1 else 0) + (if o.debug then 2 else 0)
  {
    OptionsDiffer();
    ProgramGivesNone(o, VERBOSE, "");
    NoneOfTwo(DONT_CHANGE, SERVICE_ACCOUNT, VERBOSE, "");
    CopiesCount(VERBOSE, o.verbose, o.debug);
    FlagCount(o, VERBOSE, 0, (if o.verbose then 1 else 0) + (if o.debug then 2 else 0), 0);
  }

  lemma OneOfThree(krb: seq<string>, a: string, b: string, c: string, d: string, e: string)
    requires b != a && c != a && b != c && d != b && d != c && e != b && e != c && b !in krb && c !in krb
    ensures Count(krb + [a, b, c] + [d, e], b) == 1 && Count(krb + [a, b, c] + [d, e], c) == 1
  {
    forall word | word == b || word == c
      ensures Count(krb + [a, b, c] + [d, e], word) == 1
    {
      CountMore(krb, [a, b, c], word);
      CountMore(krb + [a, b, c], [d, e], word);
      CountNone(krb, word);
      CountNone([d, e], word);
      assert [a, b, c][1..] == [b, c];
      TwoOnce(b, c);
    }
  }

  lemma ProgramFlags(o: Inputs)
    requires Plain(o) && NoOptions(o)
    ensures Count(Program(o), UPDATE) == 1 && Count(Program(o), DONT_EXPIRE) == 1
  {
    OptionsDiffer();
    ValuesAreNoOptions(o, UPDATE);
    ValuesAreNoOptions(o, DONT_EXPIRE);
    OneOfThree(if o.krb5conf != "" then [KRB5_CONFIG + o.krb5conf] else [], MSKTUTIL, UPDATE, DONT_EXPIRE, BASE, USERS);
  }

  lemma FixedGiven(o: Inputs)
    requires Plain(o) && NoOptions(o)
    ensures Count(Prefix(o), UPDATE) == 1 && Count(Prefix(o), DONT_EXPIRE) == 1
  {
    OptionsDiffer();
    ProgramFlags(o);
    FlagsHaveNone(o, UPDATE);
    FlagsHaveNone(o, DONT_EXPIRE);
    NoneOfTwo(DONT_CHANGE, SERVICE_ACCOUNT, UPDATE, "");
    NoneOfTwo(DONT_CHANGE, SERVICE_ACCOUNT, DONT_EXPIRE, "");
    FlagCount(o, UPDATE, 1, 0, 0);
    FlagCount(o, DONT_EXPIRE, 1, 0, 0);
  }

  lemma TwoOnce(a: string, b: string)
    requires a != b
    ensures Count([a, b], a) == 1 && Count([a, b], b) == 1
  {
    assert [a, b][1..] == [b] && [b][1..] == [];
    assert Count([b], a) == 0 && Count([b], b) == 1;
  }

  lemma PairGiven(o: Inputs)
    requires Plain(o) && NoOptions(o)
    ensures Count(Prefix(o), DONT_CHANGE) == 1 && Count(Prefix(o), SERVICE_ACCOUNT) == 1
  {
    OptionsDiffer();
    FlagsHaveNone(o, DONT_CHANGE);
    FlagsHaveNone(o, SERVICE_ACCOUNT);
    ProgramGivesNone(o, DONT_CHANGE, "");
    ProgramGivesNone(o, SERVICE_ACCOUNT, "");
    TwoOnce(DONT_CHANGE, SERVICE_ACCOUNT);
    FlagCount(o, DONT_CHANGE, 0, 0, 1);
    FlagCount(o, SERVICE_ACCOUNT, 0, 0, 1);
  }

  lemma WordsAre(o: Inputs, words: seq<string>)
    requires Plain(o) && Reads(o, words)
    ensures words == Prefix(o)
  {
    PlainReads(o);
  }

  /**
   The shape of the words msktutil is started with: the program first, after the assignment if there
   is one; the option for the password last; and no more words than the options named below need.
   */
  lemma WordsShape(o: Inputs, words: seq<string>)
    requires Plain(o) && Reads(o, words)
    ensures var start := if o.krb5conf != "" then 1 else 0;
            && |words| == start + 12 + (if o.verbose then 1 else 0) + (if o.debug then 2 else 0) +
                          (if o.keytab != "" then 2 else 0) + (if o.kdc != "" then 2 else 0)
            && words[start] == "/usr/sbin/msktutil" && (start == 1 ==> words[0] == "KRB5_CONFIG=" + o.krb5conf)
            && words[|words| - 1] == "--old-account-password"
  {
    WordsAre(o, words);
  }

  /**
   What msktutil is told: each option that takes a value occurs once, before its own value, and only if
   that value is present.
   */
  lemma WordsSay(o: Inputs, words: seq<string>)
    requires Plain(o) && NoOptions(o) && Reads(o, words)
    ensures Gives(words, "--base", "OU=Users", 1)
    ensures Gives(words, "--keytab", o.keytab, if o.keytab != "" then 1 else 0)
    ensures Gives(words, "--server", o.kdc, if o.kdc != "" then 1 else 0)
    ensures Gives(words, "--enctypes", if o.enctypes != "" then o.enctypes else "24", 1)
    ensures Gives(words, "--account-name", o.login, 1)
  {
    WordsAre(o, words);
    BaseGiven(o);
    KeytabGiven(o);
    ServerGiven(o);
    EnctypesGiven(o);
    AccountGiven(o);
  }

  /** The options without a value: the fixed ones once each, and --verbose once, twice or three times. */
  lemma FlagsSay(o: Inputs, words: seq<string>)
    requires Plain(o) && NoOptions(o) && Reads(o, words)
    ensures Count(words, "--verbose") == (if o.verbose then 1 else 0) + (if o.debug then 2 else 0)
    ensures Count(words, "--update") == 1 && Count(words, "--dont-expire-password") == 1
    ensures Count(words, "--dont-change-password") == 1 && Count(words, "--use-service-account") == 1
  {
    WordsAre(o, words);
    VerboseGiven(o);
    FixedGiven(o);
    PairGiven(o);
  }

  /** The words before the password of a plain command are its pieces: nothing is split or dropped. */
  lemma PlainReads(o: Inputs)
    requires Plain(o)
    ensures Reads(o, Prefix(o)) && Prefix(o)[|Prefix(o)| - 1] == OLD_PASSWORD
  {
    ProgramIsPlain(o);
    TargetIsPlain(o);
    AccountIsPlain(o);
    OptionsArePlain();
    PlainWordsLex(Prefix(o));
  }

  lemma ProgramIsPlain(o: Inputs)
    requires Plain(o)
    ensures PlainWords(Program(o))
  {
    assert PlainWord(KRB5_CONFIG);
    if o.krb5conf != "" {
      PlainPrefix(KRB5_CONFIG, o.krb5conf);
    }
    FixedWordsArePlain();
  }

  lemma PlainPrefix(a: string, b: string)
    requires PlainWord(a) && PlainWord(b)
    ensures PlainWord(a + b)
  {
  }

  lemma FixedWordsArePlain()
    ensures PlainWords([MSKTUTIL, UPDATE, DONT_EXPIRE]) && PlainWords([BASE, USERS])
  {
    assert PlainWord(MSKTUTIL) && PlainWord(UPDATE) && PlainWord(DONT_EXPIRE);
    assert PlainWord(BASE) && PlainWord(USERS);
  }

  lemma TargetIsPlain(o: Inputs)
    requires Plain(o)
    ensures PlainWords(Flags(o)) && PlainWords(Target(o))
  {
    assert PlainWord(VERBOSE) && PlainWord(KEYTAB) && PlainWord(SERVER);
  }

  lemma AccountIsPlain(o: Inputs)
    requires Plain(o)
    ensures PlainWords([ACCOUNT_NAME, o.login]) && PlainWords([ENCTYPES, Enctypes(o)])
  {
    assert PlainWord(ENCTYPES) && PlainWord(AES_ONLY) && PlainWord(ACCOUNT_NAME);
    assert forall i :: 0 <= i < |o.login| ==> Usernames.IsNameChar(o.login[i]);
    assert PlainWord(o.login);
  }

  lemma OptionsArePlain()
    ensures PlainWords([DONT_CHANGE, SERVICE_ACCOUNT]) && PlainWords([OLD_PASSWORD])
  {
    assert PlainWord(DONT_CHANGE) && PlainWord(SERVICE_ACCOUNT) && PlainWord(OLD_PASSWORD);
  }
}

/**
 The three subprocess paths of minting.py: the classification of their stderr, their typed
 outcomes, and what happens to the secret buffers.

 What the machine does is data: a Host says whether the directories could be made, how the child
 ended, what file it left and how that file parsed. A Python exception is an Exn; which of them
 the handlers catch is module App's business. Decoded stderr is a string.
 */
module Minting {
  import opened Options
  import opened Bytes
  import opened CcacheInfos

  type Info = CcacheInfo<string>

  datatype Exn =
    | BadPassword | BadKeytab | UnknownPrincipal | AccountRevoked | PasswordExpired | TicketExpired
    | MintingFailed | CcacheUnreadable | OsError | ValueError | AttributeError

  datatype Artifact = Ticket(ccache: seq<byte>, info: Info) | Keytab(keytab: seq<byte>)

  datatype Result = Ok(artifact: Artifact) | Raised(exn: Exn)

  /** The four ways a handler starts a child process. */
  datatype Job = PasswordMint | KeytabMint | Bootstrap | Renewal

  predicate UsesPassword(job: Job) {
    job == PasswordMint || job == Bootstrap
  }

  datatype Exit = SpawnFailed | TimedOut | Exited(code: int, stderr: string)

  /**
   mkdirOk: the root directory exists or could be made. stageOk: the private directory and the
   file in it could be written. before: how a ccache offered for renewal parses. output: the file
   the child left, None if it cannot be read; parsed: how that file parses as a ccache.
   cleanupOk: the private directory could be removed again.
   */
  datatype Host = Host(
    mkdirOk: bool, stageOk: bool, before: Parse<string>, exit: Exit,
    output: Option<seq<byte>>, parsed: Parse<string>, cleanupOk: bool)

  // ---------------------------------------------------------------------------------------
  // Classification of stderr
  // ---------------------------------------------------------------------------------------

  predicate OccursAt(text: string, marker: string, i: int) {
    0 <= i <= |text| - |marker| && text[i..i + |marker|] == marker
  }

  predicate Contains(text: string, marker: string) {
    exists i :: 0 <= i <= |text| && OccursAt(text, marker, i)
  }

  lemma ContainsIff(text: string, marker: string)
    ensures Contains(text, marker) <==> exists before, after :: text == before + marker + after
  {
    if Contains(text, marker) {
      var i :| 0 <= i <= |text| && OccursAt(text, marker, i);
      assert text == text[..i] + marker + text[i + |marker|..];
    }
    forall before, after | text == before + marker + after
      ensures Contains(text, marker)
    {
      assert text[|before|..|before| + |marker|] == marker;
      assert OccursAt(text, marker, |before|);
    }
  }

  /** The characters Python's str.strip removes. */
  predicate IsSpace(c: char) {
    var n := c as int;
    9 <= n <= 13 || 28 <= n <= 32 || n == 0x85 || n == 0xA0 || n == 0x1680 || 0x2000 <= n <= 0x200A ||
    n == 0x2028 || n == 0x2029 || n == 0x202F || n == 0x205F || n == 0x3000
  }

  function StripLeft(s: string): string {
    if s != "" && IsSpace(s[0]) then StripLeft(s[1..]) else s
  }

  function StripRight(s: string): string {
    if s != "" && IsSpace(s[|s| - 1]) then StripRight(s[..|s| - 1]) else s
  }

  function Strip(s: string): string {
    StripRight(StripLeft(s))
  }

  const BAD_PASSWORD := "Password incorrect"
  const UNKNOWN_PRINCIPAL := "not found in Kerberos database"
  const REVOKED := "credentials have been revoked"
  const PASSWORD_EXPIRED := "Password has expired"
  const PREAUTH_FAILED := "Preauthentication failed"
  const DECRYPT_FAILED := "Decrypt integrity check failed"
  const TICKET_EXPIRED := "Ticket expired"
  const NO_CREDENTIALS := "Could not find any credentials to authenticate with"

  /** What a child's stderr can be classified as, by job; anything else stays unclassified. */
  predicate Classifiable(job: Job, exn: Exn) {
    match job
    case PasswordMint => exn in {BadPassword, UnknownPrincipal, AccountRevoked, PasswordExpired}
    case KeytabMint => exn in {BadKeytab, UnknownPrincipal, AccountRevoked}
    case Renewal => exn == TicketExpired
    case Bootstrap => exn == BadPassword
  }

  function Classify(job: Job, stderr: string): (c: Option<Exn>)
    ensures c.Some? ==> Classifiable(job, c.value)
  {
    match job
    case PasswordMint =>
      if Contains(stderr, BAD_PASSWORD) then Some(BadPassword)
      else if Contains(stderr, UNKNOWN_PRINCIPAL) then Some(UnknownPrincipal)
      else if Contains(stderr, REVOKED) then Some(AccountRevoked)
      else if Contains(stderr, PASSWORD_EXPIRED) then Some(PasswordExpired)
      else None
    case KeytabMint =>
      if Contains(stderr, PREAUTH_FAILED) || Contains(stderr, DECRYPT_FAILED) then Some(BadKeytab)
      else if Contains(stderr, UNKNOWN_PRINCIPAL) then Some(UnknownPrincipal)
      else if Contains(stderr, REVOKED) then Some(AccountRevoked)
      else None
    case Renewal =>
      if Contains(stderr, TICKET_EXPIRED) then Some(TicketExpired) else None
    case Bootstrap =>
      if Contains(stderr, PREAUTH_FAILED) || Contains(stderr, DECRYPT_FAILED) || Contains(stderr, NO_CREDENTIALS)
      then Some(BadPassword) else None
  }

  lemma {:induction false} StripLeftKeeps(s: string, marker: string)
    requires marker != "" && !IsSpace(marker[0])
    ensures Contains(StripLeft(s), marker) <==> Contains(s, marker)
  {
    if s != "" && IsSpace(s[0]) {
      StripLeftKeeps(s[1..], marker);
      forall i | OccursAt(s, marker, i)
        ensures OccursAt(s[1..], marker, i - 1)
      {
        assert s[i] == s[i..i + |marker|][0];
        assert s[1..][i - 1..i - 1 + |marker|] == s[i..i + |marker|];
      }
      forall i | OccursAt(s[1..], marker, i)
        ensures OccursAt(s, marker, i + 1)
      {
        assert s[i + 1..i + 1 + |marker|] == s[1..][i..i + |marker|];
      }
    }
  }

  lemma SliceOfPrefix(s: string, n: nat, i: nat, j: nat)
    requires i <= j <= n <= |s|
    ensures s[..n][i..j] == s[i..j]
  {
  }

  lemma {:induction false} StripRightKeeps(s: string, marker: string)
    requires marker != "" && !IsSpace(marker[|marker| - 1])
    ensures Contains(StripRight(s), marker) <==> Contains(s, marker)
  {
    if s != "" && IsSpace(s[|s| - 1]) {
      var shorter := s[..|s| - 1];
      StripRightKeeps(shorter, marker);
      forall i | OccursAt(s, marker, i)
        ensures OccursAt(shorter, marker, i)
      {
        assert s[i + |marker| - 1] == s[i..i + |marker|][|marker| - 1];
        SliceOfPrefix(s, |s| - 1, i, i + |marker|);
      }
      forall i | OccursAt(shorter, marker, i)
        ensures OccursAt(s, marker, i)
      {
        SliceOfPrefix(s, |s| - 1, i, i + |marker|);
      }
    }
  }

  lemma StripKeeps(s: string, marker: string)
    requires marker != "" && !IsSpace(marker[0]) && !IsSpace(marker[|marker| - 1])
    ensures Contains(Strip(s), marker) <==> Contains(s, marker)
  {
    StripLeftKeeps(s, marker);
    StripRightKeeps(StripLeft(s), marker);
  }

  /** The longest marker starts and ends with a letter. */
  lemma NoCredentialsEdges()
    ensures NO_CREDENTIALS[0] == 'C' && NO_CREDENTIALS[|NO_CREDENTIALS| - 1] == 'h'
  {
    assert NO_CREDENTIALS == "Could not find any credentials to authenticate" + " with";
    assert "Could not find any credentials to authenticate" == "Could not find any credentials" + " to authenticate";
    assert "Could not find any credentials" == "Could not find" + " any credentials";
  }

  /** Stripping stderr first, as every caller does, never changes the classification. */
  lemma StripKeepsClass(job: Job, stderr: string)
    ensures Classify(job, Strip(stderr)) == Classify(job, stderr)
  {
    StripKeeps(stderr, BAD_PASSWORD);
    StripKeeps(stderr, UNKNOWN_PRINCIPAL);
    StripKeeps(stderr, REVOKED);
    StripKeeps(stderr, PASSWORD_EXPIRED);
    StripKeeps(stderr, PREAUTH_FAILED);
    StripKeeps(stderr, DECRYPT_FAILED);
    StripKeeps(stderr, TICKET_EXPIRED);
    NoCredentialsEdges();
    StripKeeps(stderr, NO_CREDENTIALS);
  }

  /** Each job's markers in the order they are tried, with what they mean. */
  function Markers(job: Job): seq<(string, Exn)> {
    match job
    case PasswordMint =>
      [(BAD_PASSWORD, BadPassword), (UNKNOWN_PRINCIPAL, UnknownPrincipal), (REVOKED, AccountRevoked),
       (PASSWORD_EXPIRED, PasswordExpired)]
    case KeytabMint =>
      [(PREAUTH_FAILED, BadKeytab), (DECRYPT_FAILED, BadKeytab), (UNKNOWN_PRINCIPAL, UnknownPrincipal),
       (REVOKED, AccountRevoked)]
    case Renewal => [(TICKET_EXPIRED, TicketExpired)]
    case Bootstrap =>
      [(PREAUTH_FAILED, BadPassword), (DECRYPT_FAILED, BadPassword), (NO_CREDENTIALS, BadPassword)]
  }

  /** Marker i is the first of the job's markers found in the text. */
  predicate FirstFound(job: Job, text: string, i: nat) {
    && i < |Markers(job)| && Contains(text, Markers(job)[i].0)
    && forall j :: 0 <= j < i ==> !Contains(text, Markers(job)[j].0)
  }

  /** A failed child means what the first of its job's markers in its raw stderr means. */
  lemma FirstMarkerDecides(job: Job, stderr: string, exn: Exn)
    ensures Classify(job, Strip(stderr)) == Some(exn) <==>
            exists i :: 0 <= i < |Markers(job)| && FirstFound(job, stderr, i) && Markers(job)[i].1 == exn
  {
    StripKeepsClass(job, stderr);
    var n := |Markers(job)|;
    if Classify(job, stderr).Some? {
      assert FirstFound(job, stderr, 0) || (n > 1 && FirstFound(job, stderr, 1)) ||
             (n > 2 && FirstFound(job, stderr, 2)) || (n > 3 && FirstFound(job, stderr, 3));
    }
  }

  // ---------------------------------------------------------------------------------------
  // Outcomes
  // ---------------------------------------------------------------------------------------

  function Failure(job: Job, exit: Exit): Exn {
    if !exit.Exited? then MintingFailed
    else
      match Classify(job, Strip(exit.stderr))
      case Some(exn) => exn
      case None => MintingFailed
  }

  function Collected(job: Job, host: Host): Result {
    match host.output
    case None => Raised(if job == Renewal then OsError else MintingFailed)
    case Some(bytes) =>
      if bytes == [] then Raised(MintingFailed)
      else if job == Bootstrap then Ok(Keytab(bytes))
      else
        match host.parsed
        case Unreadable => Raised(CcacheUnreadable)
        case Undecodable => Raised(ValueError)
        case Readable(info) => Ok(Ticket(bytes, info))
  }

  /** The outcome of a job: what minting.py's function returns or raises. */
  function Outcome(job: Job, host: Host): Result {
    if !host.mkdirOk || !host.stageOk || !host.cleanupOk then Raised(OsError)
    else if job == Renewal && host.before == Unreadable then Raised(CcacheUnreadable)
    else if job == Renewal && host.before == Undecodable then Raised(ValueError)
    else if host.exit.Exited? && host.exit.code == 0 then Collected(job, host)
    else Raised(Failure(job, host.exit))
  }

  /** Every result a job can have. */
  predicate Possible(job: Job, result: Result) {
    match result
    case Ok(Ticket(_, _)) => job != Bootstrap
    case Ok(Keytab(_)) => job == Bootstrap
    case Raised(exn) =>
      || Classifiable(job, exn) || exn == MintingFailed || exn == OsError
      || (job != Bootstrap && (exn == CcacheUnreadable || exn == ValueError))
  }

  lemma OutcomePossible(job: Job, host: Host)
    ensures Possible(job, Outcome(job, host))
  {
    assert Failure(job, host.exit) == MintingFailed || Classifiable(job, Failure(job, host.exit));
  }

  /**
   A bad password is reported only by a child that was given one, ran to a non-zero exit and said
   so, whatever else its stderr holds; a keytab mint or a renewal never reports one.
   */
  lemma BadPasswordIff(job: Job, host: Host)
    ensures Outcome(job, host) == Raised(BadPassword) <==>
            && host.mkdirOk && host.stageOk && host.cleanupOk
            && host.exit.Exited? && host.exit.code != 0
            && ((job == PasswordMint && Contains(host.exit.stderr, "Password incorrect")) ||
                (job == Bootstrap &&
                 (Contains(host.exit.stderr, "Preauthentication failed") ||
                  Contains(host.exit.stderr, "Decrypt integrity check failed") ||
                  Contains(host.exit.stderr, "Could not find any credentials to authenticate with"))))
  {
    if host.exit.Exited? {
      StripKeepsClass(job, host.exit.stderr);
    }
  }

  /** The jobs that count against an account are exactly those that can end in a bad password. */
  lemma UsesPasswordIff(job: Job)
    ensures UsesPassword(job) <==> exists host :: Outcome(job, host) == Raised(BadPassword)
  {
    forall host | Outcome(job, host) == Raised(BadPassword)
      ensures UsesPassword(job)
    {
      BadPasswordIff(job, host);
    }
    if UsesPassword(job) {
      var said := if job == PasswordMint then BAD_PASSWORD else PREAUTH_FAILED;
      var host := Host(true, true, Unreadable, Exited(1, said), None, Unreadable, true);
      assert OccursAt(said, said, 0);
      BadPasswordIff(job, host);
    }
  }

  /** What else a failed child can mean, marker by marker, in its raw stderr. */
  lemma OtherFailuresIff(job: Job, code: int, stderr: string)
    ensures var exn := Failure(job, Exited(code, stderr));
            && (exn == BadKeytab <==>
                  job == KeytabMint && (Contains(stderr, "Preauthentication failed") ||
                                        Contains(stderr, "Decrypt integrity check failed")))
            && (exn == UnknownPrincipal <==>
                  && exn != BadPassword && exn != BadKeytab && (job == PasswordMint || job == KeytabMint)
                  && Contains(stderr, "not found in Kerberos database"))
            && (exn == AccountRevoked <==>
                  && exn != BadPassword && exn != BadKeytab && exn != UnknownPrincipal
                  && (job == PasswordMint || job == KeytabMint)
                  && Contains(stderr, "credentials have been revoked"))
            && (exn == PasswordExpired <==>
                  && exn != BadPassword && exn != UnknownPrincipal && exn != AccountRevoked
                  && job == PasswordMint && Contains(stderr, "Password has expired"))
            && (exn == TicketExpired <==> job == Renewal && Contains(stderr, "Ticket expired"))
  {
    StripKeepsClass(job, stderr);
  }

  /** A success hands back the file the child left, and for a ticket what that very file says. */
  lemma OkHolds(job: Job, host: Host)
    requires Outcome(job, host).Ok?
    ensures host.output.Some? && host.output.value != []
    ensures job == Bootstrap ==> Outcome(job, host).artifact == Keytab(host.output.value)
    ensures job != Bootstrap ==>
              host.parsed.Readable? && Outcome(job, host).artifact == Ticket(host.output.value, host.parsed.info)
  {
  }

  /** Success needs a clean exit and a non-empty, and for a ticket readable, file. */
  lemma SuccessIff(job: Job, host: Host)
    ensures Outcome(job, host).Ok? <==>
            && host.mkdirOk && host.stageOk && host.cleanupOk
            && (exists e :: host.exit == Exited(0, e))
            && (exists b :: host.output == Some(b) && b != [])
            && (job != Bootstrap ==> host.parsed.Readable?)
            && (job == Renewal ==> host.before.Readable?)
  {
    if host.exit.Exited? && host.exit.code == 0 {
      assert host.exit == Exited(0, host.exit.stderr);
    }
    if host.output.Some? {
      assert host.output == Some(host.output.value);
    }
  }

  // ---------------------------------------------------------------------------------------
  // The functions themselves, with their buffers
  // ---------------------------------------------------------------------------------------

  /** What the child was given; `staged` is the file written for it, a keytab or a ccache to renew. */
  datatype Launch = Launch(argv: seq<string>, stdin: Option<seq<byte>>, staged: Option<seq<byte>>)

  datatype Settings = Settings(kinit: string, python: string, cernGetKeytab: string, defaultRealm: string)

  const NEWLINE: byte := 10

  ghost predicate AllZero(bytes: seq<byte>) {
    forall i :: 0 <= i < |bytes| ==> bytes[i] == 0
  }

  method ZeroBytes(buf: array<byte>)
    modifies buf
    ensures AllZero(buf[..])
  {
    for i := 0 to buf.Length
      invariant AllZero(buf[..i])
    {
      buf[i] := 0;
    }
    assert buf[..] == buf[..buf.Length];
  }

  /** A new buffer holding the secret and a newline. */
  method WithNewline(secret: array<byte>) returns (stdin: array<byte>)
    ensures fresh(stdin) && stdin[..] == secret[..] + [NEWLINE]
  {
    stdin := new byte[secret.Length + 1];
    for i := 0 to secret.Length
      invariant stdin[..i] == secret[..i]
    {
      stdin[i] := secret[i];
    }
    stdin[secret.Length] := NEWLINE;
    assert stdin[..secret.Length] == secret[..secret.Length] == secret[..];
  }

  /** From the child's exit to a result, as the guarded regions of all three functions do it. */
  method Conclude(job: Job, host: Host) returns (r: Result)
    ensures r == if host.exit.Exited? && host.exit.code == 0 then Collected(job, host)
                 else Raised(Failure(job, host.exit))
    ensures r.Ok? ==>
              && host.exit.Exited? && host.exit.code == 0 && host.output.Some? && host.output.value != []
              && if job == Bootstrap then r.artifact == Keytab(host.output.value)
                 else host.parsed.Readable? && r.artifact == Ticket(host.output.value, host.parsed.info)
  {
    if !host.exit.Exited? {
      return Raised(MintingFailed);
    }
    if host.exit.code != 0 {
      var classified := Classify(job, Strip(host.exit.stderr));
      if classified.Some? {
        return Raised(classified.value);
      }
      return Raised(MintingFailed);
    }
    if host.output == None {
      return Raised(if job == Renewal then OsError else MintingFailed);
    }
    if host.output.value == [] {
      return Raised(MintingFailed);
    }
    if job == Bootstrap {
      return Ok(Keytab(host.output.value));
    }
    match host.parsed
    case Unreadable => return Raised(CcacheUnreadable);
    case Undecodable => return Raised(ValueError);
    case Readable(info) => return Ok(Ticket(host.output.value, info));
  }

  /**
   Exactly one of password and keytab is non-null in a proper call. On every path past the making
   of the root directory the caller's buffer and the stdin buffer are zero at exit; before that
   point nothing has been zeroed.
   */
  method MintTicket(settings: Settings, username: string, password: array?<byte>, lifetime: string,
                    renewable: string, keytab: array?<byte>, tmpdir: string, host: Host)
    returns (r: Result, stdin: array?<byte>, launched: Option<Launch>)
    modifies password, keytab
    ensures (password == null) == (keytab == null) ==> r == Raised(ValueError)
    ensures (password == null) != (keytab == null) ==>
              r == Outcome(if password != null then PasswordMint else KeytabMint, host)
    ensures (password == null) != (keytab == null) && host.mkdirOk ==>
              && (password != null ==> AllZero(password[..]) && stdin != null)
              && (keytab != null ==> AllZero(keytab[..]) && stdin == null)
    ensures stdin != null ==> fresh(stdin) && AllZero(stdin[..])
    ensures (password == null) == (keytab == null) || !host.mkdirOk ==>
              && stdin == null
              && (password != null ==> password[..] == old(password[..]))
              && (keytab != null ==> keytab[..] == old(keytab[..]))
    ensures launched.Some? <==> (password == null) != (keytab == null) && host.mkdirOk && host.stageOk
    ensures launched.Some? && password != null ==>
              launched.value == Launch(
                [settings.kinit, "-c", "FILE:" + tmpdir + "/ccache", "-l", lifetime, "-r", renewable,
                 username + "@" + settings.defaultRealm],
                Some(old(password[..]) + [NEWLINE]), None)
    ensures launched.Some? && keytab != null ==>
              launched.value == Launch(
                [settings.kinit, "-c", "FILE:" + tmpdir + "/ccache", "-k", "-t", tmpdir + "/keytab",
                 "-l", lifetime, "-r", renewable, username + "@" + settings.defaultRealm],
                None, Some(old(keytab[..])))
  {
    stdin, launched := null, None;
    if (password == null) == (keytab == null) {
      return Raised(ValueError), null, None;
    }
    var principal := username + "@" + settings.defaultRealm;
    if !host.mkdirOk {
      return Raised(OsError), null, None;
    }
    if password != null {
      stdin := WithNewline(password);
    }

    // try
    r := Raised(OsError);
    if host.stageOk {
      var argv := [settings.kinit, "-c", "FILE:" + tmpdir + "/ccache"];
      var staged := None;
      if keytab != null {
        staged := Some(keytab[..]);
        argv := argv + ["-k", "-t", tmpdir + "/keytab"];
      }
      argv := argv + ["-l", lifetime, "-r", renewable, principal];
      launched := Some(Launch(argv, if stdin != null then Some(stdin[..]) else None, staged));
      r := Conclude(if keytab != null then KeytabMint else PasswordMint, host);
      if !host.cleanupOk {
        r := Raised(OsError);
      }
    }

    // finally
    if stdin != null {
      ZeroBytes(stdin);
    }
    if password != null {
      ZeroBytes(password);
    }
    if keytab != null {
      ZeroBytes(keytab);
    }
  }

  /** A root directory that cannot be made leaves the secret where it was. */
  method PasswordOutlivesMkdir(settings: Settings, username: string, secret: seq<byte>, tmpdir: string)
    returns (r: Result, left: seq<byte>)
    ensures r == Raised(OsError) && left == secret
  {
    var buf := new byte[|secret|](i requires 0 <= i < |secret| => secret[i]);
    assert buf[..] == secret;
    var stdin, launched;
    var host := Host(false, true, Unreadable, Exited(0, ""), Some([1]), Unreadable, true);
    r, stdin, launched := MintTicket(settings, username, buf, "1h", "1d", null, tmpdir, host);
    left := buf[..];
  }

  method MintKeytab(settings: Settings, username: string, password: array<byte>, tmpdir: string, host: Host)
    returns (r: Result, stdin: array?<byte>, launched: Option<Launch>)
    modifies password
    ensures r == Outcome(Bootstrap, host)
    ensures if host.mkdirOk then stdin != null && fresh(stdin) && AllZero(stdin[..]) && AllZero(password[..])
            else stdin == null && password[..] == old(password[..])
    ensures launched == if !(host.mkdirOk && host.stageOk) then None
                        else Some(Launch([settings.python, settings.cernGetKeytab, "-u", "-v", "-l", username,
                                          "--keytab", tmpdir + "/keytab"],
                                         Some(old(password[..]) + [NEWLINE]), None))
  {
    launched := None;
    if !host.mkdirOk {
      return Raised(OsError), null, None;
    }
    stdin := WithNewline(password);

    // try
    r := Raised(OsError);
    if host.stageOk {
      var argv := [settings.python, settings.cernGetKeytab, "-u", "-v", "-l", username,
                   "--keytab", tmpdir + "/keytab"];
      launched := Some(Launch(argv, Some(stdin[..]), None));
      r := Conclude(Bootstrap, host);
      if !host.cleanupOk {
        r := Raised(OsError);
      }
    }

    // finally
    ZeroBytes(stdin);
    ZeroBytes(password);
  }

  /** A ccache that does not parse is turned away before kinit is started. */
  method RenewTicket(ccache: seq<byte>, settings: Settings, tmpdir: string, host: Host)
    returns (r: Result, launched: Option<Launch>)
    ensures r == Outcome(Renewal, host)
    ensures launched == if !(host.mkdirOk && host.stageOk && host.before.Readable?) then None
                        else Some(Launch([settings.kinit, "-R", "-c", "FILE:" + tmpdir + "/ccache"], None,
                                         Some(ccache)))
  {
    launched := None;
    if !host.mkdirOk || !host.stageOk {
      return Raised(OsError), None;
    }
    match host.before {
      case Unreadable => r := Raised(CcacheUnreadable);
      case Undecodable => r := Raised(ValueError);
      case Readable(_) =>
        launched := Some(Launch([settings.kinit, "-R", "-c", "FILE:" + tmpdir + "/ccache"], None, Some(ccache)));
        r := Conclude(Renewal, host);
    }
    if !host.cleanupOk {
      r := Raised(OsError);
    }
  }
}

/**
 What the three handlers of app.py make of a job's result: the except clauses of each handler, and
 what every reply says about the machine the job ran on.
 */
module Replies {
  import opened Options
  import opened Bytes
  import opened CcacheInfos
  import opened RateLimit
  import opened Minting

  datatype Reply =
    | Success(principal: string, artifact: Artifact)
    | Http(status: int, detail: string)
    | Escaped(exn: Exn)

  const REVOKED_DETAIL := "This CERN account's credentials have been revoked. Contact CERN account support."
  const EXPIRED_DETAIL :=
    "This CERN account's password has expired and must be changed before a ticket can be minted."

  // ---------------------------------------------------------------------------------------
  // The except clauses, handler by handler; None where a handler has no clause
  // ---------------------------------------------------------------------------------------

  function MintClause(exn: Exn): Option<Reply> {
    match exn
    case BadPassword => Some(Http(400, "bad password"))
    case BadKeytab => Some(Http(400, "bad keytab"))
    case UnknownPrincipal => Some(Http(400, "unknown principal"))
    case AccountRevoked => Some(Http(403, REVOKED_DETAIL))
    case PasswordExpired => Some(Http(403, EXPIRED_DETAIL))
    case MintingFailed => Some(Http(502, "Ticket minting failed."))
    case _ => None
  }

  function RenewClause(exn: Exn): Option<Reply> {
    match exn
    case CcacheUnreadable => Some(Http(422, "invalid ccache"))
    case TicketExpired => Some(Http(400, "ticket no longer renewable"))
    case MintingFailed => Some(Http(502, "Ticket renewal failed."))
    case _ => None
  }

  function KeytabClause(exn: Exn): Option<Reply> {
    match exn
    case BadPassword => Some(Http(400, "bad password"))
    case MintingFailed => Some(Http(502, "Keytab generation failed."))
    case _ => None
  }

  function Clause(job: Job, exn: Exn): Option<Reply> {
    match job
    case PasswordMint => MintClause(exn)
    case KeytabMint => MintClause(exn)
    case Renewal => RenewClause(exn)
    case Bootstrap => KeytabClause(exn)
  }

  /** The reply to a job's result. A ticket names its own principal; a keytab gets the given one. */
  function ReplyTo(job: Job, result: Result, principal: string): Reply {
    match result
    case Ok(Ticket(ccache, info)) => Success(info.principal, Ticket(ccache, info))
    case Ok(Keytab(keytab)) => Success(principal, Keytab(keytab))
    case Raised(exn) =>
      match Clause(job, exn)
      case None => Escaped(exn)
      case Some(reply) => reply
  }

  /** The limiter's table after a job of `user` ends: only password jobs leave a mark. */
  function Settled(limits: Limits, table: Table, user: string, job: Job, result: Result, now: real): Table {
    if !UsesPassword(job) then table
    else if result.Ok? then Forgotten(table, user)
    else if result == Raised(BadPassword) then FailureRecorded(limits, table, user, now)
    else table
  }

  // ---------------------------------------------------------------------------------------
  // What escapes
  // ---------------------------------------------------------------------------------------

  /**
   A handler has a clause for everything its jobs' stderr can be classified as and for an
   infrastructure failure, the renewal also for an unreadable ccache, and no other clause.
   */
  lemma ClausesFit(exn: Exn)
    ensures MintClause(exn).Some? <==>
              Classifiable(PasswordMint, exn) || Classifiable(KeytabMint, exn) || exn == MintingFailed
    ensures RenewClause(exn).Some? <==>
              Classifiable(Renewal, exn) || exn == CcacheUnreadable || exn == MintingFailed
    ensures KeytabClause(exn).Some? <==> Classifiable(Bootstrap, exn) || exn == MintingFailed
  {
  }

  /** A child that fails is answered with a status, whatever it printed. */
  lemma FailureIsAnswered(job: Job, exit: Exit)
    ensures Clause(job, Failure(job, exit)).Some?
  {
    ClausesFit(Failure(job, exit));
    assert Failure(job, exit) == MintingFailed || Classifiable(job, Failure(job, exit));
  }

  /** The directories could be made, written and removed. */
  predicate Housed(host: Host) {
    host.mkdirOk && host.stageOk && host.cleanupOk
  }

  /** The child ran to exit code 0. */
  predicate Clean(host: Host) {
    host.exit.Exited? && host.exit.code == 0
  }

  /** The child could be started, and nothing went wrong around it. */
  predicate Prepared(job: Job, host: Host) {
    Housed(host) && (job == Renewal ==> host.before.Readable?)
  }

  /** The child left a non-empty file. */
  predicate Left(host: Host) {
    host.output.Some? && host.output.value != []
  }

  /**
   Which hosts make an exception escape: a directory that cannot be made, written or removed; a
   ccache whose realm is not UTF-8; an output file that cannot be read back after a renewal; and,
   for a mint, a clean exit that leaves a non-empty file which is no ccache.
   */
  predicate Escapes(job: Job, host: Host) {
    || !Housed(host)
    || (job == Renewal && host.before.Undecodable?)
    || (&& Prepared(job, host) && Clean(host)
        && match job
           case Bootstrap => false
           case Renewal => host.output == None || (Left(host) && host.parsed.Undecodable?)
           case _ => Left(host) && !host.parsed.Readable?)
  }

  lemma EscapeIff(job: Job, host: Host, principal: string)
    ensures ReplyTo(job, Outcome(job, host), principal).Escaped? <==> Escapes(job, host)
  {
    if Prepared(job, host) && !Clean(host) {
      FailureIsAnswered(job, host.exit);
    }
  }

  // ---------------------------------------------------------------------------------------
  // What each status says
  // ---------------------------------------------------------------------------------------

  /** The child failed, and the first of the job's markers in its stderr means this. */
  ghost predicate Says(job: Job, host: Host, exn: Exn) {
    && host.exit.Exited? && host.exit.code != 0
    && exists i :: 0 <= i < |Markers(job)| && FirstFound(job, host.exit.stderr, i) && Markers(job)[i].1 == exn
  }

  lemma SaysIff(job: Job, host: Host, exn: Exn)
    ensures Says(job, host, exn) <==>
            host.exit.Exited? && host.exit.code != 0 && Classify(job, Strip(host.exit.stderr)) == Some(exn)
  {
    if host.exit.Exited? {
      FirstMarkerDecides(job, host.exit.stderr, exn);
    }
  }

  /** The child failed and none of the job's markers is in its stderr. */
  ghost predicate SaysNothing(job: Job, host: Host) {
    && host.exit.Exited? && host.exit.code != 0
    && forall i :: 0 <= i < |Markers(job)| ==> !Contains(host.exit.stderr, Markers(job)[i].0)
  }

  lemma SaysNothingIff(job: Job, host: Host)
    ensures SaysNothing(job, host) <==>
            host.exit.Exited? && host.exit.code != 0 && Classify(job, Strip(host.exit.stderr)) == None
  {
    if host.exit.Exited? {
      StripKeepsClass(job, host.exit.stderr);
      var n := |Markers(job)|;
      if Classify(job, host.exit.stderr).Some? {
        assert Contains(host.exit.stderr, Markers(job)[0].0) || (n > 1 && Contains(host.exit.stderr, Markers(job)[1].0))
            || (n > 2 && Contains(host.exit.stderr, Markers(job)[2].0))
            || (n > 3 && Contains(host.exit.stderr, Markers(job)[3].0));
      }
    }
  }

  /** The infrastructure failed: no exit, an unexplained one, or a clean one without its file. */
  ghost predicate InfraFault(job: Job, host: Host) {
    && Prepared(job, host)
    && (|| !host.exit.Exited?
        || SaysNothing(job, host)
        || (Clean(host) && !Left(host) && !(job == Renewal && host.output == None)))
  }

  /** A ccache that does not parse: the caller's, or the one kinit left in its place. */
  predicate CacheFault(host: Host) {
    && Housed(host)
    && (host.before.Unreadable? ||
        (host.before.Readable? && Clean(host) && Left(host) && host.parsed.Unreadable?))
  }

  lemma FailureMeaning(job: Job, host: Host)
    requires Prepared(job, host) && !Clean(host)
    ensures var exn := Failure(job, host.exit);
            && (exn == MintingFailed <==> !host.exit.Exited? || SaysNothing(job, host))
            && (exn != MintingFailed ==> Classifiable(job, exn))
            && (forall e :: e != MintingFailed ==> (exn == e <==> Says(job, host, e)))
  {
    forall e
      ensures Says(job, host, e) <==>
              host.exit.Exited? && host.exit.code != 0 && Classify(job, Strip(host.exit.stderr)) == Some(e)
    {
      SaysIff(job, host, e);
    }
    SaysNothingIff(job, host);
  }

  /**
   What each status of a job says about the machine it ran on, both ways, and that no other status
   comes from a job. 403 and 400 are what the child said; 422 comes only from a renewal, but not only
   from the ccache the caller offered.
   */
  lemma StatusMeaning(job: Job, host: Host, principal: string)
    ensures var reply := ReplyTo(job, Outcome(job, host), principal);
            && (reply.Success? <==>
                  Prepared(job, host) && Clean(host) && Left(host) && (job != Bootstrap ==> host.parsed.Readable?))
            && (reply.Http? ==> reply.status in {400, 403, 422, 502})
            && (reply.Http? && reply.status == 502 <==> InfraFault(job, host))
            && (reply.Http? && reply.status == 422 <==> job == Renewal && CacheFault(host))
            && (reply.Http? && reply.status == 403 <==>
                  Prepared(job, host) && (Says(job, host, AccountRevoked) || Says(job, host, PasswordExpired)))
            && (reply.Http? && reply.status == 400 <==>
                  && Prepared(job, host)
                  && (Says(job, host, BadPassword) || Says(job, host, BadKeytab) ||
                      Says(job, host, UnknownPrincipal) || Says(job, host, TicketExpired)))
  {
    if Prepared(job, host) && !Clean(host) {
      FailureMeaning(job, host);
      FailureIsAnswered(job, host.exit);
    }
  }

  /** What a success hands back: the file the child left, under the principal that file names. */
  lemma SuccessMeaning(job: Job, host: Host, principal: string)
    requires ReplyTo(job, Outcome(job, host), principal).Success?
    ensures host.output.Some?
    ensures job == Bootstrap ==>
              ReplyTo(job, Outcome(job, host), principal) == Success(principal, Keytab(host.output.value))
    ensures job != Bootstrap ==>
              && host.parsed.Readable?
              && ReplyTo(job, Outcome(job, host), principal)
                 == Success(host.parsed.info.principal, Ticket(host.output.value, host.parsed.info))
  {
    OkHolds(job, host);
  }

  /** The words of a reply that blames the machine, or the ccache. */
  lemma FaultTexts(job: Job, host: Host, principal: string)
    ensures var reply := ReplyTo(job, Outcome(job, host), principal);
            && (InfraFault(job, host) ==>
                  reply == Http(502, match job
                                     case Renewal => "Ticket renewal failed."
                                     case Bootstrap => "Keytab generation failed."
                                     case _ => "Ticket minting failed."))
            && (job == Renewal && CacheFault(host) ==> reply == Http(422, "invalid ccache"))
  {
    if Prepared(job, host) && !Clean(host) {
      FailureMeaning(job, host);
    }
  }

  /** The words of a reply that passes on what the child said. */
  lemma SaidTexts(job: Job, host: Host, exn: Exn, principal: string)
    requires Prepared(job, host) && Says(job, host, exn) && exn != MintingFailed
    ensures var reply := ReplyTo(job, Outcome(job, host), principal);
            match exn
            case BadPassword => reply == Http(400, "bad password")
            case BadKeytab => reply == Http(400, "bad keytab")
            case UnknownPrincipal => reply == Http(400, "unknown principal")
            case TicketExpired => reply == Http(400, "ticket no longer renewable")
            case AccountRevoked =>
              reply == Http(
                403, "This CERN account's credentials have been revoked. Contact CERN account support.")
            case PasswordExpired =>
              reply == Http(
                403, "This CERN account's password has expired and must be changed before a ticket can be minted.")
            case _ => false
  {
    FailureMeaning(job, host);
    FailureIsAnswered(job, host.exit);
  }

  // ---------------------------------------------------------------------------------------
  // Hosts at which a promise of the documentation fails
  // ---------------------------------------------------------------------------------------

  /** A mint ends without a status when kinit succeeds and leaves something that is no ccache. */
  lemma MintCanEscape()
    ensures ReplyTo(PasswordMint,
                    Outcome(PasswordMint, Host(true, true, Unreadable, Exited(0, ""), Some([1]), Unreadable, true)), "")
         == Escaped(CcacheUnreadable)
  {
  }

  /** A bad password is lost, and not counted, when the directory cannot be removed. */
  lemma BadPasswordCanBeLost(limits: Limits, table: Table, user: string, now: real)
    ensures Outcome(PasswordMint, Host(true, true, Unreadable, Exited(1, BAD_PASSWORD), None, Unreadable, true))
         == Raised(BadPassword)
    ensures var result :=
              Outcome(PasswordMint, Host(true, true, Unreadable, Exited(1, BAD_PASSWORD), None, Unreadable, false));
            && ReplyTo(PasswordMint, result, "") == Escaped(OsError)
            && Settled(limits, table, user, PasswordMint, result, now) == table
  {
    assert OccursAt(BAD_PASSWORD, BAD_PASSWORD, 0);
    BadPasswordIff(PasswordMint, Host(true, true, Unreadable, Exited(1, BAD_PASSWORD), None, Unreadable, true));
  }

  /** A caller who offered a good ccache is told it is invalid when kinit leaves a bad one. */
  lemma RenewalCanBlameCaller(info: CcacheInfo<string>)
    ensures var host := Host(true, true, Readable(info), Exited(0, ""), Some([1]), Unreadable, true);
            host.before == Readable(info) && ReplyTo(Renewal, Outcome(Renewal, host), "") == Http(422, "invalid ccache")
  {
  }
}

/**
 The three request handlers of app.py.

 A handler is one method, with the suspension in its subprocess as a call of Suspend, during which
 other tasks may do anything to the limiter that leaves it valid. `pause` holds the limiter's tables
 when the handler suspends and when it goes on; it is None when the handler ended before starting a
 job. Each contract fixes the reply, the child that is started, the limiter's table on both sides of
 the pause, and the audit events of every run.

 Base64 and token verification are given by their results. An exception outside the classes a
 handler catches ends it as an Escaped reply.
 */
module App {
  import opened Options
  import opened Bytes
  import opened RateLimit
  import opened Minting
  import opened Replies
  import opened Usernames
  import Lifetimes

  /**
   How the verification of a token ends. Crashed is the AttributeError of a published key that is no
   object (see Keys.Crashed), which verification does not catch.
   */
  datatype Verdict = Claims(sub: string, jti: Option<string>) | Unauthorized | JwksUnreachable | Crashed

  /** The Authorization header; `peeked` is the subject read without verification, for the audit. */
  datatype Token = Missing | Bearer(verdict: Verdict, peeked: string)

  /** Exactly one of the two, as the request model insists; a keytab comes as its base64 decoding. */
  datatype Credential = Password(password: seq<byte>) | KeytabB64(decoded: Option<seq<byte>>)

  /** What the request model accepts: one credential, not none and not both. */
  function ExactlyOne(password: Option<seq<byte>>, keytab: Option<Option<seq<byte>>>): (c: Option<Credential>)
    ensures c == None <==> (password == None <==> keytab == None)
    ensures c.Some? && c.value.Password? ==> password == Some(c.value.password)
    ensures c.Some? && c.value.KeytabB64? ==> keytab == Some(c.value.decoded)
  {
    match (password, keytab)
    case (Some(p), None) => Some(Password(p))
    case (None, Some(k)) => Some(KeytabB64(k))
    case _ => None
  }

  datatype MintRequest = MintRequest(
    username: string, credential: Credential, lifetime: Option<string>, renewable: Option<string>)

  /** The body of POST /v1/mint as it arrives; both credentials are optional. */
  datatype MintBody = MintBody(
    username: string, password: Option<seq<byte>>, keytab: Option<Option<seq<byte>>>,
    lifetime: Option<string>, renewable: Option<string>)

  /** The request model: a body without exactly one credential is no request. */
  function Accept(body: MintBody): (req: Option<MintRequest>)
    ensures req.Some? <==> (body.password == None) != (body.keytab == None)
    ensures req.Some? ==>
              && req.value.username == body.username
              && req.value.lifetime == body.lifetime && req.value.renewable == body.renewable
              && match req.value.credential
                 case Password(password) => body.password == Some(password)
                 case KeytabB64(decoded) => body.keytab == Some(decoded)
  {
    match ExactlyOne(body.password, body.keytab)
    case None => None
    case Some(credential) => Some(MintRequest(body.username, credential, body.lifetime, body.renewable))
  }

  datatype AuditOutcome = Issued | Denied | Error

  datatype AuditEvent = AuditEvent(
    subject: Option<string>, username: Option<string>, principal: Option<string>,
    jti: Option<string>, outcome: AuditOutcome, requestId: string)

  datatype Config = Config(settings: Settings, defaultLifetime: string, defaultRenewable: string, tmpdir: string)

  /**
   The audit promise: one event for every reply, issued exactly for 200, error exactly for 502,
   with a principal exactly when issued; and none when an exception escapes.
   */
  ghost predicate Audited(reply: Reply, audit: seq<AuditEvent>, requestId: string) {
    match reply
    case Escaped(_) => audit == []
    case Success(principal, _) =>
      |audit| == 1 && audit[0].outcome == Issued && audit[0].principal == Some(principal) &&
      audit[0].requestId == requestId
    case Http(status, _) =>
      |audit| == 1 && audit[0].outcome == (if status == 502 then Error else Denied) &&
      audit[0].principal == None && audit[0].requestId == requestId
  }

  /** Who the audit says is asking: the verified claims, or the unverified subject, or nobody. */
  ghost predicate Attributed(token: Token, audit: seq<AuditEvent>) {
    forall e :: e in audit ==>
      match token
      case Missing => e.subject == None && e.jti == None && e.username == None
      case Bearer(Claims(sub, jti), _) => e.subject == Some(sub) && e.jti == jti
      case Bearer(_, peeked) => e.subject == Some(peeked) && e.jti == None
  }

  function OrDefault(value: Option<string>, fallback: string): string {
    if value.Some? && value.value != "" then value.value else fallback
  }

  function JobOf(req: MintRequest): Job {
    if req.credential.Password? then PasswordMint else KeytabMint
  }

  predicate Verified(token: Token) {
    token.Bearer? && token.verdict.Claims?
  }

  /** How a request ends whose token does not verify. */
  ghost predicate TurnedAway(token: Token, reply: Reply) {
    match token
    case Missing => reply == Http(401, "Not authenticated")
    case Bearer(Unauthorized, _) => reply == Http(401, "Invalid or expired token")
    case Bearer(JwksUnreachable, _) => reply.Http? && reply.status == 502
    case Bearer(Crashed, _) => reply == Escaped(AttributeError)
    case Bearer(Claims(_, _), _) => false
  }

  /** The username in a request's audit events: not before there is a token, not an invalid one. */
  ghost predicate Named(token: Token, username: string, audit: seq<AuditEvent>) {
    forall e :: e in audit ==>
      e.username == if token.Missing? || (Verified(token) && !ValidUsername(username)) then None else Some(username)
  }

  predicate MintWellFormed(config: Config, req: MintRequest) {
    && ValidUsername(req.username)
    && Lifetimes.Scan(OrDefault(req.lifetime, config.defaultLifetime)).Some?
    && Lifetimes.Scan(OrDefault(req.renewable, config.defaultRenewable)).Some?
  }

  /** The limiter's table when a handler suspends, and when it goes on. */
  datatype Pause = Pause(suspended: Table, resumed: Table)

  /**
   What a finished job does to the limiter: a bad password is the latest failure of its username, a
   success on a password forgets the username, and nothing else is touched.
   */
  ghost predicate Marks(username: string, password: bool, reply: Reply, before: Table, after: Table, now: real) {
    && (forall other :: other != username ==>
          (other in after <==> other in before) && (other in after ==> after[other] == before[other]))
    && if password && reply.Success? then username !in after
       else if reply == Http(400, "bad password")
       then && password && username in after && after[username].failures != []
            && after[username].failures[|after[username].failures| - 1] == now
       else after == before
  }

  class Service {
    const config: Config
    const limiter: RateLimiter

    constructor (config: Config, limits: Limits)
      ensures limiter.Valid() && limiter.View() == map[] && limiter.limits == limits && this.config == config
      ensures fresh(limiter)
    {
      this.config := config;
      this.limiter := new RateLimiter(limits);
    }

    /** The handler waits for its subprocess while other tasks use the limiter. */
    method Suspend()
      requires limiter.Valid()
      modifies limiter, limiter.state.Values
      ensures limiter.Valid() && fresh(limiter.state.Values - old(limiter.state.Values))
    {
    }

    /** The part every handler starts with; it ends the request unless the token verifies. */
    method Authenticate(token: Token, username: Option<string>, requestId: string)
      returns (reply: Reply, audit: seq<AuditEvent>)
      ensures Attributed(token, audit)
      ensures Verified(token) ==> audit == []
      ensures !Verified(token) ==> TurnedAway(token, reply) && Audited(reply, audit, requestId)
      ensures forall e :: e in audit ==> e.username == if token.Missing? then None else username
    {
      match token
      case Missing =>
        return Http(401, "Not authenticated"), [AuditEvent(None, None, None, None, Denied, requestId)];
      case Bearer(Unauthorized, peeked) =>
        return Http(401, "Invalid or expired token"),
               [AuditEvent(Some(peeked), username, None, None, Denied, requestId)];
      case Bearer(JwksUnreachable, peeked) =>
        return Http(502, "Unable to reach JWKS endpoint"),
               [AuditEvent(Some(peeked), username, None, None, Error, requestId)];
      case Bearer(Crashed, _) =>
        return Escaped(AttributeError), [];
      case Bearer(Claims(_, _), _) =>
        return Http(200, ""), [];
    }

    /**
     The checks of /v1/mint after the token, up to the suspension: `turned` is the reply they end
     the request with, None when the job may start.
     */
    method AdmitMint(req: MintRequest, sub: string, jti: Option<string>, requestId: string, now: real)
      returns (turned: Option<Reply>, audit: seq<AuditEvent>)
      requires limiter.Valid()
      modifies limiter.state.Values
      ensures limiter.Valid() && limiter.state == old(limiter.state)
      ensures turned == None <==> Admitted(req, old(limiter.View()), now)
      ensures turned == None ==> audit == []
      ensures forall e :: e in audit ==> e.subject == Some(sub) && e.jti == jti
      ensures forall e :: e in audit ==> e.username == if ValidUsername(req.username) then Some(req.username) else None
      ensures turned.Some? ==> Refuses(req, turned.value) && Audited(turned.value, audit, requestId)
      ensures limiter.View() == if MintWellFormed(config, req) && req.credential.Password?
                                then Asked(old(limiter.View()), req.username, now) else old(limiter.View())
    {
      if !ValidUsername(req.username) {
        return Some(Http(422, "invalid username")), [AuditEvent(Some(sub), None, None, jti, Denied, requestId)];
      }
      var denied := [AuditEvent(Some(sub), Some(req.username), None, jti, Denied, requestId)];
      if Lifetimes.Scan(OrDefault(req.lifetime, config.defaultLifetime)) == None ||
         Lifetimes.Scan(OrDefault(req.renewable, config.defaultRenewable)) == None {
        return Some(Http(422, "invalid lifetime")), denied;
      }
      if req.credential.Password? {
        var answer := limiter.Check(req.username, now);
        if answer.Refused? {
          return Some(Http(429, "too many failed authentication attempts")), denied;
        }
      } else if req.credential.decoded == None {
        return Some(Http(422, "invalid keytab_b64")), denied;
      }
      return None, [];
    }

    /** The reply to a request with a good token that may not start a job. */
    ghost predicate Refuses(req: MintRequest, reply: Reply) {
      && reply.Http?
      && if MintWellFormed(config, req) && req.credential.Password? then reply.status == 429
         else reply == Http(422, if !ValidUsername(req.username) then "invalid username"
                                 else if !MintWellFormed(config, req) then "invalid lifetime"
                                 else "invalid keytab_b64")
    }

    ghost predicate Admitted(req: MintRequest, table: Table, now: real) {
      && MintWellFormed(config, req)
      && match req.credential
         case Password(_) => Ask(Lookup(table, req.username), now).Pass?
         case KeytabB64(decoded) => decoded.Some?
    }

    /** The kinit of a mint: the request's lifetimes, or the configured ones, its username and its secret. */
    ghost predicate MintStarts(req: MintRequest, host: Host, launched: Option<Launch>) {
      var lifetime := if req.lifetime.Some? && req.lifetime.value != "" then req.lifetime.value
                      else config.defaultLifetime;
      var renewable := if req.renewable.Some? && req.renewable.value != "" then req.renewable.value
                       else config.defaultRenewable;
      var cache := [config.settings.kinit, "-c", "FILE:" + config.tmpdir + "/ccache"];
      var rest := ["-l", lifetime, "-r", renewable, req.username + "@" + config.settings.defaultRealm];
      && (launched.Some? <==> host.mkdirOk && host.stageOk)
      && (launched.Some? ==>
            match req.credential
            case Password(password) => launched.value == Launch(cache + rest, Some(password + [10]), None)
            case KeytabB64(decoded) =>
              launched.value == Launch(cache + ["-k", "-t", config.tmpdir + "/keytab"] + rest, None, decoded))
    }

    /** The handler's own buffers, and the job they are handed to. */
    method RunMint(req: MintRequest, host: Host) returns (result: Result, launched: Option<Launch>)
      requires req.credential.KeytabB64? ==> req.credential.decoded.Some?
      ensures result == Outcome(JobOf(req), host)
      ensures MintStarts(req, host, launched)
    {
      var lifetime := OrDefault(req.lifetime, config.defaultLifetime);
      var renewable := OrDefault(req.renewable, config.defaultRenewable);
      var secret := if req.credential.Password? then req.credential.password else req.credential.decoded.value;
      var buf := new byte[|secret|](i requires 0 <= i < |secret| => secret[i]);
      assert buf[..] == secret;
      var stdin;
      if req.credential.Password? {
        result, stdin, launched :=
          MintTicket(config.settings, req.username, buf, lifetime, renewable, null, config.tmpdir, host);
      } else {
        result, stdin, launched :=
          MintTicket(config.settings, req.username, null, lifetime, renewable, buf, config.tmpdir, host);
      }
    }

    /** After the suspension: what the handler's except clauses do, and what it does on a ticket. */
    method SettleMint(req: MintRequest, result: Result, sub: string, jti: Option<string>, requestId: string,
                      later: real)
      returns (reply: Reply, audit: seq<AuditEvent>)
      requires limiter.Valid()
      requires result.Ok? ==> result.artifact.Ticket?
      requires result == Raised(BadPassword) ==> req.credential.Password?
      modifies limiter, limiter.state.Values
      ensures limiter.Valid() && Audited(reply, audit, requestId)
      ensures fresh(limiter.state.Values - old(limiter.state.Values))
      ensures reply == ReplyTo(JobOf(req), result, "")
      ensures limiter.View() == Settled(limiter.limits, old(limiter.View()), req.username, JobOf(req), result, later)
      ensures Marks(req.username, req.credential.Password?, reply, old(limiter.View()), limiter.View(), later)
      ensures forall e :: e in audit ==> e.subject == Some(sub) && e.jti == jti && e.username == Some(req.username)
    {
      var user := Some(req.username);
      match result
      case Ok(minted) =>
        if req.credential.Password? {
          limiter.Reset(req.username);
        }
        reply := Success(minted.info.principal, minted);
        audit := [AuditEvent(Some(sub), user, Some(minted.info.principal), jti, Issued, requestId)];
      case Raised(exn) =>
        var denied := [AuditEvent(Some(sub), user, None, jti, Denied, requestId)];
        match exn {
          case BadPassword =>
            limiter.RecordFailure(req.username, later);
            reply, audit := Http(400, "bad password"), denied;
          case BadKeytab => reply, audit := Http(400, "bad keytab"), denied;
          case UnknownPrincipal => reply, audit := Http(400, "unknown principal"), denied;
          case AccountRevoked => reply, audit := Http(403, REVOKED_DETAIL), denied;
          case PasswordExpired => reply, audit := Http(403, EXPIRED_DETAIL), denied;
          case MintingFailed =>
            reply, audit := Http(502, "Ticket minting failed."),
                            [AuditEvent(Some(sub), user, None, jti, Error, requestId)];
          case _ => reply, audit := Escaped(exn), [];
        }
    }

    /** What a mint answers, starts, and does to the limiter, from the table it found. */
    ghost predicate MintEnds(req: MintRequest, token: Token, host: Host, now: real, later: real, before: Table,
                             pause: Option<Pause>, after: Table, reply: Reply, launched: Option<Launch>)
    {
      var lifetime := if req.lifetime.Some? && req.lifetime.value != "" then req.lifetime.value
                      else config.defaultLifetime;
      var renewable := if req.renewable.Some? && req.renewable.value != "" then req.renewable.value
                       else config.defaultRenewable;
      var wellFormed := && Verified(token) && ValidUsername(req.username)
                        && Lifetimes.Scan(lifetime).Some? && Lifetimes.Scan(renewable).Some?;
      var asked := wellFormed && req.credential.Password?;
      && (pause.Some? <==>
            wellFormed && match req.credential
                          case Password(_) => Ask(Lookup(before, req.username), now).Pass?
                          case KeytabB64(decoded) => decoded.Some?)
      && (!Verified(token) ==> TurnedAway(token, reply))
      && (Verified(token) && pause == None ==>
            reply.Http? &&
            if asked then reply.status == 429
            else reply == Http(422, if !ValidUsername(req.username) then "invalid username"
                                    else if !wellFormed then "invalid lifetime" else "invalid keytab_b64"))
      && (if pause.Some? then MintStarts(req, host, launched) else launched == None)
      && (if pause.Some? then pause.value.suspended else after)
         == (if asked then Asked(before, req.username, now) else before)
      && (pause.Some? ==> MintSettles(req, host, later, pause.value.resumed, after, reply))
    }

    /** After the pause: the reply, and the limiter's mark; a ticket is what kinit left. */
    ghost predicate MintSettles(req: MintRequest, host: Host, later: real, resumed: Table, after: Table, reply: Reply) {
      var result := Outcome(JobOf(req), host);
      && reply == ReplyTo(JobOf(req), result, "")
      && (reply.Success? ==>
            && host.output.Some? && host.parsed.Readable?
            && reply == Success(host.parsed.info.principal, Ticket(host.output.value, host.parsed.info)))
      && after == Settled(limiter.limits, resumed, req.username, JobOf(req), result, later)
      && Marks(req.username, req.credential.Password?, reply, resumed, after, later)
    }

    /** The mint handler up to its suspension: `ended` is its reply, None when a job may start. */
    method OpenMint(req: MintRequest, token: Token, requestId: string, now: real)
      returns (ended: Option<Reply>, audit: seq<AuditEvent>)
      requires limiter.Valid()
      modifies limiter.state.Values
      ensures limiter.Valid() && limiter.state == old(limiter.state)
      ensures ended == None <==> Verified(token) && Admitted(req, old(limiter.View()), now)
      ensures ended.Some? ==>
                && Audited(ended.value, audit, requestId) && Attributed(token, audit)
                && Named(token, req.username, audit)
                && if !Verified(token) then TurnedAway(token, ended.value) else Refuses(req, ended.value)
      ensures limiter.View() == if Verified(token) && MintWellFormed(config, req) && req.credential.Password?
                                then Asked(old(limiter.View()), req.username, now) else old(limiter.View())
    {
      var reply;
      reply, audit := Authenticate(token, Some(req.username), requestId);
      if !Verified(token) {
        return Some(reply), audit;
      }
      ended, audit := AdmitMint(req, token.verdict.sub, token.verdict.jti, requestId, now);
    }

    /** The mint handler. */
    method Mint(req: MintRequest, token: Token, requestId: string, host: Host, now: real, later: real)
      returns (reply: Reply, audit: seq<AuditEvent>, launched: Option<Launch>, ghost pause: Option<Pause>)
      requires limiter.Valid()
      modifies limiter, limiter.state.Values
      ensures limiter.Valid() && Audited(reply, audit, requestId) && Attributed(token, audit)
      ensures Named(token, req.username, audit)
      ensures MintEnds(req, token, host, now, later, old(limiter.View()), pause, limiter.View(), reply, launched)
    {
      var ended;
      ended, audit := OpenMint(req, token, requestId, now);
      if ended.Some? {
        return ended.value, audit, None, None;
      }
      var Claims(sub, jti) := token.verdict;

      ghost var suspended := limiter.View();
      Suspend();
      pause := Some(Pause(suspended, limiter.View()));
      reply, audit, launched := CloseMint(req, host, sub, jti, requestId, later);
    }

    /** The mint handler from its suspension on: the job, and what the handler makes of its result. */
    method CloseMint(req: MintRequest, host: Host, sub: string, jti: Option<string>, requestId: string, later: real)
      returns (reply: Reply, audit: seq<AuditEvent>, launched: Option<Launch>)
      requires limiter.Valid()
      requires req.credential.KeytabB64? ==> req.credential.decoded.Some?
      modifies limiter, limiter.state.Values
      ensures limiter.Valid() && Audited(reply, audit, requestId)
      ensures fresh(limiter.state.Values - old(limiter.state.Values))
      ensures MintStarts(req, host, launched)
      ensures MintSettles(req, host, later, old(limiter.View()), limiter.View(), reply)
      ensures forall e :: e in audit ==> e.subject == Some(sub) && e.jti == jti && e.username == Some(req.username)
    {
      var result;
      result, launched := RunMint(req, host);
      BadPasswordIff(JobOf(req), host);
      if ReplyTo(JobOf(req), result, "").Success? {
        SuccessMeaning(JobOf(req), host, "");
      }
      reply, audit := SettleMint(req, result, sub, jti, requestId, later);
    }

    /**
     POST /v1/mint, from the body on: a body the request model turns away is answered before the
     handler, without an event; otherwise the one event is missing exactly when verification crashed
     or a job started on a machine where it escapes.
     */
    method PostMint(body: MintBody, token: Token, requestId: string, host: Host, now: real, later: real)
      returns (reply: Reply, audit: seq<AuditEvent>, launched: Option<Launch>, ghost pause: Option<Pause>)
      requires limiter.Valid()
      modifies limiter, limiter.state.Values
      ensures limiter.Valid()
      ensures (body.password == None) == (body.keytab == None) ==>
                && reply.Http? && reply.status == 422 && audit == [] && launched == None && pause == None
                && limiter.View() == old(limiter.View())
      ensures (body.password == None) != (body.keytab == None) ==>
                && Accept(body).Some?
                && var req := Accept(body).value;
                && MintEnds(req, token, host, now, later, old(limiter.View()), pause, limiter.View(), reply, launched)
                && Audited(reply, audit, requestId) && Attributed(token, audit) && Named(token, body.username, audit)
                && (audit == [] <==> (token.Bearer? && token.verdict.Crashed?) ||
                                     (pause.Some? && Escapes(JobOf(req), host)))
    {
      var accepted := Accept(body);
      if accepted == None {
        return Http(422, "exactly one of password or keytab_b64 is required"), [], None, None;
      }
      EscapeIff(JobOf(accepted.value), host, "");
      reply, audit, launched, pause := Mint(accepted.value, token, requestId, host, now, later);
    }

    /** What the renewal handler's except clauses do, and what it does on a ticket. */
    method SettleRenewal(result: Result, sub: string, jti: Option<string>, requestId: string)
      returns (reply: Reply, audit: seq<AuditEvent>)
      requires result.Ok? ==> result.artifact.Ticket?
      ensures reply == ReplyTo(Renewal, result, "") && Audited(reply, audit, requestId)
      ensures forall e :: e in audit ==> e.subject == Some(sub) && e.jti == jti && e.username == None
    {
      var denied := [AuditEvent(Some(sub), None, None, jti, Denied, requestId)];
      match result
      case Ok(minted) =>
        reply := Success(minted.info.principal, minted);
        audit := [AuditEvent(Some(sub), None, Some(minted.info.principal), jti, Issued, requestId)];
      case Raised(exn) =>
        match exn {
          case CcacheUnreadable => reply, audit := Http(422, "invalid ccache"), denied;
          case TicketExpired => reply, audit := Http(400, "ticket no longer renewable"), denied;
          case MintingFailed =>
            reply, audit := Http(502, "Ticket renewal failed."),
                            [AuditEvent(Some(sub), None, None, jti, Error, requestId)];
          case _ => reply, audit := Escaped(exn), [];
        }
    }

    /** POST /v1/renew: no limiter at all. */
    method Renew(decoded: Option<seq<byte>>, token: Token, requestId: string, host: Host)
      returns (reply: Reply, audit: seq<AuditEvent>, launched: Option<Launch>)
      ensures Audited(reply, audit, requestId) && Attributed(token, audit)
      ensures forall e :: e in audit ==> e.username == None
      ensures !Verified(token) ==> TurnedAway(token, reply)
      ensures Verified(token) && decoded == None ==> reply == Http(422, "invalid ccache_b64")
      ensures Verified(token) && decoded.Some? ==> reply == ReplyTo(Renewal, Outcome(Renewal, host), "")
      ensures reply.Success? ==>
                && host.output.Some? && host.parsed.Readable?
                && reply == Success(host.parsed.info.principal, Ticket(host.output.value, host.parsed.info))
      ensures launched == if !(&& Verified(token) && decoded.Some?
                               && host.mkdirOk && host.stageOk && host.before.Readable?)
                          then None
                          else Some(Launch([config.settings.kinit, "-R", "-c", "FILE:" + config.tmpdir + "/ccache"],
                                           None, decoded))
      ensures audit == [] <==> (token.Bearer? && token.verdict.Crashed?) ||
                               (Verified(token) && decoded.Some? && Escapes(Renewal, host))
    {
      launched := None;
      reply, audit := Authenticate(token, None, requestId);
      if !Verified(token) {
        return;
      }
      var Claims(sub, jti) := token.verdict;
      if decoded == None {
        return Http(422, "invalid ccache_b64"), [AuditEvent(Some(sub), None, None, jti, Denied, requestId)], None;
      }

      var result;
      result, launched := RenewTicket(decoded.value, config.settings, config.tmpdir, host);
      EscapeIff(Renewal, host, "");
      if ReplyTo(Renewal, result, "").Success? {
        SuccessMeaning(Renewal, host, "");
      }
      reply, audit := SettleRenewal(result, sub, jti, requestId);
    }

    /** After the suspension of a keytab request: the handler's two except clauses and its success. */
    method SettleKeytab(username: string, result: Result, sub: string, jti: Option<string>, requestId: string,
                        later: real)
      returns (reply: Reply, audit: seq<AuditEvent>)
      requires limiter.Valid()
      requires result.Ok? ==> result.artifact.Keytab?
      modifies limiter, limiter.state.Values
      ensures limiter.Valid() && Audited(reply, audit, requestId)
      ensures reply == ReplyTo(Bootstrap, result, username + "@" + config.settings.defaultRealm)
      ensures limiter.View() == Settled(limiter.limits, old(limiter.View()), username, Bootstrap, result, later)
      ensures Marks(username, true, reply, old(limiter.View()), limiter.View(), later)
      ensures forall e :: e in audit ==> e.subject == Some(sub) && e.jti == jti && e.username == Some(username)
    {
      var user := Some(username);
      match result
      case Ok(made) =>
        limiter.Reset(username);
        var principal := username + "@" + config.settings.defaultRealm;
        reply := Success(principal, made);
        audit := [AuditEvent(Some(sub), user, Some(principal), jti, Issued, requestId)];
      case Raised(exn) =>
        match exn {
          case BadPassword =>
            limiter.RecordFailure(username, later);
            reply, audit := Http(400, "bad password"), [AuditEvent(Some(sub), user, None, jti, Denied, requestId)];
          case MintingFailed =>
            reply, audit := Http(502, "Keytab generation failed."),
                            [AuditEvent(Some(sub), user, None, jti, Error, requestId)];
          case _ => reply, audit := Escaped(exn), [];
        }
    }

    /** The cern-get-keytab of a keytab request: its username and its password. */
    ghost predicate KeytabStarts(username: string, password: seq<byte>, host: Host, launched: Option<Launch>) {
      launched == if !(host.mkdirOk && host.stageOk) then None
                  else Some(Launch([config.settings.python, config.settings.cernGetKeytab, "-u", "-v", "-l", username,
                                    "--keytab", config.tmpdir + "/keytab"],
                                   Some(password + [10]), None))
    }

    /** What a keytab request answers, starts, and does to the limiter, from the table it found. */
    ghost predicate KeytabEnds(username: string, password: seq<byte>, token: Token, host: Host, now: real, later: real,
                               before: Table, pause: Option<Pause>, after: Table, reply: Reply,
                               launched: Option<Launch>)
    {
      var asked := Verified(token) && ValidUsername(username);
      && (pause.Some? <==> asked && Ask(Lookup(before, username), now).Pass?)
      && (!Verified(token) ==> TurnedAway(token, reply))
      && (Verified(token) && !ValidUsername(username) ==> reply == Http(422, "invalid username"))
      && (asked && pause == None ==> reply.Http? && reply.status == 429)
      && (if pause.Some? then KeytabStarts(username, password, host, launched) else launched == None)
      && (if pause.Some? then pause.value.suspended else after)
         == (if asked then Asked(before, username, now) else before)
      && (pause.Some? ==> KeytabSettles(username, host, later, pause.value.resumed, after, reply))
    }

    /** After the pause: the reply, and the limiter's mark; a keytab is what cern-get-keytab left. */
    ghost predicate KeytabSettles(username: string, host: Host, later: real, resumed: Table, after: Table,
                                  reply: Reply)
    {
      var principal := username + "@" + config.settings.defaultRealm;
      && reply == ReplyTo(Bootstrap, Outcome(Bootstrap, host), principal)
      && (reply.Success? ==> host.output.Some? && reply == Success(principal, Keytab(host.output.value)))
      && after == Settled(limiter.limits, resumed, username, Bootstrap, Outcome(Bootstrap, host), later)
      && Marks(username, true, reply, resumed, after, later)
    }

    /** POST /v1/keytab: shares the limiter with the password mints. */
    method MakeKeytab(username: string, password: seq<byte>, token: Token, requestId: string, host: Host,
                      now: real, later: real)
      returns (reply: Reply, audit: seq<AuditEvent>, launched: Option<Launch>, ghost pause: Option<Pause>)
      requires limiter.Valid()
      modifies limiter, limiter.state.Values
      ensures limiter.Valid() && Audited(reply, audit, requestId) && Attributed(token, audit)
      ensures Named(token, username, audit)
      ensures KeytabEnds(username, password, token, host, now, later, old(limiter.View()), pause, limiter.View(),
                         reply, launched)
      ensures audit == [] <==> (token.Bearer? && token.verdict.Crashed?) ||
                               (pause.Some? && Escapes(Bootstrap, host))
    {
      launched, pause := None, None;
      reply, audit := Authenticate(token, Some(username), requestId);
      if !Verified(token) {
        return;
      }
      var Claims(sub, jti) := token.verdict;
      if !ValidUsername(username) {
        return Http(422, "invalid username"), [AuditEvent(Some(sub), None, None, jti, Denied, requestId)], None, None;
      }
      var answer := limiter.Check(username, now);
      if answer.Refused? {
        return Http(429, "too many failed authentication attempts"),
               [AuditEvent(Some(sub), Some(username), None, jti, Denied, requestId)], None, None;
      }

      ghost var suspended := limiter.View();
      Suspend();
      pause := Some(Pause(suspended, limiter.View()));
      reply, audit, launched := CloseKeytab(username, password, host, sub, jti, requestId, later);
    }

    /** The keytab handler from its suspension on. */
    method CloseKeytab(username: string, password: seq<byte>, host: Host, sub: string, jti: Option<string>,
                       requestId: string, later: real)
      returns (reply: Reply, audit: seq<AuditEvent>, launched: Option<Launch>)
      requires limiter.Valid()
      modifies limiter, limiter.state.Values
      ensures limiter.Valid() && Audited(reply, audit, requestId)
      ensures KeytabStarts(username, password, host, launched)
      ensures KeytabSettles(username, host, later, old(limiter.View()), limiter.View(), reply)
      ensures audit == [] <==> Escapes(Bootstrap, host)
      ensures forall e :: e in audit ==> e.subject == Some(sub) && e.jti == jti && e.username == Some(username)
    {
      var result;
      result, launched := RunKeytab(username, password, host);
      ghost var principal := username + "@" + config.settings.defaultRealm;
      EscapeIff(Bootstrap, host, principal);
      if ReplyTo(Bootstrap, result, principal).Success? {
        SuccessMeaning(Bootstrap, host, principal);
      }
      reply, audit := SettleKeytab(username, result, sub, jti, requestId, later);
    }

    /** The handler's own buffer, and the job it is handed to. */
    method RunKeytab(username: string, password: seq<byte>, host: Host)
      returns (result: Result, launched: Option<Launch>)
      ensures result == Outcome(Bootstrap, host)
      ensures KeytabStarts(username, password, host, launched)
    {
      var passwordBuf := new byte[|password|](i requires 0 <= i < |password| => password[i]);
      assert passwordBuf[..] == password;
      var stdin;
      result, stdin, launched := MintKeytab(config.settings, username, passwordBuf, config.tmpdir, host);
    }
  }
}

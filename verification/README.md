# A verified model of krb5-token-service

krb5-token-service mints Kerberos tickets and keytabs for CERN accounts. A request carries a
password (or a keytab, or an old ticket) and a token from the broker; the service runs `kinit` or
`cern-get-keytab` and returns what they wrote. A wrong password counts against the account's own
lockout at CERN, so a limiter in front of the subprocess refuses a username that has failed too
often. This project models that service in Dafny and proves what it promises.

`dafny verify dfyconfig.toml` checks the whole project.

## What is modelled

- **The limiter** (`RateLimit`). `RateLimiter` keeps the source's dictionary of mutable entries.
  Its methods are specified by value-level functions on the table they represent.
- **The limiter under overlapping requests** (`Lanes`, `Rates`, `Locks`, `Interleaving`,
  `Realizations`, `Segments`). A handler calls `check`, waits for a subprocess, and only later calls
  `record_failure` or `reset`. The service is a transition system with any number of tasks, a clock
  that never goes back, and every possible subprocess outcome; its steps are the handlers' own
  segments. A lane is what one username sees of it: its limiter state and its attempts in flight.
  Every run of the service is seen as a lane run, and every lane run is what a username sees of some
  run of the service, so the bounds proved on lanes are exact for the service.
- **The subprocess jobs** (`Minting`): stderr classification, typed outcomes, and the secret
  buffers as arrays zeroed in place.
- **The handlers** (`App`, `Replies`): `mint`, `renew` and `keytab`, each one method with its
  suspension, its own except clauses, its limiter marks and its audit events; and what each status
  says about the machine the job ran on.
- **The JWKS cache** (`Jwks`, `Keys`): the atomic segments of `get_jwks` as methods of a class, and
  all interleavings of any number of tasks; the choice of a key by `kid`.
- **Languages**: the lifetime grammar and usernames (`Lifetimes`, `Usernames`, `Regexes`), the FILE
  ccache version 4 (`Ccache`, `CcacheFixtures`, `Utf8`), and the password's way through standard input
  and the shell (`Shell`, `KeytabTool`).

## What the proofs found

- The limiter's cap is `max_attempts` per `min(window, lockout)` only with one attempt at a time.
  With up to k in flight, a period T without a success holds at most
  `Peak(T) + min(k-1, max_attempts-1)` bad passwords, where `Peak` is 0 for T <= 0 and otherwise
  `max_attempts - 1 + max(Peak(T - window), k + Peak(T - lockout))`: let a window pass, or lock the
  username with k more and let the lock pass. This is exact: for every setting, username, k and T
  `Realizations.ServiceBudgetAttained` gives a run of the service that spends all of it. When a lock
  is no longer than the window, as with the defaults of 900 seconds for both
  (src/krb5_token_service/config.py:91-92), it is
  `n * (max_attempts + k-1) + min(k-1, max_attempts-1)` for n spans of `min(window, lockout)`. The last
  term is the lazy clear: bad passwords recorded while an expired lock is still stored are wiped by
  the next `check`.
- "Every request produces exactly one JSON audit line" (README.md:74-76) is wider than the code.
  A body with both credentials or neither is answered before the handler, without a line. Past that,
  the line is missing exactly when verification crashed or a job started on a machine where an
  exception escapes; `App.Service.PostMint`, `App.Service.Renew` and `App.Service.MakeKeytab` state
  this, and `Replies.Escapes` is the condition: a `CcacheParseError` after a successful mint, a ccache
  realm that is not UTF-8 (read_ccache catches only libkrb5's errors), a renewal whose output file
  cannot be read, and directories that cannot be made, written or removed.
  `Replies.MintCanEscape` is such a machine. A removal that fails replaces even a bad-password result,
  which is then not counted (`Replies.BadPasswordCanBeLost`).
- Verification crashes when the token has a `kid` and an entry of the published list that is no
  object comes before any key with that `kid`: src/krb5_token_service/identity.py:189 raises an
  AttributeError, which neither verify_broker_token nor a handler catches. `Keys.SelectFinds` gives
  the answer for every list; `App.Crashed` is its place among the verdicts.
- A renewal is answered 422 "invalid ccache" and audited as denied not only for the ccache the caller
  offered. When that one is good, `kinit -R` succeeds, and the file it leaves does not parse, the
  answer is the same (src/krb5_token_service/minting.py:482, src/krb5_token_service/app.py:426),
  although src/krb5_token_service/ccache.py:40-42 promises to treat this as an infrastructure failure.
  `Replies.StatusMeaning` gives the exact condition, `Replies.RenewalCanBlameCaller` a case.
- The password is documented as zeroed "on every path" (src/krb5_token_service/minting.py:337-340,
  508-509). `mkdir` runs before the `try`, so the buffers stay as they are when it fails;
  `Minting.MintTicket` and `Minting.MintKeytab` state both halves, and
  `Minting.PasswordOutlivesMkdir` shows it for every secret. The immutable copies handed to the
  subprocess call and written to the staged keytab file are not buffers and are not zeroed.
- Key selection depends on the list's order exactly when two different keys share the token's `kid`,
  or a key with it stands beside an entry that is no object; see `Keys.OrderFreeIff`.
- A password reaches msktutil unchanged exactly when it is one non-empty line without NUL, whatever
  words come before it; see `KeytabTool.DeliveredIff`.

## Conventions

Times are reals; each clock reading is a parameter. An absent username reads as a fresh entry.
Exceptions are values: `Minting.Exn` for what is raised, `Replies.Escaped` for what no handler catches.
`Minting.Host` holds everything the operating system and libkrb5 decide. The limiter's settings
are positive, as src/krb5_token_service/config.py:90-92 requires.

## Model

| member | source | states |
|---|---|---|
| RateLimit.RateLimiter.Check | src/krb5_token_service/ratelimit.py:71-81 | the answer and the new table: refused with the time left while locked; an expired lock is cleared with its failures; no other entry changes |
| RateLimit.RateLimiter.EntryFor | src/krb5_token_service/ratelimit.py:85 | the username's entry, made fresh if missing, and no other entry touched |
| RateLimit.Entry.AddFailure | src/krb5_token_service/ratelimit.py:86-91 | the entry after pruning, appending and perhaps locking |
| RateLimit.RateLimiter.RecordFailure | src/krb5_token_service/ratelimit.py:83-91 | the new table: this username's failures pruned and extended, locked at max_attempts; all others unchanged |
| RateLimit.RateLimiter.Reset | src/krb5_token_service/ratelimit.py:93-94 | the new table: this username forgotten; all others unchanged |
| RateLimit.RateLimiter.constructor | src/krb5_token_service/ratelimit.py:57-69 | a limiter starts with no state |
| Lanes.ReachableInv | src/krb5_token_service/ratelimit.py:71-94 | every lane reachable from one that satisfies the invariant satisfies it: stored failures bounded, ordered and within the window of the last; lock ends within lockout |
| Lanes.ConcurrentBudget | src/krb5_token_service/ratelimit.py:71-94 | with at most k attempts in flight, an interval no longer than min(window, lockout) without a success holds at most max_attempts + (k-1) + min(k-1, max_attempts-1) bad passwords |
| Lanes.RateBound | src/krb5_token_service/ratelimit.py:71-94 | with at most k attempts in flight, an interval of any length without a success holds at most the budget of that length |
| Rates.LongRunBound | src/krb5_token_service/ratelimit.py:83-91 | any period without a success, from a start with no history, holds at most its budget; with k = 1, at most max_attempts for each min(window, lockout) begun |
| Rates.BudgetInSpans | src/krb5_token_service/ratelimit.py:83-91 | the budget of n spans is at most n * (max_attempts + k-1) + min(k-1, max_attempts-1), and just that when a lock is no longer than the window |
| Rates.BudgetAttained | src/krb5_token_service/ratelimit.py:71-94 | for every setting, k and period a lane run without a success spends the whole budget; Realizations.ServiceBudgetAttained makes it a run of the service |
| Locks.FailureKeepsLock | src/krb5_token_service/ratelimit.py:90-91 | a bad password never removes a lock or moves it earlier |
| Locks.OneAtATime | src/krb5_token_service/ratelimit.py:75-94 | with one attempt at a time nothing but refusals happens before a lock's end |
| Locks.ExactRetry | src/krb5_token_service/ratelimit.py:71-81 | a refusal reports a delay in (0, lockout]; with only checks following, those earlier are refused, the first at or after it passes and leaves no history |
| Locks.PruningIsLossless | src/krb5_token_service/ratelimit.py:86-91 | over every run a limiter that never prunes gives the same answers and locks, and the pruned list is its history seen through the window |
| Interleaving.ProjectionKeepsAnswers | src/krb5_token_service/app.py:211-231 | removing all other usernames, keytab-mode mints and renewals from any run leaves a legal run with the same answers for the username |
| Interleaving.LaneRuns | src/krb5_token_service/app.py:214-269 | every interleaved run of the service, seen from one username, is a run of a lane |
| Interleaving.CountsAgree | src/krb5_token_service/app.py:268-269 | bad passwords and successes counted on the service are those counted on the lane, both ways |
| Interleaving.ServiceRateBound | src/krb5_token_service/app.py:214-269 | the concurrent and long-run bounds for the service, over all interleavings and all subprocess outcomes |
| Interleaving.ServiceInvariant | src/krb5_token_service/ratelimit.py:73-91 | the invariant with in-flight attempts holds at every moment of every run |
| Interleaving.LockPersists | src/krb5_token_service/app.py:343-344 | if a username is locked at some moment of a run and a later password job of it passes `check` before that lock's end, an attempt already in flight at that moment succeeded in between |
| Segments.MintRefines | src/krb5_token_service/app.py:211-347 | the mint handler is the Begin and End of module Interleaving: its table at the pause and at the end are theirs, whatever other tasks did between; a request turned away before the limiter leaves the table alone |
| Segments.KeytabRefines | src/krb5_token_service/app.py:530-600 | the same for the keytab handler |
| Realizations.EveryLaneRun | src/krb5_token_service/app.py:214-269 | every lane run from idle is what a username sees of some run of the service from its start |
| Realizations.ServiceBudgetAttained | src/krb5_token_service/ratelimit.py:71-94 | the rate bound is exact: for every setting, username, k and period a run of the service without a success spends the whole budget |
| Realizations.ReplicaBound | charts/krb5-token-service/values.yaml:10-18 | N independent replicas of the service give at most N times the budget of a period |
| Realizations.ReplicaBudgetAttained | charts/krb5-token-service/values.yaml:10-18 | N replicas can spend N budgets in one period, whatever its length |
| Minting.StripKeepsClass | src/krb5_token_service/minting.py:376-382 | stripping stderr never changes how it is classified |
| Minting.ContainsIff | src/krb5_token_service/minting.py:217-272 | a marker is found exactly when the text has it between two other parts |
| Minting.FirstMarkerDecides | src/krb5_token_service/minting.py:181-272 | a failed child means what the first of its job's markers found in its raw stderr means |
| Minting.Classify | src/krb5_token_service/minting.py:217-272 | which exceptions each of the four classifiers can give |
| Minting.BadPasswordIff | src/krb5_token_service/minting.py:217-272 | exactly when a job reports a bad password; never for a keytab mint or a renewal |
| Minting.UsesPasswordIff | src/krb5_token_service/minting.py:76-86 | the jobs that count against an account are exactly those that can end in a bad password on some machine |
| Minting.OtherFailuresIff | src/krb5_token_service/minting.py:217-248 | exactly which raw stderr of which job means a bad keytab, an unknown principal, a revoked account, an expired password or an expired ticket |
| Minting.SuccessIff | src/krb5_token_service/minting.py:404-413 | exactly when a job succeeds |
| Minting.OkHolds | src/krb5_token_service/minting.py:404-428 | a success hands back the bytes the child left and, for a ticket, what that very file says |
| Minting.OutcomePossible | src/krb5_token_service/minting.py:317-574 | every result a job can have, by job |
| Minting.ZeroBytes | src/krb5_token_service/minting.py:132-140 | the whole buffer is zero afterwards |
| Minting.WithNewline | src/krb5_token_service/minting.py:353-354 | the stdin buffer is the secret followed by one newline |
| Minting.Conclude | src/krb5_token_service/minting.py:375-413 | the result of a child's exit, stderr and output file; a success holds that file's bytes and facts |
| Minting.MintTicket | src/krb5_token_service/minting.py:317-428 | the outcome; the child's argv, stdin and keytab file; both buffers zero at exit on every path past mkdir, untouched before |
| Minting.MintKeytab | src/krb5_token_service/minting.py:493-574 | the same for the keytab bootstrap |
| Minting.RenewTicket | src/krb5_token_service/minting.py:431-490 | the outcome; kinit is started only for a ccache that parses, on a staged copy of it |
| Minting.PasswordOutlivesMkdir | src/krb5_token_service/minting.py:346-354 | when the root directory cannot be made, the caller's buffer still holds the secret |
| App.ExactlyOne | src/krb5_token_service/app.py:63-67 | a request with both or neither credential is turned away |
| App.Accept | src/krb5_token_service/app.py:56-67 | an accepted body is the request with the same username, lifetimes and one credential |
| Replies.ClausesFit | src/krb5_token_service/app.py:268-594 | mint, renew and keytab have a clause for exactly what their jobs' stderr can mean, MintingError, and for renew CcacheParseError |
| Replies.FailureIsAnswered | src/krb5_token_service/minting.py:375-402 | a child that fails is always answered with a status by the handler that started it |
| Replies.EscapeIff | src/krb5_token_service/app.py:259-341 | exactly which machine conditions make an exception escape a handler |
| Replies.StatusMeaning | src/krb5_token_service/app.py:259-474 | which machines give 200, 400, 403, 422 and 502, both ways, by the child's exit, the first marker in its raw stderr, and its file; a job gives no other status |
| Replies.SuccessMeaning | src/krb5_token_service/app.py:347-353 | a 200 carries the file the child left, under the principal that file names, or for a keytab username@realm |
| Replies.SaidTexts | src/krb5_token_service/app.py:268-325 | the status and text for each thing a failed child can have said |
| Replies.FaultTexts | src/krb5_token_service/app.py:327-465 | the texts of 502, by handler, and of 422 for a renewal |
| Replies.MintCanEscape | src/krb5_token_service/ccache.py:40-42 | a mint whose kinit succeeds and leaves no ccache ends without a status |
| Replies.BadPasswordCanBeLost | src/krb5_token_service/minting.py:356 | a bad password is neither answered nor counted when the private directory cannot be removed |
| Replies.RenewalCanBlameCaller | src/krb5_token_service/minting.py:482 | a renewal of a good ccache is answered 422 when kinit leaves a bad one |
| App.Service.Authenticate | src/krb5_token_service/app.py:140-171 | a request without a verified token ends in 401 or 502 with its one audit event, or escapes without one when verification crashes |
| App.Service.AdmitMint | src/krb5_token_service/app.py:173-257 | who is turned away with which 422 or with 429 before a job, and the limiter's table after `check` |
| App.Service.OpenMint | src/krb5_token_service/app.py:140-257 | who is turned away before a job starts, with the token or after it, and the event and limiter table then |
| App.Service.RunMint | src/krb5_token_service/app.py:192-267 | the job's outcome; the kinit that is started: argv with the request's or the configured lifetimes and the principal, and the request's own secret |
| App.Service.SettleMint | src/krb5_token_service/app.py:268-353 | the reply, the audit event or none, and the limiter's mark, for every result, clause by clause; a bad password is the username's latest failure, a password success forgets it, nobody else is touched |
| App.Service.CloseMint | src/krb5_token_service/app.py:259-353 | the handler from its suspension on: the child it starts, its reply with what that child left, and the limiter's mark |
| App.Service.Mint | src/krb5_token_service/app.py:128-353 | the whole handler: reply, audit correspondence, the exact child it starts or that none starts, and the limiter's table at the pause and at the end |
| App.Service.PostMint | src/krb5_token_service/app.py:56-353 | the endpoint: 422 without an event for a body without exactly one credential; otherwise one event unless verification crashed or the job escapes |
| App.Service.Renew | src/krb5_token_service/app.py:356-474 | the whole handler, which never touches the limiter; the exact child it starts; a 200 holds the new file; one event unless verification crashed or the job escapes |
| App.Service.SettleRenewal | src/krb5_token_service/app.py:424-474 | the reply and audit event or none, for every result, clause by clause |
| App.Service.SettleKeytab | src/krb5_token_service/app.py:565-613 | the reply, audit event or none, and limiter mark, for every result, clause by clause; a bad password is the username's latest failure and a success forgets it |
| App.Service.RunKeytab | src/krb5_token_service/app.py:564-566 | the job's outcome; the cern-get-keytab that is started, with the request's username and password |
| App.Service.MakeKeytab | src/krb5_token_service/app.py:477-613 | the whole handler, sharing the limiter; one event unless verification crashed or the job escapes |
| Usernames.NoRealmSmuggled | src/krb5_token_service/minting.py:143-152 | a principal built from a valid username can only be cut into that username and the service's realm |
| Usernames.UsernameIff | src/krb5_token_service/minting.py:147-152 | the rule accepts exactly what the source's pattern matches |
| Usernames.ListedUsernames | tests/test_minting.py:45-62 | the usernames the tests list as good and bad |
| Keys.SelectJwk | src/krb5_token_service/identity.py:181-192 | the loop stops at the first key with the kid or at an entry that is no object, or takes the only key when there is no kid |
| Keys.SelectFinds | src/krb5_token_service/identity.py:187-191 | the first entry that is no object or carries the kid decides: a crash or that key; without one there is no key |
| Keys.KeylessIff | src/krb5_token_service/identity.py:192 | without a kid the answer is the one entry of a list of one, whatever it is, and otherwise no key |
| Keys.OrderFreeIff | src/krb5_token_service/identity.py:138-143 | the answer is the same for every permutation of the list if and only if no two different keys carry the kid and none that does stands beside an entry that is no object |
| Jwks.Cache.Look | src/krb5_token_service/identity.py:95-99 | the first look: the slot's keys while within ttl |
| Jwks.Cache.Enter | src/krb5_token_service/identity.py:101-106 | the second look under the lock, which is kept only by a task about to fetch |
| Jwks.Cache.Complete | src/krb5_token_service/identity.py:108-117 | store, stale answer or error after a fetch; the lock is free again in every case |
| Jwks.ReachableInv | src/krb5_token_service/identity.py:101-117 | the holder alone is fetching, what it saw is still the slot, the slot is the last entry stored, stores are more than ttl apart |
| Jwks.SingleFlight | src/krb5_token_service/identity.py:101 | at most one fetch is in flight at any moment of any interleaving |
| Jwks.RefreshSpacing | src/krb5_token_service/identity.py:101-117 | consecutive refreshes are more than ttl apart; a span T holds at most floor(T/ttl)+1 |
| Jwks.AnswersAgree | src/krb5_token_service/identity.py:95-117 | every list returned is the slot and the latest successful fetch, within ttl, just fetched, or after the task's own failed fetch; an error only if no fetch ever succeeded |
| Jwks.NextMove | src/krb5_token_service/identity.py:95-117 | what each task does next at every moment: keys at once while within ttl, else wait; under the lock keys if within ttl by then, else fetch; store, stale answer or error |
| Jwks.SomeStep | src/krb5_token_service/identity.py:98-117 | until every task is done some step is enabled |
| Jwks.AllFinish | src/krb5_token_service/identity.py:98-117 | n tasks take at most 3n steps, and a run that cannot go on has all of them done and the lock free |
| Jwks.OneFetchEach | src/krb5_token_service/identity.py:108-109 | each task makes at most one fetch |
| Lifetimes.ScanIff | src/krb5_token_service/minting.py:155-165 | the scanner finds exactly the well-formed decomposition that prints as the string |
| Lifetimes.ScannerIsRegex | src/krb5_token_service/minting.py:161-170 | the scanner accepts exactly the regular expression's language without the empty string |
| Lifetimes.UniqueDecomposition | src/krb5_token_service/minting.py:155-165 | an accepted string has one shape and one decomposition into digit fields |
| Lifetimes.ClockIff | src/krb5_token_service/minting.py:163 | hours and minutes are accepted exactly with one to three digits and two |
| CcacheFixtures.WritePrincipal | tests/ccache_fixtures.py:26-32 | the loop writes the layout of a principal |
| CcacheFixtures.WriteCredential | tests/ccache_fixtures.py:41-63 | the steps write the layout of a credential |
| CcacheFixtures.BuildCcache | tests/ccache_fixtures.py:66-112 | the bytes are the layout of the default principal, the config entry and, if included, the ticket |
| CcacheFixtures.FixtureLayout | tests/ccache_fixtures.py:22-112 | every byte of what the writer writes, in order, with numbers and lengths the most significant octet first |
| Ccache.ReadCachePacked | tests/ccache_fixtures.py:22-112 | decoding the layout of any cache whose fields fit gives that cache back |
| Ccache.ReadInfo | src/krb5_token_service/ccache.py:54-88 | the default principal first, whose realm must be UTF-8; then credentials are read until the first ticket-granting ticket that is no config entry |
| Ccache.ReadableIff | src/krb5_token_service/ccache.py:63-88 | on a file that can be read to its end: exactly what is reported, the times of the first credential whose server is krbtgt/REALM@REALM and that is no config entry |
| Ccache.OthersIgnored | src/krb5_token_service/ccache.py:70-74 | a credential for any other server, anywhere in the file, changes nothing |
| Ccache.JunkIgnored | src/krb5_token_service/ccache.py:70-84 | what follows the ticket is never read, whatever it is |
| Ccache.HeaderFieldsIgnored | src/krb5_token_service/ccache.py:63-66 | header fields change nothing |
| Ccache.NoCcache | src/krb5_token_service/ccache.py:85-86 | bytes without the version, or without the header they announce, are unreadable |
| Utf8.ValidIff | src/krb5_token_service/ccache.py:67 | the bytes a realm may be are exactly the encodings of code points that are no surrogates |
| Ccache.InfoOfCache | src/krb5_token_service/ccache.py:63-88 | on a file that can be read to its end, the answer is decided by the realm and the first ticket-granting ticket in the whole file |
| Ccache.ScanFindsFirst | src/krb5_token_service/ccache.py:70-84 | reading credentials one by one finds the first ticket-granting ticket of the decoded list |
| CcacheFixtures.FixtureRoundTrip | src/krb5_token_service/ccache.py:63-88 | reading back what the writer wrote gives username@realm and the ticket's times, renewal None iff 0; it finds nothing exactly when the ticket is omitted or the realm is the config entries'; a realm that is not UTF-8 is the decoding error |
| Shell.QuoteDenotes | etc/cern-get-keytab.patch:33 | any string, quoted, is read back by the shell as that one word |
| Shell.QuoteUnchangedIff | etc/cern-get-keytab.patch:33 | a string stays unquoted exactly when it is not empty and holds only letters, digits and _@%+=:,./- |
| Shell.LineLexes | etc/cern-get-keytab:310 | a line the shell can read and a quoted word after it are read as the line's words and that one |
| Shell.PlainWordsLex | etc/cern-get-keytab:310 | words of safe characters joined with blanks are read back as those words |
| Shell.ReadHoldsNoMeta | etc/cern-get-keytab:310 | a line without quotes that can be read holds no character the shell acts on |
| KeytabTool.TakenIff | etc/cern-get-keytab.patch:55-56 | the script takes the piped password exactly when it is one line |
| KeytabTool.TakenIs | etc/cern-get-keytab.patch:55-56 | what the script takes is what stands before the first newline or carriage return |
| KeytabTool.BuildProgram | etc/cern-get-keytab:233-263 | the appends up to the flags give the words in order |
| KeytabTool.CallMsktutil | etc/cern-get-keytab:211-310 | the command line for any values: the pieces that are present, in order, and the password quoted |
| KeytabTool.UserMode | etc/cern-get-keytab:777-809 | what becomes of a password taken from standard input, for any values |
| KeytabTool.DeliveredIff | etc/cern-get-keytab.patch:33-56 | after whatever words the rest of the command is read as, the password reaches msktutil unchanged as its own argument exactly when it is a non-empty line without NUL |
| KeytabTool.PlainReads | etc/cern-get-keytab:233-310 | for plain values those words are the expected ones, the last before the password being --old-account-password |
| KeytabTool.WordsShape | etc/cern-get-keytab:233-310 | the program comes first, after the assignment if there is one; the password's option last; and how many words there are |
| KeytabTool.WordsSay | etc/cern-get-keytab:252-301 | --base, --keytab, --server, --enctypes and --account-name each occur once, before their own value, and only if it is present |
| KeytabTool.FlagsSay | etc/cern-get-keytab:250-299 | the fixed options occur once each, --verbose by the two flags |

## Left out

- HTTP routing, body parsing up to the request model's credential check, TLS and the HTTP client.
- JWT signature and claim checks: verification is an oracle with four answers, of which module Keys covers the choice of the key.
- Base64: a request carries the result of decoding.
- kinit, msktutil, the KDC and libkrb5: their results are data in `Minting.Host`; how libkrb5 escapes unusual names is a parameter of `Ccache.Info`.
- Task cancellation, several event loops, and the order in which waiters get the lock: any waiting task may get a free lock.
- Logging, redaction, settings, health probes, the chart and the container image.
- The host-keytab branches of cern-get-keytab, its argument parser, and its output after the command has run.
- UTF-8: passwords reach the subprocess as bytes and the shell as characters.
- Unicode digits, which the lifetime pattern's `\d` also matches: the grammar is over ASCII digits.
- Floating-point rounding of clock values.
- The text of a 429 reply, which carries the rounded delay.
- CcacheFixtures.FixtureRoundTrip, Ccache.OthersIgnored: cover plain names only; libkrb5 escapes other names in ways that are a parameter here.
- Interleaving.LockPersists: counts an attempt as started when `check` passes, which includes attempts whose subprocess then fails to start.
- Shell expansions, operators, comments and backslashes: a command line that uses them is outside `Shell.Lex`, and `KeytabTool.UserMode` then ends as Unread.
- KeytabTool.WordsSay, KeytabTool.FlagsSay: do not cover a keytab path, server or encryption type that is itself one of the option words, which then occurs twice.

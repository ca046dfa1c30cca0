/**
 How long a lock lasts over whole runs of a lane, what the reported retry time promises, and that
 pruning old failures never changes an answer.
 */
module Locks {
  import opened Options
  import opened RateLimit
  import opened Lanes

  /** A bad password never moves a lock earlier and never removes it. */
  lemma FailureKeepsLock(limits: Limits, k: nat, lane: Lane, e: Event)
    requires limits.Valid() && Inv(limits, k, lane) && Enabled(lane, e) && e.kind == Fail
    requires lane.user.lockedUntil.Some?
    ensures var after := Step(limits, lane, e).user.lockedUntil;
            after.Some? && lane.user.lockedUntil.value <= after.value <= e.at + limits.lockout
  {
  }

  lemma {:induction false} LaterThan(limits: Limits, k: nat, lane: Lane, trace: seq<Event>, i: nat)
    requires Run(limits, k, lane, trace) && i < |trace|
    ensures lane.now <= trace[0].at <= trace[i].at
    decreases |trace|
  {
    if i > 0 {
      LaterThan(limits, k, Step(limits, lane, trace[0]), trace[1..], i - 1);
    }
  }

  /** With one attempt at a time a lock ends only by expiry: no success can come before that. */
  lemma {:induction false} OneAtATime(limits: Limits, lane: Lane, trace: seq<Event>, i: nat)
    requires limits.Valid() && Inv(limits, 1, lane) && lane.user.lockedUntil.Some? && Run(limits, 1, lane, trace)
    requires i < |trace| && trace[i].at < lane.user.lockedUntil.value
    ensures trace[i].kind == Refuse
    decreases |trace|
  {
    LaterThan(limits, 1, lane, trace, i);
    if i > 0 {
      StepKeepsInv(limits, 1, lane, trace[0]);
      OneAtATime(limits, Step(limits, lane, trace[0]), trace[1..], i - 1);
    }
  }

  /** Only checks: no attempt ends. */
  ghost predicate OnlyChecks(trace: seq<Event>) {
    forall e :: e in trace ==> e.kind == Refuse || e.kind == Launch
  }

  ghost predicate AllRefused(trace: seq<Event>) {
    forall e :: e in trace ==> e.kind == Refuse
  }

  lemma {:induction false} ChecksWait(limits: Limits, k: nat, lane: Lane, until: real, waiting: seq<Event>, i: nat)
    requires lane.user.lockedUntil == Some(until) && Run(limits, k, lane, waiting) && OnlyChecks(waiting)
    requires i < |waiting| && AllRefused(waiting[..i])
    ensures waiting[i].kind == Refuse <==> waiting[i].at < until
    decreases i
  {
    assert waiting[i] in waiting;
    if i > 0 {
      assert waiting[0] in waiting[..i];
      assert waiting[1..][..i - 1] == waiting[..i][1..];
      ChecksWait(limits, k, Step(limits, lane, waiting[0]), until, waiting[1..], i - 1);
    }
  }

  /**
   The retry time is exact: after any run from idle, a refused check at `now` reports a delay in
   (0, lockout]; and with only checks following, those before now + delay are refused, the first
   one at or after it passes and leaves an empty history.
   */
  lemma ExactRetry(limits: Limits, k: nat, start: real, past: seq<Event>, now: real, waiting: seq<Event>, i: nat)
    requires limits.Valid() && k > 0 && Run(limits, k, IdleAt(start), past)
    requires var lane := Final(limits, k, IdleAt(start), past);
             && lane.now <= now && Ask(lane.user, now).Refused?
             && Run(limits, k, lane.(now := now), waiting) && OnlyChecks(waiting)
    requires i < |waiting| && AllRefused(waiting[..i])
    ensures var lane := Final(limits, k, IdleAt(start), past);
            var delay := Ask(lane.user, now).retryAfter;
            && 0.0 < delay <= limits.lockout
            && (waiting[i].kind == Refuse <==> waiting[i].at < now + delay)
            && (waiting[i].kind == Launch ==> UserAfter(limits, lane.user, waiting[i]) == FRESH)
  {
    var lane := Final(limits, k, IdleAt(start), past);
    ReachableInv(limits, k, IdleAt(start), past);
    ChecksWait(limits, k, lane.(now := now), lane.user.lockedUntil.value, waiting, i);
  }

  // ---------------------------------------------------------------------------------------
  // Pruning is lossless
  // ---------------------------------------------------------------------------------------

  /** A limiter that forgets nothing between clears and looks through its window only to decide. */
  datatype Ledger = Ledger(history: seq<real>, lockedUntil: Option<real>)

  function LedgerAfter(limits: Limits, l: Ledger, e: Event): Ledger {
    match e.kind
    case Fail =>
      var history := l.history + [e.at];
      Ledger(history, if |Recent(history, e.at, limits.window)| >= limits.maxAttempts
                      then Some(e.at + limits.lockout) else l.lockedUntil)
    case Succeed => Ledger([], None)
    case Abandon => l
    case _ => if l.lockedUntil.Some? && l.lockedUntil.value <= e.at then Ledger([], None) else l
  }

  /** The never-pruning limiter gives, at every check of the trace, the answer the trace has. */
  ghost predicate LedgerGivesAnswers(limits: Limits, l: Ledger, trace: seq<Event>)
    decreases |trace|
  {
    trace == [] ||
    (var passes := l.lockedUntil == None || l.lockedUntil.value <= trace[0].at;
     && (trace[0].kind == Launch ==> passes)
     && (trace[0].kind == Refuse ==> !passes)
     && LedgerGivesAnswers(limits, LedgerAfter(limits, l, trace[0]), trace[1..]))
  }

  function LedgerFinal(limits: Limits, l: Ledger, trace: seq<Event>): Ledger
    decreases |trace|
  {
    if trace == [] then l else LedgerFinal(limits, LedgerAfter(limits, l, trace[0]), trace[1..])
  }

  /** The stored failures are the full history seen through the window of its last failure. */
  ghost predicate Agree(limits: Limits, lane: Lane, l: Ledger) {
    && lane.user.lockedUntil == l.lockedUntil
    && if l.history == [] then lane.user.failures == []
       else
         var last := l.history[|l.history| - 1];
         last <= lane.now && lane.user.failures == Recent(l.history, last, limits.window)
  }

  lemma {:induction false} RecentTwice(times: seq<real>, earlier: real, later: real, window: real)
    requires earlier <= later
    ensures Recent(Recent(times, earlier, window), later, window) == Recent(times, later, window)
  {
    if times != [] {
      var rest := Recent(times[1..], earlier, window);
      RecentTwice(times[1..], earlier, later, window);
      assert [] + rest == rest && ([times[0]] + rest)[1..] == rest;
      assert [] + Recent(times[1..], later, window) == Recent(times[1..], later, window);
    }
  }

  lemma {:induction false} RecentAppend(times: seq<real>, now: real, window: real)
    requires window > 0.0
    ensures Recent(times + [now], now, window) == Recent(times, now, window) + [now]
  {
    if times == [] {
      assert times + [now] == [now] && [now][1..] == [];
    } else {
      RecentAppend(times[1..], now, window);
      assert (times + [now])[1..] == times[1..] + [now];
    }
  }

  lemma StepAgrees(limits: Limits, lane: Lane, l: Ledger, e: Event)
    requires limits.Valid() && Agree(limits, lane, l) && Enabled(lane, e)
    ensures Agree(limits, Step(limits, lane, e), LedgerAfter(limits, l, e))
  {
    if e.kind == Fail {
      RecentAppend(l.history, e.at, limits.window);
      if l.history != [] {
        RecentTwice(l.history, l.history[|l.history| - 1], e.at, limits.window);
      }
    }
  }

  /**
   Over every run, the limiter that never prunes gives the same answer to every check, and ends
   with the same lock; the pruned list is its history seen through the window.
   */
  lemma {:induction false} PruningIsLossless(limits: Limits, k: nat, lane: Lane, l: Ledger, trace: seq<Event>)
    requires limits.Valid() && Agree(limits, lane, l) && Run(limits, k, lane, trace)
    ensures LedgerGivesAnswers(limits, l, trace)
    ensures Agree(limits, Final(limits, k, lane, trace), LedgerFinal(limits, l, trace))
    decreases |trace|
  {
    if trace != [] {
      StepAgrees(limits, lane, l, trace[0]);
      PruningIsLossless(limits, k, Step(limits, lane, trace[0]), LedgerAfter(limits, l, trace[0]), trace[1..]);
    }
  }
}

/**
 One username's view of the limiter while its password attempts overlap.

 A handler task calls `check`, suspends in a subprocess, and only later reports back, so a lane
 holds the username's limiter state and the number of attempts that passed `check` and have not
 ended. Module Interleaving proves that every interleaved run of the whole service, seen from one
 username, is a run of a lane, and module Realizations that every lane run is seen so.
 */
module Lanes {
  import opened Options
  import opened RateLimit

  /**
   Launch: `check` passed and the attempt started. Refuse: `check` raised. The rest end one
   attempt: Fail on a bad password, Succeed on a ticket or keytab, Abandon on anything else.
   */
  datatype Kind = Launch | Refuse | Fail | Succeed | Abandon
  datatype Event = Event(kind: Kind, at: real)
  datatype Lane = Lane(user: UserState, inFlight: nat, now: real)

  function IdleAt(start: real): Lane {
    Lane(FRESH, 0, start)
  }

  predicate Enabled(lane: Lane, e: Event) {
    lane.now <= e.at &&
    match e.kind
    case Launch => Ask(lane.user, e.at).Pass?
    case Refuse => Ask(lane.user, e.at).Refused?
    case _ => lane.inFlight > 0
  }

  function UserAfter(limits: Limits, s: UserState, e: Event): UserState {
    match e.kind
    case Launch => AfterAsk(s, e.at)
    case Refuse => AfterAsk(s, e.at)
    case Fail => AfterFailure(limits, s, e.at)
    case Succeed => FRESH
    case Abandon => s
  }

  function Step(limits: Limits, lane: Lane, e: Event): Lane
    requires Enabled(lane, e)
  {
    Lane(UserAfter(limits, lane.user, e),
         match e.kind
         case Launch => lane.inFlight + 1
         case Refuse => lane.inFlight
         case _ => lane.inFlight - 1,
         e.at)
  }

  /** A run: every step enabled, the clock never going back, never more than k attempts in flight. */
  ghost predicate Run(limits: Limits, k: nat, lane: Lane, trace: seq<Event>)
    decreases |trace|
  {
    trace == [] ||
    (Enabled(lane, trace[0]) &&
     Step(limits, lane, trace[0]).inFlight <= k &&
     Run(limits, k, Step(limits, lane, trace[0]), trace[1..]))
  }

  /** Bad passwords recorded in [from, to). */
  function FailsIn(trace: seq<Event>, from: real, to: real): nat {
    if trace == [] then 0
    else
      (if trace[0].kind == Fail && from <= trace[0].at < to then 1 else 0) + FailsIn(trace[1..], from, to)
  }

  /** No attempt succeeds in [from, to). */
  ghost predicate NoSuccessIn(trace: seq<Event>, from: real, to: real) {
    forall e :: e in trace && e.kind == Succeed ==> !(from <= e.at < to)
  }

  function Min(a: int, b: int): int {
    if a < b then a else b
  }

  function Max(a: int, b: int): int {
    if a < b then b else a
  }

  // ---------------------------------------------------------------------------------------
  // The budget of a period
  // ---------------------------------------------------------------------------------------

  function Span(limits: Limits): real {
    if limits.window < limits.lockout then limits.window else limits.lockout
  }

  function Ceil(x: real): int {
    -((-x).Floor)
  }

  /** How many Spans cover a period. */
  function Spans(limits: Limits, period: real): (n: nat)
    requires limits.Valid()
    ensures n > 0 <==> period > 0.0
  {
    if period <= 0.0 then 0
    else
      assert period / Span(limits) > 0.0;
      Ceil(period / Span(limits))
  }

  lemma SignOfFactor(a: real, b: real)
    requires b > 0.0 && a * b >= 0.0
    ensures a >= 0.0
  {
  }

  lemma FewerSpans(limits: Limits, period: real, gap: real)
    requires limits.Valid() && period > 0.0 && gap >= Span(limits)
    ensures Spans(limits, period - gap) < Spans(limits, period)
  {
    var span := Span(limits);
    var q, r := period / span, (period - gap) / span;
    assert (q - 1.0 - r) * span == gap - span;
    SignOfFactor(q - 1.0 - r, span);
  }

  /**
   The most bad passwords a period can hold when it starts with no history. At any moment
   maxAttempts - 1 are free; then it is best either to let a window pass, or to lock the username
   with k more and let the lock pass.
   */
  function Peak(limits: Limits, k: nat, period: real): nat
    requires limits.Valid()
    decreases Spans(limits, period)
  {
    if period <= 0.0 then 0
    else
      FewerSpans(limits, period, limits.window);
      FewerSpans(limits, period, limits.lockout);
      limits.maxAttempts - 1 +
      Max(Peak(limits, k, period - limits.window), k + Peak(limits, k, period - limits.lockout))
  }

  /**
   The most bad passwords any period can hold with at most k attempts in flight: also, once, those
   recorded under an expired lock that no `check` has cleared yet.
   */
  function Budget(limits: Limits, k: nat, period: real): int
    requires limits.Valid()
  {
    if period <= 0.0 then 0 else Peak(limits, k, period) + Min(k - 1, limits.maxAttempts - 1)
  }

  lemma {:induction false} PeakGrows(limits: Limits, k: nat, a: real, b: real)
    requires limits.Valid() && a <= b
    ensures Peak(limits, k, a) <= Peak(limits, k, b)
    decreases Spans(limits, b)
  {
    if a > 0.0 {
      FewerSpans(limits, b, limits.window);
      FewerSpans(limits, b, limits.lockout);
      PeakGrows(limits, k, a - limits.window, b - limits.window);
      PeakGrows(limits, k, a - limits.lockout, b - limits.lockout);
    }
  }

  // ---------------------------------------------------------------------------------------
  // The invariant of reachable lanes
  // ---------------------------------------------------------------------------------------

  ghost predicate Ordered(times: seq<real>, window: real, clock: real) {
    && (forall i, j :: 0 <= i < j < |times| ==> times[i] <= times[j])
    && (forall i :: 0 <= i < |times| ==> times[i] <= clock && times[|times| - 1] - times[i] < window)
  }

  /**
   Without a lock, fewer than maxAttempts failures are stored. With one, the stored failures and
   the attempts in flight together stay under maxAttempts + k, a slot is free, and the lock ends
   within lockout of now. Stored failures are in order and within the window of the last one.
   */
  ghost predicate Inv(limits: Limits, k: nat, lane: Lane) {
    && lane.inFlight <= k
    && Ordered(lane.user.failures, limits.window, lane.now)
    && match lane.user.lockedUntil
       case None => |lane.user.failures| < limits.maxAttempts
       case Some(until) =>
         && |lane.user.failures| + lane.inFlight <= limits.maxAttempts - 1 + k
         && lane.inFlight <= k - 1
         && until <= lane.now + limits.lockout
  }

  lemma {:induction false} RecentKeepsAll(times: seq<real>, now: real, window: real)
    requires forall i :: 0 <= i < |times| ==> now - times[i] < window
    ensures Recent(times, now, window) == times
  {
    if times != [] {
      RecentKeepsAll(times[1..], now, window);
    }
  }

  /** How many times at the front have left the window. */
  function Dropped(times: seq<real>, now: real, window: real): (n: nat)
    ensures n <= |times|
    ensures n < |times| ==> now - times[n] < window
    ensures forall i :: 0 <= i < n ==> now - times[i] >= window
  {
    if times == [] || now - times[0] < window then 0 else 1 + Dropped(times[1..], now, window)
  }

  /** On ordered times, pruning drops a prefix and nothing else. */
  lemma {:induction false} RecentDropsPrefix(times: seq<real>, now: real, window: real)
    requires forall i, j :: 0 <= i < j < |times| ==> times[i] <= times[j]
    ensures Recent(times, now, window) == times[Dropped(times, now, window)..]
  {
    if times == [] {
    } else if now - times[0] < window {
      RecentKeepsAll(times, now, window);
    } else {
      RecentDropsPrefix(times[1..], now, window);
      var rest := Recent(times[1..], now, window);
      assert [] + rest == rest;
    }
  }

  lemma SuffixInOrder(times: seq<real>, n: nat, now: real, window: real)
    requires forall i, j :: 0 <= i < j < |times| ==> times[i] <= times[j]
    requires n <= |times| && (n < |times| ==> now - times[n] < window)
    ensures forall i, j :: 0 <= i < j < |times[n..]| ==> times[n..][i] <= times[n..][j]
    ensures forall i :: 0 <= i < |times[n..]| ==> now - times[n..][i] < window
  {
    var kept := times[n..];
    assert forall i :: 0 <= i < |kept| ==> kept[i] == times[i + n];
    assert forall i :: 0 <= i < |kept| ==> kept[0] <= kept[i];
  }

  lemma AppendInOrder(kept: seq<real>, now: real, window: real)
    requires forall i, j :: 0 <= i < j < |kept| ==> kept[i] <= kept[j]
    requires forall i :: 0 <= i < |kept| ==> kept[i] <= now && now - kept[i] < window
    requires window > 0.0
    ensures Ordered(kept + [now], window, now)
  {
    var after := kept + [now];
    assert forall i :: 0 <= i < |kept| ==> after[i] == kept[i];
    assert after[|kept|] == now;
  }

  lemma FailureKeepsOrder(limits: Limits, clock: real, s: UserState, now: real)
    requires limits.Valid() && Ordered(s.failures, limits.window, clock) && clock <= now
    ensures Ordered(AfterFailure(limits, s, now).failures, limits.window, now)
    ensures |AfterFailure(limits, s, now).failures| <= |s.failures| + 1
  {
    var n := Dropped(s.failures, now, limits.window);
    RecentDropsPrefix(s.failures, now, limits.window);
    SuffixInOrder(s.failures, n, now, limits.window);
    assert forall i :: 0 <= i < |s.failures[n..]| ==> s.failures[n..][i] == s.failures[i + n];
    AppendInOrder(s.failures[n..], now, limits.window);
  }

  lemma StepKeepsInv(limits: Limits, k: nat, lane: Lane, e: Event)
    requires limits.Valid() && Inv(limits, k, lane) && Enabled(lane, e)
    requires Step(limits, lane, e).inFlight <= k
    ensures Inv(limits, k, Step(limits, lane, e))
  {
    if e.kind == Fail {
      FailureKeepsOrder(limits, lane.now, lane.user, e.at);
    }
  }

  /** The state a run ends in. */
  ghost function Final(limits: Limits, k: nat, lane: Lane, trace: seq<Event>): Lane
    requires Run(limits, k, lane, trace)
    decreases |trace|
  {
    if trace == [] then lane
    else Final(limits, k, Step(limits, lane, trace[0]), trace[1..])
  }

  /** Every lane reachable from an idle one satisfies the invariant. */
  lemma {:induction false} ReachableInv(limits: Limits, k: nat, lane: Lane, trace: seq<Event>)
    requires limits.Valid() && Inv(limits, k, lane) && Run(limits, k, lane, trace)
    ensures Inv(limits, k, Final(limits, k, lane, trace))
    decreases |trace|
  {
    if trace != [] {
      StepKeepsInv(limits, k, lane, trace[0]);
      ReachableInv(limits, k, Step(limits, lane, trace[0]), trace[1..]);
    }
  }

  // ---------------------------------------------------------------------------------------
  // No run exceeds the budget
  // ---------------------------------------------------------------------------------------

  function CountSince(times: seq<real>, from: real): nat {
    if times == [] then 0 else (if times[0] >= from then 1 else 0) + CountSince(times[1..], from)
  }

  lemma {:induction false} CountSinceBounds(times: seq<real>, from: real)
    ensures CountSince(times, from) <= |times|
    ensures (forall t :: t in times ==> t < from) ==> CountSince(times, from) == 0
  {
    if times != [] {
      assert forall t :: t in times[1..] ==> t in times;
      CountSinceBounds(times[1..], from);
      if forall t :: t in times ==> t < from {
        assert times[0] in times;
      }
    }
  }

  lemma {:induction false} CountSinceAppend(times: seq<real>, now: real, from: real)
    ensures CountSince(times + [now], from) == CountSince(times, from) + (if now >= from then 1 else 0)
  {
    if times == [] {
      assert times + [now] == [now];
    } else {
      CountSinceAppend(times[1..], now, from);
      assert (times + [now])[1..] == times[1..] + [now];
    }
  }

  /** Pruning at `now` keeps every failure that is less than a window old. */
  lemma {:induction false} CountSinceRecent(times: seq<real>, now: real, window: real, from: real)
    requires now - from < window
    ensures CountSince(Recent(times, now, window), from) == CountSince(times, from)
  {
    if times != [] {
      CountSinceRecent(times[1..], now, window, from);
      var rest := Recent(times[1..], now, window);
      assert [] + rest == rest && ([times[0]] + rest)[1..] == rest;
    }
  }

  /** A bad password inside the interval adds one to the failures counted there. */
  lemma FailureCounts(limits: Limits, s: UserState, now: real, from: real)
    requires from <= now < from + limits.window
    ensures CountSince(AfterFailure(limits, s, now).failures, from) == CountSince(s.failures, from) + 1
    ensures |AfterFailure(limits, s, now).failures| >= CountSince(s.failures, from) + 1
  {
    var kept := Recent(s.failures, now, limits.window);
    CountSinceRecent(s.failures, now, limits.window, from);
    CountSinceAppend(kept, now, from);
    CountSinceBounds(kept + [now], from);
  }

  ghost predicate AllBefore(times: seq<real>, from: real) {
    forall i :: 0 <= i < |times| ==> times[i] < from
  }

  /**
   What is known of a lane inside the period. Open: no lock, and a window began at `since`. Old: a
   lock from before the period is still stored, and a window began at `since`. Held: a lock is stored
   that the period itself paid for.
   */
  datatype Account = Open(since: real) | Old(since: real) | Held

  ghost predicate Fits(limits: Limits, k: nat, account: Account, lane: Lane) {
    && Inv(limits, k, lane)
    && (account.Open? <==> lane.user.lockedUntil == None)
    && (!account.Held? ==>
          && AllBefore(lane.user.failures, account.since + limits.window)
          && CountSince(lane.user.failures, account.since) < limits.maxAttempts)
  }

  /** How many more bad passwords the lane can record before `to` without a success. */
  ghost function Due(limits: Limits, k: nat, to: real, account: Account, lane: Lane): int
    requires limits.Valid() && Fits(limits, k, account, lane)
  {
    var spare := limits.maxAttempts - 1 -
                 (if account.Held? then 0 else CountSince(lane.user.failures, account.since));
    match account
    case Open(since) =>
      spare + Max(Peak(limits, k, to - since - limits.window), k + Peak(limits, k, to - since - limits.lockout))
    case Old(since) => Min(lane.inFlight, spare) + Peak(limits, k, to - since)
    case Held => lane.inFlight + Peak(limits, k, to - lane.user.lockedUntil.value)
  }

  /** The account after an event. */
  ghost function Booked(limits: Limits, account: Account, lane: Lane, e: Event): Account
    requires Enabled(lane, e)
  {
    match Step(limits, lane, e).user.lockedUntil
    case None => if account.Open? then account else Open(e.at)
    case Some(_) =>
      if e.kind == Fail && |AfterFailure(limits, lane.user, e.at).failures| >= limits.maxAttempts then Held else account
  }

  lemma {:induction false} NoneSince(times: seq<real>, from: real)
    requires AllBefore(times, from)
    ensures CountSince(times, from) == 0
  {
    if times != [] {
      NoneSince(times[1..], from);
    }
  }

  /** With no failure counted, an open account holds the whole of what is left. */
  lemma NewWindow(limits: Limits, k: nat, to: real, now: real, lane: Lane)
    requires limits.Valid() && Inv(limits, k, lane) && AllBefore(lane.user.failures, now + limits.window)
    requires CountSince(lane.user.failures, now) == 0 && now < to
    ensures lane.user.lockedUntil == None ==>
              Fits(limits, k, Open(now), lane) && Due(limits, k, to, Open(now), lane) == Peak(limits, k, to - now)
    ensures lane.user.lockedUntil.Some? ==>
              && Fits(limits, k, Old(now), lane)
              && Due(limits, k, to, Old(now), lane)
                 == Min(lane.inFlight, limits.maxAttempts - 1) + Peak(limits, k, to - now)
  {
  }

  /** What is due covers what is left a window later, an old lock's included. */
  lemma DueOutlasts(limits: Limits, k: nat, to: real, account: Account, lane: Lane)
    requires limits.Valid() && k > 0 && Fits(limits, k, account, lane) && !account.Held? && account.since < to
    ensures Due(limits, k, to, account, lane)
         >= (if account.Old? then limits.maxAttempts - 1 else 0) + Peak(limits, k, to - account.since - limits.window)
  {
  }

  /** A window that has passed frees maxAttempts - 1 again. */
  lemma NextWindow(limits: Limits, k: nat, to: real, account: Account, lane: Lane, now: real)
    requires limits.Valid() && k > 0 && Fits(limits, k, account, lane) && !account.Held?
    requires account.since + limits.window <= now < to
    ensures var next := account.(since := now);
            Fits(limits, k, next, lane) && Due(limits, k, to, next, lane) <= Due(limits, k, to, account, lane)
  {
    NoneSince(lane.user.failures, now);
    NewWindow(limits, k, to, now, lane);
    PeakGrows(limits, k, to - now, to - account.since - limits.window);
    DueOutlasts(limits, k, to, account, lane);
    assert account.(since := now) == if account.Open? then Open(now) else Old(now);
  }

  /** A failure that locks the username is paid for by the k that a lock may cost. */
  lemma FailLocks(limits: Limits, k: nat, to: real, account: Account, lane: Lane, e: Event)
    requires limits.Valid() && k > 0 && Fits(limits, k, account, lane) && Enabled(lane, e) && e.kind == Fail
    requires e.at < to && !account.Held? && account.since <= e.at
    requires |AfterFailure(limits, lane.user, e.at).failures| >= limits.maxAttempts
    ensures var after := Step(limits, lane, e);
            Fits(limits, k, Held, after) && Due(limits, k, to, Held, after) + 1 <= Due(limits, k, to, account, lane)
  {
    StepKeepsInv(limits, k, lane, e);
    PeakGrows(limits, k, to - (e.at + limits.lockout), to - account.since - limits.lockout);
  }

  /** One that does not is one of the maxAttempts - 1 that are free. */
  lemma FailIsFree(limits: Limits, k: nat, to: real, account: Account, lane: Lane, e: Event)
    requires limits.Valid() && k > 0 && Fits(limits, k, account, lane) && Enabled(lane, e) && e.kind == Fail
    requires !account.Held? && account.since <= e.at < account.since + limits.window
    requires |AfterFailure(limits, lane.user, e.at).failures| < limits.maxAttempts
    ensures var after := Step(limits, lane, e);
            && Fits(limits, k, account, after)
            && Due(limits, k, to, account, after) + 1 <= Due(limits, k, to, account, lane)
  {
    StepKeepsInv(limits, k, lane, e);
    FailureCounts(limits, lane.user, e.at, account.since);
  }

  lemma FailUnderHeld(limits: Limits, k: nat, to: real, lane: Lane, e: Event)
    requires limits.Valid() && k > 0 && Fits(limits, k, Held, lane) && Enabled(lane, e) && e.kind == Fail
    ensures var after := Step(limits, lane, e);
            Fits(limits, k, Held, after) && Due(limits, k, to, Held, after) + 1 <= Due(limits, k, to, Held, lane)
  {
    StepKeepsInv(limits, k, lane, e);
    PeakGrows(limits, k, to - (e.at + limits.lockout), to - lane.user.lockedUntil.value);
  }

  lemma FailSpends(limits: Limits, k: nat, to: real, account: Account, lane: Lane, e: Event)
    requires limits.Valid() && k > 0 && Fits(limits, k, account, lane) && Enabled(lane, e) && e.kind == Fail
    requires e.at < to && (!account.Held? ==> account.since <= e.at < account.since + limits.window)
    ensures var after := Step(limits, lane, e);
            && Fits(limits, k, Booked(limits, account, lane, e), after)
            && Due(limits, k, to, Booked(limits, account, lane, e), after) + 1 <= Due(limits, k, to, account, lane)
  {
    if account.Held? {
      FailUnderHeld(limits, k, to, lane, e);
    } else if |AfterFailure(limits, lane.user, e.at).failures| >= limits.maxAttempts {
      FailLocks(limits, k, to, account, lane, e);
    } else {
      FailIsFree(limits, k, to, account, lane, e);
    }
  }

  /** What is due under a lock covers what is left after its end. */
  lemma LockDue(limits: Limits, k: nat, to: real, account: Account, lane: Lane, now: real)
    requires limits.Valid() && Fits(limits, k, account, lane) && lane.user.lockedUntil.Some?
    requires if account.Old? then account.since <= now else lane.user.lockedUntil.value <= now
    ensures Peak(limits, k, to - now) <= Due(limits, k, to, account, lane)
  {
    PeakGrows(limits, k, to - now, to - (if account.Old? then account.since else lane.user.lockedUntil.value));
  }

  lemma LaunchClears(limits: Limits, k: nat, to: real, account: Account, lane: Lane, e: Event)
    requires limits.Valid() && k > 0 && Fits(limits, k, account, lane) && Enabled(lane, e)
    requires e.kind == Launch && lane.user.lockedUntil.Some? && lane.inFlight < k
    requires e.at < to && (!account.Held? ==> account.since <= e.at)
    ensures var after := Step(limits, lane, e);
            && after.user == FRESH && Fits(limits, k, Open(e.at), after)
            && Due(limits, k, to, Open(e.at), after) <= Due(limits, k, to, account, lane)
  {
    StepKeepsInv(limits, k, lane, e);
    NewWindow(limits, k, to, e.at, Step(limits, lane, e));
    LockDue(limits, k, to, account, lane, e.at);
  }

  lemma OthersSpend(limits: Limits, k: nat, to: real, account: Account, lane: Lane, e: Event)
    requires limits.Valid() && k > 0 && Fits(limits, k, account, lane) && Enabled(lane, e)
    requires e.kind != Fail && e.kind != Succeed && Step(limits, lane, e).inFlight <= k
    requires e.at < to && (!account.Held? ==> account.since <= e.at < account.since + limits.window)
    ensures var after := Step(limits, lane, e);
            && Fits(limits, k, Booked(limits, account, lane, e), after)
            && Due(limits, k, to, Booked(limits, account, lane, e), after) <= Due(limits, k, to, account, lane)
  {
    if lane.user.lockedUntil.Some? && e.kind == Launch {
      LaunchClears(limits, k, to, account, lane, e);
    } else {
      StepKeepsInv(limits, k, lane, e);
      assert Step(limits, lane, e).user == lane.user && Booked(limits, account, lane, e) == account;
    }
  }

  lemma {:induction false} NoFailsAfter(limits: Limits, k: nat, lane: Lane, trace: seq<Event>, from: real, to: real)
    requires Run(limits, k, lane, trace) && to <= lane.now
    ensures FailsIn(trace, from, to) == 0
    decreases |trace|
  {
    if trace != [] {
      NoFailsAfter(limits, k, Step(limits, lane, trace[0]), trace[1..], from, to);
    }
  }

  lemma DueIsLeft(limits: Limits, k: nat, to: real, account: Account, lane: Lane)
    requires limits.Valid() && Fits(limits, k, account, lane)
    ensures 0 <= Due(limits, k, to, account, lane)
  {
  }

  /** Inside the period every bad password is paid for by what is due. */
  lemma {:induction false} DueCovers(
    limits: Limits, k: nat, from: real, to: real, account: Account, lane: Lane, trace: seq<Event>)
    requires limits.Valid() && k > 0 && Fits(limits, k, account, lane)
    requires Run(limits, k, lane, trace) && NoSuccessIn(trace, from, to)
    requires trace != [] ==> from <= trace[0].at && (!account.Held? ==> account.since <= trace[0].at)
    ensures FailsIn(trace, from, to) <= Due(limits, k, to, account, lane)
    decreases |trace|
  {
    DueIsLeft(limits, k, to, account, lane);
    if trace == [] {
    } else if trace[0].at >= to {
      NoFailsAfter(limits, k, Step(limits, lane, trace[0]), trace[1..], from, to);
    } else {
      var e, current := trace[0], account;
      if !account.Held? && account.since + limits.window <= e.at {
        NextWindow(limits, k, to, account, lane, e.at);
        current := account.(since := e.at);
      }
      assert e in trace;
      if e.kind == Fail {
        FailSpends(limits, k, to, current, lane, e);
      } else {
        OthersSpend(limits, k, to, current, lane, e);
      }
      DueCovers(limits, k, from, to, Booked(limits, current, lane, e), Step(limits, lane, e), trace[1..]);
    }
  }

  lemma {:induction false} EmptyInterval(trace: seq<Event>, from: real, to: real)
    requires to <= from
    ensures FailsIn(trace, from, to) == 0
  {
    if trace != [] {
      EmptyInterval(trace[1..], from, to);
    }
  }

  /** What is due when the period starts. */
  lemma DueAtStart(limits: Limits, k: nat, from: real, to: real, lane: Lane) returns (account: Account)
    requires limits.Valid() && k > 0 && Inv(limits, k, lane) && AllBefore(lane.user.failures, from) && from < to
    ensures Fits(limits, k, account, lane) && !account.Held? && account.since == from
    ensures Due(limits, k, to, account, lane) <= Budget(limits, k, to - from)
  {
    NoneSince(lane.user.failures, from);
    NewWindow(limits, k, to, from, lane);
    account := if lane.user.lockedUntil == None then Open(from) else Old(from);
  }

  /**
   The rate bound: with at most k attempts of a username in flight at once, a half-open interval
   without a success holds at most the budget of its length.
   */
  lemma {:induction false} RateBound(limits: Limits, k: nat, from: real, to: real, lane: Lane, trace: seq<Event>)
    requires limits.Valid() && k > 0 && Inv(limits, k, lane) && AllBefore(lane.user.failures, from)
    requires Run(limits, k, lane, trace) && NoSuccessIn(trace, from, to)
    ensures FailsIn(trace, from, to) <= Budget(limits, k, to - from)
    decreases |trace|
  {
    if to <= from {
      EmptyInterval(trace, from, to);
    } else if trace == [] || trace[0].at >= from {
      var account := DueAtStart(limits, k, from, to, lane);
      DueCovers(limits, k, from, to, account, lane, trace);
    } else {
      StepKeepsInv(limits, k, lane, trace[0]);
      RateBound(limits, k, from, to, Step(limits, lane, trace[0]), trace[1..]);
    }
  }

  lemma PeakOfSpan(limits: Limits, k: nat, period: real)
    requires limits.Valid() && 0.0 < period <= Span(limits)
    ensures Peak(limits, k, period) == limits.maxAttempts - 1 + k
  {
    assert Peak(limits, k, period - limits.window) == 0 && Peak(limits, k, period - limits.lockout) == 0;
  }

  /**
   The concurrent budget: an interval no longer than min(window, lockout) without a success holds at
   most maxAttempts + (k-1) + min(k-1, maxAttempts-1) recorded bad passwords.
   */
  lemma ConcurrentBudget(limits: Limits, k: nat, from: real, to: real, lane: Lane, trace: seq<Event>)
    requires limits.Valid() && k > 0 && Inv(limits, k, lane) && AllBefore(lane.user.failures, from)
    requires Run(limits, k, lane, trace) && to <= from + Span(limits) && NoSuccessIn(trace, from, to)
    ensures FailsIn(trace, from, to) <= limits.maxAttempts + (k - 1) + Min(k - 1, limits.maxAttempts - 1)
  {
    RateBound(limits, k, from, to, lane, trace);
    if from < to {
      PeakOfSpan(limits, k, to - from);
    }
  }
}

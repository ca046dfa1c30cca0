/**
 What the budget of module Lanes comes to, and that it cannot be improved: for every setting, every
 k and every period there is a run that spends all of it.
 */
module Rates {
  import opened Options
  import opened RateLimit
  import opened Lanes

  // ---------------------------------------------------------------------------------------
  // Closed forms
  // ---------------------------------------------------------------------------------------

  /** What one lock costs: maxAttempts bad passwords and those in flight at the last one. */
  function Allowance(limits: Limits, k: nat): int {
    limits.maxAttempts + (k - 1)
  }

  lemma OneSpanFewer(limits: Limits, period: real)
    requires limits.Valid() && period > 0.0
    ensures Spans(limits, period - Span(limits)) == Spans(limits, period) - 1
  {
    var span := Span(limits);
    var q, r := period / span, (period - span) / span;
    assert (q - 1.0 - r) * span == 0.0;
    SignOfFactor(q - 1.0 - r, span);
    SignOfFactor(r - (q - 1.0), span);
    assert Ceil(r) == Ceil(q) - 1;
    if period <= span {
      assert (1.0 - q) * span == span - period;
      SignOfFactor(1.0 - q, span);
    }
  }

  lemma PeakIs(limits: Limits, k: nat, period: real)
    requires limits.Valid() && period > 0.0
    ensures Peak(limits, k, period)
         == limits.maxAttempts - 1 +
            Max(Peak(limits, k, period - limits.window), k + Peak(limits, k, period - limits.lockout))
  {
  }

  lemma PeakStep(limits: Limits, k: nat, period: real, shorter: real)
    requires limits.Valid() && k > 0 && period > 0.0 && shorter == period - Span(limits)
    ensures Peak(limits, k, period) <= Allowance(limits, k) + Peak(limits, k, shorter)
    ensures limits.lockout <= limits.window ==>
              Peak(limits, k, period) == Allowance(limits, k) + Peak(limits, k, shorter)
  {
    if limits.lockout <= limits.window {
      LockStep(limits, k, period);
    } else {
      WindowStep(limits, k, period);
    }
  }

  lemma LockStep(limits: Limits, k: nat, period: real)
    requires limits.Valid() && k > 0 && period > 0.0 && limits.lockout <= limits.window
    ensures Peak(limits, k, period) == Allowance(limits, k) + Peak(limits, k, period - limits.lockout)
  {
    PeakIs(limits, k, period);
    PeakGrows(limits, k, period - limits.window, period - limits.lockout);
  }

  lemma WindowStep(limits: Limits, k: nat, period: real)
    requires limits.Valid() && k > 0 && period > 0.0 && limits.window < limits.lockout
    ensures Peak(limits, k, period) <= Allowance(limits, k) + Peak(limits, k, period - limits.window)
  {
    PeakIs(limits, k, period);
    PeakGrows(limits, k, period - limits.lockout, period - limits.window);
  }

  /** n Spans cover a period. */
  predicate Covers(limits: Limits, n: nat, period: real)
    decreases n
  {
    period <= 0.0 || (n > 0 && Covers(limits, n - 1, period - Span(limits)))
  }

  lemma {:induction false} CoversLess(limits: Limits, n: nat, period: real, shorter: real)
    requires Covers(limits, n, period) && shorter <= period
    ensures Covers(limits, n, shorter)
    decreases n
  {
    if period > 0.0 {
      CoversLess(limits, n - 1, period - Span(limits), shorter - Span(limits));
    }
  }

  lemma {:induction false} SpansCover(limits: Limits, period: real)
    requires limits.Valid()
    ensures Covers(limits, Spans(limits, period), period)
    ensures period > 0.0 ==> !Covers(limits, Spans(limits, period) - 1, period)
    decreases Spans(limits, period)
  {
    if period > 0.0 {
      OneSpanFewer(limits, period);
      SpansCover(limits, period - Span(limits));
    }
  }

  /** Every Span begun costs at most an allowance, and just that when a lock is no longer than the window. */
  lemma {:induction false} PeakInSpans(limits: Limits, k: nat, n: nat, period: real)
    requires limits.Valid() && k > 0 && Covers(limits, n, period)
    ensures 0 <= Peak(limits, k, period) <= n * Allowance(limits, k)
    ensures limits.lockout <= limits.window && (n > 0 ==> !Covers(limits, n - 1, period)) ==>
              Peak(limits, k, period) == n * Allowance(limits, k)
    decreases n
  {
    if period > 0.0 {
      PeakStep(limits, k, period, period - Span(limits));
      PeakInSpans(limits, k, n - 1, period - Span(limits));
      OneMore(n, Allowance(limits, k));
    } else {
      assert 0 <= n * Allowance(limits, k);
    }
  }

  lemma OneMore(n: nat, a: int)
    requires n > 0
    ensures n * a == a + (n - 1) * a
  {
  }

  /** The rate bound for a run that starts with no history, and its closed forms. */
  lemma LongRunBound(limits: Limits, k: nat, start: real, from: real, period: real, trace: seq<Event>)
    requires limits.Valid() && k > 0
    requires Run(limits, k, IdleAt(start), trace) && NoSuccessIn(trace, from, from + period)
    ensures FailsIn(trace, from, from + period) <= Budget(limits, k, period)
    ensures k == 1 ==> FailsIn(trace, from, from + period) <= Spans(limits, period) * limits.maxAttempts
  {
    RateBound(limits, k, from, from + period, IdleAt(start), trace);
    BudgetInSpans(limits, k, period);
  }

  /**
   The budget of n Spans is at most n allowances and, once, min(k-1, maxAttempts-1); when a lock is no
   longer than the window it is just that.
   */
  lemma BudgetInSpans(limits: Limits, k: nat, period: real)
    requires limits.Valid() && k > 0
    ensures Budget(limits, k, period)
         <= Spans(limits, period) * Allowance(limits, k) + Min(k - 1, limits.maxAttempts - 1)
    ensures limits.lockout <= limits.window && period > 0.0 ==>
              Budget(limits, k, period)
              == Spans(limits, period) * Allowance(limits, k) + Min(k - 1, limits.maxAttempts - 1)
  {
    SpansCover(limits, period);
    PeakInSpans(limits, k, Spans(limits, period), period);
  }

  // ---------------------------------------------------------------------------------------
  // The budget is attained
  // ---------------------------------------------------------------------------------------

  /** n failures, all at t. */
  function Same(t: real, n: nat): seq<real> {
    seq(n, i => t)
  }

  lemma {:induction false} RunJoins(limits: Limits, k: nat, lane: Lane, a: seq<Event>, b: seq<Event>)
    requires Run(limits, k, lane, a) && Run(limits, k, Final(limits, k, lane, a), b)
    ensures Run(limits, k, lane, a + b)
    ensures Final(limits, k, lane, a + b) == Final(limits, k, Final(limits, k, lane, a), b)
    decreases |a|
  {
    if a == [] {
      assert a + b == b;
    } else {
      RunJoins(limits, k, Step(limits, lane, a[0]), a[1..], b);
      assert (a + b)[1..] == a[1..] + b;
    }
  }

  lemma {:induction false} FailsJoin(a: seq<Event>, b: seq<Event>, from: real, to: real)
    ensures FailsIn(a + b, from, to) == FailsIn(a, from, to) + FailsIn(b, from, to)
  {
    if a == [] {
      assert a + b == b;
    } else {
      FailsJoin(a[1..], b, from, to);
      assert (a + b)[1..] == a[1..] + b;
    }
  }

  /** n events of one kind, all at t. */
  function Copies(kind: Kind, t: real, n: nat): (trace: seq<Event>)
    ensures |trace| == n && forall e :: e in trace ==> e == Event(kind, t)
  {
    if n == 0 then [] else [Event(kind, t)] + Copies(kind, t, n - 1)
  }

  /** n times: one bad password, and another attempt in its place. */
  function Churn(t: real, n: nat): (trace: seq<Event>)
    ensures forall e :: e in trace ==> e.at == t && e.kind != Succeed
  {
    if n == 0 then [] else [Event(Fail, t), Event(Launch, t)] + Churn(t, n - 1)
  }

  /**
   At t the lane has p attempts in flight, this lock stored, and sees j failures in its window, all
   of them at t.
   */
  ghost predicate At(limits: Limits, lane: Lane, j: nat, lock: Option<real>, p: nat, t: real) {
    && lane.user.lockedUntil == lock && lane.inFlight == p && lane.now <= t
    && Recent(lane.user.failures, t, limits.window) == Same(t, j)
    && forall i :: 0 <= i < |lane.user.failures| ==> lane.user.failures[i] <= t
  }

  lemma {:induction false} LaunchesRun(limits: Limits, k: nat, lane: Lane, j: nat, p: nat, t: real, n: nat)
    requires At(limits, lane, j, None, p, t) && p + n <= k
    ensures Run(limits, k, lane, Copies(Launch, t, n))
    ensures At(limits, Final(limits, k, lane, Copies(Launch, t, n)), j, None, p + n, t)
    decreases n
  {
    if n > 0 {
      assert Copies(Launch, t, n)[1..] == Copies(Launch, t, n - 1);
      LaunchesRun(limits, k, Step(limits, lane, Event(Launch, t)), j, p + 1, t, n - 1);
    }
  }

  lemma FailAt(limits: Limits, lane: Lane, j: nat, lock: Option<real>, p: nat, t: real)
    requires limits.Valid() && At(limits, lane, j, lock, p, t) && p > 0
    ensures At(limits, Step(limits, lane, Event(Fail, t)), j + 1,
               if j + 1 >= limits.maxAttempts then Some(t + limits.lockout) else lock, p - 1, t)
  {
    assert Same(t, j) + [t] == Same(t, j + 1);
    RecentKeepsAll(Same(t, j + 1), t, limits.window);
  }

  /** n bad passwords; the one that makes maxAttempts and all after it lock the username. */
  lemma {:induction false} FailsRun(
    limits: Limits, k: nat, lane: Lane, j: nat, lock: Option<real>, p: nat, t: real, n: nat)
    requires limits.Valid() && At(limits, lane, j, lock, p, t) && n <= p <= k
    ensures Run(limits, k, lane, Copies(Fail, t, n))
    ensures At(limits, Final(limits, k, lane, Copies(Fail, t, n)), j + n,
               if n > 0 && j + n >= limits.maxAttempts then Some(t + limits.lockout) else lock, p - n, t)
    decreases n
  {
    if n > 0 {
      assert Copies(Fail, t, n)[1..] == Copies(Fail, t, n - 1);
      FailAt(limits, lane, j, lock, p, t);
      var next := if j + 1 >= limits.maxAttempts then Some(t + limits.lockout) else lock;
      FailsRun(limits, k, Step(limits, lane, Event(Fail, t)), j + 1, next, p - 1, t, n - 1);
    }
  }

  lemma {:induction false} ChurnRuns(limits: Limits, k: nat, lane: Lane, j: nat, t: real, n: nat)
    requires limits.Valid() && k > 0 && At(limits, lane, j, None, k, t) && j + n < limits.maxAttempts
    ensures Run(limits, k, lane, Churn(t, n))
    ensures At(limits, Final(limits, k, lane, Churn(t, n)), j + n, None, k, t)
    decreases n
  {
    if n > 0 {
      var failed := Step(limits, lane, Event(Fail, t));
      FailAt(limits, lane, j, None, k, t);
      assert Churn(t, n)[1..][1..] == Churn(t, n - 1) && Churn(t, n)[1..][0] == Event(Launch, t);
      ChurnRuns(limits, k, Step(limits, failed, Event(Launch, t)), j + 1, t, n - 1);
      assert Run(limits, k, failed, Churn(t, n)[1..]);
    }
  }

  lemma {:induction false} CopiesFail(kind: Kind, t: real, n: nat, from: real, to: real)
    ensures FailsIn(Copies(kind, t, n), from, to) == if kind == Fail && from <= t < to then n else 0
  {
    if n > 0 {
      assert Copies(kind, t, n)[1..] == Copies(kind, t, n - 1);
      CopiesFail(kind, t, n - 1, from, to);
    }
  }

  lemma {:induction false} ChurnFails(t: real, n: nat, from: real, to: real)
    ensures FailsIn(Churn(t, n), from, to) == if from <= t < to then n else 0
  {
    if n > 0 {
      var trace := Churn(t, n);
      assert trace[1..][1..] == Churn(t, n - 1);
      ChurnFails(t, n - 1, from, to);
      assert FailsIn(trace[1..], from, to) == FailsIn(trace[1..][1..], from, to);
    }
  }

  /** k attempts get in flight at t and maxAttempts - 1 bad passwords follow, each replaced at once. */
  function FillUp(limits: Limits, p: nat, k: nat, t: real): (trace: seq<Event>)
    requires p <= k && limits.maxAttempts > 0
    ensures forall e :: e in trace ==> e.kind != Succeed
  {
    Copies(Launch, t, k - p) + Churn(t, limits.maxAttempts - 1)
  }

  lemma FillUpRuns(limits: Limits, k: nat, lane: Lane, p: nat, t: real)
    requires limits.Valid() && p <= k && k > 0 && At(limits, lane, 0, None, p, t)
    ensures Run(limits, k, lane, FillUp(limits, p, k, t))
    ensures At(limits, Final(limits, k, lane, FillUp(limits, p, k, t)), limits.maxAttempts - 1, None, k, t)
  {
    var launches, churn := Copies(Launch, t, k - p), Churn(t, limits.maxAttempts - 1);
    assert FillUp(limits, p, k, t) == launches + churn;
    LaunchesRun(limits, k, lane, 0, p, t, k - p);
    var launched := Final(limits, k, lane, launches);
    ChurnRuns(limits, k, launched, 0, t, limits.maxAttempts - 1);
    RunJoins(limits, k, lane, launches, churn);
  }

  lemma FillUpFails(limits: Limits, p: nat, k: nat, t: real, from: real, to: real)
    requires p <= k && limits.maxAttempts > 0
    ensures FailsIn(FillUp(limits, p, k, t), from, to) == if from <= t < to then limits.maxAttempts - 1 else 0
  {
    CopiesFail(Launch, t, k - p, from, to);
    ChurnFails(t, limits.maxAttempts - 1, from, to);
    FailsJoin(Copies(Launch, t, k - p), Churn(t, limits.maxAttempts - 1), from, to);
  }

  /** The same, after the launch that clears an expired lock, if one is stored. */
  function Refill(limits: Limits, k: nat, p: nat, stored: bool, t: real): (trace: seq<Event>)
    requires p <= k && (stored ==> p < k) && limits.maxAttempts > 0
    ensures forall e :: e in trace ==> e.kind != Succeed
  {
    if stored then [Event(Launch, t)] + FillUp(limits, p + 1, k, t) else FillUp(limits, p, k, t)
  }

  /** A lane that may be refilled at t: an expired lock to clear, or no failure left in the window. */
  ghost predicate Ready(limits: Limits, lane: Lane, p: nat, stored: bool, t: real) {
    && lane.inFlight == p && lane.now <= t
    && if stored then lane.user.lockedUntil.Some? && lane.user.lockedUntil.value <= t
       else At(limits, lane, 0, None, p, t)
  }

  lemma RefillRuns(limits: Limits, k: nat, lane: Lane, p: nat, stored: bool, t: real)
    requires limits.Valid() && k > 0 && p <= k && (stored ==> p < k) && Ready(limits, lane, p, stored, t)
    ensures Run(limits, k, lane, Refill(limits, k, p, stored, t))
    ensures At(limits, Final(limits, k, lane, Refill(limits, k, p, stored, t)), limits.maxAttempts - 1, None, k, t)
  {
    if stored {
      assert Same(t, 0) == [];
      FillUpRuns(limits, k, Lane(FRESH, p + 1, t), p + 1, t);
      assert Step(limits, lane, Event(Launch, t)) == Lane(FRESH, p + 1, t);
      assert Refill(limits, k, p, stored, t)[1..] == FillUp(limits, p + 1, k, t);
    } else {
      FillUpRuns(limits, k, lane, p, t);
    }
  }

  lemma RefillFails(limits: Limits, k: nat, p: nat, stored: bool, t: real, from: real, to: real)
    requires p <= k && (stored ==> p < k) && limits.maxAttempts > 0 && from <= t < to
    ensures FailsIn(Refill(limits, k, p, stored, t), from, to) == limits.maxAttempts - 1
  {
    if stored {
      FillUpFails(limits, p + 1, k, t, from, to);
      FailsJoin([Event(Launch, t)], FillUp(limits, p + 1, k, t), from, to);
    } else {
      FillUpFails(limits, p, k, t, from, to);
    }
  }

  /** A refill, and the k bad passwords that lock the username, if they are wanted. */
  function Round(limits: Limits, k: nat, p: nat, stored: bool, t: real, lock: bool): (trace: seq<Event>)
    requires p <= k && (stored ==> p < k) && limits.maxAttempts > 0
    ensures forall e :: e in trace ==> e.kind != Succeed
  {
    Refill(limits, k, p, stored, t) + Copies(Fail, t, if lock then k else 0)
  }

  /** Rounds one after another, each followed by the wait for its lock's end or for a window. */
  function Play(limits: Limits, k: nat, p: nat, stored: bool, t: real, locks: seq<bool>): (trace: seq<Event>)
    requires k > 0 && p <= k && (stored ==> p < k) && limits.maxAttempts > 0
    ensures forall e :: e in trace ==> e.kind != Succeed
    decreases |locks|
  {
    if locks == [] then []
    else
      Round(limits, k, p, stored, t, locks[0]) +
      Play(limits, k, if locks[0] then 0 else k, locks[0], t + Wait(limits, locks[0]), locks[1..])
  }

  function Wait(limits: Limits, lock: bool): real {
    if lock then limits.lockout else limits.window
  }

  /** The bad passwords of these rounds. */
  function Yield(limits: Limits, k: nat, locks: seq<bool>): int {
    if locks == [] then 0
    else limits.maxAttempts - 1 + (if locks[0] then k else 0) + Yield(limits, k, locks[1..])
  }

  /** Every one of these rounds starts within the period. */
  predicate InTime(limits: Limits, locks: seq<bool>, period: real)
    decreases |locks|
  {
    locks == [] || (period > 0.0 && InTime(limits, locks[1..], period - Wait(limits, locks[0])))
  }

  /** The best rounds for a period. */
  function Best(limits: Limits, k: nat, period: real): seq<bool>
    requires limits.Valid()
    decreases Spans(limits, period)
  {
    if period <= 0.0 then []
    else
      FewerSpans(limits, period, limits.window);
      FewerSpans(limits, period, limits.lockout);
      if Peak(limits, k, period - limits.window) <= k + Peak(limits, k, period - limits.lockout)
      then [true] + Best(limits, k, period - limits.lockout)
      else [false] + Best(limits, k, period - limits.window)
  }

  lemma {:induction false} BestIsPeak(limits: Limits, k: nat, n: nat, period: real)
    requires limits.Valid() && Covers(limits, n, period)
    ensures InTime(limits, Best(limits, k, period), period)
    ensures Yield(limits, k, Best(limits, k, period)) == Peak(limits, k, period)
    decreases n
  {
    if period > 0.0 {
      var locks := Best(limits, k, period);
      var rest := period - Wait(limits, locks[0]);
      assert locks[1..] == Best(limits, k, rest);
      CoversLess(limits, n - 1, period - Span(limits), rest);
      BestIsPeak(limits, k, n - 1, rest);
    }
  }

  lemma WindowPasses(limits: Limits, lane: Lane, j: nat, p: nat, t: real)
    requires limits.Valid() && At(limits, lane, j, None, p, t)
    ensures Ready(limits, lane, p, false, t + limits.window)
  {
    AllDropped(lane.user.failures, t + limits.window, limits.window);
    assert Same(t + limits.window, 0) == [];
  }

  lemma {:induction false} AllDropped(times: seq<real>, now: real, window: real)
    requires forall i :: 0 <= i < |times| ==> now - times[i] >= window
    ensures Recent(times, now, window) == []
  {
    if times != [] {
      AllDropped(times[1..], now, window);
    }
  }

  lemma RoundRuns(limits: Limits, k: nat, lane: Lane, p: nat, stored: bool, t: real, lock: bool)
    requires limits.Valid() && k > 0 && p <= k && (stored ==> p < k) && Ready(limits, lane, p, stored, t)
    ensures Run(limits, k, lane, Round(limits, k, p, stored, t, lock))
    ensures Ready(limits, Final(limits, k, lane, Round(limits, k, p, stored, t, lock)), if lock then 0 else k, lock,
                  t + Wait(limits, lock))
  {
    var refill, fails := Refill(limits, k, p, stored, t), Copies(Fail, t, if lock then k else 0);
    RefillRuns(limits, k, lane, p, stored, t);
    var full := Final(limits, k, lane, refill);
    FailsRun(limits, k, full, limits.maxAttempts - 1, None, k, t, |fails|);
    RunJoins(limits, k, lane, refill, fails);
    if !lock {
      WindowPasses(limits, full, limits.maxAttempts - 1, k, t);
    }
  }

  lemma RoundFails(limits: Limits, k: nat, p: nat, stored: bool, t: real, lock: bool, from: real, to: real)
    requires p <= k && (stored ==> p < k) && limits.maxAttempts > 0 && from <= t < to
    ensures FailsIn(Round(limits, k, p, stored, t, lock), from, to)
         == limits.maxAttempts - 1 + if lock then k else 0
  {
    var n := if lock then k else 0;
    RefillFails(limits, k, p, stored, t, from, to);
    CopiesFail(Fail, t, n, from, to);
    FailsJoin(Refill(limits, k, p, stored, t), Copies(Fail, t, n), from, to);
  }

  lemma {:induction false} PlayRuns(
    limits: Limits, k: nat, lane: Lane, p: nat, stored: bool, t: real, locks: seq<bool>)
    requires limits.Valid() && k > 0 && p <= k && (stored ==> p < k) && Ready(limits, lane, p, stored, t)
    ensures Run(limits, k, lane, Play(limits, k, p, stored, t, locks))
    decreases |locks|
  {
    if locks != [] {
      var round, left := Round(limits, k, p, stored, t, locks[0]), if locks[0] then 0 else k;
      var next := t + Wait(limits, locks[0]);
      RoundRuns(limits, k, lane, p, stored, t, locks[0]);
      PlayRuns(limits, k, Final(limits, k, lane, round), left, locks[0], next, locks[1..]);
      RunJoins(limits, k, lane, round, Play(limits, k, left, locks[0], next, locks[1..]));
    }
  }

  lemma {:induction false} PlayFails(
    limits: Limits, k: nat, p: nat, stored: bool, t: real, locks: seq<bool>, from: real, to: real)
    requires limits.Valid() && k > 0 && p <= k && (stored ==> p < k)
    requires from <= t && InTime(limits, locks, to - t)
    ensures FailsIn(Play(limits, k, p, stored, t, locks), from, to) == Yield(limits, k, locks)
    decreases |locks|
  {
    if locks != [] {
      var round, left := Round(limits, k, p, stored, t, locks[0]), if locks[0] then 0 else k;
      var next := t + Wait(limits, locks[0]);
      RoundFails(limits, k, p, stored, t, locks[0], from, to);
      assert to - t - Wait(limits, locks[0]) == to - next;
      PlayFails(limits, k, left, locks[0], next, locks[1..], from, to);
      FailsJoin(round, Play(limits, k, left, locks[0], next, locks[1..]), from, to);
    }
  }

  /** When the spending starts: the old lock is over and the old failures are out of the window. */
  function SpendAt(limits: Limits): real {
    if limits.window < limits.lockout then limits.lockout else limits.window
  }

  /** At 0.0 the username is locked, with k - 1 attempts left in flight. */
  function Setup(limits: Limits, k: nat): seq<Event>
    requires limits.maxAttempts > 0
  {
    FillUp(limits, 0, k, 0.0) + [Event(Fail, 0.0)]
  }

  /** Some of the k - 1 fail at SpendAt, while the expired lock is still stored; the best rounds follow. */
  function Spending(limits: Limits, k: nat, period: real): seq<Event>
    requires limits.Valid() && k > 0
  {
    var early := Min(k - 1, limits.maxAttempts - 1);
    Copies(Fail, SpendAt(limits), early) +
    Play(limits, k, k - 1 - early, true, SpendAt(limits), Best(limits, k, period))
  }

  /** A run that spends the whole budget of a period. */
  function WorstRun(limits: Limits, k: nat, period: real): seq<Event>
    requires limits.Valid() && k > 0
  {
    Setup(limits, k) + Spending(limits, k, period)
  }

  lemma SetupRuns(limits: Limits, k: nat)
    requires limits.Valid() && k > 0
    ensures Run(limits, k, IdleAt(0.0), Setup(limits, k))
    ensures At(limits, Final(limits, k, IdleAt(0.0), Setup(limits, k)), limits.maxAttempts,
               Some(0.0 + limits.lockout), k - 1, 0.0)
  {
    var fill := FillUp(limits, 0, k, 0.0);
    assert Same(0.0, 0) == [];
    FillUpRuns(limits, k, IdleAt(0.0), 0, 0.0);
    var full := Final(limits, k, IdleAt(0.0), fill);
    FailAt(limits, full, limits.maxAttempts - 1, None, k, 0.0);
    assert Run(limits, k, full, [Event(Fail, 0.0)]);
    RunJoins(limits, k, IdleAt(0.0), fill, [Event(Fail, 0.0)]);
  }

  lemma SpendingRuns(limits: Limits, k: nat, lane: Lane, period: real)
    requires limits.Valid() && k > 0
    requires At(limits, lane, limits.maxAttempts, Some(0.0 + limits.lockout), k - 1, 0.0)
    ensures Run(limits, k, lane, Spending(limits, k, period))
  {
    var early, t, rounds := Min(k - 1, limits.maxAttempts - 1), SpendAt(limits), Best(limits, k, period);
    AllDropped(lane.user.failures, t, limits.window);
    assert Same(t, 0) == [];
    FailsRun(limits, k, lane, 0, lane.user.lockedUntil, k - 1, t, early);
    PlayRuns(limits, k, Final(limits, k, lane, Copies(Fail, t, early)), k - 1 - early, true, t, rounds);
    RunJoins(limits, k, lane, Copies(Fail, t, early), Play(limits, k, k - 1 - early, true, t, rounds));
  }

  lemma SetupFails(limits: Limits, k: nat, from: real, to: real)
    requires limits.maxAttempts > 0 && 0.0 < from
    ensures FailsIn(Setup(limits, k), from, to) == 0
  {
    FillUpFails(limits, 0, k, 0.0, from, to);
    FailsJoin(FillUp(limits, 0, k, 0.0), [Event(Fail, 0.0)], from, to);
  }

  lemma BestFails(limits: Limits, k: nat, p: nat, t: real, period: real)
    requires limits.Valid() && p < k
    ensures FailsIn(Play(limits, k, p, true, t, Best(limits, k, period)), t, t + period) == Peak(limits, k, period)
  {
    SpansCover(limits, period);
    BestIsPeak(limits, k, Spans(limits, period), period);
    PlayFails(limits, k, p, true, t, Best(limits, k, period), t, t + period);
  }

  lemma SpendingFails(limits: Limits, k: nat, period: real)
    requires limits.Valid() && k > 0 && period > 0.0
    ensures FailsIn(Spending(limits, k, period), SpendAt(limits), SpendAt(limits) + period) == Budget(limits, k, period)
  {
    var early, t := Min(k - 1, limits.maxAttempts - 1), SpendAt(limits);
    var wasted, best := Copies(Fail, t, early), Play(limits, k, k - 1 - early, true, t, Best(limits, k, period));
    assert Spending(limits, k, period) == wasted + best;
    CopiesFail(Fail, t, early, t, t + period);
    BestFails(limits, k, k - 1 - early, t, period);
    FailsJoin(wasted, best, t, t + period);
  }

  /** The budget is exact, for every setting, k and period: WorstRun has no success and spends all of it. */
  lemma BudgetAttained(limits: Limits, k: nat, period: real)
    requires limits.Valid() && k > 0 && period > 0.0
    ensures Run(limits, k, IdleAt(0.0), WorstRun(limits, k, period))
    ensures forall e :: e in WorstRun(limits, k, period) ==> e.kind != Succeed
    ensures FailsIn(WorstRun(limits, k, period), SpendAt(limits), SpendAt(limits) + period)
         == Budget(limits, k, period)
  {
    var t := SpendAt(limits);
    SetupRuns(limits, k);
    SpendingRuns(limits, k, Final(limits, k, IdleAt(0.0), Setup(limits, k)), period);
    RunJoins(limits, k, IdleAt(0.0), Setup(limits, k), Spending(limits, k, period));
    SetupFails(limits, k, t, t + period);
    SpendingFails(limits, k, period);
    FailsJoin(Setup(limits, k), Spending(limits, k, period), t, t + period);
    assert forall e :: e in Setup(limits, k) ==> e.kind != Succeed;
  }
}

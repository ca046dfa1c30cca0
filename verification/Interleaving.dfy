/**
 The whole service as interleaved tasks on one event loop, and what one username sees of it.

 A step is the atomic segment between two suspensions: Begin is a handler's `check` (for a password
 job) and start; End is a job's outcome and its mark on the limiter, exactly as the contracts of
 module App fix them. Any number of tasks may be running, with any outcomes.
 */
module Interleaving {
  import opened Options
  import opened RateLimit
  import opened Minting
  import opened Replies
  import Lanes
  import Rates

  datatype Task = Task(job: Job, user: string)
  datatype Event =
    | Begin(id: nat, task: Task, at: real)
    | End(id: nat, host: Host, at: real)

  datatype World = World(table: Table, running: map<nat, Task>, now: real)

  const NOBODY: map<nat, Task> := map[]

  function Start(now: real): World {
    World(map[], NOBODY, now)
  }

  predicate Enabled(w: World, e: Event) {
    w.now <= e.at && (e.Begin? <==> e.id !in w.running)
  }

  function Step(limits: Limits, w: World, e: Event): World
    requires Enabled(w, e)
  {
    match e
    case Begin(id, task, at) =>
      if !UsesPassword(task.job) then World(w.table, w.running[id := task], at)
      else
        var answer := Ask(Lookup(w.table, task.user), at);
        World(Asked(w.table, task.user, at), if answer.Pass? then w.running[id := task] else w.running, at)
    case End(id, host, at) =>
      var task := w.running[id];
      World(Settled(limits, w.table, task.user, task.job, Outcome(task.job, host), at), w.running - {id}, at)
  }

  ghost predicate Legal(limits: Limits, w: World, trace: seq<Event>)
    decreases |trace|
  {
    trace == [] || (Enabled(w, trace[0]) && Legal(limits, Step(limits, w, trace[0]), trace[1..]))
  }

  predicate Attempt(task: Task, user: string) {
    UsesPassword(task.job) && task.user == user
  }

  /** The password attempts of a username in flight. */
  function Attempts(w: World, user: string): set<nat> {
    set id | id in w.running && Attempt(w.running[id], user)
  }

  /** Whether an event is about a password attempt of the username. */
  predicate Concerns(w: World, e: Event, user: string) {
    match e
    case Begin(_, task, _) => Attempt(task, user)
    case End(id, _, _) => id in w.running && Attempt(w.running[id], user)
  }

  /** The limiter's answers for a username over a run. */
  ghost function Answers(limits: Limits, w: World, trace: seq<Event>, user: string): seq<Answer>
    requires Legal(limits, w, trace)
    decreases |trace|
  {
    if trace == [] then []
    else
      (if trace[0].Begin? && Concerns(w, trace[0], user) then [Ask(Lookup(w.table, user), trace[0].at)] else []) +
      Answers(limits, Step(limits, w, trace[0]), trace[1..], user)
  }

  /** The run without every other username, every keytab-mode mint and every renewal. */
  ghost function Only(limits: Limits, w: World, trace: seq<Event>, user: string): seq<Event>
    requires Legal(limits, w, trace)
    decreases |trace|
  {
    if trace == [] then []
    else
      (if Concerns(w, trace[0], user) then [trace[0]] else []) +
      Only(limits, Step(limits, w, trace[0]), trace[1..], user)
  }

  /** `alone` looks to the username as `w` does, and holds nothing but that username's attempts. */
  ghost predicate Resembles(w: World, alone: World, user: string) {
    && Lookup(alone.table, user) == Lookup(w.table, user)
    && alone.now <= w.now
    && alone.running == map id | id in w.running && Attempt(w.running[id], user) :: w.running[id]
  }

  lemma StepResembles(limits: Limits, w: World, alone: World, e: Event, user: string)
    requires Enabled(w, e) && Resembles(w, alone, user)
    ensures Concerns(w, e, user) ==>
              Enabled(alone, e) && Resembles(Step(limits, w, e), Step(limits, alone, e), user)
    ensures !Concerns(w, e, user) ==> Resembles(Step(limits, w, e), alone, user)
  {
  }

  /**
   Projection: the limiter answers a username as if it were alone. Removing everything but its own
   password attempts leaves a legal run with the same answers, whatever the subprocesses printed.
   */
  lemma {:induction false} ProjectionKeepsAnswers(
    limits: Limits, w: World, alone: World, trace: seq<Event>, user: string)
    requires Legal(limits, w, trace) && Resembles(w, alone, user)
    ensures Legal(limits, alone, Only(limits, w, trace, user))
    ensures Answers(limits, alone, Only(limits, w, trace, user), user) == Answers(limits, w, trace, user)
    decreases |trace|
  {
    if trace != [] {
      var e, next := trace[0], Step(limits, w, trace[0]);
      var rest := Only(limits, next, trace[1..], user);
      StepResembles(limits, w, alone, e, user);
      if Concerns(w, e, user) {
        ProjectionKeepsAnswers(limits, next, Step(limits, alone, e), trace[1..], user);
        assert Only(limits, w, trace, user)[1..] == rest;
      } else {
        ProjectionKeepsAnswers(limits, next, alone, trace[1..], user);
        assert Only(limits, w, trace, user) == rest;
        assert Answers(limits, w, trace, user) == Answers(limits, next, trace[1..], user);
      }
    }
  }

  // ---------------------------------------------------------------------------------------
  // From the service to a lane
  // ---------------------------------------------------------------------------------------

  function LaneEvent(w: World, e: Event, user: string): Lanes.Event
    requires Enabled(w, e) && Concerns(w, e, user)
  {
    match e
    case Begin(_, _, at) =>
      Lanes.Event(if Ask(Lookup(w.table, user), at).Pass? then Lanes.Launch else Lanes.Refuse, at)
    case End(id, host, at) =>
      match Outcome(w.running[id].job, host)
      case Ok(_) => Lanes.Event(Lanes.Succeed, at)
      case Raised(exn) => Lanes.Event(if exn == BadPassword then Lanes.Fail else Lanes.Abandon, at)
  }

  ghost function LaneTrace(limits: Limits, w: World, trace: seq<Event>, user: string): seq<Lanes.Event>
    requires Legal(limits, w, trace)
    decreases |trace|
  {
    if trace == [] then []
    else
      (if Concerns(w, trace[0], user) then [LaneEvent(w, trace[0], user)] else []) +
      LaneTrace(limits, Step(limits, w, trace[0]), trace[1..], user)
  }

  ghost predicate Matches(w: World, lane: Lanes.Lane, user: string) {
    lane.user == Lookup(w.table, user) && lane.inFlight == |Attempts(w, user)| && lane.now <= w.now
  }

  /** Never more than k password attempts of the username in flight. */
  ghost predicate Crowd(limits: Limits, k: nat, w: World, trace: seq<Event>, user: string)
    requires Legal(limits, w, trace)
    decreases |trace|
  {
    |Attempts(w, user)| <= k &&
    (trace == [] || Crowd(limits, k, Step(limits, w, trace[0]), trace[1..], user))
  }

  /** Which attempts of the username are in flight after an event. */
  lemma AttemptsAfter(limits: Limits, w: World, e: Event, user: string)
    requires Enabled(w, e)
    ensures var before, after := Attempts(w, user), Attempts(Step(limits, w, e), user);
            if !Concerns(w, e, user) then after == before
            else if e.End? then e.id in before && after == before - {e.id}
            else if Ask(Lookup(w.table, user), e.at).Pass? then e.id !in before && after == before + {e.id}
            else after == before
  {
  }

  lemma CountAfter(w: World, next: World, kind: Lanes.Kind, id: nat, user: string)
    ensures kind == Lanes.Launch && id !in Attempts(w, user) && Attempts(next, user) == Attempts(w, user) + {id} ==>
              |Attempts(next, user)| == |Attempts(w, user)| + 1
    ensures kind != Lanes.Launch && id in Attempts(w, user) && Attempts(next, user) == Attempts(w, user) - {id} ==>
              |Attempts(next, user)| == |Attempts(w, user)| - 1
  {
  }

  /** What an event does to the username's entry. */
  lemma EntryAfter(limits: Limits, w: World, e: Event, user: string)
    requires Enabled(w, e)
    ensures Lookup(Step(limits, w, e).table, user) ==
            if Concerns(w, e, user) then Lanes.UserAfter(limits, Lookup(w.table, user), LaneEvent(w, e, user))
            else Lookup(w.table, user)
  {
  }

  lemma StepMatches(limits: Limits, w: World, lane: Lanes.Lane, e: Event, user: string)
    requires Enabled(w, e) && Matches(w, lane, user)
    ensures !Concerns(w, e, user) ==> Matches(Step(limits, w, e), lane, user)
    ensures Concerns(w, e, user) ==>
              && Lanes.Enabled(lane, LaneEvent(w, e, user))
              && Matches(Step(limits, w, e), Lanes.Step(limits, lane, LaneEvent(w, e, user)), user)
  {
    AttemptsAfter(limits, w, e, user);
    EntryAfter(limits, w, e, user);
    if Concerns(w, e, user) {
      CountAfter(w, Step(limits, w, e), LaneEvent(w, e, user).kind, e.id, user);
    }
  }

  lemma {:induction false} LaneRuns(limits: Limits, k: nat, w: World, lane: Lanes.Lane, trace: seq<Event>, user: string)
    requires Legal(limits, w, trace) && Crowd(limits, k, w, trace, user) && Matches(w, lane, user)
    ensures Lanes.Run(limits, k, lane, LaneTrace(limits, w, trace, user))
    decreases |trace|
  {
    if trace != [] {
      var next := Step(limits, w, trace[0]);
      var rest := LaneTrace(limits, next, trace[1..], user);
      StepMatches(limits, w, lane, trace[0], user);
      if Concerns(w, trace[0], user) {
        LaneRuns(limits, k, next, Lanes.Step(limits, lane, LaneEvent(w, trace[0], user)), trace[1..], user);
        assert LaneTrace(limits, w, trace, user)[1..] == rest;
      } else {
        LaneRuns(limits, k, next, lane, trace[1..], user);
        assert LaneTrace(limits, w, trace, user) == rest;
      }
    }
  }

  /** Whether the event ends a password attempt of the username with this result kind. */
  predicate Rejected(w: World, e: Event, user: string) {
    e.End? && Concerns(w, e, user) && Outcome(w.running[e.id].job, e.host) == Raised(BadPassword)
  }

  predicate Granted(w: World, e: Event, user: string) {
    e.End? && Concerns(w, e, user) && Outcome(w.running[e.id].job, e.host).Ok?
  }

  /** Bad passwords of the username reported in [from, to), by any endpoint. */
  ghost function BadPasswords(limits: Limits, w: World, trace: seq<Event>, user: string, from: real, to: real): nat
    requires Legal(limits, w, trace)
    decreases |trace|
  {
    if trace == [] then 0
    else
      (if Rejected(w, trace[0], user) && from <= trace[0].at < to then 1 else 0) +
      BadPasswords(limits, Step(limits, w, trace[0]), trace[1..], user, from, to)
  }

  /** No password attempt of the username succeeds in [from, to). */
  ghost predicate NoneGranted(limits: Limits, w: World, trace: seq<Event>, user: string, from: real, to: real)
    requires Legal(limits, w, trace)
    decreases |trace|
  {
    trace == [] ||
    (!(Granted(w, trace[0], user) && from <= trace[0].at < to) &&
     NoneGranted(limits, Step(limits, w, trace[0]), trace[1..], user, from, to))
  }

  lemma {:induction false} CountsAgree(limits: Limits, w: World, trace: seq<Event>, user: string, from: real, to: real)
    requires Legal(limits, w, trace)
    ensures Lanes.FailsIn(LaneTrace(limits, w, trace, user), from, to) == BadPasswords(limits, w, trace, user, from, to)
    ensures NoneGranted(limits, w, trace, user, from, to) <==>
              Lanes.NoSuccessIn(LaneTrace(limits, w, trace, user), from, to)
    decreases |trace|
  {
    if trace != [] {
      var rest := LaneTrace(limits, Step(limits, w, trace[0]), trace[1..], user);
      CountsAgree(limits, Step(limits, w, trace[0]), trace[1..], user, from, to);
      if Concerns(w, trace[0], user) {
        assert LaneTrace(limits, w, trace, user)[1..] == rest;
      } else {
        assert LaneTrace(limits, w, trace, user) == rest;
      }
    }
  }

  /**
   The rate bound for the service: over any interleaving of any requests, a period in which no
   password attempt of a username succeeds, with at most k of them ever in flight at once, holds at
   most the period's budget of bad passwords for it; when k is 1, that is at most max_attempts for
   each min(window, lockout) begun.
   */
  lemma ServiceRateBound(limits: Limits, k: nat, start: real, trace: seq<Event>, user: string, from: real, period: real)
    requires limits.Valid() && k > 0
    requires Legal(limits, Start(start), trace) && Crowd(limits, k, Start(start), trace, user)
    requires NoneGranted(limits, Start(start), trace, user, from, from + period)
    ensures BadPasswords(limits, Start(start), trace, user, from, from + period) <= Lanes.Budget(limits, k, period)
    ensures k == 1 ==>
              BadPasswords(limits, Start(start), trace, user, from, from + period)
              <= Lanes.Spans(limits, period) * limits.maxAttempts
  {
    var w, lane := Start(start), LaneTrace(limits, Start(start), trace, user);
    assert Attempts(w, user) == {};
    LaneRuns(limits, k, w, Lanes.IdleAt(start), trace, user);
    CountsAgree(limits, w, trace, user, from, from + period);
    Rates.LongRunBound(limits, k, start, from, period, lane);
  }

  // ---------------------------------------------------------------------------------------
  // Lock persistence, with the task that ends a lock early
  // ---------------------------------------------------------------------------------------

  /** The state just before event i. */
  ghost function StateAt(limits: Limits, w: World, trace: seq<Event>, i: nat): World
    requires Legal(limits, w, trace) && i <= |trace|
    decreases i
  {
    if i == 0 then w else StateAt(limits, Step(limits, w, trace[0]), trace[1..], i - 1)
  }

  lemma {:induction false} ClockRises(limits: Limits, w: World, trace: seq<Event>, i: nat)
    requires Legal(limits, w, trace) && i < |trace|
    ensures w.now <= trace[0].at <= trace[i].at
    decreases i
  {
    if i > 0 {
      ClockRises(limits, Step(limits, w, trace[0]), trace[1..], i - 1);
    }
  }

  /** The username's lane, with the service's clock. */
  ghost function LaneOf(w: World, user: string): Lanes.Lane {
    Lanes.Lane(Lookup(w.table, user), |Attempts(w, user)|, w.now)
  }

  /**
   The reachable-state invariant, at every moment of every run: without a lock fewer than
   maxAttempts failures are stored; with one, stored failures and attempts in flight stay under
   maxAttempts + k and the lock ends within lockout; see Lanes.Inv.
   */
  lemma {:induction false} ServiceInvariant(limits: Limits, k: nat, w: World, trace: seq<Event>, user: string, i: nat)
    requires limits.Valid() && Legal(limits, w, trace) && Crowd(limits, k, w, trace, user) && i <= |trace|
    requires Lanes.Inv(limits, k, LaneOf(w, user))
    ensures Lanes.Inv(limits, k, LaneOf(StateAt(limits, w, trace, i), user))
    decreases i
  {
    if i > 0 {
      var next := Step(limits, w, trace[0]);
      StepMatches(limits, w, LaneOf(w, user), trace[0], user);
      assert |Attempts(next, user)| <= k;
      if Concerns(w, trace[0], user) {
        Lanes.StepKeepsInv(limits, k, LaneOf(w, user), LaneEvent(w, trace[0], user));
      }
      ServiceInvariant(limits, k, next, trace[1..], user, i - 1);
    }
  }

  lemma StartsInvariant(limits: Limits, k: nat, start: real, user: string)
    requires limits.Valid()
    ensures Lanes.Inv(limits, k, LaneOf(Start(start), user))
  {
    assert Attempts(Start(start), user) == {};
  }

  /** A lock ends within lockout of now. */
  ghost predicate LockBounded(limits: Limits, w: World, user: string) {
    var lock := Lookup(w.table, user).lockedUntil;
    lock.Some? ==> lock.value <= w.now + limits.lockout
  }

  lemma StepKeepsBound(limits: Limits, w: World, e: Event, user: string)
    requires Enabled(w, e) && LockBounded(limits, w, user)
    ensures LockBounded(limits, Step(limits, w, e), user)
  {
  }

  /** Without a success, a standing lock stays, moves only later, and no new attempt starts. */
  lemma StepKeepsLock(limits: Limits, w: World, e: Event, user: string)
    requires Enabled(w, e) && LockBounded(limits, w, user) && !Granted(w, e, user)
    requires var lock := Lookup(w.table, user).lockedUntil;
             lock.Some? && e.at < lock.value
    ensures var lock := Lookup(Step(limits, w, e).table, user).lockedUntil;
            lock.Some? && Lookup(w.table, user).lockedUntil.value <= lock.value
    ensures Attempts(Step(limits, w, e), user) <= Attempts(w, user)
    ensures forall id :: id in Attempts(Step(limits, w, e), user) ==> Step(limits, w, e).running[id] == w.running[id]
  {
  }

  /** Event i is a password job of the username that passes `check`. */
  ghost predicate PassesAt(limits: Limits, w: World, trace: seq<Event>, user: string, i: nat)
    requires Legal(limits, w, trace) && i < |trace|
  {
    && trace[i].Begin? && Attempt(trace[i].task, user)
    && Ask(Lookup(StateAt(limits, w, trace, i).table, user), trace[i].at).Pass?
  }

  lemma {:induction false} LockStands(limits: Limits, w: World, trace: seq<Event>, user: string, i: nat)
    returns (j: nat)
    requires Legal(limits, w, trace) && LockBounded(limits, w, user) && i < |trace|
    requires var lock := Lookup(w.table, user).lockedUntil;
             lock.Some? && trace[i].at < lock.value && PassesAt(limits, w, trace, user, i)
    ensures j < i && trace[j].End? && trace[j].id in Attempts(w, user)
    ensures Outcome(w.running[trace[j].id].job, trace[j].host).Ok?
    decreases i
  {
    ClockRises(limits, w, trace, i);
    if Granted(w, trace[0], user) {
      j := 0;
    } else {
      StepKeepsLock(limits, w, trace[0], user);
      StepKeepsBound(limits, w, trace[0], user);
      var rest := LockStands(limits, Step(limits, w, trace[0]), trace[1..], user, i - 1);
      j := rest + 1;
    }
  }

  lemma {:induction false} LockStandsLater(limits: Limits, w: World, trace: seq<Event>, user: string, m: nat, i: nat)
    returns (j: nat)
    requires Legal(limits, w, trace) && LockBounded(limits, w, user) && m <= i < |trace|
    requires var lock := Lookup(StateAt(limits, w, trace, m).table, user).lockedUntil;
             lock.Some? && trace[i].at < lock.value && PassesAt(limits, w, trace, user, i)
    ensures var locked := StateAt(limits, w, trace, m);
            && m <= j < i && trace[j].End? && trace[j].id in Attempts(locked, user)
            && Outcome(locked.running[trace[j].id].job, trace[j].host).Ok?
    decreases m
  {
    if m == 0 {
      j := LockStands(limits, w, trace, user, i);
    } else {
      StepKeepsBound(limits, w, trace[0], user);
      var rest := LockStandsLater(limits, Step(limits, w, trace[0]), trace[1..], user, m - 1, i - 1);
      j := rest + 1;
    }
  }

  /**
   Lock persistence: if the username is locked at moment m of a run, and a later password job of it
   passes `check` before that lock's end, then in between an attempt that was already in flight at m
   succeeded.
   */
  lemma LockPersists(limits: Limits, start: real, trace: seq<Event>, user: string, m: nat, i: nat) returns (j: nat)
    requires Legal(limits, Start(start), trace) && m <= i < |trace|
    requires var lock := Lookup(StateAt(limits, Start(start), trace, m).table, user).lockedUntil;
             lock.Some? && trace[i].at < lock.value && PassesAt(limits, Start(start), trace, user, i)
    ensures var locked := StateAt(limits, Start(start), trace, m);
            && m <= j < i && trace[j].End? && trace[j].id in Attempts(locked, user)
            && Outcome(locked.running[trace[j].id].job, trace[j].host).Ok?
  {
    j := LockStandsLater(limits, Start(start), trace, user, m, i);
  }
}

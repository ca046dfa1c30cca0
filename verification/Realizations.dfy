/**
 The converse of Interleaving.LaneRuns: every run of a lane is what one username sees of some run of
 the service. So what a lane can do, requests to the service can do, and the rate bound is exact for
 the service and for any number of replicas of it.
 */
module Realizations {
  import opened Options
  import opened Bytes
  import opened CcacheInfos
  import opened RateLimit
  import opened Minting
  import opened Interleaving
  import Lanes
  import Rates

  /** A kinit that ends an attempt as the lane's event says. */
  function HostFor(kind: Lanes.Kind): Host {
    var exit := match kind
                case Fail => Exited(1, BAD_PASSWORD)
                case Succeed => Exited(0, "")
                case _ => TimedOut;
    Host(true, true, Unreadable, exit, Some([0]), Readable(CcacheInfo("", "", 0, None)), true)
  }

  lemma HostsDo(kind: Lanes.Kind)
    ensures match kind
            case Fail => Outcome(PasswordMint, HostFor(kind)) == Raised(BadPassword)
            case Succeed => Outcome(PasswordMint, HostFor(kind)).Ok?
            case _ => Outcome(PasswordMint, HostFor(kind)) == Raised(MintingFailed)
  {
    if kind == Lanes.Fail {
      assert OccursAt(BAD_PASSWORD, BAD_PASSWORD, 0);
      BadPasswordIff(PasswordMint, HostFor(kind));
    }
  }

  /** Attempts are numbered from 0; the one started last ends first. */
  function EventFor(user: string, inFlight: nat, e: Lanes.Event): Event
    requires e.kind == Lanes.Launch || e.kind == Lanes.Refuse || inFlight > 0
  {
    if e.kind == Lanes.Launch || e.kind == Lanes.Refuse then Begin(inFlight, Task(PasswordMint, user), e.at)
    else End(inFlight - 1, HostFor(e.kind), e.at)
  }

  /** Password mints of one username that make its lane run as given. */
  ghost function Realize(limits: Limits, k: nat, lane: Lanes.Lane, trace: seq<Lanes.Event>, user: string): seq<Event>
    requires Lanes.Run(limits, k, lane, trace)
    decreases |trace|
  {
    if trace == [] then []
    else
      [EventFor(user, lane.inFlight, trace[0])] +
      Realize(limits, k, Lanes.Step(limits, lane, trace[0]), trace[1..], user)
  }

  /** The tasks in flight, when there are n. */
  function Stack(user: string, n: nat): (tasks: map<nat, Task>)
    ensures forall id: nat :: id in tasks <==> id < n
    ensures forall id :: id in tasks ==> tasks[id] == Task(PasswordMint, user)
  {
    if n == 0 then NOBODY else Stack(user, n - 1)[n - 1 := Task(PasswordMint, user)]
  }

  /** The service holds the lane's state, and just its attempts. */
  ghost predicate Holds(w: World, lane: Lanes.Lane, user: string) {
    Lookup(w.table, user) == lane.user && w.now == lane.now && w.running == Stack(user, lane.inFlight)
  }

  lemma StepHolds(limits: Limits, w: World, lane: Lanes.Lane, e: Lanes.Event, user: string)
    requires Lanes.Enabled(lane, e) && Holds(w, lane, user)
    ensures var event := EventFor(user, lane.inFlight, e);
            && Enabled(w, event) && Concerns(w, event, user) && LaneEvent(w, event, user) == e
            && Holds(Step(limits, w, event), Lanes.Step(limits, lane, e), user)
  {
    HostsDo(e.kind);
  }

  lemma {:induction false} StackCounts(user: string, n: nat)
    ensures |Stack(user, n).Keys| == n
  {
    if n > 0 {
      StackCounts(user, n - 1);
      assert Stack(user, n).Keys == Stack(user, n - 1).Keys + {n - 1};
    }
  }

  lemma HoldsCount(w: World, lane: Lanes.Lane, user: string)
    requires Holds(w, lane, user)
    ensures |Attempts(w, user)| == lane.inFlight
  {
    StackCounts(user, lane.inFlight);
    assert Attempts(w, user) == w.running.Keys;
  }

  lemma {:induction false} RealizeRuns(
    limits: Limits, k: nat, w: World, lane: Lanes.Lane, trace: seq<Lanes.Event>, user: string)
    requires Lanes.Run(limits, k, lane, trace) && Holds(w, lane, user) && lane.inFlight <= k
    ensures Legal(limits, w, Realize(limits, k, lane, trace, user))
    ensures LaneTrace(limits, w, Realize(limits, k, lane, trace, user), user) == trace
    ensures Crowd(limits, k, w, Realize(limits, k, lane, trace, user), user)
    decreases |trace|
  {
    HoldsCount(w, lane, user);
    if trace != [] {
      var event, after := EventFor(user, lane.inFlight, trace[0]), Lanes.Step(limits, lane, trace[0]);
      StepHolds(limits, w, lane, trace[0], user);
      RealizeRuns(limits, k, Step(limits, w, event), after, trace[1..], user);
      assert Realize(limits, k, lane, trace, user)[1..] == Realize(limits, k, after, trace[1..], user);
      assert trace == [trace[0]] + trace[1..];
    }
  }

  /** Every lane run from idle is what the username sees of a run of the service from its start. */
  lemma EveryLaneRun(limits: Limits, k: nat, start: real, lane: seq<Lanes.Event>, user: string)
    returns (trace: seq<Event>)
    requires Lanes.Run(limits, k, Lanes.IdleAt(start), lane)
    ensures Legal(limits, Start(start), trace) && Crowd(limits, k, Start(start), trace, user)
    ensures LaneTrace(limits, Start(start), trace, user) == lane
  {
    trace := Realize(limits, k, Lanes.IdleAt(start), lane, user);
    RealizeRuns(limits, k, Start(start), Lanes.IdleAt(start), lane, user);
  }

  /**
   The rate bound is exact for the service: for every setting, username, k and period there is a run
   of it, with at most k password attempts of the username in flight and none succeeding, in which a
   stretch of that length holds the whole budget of bad passwords.
   */
  lemma ServiceBudgetAttained(limits: Limits, k: nat, period: real, user: string) returns (trace: seq<Event>)
    requires limits.Valid() && k > 0 && period > 0.0
    ensures var from := Rates.SpendAt(limits);
            && Legal(limits, Start(0.0), trace) && Crowd(limits, k, Start(0.0), trace, user)
            && NoneGranted(limits, Start(0.0), trace, user, from, from + period)
            && BadPasswords(limits, Start(0.0), trace, user, from, from + period) == Lanes.Budget(limits, k, period)
  {
    var from := Rates.SpendAt(limits);
    Rates.BudgetAttained(limits, k, period);
    trace := EveryLaneRun(limits, k, 0.0, Rates.WorstRun(limits, k, period), user);
    CountsAgree(limits, Start(0.0), trace, user, from, from + period);
  }

  // ---------------------------------------------------------------------------------------
  // Replicas
  // ---------------------------------------------------------------------------------------

  /** A run with at most k password attempts of the username in flight, none succeeding in [from, to). */
  ghost predicate Guessing(limits: Limits, k: nat, start: real, trace: seq<Event>, user: string, from: real, to: real)
    requires Legal(limits, Start(start), trace)
  {
    Crowd(limits, k, Start(start), trace, user) && NoneGranted(limits, Start(start), trace, user, from, to)
  }

  /** Bad passwords for one username over replicas, each with its own limiter. */
  ghost function TotalBad(
    limits: Limits, start: real, replicas: seq<seq<Event>>, user: string, from: real, to: real): nat
    requires forall i :: 0 <= i < |replicas| ==> Legal(limits, Start(start), replicas[i])
  {
    if replicas == [] then 0
    else
      BadPasswords(limits, Start(start), replicas[0], user, from, to) +
      TotalBad(limits, start, replicas[1..], user, from, to)
  }

  /** N replicas multiply the budget of a period by at most N. */
  lemma {:induction false} ReplicaBound(
    limits: Limits, k: nat, start: real, replicas: seq<seq<Event>>, user: string, from: real, period: real)
    requires limits.Valid() && k > 0
    requires forall i :: 0 <= i < |replicas| ==> Legal(limits, Start(start), replicas[i])
    requires forall i :: 0 <= i < |replicas| ==> Guessing(limits, k, start, replicas[i], user, from, from + period)
    ensures TotalBad(limits, start, replicas, user, from, from + period)
         <= |replicas| * Lanes.Budget(limits, k, period)
  {
    var cap := Lanes.Budget(limits, k, period);
    if replicas != [] {
      assert Guessing(limits, k, start, replicas[0], user, from, from + period);
      ServiceRateBound(limits, k, start, replicas[0], user, from, period);
      ReplicaBound(limits, k, start, replicas[1..], user, from, period);
      assert |replicas| * cap == cap + (|replicas| - 1) * cap;
    }
  }

  /** N replicas can spend N budgets in one period. */
  lemma {:induction false} ReplicaBudgetAttained(limits: Limits, k: nat, period: real, user: string, n: nat)
    returns (replicas: seq<seq<Event>>)
    requires limits.Valid() && k > 0 && period > 0.0
    ensures var from := Rates.SpendAt(limits);
            && |replicas| == n
            && (forall i :: 0 <= i < n ==> Legal(limits, Start(0.0), replicas[i]))
            && (forall i :: 0 <= i < n ==> Guessing(limits, k, 0.0, replicas[i], user, from, from + period))
            && TotalBad(limits, 0.0, replicas, user, from, from + period) == n * Lanes.Budget(limits, k, period)
  {
    var cap := Lanes.Budget(limits, k, period);
    if n == 0 {
      replicas := [];
    } else {
      var first := ServiceBudgetAttained(limits, k, period, user);
      var others := ReplicaBudgetAttained(limits, k, period, user, n - 1);
      replicas := [first] + others;
      assert replicas[1..] == others;
      assert n * cap == cap + (n - 1) * cap;
    }
  }
}

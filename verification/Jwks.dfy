/**
 The JWKS cache of identity.py: one URL, one event loop, any number of get_jwks tasks.

 A task first looks at the cache without the lock, then waits for the lock, looks again under it,
 and only then fetches; a fetch that fails falls back to the entry the task saw. The class holds
 what the source keeps in module-level variables and has one method per atomic segment between two
 awaits; the transition system below runs those segments in every order.
 */
module Jwks {
  import opened Options
  import opened Keys

  datatype Entry = Entry(keys: seq<Jwk>, fetchedAt: real)

  /** Why a task could return the keys it returned. */
  datatype Why = Fresh | JustFetched | Stale

  /** A task's program counter; Fetching carries the entry seen and the time read under the lock. */
  datatype Task =
    | Idle
    | Waiting
    | Fetching(seen: Option<Entry>, since: real)
    | Returned(keys: seq<Jwk>, why: Why)
    | Raised

  predicate IsFresh(slot: Option<Entry>, ttl: real, now: real) {
    slot.Some? && now - slot.value.fetchedAt <= ttl
  }

  function AfterLook(slot: Option<Entry>, ttl: real, now: real): Task {
    if IsFresh(slot, ttl, now) then Returned(slot.value.keys, Fresh) else Waiting
  }

  function AfterEnter(slot: Option<Entry>, ttl: real, now: real): Task {
    if IsFresh(slot, ttl, now) then Returned(slot.value.keys, Fresh) else Fetching(slot, now)
  }

  function AfterFetch(task: Task, fetched: Option<seq<Jwk>>): Task
    requires task.Fetching?
  {
    match fetched
    case Some(keys) => Returned(keys, JustFetched)
    case None => if task.seen.Some? then Returned(task.seen.value.keys, Stale) else Raised
  }

  class Cache {
    const ttl: real
    var slot: Option<Entry>
    var locked: bool

    constructor (ttl: real)
      ensures this.ttl == ttl && slot == None && !locked
    {
      this.ttl := ttl;
      slot, locked := None, false;
    }

    /** Up to the lock. */
    method Look(now: real) returns (task: Task)
      ensures task == AfterLook(slot, ttl, now)
    {
      var entry := slot;
      if entry.Some? && now - entry.value.fetchedAt <= ttl {
        return Returned(entry.value.keys, Fresh);
      }
      return Waiting;
    }

    /** The lock is granted; unless the entry is fresh by now, the task leaves holding it. */
    method Enter(now: real) returns (task: Task)
      requires !locked
      modifies this
      ensures slot == old(slot) && task == AfterEnter(slot, ttl, now) && (locked <==> task.Fetching?)
    {
      locked := true;
      var entry := slot;
      if entry.Some? && now - entry.value.fetchedAt <= ttl {
        locked := false;
        return Returned(entry.value.keys, Fresh);
      }
      return Fetching(entry, now);
    }

    /** The fetch has ended, with keys or without. */
    method Complete(task: Task, fetched: Option<seq<Jwk>>) returns (done: Task)
      requires locked && task.Fetching?
      modifies this
      ensures done == AfterFetch(task, fetched) && !locked
      ensures slot == if fetched.Some? then Some(Entry(fetched.value, task.since)) else old(slot)
    {
      if fetched == None {
        locked := false;
        if task.seen.Some? {
          return Returned(task.seen.value.keys, Stale);
        }
        return Raised;
      }
      slot := Some(Entry(fetched.value, task.since));
      locked := false;
      return Returned(fetched.value, JustFetched);
    }
  }

  // ---------------------------------------------------------------------------------------
  // Every interleaving
  // ---------------------------------------------------------------------------------------

  datatype Kind = Look | Enter | Fetched(keys: seq<Jwk>) | FetchFailed
  datatype Event = Event(task: nat, kind: Kind, at: real)

  /** `stores` lists every entry ever stored, oldest first. */
  datatype State = State(slot: Option<Entry>, holder: Option<nat>, tasks: seq<Task>, now: real, stores: seq<Entry>)

  function Init(n: nat, now: real): State {
    State(None, None, seq(n, i => Idle), now, [])
  }

  predicate Enabled(s: State, e: Event) {
    s.now <= e.at && e.task < |s.tasks| &&
    match e.kind
    case Look => s.tasks[e.task].Idle?
    case Enter => s.tasks[e.task].Waiting? && s.holder == None
    case _ => s.tasks[e.task].Fetching?
  }

  function Step(ttl: real, s: State, e: Event): State
    requires Enabled(s, e)
  {
    var task := s.tasks[e.task];
    match e.kind
    case Look =>
      s.(tasks := s.tasks[e.task := AfterLook(s.slot, ttl, e.at)], now := e.at)
    case Enter =>
      var next := AfterEnter(s.slot, ttl, e.at);
      s.(tasks := s.tasks[e.task := next], holder := if next.Fetching? then Some(e.task) else None, now := e.at)
    case Fetched(keys) =>
      var entry := Entry(keys, task.since);
      State(Some(entry), None, s.tasks[e.task := AfterFetch(task, Some(keys))], e.at, s.stores + [entry])
    case FetchFailed =>
      s.(tasks := s.tasks[e.task := AfterFetch(task, None)], holder := None, now := e.at)
  }

  ghost predicate Run(ttl: real, s: State, trace: seq<Event>)
    decreases |trace|
  {
    trace == [] || (Enabled(s, trace[0]) && Run(ttl, Step(ttl, s, trace[0]), trace[1..]))
  }

  /** The state before event i; for i == |trace|, the last one. */
  ghost function StateAt(ttl: real, s: State, trace: seq<Event>, i: nat): State
    requires Run(ttl, s, trace) && i <= |trace|
    decreases i
  {
    if i == 0 then s else StateAt(ttl, Step(ttl, s, trace[0]), trace[1..], i - 1)
  }

  /** Each stored entry's time lies more than ttl after the one before. */
  ghost predicate Spaced(ttl: real, stores: seq<Entry>) {
    forall j :: 0 < j < |stores| ==> stores[j].fetchedAt - stores[j - 1].fetchedAt > ttl
  }

  /**
   The lock is held by exactly the task that is fetching; the entry it saw is still the slot, and
   was out of date when it was read; the slot is the last entry stored; each stored entry's time
   lies more than ttl after the one before.
   */
  ghost predicate Inv(ttl: real, s: State) {
    && (forall i :: 0 <= i < |s.tasks| ==> (s.tasks[i].Fetching? <==> s.holder == Some(i)))
    && (s.holder.Some? ==>
          && s.holder.value < |s.tasks|
          && s.tasks[s.holder.value].seen == s.slot
          && s.tasks[s.holder.value].since <= s.now
          && !IsFresh(s.slot, ttl, s.tasks[s.holder.value].since))
    && s.slot == (if s.stores == [] then None else Some(s.stores[|s.stores| - 1]))
    && Spaced(ttl, s.stores)
  }

  lemma StepKeepsInv(ttl: real, s: State, e: Event)
    requires Inv(ttl, s) && Enabled(s, e)
    ensures Inv(ttl, Step(ttl, s, e))
  {
  }

  lemma {:induction false} ReachableInv(ttl: real, s: State, trace: seq<Event>, i: nat)
    requires Inv(ttl, s) && Run(ttl, s, trace) && i <= |trace|
    ensures Inv(ttl, StateAt(ttl, s, trace, i))
    decreases i
  {
    if i > 0 {
      StepKeepsInv(ttl, s, trace[0]);
      ReachableInv(ttl, Step(ttl, s, trace[0]), trace[1..], i - 1);
    }
  }

  /** At most one fetch is in flight, at any moment of any interleaving of n tasks. */
  lemma SingleFlight(ttl: real, n: nat, now: real, trace: seq<Event>, i: nat, a: nat, b: nat)
    requires Run(ttl, Init(n, now), trace) && i <= |trace|
    requires var s := StateAt(ttl, Init(n, now), trace, i);
             a < |s.tasks| && b < |s.tasks| && s.tasks[a].Fetching? && s.tasks[b].Fetching?
    ensures a == b
  {
    ReachableInv(ttl, Init(n, now), trace, i);
  }

  lemma {:induction false} StoresSpread(ttl: real, stores: seq<Entry>, i: nat, j: nat)
    requires i <= j < |stores| && Spaced(ttl, stores)
    ensures stores[j].fetchedAt - stores[i].fetchedAt >= (j - i) as real * ttl
    decreases j - i
  {
    if i < j {
      StoresSpread(ttl, stores, i, j - 1);
      assert (j - i) as real * ttl == (j - 1 - i) as real * ttl + ttl;
    }
  }

  /** Refreshes whose time lies in [from, to]. */
  function CountStores(stores: seq<Entry>, from: real, to: real): nat {
    if stores == [] then 0
    else
      var init, last := stores[..|stores| - 1], stores[|stores| - 1];
      CountStores(init, from, to) + (if from <= last.fetchedAt <= to then 1 else 0)
  }

  /** The counted refreshes lie between the first and the last of them. */
  lemma {:induction false} FirstAndLast(stores: seq<Entry>, from: real, to: real) returns (i: nat, j: nat)
    requires CountStores(stores, from, to) > 0
    ensures i <= j < |stores| && CountStores(stores, from, to) <= j - i + 1
    ensures from <= stores[i].fetchedAt && stores[j].fetchedAt <= to
  {
    var init, last := stores[..|stores| - 1], stores[|stores| - 1];
    if CountStores(init, from, to) > 0 {
      i, j := FirstAndLast(init, from, to);
      if from <= last.fetchedAt <= to {
        j := |stores| - 1;
      }
    } else {
      i, j := |stores| - 1, |stores| - 1;
    }
  }

  lemma SpacedCount(ttl: real, stores: seq<Entry>, from: real, period: real)
    requires Spaced(ttl, stores) && ttl > 0.0 && period >= 0.0
    ensures CountStores(stores, from, from + period) <= (period / ttl).Floor + 1
  {
    if CountStores(stores, from, from + period) > 0 {
      var i, j := FirstAndLast(stores, from, from + period);
      var gaps := j - i;
      StoresSpread(ttl, stores, i, j);
      assert gaps as real * ttl <= stores[j].fetchedAt - stores[i].fetchedAt <= period;
      FloorCovers(gaps, period, ttl);
    } else {
      FloorCovers(0, period, ttl);
    }
  }

  /**
   Refresh spacing: consecutive stored entries are more than ttl apart, so with a positive ttl any
   span of length `period` holds at most floor(period / ttl) + 1 successful refreshes.
   */
  lemma RefreshSpacing(ttl: real, n: nat, now: real, trace: seq<Event>, from: real, period: real)
    requires Run(ttl, Init(n, now), trace) && period >= 0.0
    ensures var stores := StateAt(ttl, Init(n, now), trace, |trace|).stores;
            && Spaced(ttl, stores)
            && (ttl > 0.0 ==> CountStores(stores, from, from + period) <= (period / ttl).Floor + 1)
  {
    ReachableInv(ttl, Init(n, now), trace, |trace|);
    if ttl > 0.0 {
      SpacedCount(ttl, StateAt(ttl, Init(n, now), trace, |trace|).stores, from, period);
    }
  }

  lemma FloorCovers(count: nat, period: real, ttl: real)
    requires ttl > 0.0 && count as real * ttl <= period
    ensures count <= (period / ttl).Floor
  {
    var q := period / ttl;
    assert q * ttl == period;
    assert (q - count as real) * ttl >= 0.0;
    assert q >= count as real;
  }

  predicate Done(task: Task) {
    task.Returned? || task.Raised?
  }

  /**
   Cache agreement: whatever a task returns is the slot at that moment and the last entry stored.
   It is within ttl, or this task just fetched it, or this task's own fetch failed. An error is
   raised only when no fetch has ever succeeded.
   */
  lemma AnswersAgree(ttl: real, n: nat, now: real, trace: seq<Event>, i: nat)
    requires Run(ttl, Init(n, now), trace) && i < |trace|
    ensures var s, next := StateAt(ttl, Init(n, now), trace, i), StateAt(ttl, Init(n, now), trace, i + 1);
            var e := trace[i];
            && Enabled(s, e) && !Done(s.tasks[e.task]) && e.task < |next.tasks|
            && match next.tasks[e.task]
               case Returned(keys, why) =>
                 && next.stores != [] && next.slot == Some(next.stores[|next.stores| - 1])
                 && next.slot.value.keys == keys
                 && (match why
                     case Fresh => e.at - next.slot.value.fetchedAt <= ttl
                     case JustFetched => e.kind == Fetched(keys) && next.stores[..|next.stores| - 1] == s.stores
                     case Stale => e.kind == FetchFailed && next.stores == s.stores)
               case Raised => e.kind == FetchFailed && next.stores == []
               case _ => true
  {
    ReachableInv(ttl, Init(n, now), trace, i);
    ReachableInv(ttl, Init(n, now), trace, i + 1);
    NextStep(ttl, Init(n, now), trace, i);
  }

  /**
   What a task does next, at every moment of every interleaving: a look at an entry within ttl returns
   its keys at once, without the lock; any other look waits; a waiting task that gets the lock returns
   those keys too if the entry is within ttl by then, and otherwise fetches, holding the lock. Nobody
   else moves, and only a fetch that succeeds changes the cache.
   */
  lemma NextMove(ttl: real, n: nat, now: real, trace: seq<Event>, i: nat)
    requires Run(ttl, Init(n, now), trace) && i < |trace|
    ensures var s, next := StateAt(ttl, Init(n, now), trace, i), StateAt(ttl, Init(n, now), trace, i + 1);
            var e := trace[i];
            && e.task < |s.tasks| == |next.tasks|
            && (forall other :: 0 <= other < |s.tasks| && other != e.task ==> next.tasks[other] == s.tasks[other])
            && var current := s.slot.Some? && e.at <= s.slot.value.fetchedAt + ttl;
               var task := next.tasks[e.task];
               match e.kind
               case Look =>
                 && task == (if current then Returned(s.slot.value.keys, Fresh) else Waiting)
                 && next.slot == s.slot && next.holder == s.holder
               case Enter =>
                 && task == (if current then Returned(s.slot.value.keys, Fresh) else Fetching(s.slot, e.at))
                 && next.slot == s.slot && next.holder == (if current then None else Some(e.task))
               case Fetched(keys) =>
                 && task == Returned(keys, JustFetched) && next.holder == None
                 && next.slot.Some? && next.slot.value.keys == keys
                 && s.tasks[e.task].Fetching? && next.slot.value.fetchedAt == s.tasks[e.task].since
               case FetchFailed =>
                 && task == (if s.slot.Some? then Returned(s.slot.value.keys, Stale) else Raised)
                 && next.slot == s.slot && next.holder == None
  {
    ReachableInv(ttl, Init(n, now), trace, i);
    NextStep(ttl, Init(n, now), trace, i);
  }

  lemma {:induction false} NextStep(ttl: real, s: State, trace: seq<Event>, i: nat)
    requires Run(ttl, s, trace) && i < |trace|
    ensures Enabled(StateAt(ttl, s, trace, i), trace[i])
    ensures StateAt(ttl, s, trace, i + 1) == Step(ttl, StateAt(ttl, s, trace, i), trace[i])
    decreases i
  {
    if i > 0 {
      NextStep(ttl, Step(ttl, s, trace[0]), trace[1..], i - 1);
    }
  }

  // ---------------------------------------------------------------------------------------
  // Progress
  // ---------------------------------------------------------------------------------------

  function Rank(task: Task): nat {
    match task
    case Idle => 3
    case Waiting => 2
    case Fetching(_, _) => 1
    case _ => 0
  }

  function Work(tasks: seq<Task>): nat {
    if tasks == [] then 0 else Rank(tasks[0]) + Work(tasks[1..])
  }

  lemma {:induction false} WorkUpdate(tasks: seq<Task>, i: nat, task: Task)
    requires i < |tasks|
    ensures Work(tasks[i := task]) + Rank(tasks[i]) == Work(tasks) + Rank(task)
  {
    if i == 0 {
      assert tasks[0 := task][1..] == tasks[1..];
    } else {
      WorkUpdate(tasks[1..], i - 1, task);
      assert tasks[i := task][1..] == tasks[1..][i - 1 := task];
    }
  }

  /** Until every task is done, some step is enabled: the lock is never left behind. */
  lemma SomeStep(ttl: real, s: State, i: nat) returns (e: Event)
    requires Inv(ttl, s) && i < |s.tasks| && !Done(s.tasks[i])
    ensures Enabled(s, e)
  {
    if s.holder.Some? {
      e := Event(s.holder.value, FetchFailed, s.now);
    } else {
      e := Event(i, if s.tasks[i].Idle? then Look else Enter, s.now);
    }
  }

  lemma {:induction false} WorkFalls(ttl: real, s: State, trace: seq<Event>)
    requires Run(ttl, s, trace)
    ensures |trace| + Work(StateAt(ttl, s, trace, |trace|).tasks) <= Work(s.tasks)
    decreases |trace|
  {
    if trace != [] {
      var next := Step(ttl, s, trace[0]);
      WorkUpdate(s.tasks, trace[0].task, next.tasks[trace[0].task]);
      WorkFalls(ttl, next, trace[1..]);
    }
  }

  lemma {:induction false} WorkOfIdle(n: nat)
    ensures Work(seq(n, i => Idle)) == 3 * n
  {
    if n > 0 {
      WorkOfIdle(n - 1);
      assert seq(n, i => Idle)[1..] == seq(n - 1, i => Idle);
    }
  }

  /** A run that no step extends. */
  ghost predicate Finished(s: State) {
    forall e :: !Enabled(s, e)
  }

  /**
   Progress: n tasks take at most 3n steps in all, and a run that cannot go on has every task
   returned or raised and the lock free.
   */
  lemma AllFinish(ttl: real, n: nat, now: real, trace: seq<Event>)
    requires Run(ttl, Init(n, now), trace)
    ensures |trace| <= 3 * n
    ensures var end := StateAt(ttl, Init(n, now), trace, |trace|);
            Finished(end) ==> end.holder == None && forall i :: 0 <= i < |end.tasks| ==> Done(end.tasks[i])
  {
    var end := StateAt(ttl, Init(n, now), trace, |trace|);
    WorkFalls(ttl, Init(n, now), trace);
    WorkOfIdle(n);
    ReachableInv(ttl, Init(n, now), trace, |trace|);
    forall i | 0 <= i < |end.tasks| && Finished(end)
      ensures Done(end.tasks[i])
    {
      if !Done(end.tasks[i]) {
        var e := SomeStep(ttl, end, i);
      }
    }
  }

  /** How often a task starts a fetch in a run. */
  ghost function Fetches(ttl: real, s: State, trace: seq<Event>, task: nat): nat
    requires Run(ttl, s, trace)
    decreases |trace|
  {
    if trace == [] then 0
    else
      var next := Step(ttl, s, trace[0]);
      (if trace[0].task == task && next.tasks[task].Fetching? then 1 else 0) + Fetches(ttl, next, trace[1..], task)
  }

  /** Each task makes at most one fetch. */
  lemma {:induction false} OneFetchEach(ttl: real, s: State, trace: seq<Event>, task: nat)
    requires Run(ttl, s, trace) && task < |s.tasks|
    ensures Fetches(ttl, s, trace, task) <= if Rank(s.tasks[task]) >= 2 then 1 else 0
    decreases |trace|
  {
    if trace != [] {
      OneFetchEach(ttl, Step(ttl, s, trace[0]), trace[1..], task);
    }
  }
}

/**
 The failed-authentication limiter of ratelimit.py.

 The class keeps the source's shape: a dictionary of mutable per-username entries, updated in
 place. Its methods are specified by the value-level functions at the top of the module, which
 are also what the runs of modules Lanes and Interleaving are made of. Each reading of the clock is
 a parameter; times are reals, since rounding is not the point.
 */
module RateLimit {
  import opened Options

  /** The three settings; config.py accepts only positive ones. */
  datatype Limits = Limits(maxAttempts: nat, window: real, lockout: real) {
    ghost predicate Valid() {
      maxAttempts > 0 && window > 0.0 && lockout > 0.0
    }
  }

  /** What one username's entry holds; an absent entry reads as FRESH. */
  datatype UserState = UserState(failures: seq<real>, lockedUntil: Option<real>)

  const FRESH := UserState([], None)

  datatype Answer = Pass | Refused(retryAfter: real)

  /** The failure times still inside the window at `now`. */
  function Recent(times: seq<real>, now: real, window: real): seq<real> {
    if times == [] then []
    else
      (if now - times[0] < window then [times[0]] else []) + Recent(times[1..], now, window)
  }

  function Ask(s: UserState, now: real): Answer {
    match s.lockedUntil
    case None => Pass
    case Some(until) => if now < until then Refused(until - now) else Pass
  }

  /** `check` clears an expired lock, and only `check` does. */
  function AfterAsk(s: UserState, now: real): UserState {
    if s.lockedUntil.Some? && s.lockedUntil.value <= now then FRESH else s
  }

  function AfterFailure(limits: Limits, s: UserState, now: real): UserState {
    var failures := Recent(s.failures, now, limits.window) + [now];
    UserState(failures, if |failures| >= limits.maxAttempts then Some(now + limits.lockout) else s.lockedUntil)
  }

  /** The whole dictionary, as a value. */
  type Table = map<string, UserState>

  function Lookup(table: Table, user: string): UserState {
    if user in table then table[user] else FRESH
  }

  function Asked(table: Table, user: string, now: real): Table {
    if user in table then table[user := AfterAsk(table[user], now)] else table
  }

  function FailureRecorded(limits: Limits, table: Table, user: string, now: real): Table {
    table[user := AfterFailure(limits, Lookup(table, user), now)]
  }

  function Forgotten(table: Table, user: string): Table {
    table - {user}
  }

  class Entry {
    var failureTimes: seq<real>
    var lockedUntil: Option<real>

    constructor ()
      ensures Value() == FRESH
    {
      failureTimes := [];
      lockedUntil := None;
    }

    ghost function Value(): UserState
      reads this
    {
      UserState(failureTimes, lockedUntil)
    }

    method AddFailure(limits: Limits, now: real)
      modifies this
      ensures Value() == AfterFailure(limits, old(Value()), now)
    {
      failureTimes := Recent(failureTimes, now, limits.window);
      failureTimes := failureTimes + [now];
      if |failureTimes| >= limits.maxAttempts {
        lockedUntil := Some(now + limits.lockout);
      }
    }
  }

  class RateLimiter {
    const limits: Limits
    var state: map<string, Entry>

    /** No two usernames share an entry. */
    ghost predicate Valid()
      reads this
    {
      forall u, v :: u in state && v in state && u != v ==> state[u] != state[v]
    }

    ghost function View(): Table
      reads this, state.Values
    {
      map u | u in state :: state[u].Value()
    }

    constructor (limits: Limits)
      ensures Valid() && View() == map[] && this.limits == limits
    {
      this.limits := limits;
      state := map[];
    }

    method Check(username: string, now: real) returns (answer: Answer)
      requires Valid()
      modifies state.Values
      ensures Valid() && state == old(state)
      ensures answer == Ask(Lookup(old(View()), username), now)
      ensures View() == Asked(old(View()), username, now)
    {
      if username !in state || state[username].lockedUntil == None {
        return Pass;
      }
      var entry := state[username];
      if now < entry.lockedUntil.value {
        return Refused(entry.lockedUntil.value - now);
      }
      entry.lockedUntil := None;
      entry.failureTimes := [];
      return Pass;
    }

    /** The username's entry, made if there is none: the dictionary's setdefault. */
    method EntryFor(username: string) returns (entry: Entry)
      requires Valid()
      modifies this
      ensures Valid() && username in state && state[username] == entry
      ensures state.Values <= old(state.Values) + {entry}
      ensures username in old(state) ==> entry in old(state.Values) && state == old(state)
      ensures username !in old(state) ==>
                fresh(entry) && state == old(state)[username := entry] && entry.Value() == FRESH
    {
      if username in state {
        entry := state[username];
        assert entry in state.Values;
      } else {
        entry := new Entry();
        state := state[username := entry];
      }
    }

    method RecordFailure(username: string, now: real)
      requires Valid()
      modifies this, state.Values
      ensures Valid() && fresh(state.Values - old(state.Values))
      ensures View() == FailureRecorded(limits, old(View()), username, now)
    {
      var entry := EntryFor(username);
      entry.AddFailure(limits, now);
    }

    method Reset(username: string)
      requires Valid()
      modifies this
      ensures Valid() && state.Values <= old(state.Values)
      ensures View() == Forgotten(old(View()), username)
    {
      state := state - {username};
    }
  }
}

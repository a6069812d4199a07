/**
  The per-key attempt limiter of pingap-core/src/ttl_lru_limit.rs.

  `TtlLruLimit` is the object; the functions before it say what one call does to its store. The
  rest is about whole runs of calls that are single steps, in which callers ask first (`Check`), and
  later report an attempt (`Attempt`) or never do (`Abandon`), while the store may drop an entry at
  any moment (`Evict`). `TtlAccess` takes the calls apart into their accesses to the store.
 */
module TtlLimit {
  import opened Wrappers

  datatype Entry = Entry(count: nat, createdAt: u64)

  type Store = map<string, Entry>

  predicate Expired(ttl: u64, e: Entry, now: u64) {
    WrappingSub(now, e.createdAt) > ttl
  }

  /** With the clock set back, an entry of a later time is as old as 2^64 seconds less the difference. */
  lemma ExpiredExact(ttl: u64, e: Entry, now: u64)
    ensures Expired(ttl, e, now) <==>
            if e.createdAt <= now then e.createdAt + ttl < now
            else e.createdAt - now + ttl < 0x1_0000_0000_0000_0000
  {
  }

  /** The answer of `validate`. */
  predicate Permits(ttl: u64, max: nat, store: Store, key: string, now: u64) {
    key in store ==> Expired(ttl, store[key], now) || store[key].count < max
  }

  /** The store after `validate`: an expired entry is overwritten by the reset marker. */
  function AfterValidate(ttl: u64, store: Store, key: string, now: u64): Store {
    if key in store && Expired(ttl, store[key], now) then store[key := Entry(0, 0)] else store
  }

  /** The store after `inc`: a marked entry starts its window now. */
  function AfterInc(store: Store, key: string, now: u64): Store {
    if key in store then
      var e := store[key];
      store[key := Entry(e.count + 1, if e.createdAt == 0 then now else e.createdAt)]
    else
      store[key := Entry(1, now)]
  }

  class TtlLruLimit {
    const ttl: u64
    const max: nat
    var ufo: Store

    constructor (ttl: u64, max: nat)
      ensures this.ttl == ttl && this.max == max && ufo == map[]
    {
      this.ttl, this.max, ufo := ttl, max, map[];
    }

    method Validate(key: string, now: u64) returns (valid: bool)
      modifies this
      ensures valid <==> Permits(ttl, max, old(ufo), key, now)
      ensures ufo == AfterValidate(ttl, old(ufo), key, now)
    {
      var shouldReset := false;
      valid := false;
      if key in ufo {
        var value := ufo[key];
        if WrappingSub(now, value.createdAt) > ttl {
          valid := true;
          shouldReset := true;
        } else if value.count < max {
          valid := true;
        }
      } else {
        valid := true;
      }
      if shouldReset {
        ufo := ufo[key := Entry(0, 0)];
      }
    }

    method Inc(key: string, now: u64)
      modifies this
      ensures ufo == AfterInc(old(ufo), key, now)
    {
      var data;
      if key in ufo {
        data := ufo[key];
        if data.createdAt == 0 {
          data := data.(createdAt := now);
        }
        data := data.(count := data.count + 1);
      } else {
        data := Entry(1, now);
      }
      ufo := ufo[key := data];
    }
  }

  // ---------------------------------------------------------------------------------------------
  // Runs
  // ---------------------------------------------------------------------------------------------

  datatype Config = Config(ttl: u64, max: nat)

  datatype Event =
    | Check(key: string, now: u64)    // a caller asks
    | Attempt(key: string, now: u64)  // a caller that was permitted reports its attempt
    | Abandon(key: string, now: u64)  // a caller that was permitted never reports one
    | Evict(key: string, now: u64)    // the store drops the entry

  /** `pending` counts, per key, the callers that were permitted and have not reported yet. */
  datatype State = State(store: Store, pending: map<string, nat>, clock: u64) {
    function Pending(key: string): nat {
      if key in pending then pending[key] else 0
    }

    function Count(key: string): nat {
      if key in store then store[key].count else 0
    }
  }

  function Step(cfg: Config, s: State, e: Event): State {
    match e
    case Check(key, now) =>
      State(AfterValidate(cfg.ttl, s.store, key, now),
            if Permits(cfg.ttl, cfg.max, s.store, key, now)
            then s.pending[key := s.Pending(key) + 1] else s.pending,
            now)
    case Attempt(key, now) =>
      State(AfterInc(s.store, key, now), s.pending[key := Max(0, s.Pending(key) - 1)], now)
    case Abandon(key, now) =>
      State(s.store, s.pending[key := Max(0, s.Pending(key) - 1)], now)
    case Evict(key, now) =>
      State(s.store - {key}, s.pending, now)
  }

  function After(cfg: Config, events: seq<Event>): State {
    if events == [] then State(map[], map[], 0)
    else Step(cfg, After(cfg, events[..|events| - 1]), events[|events| - 1])
  }

  /**
    What the callers and the clock guarantee: the clock never goes back, only a permitted caller
    reports or gives up, only stored entries are evicted, and no more than `callers` callers are
    between their check and their report for one key.
   */
  predicate Legal(cfg: Config, callers: nat, events: seq<Event>) {
    events == [] ||
    (var before := After(cfg, events[..|events| - 1]);
     var e := events[|events| - 1];
     && Legal(cfg, callers, events[..|events| - 1])
     && before.clock <= e.now
     && ((e.Attempt? || e.Abandon?) ==> before.Pending(e.key) > 0)
     && (e.Evict? ==> e.key in before.store)
     && After(cfg, events).Pending(e.key) <= callers)
  }

  function Attempts(events: seq<Event>, key: string, lo: nat, hi: nat): nat {
    if events == [] then 0
    else
      var e := events[|events| - 1];
      Attempts(events[..|events| - 1], key, lo, hi)
      + if e.Attempt? && e.key == key && lo <= e.now <= hi then 1 else 0
  }

  function Evictions(events: seq<Event>, key: string, lo: nat, hi: nat): nat {
    if events == [] then 0
    else
      var e := events[|events| - 1];
      Evictions(events[..|events| - 1], key, lo, hi)
      + if e.Evict? && e.key == key && lo <= e.now <= hi then 1 else 0
  }

  /**
    What one window lets through: the limit, or 1 where the limit is 0 (a key without an entry is
    always permitted), and one more for each caller that asked together with the last one.
   */
  function PerWindow(cfg: Config, callers: nat): nat
    requires callers >= 1
  {
    Max(1, cfg.max) + callers - 1
  }

  /** Every window, together with the callers still to report into it, stays within its share. */
  lemma {:induction false} WindowBound(cfg: Config, callers: nat, events: seq<Event>, key: string)
    requires callers >= 1
    requires Legal(cfg, callers, events)
    ensures var s := After(cfg, events);
            && s.Count(key) + s.Pending(key) <= PerWindow(cfg, callers)
            && s.Pending(key) <= callers
            && (key in s.store ==> s.store[key].createdAt <= s.clock)
            && (key in s.store && s.store[key].count == 0 ==> s.store[key].createdAt == 0)
  {
    if events != [] {
      WindowBound(cfg, callers, events[..|events| - 1], key);
    }
  }

  /**
    The state seen from the interval that starts at `lo`, while it lasts: `n` attempts in it so
    far, against `budget`, one share more than the evictions in it. A window older than the
    interval spent at least one of its attempts before it.
   */
  predicate WithinBudget(s: State, key: string, lo: nat, n: nat, budget: nat) {
    if s.Count(key) > 0 && s.store[key].createdAt < lo then n < s.Count(key)
    else n < budget + s.Count(key)
  }

  /** One event of the interval: only an eviction needs a further share. */
  lemma BudgetStep(cfg: Config, callers: nat, s: State, e: Event, key: string, lo: nat, n: nat, budget: nat)
    requires callers >= 1
    requires s.clock <= e.now <= lo + cfg.ttl
    requires s.clock < lo ==> n == 0
    requires WithinBudget(s, key, lo, n, budget)
    requires s.Count(key) <= PerWindow(cfg, callers) <= budget
    requires key in s.store ==> s.store[key].createdAt <= s.clock
    requires key in s.store && s.store[key].count == 0 ==> s.store[key].createdAt == 0
    ensures WithinBudget(Step(cfg, s, e), key, lo,
                         n + (if e.Attempt? && e.key == key && lo <= e.now then 1 else 0),
                         budget + (if e.Evict? && e.key == key && lo <= e.now then PerWindow(cfg, callers) else 0))
  {
  }

  lemma Shares(n: nat, share: nat)
    ensures (n + 1) * share == n * share + share
    ensures n >= 1 ==> share <= n * share
  {
    if n >= 1 {
      assert n * share == share + (n - 1) * share;
    }
  }

  lemma {:induction false} IntervalBudget(cfg: Config, callers: nat, events: seq<Event>, key: string, lo: nat)
    requires callers >= 1
    requires Legal(cfg, callers, events)
    requires After(cfg, events).clock <= lo + cfg.ttl
    ensures WithinBudget(After(cfg, events), key, lo, Attempts(events, key, lo, lo + cfg.ttl),
                         (1 + Evictions(events, key, lo, lo + cfg.ttl)) * PerWindow(cfg, callers))
  {
    if events != [] {
      var prefix, e, hi := events[..|events| - 1], events[|events| - 1], lo + cfg.ttl;
      var share, evicted := PerWindow(cfg, callers), Evictions(prefix, key, lo, hi);
      WindowBound(cfg, callers, prefix, key);
      IntervalBudget(cfg, callers, prefix, key, lo);
      NoAttemptsBefore(cfg, callers, prefix, key, lo, hi);
      Shares(1 + evicted, share);
      BudgetStep(cfg, callers, After(cfg, prefix), e, key, lo, Attempts(prefix, key, lo, hi), (1 + evicted) * share);
    }
  }

  /** While the clock is before the interval, nothing has been counted in it. */
  lemma {:induction false} NoAttemptsBefore(cfg: Config, callers: nat, events: seq<Event>, key: string, lo: nat,
                                            hi: nat)
    requires Legal(cfg, callers, events)
    ensures After(cfg, events).clock < lo ==>
              Attempts(events, key, lo, hi) == 0 && Evictions(events, key, lo, hi) == 0
  {
    if events != [] {
      NoAttemptsBefore(cfg, callers, events[..|events| - 1], key, lo, hi);
    }
  }

  /**
    In every run of single steps, an interval of length `ttl` holds fewer attempts on a key than two
    windows' worth, plus one window's worth for each eviction of that key during the interval.
   */
  lemma {:induction false} SlidingWindow(cfg: Config, callers: nat, events: seq<Event>, key: string, lo: nat)
    requires callers >= 1
    requires Legal(cfg, callers, events)
    ensures Attempts(events, key, lo, lo + cfg.ttl)
            < (2 + Evictions(events, key, lo, lo + cfg.ttl)) * PerWindow(cfg, callers)
  {
    var hi := lo + cfg.ttl;
    var share, evicted := PerWindow(cfg, callers), Evictions(events, key, lo, hi);
    Shares(1 + evicted, share);
    if After(cfg, events).clock <= hi {
      IntervalBudget(cfg, callers, events, key, lo);
      WindowBound(cfg, callers, events, key);
    } else if events != [] {
      SlidingWindow(cfg, callers, events[..|events| - 1], key, lo);
    }
  }

  // ---------------------------------------------------------------------------------------------
  // The bound is attained
  // ---------------------------------------------------------------------------------------------

  lemma Snoc(cfg: Config, callers: nat, events: seq<Event>, e: Event)
    ensures After(cfg, events + [e]) == Step(cfg, After(cfg, events), e)
    ensures Legal(cfg, callers, events + [e])
            <==> && Legal(cfg, callers, events)
                 && After(cfg, events).clock <= e.now
                 && ((e.Attempt? || e.Abandon?) ==> After(cfg, events).Pending(e.key) > 0)
                 && (e.Evict? ==> e.key in After(cfg, events).store)
                 && After(cfg, events + [e]).Pending(e.key) <= callers
  {
    assert (events + [e])[..|events|] == events;
  }

  lemma SnocCounts(events: seq<Event>, e: Event, key: string, lo: nat, hi: nat)
    requires !e.Evict?
    ensures Attempts(events + [e], key, lo, hi) ==
            Attempts(events, key, lo, hi) + if e.Attempt? && e.key == key && lo <= e.now <= hi then 1 else 0
    ensures Evictions(events + [e], key, lo, hi) == Evictions(events, key, lo, hi)
  {
    assert (events + [e])[..|events|] == events;
  }

  /** A legal run with `n` attempts and no eviction in the interval that begins at `lo`. */
  predicate Uses(cfg: Config, events: seq<Event>, key: string, lo: nat, n: nat) {
    && Legal(cfg, 1, events) && Evictions(events, key, lo, lo + cfg.ttl) == 0
    && Attempts(events, key, lo, lo + cfg.ttl) == n
  }

  /** Nobody is pending, the clock is not past `now`, and `e` is stored for the key. */
  predicate Rests(s: State, key: string, now: u64, e: Entry) {
    s.clock <= now && s.Pending(key) == 0 && key in s.store && s.store[key] == e
  }

  function In(cfg: Config, lo: nat, now: u64): nat {
    if lo <= now <= lo + cfg.ttl then 1 else 0
  }

  /** One caller that is permitted and reports at once. */
  lemma Visit(cfg: Config, events: seq<Event>, key: string, now: u64, lo: nat, n: nat) returns (visited: seq<Event>)
    requires Uses(cfg, events, key, lo, n)
    requires var s := After(cfg, events);
             s.clock <= now && s.Pending(key) == 0 && Permits(cfg.ttl, cfg.max, s.store, key, now)
    ensures Uses(cfg, visited, key, lo, n + In(cfg, lo, now))
    ensures Rests(After(cfg, visited), key, now,
                  AfterInc(AfterValidate(cfg.ttl, After(cfg, events).store, key, now), key, now)[key])
  {
    var asked := events + [Check(key, now)];
    visited := asked + [Attempt(key, now)];
    Snoc(cfg, 1, events, Check(key, now));
    Snoc(cfg, 1, asked, Attempt(key, now));
    SnocCounts(events, Check(key, now), key, lo, lo + cfg.ttl);
    SnocCounts(asked, Attempt(key, now), key, lo, lo + cfg.ttl);
  }

  /** A caller that finds the window over. */
  lemma VisitAfter(cfg: Config, events: seq<Event>, key: string, last: u64, now: u64, e: Entry, lo: nat, n: nat)
    returns (visited: seq<Event>)
    requires Uses(cfg, events, key, lo, n) && Rests(After(cfg, events), key, last, e)
    requires 0 < e.createdAt && e.createdAt + cfg.ttl < now && last <= now
    ensures Uses(cfg, visited, key, lo, n + In(cfg, lo, now)) && Rests(After(cfg, visited), key, now, Entry(1, now))
  {
    visited := Visit(cfg, events, key, now, lo, n);
  }

  /** `k` callers one after the other, which fit the current window. */
  lemma {:induction false} Burst(cfg: Config, events: seq<Event>, key: string, last: u64, now: u64, k: nat, e: Entry,
                                 lo: nat, n: nat)
    returns (burst: seq<Event>)
    requires Uses(cfg, events, key, lo, n) && Rests(After(cfg, events), key, last, e)
    requires 0 < e.createdAt <= now <= e.createdAt + cfg.ttl && e.count + k <= cfg.max && last <= now
    ensures Uses(cfg, burst, key, lo, n + k * In(cfg, lo, now))
    ensures Rests(After(cfg, burst), key, now, Entry(e.count + k, e.createdAt))
  {
    if k == 0 {
      burst := events;
    } else {
      var before := Burst(cfg, events, key, last, now, k - 1, e, lo, n);
      burst := Visit(cfg, before, key, now, lo, n + (k - 1) * In(cfg, lo, now));
    }
  }

  /** The first caller is let through whatever the limit is, 0 included. */
  lemma FirstVisit(cfg: Config, key: string, lo: nat) returns (begun: seq<Event>)
    ensures Uses(cfg, begun, key, lo, In(cfg, lo, 1)) && Rests(After(cfg, begun), key, 1, Entry(1, 1))
  {
    begun := Visit(cfg, [], key, 1, lo, 0);
  }

  /**
    No smaller bound holds: one caller at a time, without evictions, reaches it. The window opened at
    time 1 is used up at its last moment, and the next one at once.
   */
  lemma BoundIsAttained(cfg: Config, key: string) returns (worst: seq<Event>)
    requires cfg.max >= 1 && 1 <= cfg.ttl && cfg.ttl + 2 < U64
    ensures Legal(cfg, 1, worst) && Evictions(worst, key, 2, 2 + cfg.ttl) == 0
    ensures Attempts(worst, key, 2, 2 + cfg.ttl) == 2 * PerWindow(cfg, 1) - 1
  {
    var atEnd, next, k := 1 + cfg.ttl, 2 + cfg.ttl, cfg.max - 1;
    var begun := FirstVisit(cfg, key, 2);
    var first := Burst(cfg, begun, key, 1, atEnd, k, Entry(1, 1), 2, 0);
    var second := VisitAfter(cfg, first, key, atEnd, next, Entry(cfg.max, 1), 2, k);
    worst := Burst(cfg, second, key, next, next, k, Entry(1, next), 2, cfg.max);
  }

  // ---------------------------------------------------------------------------------------------
  // Keys do not meet
  // ---------------------------------------------------------------------------------------------

  function Only(events: seq<Event>, key: string): seq<Event> {
    if events == [] then []
    else
      var rest, e := Only(events[..|events| - 1], key), events[|events| - 1];
      if e.key == key then rest + [e] else rest
  }

  predicate SameFor(s: State, t: State, key: string) {
    && (key in s.store <==> key in t.store)
    && (key in s.store ==> s.store[key] == t.store[key])
    && s.Pending(key) == t.Pending(key)
  }

  lemma StepKeepsSame(cfg: Config, s: State, t: State, e: Event, key: string)
    requires SameFor(s, t, key)
    ensures SameFor(Step(cfg, s, e), if e.key == key then Step(cfg, t, e) else t, key)
  {
  }

  /** What is stored for a key, and so every answer about it, depends on that key's events alone. */
  lemma {:induction false} KeysAreIndependent(cfg: Config, events: seq<Event>, key: string, now: u64)
    ensures SameFor(After(cfg, events), After(cfg, Only(events, key)), key)
    ensures Permits(cfg.ttl, cfg.max, After(cfg, events).store, key, now)
            <==> Permits(cfg.ttl, cfg.max, After(cfg, Only(events, key)).store, key, now)
  {
    if events != [] {
      var rest, e := events[..|events| - 1], events[|events| - 1];
      KeysAreIndependent(cfg, rest, key, now);
      StepKeepsSame(cfg, After(cfg, rest), After(cfg, Only(rest, key)), e, key);
      assert (Only(rest, key) + [e])[..|Only(rest, key)|] == Only(rest, key);
    }
  }
}

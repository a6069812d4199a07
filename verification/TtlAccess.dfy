/**
  The limiter of pingap-core/src/ttl_lru_limit.rs with callers on several threads. Each call reads
  the store and may write it back, in two accesses between which other calls can fall: `validate`
  resets an expired entry after it has read it, and `inc` writes the entry it has read, counted up.

  Calls that are not disturbed between their accesses are the single steps of `TtlLimit`, and its
  bound carries over. Calls that are can lose attempts, and then it does not.
 */
module TtlAccess {
  import opened Wrappers
  import T = TtlLimit

  /** A caller between its first access to the store and its last; `at` is the version it has read. */
  datatype Call =
    | Resetting(key: string, at: nat)                 // validate is to write the marker
    | Permitted(key: string)                          // validate has answered yes
    | Counting(key: string, data: T.Entry, at: nat)   // inc is to write the entry

  datatype Event =
    | CheckRead(id: nat, key: string, now: u64)
    | CheckWrite(id: nat, now: u64)
    | IncRead(id: nat, now: u64)
    | IncWrite(id: nat, now: u64)
    | Abandon(id: nat, now: u64)
    | Evict(key: string, now: u64)

  /** `versions` records how often the entry of a key was written or dropped. */
  datatype State = State(store: T.Store, versions: map<string, nat>, calls: map<nat, Call>, clock: u64) {
    function Version(key: string): nat {
      if key in versions then versions[key] else 0
    }

    /** The entry of the key has changed. */
    function With(key: string, store': T.Store, calls': map<nat, Call>): State {
      State(store', versions[key := Version(key) + 1], calls', clock)
    }
  }

  const START := State(map[], map[], map[], 0)

  /** Events that do not apply change nothing but the clock. */
  predicate Applies(s: State, e: Event) {
    match e
    case CheckRead(id, _, _) => id !in s.calls
    case CheckWrite(id, _) => id in s.calls && s.calls[id].Resetting?
    case IncRead(id, _) => id in s.calls && s.calls[id].Permitted?
    case IncWrite(id, _) => id in s.calls && s.calls[id].Counting?
    case Abandon(id, _) => id in s.calls && s.calls[id].Permitted?
    case Evict(key, _) => key in s.store
  }

  function KeyOf(s: State, e: Event): string
    requires Applies(s, e)
  {
    match e
    case CheckRead(_, key, _) => key
    case Evict(key, _) => key
    case _ => s.calls[e.id].key
  }

  function Act(cfg: T.Config, s: State, e: Event): State
    requires Applies(s, e)
  {
    var key := KeyOf(s, e);
    match e
    case CheckRead(id, _, now) =>
      if key in s.store && T.Expired(cfg.ttl, s.store[key], now)
      then s.(calls := s.calls[id := Resetting(key, s.Version(key))])
      else if T.Permits(cfg.ttl, cfg.max, s.store, key, now) then s.(calls := s.calls[id := Permitted(key)])
      else s
    case CheckWrite(id, _) => s.With(key, s.store[key := T.Entry(0, 0)], s.calls[id := Permitted(key)])
    case IncRead(id, now) =>
      s.(calls := s.calls[id := Counting(key, T.AfterInc(s.store, key, now)[key], s.Version(key))])
    case IncWrite(id, _) => s.With(key, s.store[key := s.calls[id].data], s.calls - {id})
    case Abandon(id, _) => s.(calls := s.calls - {id})
    case Evict(_, _) => s.With(key, s.store - {key}, s.calls)
  }

  function Step(cfg: T.Config, s: State, e: Event): State {
    (if Applies(s, e) then Act(cfg, s, e) else s).(clock := e.now)
  }

  function Run(cfg: T.Config, events: seq<Event>): State {
    if events == [] then START else Step(cfg, Run(cfg, events[..|events| - 1]), events[|events| - 1])
  }

  /** Between the two accesses of one call. */
  predicate MidCall(c: Call) {
    c.Resetting? || c.Counting?
  }

  /** Permitted, and yet to report. */
  predicate Waiting(c: Call) {
    c.Resetting? || c.Permitted?
  }

  function WaitingFor(calls: map<nat, Call>, key: string): set<nat> {
    set id | id in calls && calls[id].key == key && Waiting(calls[id])
  }

  /** An access to the key falls between the two accesses of another call on it. */
  predicate Disturbs(s: State, e: Event, key: string) {
    && Applies(s, e) && !e.Evict? && !e.Abandon? && KeyOf(s, e) == key
    && exists id :: id in s.calls && id != e.id && s.calls[id].key == key && MidCall(s.calls[id])
  }

  /** The clock never goes back, and at most `callers` callers wait for the key at any moment. */
  predicate Legal(cfg: T.Config, callers: nat, key: string, events: seq<Event>) {
    events == [] ||
    (var rest, e := events[..|events| - 1], events[|events| - 1];
     && Legal(cfg, callers, key, rest) && Run(cfg, rest).clock <= e.now
     && |WaitingFor(Run(cfg, events).calls, key)| <= callers)
  }

  predicate Undisturbed(cfg: T.Config, key: string, events: seq<Event>) {
    events == [] ||
    (var rest, e := events[..|events| - 1], events[|events| - 1];
     Undisturbed(cfg, key, rest) && !Disturbs(Run(cfg, rest), e, key))
  }

  predicate IsAttempt(s: State, e: Event, key: string, lo: nat, hi: nat) {
    e.IncRead? && Applies(s, e) && KeyOf(s, e) == key && lo <= e.now <= hi
  }

  /** The attempts on the key, each at the time at which it read the store. */
  function Attempts(cfg: T.Config, events: seq<Event>, key: string, lo: nat, hi: nat): nat {
    if events == [] then 0
    else
      var rest := events[..|events| - 1];
      Attempts(cfg, rest, key, lo, hi) + if IsAttempt(Run(cfg, rest), events[|events| - 1], key, lo, hi) then 1 else 0
  }

  function Evictions(cfg: T.Config, events: seq<Event>, key: string, lo: nat, hi: nat): nat {
    if events == [] then 0
    else
      var rest, e := events[..|events| - 1], events[|events| - 1];
      Evictions(cfg, rest, key, lo, hi) +
      if e == Evict(key, e.now) && key in Run(cfg, rest).store && lo <= e.now <= hi then 1 else 0
  }

  // ---------------------------------------------------------------------------------------------
  // Undisturbed calls are single steps
  // ---------------------------------------------------------------------------------------------

  /** The entry as it will be once the call that is in its middle has written. */
  predicate Settled(s: State, key: string, entry: Option<T.Entry>) {
    && (forall id :: id in s.calls && s.calls[id].key == key && MidCall(s.calls[id]) ==>
          entry == Some(if s.calls[id].Resetting? then T.Entry(0, 0) else s.calls[id].data))
    && ((forall id :: id in s.calls && s.calls[id].key == key ==> !MidCall(s.calls[id])) ==>
          entry == if key in s.store then Some(s.store[key]) else None)
  }

  predicate OnKey(c: Call, key: string) {
    c.key == key && MidCall(c)
  }

  predicate OneMidCall(s: State, key: string) {
    forall i, j :: i in s.calls && j in s.calls && OnKey(s.calls[i], key) && OnKey(s.calls[j], key) ==> i == j
  }

  function EntryOf(t: T.State, key: string): Option<T.Entry> {
    if key in t.store then Some(t.store[key]) else None
  }

  /** The key looks as it does in the run of single steps. */
  predicate Simulates(s: State, t: T.State, key: string) {
    && OneMidCall(s, key) && Settled(s, key, EntryOf(t, key))
    && t.Pending(key) == |WaitingFor(s.calls, key)| && t.clock <= s.clock
  }

  predicate SomeMidCall(s: State, key: string) {
    exists id :: id in s.calls && s.calls[id].key == key && MidCall(s.calls[id])
  }

  /** The single step that an access stands for, if it is a call's first. */
  function StepOf(s: State, e: Event, key: string): seq<T.Event> {
    if !Applies(s, e) || KeyOf(s, e) != key then []
    else match e
      case CheckRead(_, _, now) => [T.Check(key, now)]
      case IncRead(_, now) => [T.Attempt(key, now)]
      case Abandon(_, now) => [T.Abandon(key, now)]
      case Evict(_, now) => if SomeMidCall(s, key) then [] else [T.Evict(key, now)]
      case _ => []
  }

  function StepsOf(cfg: T.Config, events: seq<Event>, key: string): seq<T.Event> {
    if events == [] then []
    else
      var rest := events[..|events| - 1];
      StepsOf(cfg, rest, key) + StepOf(Run(cfg, rest), events[|events| - 1], key)
  }

  function Stepped(cfg: T.Config, t: T.State, steps: seq<T.Event>): T.State
    requires |steps| <= 1
  {
    if steps == [] then t else T.Step(cfg, t, steps[0])
  }

  lemma WaitingPut(calls: map<nat, Call>, id: nat, c: Call, key: string)
    ensures WaitingFor(calls[id := c], key) ==
            if c.key == key && Waiting(c) then WaitingFor(calls, key) + {id} else WaitingFor(calls, key) - {id}
  {
  }

  lemma WaitingDrop(calls: map<nat, Call>, id: nat, key: string)
    ensures WaitingFor(calls - {id}, key) == WaitingFor(calls, key) - {id}
  {
  }

  /** Nobody is in the middle of a call, so the store says what the single steps do. */
  lemma Idle(s: State, t: T.State, key: string)
    requires Simulates(s, t, key) && !SomeMidCall(s, key)
    ensures key in s.store <==> key in t.store
    ensures key in s.store ==> s.store[key] == t.store[key]
  {
  }

  /** A caller starts to wait, and perhaps is to write the marker. */
  lemma Joins(s: State, t: T.State, key: string, id: nat, c: Call, now: u64, t': T.State)
    requires Simulates(s, t, key) && !SomeMidCall(s, key) && id !in s.calls && c.key == key && Waiting(c)
    requires EntryOf(t', key) == if c.Resetting? then Some(T.Entry(0, 0)) else EntryOf(t, key)
    requires t'.Pending(key) == t.Pending(key) + 1 && t'.clock <= now
    ensures Simulates(s.(calls := s.calls[id := c], clock := now), t', key)
  {
    WaitingPut(s.calls, id, c, key);
    assert id !in WaitingFor(s.calls, key);
    var s' := s.(calls := s.calls[id := c], clock := now);
    assert forall j :: j in s'.calls && j != id ==> s'.calls[j] == s.calls[j];
    assert id in s'.calls && s'.calls[id].key == key;
  }

  lemma CheckReadSimulates(cfg: T.Config, s: State, t: T.State, e: Event, key: string)
    requires Simulates(s, t, key) && e.CheckRead? && Applies(s, e) && e.key == key && !Disturbs(s, e, key)
    requires s.clock <= e.now
    ensures Simulates(Step(cfg, s, e), T.Step(cfg, t, T.Check(key, e.now)), key)
  {
    assert !SomeMidCall(s, key);
    Idle(s, t, key);
    var t' := T.Step(cfg, t, T.Check(key, e.now));
    if T.Permits(cfg.ttl, cfg.max, s.store, key, e.now) {
      var c := if key in s.store && T.Expired(cfg.ttl, s.store[key], e.now)
        then Resetting(key, s.Version(key)) else Permitted(key);
      assert EntryOf(t', key) == if c.Resetting? then Some(T.Entry(0, 0)) else EntryOf(t, key);
      Joins(s, t, key, e.id, c, e.now, t');
    }
  }

  predicate NobodyMidCall(calls: map<nat, Call>, key: string) {
    forall id :: id in calls && calls[id].key == key ==> !MidCall(calls[id])
  }

  /** A call writes what it was in the middle of writing, and then nobody is in the middle of a call. */
  lemma Written(s: State, s': State, t: T.State, key: string, id: nat)
    requires Simulates(s, t, key) && id in s.calls && OnKey(s.calls[id], key)
    requires EntryOf(t, key) == Some(if s.calls[id].Resetting? then T.Entry(0, 0) else s.calls[id].data) ==>
               key in s'.store && Some(s'.store[key]) == EntryOf(t, key)
    requires NobodyMidCall(s'.calls, key) && |WaitingFor(s'.calls, key)| == |WaitingFor(s.calls, key)|
    requires s.clock <= s'.clock
    ensures Simulates(s', t, key)
  {
  }

  lemma CheckWriteSimulates(cfg: T.Config, s: State, t: T.State, e: Event, key: string)
    requires Simulates(s, t, key) && e.CheckWrite? && Applies(s, e) && KeyOf(s, e) == key
    requires s.clock <= e.now
    ensures Simulates(Step(cfg, s, e), t, key)
  {
    WaitingPut(s.calls, e.id, Permitted(key), key);
    assert WaitingFor(s.calls, key) + {e.id} == WaitingFor(s.calls, key);
    assert NobodyMidCall(s.calls[e.id := Permitted(key)], key);
    Written(s, Step(cfg, s, e), t, key, e.id);
  }

  lemma IncReadSimulates(cfg: T.Config, s: State, t: T.State, e: Event, key: string)
    requires Simulates(s, t, key) && e.IncRead? && Applies(s, e) && KeyOf(s, e) == key && !Disturbs(s, e, key)
    requires s.clock <= e.now
    ensures t.Pending(key) > 0
    ensures Simulates(Step(cfg, s, e), T.Step(cfg, t, T.Attempt(key, e.now)), key)
  {
    assert !SomeMidCall(s, key);
    Idle(s, t, key);
    var data := T.AfterInc(s.store, key, e.now)[key];
    WaitingPut(s.calls, e.id, Counting(key, data, s.Version(key)), key);
    assert e.id in WaitingFor(s.calls, key);
  }

  lemma IncWriteSimulates(cfg: T.Config, s: State, t: T.State, e: Event, key: string)
    requires Simulates(s, t, key) && e.IncWrite? && Applies(s, e) && KeyOf(s, e) == key
    requires s.clock <= e.now
    ensures Simulates(Step(cfg, s, e), t, key)
  {
    WaitingDrop(s.calls, e.id, key);
    assert WaitingFor(s.calls, key) - {e.id} == WaitingFor(s.calls, key);
    assert NobodyMidCall(s.calls - {e.id}, key);
    Written(s, Step(cfg, s, e), t, key, e.id);
  }

  lemma AbandonSimulates(cfg: T.Config, s: State, t: T.State, e: Event, key: string)
    requires Simulates(s, t, key) && e.Abandon? && Applies(s, e) && KeyOf(s, e) == key
    requires s.clock <= e.now
    ensures t.Pending(key) > 0
    ensures Simulates(Step(cfg, s, e), T.Step(cfg, t, T.Abandon(key, e.now)), key)
  {
    WaitingDrop(s.calls, e.id, key);
    assert e.id in WaitingFor(s.calls, key);
    var s' := Step(cfg, s, e);
    assert forall id :: id in s.calls && MidCall(s.calls[id]) ==> id in s'.calls && s'.calls[id] == s.calls[id];
  }

  lemma EvictSimulates(cfg: T.Config, s: State, t: T.State, e: Event, key: string)
    requires Simulates(s, t, key) && e.Evict? && Applies(s, e) && e.key == key
    requires s.clock <= e.now
    ensures !SomeMidCall(s, key) ==> key in t.store
    ensures Simulates(Step(cfg, s, e), if SomeMidCall(s, key) then t else T.Step(cfg, t, T.Evict(key, e.now)), key)
  {
    if !SomeMidCall(s, key) {
      Idle(s, t, key);
    }
  }

  /** Nothing about the key has changed. */
  predicate SameKey(s: State, s': State, key: string) {
    && (key in s.store <==> key in s'.store) && (key in s.store ==> s.store[key] == s'.store[key])
    && (forall id :: id in s.calls && s.calls[id].key == key ==> id in s'.calls && s'.calls[id] == s.calls[id])
    && (forall id :: id in s'.calls && s'.calls[id].key == key ==> id in s.calls && s'.calls[id] == s.calls[id])
  }

  lemma SameKeySimulates(s: State, s': State, t: T.State, key: string)
    requires Simulates(s, t, key) && SameKey(s, s', key) && s.clock <= s'.clock
    ensures Simulates(s', t, key)
  {
    assert WaitingFor(s'.calls, key) == WaitingFor(s.calls, key);
  }

  lemma OtherSimulates(cfg: T.Config, s: State, t: T.State, e: Event, key: string)
    requires Simulates(s, t, key) && (Applies(s, e) ==> KeyOf(s, e) != key)
    requires s.clock <= e.now
    ensures Simulates(Step(cfg, s, e), t, key)
  {
    SameKeySimulates(s, Step(cfg, s, e), t, key);
  }

  lemma StepSimulates(cfg: T.Config, s: State, t: T.State, e: Event, key: string)
    requires Simulates(s, t, key) && !Disturbs(s, e, key) && s.clock <= e.now
    ensures var steps := StepOf(s, e, key);
      && |steps| <= 1 && Simulates(Step(cfg, s, e), Stepped(cfg, t, steps), key)
      && (steps != [] ==>
            && steps[0].key == key && steps[0].now == e.now && t.clock <= e.now
            && (steps[0].Attempt? || steps[0].Abandon? ==> t.Pending(key) > 0)
            && (steps[0].Evict? ==> key in t.store))
  {
    if !Applies(s, e) || KeyOf(s, e) != key {
      OtherSimulates(cfg, s, t, e, key);
    } else {
      match e
      case CheckRead(_, _, _) => CheckReadSimulates(cfg, s, t, e, key);
      case CheckWrite(_, _) => CheckWriteSimulates(cfg, s, t, e, key);
      case IncRead(_, _) => IncReadSimulates(cfg, s, t, e, key);
      case IncWrite(_, _) => IncWriteSimulates(cfg, s, t, e, key);
      case Abandon(_, _) => AbandonSimulates(cfg, s, t, e, key);
      case Evict(_, _) => EvictSimulates(cfg, s, t, e, key);
    }
  }

  lemma OneMore(cfg: T.Config, callers: nat, steps: seq<T.Event>, more: seq<T.Event>, key: string, lo: nat, hi: nat)
    requires |more| <= 1 && T.Legal(cfg, callers, steps)
    requires var t := T.After(cfg, steps);
      more != [] ==>
        && more[0].key == key && t.clock <= more[0].now
        && (more[0].Attempt? || more[0].Abandon? ==> t.Pending(key) > 0)
        && (more[0].Evict? ==> key in t.store)
        && T.Step(cfg, t, more[0]).Pending(key) <= callers
    ensures T.Legal(cfg, callers, steps + more) && T.After(cfg, steps + more) == Stepped(cfg, T.After(cfg, steps), more)
    ensures T.Attempts(steps + more, key, lo, hi) ==
            T.Attempts(steps, key, lo, hi) + if more != [] && more[0].Attempt? && lo <= more[0].now <= hi then 1 else 0
    ensures T.Evictions(steps + more, key, lo, hi) ==
            T.Evictions(steps, key, lo, hi) + if more != [] && more[0].Evict? && lo <= more[0].now <= hi then 1 else 0
  {
    if more == [] {
      assert steps + more == steps;
    } else {
      assert more == [more[0]];
      T.Snoc(cfg, callers, steps, more[0]);
      assert (steps + more)[..|steps|] == steps;
    }
  }

  /** The single steps of an undisturbed run: legal, with the same attempts and no further evictions. */
  lemma {:induction false} RunSimulates(cfg: T.Config, callers: nat, events: seq<Event>, key: string, lo: nat, hi: nat)
    requires Legal(cfg, callers, key, events) && Undisturbed(cfg, key, events)
    ensures var steps := StepsOf(cfg, events, key);
      && T.Legal(cfg, callers, steps) && Simulates(Run(cfg, events), T.After(cfg, steps), key)
      && T.Attempts(steps, key, lo, hi) == Attempts(cfg, events, key, lo, hi)
      && T.Evictions(steps, key, lo, hi) <= Evictions(cfg, events, key, lo, hi)
  {
    if events != [] {
      var rest, e := events[..|events| - 1], events[|events| - 1];
      RunSimulates(cfg, callers, rest, key, lo, hi);
      var steps, more := StepsOf(cfg, rest, key), StepOf(Run(cfg, rest), e, key);
      StepSimulates(cfg, Run(cfg, rest), T.After(cfg, steps), e, key);
      OneMore(cfg, callers, steps, more, key, lo, hi);
    }
  }

  lemma MoreEvictions(attempts: nat, n: nat, m: nat, share: nat)
    requires n <= m && attempts < (2 + n) * share
    ensures attempts < (2 + m) * share
  {
    assert (2 + m) * share == (2 + n) * share + (m - n) * share;
  }

  lemma LegalSteps(cfg: T.Config, callers: nat, events: seq<Event>, key: string, lo: nat, hi: nat)
    returns (steps: seq<T.Event>)
    requires Legal(cfg, callers, key, events) && Undisturbed(cfg, key, events)
    ensures T.Legal(cfg, callers, steps) && Attempts(cfg, events, key, lo, hi) == T.Attempts(steps, key, lo, hi)
    ensures T.Evictions(steps, key, lo, hi) <= Evictions(cfg, events, key, lo, hi)
  {
    RunSimulates(cfg, callers, events, key, lo, hi);
    steps := StepsOf(cfg, events, key);
  }

  lemma BoundFromSteps(cfg: T.Config, callers: nat, steps: seq<T.Event>, key: string, lo: nat,
                       attempts: nat, evictions: nat)
    requires callers >= 1 && T.Legal(cfg, callers, steps)
    requires attempts == T.Attempts(steps, key, lo, lo + cfg.ttl)
    requires T.Evictions(steps, key, lo, lo + cfg.ttl) <= evictions
    ensures attempts < (2 + evictions) * T.PerWindow(cfg, callers)
  {
    T.SlidingWindow(cfg, callers, steps, key, lo);
    MoreEvictions(attempts, T.Evictions(steps, key, lo, lo + cfg.ttl), evictions, T.PerWindow(cfg, callers));
  }

  /**
    The guarantee. In every run in which no access to a key falls between the two accesses of another
    call on it, an interval of length `ttl` holds fewer attempts on the key than two windows' worth,
    plus one window's worth for each eviction of the key during the interval.
   */
  lemma SlidingWindow(cfg: T.Config, callers: nat, events: seq<Event>, key: string, lo: nat)
    requires callers >= 1 && Legal(cfg, callers, key, events) && Undisturbed(cfg, key, events)
    ensures Attempts(cfg, events, key, lo, lo + cfg.ttl)
            < (2 + Evictions(cfg, events, key, lo, lo + cfg.ttl)) * T.PerWindow(cfg, callers)
  {
    var hi := lo + cfg.ttl;
    var steps := LegalSteps(cfg, callers, events, key, lo, hi);
    BoundFromSteps(cfg, callers, steps, key, lo, Attempts(cfg, events, key, lo, hi),
                   Evictions(cfg, events, key, lo, hi));
  }

  // ---------------------------------------------------------------------------------------------
  // Lost attempts
  // ---------------------------------------------------------------------------------------------

  lemma RunPush(cfg: T.Config, events: seq<Event>, e: Event, key: string, lo: nat, hi: nat)
    ensures Run(cfg, events + [e]) == Step(cfg, Run(cfg, events), e)
    ensures Attempts(cfg, events + [e], key, lo, hi) ==
            Attempts(cfg, events, key, lo, hi) + if IsAttempt(Run(cfg, events), e, key, lo, hi) then 1 else 0
  {
    assert (events + [e])[..|events|] == events;
  }

  lemma LegalPush(cfg: T.Config, callers: nat, key: string, events: seq<Event>, e: Event)
    requires Legal(cfg, callers, key, events) && Run(cfg, events).clock <= e.now
    requires |WaitingFor(Run(cfg, events + [e]).calls, key)| <= callers
    ensures Legal(cfg, callers, key, events + [e])
  {
    assert (events + [e])[..|events|] == events;
  }

  /** Nothing is stored, and the callers with numbers below `n` are to write. */
  predicate AllRead(s: State, n: nat, now: u64) {
    s.store == map[] && s.clock <= now && forall id :: id in s.calls ==> id < n && s.calls[id].Counting?
  }

  lemma CheckStep(cfg: T.Config, s: State, key: string, n: nat, now: u64)
    requires AllRead(s, n, now)
    ensures var s' := Step(cfg, s, CheckRead(n, key, now));
      && s'.store == map[] && s'.clock == now
      && s'.calls == s.calls[n := Permitted(key)] && |WaitingFor(s'.calls, key)| == 1
  {
    assert WaitingFor(s.calls[n := Permitted(key)], key) == {n};
  }

  lemma ReadStep(cfg: T.Config, s: State, key: string, n: nat, now: u64)
    requires s.store == map[] && s.clock == now && n in s.calls && s.calls[n] == Permitted(key)
    requires forall id :: id in s.calls && id != n ==> id < n && s.calls[id].Counting?
    ensures var s' := Step(cfg, s, IncRead(n, now));
      IsAttempt(s, IncRead(n, now), key, now, now) && AllRead(s', n + 1, now) && |WaitingFor(s'.calls, key)| == 0
  {
    assert WaitingFor(Step(cfg, s, IncRead(n, now)).calls, key) == {};
  }

  /** One more caller checks and reads. */
  lemma OneMoreReads(cfg: T.Config, key: string, now: u64, events: seq<Event>, n: nat) returns (more: seq<Event>)
    requires Legal(cfg, 1, key, events) && AllRead(Run(cfg, events), n, now)
    ensures Legal(cfg, 1, key, more) && AllRead(Run(cfg, more), n + 1, now)
    ensures Attempts(cfg, more, key, now, now + cfg.ttl) == Attempts(cfg, events, key, now, now + cfg.ttl) + 1
  {
    var checked := events + [CheckRead(n, key, now)];
    CheckStep(cfg, Run(cfg, events), key, n, now);
    RunPush(cfg, events, CheckRead(n, key, now), key, now, now + cfg.ttl);
    LegalPush(cfg, 1, key, events, CheckRead(n, key, now));
    more := checked + [IncRead(n, now)];
    ReadStep(cfg, Run(cfg, checked), key, n, now);
    RunPush(cfg, checked, IncRead(n, now), key, now, now + cfg.ttl);
    LegalPush(cfg, 1, key, checked, IncRead(n, now));
  }

  /**
    Without that premise there is no bound at all: whatever the limit and the time to live, and with
    one caller at a time waiting, a run of a single moment lets through any number of attempts, each
    of which reads the store before another is written back.
   */
  lemma {:induction false} AttemptsAreLost(cfg: T.Config, key: string, now: u64, n: nat) returns (events: seq<Event>)
    ensures Legal(cfg, 1, key, events) && AllRead(Run(cfg, events), n, now)
    ensures Attempts(cfg, events, key, now, now + cfg.ttl) == n
  {
    events := [];
    if n > 0 {
      events := AttemptsAreLost(cfg, key, now, n - 1);
      events := OneMoreReads(cfg, key, now, events, n - 1);
    }
  }
}

/**
  What the limiter of pingap-core/src/ttl_lru_limit.rs guarantees in every run, disturbed or not: a
  call that writes back what it has read of an entry that was changed in between is stale, and each
  stale write costs the bound two windows at most.
 */
module TtlStale {
  import opened Wrappers
  import opened TtlAccess
  import T = TtlLimit

  function CallsOn(calls: map<nat, Call>, key: string): set<nat> {
    set id | id in calls && calls[id].key == key
  }

  /** The callers that were permitted and have not read the store again. */
  function Ready(calls: map<nat, Call>, key: string): set<nat> {
    set id | id in calls && calls[id].key == key && calls[id].Permitted?
  }

  /** The callers whose attempt is not written yet. */
  function Unwritten(calls: map<nat, Call>, key: string): set<nat> {
    set id | id in calls && calls[id].key == key && calls[id].Counting?
  }

  /** The clock never goes back, and at most `callers` calls on the key are under way at any moment. */
  predicate Timely(cfg: T.Config, callers: nat, key: string, events: seq<Event>) {
    events == [] ||
    (var rest, e := events[..|events| - 1], events[|events| - 1];
     && Timely(cfg, callers, key, rest) && Run(cfg, rest).clock <= e.now
     && |CallsOn(Run(cfg, events).calls, key)| <= callers)
  }

  /** The event writes back to an entry that has changed since the call has read it. */
  predicate IsStale(s: State, e: Event, key: string) {
    && (e.CheckWrite? || e.IncWrite?) && Applies(s, e) && KeyOf(s, e) == key
    && s.calls[e.id].at != s.Version(key)
  }

  function StaleWrites(cfg: T.Config, events: seq<Event>, key: string, lo: nat, hi: nat): nat {
    if events == [] then 0
    else
      var rest, e := events[..|events| - 1], events[|events| - 1];
      StaleWrites(cfg, rest, key, lo, hi) + if IsStale(Run(cfg, rest), e, key) && lo <= e.now <= hi then 1 else 0
  }

  // ---------------------------------------------------------------------------------------------
  // What the calls under way have read
  // ---------------------------------------------------------------------------------------------

  function EntryAt(s: State, key: string): Option<T.Entry> {
    if key in s.store then Some(s.store[key]) else None
  }

  function CountOf(entry: Option<T.Entry>): nat {
    if entry.Some? then entry.value.count else 0
  }

  /** A call has read no later version and holds no later time; of the present version it has read the entry. */
  predicate CallSane(ttl: u64, entry: Option<T.Entry>, version: nat, clock: u64, c: Call) {
    && (!c.Permitted? ==> c.at <= version)
    && (c.Counting? ==> c.data.createdAt <= clock)
    && (c.Resetting? && c.at == version ==> entry.Some? && entry.value.createdAt + ttl < clock)
    && (c.Counting? && c.at == version ==>
          && c.data.count == CountOf(entry) + 1
          && (entry.Some? && entry.value.createdAt != 0 ==> c.data.createdAt == entry.value.createdAt))
  }

  predicate Sane(cfg: T.Config, s: State, key: string) {
    && (key in s.store ==> s.store[key].createdAt <= s.clock)
    && (forall id :: id in s.calls && s.calls[id].key == key ==>
          CallSane(cfg.ttl, EntryAt(s, key), s.Version(key), s.clock, s.calls[id]))
  }

  lemma CallAges(ttl: u64, entry: Option<T.Entry>, version: nat, clock: u64, clock': u64, c: Call)
    requires CallSane(ttl, entry, version, clock, c) && clock <= clock'
    ensures CallSane(ttl, entry, version, clock', c)
  {
  }

  lemma CallFallsBehind(ttl: u64, entry: Option<T.Entry>, version: nat, clock: u64, entry': Option<T.Entry>,
                        clock': u64, c: Call)
    requires CallSane(ttl, entry, version, clock, c) && clock <= clock'
    ensures CallSane(ttl, entry', version + 1, clock', c)
  {
  }

  /** The entry of the key stays as it is; at most the call `id` is new on it. */
  lemma SaneWithCall(cfg: T.Config, s: State, s': State, key: string, id: nat)
    requires Sane(cfg, s, key) && s.clock <= s'.clock
    requires EntryAt(s', key) == EntryAt(s, key) && s'.Version(key) == s.Version(key)
    requires forall j :: j in s'.calls && s'.calls[j].key == key && j != id ==>
             j in s.calls && s.calls[j] == s'.calls[j]
    requires id in s'.calls && s'.calls[id].key == key ==>
             CallSane(cfg.ttl, EntryAt(s, key), s.Version(key), s'.clock, s'.calls[id])
    ensures Sane(cfg, s', key)
  {
    forall j | j in s'.calls && s'.calls[j].key == key && j != id
      ensures CallSane(cfg.ttl, EntryAt(s', key), s'.Version(key), s'.clock, s'.calls[j])
    {
      CallAges(cfg.ttl, EntryAt(s, key), s.Version(key), s.clock, s'.clock, s.calls[j]);
    }
  }

  /** The entry of the key is written or dropped. */
  lemma SaneAfterWrite(cfg: T.Config, s: State, s': State, key: string, id: nat)
    requires Sane(cfg, s, key) && s.clock <= s'.clock && s'.Version(key) == s.Version(key) + 1
    requires key in s'.store ==> s'.store[key].createdAt <= s'.clock
    requires forall j :: j in s'.calls && s'.calls[j].key == key && j != id ==>
             j in s.calls && s.calls[j] == s'.calls[j]
    requires id in s'.calls ==> s'.calls[id].Permitted? || (id in s.calls && s.calls[id] == s'.calls[id])
    ensures Sane(cfg, s', key)
  {
    forall j | j in s'.calls && s'.calls[j].key == key && !s'.calls[j].Permitted?
      ensures CallSane(cfg.ttl, EntryAt(s', key), s'.Version(key), s'.clock, s'.calls[j])
    {
      CallFallsBehind(cfg.ttl, EntryAt(s, key), s.Version(key), s.clock, EntryAt(s', key), s'.clock, s.calls[j]);
    }
  }

  lemma ReadsCurrent(ttl: u64, store: T.Store, version: nat, key: string, now: u64)
    requires key in store ==> store[key].createdAt <= now
    ensures var entry := if key in store then Some(store[key]) else None;
      CallSane(ttl, entry, version, now, Counting(key, T.AfterInc(store, key, now)[key], version))
    ensures key in store && T.Expired(ttl, store[key], now) ==> store[key].createdAt + ttl < now
  {
  }

  lemma WriteStaysSane(cfg: T.Config, s: State, e: Event, key: string)
    requires Sane(cfg, s, key) && s.clock <= e.now && Applies(s, e) && KeyOf(s, e) == key
    requires e.CheckWrite? || e.IncWrite? || e.Evict?
    ensures Sane(cfg, Step(cfg, s, e), key)
  {
    SaneAfterWrite(cfg, s, Step(cfg, s, e), key, if e.Evict? then 0 else e.id);
  }

  lemma ReadStaysSane(cfg: T.Config, s: State, e: Event, key: string)
    requires Sane(cfg, s, key) && s.clock <= e.now && Applies(s, e) && KeyOf(s, e) == key
    requires e.CheckRead? || e.IncRead? || e.Abandon?
    ensures Sane(cfg, Step(cfg, s, e), key)
  {
    ReadsCurrent(cfg.ttl, s.store, s.Version(key), key, e.now);
    SaneWithCall(cfg, s, Step(cfg, s, e), key, e.id);
  }

  lemma OtherStaysSane(cfg: T.Config, s: State, e: Event, key: string)
    requires Sane(cfg, s, key) && s.clock <= e.now && (Applies(s, e) ==> KeyOf(s, e) != key)
    ensures Sane(cfg, Step(cfg, s, e), key)
  {
    SaneWithCall(cfg, s, Step(cfg, s, e), key, if e.Evict? then 0 else e.id);
  }

  lemma StaysSane(cfg: T.Config, s: State, e: Event, key: string)
    requires Sane(cfg, s, key) && s.clock <= e.now
    ensures Sane(cfg, Step(cfg, s, e), key)
  {
    if !Applies(s, e) || KeyOf(s, e) != key {
      OtherStaysSane(cfg, s, e, key);
    } else if e.CheckWrite? || e.IncWrite? || e.Evict? {
      WriteStaysSane(cfg, s, e, key);
    } else {
      ReadStaysSane(cfg, s, e, key);
    }
  }

  // ---------------------------------------------------------------------------------------------
  // The ledger of an interval
  // ---------------------------------------------------------------------------------------------

  /** What one epoch of the entry, between two times it is begun anew, lets through. */
  function Share(cfg: T.Config, callers: nat): nat {
    Max(1, cfg.max) + callers
  }

  /** What the present epoch has let through at most: all calls count until the limit is reached. */
  function Passed(cfg: T.Config, callers: nat, count: nat, ready: nat, unwritten: nat): nat {
    if count < Max(1, cfg.max) then count + ready + unwritten else Share(cfg, callers)
  }

  /** The window began before the interval. */
  predicate Older(entry: Option<T.Entry>, lo: nat) {
    entry.Some? && entry.value.createdAt < lo && entry.value != T.Entry(0, 0)
  }

  /** `n` attempts so far; `budget` is a share for each epoch that the interval may begin. */
  predicate Balanced(cfg: T.Config, callers: nat, entry: Option<T.Entry>, lo: nat, n: nat, ready: nat,
                     unwritten: nat, budget: nat) {
    && ready + unwritten <= callers && Share(cfg, callers) <= budget
    && n + ready <= (if Older(entry, lo) then budget - Share(cfg, callers) else budget)
                    + Passed(cfg, callers, CountOf(entry), ready, unwritten)
  }

  /** A call that read before the interval can only write an attempt of it if none was written since. */
  predicate EarlyRead(entry: Option<T.Entry>, version: nat, lo: nat, c: Call) {
    c.Counting? && c.at == version && c.data.createdAt < lo && !Older(entry, lo)
  }

  lemma PassedIsAShare(cfg: T.Config, callers: nat, count: nat, ready: nat, unwritten: nat)
    requires ready + unwritten <= callers
    ensures ready <= Passed(cfg, callers, count, ready, unwritten) <= Share(cfg, callers)
  {
  }

  lemma NothingYet(cfg: T.Config, callers: nat, entry: Option<T.Entry>, lo: nat, ready: nat, unwritten: nat,
                   budget: nat)
    requires ready + unwritten <= callers && Share(cfg, callers) <= budget
    ensures Balanced(cfg, callers, entry, lo, 0, ready, unwritten, budget)
  {
    PassedIsAShare(cfg, callers, CountOf(entry), ready, unwritten);
  }

  lemma Admits(cfg: T.Config, callers: nat, entry: Option<T.Entry>, lo: nat, n: nat, ready: nat, unwritten: nat,
               budget: nat)
    requires Balanced(cfg, callers, entry, lo, n, ready, unwritten, budget) && ready + 1 + unwritten <= callers
    requires entry.Some? ==> entry.value.count < cfg.max
    ensures Balanced(cfg, callers, entry, lo, n, ready + 1, unwritten, budget)
  {
  }

  lemma Reads(cfg: T.Config, callers: nat, entry: Option<T.Entry>, lo: nat, n: nat, ready: nat, unwritten: nat,
              budget: nat)
    requires Balanced(cfg, callers, entry, lo, n, ready, unwritten, budget) && ready >= 1
    ensures Balanced(cfg, callers, entry, lo, n + 1, ready - 1, unwritten + 1, budget)
  {
  }

  lemma GivesUp(cfg: T.Config, callers: nat, entry: Option<T.Entry>, lo: nat, n: nat, ready: nat, unwritten: nat,
                budget: nat)
    requires Balanced(cfg, callers, entry, lo, n, ready, unwritten, budget) && ready >= 1
    ensures Balanced(cfg, callers, entry, lo, n, ready - 1, unwritten, budget)
  {
  }

  /** An expired window of before the interval is begun anew. */
  lemma Begins(cfg: T.Config, callers: nat, entry: T.Entry, lo: nat, n: nat, ready: nat, unwritten: nat, budget: nat)
    requires Balanced(cfg, callers, Some(entry), lo, n, ready, unwritten, budget) && ready + 1 + unwritten <= callers
    requires entry.createdAt < lo
    ensures Balanced(cfg, callers, Some(T.Entry(0, 0)), lo, n, ready + 1, unwritten, budget)
  {
    PassedIsAShare(cfg, callers, entry.count, ready, unwritten);
  }

  lemma CountsUp(cfg: T.Config, callers: nat, entry: Option<T.Entry>, data: T.Entry, lo: nat, n: nat, ready: nat,
                 unwritten: nat, budget: nat)
    requires Balanced(cfg, callers, entry, lo, n, ready, unwritten, budget) && unwritten >= 1
    requires data.count == CountOf(entry) + 1
    requires data.createdAt < lo && !Older(entry, lo) ==> n <= unwritten
    ensures Balanced(cfg, callers, Some(data), lo, n, ready, unwritten - 1, budget)
  {
    PassedIsAShare(cfg, callers, CountOf(entry), ready, unwritten);
    PassedIsAShare(cfg, callers, data.count, ready, unwritten - 1);
  }

  /** Whatever the entry turns into, by a stale write: two shares more. */
  lemma Slips(cfg: T.Config, callers: nat, entry: Option<T.Entry>, entry': Option<T.Entry>, lo: nat, n: nat,
              ready: nat, unwritten: nat, ready': nat, unwritten': nat, budget: nat)
    requires Balanced(cfg, callers, entry, lo, n, ready, unwritten, budget)
    requires ready' + unwritten' <= callers && ready' <= ready + 1
    requires (ready' == ready + 1 ==> entry' == Some(T.Entry(0, 0)))
    ensures Balanced(cfg, callers, entry', lo, n, ready', unwritten', budget + 2 * Share(cfg, callers))
  {
    PassedIsAShare(cfg, callers, CountOf(entry), ready, unwritten);
    PassedIsAShare(cfg, callers, CountOf(entry'), ready', unwritten');
  }

  lemma FallsOut(cfg: T.Config, callers: nat, entry: Option<T.Entry>, lo: nat, n: nat, ready: nat, unwritten: nat,
                 budget: nat)
    requires Balanced(cfg, callers, entry, lo, n, ready, unwritten, budget)
    ensures Balanced(cfg, callers, None, lo, n, ready, unwritten, budget + Share(cfg, callers))
  {
    PassedIsAShare(cfg, callers, CountOf(entry), ready, unwritten);
  }

  // ---------------------------------------------------------------------------------------------
  // One event
  // ---------------------------------------------------------------------------------------------

  /** If a call that read before the interval can still write, the attempts so far are all unwritten. */
  predicate EarlyReadsHold(entry: Option<T.Entry>, version: nat, calls: map<nat, Call>, key: string, lo: nat, n: nat) {
    forall id :: id in calls && calls[id].key == key && EarlyRead(entry, version, lo, calls[id]) ==>
      n <= |Unwritten(calls, key)|
  }

  lemma EarlyReadsStay(entry: Option<T.Entry>, version: nat, calls: map<nat, Call>, calls': map<nat, Call>,
                       key: string, lo: nat, n: nat, id: nat)
    requires EarlyReadsHold(entry, version, calls, key, lo, n)
    requires forall j :: j in calls' && calls'[j].key == key && j != id ==> j in calls && calls[j] == calls'[j]
    requires id in calls' && calls'[id].key == key ==> !calls'[id].Counting? || (id in calls && calls[id] == calls'[id])
    requires |Unwritten(calls, key)| <= |Unwritten(calls', key)|
    ensures EarlyReadsHold(entry, version, calls', key, lo, n)
  {
  }

  predicate Ledger(cfg: T.Config, callers: nat, s: State, key: string, lo: nat, n: nat, budget: nat) {
    && Balanced(cfg, callers, EntryAt(s, key), lo, n, |Ready(s.calls, key)|, |Unwritten(s.calls, key)|, budget)
    && EarlyReadsHold(EntryAt(s, key), s.Version(key), s.calls, key, lo, n)
  }

  lemma CallsFit(calls: map<nat, Call>, key: string, callers: nat)
    requires |CallsOn(calls, key)| <= callers
    ensures |Ready(calls, key)| + |Unwritten(calls, key)| <= callers
  {
    var both := Ready(calls, key) + Unwritten(calls, key);
    assert |both| == |Ready(calls, key)| + |Unwritten(calls, key)|;
    assert CallsOn(calls, key) == both + (CallsOn(calls, key) - both);
    assert |CallsOn(calls, key)| == |both| + |CallsOn(calls, key) - both|;
  }

  function One(b: bool): nat {
    if b then 1 else 0
  }

  function Kept(ids: set<nat>, id: nat, keep: bool): set<nat> {
    if keep then ids + {id} else ids - {id}
  }

  lemma KeptCard(ids: set<nat>, id: nat, keep: bool)
    ensures |Kept(ids, id, keep)| == |ids| - One(id in ids) + One(keep)
  {
  }

  lemma ReadyPut(calls: map<nat, Call>, id: nat, c: Call, key: string)
    requires c.key == key
    ensures |Ready(calls[id := c], key)| == |Ready(calls, key)| - One(id in Ready(calls, key)) + One(c.Permitted?)
  {
    forall x
      ensures x in Ready(calls[id := c], key) <==> x in Kept(Ready(calls, key), id, c.Permitted?)
    {
    }
    assert Ready(calls[id := c], key) == Kept(Ready(calls, key), id, c.Permitted?);
    KeptCard(Ready(calls, key), id, c.Permitted?);
  }

  lemma UnwrittenPut(calls: map<nat, Call>, id: nat, c: Call, key: string)
    requires c.key == key
    ensures |Unwritten(calls[id := c], key)| == |Unwritten(calls, key)| - One(id in Unwritten(calls, key)) +
            One(c.Counting?)
  {
    assert Unwritten(calls[id := c], key) == Kept(Unwritten(calls, key), id, c.Counting?);
    KeptCard(Unwritten(calls, key), id, c.Counting?);
  }

  lemma ReadyGone(calls: map<nat, Call>, id: nat, key: string)
    ensures |Ready(calls - {id}, key)| == |Ready(calls, key)| - One(id in Ready(calls, key))
  {
    assert Ready(calls - {id}, key) == Kept(Ready(calls, key), id, false);
    KeptCard(Ready(calls, key), id, false);
  }

  lemma UnwrittenGone(calls: map<nat, Call>, id: nat, key: string)
    ensures |Unwritten(calls - {id}, key)| == |Unwritten(calls, key)| - One(id in Unwritten(calls, key))
  {
    assert Unwritten(calls - {id}, key) == Kept(Unwritten(calls, key), id, false);
    KeptCard(Unwritten(calls, key), id, false);
  }

  /** No call has read the version that a write or an eviction makes. */
  lemma NoEarlyRead(cfg: T.Config, s: State, s': State, key: string, lo: nat, id: nat)
    requires Sane(cfg, s, key) && s'.Version(key) == s.Version(key) + 1
    requires forall j :: j in s'.calls && s'.calls[j].key == key && j != id ==>
             j in s.calls && s.calls[j] == s'.calls[j]
    requires id in s'.calls ==> s'.calls[id].Permitted? || (id in s.calls && s.calls[id] == s'.calls[id])
    ensures forall j :: j in s'.calls && s'.calls[j].key == key ==>
            !EarlyRead(EntryAt(s', key), s'.Version(key), lo, s'.calls[j])
  {
  }

  lemma CheckReadLedger(cfg: T.Config, callers: nat, s: State, e: Event, key: string, lo: nat, n: nat, budget: nat)
    requires Ledger(cfg, callers, s, key, lo, n, budget) && e.CheckRead? && Applies(s, e) && e.key == key
    requires |CallsOn(Step(cfg, s, e).calls, key)| <= callers
    ensures Ledger(cfg, callers, Step(cfg, s, e), key, lo, n, budget)
  {
    var s' := Step(cfg, s, e);
    CallsFit(s'.calls, key, callers);
    if e.id in s'.calls {
      var c := s'.calls[e.id];
      ReadyPut(s.calls, e.id, c, key);
      UnwrittenPut(s.calls, e.id, c, key);
      EarlyReadsStay(EntryAt(s, key), s.Version(key), s.calls, s'.calls, key, lo, n, e.id);
      if c.Permitted? {
        Admits(cfg, callers, EntryAt(s, key), lo, n, |Ready(s.calls, key)|, |Unwritten(s.calls, key)|, budget);
      }
    }
  }

  lemma IncReadLedger(cfg: T.Config, callers: nat, s: State, e: Event, key: string, lo: nat, n: nat, budget: nat)
    requires Ledger(cfg, callers, s, key, lo, n, budget)
    requires e.IncRead? && Applies(s, e) && KeyOf(s, e) == key && lo <= e.now
    ensures Ledger(cfg, callers, Step(cfg, s, e), key, lo, n + 1, budget)
  {
    var data := T.AfterInc(s.store, key, e.now)[key];
    var c := Counting(key, data, s.Version(key));
    ReadyPut(s.calls, e.id, c, key);
    UnwrittenPut(s.calls, e.id, c, key);
    assert e.id in Ready(s.calls, key) && e.id !in Unwritten(s.calls, key);
    Reads(cfg, callers, EntryAt(s, key), lo, n, |Ready(s.calls, key)|, |Unwritten(s.calls, key)|, budget);
    assert !EarlyRead(EntryAt(s, key), s.Version(key), lo, c);
  }

  lemma AbandonLedger(cfg: T.Config, callers: nat, s: State, e: Event, key: string, lo: nat, n: nat, budget: nat)
    requires Ledger(cfg, callers, s, key, lo, n, budget) && e.Abandon? && Applies(s, e) && KeyOf(s, e) == key
    ensures Ledger(cfg, callers, Step(cfg, s, e), key, lo, n, budget)
  {
    ReadyGone(s.calls, e.id, key);
    UnwrittenGone(s.calls, e.id, key);
    assert e.id in Ready(s.calls, key) && e.id !in Unwritten(s.calls, key);
    GivesUp(cfg, callers, EntryAt(s, key), lo, n, |Ready(s.calls, key)|, |Unwritten(s.calls, key)|, budget);
  }

  lemma CheckWriteLedger(cfg: T.Config, callers: nat, s: State, e: Event, key: string, lo: nat, n: nat, budget: nat)
    requires Sane(cfg, s, key) && Ledger(cfg, callers, s, key, lo, n, budget)
    requires e.CheckWrite? && Applies(s, e) && KeyOf(s, e) == key && s.clock <= e.now <= lo + cfg.ttl
    requires |CallsOn(Step(cfg, s, e).calls, key)| <= callers
    ensures Ledger(cfg, callers, Step(cfg, s, e), key, lo, n,
                   budget + if IsStale(s, e, key) then 2 * Share(cfg, callers) else 0)
  {
    var s', ready, unwritten := Step(cfg, s, e), |Ready(s.calls, key)|, |Unwritten(s.calls, key)|;
    CallsFit(s'.calls, key, callers);
    ReadyPut(s.calls, e.id, Permitted(key), key);
    UnwrittenPut(s.calls, e.id, Permitted(key), key);
    assert e.id !in Ready(s.calls, key) && e.id !in Unwritten(s.calls, key);
    NoEarlyRead(cfg, s, s', key, lo, e.id);
    if IsStale(s, e, key) {
      Slips(cfg, callers, EntryAt(s, key), EntryAt(s', key), lo, n, ready, unwritten, ready + 1, unwritten, budget);
    } else {
      assert CallSane(cfg.ttl, EntryAt(s, key), s.Version(key), s.clock, s.calls[e.id]);
      Begins(cfg, callers, s.store[key], lo, n, ready, unwritten, budget);
    }
  }

  lemma IncWriteLedger(cfg: T.Config, callers: nat, s: State, e: Event, key: string, lo: nat, n: nat, budget: nat)
    requires Sane(cfg, s, key) && Ledger(cfg, callers, s, key, lo, n, budget)
    requires e.IncWrite? && Applies(s, e) && KeyOf(s, e) == key
    ensures Ledger(cfg, callers, Step(cfg, s, e), key, lo, n,
                   budget + if IsStale(s, e, key) then 2 * Share(cfg, callers) else 0)
  {
    var s', ready, unwritten, c := Step(cfg, s, e), |Ready(s.calls, key)|, |Unwritten(s.calls, key)|, s.calls[e.id];
    ReadyGone(s.calls, e.id, key);
    UnwrittenGone(s.calls, e.id, key);
    assert e.id !in Ready(s.calls, key) && e.id in Unwritten(s.calls, key);
    NoEarlyRead(cfg, s, s', key, lo, e.id);
    if IsStale(s, e, key) {
      Slips(cfg, callers, EntryAt(s, key), EntryAt(s', key), lo, n, ready, unwritten, ready, unwritten - 1, budget);
    } else {
      assert CallSane(cfg.ttl, EntryAt(s, key), s.Version(key), s.clock, c);
      assert c.data.createdAt < lo && !Older(EntryAt(s, key), lo) ==> EarlyRead(EntryAt(s, key), s.Version(key), lo, c);
      CountsUp(cfg, callers, EntryAt(s, key), c.data, lo, n, ready, unwritten, budget);
    }
  }

  lemma EvictLedger(cfg: T.Config, callers: nat, s: State, e: Event, key: string, lo: nat, n: nat, budget: nat)
    requires Sane(cfg, s, key) && Ledger(cfg, callers, s, key, lo, n, budget)
    requires e.Evict? && Applies(s, e) && e.key == key
    ensures Ledger(cfg, callers, Step(cfg, s, e), key, lo, n, budget + Share(cfg, callers))
  {
    NoEarlyRead(cfg, s, Step(cfg, s, e), key, lo, 0);
    FallsOut(cfg, callers, EntryAt(s, key), lo, n, |Ready(s.calls, key)|, |Unwritten(s.calls, key)|, budget);
  }

  predicate SameOn(calls: map<nat, Call>, calls': map<nat, Call>, key: string) {
    && (forall id :: id in calls' && calls'[id].key == key ==> id in calls && calls[id] == calls'[id])
    && (forall id :: id in calls && calls[id].key == key ==> id in calls' && calls[id] == calls'[id])
  }

  lemma OtherCalls(cfg: T.Config, s: State, e: Event, key: string)
    requires Applies(s, e) ==> KeyOf(s, e) != key
    ensures var s' := Step(cfg, s, e);
      EntryAt(s', key) == EntryAt(s, key) && s'.Version(key) == s.Version(key) && SameOn(s.calls, s'.calls, key)
  {
  }

  lemma SameCalls(calls: map<nat, Call>, calls': map<nat, Call>, key: string)
    requires SameOn(calls, calls', key)
    ensures Ready(calls', key) == Ready(calls, key) && Unwritten(calls', key) == Unwritten(calls, key)
  {
  }

  lemma OtherLedger(cfg: T.Config, callers: nat, s: State, e: Event, key: string, lo: nat, n: nat, budget: nat)
    requires Ledger(cfg, callers, s, key, lo, n, budget) && (Applies(s, e) ==> KeyOf(s, e) != key)
    ensures Ledger(cfg, callers, Step(cfg, s, e), key, lo, n, budget)
  {
    var s' := Step(cfg, s, e);
    OtherCalls(cfg, s, e, key);
    SameCalls(s.calls, s'.calls, key);
    EarlyReadsStay(EntryAt(s, key), s.Version(key), s.calls, s'.calls, key, lo, n, 0);
  }

  /** What an event of the interval adds to the budget. */
  function Cost(cfg: T.Config, callers: nat, s: State, e: Event, key: string): nat {
    if e.Evict? && e.key == key && Applies(s, e) then Share(cfg, callers)
    else if IsStale(s, e, key) then 2 * Share(cfg, callers)
    else 0
  }

  lemma EventLedger(cfg: T.Config, callers: nat, s: State, e: Event, key: string, lo: nat, n: nat, budget: nat)
    requires Sane(cfg, s, key) && Ledger(cfg, callers, s, key, lo, n, budget)
    requires s.clock <= e.now && lo <= e.now <= lo + cfg.ttl && |CallsOn(Step(cfg, s, e).calls, key)| <= callers
    ensures Ledger(cfg, callers, Step(cfg, s, e), key, lo,
                   n + (if IsAttempt(s, e, key, lo, lo + cfg.ttl) then 1 else 0),
                   budget + Cost(cfg, callers, s, e, key))
  {
    if !Applies(s, e) || KeyOf(s, e) != key {
      OtherLedger(cfg, callers, s, e, key, lo, n, budget);
    } else {
      match e
      case CheckRead(_, _, _) => CheckReadLedger(cfg, callers, s, e, key, lo, n, budget);
      case CheckWrite(_, _) => CheckWriteLedger(cfg, callers, s, e, key, lo, n, budget);
      case IncRead(_, _) => IncReadLedger(cfg, callers, s, e, key, lo, n, budget);
      case IncWrite(_, _) => IncWriteLedger(cfg, callers, s, e, key, lo, n, budget);
      case Abandon(_, _) => AbandonLedger(cfg, callers, s, e, key, lo, n, budget);
      case Evict(_, _) => EvictLedger(cfg, callers, s, e, key, lo, n, budget);
    }
  }

  // ---------------------------------------------------------------------------------------------
  // Runs
  // ---------------------------------------------------------------------------------------------

  /** One share to begin with, one for each eviction and two for each stale write of the interval. */
  function Budget(cfg: T.Config, callers: nat, events: seq<Event>, key: string, lo: nat): nat {
    var hi := lo + cfg.ttl;
    (1 + Evictions(cfg, events, key, lo, hi) + 2 * StaleWrites(cfg, events, key, lo, hi)) * Share(cfg, callers)
  }

  lemma Shares(n: nat, m: nat, share: nat)
    ensures (1 + (n + 1) + 2 * m) * share == (1 + n + 2 * m) * share + share
    ensures (1 + n + 2 * (m + 1)) * share == (1 + n + 2 * m) * share + 2 * share
    ensures (1 + n + 2 * m) * share >= share
    ensures (2 + n + 2 * m) * share == (1 + n + 2 * m) * share + share
  {
    assert (1 + n + 2 * m) * share == share + (n + 2 * m) * share;
  }

  lemma {:induction false} NothingBefore(cfg: T.Config, callers: nat, events: seq<Event>, key: string, lo: nat, hi: nat)
    requires Timely(cfg, callers, key, events) && Run(cfg, events).clock < lo
    ensures Attempts(cfg, events, key, lo, hi) == 0
  {
    if events != [] {
      NothingBefore(cfg, callers, events[..|events| - 1], key, lo, hi);
    }
  }

  lemma {:induction false} RunSane(cfg: T.Config, callers: nat, events: seq<Event>, key: string)
    requires Timely(cfg, callers, key, events)
    ensures Sane(cfg, Run(cfg, events), key)
  {
    if events != [] {
      RunSane(cfg, callers, events[..|events| - 1], key);
      StaysSane(cfg, Run(cfg, events[..|events| - 1]), events[|events| - 1], key);
    }
  }

  lemma BudgetStep(cfg: T.Config, callers: nat, events: seq<Event>, key: string, lo: nat)
    requires events != [] && lo <= events[|events| - 1].now <= lo + cfg.ttl
    ensures Budget(cfg, callers, events, key, lo) == Budget(cfg, callers, events[..|events| - 1], key, lo)
      + Cost(cfg, callers, Run(cfg, events[..|events| - 1]), events[|events| - 1], key)
  {
    var rest, hi := events[..|events| - 1], lo + cfg.ttl;
    Shares(Evictions(cfg, rest, key, lo, hi), StaleWrites(cfg, rest, key, lo, hi), Share(cfg, callers));
  }

  /** Before and during the interval the ledger is balanced. */
  lemma {:induction false} RunLedger(cfg: T.Config, callers: nat, events: seq<Event>, key: string, lo: nat)
    requires Timely(cfg, callers, key, events) && Run(cfg, events).clock <= lo + cfg.ttl
    ensures Ledger(cfg, callers, Run(cfg, events), key, lo, Attempts(cfg, events, key, lo, lo + cfg.ttl),
            Budget(cfg, callers, events, key, lo))
  {
    var s, hi := Run(cfg, events), lo + cfg.ttl;
    Shares(Evictions(cfg, events, key, lo, hi), StaleWrites(cfg, events, key, lo, hi), Share(cfg, callers));
    if events == [] || s.clock < lo {
      if events == [] {
        assert CallsOn(s.calls, key) == {};
      } else {
        NothingBefore(cfg, callers, events, key, lo, hi);
      }
      CallsFit(s.calls, key, callers);
      NothingYet(cfg, callers, EntryAt(s, key), lo, |Ready(s.calls, key)|, |Unwritten(s.calls, key)|,
        Budget(cfg, callers, events, key, lo));
    } else {
      var rest, e := events[..|events| - 1], events[|events| - 1];
      RunLedger(cfg, callers, rest, key, lo);
      RunSane(cfg, callers, rest, key);
      EventLedger(cfg, callers, Run(cfg, rest), e, key, lo, Attempts(cfg, rest, key, lo, hi),
        Budget(cfg, callers, rest, key, lo));
      BudgetStep(cfg, callers, events, key, lo);
    }
  }

  lemma WithinBudget(cfg: T.Config, callers: nat, events: seq<Event>, key: string, lo: nat)
    requires Timely(cfg, callers, key, events) && Run(cfg, events).clock <= lo + cfg.ttl
    ensures Attempts(cfg, events, key, lo, lo + cfg.ttl) <= Budget(cfg, callers, events, key, lo) + Share(cfg, callers)
  {
    var s := Run(cfg, events);
    RunLedger(cfg, callers, events, key, lo);
    PassedIsAShare(cfg, callers, CountOf(EntryAt(s, key)), |Ready(s.calls, key)|, |Unwritten(s.calls, key)|);
  }

  /**
    In every run an interval of length `ttl` holds no more attempts on a key than two shares, plus one
    for each eviction and two for each stale write of the key during the interval, where a share is
    the limit, or 1 where the limit is 0, and the number of calls that can be under way at once.
   */
  lemma {:induction false} EveryRun(cfg: T.Config, callers: nat, events: seq<Event>, key: string, lo: nat)
    requires Timely(cfg, callers, key, events)
    ensures var hi := lo + cfg.ttl;
      Attempts(cfg, events, key, lo, hi) <=
      (2 + Evictions(cfg, events, key, lo, hi) + 2 * StaleWrites(cfg, events, key, lo, hi)) * Share(cfg, callers)
  {
    var hi := lo + cfg.ttl;
    if Run(cfg, events).clock <= hi {
      WithinBudget(cfg, callers, events, key, lo);
      Shares(Evictions(cfg, events, key, lo, hi), StaleWrites(cfg, events, key, lo, hi), Share(cfg, callers));
    } else {
      EveryRun(cfg, callers, events[..|events| - 1], key, lo);
    }
  }
}

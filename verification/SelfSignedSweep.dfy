/**
  The sweep of pingap-certificate/src/self_signed.rs as it overlaps with uses and additions: it loads
  the map, visits the certificates of that map one after the other, and stores the map of those that
  stay. The certificates are shared, so they have places of their own here.
 */
module SelfSignedSweep {
  import opened Wrappers
  import opened SelfSigned

  /** What a sweep has loaded, how it saw each certificate at its visit, and what it has kept so far. */
  datatype Sweep = Sweep(now: u64, loaded: map<string, nat>, seen: map<string, Cert>, kept: map<string, nat>) {
    /** Those are kept that were unexpired, and used or not yet stale, when they were visited. */
    predicate Valid() {
      && seen.Keys <= loaded.Keys && kept.Keys <= seen.Keys
      && forall name :: name in seen ==>
           (name in kept <==> Keeps(seen[name], now)) && (name in kept ==> kept[name] == loaded[name])
    }

    predicate Complete() {
      seen.Keys == loaded.Keys
    }
  }

  datatype State = State(live: map<string, nat>, certs: seq<Cert>, sweep: Option<Sweep>)

  const START := State(map[], [], None)

  datatype Event =
    | Get(name: string)
    | Add(name: string, notAfter: int)
    | Load(now: u64)
    | Visit(name: string)
    | Store

  predicate Finds(m: map<string, nat>, name: string, certs: seq<Cert>) {
    name in m && m[name] < |certs|
  }

  predicate Placed(m: map<string, nat>, certs: seq<Cert>) {
    forall name :: name in m ==> m[name] < |certs|
  }

  predicate Valid(s: State) {
    Placed(s.live, s.certs) && (s.sweep.Some? ==> s.sweep.value.Valid() && Placed(s.sweep.value.loaded, s.certs))
  }

  function Used(c: Cert): Cert {
    c.(count := (c.count + 1) % U32)
  }

  /** Events that do not apply change nothing. */
  function Step(s: State, e: Event): State {
    match e
    case Get(name) =>
      if Finds(s.live, name, s.certs) then s.(certs := s.certs[s.live[name] := Used(s.certs[s.live[name]])]) else s
    case Add(name, notAfter) =>
      s.(live := s.live[name := |s.certs|], certs := s.certs + [Cert(notAfter, false, 0)])
    case Load(now) =>
      if s.sweep.None? then s.(sweep := Some(Sweep(now, s.live, map[], map[]))) else s
    case Visit(name) =>
      if s.sweep.Some? && name !in s.sweep.value.seen && Finds(s.sweep.value.loaded, name, s.certs)
      then Visited(s, name) else s
    case Store =>
      if s.sweep.Some? && s.sweep.value.Complete() then State(s.sweep.value.kept, s.certs, None) else s
  }

  function Visited(s: State, name: string): State
    requires s.sweep.Some? && Finds(s.sweep.value.loaded, name, s.certs)
  {
    var w, id := s.sweep.value, s.sweep.value.loaded[name];
    var c := s.certs[id];
    if Keeps(c, w.now)
    then State(s.live, s.certs[id := Aged(c)], Some(w.(seen := w.seen[name := c], kept := w.kept[name := id])))
    else State(s.live, s.certs, Some(w.(seen := w.seen[name := c])))
  }

  /** A run: each event leads from the state before it to the state after it. */
  predicate IsRun(states: seq<State>, events: seq<Event>) {
    && |states| == |events| + 1 && states[0] == START
    && forall i :: 0 <= i < |events| ==> states[i + 1] == Step(states[i], events[i])
  }

  lemma StepValid(s: State, e: Event)
    requires Valid(s)
    ensures Valid(Step(s, e))
  {
  }

  /** In a run every name that is live or loaded has its certificate. */
  lemma {:induction false} RunValid(states: seq<State>, events: seq<Event>, n: nat)
    requires IsRun(states, events) && n <= |events|
    ensures Valid(states[n])
  {
    if n != 0 {
      RunValid(states, events, n - 1);
      StepValid(states[n - 1], events[n - 1]);
    }
  }

  /** Event `b` begins a sweep, and no store falls between it and state `n`. */
  predicate Begins(states: seq<State>, events: seq<Event>, b: nat, n: nat) {
    && IsRun(states, events) && b < n <= |events| && events[b].Load? && states[b].sweep.None?
    && forall k :: b < k < n ==> events[k] != Store
  }

  predicate Loaded(s: State, t: State, now: u64) {
    s.sweep.Some? && s.sweep.value.loaded == t.live && s.sweep.value.now == now
  }

  lemma LoadSeesNothing(s: State, e: Event)
    requires s.sweep.None? && e.Load?
    ensures Step(s, e).sweep.Some? && Step(s, e).sweep.value.seen == map[]
  {
  }

  lemma StaysLoaded(s: State, e: Event, t: State, now: u64)
    requires Loaded(s, t, now) && e != Store
    ensures Loaded(Step(s, e), t, now)
  {
  }

  lemma {:induction false} UnderWay(states: seq<State>, events: seq<Event>, b: nat, n: nat)
    requires Begins(states, events, b, n)
    ensures Loaded(states[n], states[b], events[b].now)
  {
    if n > b + 1 {
      UnderWay(states, events, b, n - 1);
      StaysLoaded(states[n - 1], events[n - 1], states[b], events[b].now);
    }
  }

  /** The certificate that state `t` has where the sweep of `s` has found `name`, as it was seen. */
  predicate SeenAs(s: State, name: string, t: State) {
    && s.sweep.Some? && name in s.sweep.value.seen && Finds(s.sweep.value.loaded, name, t.certs)
    && s.sweep.value.seen[name] == t.certs[s.sweep.value.loaded[name]]
  }

  lemma SeenStep(s: State, e: Event, name: string)
    requires s.sweep.Some? && e != Store
    requires Step(s, e).sweep.Some? && name in Step(s, e).sweep.value.seen
    ensures if name in s.sweep.value.seen
      then Step(s, e).sweep.value.seen[name] == s.sweep.value.seen[name]
      else e == Visit(name) && SeenAs(Step(s, e), name, s)
  {
  }

  /** What was seen of a certificate is what it was at a visit of its name during the sweep. */
  lemma {:induction false} SeenAtVisit(states: seq<State>, events: seq<Event>, b: nat, n: nat, name: string)
    returns (v: nat)
    requires Begins(states, events, b, n)
    requires states[n].sweep.Some? && name in states[n].sweep.value.seen
    ensures b < v < n && events[v] == Visit(name) && SeenAs(states[n], name, states[v])
  {
    UnderWay(states, events, b, n);
    if n == b + 1 {
      LoadSeesNothing(states[b], events[b]);
      v := n;
    } else {
      UnderWay(states, events, b, n - 1);
      SeenStep(states[n - 1], events[n - 1], name);
      if name in states[n - 1].sweep.value.seen {
        v := SeenAtVisit(states, events, b, n - 1, name);
      } else {
        v := n - 1;
      }
    }
  }

  /** Event `e` stores what the sweep of event `b` has kept. */
  predicate Completes(states: seq<State>, events: seq<Event>, b: nat, e: nat) {
    && Begins(states, events, b, e) && e < |events| && events[e] == Store
    && states[e].sweep.Some? && states[e].sweep.value.Complete()
  }

  /**
    After a sweep exactly those names are live that it had loaded and whose certificate was, at its
    visit, unexpired, and used or not yet stale; and they stand for the same certificates as when they
    were loaded. So what was added after the load is gone, and a use after the visit saves nothing.
   */
  lemma SweptExactly(states: seq<State>, events: seq<Event>, b: nat, e: nat, name: string) returns (v: nat)
    requires Completes(states, events, b, e)
    ensures var loaded, live := states[b].live, states[e + 1].live;
      && (name in live ==> name in loaded && live[name] == loaded[name])
      && (name in loaded ==>
            && b < v < e && events[v] == Visit(name) && Finds(loaded, name, states[v].certs)
            && (name in live <==> Keeps(states[v].certs[loaded[name]], events[b].now)))
  {
    UnderWay(states, events, b, e);
    RunValid(states, events, e);
    v := 0;
    if name in states[b].live {
      v := SeenAtVisit(states, events, b, e, name);
    }
  }

  lemma {:induction false} CertsGrow(states: seq<State>, events: seq<Event>, m: nat, n: nat)
    requires IsRun(states, events) && m <= n <= |events|
    ensures |states[m].certs| <= |states[n].certs|
  {
    if m < n {
      CertsGrow(states, events, m, n - 1);
      assert states[n] == Step(states[n - 1], events[n - 1]);
    }
  }

  /** A certificate added while the sweep is under way is live under no name after it. */
  lemma AdditionIsLost(states: seq<State>, events: seq<Event>, b: nat, e: nat, k: nat)
    requires Completes(states, events, b, e) && b < k < e && events[k].Add?
    ensures var added, live := |states[k].certs|, states[e + 1].live;
      && events[k].name in states[k + 1].live && states[k + 1].live[events[k].name] == added
      && added !in live.Values
  {
    assert states[k + 1] == Step(states[k], events[k]);
    CertsGrow(states, events, b, k);
    RunValid(states, events, b);
    var live := states[e + 1].live;
    forall name | name in live
      ensures live[name] < |states[b].certs|
    {
      var v := SweptExactly(states, events, b, e, name);
    }
  }

  // ---------------------------------------------------------------------------------------------
  // A sweep that nothing overlaps
  // ---------------------------------------------------------------------------------------------

  /** The pool as the names show it. */
  predicate Shows(s: State, pool: Pool) {
    && pool.Keys == s.live.Keys
    && forall name :: name in s.live ==> s.live[name] < |s.certs| && pool[name] == s.certs[s.live[name]]
  }

  /** No certificate stands under two names. */
  predicate Apart(m: map<string, nat>) {
    forall n, k :: n in m && k in m && m[n] == m[k] ==> n == k
  }

  /** A use is that of `SelfSigned`, and so is an addition. */
  lemma LoneGet(s: State, pool: Pool, name: string)
    requires Shows(s, pool) && Apart(s.live)
    ensures Shows(Step(s, Get(name)), AfterGet(pool, name)) && Apart(Step(s, Get(name)).live)
  {
    var t, next := Step(s, Get(name)), AfterGet(pool, name);
    if name in s.live {
      forall other | other in t.live
        ensures t.live[other] < |t.certs| && next[other] == t.certs[t.live[other]]
      {
        assert other != name ==> s.live[other] != s.live[name];
      }
    }
  }

  lemma LoneAdd(s: State, pool: Pool, name: string, notAfter: int)
    requires Shows(s, pool) && Apart(s.live)
    ensures Shows(Step(s, Add(name, notAfter)), pool[name := Cert(notAfter, false, 0)])
    ensures Apart(Step(s, Add(name, notAfter)).live)
  {
    var t, next := Step(s, Add(name, notAfter)), pool[name := Cert(notAfter, false, 0)];
    forall other | other in t.live
      ensures t.live[other] < |t.certs| && next[other] == t.certs[t.live[other]]
    {
      assert other != name ==> s.live[other] < |s.certs|;
    }
  }

  /** How a certificate that was `c` at the load stands now: as it was, or seen and then aged or dropped. */
  predicate Stands(w: Sweep, certs: seq<Cert>, name: string, c: Cert) {
    && Finds(w.loaded, name, certs)
    && if name !in w.seen
       then name !in w.kept && certs[w.loaded[name]] == c
       else if !Keeps(c, w.now) then name !in w.kept
       else name in w.kept && w.kept[name] == w.loaded[name] && certs[w.loaded[name]] == Aged(c)
  }

  predicate PartlyAged(s: State, pool: Pool) {
    && s.sweep.Some? && Apart(s.sweep.value.loaded)
    && s.sweep.value.loaded.Keys == pool.Keys && s.sweep.value.kept.Keys <= pool.Keys
    && forall name :: name in pool ==> Stands(s.sweep.value, s.certs, name, pool[name])
  }

  lemma VisitKeepsStanding(s: State, name: string, other: string, c: Cert)
    requires s.sweep.Some? && Apart(s.sweep.value.loaded) && name !in s.sweep.value.seen
    requires Finds(s.sweep.value.loaded, name, s.certs) && Stands(s.sweep.value, s.certs, other, c)
    ensures Stands(Visited(s, name).sweep.value, Visited(s, name).certs, other, c)
  {
  }

  lemma VisitAges(s: State, e: Event, pool: Pool)
    requires PartlyAged(s, pool) && e.Visit?
    ensures PartlyAged(Step(s, e), pool)
  {
    if Step(s, e) != s {
      forall other | other in pool
        ensures Stands(Step(s, e).sweep.value, Step(s, e).certs, other, pool[other])
      {
        VisitKeepsStanding(s, e.name, other, pool[other]);
      }
    }
  }

  lemma LoadAgesNothing(s: State, e: Event, pool: Pool)
    requires s.sweep.None? && e.Load? && Shows(s, pool) && Apart(s.live)
    ensures PartlyAged(Step(s, e), pool)
  {
  }

  lemma {:induction false} VisitsAge(states: seq<State>, events: seq<Event>, b: nat, n: nat, pool: Pool)
    requires Begins(states, events, b, n) && Shows(states[b], pool) && Apart(states[b].live)
    requires forall k :: b < k < n ==> events[k].Visit?
    ensures PartlyAged(states[n], pool)
  {
    if n == b + 1 {
      LoadAgesNothing(states[b], events[b], pool);
    } else {
      VisitsAge(states, events, b, n - 1, pool);
      VisitAges(states[n - 1], events[n - 1], pool);
    }
  }

  lemma StoreSweeps(s: State, pool: Pool)
    requires PartlyAged(s, pool) && s.sweep.value.Complete()
    ensures Shows(Step(s, Store), AfterSweep(pool, s.sweep.value.now))
  {
    SweepExact(pool, s.sweep.value.now);
  }

  /** A sweep with nothing but its visits between load and store is the single step of `SelfSigned`. */
  lemma LoneSweep(states: seq<State>, events: seq<Event>, b: nat, e: nat, pool: Pool)
    requires Completes(states, events, b, e) && (forall k :: b < k < e ==> events[k].Visit?)
    requires Shows(states[b], pool) && Apart(states[b].live)
    ensures Shows(states[e + 1], AfterSweep(pool, events[b].now))
  {
    VisitsAge(states, events, b, e, pool);
    UnderWay(states, events, b, e);
    StoreSweeps(states[e], pool);
  }
}

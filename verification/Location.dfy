/**
  Locations, after pingap-location/src/location.rs: the counters of requests in flight, the reload
  that keeps unchanged locations, and the way a request passes through both, after
  `early_request_filter` and `logging` of src/proxy/server.rs.
 */
module Location {
  import opened Wrappers

  const I31: int := 0x8000_0000

  /** The value that an `i32` holds after wrapping. */
  function I32(x: int): int {
    (x + I31) % U32 - I31
  }

  lemma I32Adds(x: int, d: int)
    ensures I32(I32(x) + d) == I32(x + d)
  {
  }

  lemma I32InRange(x: int)
    requires -I31 <= x < I31
    ensures I32(x) == x
  {
  }

  /** `builds`: the host and path patterns compile and the headers are well formed. */
  datatype LocationConf = LocationConf(hash: u64, builds: bool, maxProcessing: Option<int>, bodyMax: nat)

  /** The values of one location. */
  datatype Cell = Cell(name: string, key: u64, limit: int, bodyMax: nat, accepted: u64, processing: int)

  function NewCell(name: string, conf: LocationConf): Cell {
    Cell(name, conf.hash, if conf.maxProcessing.Some? then conf.maxProcessing.value else 0, conf.bodyMax, 0, 0)
  }

  predicate Admits(c: Cell) {
    c.limit == 0 || I32(c.processing + 1) <= c.limit
  }

  /** Both counters rise, whether the request is admitted or not. */
  function AfterAdd(c: Cell): Cell {
    c.(accepted := (c.accepted + 1) % U64, processing := I32(c.processing + 1))
  }

  function AfterSub(c: Cell): Cell {
    c.(processing := I32(c.processing - 1))
  }

  predicate TooLarge(c: Cell, length: nat) {
    c.bodyMax != 0 && length > c.bodyMax
  }

  class LocationObject {
    const name: string
    const key: u64
    const limit: int
    const bodyMax: nat
    var accepted: u64
    var processing: int

    constructor (name: string, conf: LocationConf)
      ensures Values() == NewCell(name, conf)
    {
      this.name, key := name, conf.hash;
      limit := if conf.maxProcessing.Some? then conf.maxProcessing.value else 0;
      bodyMax := conf.bodyMax;
      accepted, processing := 0, 0;
    }

    function Values(): Cell
      reads this
    {
      Cell(name, key, limit, bodyMax, accepted, processing)
    }

    /** The new counts, or nothing when too many are in flight. */
    method AddProcessing() returns (r: Option<(u64, int)>)
      modifies this
      ensures Values() == AfterAdd(old(Values()))
      ensures r == if Admits(old(Values())) then Some((accepted, processing)) else None
    {
      accepted := (accepted + 1) % U64;
      processing := I32(processing + 1);
      if limit != 0 && processing > limit {
        return None;
      }
      return Some((accepted, processing));
    }

    method SubProcessing()
      modifies this
      ensures Values() == AfterSub(old(Values()))
    {
      processing := I32(processing - 1);
    }
  }

  // ---------------------------------------------------------------------------------------------
  // Reloading
  // ---------------------------------------------------------------------------------------------

  /** The configured names whose location is kept: live, and with the same hash. */
  predicate Unchanged<T>(live: map<string, T>, keyOf: T -> u64, configs: map<string, LocationConf>, name: string)
    requires name in configs
  {
    name != "" && name in live && keyOf(live[name]) == configs[name].hash
  }

  predicate Builds(configs: map<string, LocationConf>, name: string)
    requires name in configs
  {
    name != "" && configs[name].builds
  }

  predicate Reloads<T>(live: map<string, T>, keyOf: T -> u64, configs: map<string, LocationConf>) {
    forall name :: name in configs ==> Unchanged(live, keyOf, configs, name) || Builds(configs, name)
  }

  /** After a reload: the configured names, the same location for those unchanged, new ones for the others. */
  predicate IsReload<T(==)>(live: map<string, T>, keyOf: T -> u64, configs: map<string, LocationConf>,
                            next: map<string, T>) {
    && next.Keys == configs.Keys
    && (forall name :: name in configs && Unchanged(live, keyOf, configs, name) ==> next[name] == live[name])
    && (forall name :: name in configs && !Unchanged(live, keyOf, configs, name) ==> next[name] !in live.Values)
    && (forall n, m :: n in next && m in next && next[n] == next[m] && !Unchanged(live, keyOf, configs, n) ==> n == m)
  }

  class Locations {
    var live: map<string, LocationObject>

    constructor ()
      ensures live == map[]
    {
      live := map[];
    }

    function Get(name: string): (r: Option<LocationObject>)
      reads this
      ensures r.Some? <==> name != "" && name in live
    {
      if name == "" || name !in live then None else Some(live[name])
    }

    /**
      Replaces the live locations and returns the names that were built anew, or changes nothing when
      one of them does not build.
     */
    method TryInit(configs: map<string, LocationConf>) returns (updated: Option<seq<string>>)
      modifies this
      ensures updated.Some? <==> Reloads(old(live), KeyOf, configs)
      ensures updated.None? ==> live == old(live)
      ensures updated.Some? ==> IsReload(old(live), KeyOf, configs, live)
      ensures updated.Some? ==> forall name :: name in configs && !Unchanged(old(live), KeyOf, configs, name) ==>
        fresh(live[name]) && live[name].Values() == NewCell(name, configs[name])
      ensures updated.Some? ==> forall name :: name in updated.value <==>
              name in configs && !Unchanged(old(live), KeyOf, configs, name)
      ensures updated.Some? ==> Distinct(updated.value)
      ensures updated.Some? ==> forall name :: name in configs ==> live[name].key == configs[name].hash
      ensures updated.Some? ==> forall name :: name in updated.value <==>
              name in configs && (name !in old(live) || old(live)[name].key != configs[name].hash)
    {
      ghost var was := live;
      var next: map<string, LocationObject>, names: seq<string> := map[], [];
      var todo := configs.Keys;
      while todo != {}
        invariant todo <= configs.Keys && next.Keys == configs.Keys - todo
        invariant live == was
        invariant forall name :: name in next ==> Unchanged(was, KeyOf, configs, name) || Builds(configs, name)
        invariant forall name :: name in next && Unchanged(was, KeyOf, configs, name) ==> next[name] == was[name]
        invariant forall name :: name in next && !Unchanged(was, KeyOf, configs, name) ==>
          fresh(next[name]) && next[name].Values() == NewCell(name, configs[name])
        invariant forall name :: name in names <==> name in next && !Unchanged(was, KeyOf, configs, name)
        invariant Distinct(names)
      {
        var name :| name in todo;
        todo := todo - {name};
        var found := Get(name);
        if found.Some? && found.value.key == configs[name].hash {
          next := next[name := found.value];
        } else {
          if name == "" || !configs[name].builds {
            assert !Unchanged(was, KeyOf, configs, name);
            return None;
          }
          var location := new LocationObject(name, configs[name]);
          names := names + [name];
          next := next[name := location];
        }
      }
      live := next;
      return Some(names);
    }
  }

  function KeyOf(location: LocationObject): u64 {
    location.key
  }

  // ---------------------------------------------------------------------------------------------
  // Requests
  // ---------------------------------------------------------------------------------------------

  /** `added`: counted by `add_processing`; `subbed`: the location that `logging` counted down. */
  datatype Stage =
    | Early
    | Entered(added: bool, admitted: bool)
    | Done(added: bool, admitted: bool, subbed: Option<nat>)

  /**
    What the filter found when it looked a name up, in the live locations of that moment, and whether
    the location matched.
   */
  datatype Lookup = Lookup(name: string, found: Option<nat>, matches: bool)

  /** `cell` is the location the filter holds, `name` the one it records for later steps. */
  datatype Request = Request(cell: Option<nat>, name: string, length: nat, stage: Stage)

  /** Every location ever built has a place in `cells`; `live` says which one a name stands for. */
  datatype State = State(live: map<string, nat>, cells: seq<Cell>, requests: seq<Request>)

  datatype Event =
    | Reload(configs: map<string, LocationConf>)
    | Choose(lookups: seq<Lookup>, length: nat)
    | Enter(request: nat)
    | Finish(request: nat)

  /** The location the filter ends up with: the first that matches, or else the last that exists. */
  function PickFrom(lookups: seq<Lookup>, current: Option<nat>): (r: (Option<nat>, string)) {
    if lookups == [] then (current, "")
    else if lookups[0].found.None? then PickFrom(lookups[1..], current)
    else if lookups[0].matches then (lookups[0].found, lookups[0].name)
    else PickFrom(lookups[1..], lookups[0].found)
  }

  function Pick(lookups: seq<Lookup>): (Option<nat>, string) {
    PickFrom(lookups, None)
  }

  predicate IsLive(live: map<string, nat>, name: string) {
    name != "" && name in live
  }

  /** A location made under that name, which reloads may have replaced since, or none. */
  predicate Sound(cells: seq<Cell>, l: Lookup) {
    l.found.Some? ==> l.name != "" && l.found.value < |cells| && cells[l.found.value].name == l.name
  }

  /** No reload has fallen between the lookup and the present. */
  predicate Current(live: map<string, nat>, l: Lookup) {
    l.found == if IsLive(live, l.name) then Some(live[l.name]) else None
  }

  /**
    A name is recorded exactly when a location that was found matches, and then it is the one held. A
    location is held whenever one was found, matching or not.
   */
  lemma {:induction false} PickExact(cells: seq<Cell>, lookups: seq<Lookup>, current: Option<nat>)
    requires forall i :: 0 <= i < |lookups| ==> Sound(cells, lookups[i])
    ensures var (cell, name) := PickFrom(lookups, current);
      && (name != "" <==> exists l :: l in lookups && l.found.Some? && l.matches)
      && (name != "" ==> cell.Some? && exists l :: l in lookups && l == Lookup(name, cell, true))
      && (cell.Some? <==> current.Some? || exists l :: l in lookups && l.found.Some?)
      && (cell.Some? && cell != current ==> exists l :: l in lookups && l.found == cell)
  {
    if lookups != [] {
      assert Sound(cells, lookups[0]);
      var next := if lookups[0].found.Some? then lookups[0].found else current;
      PickExact(cells, lookups[1..], next);
      assert forall l :: l in lookups <==> l == lookups[0] || l in lookups[1..];
    }
  }

  /** Which lookup decides: the first that finds a match, or else the last that finds a location. */
  lemma {:induction false} PickOrder(lookups: seq<Lookup>, current: Option<nat>) returns (i: nat)
    ensures i <= |lookups|
    ensures (exists j :: 0 <= j < |lookups| && lookups[j].found.Some? && lookups[j].matches) ==>
              && i < |lookups| && lookups[i].found.Some? && lookups[i].matches
              && PickFrom(lookups, current) == (lookups[i].found, lookups[i].name)
              && forall j :: 0 <= j < i ==> lookups[j].found.None? || !lookups[j].matches
    ensures !(exists j :: 0 <= j < |lookups| && lookups[j].found.Some? && lookups[j].matches) ==>
              && PickFrom(lookups, current) == (if i < |lookups| then lookups[i].found else current, "")
              && (i < |lookups| ==> lookups[i].found.Some?)
              && forall j :: 0 <= j < |lookups| && (i < j || i == |lookups|) ==> lookups[j].found.None?
  {
    if lookups == [] {
      i := 0;
    } else if lookups[0].found.Some? && lookups[0].matches {
      i := 0;
    } else {
      var rest, next := lookups[1..], if lookups[0].found.Some? then lookups[0].found else current;
      var k := PickOrder(rest, next);
      assert forall j :: 0 <= j < |rest| ==> rest[j] == lookups[j + 1];
      i := if k == |rest| && lookups[0].found.Some? then 0 else k + 1;
      if j :| 0 <= j < |lookups| && lookups[j].found.Some? && lookups[j].matches {
        assert rest[j - 1] == lookups[j];
      }
    }
  }

  function AfterEnter(s: State, i: nat): State
    requires i < |s.requests| && Valid(s)
  {
    var r := s.requests[i];
    if r.cell.None? then
      s.(requests := s.requests[i := r.(stage := Entered(false, true))])
    else if TooLarge(s.cells[r.cell.value], r.length) then
      s.(requests := s.requests[i := r.(stage := Entered(false, false))])
    else
      var c := r.cell.value;
      s.(cells := s.cells[c := AfterAdd(s.cells[c])],
         requests := s.requests[i := r.(stage := Entered(true, Admits(s.cells[c])))])
  }

  function SubTarget(s: State, r: Request): Option<nat> {
    if IsLive(s.live, r.name) then Some(s.live[r.name]) else None
  }

  function AfterFinish(s: State, i: nat): State
    requires i < |s.requests| && Valid(s) && s.requests[i].stage.Entered?
  {
    var r := s.requests[i];
    var target := SubTarget(s, r);
    var ended := s.requests[i := r.(stage := Done(r.stage.added, r.stage.admitted, target))];
    if target.None? then s.(requests := ended)
    else s.(cells := s.cells[target.value := AfterSub(s.cells[target.value])], requests := ended)
  }

  ghost predicate Valid(s: State) {
    && (forall name :: name in s.live ==> s.live[name] < |s.cells| && s.cells[s.live[name]].name == name)
    && (forall i :: 0 <= i < |s.requests| ==> s.requests[i].cell.Some? ==> s.requests[i].cell.value < |s.cells|)
    && (forall i :: 0 <= i < |s.requests| ==> s.requests[i].stage.Done? && s.requests[i].stage.subbed.Some? ==>
          s.requests[i].stage.subbed.value < |s.cells|)
  }

  function CellKey(cells: seq<Cell>): nat -> u64 {
    (c: nat) => if c < |cells| then cells[c].key else 0
  }

  ghost predicate ReloadStep(s: State, configs: map<string, LocationConf>, t: State) {
    if Reloads(s.live, CellKey(s.cells), configs) then
      && t.requests == s.requests && s.cells <= t.cells
      && IsReload(s.live, CellKey(s.cells), configs, t.live)
      && (forall name :: name in configs && !Unchanged(s.live, CellKey(s.cells), configs, name) ==>
            |s.cells| <= t.live[name] < |t.cells| && t.cells[t.live[name]] == NewCell(name, configs[name]))
      && (forall c :: |s.cells| <= c < |t.cells| ==> t.cells[c].accepted == 0 && t.cells[c].processing == 0)
    else
      t == s
  }

  ghost predicate Step(s: State, e: Event, t: State)
    requires Valid(s)
  {
    match e
    case Reload(configs) => ReloadStep(s, configs, t)
    case Choose(lookups, length) =>
      var (cell, name) := Pick(lookups);
      && (forall i :: 0 <= i < |lookups| ==> Sound(s.cells, lookups[i]))
      && t == s.(requests := s.requests + [Request(cell, name, length, Early)])
    case Enter(i) => i < |s.requests| && s.requests[i].stage.Early? && t == AfterEnter(s, i)
    case Finish(i) => i < |s.requests| && s.requests[i].stage.Entered? && t == AfterFinish(s, i)
  }

  /**
    A reload that goes through leaves every configured name with a location of the configured hash,
    and it is a new one exactly when the name was not live, or with another hash.
   */
  lemma ReloadConfigures(s: State, configs: map<string, LocationConf>, t: State)
    requires Valid(s) && ReloadStep(s, configs, t)
    ensures t == s || t.live.Keys == configs.Keys
    ensures (forall name :: name in configs ==>
              && name != ""
              && (configs[name].builds || (name in s.live && s.cells[s.live[name]].key == configs[name].hash))) ==>
            && t.live.Keys == configs.Keys
            && forall name :: name in configs ==>
                 && t.live[name] < |t.cells| && t.cells[t.live[name]].key == configs[name].hash
                 && (t.live[name] < |s.cells| <==> name in s.live && s.cells[s.live[name]].key == configs[name].hash)
    ensures !(forall name :: name in configs ==>
              && name != ""
              && (configs[name].builds || (name in s.live && s.cells[s.live[name]].key == configs[name].hash))) ==>
            t == s
  {
  }

  lemma ReloadValid(s: State, configs: map<string, LocationConf>, t: State)
    requires Valid(s) && ReloadStep(s, configs, t)
    ensures Valid(t)
  {
    forall name | name in t.live
      ensures t.live[name] < |t.cells|
    {
      if Reloads(s.live, CellKey(s.cells), configs) && Unchanged(s.live, CellKey(s.cells), configs, name) {
        assert t.live[name] == s.live[name];
      }
    }
  }

  lemma StepValid(s: State, e: Event, t: State)
    requires Valid(s) && Step(s, e, t)
    ensures Valid(t)
  {
    match e
    case Reload(configs) => ReloadValid(s, configs, t);
    case Choose(lookups, length) => PickExact(s.cells, lookups, None);
    case Enter(i) =>
    case Finish(i) =>
  }

  // ---------------------------------------------------------------------------------------------
  // Counting requests
  // ---------------------------------------------------------------------------------------------

  function Count(rs: seq<Request>, p: Request -> bool): nat {
    if rs == [] then 0
    else Count(rs[..|rs| - 1], p) + if p(rs[|rs| - 1]) then 1 else 0
  }

  lemma {:induction false} CountUpdate(rs: seq<Request>, i: nat, r: Request, p: Request -> bool)
    requires i < |rs|
    ensures Count(rs[i := r], p) + (if p(rs[i]) then 1 else 0) == Count(rs, p) + if p(r) then 1 else 0
  {
    var n, next := |rs| - 1, rs[i := r];
    if i == n {
      assert next[..n] == rs[..n];
    } else {
      CountUpdate(rs[..n], i, r, p);
      assert next[..n] == rs[..n][i := r];
    }
  }

  lemma CountPush(rs: seq<Request>, r: Request, p: Request -> bool)
    ensures Count(rs + [r], p) == Count(rs, p) + if p(r) then 1 else 0
  {
    assert (rs + [r])[..|rs|] == rs;
  }

  lemma {:induction false} CountNone(rs: seq<Request>, p: Request -> bool)
    requires forall i :: 0 <= i < |rs| ==> !p(rs[i])
    ensures Count(rs, p) == 0
  {
    if rs != [] {
      CountNone(rs[..|rs| - 1], p);
    }
  }

  function AddedAt(c: nat): Request -> bool {
    (r: Request) => r.cell == Some(c) && !r.stage.Early? && r.stage.added
  }

  function SubbedAt(c: nat): Request -> bool {
    (r: Request) => r.stage.Done? && r.stage.subbed == Some(c)
  }

  /** Counted at the location and not yet logged. */
  function FlyingAt(c: nat): Request -> bool {
    (r: Request) => r.cell == Some(c) && r.stage.Entered? && r.stage.added
  }

  /** Flying, and let through. */
  function ActiveAt(c: nat): Request -> bool {
    (r: Request) => r.cell == Some(c) && r.stage.Entered? && r.stage.added && r.stage.admitted
  }

  /** Counted up at the location and, when it was logged, not counted down there. */
  function LostAt(c: nat): Request -> bool {
    (r: Request) => r.cell == Some(c) && r.stage.Done? && r.stage.added && r.stage.subbed != Some(c)
  }

  /** Counted down at the location without having been counted up there. */
  function SpuriousAt(c: nat): Request -> bool {
    (r: Request) => r.stage.Done? && r.stage.subbed == Some(c) && !(r.cell == Some(c) && r.stage.added)
  }

  lemma {:induction false} CountsBalance(rs: seq<Request>, c: nat)
    ensures Count(rs, AddedAt(c)) - Count(rs, SubbedAt(c)) ==
            Count(rs, FlyingAt(c)) + Count(rs, LostAt(c)) - Count(rs, SpuriousAt(c))
    ensures Count(rs, ActiveAt(c)) <= Count(rs, FlyingAt(c))
  {
    if rs != [] {
      CountsBalance(rs[..|rs| - 1], c);
    }
  }

  // ---------------------------------------------------------------------------------------------
  // The counters, in every run
  // ---------------------------------------------------------------------------------------------

  predicate Tallies(cell: Cell, added: nat, subbed: nat) {
    cell.processing == I32(added - subbed) && cell.accepted == added % U64
  }

  /** The counters of a location are what was added to and subtracted from it. */
  predicate CellExact(s: State, c: nat)
    requires c < |s.cells|
  {
    Tallies(s.cells[c], Count(s.requests, AddedAt(c)), Count(s.requests, SubbedAt(c)))
  }

  ghost predicate Exact(s: State) {
    Valid(s) && forall c :: 0 <= c < |s.cells| ==> CellExact(s, c)
  }

  lemma TalliesMove(cell: Cell, added: nat, subbed: nat)
    requires Tallies(cell, added, subbed)
    ensures Tallies(AfterAdd(cell), added + 1, subbed) && Tallies(AfterSub(cell), added, subbed + 1)
  {
    I32Adds(added - subbed, 1);
    I32Adds(added - subbed, -1);
  }

  lemma EnterExact(s: State, i: nat, c: nat)
    requires Exact(s) && i < |s.requests| && s.requests[i].stage.Early? && c < |s.cells|
    ensures CellExact(AfterEnter(s, i), c)
  {
    var t := AfterEnter(s, i);
    CountUpdate(s.requests, i, t.requests[i], AddedAt(c));
    CountUpdate(s.requests, i, t.requests[i], SubbedAt(c));
    assert CellExact(s, c);
    TalliesMove(s.cells[c], Count(s.requests, AddedAt(c)), Count(s.requests, SubbedAt(c)));
  }

  lemma FinishExact(s: State, i: nat, c: nat)
    requires Exact(s) && i < |s.requests| && s.requests[i].stage.Entered? && c < |s.cells|
    ensures CellExact(AfterFinish(s, i), c)
  {
    var t := AfterFinish(s, i);
    CountUpdate(s.requests, i, t.requests[i], AddedAt(c));
    CountUpdate(s.requests, i, t.requests[i], SubbedAt(c));
    assert CellExact(s, c);
    TalliesMove(s.cells[c], Count(s.requests, AddedAt(c)), Count(s.requests, SubbedAt(c)));
  }

  lemma ChooseExact(s: State, r: Request, c: nat)
    requires Exact(s) && r.stage.Early? && c < |s.cells|
    ensures CellExact(s.(requests := s.requests + [r]), c)
  {
    CountPush(s.requests, r, AddedAt(c));
    CountPush(s.requests, r, SubbedAt(c));
    assert CellExact(s, c);
  }

  lemma ReloadExact(s: State, configs: map<string, LocationConf>, t: State, c: nat)
    requires Exact(s) && ReloadStep(s, configs, t) && c < |t.cells|
    ensures CellExact(t, c)
  {
    if c < |s.cells| {
      assert CellExact(s, c) && t.cells[c] == s.cells[c];
    } else {
      CountNone(s.requests, AddedAt(c));
      CountNone(s.requests, SubbedAt(c));
      I32InRange(0);
    }
  }

  lemma StepExact(s: State, e: Event, t: State)
    requires Exact(s) && Step(s, e, t)
    ensures Exact(t)
  {
    StepValid(s, e, t);
    forall c | 0 <= c < |t.cells|
      ensures CellExact(t, c)
    {
      match e
      case Reload(configs) => ReloadExact(s, configs, t, c);
      case Choose(lookups, length) => ChooseExact(s, t.requests[|s.requests|], c);
      case Enter(i) => EnterExact(s, i, c);
      case Finish(i) => FinishExact(s, i, c);
    }
  }

  const START := State(map[], [], [])

  /** A run from the start: the states passed through, one more than the events. */
  ghost predicate IsRun(states: seq<State>, events: seq<Event>) {
    && |states| == |events| + 1 && states[0] == START
    && forall i :: 0 <= i < |events| ==> Valid(states[i]) && Step(states[i], events[i], states[i + 1])
  }

  lemma {:induction false} RunExact(states: seq<State>, events: seq<Event>, n: nat)
    requires IsRun(states, events) && n < |states|
    ensures Exact(states[n])
    decreases n
  {
    if n > 0 {
      RunExact(states, events, n - 1);
      StepExact(states[n - 1], events[n - 1], states[n]);
    }
  }

  /** The true count: in flight, plus those lost, minus those counted down by others. */
  function Outstanding(s: State, c: nat): int {
    Count(s.requests, FlyingAt(c)) + Count(s.requests, LostAt(c)) - Count(s.requests, SpuriousAt(c))
  }

  predicate NeverWraps(s: State, c: nat) {
    -I31 <= Outstanding(s, c) < I31 - 1
  }

  /**
    In every run, `processing` is the number of requests in flight exactly as long as as many were
    lost as were counted down by others.
   */
  lemma ProcessingDrift(states: seq<State>, events: seq<Event>, n: nat, c: nat)
    requires IsRun(states, events) && n < |states| && c < |states[n].cells| && NeverWraps(states[n], c)
    ensures states[n].cells[c].processing == Outstanding(states[n], c)
    ensures var rs := states[n].requests;
      states[n].cells[c].processing == Count(rs, FlyingAt(c)) <==> Count(rs, LostAt(c)) == Count(rs, SpuriousAt(c))
  {
    RunExact(states, events, n);
    CellOutstanding(states[n], c);
  }

  lemma CellOutstanding(s: State, c: nat)
    requires Exact(s) && c < |s.cells| && NeverWraps(s, c)
    ensures s.cells[c].processing == Outstanding(s, c)
  {
    CountsBalance(s.requests, c);
    I32InRange(Outstanding(s, c));
    assert CellExact(s, c);
  }

  /** A request is let through exactly when the drifted count leaves room for it. */
  lemma AdmittedExactly(states: seq<State>, events: seq<Event>, n: nat, i: nat, c: nat)
    requires IsRun(states, events) && n < |states| && Valid(states[n])
    requires c < |states[n].cells| && NeverWraps(states[n], c)
    requires i < |states[n].requests| && states[n].requests[i].stage.Early? && states[n].requests[i].cell == Some(c)
    ensures var s := states[n];
      AfterEnter(s, i).requests[i].stage.admitted <==>
        && !TooLarge(s.cells[c], s.requests[i].length)
        && (s.cells[c].limit == 0 || Outstanding(s, c) < s.cells[c].limit)
  {
    RunExact(states, events, n);
    CellOutstanding(states[n], c);
    I32InRange(Outstanding(states[n], c) + 1);
  }

  // ---------------------------------------------------------------------------------------------
  // When requests are lost, or counted down elsewhere
  // ---------------------------------------------------------------------------------------------

  /** What the end of a request does to the balance of a location, by what can be seen at that point. */
  lemma FinishBalance(s: State, i: nat, c: nat)
    requires Valid(s) && i < |s.requests| && s.requests[i].stage.Entered? && c < |s.cells|
    ensures var r, t := s.requests[i], AfterFinish(s, i);
      var counted, stands := r.cell == Some(c) && r.stage.added, SubTarget(s, r) == Some(c);
      && (LostAt(c)(t.requests[i]) <==> counted && !stands)
      && (SpuriousAt(c)(t.requests[i]) <==> !counted && stands)
  {
  }

  /** The request was counted where its name leads at the end, or neither counted nor named. */
  ghost predicate Settles(s: State, r: Request) {
    r.stage.Entered? ==> SubTarget(s, r) == if r.stage.added then r.cell else None
  }

  ghost predicate AllSettle(states: seq<State>, events: seq<Event>)
    requires |states| == |events| + 1
  {
    forall i, k: nat :: 0 <= i < |events| && events[i] == Finish(k) && k < |states[i].requests| ==>
      Settles(states[i], states[i].requests[k])
  }

  ghost predicate NoDrift(s: State) {
    forall i, c :: 0 <= i < |s.requests| ==> !LostAt(c)(s.requests[i]) && !SpuriousAt(c)(s.requests[i])
  }

  lemma NoDriftStep(s: State, e: Event, t: State)
    requires Valid(s) && Step(s, e, t) && NoDrift(s)
    requires e.Finish? && e.request < |s.requests| ==> Settles(s, s.requests[e.request])
    ensures NoDrift(t)
  {
    forall i, c | 0 <= i < |t.requests|
      ensures !LostAt(c)(t.requests[i]) && !SpuriousAt(c)(t.requests[i])
    {
      if i < |s.requests| {
        assert !LostAt(c)(s.requests[i]) && !SpuriousAt(c)(s.requests[i]);
      }
    }
  }

  lemma {:induction false} SettledRun(states: seq<State>, events: seq<Event>, n: nat)
    requires IsRun(states, events) && AllSettle(states, events) && n < |states|
    ensures NoDrift(states[n])
  {
    if n > 0 {
      SettledRun(states, events, n - 1);
      NoDriftStep(states[n - 1], events[n - 1], states[n]);
    }
  }

  /** If every request settles, `processing` is the number in flight, so it is never negative. */
  lemma SettledCounters(states: seq<State>, events: seq<Event>, n: nat, c: nat)
    requires IsRun(states, events) && AllSettle(states, events) && n < |states| && c < |states[n].cells|
    requires NeverWraps(states[n], c)
    ensures states[n].cells[c].processing == Count(states[n].requests, FlyingAt(c))
  {
    SettledRun(states, events, n);
    CountNone(states[n].requests, LostAt(c));
    CountNone(states[n].requests, SpuriousAt(c));
    ProcessingDrift(states, events, n, c);
  }

  lemma PickIsCurrent(s: State, lookups: seq<Lookup>)
    requires forall i :: 0 <= i < |lookups| ==> Sound(s.cells, lookups[i]) && Current(s.live, lookups[i])
    ensures var (cell, name) := Pick(lookups);
      && (cell.Some? ==> cell.value < |s.cells|)
      && (name != "" ==> cell.Some? && IsLive(s.live, name) && s.live[name] == cell.value)
  {
    PickExact(s.cells, lookups, None);
    var (cell, name) := Pick(lookups);
    if name != "" {
      assert Current(s.live, Lookup(name, cell, true));
    }
  }

  /** A request that enters counts up the location it was given, if the body fits. */
  lemma LoneEnter(t: State, i: nat, c: nat)
    requires Valid(t) && i < |t.requests| && t.requests[i].cell == Some(c) && c < |t.cells|
    requires -I31 < t.cells[c].processing < I31 - 1
    ensures var u, large := AfterEnter(t, i), TooLarge(t.cells[c], t.requests[i].length);
      && u.live == t.live && u.requests[i].name == t.requests[i].name
      && u.cells == (if large then t.cells else t.cells[c := AfterAdd(t.cells[c])])
      && u.cells[c].processing == t.cells[c].processing + if large then 0 else 1
  {
    I32InRange(t.cells[c].processing + 1);
  }

  /** A request that ends counts down the location of its name, if it has one. */
  lemma LoneFinish(u: State, i: nat, c: nat)
    requires Valid(u) && i < |u.requests| && u.requests[i].stage.Entered? && c < |u.cells|
    requires u.requests[i].name != "" ==> IsLive(u.live, u.requests[i].name) && u.live[u.requests[i].name] == c
    requires -I31 < u.cells[c].processing < I31
    ensures var v, named := AfterFinish(u, i), u.requests[i].name != "";
      && v.cells == (if named then u.cells[c := AfterSub(u.cells[c])] else u.cells)
      && v.cells[c].processing == u.cells[c].processing - if named then 1 else 0
  {
    I32InRange(u.cells[c].processing - 1);
  }

  /**
    One request from beginning to end with nothing in between. The count of the location it was
    given comes back to where it was, except that a body too large for a matching location leaves it
    one lower, and a request that matches none leaves the last one tried one higher.
   */
  lemma LoneRequest(s: State, lookups: seq<Lookup>, length: nat, t: State, u: State, v: State)
    requires Valid(s) && Step(s, Choose(lookups, length), t)
    requires forall i :: 0 <= i < |lookups| ==> Current(s.live, lookups[i])
    requires Valid(t) && Step(t, Enter(|s.requests|), u) && Valid(u) && Step(u, Finish(|s.requests|), v)
    requires Pick(lookups).0.Some?
    requires forall c :: 0 <= c < |s.cells| ==> -I31 < s.cells[c].processing < I31 - 1
    ensures var (cell, name) := Pick(lookups);
      var c := cell.value;
      && c < |s.cells| == |v.cells|
      && v.cells[c].processing == s.cells[c].processing
           + (if TooLarge(s.cells[c], length) then 0 else 1) - (if name != "" then 1 else 0)
      && forall d :: 0 <= d < |s.cells| && d != c ==> v.cells[d] == s.cells[d]
  {
    var (cell, name) := Pick(lookups);
    PickIsCurrent(s, lookups);
    LoneEnter(t, |s.requests|, cell.value);
    LoneFinish(u, |s.requests|, cell.value);
  }

  // ---------------------------------------------------------------------------------------------
  // The limit
  // ---------------------------------------------------------------------------------------------

  /** The limit holds but for what others have counted down. */
  predicate LimitHolds(s: State, c: nat)
    requires c < |s.cells|
  {
    s.cells[c].limit != 0 ==>
      Count(s.requests, ActiveAt(c)) <= Max(0, s.cells[c].limit + Count(s.requests, SpuriousAt(c)))
  }

  lemma EnterLimit(s: State, i: nat, c: nat)
    requires Exact(s) && i < |s.requests| && s.requests[i].stage.Early? && c < |s.cells|
    requires LimitHolds(s, c) && NeverWraps(s, c)
    ensures LimitHolds(AfterEnter(s, i), c)
  {
    var t := AfterEnter(s, i);
    CountUpdate(s.requests, i, t.requests[i], ActiveAt(c));
    CountUpdate(s.requests, i, t.requests[i], SpuriousAt(c));
    if ActiveAt(c)(t.requests[i]) {
      CellOutstanding(s, c);
      CountsBalance(s.requests, c);
      I32InRange(Outstanding(s, c) + 1);
    }
  }

  lemma FinishLimit(s: State, i: nat, c: nat)
    requires Valid(s) && i < |s.requests| && s.requests[i].stage.Entered? && c < |s.cells|
    requires LimitHolds(s, c)
    ensures LimitHolds(AfterFinish(s, i), c)
  {
    var t := AfterFinish(s, i);
    CountUpdate(s.requests, i, t.requests[i], ActiveAt(c));
    CountUpdate(s.requests, i, t.requests[i], SpuriousAt(c));
  }

  lemma StepLimit(s: State, e: Event, t: State, c: nat)
    requires Exact(s) && Step(s, e, t) && c < |t.cells|
    requires c < |s.cells| ==> LimitHolds(s, c) && NeverWraps(s, c)
    ensures LimitHolds(t, c)
  {
    match e
    case Reload(configs) =>
      if c >= |s.cells| {
        CountNone(s.requests, ActiveAt(c));
      }
    case Choose(lookups, length) =>
      CountPush(s.requests, t.requests[|s.requests|], ActiveAt(c));
      CountPush(s.requests, t.requests[|s.requests|], SpuriousAt(c));
    case Enter(i) => EnterLimit(s, i, c);
    case Finish(i) => FinishLimit(s, i, c);
  }

  /**
    In every run, at most `max_processing` admitted requests of a location are in flight at once, and
    one more for each request that counted it down without having been counted there.
   */
  lemma {:induction false} AdmittedAtMost(states: seq<State>, events: seq<Event>, n: nat, c: nat)
    requires IsRun(states, events) && n < |states| && c < |states[n].cells|
    requires forall i :: 0 <= i < n && c < |states[i].cells| ==> NeverWraps(states[i], c)
    ensures LimitHolds(states[n], c)
  {
    if n > 0 {
      if c < |states[n - 1].cells| {
        AdmittedAtMost(states, events, n - 1, c);
      }
      RunExact(states, events, n - 1);
      StepLimit(states[n - 1], events[n - 1], states[n], c);
    }
  }

  /**
    A request takes the number of admitted requests over the limit exactly when it fits, the location
    is full, and more was counted down by others than is lost or refused and still in flight.
   */
  lemma OverLimitExactly(states: seq<State>, events: seq<Event>, n: nat, i: nat, c: nat)
    requires IsRun(states, events) && n < |states| && Valid(states[n])
    requires c < |states[n].cells| && NeverWraps(states[n], c) && states[n].cells[c].limit != 0
    requires i < |states[n].requests| && states[n].requests[i].stage.Early? && states[n].requests[i].cell == Some(c)
    requires Count(states[n].requests, ActiveAt(c)) <= states[n].cells[c].limit
    ensures var s, rs := states[n], states[n].requests;
      var active, flying := Count(rs, ActiveAt(c)), Count(rs, FlyingAt(c));
      Count(AfterEnter(s, i).requests, ActiveAt(c)) > s.cells[c].limit <==>
        && !TooLarge(s.cells[c], rs[i].length) && active == s.cells[c].limit
        && Count(rs, SpuriousAt(c)) > Count(rs, LostAt(c)) + (flying - active)
  {
    AdmittedExactly(states, events, n, i, c);
    CountUpdate(states[n].requests, i, AfterEnter(states[n], i).requests[i], ActiveAt(c));
  }

  // ---------------------------------------------------------------------------------------------
  // Runs with reloads
  // ---------------------------------------------------------------------------------------------

  lemma KeptByStep(s: State, e: Event, t: State, name: string)
    requires Valid(s) && Step(s, e, t) && IsLive(s.live, name)
    requires e.Reload? ==> name in e.configs && e.configs[name].hash == s.cells[s.live[name]].key
    ensures IsLive(t.live, name) && t.live[name] == s.live[name]
    ensures s.live[name] < |t.cells| && t.cells[s.live[name]].key == s.cells[s.live[name]].key
  {
    if e.Reload? {
      assert Unchanged(s.live, CellKey(s.cells), e.configs, name);
    }
  }

  lemma AddedGrows(s: State, e: Event, t: State, c: nat)
    requires Valid(s) && Step(s, e, t)
    ensures Count(s.requests, AddedAt(c)) <= Count(t.requests, AddedAt(c))
  {
    match e
    case Reload(configs) =>
    case Choose(lookups, length) => CountPush(s.requests, t.requests[|s.requests|], AddedAt(c));
    case Enter(i) => CountUpdate(s.requests, i, t.requests[i], AddedAt(c));
    case Finish(i) => CountUpdate(s.requests, i, t.requests[i], AddedAt(c));
  }

  /** Every reload among these events configures the name with the hash. */
  predicate KeepsHash(events: seq<Event>, i: nat, j: nat, name: string, hash: u64)
    requires j <= |events|
  {
    forall k :: i <= k < j && events[k].Reload? ==> name in events[k].configs && events[k].configs[name].hash == hash
  }

  /** The name stands for the location `c` of that key, to which `added` requests were added or more. */
  predicate StandsFor(s: State, name: string, c: nat, key: u64, added: nat) {
    && IsLive(s.live, name) && s.live[name] == c && c < |s.cells|
    && s.cells[c].key == key && added <= Count(s.requests, AddedAt(c))
  }

  lemma StandsByStep(s: State, e: Event, t: State, name: string, c: nat, key: u64, added: nat)
    requires Valid(s) && Step(s, e, t) && StandsFor(s, name, c, key, added)
    requires e.Reload? ==> name in e.configs && e.configs[name].hash == key
    ensures StandsFor(t, name, c, key, added)
  {
    KeptByStep(s, e, t, name);
    AddedGrows(s, e, t, c);
  }

  lemma StandsAfter(states: seq<State>, events: seq<Event>, k: nat, name: string, c: nat, key: u64, added: nat)
    requires IsRun(states, events) && k < |events| && StandsFor(states[k], name, c, key, added)
    requires events[k].Reload? ==> name in events[k].configs && events[k].configs[name].hash == key
    ensures StandsFor(states[k + 1], name, c, key, added)
  {
    StandsByStep(states[k], events[k], states[k + 1], name, c, key, added);
  }

  lemma {:induction false} StandsThrough(states: seq<State>, events: seq<Event>, i: nat, j: nat, name: string,
                                         c: nat, key: u64, added: nat)
    requires IsRun(states, events) && i <= j < |states| && StandsFor(states[i], name, c, key, added)
    requires KeepsHash(events, i, j, name, key)
    ensures StandsFor(states[j], name, c, key, added)
    decreases j
  {
    if i < j {
      StandsThrough(states, events, i, j - 1, name, c, key, added);
      StandsAfter(states, events, j - 1, name, c, key, added);
    }
  }

  /** Through any number of such reloads a name stands for the same location, and its counts go on. */
  lemma StaysSame(states: seq<State>, events: seq<Event>, i: nat, j: nat, name: string)
    requires IsRun(states, events) && i <= j < |states| && Valid(states[i]) && IsLive(states[i].live, name)
    requires KeepsHash(events, i, j, name, states[i].cells[states[i].live[name]].key)
    ensures var c := states[i].live[name];
      StandsFor(states[j], name, c, states[i].cells[c].key, Count(states[i].requests, AddedAt(c)))
  {
    var c := states[i].live[name];
    StandsThrough(states, events, i, j, name, c, states[i].cells[c].key, Count(states[i].requests, AddedAt(c)));
  }

  // ---------------------------------------------------------------------------------------------
  // Runs that reach the bound
  // ---------------------------------------------------------------------------------------------

  lemma RunPush(states: seq<State>, events: seq<Event>, e: Event, t: State)
    requires IsRun(states, events) && Valid(states[|events|]) && Step(states[|events|], e, t)
    ensures IsRun(states + [t], events + [e])
  {
  }

  /** A location that takes bodies of one byte. */
  function Small(limit: int): LocationConf {
    LocationConf(0, true, Some(limit), 1)
  }

  /** The only location, after `k` requests counted it down wrongly and with `a` admitted in flight. */
  predicate Strained(s: State, limit: int, k: nat, a: nat) {
    && s.live == map["a" := 0] && |s.cells| == 1
    && s.cells[0].limit == limit && s.cells[0].bodyMax == 1 && s.cells[0].processing == a - k
    && Count(s.requests, SpuriousAt(0)) == k && Count(s.requests, ActiveAt(0)) == a
  }

  const TO_A := Lookup("a", Some(0), true)

  function Asked(s: State, length: nat): State {
    s.(requests := s.requests + [Request(Some(0), "a", length, Early)])
  }

  lemma AskStep(s: State, limit: int, k: nat, a: nat, length: nat)
    requires Valid(s) && Strained(s, limit, k, a)
    ensures Step(s, Choose([TO_A], length), Asked(s, length))
    ensures Valid(Asked(s, length)) && Strained(Asked(s, length), limit, k, a)
  {
    assert Pick([TO_A]) == (Some(0), "a");
    assert "a" in s.live && Sound(s.cells, TO_A);
    CountPush(s.requests, Request(Some(0), "a", length, Early), SpuriousAt(0));
    CountPush(s.requests, Request(Some(0), "a", length, Early), ActiveAt(0));
  }

  lemma RefuseStep(s: State, i: nat, limit: int, k: nat, a: nat)
    requires Valid(s) && Strained(s, limit, k, a) && i < |s.requests|
    requires s.requests[i] == Request(Some(0), "a", 2, Early)
    ensures Valid(AfterEnter(s, i)) && Strained(AfterEnter(s, i), limit, k, a)
  {
    CountUpdate(s.requests, i, AfterEnter(s, i).requests[i], SpuriousAt(0));
    CountUpdate(s.requests, i, AfterEnter(s, i).requests[i], ActiveAt(0));
  }

  lemma CountDownStep(s: State, i: nat, limit: int, k: nat, a: nat)
    requires Valid(s) && Strained(s, limit, k, a) && -I31 <= a - k - 1 < I31
    requires i < |s.requests| && s.requests[i] == Request(Some(0), "a", 2, Entered(false, false))
    ensures Valid(AfterFinish(s, i)) && Strained(AfterFinish(s, i), limit, k + 1, a)
  {
    I32InRange(a - k - 1);
    CountUpdate(s.requests, i, AfterFinish(s, i).requests[i], SpuriousAt(0));
    CountUpdate(s.requests, i, AfterFinish(s, i).requests[i], ActiveAt(0));
  }

  lemma AdmitStep(s: State, i: nat, limit: int, k: nat, a: nat)
    requires Valid(s) && Strained(s, limit, k, a) && a - k < limit < I31 && k <= I31
    requires i < |s.requests| && s.requests[i] == Request(Some(0), "a", 0, Early)
    ensures Valid(AfterEnter(s, i)) && Strained(AfterEnter(s, i), limit, k, a + 1)
  {
    I32InRange(a - k + 1);
    CountUpdate(s.requests, i, AfterEnter(s, i).requests[i], SpuriousAt(0));
    CountUpdate(s.requests, i, AfterEnter(s, i).requests[i], ActiveAt(0));
  }

  /** A run ends in such a state. */
  ghost predicate Strains(states: seq<State>, events: seq<Event>, limit: int, k: nat, a: nat) {
    IsRun(states, events) && Valid(states[|events|]) && Strained(states[|events|], limit, k, a)
  }

  lemma Reloaded(limit: int) returns (states: seq<State>, events: seq<Event>)
    ensures Strains(states, events, limit, 0, 0)
  {
    var conf := map["a" := Small(limit)];
    var t := State(map["a" := 0], [NewCell("a", Small(limit))], []);
    assert conf["a"] == Small(limit) && "a" in conf;
    assert ReloadStep(START, conf, t);
    states, events := [START] + [t], [] + [Reload(conf)];
    RunPush([START], [], Reload(conf), t);
  }

  /** One more request with a body too large. */
  lemma {:induction false} CountedDown(limit: int, k: nat) returns (states: seq<State>, events: seq<Event>)
    requires k <= I31
    ensures Strains(states, events, limit, k, 0)
  {
    if k == 0 {
      states, events := Reloaded(limit);
    } else {
      states, events := CountedDown(limit, k - 1);
      var s := states[|events|];
      var i, t := |s.requests|, Asked(s, 2);
      var u := AfterEnter(t, i);
      AskStep(s, limit, k - 1, 0, 2);
      RunPush(states, events, Choose([TO_A], 2), t);
      RefuseStep(t, i, limit, k - 1, 0);
      RunPush(states + [t], events + [Choose([TO_A], 2)], Enter(i), u);
      CountDownStep(u, i, limit, k - 1, 0);
      RunPush(states + [t] + [u], events + [Choose([TO_A], 2)] + [Enter(i)], Finish(i), AfterFinish(u, i));
      states := states + [t] + [u] + [AfterFinish(u, i)];
      events := events + [Choose([TO_A], 2)] + [Enter(i)] + [Finish(i)];
    }
  }

  /** One more request that is let through. */
  lemma {:induction false} LetThrough(limit: int, k: nat, a: nat) returns (states: seq<State>, events: seq<Event>)
    requires 0 < limit < I31 && k <= I31 && a <= limit + k
    ensures Strains(states, events, limit, k, a)
  {
    if a == 0 {
      states, events := CountedDown(limit, k);
    } else {
      states, events := LetThrough(limit, k, a - 1);
      var s := states[|events|];
      var i, t := |s.requests|, Asked(s, 0);
      AskStep(s, limit, k, a - 1, 0);
      RunPush(states, events, Choose([TO_A], 0), t);
      AdmitStep(t, i, limit, k, a - 1);
      RunPush(states + [t], events + [Choose([TO_A], 0)], Enter(i), AfterEnter(t, i));
      states := states + [t] + [AfterEnter(t, i)];
      events := events + [Choose([TO_A], 0)] + [Enter(i)];
    }
  }

  /** No smaller bound holds: for every limit and every number of requests counted down wrongly a run reaches it. */
  lemma LimitIsTight(limit: int, k: nat) returns (states: seq<State>, events: seq<Event>)
    requires 0 < limit < I31 && k <= I31
    ensures IsRun(states, events) && |states[|events|].cells| == 1
    ensures var last := states[|events|];
      && last.cells[0].limit == limit && Count(last.requests, SpuriousAt(0)) == k
      && Count(last.requests, ActiveAt(0)) == limit + k
  {
    states, events := LetThrough(limit, k, limit + k);
  }
}

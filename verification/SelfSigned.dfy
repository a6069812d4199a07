/**
  The pool of self-signed certificates, after pingap-certificate/src/self_signed.rs: a second-chance
  sweep drops certificates that were not used for two intervals.
 */
module SelfSigned {
  import opened Wrappers

  const CHECK_INTERVAL: nat := 24 * 60
  const GRACE_SECONDS: nat := 2 * 24 * 3600

  datatype Cert = Cert(notAfter: int, stale: bool, count: u32)

  type Pool = map<string, Cert>

  /** Certificates that ended before this time are expired: a wrapping `u64` difference, as an `i64`. */
  function ExpiredBefore(now: u64): int {
    var d := WrappingSub(now, GRACE_SECONDS);
    if d < 0x8000_0000_0000_0000 then d else d - U64
  }

  /** Two days before now, where the difference fits an `i64`, and else that modulo 2^64. */
  lemma TwoDaysAgo(now: u64)
    ensures -0x8000_0000_0000_0000 <= ExpiredBefore(now) < 0x8000_0000_0000_0000
    ensures (ExpiredBefore(now) - (now - 2 * 24 * 3600)) % U64 == 0
    ensures now < 0x8000_0000_0000_0000 ==> ExpiredBefore(now) == now - 2 * 24 * 3600
  {
  }

  predicate Keeps(c: Cert, now: u64) {
    c.notAfter >= ExpiredBefore(now) && (c.count != 0 || !c.stale)
  }

  function Aged(c: Cert): Cert {
    if c.count == 0 then c.(stale := true) else c.(stale := false, count := 0)
  }

  /** The certificates that stay, each aged; the order does not matter. */
  ghost function AfterSweep(pool: Pool, now: u64): Pool
    decreases |pool|
  {
    if pool == map[] then map[]
    else
      var name :| name in pool;
      var rest := AfterSweep(pool - {name}, now);
      if Keeps(pool[name], now) then rest[name := Aged(pool[name])] else rest
  }

  ghost predicate IsSwept(pool: Pool, now: u64, next: Pool) {
    && (forall name :: name in next <==> name in pool && Keeps(pool[name], now))
    && (forall name :: name in next ==> next[name] == Aged(pool[name]))
  }

  lemma {:induction false} SweepExact(pool: Pool, now: u64)
    ensures IsSwept(pool, now, AfterSweep(pool, now))
    decreases |pool|
  {
    if pool != map[] {
      var name :| name in pool && AfterSweep(pool, now) ==
        (var rest := AfterSweep(pool - {name}, now);
         if Keeps(pool[name], now) then rest[name := Aged(pool[name])] else rest);
      SweepExact(pool - {name}, now);
    }
  }

  lemma SweepIsUnique(pool: Pool, now: u64, next: Pool)
    requires IsSwept(pool, now, next)
    ensures next == AfterSweep(pool, now)
  {
    SweepExact(pool, now);
  }

  function AfterGet(pool: Pool, name: string): Pool {
    if name in pool then pool[name := pool[name].(count := (pool[name].count + 1) % U32)] else pool
  }

  class Certificate {
    const notAfter: int
    var stale: bool
    var count: u32

    constructor (notAfter: int)
      ensures Values() == Cert(notAfter, false, 0)
    {
      this.notAfter := notAfter;
      stale, count := false, 0;
    }

    function Values(): Cert
      reads this
    {
      Cert(notAfter, stale, count)
    }
  }

  class Certificates {
    var live: map<string, Certificate>
    ghost var contents: Pool

    /** `contents` are the values of the live certificates, which are different objects. */
    ghost predicate Valid()
      reads this, live.Values
    {
      && contents.Keys == live.Keys && (forall name :: name in live ==> contents[name] == live[name].Values())
      && (forall n, m :: n in live && m in live && n != m ==> live[n] != live[m])
    }

    constructor ()
      ensures Valid() && contents == map[]
    {
      live, contents := map[], map[];
    }

    method Get(name: string) returns (r: Option<Certificate>)
      requires Valid()
      modifies this`contents, live.Values
      ensures Valid() && r == if name in live then Some(live[name]) else None
      ensures contents == AfterGet(old(contents), name) == After(old(contents), Use(name))
    {
      if name !in live {
        return None;
      }
      var c := live[name];
      c.count := (c.count + 1) % U32;
      contents := contents[name := c.Values()];
      return Some(c);
    }

    method Add(name: string, notAfter: int) returns (c: Certificate)
      requires Valid()
      modifies this
      ensures Valid() && name in live && live[name] == c && fresh(c)
      ensures contents == old(contents)[name := Cert(notAfter, false, 0)]
      ensures contents == After(old(contents), Insert(name, notAfter))
    {
      c := new Certificate(notAfter);
      live := live[name := c];
      contents := contents[name := c.Values()];
    }

    /** The entries that stay, each aged. */
    method Sweep(now: u64) returns (next: map<string, Certificate>, ghost values: Pool)
      requires Valid()
      modifies live.Values
      ensures IsSwept(contents, now, values) && values.Keys == next.Keys
      ensures forall name :: name in next ==>
              name in live && next[name] == live[name] && live[name].Values() == values[name]
    {
      next, values := map[], map[];
      var todo := live.Keys;
      while todo != {}
        invariant todo <= live.Keys && values.Keys == next.Keys
        invariant forall name :: name in todo ==> live[name].Values() == contents[name]
        invariant forall name :: name in next <==> name in live && name !in todo && Keeps(contents[name], now)
        invariant forall name :: name in next ==>
                  next[name] == live[name] && live[name].Values() == values[name] == Aged(contents[name])
      {
        var name :| name in todo;
        todo := todo - {name};
        var c := live[name];
        if c.notAfter >= ExpiredBefore(now) {
          var keep := Age(c);
          if keep {
            next, values := next[name := c], values[name := c.Values()];
          }
        }
      }
    }

    /** The periodic task; `count` numbers its calls, one a minute. */
    method Check(count: u32, now: u64) returns (done: bool)
      requires Valid()
      modifies this, live.Values
      ensures Valid() && (done <==> count % 1440 == 0)
      ensures contents == if done then AfterSweep(old(contents), now) else old(contents)
      ensures contents == After(old(contents), Tick(count, now))
    {
      if count % CHECK_INTERVAL != 0 {
        return false;
      }
      ghost var values;
      var next;
      next, values := Sweep(now);
      SweepIsUnique(contents, now, values);
      live, contents := next, values;
      return true;
    }
  }

  /** One unexpired certificate in the sweep; a dropped one is left as it is. */
  method Age(c: Certificate) returns (keep: bool)
    modifies c
    ensures keep <==> old(c.count) != 0 || !old(c.stale)
    ensures c.Values() == if keep then Aged(old(c.Values())) else old(c.Values())
  {
    if c.count == 0 {
      if c.stale {
        return false;
      }
      c.stale := true;
    } else {
      c.stale, c.count := false, 0;
    }
    return true;
  }

  // ---------------------------------------------------------------------------------------------
  // Runs
  // ---------------------------------------------------------------------------------------------

  datatype Event = Use(name: string) | Insert(name: string, notAfter: int) | Tick(count: u32, now: u64)

  predicate IsSweep(e: Event) {
    e.Tick? && e.count % CHECK_INTERVAL == 0
  }

  ghost function After(pool: Pool, e: Event): Pool {
    match e
    case Use(name) => AfterGet(pool, name)
    case Insert(name, notAfter) => pool[name := Cert(notAfter, false, 0)]
    case Tick(count, now) => if IsSweep(e) then AfterSweep(pool, now) else pool
  }

  ghost function Run(events: seq<Event>): Pool {
    if events == [] then map[] else After(Run(events[..|events| - 1]), events[|events| - 1])
  }

  /** The event starts a new interval of the certificate: a sweep, or its being added. */
  predicate Marks(e: Event, name: string) {
    IsSweep(e) || (e.Insert? && e.name == name)
  }

  /** Where the current interval of the certificate starts, just after the latest mark. */
  function Start(events: seq<Event>, name: string): (i: nat)
    ensures i <= |events|
  {
    if events == [] then 0
    else if Marks(events[|events| - 1], name) then |events|
    else Start(events[..|events| - 1], name)
  }

  function Uses(events: seq<Event>, name: string): nat {
    if events == [] then 0
    else Uses(events[..|events| - 1], name) + if events[|events| - 1] == Use(name) then 1 else 0
  }

  lemma UsesOfPush(events: seq<Event>, e: Event, name: string)
    ensures Uses(events + [e], name) == Uses(events, name) + if e == Use(name) then 1 else 0
  {
    assert (events + [e])[..|events|] == events;
  }

  /** The uses since the latest mark. */
  function Recent(events: seq<Event>, name: string): nat {
    Uses(events[Start(events, name)..], name)
  }

  /** The latest mark is a sweep, which then found the certificate without a counted use. */
  predicate Warned(events: seq<Event>, name: string) {
    var i := Start(events, name);
    i > 0 && IsSweep(events[i - 1]) && Recent(events[..i - 1], name) % U32 == 0
  }

  lemma {:induction false} StartOfPush(events: seq<Event>, e: Event, name: string)
    ensures Start(events + [e], name) == if Marks(e, name) then |events| + 1 else Start(events, name)
    ensures Recent(events + [e], name) ==
            if Marks(e, name) then 0 else Recent(events, name) + if e == Use(name) then 1 else 0
  {
    var all, i := events + [e], Start(events, name);
    assert all[..|all| - 1] == events;
    if Marks(e, name) {
      assert all[|all|..] == [];
    } else {
      assert all[i..] == events[i..] + [e];
      UsesOfPush(events[i..], e, name);
    }
  }

  lemma {:induction false} StartWithin(events: seq<Event>, name: string)
    ensures var i := Start(events, name);
      (i > 0 ==> Marks(events[i - 1], name)) && forall j :: i <= j < |events| ==> !Marks(events[j], name)
  {
    if events != [] && !Marks(events[|events| - 1], name) {
      StartWithin(events[..|events| - 1], name);
    }
  }

  lemma WarnedOfPush(events: seq<Event>, e: Event, name: string)
    ensures Warned(events + [e], name) ==
            if IsSweep(e) then Recent(events, name) % U32 == 0
            else if Marks(e, name) then false
            else Warned(events, name)
  {
    StartOfPush(events, e, name);
    var all, i := events + [e], Start(events + [e], name);
    if Marks(e, name) {
      assert all[..i - 1] == events;
    } else if i > 0 {
      assert all[..i - 1] == events[..i - 1];
    }
  }

  predicate Holds(c: Cert, recent: nat, warned: bool) {
    c.count == recent % U32 && c.stale == warned
  }

  /** The two fields of a certificate hold what the events say of it. */
  predicate FieldsMean(events: seq<Event>, name: string, c: Cert) {
    Holds(c, Recent(events, name), Warned(events, name))
  }

  lemma CountsUp(a: nat)
    ensures (a % U32 + 1) % U32 == (a + 1) % U32
  {
  }

  /** What one event does to a certificate that is there afterwards. */
  lemma HoldsAfter(pool: Pool, e: Event, name: string, recent: nat, warned: bool)
    requires name in After(pool, e) && (name in pool ==> Holds(pool[name], recent, warned))
    ensures Holds(After(pool, e)[name],
                  if Marks(e, name) then 0 else recent + if e == Use(name) then 1 else 0,
                  if IsSweep(e) then recent % U32 == 0 else if Marks(e, name) then false else warned)
  {
    CountsUp(recent);
    if IsSweep(e) {
      SweepExact(pool, e.now);
    }
  }

  lemma FieldsStep(events: seq<Event>, e: Event, name: string, pool: Pool)
    requires name in pool ==> FieldsMean(events, name, pool[name])
    requires name in After(pool, e)
    ensures FieldsMean(events + [e], name, After(pool, e)[name])
  {
    HoldsAfter(pool, e, name, Recent(events, name), Warned(events, name));
    StartOfPush(events, e, name);
    WarnedOfPush(events, e, name);
  }

  lemma {:induction false} FieldsInRun(events: seq<Event>, name: string)
    requires name in Run(events)
    ensures FieldsMean(events, name, Run(events)[name])
  {
    if events != [] {
      var rest, e := events[..|events| - 1], events[|events| - 1];
      assert events == rest + [e];
      if name in Run(rest) {
        FieldsInRun(rest, name);
      }
      FieldsStep(rest, e, name, Run(rest));
    }
  }

  lemma KeptExactly(c: Cert, now: u64, recent: nat, warned: bool)
    requires Holds(c, recent, warned) && c.notAfter >= ExpiredBefore(now)
    ensures Keeps(c, now) <==> !(recent % U32 == 0 && warned)
  {
  }

  /**
    An unexpired certificate is dropped by a sweep exactly when it was there at the sweep before, and
    was not used since then nor in the interval before that; uses are counted modulo 2^32.
   */
  lemma DroppedExactly(events: seq<Event>, sweep: Event, name: string)
    requires IsSweep(sweep) && name in Run(events) && Run(events)[name].notAfter >= ExpiredBefore(sweep.now)
    ensures name !in Run(events + [sweep]) <==> Recent(events, name) % U32 == 0 && Warned(events, name)
  {
    assert (events + [sweep])[..|events|] == events;
    FieldsInRun(events, name);
    SweepExact(Run(events), sweep.now);
    KeptExactly(Run(events)[name], sweep.now, Recent(events, name), Warned(events, name));
  }

  /** What has ended more than two days before a sweep is gone after it. */
  lemma ExpiredIsGone(events: seq<Event>, count: u32, now: u64, name: string)
    requires count % 1440 == 0 && now < 0x8000_0000_0000_0000
    ensures name in Run(events + [Tick(count, now)]) ==>
              Run(events + [Tick(count, now)])[name].notAfter >= now - 2 * 24 * 3600
  {
    assert (events + [Tick(count, now)])[..|events|] == events;
    SweepExact(Run(events), now);
    TwoDaysAgo(now);
  }

  /** Used in the current interval or the one before, fewer than 2^32 times. */
  predicate UsedLately(events: seq<Event>, name: string) {
    var i := Start(events, name);
    || 0 < Recent(events, name) < U32
    || (i > 0 && 0 < Recent(events[..i - 1], name) < U32)
  }

  lemma FewUses(a: nat)
    requires 0 < a < U32
    ensures a % U32 != 0
  {
  }

  lemma UsedIsNotIdle(events: seq<Event>, name: string)
    requires UsedLately(events, name)
    ensures !(Recent(events, name) % U32 == 0 && Warned(events, name))
  {
    var i := Start(events, name);
    if 0 < Recent(events, name) < U32 {
      FewUses(Recent(events, name));
    } else {
      FewUses(Recent(events[..i - 1], name));
    }
  }

  /** With fewer than 2^32 uses an interval, any use keeps a certificate for the next two sweeps. */
  lemma UsedIsKept(events: seq<Event>, sweep: Event, name: string)
    requires IsSweep(sweep) && name in Run(events) && Run(events)[name].notAfter >= ExpiredBefore(sweep.now)
    requires UsedLately(events, name)
    ensures name in Run(events + [sweep])
  {
    UsedIsNotIdle(events, name);
    DroppedExactly(events, sweep, name);
  }

  /** Added after the latest sweep. */
  predicate AddedLately(events: seq<Event>, name: string) {
    exists i :: 0 <= i < |events| && events[i].Insert? && events[i].name == name && NoSweep(events[i + 1..])
  }

  predicate NoSweep(events: seq<Event>) {
    forall j :: 0 <= j < |events| ==> !IsSweep(events[j])
  }

  lemma AddedIsNotWarned(events: seq<Event>, name: string)
    requires AddedLately(events, name)
    ensures !Warned(events, name)
  {
    StartWithin(events, name);
    var i :| 0 <= i < |events| && events[i].Insert? && events[i].name == name && NoSweep(events[i + 1..]);
    var start := Start(events, name);
    assert start > i;
    if start > i + 1 {
      assert events[start - 1] == events[i + 1..][start - i - 2];
    }
  }

  /** A certificate added since the latest sweep survives the next one, used or not. */
  lemma NewIsKept(events: seq<Event>, sweep: Event, name: string)
    requires IsSweep(sweep) && name in Run(events) && Run(events)[name].notAfter >= ExpiredBefore(sweep.now)
    requires AddedLately(events, name)
    ensures name in Run(events + [sweep])
  {
    AddedIsNotWarned(events, name);
    DroppedExactly(events, sweep, name);
  }

  // ---------------------------------------------------------------------------------------------
  // What is no longer used goes away
  // ---------------------------------------------------------------------------------------------

  /** How many sweeps a certificate can outlast without further use. */
  function Chances(pool: Pool, name: string): nat {
    if name !in pool then 0
    else if pool[name].count != 0 then 3
    else if !pool[name].stale then 2
    else 1
  }

  function Sweeps(events: seq<Event>): nat {
    if events == [] then 0
    else Sweeps(events[..|events| - 1]) + if IsSweep(events[|events| - 1]) then 1 else 0
  }

  predicate Untouched(events: seq<Event>, name: string) {
    forall i :: 0 <= i < |events| ==> events[i] != Use(name) && !(events[i].Insert? && events[i].name == name)
  }

  lemma SweepTakesAChance(pool: Pool, e: Event, name: string)
    requires Untouched([e], name)
    ensures Chances(After(pool, e), name) <= if IsSweep(e) then Max(0, Chances(pool, name) - 1) else Chances(pool, name)
  {
    assert [e][0] == e;
    if IsSweep(e) {
      SweepExact(pool, e.now);
    }
  }

  lemma {:induction false} ChancesRunOut(before: seq<Event>, unused: seq<Event>, name: string)
    requires Untouched(unused, name)
    ensures Chances(Run(before + unused), name) <= Max(0, Chances(Run(before), name) - Sweeps(unused))
  {
    if unused == [] {
      assert before + unused == before;
    } else {
      var rest, e := unused[..|unused| - 1], unused[|unused| - 1];
      ChancesRunOut(before, rest, name);
      assert (before + unused)[..|before + unused| - 1] == before + rest;
      assert [e][0] == unused[|unused| - 1];
      SweepTakesAChance(Run(before + rest), e, name);
    }
  }

  /** Whatever happened before, a certificate is gone after three sweeps without a use. */
  lemma UnusedIsGone(before: seq<Event>, unused: seq<Event>, name: string)
    requires Untouched(unused, name) && Sweeps(unused) >= 3
    ensures name !in Run(before + unused)
  {
    ChancesRunOut(before, unused, name);
  }
}

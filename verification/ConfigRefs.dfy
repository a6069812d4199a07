/**
  The references inside a configuration, after pingap-config/src/common.rs: what `validate` accepts,
  and what `remove` does to a configuration that was accepted.

  Checks that concern one item alone (addresses that resolve, header syntax, regular expressions,
  certificates) are part of the item as the outcome they have.
 */
module ConfigRefs {
  import opened Wrappers
  import opened Text
  import opened ConfigItems

  /** An upstream or a certificate. */
  datatype ItemConf = ItemConf(ok: bool)

  datatype LocationConf = LocationConf(
    upstream: Option<string>, plugins: Option<seq<string>>, headersOk: bool, rewriteOk: bool)

  datatype ServerConf = ServerConf(addr: string, locations: Option<seq<string>>, addressesResolve: bool)

  datatype Conf = Conf(
    upstreams: map<string, ItemConf>,
    locations: map<string, LocationConf>,
    servers: map<string, ServerConf>,
    plugins: set<string>,
    certificates: map<string, ItemConf>,
    storages: set<string>)

  // ---------------------------------------------------------------------------------------------
  // Validity
  // ---------------------------------------------------------------------------------------------

  /** No upstream, one chosen at run time by a variable, or a configured one. */
  predicate UpstreamResolves(l: LocationConf, upstreams: set<string>) {
    var name := if l.upstream.Some? then l.upstream.value else "";
    name == "" || name[0] == '$' || name in upstreams
  }

  predicate LocationOk(l: LocationConf, upstreams: set<string>) {
    UpstreamResolves(l, upstreams) && l.headersOk && l.rewriteOk
  }

  predicate LocationsResolve(s: ServerConf, locations: set<string>) {
    s.locations.Some? ==> forall item :: item in s.locations.value ==> item in locations
  }

  predicate ServerOk(s: ServerConf, locations: set<string>) {
    s.addressesResolve && LocationsResolve(s, locations)
  }

  function Addresses(s: ServerConf): seq<string> {
    Split(s.addr, ',')
  }

  /** Among the servers in `names` every listen address appears once, within a server and across. */
  predicate ListenersDistinct(servers: map<string, ServerConf>, names: set<string>)
    requires names <= servers.Keys
  {
    && (forall n :: n in names ==> Distinct(Addresses(servers[n])))
    && (forall n, m :: n in names && m in names && n != m ==>
          forall a :: a in Addresses(servers[n]) ==> a !in Addresses(servers[m]))
  }

  /** The servers listen where their lists say, and no address comes twice, in one list or in two. */
  lemma ListenersExact(servers: map<string, ServerConf>, lists: map<string, seq<string>>)
    requires lists.Keys == servers.Keys
    requires forall n :: n in lists ==> lists[n] != [] && servers[n].addr == Join(lists[n], ',')
    requires forall n, i :: n in lists && 0 <= i < |lists[n]| ==> ',' !in lists[n][i]
    ensures ListenersDistinct(servers, servers.Keys) <==>
            forall n, m, i, j :: n in lists && m in lists && 0 <= i < |lists[n]| && 0 <= j < |lists[m]| ==>
              lists[n][i] == lists[m][j] ==> n == m && i == j
  {
    forall n | n in servers
      ensures Addresses(servers[n]) == lists[n]
    {
      SplitJoin(lists[n], ',');
    }
    if ListenersDistinct(servers, servers.Keys) {
      forall n, m, i, j | n in lists && m in lists && 0 <= i < |lists[n]| && 0 <= j < |lists[m]|
        ensures lists[n][i] == lists[m][j] ==> n == m && i == j
      {
        assert lists[n][i] in Addresses(servers[n]) && lists[m][j] in Addresses(servers[m]);
      }
    }
  }

  predicate Valid(c: Conf) {
    && (forall n :: n in c.upstreams ==> c.upstreams[n].ok)
    && (forall n :: n in c.locations ==> LocationOk(c.locations[n], c.upstreams.Keys))
    && ListenersDistinct(c.servers, c.servers.Keys)
    && (forall n :: n in c.servers ==> ServerOk(c.servers[n], c.locations.Keys))
    && (forall n :: n in c.certificates ==> c.certificates[n].ok)
  }

  /**
    The configuration, written out and read again with its includes: `parses` says of an item whether
    it does, with the storages as they are, from which the includes are taken.
   */
  predicate Reparses(c: Conf, parses: Entry -> bool) {
    && parses(Entry(Basic, "")) && AllParse(Storage, c.storages, parses) && AllParse(Upstream, c.upstreams.Keys, parses)
    && AllParse(Location, c.locations.Keys, parses) && AllParse(Server, c.servers.Keys, parses)
    && AllParse(Plugin, c.plugins, parses) && AllParse(Certificate, c.certificates.Keys, parses)
  }

  predicate AllParse(category: Category, names: set<string>, parses: Entry -> bool) {
    forall n :: n in names ==> parses(Entry(category, n))
  }

  /** What `validate` accepts. */
  predicate Accepted(c: Conf, parses: Entry -> bool) {
    Valid(c) && Reparses(c, parses)
  }

  // ---------------------------------------------------------------------------------------------
  // Removal
  // ---------------------------------------------------------------------------------------------

  predicate UsesUpstream(l: LocationConf, name: string) {
    l.upstream == Some(name)
  }

  predicate UsesLocation(s: ServerConf, name: string) {
    s.locations.Some? && name in s.locations.value
  }

  predicate UsesPlugin(l: LocationConf, name: string) {
    l.plugins.Some? && name in l.plugins.value
  }

  predicate InUse(c: Conf, category: Category, name: string) {
    match category
    case Upstream => exists n :: n in c.locations && UsesUpstream(c.locations[n], name)
    case Location => exists n :: n in c.servers && UsesLocation(c.servers[n], name)
    case Plugin => exists n :: n in c.locations && UsesPlugin(c.locations[n], name)
    case _ => false
  }

  /** The configuration without the item; storages and the basic part are not removed this way. */
  function Without(c: Conf, category: Category, name: string): Conf {
    match category
    case Upstream => c.(upstreams := c.upstreams - {name})
    case Location => c.(locations := c.locations - {name})
    case Server => c.(servers := c.servers - {name})
    case Plugin => c.(plugins := c.plugins - {name})
    case Certificate => c.(certificates := c.certificates - {name})
    case _ => c
  }

  function AfterRemove(c: Conf, category: Category, name: string): Conf {
    if InUse(c, category, name) then c else Without(c, category, name)
  }

  class PingapConf {
    var upstreams: map<string, ItemConf>
    var locations: map<string, LocationConf>
    var servers: map<string, ServerConf>
    var plugins: set<string>
    var certificates: map<string, ItemConf>
    var storages: set<string>

    constructor (c: Conf)
      ensures Contents() == c
    {
      upstreams, locations, servers := c.upstreams, c.locations, c.servers;
      plugins, certificates, storages := c.plugins, c.certificates, c.storages;
    }

    function Contents(): Conf
      reads this
    {
      Conf(upstreams, locations, servers, plugins, certificates, storages)
    }

    /** The maps are walked in whatever order they come; the answer does not depend on it. */
    method Validate(parses: Entry -> bool) returns (ok: bool)
      ensures ok <==> Accepted(Contents(), parses)
      ensures ok <==>
        && (forall n :: n in upstreams ==> upstreams[n].ok) && (forall n :: n in certificates ==> certificates[n].ok)
        && (forall n :: n in locations ==>
              && locations[n].headersOk && locations[n].rewriteOk
              && (locations[n].upstream.Some? ==> var u := locations[n].upstream.value;
                    u == "" || u[0] == '$' || u in upstreams))
        && ListenersDistinct(servers, servers.Keys)
        && (forall n :: n in servers ==>
              && servers[n].addressesResolve
              && (servers[n].locations.Some? ==> forall l :: l in servers[n].locations.value ==> l in locations))
        && parses(Entry(Basic, "")) && (forall n :: n in storages ==> parses(Entry(Storage, n)))
        && (forall n :: n in upstreams ==> parses(Entry(Upstream, n)))
        && (forall n :: n in locations ==> parses(Entry(Location, n)))
        && (forall n :: n in servers ==> parses(Entry(Server, n)))
        && (forall n :: n in plugins ==> parses(Entry(Plugin, n)))
        && (forall n :: n in certificates ==> parses(Entry(Certificate, n)))
    {
      ok := ItemsOk(upstreams);
      if !ok {
        return;
      }
      ok := LocationsOk(locations, upstreams.Keys);
      if !ok {
        return;
      }
      ok := ServersOk(servers, locations.Keys);
      if !ok {
        return;
      }
      ok := ItemsOk(certificates);
      if !ok {
        return;
      }
      ok := Reparse(Contents(), parses);
    }

    method Remove(category: Category, name: string) returns (ok: bool)
      modifies this
      ensures ok <==> !InUse(old(Contents()), category, name)
      ensures Contents() == AfterRemove(old(Contents()), category, name)
      ensures !ok <==>
        || (category == Upstream && exists n :: n in locations && locations[n].upstream == Some(name))
        || (category == Location && exists n ::
              n in servers && servers[n].locations.Some? && name in servers[n].locations.value)
        || (category == Plugin && exists n ::
              n in locations && locations[n].plugins.Some? && name in locations[n].plugins.value)
      ensures upstreams == old(upstreams) - (if ok && category == Upstream then {name} else {})
      ensures locations == old(locations) - (if ok && category == Location then {name} else {})
      ensures servers == old(servers) - (if ok && category == Server then {name} else {})
      ensures plugins == old(plugins) - (if ok && category == Plugin then {name} else {})
      ensures certificates == old(certificates) - (if ok && category == Certificate then {name} else {})
      ensures storages == old(storages)
    {
      ok := true;
      match category {
        case Upstream =>
          ok := !(exists n :: n in locations && UsesUpstream(locations[n], name));
          if ok {
            upstreams := upstreams - {name};
          }
        case Location =>
          ok := !(exists n :: n in servers && UsesLocation(servers[n], name));
          if ok {
            locations := locations - {name};
          }
        case Server =>
          servers := servers - {name};
        case Plugin =>
          ok := !(exists n :: n in locations && UsesPlugin(locations[n], name));
          if ok {
            plugins := plugins - {name};
          }
        case Certificate =>
          certificates := certificates - {name};
        case _ =>
      }
    }
  }

  method ItemsOk(items: map<string, ItemConf>) returns (ok: bool)
    ensures ok <==> forall n :: n in items ==> items[n].ok
  {
    var todo := items.Keys;
    while todo != {}
      invariant todo <= items.Keys
      invariant forall n :: n in items && n !in todo ==> items[n].ok
    {
      var name :| name in todo;
      if !items[name].ok {
        return false;
      }
      todo := todo - {name};
    }
    return true;
  }

  method LocationsOk(locations: map<string, LocationConf>, upstreams: set<string>) returns (ok: bool)
    ensures ok <==> forall n :: n in locations ==> LocationOk(locations[n], upstreams)
  {
    var todo := locations.Keys;
    while todo != {}
      invariant todo <= locations.Keys
      invariant forall n :: n in locations && n !in todo ==> LocationOk(locations[n], upstreams)
    {
      var name :| name in todo;
      var location := locations[name];
      var upstream := if location.upstream.Some? then location.upstream.value else "";
      if upstream != "" && upstream[0] != '$' && upstream !in upstreams {
        return false;
      }
      if !location.headersOk || !location.rewriteOk {
        return false;
      }
      todo := todo - {name};
    }
    return true;
  }

  method CategoryParses(category: Category, names: set<string>, parses: Entry -> bool) returns (ok: bool)
    ensures ok <==> AllParse(category, names, parses)
  {
    var todo := names;
    while todo != {}
      invariant todo <= names && AllParse(category, names - todo, parses)
    {
      var name :| name in todo;
      if !parses(Entry(category, name)) {
        return false;
      }
      todo := todo - {name};
    }
    return true;
  }

  method Reparse(c: Conf, parses: Entry -> bool) returns (ok: bool)
    ensures ok <==> Reparses(c, parses)
  {
    var storages := CategoryParses(Storage, c.storages, parses);
    var upstreams := CategoryParses(Upstream, c.upstreams.Keys, parses);
    var locations := CategoryParses(Location, c.locations.Keys, parses);
    var servers := CategoryParses(Server, c.servers.Keys, parses);
    var plugins := CategoryParses(Plugin, c.plugins, parses);
    var certificates := CategoryParses(Certificate, c.certificates.Keys, parses);
    return parses(Entry(Basic, "")) && storages && upstreams && locations && servers && plugins && certificates;
  }

  /** What the address list holds once the servers in `done` have been walked. */
  ghost predicate Collected(listed: seq<string>, servers: map<string, ServerConf>, done: set<string>) {
    forall a :: a in listed <==> exists n :: n in done && n in servers && a in Addresses(servers[n])
  }

  predicate DoneOk(servers: map<string, ServerConf>, done: set<string>, locations: set<string>)
    requires done <= servers.Keys
  {
    && (forall n :: n in done ==> ServerOk(servers[n], locations))
    && ListenersDistinct(servers, done)
  }

  /** The addresses of one server are appended to the list unless one is already there. */
  method AppendAddresses(addresses: seq<string>, listed: seq<string>) returns (ok: bool, all: seq<string>)
    ensures ok <==> Distinct(addresses) && forall a :: a in addresses ==> a !in listed
    ensures ok ==> all == listed + addresses
  {
    all := listed;
    for i := 0 to |addresses|
      invariant all == listed + addresses[..i]
      invariant Distinct(addresses[..i]) && forall j :: 0 <= j < i ==> addresses[j] !in listed
    {
      if addresses[i] in all {
        ok := false;
        if addresses[i] !in listed {
          assert addresses[i] in addresses[..i];
          var j :| 0 <= j < i && addresses[j] == addresses[i];
        }
        return;
      }
      assert addresses[i] !in addresses[..i];
      assert forall j :: 0 <= j < i ==> addresses[..i][j] == addresses[j];
      assert addresses[..i + 1] == addresses[..i] + [addresses[i]];
      all := all + [addresses[i]];
    }
    assert addresses[..|addresses|] == addresses;
    ok := true;
  }

  method ServersOk(servers: map<string, ServerConf>, locations: set<string>) returns (ok: bool)
    ensures ok <==> && ListenersDistinct(servers, servers.Keys)
                    && forall n :: n in servers ==> ServerOk(servers[n], locations)
  {
    var listed: seq<string> := [];
    var todo := servers.Keys;
    while todo != {}
      invariant todo <= servers.Keys
      invariant Collected(listed, servers, servers.Keys - todo)
      invariant DoneOk(servers, servers.Keys - todo, locations)
    {
      var name :| name in todo;
      var isNew, more := AppendAddresses(Addresses(servers[name]), listed);
      if !isNew {
        ClashingAddress(servers, servers.Keys - todo, name, listed);
        return false;
      }
      if !servers[name].addressesResolve {
        return false;
      }
      if servers[name].locations.Some? && exists item :: item in servers[name].locations.value && item !in locations {
        return false;
      }
      FreshServer(servers, servers.Keys - todo, name, listed, locations);
      assert servers.Keys - (todo - {name}) == (servers.Keys - todo) + {name};
      listed := more;
      todo := todo - {name};
    }
    assert servers.Keys - {} == servers.Keys;
    return true;
  }

  lemma ClashingAddress(servers: map<string, ServerConf>, done: set<string>, name: string, listed: seq<string>)
    requires name in servers && name !in done && Collected(listed, servers, done)
    requires !(Distinct(Addresses(servers[name])) && forall a :: a in Addresses(servers[name]) ==> a !in listed)
    ensures !ListenersDistinct(servers, servers.Keys)
  {
    if Distinct(Addresses(servers[name])) {
      var a :| a in Addresses(servers[name]) && a in listed;
      var n :| n in done && n in servers && a in Addresses(servers[n]);
      assert n != name;
    }
  }

  lemma FreshServer(servers: map<string, ServerConf>, done: set<string>, name: string, listed: seq<string>,
                    locations: set<string>)
    requires done <= servers.Keys && name in servers && name !in done
    requires Collected(listed, servers, done) && DoneOk(servers, done, locations)
    requires Distinct(Addresses(servers[name])) && forall a :: a in Addresses(servers[name]) ==> a !in listed
    requires ServerOk(servers[name], locations)
    ensures Collected(listed + Addresses(servers[name]), servers, done + {name})
    ensures DoneOk(servers, done + {name}, locations)
  {
    var all := listed + Addresses(servers[name]);
    forall a
      ensures a in all <==> exists n :: n in done + {name} && n in servers && a in Addresses(servers[n])
    {
      if a in Addresses(servers[name]) {
        assert name in done + {name};
      } else if a in listed {
        var n :| n in done && n in servers && a in Addresses(servers[n]);
        assert n in done + {name};
      }
    }
  }

  // ---------------------------------------------------------------------------------------------
  // Runs of removals
  // ---------------------------------------------------------------------------------------------

  datatype Removal = Removal(category: Category, name: string)

  function Run(c: Conf, removals: seq<Removal>): Conf {
    if removals == [] then c
    else
      var last := removals[|removals| - 1];
      AfterRemove(Run(c, removals[..|removals| - 1]), last.category, last.name)
  }

  ghost predicate PluginsResolve(c: Conf) {
    forall n, p :: n in c.locations && UsesPlugin(c.locations[n], p) ==> p in c.plugins
  }

  lemma RemoveKeepsValid(c: Conf, category: Category, name: string)
    requires Valid(c)
    ensures Valid(AfterRemove(c, category, name))
    ensures PluginsResolve(c) ==> PluginsResolve(AfterRemove(c, category, name))
  {
    var d := AfterRemove(c, category, name);
    forall n | n in d.locations
      ensures LocationOk(d.locations[n], d.upstreams.Keys)
    {
      assert LocationOk(c.locations[n], c.upstreams.Keys);
    }
    forall n | n in d.servers
      ensures ServerOk(d.servers[n], d.locations.Keys)
    {
      assert ServerOk(c.servers[n], c.locations.Keys);
    }
  }

  /** No storage is taken out, so what remains parses as before. */
  lemma RemoveKeepsParsing(c: Conf, category: Category, name: string, parses: Entry -> bool)
    requires Reparses(c, parses)
    ensures Reparses(AfterRemove(c, category, name), parses) && AfterRemove(c, category, name).storages == c.storages
  {
  }

  /** After any run of removals, refused ones included, an accepted configuration is still accepted. */
  lemma {:induction false} RunKeepsAccepted(c: Conf, removals: seq<Removal>, parses: Entry -> bool)
    requires Accepted(c, parses)
    ensures Accepted(Run(c, removals), parses) && Run(c, removals).storages == c.storages
    ensures PluginsResolve(c) ==> PluginsResolve(Run(c, removals))
  {
    if removals != [] {
      var rest, last := removals[..|removals| - 1], removals[|removals| - 1];
      RunKeepsAccepted(c, rest, parses);
      RemoveKeepsValid(Run(c, rest), last.category, last.name);
      RemoveKeepsParsing(Run(c, rest), last.category, last.name, parses);
    }
  }

  /** A reference to the upstream that is looked up: not empty, and not chosen by a variable. */
  predicate LookedUp(name: string) {
    name != "" && name[0] != '$'
  }

  /** Taking an upstream or a location out keeps the configuration valid exactly when nothing looks it up. */
  lemma GuardIsNeeded(c: Conf, category: Category, name: string)
    requires Valid(c) && (category.Upstream? || category.Location?)
    ensures Valid(Without(c, category, name)) <==> !InUse(c, category, name) || (category.Upstream? && !LookedUp(name))
  {
    if !InUse(c, category, name) {
      RemoveKeepsValid(c, category, name);
    } else if category.Location? {
      var n :| n in c.servers && UsesLocation(c.servers[n], name);
      assert !ServerOk(c.servers[n], (c.locations - {name}).Keys);
    } else if LookedUp(name) {
      var n :| n in c.locations && UsesUpstream(c.locations[n], name);
      assert !LocationOk(c.locations[n], (c.upstreams - {name}).Keys);
    } else {
      forall n | n in c.locations
        ensures LocationOk(c.locations[n], (c.upstreams - {name}).Keys)
      {
        assert LocationOk(c.locations[n], c.upstreams.Keys);
      }
    }
  }

  /** Removing a storage reports success and removes nothing. */
  lemma StorageStays(c: Conf, name: string)
    ensures !InUse(c, Storage, name) && AfterRemove(c, Storage, name) == c
  {
  }
}

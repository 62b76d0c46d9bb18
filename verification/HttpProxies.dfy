/**
 Registration of HTTP proxies (server/proxy/http.go): Run registers every domain
 with every location, directly or through a group, and undoes what it did when
 one registration fails; Close undoes a successful Run.
 */
module HttpProxies {
  import opened Wrappers
  import opened Routers
  import opened VhostLookup
  import opened HttpGroups
  import SubdomainNamespace

  // ----- the routes one proxy wants

  function Row(domain: string, locations: seq<string>, user: string): seq<Key>
  {
    seq(|locations|, i requires 0 <= i < |locations| => Key(domain, locations[i], user))
  }

  /** The domain-by-location product, empty domains skipped. */
  function Product(domains: seq<string>, locations: seq<string>, user: string): seq<Key>
  {
    if domains == [] then []
    else
      var n := |domains| - 1;
      Product(domains[..n], locations, user) + if domains[n] == "" then [] else Row(domains[n], locations, user)
  }

  datatype HttpConf = HttpConf(customDomains: seq<string>, subDomain: string, locations: seq<string>, routeByHTTPUser: string,
                               group: Name, groupKey: string)
  {
    function Locations(): seq<string>
    {
      if |locations| == 0 then [""] else locations
    }

    function Wanted(subDomainHost: string): seq<Key>
    {
      Product(customDomains, Locations(), routeByHTTPUser)
      + if subDomain == "" then [] else Row(SubdomainNamespace.FullName(subDomain, subDomainHost), Locations(), routeByHTTPUser)
    }

    predicate Grouped()
    {
      group.text != ""
    }
  }

  /** A key the configuration asks for: some domain of it, some location of it, and its user. */
  predicate Asked(conf: HttpConf, subDomainHost: string, k: Key)
  {
    && ((k.domain != "" && k.domain in conf.customDomains)
        || (conf.subDomain != "" && k.domain == conf.subDomain + "." + subDomainHost))
    && (k.location in conf.locations || (conf.locations == [] && k.location == ""))
    && k.user == conf.routeByHTTPUser
  }

  lemma InRow(domain: string, locations: seq<string>, user: string, k: Key)
    ensures k in Row(domain, locations, user) <==> k.domain == domain && k.location in locations && k.user == user
  {
    if k.domain == domain && k.location in locations && k.user == user {
      var i :| 0 <= i < |locations| && locations[i] == k.location;
      assert Row(domain, locations, user)[i] == k;
    }
  }

  lemma {:induction false} InProduct(domains: seq<string>, locations: seq<string>, user: string, k: Key)
    ensures k in Product(domains, locations, user) <==>
              k.domain in domains && k.domain != "" && k.location in locations && k.user == user
  {
    if domains != [] {
      InProduct(domains[..|domains| - 1], locations, user, k);
      InRow(domains[|domains| - 1], locations, user, k);
      assert domains == domains[..|domains| - 1] + [domains[|domains| - 1]];
    }
  }

  /** The keys wanted are those asked for. */
  lemma WantedIff(conf: HttpConf, subDomainHost: string, k: Key)
    ensures k in conf.Wanted(subDomainHost) <==> Asked(conf, subDomainHost, k)
  {
    InProduct(conf.customDomains, conf.Locations(), conf.routeByHTTPUser, k);
    InRow(conf.subDomain + "." + subDomainHost, conf.Locations(), conf.routeByHTTPUser, k);
  }

  // ----- registration on the abstract state: the route table and the live groups

  datatype Http = Http(table: set<Route<Target>>, live: map<Name, Group>)

  ghost function Mine(keys: seq<Key>, id: nat): set<Route<Target>>
  {
    set k | k in keys :: Route(k, ViaProxy(id))
  }

  ghost predicate DistinctKeys(keys: seq<Key>)
  {
    forall i, j :: 0 <= i < j < |keys| ==> keys[i] != keys[j]
  }

  /** All keys are free and no two are alike. */
  ghost predicate Fresh(table: set<Route<Target>>, keys: seq<Key>)
  {
    && DistinctKeys(keys)
    && forall i :: 0 <= i < |keys| ==> !Registered(table, keys[i])
  }

  ghost function Join(s: Http, name: Name, id: nat, group: Name, groupKey: string, key: Key, index: nat): Http
  {
    if group in s.live then s.(live := s.live[group := Joined(s.live[group], name, id)])
    else Http(s.table + {Route(key, ViaGroup(group))},
              s.live[group := Group(groupKey, key, map[name := id], [name], index)])
  }

  ghost function Leave(s: Http, name: Name, group: Name): Http
  {
    if group !in s.live then s
    else if s.live[group].createFuncs - {name} == map[] then
      Http(s.table - {GroupRoute(group, s.live[group])}, s.live - {group})
    else s.(live := s.live[group := Left(s.live[group], name)])
  }

  /** Whether Run succeeds. */
  ghost predicate Accepts(s: Http, name: Name, conf: HttpConf, keys: seq<Key>)
  {
    if !conf.Grouped() then Fresh(s.table, keys)
    else |keys| == 0
         || (|keys| == 1 && JoinError(s.table, s.live, name, conf.group, conf.groupKey, keys[0]) == None)
  }

  /** The state after Run: all of it or nothing. */
  ghost function AfterRun(s: Http, name: Name, id: nat, conf: HttpConf, keys: seq<Key>, index: nat): Http
  {
    if !Accepts(s, name, conf, keys) then s
    else if !conf.Grouped() then s.(table := s.table + Mine(keys, id))
    else if |keys| == 0 then s
    else Join(s, name, id, conf.group, conf.groupKey, keys[0], index)
  }

  /** The state after Close. */
  ghost function AfterClose(s: Http, name: Name, id: nat, conf: HttpConf, keys: seq<Key>): Http
  {
    if !conf.Grouped() then s.(table := s.table - Mine(keys, id))
    else if |keys| == 0 then s
    else Leave(s, name, conf.group)
  }

  /** What an open proxy may rely on until it is closed. */
  ghost predicate Holds(s: Http, name: Name, id: nat, conf: HttpConf, keys: seq<Key>)
  {
    if !conf.Grouped() then DistinctKeys(keys) && Mine(keys, id) <= s.table
    else |keys| <= 1 && (|keys| == 1 ==> conf.group in s.live && name in s.live[conf.group].createFuncs)
  }

  // ----- Close right after Run restores everything

  ghost predicate LiveValid(live: map<Name, Group>)
  {
    forall g :: g in live ==> GroupValid(live[g]) && live[g].createFuncs != map[]
  }

  lemma LeaveUndoes(s: Http, name: Name, id: nat, group: Name, groupKey: string, key: Key, index: nat)
    requires LiveValid(s.live)
    requires JoinError(s.table, s.live, name, group, groupKey, key) == None
    ensures Leave(Join(s, name, id, group, groupKey, key, index), name, group) == s
  {
    var s' := Join(s, name, id, group, groupKey, key, index);
    if group in s.live {
      LeaveUndoesJoin(s.live[group], name, id);
      assert s'.live[group].createFuncs - {name} == s.live[group].createFuncs;
      assert s'.live[group := s.live[group]] == s.live;
    } else {
      assert map[name := id] - {name} == map[];
      assert s'.live - {group} == s.live;
      assert Route(key, ViaGroup(group)) !in s.table;
    }
  }

  /** Run followed by Close leaves routes and groups as they were, so every lookup answers as before. */
  lemma CloseUndoesRun(s: Http, name: Name, id: nat, conf: HttpConf, keys: seq<Key>, index: nat)
    requires LiveValid(s.live)
    requires Accepts(s, name, conf, keys)
    ensures AfterClose(AfterRun(s, name, id, conf, keys, index), name, id, conf, keys) == s
    ensures Holds(AfterRun(s, name, id, conf, keys, index), name, id, conf, keys)
  {
    if !conf.Grouped() {
      forall r | r in Mine(keys, id) ensures r !in s.table {
        assert r.key in keys;
      }
    } else if |keys| == 1 {
      LeaveUndoes(s, name, id, conf.group, conf.groupKey, keys[0], index);
    }
  }

  // ----- what a Run registers, in terms of the configuration

  /** A successful ungrouped Run adds exactly the routes asked for, and none of them was there. */
  lemma DirectRunRegisters(s: Http, name: Name, id: nat, conf: HttpConf, host: string, index: nat)
    requires !conf.Grouped() && Accepts(s, name, conf, conf.Wanted(host))
    ensures var s' := AfterRun(s, name, id, conf, conf.Wanted(host), index);
      && s'.live == s.live
      && (forall r :: r in s'.table <==> r in s.table || (r.payload == ViaProxy(id) && Asked(conf, host, r.key)))
      && (forall k :: Asked(conf, host, k) ==> !Registered(s.table, k))
  {
    var s' := AfterRun(s, name, id, conf, conf.Wanted(host), index);
    forall k ensures k in conf.Wanted(host) <==> Asked(conf, host, k) {
      WantedIff(conf, host, k);
    }
    forall r: Route<Target> ensures r in s'.table <==> r in s.table || (r.payload == ViaProxy(id) && Asked(conf, host, r.key)) {
      assert r in Mine(conf.Wanted(host), id) <==> r.payload == ViaProxy(id) && r.key in conf.Wanted(host);
    }
  }

  /** A successful grouped Run asks for one key at most, and joins the group under it. */
  lemma GroupedRunRegisters(s: Http, name: Name, id: nat, conf: HttpConf, host: string, index: nat)
    requires conf.Grouped() && Accepts(s, name, conf, conf.Wanted(host)) && RoutesMatchGroups(s.table, s.live)
    ensures var s' := AfterRun(s, name, id, conf, conf.Wanted(host), index);
      && (forall r :: r in s'.table <==> r in s.table || (r.payload == ViaGroup(conf.group) && Asked(conf, host, r.key)))
      && (forall k, l :: Asked(conf, host, k) && Asked(conf, host, l) ==> k == l)
      && (forall k :: Asked(conf, host, k) ==> InGroup(s'.live, name, id, conf, k))
      && (forall g :: g in s.live && g != conf.group ==> g in s'.live && s'.live[g] == s.live[g])
  {
    var keys := conf.Wanted(host);
    forall k ensures k in keys <==> Asked(conf, host, k) {
      WantedIff(conf, host, k);
    }
    if keys != [] {
      assert keys == [keys[0]];
      JoinMeans(s, name, id, conf, keys[0], index);
    }
  }

  lemma JoinMeans(s: Http, name: Name, id: nat, conf: HttpConf, key: Key, index: nat)
    requires JoinError(s.table, s.live, name, conf.group, conf.groupKey, key) == None && RoutesMatchGroups(s.table, s.live)
    ensures var s' := Join(s, name, id, conf.group, conf.groupKey, key, index);
      && s'.table == s.table + {Route(key, ViaGroup(conf.group))} && InGroup(s'.live, name, id, conf, key)
      && (forall g :: g in s.live && g != conf.group ==> g in s'.live && s'.live[g] == s.live[g])
  {
    if conf.group in s.live { assert GroupRoute(conf.group, s.live[conf.group]) in s.table; }
  }

  /** The proxy is a member of its group, which has its key and is reached by k. */
  ghost predicate InGroup(live: map<Name, Group>, name: Name, id: nat, conf: HttpConf, k: Key)
  {
    && conf.group in live && live[conf.group].key == k && live[conf.group].groupKey == conf.groupKey
    && name in live[conf.group].createFuncs && live[conf.group].createFuncs[name] == id
  }

  /** One domain, custom or below the subdomain host, and one location. */
  predicate OneKey(conf: HttpConf, host: string, k: Key)
  {
    && (if conf.subDomain == "" then conf.customDomains == [k.domain] && k.domain != ""
        else conf.customDomains == [] && k.domain == conf.subDomain + "." + host)
    && (conf.locations == [k.location] || (conf.locations == [] && k.location == ""))
    && k.user == conf.routeByHTTPUser
  }

  lemma OneKeyWanted(conf: HttpConf, host: string, k: Key)
    requires OneKey(conf, host, k)
    ensures conf.Wanted(host) == [k]
  {
    assert Row(k.domain, conf.Locations(), conf.routeByHTTPUser) == [k];
    if conf.subDomain == "" {
      assert conf.customDomains[..0] == [] && conf.customDomains[0] == k.domain;
      assert Product(conf.customDomains, conf.Locations(), conf.routeByHTTPUser) == [] + [k];
    }
  }

  /**
   A grouped Run for one key succeeds exactly if the group is new and the key is free, or the group has this
   key and group key and no member of this name.
   */
  lemma GroupedRunIff(s: Http, name: Name, conf: HttpConf, host: string, k: Key)
    requires conf.Grouped() && OneKey(conf, host, k)
    ensures Accepts(s, name, conf, conf.Wanted(host)) <==>
      if conf.group !in s.live then forall r :: r in s.table ==> r.key != k
      else s.live[conf.group].key == k && s.live[conf.group].groupKey == conf.groupKey && name !in s.live[conf.group].createFuncs
  {
    OneKeyWanted(conf, host, k);
  }

  /** Both kinds of Run, for any counter of a new group. */
  lemma RunMeans(s: Http, name: Name, id: nat, conf: HttpConf, host: string)
    requires RoutesMatchGroups(s.table, s.live)
    ensures !conf.Grouped() ==>
      (!Accepts(s, name, conf, conf.Wanted(host)) <==> (exists r :: r in s.table && Asked(conf, host, r.key)) || AsksTwice(conf, host))
    ensures Accepts(s, name, conf, conf.Wanted(host)) ==> forall index: nat, k :: Asked(conf, host, k) ==>
      Reached(AfterRun(s, name, id, conf, conf.Wanted(host), index), name, id, conf, k)
    ensures Accepts(s, name, conf, conf.Wanted(host)) && !conf.Grouped() ==> forall index: nat, k ::
      NewRoute(s, AfterRun(s, name, id, conf, conf.Wanted(host), index), k, id) <==> Asked(conf, host, k)
  {
    if !conf.Grouped() { DirectRunIff(s, name, conf, host); }
    if Accepts(s, name, conf, conf.Wanted(host)) {
      forall index: nat, k | Asked(conf, host, k)
        ensures Reached(AfterRun(s, name, id, conf, conf.Wanted(host), index), name, id, conf, k)
      {
        if conf.Grouped() { GroupedRunRegisters(s, name, id, conf, host, index); } else { DirectRunRegisters(s, name, id, conf, host, index); }
      }
      if !conf.Grouped() {
        forall index: nat, k
          ensures NewRoute(s, AfterRun(s, name, id, conf, conf.Wanted(host), index), k, id) <==> Asked(conf, host, k)
        {
          DirectRunRegisters(s, name, id, conf, host, index);
          assert Route(k, ViaProxy(id)) in s.table ==> Registered(s.table, k);
        }
      }
    }
  }

  ghost predicate NewRoute(s: Http, s': Http, k: Key, id: nat)
  {
    Route(k, ViaProxy(id)) in s'.table && Route(k, ViaProxy(id)) !in s.table
  }

  ghost predicate Reached(s: Http, name: Name, id: nat, conf: HttpConf, k: Key)
  {
    if conf.Grouped() then Route(k, ViaGroup(conf.group)) in s.table && InGroup(s.live, name, id, conf, k)
    else Route(k, ViaProxy(id)) in s.table
  }

  // ----- when an ungrouped Run is refused

  ghost predicate Repeats<T(!new)>(s: seq<T>)
  {
    exists i, j :: 0 <= i < j < |s| && s[i] == s[j]
  }

  lemma RepeatsPlus<T(!new)>(a: seq<T>, b: seq<T>)
    ensures Repeats(a + b) <==> Repeats(a) || Repeats(b) || exists x :: x in a && x in b
  {
    if Repeats(a) {
      var i, j :| 0 <= i < j < |a| && a[i] == a[j];
      assert (a + b)[i] == (a + b)[j];
    }
    if Repeats(b) {
      var i, j :| 0 <= i < j < |b| && b[i] == b[j];
      assert (a + b)[|a| + i] == (a + b)[|a| + j];
    }
    if x :| x in a && x in b {
      var i :| 0 <= i < |a| && a[i] == x;
      var j :| 0 <= j < |b| && b[j] == x;
      assert (a + b)[i] == (a + b)[|a| + j];
    }
    if Repeats(a + b) {
      var i, j :| 0 <= i < j < |a + b| && (a + b)[i] == (a + b)[j];
      if j < |a| {
        assert a[i] == a[j];
      } else if i >= |a| {
        assert b[i - |a|] == b[j - |a|];
      } else {
        assert a[i] in a && a[i] in b;
      }
    }
  }

  lemma RowRepeats(domain: string, locations: seq<string>, user: string)
    ensures Repeats(Row(domain, locations, user)) <==> Repeats(locations)
  {
    var row := Row(domain, locations, user);
    if Repeats(locations) {
      var i, j :| 0 <= i < j < |locations| && locations[i] == locations[j];
      assert row[i] == row[j];
    }
    if Repeats(row) {
      var i, j :| 0 <= i < j < |row| && row[i] == row[j];
      assert locations[i] == locations[j];
    }
  }

  /** Some domain that is not empty stands twice. */
  ghost predicate DomainTwice(domains: seq<string>)
  {
    exists i, j :: 0 <= i < j < |domains| && domains[i] == domains[j] && domains[i] != ""
  }

  lemma DomainTwiceSnoc(domains: seq<string>, d: string)
    ensures DomainTwice(domains + [d]) <==> DomainTwice(domains) || (d != "" && d in domains)
  {
    var all := domains + [d];
    if DomainTwice(domains) {
      var i, j :| 0 <= i < j < |domains| && domains[i] == domains[j] && domains[i] != "";
      assert all[i] == all[j];
    }
    if d != "" && d in domains {
      var i :| 0 <= i < |domains| && domains[i] == d;
      assert all[i] == all[|domains|];
    }
    if DomainTwice(all) {
      var i, j :| 0 <= i < j < |all| && all[i] == all[j] && all[i] != "";
      if j < |domains| { assert domains[i] == domains[j]; } else { assert domains[i] == d; }
    }
  }

  ghost predicate SomeDomain(domains: seq<string>)
  {
    exists d :: d in domains && d != ""
  }

  lemma SomeDomainSnoc(domains: seq<string>, d: string)
    ensures SomeDomain(domains + [d]) <==> SomeDomain(domains) || d != ""
  {
    if SomeDomain(domains) {
      var x :| x in domains && x != "";
      assert x in domains + [d];
    }
    assert d in domains + [d];
  }

  lemma {:induction false} ProductRepeats(domains: seq<string>, locations: seq<string>, user: string)
    requires locations != []
    ensures Repeats(Product(domains, locations, user)) <==> DomainTwice(domains) || (SomeDomain(domains) && Repeats(locations))
  {
    if domains != [] {
      var n := |domains| - 1;
      var before, d := domains[..n], domains[n];
      assert domains == before + [d];
      ProductRepeats(before, locations, user);
      DomainTwiceSnoc(before, d);
      SomeDomainSnoc(before, d);
      if d != "" {
        RepeatsPlus(Product(before, locations, user), Row(d, locations, user));
        RowRepeats(d, locations, user);
        ShareIff(before, locations, user, d);
      } else {
        assert Product(domains, locations, user) == Product(before, locations, user);
      }
    }
  }

  lemma ShareIff(domains: seq<string>, locations: seq<string>, user: string, d: string)
    requires locations != [] && d != ""
    ensures (exists k :: k in Product(domains, locations, user) && k in Row(d, locations, user)) <==> d in domains
  {
    var k0 := Key(d, locations[0], user);
    InProduct(domains, locations, user, k0);
    InRow(d, locations, user, k0);
    if k :| k in Product(domains, locations, user) && k in Row(d, locations, user) {
      InProduct(domains, locations, user, k);
      InRow(d, locations, user, k);
    }
  }

  /** The configuration asks for some key twice. */
  ghost predicate AsksTwice(conf: HttpConf, host: string)
  {
    || DomainTwice(conf.customDomains)
    || (conf.subDomain != "" && conf.subDomain + "." + host in conf.customDomains)
    || ((SomeDomain(conf.customDomains) || conf.subDomain != "") && Repeats(conf.locations))
  }

  lemma WantedRepeats(conf: HttpConf, host: string)
    ensures Repeats(conf.Wanted(host)) <==> AsksTwice(conf, host)
  {
    var full := conf.subDomain + "." + host;
    var product := Product(conf.customDomains, conf.Locations(), conf.routeByHTTPUser);
    ProductRepeats(conf.customDomains, conf.Locations(), conf.routeByHTTPUser);
    if conf.subDomain != "" {
      RepeatsPlus(product, Row(full, conf.Locations(), conf.routeByHTTPUser));
      RowRepeats(full, conf.Locations(), conf.routeByHTTPUser);
      ShareIff(conf.customDomains, conf.Locations(), conf.routeByHTTPUser, full);
    } else {
      assert conf.Wanted(host) == product;
    }
  }

  /** An ungrouped Run succeeds exactly if no key it asks for is registered, and it asks for none twice. */
  lemma DirectRunIff(s: Http, name: Name, conf: HttpConf, host: string)
    requires !conf.Grouped()
    ensures Accepts(s, name, conf, conf.Wanted(host)) <==>
      (forall r :: r in s.table ==> !Asked(conf, host, r.key)) && !AsksTwice(conf, host)
  {
    var keys := conf.Wanted(host);
    WantedRepeats(conf, host);
    forall k ensures k in keys <==> Asked(conf, host, k) {
      WantedIff(conf, host, k);
    }
    if Accepts(s, name, conf, keys) {
      forall r | r in s.table ensures !Asked(conf, host, r.key) {
        assert !(r.key in keys);
      }
    }
    if (forall r :: r in s.table ==> !Asked(conf, host, r.key)) && !AsksTwice(conf, host) {
      forall i | 0 <= i < |keys| ensures !Registered(s.table, keys[i]) {
        assert Asked(conf, host, keys[i]);
      }
    }
  }

  // ----- single registrations, as Run and Close perform them one by one

  lemma DirectKeepsGroups(table: set<Route<Target>>, live: map<Name, Group>, key: Key, id: nat)
    requires RoutesMatchGroups(table, live)
    ensures RoutesMatchGroups(table + {Route(key, ViaProxy(id))}, live)
    ensures RoutesMatchGroups(table - {Route(key, ViaProxy(id))}, live)
  {
  }

  lemma MineSnoc(keys: seq<Key>, id: nat, key: Key)
    ensures Mine(keys + [key], id) == Mine(keys, id) + {Route(key, ViaProxy(id))}
  {
    forall r | r in Mine(keys, id) + {Route(key, ViaProxy(id))} ensures r in Mine(keys + [key], id) {
      assert r.key in keys + [key];
    }
  }

  /** Keys registered so far stay fresh together with the next one exactly when that one is free now. */
  lemma FreshSnoc(table: set<Route<Target>>, keys: seq<Key>, id: nat, key: Key)
    requires Fresh(table, keys)
    ensures Fresh(table, keys + [key]) <==> !Registered(table + Mine(keys, id), key)
  {
    if Registered(table, key) {
      var r :| r in table && r.key == key;
      assert r in table + Mine(keys, id);
      assert (keys + [key])[|keys|] == key;
    }
    if key in keys {
      assert Route(key, ViaProxy(id)) in table + Mine(keys, id);
      var i :| 0 <= i < |keys| && keys[i] == key;
      assert (keys + [key])[i] == (keys + [key])[|keys|];
    }
    if !Registered(table, key) && key !in keys {
      forall r | r in table + Mine(keys, id) ensures r.key != key {
      }
    }
  }

  lemma AcceptsPrefix(s: Http, name: Name, conf: HttpConf, keys: seq<Key>, done: seq<Key>)
    requires Accepts(s, name, conf, keys) && done <= keys
    ensures Accepts(s, name, conf, done)
  {
    assert done == keys[..|done|];
  }

  lemma GroupedSecondFails(s: Http, name: Name, id: nat, conf: HttpConf, first: Key, index: nat, key: Key)
    requires conf.Grouped() && JoinError(s.table, s.live, name, conf.group, conf.groupKey, first) == None
    ensures var s' := Join(s, name, id, conf.group, conf.groupKey, first, index);
            JoinError(s'.table, s'.live, name, conf.group, conf.groupKey, key).Some?
  {
  }

  lemma LiveIsValid(groups: map<Name, Group>)
    requires GroupsValid(groups)
    ensures LiveValid(Live(groups))
  {
  }

  class HttpProxy {
    const name: Name
    const id: nat  // the identity of this object
    const conf: HttpConf
    const subDomainHost: string
    const reverseProxy: HttpReverseProxy<Target>
    const groupCtl: HttpGroupController
    var closeFuncs: seq<Key>  // the registrations to undo, in order

    /** Both controllers work on one routing table. */
    ghost predicate Valid()
      reads this, groupCtl, groupCtl.vhostRouter
    {
      groupCtl.Valid() && reverseProxy.vhostRouter == groupCtl.vhostRouter
    }

    ghost function State(): Http
      reads groupCtl, groupCtl.vhostRouter
    {
      Http(groupCtl.vhostRouter.table, groupCtl.live)
    }

    ghost function Index(): nat
      reads groupCtl
    {
      if conf.group in groupCtl.live then groupCtl.live[conf.group].index else 0
    }

    constructor (name: Name, id: nat, conf: HttpConf, subDomainHost: string,
                 reverseProxy: HttpReverseProxy<Target>, groupCtl: HttpGroupController)
      requires groupCtl.Valid() && reverseProxy.vhostRouter == groupCtl.vhostRouter
      ensures Valid() && closeFuncs == []
      ensures this.name == name && this.id == id && this.conf == conf && this.subDomainHost == subDomainHost
      ensures this.reverseProxy == reverseProxy && this.groupCtl == groupCtl
    {
      this.name, this.id, this.conf, this.subDomainHost := name, id, conf, subDomainHost;
      this.reverseProxy, this.groupCtl := reverseProxy, groupCtl;
      closeFuncs := [];
    }

    /** What has been registered since state s is exactly what closeFuncs would undo. */
    ghost predicate Progress(s: Http)
      reads this, groupCtl, groupCtl.vhostRouter
    {
      && Accepts(s, name, conf, closeFuncs)
      && State() == AfterRun(s, name, id, conf, closeFuncs, Index())
    }

    method RegisterDirect(key: Key, ghost s: Http) returns (failed: bool)
      requires Valid() && Progress(s) && !conf.Grouped()
      modifies this, groupCtl.vhostRouter
      ensures Valid() && Progress(s)
      ensures closeFuncs == if failed then old(closeFuncs) else old(closeFuncs) + [key]
      ensures failed <==> !Accepts(s, name, conf, old(closeFuncs) + [key])
    {
      FreshSnoc(s.table, closeFuncs, id, key);
      MineSnoc(closeFuncs, id, key);
      DirectKeepsGroups(groupCtl.vhostRouter.table, groupCtl.live, key, id);
      failed := reverseProxy.Register(key, ViaProxy(id));
      if !failed {
        closeFuncs := closeFuncs + [key];
      }
    }

    method RegisterGrouped(key: Key, ghost s: Http) returns (failed: bool)
      requires Valid() && Progress(s) && conf.Grouped()
      modifies this, groupCtl, groupCtl.vhostRouter
      ensures Valid() && Progress(s)
      ensures closeFuncs == if failed then old(closeFuncs) else old(closeFuncs) + [key]
      ensures failed <==> !Accepts(s, name, conf, old(closeFuncs) + [key])
    {
      if |closeFuncs| == 1 {
        GroupedSecondFails(s, name, id, conf, closeFuncs[0], Index(), key);
      }
      var err := groupCtl.Register(name, conf.group, conf.groupKey, key, id);
      failed := err.Some?;
      if !failed {
        closeFuncs := closeFuncs + [key];
      }
    }

    method RegisterRow(domain: string, locations: seq<string>, ghost s: Http) returns (failed: bool)
      requires Valid() && Progress(s)
      modifies this, groupCtl, groupCtl.vhostRouter
      ensures Valid() && Progress(s)
      ensures !failed ==> closeFuncs == old(closeFuncs) + Row(domain, locations, conf.routeByHTTPUser)
      ensures failed ==> !Accepts(s, name, conf, old(closeFuncs) + Row(domain, locations, conf.routeByHTTPUser))
    {
      ghost var row := Row(domain, locations, conf.routeByHTTPUser);
      for j := 0 to |locations|
        invariant Valid() && Progress(s)
        invariant closeFuncs == old(closeFuncs) + row[..j]
      {
        var key := Key(domain, locations[j], conf.routeByHTTPUser);
        assert row[..j + 1] == row[..j] + [key];
        assert old(closeFuncs) + row[..j + 1] == closeFuncs + [key];
        if conf.Grouped() {
          failed := RegisterGrouped(key, s);
        } else {
          failed := RegisterDirect(key, s);
        }
        if failed {
          if Accepts(s, name, conf, old(closeFuncs) + row) {
            AcceptsPrefix(s, name, conf, old(closeFuncs) + row, old(closeFuncs) + row[..j + 1]);
          }
          return true;
        }
      }
      assert row[..|locations|] == row;
      return false;
    }

    method RegisterCustomDomains(locations: seq<string>, ghost s: Http) returns (failed: bool)
      requires Valid() && Progress(s) && closeFuncs == []
      modifies this, groupCtl, groupCtl.vhostRouter
      ensures Valid() && Progress(s)
      ensures !failed ==> closeFuncs == Product(conf.customDomains, locations, conf.routeByHTTPUser)
      ensures failed ==> SomePrefixRefused(s, name, conf, locations)
    {
      for i := 0 to |conf.customDomains|
        invariant Valid() && Progress(s)
        invariant closeFuncs == Product(conf.customDomains[..i], locations, conf.routeByHTTPUser)
      {
        var domain := conf.customDomains[i];
        ProductNext(conf.customDomains, locations, conf.routeByHTTPUser, i);
        if domain == "" {
          continue;
        }
        failed := RegisterRow(domain, locations, s);
        if failed {
          PrefixIsRefused(s, name, conf, locations, i);
          return;
        }
      }
      assert conf.customDomains[..|conf.customDomains|] == conf.customDomains;
      failed := false;
    }

    /** The loops of HTTPProxy.Run: the custom domains, then the subdomain. */
    method RegisterAll(ghost s: Http) returns (failed: bool)
      requires Valid() && Progress(s) && closeFuncs == [] && State() == s
      modifies this, groupCtl, groupCtl.vhostRouter
      ensures Valid() && Progress(s)
      ensures failed <==> !Accepts(s, name, conf, conf.Wanted(subDomainHost))
      ensures !failed ==> closeFuncs == conf.Wanted(subDomainHost)
    {
      var locations := conf.Locations();
      failed := RegisterCustomDomains(locations, s);
      if !failed && conf.subDomain != "" {
        failed := RegisterRow(SubdomainNamespace.FullName(conf.subDomain, subDomainHost), locations, s);
      } else if failed {
        PrefixRefused(s, name, conf, subDomainHost);
      }
    }

    /** HTTPProxy.Run: all that the configuration asks for is registered, or nothing is. */
    method Run() returns (failed: bool)
      requires Valid() && closeFuncs == []
      modifies this, groupCtl, groupCtl.vhostRouter
      ensures Valid()
      ensures failed <==> !Accepts(old(State()), name, conf, conf.Wanted(subDomainHost))
      ensures State() == AfterRun(old(State()), name, id, conf, conf.Wanted(subDomainHost), Index())
      ensures !failed ==> closeFuncs == conf.Wanted(subDomainHost) && Holds(State(), name, id, conf, closeFuncs)
      ensures failed ==> State() == old(State())
      ensures !conf.Grouped() ==>
        (failed <==> (exists r :: r in old(State()).table && Asked(conf, subDomainHost, r.key)) || AsksTwice(conf, subDomainHost))
      ensures !failed && !conf.Grouped() ==> forall k ::
        NewRoute(old(State()), State(), k, id) <==> Asked(conf, subDomainHost, k)
      ensures !failed && conf.Grouped() ==> forall k :: Asked(conf, subDomainHost, k) ==>
        Route(k, ViaGroup(conf.group)) in State().table && InGroup(State().live, name, id, conf, k)
    {
      ghost var s := State();
      LiveIsValid(groupCtl.groups);
      RunMeans(s, name, id, conf, subDomainHost);
      failed := RegisterAll(s);
      if failed {
        Rollback(s);
        return;
      }
      CloseUndoesRun(s, name, id, conf, closeFuncs, Index());
    }

    /** The deferred rollback of Run: Close on whatever was registered. */
    method Rollback(ghost s: Http)
      requires Valid() && Progress(s) && LiveValid(s.live)
      modifies groupCtl, groupCtl.vhostRouter
      ensures Valid() && State() == s
    {
      CloseUndoesRun(s, name, id, conf, closeFuncs, Index());
      Close();
    }

    /** HTTPProxy.Close: exactly this proxy's registrations disappear. */
    method Close()
      requires Valid() && Holds(State(), name, id, conf, closeFuncs)
      modifies groupCtl, groupCtl.vhostRouter
      ensures Valid()
      ensures State() == AfterClose(old(State()), name, id, conf, closeFuncs)
    {
      if conf.Grouped() {
        CloseGrouped();
      } else {
        CloseDirect();
      }
    }

    method CloseGrouped()
      requires Valid() && conf.Grouped() && Holds(State(), name, id, conf, closeFuncs)
      modifies groupCtl, groupCtl.vhostRouter
      ensures Valid()
      ensures State() == if |closeFuncs| == 0 then old(State()) else Leave(old(State()), name, conf.group)
    {
      for i := 0 to |closeFuncs|
        invariant Valid()
        invariant i == 0 ==> State() == old(State()) && groupCtl.live == old(groupCtl.live) && groupCtl.groups == old(groupCtl.groups)
        invariant i == 1 ==> State() == Leave(old(State()), name, conf.group)
      {
        groupCtl.UnRegister(name, conf.group);
      }
    }

    method CloseDirect()
      requires Valid() && !conf.Grouped() && Holds(State(), name, id, conf, closeFuncs)
      modifies groupCtl.vhostRouter
      ensures Valid()
      ensures State() == old(State()).(table := old(State()).table - Mine(closeFuncs, id))
    {
      ghost var before := State();
      for i := 0 to |closeFuncs|
        invariant Valid()
        invariant State() == before.(table := before.table - Mine(closeFuncs[..i], id))
      {
        var key := closeFuncs[i];
        ghost var r := Route(key, ViaProxy(id));
        assert closeFuncs[..i + 1] == closeFuncs[..i] + [key];
        MineSnoc(closeFuncs[..i], id, key);
        StillMine(before.table, closeFuncs, id, i);
        groupCtl.vhostRouter.UniqueKeys();
        RemoveOwnRoute(groupCtl.vhostRouter.table, r);
        DirectKeepsGroups(groupCtl.vhostRouter.table, groupCtl.live, key, id);
        reverseProxy.UnRegister(key);
      }
      assert closeFuncs[..|closeFuncs|] == closeFuncs;
    }
  }

  lemma ProductNext(domains: seq<string>, locations: seq<string>, user: string, i: nat)
    requires i < |domains|
    ensures Product(domains[..i + 1], locations, user) ==
            Product(domains[..i], locations, user) + if domains[i] == "" then [] else Row(domains[i], locations, user)
  {
    assert domains[..i + 1][..i] == domains[..i];
  }

  /** Some prefix of the custom domains is refused already. */
  ghost predicate SomePrefixRefused(s: Http, name: Name, conf: HttpConf, locations: seq<string>)
  {
    exists n :: 0 <= n <= |conf.customDomains| &&
      !Accepts(s, name, conf, Product(conf.customDomains[..n], locations, conf.routeByHTTPUser))
  }

  lemma PrefixIsRefused(s: Http, name: Name, conf: HttpConf, locations: seq<string>, i: nat)
    requires i < |conf.customDomains| && conf.customDomains[i] != ""
    requires !Accepts(s, name, conf, Product(conf.customDomains[..i], locations, conf.routeByHTTPUser)
                                     + Row(conf.customDomains[i], locations, conf.routeByHTTPUser))
    ensures SomePrefixRefused(s, name, conf, locations)
  {
    assert conf.customDomains[..i + 1][..i] == conf.customDomains[..i];
    assert !Accepts(s, name, conf, Product(conf.customDomains[..i + 1], locations, conf.routeByHTTPUser));
  }

  lemma PrefixRefused(s: Http, name: Name, conf: HttpConf, subDomainHost: string)
    requires SomePrefixRefused(s, name, conf, conf.Locations())
    ensures !Accepts(s, name, conf, conf.Wanted(subDomainHost))
  {
    var n :| 0 <= n <= |conf.customDomains| &&
      !Accepts(s, name, conf, Product(conf.customDomains[..n], conf.Locations(), conf.routeByHTTPUser));
    ProductPrefix(conf.customDomains, conf.Locations(), conf.routeByHTTPUser, n);
    if Accepts(s, name, conf, conf.Wanted(subDomainHost)) {
      AcceptsPrefix(s, name, conf, conf.Wanted(subDomainHost),
                    Product(conf.customDomains[..n], conf.Locations(), conf.routeByHTTPUser));
    }
  }

  lemma StillMine(table: set<Route<Target>>, keys: seq<Key>, id: nat, i: nat)
    requires i < |keys| && DistinctKeys(keys) && Mine(keys, id) <= table
    ensures Route(keys[i], ViaProxy(id)) in table - Mine(keys[..i], id)
  {
    assert Route(keys[i], ViaProxy(id)) in Mine(keys, id);
  }

  lemma {:induction false} ProductPrefix(domains: seq<string>, locations: seq<string>, user: string, n: nat)
    requires n <= |domains|
    ensures Product(domains[..n], locations, user) <= Product(domains, locations, user)
    decreases |domains| - n
  {
    if n < |domains| {
      assert domains[..n + 1][..n] == domains[..n];
      ProductPrefix(domains, locations, user, n + 1);
    } else {
      assert domains[..n] == domains;
    }
  }
}

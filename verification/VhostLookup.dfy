/**
 Choosing a route for a request (pkg/util/vhost/http.go and vhost.go): the full
 host first, then wildcard domains obtained by replacing leading labels with an
 asterisk, then the domain "*"; at each domain the request's HTTP user first,
 then the empty user, which means any user.

 The reference is independent of that search: a route is the answer when it is
 the best of all matching routes of the flat table.
 */
module VhostLookup {
  import opened Text
  import opened Wrappers
  import opened Routers

  datatype Request = Request(host: string, path: string, user: string)

  // ----- the reference: best match over the flat table

  /** The domain is "*" followed by host[i..], which starts with a dot and holds a second one. */
  predicate WildcardAt(host: string, domain: string, i: int)
  {
    0 <= i < |host| && host[i] == '.' && '.' in host[i + 1..] && domain == "*" + host[i..]
  }

  const NO_MATCH := -1

  /** How specific a domain is for a host: 0 is the host itself, larger is less specific. */
  function DomainLevel(host: string, domain: string): int
  {
    var i := |host| + 1 - |domain|;
    if domain == host then 0
    else if WildcardAt(host, domain, i) then i + 1
    else if domain == "*" then |host| + 1
    else NO_MATCH
  }

  ghost predicate Matches<P>(req: Request, r: Route<P>)
  {
    && DomainLevel(req.host, r.key.domain) != NO_MATCH
    && (r.key.user == req.user || r.key.user == "")
    && r.key.location <= req.path
  }

  /** More specific domain, then the request's own user over any user, then the longer location. */
  ghost predicate Better<P>(req: Request, a: Route<P>, b: Route<P>)
  {
    var la, lb := DomainLevel(req.host, a.key.domain), DomainLevel(req.host, b.key.domain);
    || la < lb
    || (la == lb && a.key.user == req.user && b.key.user != req.user)
    || (la == lb && a.key.user == b.key.user && |a.key.location| > |b.key.location|)
  }

  ghost predicate IsBest<P>(table: set<Route<P>>, req: Request, r: Route<P>)
  {
    && r in table && Matches(req, r)
    && forall o :: o in table && Matches(req, o) && o != r ==> Better(req, r, o)
  }

  ghost predicate Answers<P>(table: set<Route<P>>, req: Request, res: Option<Route<P>>)
  {
    match res
    case Some(r) => IsBest(table, req, r)
    case None => forall r :: r in table ==> !Matches(req, r)
  }

  /** The best route is unique, so a lookup is a function of the flat table alone. */
  lemma AnswerUnique<P>(table: set<Route<P>>, req: Request, a: Option<Route<P>>, b: Option<Route<P>>)
    requires Answers(table, req, a) && Answers(table, req, b)
    ensures a == b
  {
    if a.Some? && b.Some? {
      assert b.value != a.value ==> Better(req, a.value, b.value);
    }
  }

  // ----- how the search walks the levels

  /** Every level names one domain. */
  lemma LevelNamesDomain(host: string, domain: string)
    ensures DomainLevel(host, domain) == 0 ==> domain == host
    ensures 0 < DomainLevel(host, domain) <= |host| ==> WildcardAt(host, domain, DomainLevel(host, domain) - 1)
    ensures DomainLevel(host, domain) > |host| ==> domain == "*"
    ensures NO_MATCH <= DomainLevel(host, domain) <= |host| + 1
  {
  }

  lemma WildcardLevel(host: string, domain: string, i: int)
    requires WildcardAt(host, domain, i)
    ensures DomainLevel(host, domain) == 0 || DomainLevel(host, domain) == i + 1
  {
    assert |domain| == 1 + |host| - i;
  }

  /** The domain is "*." followed by an end of the host that begins behind a dot and has one more dot in it. */
  ghost predicate IsWildcardOf(host: string, domain: string)
  {
    exists rest :: '.' in rest && domain == "*." + rest && EndsIn(host, "." + rest)
  }

  predicate EndsIn(s: string, end: string)
  {
    |end| <= |s| && s[|s| - |end|..] == end
  }

  lemma WildcardEnds(host: string, domain: string, i: int)
    requires WildcardAt(host, domain, i)
    ensures IsWildcardOf(host, domain)
  {
    var rest := host[i + 1..];
    assert host[i..] == "." + rest;
    assert domain == "*" + ("." + rest) == "*." + rest;
    assert EndsIn(host, "." + rest);
  }

  lemma EndMakesWildcard(host: string, domain: string, rest: string)
    requires '.' in rest && domain == "*." + rest && EndsIn(host, "." + rest)
    ensures WildcardAt(host, domain, |host| + 1 - |domain|)
  {
    var i := |host| + 1 - |domain|;
    assert host[i..] == "." + rest;
    assert host[i] == ("." + rest)[0] == '.';
    assert host[i + 1..] == host[i..][1..] == rest;
    assert domain == "*" + ("." + rest);
  }

  /** A domain answers for a host exactly if it is the host, one of its wildcards, or "*". */
  lemma MatchIff(host: string, domain: string)
    ensures DomainLevel(host, domain) != NO_MATCH <==> domain == host || IsWildcardOf(host, domain) || domain == "*"
  {
    var i := |host| + 1 - |domain|;
    if WildcardAt(host, domain, i) { WildcardEnds(host, domain, i); }
    if rest :| '.' in rest && domain == "*." + rest && EndsIn(host, "." + rest) {
      EndMakesWildcard(host, domain, rest);
    }
  }

  /** Of two that answer, the host itself comes first, and otherwise the longer one. */
  lemma LevelOrder(host: string, a: string, b: string)
    requires DomainLevel(host, a) != NO_MATCH && DomainLevel(host, b) != NO_MATCH
    ensures DomainLevel(host, a) < DomainLevel(host, b) <==> b != host && (a == host || |a| > |b|)
  {
  }

  /**
   The answer has the host's own domain if any matching route has, and else the longest matching one; under that domain
   it is for the request's own user if any is; and for that user it has the longest location.
   */
  lemma BestMeans<P>(table: set<Route<P>>, req: Request, r: Route<P>, o: Route<P>)
    requires IsBest(table, req, r) && o in table && Matches(req, o)
    ensures o.key.domain == req.host ==> r.key.domain == req.host
    ensures r.key.domain != req.host ==> |r.key.domain| >= |o.key.domain|
    ensures o.key.domain == r.key.domain && o.key.user == req.user ==> r.key.user == req.user
    ensures o.key.domain == r.key.domain && o.key.user == r.key.user ==> |o.key.location| <= |r.key.location|
  {
    LevelOrder(req.host, r.key.domain, o.key.domain);
    LevelOrder(req.host, o.key.domain, r.key.domain);
  }

  /** All matching routes are less specific than level n. */
  ghost predicate NoneUpTo<P>(table: set<Route<P>>, req: Request, n: int)
  {
    forall r :: r in table && Matches(req, r) ==> DomainLevel(req.host, r.key.domain) > n
  }

  /** The walk stands at host[at..], the start of a label. */
  ghost predicate AtLabel(host: string, at: int, labels: seq<string>)
  {
    && 0 <= at <= |host|
    && labels == Split(host[at..], '.')
  }

  /** The first of several labels ends at a dot; the walk can resume behind it. */
  lemma FirstLabel(host: string, at: int, labels: seq<string>)
    requires AtLabel(host, at, labels)
    requires |labels| >= 2
    ensures var i := at + |labels[0]|;
            && i < |host| && host[i] == '.'
            && AtLabel(host, i + 1, labels[1..])
            && forall k :: at <= k < i ==> host[k] != '.'
  {
    var rest := host[at..];
    var i := at + |labels[0]|;
    SplitHead(rest, '.');
    assert rest[|labels[0]| + 1..] == host[i + 1..];
    forall k | at <= k < i ensures host[k] != '.' {
      assert labels[0][k - at] == host[k];
    }
  }

  lemma JoinStar(labels: seq<string>)
    requires |labels| >= 2
    ensures Join(labels[0 := "*"], '.') == "*" + ['.'] + Join(labels[1..], '.')
  {
    assert labels[0 := "*"][1..] == labels[1..];
  }

  /** With three labels left, replacing the first with an asterisk gives the next wildcard. */
  lemma NextWildcard(host: string, at: int, labels: seq<string>)
    requires AtLabel(host, at, labels)
    requires |labels| >= 3
    ensures var i := at + |labels[0]|;
            && WildcardAt(host, Join(labels[0 := "*"], '.'), i)
            && AtLabel(host, i + 1, labels[1..])
            && forall k :: at <= k < i ==> host[k] != '.'
  {
    var i := at + |labels[0]|;
    FirstLabel(host, at, labels);
    JoinOfSplit(host[i + 1..], '.');
    SplitSingle(host[i + 1..], '.');
    JoinStar(labels);
    assert host[i..] == ['.'] + host[i + 1..];
  }

  /** Two dots ahead of the walk make at least three labels. */
  lemma TwoDots(host: string, at: int, labels: seq<string>, k: int)
    requires AtLabel(host, at, labels)
    requires at <= k < |host| && host[k] == '.' && '.' in host[k + 1..]
    ensures |labels| >= 3
  {
    assert host[at..][k - at] == '.';
    SplitSingle(host[at..], '.');
    FirstLabel(host, at, labels);
    var i := at + |labels[0]|;
    var m :| 0 <= m < |host[k + 1..]| && host[k + 1..][m] == '.';
    assert host[i + 1..][k + 1 + m - i - 1] == '.';
    SplitSingle(host[i + 1..], '.');
  }

  /** The level range from one label to the next holds only the wildcard just tried. */
  lemma SkipLabel<P>(table: set<Route<P>>, req: Request, at: int, i: int, domain: string)
    requires NoneUpTo(table, req, at)
    requires 0 <= at <= i && WildcardAt(req.host, domain, i)
    requires forall k :: at <= k < i ==> req.host[k] != '.'
    requires forall r :: r in table && Matches(req, r) ==> r.key.domain != domain
    ensures NoneUpTo(table, req, i + 1)
  {
    forall r | r in table && Matches(req, r)
      ensures DomainLevel(req.host, r.key.domain) > i + 1
    {
      LevelNamesDomain(req.host, r.key.domain);
      var level := DomainLevel(req.host, r.key.domain);
    }
  }

  /** What one domain contributes: its best route is the best of all once nothing more specific matches. */
  ghost predicate DomainAnswer<P>(table: set<Route<P>>, req: Request, domain: string, res: Option<Route<P>>)
  {
    match res
    case Some(r) =>
      && r in table && r.key.domain == domain
      && (r.key.user == req.user || r.key.user == "") && r.key.location <= req.path
      && forall o :: o in table && o.key.domain == domain && o != r
                     && (o.key.user == req.user || o.key.user == "") && o.key.location <= req.path
                     ==> Better(req, r, o)
    case None =>
      forall r :: r in table && r.key.domain == domain && r.key.location <= req.path
                  ==> r.key.user != req.user && r.key.user != ""
  }

  lemma DomainAnswerIsBest<P>(table: set<Route<P>>, req: Request, domain: string, r: Route<P>, n: int)
    requires DomainAnswer(table, req, domain, Some(r))
    requires NoneUpTo(table, req, n)
    requires 0 <= DomainLevel(req.host, domain)
    requires forall o :: o in table && Matches(req, o) && DomainLevel(req.host, o.key.domain) <= DomainLevel(req.host, domain)
                         ==> o.key.domain == domain
    ensures IsBest(table, req, r)
  {
  }

  lemma FoundAtWildcard<P>(table: set<Route<P>>, req: Request, at: int, i: int, domain: string, r: Route<P>)
    requires NoneUpTo(table, req, at)
    requires 0 <= at <= i && WildcardAt(req.host, domain, i)
    requires forall k :: at <= k < i ==> req.host[k] != '.'
    requires DomainAnswer(table, req, domain, Some(r))
    ensures IsBest(table, req, r)
  {
    WildcardLevel(req.host, domain, i);
    assert Matches(req, r);
    assert DomainLevel(req.host, domain) == i + 1;
    forall o | o in table && Matches(req, o) && DomainLevel(req.host, o.key.domain) <= i + 1
      ensures o.key.domain == domain
    {
      LevelNamesDomain(req.host, o.key.domain);
    }
    DomainAnswerIsBest(table, req, domain, r, at);
  }

  lemma OnlyStarLeft<P>(table: set<Route<P>>, req: Request, at: int, labels: seq<string>)
    requires AtLabel(req.host, at, labels) && |labels| < 3
    requires NoneUpTo(table, req, at)
    ensures forall r :: r in table && Matches(req, r) ==> r.key.domain == "*"
  {
    forall r | r in table && Matches(req, r) ensures r.key.domain == "*" {
      var level := DomainLevel(req.host, r.key.domain);
      LevelNamesDomain(req.host, r.key.domain);
      if level <= |req.host| {
        TwoDots(req.host, at, labels, level - 1);
      }
    }
  }

  /** Nothing at a level up to at matches, and the walk goes on from there. */
  ghost predicate Walking<P>(table: set<Route<P>>, req: Request, at: int, labels: seq<string>)
  {
    AtLabel(req.host, at, labels) && NoneUpTo(table, req, at)
  }

  lemma HostTried<P>(table: set<Route<P>>, req: Request, res: Option<Route<P>>)
    requires DomainAnswer(table, req, req.host, res)
    ensures res.Some? ==> Answers(table, req, res)
    ensures res.None? ==> Walking(table, req, 0, Split(req.host, '.'))
  {
    assert req.host[0..] == req.host;
    if res.Some? {
      DomainAnswerIsBest(table, req, req.host, res.value, NO_MATCH);
    }
  }

  lemma WildcardTried<P>(table: set<Route<P>>, req: Request, at: int, labels: seq<string>, res: Option<Route<P>>)
    requires Walking(table, req, at, labels) && |labels| >= 3
    requires DomainAnswer(table, req, Join(labels[0 := "*"], '.'), res)
    ensures res.Some? ==> Answers(table, req, res)
    ensures res.None? ==> Walking(table, req, at + |labels[0]| + 1, labels[1..])
  {
    var i, domain := at + |labels[0]|, Join(labels[0 := "*"], '.');
    NextWildcard(req.host, at, labels);
    if res.Some? {
      FoundAtWildcard(table, req, at, i, domain, res.value);
    } else {
      SkipLabel(table, req, at, i, domain);
    }
  }

  lemma StarTried<P>(table: set<Route<P>>, req: Request, at: int, labels: seq<string>, res: Option<Route<P>>)
    requires Walking(table, req, at, labels) && |labels| < 3
    requires DomainAnswer(table, req, "*", res)
    ensures Answers(table, req, res)
  {
    OnlyStarLeft(table, req, at, labels);
    if res.Some? {
      assert Matches(req, res.value);
      DomainAnswerIsBest(table, req, "*", res.value, at);
    }
  }

  /** findRouter: the request's user first, then any user. */
  method FindRouter<P(==)>(router: Routers<P>, ghost req: Request, domain: string, path: string, user: string)
    returns (res: Option<Route<P>>)
    requires router.Valid()
    requires req.path == path && req.user == user
    ensures DomainAnswer(router.table, req, domain, res)
  {
    res := router.Get(domain, path, user);
    if res.Some? { return; }
    res := router.Get(domain, path, "");
  }

  class HttpReverseProxy<P(==)> {
    const vhostRouter: Routers<P>

    constructor (vhostRouter: Routers<P>)
      ensures this.vhostRouter == vhostRouter
    {
      this.vhostRouter := vhostRouter;
    }

    /** getVhost answers with the best route of the flat table, or with none iff none matches. */
    method GetVhost(host: string, path: string, user: string) returns (res: Option<Route<P>>)
      requires vhostRouter.Valid()
      ensures Answers(vhostRouter.table, Request(host, path, user), res)
    {
      ghost var req := Request(host, path, user);
      ghost var table := vhostRouter.table;
      res := FindRouter(vhostRouter, req, host, path, user);
      HostTried(table, req, res);
      if res.Some? {
        return;
      }
      var labels := Split(host, '.');
      ghost var at := 0;
      while |labels| >= 3
        invariant Walking(table, req, at, labels)
      {
        ghost var before := labels;
        labels := labels[0 := "*"];
        var domain := Join(labels, '.');
        res := FindRouter(vhostRouter, req, domain, path, user);
        WildcardTried(table, req, at, before, res);
        if res.Some? {
          return;
        }
        labels := labels[1..];
        assert labels == before[1..];
        at := at + |before[0]| + 1;
      }
      res := FindRouter(vhostRouter, req, "*", path, user);
      StarTried(table, req, at, labels, res);
    }

    method Register(key: Key, payload: P) returns (conflict: bool)
      requires vhostRouter.Valid()
      modifies vhostRouter
      ensures vhostRouter.Valid()
      ensures conflict <==> Registered(old(vhostRouter.table), key)
      ensures vhostRouter.table ==
              if conflict then old(vhostRouter.table) else old(vhostRouter.table) + {Route(key, payload)}
    {
      conflict := vhostRouter.Add(key, payload);
    }

    method UnRegister(key: Key)
      requires vhostRouter.Valid()
      modifies vhostRouter
      ensures vhostRouter.Valid()
      ensures vhostRouter.table == WithoutKey(old(vhostRouter.table), key)
    {
      vhostRouter.Del(key);
    }
  }

  /** The listener of the best route, or none if no route matches. */
  ghost predicate ListenerAnswers<P>(table: set<Route<P>>, req: Request, res: Option<P>)
  {
    match res
    case Some(l) => exists r :: r in table && IsBest(table, req, r) && r.payload == l
    case None => forall r :: r in table ==> !Matches(req, r)
  }

  lemma PayloadAnswers<P>(table: set<Route<P>>, req: Request, route: Option<Route<P>>)
    requires Answers(table, req, route)
    ensures ListenerAnswers(table, req, if route.Some? then Some(route.value.payload) else None)
  {
  }

  lemma ListenerUnique<P>(table: set<Route<P>>, req: Request, route: Option<Route<P>>, res: Option<P>)
    requires Answers(table, req, route) && ListenerAnswers(table, req, res)
    ensures res == if route.Some? then Some(route.value.payload) else None
  {
    if res.Some? {
      var r :| r in table && IsBest(table, req, r) && r.payload == res.value;
      AnswerUnique(table, req, route, Some(r));
    } else {
      AnswerUnique(table, req, route, None);
    }
  }

  /** The listener registry of the https and tcpmux muxers; the payload identifies the listener. */
  class Muxer<P(==)> {
    const registryRouter: Routers<P>

    constructor (registryRouter: Routers<P>)
      ensures this.registryRouter == registryRouter
    {
      this.registryRouter := registryRouter;
    }

    /** Muxer.Listen */
    method Listen(key: Key, listener: P) returns (conflict: bool)
      requires registryRouter.Valid()
      modifies registryRouter
      ensures registryRouter.Valid()
      ensures conflict <==> Registered(old(registryRouter.table), key)
      ensures registryRouter.table ==
              if conflict then old(registryRouter.table) else old(registryRouter.table) + {Route(key, listener)}
    {
      conflict := registryRouter.Add(key, listener);
    }

    /** Listener.Close: the registration it undoes is its own, because keys are unique. */
    method CloseListener(key: Key, listener: P)
      requires registryRouter.Valid()
      requires Route(key, listener) in registryRouter.table
      modifies registryRouter
      ensures registryRouter.Valid()
      ensures registryRouter.table == old(registryRouter.table) - {Route(key, listener)}
    {
      registryRouter.UniqueKeys();
      registryRouter.Del(key);
    }

    /** The search of getListener, which the muxer has a copy of. */
    method Search(name: string, path: string, user: string) returns (found: Option<Route<P>>)
      requires registryRouter.Valid()
      ensures Answers(registryRouter.table, Request(name, path, user), found)
    {
      ghost var req := Request(name, path, user);
      ghost var table := registryRouter.table;
      found := FindRouter(registryRouter, req, name, path, user);
      HostTried(table, req, found);
      if found.Some? {
        return;
      }
      var labels := Split(name, '.');
      ghost var at := 0;
      while |labels| >= 3
        invariant Walking(table, req, at, labels)
      {
        ghost var before := labels;
        labels := labels[0 := "*"];
        var domain := Join(labels, '.');
        found := FindRouter(registryRouter, req, domain, path, user);
        WildcardTried(table, req, at, before, found);
        if found.Some? {
          return;
        }
        labels := labels[1..];
        assert labels == before[1..];
        at := at + |before[0]| + 1;
      }
      found := FindRouter(registryRouter, req, "*", path, user);
      StarTried(table, req, at, labels, found);
    }

    /** getListener: the listener of the best route of the flat table. */
    method GetListener(name: string, path: string, user: string) returns (res: Option<P>)
      requires registryRouter.Valid()
      ensures ListenerAnswers(registryRouter.table, Request(name, path, user), res)
    {
      var found := Search(name, path, user);
      PayloadAnswers(registryRouter.table, Request(name, path, user), found);
      return if found.Some? then Some(found.value.payload) else None;
    }
  }

  /** On one table the two searches agree: the listener chosen is the payload of the route chosen. */
  method SameChoice<P(==)>(router: Routers<P>, name: string, path: string, user: string)
    returns (vhost: Option<Route<P>>, listener: Option<P>)
    requires router.Valid()
    ensures Answers(router.table, Request(name, path, user), vhost)
    ensures listener == if vhost.Some? then Some(vhost.value.payload) else None
  {
    var http := new HttpReverseProxy(router);
    var mux := new Muxer(router);
    vhost := http.GetVhost(name, path, user);
    listener := mux.GetListener(name, path, user);
    ListenerUnique(router.table, Request(name, path, user), vhost, listener);
  }
}

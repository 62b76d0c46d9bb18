/**
 The namespace reserved for subdomains (pkg/config/proxy.go, DomainConf): the
 server-side check of custom domains and the subdomain, and what it guarantees
 for routing.
 */
module SubdomainNamespace {
  import opened Text
  import opened Wrappers
  import opened Routers
  import opened VhostLookup

  datatype CheckError =
    | NoDomainConfigured
    | BelongsToSubdomainHost(domain: string)
    | SubdomainNotEnabled
    | BadSubdomain

  /** The guard under which a custom domain is turned away. */
  predicate Reserved(domain: string, subDomainHost: string)
  {
    && subDomainHost != ""
    && |Split(subDomainHost, '.')| < |Split(domain, '.')|
    && Contains(domain, subDomainHost)
  }

  predicate SubdomainAllowed(subDomain: string, subDomainHost: string)
  {
    subDomainHost != "" && '.' !in subDomain && '*' !in subDomain
  }

  /** DomainConf.checkForSvr */
  method CheckForSvr(customDomains: seq<string>, subDomain: string, subDomainHost: string)
    returns (err: Option<CheckError>)
    ensures err == Some(NoDomainConfigured) <==> customDomains == [] && subDomain == ""
    ensures err.Some? && err.value.BelongsToSubdomainHost? ==>
              err.value.domain in customDomains && Reserved(err.value.domain, subDomainHost)
    ensures err.Some? && err.value.BelongsToSubdomainHost? <==> exists d :: d in customDomains && Reserved(d, subDomainHost)
    ensures err == Some(SubdomainNotEnabled) <==>
              (forall d :: d in customDomains ==> !Reserved(d, subDomainHost)) && subDomain != "" && subDomainHost == ""
    ensures err == Some(BadSubdomain) <==>
              && (forall d :: d in customDomains ==> !Reserved(d, subDomainHost))
              && subDomain != "" && subDomainHost != "" && ('.' in subDomain || '*' in subDomain)
    ensures err == None ==>
              && (forall d :: d in customDomains ==> !Reserved(d, subDomainHost))
              && (subDomain != "" ==> SubdomainAllowed(subDomain, subDomainHost))
    ensures (customDomains != [] || subDomain != "")
            && (forall d :: d in customDomains ==> !Reserved(d, subDomainHost))
            && (subDomain != "" ==> SubdomainAllowed(subDomain, subDomainHost))
            ==> err == None
  {
    if |customDomains| == 0 && subDomain == "" {
      return Some(NoDomainConfigured);
    }
    for i := 0 to |customDomains|
      invariant forall j :: 0 <= j < i ==> !Reserved(customDomains[j], subDomainHost)
    {
      var domain := customDomains[i];
      if subDomainHost != "" && |Split(subDomainHost, '.')| < |Split(domain, '.')| {
        if Contains(domain, subDomainHost) {
          return Some(BelongsToSubdomainHost(domain));
        }
      }
    }
    if subDomain != "" {
      if subDomainHost == "" {
        return Some(SubdomainNotEnabled);
      }
      if '.' in subDomain || '*' in subDomain {
        return Some(BadSubdomain);
      }
    }
    return None;
  }

  /** The name under which HTTPProxy.Run registers a subdomain. */
  function FullName(subDomain: string, subDomainHost: string): string
  {
    subDomain + "." + subDomainHost
  }

  lemma PrefixedByLabel(head: string, host: string)
    requires '.' !in head && host != ""
    ensures Reserved(head + "." + host, host)
  {
    var d := head + "." + host;
    SplitAtFirst(head, '.', host);
    ContainsSuffix(d, |head| + 1);
    assert d[|head| + 1..] == host;
  }

  /** One label in front of the subdomain host is always turned away. */
  lemma NamespaceIsReserved(domain: string, subDomain: string, host: string)
    requires SubdomainAllowed(subDomain, host)
    requires domain == FullName(subDomain, host) || domain == FullName("*", host)
    ensures Reserved(domain, host)
  {
    PrefixedByLabel(subDomain, host);
    PrefixedByLabel("*", host);
  }

  /**
   A custom domain that passed the check answers for a subdomain's host only from outside the
   namespace: it is strictly less specific than "*." followed by the subdomain host.
   */
  lemma CustomDomainsStayOutside(domain: string, subDomain: string, host: string)
    requires SubdomainAllowed(subDomain, host)
    requires !Reserved(domain, host)
    ensures var level := DomainLevel(FullName(subDomain, host), domain);
            level == NO_MATCH || level > |subDomain| + 1
  {
    var full := FullName(subDomain, host);
    var level := DomainLevel(full, domain);
    LevelNamesDomain(full, domain);
    if level == 0 {
      NamespaceIsReserved(domain, subDomain, host);
    } else if 0 < level <= |subDomain| + 1 {
      assert full[level - 1] == '.';
      assert level - 1 == |subDomain|;
      assert full[|subDomain|..] == "." + host;
      assert "*" + ("." + host) == FullName("*", host);
      NamespaceIsReserved(domain, subDomain, host);
    }
  }

  /** Where each registered domain comes from. */
  datatype Origin = Custom(domain: string) | Sub(subDomain: string)

  ghost predicate Accepted(o: Origin, host: string)
  {
    match o
    case Custom(d) => !Reserved(d, host)
    case Sub(s) => s != "" && SubdomainAllowed(s, host)
  }

  function DomainOf(o: Origin, host: string): string
  {
    match o
    case Custom(d) => d
    case Sub(s) => FullName(s, host)
  }

  lemma FullNameInjective(a: string, b: string, host: string)
    requires FullName(a, host) == FullName(b, host)
    ensures a == b
  {
    assert |FullName(a, host)| == |a| + 1 + |host|;
    assert a == FullName(a, host)[..|a|];
    assert b == FullName(b, host)[..|b|];
  }

  // ----- what a request for a subdomain arrives as

  function LowerChar(c: char): char
  {
    if 'A' <= c <= 'Z' then c - 'A' + 'a' else c
  }

  /** strings.ToLower, on ASCII letters. */
  function Lower(s: string): (t: string)
    ensures |t| == |s|
    ensures forall i :: 0 <= i < |s| ==> t[i] as int == if 'A' <= s[i] <= 'Z' then s[i] as int + 32 else s[i] as int
  {
    seq(|s|, i requires 0 <= i < |s| => LowerChar(s[i]))
  }

  predicate EndsInDot(s: string)
  {
    s != "" && s[|s| - 1] == '.'
  }

  datatype Entry = ViaHttp | ViaMuxer

  /** The host that is looked up: in lower case, by the HTTP proxy also without a dot at the end. */
  function HostSeen(e: Entry, name: string): string
  {
    var t := Lower(name);
    if e == ViaHttp && EndsInDot(t) then t[..|t| - 1] else t
  }

  lemma LowerAppend(a: string, b: string)
    ensures Lower(a + b) == Lower(a) + Lower(b)
  {
    forall i | 0 <= i < |a + b| ensures Lower(a + b)[i] == (Lower(a) + Lower(b))[i] {
    }
  }

  lemma SeenInParts(e: Entry, s: string, host: string)
    requires host != ""
    ensures HostSeen(e, FullName(s, host)) == FullName(Lower(s), HostSeen(e, host))
  {
    LowerAppend(s + ".", host);
    LowerAppend(s, ".");
    assert Lower(".") == ".";
    LastOfAppend(FullName(Lower(s), ""), Lower(host));
  }

  lemma LastOfAppend(a: string, b: string)
    requires b != ""
    ensures (a + b)[..|a + b| - 1] == a + b[..|b| - 1] && EndsInDot(a + b) == EndsInDot(b)
  {
  }

  lemma LowerIsAllowed(s: string, host: string)
    requires SubdomainAllowed(s, host)
    ensures SubdomainAllowed(Lower(s), host)
  {
    forall c | c in Lower(s) ensures c != '.' && c != '*' {
      var i :| 0 <= i < |s| && Lower(s)[i] == c;
      assert s[i] in s;
    }
  }

  lemma {:induction false} ContainsAt(s: string, sub: string, i: nat) returns (k: nat)
    requires Contains(s, sub) && i < |sub|
    ensures k < |s| && s[k] == sub[i]
  {
    if sub <= s {
      k := i;
    } else {
      k := ContainsAt(s[1..], sub, i);
      k := k + 1;
    }
  }

  lemma UpperNotInLower(s: string, host: string)
    requires Lower(host) != host && Lower(s) == s
    ensures !Contains(s, host)
  {
    var i :| 0 <= i < |host| && Lower(host)[i] != host[i];
    assert forall k :: 0 <= k < |s| ==> Lower(s)[k] == s[k];
    if Contains(s, host) {
      var k := ContainsAt(s, host, i);
    }
  }

  /** If the subdomain host is not what requests arrive as, any of its subdomains passes as a custom domain, spelt as requested. */
  lemma SeenIsAccepted(e: Entry, s: string, host: string)
    requires SubdomainAllowed(s, host) && HostSeen(e, host) != host
    ensures !Reserved(HostSeen(e, FullName(s, host)), host)
  {
    var d := HostSeen(e, FullName(s, host));
    if Lower(host) != host {
      assert Lower(d) == d;
      UpperNotInLower(d, host);
    } else {
      SeenInParts(e, s, host);
      LowerIsAllowed(s, host);
      var front := host[..|host| - 1];
      assert host == front + "." && d == Lower(s) + "." + front;
      LabelsAreDots(host);
      LabelsAreDots(d);
      DotsAdd(Lower(s) + ".", front);
      DotsAdd(Lower(s), ".");
      DotsAdd(front, ".");
      SomeDots(Lower(s));
    }
  }

  /** No custom domain that passes the check comes before the wildcard of the subdomain host, for any subdomain. */
  ghost predicate NamespaceSafe(e: Entry, host: string)
  {
    forall d, s :: SubdomainAllowed(s, host) && !Reserved(d, host) ==> Outside(e, d, s, host)
  }

  ghost predicate Outside(e: Entry, d: string, s: string, host: string)
  {
    var level := DomainLevel(HostSeen(e, FullName(s, host)), d);
    level == NO_MATCH || level > |s| + 1
  }

  /** The namespace is reserved if and only if the subdomain host is spelt the way requests arrive. */
  lemma NamespaceSafeIff(e: Entry, host: string)
    requires host != ""
    ensures NamespaceSafe(e, host) <==> HostSeen(e, host) == host
  {
    if HostSeen(e, host) == host {
      forall d, s | SubdomainAllowed(s, host) && !Reserved(d, host) ensures Outside(e, d, s, host) {
        SeenInParts(e, s, host);
        LowerIsAllowed(s, host);
        CustomDomainsStayOutside(d, Lower(s), host);
      }
    } else {
      SeenIsAccepted(e, "a", host);
      assert SubdomainAllowed("a", host);
      assert !Outside(e, HostSeen(e, FullName("a", host)), "a", host);
    }
  }

  /** For the HTTP proxy that means lower case and no dot at the end, for the muxer lower case. */
  lemma SpeltAsSeenIff(e: Entry, host: string)
    ensures HostSeen(e, host) == host <==> Lower(host) == host && (e == ViaHttp ==> !EndsInDot(host))
  {
  }

  /** A subdomain's own route is found by its requests if and only if its full name is spelt the way they arrive. */
  lemma OwnRouteFoundIff(e: Entry, s: string, host: string)
    requires s != "" && SubdomainAllowed(s, host)
    ensures DomainLevel(HostSeen(e, FullName(s, host)), FullName(s, host)) != NO_MATCH <==>
              HostSeen(e, FullName(s, host)) == FullName(s, host)
    ensures HostSeen(e, FullName(s, host)) == FullName(s, host) <==> Lower(s) == s && HostSeen(e, host) == host
  {
    LevelNamesDomain(HostSeen(e, FullName(s, host)), FullName(s, host));
    assert FullName(s, host)[0] == s[0] && s[0] in s;
    SeenInParts(e, s, host);
    var full, seen := FullName(s, host), FullName(Lower(s), HostSeen(e, host));
    assert full[..|s|] == s && seen[..|s|] == Lower(s);
    assert full[|s| + 1..] == host && seen[|s| + 1..] == HostSeen(e, host);
  }

  /**
   Any accepted configurations are registered, some route of subdomain s would serve the request's user and
   path, and best answers a request for s.
   */
  ghost predicate Answered<P>(e: Entry, table: set<Route<P>>, origin: map<Route<P>, Origin>, s: string, host: string,
                              req: Request, mine: Route<P>, best: Route<P>)
  {
    && (forall r :: r in table ==> r in origin && Accepted(origin[r], host) && r.key.domain == DomainOf(origin[r], host))
    && req.host == HostSeen(e, FullName(s, host))
    && mine in table && origin[mine] == Sub(s)
    && (mine.key.user == req.user || mine.key.user == "") && mine.key.location <= req.path
    && IsBest(table, req, best)
  }

  lemma SubdomainAnswers<P>(e: Entry, table: set<Route<P>>, origin: map<Route<P>, Origin>, s: string, host: string,
                            req: Request, mine: Route<P>, best: Route<P>)
    requires Answered(e, table, origin, s, host, req, mine, best)
    requires HostSeen(e, FullName(s, host)) == FullName(s, host)
    ensures origin[best] == Sub(s)
  {
    assert mine.key.domain == req.host;
    assert DomainLevel(req.host, mine.key.domain) == 0;
    LevelNamesDomain(req.host, best.key.domain);
    assert best == mine || Better(req, best, mine);
    assert DomainLevel(req.host, best.key.domain) == 0;
    match origin[best] {
      case Custom(d) => CustomDomainsStayOutside(d, s, host);
      case Sub(t) => FullNameInjective(s, t, host);
    }
  }

  ghost predicate AlwaysAnswersItself(e: Entry, s: string, host: string)
  {
    forall table: set<Route<nat>>, origin, req, mine, best ::
      Answered(e, table, origin, s, host, req, mine, best) ==> origin[best] == Sub(s)
  }

  /**
   Whatever accepted configurations are registered, every answer to a request for subdomain s comes from a
   route that s registered, if and only if s and the subdomain host are spelt the way requests arrive.
   */
  lemma SubdomainAnswersItselfIff(e: Entry, s: string, host: string)
    requires s != "" && SubdomainAllowed(s, host)
    ensures AlwaysAnswersItself(e, s, host) <==> Lower(s) == s && HostSeen(e, host) == host
  {
    OwnRouteFoundIff(e, s, host);
    if HostSeen(e, FullName(s, host)) == FullName(s, host) {
      forall table: set<Route<nat>>, origin, req, mine, best | Answered(e, table, origin, s, host, req, mine, best)
        ensures origin[best] == Sub(s)
      {
        SubdomainAnswers(e, table, origin, s, host, req, mine, best);
      }
    } else {
      var other := Rival(e, s, host);
      RivalAnswers(e, s, host, other);
    }
  }

  /** Someone else who may register the name that requests for s arrive as. */
  lemma Rival(e: Entry, s: string, host: string) returns (other: Origin)
    requires s != "" && SubdomainAllowed(s, host) && HostSeen(e, FullName(s, host)) != FullName(s, host)
    ensures other != Sub(s) && Accepted(other, host) && DomainOf(other, host) == HostSeen(e, FullName(s, host))
  {
    if HostSeen(e, host) != host {
      other := Custom(HostSeen(e, FullName(s, host)));
      SeenIsAccepted(e, s, host);
    } else {
      other := Sub(Lower(s));
      SeenInParts(e, s, host);
      LowerIsAllowed(s, host);
    }
  }

  lemma RivalAnswers(e: Entry, s: string, host: string, other: Origin)
    requires s != "" && SubdomainAllowed(s, host) && HostSeen(e, FullName(s, host)) != FullName(s, host)
    requires other != Sub(s) && Accepted(other, host) && DomainOf(other, host) == HostSeen(e, FullName(s, host))
    ensures !AlwaysAnswersItself(e, s, host)
  {
    var seen := HostSeen(e, FullName(s, host));
    var mine, best: Route<nat> := Route(Key(FullName(s, host), "", ""), 0), Route(Key(seen, "", ""), 1);
    var origin: map<Route<nat>, Origin> := map[mine := Sub(s), best := other];
    var req := Request(seen, "", "");
    OwnRouteFoundIff(e, s, host);
    assert !Matches(req, mine) && Matches(req, best);
    assert IsBest({mine, best}, req, best);
    assert Answered(e, {mine, best}, origin, s, host, req, mine, best);
  }

  // ----- what the check refuses, exactly

  function Dots(s: string): nat
  {
    if s == "" then 0 else (if s[0] == '.' then 1 else 0) + Dots(s[1..])
  }

  lemma {:induction false} LabelsAreDots(s: string)
    ensures |Split(s, '.')| == Dots(s) + 1
  {
    if s != "" {
      LabelsAreDots(s[1..]);
    }
  }

  lemma {:induction false} DotsAdd(s: string, t: string)
    ensures Dots(s + t) == Dots(s) + Dots(t)
  {
    if s == "" {
      assert s + t == t;
    } else {
      assert (s + t)[1..] == s[1..] + t;
      DotsAdd(s[1..], t);
    }
  }

  lemma {:induction false} SomeDots(s: string)
    ensures Dots(s) > 0 <==> '.' in s
  {
    if s != "" {
      SomeDots(s[1..]);
    }
  }

  /** The text of host stands somewhere in d, with a dot before or after it. */
  ghost predicate DottedAround(d: string, host: string)
  {
    exists pre, post :: Around(d, pre, host, post)
  }

  predicate Around(d: string, pre: string, host: string, post: string)
  {
    d == pre + host + post && ('.' in pre || '.' in post)
  }

  lemma {:induction false} ContainsMeans(s: string, sub: string) returns (pre: string, post: string)
    requires Contains(s, sub)
    ensures s == pre + sub + post
  {
    if sub <= s {
      pre, post := "", s[|sub|..];
    } else {
      pre, post := ContainsMeans(s[1..], sub);
      pre := [s[0]] + pre;
    }
  }

  lemma {:induction false} ContainsBetween(pre: string, sub: string, post: string)
    ensures Contains(pre + sub + post, sub)
  {
    var s := pre + sub + post;
    if pre == "" {
      assert s == sub + post;
    } else {
      assert s[1..] == pre[1..] + sub + post;
      ContainsBetween(pre[1..], sub, post);
    }
  }

  lemma LabelsAround(pre: string, host: string, post: string)
    ensures |Split(host, '.')| < |Split(pre + host + post, '.')| <==> '.' in pre || '.' in post
  {
    LabelsAreDots(host);
    LabelsAreDots(pre + host + post);
    DotsAdd(pre + host, post);
    DotsAdd(pre, host);
    SomeDots(pre);
    SomeDots(post);
  }

  /** A custom domain is refused exactly if it has the text of the subdomain host in it, with a dot before or after. */
  lemma ReservedIff(d: string, host: string)
    ensures Reserved(d, host) <==> host != "" && DottedAround(d, host)
  {
    if Reserved(d, host) {
      var pre, post := ContainsMeans(d, host);
      LabelsAround(pre, host, post);
      assert Around(d, pre, host, post);
    }
    if host != "" && DottedAround(d, host) {
      var pre, post :| Around(d, pre, host, post);
      LabelsAround(pre, host, post);
      ContainsBetween(pre, host, post);
    }
  }

  /** The domains that lie below the subdomain host. */
  ghost predicate Under(d: string, host: string)
  {
    exists head :: d == head + "." + host
  }

  predicate EndsBelow(d: string, host: string)
  {
    |d| > |host| && d[|d| - |host| - 1..] == "." + host
  }

  lemma UnderIff(d: string, host: string)
    ensures Under(d, host) <==> EndsBelow(d, host)
  {
    if EndsBelow(d, host) {
      var head := d[..|d| - |host| - 1];
      assert d == head + ("." + host) == head + "." + host;
    }
    if Under(d, host) {
      var head :| d == head + "." + host;
      assert d == head + ("." + host);
    }
  }

  /** Everything below the subdomain host is refused, at any depth. */
  lemma UnderIsReserved(d: string, host: string)
    requires host != "" && Under(d, host)
    ensures Reserved(d, host)
  {
    var head :| d == head + "." + host;
    assert d == (head + ".") + host + "";
    assert (head + ".")[|head|] == '.';
    assert Around(d, head + ".", host, "");
    ReservedIff(d, host);
  }

  /** Refused although it does not lie below the subdomain host. */
  ghost predicate WronglyRefused(d: string, host: string)
  {
    Reserved(d, host) && !Under(d, host)
  }

  /** The wrong refusals, exactly: the text with a dot around it, in a domain that does not end in a dot and that text. */
  lemma WronglyRefusedIff(d: string, host: string)
    ensures WronglyRefused(d, host) <==>
      host != "" && DottedAround(d, host) && !EndsBelow(d, host)
  {
    ReservedIff(d, host);
    UnderIff(d, host);
  }

  /** A label glued in front of the subdomain host. */
  lemma GluedIsWronglyRefused(head: string, x: char, host: string)
    requires host != "" && x != '.'
    ensures WronglyRefused(head + "." + ([x] + host), host)
  {
    var d := head + "." + ([x] + host);
    assert d == (head + "." + [x]) + host + "";
    assert (head + "." + [x])[|head|] == '.';
    assert Around(d, head + "." + [x], host, "");
    assert d[|d| - |host| - 1] == x;
    WronglyRefusedIff(d, host);
  }

  /** A label behind the subdomain host: refused always, and wrongly unless the whole happens to end below it again. */
  lemma FollowedIsRefused(pre: string, host: string, post: string)
    requires host != ""
    ensures var d := pre + host + ("." + post); Reserved(d, host) && (WronglyRefused(d, host) <==> !EndsBelow(d, host))
  {
    var d := pre + host + ("." + post);
    assert ("." + post)[0] == '.';
    assert Around(d, pre, host, "." + post);
    WronglyRefusedIff(d, host);
    ReservedIff(d, host);
  }

  /** A domain that has the subdomain host in the middle, and not even as a suffix. */
  lemma RefusedInTheMiddle()
    ensures WronglyRefused("a.b.c.d", "b.c")
  {
    FollowedIsRefused("a.", "b.c", "d");
    assert "a." + "b.c" + ("." + "d") == "a.b.c.d";
    assert !EndsBelow("a.b.c.d", "b.c") by { assert "a.b.c.d"[3..][0] == '.' && "a.b.c.d"[3..][1] == 'c'; }
  }

  /** The check refuses only what lies below the subdomain host if and only if there is no subdomain host. */
  lemma RefusesOnlyNamespaceIff(host: string)
    ensures (forall d :: Reserved(d, host) ==> Under(d, host)) <==> host == ""
  {
    if host != "" {
      GluedIsWronglyRefused("a", 'x', host);
      var d := "a" + "." + (['x'] + host);
      assert Reserved(d, host) && !Under(d, host);
    }
  }
}

/**
 The virtual-host routing table (pkg/util/vhost/router.go): a two-level index,
 domain then HTTP user, whose leaves are lists of routes kept in descending
 lexicographic order of their location.

 The abstract value of the table is the flat set of its routes.
 */
module Routers {
  import opened Text
  import opened Wrappers

  datatype Key = Key(domain: string, location: string, user: string)

  datatype Route<P> = Route(key: Key, payload: P)

  type Index<P> = map<string, map<string, seq<Route<P>>>>

  /** ByLocation.Less, reversed: strictly descending locations, hence no two alike. */
  ghost predicate Descending<P>(routes: seq<Route<P>>)
  {
    forall i, j :: 0 <= i < j < |routes| ==> Less(routes[j].key.location, routes[i].key.location)
  }

  ghost predicate LeafValid<P>(routes: seq<Route<P>>, domain: string, user: string)
  {
    && Descending(routes)
    && forall i :: 0 <= i < |routes| ==> routes[i].key.domain == domain && routes[i].key.user == user
  }

  ghost predicate IndexValid<P>(index: Index<P>)
  {
    forall d, u :: d in index && u in index[d] ==> LeafValid(index[d][u], d, u)
  }

  /** The flat set of registered routes. */
  ghost function Flat<P>(index: Index<P>): set<Route<P>>
  {
    set d, u, r | d in index && u in index[d] && r in index[d][u] :: r
  }

  ghost predicate Registered<P>(flat: set<Route<P>>, key: Key)
  {
    exists r :: r in flat && r.key == key
  }

  ghost function WithoutKey<P>(flat: set<Route<P>>, key: Key): set<Route<P>>
  {
    set r | r in flat && r.key != key
  }

  /** No two registered routes share a key. */
  lemma KeysUnique<P>(index: Index<P>)
    requires IndexValid(index)
    ensures forall r, s :: r in Flat(index) && s in Flat(index) && r.key == s.key ==> r == s
  {
    forall r, s | r in Flat(index) && s in Flat(index) && r.key == s.key
      ensures r == s
    {
      InLeaf(index, r);
      InLeaf(index, s);
      var leaf := index[r.key.domain][r.key.user];
      var i :| 0 <= i < |leaf| && leaf[i] == r;
      var j :| 0 <= j < |leaf| && leaf[j] == s;
      LessTotal(r.key.location, s.key.location);
    }
  }

  /** A registered route sits in the leaf its key names. */
  lemma InLeaf<P>(index: Index<P>, r: Route<P>)
    requires IndexValid(index)
    requires r in Flat(index)
    ensures r.key.domain in index && r.key.user in index[r.key.domain]
    ensures r in index[r.key.domain][r.key.user]
  {
    var d, u :| d in index && u in index[d] && r in index[d][u];
    assert LeafValid(index[d][u], d, u);
  }

  lemma LeafInFlat<P>(index: Index<P>, d: string, u: string, r: Route<P>)
    requires d in index && u in index[d] && r in index[d][u]
    ensures r in Flat(index)
  {
  }

  /** Sorting in the reversed ByLocation order, one insertion at a time. */
  function Insert<P>(r: Route<P>, routes: seq<Route<P>>): (out: seq<Route<P>>)
  {
    if routes == [] then [r]
    else if Less(r.key.location, routes[0].key.location) then [routes[0]] + Insert(r, routes[1..])
    else [r] + routes
  }

  function SortDescending<P>(routes: seq<Route<P>>): (out: seq<Route<P>>)
  {
    if routes == [] then []
    else
      var n := |routes| - 1;
      Insert(routes[n], SortDescending(routes[..n]))
  }

  lemma {:induction false} InsertAdds<P>(r: Route<P>, routes: seq<Route<P>>)
    ensures multiset(Insert(r, routes)) == multiset(routes) + multiset{r}
  {
    if routes != [] && Less(r.key.location, routes[0].key.location) {
      InsertAdds(r, routes[1..]);
      assert routes == [routes[0]] + routes[1..];
    }
  }

  lemma {:induction false} SortPermutes<P>(routes: seq<Route<P>>)
    ensures multiset(SortDescending(routes)) == multiset(routes)
  {
    if routes != [] {
      var n := |routes| - 1;
      assert routes == routes[..n] + [routes[n]];
      SortPermutes(routes[..n]);
      InsertAdds(routes[n], SortDescending(routes[..n]));
    }
  }

  lemma SameElements<P>(a: seq<Route<P>>, b: seq<Route<P>>)
    requires multiset(a) == multiset(b)
    ensures forall r :: r in a <==> r in b
    ensures forall i :: 0 <= i < |a| ==> a[i] in b
  {
    forall i | 0 <= i < |a| ensures a[i] in b {
      assert a[i] in multiset(a);
    }
    forall r ensures r in a <==> r in b {
      assert r in a <==> r in multiset(a);
      assert r in b <==> r in multiset(b);
    }
  }

  lemma InsertInFront<P>(r: Route<P>, routes: seq<Route<P>>)
    requires Descending(routes) && routes != [] && Less(routes[0].key.location, r.key.location)
    ensures Descending([r] + routes)
  {
    forall j | 0 <= j < |routes| ensures Less(routes[j].key.location, r.key.location) {
      if j > 0 {
        LessTransitive(routes[j].key.location, routes[0].key.location, r.key.location);
      }
    }
  }

  lemma BehindDescending<P>(head: Route<P>, tail: seq<Route<P>>)
    requires Descending(tail) && forall x :: x in tail ==> Less(x.key.location, head.key.location)
    ensures Descending([head] + tail)
  {
  }

  lemma {:induction false} InsertStaysBelow<P>(r: Route<P>, routes: seq<Route<P>>, bound: string)
    requires Less(r.key.location, bound) && forall x :: x in routes ==> Less(x.key.location, bound)
    ensures forall x :: x in Insert(r, routes) ==> Less(x.key.location, bound)
  {
    if routes != [] && Less(r.key.location, routes[0].key.location) {
      InsertStaysBelow(r, routes[1..], bound);
    }
  }

  lemma DescendingTail<P>(routes: seq<Route<P>>)
    requires Descending(routes) && routes != []
    ensures Descending(routes[1..])
    ensures forall x :: x in routes[1..] ==> Less(x.key.location, routes[0].key.location)
  {
  }

  lemma {:induction false} InsertDescending<P>(r: Route<P>, routes: seq<Route<P>>)
    requires Descending(routes)
    requires forall i :: 0 <= i < |routes| ==> routes[i].key.location != r.key.location
    ensures Descending(Insert(r, routes))
  {
    if routes != [] {
      LessTotal(r.key.location, routes[0].key.location);
      if Less(r.key.location, routes[0].key.location) {
        DescendingTail(routes);
        InsertDescending(r, routes[1..]);
        InsertStaysBelow(r, routes[1..], routes[0].key.location);
        BehindDescending(routes[0], Insert(r, routes[1..]));
      } else {
        InsertInFront(r, routes);
      }
    }
  }

  lemma DescendingPrefix<P>(routes: seq<Route<P>>, n: nat)
    requires Descending(routes) && n < |routes|
    ensures Descending(routes[..n])
    ensures forall i :: 0 <= i < n ==> Less(routes[n].key.location, routes[..n][i].key.location)
  {
  }

  /** A list already in order is left alone by sorting. */
  lemma {:induction false} SortOfDescending<P>(routes: seq<Route<P>>)
    requires Descending(routes)
    ensures SortDescending(routes) == routes
  {
    if routes != [] {
      var n := |routes| - 1;
      DescendingPrefix(routes, n);
      SortOfDescending(routes[..n]);
      InsertLast(routes[n], routes[..n]);
      assert routes == routes[..n] + [routes[n]];
    }
  }

  lemma {:induction false} InsertLast<P>(r: Route<P>, routes: seq<Route<P>>)
    requires forall i :: 0 <= i < |routes| ==> Less(r.key.location, routes[i].key.location)
    ensures Insert(r, routes) == routes + [r]
  {
    if routes != [] {
      InsertLast(r, routes[1..]);
      assert routes == [routes[0]] + routes[1..];
    }
  }

  /** What Add computes for one leaf: append, then sort. */
  lemma SortAppended<P>(routes: seq<Route<P>>, r: Route<P>)
    requires Descending(routes)
    requires forall i :: 0 <= i < |routes| ==> routes[i].key.location != r.key.location
    ensures Descending(SortDescending(routes + [r]))
    ensures forall x :: x in SortDescending(routes + [r]) <==> x in routes || x == r
    ensures forall i :: 0 <= i < |SortDescending(routes + [r])| ==>
              SortDescending(routes + [r])[i] in routes || SortDescending(routes + [r])[i] == r
  {
    assert (routes + [r])[..|routes|] == routes;
    SortOfDescending(routes);
    InsertDescending(r, routes);
    SortPermutes(routes + [r]);
    SameElements(SortDescending(routes + [r]), routes + [r]);
  }

  lemma SortedLeaf<P>(routes: seq<Route<P>>, r: Route<P>)
    requires LeafValid(routes, r.key.domain, r.key.user)
    requires forall i :: 0 <= i < |routes| ==> routes[i].key.location != r.key.location
    ensures LeafValid(SortDescending(routes + [r]), r.key.domain, r.key.user)
    ensures forall x :: x in SortDescending(routes + [r]) <==> x in routes || x == r
  {
    SortAppended(routes, r);
  }

  class Routers<P(==)> {
    var indexByDomain: Index<P>
    ghost var table: set<Route<P>>  // the registered routes

    ghost predicate Valid()
      reads this
    {
      IndexValid(indexByDomain) && table == Flat(indexByDomain)
    }

    constructor ()
      ensures Valid() && table == {}
    {
      indexByDomain := map[];
      table := {};
    }

    /** No two registered routes share a key. */
    lemma UniqueKeys()
      requires Valid()
      ensures forall r, s :: r in table && s in table && r.key == s.key ==> r == s
    {
      KeysUnique(indexByDomain);
    }

    method Exist(key: Key) returns (exist: bool)
      requires Valid()
      ensures exist <==> Registered(table, key)
    {
      if key.domain !in indexByDomain || key.user !in indexByDomain[key.domain] {
        forall r | r in table ensures r.key != key { InLeaf(indexByDomain, r); }
        return false;
      }
      var routes := indexByDomain[key.domain][key.user];
      for i := 0 to |routes|
        invariant forall j :: 0 <= j < i ==> routes[j].key.location != key.location
      {
        if key.location == routes[i].key.location {
          assert LeafValid(routes, key.domain, key.user);
          LeafInFlat(indexByDomain, key.domain, key.user, routes[i]);
          return true;
        }
      }
      forall r | r in table ensures r.key != key {
        InLeaf(indexByDomain, r);
      }
      return false;
    }

    method Add(key: Key, payload: P) returns (conflict: bool)
      requires Valid()
      modifies this
      ensures Valid()
      ensures conflict <==> Registered(old(table), key)
      ensures table == if conflict then old(table) else old(table) + {Route(key, payload)}
    {
      conflict := Exist(key);
      if conflict { return; }
      var byUser := if key.domain in indexByDomain then indexByDomain[key.domain] else map[];
      var routes := if key.user in byUser then byUser[key.user] else [];
      var sorted := SortDescending(routes + [Route(key, payload)]);
      assert sorted == SortDescending(Leaf(indexByDomain, key.domain, key.user) + [Route(key, payload)]);
      FreshLeaf(indexByDomain, Route(key, payload));
      AddToLeaf(indexByDomain, Route(key, payload), sorted);
      indexByDomain := indexByDomain[key.domain := byUser[key.user := sorted]];
      table := table + {Route(key, payload)};
    }

    method Del(key: Key)
      requires Valid()
      modifies this
      ensures Valid()
      ensures table == WithoutKey(old(table), key)
    {
      if key.domain !in indexByDomain || key.user !in indexByDomain[key.domain] {
        forall r | r in table ensures r.key != key { InLeaf(indexByDomain, r); }
        assert table == WithoutKey(table, key);
        return;
      }
      var routes := indexByDomain[key.domain][key.user];
      assert LeafValid(routes, key.domain, key.user);
      var kept: seq<Route<P>> := [];
      ghost var from: seq<int> := [];
      for i := 0 to |routes|
        invariant |kept| == |from|
        invariant forall k :: 0 <= k < |from| ==> 0 <= from[k] < i && kept[k] == routes[from[k]]
        invariant forall k, l :: 0 <= k < l < |from| ==> from[k] < from[l]
        invariant forall r :: r in kept <==> r in routes[..i] && r.key.location != key.location
      {
        assert routes[..i + 1] == routes[..i] + [routes[i]];
        if routes[i].key.location != key.location {
          kept := kept + [routes[i]];
          from := from + [i];
        }
      }
      assert routes[..|routes|] == routes;
      DropFromLeaf(indexByDomain, key, kept);
      indexByDomain := indexByDomain[key.domain := indexByDomain[key.domain][key.user := kept]];
      table := WithoutKey(table, key);
    }

    method Get(host: string, path: string, user: string) returns (res: Option<Route<P>>)
      requires Valid()
      ensures res.Some? ==> LongestIn(table, host, path, user, res.value)
      ensures res.None? ==> forall r :: r in table && r.key.domain == host && r.key.user == user ==> !(r.key.location <= path)
    {
      if host !in indexByDomain || user !in indexByDomain[host] {
        forall r | r in table ensures !(r.key.domain == host && r.key.user == user) {
          InLeaf(indexByDomain, r);
        }
        return None;
      }
      var routes := indexByDomain[host][user];
      assert LeafValid(routes, host, user);
      for i := 0 to |routes|
        invariant forall j :: 0 <= j < i ==> !(routes[j].key.location <= path)
      {
        if routes[i].key.location <= path {
          FirstPrefixIsLongest(indexByDomain, host, path, user, i);
          return Some(routes[i]);
        }
      }
      forall r | r in table && r.key.domain == host && r.key.user == user ensures !(r.key.location <= path) {
        InLeaf(indexByDomain, r);
      }
      return None;
    }
  }

  /** r answers an exact (host, user) query: its location is the longest registered prefix of path. */
  ghost predicate LongestIn<P>(flat: set<Route<P>>, host: string, path: string, user: string, r: Route<P>)
  {
    && r in flat && r.key.domain == host && r.key.user == user && r.key.location <= path
    && forall o :: o in flat && o.key.domain == host && o.key.user == user && o.key.location <= path && o != r
                   ==> |o.key.location| < |r.key.location|
  }

  /** In a descending leaf the first location that is a prefix of the path is the longest such one. */
  lemma FirstPrefixIsLongest<P>(index: Index<P>, host: string, path: string, user: string, i: nat)
    requires IndexValid(index)
    requires host in index && user in index[host] && i < |index[host][user]|
    requires index[host][user][i].key.location <= path
    requires forall j :: 0 <= j < i ==> !(index[host][user][j].key.location <= path)
    ensures LongestIn(Flat(index), host, path, user, index[host][user][i])
  {
    var routes := index[host][user];
    var r := routes[i];
    assert LeafValid(routes, host, user);
    LeafInFlat(index, host, user, r);
    forall o | o in Flat(index) && o.key.domain == host && o.key.user == user && o.key.location <= path && o != r
      ensures |o.key.location| < |r.key.location|
    {
      InLeaf(index, o);
      var j :| 0 <= j < |routes| && routes[j] == o;
      assert j > i;
      assert Less(o.key.location, r.key.location);
      if |r.key.location| <= |o.key.location| {
        assert r.key.location == path[..|r.key.location|] && o.key.location == path[..|o.key.location|];
        assert r.key.location <= o.key.location;
        LessTotal(r.key.location, o.key.location);
        if r.key.location != o.key.location {
          PrefixIsLess(r.key.location, o.key.location);
        }
      }
    }
  }

  function ByUser<P>(index: Index<P>, d: string): map<string, seq<Route<P>>>
  {
    if d in index then index[d] else map[]
  }

  function Leaf<P>(index: Index<P>, d: string, u: string): seq<Route<P>>
  {
    if u in ByUser(index, d) then ByUser(index, d)[u] else []
  }

  function SetLeaf<P>(index: Index<P>, d: string, u: string, routes: seq<Route<P>>): Index<P>
  {
    index[d := ByUser(index, d)[u := routes]]
  }

  /** Replacing one leaf changes the flat set by exactly that leaf's routes. */
  lemma ReplaceLeaf<P>(index: Index<P>, d: string, u: string, routes: seq<Route<P>>)
    requires IndexValid(index)
    requires LeafValid(routes, d, u)
    ensures IndexValid(SetLeaf(index, d, u, routes))
    ensures forall r :: r in Flat(SetLeaf(index, d, u, routes)) <==> r in routes || (r in Flat(index) && r !in Leaf(index, d, u))
  {
    var index' := SetLeaf(index, d, u, routes);
    forall r | r in Flat(index') ensures r in routes || (r in Flat(index) && r !in Leaf(index, d, u)) {
      InLeaf(index', r);
      if r.key.domain != d || r.key.user != u {
        LeafInFlat(index, r.key.domain, r.key.user, r);
      }
    }
    forall r | r in routes || (r in Flat(index) && r !in Leaf(index, d, u)) ensures r in Flat(index') {
      if r in routes {
        LeafInFlat(index', d, u, r);
      } else {
        InLeaf(index, r);
        LeafInFlat(index', r.key.domain, r.key.user, r);
      }
    }
  }

  /** A leaf that gains one fresh route adds exactly that route to the flat set. */
  lemma AddToLeaf<P>(index: Index<P>, r: Route<P>, routes: seq<Route<P>>)
    requires IndexValid(index)
    requires LeafValid(routes, r.key.domain, r.key.user)
    requires forall x :: x in routes <==> x in Leaf(index, r.key.domain, r.key.user) || x == r
    ensures var index' := SetLeaf(index, r.key.domain, r.key.user, routes);
            IndexValid(index') && Flat(index') == Flat(index) + {r}
  {
    ReplaceLeaf(index, r.key.domain, r.key.user, routes);
    forall x | x in Leaf(index, r.key.domain, r.key.user) ensures x in Flat(index) {
      LeafInFlat(index, r.key.domain, r.key.user, x);
    }
  }

  lemma FreshLeaf<P>(index: Index<P>, r: Route<P>)
    requires IndexValid(index)
    requires !Registered(Flat(index), r.key)
    ensures var leaf := Leaf(index, r.key.domain, r.key.user);
            var routes := SortDescending(leaf + [r]);
            && LeafValid(routes, r.key.domain, r.key.user)
            && forall x :: x in routes <==> x in leaf || x == r
  {
    var leaf := Leaf(index, r.key.domain, r.key.user);
    forall i | 0 <= i < |leaf| ensures leaf[i].key.location != r.key.location {
      LeafInFlat(index, r.key.domain, r.key.user, leaf[i]);
    }
    SortedLeaf(leaf, r);
  }

  /** Keeping the other locations of a leaf removes exactly the route with that key. */
  lemma DropFromLeaf<P>(index: Index<P>, key: Key, kept: seq<Route<P>>)
    requires IndexValid(index)
    requires LeafValid(kept, key.domain, key.user)
    requires forall r :: r in kept <==> r in Leaf(index, key.domain, key.user) && r.key.location != key.location
    ensures var index' := SetLeaf(index, key.domain, key.user, kept);
            IndexValid(index') && Flat(index') == WithoutKey(Flat(index), key)
  {
    var index' := SetLeaf(index, key.domain, key.user, kept);
    ReplaceLeaf(index, key.domain, key.user, kept);
    forall r | r in Flat(index) ensures r in Flat(index') <==> r.key != key {
      InLeaf(index, r);
    }
    forall r | r in Flat(index') ensures r in Flat(index) {
      InLeaf(index', r);
      if r in kept { LeafInFlat(index, key.domain, key.user, r); }
    }
  }
}

/** What the entries of a listener tell about its routes: they fall into one block for each route, and the blocks can
    be read off them. */
module XdsBlocks {
  import opened Wrappers
  import opened XdsDocuments
  import opened XdsListeners

  // ---------- login entries ----------

  predicate IsAuth(e: Entry) {
    e.Login? || e.Logout?
  }

  predicate AllAuth(es: seq<Entry>) {
    forall e :: e in es ==> IsAuth(e)
  }

  predicate EndsPlain(es: seq<Entry>) {
    es != [] && !IsAuth(es[|es| - 1])
  }

  lemma LastTellsEmpty(a: seq<Entry>, x: seq<Entry>)
    requires EndsPlain(a) && AllAuth(x)
    ensures IsAuth((a + x)[|a + x| - 1]) <==> x != []
  {
    if x != [] {
      assert x[|x| - 1] in x;
    }
  }

  /** Where a plain entry is followed by login entries only is determined. */
  lemma {:induction false} SplitAtAuth(a: seq<Entry>, x: seq<Entry>, b: seq<Entry>, y: seq<Entry>)
    requires EndsPlain(a) && EndsPlain(b) && AllAuth(x) && AllAuth(y) && a + x == b + y
    ensures a == b && x == y
    decreases |x|
  {
    LastTellsEmpty(a, x);
    LastTellsEmpty(b, y);
    if x == [] {
      assert a + x == a && b + y == b;
    } else {
      var p, q := x[..|x| - 1], y[..|y| - 1];
      assert a + p == (a + x)[..|a + x| - 1] && b + q == (b + y)[..|b + y| - 1];
      SplitAtAuth(a, p, b, q);
      assert x == p + [(a + x)[|a + x| - 1]] && y == q + [(b + y)[|b + y| - 1]];
    }
  }

  /** So a block, login entries and then a plain one, can be split off. */
  lemma SplitBlock(a: seq<Entry>, x: seq<Entry>, m: Entry, b: seq<Entry>, y: seq<Entry>, n: Entry)
    requires EndsPlain(a) && EndsPlain(b) && AllAuth(x) && AllAuth(y) && a + (x + [m]) == b + (y + [n])
    ensures a == b && x == y && m == n
  {
    var p, q := a + (x + [m]), b + (y + [n]);
    assert p[..|p| - 1] == a + x && p[|p| - 1] == m;
    assert q[..|q| - 1] == b + y && q[|q| - 1] == n;
    SplitAtAuth(a, x, b, y);
  }

  lemma LoginsAreAuth(t: Tables, r: Route, g: Option<string>)
    requires Consistent(t) && r.cluster in t.clusters
    ensures AllAuth(LoginLogout(t, r, g))
  {
  }

  // ---------- routes with entries ----------

  /** The routes of the order that have entries. */
  function Served(t: Tables, order: seq<nat>): seq<nat>
    requires forall r :: r in order ==> r in t.routes
  {
    if order == [] then []
    else
      var last := order[|order| - 1];
      Served(t, order[..|order| - 1]) + if HasEntries(t.routes[last]) then [last] else []
  }

  predicate AllServed(t: Tables, order: seq<nat>) {
    forall r :: r in order ==> r in t.routes && HasEntries(t.routes[r])
  }

  lemma {:induction false} ServedIs(t: Tables, order: seq<nat>)
    requires forall r :: r in order ==> r in t.routes
    ensures forall r :: r in Served(t, order) <==> r in order && HasEntries(t.routes[r])
    decreases |order|
  {
    if order != [] {
      var init, last := order[..|order| - 1], order[|order| - 1];
      ServedIs(t, init);
      assert order == init + [last];
    }
  }

  lemma {:induction false} ServedEntries(t: Tables, order: seq<nat>, g: Option<string>)
    requires Consistent(t) && forall r :: r in order ==> r in t.routes
    ensures AllServed(t, Served(t, order))
    ensures AllRouteEntries(t, Served(t, order), g) == AllRouteEntries(t, order, g)
    decreases |order|
  {
    if order != [] {
      var init, last := order[..|order| - 1], order[|order| - 1];
      ServedEntries(t, init, g);
      if HasEntries(t.routes[last]) {
        LastEntries(t, Served(t, init), last, g);
      } else {
        assert Served(t, order) == Served(t, init);
      }
    }
  }

  lemma LastEntries(t: Tables, init: seq<nat>, last: nat, g: Option<string>)
    requires Consistent(t) && last in t.routes && forall r :: r in init ==> r in t.routes
    ensures AllRouteEntries(t, init + [last], g)
            == AllRouteEntries(t, init, g) + RouteEntries(t, t.routes[last], g)
  {
    assert (init + [last])[..|init + [last]| - 1] == init;
  }

  // ---------- blocks ----------

  /** What comes before the blocks: it is not empty, has no entry of a route, and does not end in a login entry. */
  predicate IsHead(es: seq<Entry>) {
    EndsPlain(es) && forall e :: e in es ==> !e.Main?
  }

  function Head(t: Tables, p: nat, order: seq<nat>): seq<Entry>
    requires p in t.ports && forall r :: r in order ==> r in t.routes
  {
    [Up] + (if t.ports[p].isApiPort then Redirects(t, order) else [])
  }

  lemma HeadIsHead(t: Tables, p: nat, order: seq<nat>)
    requires p in t.ports && forall r :: r in order ==> r in t.routes
    ensures IsHead(Head(t, p, order))
  {
    RedirectsAreGood(t, order);
    var redirects := Redirects(t, order);
    if redirects != [] {
      assert redirects[|redirects| - 1] in redirects;
    }
  }

  lemma LastBlock(head: seq<Entry>, t: Tables, order: seq<nat>, g: Option<string>)
    requires Consistent(t) && order != [] && AllServed(t, order)
    ensures var last := t.routes[order[|order| - 1]];
            head + AllRouteEntries(t, order, g)
            == (head + AllRouteEntries(t, order[..|order| - 1], g)) + (LoginLogout(t, last, g) + [MainEntry(t, last)])
  {
  }

  lemma LastTellsRoutes(head: seq<Entry>, t: Tables, order: seq<nat>, g: Option<string>)
    requires IsHead(head) && Consistent(t) && AllServed(t, order)
    ensures var es := head + AllRouteEntries(t, order, g);
            EndsPlain(es) && (es[|es| - 1].Main? <==> order != [])
  {
    if order == [] {
      assert head + AllRouteEntries(t, order, g) == head;
      assert head[|head| - 1] in head;
    } else {
      LastBlock(head, t, order, g);
    }
  }

  /** Equal entries have equal heads and equal blocks, one by one. */
  lemma {:induction false} SameBlocks(ha: seq<Entry>, t: Tables, a: seq<nat>, g: Option<string>, hb: seq<Entry>,
      u: Tables, b: seq<nat>, h: Option<string>)
    requires IsHead(ha) && IsHead(hb) && Consistent(t) && Consistent(u) && AllServed(t, a) && AllServed(u, b)
    requires ha + AllRouteEntries(t, a, g) == hb + AllRouteEntries(u, b, h)
    ensures ha == hb && |a| == |b|
    ensures forall i :: 0 <= i < |a| ==> RouteEntries(t, t.routes[a[i]], g) == RouteEntries(u, u.routes[b[i]], h)
    decreases |a|
  {
    LastTellsRoutes(ha, t, a, g);
    LastTellsRoutes(hb, u, b, h);
    if a == [] {
      assert ha + AllRouteEntries(t, a, g) == ha && hb + AllRouteEntries(u, b, h) == hb;
    } else {
      var c, d := a[..|a| - 1], b[..|b| - 1];
      DropBlock(ha, t, a, g, hb, u, b, h);
      SameBlocks(ha, t, c, g, hb, u, d, h);
      forall i | 0 <= i < |a|
        ensures RouteEntries(t, t.routes[a[i]], g) == RouteEntries(u, u.routes[b[i]], h)
      {
        assert i < |a| - 1 ==> a[i] == c[i] && b[i] == d[i];
      }
    }
  }

  lemma DropBlock(ha: seq<Entry>, t: Tables, a: seq<nat>, g: Option<string>, hb: seq<Entry>, u: Tables, b: seq<nat>,
      h: Option<string>)
    requires IsHead(ha) && IsHead(hb) && Consistent(t) && Consistent(u) && AllServed(t, a) && AllServed(u, b)
    requires a != [] && b != [] && ha + AllRouteEntries(t, a, g) == hb + AllRouteEntries(u, b, h)
    ensures ha + AllRouteEntries(t, a[..|a| - 1], g) == hb + AllRouteEntries(u, b[..|b| - 1], h)
    ensures RouteEntries(t, t.routes[a[|a| - 1]], g) == RouteEntries(u, u.routes[b[|b| - 1]], h)
  {
    var c, d := a[..|a| - 1], b[..|b| - 1];
    var x, y := t.routes[a[|a| - 1]], u.routes[b[|b| - 1]];
    LastBlock(ha, t, a, g);
    LastBlock(hb, u, b, h);
    LastTellsRoutes(ha, t, c, g);
    LastTellsRoutes(hb, u, d, h);
    LoginsAreAuth(t, x, g);
    LoginsAreAuth(u, y, h);
    SplitBlock(ha + AllRouteEntries(t, c, g), LoginLogout(t, x, g), MainEntry(t, x),
      hb + AllRouteEntries(u, d, h), LoginLogout(u, y, h), MainEntry(u, y));
  }
}

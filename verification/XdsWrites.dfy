/** Writes whose models send no signal: what a preference or a service type can change in the cached documents of
    aap_gateway_api/views/api/envoy/rest_control_plane.py. */
module XdsWrites {
  import opened Wrappers
  import opened XdsBlocks
  import opened XdsCache
  import opened XdsDocuments
  import opened XdsListeners

  // ---------- writes that do not signal ----------

  /** Raising or lowering a floor from a to b changes nothing for a value of its own. */
  predicate Unmoved(own: nat, a: nat, b: nat) {
    a == b || (a <= own && b <= own)
  }

  lemma UnmovedIff(own: nat, a: nat, b: nat)
    ensures Unmoved(own, a, b) <==> Max(own, a) == Max(own, b)
  {
  }

  function WithPreferences(t: Tables, request: nat, idle: nat): Tables {
    t.(requestTimeout := request, idleTimeout := idle)
  }

  /** Every health-checked cluster in use asks for at least both values itself, or the value is not changed. */
  ghost predicate ClustersUnmoved(t: Tables, request: nat)
    requires Consistent(t)
  {
    forall r :: r in t.routes && t.clusters[t.routes[r].cluster].healthChecks ==>
      Unmoved(OwnTimeout(t, t.routes[r].cluster), t.requestTimeout, request)
  }

  /** The route has entries on a listener. */
  predicate IsServed(t: Tables, r: nat)
    requires r in t.routes
  {
    t.routes[r].httpPort in t.ports && HasEntries(t.routes[r])
  }

  /** The same of the routes on listeners. */
  predicate RoutesUnmoved(t: Tables, request: nat, idle: nat) {
    forall r :: r in t.routes && IsServed(t, r) ==>
      && Unmoved(t.routes[r].requestTimeout, t.requestTimeout, request)
      && Unmoved(t.routes[r].idleTimeout, t.idleTimeout, idle)
  }

  /** The entry of each name still fits its routes. */
  ghost predicate EntriesFit(u: Tables, doc: Cds)
    requires Consistent(u)
  {
    forall r :: r in u.routes ==>
      u.routes[r].envoyClusterName in doc
      && doc[u.routes[r].envoyClusterName].health == HealthOf(u, u.routes[r].cluster)
  }

  lemma HealthNow(t: Tables, doc: Cds, r: nat)
    requires Consistent(t) && AllSaved(t) && IsCds(t, doc) && r in t.routes
    ensures t.routes[r].envoyClusterName in doc
    ensures doc[t.routes[r].envoyClusterName].health == HealthOf(t, t.routes[r].cluster)
  {
    var name := t.routes[r].envoyClusterName;
    assert name in NamesInUse(t);
    var a :| Represents(t, a, name, doc[name]);
    SameClusterForName(t, a, r);
  }

  lemma FittingEntryRepresents(t: Tables, u: Tables, r: nat, name: string, cfg: ClusterConfig)
    requires Consistent(t) && Consistent(u) && u.routes == t.routes && u.clusters == t.clusters && u.nodes == t.nodes
    requires Represents(t, r, name, cfg) && cfg.health == HealthOf(u, t.routes[r].cluster)
    ensures Represents(u, r, name, cfg)
  {
    assert Endpoints(t, t.routes[r]) == Endpoints(u, t.routes[r]);
  }

  lemma SavedStays(t: Tables, u: Tables)
    requires AllSaved(t) && u.routes == t.routes
    ensures AllSaved(u)
  {
    forall r | r in u.routes ensures Saved(u.routes[r]) {
      assert Saved(t.routes[r]);
    }
  }

  /** If nothing but health checks can have changed, a cluster document is still right exactly when these fit. */
  lemma StillRightIff(t: Tables, u: Tables, doc: Cds)
    requires Consistent(t) && Consistent(u) && AllSaved(t) && IsCds(t, doc)
    requires u.routes == t.routes && u.clusters == t.clusters && u.nodes == t.nodes
    ensures IsCds(u, doc) <==> EntriesFit(u, doc)
  {
    if IsCds(u, doc) {
      SavedStays(t, u);
      forall r | r in u.routes
        ensures u.routes[r].envoyClusterName in doc
        ensures doc[u.routes[r].envoyClusterName].health == HealthOf(u, u.routes[r].cluster)
      {
        HealthNow(u, doc, r);
      }
    }
    if EntriesFit(u, doc) {
      assert NamesInUse(u) == NamesInUse(t);
      forall name | name in doc ensures exists r :: Represents(u, r, name, doc[name]) {
        var r :| Represents(t, r, name, doc[name]);
        FittingEntryRepresents(t, u, r, name, doc[name]);
      }
    }
  }

  /** A preference is saved without a signal.  The clusters stay right exactly when no health-checked cluster in
      use moves. */
  lemma PreferenceKeepsClustersIff(t: Tables, request: nat, idle: nat, doc: Cds)
    requires Consistent(t) && AllSaved(t) && IsCds(t, doc)
    ensures IsCds(WithPreferences(t, request, idle), doc) <==> ClustersUnmoved(t, request)
  {
    var u := WithPreferences(t, request, idle);
    StillRightIff(t, u, doc);
    forall r | r in t.routes
      ensures t.routes[r].envoyClusterName in doc
      ensures doc[t.routes[r].envoyClusterName].health == HealthOf(u, t.routes[r].cluster) <==>
              (t.clusters[t.routes[r].cluster].healthChecks ==>
                  Unmoved(OwnTimeout(t, t.routes[r].cluster), t.requestTimeout, request))
    {
      HealthNow(t, doc, r);
      assert OwnTimeout(u, t.routes[r].cluster) == OwnTimeout(t, t.routes[r].cluster);
      UnmovedIff(OwnTimeout(t, t.routes[r].cluster), t.requestTimeout, request);
    }
  }

  lemma {:induction false} EntryOfRoute(t: Tables, order: seq<nat>, gateway: Option<string>, r: nat, e: Entry)
    requires Consistent(t) && (forall x :: x in order ==> x in t.routes) && r in order
    requires e in RouteEntries(t, t.routes[r], gateway)
    ensures e in AllRouteEntries(t, order, gateway)
    decreases |order|
  {
    if r != order[|order| - 1] {
      EntryOfRoute(t, order[..|order| - 1], gateway, r, e);
    }
  }

  lemma {:induction false} MainsAreEffective(t: Tables, order: seq<nat>, gateway: Option<string>, e: Entry)
    requires Consistent(t) && (forall x :: x in order ==> x in t.routes) && e in AllRouteEntries(t, order, gateway)
             && e.Main?
    ensures e.timeout >= t.requestTimeout && e.idleTimeout >= t.idleTimeout
    decreases |order|
  {
    if e !in RouteEntries(t, t.routes[order[|order| - 1]], gateway) {
      MainsAreEffective(t, order[..|order| - 1], gateway, e);
    }
  }

  lemma ListenerTimeouts(t: Tables, p: nat, gateway: Option<string>, entries: seq<Entry>)
    requires Consistent(t) && IsListener(t, p, gateway, entries)
    ensures forall e :: e in entries && e.Main? ==> e.timeout >= t.requestTimeout && e.idleTimeout >= t.idleTimeout
  {
    var order :| IsRouteOrder(t, p, order) && entries == ListenerEntries(t, p, order, gateway);
    RedirectsAreGood(t, order);
    forall e | e in entries && e.Main? ensures e.timeout >= t.requestTimeout && e.idleTimeout >= t.idleTimeout {
      MainsAreEffective(t, order, gateway, e);
    }
  }

  lemma ListenerHasMain(t: Tables, r: nat, gateway: Option<string>, entries: seq<Entry>)
    requires Consistent(t) && r in t.routes && IsServed(t, r) && IsListener(t, t.routes[r].httpPort, gateway, entries)
    ensures MainEntry(t, t.routes[r]) in entries
  {
    var order :| IsRouteOrder(t, t.routes[r].httpPort, order)
        && entries == ListenerEntries(t, t.routes[r].httpPort, order, gateway);
    assert MainEntry(t, t.routes[r]) in RouteEntries(t, t.routes[r], gateway);
    EntryOfRoute(t, order, gateway, r, MainEntry(t, t.routes[r]));
  }

  /** On each listener a served route has its entry, and no entry has a smaller timeout than the preference. */
  lemma ServedEntry(t: Tables, doc: Lds, r: nat)
    requires Consistent(t) && IsLds(t, doc) && r in t.routes && IsServed(t, r)
    ensures t.routes[r].httpPort in doc && MainEntry(t, t.routes[r]) in doc[t.routes[r].httpPort]
    ensures forall e :: e in doc[t.routes[r].httpPort] && e.Main? ==>
            e.timeout >= t.requestTimeout && e.idleTimeout >= t.idleTimeout
  {
    var p := t.routes[r].httpPort;
    ListenerTimeouts(t, p, GatewayName(t), doc[p]);
    ListenerHasMain(t, r, GatewayName(t), doc[p]);
  }

  lemma {:induction false} UnmovedEntries(t: Tables, request: nat, idle: nat, order: seq<nat>, gateway: Option<string>)
    requires Consistent(t) && RoutesUnmoved(t, request, idle)
    requires forall r :: r in order ==> r in t.routes && t.routes[r].httpPort in t.ports
    ensures AllRouteEntries(t, order, gateway) == AllRouteEntries(WithPreferences(t, request, idle), order, gateway)
    decreases |order|
  {
    if order != [] {
      UnmovedEntries(t, request, idle, order[..|order| - 1], gateway);
      var r := order[|order| - 1];
      UnmovedIff(t.routes[r].requestTimeout, t.requestTimeout, request);
      UnmovedIff(t.routes[r].idleTimeout, t.idleTimeout, idle);
    }
  }

  lemma UnmovedListener(t: Tables, request: nat, idle: nat, p: nat, gateway: Option<string>, entries: seq<Entry>)
    requires Consistent(t) && RoutesUnmoved(t, request, idle) && IsListener(t, p, gateway, entries)
    ensures IsListener(WithPreferences(t, request, idle), p, gateway, entries)
  {
    var u := WithPreferences(t, request, idle);
    var order :| IsRouteOrder(t, p, order) && entries == ListenerEntries(t, p, order, gateway);
    UnmovedEntries(t, request, idle, order, gateway);
    RedirectsFrame(t, u, order);
    assert IsRouteOrder(u, p, order);
  }

  lemma FloorsAgree(own: nat, a: nat, b: nat)
    requires Max(own, a) >= b && Max(own, b) >= a
    ensures Unmoved(own, a, b)
  {
  }

  lemma SharedFloors(t: Tables, u: Tables, doc: Lds, r: nat)
    requires Consistent(t) && Consistent(u) && IsLds(t, doc) && IsLds(u, doc)
    requires u.routes == t.routes && u.ports == t.ports && r in t.routes && IsServed(t, r)
    ensures Max(t.routes[r].requestTimeout, t.requestTimeout) >= u.requestTimeout
    ensures Max(t.routes[r].idleTimeout, t.idleTimeout) >= u.idleTimeout
  {
    ServedEntry(t, doc, r);
    ServedEntry(u, doc, r);
    var e := MainEntry(t, t.routes[r]);
    assert e in doc[t.routes[r].httpPort] && e.Main?;
  }

  lemma RightMeansUnmoved(t: Tables, request: nat, idle: nat, doc: Lds, r: nat)
    requires Consistent(t) && IsLds(t, doc) && IsLds(WithPreferences(t, request, idle), doc)
    requires r in t.routes && IsServed(t, r)
    ensures Unmoved(t.routes[r].requestTimeout, t.requestTimeout, request)
            && Unmoved(t.routes[r].idleTimeout, t.idleTimeout, idle)
  {
    var u, route := WithPreferences(t, request, idle), t.routes[r];
    SharedFloors(t, u, doc, r);
    SharedFloors(u, t, doc, r);
    FloorsAgree(route.requestTimeout, t.requestTimeout, request);
    FloorsAgree(route.idleTimeout, t.idleTimeout, idle);
  }

  lemma UnmovedMeansRight(t: Tables, request: nat, idle: nat, doc: Lds)
    requires Consistent(t) && IsLds(t, doc) && RoutesUnmoved(t, request, idle)
    ensures IsLds(WithPreferences(t, request, idle), doc)
  {
    var u := WithPreferences(t, request, idle);
    GatewayNameFrame(t, u);
    forall p | p in doc ensures IsListener(u, p, GatewayName(u), doc[p]) {
      UnmovedListener(t, request, idle, p, GatewayName(t), doc[p]);
    }
  }

  /** A preference write leaves the listeners right exactly when no served route moves. */
  lemma PreferenceKeepsListenersIff(t: Tables, request: nat, idle: nat, doc: Lds)
    requires Consistent(t) && IsLds(t, doc)
    ensures IsLds(WithPreferences(t, request, idle), doc) <==> RoutesUnmoved(t, request, idle)
  {
    if IsLds(WithPreferences(t, request, idle), doc) {
      forall r | r in t.routes && IsServed(t, r)
        ensures Unmoved(t.routes[r].requestTimeout, t.requestTimeout, request)
                && Unmoved(t.routes[r].idleTimeout, t.idleTimeout, idle)
      {
        RightMeansUnmoved(t, request, idle, doc, r);
      }
    }
    if RoutesUnmoved(t, request, idle) {
      UnmovedMeansRight(t, request, idle, doc);
    }
  }

  /** What a preference write does to a coherent cache: it stays coherent exactly when neither cached document
      moves. */
  lemma PreferenceWriteIsHarmlessIff(s: System, request: nat, idle: nat)
    requires Coherent(s)
    ensures var step := Commit({PreferenceModel}, WithPreferences(s.tables, request, idle));
            && Legal(s, step)
            && (Coherent(Apply(s, step)) <==>
                  && (s.cache.cds.Some? ==> ClustersUnmoved(s.tables, request))
                  && (s.cache.lds.Some? ==> RoutesUnmoved(s.tables, request, idle)))
  {
    var after := WithPreferences(s.tables, request, idle);
    assert Invalidate(s.cache, {PreferenceModel}) == s.cache;
    if s.cache.cds.Some? {
      PreferenceKeepsClustersIff(s.tables, request, idle, s.cache.cds.value);
    }
    if s.cache.lds.Some? {
      PreferenceKeepsListenersIff(s.tables, request, idle, s.cache.lds.value);
    }
  }

  /** So a raised request timeout makes any cached document of a served or health-checked route stale. */
  lemma SomePreferenceWriteLeavesStaleEntry(s: System, r: nat) returns (step: Step)
    requires Coherent(s) && r in s.tables.routes
    requires || (s.cache.lds.Some? && IsServed(s.tables, r))
             || (s.cache.cds.Some? && s.tables.clusters[s.tables.routes[r].cluster].healthChecks)
    ensures step.Commit? && step.touched == {PreferenceModel} && Legal(s, step)
    ensures !Coherent(Apply(s, step))
  {
    var t := s.tables;
    var request := Max(Max(t.routes[r].requestTimeout, OwnTimeout(t, t.routes[r].cluster)), t.requestTimeout) + 1;
    step := Commit({PreferenceModel}, WithPreferences(t, request, t.idleTimeout));
    PreferenceWriteIsHarmlessIff(s, request, t.idleTimeout);
    assert !Unmoved(t.routes[r].requestTimeout, t.requestTimeout, request);
    assert !Unmoved(OwnTimeout(t, t.routes[r].cluster), t.requestTimeout, request);
  }

  // ---------- service types ----------

  function WithTypes(t: Tables, types: map<nat, ServiceType>): Tables {
    t.(types := types)
  }

  function TypeOf(t: Tables, r: nat): ServiceType
    requires Consistent(t) && r in t.routes
  {
    t.types[t.clusters[t.routes[r].cluster].serviceType]
  }

  /** The paths that health-checked clusters in use are pinged at stay. */
  predicate PingsUnmoved(t: Tables, u: Tables)
    requires Consistent(t) && Consistent(u) && u.routes == t.routes && u.clusters == t.clusters
  {
    forall r :: r in t.routes && t.clusters[t.routes[r].cluster].healthChecks ==>
      TypeOf(u, r).pingUrl == TypeOf(t, r).pingUrl
  }

  lemma TypesKeepClustersIff(t: Tables, types: map<nat, ServiceType>, doc: Cds)
    requires Consistent(t) && AllSaved(t) && IsCds(t, doc) && Consistent(WithTypes(t, types))
    ensures IsCds(WithTypes(t, types), doc) <==> PingsUnmoved(t, WithTypes(t, types))
  {
    var u := WithTypes(t, types);
    StillRightIff(t, u, doc);
    forall r | r in t.routes
      ensures t.routes[r].envoyClusterName in doc
      ensures doc[t.routes[r].envoyClusterName].health == HealthOf(u, t.routes[r].cluster) <==>
              (t.clusters[t.routes[r].cluster].healthChecks ==> TypeOf(u, r).pingUrl == TypeOf(t, r).pingUrl)
    {
      HealthNow(t, doc, r);
      assert OwnTimeout(u, t.routes[r].cluster) == OwnTimeout(t, t.routes[r].cluster);
    }
  }

  // ---------- how routes are accessed ----------

  /** The tables differ in service types only. */
  predicate OnlyTypes(t: Tables, u: Tables) {
    u == WithTypes(t, u.types)
  }

  /** Logins and logouts of the route are sent to the gateway's cluster. */
  ghost predicate IsRerouted(t: Tables, r: nat)
    requires Consistent(t) && r in t.routes
  {
    t.routes[r].enableGatewayAuth && GatewayName(t).Some? && TypeOf(t, r).name in {"controller", "eda", "hub"}
  }

  function LoginPath(t: Tables, r: nat): Option<string>
    requires Consistent(t) && r in t.routes
  {
    AuthPath(TypeOf(t, r).name, TypeOf(t, r).loginPath, t.routes[r].gatewayPath)
  }

  function LogoutPath(t: Tables, r: nat): Option<string>
    requires Consistent(t) && r in t.routes
  {
    AuthPath(TypeOf(t, r).name, TypeOf(t, r).logoutPath, t.routes[r].gatewayPath)
  }

  /** The route is authorized in the same way after the write, and rerouted if it was, to the same cluster and from
      the same paths. */
  ghost predicate AccessUnmovedAt(t: Tables, u: Tables, r: nat)
    requires Consistent(t) && Consistent(u) && OnlyTypes(t, u) && r in t.routes
  {
    && AuthOf(t, t.routes[r]) == AuthOf(u, u.routes[r])
    && (IsRerouted(t, r) <==> IsRerouted(u, r))
    && (IsRerouted(t, r) ==>
          && GatewayName(t) == GatewayName(u)
          && LoginPath(t, r) == LoginPath(u, r) && LogoutPath(t, r) == LogoutPath(u, r))
  }

  ghost predicate AccessUnmoved(t: Tables, u: Tables)
    requires Consistent(t) && Consistent(u) && OnlyTypes(t, u)
  {
    forall r :: r in t.routes && IsServed(t, r) ==> AccessUnmovedAt(t, u, r)
  }

  lemma LoginLogoutIs(t: Tables, r: nat)
    requires Consistent(t) && r in t.routes
    ensures IsRerouted(t, r) ==> LoginPath(t, r).Some? && LogoutPath(t, r).Some?
    ensures LoginLogout(t, t.routes[r], GatewayName(t))
         == if IsRerouted(t, r)
             then [Login(LoginPath(t, r).value, GatewayName(t).value),
                   Logout(LogoutPath(t, r).value, GatewayName(t).value)]
             else []
  {
  }

  lemma AccessUnmovedIff(t: Tables, u: Tables, r: nat)
    requires Consistent(t) && Consistent(u) && OnlyTypes(t, u) && r in t.routes && HasEntries(t.routes[r])
    ensures AccessUnmovedAt(t, u, r) <==>
            RouteEntries(t, t.routes[r], GatewayName(t)) == RouteEntries(u, t.routes[r], GatewayName(u))
  {
    var x, y := LoginLogout(t, t.routes[r], GatewayName(t)), LoginLogout(u, t.routes[r], GatewayName(u));
    LoginLogoutIs(t, r);
    LoginLogoutIs(u, r);
    if RouteEntries(t, t.routes[r], GatewayName(t)) == RouteEntries(u, t.routes[r], GatewayName(u)) {
      SameTail(x, MainEntry(t, t.routes[r]), y, MainEntry(u, t.routes[r]));
      if IsRerouted(t, r) {
        assert x[0] == y[0] && x[1] == y[1];
      }
    }
  }

  lemma SameTail(x: seq<Entry>, m: Entry, y: seq<Entry>, n: Entry)
    requires x + [m] == y + [n]
    ensures x == y && m == n
  {
    assert x == (x + [m])[..|x + [m]| - 1] && y == (y + [n])[..|y + [n]| - 1];
    assert m == (x + [m])[|x + [m]| - 1] && n == (y + [n])[|y + [n]| - 1];
  }

  // ---------- unmoved access keeps the listeners ----------

  lemma {:induction false} UnmovedAccessEntries(t: Tables, u: Tables, order: seq<nat>)
    requires Consistent(t) && Consistent(u) && OnlyTypes(t, u) && AccessUnmoved(t, u)
    requires forall r :: r in order ==> r in t.routes && t.routes[r].httpPort in t.ports
    ensures AllRouteEntries(t, order, GatewayName(t)) == AllRouteEntries(u, order, GatewayName(u))
    decreases |order|
  {
    if order != [] {
      UnmovedAccessEntries(t, u, order[..|order| - 1]);
      if HasEntries(t.routes[order[|order| - 1]]) {
        AccessUnmovedIff(t, u, order[|order| - 1]);
      }
    }
  }

  lemma UnmovedAccessListener(t: Tables, u: Tables, p: nat, entries: seq<Entry>)
    requires Consistent(t) && Consistent(u) && OnlyTypes(t, u) && AccessUnmoved(t, u)
             && IsListener(t, p, GatewayName(t), entries)
    ensures IsListener(u, p, GatewayName(u), entries)
  {
    var order :| IsRouteOrder(t, p, order) && entries == ListenerEntries(t, p, order, GatewayName(t));
    UnmovedAccessEntries(t, u, order);
    RedirectsFrame(t, u, order);
    assert IsRouteOrder(u, p, order);
  }

  // ---------- kept listeners have unmoved access ----------

  /** The unique constraint: the routes of a port have different paths. */
  predicate UniquePaths(t: Tables) {
    forall a, b :: a in t.routes && b in t.routes && a != b && t.routes[a].httpPort == t.routes[b].httpPort ==>
      t.routes[a].gatewayPath != t.routes[b].gatewayPath
  }

  /** The block of a route tells the route. */
  lemma BlockTellsRoute(t: Tables, u: Tables, a: nat, b: nat, g: Option<string>, h: Option<string>)
    requires Consistent(t) && Consistent(u) && u.routes == t.routes && UniquePaths(t)
    requires a in t.routes && b in t.routes && HasEntries(t.routes[a]) && HasEntries(t.routes[b])
    requires t.routes[a].httpPort == t.routes[b].httpPort
    requires RouteEntries(t, t.routes[a], g) == RouteEntries(u, u.routes[b], h)
    ensures a == b
  {
    SameTail(LoginLogout(t, t.routes[a], g), MainEntry(t, t.routes[a]),
      LoginLogout(u, u.routes[b], h), MainEntry(u, u.routes[b]));
  }

  /** Two orders that give the same entries give each route the same block. */
  lemma SharedBlock(t: Tables, a: seq<nat>, g: Option<string>, u: Tables, b: seq<nat>, h: Option<string>, p: nat,
      r: nat)
    requires Consistent(t) && Consistent(u) && OnlyTypes(t, u) && UniquePaths(t) && p in t.ports
    requires IsRouteOrder(t, p, a) && IsRouteOrder(u, p, b)
    requires ListenerEntries(t, p, a, g) == ListenerEntries(u, p, b, h)
    requires r in a && HasEntries(t.routes[r])
    ensures RouteEntries(t, t.routes[r], g) == RouteEntries(u, t.routes[r], h)
  {
    var c, d := Served(t, a), Served(u, b);
    ServedIs(t, a);
    ServedIs(u, b);
    ServedEntries(t, a, g);
    ServedEntries(u, b, h);
    HeadIsHead(t, p, a);
    HeadIsHead(u, p, b);
    SameBlocks(Head(t, p, a), t, c, g, Head(u, p, b), u, d, h);
    var i :| 0 <= i < |c| && c[i] == r;
    assert d[i] in d;
    BlockTellsRoute(t, u, r, d[i], g, h);
  }

  lemma KeptListenerUnmoved(t: Tables, u: Tables, entries: seq<Entry>, r: nat)
    requires Consistent(t) && Consistent(u) && OnlyTypes(t, u) && UniquePaths(t) && r in t.routes && IsServed(t, r)
    requires IsListener(t, t.routes[r].httpPort, GatewayName(t), entries)
    requires IsListener(u, t.routes[r].httpPort, GatewayName(u), entries)
    ensures AccessUnmovedAt(t, u, r)
  {
    var p := t.routes[r].httpPort;
    var a :| IsRouteOrder(t, p, a) && entries == ListenerEntries(t, p, a, GatewayName(t));
    var b :| IsRouteOrder(u, p, b) && entries == ListenerEntries(u, p, b, GatewayName(u));
    SharedBlock(t, a, GatewayName(t), u, b, GatewayName(u), p, r);
    AccessUnmovedIff(t, u, r);
  }

  /** A write of service types keeps the listeners right exactly when the access to the served routes does not
      move. */
  lemma TypesKeepListenersIff(t: Tables, u: Tables, doc: Lds)
    requires Consistent(t) && Consistent(u) && OnlyTypes(t, u) && UniquePaths(t) && IsLds(t, doc)
    ensures IsLds(u, doc) <==> AccessUnmoved(t, u)
  {
    if AccessUnmoved(t, u) {
      forall p | p in doc ensures IsListener(u, p, GatewayName(u), doc[p]) {
        UnmovedAccessListener(t, u, p, doc[p]);
      }
    }
    if IsLds(u, doc) {
      forall r | r in t.routes && IsServed(t, r) ensures AccessUnmovedAt(t, u, r) {
        KeptListenerUnmoved(t, u, doc[t.routes[r].httpPort], r);
      }
    }
  }

  /** What a write of service types does to a coherent cache: it stays coherent exactly when neither the pings of the
      cached clusters nor the access to the routes of the cached listeners moves. */
  lemma TypeWriteIsHarmlessIff(s: System, types: map<nat, ServiceType>)
    requires Coherent(s) && UniquePaths(s.tables) && Consistent(WithTypes(s.tables, types))
    ensures var after := WithTypes(s.tables, types);
            var step := Commit({TypeModel}, after);
            && Legal(s, step)
            && (Coherent(Apply(s, step)) <==>
                  && (s.cache.cds.Some? ==> PingsUnmoved(s.tables, after))
                  && (s.cache.lds.Some? ==> AccessUnmoved(s.tables, after)))
  {
    var after := WithTypes(s.tables, types);
    SavedStays(s.tables, after);
    assert Invalidate(s.cache, {TypeModel}) == s.cache;
    if s.cache.cds.Some? {
      TypesKeepClustersIff(s.tables, types, s.cache.cds.value);
    }
    if s.cache.lds.Some? {
      TypesKeepListenersIff(s.tables, after, s.cache.lds.value);
    }
  }

  /** For instance, if a route is rerouted, some change of its login path makes the cached listeners stale. */
  lemma SomeTypeWriteLeavesStaleEntry(s: System, r: nat) returns (step: Step)
    requires Coherent(s) && UniquePaths(s.tables) && s.cache.lds.Some?
    requires r in s.tables.routes && IsServed(s.tables, r) && IsRerouted(s.tables, r)
    ensures step.Commit? && step.touched == {TypeModel} && Legal(s, step)
    ensures !Coherent(Apply(s, step))
  {
    var types := LoginMoves(s.tables, r);
    step := Commit({TypeModel}, WithTypes(s.tables, types));
    TypeWriteIsHarmlessIff(s, types);
  }

  lemma LoginMoves(t: Tables, r: nat) returns (types: map<nat, ServiceType>)
    requires Consistent(t) && r in t.routes && IsServed(t, r) && IsRerouted(t, r)
    ensures Consistent(WithTypes(t, types))
    ensures !AccessUnmoved(t, WithTypes(t, types))
  {
    var ty := t.clusters[t.routes[r].cluster].serviceType;
    types := t.types[ty := t.types[ty].(loginPath := Some(t.types[ty].loginPath.GetOr("None") + "/"))];
    var u := WithTypes(t, types);
    LongerLogin(t.types[ty].name, t.types[ty].loginPath, t.routes[r].gatewayPath);
    assert !AccessUnmovedAt(t, u, r);
  }

  lemma LongerLogin(name: string, path: Option<string>, prefix: string)
    requires name in {"controller", "eda", "hub"}
    ensures AuthPath(name, Some(path.GetOr("None") + "/"), prefix) != AuthPath(name, path, prefix)
  {
    assert |AuthPath(name, Some(path.GetOr("None") + "/"), prefix).value| == |AuthPath(name, path, prefix).value| + 1;
  }
}

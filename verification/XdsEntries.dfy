/** What the clusters and listeners of a document say: aap_gateway_api/models/route.py,
    aap_gateway_api/models/service_cluster.py and aap_gateway_api/models/http_port.py, told by the fields of the
    tables. */
module XdsEntries {
  import opened ClusterNames
  import opened ClusterTexts
  import opened Sets
  import opened Wrappers
  import Cache = XdsCache
  import opened XdsDocuments
  import opened XdsListeners

  // ---------- clusters ----------

  /** The nodes of the route's cluster that have one of its tags, if it names any. */
  ghost predicate AreEndpointsOf(t: Tables, r: nat, endpoints: map<nat, string>)
    requires r in t.routes
  {
    && (forall n :: n in endpoints <==> n in t.nodes && Receives(t, r, n))
    && (forall n :: n in endpoints ==> n in t.nodes && endpoints[n] == t.nodes[n].address)
  }

  ghost predicate Receives(t: Tables, r: nat, n: nat)
    requires r in t.routes && n in t.nodes
  {
    && t.nodes[n].cluster == t.routes[r].cluster
    && (t.routes[r].nodeTags == ""
        || exists tag :: HasTag(t.routes[r].nodeTags, tag) && HasTag(t.nodes[n].tags, tag))
  }

  /** The largest of the cluster's own timeout, those of its routes, and the preference. */
  ghost predicate IsHealthTimeout(t: Tables, c: nat, timeout: nat)
    requires c in t.clusters
  {
    && t.clusters[c].healthTimeout <= timeout && t.requestTimeout <= timeout
    && (forall r :: r in t.routes && t.routes[r].cluster == c ==> t.routes[r].requestTimeout <= timeout)
    && (timeout == t.clusters[c].healthTimeout || timeout == t.requestTimeout
        || exists r :: r in t.routes && t.routes[r].cluster == c && t.routes[r].requestTimeout == timeout)
  }

  /** No health check where the cluster has them switched off. */
  ghost predicate IsHealthOf(t: Tables, c: nat, health: Option<Health>)
    requires c in t.clusters && t.clusters[c].serviceType in t.types
  {
    if !t.clusters[c].healthChecks then health == None
    else
      && health.Some? && IsHealthTimeout(t, c, health.value.timeout)
      && IsLarger(health.value.interval, t.clusters[c].healthInterval, health.value.timeout)
      && health.value.path == t.types[t.clusters[c].serviceType].pingUrl
  }

  /** The cluster is built from the route. */
  ghost predicate IsClusterOf(t: Tables, r: nat, cfg: ClusterConfig)
    requires Consistent(t) && r in t.routes
  {
    && AreEndpointsOf(t, r, cfg.endpoints) && cfg.port == t.routes[r].port
    && (cfg.isHttps <==> t.routes[r].isHttps)
    && cfg.hostname == (if t.routes[r].isHttps then t.clusters[t.routes[r].cluster].upstreamHostname else "")
    && IsHealthOf(t, t.routes[r].cluster, cfg.health)
  }

  lemma EndpointsSay(t: Tables, r: nat)
    requires r in t.routes
    ensures AreEndpointsOf(t, r, Endpoints(t, t.routes[r]))
  {
    forall n | n in t.nodes ensures Selects(t.routes[r].nodeTags, t.nodes[n].tags) <==>
        t.routes[r].nodeTags == "" || exists tag :: HasTag(t.routes[r].nodeTags, tag) && HasTag(t.nodes[n].tags, tag)
    {
      SelectsIff(t.routes[r].nodeTags, t.nodes[n].tags);
    }
  }

  lemma HealthSays(t: Tables, c: nat)
    requires c in t.clusters && t.clusters[c].serviceType in t.types
    ensures IsHealthOf(t, c, HealthOf(t, c))
  {
    assert IsMaxRouteTimeout(t.routes, c, MaxRouteTimeout(t.routes, c));
  }

  /** A cluster document has a cluster for each name in use, and each is built from a route of its name. */
  lemma ClustersSay(t: Tables, doc: Cds)
    requires Consistent(t) && IsCds(t, doc)
    ensures forall name :: name in doc <==> exists r :: r in t.routes && t.routes[r].envoyClusterName == name
    ensures forall name :: name in doc ==> IsBuilt(t, name, doc[name])
  {
    forall name | name in doc ensures IsBuilt(t, name, doc[name]) {
      var r :| Represents(t, r, name, doc[name]);
      EndpointsSay(t, r);
      HealthSays(t, t.routes[r].cluster);
    }
  }

  ghost predicate IsBuilt(t: Tables, name: string, cfg: ClusterConfig)
    requires Consistent(t)
  {
    exists r :: r in t.routes && t.routes[r].envoyClusterName == name && IsClusterOf(t, r, cfg)
  }

  // ---------- certificates and requests ----------

  /** Each certificate is served stripped, unless nothing is left of it. */
  lemma OnePem(certificate: string)
    ensures exists text ::
              Strips(certificate, text) && Cache.Pems([certificate]) == if text == "" then [] else [text]
  {
    TrimIff(certificate, TrimRight(TrimLeft(certificate)));
    assert Cache.Pems([certificate][1..]) == [];
  }

  /** And they are served in turn. */
  lemma {:induction false} PemsInTurn(a: seq<string>, b: seq<string>)
    ensures Cache.Pems(a + b) == Cache.Pems(a) + Cache.Pems(b)
    decreases |a|
  {
    if a == [] {
      assert a + b == b;
    } else {
      PemsInTurn(a[1..], b);
      assert (a + b)[1..] == a[1..] + b;
    }
  }

  lemma ListenerNameReads(number: nat) returns (digits: string)
    ensures Reads(digits, number) && Cache.ListenerName(number) == "port-" + digits
  {
    DecimalReads(number);
    digits := Decimal(number);
  }

  /** An empty request or `*` asks for all names, any other text for those names that are one of its characters. */
  lemma RequestSays(names: string, name: string)
    ensures Cache.Matches(names, name) <==> names == "" || names == "*" || exists c :: c in names && name == [c]
  {
    if |name| == 1 {
      assert name == [name[0]];
    }
  }

  // ---------- the gateway's own cluster ----------

  /** The first cluster of the type `gateway`. */
  predicate IsGatewayCluster(t: Tables, c: nat)
    requires Consistent(t)
  {
    IsOfGateway(t, c) && forall d :: d in t.clusters && IsOfGateway(t, d) ==> c <= d
  }

  predicate IsOfGateway(t: Tables, c: nat)
    requires Consistent(t)
  {
    c in t.clusters && t.types[t.clusters[c].serviceType].name == "gateway"
  }

  lemma GatewayClusterIs(t: Tables, c: nat)
    requires Consistent(t)
    ensures IsGatewayCluster(t, c) <==> IsFirst(c, GatewayClusters(t))
  {
    assert forall d :: d in GatewayClusters(t) <==> d in t.clusters && IsOfGateway(t, d);
  }

  /** The name of the first route of the first gateway cluster. */
  ghost predicate IsNameOfGateway(t: Tables, name: string)
    requires Consistent(t)
  {
    exists r :: r in t.routes && t.routes[r].envoyClusterName == name && IsGatewayCluster(t, t.routes[r].cluster)
      && forall x :: x in t.routes && t.routes[x].cluster == t.routes[r].cluster ==> r <= x
  }

  lemma GatewayNameSays(t: Tables, name: string)
    requires Consistent(t)
    ensures GatewayName(t) == Some(name) <==> IsNameOfGateway(t, name)
  {
    forall c: nat ensures IsGatewayCluster(t, c) <==> IsFirst(c, GatewayClusters(t)) {
      GatewayClusterIs(t, c);
    }
    if GatewayName(t) == Some(name) {
      assert IsGatewayName(t, Some(name));
      var c, r :| IsFirst(c, GatewayClusters(t)) && IsFirst(r, RoutesOf(t, c)) && t.routes[r].envoyClusterName == name;
      assert forall x :: x in t.routes && t.routes[x].cluster == c ==> x in RoutesOf(t, c);
      assert r in t.routes && IsGatewayCluster(t, t.routes[r].cluster);
    }
    if IsNameOfGateway(t, name) {
      var r :| r in t.routes && t.routes[r].envoyClusterName == name && IsGatewayCluster(t, t.routes[r].cluster)
        && forall x :: x in t.routes && t.routes[x].cluster == t.routes[r].cluster ==> r <= x;
      assert IsFirst(r, RoutesOf(t, t.routes[r].cluster));
      assert IsGatewayName(t, Some(name));
      GatewayNameIsUnique(t, Some(name), GatewayName(t));
    }
  }

  // ---------- paths ----------

  /** Base is what the path leaves without its trailing slashes. */
  predicate Stripped(path: string, base: string) {
    && base <= path && (forall i :: |base| <= i < |path| ==> path[i] == '/')
    && (base == "" || base[|base| - 1] != '/')
  }

  lemma {:induction false} StrippedIff(path: string, base: string)
    ensures Stripped(path, base) <==> base == StripSlashes(path)
    decreases |path|
  {
    if path != "" && path[|path| - 1] == '/' {
      var init := path[..|path| - 1];
      StrippedIff(init, base);
      assert path == init + "/";
      assert Stripped(path, base) ==> base != path;
      assert base <= path && base != path <==> base <= init;
    } else {
      assert base <= path && |base| == |path| ==> base == path;
    }
  }

  // ---------- the entries of a route ----------

  function TypeName(t: Tables, r: nat): string
    requires Consistent(t) && r in t.routes
  {
    t.types[t.clusters[t.routes[r].cluster].serviceType].name
  }

  /** The route stands on the port, and none of what an entry needs is blank. */
  predicate IsOn(t: Tables, p: nat, r: nat) {
    && r in t.routes && t.routes[r].httpPort == p
    && t.routes[r].gatewayPath != "" && t.routes[r].servicePath != "" && t.routes[r].envoyClusterName != ""
  }

  predicate IsLarger(x: nat, a: nat, b: nat) {
    a <= x && b <= x && (x == a || x == b)
  }

  /** The route is checked if it has gateway authentication; else EDA is exempt, and all others have no check. */
  predicate IsAuthOf(t: Tables, r: nat, auth: Auth)
    requires Consistent(t) && r in t.routes
  {
    && (auth == Checked(TypeName(t, r)) <==> t.routes[r].enableGatewayAuth)
    && (auth == Exempt("eda") <==> !t.routes[r].enableGatewayAuth && TypeName(t, r) == "eda")
    && (auth == Disabled <==> !t.routes[r].enableGatewayAuth && TypeName(t, r) != "eda")
  }

  /** The entry forwards the route's path to its own cluster. */
  predicate IsEntryOf(t: Tables, r: nat, e: Entry)
    requires Consistent(t) && r in t.routes
  {
    && e.Main? && e.prefix == t.routes[r].gatewayPath && e.rewrite == t.routes[r].servicePath
    && e.cluster == t.routes[r].envoyClusterName && IsAuthOf(t, r, e.auth)
    && IsLarger(e.timeout, t.routes[r].requestTimeout, t.requestTimeout)
    && IsLarger(e.idleTimeout, t.routes[r].idleTimeout, t.idleTimeout)
  }

  /** Logins and logouts of Controller, EDA and Hub go to the gateway if the route has gateway authentication. */
  predicate TakesLogins(t: Tables, r: nat, gateway: Option<string>)
    requires Consistent(t) && r in t.routes
  {
    t.routes[r].enableGatewayAuth && gateway.Some? && TypeName(t, r) in {"controller", "eda", "hub"}
  }

  /** Controller and EDA paths stand below the route's, Hub paths do not; a missing path reads None. */
  ghost predicate IsPrefix(t: Tables, r: nat, path: Option<string>, prefix: string)
    requires Consistent(t) && r in t.routes
  {
    var text := if path.Some? then path.value else "None";
    if TypeName(t, r) == "hub" then prefix == text
    else exists base :: Stripped(t.routes[r].gatewayPath, base) && prefix == base + text
  }

  ghost predicate IsLoginOf(t: Tables, r: nat, gateway: Option<string>, e: Entry)
    requires Consistent(t) && r in t.routes
  {
    && TakesLogins(t, r, gateway) && e.Login? && gateway == Some(e.cluster)
    && IsPrefix(t, r, t.types[t.clusters[t.routes[r].cluster].serviceType].loginPath, e.prefix)
  }

  ghost predicate IsLogoutOf(t: Tables, r: nat, gateway: Option<string>, e: Entry)
    requires Consistent(t) && r in t.routes
  {
    && TakesLogins(t, r, gateway) && e.Logout? && gateway == Some(e.cluster)
    && IsPrefix(t, r, t.types[t.clusters[t.routes[r].cluster].serviceType].logoutPath, e.prefix)
  }

  lemma MainSays(t: Tables, r: nat, e: Entry)
    requires Consistent(t) && r in t.routes
    ensures IsEntryOf(t, r, e) <==> e == MainEntry(t, t.routes[r])
  {
  }

  lemma PrefixSays(t: Tables, r: nat, path: Option<string>, prefix: string)
    requires Consistent(t) && r in t.routes && TypeName(t, r) in {"controller", "eda", "hub"}
    ensures IsPrefix(t, r, path, prefix) <==> AuthPath(TypeName(t, r), path, t.routes[r].gatewayPath) == Some(prefix)
  {
    var gatewayPath := t.routes[r].gatewayPath;
    StrippedIff(gatewayPath, StripSlashes(gatewayPath));
    forall base | Stripped(gatewayPath, base) ensures base == StripSlashes(gatewayPath) {
      StrippedIff(gatewayPath, base);
    }
  }

  /** The entries of one route: its login and logout if it takes any, and then its own. */
  ghost predicate AreEntriesOf(t: Tables, r: nat, gateway: Option<string>, es: seq<Entry>)
    requires Consistent(t) && r in t.routes
  {
    if TakesLogins(t, r, gateway)
    then |es| == 3 && IsLoginOf(t, r, gateway, es[0]) && IsLogoutOf(t, r, gateway, es[1]) && IsEntryOf(t, r, es[2])
    else |es| == 1 && IsEntryOf(t, r, es[0])
  }

  lemma RouteEntriesSay(t: Tables, r: nat, gateway: Option<string>)
    requires Consistent(t) && r in t.routes && IsOn(t, t.routes[r].httpPort, r)
    ensures AreEntriesOf(t, r, gateway, RouteEntries(t, t.routes[r], gateway))
  {
    var es := RouteEntries(t, t.routes[r], gateway);
    var ty := t.types[t.clusters[t.routes[r].cluster].serviceType];
    MainSays(t, r, MainEntry(t, t.routes[r]));
    if TakesLogins(t, r, gateway) {
      PrefixSays(t, r, ty.loginPath, es[0].prefix);
      PrefixSays(t, r, ty.logoutPath, es[1].prefix);
    }
  }

  // ---------- the entries of a listener ----------

  /** The blocks of the routes follow each other in the order of the routes. */
  ghost predicate AreBlocks(t: Tables, order: seq<nat>, gateway: Option<string>, es: seq<Entry>)
    requires Consistent(t) && forall r :: r in order ==> r in t.routes
    decreases |order|
  {
    if order == [] then es == []
    else
      var last := order[|order| - 1];
      if !IsOn(t, t.routes[last].httpPort, last) then AreBlocks(t, order[..|order| - 1], gateway, es)
      else exists k | 0 <= k <= |es| ::
        AreBlocks(t, order[..|order| - 1], gateway, es[..k]) && AreEntriesOf(t, last, gateway, es[k..])
  }

  lemma {:induction false} AllEntriesSay(t: Tables, order: seq<nat>, gateway: Option<string>)
    requires Consistent(t) && forall r :: r in order ==> r in t.routes
    ensures AreBlocks(t, order, gateway, AllRouteEntries(t, order, gateway))
    decreases |order|
  {
    if order != [] {
      var init, last := order[..|order| - 1], order[|order| - 1];
      var before, block := AllRouteEntries(t, init, gateway), RouteEntries(t, t.routes[last], gateway);
      AllEntriesSay(t, init, gateway);
      if IsOn(t, t.routes[last].httpPort, last) {
        RouteEntriesSay(t, last, gateway);
        assert (before + block)[..|before|] == before && (before + block)[|before|..] == block;
      } else {
        assert before + block == before;
      }
    }
  }

  // ---------- redirects ----------

  /** An API path that ends in a slash. */
  predicate IsApiRoute(t: Tables, r: nat)
    requires r in t.routes
  {
    var path := t.routes[r].gatewayPath;
    "/api/" <= path && path[|path| - 1] == '/'
  }

  /** The path without its slashes leads to the path of the last route in the order that has it. */
  ghost predicate IsRedirectOf(t: Tables, order: seq<nat>, i: nat, e: Entry)
    requires forall r :: r in order ==> r in t.routes
  {
    && i < |order| && IsApiRoute(t, order[i])
    && e.Redirect? && e.target == t.routes[order[i]].gatewayPath && Stripped(e.target, e.path)
    && forall j :: i < j < |order| && IsApiRoute(t, order[j]) ==> !Stripped(t.routes[order[j]].gatewayPath, e.path)
  }

  ghost predicate IsRedirect(t: Tables, order: seq<nat>, e: Entry)
    requires forall r :: r in order ==> r in t.routes
  {
    || (exists i :: IsRedirectOf(t, order, i, e))
    || (e == Redirect("/api", "/api/")
        && forall r :: r in order && IsApiRoute(t, r) ==> !Stripped(t.routes[r].gatewayPath, "/api"))
  }

  lemma {:induction false} AssignIs(es: seq<Entry>, path: string, target: string, e: Entry)
    requires (forall f :: f in es ==> f.Redirect?) && forall i, j :: 0 <= i < j < |es| ==> es[i].path != es[j].path
    ensures e in Assign(es, path, target) <==> e == Redirect(path, target) || (e in es && e.path != path)
    decreases |es|
  {
    if es != [] {
      assert es[0] in es;
      forall f | f in es[1..] ensures f.path != es[0].path {
        var k :| 0 <= k < |es[1..]| && es[1..][k] == f;
        assert es[k + 1] == f;
      }
      if es[0].path != path {
        AssignIs(es[1..], path, target, e);
      }
    }
  }

  lemma {:induction false} RedirectsSay(t: Tables, order: seq<nat>, e: Entry)
    requires forall r :: r in order ==> r in t.routes
    ensures e in Redirects(t, order) <==> IsRedirect(t, order, e)
    decreases |order|
  {
    if order != [] {
      var init, last := order[..|order| - 1], order[|order| - 1];
      RedirectsSay(t, init, e);
      RedirectsAreGood(t, init);
      RedirectStep(t, order, e);
      if IsApiRoute(t, last) {
        AssignIs(Redirects(t, init), StripSlashes(t.routes[last].gatewayPath), t.routes[last].gatewayPath, e);
      }
    }
  }

  lemma RedirectStep(t: Tables, order: seq<nat>, e: Entry)
    requires order != [] && forall r :: r in order ==> r in t.routes
    ensures var init, path := order[..|order| - 1], t.routes[order[|order| - 1]].gatewayPath;
            IsRedirect(t, order, e) <==>
              if IsApiRoute(t, order[|order| - 1])
              then e == Redirect(StripSlashes(path), path)
                   || (IsRedirect(t, init, e) && e.Redirect? && e.path != StripSlashes(path))
              else IsRedirect(t, init, e)
  {
    var init, n := order[..|order| - 1], |order| - 1;
    var path := t.routes[order[n]].gatewayPath;
    assert order == init + [order[n]];
    if e.Redirect? {
      StrippedIff(path, e.path);
    }
    StrippedIff(path, StripSlashes(path));
    StrippedIff(path, "/api");
    forall i: nat | i < n
      ensures IsRedirectOf(t, order, i, e) <==>
              IsRedirectOf(t, init, i, e) && (IsApiRoute(t, order[n]) ==> e.path != StripSlashes(path))
    {
      assert forall j :: i < j < n ==> order[j] == init[j];
    }
    assert IsRedirectOf(t, order, n, e) <==>
      IsApiRoute(t, order[n]) && e == Redirect(StripSlashes(path), path);
  }

  // ---------- a document ----------

  /** A listener: `/up`, then on the API port the redirects, then the blocks of its routes by rank. */
  ghost predicate IsListenerOf(t: Tables, p: nat, order: seq<nat>, gateway: Option<string>, es: seq<Entry>)
    requires Consistent(t) && p in t.ports && forall r :: r in order ==> r in t.routes
  {
    exists k | 1 <= k <= |es| ::
      && es[0] == Up && AreBlocks(t, order, gateway, es[k..])
      && (if t.ports[p].isApiPort then forall e :: e in es[1..k] <==> IsRedirect(t, order, e) else k == 1)
  }

  lemma ListenerIs(t: Tables, p: nat, order: seq<nat>, gateway: Option<string>)
    requires Consistent(t) && p in t.ports && forall r :: r in order ==> r in t.routes
    ensures IsListenerOf(t, p, order, gateway, ListenerEntries(t, p, order, gateway))
  {
    AllEntriesSay(t, order, gateway);
    var redirects := if t.ports[p].isApiPort then Redirects(t, order) else [];
    var es, k := ListenerEntries(t, p, order, gateway), 1 + |redirects|;
    assert es[1..k] == redirects && es[k..] == AllRouteEntries(t, order, gateway);
    forall e ensures e in Redirects(t, order) <==> IsRedirect(t, order, e) {
      RedirectsSay(t, order, e);
    }
  }

  /** Each listener of a document is that, for an order of its port's routes by rank. */
  lemma ListenersSay(t: Tables, doc: Lds, p: nat) returns (order: seq<nat>)
    requires Consistent(t) && IsLds(t, doc) && p in doc
    ensures forall r :: r in order <==> r in t.routes && t.routes[r].httpPort == p
    ensures forall i, j :: 0 <= i < j < |order| ==>
              order[i] != order[j] && t.routes[order[i]].rank <= t.routes[order[j]].rank
    ensures IsListenerOf(t, p, order, GatewayName(t), doc[p])
  {
    var gateway := GatewayName(t);
    assert IsListener(t, p, gateway, doc[p]);
    order :| IsRouteOrder(t, p, order) && doc[p] == ListenerEntries(t, p, order, gateway);
    ListenerIs(t, p, order, gateway);
  }

  // ---------- documents exist ----------

  lemma {:induction false} LowestRank(t: Tables, left: set<nat>) returns (r: nat)
    requires left != {} && forall x :: x in left ==> x in t.routes
    ensures r in left && forall x :: x in left ==> t.routes[r].rank <= t.routes[x].rank
    decreases left
  {
    r := Pick(left);
    var rest := left - {r};
    assert left == rest + {r};
    if rest != {} {
      var s := LowestRank(t, rest);
      if t.routes[s].rank < t.routes[r].rank {
        r := s;
      }
    }
  }

  lemma {:induction false} ByRank(t: Tables, left: set<nat>) returns (order: seq<nat>)
    requires forall x :: x in left ==> x in t.routes
    ensures forall x :: x in order <==> x in left
    ensures forall i, j :: 0 <= i < j < |order| ==>
              order[i] != order[j] && t.routes[order[i]].rank <= t.routes[order[j]].rank
    decreases left
  {
    order := [];
    if left != {} {
      var r := LowestRank(t, left);
      var rest := ByRank(t, left - {r});
      order := [r] + rest;
      assert forall i :: 0 <= i < |rest| ==> rest[i] in rest;
      assert left == left - {r} + {r};
    }
  }

  lemma ListenerExists(t: Tables, p: nat)
    requires Consistent(t) && p in t.ports
    ensures exists entries :: IsListener(t, p, GatewayName(t), entries)
  {
    var order := ByRank(t, set r | r in t.routes && t.routes[r].httpPort == p);
    assert IsRouteOrder(t, p, order);
    assert IsListener(t, p, GatewayName(t), ListenerEntries(t, p, order, GatewayName(t)));
  }

  ghost function SomeListener(t: Tables, p: nat): (entries: seq<Entry>)
    requires Consistent(t) && p in t.ports
    ensures IsListener(t, p, GatewayName(t), entries)
  {
    ListenerExists(t, p);
    var entries :| IsListener(t, p, GatewayName(t), entries);
    entries
  }

  ghost function SomeRouteOf(t: Tables, name: string): (r: nat)
    requires name in NamesInUse(t)
    ensures r in t.routes && t.routes[r].envoyClusterName == name
  {
    var r :| r in t.routes && t.routes[r].envoyClusterName == name;
    r
  }

  lemma ClustersExist(t: Tables) returns (cds: Cds)
    requires Consistent(t)
    ensures IsCds(t, cds)
  {
    cds := map name | name in NamesInUse(t) :: ConfigOf(t, t.routes[SomeRouteOf(t, name)]);
    forall name | name in cds ensures exists r :: Represents(t, r, name, cds[name]) {
      assert Represents(t, SomeRouteOf(t, name), name, cds[name]);
    }
  }

  lemma ListenersExist(t: Tables) returns (lds: Lds)
    requires Consistent(t)
    ensures IsLds(t, lds)
  {
    lds := map p | p in t.ports :: SomeListener(t, p);
  }

  /** Whatever the tables hold, there is a cluster document and a listener document for them. */
  lemma DocumentsExist(t: Tables) returns (cds: Cds, lds: Lds)
    requires Consistent(t)
    ensures IsCds(t, cds) && IsLds(t, lds)
  {
    cds := ClustersExist(t);
    lds := ListenersExist(t);
  }

  lemma {:induction false} BlockHasEntry(t: Tables, order: seq<nat>, gateway: Option<string>, es: seq<Entry>, r: nat)
      returns (e: Entry)
    requires Consistent(t) && (forall x :: x in order ==> x in t.routes) && AreBlocks(t, order, gateway, es)
    requires r in order && IsOn(t, t.routes[r].httpPort, r)
    ensures e in es && IsEntryOf(t, r, e)
    decreases |order|
  {
    var init, last := order[..|order| - 1], order[|order| - 1];
    if IsOn(t, t.routes[last].httpPort, last) {
      var k :| 0 <= k <= |es| && AreBlocks(t, init, gateway, es[..k]) && AreEntriesOf(t, last, gateway, es[k..]);
      if r == last {
        e := es[|es| - 1];
      } else {
        e := BlockHasEntry(t, init, gateway, es[..k], r);
      }
    } else {
      e := BlockHasEntry(t, init, gateway, es, r);
    }
  }

  /** So every route of a port has its own entry on the port's listener. */
  lemma EveryRouteIsServed(t: Tables, doc: Lds, r: nat) returns (e: Entry)
    requires Consistent(t) && IsLds(t, doc) && r in t.routes && t.routes[r].httpPort in doc
    requires IsOn(t, t.routes[r].httpPort, r)
    ensures e in doc[t.routes[r].httpPort] && IsEntryOf(t, r, e)
  {
    var p := t.routes[r].httpPort;
    var order := ListenersSay(t, doc, p);
    var es := doc[p];
    var k :| 1 <= k <= |es| && AreBlocks(t, order, GatewayName(t), es[k..]);
    e := BlockHasEntry(t, order, GatewayName(t), es[k..], r);
  }
}

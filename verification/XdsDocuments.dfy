/** The Envoy cluster and listener documents, and their cache: models/route.py, models/http_port.py,
    views/api/envoy/rest_control_plane.py and signals/xds_cache.py under aap_gateway_api/.

    A document is described by what it may be for given tables: the database chooses which row stands for a
    name under DISTINCT ON, and in which order routes of equal rank come. */
module XdsDocuments {
  import opened ClusterNames
  import opened Sets
  import opened Wrappers

  // Timeouts of 0 stand for null.
  datatype Route = Route(
    cluster: nat, port: nat, nodeTags: string, isHttps: bool, httpPort: nat, gatewayPath: string, servicePath: string,
    enableGatewayAuth: bool, rank: int, requestTimeout: nat, idleTimeout: nat, envoyClusterName: string)

  datatype Cluster = Cluster(serviceType: nat, healthChecks: bool, healthTimeout: nat, healthInterval: nat,
      upstreamHostname: string)
  datatype Node = Node(cluster: nat, address: string, tags: string)
  datatype Port = Port(number: nat, isApiPort: bool)
  datatype ServiceType = ServiceType(name: string, loginPath: Option<string>, logoutPath: Option<string>,
      pingUrl: Option<string>)

  // The two timeouts are the preferences of the proxy.
  datatype Tables = Tables(
    routes: map<nat, Route>, clusters: map<nat, Cluster>, nodes: map<nat, Node>, ports: map<nat, Port>,
    certificates: seq<string>, types: map<nat, ServiceType>, requestTimeout: nat, idleTimeout: nat)

  /** Foreign keys hold. */
  predicate Consistent(t: Tables) {
    && (forall r :: r in t.routes ==> t.routes[r].cluster in t.clusters)
    && (forall c :: c in t.clusters ==> t.clusters[c].serviceType in t.types)
  }

  /** The stored name is the one Route.save computes. */
  predicate Saved(r: Route) {
    r.envoyClusterName == CanonicalName(r.cluster, r.port, r.nodeTags)
  }

  predicate AllSaved(t: Tables) {
    forall r {:trigger Saved(t.routes[r])} :: r in t.routes ==> Saved(t.routes[r])
  }

  // ---------- CDS ----------

  datatype Health = Health(timeout: nat, interval: nat, path: Option<string>)

  datatype ClusterConfig = ClusterConfig(endpoints: map<nat, string>, port: nat, isHttps: bool, hostname: string,
      health: Option<Health>)

  function Max(a: nat, b: nat): nat {
    if a < b then b else a
  }

  function Endpoints(t: Tables, r: Route): map<nat, string> {
    map n | n in t.nodes && t.nodes[n].cluster == r.cluster
        && Selects(r.nodeTags, t.nodes[n].tags) :: t.nodes[n].address
  }

  /** MAX(routes.request_timeout_seconds) of a cluster, or 0. */
  predicate IsMaxRouteTimeout(routes: map<nat, Route>, c: nat, timeout: nat) {
    && (forall r :: r in routes && routes[r].cluster == c ==> routes[r].requestTimeout <= timeout)
    && (timeout == 0 || exists r :: r in routes && routes[r].cluster == c && routes[r].requestTimeout == timeout)
  }

  lemma MaxRouteTimeoutExists(routes: map<nat, Route>, c: nat)
    ensures exists timeout :: IsMaxRouteTimeout(routes, c, timeout)
  {
    var timeout: nat := 0;
    var left := routes.Keys;
    while left != {}
      invariant forall r :: r in routes && r !in left && routes[r].cluster == c ==> routes[r].requestTimeout <= timeout
      invariant timeout == 0 || exists r :: r in routes && routes[r].cluster == c && routes[r].requestTimeout == timeout
      decreases left
    {
      var r := Pick(left);
      if routes[r].cluster == c && routes[r].requestTimeout > timeout {
        timeout := routes[r].requestTimeout;
      }
      left := left - {r};
    }
    forall r | r in routes && routes[r].cluster == c ensures routes[r].requestTimeout <= timeout {
      assert r !in left;
    }
    assert IsMaxRouteTimeout(routes, c, timeout);
  }

  ghost function MaxRouteTimeout(routes: map<nat, Route>, c: nat): (timeout: nat)
    ensures IsMaxRouteTimeout(routes, c, timeout)
  {
    MaxRouteTimeoutExists(routes, c);
    var timeout :| IsMaxRouteTimeout(routes, c, timeout);
    timeout
  }

  /** The health-check timeout a cluster asks for itself, before the preference. */
  ghost function OwnTimeout(t: Tables, c: nat): nat
    requires c in t.clusters
  {
    Max(t.clusters[c].healthTimeout, MaxRouteTimeout(t.routes, c))
  }

  ghost function HealthOf(t: Tables, c: nat): Option<Health>
    requires c in t.clusters && t.clusters[c].serviceType in t.types
  {
    if !t.clusters[c].healthChecks then None
    else
      var timeout := Max(OwnTimeout(t, c), t.requestTimeout);
      Some(Health(timeout, Max(t.clusters[c].healthInterval, timeout), t.types[t.clusters[c].serviceType].pingUrl))
  }

  /** `get_xds_cluster_config` */
  ghost function ConfigOf(t: Tables, r: Route): ClusterConfig
    requires r.cluster in t.clusters && t.clusters[r.cluster].serviceType in t.types
  {
    ClusterConfig(Endpoints(t, r), r.port, r.isHttps, if r.isHttps then t.clusters[r.cluster].upstreamHostname
        else "", HealthOf(t, r.cluster))
  }

  /** Route r has the name and compiles to cfg. */
  ghost predicate Represents(t: Tables, r: nat, name: string, cfg: ClusterConfig)
    requires Consistent(t)
  {
    r in t.routes && t.routes[r].envoyClusterName == name && cfg == ConfigOf(t, t.routes[r])
  }

  type Cds = map<string, ClusterConfig>

  function NamesInUse(t: Tables): set<string> {
    set r | r in t.routes :: t.routes[r].envoyClusterName
  }

  /** One entry for each cluster name in use, built from some route of that name. */
  ghost predicate IsCds(t: Tables, doc: Cds)
    requires Consistent(t)
  {
    doc.Keys == NamesInUse(t)
        && EachEntry(doc, (name: string, cfg: ClusterConfig) => exists r :: Represents(t, r, name, cfg))
  }

  ghost predicate EachEntry(doc: Cds, P: (string, ClusterConfig) -> bool) {
    forall name :: name in doc ==> P(name, doc[name])
  }

  // ---------- which route stands for a name ----------

  /** The two routes select the same nodes of their cluster. */
  ghost predicate SelectAlike(t: Tables, a: Route, b: Route) {
    StarCollision(TagsList(a.nodeTags), TagsList(b.nodeTags)) ==>
      forall n :: n in t.nodes && t.nodes[n].cluster == a.cluster ==> "*" in TagsList(t.nodes[n].tags)
  }

  lemma SameNodeChoice(t: Tables, a: Route, b: Route, n: nat)
    requires a.envoyClusterName == b.envoyClusterName && n in t.nodes
    requires Saved(a) && Saved(b)
    ensures a.cluster == b.cluster && a.port == b.port
    ensures Selects(a.nodeTags, t.nodes[n].tags) == Selects(b.nodeTags, t.nodes[n].tags) <==>
            (StarCollision(TagsList(a.nodeTags), TagsList(b.nodeTags)) ==> "*" in TagsList(t.nodes[n].tags))
  {
    SameNameIff(a.cluster, a.port, a.nodeTags, b.cluster, b.port, b.nodeTags);
    if StarCollision(TagsList(a.nodeTags), TagsList(b.nodeTags)) {
      CollisionSelectsSameIff(a.nodeTags, b.nodeTags, t.nodes[n].tags);
    } else {
      SameTagsSelectSame(a.nodeTags, b.nodeTags, t.nodes[n].tags);
    }
  }

  lemma SameEndpointsIff(t: Tables, a: Route, b: Route)
    requires a.envoyClusterName == b.envoyClusterName
    requires Saved(a) && Saved(b)
    ensures Endpoints(t, a) == Endpoints(t, b) <==> SelectAlike(t, a, b)
  {
    forall n | n in t.nodes {
      SameNodeChoice(t, a, b, n);
    }
    SameNameIff(a.cluster, a.port, a.nodeTags, b.cluster, b.port, b.nodeTags);
    if Endpoints(t, a) == Endpoints(t, b) {
      forall n | n in t.nodes && t.nodes[n].cluster == a.cluster
        ensures Selects(a.nodeTags, t.nodes[n].tags) == Selects(b.nodeTags, t.nodes[n].tags)
      {
        assert n in Endpoints(t, a) <==> n in Endpoints(t, b);
      }
    }
    if SelectAlike(t, a, b) {
      assert forall n :: n in Endpoints(t, a) <==> n in Endpoints(t, b);
      assert Endpoints(t, a) == Endpoints(t, b);
    }
  }

  /** Whether two routes, if they share their name, are compiled to the same cluster. */
  ghost predicate Alike(t: Tables, a: nat, b: nat)
    requires a in t.routes && b in t.routes
  {
    t.routes[a].envoyClusterName == t.routes[b].envoyClusterName ==>
      t.routes[a].isHttps == t.routes[b].isHttps && SelectAlike(t, t.routes[a], t.routes[b])
  }

  ghost predicate NamesAgree(t: Tables) {
    forall a, b {:trigger Alike(t, a, b)} :: a in t.routes && b in t.routes ==> Alike(t, a, b)
  }

  lemma ConfigsEqualIff(t: Tables, a: Route, b: Route)
    requires Consistent(t) && a.cluster in t.clusters && b.cluster in t.clusters
             && a.envoyClusterName == b.envoyClusterName
    requires Saved(a) && Saved(b)
    ensures ConfigOf(t, a) == ConfigOf(t, b) <==> a.isHttps == b.isHttps && SelectAlike(t, a, b)
  {
    SameNameIff(a.cluster, a.port, a.nodeTags, b.cluster, b.port, b.nodeTags);
    SameEndpointsIff(t, a, b);
  }

  lemma RepresentativesAgreeIff(t: Tables, name: string, a: nat, x: ClusterConfig, b: nat, y: ClusterConfig)
    requires Consistent(t) && AllSaved(t) && Represents(t, a, name, x) && Represents(t, b, name, y)
    ensures x == y <==> Alike(t, a, b)
  {
    ConfigsEqualIff(t, t.routes[a], t.routes[b]);
  }

  lemma DocumentsEqual(x: Cds, y: Cds, P: (string, ClusterConfig) -> bool)
    requires x.Keys == y.Keys && EachEntry(x, P) && EachEntry(y, P)
    requires forall name, u, v :: P(name, u) && P(name, v) ==> u == v
    ensures x == y
  {
    forall name | name in x ensures x[name] == y[name] {
      assert P(name, x[name]) && P(name, y[name]);
    }
  }

  /** If names agree, the document does not depend on which route DISTINCT ON picks. */
  lemma CdsIsUnique(t: Tables, x: Cds, y: Cds)
    requires Consistent(t) && AllSaved(t) && NamesAgree(t) && IsCds(t, x) && IsCds(t, y)
    ensures x == y
  {
    var P := (name: string, cfg: ClusterConfig) => exists r :: Represents(t, r, name, cfg);
    forall name, u, v | P(name, u) && P(name, v) ensures u == v {
      var a :| Represents(t, a, name, u);
      var b :| Represents(t, b, name, v);
      RepresentativesAgreeIff(t, name, a, u, b, v);
    }
    DocumentsEqual(x, y, P);
  }

  lemma ReplaceEntry(x: Cds, name: string, cfg: ClusterConfig, P: (string, ClusterConfig) -> bool)
    requires EachEntry(x, P) && name in x && P(name, cfg)
    ensures EachEntry(x[name := cfg], P) && x[name := cfg].Keys == x.Keys
  {
  }

  lemma AnotherRoute(t: Tables, x: Cds, r: nat, name: string, cfg: ClusterConfig)
    requires Consistent(t) && IsCds(t, x) && Represents(t, r, name, cfg)
    ensures IsCds(t, x[name := cfg])
  {
    var P := (name: string, cfg: ClusterConfig) => exists r :: Represents(t, r, name, cfg);
    assert P(name, cfg);
    ReplaceEntry(x, name, cfg, P);
  }

  lemma OtherDocument(t: Tables, x: Cds, name: string, a: nat, u: ClusterConfig, b: nat, v: ClusterConfig)
      returns (y: Cds)
    requires Consistent(t) && IsCds(t, x) && Represents(t, a, name, u) && Represents(t, b, name, v) && u != v
    ensures IsCds(t, y) && y != x
  {
    AnotherRoute(t, x, a, name, u);
    AnotherRoute(t, x, b, name, v);
    y := if x[name := u] != x then x[name := u] else x[name := v];
    assert x[name := u][name] == u && x[name := v][name] == v;
  }

  /** If two routes of one name are not alike, another document is possible for the same tables. */
  lemma CdsIsAmbiguous(t: Tables, x: Cds, a: nat, b: nat) returns (y: Cds)
    requires Consistent(t) && AllSaved(t) && IsCds(t, x) && a in t.routes && b in t.routes && !Alike(t, a, b)
    ensures IsCds(t, y) && y != x
  {
    var name, u, v := TwoConfigs(t, a, b);
    y := OtherDocument(t, x, name, a, u, b, v);
  }

  /** The tables determine the document exactly when the routes of each name agree. */
  lemma CdsIsDeterminedIff(t: Tables, x: Cds)
    requires Consistent(t) && AllSaved(t) && IsCds(t, x)
    ensures (forall y :: IsCds(t, y) ==> y == x) <==> NamesAgree(t)
  {
    if NamesAgree(t) {
      forall y | IsCds(t, y) ensures y == x {
        CdsIsUnique(t, x, y);
      }
    } else {
      var a, b :| a in t.routes && b in t.routes && !Alike(t, a, b);
      var y := CdsIsAmbiguous(t, x, a, b);
    }
  }

  /** Two routes that differ in their HTTPS flag, or in the tags `*` and none if some node lacks the tag, share a
      name and compile to different clusters. */
  lemma SomeNamesDisagree(cluster: Cluster, ty: ServiceType, route: Route, node: Node)
      returns (flags: Tables, tags: Tables)
    requires "*" !in TagsList(node.tags) && node.cluster == route.cluster && cluster.serviceType == 0
    requires Saved(route) && route.nodeTags == ""
    ensures Consistent(flags) && AllSaved(flags) && !NamesAgree(flags)
    ensures Consistent(tags) && AllSaved(tags) && !NamesAgree(tags)
  {
    var one := Tables(map[0 := route], map[route.cluster := cluster], map[0 := node], map[], [], map[0 := ty], 0, 0);
    flags := one.(routes := map[0 := route, 1 := route.(isHttps := !route.isHttps)]);
    assert !Alike(flags, 0, 1);
    var star := route.(nodeTags := "*");
    StarTag();
    SameNameIff(route.cluster, route.port, "", route.cluster, route.port, "*");
    tags := one.(routes := map[0 := route, 1 := star]);
    assert !SelectAlike(tags, route, star) by {
      assert tags.nodes[0] == node;
    }
    assert !Alike(tags, 0, 1);
  }

  lemma StarTag()
    ensures TagsList("") == [] && TagsList("*") == ["*"] && StarCollision(TagsList(""), TagsList("*"))
  {
    assert "*"[1..] == "" && SplitCommas("") == [""];
    assert ["*"[0]] + "" == "*" && SplitCommas("*") == [["*"[0]] + ""] + [];
    assert TrimLeft("*") == "*" && TrimRight("*") == "*";
    assert Trimmed(["*"]) == ["*"] + Trimmed([]);
  }

  lemma TwoConfigs(t: Tables, a: nat, b: nat) returns (name: string, u: ClusterConfig, v: ClusterConfig)
    requires Consistent(t) && AllSaved(t) && a in t.routes && b in t.routes && !Alike(t, a, b)
    ensures name in NamesInUse(t) && Represents(t, a, name, u) && Represents(t, b, name, v) && u != v
  {
    name, u, v := t.routes[a].envoyClusterName, ConfigOf(t, t.routes[a]), ConfigOf(t, t.routes[b]);
    RepresentativesAgreeIff(t, name, a, u, b, v);
  }

  lemma SameClusterForName(t: Tables, a: nat, b: nat)
    requires Consistent(t) && AllSaved(t) && a in t.routes && b in t.routes
             && t.routes[a].envoyClusterName == t.routes[b].envoyClusterName
    ensures t.routes[a].cluster == t.routes[b].cluster
  {
    var x, y := t.routes[a], t.routes[b];
    assert Saved(x) && Saved(y);
    SameNameIff(x.cluster, x.port, x.nodeTags, y.cluster, y.port, y.nodeTags);
  }
}

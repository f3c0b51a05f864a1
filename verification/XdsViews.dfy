/** The discovery views and the signal handlers as they run on the shared cache:
    aap_gateway_api/views/api/envoy/rest_control_plane.py, aap_gateway_api/signals/xds_cache.py and the
    listener builder of aap_gateway_api/models/http_port.py.

    What the database answers to a query is a parameter, constrained by what the query asks for. */
module XdsViews {
  import opened ClusterNames
  import opened Wrappers
  import opened XdsCache
  import opened XdsDocuments
  import opened XdsListeners

  // ---------- answers of the database ----------

  /** DISTINCT ON the cluster name: one route for each matching name. */
  ghost predicate IsDistinctOn(t: Tables, names: string, rows: seq<nat>) {
    && (forall i :: 0 <= i < |rows| ==> rows[i] in t.routes)
    && (forall i, j :: 0 <= i < j < |rows| ==> t.routes[rows[i]].envoyClusterName != t.routes[rows[j]].envoyClusterName)
    && (forall name :: name in MatchingNames(t, names) <==>
       exists i :: 0 <= i < |rows| && t.routes[rows[i]].envoyClusterName == name)
  }

  // ---------- builders ----------

  /** `get_xds_cluster_config`, with the route's stashed maximum. */
  method ClusterConfigOf(t: Tables, r: nat, maxRouteTimeout: nat) returns (cfg: ClusterConfig)
    requires Consistent(t) && r in t.routes && IsMaxRouteTimeout(t.routes, t.routes[r].cluster, maxRouteTimeout)
    ensures Represents(t, r, t.routes[r].envoyClusterName, cfg)
  {
    var route, cluster := t.routes[r], t.clusters[t.routes[r].cluster];
    cfg := ClusterConfig(Endpoints(t, route), route.port, route.isHttps, "", None);
    if cluster.healthChecks {
      var timeout := Max(Max(cluster.healthTimeout, maxRouteTimeout), t.requestTimeout);
      var interval := Max(cluster.healthInterval, timeout);
      cfg := cfg.(health := Some(Health(timeout, interval, t.types[cluster.serviceType].pingUrl)));
    }
    if route.isHttps {
      cfg := cfg.(hostname := cluster.upstreamHostname);
    }
  }

  method BuildClusters(t: Tables, names: string, rows: seq<nat>, maxTimeouts: map<nat, nat>) returns (clusters: Cds)
    requires Consistent(t) && IsDistinctOn(t, names, rows)
    requires forall c :: c in t.clusters ==> c in maxTimeouts && IsMaxRouteTimeout(t.routes, c, maxTimeouts[c])
    ensures AnswersCds(t, names, clusters)
  {
    var stashed: map<nat, nat> := map[];
    for i := 0 to |rows|
      invariant forall k :: 0 <= k < i ==>
                rows[k] in stashed && stashed[rows[k]] == maxTimeouts[t.routes[rows[k]].cluster]
    {
      stashed := stashed[rows[i] := maxTimeouts[t.routes[rows[i]].cluster]];
    }
    clusters := map[];
    for i := 0 to |rows|
      invariant forall name :: name in clusters ==> SomeRouteGives(t, name, clusters[name])
      invariant forall name :: name in clusters <==>
                exists k :: 0 <= k < i && t.routes[rows[k]].envoyClusterName == name
    {
      var cfg := ClusterConfigOf(t, rows[i], stashed[rows[i]]);
      clusters := clusters[t.routes[rows[i]].envoyClusterName := cfg];
    }
    forall name ensures name in clusters.Keys <==> name in MatchingNames(t, names) {}
  }

  /** The redirects of the API port, as the dict they are collected in. */
  method RedirectRoutes(t: Tables, order: seq<nat>) returns (redirects: seq<Entry>)
    requires forall r :: r in order ==> r in t.routes
    ensures redirects == Redirects(t, order)
  {
    redirects := [Redirect("/api", "/api/")];
    for i := 0 to |order|
      invariant redirects == Redirects(t, order[..i])
    {
      var path := t.routes[order[i]].gatewayPath;
      assert order[..i + 1][..i] == order[..i];
      if IsApiPath(path) {
        redirects := Assign(redirects, StripSlashes(path), path);
      }
    }
    assert order[..|order|] == order;
  }

  method RouteConfigs(t: Tables, order: seq<nat>, gateway: Option<string>) returns (routes: seq<Entry>)
    requires Consistent(t) && forall r :: r in order ==> r in t.routes
    ensures routes == AllRouteEntries(t, order, gateway)
  {
    routes := [];
    for i := 0 to |order|
      invariant routes == AllRouteEntries(t, order[..i], gateway)
    {
      assert order[..i + 1][..i] == order[..i];
      routes := routes + RouteEntries(t, t.routes[order[i]], gateway);
    }
    assert order[..|order|] == order;
  }

  /** `get_xds_listener_config` for the routes of the port in rank order. */
  method ListenerConfigOf(t: Tables, port: nat, order: seq<nat>, gateway: Option<string>) returns (routes: seq<Entry>)
    requires Consistent(t) && port in t.ports && IsRouteOrder(t, port, order)
    ensures routes == ListenerEntries(t, port, order, gateway)
  {
    routes := [Up];
    if t.ports[port].isApiPort {
      var redirects := RedirectRoutes(t, order);
      routes := routes + redirects;
    }
    var configured := RouteConfigs(t, order, gateway);
    routes := routes + configured;
  }

  lemma ListenersAnswer(t: Tables, names: string, ports: seq<nat>, gateway: Option<string>, listeners: Lds)
    requires Consistent(t) && IsGatewayName(t, gateway)
    requires forall p :: p in ports <==> p in t.ports && Matches(names, ListenerName(t.ports[p].number))
    requires forall p :: p in listeners <==> p in ports
    requires forall p :: p in listeners ==> IsListener(t, p, gateway, listeners[p])
    ensures AnswersLds(t, names, listeners)
  {
    GatewayNameIsUnique(t, gateway, GatewayName(t));
  }

  ghost predicate Orders(t: Tables, ports: seq<nat>, orders: map<nat, seq<nat>>) {
    forall p :: p in ports ==> p in orders && IsRouteOrder(t, p, orders[p])
  }

  method BuildListeners(t: Tables, names: string, ports: seq<nat>, orders: map<nat, seq<nat>>, gateway: Option<string>)
    returns (listeners: Lds)
    requires Consistent(t) && IsGatewayName(t, gateway)
    requires forall p :: p in ports <==> p in t.ports && Matches(names, ListenerName(t.ports[p].number))
    requires Orders(t, ports, orders)
    ensures AnswersLds(t, names, listeners)
  {
    listeners := EachListener(t, ports, orders, gateway);
    ListenersAnswer(t, names, ports, gateway, listeners);
  }

  method EachListener(t: Tables, ports: seq<nat>, orders: map<nat, seq<nat>>, gateway: Option<string>)
      returns (listeners: Lds)
    requires Consistent(t) && (forall p :: p in ports ==> p in t.ports) && Orders(t, ports, orders)
    ensures forall p :: p in listeners <==> p in ports
    ensures forall p :: p in listeners ==> IsListener(t, p, gateway, listeners[p])
  {
    listeners := map[];
    for i := 0 to |ports|
      invariant forall p :: p in listeners <==> p in ports[..i]
      invariant forall p :: p in listeners ==> IsListener(t, p, gateway, listeners[p])
    {
      var p := ports[i];
      assert p in ports;
      var routes := ListenerConfigOf(t, p, orders[p], gateway);
      assert IsListener(t, p, gateway, routes);
      listeners := listeners[p := routes];
    }
  }

  // ---------- the control plane ----------

  class ControlPlane {
    var tables: Tables
    var cache: Cache

    ghost function State(): System
      reads this
    {
      System(tables, cache)
    }

    constructor (tables: Tables)
      requires Consistent(tables) && AllSaved(tables)
      ensures this.tables == tables && Coherent(State())
    {
      this.tables := tables;
      cache := Cache(None, None, None);
    }

    /** One CDS request.  If the cache misses, `rows` and `maxTimeouts` are what the database answers. */
    method ClusterDiscovery(names: string, rows: seq<nat>, maxTimeouts: map<nat, nat>)
        returns (response: Cds, ghost step: Step)
      requires Consistent(tables)
      requires cache.cds.None? ==> IsDistinctOn(tables, names, rows)
      requires cache.cds.None? ==> forall c :: c in tables.clusters ==>
               c in maxTimeouts && IsMaxRouteTimeout(tables.routes, c, maxTimeouts[c])
      modifies this`cache
      ensures step.ReadCds? && step.names == names && Legal(old(State()), step) && State() == Apply(old(State()), step)
      ensures response == if old(cache).cds.Some? then old(cache).cds.value else step.clusters
    {
      if cache.cds.Some? {
        response := cache.cds.value;
        step := ReadCds(names, response);
        return;
      }
      response := BuildClusters(tables, names, rows, maxTimeouts);
      step := ReadCds(names, response);
      if response != map[] {
        cache := cache.(cds := Some(response));
      }
    }

    /** One LDS request. */
    method ListenerDiscovery(names: string, ports: seq<nat>, orders: map<nat, seq<nat>>, gateway: Option<string>)
      returns (response: Lds, ghost step: Step)
      requires Consistent(tables)
      requires cache.lds.None? ==> IsGatewayName(tables, gateway)
      requires cache.lds.None? ==> forall p :: p in ports <==>
               p in tables.ports && Matches(names, ListenerName(tables.ports[p].number))
      requires cache.lds.None? ==> Orders(tables, ports, orders)
      modifies this`cache
      ensures step.ReadLds? && step.names == names && Legal(old(State()), step) && State() == Apply(old(State()), step)
      ensures response == if old(cache).lds.Some? then old(cache).lds.value else step.listeners
    {
      if cache.lds.Some? {
        response := cache.lds.value;
        step := ReadLds(names, response);
        return;
      }
      response := BuildListeners(tables, names, ports, orders, gateway);
      step := ReadLds(names, response);
      if response != map[] {
        cache := cache.(lds := Some(response));
      }
    }

    /** One SDS request. */
    method SecretDiscovery() returns (response: seq<string>)
      modifies this`cache
      ensures State() == Apply(old(State()), ReadSds)
      ensures old(cache).sds.None? ==> response == Pems(tables.certificates)
      ensures old(cache).sds.Some? ==> response == old(cache).sds.value
    {
      if cache.sds.Some? {
        return cache.sds.value;
      }
      var blocks: seq<string> := [];
      for i := 0 to |tables.certificates|
        invariant cache == old(cache) && tables == old(tables)
        invariant blocks + Pems(tables.certificates[i..]) == Pems(tables.certificates)
      {
        var pem := TrimRight(TrimLeft(tables.certificates[i]));
        assert tables.certificates[i..][1..] == tables.certificates[i + 1..];
        if pem != "" {
          blocks := blocks + [pem];
        }
      }
      assert blocks + [] == blocks;
      response := blocks;
      cache := cache.(sds := Some(response));
    }

    /** A commit: the new rows become visible, then the handler of each saved or deleted object runs, in the
        order of the saves. */
    method Commit(saved: seq<Model>, after: Tables)
      modifies this
      ensures State() == Apply(old(State()), Step.Commit((set m | m in saved), after))
    {
      tables := after;
      var before := cache;
      for i := 0 to |saved|
        invariant tables == after
        invariant cache == Invalidate(before, (set m | m in saved[..i]))
      {
        match saved[i] {
          case RouteModel => cache := cache.(cds := None, lds := None);
          case PortModel => cache := cache.(lds := None);
          case ClusterModel => cache := cache.(cds := None, lds := None);
          case NodeModel => cache := cache.(cds := None);
          case CertificateModel => cache := cache.(sds := None);
          case TypeModel =>
          case PreferenceModel =>
        }
        assert forall m :: m in saved[..i + 1] <==> m in saved[..i] || m == saved[i];
      }
      assert saved[..|saved|] == saved;
    }
  }
}

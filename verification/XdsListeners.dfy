/** The Envoy listener document: aap_gateway_api/models/http_port.py and the route builders of
    aap_gateway_api/models/route.py. */
module XdsListeners {
  import opened Sets
  import opened Wrappers
  import opened XdsDocuments

  // How Envoy's external authorization treats a route; it is told the type of the service.
  datatype Auth = Disabled | Exempt(serviceType: string) | Checked(serviceType: string)

  datatype Entry =
    | Up
    | Redirect(path: string, target: string)
    | Login(prefix: string, cluster: string)
    | Logout(prefix: string, cluster: string)
    | Main(prefix: string, rewrite: string, cluster: string, timeout: nat, idleTimeout: nat, auth: Auth)

  function ClusterOf(e: Entry): Option<string> {
    match e
    case Login(_, cluster) => Some(cluster)
    case Logout(_, cluster) => Some(cluster)
    case Main(_, _, cluster, _, _, _) => Some(cluster)
    case _ => None
  }

  // ---------- the entries of one route ----------

  function StripSlashes(s: string): string {
    if s != "" && s[|s| - 1] == '/' then StripSlashes(s[..|s| - 1]) else s
  }

  /** A missing path is rendered as the text None. */
  function AuthPath(typeName: string, path: Option<string>, urlPrefix: string): Option<string> {
    if typeName == "controller" || typeName == "eda" then Some(StripSlashes(urlPrefix) + path.GetOr("None"))
    else if typeName == "hub" then Some(path.GetOr("None"))
    else None
  }

  function LoginLogout(t: Tables, r: Route, gateway: Option<string>): seq<Entry>
    requires Consistent(t) && r.cluster in t.clusters
  {
    if !r.enableGatewayAuth || gateway.None? then []
    else
      var st := t.types[t.clusters[r.cluster].serviceType];
      var login, logout := AuthPath(st.name, st.loginPath, r.gatewayPath),
          AuthPath(st.name, st.logoutPath, r.gatewayPath);
      (if login.Some? then [Login(login.value, gateway.value)] else [])
          + (if logout.Some? then [Logout(logout.value, gateway.value)] else [])
  }

  function AuthOf(t: Tables, r: Route): Auth
    requires Consistent(t) && r.cluster in t.clusters
  {
    var name := t.types[t.clusters[r.cluster].serviceType].name;
    if r.enableGatewayAuth then Checked(name) else if name == "eda" then Exempt(name) else Disabled
  }

  /** The effective timeouts are the larger of the route's own and the preference. */
  function MainEntry(t: Tables, r: Route): Entry
    requires Consistent(t) && r.cluster in t.clusters
  {
    Main(r.gatewayPath, r.servicePath, r.envoyClusterName, Max(r.requestTimeout, t.requestTimeout),
        Max(r.idleTimeout, t.idleTimeout), AuthOf(t, r))
  }

  /** A route with a blank path or name is left out. */
  predicate HasEntries(r: Route) {
    r.gatewayPath != "" && r.servicePath != "" && r.envoyClusterName != ""
  }

  function RouteEntries(t: Tables, r: Route, gateway: Option<string>): seq<Entry>
    requires Consistent(t) && r.cluster in t.clusters
  {
    if HasEntries(r) then LoginLogout(t, r, gateway) + [MainEntry(t, r)] else []
  }

  // ---------- redirects ----------

  /** One assignment in a Python dict: in place if the key is there, else at the end. */
  function Assign(redirects: seq<Entry>, path: string, target: string): seq<Entry> {
    if redirects == [] then [Redirect(path, target)]
    else if redirects[0].Redirect? && redirects[0].path == path then [Redirect(path, target)] + redirects[1..]
    else [redirects[0]] + Assign(redirects[1..], path, target)
  }

  predicate IsApiPath(path: string) {
    "/api/" <= path && path[|path| - 1] == '/'
  }

  function Redirects(t: Tables, order: seq<nat>): seq<Entry>
    requires forall r :: r in order ==> r in t.routes
  {
    if order == [] then [Redirect("/api", "/api/")]
    else
      var before, path := Redirects(t, order[..|order| - 1]), t.routes[order[|order| - 1]].gatewayPath;
      if IsApiPath(path) then Assign(before, StripSlashes(path), path) else before
  }

  /** Each redirect adds trailing slashes to its own path, and no path has two redirects. */
  ghost predicate GoodRedirects(es: seq<Entry>) {
    && (forall e :: e in es ==>
       e.Redirect? && e.path == StripSlashes(e.target) && e.target != "" && e.target[|e.target| - 1] == '/')
    && (forall i, j :: 0 <= i < j < |es| ==> es[i].path != es[j].path)
  }

  lemma {:induction false} AssignIsGood(es: seq<Entry>, target: string)
    requires GoodRedirects(es) && target != "" && target[|target| - 1] == '/'
    ensures var after := Assign(es, StripSlashes(target), target);
            && GoodRedirects(after)
            && (forall e :: e in after ==> e == Redirect(StripSlashes(target), target) || e in es)
            && Redirect(StripSlashes(target), target) in after
    decreases |es|
  {
    if es != [] {
      var path := StripSlashes(target);
      assert es[0] in es;
      assert GoodRedirects(es[1..]);
      if es[0].path == path {
        var after := [Redirect(path, target)] + es[1..];
        forall i, j | 0 <= i < j < |after| ensures after[i].path != after[j].path {
          assert es[i].path != es[j].path;
        }
      } else {
        AssignIsGood(es[1..], target);
        var rest := Assign(es[1..], path, target);
        forall k | 0 <= k < |rest| ensures es[0].path != rest[k].path {
          assert rest[k] in rest;
          if rest[k] in es[1..] {
            var m :| 0 <= m < |es[1..]| && es[1..][m] == rest[k];
            assert es[m + 1] == rest[k];
          }
        }
      }
    }
  }

  lemma {:induction false} RedirectsAreGood(t: Tables, order: seq<nat>)
    requires forall r :: r in order ==> r in t.routes
    ensures GoodRedirects(Redirects(t, order))
    ensures forall r :: r in order && IsApiPath(t.routes[r].gatewayPath) ==>
              exists e :: e in Redirects(t, order) && e.Redirect? && e.path == StripSlashes(t.routes[r].gatewayPath)
    decreases |order|
  {
    if order == [] {
      assert StripSlashes("/api/") == "/api" by {
        assert "/api/"[..4] == "/api";
      }
    } else {
      var init, last := order[..|order| - 1], order[|order| - 1];
      RedirectsAreGood(t, init);
      var before, path := Redirects(t, init), t.routes[last].gatewayPath;
      if IsApiPath(path) {
        AssignIsGood(before, path);
        KeepsPaths(before, StripSlashes(path), path);
      }
      forall r | r in order && IsApiPath(t.routes[r].gatewayPath)
        ensures exists e :: e in Redirects(t, order) && e.Redirect? && e.path == StripSlashes(t.routes[r].gatewayPath)
      {
        if r == last {
          assert Redirect(StripSlashes(path), path) in Redirects(t, order);
        } else {
          assert r in init;
        }
      }
    }
  }

  lemma {:induction false} KeepsPaths(es: seq<Entry>, path: string, target: string)
    requires forall e :: e in es ==> e.Redirect?
    ensures forall e :: e in es ==> exists f :: f in Assign(es, path, target) && f.Redirect? && f.path == e.path
    decreases |es|
  {
    if es != [] {
      KeepsPaths(es[1..], path, target);
      var after := Assign(es, path, target);
      forall e | e in es ensures exists f :: f in after && f.Redirect? && f.path == e.path {
        if e == es[0] {
          assert after[0] in after && after[0].path == e.path;
        } else if es[0].path == path {
          assert e in after;
        } else {
          var f :| f in Assign(es[1..], path, target) && f.Redirect? && f.path == e.path;
          assert f in after;
        }
      }
    }
  }

  /** No redirect leads to another one: a client is redirected at most once. */
  lemma NoRedirectChain(es: seq<Entry>, e: Entry, f: Entry)
    requires GoodRedirects(es) && e in es && f in es
    ensures e.target != f.path
  {
    StrippedHasNoSlash(f.target);
  }

  lemma {:induction false} StrippedHasNoSlash(s: string)
    ensures StripSlashes(s) == "" || StripSlashes(s)[|StripSlashes(s)| - 1] != '/'
    decreases |s|
  {
    if s != "" && s[|s| - 1] == '/' {
      StrippedHasNoSlash(s[..|s| - 1]);
    }
  }

  // ---------- the document ----------

  predicate IsFirst(x: nat, s: set<nat>) {
    x in s && forall y :: y in s ==> x <= y
  }

  function GatewayClusters(t: Tables): set<nat>
    requires Consistent(t)
  {
    set c | c in t.clusters && t.types[t.clusters[c].serviceType].name == "gateway"
  }

  function RoutesOf(t: Tables, c: nat): set<nat> {
    set r | r in t.routes && t.routes[r].cluster == c
  }

  /** The name of the first route of the first gateway cluster, if there are any. */
  ghost predicate IsGatewayName(t: Tables, gateway: Option<string>)
    requires Consistent(t)
  {
    match gateway
    case None => forall c :: IsFirst(c, GatewayClusters(t)) ==> RoutesOf(t, c) == {}
    case Some(name) => exists c, r ::
        IsFirst(c, GatewayClusters(t)) && IsFirst(r, RoutesOf(t, c)) && t.routes[r].envoyClusterName == name
  }

  lemma {:induction false} FirstExists(s: set<nat>) returns (x: nat)
    requires s != {}
    ensures IsFirst(x, s)
    decreases s
  {
    x := Pick(s);
    var rest := s - {x};
    assert s == rest + {x};
    if rest != {} {
      var y := FirstExists(rest);
      if y < x {
        x := y;
      }
    }
  }

  lemma GatewayNameExists(t: Tables)
    requires Consistent(t)
    ensures exists gateway :: IsGatewayName(t, gateway)
  {
    if GatewayClusters(t) == {} {
      assert IsGatewayName(t, None);
    } else {
      var c := FirstExists(GatewayClusters(t));
      if RoutesOf(t, c) == {} {
        assert IsGatewayName(t, None);
      } else {
        var r := FirstExists(RoutesOf(t, c));
        assert IsGatewayName(t, Some(t.routes[r].envoyClusterName));
      }
    }
  }

  lemma GatewayNameIsUnique(t: Tables, a: Option<string>, b: Option<string>)
    requires Consistent(t) && IsGatewayName(t, a) && IsGatewayName(t, b)
    ensures a == b
  {
  }

  ghost function GatewayName(t: Tables): (gateway: Option<string>)
    requires Consistent(t)
    ensures IsGatewayName(t, gateway)
  {
    GatewayNameExists(t);
    var gateway :| IsGatewayName(t, gateway);
    gateway
  }

  lemma GatewayNameFrame(t: Tables, u: Tables)
    requires Consistent(t) && Consistent(u) && u.routes == t.routes && u.clusters == t.clusters && u.types == t.types
    ensures GatewayName(u) == GatewayName(t)
  {
    assert GatewayClusters(u) == GatewayClusters(t);
    assert forall c :: RoutesOf(u, c) == RoutesOf(t, c);
    assert IsGatewayName(u, GatewayName(t));
    GatewayNameIsUnique(u, GatewayName(u), GatewayName(t));
  }

  /** The routes of a port by rank; routes of equal rank come in any order. */
  ghost predicate IsRouteOrder(t: Tables, port: nat, order: seq<nat>) {
    && (forall r :: r in order <==> r in t.routes && t.routes[r].httpPort == port)
    && (forall i, j :: 0 <= i < j < |order| ==>
       order[i] != order[j] && t.routes[order[i]].rank <= t.routes[order[j]].rank)
  }

  function AllRouteEntries(t: Tables, order: seq<nat>, gateway: Option<string>): seq<Entry>
    requires Consistent(t) && forall r :: r in order ==> r in t.routes
  {
    if order == [] then []
    else AllRouteEntries(t, order[..|order| - 1], gateway) + RouteEntries(t, t.routes[order[|order| - 1]], gateway)
  }

  function ListenerEntries(t: Tables, port: nat, order: seq<nat>, gateway: Option<string>): seq<Entry>
    requires Consistent(t) && port in t.ports && forall r :: r in order ==> r in t.routes
  {
    [Up] + (if t.ports[port].isApiPort then Redirects(t, order) else []) + AllRouteEntries(t, order, gateway)
  }

  type Lds = map<nat, seq<Entry>>

  ghost predicate IsListener(t: Tables, port: nat, gateway: Option<string>, entries: seq<Entry>)
    requires Consistent(t)
  {
    port in t.ports && exists order ::
        IsRouteOrder(t, port, order) && entries == ListenerEntries(t, port, order, gateway)
  }

  ghost predicate IsLds(t: Tables, doc: Lds)
    requires Consistent(t)
  {
    doc.Keys == t.ports.Keys && ListenersFit(t, doc)
  }

  ghost predicate ListenersFit(t: Tables, doc: Lds)
    requires Consistent(t)
  {
    forall p :: p in doc ==> IsListener(t, p, GatewayName(t), doc[p])
  }

  // ---------- the two documents refer to each other ----------

  lemma {:induction false} EntriesUseKnownNames(t: Tables, order: seq<nat>, gateway: Option<string>, e: Entry)
    requires Consistent(t) && forall r :: r in order ==> r in t.routes
    requires e in AllRouteEntries(t, order, gateway)
    ensures ClusterOf(e).Some?
    ensures ClusterOf(e) == gateway || exists r :: r in order && ClusterOf(e) == Some(t.routes[r].envoyClusterName)
    decreases |order|
  {
    var last := order[|order| - 1];
    if e !in RouteEntries(t, t.routes[last], gateway) {
      EntriesUseKnownNames(t, order[..|order| - 1], gateway, e);
    }
  }

  lemma ListenerUsesKnownNames(t: Tables, gateway: Option<string>, port: nat, entries: seq<Entry>, e: Entry)
    requires Consistent(t) && IsGatewayName(t, gateway) && IsListener(t, port, gateway, entries)
    requires e in entries && ClusterOf(e).Some?
    ensures ClusterOf(e).value in NamesInUse(t)
  {
    var order :| IsRouteOrder(t, port, order) && entries == ListenerEntries(t, port, order, gateway);
    RedirectsAreGood(t, order);
    EntriesUseKnownNames(t, order, gateway, e);
  }

  /** Every cluster a listener refers to, for its routes or for login and logout, is defined by the cluster
      document built from the same tables. */
  lemma ReferencedClustersAreDefined(t: Tables, cds: Cds, lds: Lds, port: nat, e: Entry)
    requires Consistent(t) && IsCds(t, cds) && IsLds(t, lds)
    requires port in lds && e in lds[port] && ClusterOf(e).Some?
    ensures ClusterOf(e).value in cds
  {
    ListenerUsesKnownNames(t, GatewayName(t), port, lds[port], e);
  }

  /** Every listener answers `/up` itself first, then the redirects; only the API port has any, and they form
      no chain. */
  lemma ListenerRedirects(t: Tables, lds: Lds, port: nat)
    requires Consistent(t) && IsLds(t, lds) && port in lds
    ensures lds[port] != [] && lds[port][0] == Up
    ensures (exists e :: e in lds[port] && e.Redirect?) <==> t.ports[port].isApiPort
    ensures forall e, f :: e in lds[port] && f in lds[port] && e.Redirect? && f.Redirect? ==> e.target != f.path
  {
    var gateway := GatewayName(t);
    assert IsListener(t, port, gateway, lds[port]);
    var order :| IsRouteOrder(t, port, order) && lds[port] == ListenerEntries(t, port, order, gateway);
    RedirectsAreGood(t, order);
    var redirects := Redirects(t, order);
    NonEmpty(t, order);
    if t.ports[port].isApiPort {
      assert redirects[0] in redirects && redirects[0] in lds[port];
    }
    forall e | e in lds[port] && e.Redirect? ensures t.ports[port].isApiPort && e in redirects {
      if e in AllRouteEntries(t, order, gateway) {
        EntriesUseKnownNames(t, order, gateway, e);
      }
    }
    forall e, f | e in lds[port] && f in lds[port] && e.Redirect? && f.Redirect? ensures e.target != f.path {
      NoRedirectChain(redirects, e, f);
    }
  }

  lemma {:induction false} NonEmpty(t: Tables, order: seq<nat>)
    requires forall r :: r in order ==> r in t.routes
    ensures Redirects(t, order) != []
    decreases |order|
  {
    if order != [] {
      NonEmpty(t, order[..|order| - 1]);
    }
  }
}

/** Builds of aap_gateway_api/views/api/envoy/rest_control_plane.py that commits disturb: when storing the document is
    still right, whatever has happened since the build began. */
module XdsStraddles {
  import opened Wrappers
  import opened XdsBlocks
  import opened XdsBuilds
  import Cache = XdsCache
  import opened XdsDocuments
  import opened XdsListeners
  import opened XdsWrites

  // ---------- from the start of a build to its end ----------

  /** No step begins or stores a build of that number. */
  predicate LeavesAlone(steps: seq<Step>, id: nat) {
    forall step :: step in steps ==> !IsAbout(step, id)
  }

  predicate IsAbout(step: Step, id: nat) {
    match step
    case BeginCds(i, _, _) => i == id
    case BeginLds(i, _, _) => i == id
    case BeginSds(i) => i == id
    case StoreCds(i) => i == id
    case StoreLds(i) => i == id
    case StoreSds(i) => i == id
    case Write(_, _) => false
  }

  /** Until it is stored, a build stays as it began. */
  lemma {:induction false} BuildWaits(s: Busy, steps: seq<Step>, id: nat)
    requires LeavesAlone(steps, id)
    ensures var r := Run(s, steps);
            && (id in s.cds ==> id in r.cds && r.cds[id].doc == s.cds[id].doc)
            && (id in s.lds ==> id in r.lds && r.lds[id].doc == s.lds[id].doc)
            && (id in s.sds ==> id in r.sds && r.sds[id].doc == s.sds[id].doc)
    decreases |steps|
  {
    if steps != [] {
      BuildWaits(s, steps[..|steps| - 1], id);
      assert !IsAbout(steps[|steps| - 1], id);
    }
  }

  // ---------- clusters ----------

  /** After the write some route of the same name compiles to the cluster that r compiled to before. */
  ghost predicate KeepsCluster(t: Tables, u: Tables, r: nat)
    requires Consistent(t) && Consistent(u) && r in t.routes
  {
    exists q :: Represents(u, q, t.routes[r].envoyClusterName, ConfigOf(t, t.routes[r]))
  }

  /** The write neither adds nor removes a cluster name and keeps the cluster of each. */
  ghost predicate KeepsClusters(t: Tables, u: Tables)
    requires Consistent(t) && Consistent(u)
  {
    NamesInUse(u) == NamesInUse(t) && forall r :: r in t.routes ==> KeepsCluster(t, u, r)
  }

  lemma DocumentSurvives(t: Tables, u: Tables, built: Cds)
    requires Consistent(t) && Consistent(u) && IsCds(t, built) && KeepsClusters(t, u)
    ensures IsCds(u, built)
  {
    forall name | name in built ensures exists q :: Represents(u, q, name, built[name]) {
      var r :| Represents(t, r, name, built[name]);
      assert KeepsCluster(t, u, r);
    }
  }

  lemma EntryIsConfig(t: Tables, built: Cds, r: nat)
    requires Consistent(t) && AllSaved(t) && NamesAgree(t) && IsCds(t, built) && r in t.routes
    ensures t.routes[r].envoyClusterName in built
    ensures built[t.routes[r].envoyClusterName] == ConfigOf(t, t.routes[r])
  {
    var name := t.routes[r].envoyClusterName;
    assert name in NamesInUse(t);
    var a :| Represents(t, a, name, built[name]);
    RepresentativesAgreeIff(t, name, a, built[name], r, ConfigOf(t, t.routes[r]));
    assert Alike(t, a, r);
  }

  /** A document that its tables determine is still right after a write exactly when the write keeps its clusters. */
  lemma DocumentSurvivesIff(t: Tables, u: Tables, built: Cds)
    requires Consistent(t) && Consistent(u) && AllSaved(t) && NamesAgree(t) && IsCds(t, built)
    ensures IsCds(u, built) <==> KeepsClusters(t, u)
  {
    if IsCds(u, built) {
      forall r | r in t.routes ensures KeepsCluster(t, u, r) {
        EntryIsConfig(t, built, r);
      }
    }
    if KeepsClusters(t, u) {
      DocumentSurvives(t, u, built);
    }
  }

  lemma SwitchedHealth(t: Tables, built: Cds, r: nat) returns (after: Tables)
    requires Consistent(t) && AllSaved(t) && Cache.AnswersCds(t, "", built) && r in t.routes
    ensures Consistent(after) && AllSaved(after) && Cache.Frame({Cache.ClusterModel}, t, after)
    ensures built != map[] && !IsCds(after, built)
  {
    Cache.WholeAnswerIsDocument(t, "");
    var c := t.routes[r].cluster;
    after := t.(clusters := t.clusters[c := t.clusters[c].(healthChecks := !t.clusters[c].healthChecks)]);
    SavedStays(t, after);
    HealthNow(t, built, r);
    if IsCds(after, built) {
      HealthNow(after, built, r);
    }
  }

  lemma CachedClusters(s: Cache.System, built: Cds)
    requires Cache.Coherent(s)
    ensures Cache.Coherent(s.(cache := s.cache.(cds := Some(built)))) <==> IsCds(s.tables, built)
  {
  }

  /** Storing clusters that were built from tables that determine them keeps the cache coherent exactly when there
      was nothing to build or what was committed since keeps the clusters. */
  lemma StoredClustersIff(s: Busy, id: nat, begun: Tables)
    requires Cache.Coherent(s.system) && id in s.cds
    requires Consistent(begun) && AllSaved(begun) && NamesAgree(begun) && IsCds(begun, s.cds[id].doc)
    ensures Cache.Coherent(Apply(s, StoreCds(id)).system) <==>
            begun.routes == map[] || KeepsClusters(begun, s.system.tables)
  {
    var built := s.cds[id].doc;
    DocumentSurvivesIff(begun, s.system.tables, built);
    CachedClusters(s.system, built);
    if r :| r in begun.routes {
      assert begun.routes[r].envoyClusterName in NamesInUse(begun);
    } else {
      assert built.Keys == {};
    }
  }

  /** A cluster build from its start to its end, whatever other requests and commits come between. */
  lemma StraddleIsCoherentIff(s: Busy, id: nat, built: Cds, steps: seq<Step>)
    requires Consistent(s.system.tables) && AllSaved(s.system.tables) && NamesAgree(s.system.tables)
    requires s.system.cache.cds.None? && Legal(s, BeginCds(id, "", built)) && LeavesAlone(steps, id)
    requires Cache.Coherent(Run(Apply(s, BeginCds(id, "", built)), steps).system)
    ensures var r := Run(Apply(s, BeginCds(id, "", built)), steps);
            Cache.Coherent(Apply(r, StoreCds(id)).system) <==>
              s.system.tables.routes == map[] || KeepsClusters(s.system.tables, r.system.tables)
  {
    Cache.WholeAnswerIsDocument(s.system.tables, "");
    BuildWaits(Apply(s, BeginCds(id, "", built)), steps, id);
    StoredClustersIff(Run(Apply(s, BeginCds(id, "", built)), steps), id, s.system.tables);
  }

  /** A commit that signals may be enough: switching the health checks of a cluster in use is. */
  lemma StraddlingBuildCanBeStale(s: Busy, id: nat, built: Cds, r: nat) returns (commit: Step)
    requires Sound(s) && s.system.cache.cds.None? && r in s.system.tables.routes && Legal(s, BeginCds(id, "", built))
    ensures commit.Write? && Legal(s, commit) && Cache.Signalled(Cache.Commit(commit.touched, commit.after))
    ensures !Cache.Coherent(Apply(Apply(Apply(s, BeginCds(id, "", built)), commit), StoreCds(id)).system)
  {
    var after := SwitchedHealth(s.system.tables, built, r);
    commit := Write({Cache.ClusterModel}, after);
    Cache.CommitKeepsCoherence(s.system, {Cache.ClusterModel}, after);
    StoredIsStale(Apply(Apply(s, BeginCds(id, "", built)), commit), id, built);
  }

  lemma StoredIsStale(s: Busy, id: nat, built: Cds)
    requires Consistent(s.system.tables) && !IsCds(s.system.tables, built)
    requires id in s.cds && s.cds[id].doc == built != map[]
    ensures !Cache.Coherent(Apply(s, StoreCds(id)).system)
  {
  }

  // ---------- certificates ----------

  /** Storing certificates keeps the cache coherent exactly when those served, stripped and without empty ones, are
      still the same. */
  lemma StoredCertificatesIff(s: Busy, id: nat, begun: Tables)
    requires Cache.Coherent(s.system) && id in s.sds && s.sds[id].doc == Cache.Pems(begun.certificates)
    ensures Cache.Coherent(Apply(s, StoreSds(id)).system) <==>
            Cache.Pems(s.system.tables.certificates) == Cache.Pems(begun.certificates)
  {
    assert Apply(s, StoreSds(id)).system == s.system.(cache := s.system.cache.(sds := Some(s.sds[id].doc)));
  }

  // ---------- listeners ----------

  predicate NoBlanks(t: Tables) {
    forall r :: r in t.routes ==> HasEntries(t.routes[r])
  }

  /** What the constraints and the validation of routes ask for. */
  ghost predicate WellFormed(t: Tables) {
    Consistent(t) && UniquePaths(t) && NoBlanks(t)
  }

  /** Route r before the write and route q after it have the same entries on the same port. */
  ghost predicate SameBlock(t: Tables, u: Tables, r: nat, q: nat)
    requires Consistent(t) && Consistent(u)
  {
    && r in t.routes && q in u.routes && t.routes[r].httpPort == u.routes[q].httpPort
    && RouteEntries(t, t.routes[r], GatewayName(t)) == RouteEntries(u, u.routes[q], GatewayName(u))
  }

  ghost predicate HasSuccessor(t: Tables, u: Tables, r: nat)
    requires Consistent(t) && Consistent(u)
  {
    exists q :: SameBlock(t, u, r, q)
  }

  ghost predicate HasPredecessor(t: Tables, u: Tables, q: nat)
    requires Consistent(t) && Consistent(u)
  {
    exists r :: SameBlock(t, u, r, q)
  }

  /** Where r may come before x, its successor may come before that of x. */
  ghost predicate KeepsOrder(t: Tables, u: Tables, r: nat, q: nat, x: nat, y: nat)
    requires Consistent(t) && Consistent(u) && SameBlock(t, u, r, q) && SameBlock(t, u, x, y)
  {
    t.routes[r].httpPort == t.routes[x].httpPort && t.routes[r].httpPort in t.ports
      && t.routes[r].rank <= t.routes[x].rank ==>
      u.routes[q].rank <= u.routes[y].rank
  }

  ghost predicate KeepsOrders(t: Tables, u: Tables)
    requires Consistent(t) && Consistent(u)
  {
    forall r, q, x, y :: SameBlock(t, u, r, q) && SameBlock(t, u, x, y) ==> KeepsOrder(t, u, r, q, x, y)
  }

  /** The write keeps the ports, the entries of every route on them, and which route may come first. */
  ghost predicate KeepsListeners(t: Tables, u: Tables)
    requires Consistent(t) && Consistent(u)
  {
    && u.ports.Keys == t.ports.Keys && (forall p :: p in t.ports ==> u.ports[p].isApiPort == t.ports[p].isApiPort)
    && (forall r :: r in t.routes && t.routes[r].httpPort in t.ports ==> HasSuccessor(t, u, r))
    && (forall q :: q in u.routes && u.routes[q].httpPort in t.ports ==> HasPredecessor(t, u, q))
    && KeepsOrders(t, u)
  }

  /** A block tells the path of its route. */
  lemma SameBlockSamePath(t: Tables, u: Tables, r: nat, q: nat)
    requires Consistent(t) && Consistent(u) && NoBlanks(t) && NoBlanks(u) && SameBlock(t, u, r, q)
    ensures t.routes[r].gatewayPath == u.routes[q].gatewayPath
  {
    SameTail(LoginLogout(t, t.routes[r], GatewayName(t)), MainEntry(t, t.routes[r]),
      LoginLogout(u, u.routes[q], GatewayName(u)), MainEntry(u, u.routes[q]));
  }

  lemma SuccessorsAreOneToOne(t: Tables, u: Tables, r: nat, q: nat, x: nat, y: nat)
    requires WellFormed(t) && WellFormed(u) && SameBlock(t, u, r, q) && SameBlock(t, u, x, y)
    ensures r == x <==> q == y
  {
    SameBlockSamePath(t, u, r, q);
    SameBlockSamePath(t, u, x, y);
  }

  // ---------- kept listeners ----------

  ghost predicate SameBlocksInOrder(t: Tables, u: Tables, a: seq<nat>, b: seq<nat>)
    requires Consistent(t) && Consistent(u)
  {
    |a| == |b| && forall i :: 0 <= i < |a| ==> SameBlock(t, u, a[i], b[i])
  }

  lemma {:induction false} Successors(t: Tables, u: Tables, a: seq<nat>) returns (b: seq<nat>)
    requires Consistent(t) && Consistent(u) && forall r :: r in a ==> HasSuccessor(t, u, r)
    ensures SameBlocksInOrder(t, u, a, b)
    decreases |a|
  {
    b := [];
    if a != [] {
      b := Successors(t, u, a[..|a| - 1]);
      assert HasSuccessor(t, u, a[|a| - 1]);
      var q :| SameBlock(t, u, a[|a| - 1], q);
      b := b + [q];
    }
  }

  lemma {:induction false} SuccessorsHaveEntries(t: Tables, u: Tables, a: seq<nat>, b: seq<nat>)
    requires Consistent(t) && Consistent(u) && SameBlocksInOrder(t, u, a, b)
    requires (forall r :: r in a ==> r in t.routes) && (forall q :: q in b ==> q in u.routes)
    ensures AllRouteEntries(t, a, GatewayName(t)) == AllRouteEntries(u, b, GatewayName(u))
    decreases |a|
  {
    if a != [] {
      var n := |a| - 1;
      SuccessorsHaveEntries(t, u, a[..n], b[..n]);
      assert SameBlock(t, u, a[n], b[n]);
    }
  }

  ghost predicate SamePaths(t: Tables, u: Tables, a: seq<nat>, b: seq<nat>) {
    |a| == |b| && forall i :: 0 <= i < |a| ==>
      a[i] in t.routes && b[i] in u.routes && t.routes[a[i]].gatewayPath == u.routes[b[i]].gatewayPath
  }

  lemma {:induction false} SamePathsSameRedirects(t: Tables, u: Tables, a: seq<nat>, b: seq<nat>)
    requires SamePaths(t, u, a, b)
    ensures (forall r :: r in a ==> r in t.routes) && (forall q :: q in b ==> q in u.routes)
    ensures Redirects(t, a) == Redirects(u, b)
    decreases |a|
  {
    if a != [] {
      var n := |a| - 1;
      SamePathsSameRedirects(t, u, a[..n], b[..n]);
      assert a == a[..n] + [a[n]] && b == b[..n] + [b[n]];
    }
  }

  lemma SuccessorsHavePaths(t: Tables, u: Tables, a: seq<nat>, b: seq<nat>)
    requires Consistent(t) && Consistent(u) && NoBlanks(t) && NoBlanks(u) && SameBlocksInOrder(t, u, a, b)
    ensures SamePaths(t, u, a, b)
  {
    forall i | 0 <= i < |a|
      ensures a[i] in t.routes && b[i] in u.routes && t.routes[a[i]].gatewayPath == u.routes[b[i]].gatewayPath
    {
      SameBlockSamePath(t, u, a[i], b[i]);
    }
  }

  lemma SuccessorsOnPort(t: Tables, u: Tables, p: nat, a: seq<nat>, b: seq<nat>, q: nat)
    requires WellFormed(t) && WellFormed(u) && KeepsListeners(t, u) && p in t.ports
    requires IsRouteOrder(t, p, a) && SameBlocksInOrder(t, u, a, b)
    ensures q in b <==> q in u.routes && u.routes[q].httpPort == p
  {
    if q in b {
      var i :| 0 <= i < |b| && b[i] == q;
      assert SameBlock(t, u, a[i], b[i]) && a[i] in a;
    }
    if q in u.routes && u.routes[q].httpPort == p {
      assert HasPredecessor(t, u, q);
      var r :| SameBlock(t, u, r, q);
      var i :| 0 <= i < |a| && a[i] == r;
      SuccessorsAreOneToOne(t, u, r, q, a[i], b[i]);
      assert b[i] in b;
    }
  }

  lemma SuccessorsInOrder(t: Tables, u: Tables, r: nat, q: nat, x: nat, y: nat)
    requires WellFormed(t) && WellFormed(u) && SameBlock(t, u, r, q) && SameBlock(t, u, x, y)
    requires KeepsOrder(t, u, r, q, x, y) && r != x && t.routes[r].httpPort == t.routes[x].httpPort
    requires t.routes[r].httpPort in t.ports && t.routes[r].rank <= t.routes[x].rank
    ensures q != y && u.routes[q].rank <= u.routes[y].rank
  {
    SuccessorsAreOneToOne(t, u, r, q, x, y);
  }

  lemma SuccessorsAt(t: Tables, u: Tables, p: nat, a: seq<nat>, b: seq<nat>, i: nat, j: nat)
    requires WellFormed(t) && WellFormed(u) && KeepsOrders(t, u) && p in t.ports
    requires IsRouteOrder(t, p, a) && SameBlocksInOrder(t, u, a, b) && i < j < |b|
    ensures b[i] in u.routes && b[j] in u.routes && b[i] != b[j] && u.routes[b[i]].rank <= u.routes[b[j]].rank
  {
    assert a[i] in a && a[j] in a;
    assert SameBlock(t, u, a[i], b[i]) && SameBlock(t, u, a[j], b[j]);
    assert KeepsOrder(t, u, a[i], b[i], a[j], b[j]);
    SuccessorsInOrder(t, u, a[i], b[i], a[j], b[j]);
  }

  /** The successors of a route order are a route order. */
  lemma SuccessorsAreOrdered(t: Tables, u: Tables, p: nat, a: seq<nat>, b: seq<nat>)
    requires WellFormed(t) && WellFormed(u) && KeepsListeners(t, u) && p in t.ports
    requires IsRouteOrder(t, p, a) && SameBlocksInOrder(t, u, a, b)
    ensures IsRouteOrder(u, p, b)
  {
    forall q ensures q in b <==> q in u.routes && u.routes[q].httpPort == p {
      SuccessorsOnPort(t, u, p, a, b, q);
    }
    forall i, j | 0 <= i < j < |b|
      ensures b[i] in u.routes && b[j] in u.routes && b[i] != b[j] && u.routes[b[i]].rank <= u.routes[b[j]].rank
    {
      SuccessorsAt(t, u, p, a, b, i, j);
    }
  }

  lemma KeptListener(t: Tables, u: Tables, p: nat, entries: seq<Entry>)
    requires WellFormed(t) && WellFormed(u) && KeepsListeners(t, u) && IsListener(t, p, GatewayName(t), entries)
    ensures IsListener(u, p, GatewayName(u), entries)
  {
    var a :| IsRouteOrder(t, p, a) && entries == ListenerEntries(t, p, a, GatewayName(t));
    var b := Successors(t, u, a);
    SuccessorsAreOrdered(t, u, p, a, b);
    SuccessorsHaveEntries(t, u, a, b);
    SuccessorsHavePaths(t, u, a, b);
    SamePathsSameRedirects(t, u, a, b);
  }

  // ---------- what a write must keep ----------

  /** The listener is right before and after the write, with these orders. */
  ghost predicate Shared(t: Tables, u: Tables, p: nat, a: seq<nat>, b: seq<nat>)
    requires Consistent(t) && Consistent(u)
  {
    && p in t.ports && p in u.ports && IsRouteOrder(t, p, a) && IsRouteOrder(u, p, b)
    && ListenerEntries(t, p, a, GatewayName(t)) == ListenerEntries(u, p, b, GatewayName(u))
  }

  lemma SharedBlocks(t: Tables, u: Tables, p: nat, a: seq<nat>, b: seq<nat>)
    requires WellFormed(t) && WellFormed(u) && Shared(t, u, p, a, b)
    ensures SameBlocksInOrder(t, u, a, b) && t.ports[p].isApiPort == u.ports[p].isApiPort
  {
    HeadIsHead(t, p, a);
    HeadIsHead(u, p, b);
    SameBlocks(Head(t, p, a), t, a, GatewayName(t), Head(u, p, b), u, b, GatewayName(u));
    forall i | 0 <= i < |a| ensures SameBlock(t, u, a[i], b[i]) {
      assert a[i] in a && b[i] in b;
    }
    NonEmpty(t, a);
    NonEmpty(u, b);
  }

  lemma SharedRoutes(t: Tables, u: Tables, p: nat, a: seq<nat>, b: seq<nat>)
    requires WellFormed(t) && WellFormed(u) && Shared(t, u, p, a, b)
    ensures forall r :: r in t.routes && t.routes[r].httpPort == p ==> HasSuccessor(t, u, r)
    ensures forall q :: q in u.routes && u.routes[q].httpPort == p ==> HasPredecessor(t, u, q)
  {
    SharedBlocks(t, u, p, a, b);
    forall r | r in t.routes && t.routes[r].httpPort == p ensures HasSuccessor(t, u, r) {
      var i :| 0 <= i < |a| && a[i] == r;
      assert SameBlock(t, u, a[i], b[i]);
    }
    forall q | q in u.routes && u.routes[q].httpPort == p ensures HasPredecessor(t, u, q) {
      var i :| 0 <= i < |b| && b[i] == q;
      assert SameBlock(t, u, a[i], b[i]);
    }
  }

  /** If r may come before x, some order of the port has them so. */
  lemma OrderWith(t: Tables, p: nat, a: seq<nat>, r: nat, x: nat) returns (c: seq<nat>, i: nat, j: nat)
    requires IsRouteOrder(t, p, a) && r in a && x in a && r != x && t.routes[r].rank <= t.routes[x].rank
    ensures IsRouteOrder(t, p, c) && i < j < |c| && c[i] == r && c[j] == x
  {
    i :| 0 <= i < |a| && a[i] == r;
    j :| 0 <= j < |a| && a[j] == x;
    c := a;
    if j < i {
      c := a[j := r][i := x];
      forall k, l | 0 <= k < l < |c| ensures c[k] != c[l] && t.routes[c[k]].rank <= t.routes[c[l]].rank {
        assert c[k] in a && c[l] in a;
      }
      forall y ensures y in c <==> y in a {
        Swapped(a, c, i, j, y);
      }
      i, j := j, i;
    }
  }

  lemma Swapped(a: seq<nat>, c: seq<nat>, i: nat, j: nat, y: nat)
    requires j < i < |a| && c == a[j := a[i]][i := a[j]]
    ensures y in c <==> y in a
  {
    if y in a {
      var k :| 0 <= k < |a| && a[k] == y;
      assert c[if k == i then j else if k == j then i else k] == y;
    }
  }

  ghost predicate EveryDocumentSurvives(t: Tables, u: Tables)
    requires Consistent(t) && Consistent(u)
  {
    forall doc :: IsLds(t, doc) ==> IsLds(u, doc)
  }

  lemma AnotherOrder(t: Tables, doc: Lds, p: nat, c: seq<nat>)
    requires Consistent(t) && IsLds(t, doc) && p in t.ports && IsRouteOrder(t, p, c)
    ensures IsLds(t, doc[p := ListenerEntries(t, p, c, GatewayName(t))])
  {
    var entries := ListenerEntries(t, p, c, GatewayName(t));
    assert IsListener(t, p, GatewayName(t), entries);
  }

  lemma OrderOf(t: Tables, doc: Lds, p: nat) returns (a: seq<nat>)
    requires Consistent(t) && IsLds(t, doc) && p in t.ports
    ensures IsRouteOrder(t, p, a) && doc[p] == ListenerEntries(t, p, a, GatewayName(t))
  {
    assert IsListener(t, p, GatewayName(t), doc[p]);
    a :| IsRouteOrder(t, p, a) && doc[p] == ListenerEntries(t, p, a, GatewayName(t));
  }

  lemma SurvivingOrder(t: Tables, u: Tables, doc: Lds, p: nat, c: seq<nat>) returns (b: seq<nat>)
    requires Consistent(t) && Consistent(u) && EveryDocumentSurvives(t, u) && IsLds(t, doc)
    requires p in t.ports && IsRouteOrder(t, p, c)
    ensures Shared(t, u, p, c, b)
  {
    var other := doc[p := ListenerEntries(t, p, c, GatewayName(t))];
    AnotherOrder(t, doc, p, c);
    b := OrderOf(u, other, p);
  }

  lemma SurvivingOrders(t: Tables, u: Tables, doc: Lds, r: nat, q: nat, x: nat, y: nat)
    requires WellFormed(t) && WellFormed(u) && EveryDocumentSurvives(t, u) && IsLds(t, doc)
    requires SameBlock(t, u, r, q) && SameBlock(t, u, x, y)
    ensures KeepsOrder(t, u, r, q, x, y)
  {
    var p := t.routes[r].httpPort;
    SuccessorsAreOneToOne(t, u, r, q, x, y);
    if r != x && t.routes[x].httpPort == p && p in t.ports && t.routes[r].rank <= t.routes[x].rank {
      var a := OrderOf(t, doc, p);
      var c, i, j := OrderWith(t, p, a, r, x);
      var b := SurvivingOrder(t, u, doc, p, c);
      SharedBlocks(t, u, p, c, b);
      SuccessorsAreOneToOne(t, u, r, q, c[i], b[i]);
      SuccessorsAreOneToOne(t, u, x, y, c[j], b[j]);
    }
  }

  lemma SurvivingPort(t: Tables, u: Tables, doc: Lds, p: nat)
    requires WellFormed(t) && WellFormed(u) && IsLds(t, doc) && IsLds(u, doc) && p in t.ports
    ensures p in u.ports && u.ports[p].isApiPort == t.ports[p].isApiPort
    ensures forall r :: r in t.routes && t.routes[r].httpPort == p ==> HasSuccessor(t, u, r)
    ensures forall q :: q in u.routes && u.routes[q].httpPort == p ==> HasPredecessor(t, u, q)
  {
    var a := OrderOf(t, doc, p);
    var b := OrderOf(u, doc, p);
    SharedBlocks(t, u, p, a, b);
    SharedRoutes(t, u, p, a, b);
  }

  lemma SurvivorsAreKept(t: Tables, u: Tables, doc: Lds)
    requires WellFormed(t) && WellFormed(u) && IsLds(t, doc) && EveryDocumentSurvives(t, u)
    ensures KeepsListeners(t, u)
  {
    assert IsLds(u, doc);
    forall p | p in t.ports {
      SurvivingPort(t, u, doc, p);
    }
    forall r, q, x, y | SameBlock(t, u, r, q) && SameBlock(t, u, x, y) ensures KeepsOrder(t, u, r, q, x, y) {
      SurvivingOrders(t, u, doc, r, q, x, y);
    }
  }

  lemma KeptSurvives(t: Tables, u: Tables, doc: Lds)
    requires WellFormed(t) && WellFormed(u) && IsLds(t, doc) && KeepsListeners(t, u)
    ensures IsLds(u, doc)
  {
    forall p | p in doc ensures IsListener(u, p, GatewayName(u), doc[p]) {
      KeptListener(t, u, p, doc[p]);
    }
  }

  /** Whatever orders the database has chosen, a listener document is still right after a write exactly when the
      write keeps the listeners. */
  lemma ListenersSurviveIff(t: Tables, u: Tables, doc: Lds)
    requires WellFormed(t) && WellFormed(u) && IsLds(t, doc)
    ensures EveryDocumentSurvives(t, u) <==> KeepsListeners(t, u)
  {
    if KeepsListeners(t, u) {
      forall other | IsLds(t, other) ensures IsLds(u, other) {
        KeptSurvives(t, u, other);
      }
    }
    if EveryDocumentSurvives(t, u) {
      SurvivorsAreKept(t, u, doc);
    }
  }

  lemma CachedListeners(s: Cache.System, built: Lds)
    requires Cache.Coherent(s)
    ensures Cache.Coherent(s.(cache := s.cache.(lds := Some(built)))) <==> IsLds(s.tables, built)
  {
  }

  lemma StoredListeners(s: Busy, id: nat)
    requires Cache.Coherent(s.system) && id in s.lds
    ensures Cache.Coherent(Apply(s, StoreLds(id)).system) <==>
            s.lds[id].doc == map[] || IsLds(s.system.tables, s.lds[id].doc)
  {
    CachedListeners(s.system, s.lds[id].doc);
  }

  /** The same build with another document. */
  function WithDocument(s: Busy, id: nat, doc: Lds): Busy
    requires id in s.lds
  {
    s.(lds := s.lds[id := s.lds[id].(doc := doc)])
  }

  lemma NoPorts(t: Tables, doc: Lds)
    requires Consistent(t) && IsLds(t, doc)
    ensures doc == map[] <==> t.ports == map[]
  {
    assert doc == map[] <==> doc.Keys == {};
    assert t.ports == map[] <==> t.ports.Keys == {};
  }

  /** Storing listeners keeps the cache coherent, whatever orders the database chose among equal ranks when they were
      built, exactly when there was no port or what was committed since keeps the listeners. */
  lemma StoredListenersIff(s: Busy, id: nat, begun: Tables)
    requires Cache.Coherent(s.system) && id in s.lds && WellFormed(s.system.tables)
    requires WellFormed(begun) && IsLds(begun, s.lds[id].doc)
    ensures (forall doc :: IsLds(begun, doc) ==>
               Cache.Coherent(Apply(WithDocument(s, id, doc), StoreLds(id)).system)) <==>
            begun.ports == map[] || KeepsListeners(begun, s.system.tables)
  {
    forall doc | IsLds(begun, doc)
      ensures Cache.Coherent(Apply(WithDocument(s, id, doc), StoreLds(id)).system) <==>
              begun.ports == map[] || IsLds(s.system.tables, doc)
    {
      NoPorts(begun, doc);
      StoredListeners(WithDocument(s, id, doc), id);
    }
    ListenersSurviveIff(begun, s.system.tables, s.lds[id].doc);
    assert IsLds(begun, s.lds[id].doc);
  }
}

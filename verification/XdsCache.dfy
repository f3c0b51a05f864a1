/** The cache of the discovery views and its invalidation by model signals:
    aap_gateway_api/views/api/envoy/rest_control_plane.py and aap_gateway_api/signals/xds_cache.py. */
module XdsCache {
  import opened ClusterNames
  import opened Sets
  import opened Wrappers
  import opened XdsDocuments
  import opened XdsListeners

  // The models whose saves and deletes matter.  The last two send no signal to the cache.
  datatype Model = RouteModel | PortModel | ClusterModel | NodeModel | CertificateModel | TypeModel | PreferenceModel

  datatype Cache = Cache(cds: Option<Cds>, lds: Option<Lds>, sds: Option<seq<string>>)

  datatype System = System(tables: Tables, cache: Cache)

  /** The certificates SDS serves: stripped, without empty ones. */
  function Pems(certificates: seq<string>): seq<string> {
    if certificates == [] then []
    else
      var pem := TrimRight(TrimLeft(certificates[0]));
      (if pem == "" then [] else [pem]) + Pems(certificates[1..])
  }

  /** What a commit that saved or deleted rows of the given models deletes from the cache. */
  function Invalidate(c: Cache, touched: set<Model>): Cache {
    Cache(if RouteModel in touched || ClusterModel in touched || NodeModel in touched then None else c.cds,
          if RouteModel in touched || ClusterModel in touched || PortModel in touched then None else c.lds,
          if CertificateModel in touched then None else c.sds)
  }

  /** A commit changes only tables of the models it touched. */
  predicate Frame(touched: set<Model>, t: Tables, after: Tables) {
    && (RouteModel !in touched ==> after.routes == t.routes)
    && (PortModel !in touched ==> after.ports == t.ports)
    && (ClusterModel !in touched ==> after.clusters == t.clusters)
    && (NodeModel !in touched ==> after.nodes == t.nodes)
    && (CertificateModel !in touched ==> after.certificates == t.certificates)
    && (TypeModel !in touched ==> after.types == t.types)
    && (PreferenceModel !in touched ==> after.requestTimeout == t.requestTimeout && after.idleTimeout == t.idleTimeout)
  }

  // ---------- what a request asks for ----------

  /** `resource_names` reaches the query as one text.  An empty text or `*` asks for everything; Django reads
      any other text as the collection of its characters. */
  predicate Everything(names: string) {
    names == "" || names == "*"
  }

  predicate Matches(names: string, name: string) {
    Everything(names) || (|name| == 1 && name[0] in names)
  }

  function ListenerName(number: nat): string {
    "port-" + Decimal(number)
  }

  function MatchingNames(t: Tables, names: string): set<string> {
    set r | r in t.routes && Matches(names, t.routes[r].envoyClusterName) :: t.routes[r].envoyClusterName
  }

  ghost predicate SomeRouteGives(t: Tables, name: string, cfg: ClusterConfig)
    requires Consistent(t)
  {
    exists r :: Represents(t, r, name, cfg)
  }

  /** What the CDS view builds for a request. */
  ghost predicate AnswersCds(t: Tables, names: string, doc: Cds)
    requires Consistent(t)
  {
    doc.Keys == MatchingNames(t, names) && forall name :: name in doc ==> SomeRouteGives(t, name, doc[name])
  }

  function MatchingPorts(t: Tables, names: string): set<nat> {
    set p | p in t.ports && Matches(names, ListenerName(t.ports[p].number))
  }

  /** What the LDS view builds for a request. */
  ghost predicate AnswersLds(t: Tables, names: string, doc: Lds)
    requires Consistent(t)
  {
    doc.Keys == MatchingPorts(t, names) && ListenersFit(t, doc)
  }

  /** No cluster name is a single character. */
  predicate LongNames(t: Tables) {
    forall r :: r in t.routes ==> |t.routes[r].envoyClusterName| != 1
  }

  lemma SavedNamesAreLong(t: Tables)
    requires AllSaved(t)
    ensures LongNames(t)
  {
    forall r | r in t.routes ensures |t.routes[r].envoyClusterName| != 1 {
      assert Saved(t.routes[r]);
    }
  }

  /** A request for anything but everything is answered with nothing. */
  lemma OtherRequestsGetNothing(t: Tables, names: string)
    requires Consistent(t) && LongNames(t) && !Everything(names)
    ensures forall doc :: AnswersCds(t, names, doc) ==> doc == map[]
    ensures forall doc :: AnswersLds(t, names, doc) ==> doc == map[]
  {
    forall doc | AnswersCds(t, names, doc) ensures doc == map[] {
      assert forall name :: name !in MatchingNames(t, names);
      assert forall name :: name !in doc;
    }
    forall doc | AnswersLds(t, names, doc) ensures doc == map[] {
      forall p | p in t.ports ensures !Matches(names, ListenerName(t.ports[p].number)) {
        assert |ListenerName(t.ports[p].number)| >= 5;
      }
      assert forall p :: p !in doc;
    }
  }

  lemma WholeClusters(t: Tables, names: string, doc: Cds)
    requires Consistent(t) && Everything(names)
    ensures AnswersCds(t, names, doc) <==> IsCds(t, doc)
  {
    forall name ensures name in MatchingNames(t, names) <==> name in NamesInUse(t) {}
    SameElements(MatchingNames(t, names), NamesInUse(t));
    forall name | name in doc
      ensures SomeRouteGives(t, name, doc[name]) <==> exists r :: Represents(t, r, name, doc[name])
    {
    }
  }

  lemma WholeListeners(t: Tables, names: string, doc: Lds)
    requires Consistent(t) && Everything(names)
    ensures AnswersLds(t, names, doc) <==> IsLds(t, doc)
  {
    forall p ensures p in MatchingPorts(t, names) <==> p in t.ports.Keys {}
    SameElements(MatchingPorts(t, names), t.ports.Keys);
  }

  lemma WholeAnswerIsDocument(t: Tables, names: string)
    requires Consistent(t) && Everything(names)
    ensures forall doc :: AnswersCds(t, names, doc) <==> IsCds(t, doc)
    ensures forall doc :: AnswersLds(t, names, doc) <==> IsLds(t, doc)
  {
    forall doc ensures AnswersCds(t, names, doc) <==> IsCds(t, doc) {
      WholeClusters(t, names, doc);
    }
    forall doc ensures AnswersLds(t, names, doc) <==> IsLds(t, doc) {
      WholeListeners(t, names, doc);
    }
  }

  // ---------- steps ----------

  datatype Step =
    | ReadCds(names: string, clusters: Cds)
    | ReadLds(names: string, listeners: Lds)
    | ReadSds
    | Commit(touched: set<Model>, after: Tables)

  ghost predicate Legal(s: System, step: Step) {
    && Consistent(s.tables)
    && match step
       case ReadCds(names, built) => s.cache.cds.None? ==> AnswersCds(s.tables, names, built)
       case ReadLds(names, built) => s.cache.lds.None? ==> AnswersLds(s.tables, names, built)
       case ReadSds => true
       case Commit(touched, after) => Consistent(after) && AllSaved(after) && Frame(touched, s.tables, after)
  }

  /** An empty cluster or listener document is not cached. */
  function Apply(s: System, step: Step): System {
    match step
    case ReadCds(_, built) =>
      if s.cache.cds.Some? || built == map[] then s else s.(cache := s.cache.(cds := Some(built)))
    case ReadLds(_, built) =>
      if s.cache.lds.Some? || built == map[] then s else s.(cache := s.cache.(lds := Some(built)))
    case ReadSds => if s.cache.sds.Some? then s else s.(cache := s.cache.(sds := Some(Pems(s.tables.certificates))))
    case Commit(touched, after) => System(after, Invalidate(s.cache, touched))
  }

  ghost predicate Coherent(s: System) {
    && Consistent(s.tables) && AllSaved(s.tables)
    && (s.cache.cds.Some? ==> IsCds(s.tables, s.cache.cds.value))
    && (s.cache.lds.Some? ==> IsLds(s.tables, s.cache.lds.value))
    && (s.cache.sds.Some? ==> s.cache.sds.value == Pems(s.tables.certificates))
  }

  /** Every model a commit touches signals. */
  predicate Signalled(step: Step) {
    step.Commit? ==> TypeModel !in step.touched && PreferenceModel !in step.touched
  }

  // ---------- frames ----------

  /** The cluster document does not depend on ports or certificates. */
  lemma CdsIgnoresPorts(t: Tables, u: Tables, doc: Cds)
    requires Consistent(t) && Consistent(u) && Frame({PortModel, CertificateModel}, t, u)
    ensures IsCds(t, doc) <==> IsCds(u, doc)
  {
    forall r: nat, name: string, cfg: ClusterConfig
      ensures Represents(t, r, name, cfg) <==> Represents(u, r, name, cfg)
    {
      if r in t.routes {
        assert Endpoints(t, t.routes[r]) == Endpoints(u, u.routes[r]);
      }
    }
    if IsCds(t, doc) {
      assert IsCds(u, doc);
    }
    if IsCds(u, doc) {
      assert IsCds(t, doc);
    }
  }

  predicate SameForRoutes(t: Tables, u: Tables) {
    && t.routes == u.routes && t.clusters == u.clusters && t.types == u.types
    && t.requestTimeout == u.requestTimeout && t.idleTimeout == u.idleTimeout
  }

  lemma {:induction false} RedirectsFrame(t: Tables, u: Tables, order: seq<nat>)
    requires t.routes == u.routes && forall r :: r in order ==> r in t.routes
    ensures Redirects(t, order) == Redirects(u, order)
    decreases |order|
  {
    if order != [] {
      RedirectsFrame(t, u, order[..|order| - 1]);
    }
  }

  lemma {:induction false} RouteEntriesFrame(t: Tables, u: Tables, order: seq<nat>, gateway: Option<string>)
    requires Consistent(t) && Consistent(u) && forall r :: r in order ==> r in t.routes
    requires SameForRoutes(t, u)
    ensures AllRouteEntries(t, order, gateway) == AllRouteEntries(u, order, gateway)
    decreases |order|
  {
    if order != [] {
      RouteEntriesFrame(t, u, order[..|order| - 1], gateway);
    }
  }

  lemma ListenerFrame(t: Tables, u: Tables, port: nat, gateway: Option<string>, entries: seq<Entry>)
    requires Consistent(t) && Consistent(u)
    requires SameForRoutes(t, u) && t.ports == u.ports
    requires IsListener(t, port, gateway, entries)
    ensures IsListener(u, port, gateway, entries)
  {
    var order :| IsRouteOrder(t, port, order) && entries == ListenerEntries(t, port, order, gateway);
    RedirectsFrame(t, u, order);
    RouteEntriesFrame(t, u, order, gateway);
    assert IsRouteOrder(u, port, order);
  }

  /** The listener document does not depend on nodes or certificates. */
  lemma LdsIgnoresNodes(t: Tables, u: Tables, doc: Lds)
    requires Consistent(t) && Consistent(u) && IsLds(t, doc)
    requires SameForRoutes(t, u) && t.ports == u.ports
    ensures IsLds(u, doc)
  {
    GatewayNameFrame(t, u);
    forall p | p in doc ensures IsListener(u, p, GatewayName(u), doc[p]) {
      ListenerFrame(t, u, p, GatewayName(t), doc[p]);
    }
  }

  // ---------- coherence ----------

  lemma CommitKeepsCoherence(s: System, touched: set<Model>, after: Tables)
    requires Coherent(s) && Legal(s, Commit(touched, after)) && Signalled(Commit(touched, after))
    ensures Coherent(Apply(s, Commit(touched, after)))
  {
    var c := Invalidate(s.cache, touched);
    if c.cds.Some? {
      CdsIgnoresPorts(s.tables, after, c.cds.value);
    }
    if c.lds.Some? {
      LdsIgnoresNodes(s.tables, after, c.lds.value);
    }
  }

  /** Whatever is asked for, what gets cached is the whole document. */
  lemma ReadKeepsCoherence(s: System, names: string)
    requires Coherent(s)
    ensures forall built :: AnswersCds(s.tables, names, built) ==> built == map[] || IsCds(s.tables, built)
    ensures forall built :: AnswersLds(s.tables, names, built) ==> built == map[] || IsLds(s.tables, built)
  {
    if Everything(names) {
      WholeAnswerIsDocument(s.tables, names);
    } else {
      SavedNamesAreLong(s.tables);
      OtherRequestsGetNothing(s.tables, names);
    }
  }

  lemma StepKeepsCoherence(s: System, step: Step)
    requires Coherent(s) && Legal(s, step) && Signalled(step)
    ensures Coherent(Apply(s, step))
  {
    match step {
      case ReadCds(names, built) =>
        ReadKeepsCoherence(s, names);
      case ReadLds(names, built) =>
        ReadKeepsCoherence(s, names);
      case ReadSds =>
      case Commit(touched, after) =>
        CommitKeepsCoherence(s, touched, after);
    }
  }

  function Run(s: System, steps: seq<Step>): System {
    if steps == [] then s else Apply(Run(s, steps[..|steps| - 1]), steps[|steps| - 1])
  }

  ghost predicate GoodStep(s: System, steps: seq<Step>, i: nat)
    requires i < |steps|
  {
    Legal(Run(s, steps[..i]), steps[i]) && Signalled(steps[i])
  }

  ghost predicate LegalRun(s: System, steps: seq<Step>) {
    forall i: nat :: i < |steps| ==> GoodStep(s, steps, i)
  }

  lemma LegalPrefix(s: System, steps: seq<Step>)
    requires LegalRun(s, steps) && steps != []
    ensures LegalRun(s, steps[..|steps| - 1])
  {
    var init := steps[..|steps| - 1];
    forall i: nat | i < |init| ensures GoodStep(s, init, i) {
      assert GoodStep(s, steps, i) && init[..i] == steps[..i];
    }
  }

  /** Over every sequence of reads and of commits to signalling models, each handled as one step, a present cache entry
      is a document that could be rebuilt from the current tables. */
  lemma {:induction false} CacheIsCoherent(s: System, steps: seq<Step>)
    requires Coherent(s) && LegalRun(s, steps)
    ensures Coherent(Run(s, steps))
    decreases |steps|
  {
    if steps != [] {
      var n := |steps| - 1;
      LegalPrefix(s, steps);
      CacheIsCoherent(s, steps[..n]);
      assert GoodStep(s, steps, n);
      StepKeepsCoherence(Run(s, steps[..n]), steps[n]);
    }
  }
}

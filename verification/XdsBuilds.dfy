/** Requests that overlap commits: a view of aap_gateway_api/views/api/envoy/rest_control_plane.py finds the cache
    empty and builds its document, and stores it some time later.  XdsCache takes both as one step. */
module XdsBuilds {
  import opened Wrappers
  import opened XdsCache
  import opened XdsDocuments
  import opened XdsListeners

  // `since` collects the models that commits have touched since the build began; the program does not read it.
  datatype Build<D> = Build(doc: D, since: set<Model>)

  // The builds of the requests in flight.
  datatype Busy = Busy(system: System, cds: map<nat, Build<Cds>>, lds: map<nat, Build<Lds>>,
      sds: map<nat, Build<seq<string>>>)

  datatype Step =
    | BeginCds(id: nat, names: string, clusters: Cds)
    | BeginLds(id: nat, names: string, listeners: Lds)
    | BeginSds(id: nat)
    | StoreCds(id: nat)
    | StoreLds(id: nat)
    | StoreSds(id: nat)
    | Write(touched: set<Model>, after: Tables)

  ghost predicate Legal(s: Busy, step: Step) {
    && Consistent(s.system.tables)
    && match step
       case BeginCds(id, names, built) => id !in s.cds && AnswersCds(s.system.tables, names, built)
       case BeginLds(id, names, built) => id !in s.lds && AnswersLds(s.system.tables, names, built)
       case BeginSds(id) => id !in s.sds
       case StoreCds(id) => id in s.cds
       case StoreLds(id) => id in s.lds
       case StoreSds(id) => id in s.sds
       case Write(touched, after) => XdsCache.Legal(s.system, Commit(touched, after))
  }

  function Touch<D>(builds: map<nat, Build<D>>, touched: set<Model>): map<nat, Build<D>> {
    map id | id in builds :: Build(builds[id].doc, builds[id].since + touched)
  }

  /** A build begins only if the cache misses; storing overwrites whatever the cache holds by then. */
  function Apply(s: Busy, step: Step): Busy {
    match step
    case BeginCds(id, _, built) => if s.system.cache.cds.Some? then s else s.(cds := s.cds[id := Build(built, {})])
    case BeginLds(id, _, built) => if s.system.cache.lds.Some? then s else s.(lds := s.lds[id := Build(built, {})])
    case BeginSds(id) =>
      if s.system.cache.sds.Some? then s else s.(sds := s.sds[id := Build(Pems(s.system.tables.certificates), {})])
    case StoreCds(id) =>
      if id !in s.cds then s
      else if s.cds[id].doc == map[] then s.(cds := s.cds - {id})
      else s.(cds := s.cds - {id}, system := s.system.(cache := s.system.cache.(cds := Some(s.cds[id].doc))))
    case StoreLds(id) =>
      if id !in s.lds then s
      else if s.lds[id].doc == map[] then s.(lds := s.lds - {id})
      else s.(lds := s.lds - {id}, system := s.system.(cache := s.system.cache.(lds := Some(s.lds[id].doc))))
    case StoreSds(id) =>
      if id !in s.sds then s
      else s.(sds := s.sds - {id}, system := s.system.(cache := s.system.cache.(sds := Some(s.sds[id].doc))))
    case Write(touched, after) =>
      Busy(XdsCache.Apply(s.system, Commit(touched, after)), Touch(s.cds, touched), Touch(s.lds, touched),
          Touch(s.sds, touched))
  }

  /** A read in one step is a build that is stored at once. */
  lemma AtomicRead(s: Busy, id: nat, names: string, built: Cds)
    requires id !in s.cds && XdsCache.Legal(s.system, ReadCds(names, built))
    ensures var begin := BeginCds(id, names, built);
            && Apply(Apply(s, begin), StoreCds(id)) == s.(system := XdsCache.Apply(s.system, ReadCds(names, built)))
            && (s.system.cache.cds.None? ==> Legal(s, begin) && Legal(Apply(s, begin), StoreCds(id)))
  {
    if s.system.cache.cds.None? {
      assert s.cds[id := Build(built, {})] - {id} == s.cds;
    }
  }

  lemma AtomicListenerRead(s: Busy, id: nat, names: string, built: Lds)
    requires id !in s.lds && XdsCache.Legal(s.system, ReadLds(names, built))
    ensures var begin := BeginLds(id, names, built);
            && Apply(Apply(s, begin), StoreLds(id)) == s.(system := XdsCache.Apply(s.system, ReadLds(names, built)))
            && (s.system.cache.lds.None? ==> Legal(s, begin) && Legal(Apply(s, begin), StoreLds(id)))
  {
    if s.system.cache.lds.None? {
      assert s.lds[id := Build(built, {})] - {id} == s.lds;
    }
  }

  lemma AtomicCertificateRead(s: Busy, id: nat)
    requires id !in s.sds && XdsCache.Legal(s.system, ReadSds)
    ensures && Apply(Apply(s, BeginSds(id)), StoreSds(id)) == s.(system := XdsCache.Apply(s.system, ReadSds))
            && (s.system.cache.sds.None? ==> Legal(s, BeginSds(id)) && Legal(Apply(s, BeginSds(id)), StoreSds(id)))
  {
    if s.system.cache.sds.None? {
      assert s.sds[id := Build(Pems(s.system.tables.certificates), {})] - {id} == s.sds;
    }
  }

  // ---------- undisturbed builds ----------

  const CDS_MODELS := {RouteModel, ClusterModel, NodeModel, TypeModel, PreferenceModel}
  const LDS_MODELS := {RouteModel, ClusterModel, PortModel, TypeModel, PreferenceModel}

  predicate Untouched(models: set<Model>, since: set<Model>) {
    forall m :: m in models ==> m !in since
  }

  /** Commits signal, and no commit touching a document's models falls between the start of a build and its end. */
  predicate Undisturbed(s: Busy, step: Step) {
    match step
    case StoreCds(id) => id in s.cds ==> Untouched(CDS_MODELS, s.cds[id].since)
    case StoreLds(id) => id in s.lds ==> Untouched(LDS_MODELS, s.lds[id].since)
    case StoreSds(id) => id in s.sds ==> CertificateModel !in s.sds[id].since
    case Write(touched, after) => Signalled(Commit(touched, after))
    case _ => true
  }

  /** A build nothing has disturbed so far would still be right. */
  ghost predicate PendingRight(s: Busy)
    requires Consistent(s.system.tables)
  {
    && (forall id :: id in s.cds && Untouched(CDS_MODELS, s.cds[id].since) ==>
       s.cds[id].doc == map[] || IsCds(s.system.tables, s.cds[id].doc))
    && (forall id :: id in s.lds && Untouched(LDS_MODELS, s.lds[id].since) ==>
       s.lds[id].doc == map[] || IsLds(s.system.tables, s.lds[id].doc))
    && (forall id :: id in s.sds && CertificateModel !in s.sds[id].since ==>
       s.sds[id].doc == Pems(s.system.tables.certificates))
  }

  ghost predicate Sound(s: Busy) {
    Coherent(s.system) && PendingRight(s)
  }

  lemma CdsFrame(t: Tables, u: Tables, touched: set<Model>, doc: Cds)
    requires Consistent(t) && Consistent(u) && Frame(touched, t, u) && Untouched(CDS_MODELS, touched) && IsCds(t, doc)
    ensures IsCds(u, doc)
  {
    CdsIgnoresPorts(t, u, doc);
  }

  lemma LdsFrame(t: Tables, u: Tables, touched: set<Model>, doc: Lds)
    requires Consistent(t) && Consistent(u) && Frame(touched, t, u) && Untouched(LDS_MODELS, touched) && IsLds(t, doc)
    ensures IsLds(u, doc)
  {
    LdsIgnoresNodes(t, u, doc);
  }

  lemma WriteKeepsPending(s: Busy, touched: set<Model>, after: Tables)
    requires Sound(s) && Legal(s, Write(touched, after))
    ensures PendingRight(Apply(s, Write(touched, after)))
  {
    var s1 := Apply(s, Write(touched, after));
    forall id | id in s1.cds && Untouched(CDS_MODELS, s1.cds[id].since)
      ensures s1.cds[id].doc == map[] || IsCds(after, s1.cds[id].doc)
    {
      assert forall m :: m in CDS_MODELS ==> m !in s.cds[id].since && m !in touched;
      if s.cds[id].doc != map[] {
        CdsFrame(s.system.tables, after, touched, s.cds[id].doc);
      }
    }
    forall id | id in s1.lds && Untouched(LDS_MODELS, s1.lds[id].since)
      ensures s1.lds[id].doc == map[] || IsLds(after, s1.lds[id].doc)
    {
      assert forall m :: m in LDS_MODELS ==> m !in s.lds[id].since && m !in touched;
      if s.lds[id].doc != map[] {
        LdsFrame(s.system.tables, after, touched, s.lds[id].doc);
      }
    }
  }

  lemma StepIsSound(s: Busy, step: Step)
    requires Sound(s) && Legal(s, step) && Undisturbed(s, step)
    ensures Sound(Apply(s, step))
  {
    match step {
      case BeginCds(id, names, built) =>
        ReadKeepsCoherence(s.system, names);
      case BeginLds(id, names, built) =>
        ReadKeepsCoherence(s.system, names);
      case Write(touched, after) =>
        CommitKeepsCoherence(s.system, touched, after);
        WriteKeepsPending(s, touched, after);
      case _ =>
    }
  }

  function Run(s: Busy, steps: seq<Step>): Busy {
    if steps == [] then s else Apply(Run(s, steps[..|steps| - 1]), steps[|steps| - 1])
  }

  ghost predicate GoodRun(s: Busy, steps: seq<Step>) {
    forall i :: 0 <= i < |steps| ==> Legal(Run(s, steps[..i]), steps[i]) && Undisturbed(Run(s, steps[..i]), steps[i])
  }

  /** Over every interleaving of builds, stores and commits: if commits signal and none touching a document's models
      falls between the start of a stored build and its end, a present cache entry is a document that could be
      rebuilt from the current tables. */
  lemma {:induction false} OverlappingReadsAreCoherent(s: Busy, steps: seq<Step>)
    requires Sound(s) && GoodRun(s, steps)
    ensures Sound(Run(s, steps))
    decreases |steps|
  {
    if steps != [] {
      var n := |steps| - 1;
      forall i | 0 <= i < n
        ensures Legal(Run(s, steps[..n][..i]), steps[..n][i]) && Undisturbed(Run(s, steps[..n][..i]), steps[..n][i])
      {
        assert steps[..n][..i] == steps[..i];
      }
      OverlappingReadsAreCoherent(s, steps[..n]);
      StepIsSound(Run(s, steps[..n]), steps[n]);
    }
  }
}

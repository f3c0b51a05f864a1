/** The consistency of superusers after the migration:
    aap_gateway_api/management/commands/_migrate_service_data/superuser_sync.py.

    A service lists its users in pages of its own choosing; the n-th call of the run may fail, which ends it. */
module Superusers {
  import opened UserGroups
  import opened Wrappers

  type Username = string
  type Id = nat

  datatype Account = Account(username: Username, isSuperuser: bool)

  type Rows = map<Id, Account>

  // The pages hold the ids of the rows the service lists under the filter of the run.
  datatype Service = Service(kind: ServiceType, rows: Rows, pages: seq<seq<Id>>)

  // Gateway users, and whether they are superusers.
  type Gateway = map<Username, bool>

  type Env = nat -> bool

  predicate Serves(s: Service) {
    forall p, id :: p in s.pages && id in p ==> id in s.rows
  }

  predicate IsListed(s: Service, id: Id) {
    exists p :: p in s.pages && id in p
  }

  function SuperusersOf(gateway: Gateway): set<Username> {
    set u | u in gateway && gateway[u]
  }

  // ---------- collecting the superusers of Controller ----------

  datatype Collected = Collected(names: set<Username>, tick: nat, ok: bool)

  function NamesOn(rows: Rows, page: seq<Id>): set<Username>
    requires forall id :: id in page ==> id in rows
  {
    set id | id in page && rows[id].isSuperuser :: rows[id].username
  }

  function Collect(env: Env, rows: Rows, pages: seq<seq<Id>>, tick: nat): Collected
    requires forall p, id :: p in pages && id in p ==> id in rows
    decreases |pages|
  {
    if pages == [] then Collected({}, tick, true)
    else
      var before := Collect(env, rows, pages[..|pages| - 1], tick);
      if !before.ok || !env(before.tick) then Collected(before.names, before.tick, false)
      else Collected(before.names + NamesOn(rows, pages[|pages| - 1]), before.tick + 1, true)
  }

  ghost predicate SuperuserOn(rows: Rows, pages: seq<seq<Id>>, u: Username)
    requires forall p, id :: p in pages && id in p ==> id in rows
  {
    exists p, id :: p in pages && id in p && rows[id] == Account(u, true)
  }

  lemma OneMorePage(rows: Rows, pages: seq<seq<Id>>, u: Username)
    requires (forall p, id :: p in pages && id in p ==> id in rows) && pages != []
    ensures SuperuserOn(rows, pages, u) <==>
            SuperuserOn(rows, pages[..|pages| - 1], u) || u in NamesOn(rows, pages[|pages| - 1])
  {
    var init, last := pages[..|pages| - 1], pages[|pages| - 1];
    if SuperuserOn(rows, init, u) {
      var p, id :| p in init && id in p && rows[id] == Account(u, true);
      assert p in pages;
    }
    if u in NamesOn(rows, last) {
      var id :| id in last && rows[id].isSuperuser && rows[id].username == u;
      assert last in pages && rows[id] == Account(u, true);
    }
    if SuperuserOn(rows, pages, u) {
      var p, id :| p in pages && id in p && rows[id] == Account(u, true);
      assert p in init || p == last;
    }
  }

  lemma {:induction false} CollectIs(env: Env, rows: Rows, pages: seq<seq<Id>>, tick: nat)
    requires forall p, id :: p in pages && id in p ==> id in rows
    ensures var c := Collect(env, rows, pages, tick);
            c.ok ==> forall u :: u in c.names <==> SuperuserOn(rows, pages, u)
    decreases |pages|
  {
    if pages != [] {
      CollectIs(env, rows, pages[..|pages| - 1], tick);
      forall u {
        OneMorePage(rows, pages, u);
      }
    }
  }

  // ---------- promoting in the gateway ----------

  /** Everyone named who exists becomes a superuser. */
  function Promote(gateway: Gateway, names: set<Username>): Gateway {
    map u | u in gateway :: gateway[u] || u in names
  }

  // ---------- demoting in Hub and EDA ----------

  datatype Demoted = Demoted(rows: Rows, tick: nat, ok: bool)

  /** One item of a fetched page; its data are those of the fetch. */
  datatype Item = Item(id: Id, account: Account)

  function Fetch(rows: Rows, page: seq<Id>): (items: seq<Item>)
    requires forall id :: id in page ==> id in rows
    ensures |items| == |page| && forall i :: 0 <= i < |items| ==> items[i] == Item(page[i], rows[page[i]])
  {
    seq(|page|, i requires 0 <= i < |page| => assert page[i] in page; Item(page[i], rows[page[i]]))
  }

  predicate Extra(account: Account, snapshot: set<Username>) {
    account.isSuperuser && account.username !in snapshot
  }

  function DemoteItems(env: Env, rows: Rows, items: seq<Item>, snapshot: set<Username>, tick: nat): Demoted
    decreases |items|
  {
    if items == [] then Demoted(rows, tick, true)
    else
      var before, item := DemoteItems(env, rows, items[..|items| - 1], snapshot, tick), items[|items| - 1];
      if !before.ok || !Extra(item.account, snapshot) then before
      else if !env(before.tick) then before.(ok := false)
      else Demoted(before.rows[item.id := item.account.(isSuperuser := false)], before.tick + 1, true)
  }

  function DemotePages(env: Env, rows: Rows, pages: seq<seq<Id>>, snapshot: set<Username>, tick: nat): (d: Demoted)
    requires forall p, id :: p in pages && id in p ==> id in rows
    ensures rows.Keys <= d.rows.Keys
    decreases |pages|
  {
    if pages == [] then Demoted(rows, tick, true)
    else
      var before, page := DemotePages(env, rows, pages[..|pages| - 1], snapshot, tick), pages[|pages| - 1];
      if !before.ok || !env(before.tick) then before.(ok := false)
      else
        var items := Fetch(before.rows, page);
        ItemsKeepKeys(env, before.rows, items, snapshot, before.tick + 1);
        DemoteItems(env, before.rows, items, snapshot, before.tick + 1)
  }

  lemma {:induction false} ItemsKeepKeys(env: Env, rows: Rows, items: seq<Item>, snapshot: set<Username>, tick: nat)
    ensures rows.Keys <= DemoteItems(env, rows, items, snapshot, tick).rows.Keys
    decreases |items|
  {
    if items != [] {
      ItemsKeepKeys(env, rows, items[..|items| - 1], snapshot, tick);
    }
  }

  /** Rows change only by being demoted, and only superusers outside the snapshot are. */
  ghost predicate OnlyDemotes(rows: Rows, after: Rows, snapshot: set<Username>) {
    && after.Keys == rows.Keys
    && forall id :: id in rows ==>
       || after[id] == rows[id]
       || (rows[id] == Account(rows[id].username, true) && rows[id].username !in snapshot
           && after[id] == Account(rows[id].username, false))
  }

  lemma {:induction false} ItemsDemote(env: Env, rows: Rows, page: seq<Id>, items: seq<Item>, snapshot: set<Username>,
      tick: nat)
    requires (forall id :: id in page ==> id in rows) && items <= Fetch(rows, page)
    ensures var d := DemoteItems(env, rows, items, snapshot, tick);
            && OnlyDemotes(rows, d.rows, snapshot)
            && (d.ok ==> forall i :: 0 <= i < |items| && Extra(items[i].account, snapshot) ==>
               !d.rows[items[i].id].isSuperuser)
    decreases |items|
  {
    if items != [] {
      var init, last := items[..|items| - 1], items[|items| - 1];
      ItemsDemote(env, rows, page, init, snapshot, tick);
      assert last == Fetch(rows, page)[|items| - 1];
      assert page[|items| - 1] in page;
    }
  }

  lemma {:induction false} ItemsLeaveOthers(env: Env, rows: Rows, page: seq<Id>, items: seq<Item>,
      snapshot: set<Username>, tick: nat)
    requires (forall id :: id in page ==> id in rows) && items <= Fetch(rows, page)
    ensures forall id :: id in rows && id !in page ==>
              id in DemoteItems(env, rows, items, snapshot, tick).rows
                  && DemoteItems(env, rows, items, snapshot, tick).rows[id] == rows[id]
    decreases |items|
  {
    if items != [] {
      ItemsLeaveOthers(env, rows, page, items[..|items| - 1], snapshot, tick);
      assert items[|items| - 1] == Fetch(rows, page)[|items| - 1];
      assert page[|items| - 1] in page;
    }
  }

  lemma PageDemotes(env: Env, rows: Rows, page: seq<Id>, snapshot: set<Username>, tick: nat)
    requires forall id :: id in page ==> id in rows
    ensures var d := DemoteItems(env, rows, Fetch(rows, page), snapshot, tick);
            && OnlyDemotes(rows, d.rows, snapshot)
            && (d.ok ==> forall id :: id in page ==> !Extra(d.rows[id], snapshot))
            && (forall id :: id in rows && id !in page ==> d.rows[id] == rows[id])
  {
    var items := Fetch(rows, page);
    ItemsDemote(env, rows, page, items, snapshot, tick);
    ItemsLeaveOthers(env, rows, page, items, snapshot, tick);
    var d := DemoteItems(env, rows, items, snapshot, tick);
    if d.ok {
      forall id | id in page ensures !Extra(d.rows[id], snapshot) {
        var i :| 0 <= i < |page| && page[i] == id;
        assert items[i].account == rows[id];
      }
    }
  }

  lemma OnlyDemotesTransitive(a: Rows, b: Rows, c: Rows, snapshot: set<Username>)
    requires OnlyDemotes(a, b, snapshot) && OnlyDemotes(b, c, snapshot)
    ensures OnlyDemotes(a, c, snapshot)
    ensures forall id :: id in b && !Extra(b[id], snapshot) ==> !Extra(c[id], snapshot)
  {
  }

  /** Whenever the run stops, rows were only demoted; if every page was handled, no listed superuser is left
      outside the snapshot, and every listed row in it or not a superuser is as before. */
  lemma {:induction false} PagesDemote(env: Env, rows: Rows, pages: seq<seq<Id>>, snapshot: set<Username>, tick: nat)
    requires forall p, id :: p in pages && id in p ==> id in rows
    ensures var d := DemotePages(env, rows, pages, snapshot, tick);
            && OnlyDemotes(rows, d.rows, snapshot)
            && (d.ok ==> forall p, id :: p in pages && id in p ==> !Extra(d.rows[id], snapshot))
            && (forall id :: id in rows && (forall p :: p in pages ==> id !in p) ==> d.rows[id] == rows[id])
    decreases |pages|
  {
    if pages != [] {
      var init, page := pages[..|pages| - 1], pages[|pages| - 1];
      PagesDemote(env, rows, init, snapshot, tick);
      var before, d := DemotePages(env, rows, init, snapshot, tick), DemotePages(env, rows, pages, snapshot, tick);
      assert forall p :: p in pages <==> p in init || p == page;
      if before.ok && env(before.tick) {
        PageDemotes(env, before.rows, page, snapshot, before.tick + 1);
        OnlyDemotesTransitive(rows, before.rows, d.rows, snapshot);
      }
    }
  }

  // ---------- the whole step ----------

  datatype Outcome = Done | CallFailed | MissingUsers

  datatype State = State(gateway: Gateway, services: seq<Service>)

  datatype Run = Run(state: State, tick: nat, outcome: Outcome)

  predicate AllServe(services: seq<Service>) {
    forall s :: s in services ==> Serves(s)
  }

  /** Of several Controllers, the last. */
  function ControllerAmong(services: seq<Service>): (c: Option<nat>)
    ensures c.Some? ==> c.value < |services| && services[c.value].kind.Controller?
  {
    if services == [] then None
    else if services[|services| - 1].kind.Controller? then Some(|services| - 1)
    else ControllerAmong(services[..|services| - 1])
  }

  function PromoteFrom(env: Env, s: State): Run
    requires AllServe(s.services)
  {
    match ControllerAmong(s.services)
    case None => Run(s, 0, Done)
    case Some(i) =>
      assert s.services[i] in s.services;
      var c := Collect(env, s.services[i].rows, s.services[i].pages, 0);
      if !c.ok then Run(s, c.tick, CallFailed)
      else
        var only := c.names - SuperusersOf(s.gateway);
        Run(s.(gateway := Promote(s.gateway, only)), c.tick, if only <= s.gateway.Keys then Done else MissingUsers)
  }

  predicate TakesGateway(s: Service) {
    s.kind.Hub? || s.kind.Eda?
  }

  /** Hub and EDA services in turn, each against the snapshot. */
  function DemoteServices(env: Env, s: State, snapshot: set<Username>, tick: nat, k: nat): Run
    requires k <= |s.services| && AllServe(s.services)
    ensures |DemoteServices(env, s, snapshot, tick, k).state.services| == |s.services|
    decreases k
  {
    if k == 0 then Run(s, tick, Done)
    else
      var before, service := DemoteServices(env, s, snapshot, tick, k - 1), s.services[k - 1];
      if !before.outcome.Done? || !TakesGateway(service) then before
      else
        assert service in s.services;
        var d := DemotePages(env, service.rows, service.pages, snapshot, before.tick);
        Run(before.state.(services := before.state.services[k - 1 := service.(rows := d.rows)]), d.tick, if d.ok
            then Done else CallFailed)
  }

  function Ensure(env: Env, s: State): Run
    requires AllServe(s.services)
  {
    var promoted := PromoteFrom(env, s);
    if !promoted.outcome.Done? then promoted
    else DemoteServices(env, promoted.state, SuperusersOf(s.gateway), promoted.tick, |s.services|)
  }

  // ---------- what it achieves ----------

  /** Of several Controllers only the last is asked. */
  predicate IsLastController(services: seq<Service>, i: nat) {
    && i < |services| && services[i].kind == Controller
    && forall j :: i < j < |services| ==> services[j].kind != Controller
  }

  /** The superusers Controller lists. */
  ghost predicate InController(s: State, u: Username)
    requires AllServe(s.services)
  {
    exists i: nat :: IsLastController(s.services, i) && ListsSuperuser(s.services[i], u)
  }

  ghost predicate ListsSuperuser(s: Service, u: Username) {
    exists p, id :: p in s.pages && id in p && id in s.rows && s.rows[id] == Account(u, true)
  }

  lemma {:induction false} ControllerAmongIs(services: seq<Service>, i: nat)
    ensures ControllerAmong(services) == Some(i) <==> IsLastController(services, i)
    decreases |services|
  {
    if services != [] {
      ControllerAmongIs(services[..|services| - 1], i);
    }
  }

  lemma InControllerIs(s: State, u: Username)
    requires AllServe(s.services)
    ensures InController(s, u) <==>
            match ControllerAmong(s.services)
            case None => false
            case Some(i) =>
              assert s.services[i] in s.services;
              SuperuserOn(s.services[i].rows, s.services[i].pages, u)
  {
    forall i: nat ensures ControllerAmong(s.services) == Some(i) <==> IsLastController(s.services, i) {
      ControllerAmongIs(s.services, i);
    }
    var c := ControllerAmong(s.services);
    if c.Some? {
      assert s.services[c.value] in s.services;
      assert SuperuserOn(s.services[c.value].rows, s.services[c.value].pages, u) <==>
             ListsSuperuser(s.services[c.value], u);
    }
  }

  predicate IsSuperuser(gateway: Gateway, u: Username) {
    u in gateway && gateway[u]
  }

  lemma PromoteIs(env: Env, s: State)
    requires AllServe(s.services)
    ensures var p := PromoteFrom(env, s);
            && p.state.services == s.services && p.state.gateway.Keys == s.gateway.Keys
            && (forall u :: u in s.gateway && s.gateway[u] ==> p.state.gateway[u])
            && (p.outcome.CallFailed? ==> p.state == s)
            && (!p.outcome.CallFailed? ==> forall u :: u in s.gateway ==>
               (p.state.gateway[u] <==> s.gateway[u] || InController(s, u)))
            && (p.outcome.Done? ==> forall u :: InController(s, u) ==> u in s.gateway)
            && (p.outcome.MissingUsers? ==> exists u :: InController(s, u) && u !in s.gateway)
  {
    var c := ControllerAmong(s.services);
    forall u ensures InController(s, u) <==>
                     c.Some? && s.services[c.value] in s.services
                     && SuperuserOn(s.services[c.value].rows, s.services[c.value].pages, u)
    {
      InControllerIs(s, u);
    }
    if c.Some? {
      assert s.services[c.value] in s.services;
      CollectIs(env, s.services[c.value].rows, s.services[c.value].pages, 0);
    } else {
      assert s.gateway.Keys == s.gateway.Keys;
    }
  }

  lemma {:induction false} DemoteServicesIs(env: Env, s: State, snapshot: set<Username>, tick: nat, k: nat)
    requires k <= |s.services| && AllServe(s.services)
    ensures var run := DemoteServices(env, s, snapshot, tick, k);
            && run.state.gateway == s.gateway && |run.state.services| == |s.services|
            && !run.outcome.MissingUsers?
            && (forall i :: 0 <= i < |s.services| ==> AfterDemotion(s.services[i], run.state.services[i], snapshot))
            && (forall i :: k <= i < |s.services| ==> run.state.services[i] == s.services[i])
            && (run.outcome.Done? ==> forall i :: 0 <= i < k && TakesGateway(s.services[i]) ==>
               NoExtra(run.state.services[i], snapshot))
    decreases k
  {
    if k > 0 {
      DemoteServicesIs(env, s, snapshot, tick, k - 1);
      var service, before := s.services[k - 1], DemoteServices(env, s, snapshot, tick, k - 1);
      if before.outcome.Done? && TakesGateway(service) {
        assert service in s.services;
        PagesDemote(env, service.rows, service.pages, snapshot, before.tick);
        var d := DemotePages(env, service.rows, service.pages, snapshot, before.tick);
        assert AfterDemotion(service, service.(rows := d.rows), snapshot);
        if d.ok {
          assert NoExtra(service.(rows := d.rows), snapshot);
        }
      }
    }
  }

  ghost predicate AfterDemotion(s: Service, after: Service, snapshot: set<Username>) {
    && after.kind == s.kind && after.pages == s.pages
    && OnlyDemotes(s.rows, after.rows, snapshot)
    && (s.kind != Hub && s.kind != Eda ==> after == s)
    && forall id :: id in s.rows && !IsListed(s, id) ==> after.rows[id] == s.rows[id]
  }

  ghost predicate NoExtra(s: Service, snapshot: set<Username>) {
    forall id :: id in s.rows && IsListed(s, id) && s.rows[id].isSuperuser ==> s.rows[id].username in snapshot
  }

  /** The service after the step: only superusers of Hub or EDA that the gateway did not have are demoted. */
  ghost predicate OnlyLosesExtras(s: Service, after: Service, gateway: Gateway) {
    && after.kind == s.kind && after.pages == s.pages && after.rows.Keys == s.rows.Keys
    && forall id :: id in s.rows && after.rows[id] != s.rows[id] ==>
         && (s.kind == Hub || s.kind == Eda) && IsListed(s, id) && s.rows[id].isSuperuser
         && !IsSuperuser(gateway, s.rows[id].username) && after.rows[id] == Account(s.rows[id].username, false)
  }

  lemma DemotionLosesExtras(s: Service, after: Service, gateway: Gateway)
    requires AfterDemotion(s, after, SuperusersOf(gateway))
    ensures OnlyLosesExtras(s, after, gateway)
  {
  }

  /** However the step ends, the gateway only gains superusers, and only such as Controller lists; no service gains
      one, and Hub and EDA lose only such as the gateway did not have. */
  lemma GatewayOnlyGrows(env: Env, s: State)
    requires AllServe(s.services)
    ensures var after := Ensure(env, s).state;
            && after.gateway.Keys == s.gateway.Keys
            && (forall u :: u in s.gateway && after.gateway[u] != s.gateway[u] ==>
                  after.gateway[u] && InController(s, u))
            && |after.services| == |s.services|
            && forall i :: 0 <= i < |s.services| ==> OnlyLosesExtras(s.services[i], after.services[i], s.gateway)
  {
    PromoteIs(env, s);
    var p, after := PromoteFrom(env, s), Ensure(env, s).state;
    if p.outcome.Done? {
      DemoteServicesIs(env, p.state, SuperusersOf(s.gateway), p.tick, |s.services|);
      forall i | 0 <= i < |s.services| ensures OnlyLosesExtras(s.services[i], after.services[i], s.gateway) {
        DemotionLosesExtras(s.services[i], after.services[i], s.gateway);
      }
    }
  }

  /** After a normal end, the superusers of the gateway are those it had and those Controller lists, and every
      listed superuser of Hub and EDA is one the gateway had before the step. */
  lemma NormalEnd(env: Env, s: State)
    requires AllServe(s.services) && Ensure(env, s).outcome.Done?
    ensures var after := Ensure(env, s).state;
            && (forall u :: IsSuperuser(after.gateway, u) <==> IsSuperuser(s.gateway, u) || InController(s, u))
            && |after.services| == |s.services|
            && (forall i, id :: 0 <= i < |s.services| && IsFollower(s.services[i]) && IsListed(s.services[i], id) ==>
                  KeptIff(s.services[i], after.services[i], id, s.gateway, after.gateway))
  {
    PromoteIs(env, s);
    var p, snapshot := PromoteFrom(env, s), SuperusersOf(s.gateway);
    DemoteServicesIs(env, p.state, snapshot, p.tick, |s.services|);
    var after := Ensure(env, s).state;
    forall i, id | 0 <= i < |s.services| && IsFollower(s.services[i]) && IsListed(s.services[i], id)
      ensures KeptIff(s.services[i], after.services[i], id, s.gateway, after.gateway)
    {
      assert s.services[i] in s.services;
      assert AfterDemotion(s.services[i], after.services[i], snapshot) && NoExtra(after.services[i], snapshot);
      assert IsListed(after.services[i], id);
    }
  }

  predicate IsFollower(s: Service) {
    s.kind == Hub || s.kind == Eda
  }

  /** The listed user is a superuser afterwards exactly if it was one there and in the gateway before. */
  predicate KeptIff(s: Service, after: Service, id: Id, gateway: Gateway, gateway1: Gateway) {
    && id in s.rows && id in after.rows && after.rows[id].username == s.rows[id].username
    && (after.rows[id].isSuperuser <==> s.rows[id].isSuperuser && IsSuperuser(gateway, s.rows[id].username))
    && (after.rows[id].isSuperuser ==> IsSuperuser(gateway1, after.rows[id].username))
  }

  /** Controller and the gateway have the same superusers afterwards exactly when Controller listed all the
      gateway already had: extra superusers of the gateway are kept. */
  lemma SameSuperusersIff(env: Env, s: State)
    requires AllServe(s.services) && Ensure(env, s).outcome.Done?
    ensures (forall u :: IsSuperuser(Ensure(env, s).state.gateway, u) <==> InController(s, u)) <==>
            (forall u :: IsSuperuser(s.gateway, u) ==> InController(s, u))
  {
    NormalEnd(env, s);
  }

  /** A listed superuser of Hub or EDA whom the gateway promotes in this very run is demoted there, because the
      snapshot is older than the promotion. */
  lemma PromotedIsDemoted(env: Env, s: State, u: Username, i: nat, id: Id)
    requires AllServe(s.services) && Ensure(env, s).outcome.Done?
    requires InController(s, u) && !IsSuperuser(s.gateway, u)
    requires i < |s.services| && IsFollower(s.services[i]) && IsListed(s.services[i], id) && id in s.services[i].rows
    requires s.services[i].rows[id] == Account(u, true)
    ensures var after := Ensure(env, s).state;
            IsSuperuser(after.gateway, u) && |after.services| == |s.services|
            && id in after.services[i].rows && after.services[i].rows[id] == Account(u, false)
  {
    NormalEnd(env, s);
    assert KeptIff(s.services[i], Ensure(env, s).state.services[i], id, s.gateway, Ensure(env, s).state.gateway);
  }

  lemma {:induction false} CollectOkIff(env: Env, rows: Rows, pages: seq<seq<Id>>, tick: nat)
    requires forall p, id :: p in pages && id in p ==> id in rows
    ensures var c := Collect(env, rows, pages, tick);
            && (c.ok <==> forall i: nat :: tick <= i < tick + |pages| ==> env(i))
            && (c.ok ==> c.tick == tick + |pages|)
    decreases |pages|
  {
    if pages != [] {
      CollectOkIff(env, rows, pages[..|pages| - 1], tick);
      var last := tick + |pages| - 1;
      assert (forall i: nat :: tick <= i < tick + |pages| ==> env(i)) <==>
        (forall i: nat :: tick <= i < last ==> env(i)) && env(last);
    }
  }

  /** Every page of Controller, if there is one, can be fetched. */
  ghost predicate ControllerAnswers(env: Env, s: State) {
    forall c: nat :: IsLastController(s.services, c) ==> forall i: nat :: i < |s.services[c].pages| ==> env(i)
  }

  /** The step stops for missing users exactly when every page of Controller can be fetched and one of its
      superusers is no gateway user; the others have been promoted by then, and nobody demoted. */
  lemma MissingUsersIff(env: Env, s: State)
    requires AllServe(s.services)
    ensures var run := Ensure(env, s);
            && (run.outcome.MissingUsers? <==>
               ControllerAnswers(env, s) && exists u :: InController(s, u) && u !in s.gateway)
            && (run.outcome.MissingUsers? ==>
                  run.state.services == s.services && run.state.gateway.Keys == s.gateway.Keys
                  && forall u :: u in s.gateway ==> (run.state.gateway[u] <==> s.gateway[u] || InController(s, u)))
  {
    PromoteIs(env, s);
    var p, c := PromoteFrom(env, s), ControllerAmong(s.services);
    if c.Some? {
      assert s.services[c.value] in s.services;
      CollectOkIff(env, s.services[c.value].rows, s.services[c.value].pages, 0);
    }
    forall i: nat ensures c == Some(i) <==> IsLastController(s.services, i) {
      ControllerAmongIs(s.services, i);
    }
    assert p.outcome.CallFailed? <==> !ControllerAnswers(env, s);
    if p.outcome.Done? {
      DemoteServicesIs(env, p.state, SuperusersOf(s.gateway), p.tick, |s.services|);
    }
  }
}

/** The superuser step as it runs: the page loops of _migrate_service_data/superuser_sync.py. */
module SuperuserSync {
  import Sets
  import opened Superusers
  import opened Wrappers

  class Synchroniser {
    const env: Env
    var state: State
    var tick: nat

    constructor (env: Env, state: State)
      ensures this.env == env && this.state == state && tick == 0
    {
      this.env, this.state, tick := env, state, 0;
    }

    /** `_collect_controller_superusers`: fetch page after page until there is no next one. */
    method CollectControllerSuperusers(i: nat) returns (names: set<Username>, ok: bool)
      requires i < |state.services| && AllServe(state.services)
      modifies this`tick
      ensures state.services[i] in state.services
      ensures var c := Collect(env, state.services[i].rows, state.services[i].pages, old(tick));
              ok == c.ok && (ok ==> names == c.names && tick == c.tick)
    {
      assert state.services[i] in state.services;
      var rows, pages := state.services[i].rows, state.services[i].pages;
      names := {};
      ghost var start := tick;
      for page := 0 to |pages|
        invariant Collect(env, rows, pages[..page], start) == Collected(names, tick, true)
      {
        assert pages[page] in pages;
        assert pages[..page + 1][..page] == pages[..page];
        if !env(tick) {
          CollectStopsAt(env, rows, pages, start, page + 1);
          return {}, false;
        }
        tick := tick + 1;
        var found := NamesIn(rows, pages[page]);
        names := names + found;
      }
      assert pages[..|pages|] == pages;
      ok := true;
    }

    method NamesIn(rows: Rows, page: seq<Id>) returns (names: set<Username>)
      requires forall id :: id in page ==> id in rows
      ensures names == NamesOn(rows, page)
    {
      names := {};
      for i := 0 to |page|
        invariant names == set k | 0 <= k < i && rows[page[k]].isSuperuser :: rows[page[k]].username
      {
        if rows[page[i]].isSuperuser {
          names := names + {rows[page[i]].username};
        }
      }
    }

    /** `_ensure_controller_gateway_superusers`. */
    method EnsureControllerGatewaySuperusers(i: nat, snapshot: set<Username>) returns (outcome: Outcome)
      requires i < |state.services| && AllServe(state.services) && ControllerAmong(state.services) == Some(i)
      requires snapshot == SuperusersOf(state.gateway) && tick == 0
      modifies this
      ensures var run := PromoteFrom(env, old(state));
              outcome == run.outcome && state == run.state && (outcome.Done? ==> tick == run.tick)
    {
      var names, ok := CollectControllerSuperusers(i);
      if !ok {
        return CallFailed;
      }
      var missing := PromoteUsers(names - snapshot);
      outcome := if missing then MissingUsers else Done;
    }

    method PromoteUsers(only: set<Username>) returns (missing: bool)
      modifies this`state
      ensures state == old(state).(gateway := Promote(old(state).gateway, only))
      ensures missing <==> !(only <= old(state).gateway.Keys)
    {
      ghost var before, seen := state, {};
      var left := only;
      missing := false;
      assert Promote(before.gateway, {}) == before.gateway;
      while left != {}
        invariant forall u :: u in only <==> u in left || u in seen
        invariant state == before.(gateway := Promote(before.gateway, seen))
        invariant missing <==> exists u :: u in seen && u !in before.gateway
        decreases |left|
      {
        ghost var some := Sets.Pick(left);
        var u :| u in left;
        PromoteOne(before.gateway, seen, u);
        if u in state.gateway {
          state := state.(gateway := state.gateway[u := true]);
        } else {
          missing := true;
        }
        left := left - {u};
        seen := seen + {u};
      }
      Sets.SameElements(seen, only);
    }

    /** `_demote_extra_superusers` for one service. */
    method DemoteExtraSuperusers(i: nat, snapshot: set<Username>) returns (ok: bool)
      requires i < |state.services| && Serves(state.services[i])
      modifies this
      ensures var s := old(state).services[i];
              var d := DemotePages(env, s.rows, s.pages, snapshot, old(tick));
              && ok == d.ok && state == old(state).(services := old(state).services[i := s.(rows := d.rows)])
              && (ok ==> tick == d.tick)
    {
      var service := state.services[i];
      var rows;
      rows, ok := DemoteEachPage(service.rows, service.pages, snapshot);
      state := state.(services := state.services[i := service.(rows := rows)]);
    }

    method DemoteEachPage(rows: Rows, pages: seq<seq<Id>>, snapshot: set<Username>) returns (after: Rows, ok: bool)
      requires forall p, id :: p in pages && id in p ==> id in rows
      modifies this`tick
      ensures var d := DemotePages(env, rows, pages, snapshot, old(tick));
              after == d.rows && ok == d.ok && (ok ==> tick == d.tick)
    {
      ghost var start := tick;
      after, ok := rows, true;
      for page := 0 to |pages|
        invariant ok && DemotePages(env, rows, pages[..page], snapshot, start) == Demoted(after, tick, true)
      {
        assert pages[page] in pages;
        Sets.PrefixGrows(pages, page);
        NextDemoted(env, rows, pages[..page], pages[page], snapshot, start, Demoted(after, tick, true));
        if !env(tick) {
          ok := false;
          DemoteStopsAt(env, rows, pages, snapshot, start, page + 1);
          return;
        }
        tick := tick + 1;
        after, ok := DemotePage(after, pages[page], snapshot);
        if !ok {
          DemoteStopsAt(env, rows, pages, snapshot, start, page + 1);
          return;
        }
      }
      assert pages[..|pages|] == pages;
    }

    method DemotePage(rows: Rows, page: seq<Id>, snapshot: set<Username>) returns (after: Rows, ok: bool)
      requires forall id :: id in page ==> id in rows
      modifies this`tick
      ensures var d := DemoteItems(env, rows, Fetch(rows, page), snapshot, old(tick));
              after == d.rows && ok == d.ok && (ok ==> tick == d.tick)
    {
      var items := Fetch(rows, page);
      ghost var start := tick;
      after, ok := rows, true;
      for k := 0 to |items|
        invariant ok && DemoteItems(env, rows, items[..k], snapshot, start) == Demoted(after, tick, true)
      {
        assert items[..k + 1][..k] == items[..k];
        if items[k].account.isSuperuser && items[k].account.username !in snapshot {
          if !env(tick) {
            ItemsStopAt(env, rows, items, snapshot, start, k + 1);
            return after, false;
          }
          tick := tick + 1;
          after := after[items[k].id := items[k].account.(isSuperuser := false)];
        }
      }
      assert items[..|items|] == items;
    }

    /** `_ensure_superuser_consistency`: the snapshot of the gateway's superusers is taken first. */
    method EnsureSuperuserConsistency() returns (outcome: Outcome)
      requires AllServe(state.services) && tick == 0
      modifies this
      ensures outcome == Ensure(env, old(state)).outcome && state == Ensure(env, old(state)).state
    {
      var snapshot := SuperusersOf(state.gateway);
      var controller: Option<nat> := None;
      for i := 0 to |state.services|
        invariant controller == ControllerAmong(state.services[..i]) && state == old(state) && tick == 0
      {
        assert state.services[..i + 1][..i] == state.services[..i];
        if state.services[i].kind.Controller? {
          controller := Some(i);
        }
      }
      assert state.services[..|state.services|] == state.services;
      outcome := Done;
      if controller.Some? {
        outcome := EnsureControllerGatewaySuperusers(controller.value, snapshot);
        PromoteIs(env, old(state));
        if !outcome.Done? {
          return;
        }
      }
      outcome := DemoteAll(snapshot);
    }

    method DemoteAll(snapshot: set<Username>) returns (outcome: Outcome)
      requires AllServe(state.services)
      modifies this
      ensures var run := DemoteServices(env, old(state), snapshot, old(tick), |old(state).services|);
              outcome == run.outcome && state == run.state
    {
      ghost var before, start := state, tick;
      var n := |state.services|;
      for k := 0 to n
        invariant |state.services| == n
        invariant DemoteServices(env, before, snapshot, start, k) == Run(state, tick, Done)
      {
        DemoteServicesIs(env, before, snapshot, start, k);
        assert state.services[k] == before.services[k];
        assert before.services[k] in before.services;
        if state.services[k].kind.Hub? || state.services[k].kind.Eda? {
          var ok := DemoteExtraSuperusers(k, snapshot);
          if !ok {
            ServicesStopAt(env, before, snapshot, start, k + 1);
            return CallFailed;
          }
        }
      }
      outcome := Done;
    }
  }

  lemma NextDemoted(env: Env, rows: Rows, before: seq<seq<Id>>, page: seq<Id>, snapshot: set<Username>, start: nat,
      d: Demoted)
    requires (forall p, id :: p in before && id in p ==> id in rows) && forall id :: id in page ==> id in rows
    requires d == DemotePages(env, rows, before, snapshot, start) && d.ok
    ensures forall id :: id in page ==> id in d.rows
    ensures forall p, id :: p in before + [page] && id in p ==> id in rows
    ensures DemotePages(env, rows, before + [page], snapshot, start)
            == if !env(d.tick) then d.(ok := false)
               else DemoteItems(env, d.rows, Fetch(d.rows, page), snapshot, d.tick + 1)
  {
    assert (before + [page])[..|before|] == before;
  }

  lemma {:induction false} CollectStopsAt(env: Env, rows: Rows, pages: seq<seq<Id>>, tick: nat, k: nat)
    requires (forall p, id :: p in pages && id in p ==> id in rows) && k <= |pages|
    requires !Collect(env, rows, pages[..k], tick).ok
    ensures !Collect(env, rows, pages, tick).ok
    decreases |pages| - k
  {
    if k < |pages| {
      assert pages[..k + 1][..k] == pages[..k];
      CollectStopsAt(env, rows, pages, tick, k + 1);
    } else {
      assert pages[..k] == pages;
    }
  }

  lemma {:induction false} DemoteStopsAt(env: Env, rows: Rows, pages: seq<seq<Id>>, snapshot: set<Username>, tick: nat,
      k: nat)
    requires (forall p, id :: p in pages && id in p ==> id in rows) && k <= |pages|
    requires !DemotePages(env, rows, pages[..k], snapshot, tick).ok
    ensures DemotePages(env, rows, pages, snapshot, tick) == DemotePages(env, rows, pages[..k], snapshot, tick)
    decreases |pages| - k
  {
    if k < |pages| {
      assert pages[..k + 1][..k] == pages[..k];
      DemoteStopsAt(env, rows, pages, snapshot, tick, k + 1);
    } else {
      assert pages[..k] == pages;
    }
  }

  lemma {:induction false} ItemsStopAt(env: Env, rows: Rows, items: seq<Item>, snapshot: set<Username>, tick: nat,
      k: nat)
    requires k <= |items| && !DemoteItems(env, rows, items[..k], snapshot, tick).ok
    ensures DemoteItems(env, rows, items, snapshot, tick) == DemoteItems(env, rows, items[..k], snapshot, tick)
    decreases |items| - k
  {
    if k < |items| {
      assert items[..k + 1][..k] == items[..k];
      ItemsStopAt(env, rows, items, snapshot, tick, k + 1);
    } else {
      assert items[..k] == items;
    }
  }

  lemma {:induction false} ServicesStopAt(env: Env, s: State, snapshot: set<Username>, tick: nat, k: nat)
    requires k <= |s.services| && AllServe(s.services) && !DemoteServices(env, s, snapshot, tick, k).outcome.Done?
    ensures DemoteServices(env, s, snapshot, tick, |s.services|) == DemoteServices(env, s, snapshot, tick, k)
    decreases |s.services| - k
  {
    if k < |s.services| {
      ServicesStopAt(env, s, snapshot, tick, k + 1);
    }
  }

  lemma PromoteOne(gateway: Gateway, names: set<Username>, u: Username)
    ensures Promote(gateway, names + {u}) == if u in gateway then Promote(gateway, names)[u := true]
            else Promote(gateway, names)
  {
  }
}

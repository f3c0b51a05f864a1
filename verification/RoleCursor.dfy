/** Migration of role assignments: _migrate_service_data/role_assignments.py and cursor_store.py.

    One (service, assignment type) pair is paged through with an `id > cursor` filter.  Every request sees
    its own snapshot of the upstream table, any request or database write may be the last thing the process
    does, and the persisted cursor may fail to load or to be written.  Primary keys of actors and objects
    are kept in the text form the resource registry stores. */
module RoleCursor {
  import opened Wrappers

  type Pk = string

  datatype RoleDef = RoleDef(id: nat, contentType: Option<nat>)

  datatype Item = Item(
    id: Option<nat>, role: Option<string>, actor: Option<string>, objectAnsibleId: Option<string>, objectId: Option<Pk>)

  // The gateway tables the page is resolved against.
  datatype Gateway = Gateway(roles: map<string, RoleDef>, resources: map<string, Pk>)

  datatype ObjectRole = ObjectRole(role: nat, contentType: Option<nat>, objectId: Pk)

  datatype GlobalRow = GlobalRow(actor: Pk, role: nat)
  datatype ObjectRow = ObjectRow(actor: Pk, objectRole: ObjectRole)

  // Global rows have a null object role, which the unique constraint does not compare: they are a list.
  datatype Local = Local(globals: seq<GlobalRow>, objectRoles: set<ObjectRole>, objects: set<ObjectRow>)

  // ---------- resolving ----------

  datatype Resolved = Skip | Global(row: GlobalRow) | Object(assignment: ObjectRow)

  predicate Given(s: Option<string>) {
    s.Some? && s.value != ""
  }

  function Resolve(item: Item, roles: map<string, RoleDef>, actors: map<string, Pk>,
      objects: map<string, Pk>): Resolved
  {
    if !Given(item.actor) || !Given(item.role) then Skip
    else if item.role.value !in roles || item.actor.value !in actors then Skip
    else
      var rd, actor := roles[item.role.value], actors[item.actor.value];
      if Given(item.objectAnsibleId) then
        if item.objectAnsibleId.value !in objects then Skip
        else Object(ObjectRow(actor, ObjectRole(rd.id, rd.contentType, objects[item.objectAnsibleId.value])))
      else if item.objectId.Some? then Object(ObjectRow(actor, ObjectRole(rd.id, rd.contentType, item.objectId.value)))
      else Global(GlobalRow(actor, rd.id))
  }

  /** An item resolved on its own, against the whole tables. */
  function ResolveAlone(gw: Gateway, item: Item): Resolved {
    Resolve(item, gw.roles, gw.resources, gw.resources)
  }

  function WantedGlobals(gw: Gateway, results: seq<Item>): seq<GlobalRow> {
    if results == [] then []
    else
      var r := ResolveAlone(gw, results[0]);
      (if r.Global? then [r.row] else []) + WantedGlobals(gw, results[1..])
  }

  function WantedObjects(gw: Gateway, results: seq<Item>): seq<ObjectRow> {
    if results == [] then []
    else
      var r := ResolveAlone(gw, results[0]);
      (if r.Object? then [r.assignment] else []) + WantedObjects(gw, results[1..])
  }

  // ---------- creating ----------

  function NewGlobals(existing: seq<GlobalRow>, wanted: seq<GlobalRow>): seq<GlobalRow> {
    if wanted == [] then []
    else (if wanted[0] in existing then [] else [wanted[0]]) + NewGlobals(existing, wanted[1..])
  }

  function CreateGlobals(local: Local, wanted: seq<GlobalRow>): Local {
    local.(globals := local.globals + NewGlobals(local.globals, wanted))
  }

  function CreateObjectRoles(local: Local, wanted: seq<ObjectRow>): Local {
    local.(objectRoles := local.objectRoles + set a | a in wanted :: a.objectRole)
  }

  /** An assignment whose object role is not found is skipped. */
  function CreateObjects(local: Local, wanted: seq<ObjectRow>): Local {
    local.(objects := local.objects + set a | a in wanted && a.objectRole in local.objectRoles)
  }

  /** Where in a page the process dies, if it does.  Each of the three creates commits on its own. */
  datatype Stop = BeforeGlobals | BeforeObjectRoles | BeforeObjects | BeforeAdvance | AfterAdvance | NoStop {
    predicate Cuts() {
      BeforeGlobals? || BeforeObjectRoles? || BeforeObjects?
    }
  }

  function ProcessPage(local: Local, gw: Gateway, results: seq<Item>, stop: Stop): Local {
    var globals, objects := WantedGlobals(gw, results), WantedObjects(gw, results);
    if stop.BeforeGlobals? then local
    else
      var l1 := CreateGlobals(local, globals);
      if stop.BeforeObjectRoles? then l1
      else
        var l2 := CreateObjectRoles(l1, objects);
        if stop.BeforeObjects? then l2 else CreateObjects(l2, objects)
  }

  // ---------- what an item asks for ----------

  /** The item names a role and an actor that the gateway has. */
  predicate IsKnown(gw: Gateway, item: Item) {
    && item.role.Some? && item.role.value != "" && item.role.value in gw.roles
    && item.actor.Some? && item.actor.value != "" && item.actor.value in gw.resources
  }

  /** The item names the object by its ansible_id, or else by its key. */
  predicate NamesObject(gw: Gateway, item: Item, target: Pk) {
    if item.objectAnsibleId == None || item.objectAnsibleId == Some("") then item.objectId == Some(target)
    else item.objectAnsibleId.value in gw.resources && gw.resources[item.objectAnsibleId.value] == target
  }

  predicate NamesNoObject(item: Item) {
    (item.objectAnsibleId == None || item.objectAnsibleId == Some("")) && item.objectId == None
  }

  /** A system-wide assignment of the role. */
  predicate AsksGlobal(gw: Gateway, item: Item, row: GlobalRow) {
    IsKnown(gw, item) && NamesNoObject(item)
        && row.actor == gw.resources[item.actor.value] && row.role == gw.roles[item.role.value].id
  }

  /** An assignment of the role for one object. */
  predicate AsksObject(gw: Gateway, item: Item, row: ObjectRow) {
    && IsKnown(gw, item) && NamesObject(gw, item, row.objectRole.objectId)
    && row.actor == gw.resources[item.actor.value] && row.objectRole.role == gw.roles[item.role.value].id
    && row.objectRole.contentType == gw.roles[item.role.value].contentType
  }

  lemma ResolvesToWhatIsAsked(gw: Gateway, item: Item)
    ensures var r := ResolveAlone(gw, item);
            && (forall row :: AsksGlobal(gw, item, row) <==> r == Global(row))
            && (forall row :: AsksObject(gw, item, row) <==> r == Object(row))
  {
  }

  /** What the item asks for has been created; an item that asks for nothing is skipped. */
  ghost predicate Settled(local: Local, gw: Gateway, item: Item) {
    && (forall row :: AsksGlobal(gw, item, row) ==> row in local.globals)
    && (forall row :: AsksObject(gw, item, row) ==> row in local.objects && row.objectRole in local.objectRoles)
  }

  /** The new rows are asked for by items of the page. */
  ghost predicate AddsOnlyAsked(local: Local, l1: Local, gw: Gateway, results: seq<Item>) {
    && (forall row :: row in l1.globals ==> row in local.globals || GlobalAsked(gw, results, row))
    && (forall row :: row in l1.objects ==> row in local.objects || ObjectAsked(gw, results, row))
    && (forall role :: role in l1.objectRoles ==> role in local.objectRoles || RoleAsked(gw, results, role))
  }

  ghost predicate GlobalAsked(gw: Gateway, results: seq<Item>, row: GlobalRow) {
    exists item :: item in results && AsksGlobal(gw, item, row)
  }

  ghost predicate ObjectAsked(gw: Gateway, results: seq<Item>, row: ObjectRow) {
    exists item :: item in results && AsksObject(gw, item, row)
  }

  ghost predicate RoleAsked(gw: Gateway, results: seq<Item>, role: ObjectRole) {
    exists row :: ObjectAsked(gw, results, row) && row.objectRole == role
  }

  ghost predicate Grows(l: Local, l1: Local) {
    l.globals <= l1.globals && l.objectRoles <= l1.objectRoles && l.objects <= l1.objects
  }

  lemma {:induction false} WantedRows(gw: Gateway, results: seq<Item>, item: Item)
    requires item in results
    ensures var r := ResolveAlone(gw, item);
            && (r.Global? ==> r.row in WantedGlobals(gw, results))
            && (r.Object? ==> r.assignment in WantedObjects(gw, results))
    decreases |results|
  {
    if item != results[0] {
      WantedRows(gw, results[1..], item);
    }
  }

  lemma {:induction false} WantedIsAsked(gw: Gateway, results: seq<Item>)
    ensures forall row :: row in WantedGlobals(gw, results) ==> GlobalAsked(gw, results, row)
    ensures forall row :: row in WantedObjects(gw, results) ==> ObjectAsked(gw, results, row)
    decreases |results|
  {
    if results != [] {
      var first, rest := results[0], results[1..];
      WantedIsAsked(gw, rest);
      ResolvesToWhatIsAsked(gw, first);
      forall row | row in WantedGlobals(gw, results) ensures GlobalAsked(gw, results, row) {
        assert AsksGlobal(gw, first, row) || GlobalAsked(gw, rest, row);
      }
      forall row | row in WantedObjects(gw, results) ensures ObjectAsked(gw, results, row) {
        assert AsksObject(gw, first, row) || ObjectAsked(gw, rest, row);
      }
    }
  }

  lemma {:induction false} NewGlobalsAreWanted(existing: seq<GlobalRow>, wanted: seq<GlobalRow>, row: GlobalRow)
    requires row in NewGlobals(existing, wanted)
    ensures row in wanted
    decreases |wanted|
  {
    if row != wanted[0] {
      NewGlobalsAreWanted(existing, wanted[1..], row);
    }
  }

  /** A page adds nothing but what its items ask for. */
  lemma PageAddsOnlyAsked(local: Local, gw: Gateway, results: seq<Item>, stop: Stop)
    ensures AddsOnlyAsked(local, ProcessPage(local, gw, results, stop), gw, results)
  {
    WantedIsAsked(gw, results);
    var l1 := ProcessPage(local, gw, results, stop);
    forall row | row in l1.globals && row !in local.globals ensures GlobalAsked(gw, results, row) {
      NewGlobalsAreWanted(local.globals, WantedGlobals(gw, results), row);
    }
  }

  lemma {:induction false} NewGlobalsCovers(existing: seq<GlobalRow>, wanted: seq<GlobalRow>, row: GlobalRow)
    requires row in wanted
    ensures row in existing || row in NewGlobals(existing, wanted)
    decreases |wanted|
  {
    if row != wanted[0] {
      NewGlobalsCovers(existing, wanted[1..], row);
    }
  }

  /** A page that is not cut short settles all its items; a page cut anywhere loses nothing, and adds only what its
      items ask for. */
  lemma PageSettles(local: Local, gw: Gateway, results: seq<Item>, stop: Stop)
    ensures Grows(local, ProcessPage(local, gw, results, stop))
    ensures AddsOnlyAsked(local, ProcessPage(local, gw, results, stop), gw, results)
    ensures !stop.Cuts() ==>
              forall item :: item in results ==> Settled(ProcessPage(local, gw, results, stop), gw, item)
  {
    PageAddsOnlyAsked(local, gw, results, stop);
    forall item | item in results && !stop.Cuts()
      ensures Settled(ProcessPage(local, gw, results, stop), gw, item)
    {
      WantedRows(gw, results, item);
      ResolvesToWhatIsAsked(gw, item);
      var r := ResolveAlone(gw, item);
      if r.Global? {
        NewGlobalsCovers(local.globals, WantedGlobals(gw, results), r.row);
      }
    }
  }

  // ---------- reprocessing ----------

  lemma {:induction false} NothingWanted(local: Local, gw: Gateway, results: seq<Item>)
    requires forall item :: item in results ==> Settled(local, gw, item)
    ensures NewGlobals(local.globals, WantedGlobals(gw, results)) == []
    ensures forall a :: a in WantedObjects(gw, results) ==> a in local.objects && a.objectRole in local.objectRoles
    decreases |results|
  {
    if results != [] {
      assert results[0] in results;
      ResolvesToWhatIsAsked(gw, results[0]);
      NothingWanted(local, gw, results[1..]);
      var r, rest := ResolveAlone(gw, results[0]), WantedGlobals(gw, results[1..]);
      assert WantedGlobals(gw, results) == if r.Global? then [r.row] + rest else rest;
      assert r.Global? ==> ([r.row] + rest)[1..] == rest;
    }
  }

  lemma SettledPageIsNoOp(local: Local, gw: Gateway, results: seq<Item>, stop: Stop)
    requires forall item :: item in results ==> Settled(local, gw, item)
    ensures ProcessPage(local, gw, results, stop) == local
  {
    NothingWanted(local, gw, results);
    var l1 := ProcessPage(local, gw, results, stop);
    assert l1.objectRoles == local.objectRoles && l1.objects == local.objects;
  }

  /** Processing a page changes nothing exactly when all its items are already settled, so pages may be
      processed again from any earlier cursor. */
  lemma UnchangedIffSettled(local: Local, gw: Gateway, results: seq<Item>)
    ensures ProcessPage(local, gw, results, NoStop) == local <==>
            forall item :: item in results ==> Settled(local, gw, item)
  {
    if ProcessPage(local, gw, results, NoStop) == local {
      PageSettles(local, gw, results, NoStop);
    }
    if forall item :: item in results ==> Settled(local, gw, item) {
      SettledPageIsNoOp(local, gw, results, NoStop);
    }
  }

  lemma {:induction false} NewGlobalsCount(existing: seq<GlobalRow>, wanted: seq<GlobalRow>, row: GlobalRow)
    ensures multiset(NewGlobals(existing, wanted))[row] == if row in existing then 0 else multiset(wanted)[row]
    decreases |wanted|
  {
    if wanted != [] {
      NewGlobalsCount(existing, wanted[1..], row);
      assert wanted == [wanted[0]] + wanted[1..];
    }
  }

  ghost predicate NoDuplicates(rows: seq<GlobalRow>) {
    forall row :: multiset(rows)[row] <= 1
  }

  lemma RowsAfter(local: Local, gw: Gateway, results: seq<Item>, row: GlobalRow)
    ensures multiset(ProcessPage(local, gw, results, NoStop).globals)[row]
            == if row in local.globals then multiset(local.globals)[row] else multiset(WantedGlobals(gw, results))[row]
  {
    NewGlobalsCount(local.globals, WantedGlobals(gw, results), row);
  }

  /** Two items of the page ask for the row. */
  ghost predicate AskedTwice(gw: Gateway, results: seq<Item>, row: GlobalRow) {
    exists i, j :: 0 <= i < j < |results| && AsksGlobal(gw, results[i], row) && AsksGlobal(gw, results[j], row)
  }

  lemma AskedTwiceStep(gw: Gateway, results: seq<Item>, row: GlobalRow)
    requires results != []
    ensures var rest := results[1..];
            && (GlobalAsked(gw, results, row) <==> AsksGlobal(gw, results[0], row) || GlobalAsked(gw, rest, row))
            && (AskedTwice(gw, results, row) <==>
                  AskedTwice(gw, rest, row) || (AsksGlobal(gw, results[0], row) && GlobalAsked(gw, rest, row)))
  {
    var rest := results[1..];
    assert forall k :: 0 <= k < |rest| ==> rest[k] == results[k + 1];
    if item :| item in rest && AsksGlobal(gw, item, row) {
      var k :| 0 <= k < |rest| && rest[k] == item;
      assert results[k + 1] == item;
    }
    if k, l :| 0 <= k < l < |rest| && AsksGlobal(gw, rest[k], row) && AsksGlobal(gw, rest[l], row) {
      assert AsksGlobal(gw, results[k + 1], row) && AsksGlobal(gw, results[l + 1], row);
    }
    if k, l :| 0 <= k < l < |results| && AsksGlobal(gw, results[k], row) && AsksGlobal(gw, results[l], row) {
      assert AsksGlobal(gw, rest[l - 1], row) && (k > 0 ==> AsksGlobal(gw, rest[k - 1], row));
    }
  }

  lemma {:induction false} AskedTwiceIff(gw: Gateway, results: seq<Item>, row: GlobalRow)
    ensures multiset(WantedGlobals(gw, results))[row] > 0 <==> GlobalAsked(gw, results, row)
    ensures multiset(WantedGlobals(gw, results))[row] > 1 <==> AskedTwice(gw, results, row)
    decreases |results|
  {
    if results != [] {
      AskedTwiceIff(gw, results[1..], row);
      ResolvesToWhatIsAsked(gw, results[0]);
      AskedTwiceStep(gw, results, row);
    }
  }

  /** Null object roles escape the unique constraint.  A page leaves the global rows free of duplicates
      exactly when they were before and no two of its items ask for a row that is missing locally. */
  lemma NoDuplicatesIff(local: Local, gw: Gateway, results: seq<Item>)
    ensures NoDuplicates(ProcessPage(local, gw, results, NoStop).globals) <==>
            NoDuplicates(local.globals) && forall row :: row !in local.globals ==> !AskedTwice(gw, results, row)
  {
    var after := ProcessPage(local, gw, results, NoStop).globals;
    forall row
      ensures multiset(after)[row] <= 1 <==>
              if row in local.globals then multiset(local.globals)[row] <= 1 else !AskedTwice(gw, results, row)
    {
      RowsAfter(local, gw, results, row);
      AskedTwiceIff(gw, results, row);
    }
    if NoDuplicates(after) {
      forall row ensures multiset(local.globals)[row] <= 1 {
        assert multiset(after)[row] <= 1;
      }
      forall row | row !in local.globals ensures !AskedTwice(gw, results, row) {
        assert multiset(after)[row] <= 1;
      }
    }
  }

  /** A page that names the same pair twice does leave two equal global rows. */
  lemma RepeatedPairDuplicates()
    ensures exists gw, results :: !NoDuplicates(ProcessPage(Local([], {}, {}), gw, results, NoStop).globals)
  {
    var gw := Gateway(map["auditor" := RoleDef(7, None)], map["u" := "1"]);
    var item := Item(Some(1), Some("auditor"), Some("u"), None, None);
    var results := [item, item.(id := Some(2))];
    var row := GlobalRow("1", 7);
    assert AsksGlobal(gw, results[0], row) && AsksGlobal(gw, results[1], row);
    NoDuplicatesIff(Local([], {}, {}), gw, results);
    assert AskedTwice(gw, results, row);
  }

  // ---------- paging with the cursor ----------

  datatype Response = HttpStatus(code: int) | Page(results: seq<Item>)

  /** One request: the upstream and gateway tables at that moment, the response, and what fails after it. */
  datatype Event = Event(upstream: map<nat, Item>, response: Response, gateway: Gateway, stop: Stop, advanceOk: bool)

  /** A window of ids that was fetched from a snapshot and processed to its end. */
  datatype Window = Window(lo: nat, hi: nat, upstream: map<nat, Item>, gateway: Gateway)

  // `persisted` is the cursor row; `log` records the windows completed so far, which the program does not read.
  datatype State = State(local: Local, persisted: Option<nat>, log: seq<Window>)

  datatype Outcome = Completed | FetchFailed | MissingId | Died

  datatype RunEnd = RunEnd(state: State, outcome: Outcome, cursor: nat, snapshot: map<nat, Item>)

  /** A page whose last id is hi and which has left the local tables as l1, as far as the process gets. */
  function AfterPage(s: State, l1: Local, lo: nat, e: Event, hi: nat): State {
    if e.stop.Cuts() then s.(local := l1)
    else
      State(l1, if e.stop.BeforeAdvance?
          || !e.advanceOk then s.persisted else Some(hi), s.log + [Window(lo, hi, e.upstream, e.gateway)])
  }

  /** The first event is a page that is processed to its end. */
  predicate IsWhole(events: seq<Event>) {
    events != [] && events[0].response.Page? && events[0].response.results != [] && events[0].stop.NoStop?
      && events[0].response.results[|events[0].response.results| - 1].id.Some?
  }

  /** A turn of the paging loop that ends it. */
  function LastTurn(s: State, lo: nat, events: seq<Event>): RunEnd
    requires !IsWhole(events)
  {
    if events == [] then RunEnd(s, Died, lo, map[])
    else
      var e := events[0];
      match e.response
      case HttpStatus(code) => RunEnd(s, FetchFailed, lo, e.upstream)
      case Page(results) =>
        if results == [] then RunEnd(s, Completed, lo, e.upstream)
        else
          var l1 := ProcessPage(s.local, e.gateway, results, e.stop);
          match results[|results| - 1].id
          case None => RunEnd(s.(local := l1), if e.stop.Cuts() then Died else MissingId, lo, e.upstream)
          case Some(hi) => RunEnd(AfterPage(s, l1, lo, e, hi), Died, lo, e.upstream)
  }

  /** The paging loop; it dies when the events run out. */
  function Paginate(s: State, lo: nat, events: seq<Event>): RunEnd
    decreases |events|
  {
    if IsWhole(events) then
      var e := events[0];
      var results := e.response.results;
      var hi := results[|results| - 1].id.value;
      Paginate(AfterPage(s, ProcessPage(s.local, e.gateway, results, e.stop), lo, e, hi), hi, events[1..])
    else LastTurn(s, lo, events)
  }

  /** A page whose last item has no id is created, but the cursor stays and the run ends with an error; one that is
      not cut off leads to the next request. */
  lemma OnePage(s: State, lo: nat, events: seq<Event>)
    requires events != [] && events[0].response.Page? && events[0].response.results != []
    ensures var e, end := events[0], Paginate(s, lo, events);
            var results := e.response.results;
            var last, l1 := results[|results| - 1].id, ProcessPage(s.local, e.gateway, results, e.stop);
            && (last.None? ==> end.state == s.(local := l1)
                               && end.outcome == if e.stop.Cuts() then Died else MissingId)
            && (last.Some? && e.stop.NoStop? ==>
                  end == Paginate(AfterPage(s, l1, lo, e, last.value), last.value, events[1..]))
            && (last.Some? && !e.stop.NoStop? ==>
                  end.state == AfterPage(s, l1, lo, e, last.value) && end.outcome.Died?)
  {
  }

  // A run starts from the persisted cursor, or from 0 if there is none or it cannot be read.
  datatype Run = Run(loadOk: bool, events: seq<Event>)

  function Load(s: State, loadOk: bool): nat {
    if loadOk then s.persisted.GetOr(0) else 0
  }

  function RunOnce(s: State, run: Run): RunEnd {
    Paginate(s, Load(s, run.loadOk), run.events)
  }

  function AfterRuns(s: State, runs: seq<Run>): State {
    if runs == [] then s else RunOnce(AfterRuns(s, runs[..|runs| - 1]), runs[|runs| - 1]).state
  }

  // ---------- what upstream promises ----------

  predicate Included(excluded: set<string>, item: Item) {
    !(item.role.Some? && item.role.value in excluded)
  }

  /** The page holds the included items above lo, without gaps up to its last id, and is empty only if
      there are none. */
  predicate Serves(excluded: set<string>, upstream: map<nat, Item>, lo: nat, results: seq<Item>) {
    && (forall i :: 0 <= i < |results| ==>
          && results[i].id.Some? && lo < results[i].id.value && results[i].id.value in upstream
          && upstream[results[i].id.value] == results[i] && Included(excluded, results[i]))
    && (forall id :: id in upstream && lo < id && Included(excluded, upstream[id]) ==>
          results != [] && (id <= results[|results| - 1].id.value ==> upstream[id] in results))
  }

  /** Every response of the run answers the filter that was sent. */
  ghost predicate Honest(excluded: set<string>, lo: nat, events: seq<Event>)
    decreases |events|
  {
    events != [] && events[0].response.Page? ==>
      var results := events[0].response.results;
      && Serves(excluded, events[0].upstream, lo, results)
      && (results != [] ==> Honest(excluded, results[|results| - 1].id.value, events[1..]))
  }

  ghost predicate AllHonest(excluded: set<string>, s: State, runs: seq<Run>) {
    forall i :: 0 <= i < |runs| ==> Honest(excluded, Load(AfterRuns(s, runs[..i]), runs[i].loadOk), runs[i].events)
  }

  // ---------- crash safety ----------

  ghost predicate WindowSettled(excluded: set<string>, local: Local, w: Window) {
    forall id :: id in w.upstream && w.lo < id <= w.hi && Included(excluded, w.upstream[id]) ==>
      Settled(local, w.gateway, w.upstream[id])
  }

  /** Completed windows lead from 0 to c without a gap. */
  ghost predicate Reaches(log: seq<Window>, c: nat)
    decreases c
  {
    c == 0 || exists w :: w in log && w.lo < w.hi == c && Reaches(log, w.lo)
  }

  ghost predicate Safe(excluded: set<string>, s: State) {
    && (forall w :: w in s.log ==> WindowSettled(excluded, s.local, w))
    && Reaches(s.log, s.persisted.GetOr(0))
  }

  lemma {:induction false} ReachesGrows(log: seq<Window>, more: seq<Window>, c: nat)
    requires Reaches(log, c)
    ensures Reaches(log + more, c)
    decreases c
  {
    if c != 0 {
      var w :| w in log && w.lo < w.hi == c && Reaches(log, w.lo);
      ReachesGrows(log, more, w.lo);
      assert w in log + more;
    }
  }

  lemma SettledGrows(local: Local, l1: Local, gw: Gateway, item: Item)
    requires Grows(local, l1) && Settled(local, gw, item)
    ensures Settled(l1, gw, item)
  {
  }

  lemma WindowStaysSettled(excluded: set<string>, local: Local, l1: Local, w: Window)
    requires Grows(local, l1) && WindowSettled(excluded, local, w)
    ensures WindowSettled(excluded, l1, w)
  {
    forall id | id in w.upstream && w.lo < id <= w.hi && Included(excluded, w.upstream[id])
      ensures Settled(l1, w.gateway, w.upstream[id])
    {
      SettledGrows(local, l1, w.gateway, w.upstream[id]);
    }
  }

  lemma ServedWindowIsSettled(excluded: set<string>, l1: Local, lo: nat, e: Event, results: seq<Item>)
    requires results != [] && Serves(excluded, e.upstream, lo, results)
    requires forall item :: item in results ==> Settled(l1, e.gateway, item)
    ensures WindowSettled(excluded, l1, Window(lo, results[|results| - 1].id.value, e.upstream, e.gateway))
  {
  }

  /** One page: what it completes is a settled window, and everything settled stays settled. */
  lemma PageIsSafe(excluded: set<string>, s: State, l1: Local, lo: nat, e: Event, hi: nat)
    requires Safe(excluded, s) && Reaches(s.log, lo) && Grows(s.local, l1) && lo < hi
    requires !e.stop.Cuts() ==> WindowSettled(excluded, l1, Window(lo, hi, e.upstream, e.gateway))
    ensures var s1 := AfterPage(s, l1, lo, e, hi);
            && Safe(excluded, s1) && Reaches(s1.log, lo)
            && (!e.stop.Cuts() ==> Reaches(s1.log, hi))
  {
    forall w | w in s.log ensures WindowSettled(excluded, l1, w) {
      WindowStaysSettled(excluded, s.local, l1, w);
    }
    var w1 := Window(lo, hi, e.upstream, e.gateway);
    ReachesGrows(s.log, [w1], lo);
    ReachesGrows(s.log, [w1], s.persisted.GetOr(0));
    assert w1 in s.log + [w1];
  }

  lemma ServedPageIsSafe(excluded: set<string>, s: State, lo: nat, e: Event, results: seq<Item>)
    requires Safe(excluded, s) && Reaches(s.log, lo) && results != [] && Serves(excluded, e.upstream, lo, results)
    ensures var hi := results[|results| - 1].id.value;
            var s1 := AfterPage(s, ProcessPage(s.local, e.gateway, results, e.stop), lo, e, hi);
            Safe(excluded, s1) && Reaches(s1.log, lo) && (!e.stop.Cuts() ==> Reaches(s1.log, hi))
  {
    var l1 := ProcessPage(s.local, e.gateway, results, e.stop);
    PageSettles(s.local, e.gateway, results, e.stop);
    if !e.stop.Cuts() {
      ServedWindowIsSettled(excluded, l1, lo, e, results);
    }
    PageIsSafe(excluded, s, l1, lo, e, results[|results| - 1].id.value);
  }

  ghost predicate EndIsSafe(excluded: set<string>, end: RunEnd) {
    && Safe(excluded, end.state) && Reaches(end.state.log, end.cursor)
    && !end.outcome.MissingId?
    && (end.outcome.Completed? ==> forall id :: id in end.snapshot && Included(excluded, end.snapshot[id]) ==>
       id <= end.cursor)
  }

  lemma {:induction false} PaginateIsSafe(excluded: set<string>, s: State, lo: nat, events: seq<Event>, end: RunEnd)
    requires Safe(excluded, s) && Reaches(s.log, lo) && Honest(excluded, lo, events)
    requires end == Paginate(s, lo, events)
    ensures EndIsSafe(excluded, end)
    decreases |events|
  {
    if IsWhole(events) {
      var s1, hi := WholePageIsSafe(excluded, s, lo, events);
      PaginateIsSafe(excluded, s1, hi, events[1..], end);
    } else {
      LastPageIsSafe(excluded, s, lo, events);
    }
  }

  lemma WholePageIsSafe(excluded: set<string>, s: State, lo: nat, events: seq<Event>) returns (s1: State, hi: nat)
    requires Safe(excluded, s) && Reaches(s.log, lo) && Honest(excluded, lo, events) && IsWhole(events)
    ensures Safe(excluded, s1) && Reaches(s1.log, hi) && Honest(excluded, hi, events[1..])
    ensures Paginate(s, lo, events) == Paginate(s1, hi, events[1..])
  {
    var e := events[0];
    var results := e.response.results;
    ServedPageIsSafe(excluded, s, lo, e, results);
    hi := results[|results| - 1].id.value;
    s1 := AfterPage(s, ProcessPage(s.local, e.gateway, results, e.stop), lo, e, hi);
  }

  lemma LastPageIsSafe(excluded: set<string>, s: State, lo: nat, events: seq<Event>)
    requires Safe(excluded, s) && Reaches(s.log, lo) && Honest(excluded, lo, events) && !IsWhole(events)
    ensures EndIsSafe(excluded, LastTurn(s, lo, events))
  {
    if events != [] && events[0].response.Page? && events[0].response.results != [] {
      ServedPageIsSafe(excluded, s, lo, events[0], events[0].response.results);
    }
  }

  /** The cursor a run has come to: the end of its last completed window. */
  function Reached(log: seq<Window>, n: nat, lo: nat): nat {
    if |log| <= n then lo else log[|log| - 1].hi
  }

  lemma WholePage(s: State, lo: nat, events: seq<Event>) returns (s1: State, hi: nat)
    requires IsWhole(events)
    ensures Paginate(s, lo, events) == Paginate(s1, hi, events[1..])
    ensures hi == events[0].response.results[|events[0].response.results| - 1].id.value
    ensures s1.log == s.log + [Window(lo, hi, events[0].upstream, events[0].gateway)]
    ensures s1.persisted == if events[0].advanceOk then Some(hi) else s.persisted
  {
    var e := events[0];
    hi := e.response.results[|e.response.results| - 1].id.value;
    s1 := AfterPage(s, ProcessPage(s.local, e.gateway, e.response.results, e.stop), lo, e, hi);
  }

  lemma LastPage(excluded: set<string>, s: State, lo: nat, events: seq<Event>)
    requires Honest(excluded, lo, events) && !IsWhole(events)
    ensures var end := LastTurn(s, lo, events);
            && (end.state.log == s.log || exists w: Window :: w.lo == lo && end.state.log == s.log + [w])
            && (end.outcome.Completed? ==> end.state == s && end.cursor == lo)
  {
    if events != [] && events[0].response.Page? && events[0].response.results != [] && !events[0].stop.Cuts() {
      var e := events[0];
      var w := Window(lo, e.response.results[|e.response.results| - 1].id.value, e.upstream, e.gateway);
      assert LastTurn(s, lo, events).state.log == s.log + [w];
    }
  }

  /** The windows added to the log follow each other from lo. */
  ghost predicate Follow(before: seq<Window>, log: seq<Window>, lo: nat) {
    && |before| <= |log| && (|log| > |before| ==> log[|before|].lo == lo)
    && (forall i, j :: |before| < j == i + 1 < |log| ==> log[j].lo == log[i].hi)
  }

  lemma FollowOn(before: seq<Window>, w: Window, log: seq<Window>)
    requires Follow(before + [w], log, w.hi) && before + [w] <= log
    ensures Follow(before, log, w.lo) && before <= log
  {
  }

  lemma {:induction false} WindowsFollow(excluded: set<string>, s: State, lo: nat, events: seq<Event>)
    requires Honest(excluded, lo, events)
    ensures var log := Paginate(s, lo, events).state.log;
            s.log <= log && Follow(s.log, log, lo)
    decreases |events|
  {
    if IsWhole(events) {
      var s1, hi := WholePage(s, lo, events);
      WindowsFollow(excluded, s1, hi, events[1..]);
      FollowOn(s.log, s1.log[|s.log|], Paginate(s1, hi, events[1..]).state.log);
    } else {
      LastPage(excluded, s, lo, events);
    }
  }

  /** A run that completes and could always write its cursor leaves the last one persisted. */
  lemma {:induction false} LastCursorIsPersisted(excluded: set<string>, s: State, lo: nat, events: seq<Event>)
    requires Honest(excluded, lo, events) && forall e :: e in events ==> e.advanceOk
    requires Paginate(s, lo, events).outcome.Completed?
    ensures var end := Paginate(s, lo, events);
            && |end.state.log| >= |s.log| && end.cursor == Reached(end.state.log, |s.log|, lo)
            && end.state.persisted == if |end.state.log| == |s.log| then s.persisted else Some(end.cursor)
    decreases |events|
  {
    if IsWhole(events) {
      var s1, hi := WholePage(s, lo, events);
      assert events[0] in events && forall e :: e in events[1..] ==> e in events;
      WindowsFollow(excluded, s1, hi, events[1..]);
      LastCursorIsPersisted(excluded, s1, hi, events[1..]);
    } else {
      LastPage(excluded, s, lo, events);
    }
  }

  /** A run whose cursor can be read starts where the persisted one stands, any other at 0. */
  lemma RunStartsAtCursor(excluded: set<string>, s: State, run: Run)
    requires Honest(excluded, Load(s, run.loadOk), run.events)
    ensures var log := RunOnce(s, run).state.log;
            |log| > |s.log| ==> log[|s.log|].lo == if run.loadOk && s.persisted.Some? then s.persisted.value else 0
  {
    WindowsFollow(excluded, s, Load(s, run.loadOk), run.events);
  }

  lemma {:induction false} RunsAreSafe(excluded: set<string>, s: State, runs: seq<Run>)
    requires Safe(excluded, s) && AllHonest(excluded, s, runs)
    ensures Safe(excluded, AfterRuns(s, runs))
    decreases |runs|
  {
    if runs != [] {
      var before, last := runs[..|runs| - 1], runs[|runs| - 1];
      forall i | 0 <= i < |before|
        ensures Honest(excluded, Load(AfterRuns(s, before[..i]), before[i].loadOk), before[i].events)
      {
        assert before[..i] == runs[..i];
      }
      RunsAreSafe(excluded, s, before);
      var s1 := AfterRuns(s, before);
      PaginateIsSafe(excluded, s1, Load(s1, last.loadOk), last.events, RunOnce(s1, last));
    }
  }

  lemma {:induction false} WindowOf(log: seq<Window>, c: nat, id: nat) returns (w: Window)
    requires Reaches(log, c) && 0 < id <= c
    ensures w in log && w.lo < id <= w.hi
    decreases c
  {
    w :| w in log && w.lo < w.hi == c && Reaches(log, w.lo);
    if id <= w.lo {
      w := WindowOf(log, w.lo, id);
    }
  }

  /** The id lies in a completed window, and if upstream had it when that window was fetched, and it is not
      excluded, it has been created locally or was deliberately skipped. */
  ghost predicate Covered(excluded: set<string>, s: State, id: nat) {
    exists w :: w in s.log && w.lo < id <= w.hi &&
      (id in w.upstream && Included(excluded, w.upstream[id]) ==> Settled(s.local, w.gateway, w.upstream[id]))
  }

  lemma ReachedIsCovered(excluded: set<string>, s: State, c: nat, id: nat)
    requires Safe(excluded, s) && Reaches(s.log, c) && 0 < id <= c
    ensures Covered(excluded, s, id)
  {
    var w := WindowOf(s.log, c, id);
    assert WindowSettled(excluded, s.local, w);
  }

  /** After any sequence of runs, however their requests, cursor reads, cursor writes or processes failed,
      every id up to the persisted cursor is covered. */
  lemma CursorIsCrashSafe(excluded: set<string>, local: Local, runs: seq<Run>)
    requires AllHonest(excluded, State(local, None, []), runs)
    ensures var s := AfterRuns(State(local, None, []), runs);
            forall id :: 0 < id <= s.persisted.GetOr(0) ==> Covered(excluded, s, id)
  {
    var s0 := State(local, None, []);
    RunsAreSafe(excluded, s0, runs);
    var s := AfterRuns(s0, runs);
    forall id | 0 < id <= s.persisted.GetOr(0) ensures Covered(excluded, s, id) {
      ReachedIsCovered(excluded, s, s.persisted.GetOr(0), id);
    }
  }

  /** A run that ends normally has covered every included id that upstream still has at its last request. */
  lemma NormalEndCoversAll(excluded: set<string>, local: Local, runs: seq<Run>, last: Run)
    requires AllHonest(excluded, State(local, None, []), runs + [last])
    requires RunOnce(AfterRuns(State(local, None, []), runs), last).outcome.Completed?
    ensures var end := RunOnce(AfterRuns(State(local, None, []), runs), last);
            forall id :: 0 < id && id in end.snapshot && Included(excluded, end.snapshot[id]) ==>
              Covered(excluded, end.state, id)
  {
    var s0 := State(local, None, []);
    forall i | 0 <= i < |runs|
      ensures Honest(excluded, Load(AfterRuns(s0, runs[..i]), runs[i].loadOk), runs[i].events)
    {
      assert (runs + [last])[..i] == runs[..i] && (runs + [last])[i] == runs[i];
    }
    RunsAreSafe(excluded, s0, runs);
    assert (runs + [last])[..|runs|] == runs && (runs + [last])[|runs|] == last;
    var s := AfterRuns(s0, runs);
    var end := RunOnce(s, last);
    PaginateIsSafe(excluded, s, Load(s, last.loadOk), last.events, end);
    forall id | 0 < id && id in end.snapshot && Included(excluded, end.snapshot[id])
      ensures Covered(excluded, end.state, id)
    {
      ReachedIsCovered(excluded, end.state, end.cursor, id);
    }
  }

  /** If the two sides no longer change and everything is settled, a further run, from whatever cursor and
      cut wherever it may be, leaves the local assignments as they are. */
  lemma {:induction false} RerunChangesNothing(excluded: set<string>, s: State, lo: nat, events: seq<Event>,
      upstream: map<nat, Item>, gw: Gateway)
    requires Honest(excluded, lo, events)
    requires forall e :: e in events ==> e.upstream == upstream && e.gateway == gw
    requires forall id :: id in upstream && Included(excluded, upstream[id]) ==> Settled(s.local, gw, upstream[id])
    ensures Paginate(s, lo, events).state.local == s.local
    decreases |events|
  {
    if events != [] && events[0].response.Page? && events[0].response.results != [] {
      var e := events[0];
      var results := e.response.results;
      assert e in events;
      ServedItemsAreSettled(excluded, s.local, lo, upstream, results, gw);
      SettledPageIsNoOp(s.local, gw, results, e.stop);
      if e.stop.NoStop? {
        var hi := results[|results| - 1].id.value;
        RerunChangesNothing(excluded, AfterPage(s, s.local, lo, e, hi), hi, events[1..], upstream, gw);
      }
    }
  }

  lemma ServedItemsAreSettled(excluded: set<string>, local: Local, lo: nat, upstream: map<nat, Item>,
      results: seq<Item>, gw: Gateway)
    requires Serves(excluded, upstream, lo, results)
    requires forall id :: id in upstream && Included(excluded, upstream[id]) ==> Settled(local, gw, upstream[id])
    ensures forall item :: item in results ==> Settled(local, gw, item)
  {
    forall item | item in results ensures Settled(local, gw, item) {
      var i :| 0 <= i < |results| && results[i] == item;
      assert results[i].id.value in upstream;
    }
  }

  /** Hence once a run has completed over tables that do not change, every later run is without effect. */
  lemma CompletedThenStable(excluded: set<string>, local: Local, runs: seq<Run>, last: Run, again: Run,
      upstream: map<nat, Item>, gw: Gateway)
    requires AllHonest(excluded, State(local, None, []), runs + [last]) && 0 !in upstream
    requires var end := RunOnce(AfterRuns(State(local, None, []), runs), last);
             && end.outcome.Completed? && end.snapshot == upstream
             && (forall w :: w in end.state.log ==> w.upstream == upstream && w.gateway == gw)
             && Honest(excluded, Load(end.state, again.loadOk), again.events)
    requires forall e :: e in again.events ==> e.upstream == upstream && e.gateway == gw
    ensures var end := RunOnce(AfterRuns(State(local, None, []), runs), last);
            RunOnce(end.state, again).state.local == end.state.local
  {
    var end := RunOnce(AfterRuns(State(local, None, []), runs), last);
    NormalEndCoversAll(excluded, local, runs, last);
    forall id | id in upstream && Included(excluded, upstream[id]) ensures Settled(end.state.local, gw, upstream[id]) {
      assert Covered(excluded, end.state, id);
    }
    RerunChangesNothing(excluded, end.state, Load(end.state, again.loadOk), again.events, upstream, gw);
  }

  // ---------- the program ----------

  /** The persisted cursor; a failed read or write is logged and otherwise ignored. */
  class CursorStore {
    var row: Option<nat>

    constructor (row: Option<nat>)
      ensures this.row == row
    {
      this.row := row;
    }

    method Load(ok: bool) returns (lastPk: nat)
      ensures lastPk == if ok then row.GetOr(0) else 0
    {
      if !ok || row.None? {
        return 0;
      }
      return row.value;
    }

    method Advance(pk: nat, ok: bool)
      modifies this
      ensures row == if ok then Some(pk) else old(row)
    {
      if ok {
        row := Some(pk);
      }
    }
  }

  /** The role names, actors and objects of the page, each once, and nothing else. */
  method CollectUniqueIds(results: seq<Item>)
      returns (roleNames: set<string>, actorIds: set<string>, objectIds: set<string>)
    ensures forall x :: x in roleNames <==> exists item :: item in results && Given(item.role) && item.role.value == x
    ensures forall x :: x in actorIds <==> exists item :: item in results && Given(item.actor) && item.actor.value == x
    ensures forall x :: x in objectIds <==>
            exists item :: item in results && Given(item.objectAnsibleId) && item.objectAnsibleId.value == x
    ensures forall item :: item in results ==> Collected(item, roleNames, actorIds, objectIds)
  {
    roleNames, actorIds, objectIds := {}, {}, {};
    for i := 0 to |results|
      invariant forall item :: item in results[..i] ==> Collected(item, roleNames, actorIds, objectIds)
      invariant forall x :: x in roleNames ==>
                exists item :: item in results && Given(item.role) && item.role.value == x
      invariant forall x :: x in actorIds ==>
                exists item :: item in results && Given(item.actor) && item.actor.value == x
      invariant forall x :: x in objectIds ==>
                exists item :: item in results && Given(item.objectAnsibleId) && item.objectAnsibleId.value == x
    {
      var item := results[i];
      assert item in results && results[..i + 1] == results[..i] + [item];
      if Given(item.role) {
        roleNames := roleNames + {item.role.value};
      }
      if Given(item.actor) {
        actorIds := actorIds + {item.actor.value};
      }
      if Given(item.objectAnsibleId) {
        objectIds := objectIds + {item.objectAnsibleId.value};
      }
    }
    assert results[..|results|] == results;
  }

  predicate Collected(item: Item, roleNames: set<string>, actorIds: set<string>, objectIds: set<string>) {
    && (Given(item.role) ==> item.role.value in roleNames)
    && (Given(item.actor) ==> item.actor.value in actorIds)
    && (Given(item.objectAnsibleId) ==> item.objectAnsibleId.value in objectIds)
  }

  function Restrict<K, V>(m: map<K, V>, keys: set<K>): map<K, V> {
    map k | k in m && k in keys :: m[k]
  }

  lemma BulkLookupAgrees(gw: Gateway, item: Item, roleNames: set<string>, actorIds: set<string>, objectIds: set<string>)
    requires Collected(item, roleNames, actorIds, objectIds)
    ensures Resolve(item, Restrict(gw.roles, roleNames), Restrict(gw.resources, actorIds),
            Restrict(gw.resources, objectIds)) == ResolveAlone(gw, item)
  {
  }

  lemma NextWanted(gw: Gateway, results: seq<Item>, i: nat, globals: seq<GlobalRow>, objects: seq<ObjectRow>)
    requires i < |results|
    ensures var r := ResolveAlone(gw, results[i]);
            && (globals + if r.Global? then [r.row] else []) + WantedGlobals(gw, results[i + 1..])
               == globals + WantedGlobals(gw, results[i..])
            && (objects + if r.Object? then [r.assignment] else []) + WantedObjects(gw, results[i + 1..])
               == objects + WantedObjects(gw, results[i..])
  {
    assert results[i..][1..] == results[i + 1..];
  }

  /** The three bulk lookups of a page classify each item as a lookup of its own would. */
  method ResolvePage(gw: Gateway, results: seq<Item>) returns (globals: seq<GlobalRow>, objects: seq<ObjectRow>)
    ensures globals == WantedGlobals(gw, results) && objects == WantedObjects(gw, results)
  {
    var roleNames, actorIds, objectIds := CollectUniqueIds(results);
    var roles, actors, targets := Restrict(gw.roles, roleNames), Restrict(gw.resources, actorIds),
        Restrict(gw.resources, objectIds);
    globals, objects := [], [];
    for i := 0 to |results|
      invariant globals + WantedGlobals(gw, results[i..]) == WantedGlobals(gw, results)
      invariant objects + WantedObjects(gw, results[i..]) == WantedObjects(gw, results)
    {
      var resolved := Resolve(results[i], roles, actors, targets);
      assert resolved == ResolveAlone(gw, results[i]) by {
        BulkLookupAgrees(gw, results[i], roleNames, actorIds, objectIds);
      }
      NextWanted(gw, results, i, globals, objects);
      globals, objects := AddResolved(resolved, globals, objects);
    }
  }

  /** An item that is not skipped goes to the end of its list. */
  method AddResolved(resolved: Resolved, globals: seq<GlobalRow>, objects: seq<ObjectRow>)
      returns (globals1: seq<GlobalRow>, objects1: seq<ObjectRow>)
    ensures globals1 == globals + if resolved.Global? then [resolved.row] else []
    ensures objects1 == objects + if resolved.Object? then [resolved.assignment] else []
  {
    globals1, objects1 := globals, objects;
    match resolved
    case Skip =>
    case Global(row) => globals1 := globals + [row];
    case Object(a) => objects1 := objects + [a];
  }

  class RoleMigrator {
    var local: Local
    const cursor: CursorStore
    ghost var log: seq<Window>

    constructor (local: Local, cursor: CursorStore)
      ensures this.local == local && this.cursor == cursor && log == []
    {
      this.local, this.cursor, log := local, cursor, [];
    }

    method BulkCreateGlobals(wanted: seq<GlobalRow>)
      modifies this`local
      ensures local == CreateGlobals(old(local), wanted)
    {
      var existing := local.globals;
      var missing: seq<GlobalRow> := [];
      for i := 0 to |wanted|
        invariant missing + NewGlobals(existing, wanted[i..]) == NewGlobals(existing, wanted)
      {
        assert wanted[i..][1..] == wanted[i + 1..];
        if wanted[i] !in existing {
          missing := missing + [wanted[i]];
        }
      }
      local := local.(globals := existing + missing);
    }

    /** An assignment whose object role is not found is skipped with a warning.  On a page the roles have been
        created just before, so PageSettles shows that none is. */
    method BulkCreateObjects(wanted: seq<ObjectRow>)
      modifies this`local
      ensures local == CreateObjects(old(local), wanted)
    {
      var rows: set<ObjectRow> := {};
      for i := 0 to |wanted|
        invariant rows == set a | a in wanted[..i] && a.objectRole in local.objectRoles
        invariant local == old(local)
      {
        if wanted[i].objectRole in local.objectRoles {
          rows := rows + {wanted[i]};
        }
      }
      assert wanted[..|wanted|] == wanted;
      local := local.(objects := local.objects + rows);
    }

    method CreatePage(gw: Gateway, results: seq<Item>, stop: Stop)
      modifies this`local
      ensures local == ProcessPage(old(local), gw, results, stop)
    {
      if stop.BeforeGlobals? {
        return;
      }
      var globals, objects := ResolvePage(gw, results);
      BulkCreateGlobals(globals);
      if stop.BeforeObjectRoles? {
        return;
      }
      local := CreateObjectRoles(local, objects);
      if stop.BeforeObjects? {
        return;
      }
      BulkCreateObjects(objects);
    }

    /** One non-empty page: create, advance the cursor, move the filter. */
    method TakePage(idGt: nat, e: Event, results: seq<Item>) returns (next: nat, ended: bool, outcome: Outcome)
      requires results != []
      modifies this, cursor
      ensures var last := results[|results| - 1].id;
              var s, l1 := State(old(local), old(cursor.row), old(log)),
                  ProcessPage(old(local), e.gateway, results, e.stop);
              match last
              case None =>
                ended && outcome == (if e.stop.Cuts() then Died else MissingId)
                    && State(local, cursor.row, log) == s.(local := l1)
              case Some(hi) =>
                State(local, cursor.row, log) == AfterPage(s, l1, idGt, e, hi) && next == hi
                    && ended == !e.stop.NoStop? && outcome.Died?
    {
      var last := results[|results| - 1].id;
      next, ended, outcome := last.GetOr(idGt), true, Died;
      CreatePage(e.gateway, results, e.stop);
      if e.stop.Cuts() {
        return;
      }
      if last.None? {
        outcome := MissingId;
        return;
      }
      log := log + [Window(idGt, last.value, e.upstream, e.gateway)];
      if e.stop.BeforeAdvance? {
        return;
      }
      cursor.Advance(last.value, e.advanceOk);
      ended := e.stop.AfterAdvance?;
    }

    method PaginateAndCreate(run: Run) returns (outcome: Outcome)
      modifies this, cursor
      ensures var end := RunOnce(State(old(local), old(cursor.row), old(log)), run);
              State(local, cursor.row, log) == end.state && outcome == end.outcome
    {
      var idGt := cursor.Load(run.loadOk);
      ghost var whole := RunOnce(State(local, cursor.row, log), run);
      var i := 0;
      while i < |run.events|
        invariant 0 <= i <= |run.events|
        invariant Paginate(State(local, cursor.row, log), idGt, run.events[i..]) == whole
      {
        var e := run.events[i];
        assert run.events[i..][1..] == run.events[i + 1..];
        if e.response.HttpStatus? {
          return FetchFailed;
        }
        if |e.response.results| == 0 {
          return Completed;
        }
        OnePage(State(local, cursor.row, log), idGt, run.events[i..]);
        var ended;
        idGt, ended, outcome := TakePage(idGt, e, e.response.results);
        if ended {
          return;
        }
        i := i + 1;
      }
      return Died;
    }
  }
}

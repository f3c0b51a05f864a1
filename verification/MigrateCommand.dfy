/** The phases of the command on one gateway: `handle` and `_process_all_services` in
    aap_gateway_api/management/commands/migrate_service_data.py.

    The users are followed through all of it: the merge leaves the rows the first service starts from, each
    service leaves the rows the next one starts from, and the superuser step sees the rows of the gateway and of
    every service as they are then.  Everything else a service migrates appears as the way it ends. */
module MigrateCommand {
  import opened Wrappers
  import Sets
  import Groups = UserGroups
  import Merge = UserMerge
  import Loop = ResourceMigration
  import Users = Superusers
  import Phases = UserMigration

  type Slug = string
  type Rows = map<string, Loop.GatewayRow>

  /** How the migration of one service ends: it succeeds, reports an error, or raises. */
  datatype Ending = Succeeded | Reported | Raised

  // `othersSynced` and `rest` tell of the resources that are not users; `userPages` is how the service lists its
  // users in the superuser step.
  datatype Service = Service(
    slug: Slug, kind: Groups.ServiceType, env: Loop.Env, cfg: Loop.Config, upstream: map<nat, Loop.Item>,
    registryHasRows: bool, othersSynced: bool, rest: Ending, userPages: seq<seq<nat>>)

  // `gatewayFlag` and `serviceFlag` are the superuser flags as they stand when the superuser step begins, by name and
  // by service and row: the migration of single users may have set any of them on the way.
  datatype Inputs = Inputs(
    rerun: bool, userExists: bool, services: seq<Service>, gatewayFlag: string -> bool, serviceFlag: (nat, nat) -> bool,
    mergeEnv: Merge.Env, mergeCfg: Merge.Config, order: seq<Merge.UserId>, superEnv: Users.Env)

  ghost predicate Usable(sid: string, s: Service) {
    && Loop.ServesPages(s.env, s.cfg) && s.cfg.gatewaySid == sid && s.cfg.upstreamSid != sid
    && Loop.UniqueIds(Begin(s, map[]))
    && Loop.SystemIsUnique(s.cfg, Begin(s, map[])) && Loop.EndIsConclusive(s.cfg, Begin(s, map[]))
    && (forall p, pk :: p in s.userPages && pk in p ==> pk in s.upstream)
  }

  ghost predicate AllUsable(sid: string, services: seq<Service>) {
    forall s :: s in services ==> Usable(sid, s)
  }

  function Begin(s: Service, rows: Rows): Loop.World {
    Loop.World(s.upstream, rows, {})
  }

  // ---------- one service ----------

  /** `_is_service_already_synced`: one page shows all that is listed, and that is nothing but the system user. */
  predicate AlreadySynced(s: Service)
    requires Loop.IsPageOf(s.env.page(0, Loop.Listed(s.cfg, Begin(s, map[]))), Loop.Listed(s.cfg, Begin(s, map[])),
             s.cfg.pageSize)
  {
    var w := Begin(s, map[]);
    var listed := Loop.Listed(s.cfg, w);
    var page := s.env.page(0, listed);
    && s.othersSynced && s.registryHasRows
    && |listed| <= |page| && Loop.WithoutSystem(s.cfg, w, page) == []
  }

  /** The user loop, run until it stops. */
  ghost function UserPhase(sid: string, s: Service, rows: Rows): Loop.Loop
    requires Usable(sid, s)
  {
    var w := Begin(s, rows);
    assert Loop.IsPageOf(s.env.page(0, Loop.Listed(s.cfg, Begin(s, map[]))), Loop.Listed(s.cfg, Begin(s, map[])),
      s.cfg.pageSize);
    if AlreadySynced(s) then Loop.Start(w).(status := Loop.Finished)
    else Loop.Iterate(s.env, s.cfg, Loop.Start(w), 3 * |Loop.Migratable(s.cfg, w)| + 1)
  }

  // ---------- all services ----------

  // `worlds` is what each service and the gateway held when its user loop had stopped.
  datatype Progress = Progress(rows: Rows, worlds: seq<Loop.World>, endings: seq<Ending>, died: bool)

  /** A service that fails does not stop the others; only the death of the process does. */
  ghost function RunServices(sid: string, services: seq<Service>, rows: Rows): Progress
    requires AllUsable(sid, services)
  {
    if services == [] then Progress(rows, [], [], false)
    else
      var s := services[|services| - 1];
      assert Usable(sid, s);
      var before := RunServices(sid, services[..|services| - 1], rows);
      if before.died then before
      else
        var users := UserPhase(sid, s, before.rows);
        Progress(users.world.gateway, before.worlds + [users.world],
                 before.endings + [if users.status.Finished? then s.rest else Raised], users.status.Crashed?)
  }

  // ---------- the command ----------

  ghost function ServiceIdOf(db: Merge.Db, name: string): string
    requires exists u :: u in db.users && db.users[u].username == name
  {
    var u :| u in db.users && db.users[u].username == name;
    db.users[u].serviceId
  }

  /** The resource rows of the users the merge has left. */
  ghost function RowsLeft(db: Merge.Db, rows: Rows): Rows {
    map name | name in rows && (exists u :: u in db.users && db.users[u].username == name) ::
      rows[name].(serviceId := ServiceIdOf(db, name))
  }

  ghost function SuperuserState(inp: Inputs, p: Progress): Users.State
    requires |p.worlds| == |inp.services|
  {
    Users.State(
      map name | name in p.rows :: inp.gatewayFlag(name),
      seq(|inp.services|, i requires 0 <= i < |inp.services| =>
        Users.Service(
          inp.services[i].kind,
          map pk | pk in p.worlds[i].upstream ::
              Users.Account(p.worlds[i].upstream[pk].key, inp.serviceFlag(i, pk)),
          inp.services[i].userPages)))
  }

  datatype Outcome = Skipped | NoUser | NoServices | MergeFailed | Died | ServicesFailed | SuperusersFailed | Completed

  datatype Result = Result(outcome: Outcome, completed: bool, progress: Progress, superusers: Option<Users.State>)

  predicate AllSucceeded(endings: seq<Ending>) {
    forall e :: e in endings ==> e.Succeeded?
  }

  ghost predicate Valid(inp: Inputs, users: Merge.Db) {
    Merge.IsQuery(inp.mergeCfg, users, inp.order) && AllUsable(inp.mergeCfg.gatewaySid, inp.services)
  }

  /** What the superuser step needs of the services before it. */
  ghost predicate CanSync(inp: Inputs, p: Progress) {
    |p.worlds| == |inp.services| && Users.AllServe(SuperuserState(inp, p).services)
  }

  /** From the end of the services on. */
  ghost function Finish(inp: Inputs, completed: bool, p: Progress): Result
    requires !p.died ==> CanSync(inp, p)
  {
    if p.died then Result(Died, completed, p, None)
    else if !AllSucceeded(p.endings) then Result(ServicesFailed, completed, p, None)
    else
      var sync := Users.Ensure(inp.superEnv, SuperuserState(inp, p));
      if !sync.outcome.Done? then Result(SuperusersFailed, completed, p, Some(sync.state))
      else Result(Completed, true, p, Some(sync.state))
  }

  ghost function Handle(inp: Inputs, completed: bool, users: Merge.Db, rows: Rows): Result
    requires Valid(inp, users)
  {
    var idle := Progress(rows, [], [], false);
    if completed && !inp.rerun then Result(Skipped, completed, idle, None)
    else if !inp.userExists then Result(NoUser, completed, idle, None)
    else if inp.services == [] then Result(NoServices, completed, idle, None)
    else
      var merged := Merge.Merge(inp.mergeEnv, inp.mergeCfg, users, inp.order);
      var left := RowsLeft(merged.db, rows);
      if !merged.outcome.Done? then Result(MergeFailed, completed, idle.(rows := left), None)
      else
        ServicesCanSync(inp, left);
        Finish(inp, completed, RunServices(inp.mergeCfg.gatewaySid, inp.services, left))
  }

  lemma ServicesCanSync(inp: Inputs, rows: Rows)
    requires AllUsable(inp.mergeCfg.gatewaySid, inp.services)
    ensures var p := RunServices(inp.mergeCfg.gatewaySid, inp.services, rows);
            !p.died ==> CanSync(inp, p)
  {
    var p := RunServices(inp.mergeCfg.gatewaySid, inp.services, rows);
    RunIsComplete(inp.mergeCfg.gatewaySid, inp.services, rows);
    if !p.died {
      SuperuserPagesServe(inp, p);
    }
  }

  // ---------- what one service leaves ----------

  /** Rows of the gateway are never rewritten, and all belong to it. */
  ghost predicate RowsGrow(sid: string, rows: Rows, after: Rows) {
    && (forall k :: k in rows ==> k in after && after[k] == rows[k])
    && Phases.AllOwn(sid, after)
  }

  /** Nothing is left to migrate, and what was migrated has the id of the gateway row with its key. */
  ghost predicate Settled(s: Service, w: Loop.World, rows: Rows) {
    && Loop.Migratable(s.cfg, w) == {}
    && forall pk :: pk in Loop.Migratable(s.cfg, Begin(s, map[])) ==>
         && pk in w.upstream && w.upstream[pk].key in rows
         && rows[w.upstream[pk].key].ansibleId == w.upstream[pk].ansibleId
         && rows[w.upstream[pk].key].data == w.upstream[pk].data
  }

  lemma SameLists(s: Service, rows: Rows)
    ensures Loop.Listed(s.cfg, Begin(s, rows)) == Loop.Listed(s.cfg, Begin(s, map[]))
    ensures Loop.Migratable(s.cfg, Begin(s, rows)) == Loop.Migratable(s.cfg, Begin(s, map[]))
  {
    var w, v := Begin(s, rows), Begin(s, map[]);
    assert Loop.Listed(s.cfg, w) == Loop.Listed(s.cfg, v);
    assert forall pk :: pk in w.upstream ==> Loop.IsSystem(s.cfg, w, pk) == Loop.IsSystem(s.cfg, v, pk);
  }

  lemma FitsAnyRows(sid: string, s: Service, rows: Rows)
    requires Usable(sid, s) && Phases.AllOwn(sid, rows)
    ensures var w := Begin(s, rows);
            && Loop.UniqueIds(w) && Loop.NoneStuck(s.cfg, w) && Loop.SystemIsUnique(s.cfg, w)
               && Loop.EndIsConclusive(s.cfg, w)
  {
    SameLists(s, rows);
    var w, v := Begin(s, rows), Begin(s, map[]);
    assert forall pk :: pk in w.upstream ==> Loop.IsSystem(s.cfg, w, pk) == Loop.IsSystem(s.cfg, v, pk);
    assert w.upstream == v.upstream;
  }

  /** A service that is already synchronised has nothing to migrate. */
  lemma SyncedMeansNothingLeft(sid: string, s: Service)
    requires Usable(sid, s)
    requires Loop.IsPageOf(s.env.page(0, Loop.Listed(s.cfg, Begin(s, map[]))), Loop.Listed(s.cfg, Begin(s, map[])),
             s.cfg.pageSize)
    requires AlreadySynced(s)
    ensures Loop.Migratable(s.cfg, Begin(s, map[])) == {}
  {
    var w := Begin(s, map[]);
    var listed := Loop.Listed(s.cfg, w);
    var page := s.env.page(0, listed);
    PageShowsAll(page, listed);
    forall pk | pk in listed ensures Loop.IsSystem(s.cfg, w, pk) {
      assert pk in page && pk !in Loop.WithoutSystem(s.cfg, w, page);
    }
    assert forall pk :: pk !in Loop.Migratable(s.cfg, w);
  }

  lemma PageShowsAll(page: seq<nat>, listed: set<nat>)
    requires (forall pk :: pk in page ==> pk in listed) && |listed| <= |page|
    requires forall i, j :: 0 <= i < j < |page| ==> page[i] != page[j]
    ensures forall pk :: pk in listed ==> pk in page
  {
    Sets.DistinctSize(page);
    Sets.SubsetSize(Sets.ToSet(page), listed);
    forall pk | pk in listed ensures pk in page {
      assert pk in Sets.ToSet(page);
    }
  }

  lemma UserPhaseIs(sid: string, s: Service, rows: Rows)
    requires Usable(sid, s) && Phases.AllOwn(sid, rows)
    ensures var users := UserPhase(sid, s, rows);
            && !users.status.Running?
            && RowsGrow(sid, rows, users.world.gateway) && users.world.upstream.Keys == s.upstream.Keys
            && (users.status.Finished? ==> Settled(s, users.world, users.world.gateway))
  {
    var w := Begin(s, rows);
    FitsAnyRows(sid, s, rows);
    SameLists(s, rows);
    assert Loop.IsPageOf(s.env.page(0, Loop.Listed(s.cfg, Begin(s, map[]))), Loop.Listed(s.cfg, Begin(s, map[])),
      s.cfg.pageSize);
    if AlreadySynced(s) {
      SyncedMeansNothingLeft(sid, s);
    } else {
      UserLoopIs(sid, s, rows, 3 * |Loop.Migratable(s.cfg, w)| + 1);
    }
  }

  lemma UserLoopIs(sid: string, s: Service, rows: Rows, bound: nat)
    requires Usable(sid, s) && Phases.AllOwn(sid, rows)
    requires bound == 3 * |Loop.Migratable(s.cfg, Begin(s, rows))| + 1
    ensures var users := Loop.Iterate(s.env, s.cfg, Loop.Start(Begin(s, rows)), bound);
            && !users.status.Running?
            && RowsGrow(sid, rows, users.world.gateway) && users.world.upstream.Keys == s.upstream.Keys
            && (users.status.Finished? ==> Settled(s, users.world, users.world.gateway))
  {
    var w := Begin(s, rows);
    FitsAnyRows(sid, s, rows);
    SameLists(s, rows);
    Loop.Terminates(s.env, s.cfg, w);
    Loop.LoopKeepsAgreement(s.env, s.cfg, Loop.Start(w), bound);
    if Loop.Iterate(s.env, s.cfg, Loop.Start(w), bound).status.Finished? {
      Loop.FinishedMeansMigrated(s.env, s.cfg, w, bound);
    }
  }

  // ---------- what all services leave ----------

  lemma SettledStays(s: Service, w: Loop.World, sid: string, rows: Rows, after: Rows)
    requires Settled(s, w, rows) && RowsGrow(sid, rows, after)
    ensures Settled(s, w, after)
  {
  }

  lemma {:induction false} RunIsComplete(sid: string, services: seq<Service>, rows: Rows)
    requires AllUsable(sid, services)
    ensures var p := RunServices(sid, services, rows);
            && |p.worlds| == |p.endings| <= |services| && (!p.died ==> |p.worlds| == |services|)
            && (forall i :: 0 <= i < |p.worlds| ==> p.worlds[i].upstream.Keys == services[i].upstream.Keys)
    decreases |services|
  {
    if services != [] {
      var s, init := services[|services| - 1], services[..|services| - 1];
      assert Usable(sid, s);
      RunIsComplete(sid, init, rows);
      var before := RunServices(sid, init, rows);
      if !before.died {
        LoopKeepsKeys(sid, s, before.rows);
      }
    }
  }

  lemma LoopKeepsKeys(sid: string, s: Service, rows: Rows)
    requires Usable(sid, s)
    ensures UserPhase(sid, s, rows).world.upstream.Keys == s.upstream.Keys
  {
    var w := Begin(s, rows);
    assert w.upstream == Begin(s, map[]).upstream;
    Loop.LoopKeepsAgreement(s.env, s.cfg, Loop.Start(w), 3 * |Loop.Migratable(s.cfg, w)| + 1);
  }

  ghost predicate AllSettled(services: seq<Service>, p: Progress) {
    && |p.worlds| == |p.endings| <= |services|
    && forall i :: 0 <= i < |p.worlds| && p.endings[i].Succeeded? ==> Settled(services[i], p.worlds[i], p.rows)
  }

  /** The next service settles its own users and disturbs none that were settled. */
  lemma NextSettles(sid: string, services: seq<Service>, before: Progress, after: Progress, users: Loop.Loop)
    requires services != [] && AllSettled(services[..|services| - 1], before) && |before.worlds| == |services| - 1
    requires RowsGrow(sid, before.rows, users.world.gateway)
    requires users.status.Finished? ==> Settled(services[|services| - 1], users.world, users.world.gateway)
    requires after == Progress(users.world.gateway, before.worlds + [users.world],
                               before.endings + [if users.status.Finished? then services[|services| - 1].rest
                                   else Raised],
                               users.status.Crashed?)
    ensures AllSettled(services, after)
  {
    forall i | 0 <= i < |after.worlds| && after.endings[i].Succeeded?
      ensures Settled(services[i], after.worlds[i], after.rows)
    {
      if i < |before.worlds| {
        assert services[i] == services[..|services| - 1][i];
        SettledStays(services[i], before.worlds[i], sid, before.rows, after.rows);
      }
    }
  }

  lemma {:induction false} RunSettles(sid: string, services: seq<Service>, rows: Rows)
    requires AllUsable(sid, services) && Phases.AllOwn(sid, rows)
    ensures var p := RunServices(sid, services, rows);
            RowsGrow(sid, rows, p.rows) && AllSettled(services, p)
    decreases |services|
  {
    if services != [] {
      var s, init := services[|services| - 1], services[..|services| - 1];
      assert Usable(sid, s);
      RunSettles(sid, init, rows);
      RunIsComplete(sid, init, rows);
      var before := RunServices(sid, init, rows);
      if before.died {
        assert forall i :: 0 <= i < |init| ==> init[i] == services[i];
      } else {
        UserPhaseIs(sid, s, before.rows);
        NextSettles(sid, services, before, RunServices(sid, services, rows), UserPhase(sid, s, before.rows));
      }
    }
  }

  lemma SuperuserPagesServe(inp: Inputs, p: Progress)
    requires |p.worlds| == |inp.services| && forall s :: s in inp.services ==> Usable(s.cfg.gatewaySid, s)
    requires forall i :: 0 <= i < |p.worlds| ==> p.worlds[i].upstream.Keys == inp.services[i].upstream.Keys
    ensures Users.AllServe(SuperuserState(inp, p).services)
  {
    var state := SuperuserState(inp, p);
    forall i | 0 <= i < |state.services| ensures Users.Serves(state.services[i]) {
      assert inp.services[i] in inp.services;
    }
  }

  // ---------- the completion flag ----------

  lemma RowsLeftAreOwn(inp: Inputs, users: Merge.Db, rows: Rows)
    requires Merge.IsQuery(inp.mergeCfg, users, inp.order)
    requires Merge.Merge(inp.mergeEnv, inp.mergeCfg, users, inp.order).outcome.Done?
    ensures Phases.AllOwn(inp.mergeCfg.gatewaySid,
            RowsLeft(Merge.Merge(inp.mergeEnv, inp.mergeCfg, users, inp.order).db, rows))
  {
    var db := Merge.Merge(inp.mergeEnv, inp.mergeCfg, users, inp.order).db;
    var left := RowsLeft(db, rows);
    forall name | name in left
      ensures exists u :: u in db.users && db.users[u].username == name && db.users[u].serviceId == left[name].serviceId
    {
      var u :| u in db.users && db.users[u].username == name && db.users[u].serviceId == ServiceIdOf(db, name);
    }
    Phases.MergeMakesAllOwn(inp.mergeEnv, inp.mergeCfg, users, inp.order, left);
  }

  predicate NoneFailed(p: Progress) {
    !p.died && forall i :: 0 <= i < |p.endings| ==> p.endings[i] == Succeeded
  }

  /** All services have succeeded, and the superuser step after them does. */
  ghost predicate ServicesGoWell(inp: Inputs, p: Progress)
    requires !p.died ==> CanSync(inp, p)
  {
    && NoneFailed(p)
    && Users.Ensure(inp.superEnv, SuperuserState(inp, p)).outcome == Users.Done
  }

  /** And the merge before them. */
  ghost predicate GoesWell(inp: Inputs, users: Merge.Db, rows: Rows)
    requires Valid(inp, users)
  {
    var merged := Merge.Merge(inp.mergeEnv, inp.mergeCfg, users, inp.order);
    ServicesCanSync(inp, RowsLeft(merged.db, rows));
    && merged.outcome == Merge.Done
    && ServicesGoWell(inp, RunServices(inp.mergeCfg.gatewaySid, inp.services, RowsLeft(merged.db, rows)))
  }

  lemma IdleRun(inp: Inputs, completed: bool, users: Merge.Db, rows: Rows)
    requires Valid(inp, users) && ((completed && !inp.rerun) || !inp.userExists || |inp.services| == 0)
    ensures var r := Handle(inp, completed, users, rows);
            && r.completed == completed && r.progress.rows == rows && r.progress.worlds == [] && r.superusers == None
            && NoneFailed(r.progress)
            && r.outcome == (if completed && !inp.rerun then Skipped else if !inp.userExists then NoUser
                             else NoServices)
  {
  }

  /** How a run that is not idle ends: it completes exactly if all goes well, and reaches the superuser step only
      once every service has succeeded. */
  predicate EndsBusy(completed: bool, goesWell: bool, r: Result) {
    && r.outcome !in {Skipped, NoUser, NoServices}
    && (r.completed <==> completed || r.outcome == Completed)
    && (r.outcome == Completed <==> goesWell)
    && (r.superusers.Some? <==> r.outcome in {SuperusersFailed, Completed})
    && (r.superusers.Some? ==> NoneFailed(r.progress))
    && (r.outcome == Died <==> r.progress.died)
    && (r.outcome == ServicesFailed <==> !r.progress.died && !NoneFailed(r.progress))
  }

  lemma FinishIs(inp: Inputs, completed: bool, p: Progress)
    requires !p.died ==> CanSync(inp, p)
    ensures EndsBusy(completed, ServicesGoWell(inp, p), Finish(inp, completed, p))
  {
    AllSucceededIff(p.endings);
  }

  lemma BusyRun(inp: Inputs, completed: bool, users: Merge.Db, rows: Rows, r: Result)
    requires Valid(inp, users) && (!completed || inp.rerun) && inp.userExists && |inp.services| > 0
    requires r == Handle(inp, completed, users, rows)
    ensures EndsBusy(completed, GoesWell(inp, users, rows), r)
  {
    var left := RowsLeft(Merge.Merge(inp.mergeEnv, inp.mergeCfg, users, inp.order).db, rows);
    ServicesCanSync(inp, left);
    FinishIs(inp, completed, RunServices(inp.mergeCfg.gatewaySid, inp.services, left));
  }

  /** A run is skipped if the flag is set and no rerun is asked for, and does nothing without its user or without
      services; otherwise it completes exactly if all its steps go well.  The flag is set by such a run only, and
      never taken back.  The superuser step is reached only once every service has succeeded. */
  lemma CompletesIff(inp: Inputs, completed: bool, users: Merge.Db, rows: Rows)
    requires Valid(inp, users)
    ensures var r := Handle(inp, completed, users, rows);
            && (r.completed <==> completed || r.outcome == Completed)
            && (if completed && !inp.rerun then r.outcome == Skipped
                else if !inp.userExists then r.outcome == NoUser
                else if |inp.services| == 0 then r.outcome == NoServices
                else r.outcome == Completed <==> GoesWell(inp, users, rows))
            && (r.outcome in {Skipped, NoUser, NoServices} ==>
                  r.progress.rows == rows && r.progress.worlds == [] && r.superusers == None)
            && (r.superusers.Some? <==> r.outcome in {SuperusersFailed, Completed})
            && (r.superusers.Some? ==> NoneFailed(r.progress))
            && (r.outcome == Died <==> r.progress.died)
            && (r.outcome == ServicesFailed <==> !r.progress.died && !NoneFailed(r.progress))
  {
    if (completed && !inp.rerun) || !inp.userExists || |inp.services| == 0 {
      IdleRun(inp, completed, users, rows);
    } else {
      BusyRun(inp, completed, users, rows, Handle(inp, completed, users, rows));
    }
  }

  lemma AllSucceededIff(endings: seq<Ending>)
    ensures AllSucceeded(endings) <==> forall i :: 0 <= i < |endings| ==> endings[i] == Succeeded
  {
  }

  /** A service passes as synchronised exactly if nothing of it is left to migrate and its registry has rows. */
  lemma SyncedIff(sid: string, s: Service)
    requires Usable(sid, s) && s.cfg.pageSize >= 1
    requires Loop.IsPageOf(s.env.page(0, Loop.Listed(s.cfg, Begin(s, map[]))), Loop.Listed(s.cfg, Begin(s, map[])),
             s.cfg.pageSize)
    ensures AlreadySynced(s) <==>
            s.othersSynced && s.registryHasRows && Loop.Migratable(s.cfg, Begin(s, map[])) == {}
  {
    var w := Begin(s, map[]);
    var listed := Loop.Listed(s.cfg, w);
    var page := s.env.page(0, listed);
    if AlreadySynced(s) {
      SyncedMeansNothingLeft(sid, s);
    }
    if Loop.Migratable(s.cfg, w) == {} {
      OnlySystemListed(s);
      forall pk | pk in page ensures Loop.IsSystem(s.cfg, w, pk) {
        assert pk in listed && pk !in Loop.Migratable(s.cfg, w);
      }
      Sets.FirstIsIn(Loop.WithoutSystem(s.cfg, w, page));
    }
  }

  lemma OnlySystemListed(s: Service)
    requires Loop.SystemIsUnique(s.cfg, Begin(s, map[])) && Loop.Migratable(s.cfg, Begin(s, map[])) == {}
    ensures |Loop.Listed(s.cfg, Begin(s, map[]))| <= 1
  {
    var w := Begin(s, map[]);
    var listed := Loop.Listed(s.cfg, w);
    if pk :| pk in listed {
      forall q ensures q in listed <==> q in {pk} {
        assert q in listed ==> q !in Loop.Migratable(s.cfg, w) && pk !in Loop.Migratable(s.cfg, w);
      }
      Sets.SameElements(listed, {pk});
    } else {
      assert listed == {};
    }
  }

  /** A run that newly sets the completion flag leaves every user row of the gateway its own; no service has a
      user left to migrate, and every user it had to migrate has the ansible_id of the gateway's user of that
      name as the gateway is at the end; and every listed superuser of Controller, Hub and EDA is one of the
      gateway. */
  lemma FlagMeansDone(inp: Inputs, users: Merge.Db, rows: Rows)
    requires Valid(inp, users) && Handle(inp, false, users, rows).completed
    ensures var r := Handle(inp, false, users, rows);
            && Phases.AllOwn(inp.mergeCfg.gatewaySid, r.progress.rows)
            && |r.progress.worlds| == |inp.services|
            && (forall i :: 0 <= i < |inp.services| ==> Settled(inp.services[i], r.progress.worlds[i], r.progress.rows))
            && Users.AllServe(SuperuserState(inp, r.progress).services)
            && r.superusers.Some? && SuperusersAgree(SuperuserState(inp, r.progress), r.superusers.value)
  {
    var merged := Merge.Merge(inp.mergeEnv, inp.mergeCfg, users, inp.order);
    var left, sid := RowsLeft(merged.db, rows), inp.mergeCfg.gatewaySid;
    RowsLeftAreOwn(inp, users, rows);
    RunSettles(sid, inp.services, left);
    RunIsComplete(sid, inp.services, left);
    var p := RunServices(sid, inp.services, left);
    forall i | 0 <= i < |inp.services| ensures Settled(inp.services[i], p.worlds[i], p.rows) {
      assert p.endings[i] in p.endings;
    }
    SuperuserPagesServe(inp, p);
    StepAgrees(inp.superEnv, SuperuserState(inp, p));
  }

  ghost predicate SuperusersAgree(before: Users.State, after: Users.State)
    requires Users.AllServe(before.services)
  {
    && (forall u :: Users.InController(before, u) ==> Users.IsSuperuser(after.gateway, u))
    && |after.services| == |before.services|
    && forall i, id :: 0 <= i < |after.services| && Users.IsFollower(before.services[i])
                       && Users.IsListed(before.services[i], id) && id in after.services[i].rows
                       && after.services[i].rows[id].isSuperuser ==>
         Users.IsSuperuser(after.gateway, after.services[i].rows[id].username)
  }

  lemma StepAgrees(env: Users.Env, s: Users.State)
    requires Users.AllServe(s.services) && Users.Ensure(env, s).outcome.Done?
    ensures SuperusersAgree(s, Users.Ensure(env, s).state)
  {
    Users.NormalEnd(env, s);
  }

  /** `_process_all_services`: every service is tried, whatever happened to those before it, and its slug lands
      in the collection of its ending. */
  method ProcessAllServices(services: seq<Service>, endings: seq<Ending>)
      returns (successful: seq<Slug>, failed: set<Slug>)
    requires |services| == |endings|
    ensures forall slug :: slug in successful <==>
            exists k :: 0 <= k < |services| && services[k].slug == slug && endings[k].Succeeded?
    ensures forall slug :: slug in failed <==>
            exists k :: 0 <= k < |services| && services[k].slug == slug && !endings[k].Succeeded?
    ensures failed == {} <==> AllSucceeded(endings)
  {
    successful, failed := [], {};
    for i := 0 to |services|
      invariant forall slug :: slug in successful <==>
                exists k :: 0 <= k < i && services[k].slug == slug && endings[k].Succeeded?
      invariant forall slug :: slug in failed <==>
                exists k :: 0 <= k < i && services[k].slug == slug && !endings[k].Succeeded?
    {
      match endings[i] {
        case Succeeded => successful := successful + [services[i].slug];
        case Reported => failed := failed + {services[i].slug};
        case Raised => failed := failed + {services[i].slug};
      }
    }
    if !AllSucceeded(endings) {
      var e :| e in endings && !e.Succeeded?;
      var k :| 0 <= k < |endings| && endings[k] == e;
      assert services[k].slug in failed;
    }
    if slug :| slug in failed {
      var k :| 0 <= k < |services| && services[k].slug == slug && !endings[k].Succeeded?;
      assert endings[k] in endings;
    }
  }
}

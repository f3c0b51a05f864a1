/** The user phases of `migrate_service_data` in sequence: first the merge of partially migrated users, then the
    resource loop for the users of each service in turn (migrate_service_data.py).

    The resource loop ends only if no gateway row it matches still carries the upstream service id; for users it
    is the merge that establishes this. */
module UserMigration {
  import Merge = UserMerge
  import Loop = ResourceMigration

  /** The resource rows of the gateway's users, by username. */
  ghost predicate RowsOfUsers(db: Merge.Db, gateway: map<string, Loop.GatewayRow>) {
    forall name :: name in gateway ==>
      exists u :: u in db.users && db.users[u].username == name && db.users[u].serviceId == gateway[name].serviceId
  }

  predicate AllOwn(sid: string, gateway: map<string, Loop.GatewayRow>) {
    forall name :: name in gateway ==> gateway[name].serviceId == sid
  }

  lemma OwnTerminates(sid: string, s: Service, gateway: map<string, Loop.GatewayRow>)
    requires AllOwn(sid, gateway) && Usable(sid, s)
    ensures var w := Begin(s, gateway);
            var bound := 3 * |Loop.Migratable(s.cfg, w)| + 1;
            var r := Loop.Iterate(s.env, s.cfg, Loop.Start(w), bound);
            !r.status.Running? && r.fetches <= bound
  {
    OwnMeansNoneStuck(sid, s, gateway);
    Loop.Terminates(s.env, s.cfg, Begin(s, gateway));
  }

  lemma MergeMakesAllOwn(env: Merge.Env, cfg: Merge.Config, db: Merge.Db, order: seq<Merge.UserId>,
      gateway: map<string, Loop.GatewayRow>)
    requires Merge.IsQuery(cfg, db, order) && Merge.Merge(env, cfg, db, order).outcome.Done?
    requires RowsOfUsers(Merge.Merge(env, cfg, db, order).db, gateway)
    ensures AllOwn(cfg.gatewaySid, gateway)
  {
    Merge.NormalEnd(env, cfg, db, order);
    var after := Merge.Merge(env, cfg, db, order).db;
    forall name | name in gateway ensures gateway[name].serviceId == cfg.gatewaySid {
      var u :| u in after.users && after.users[u].username == name
          && after.users[u].serviceId == gateway[name].serviceId;
      assert u !in Merge.Foreign(cfg, after);
    }
  }

  /** The loop for one service: what upstream holds and does, and how many turns it gets before it is cut off. */
  datatype Service = Service(env: Loop.Env, cfg: Loop.Config, upstream: map<nat, Loop.Item>, turns: nat)

  ghost predicate Usable(sid: string, s: Service) {
    && Loop.ServesPages(s.env, s.cfg) && s.cfg.gatewaySid == sid && s.cfg.upstreamSid != sid
    && Loop.UniqueIds(Begin(s, map[]))
  }

  function Begin(s: Service, gateway: map<string, Loop.GatewayRow>): Loop.World {
    Loop.World(s.upstream, gateway, {})
  }

  ghost function AfterServices(sid: string, services: seq<Service>, gateway: map<string, Loop.GatewayRow>): map<string,
      Loop.GatewayRow>
    requires forall s :: s in services ==> Usable(sid, s)
  {
    if services == [] then gateway
    else
      var s := services[|services| - 1];
      assert Usable(sid, s);
      Loop.Iterate(s.env, s.cfg, Loop.Start(Begin(s, AfterServices(sid, services[..|services| - 1], gateway))),
          s.turns).world.gateway
  }

  lemma LoopKeepsOwn(env: Loop.Env, cfg: Loop.Config, s: Loop.Loop, turns: nat)
    requires Loop.ServesPages(env, cfg) && Loop.Agreement(s.world) && Loop.UniqueIds(s.world)
             && AllOwn(cfg.gatewaySid, s.world.gateway)
    ensures AllOwn(cfg.gatewaySid, Loop.Iterate(env, cfg, s, turns).world.gateway)
  {
    Loop.LoopKeepsAgreement(env, cfg, s, turns);
  }

  lemma {:induction false} ServicesKeepOwn(sid: string, services: seq<Service>, gateway: map<string, Loop.GatewayRow>)
    requires AllOwn(sid, gateway) && forall s :: s in services ==> Usable(sid, s)
    ensures AllOwn(sid, AfterServices(sid, services, gateway))
    decreases |services|
  {
    if services != [] {
      var s, before := services[|services| - 1], services[..|services| - 1];
      assert Usable(sid, s);
      ServicesKeepOwn(sid, before, gateway);
      OwnMeansNoneStuck(sid, s, AfterServices(sid, before, gateway));
      LoopKeepsOwn(s.env, s.cfg, Loop.Start(Begin(s, AfterServices(sid, before, gateway))), s.turns);
    }
  }

  lemma OwnMeansNoneStuck(sid: string, s: Service, gateway: map<string, Loop.GatewayRow>)
    requires AllOwn(sid, gateway) && Usable(sid, s)
    ensures Loop.NoneStuck(s.cfg, Begin(s, gateway)) && Loop.UniqueIds(Begin(s, gateway))
  {
    assert Begin(s, gateway).upstream == Begin(s, map[]).upstream;
  }

  /** Once the merge has ended normally, the user loop of every later service stops by itself within three
      fetches for each of its users and one more, whatever the earlier services did and wherever their loops
      were cut off. */
  lemma UserLoopsTerminate(env: Merge.Env, cfg: Merge.Config, db: Merge.Db, order: seq<Merge.UserId>,
                           gateway: map<string, Loop.GatewayRow>, earlier: seq<Service>, s: Service)
    requires Merge.IsQuery(cfg, db, order) && Merge.Merge(env, cfg, db, order).outcome.Done?
    requires RowsOfUsers(Merge.Merge(env, cfg, db, order).db, gateway)
    requires Usable(cfg.gatewaySid, s) && forall e :: e in earlier ==> Usable(cfg.gatewaySid, e)
    ensures var w := Begin(s, AfterServices(cfg.gatewaySid, earlier, gateway));
            var bound := 3 * |Loop.Migratable(s.cfg, w)| + 1;
            var r := Loop.Iterate(s.env, s.cfg, Loop.Start(w), bound);
            !r.status.Running? && r.fetches <= bound
  {
    MergeMakesAllOwn(env, cfg, db, order, gateway);
    ServicesKeepOwn(cfg.gatewaySid, earlier, gateway);
    OwnTerminates(cfg.gatewaySid, s, AfterServices(cfg.gatewaySid, earlier, gateway));
  }

  /** And if it ends normally where such an end is conclusive, every user it was to migrate has the ansible_id of the
      gateway user with its name. */
  lemma UserLoopsMigrate(env: Merge.Env, cfg: Merge.Config, db: Merge.Db, order: seq<Merge.UserId>,
                         gateway: map<string, Loop.GatewayRow>, earlier: seq<Service>, s: Service)
    requires Merge.IsQuery(cfg, db, order) && Merge.Merge(env, cfg, db, order).outcome.Done?
    requires RowsOfUsers(Merge.Merge(env, cfg, db, order).db, gateway)
    requires Usable(cfg.gatewaySid, s) && forall e :: e in earlier ==> Usable(cfg.gatewaySid, e)
    requires Loop.EndIsConclusive(s.cfg, Begin(s, gateway)) && Loop.SystemIsUnique(s.cfg, Begin(s, gateway))
    requires Loop.Iterate(s.env, s.cfg, Loop.Start(Begin(s, AfterServices(cfg.gatewaySid, earlier, gateway))),
             s.turns).status.Finished?
    ensures var w := Begin(s, AfterServices(cfg.gatewaySid, earlier, gateway));
            var w1 := Loop.Iterate(s.env, s.cfg, Loop.Start(w), s.turns).world;
            && Loop.Migratable(s.cfg, w1) == {}
            && forall pk :: pk in Loop.Migratable(s.cfg, w) ==> Loop.Agrees(w1, pk)
  {
    MergeMakesAllOwn(env, cfg, db, order, gateway);
    ServicesKeepOwn(cfg.gatewaySid, earlier, gateway);
    var w := Begin(s, AfterServices(cfg.gatewaySid, earlier, gateway));
    OwnMeansNoneStuck(cfg.gatewaySid, s, AfterServices(cfg.gatewaySid, earlier, gateway));
    assert Loop.SystemIsUnique(s.cfg, w) && Loop.EndIsConclusive(s.cfg, w) by {
      assert forall p :: p in w.upstream ==> Loop.IsSystem(s.cfg, w, p) == Loop.IsSystem(s.cfg, Begin(s, gateway), p);
      assert Loop.Listed(s.cfg, w) == Loop.Listed(s.cfg, Begin(s, gateway));
      assert Loop.Migratable(s.cfg, w) == Loop.Migratable(s.cfg, Begin(s, gateway));
    }
    Loop.FinishedMeansMigrated(s.env, s.cfg, w, s.turns);
  }
}

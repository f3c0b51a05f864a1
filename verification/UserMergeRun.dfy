/** The merge as it runs: the loops of _migrate_service_data/user_merge.py and
    aap_gateway_api/utils/user_migration.py. */
module UserMergeRun {
  import opened Sets
  import opened UserGroups
  import opened UserMerge

  class UserMerger {
    const env: Env
    const cfg: Config
    var db: Db
    var tick: nat

    constructor (env: Env, cfg: Config, db: Db)
      ensures this.env == env && this.cfg == cfg && this.db == db && tick == 0
    {
      this.env, this.cfg, this.db, tick := env, cfg, db, 0;
    }

    /** `can_accounts_be_merged` either raises or is true.  For an account and itself nothing is raised unless
        it has a metadata row: the error for that case is built but not raised. */
    method CanAccountsBeMerged(main: UserId, other: UserId) returns (raised: bool)
      ensures raised <==> Clash(db, main, other)
    {
      var migrated := set m | m in db.metadata && db.metadata[m].user == main :: db.metadata[m].service;
      var left := Rows(db, other);
      while left != {}
        invariant left <= Rows(db, other)
        invariant forall m :: m in Rows(db, other) - left ==> db.metadata[m].service !in migrated
        decreases |left|
      {
        ghost var some := Pick(left);
        var m :| m in left;
        if db.metadata[m].service in migrated {
          return true;
        }
        left := left - {m};
      }
      forall m, n | m in Rows(db, main) && n in Rows(db, other)
        ensures db.metadata[m].service != db.metadata[n].service
      {
        assert n in Rows(db, other) - left;
        assert db.metadata[m].service in migrated;
      }
      return false;
    }

    /** `link_account` inside its transaction: any failure restores the database. */
    method LinkAccount(main: UserId, other: UserId) returns (outcome: Outcome)
      requires Valid(db)
      modifies this
      ensures var run := Link(env, cfg, old(db), old(tick), main, other);
              outcome == run.outcome && db == run.db && (outcome.Done? ==> tick == run.tick)
    {
      if main == other {
        return Done;
      }
      var before := db;
      var moved := Reassign(main, other);
      if !moved || other == cfg.system {
        db := before;
        return LinkRaised;
      }
      ghost var reassigned := db;
      db := Db(db.users - {other}, map m | m in db.metadata && db.metadata[m].user != other :: db.metadata[m]);
      assert db == Moved(before, main, other) by {
        assert db.metadata == Moved(before, main, other).metadata;
      }
      var n := |Rows(before, other)|;
      var told := TellServices(n);
      CallsSplit(env, old(tick), n, 2 * n);
      if !told {
        db := before;
        return LinkRaised;
      }
      return Done;
    }

    /** Looks up the service of each row and gives the row to the main account. */
    method Reassign(main: UserId, other: UserId) returns (ok: bool)
      requires Valid(db) && main != other
      modifies this
      ensures ok <==> !Clash(old(db), main, other) && CallsOk(env, old(tick), |Rows(old(db), other)|)
      ensures ok ==> db.users == old(db).users && db.metadata == Moved(old(db), main, other).metadata
      ensures ok ==> tick == old(tick) + |Rows(old(db), other)|
    {
      ghost var before, start, n, k := db, tick, |Rows(db, other)|, 0;
      var left := Rows(db, other);
      while left != {}
        invariant Progress(before, main, other, left, db) && db.users == before.users
        invariant k + |left| == n && tick == start + k
        invariant CallsOk(env, start, k)
        invariant NoneShared(before, main, Rows(before, other) - left)
        decreases |left|
      {
        ghost var some := Pick(left);
        var m :| m in left;
        ok := NextRow(m, main, other, before, left, start, k);
        if !ok {
          return;
        }
        left := left - {m};
        k := k + 1;
      }
      AllRows(before, main, other, db);
      ok := true;
    }

    method NextRow(m: nat, main: UserId, other: UserId, ghost before: Db, ghost left: set<nat>, ghost start: nat,
        ghost k: nat)
      returns (ok: bool)
      requires Valid(before) && main != other && Progress(before, main, other, left, db) && db.users == before.users
               && m in left
      requires NoneShared(before, main, Rows(before, other) - left) && CallsOk(env, start, k)
      requires k + |left| == |Rows(before, other)| && tick == start + k
      modifies this
      ensures ok ==> Progress(before, main, other, left - {m}, db) && db.users == before.users
      ensures ok ==> NoneShared(before, main, Rows(before, other) - (left - {m})) && CallsOk(env, start, k + 1)
      ensures ok ==> |left - {m}| == |left| - 1 && tick == old(tick) + 1
      ensures !ok ==> Clash(before, main, other) || !CallsOk(env, start, |Rows(before, other)|)
    {
      ghost var was := db;
      ok := ReassignOne(m, main);
      if ok {
        OneMoreRow(before, main, other, left, was, m, db);
        OneMoreCall(env, start, k);
      } else {
        ReassignFailed(env, before, main, other, left, was, m, start, k);
      }
    }

    method ReassignOne(m: nat, main: UserId) returns (ok: bool)
      requires m in db.metadata
      modifies this
      ensures ok <==> env(old(tick)) && !Taken(old(db), m, main)
      ensures ok ==> tick == old(tick) + 1 && db == old(db).(metadata :=
              old(db).metadata[m := old(db).metadata[m].(user := main)])
    {
      if !env(tick) {
        return false;
      }
      tick := tick + 1;
      if Taken(db, m, main) {
        return false;
      }
      db := db.(metadata := db.metadata[m := db.metadata[m].(user := main)]);
      ok := true;
    }

    /** Two calls to each service. */
    method TellServices(n: nat) returns (ok: bool)
      modifies this`tick
      ensures ok <==> CallsOk(env, old(tick), 2 * n)
      ensures ok ==> tick == old(tick) + 2 * n
    {
      ghost var start := tick;
      for i := 0 to n
        invariant tick == start + 2 * i && CallsOk(env, start, 2 * i)
      {
        if !env(tick) {
          return false;
        }
        if !env(tick + 1) {
          return false;
        }
        tick := tick + 2;
      }
      ok := true;
    }

    /** `migrate_account` inside its transaction. */
    method MigrateAccount(u: UserId) returns (outcome: Outcome)
      requires u in db.users
      modifies this
      ensures var run := Migrate(env, cfg, old(db), old(tick), u);
              outcome == run.outcome && db == run.db && (outcome.Done? ==> tick == run.tick)
    {
      if db.users[u].serviceId == cfg.gatewaySid {
        return Done;
      }
      var before := db;
      db := db.(users := db.users[u := db.users[u].(serviceId := cfg.gatewaySid, partial := false)]);
      var told := TellServices(|Rows(db, u)|);
      if !told {
        db := before;
        return MigrateRaised;
      }
      return Done;
    }

    /** `_merge_user_group`: check every account against the first, then link them one by one, then migrate
        the first. */
    method MergeUserGroup(group: Group) returns (outcome: Outcome, merged: nat)
      requires Valid(db) && Present(db, group) && ForeignMembers(cfg, db, group.members)
      modifies this
      ensures var run := MergeGroup(env, cfg, old(db), old(tick), group);
              outcome == run.outcome && db == run.db
                  && (outcome.Done? ==> tick == run.tick && merged == |group.members|)
    {
      var main, others := group.members[0].user, group.members[1..];
      var raised := CheckOthers(main, others);
      if raised {
        return AlreadyLinked, 0;
      }
      GroupIsLinkable(cfg, db, group);
      outcome, merged := LinkOthers(main, others);
      if !outcome.Done? {
        return;
      }
      outcome := MigrateAccount(main);
      merged := merged + 1;
    }

    method CheckOthers(main: UserId, others: seq<Listed>) returns (raised: bool)
      ensures raised <==> ClashWithMain(db, main, others)
    {
      for i := 0 to |others|
        invariant forall k :: 0 <= k < i ==> !Clash(db, main, others[k].user)
      {
        raised := CanAccountsBeMerged(main, others[i].user);
        if raised {
          return;
        }
      }
      raised := false;
    }

    method LinkOthers(main: UserId, others: seq<Listed>) returns (outcome: Outcome, merged: nat)
      requires Linkable(cfg, db, main, others)
      modifies this
      ensures var run := LinkAll(env, cfg, old(db), old(tick), main, others);
              && outcome == run.outcome && db == run.db && (outcome.Done? ==> tick == run.tick && merged == |others|)
              && main in db.users
    {
      outcome, merged := Done, 0;
      LinkAllConserves(env, cfg, db, tick, main, others);
      ghost var whole := LinkAll(env, cfg, db, tick, main, others);
      for i := 0 to |others|
        invariant outcome.Done? && merged == i && Linkable(cfg, db, main, others[i..])
        invariant LinkAll(env, cfg, db, tick, main, others[i..]) == whole
      {
        LinkedOne(env, cfg, db, tick, main, others[i..]);
        assert others[i..][1..] == others[i + 1..];
        outcome := LinkAccount(main, others[i].user);
        if !outcome.Done? {
          return;
        }
        merged := merged + 1;
      }
    }

    /** `_correlate_users_across_services`, with SERVICE_TYPE_ORDER as its argument. */
    method CorrelateUsers(allUsers: map<ServiceType, seq<Listed>>, types: seq<ServiceType>, ghost listed: seq<Listed>)
      returns (groups: seq<Group>)
      requires ByType(allUsers, listed)
      ensures groups == Grouped(Ordered(listed, types))
    {
      groups := [];
      for i := 0 to |types|
        invariant groups == Grouped(Ordered(listed, types[..i]))
      {
        assert types[..i + 1] == types[..i] + [types[i]];
        OneMoreType(listed, types[..i], types[i]);
        if types[i] in allUsers {
          groups := AddUsers(groups, allUsers[types[i]], Ordered(listed, types[..i]));
        } else {
          assert Ordered(listed, types[..i]) + [] == Ordered(listed, types[..i]);
        }
      }
      assert types[..|types|] == types;
    }

    method AddUsers(before: seq<Group>, users: seq<Listed>, ghost seen: seq<Listed>) returns (groups: seq<Group>)
      requires before == Grouped(seen)
      ensures groups == Grouped(seen + users)
    {
      groups := before;
      assert seen + users[..0] == seen;
      for j := 0 to |users|
        invariant groups == Grouped(seen + users[..j])
      {
        NextUser(seen, users, j);
        groups := AddTo(groups, BaseName(users[j].username), users[j]);
      }
      assert users[..|users|] == users;
    }

    /** `_merge_partially_migrated_users`, for the rows its query returned. */
    method MergePartiallyMigratedUsers(order: seq<UserId>) returns (outcome: Outcome)
      requires Valid(db) && IsQuery(cfg, db, order) && tick == 0
      modifies this
      ensures outcome == Merge(env, cfg, old(db), order).outcome && db == Merge(env, cfg, old(db), order).db
    {
      var known, allUsers := CollectUsers(order);
      if !known {
        return UnknownService;
      }
      ghost var listed := ListedOf(cfg, db, order);
      var groups := CorrelateUsers(allUsers, SERVICE_TYPE_ORDER, listed);
      ListedArePresent(cfg, db, order);
      QueryIsForeign(cfg, db, order);
      var total;
      outcome, total := MergeUserGroups(groups);
      GroupsPartition(listed);
      if outcome.Done? && total != |order| {
        outcome := CountMismatch;
      }
    }

    /** The accounts by service type; a service id nobody knows ends the run. */
    method CollectUsers(order: seq<UserId>) returns (known: bool, allUsers: map<ServiceType, seq<Listed>>)
      requires forall u :: u in order ==> u in db.users
      ensures known <==> Known(cfg, db, order)
      ensures known ==> ByType(allUsers, ListedOf(cfg, db, order))
    {
      allUsers := map t | t in cfg.serviceTypes.Values :: [];
      ghost var listed: seq<Listed> := [];
      for i := 0 to |order|
        invariant Known(cfg, db, order[..i]) && listed == ListedOf(cfg, db, order[..i])
        invariant forall t :: t in allUsers <==> t in cfg.serviceTypes.Values
        invariant ByType(allUsers, listed)
      {
        assert order[i] in order;
        var account := db.users[order[i]];
        if account.serviceId !in cfg.serviceTypes {
          return false, map[];
        }
        var t := cfg.serviceTypes[account.serviceId];
        var l := Listed(order[i], account.username, t);
        NextAccount(cfg, db, order, i, l);
        AddByType(allUsers, listed, l);
        allUsers, listed := allUsers[t := allUsers[t] + [l]], listed + [l];
      }
      assert order[..|order|] == order;
      known := true;
    }

    method MergeUserGroups(groups: seq<Group>) returns (outcome: Outcome, total: nat)
      requires Valid(db) && AllPresent(db, groups) && AllForeign(cfg, db, groups)
      modifies this
      ensures var run := MergeGroups(env, cfg, old(db), old(tick), groups);
              outcome == run.outcome && db == run.db && (outcome.Done? ==> total == Total(groups))
    {
      outcome, total := Done, 0;
      ghost var whole := MergeGroups(env, cfg, db, tick, groups);
      for i := 0 to |groups|
        invariant outcome.Done? && total + Total(groups[i..]) == Total(groups)
        invariant Valid(db) && AllPresent(db, groups[i..]) && AllForeign(cfg, db, groups[i..])
        invariant MergeGroups(env, cfg, db, tick, groups[i..]) == whole
      {
        assert groups[i..][1..] == groups[i + 1..];
        MergedOne(env, cfg, db, tick, groups[i..]);
        var merged;
        outcome, merged := MergeUserGroup(groups[i]);
        if !outcome.Done? {
          return;
        }
        total := total + merged;
      }
    }
  }

  ghost predicate Linkable(cfg: Config, db: Db, main: UserId, others: seq<Listed>) {
    Valid(db) && main in Foreign(cfg, db) && ForeignMembers(cfg, db, others) && Distinct(others)
        && !IsMember(others, main)
  }

  /** The dict holds the accounts of each type, in the order they were listed. */
  predicate ByType(allUsers: map<ServiceType, seq<Listed>>, listed: seq<Listed>) {
    forall t :: if t in allUsers then allUsers[t] == OfType(listed, t) else OfType(listed, t) == []
  }

  lemma AddByType(allUsers: map<ServiceType, seq<Listed>>, listed: seq<Listed>, l: Listed)
    requires ByType(allUsers, listed) && l.service in allUsers
    ensures ByType(allUsers[l.service := allUsers[l.service] + [l]], listed + [l])
  {
    assert (listed + [l])[..|listed|] == listed;
  }

  lemma NextAccount(cfg: Config, db: Db, order: seq<UserId>, i: nat, l: Listed)
    requires (forall u :: u in order ==> u in db.users) && i < |order| && order[i] in order
    requires Known(cfg, db, order[..i]) && db.users[order[i]].serviceId in cfg.serviceTypes
    requires l == Listed(order[i], db.users[order[i]].username, cfg.serviceTypes[db.users[order[i]].serviceId])
    ensures Known(cfg, db, order[..i + 1])
    ensures ListedOf(cfg, db, order[..i + 1]) == ListedOf(cfg, db, order[..i]) + [l]
  {
    assert order[..i + 1][..i] == order[..i];
  }

  lemma NextUser(seen: seq<Listed>, users: seq<Listed>, j: nat)
    requires j < |users|
    ensures Grouped(seen + users[..j + 1])
            == AddTo(Grouped(seen + users[..j]), BaseName(users[j].username), users[j])
  {
    var next := seen + users[..j + 1];
    assert next[..|next| - 1] == seen + users[..j];
  }

  lemma GroupIsLinkable(cfg: Config, db: Db, group: Group)
    requires Valid(db) && Present(db, group) && ForeignMembers(cfg, db, group.members)
    ensures Linkable(cfg, db, group.members[0].user, group.members[1..])
  {
    MemberUnfolds(group.members, group.members[0].user);
    forall i | 0 <= i < |group.members[1..]| ensures group.members[1..][i].user in Foreign(cfg, db) {
      assert group.members[i + 1].user in Foreign(cfg, db);
    }
  }

  lemma LinkedOne(env: Env, cfg: Config, db: Db, tick: nat, main: UserId, others: seq<Listed>)
    requires Linkable(cfg, db, main, others) && others != []
    ensures var run := Link(env, cfg, db, tick, main, others[0].user);
            run.outcome.Done? ==> Linkable(cfg, run.db, main, others[1..])
  {
    LinkConserves(env, cfg, db, tick, main, others[0].user);
    MemberUnfolds(others, main);
    var run := Link(env, cfg, db, tick, main, others[0].user);
    if run.outcome.Done? {
      forall i | 0 <= i < |others[1..]| ensures others[1..][i].user in Foreign(cfg, run.db) {
        assert others[i + 1].user in Foreign(cfg, db);
      }
    }
  }

  lemma MergedOne(env: Env, cfg: Config, db: Db, tick: nat, groups: seq<Group>)
    requires groups != [] && Valid(db) && AllPresent(db, groups) && AllForeign(cfg, db, groups)
    ensures Present(db, groups[0]) && ForeignMembers(cfg, db, groups[0].members)
    ensures var run := MergeGroup(env, cfg, db, tick, groups[0]);
            run.outcome.Done? ==>
                Valid(run.db) && AllPresent(run.db, groups[1..]) && AllForeign(cfg, run.db, groups[1..])
  {
    var g := groups[0];
    assert g in groups;
    forall i | 0 <= i < |g.members| ensures g.members[i].user in Foreign(cfg, db) {
      assert g.members[i] in g.members;
    }
    MergeGroupConserves(env, cfg, db, tick, g);
    assert g.members[0].user in Foreign(cfg, db);
    MergeGroupIff(env, cfg, db, tick, g);
    if MergeGroup(env, cfg, db, tick, g).outcome.Done? {
      RestKept(cfg, db, groups);
    }
  }

  /** Would saving row m for the main account break unique (user, service)? */
  predicate Taken(db: Db, m: nat, main: UserId)
    requires m in db.metadata
  {
    exists n :: n in db.metadata && n != m && db.metadata[n] == Metadata(main, db.metadata[m].service)
  }

  ghost predicate Progress(before: Db, main: UserId, other: UserId, left: set<nat>, db: Db) {
    && left <= Rows(before, other) && db.metadata.Keys == before.metadata.Keys
    && forall m :: m in before.metadata ==>
         db.metadata[m] == if m in Rows(before, other) - left then before.metadata[m].(user := main)
             else before.metadata[m]
  }

  lemma ClashFound(before: Db, main: UserId, other: UserId, left: set<nat>, db: Db, m: nat)
    requires Valid(before) && main != other && Progress(before, main, other, left, db) && m in left
    requires Taken(db, m, main)
    ensures Clash(before, main, other)
  {
    var n :| n in db.metadata && n != m && db.metadata[n] == Metadata(main, db.metadata[m].service);
    assert before.metadata[m] != before.metadata[n];
  }

  ghost predicate NoneShared(before: Db, main: UserId, rows: set<nat>) {
    forall m, n :: m in rows && m in before.metadata && n in Rows(before, main) ==>
      before.metadata[m].service != before.metadata[n].service
  }

  lemma ReassignFailed(env: Env, before: Db, main: UserId, other: UserId, left: set<nat>, db: Db, m: nat, start: nat,
      k: nat)
    requires Valid(before) && main != other && Progress(before, main, other, left, db) && m in left
    requires !env(start + k) || Taken(db, m, main)
    requires k + |left| == |Rows(before, other)|
    ensures Clash(before, main, other) || !CallsOk(env, start, |Rows(before, other)|)
  {
    if Taken(db, m, main) {
      ClashFound(before, main, other, left, db, m);
    } else {
      assert |left| > 0;
      assert !env(start + k);
    }
  }

  lemma OneMoreCall(env: Env, start: nat, k: nat)
    requires CallsOk(env, start, k) && env(start + k)
    ensures CallsOk(env, start, k + 1)
  {
  }

  lemma OneMoreRow(before: Db, main: UserId, other: UserId, left: set<nat>, db: Db, m: nat, after: Db)
    requires Valid(before) && main != other && Progress(before, main, other, left, db) && m in left
    requires !Taken(db, m, main)
    requires NoneShared(before, main, Rows(before, other) - left)
    requires after.metadata == db.metadata[m := db.metadata[m].(user := main)]
    ensures Progress(before, main, other, left - {m}, after)
    ensures |left - {m}| == |left| - 1
    ensures NoneShared(before, main, Rows(before, other) - (left - {m}))
  {
    forall n | n in Rows(before, main) ensures before.metadata[m].service != before.metadata[n].service {
      assert db.metadata[n] == before.metadata[n] && n != m;
    }
  }

  lemma AllRows(before: Db, main: UserId, other: UserId, db: Db)
    requires main != other && Progress(before, main, other, {}, db)
             && NoneShared(before, main, Rows(before, other) - {})
    ensures db.metadata == Moved(before, main, other).metadata && !Clash(before, main, other)
  {
    forall m, n | m in Rows(before, main) && n in Rows(before, other)
      ensures before.metadata[m].service != before.metadata[n].service
    {
      assert n in Rows(before, other) - {};
    }
  }
}

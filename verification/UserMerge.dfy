/** Merging partially migrated users: _migrate_service_data/user_merge.py and aap_gateway_api/utils/user_migration.py.

    The upstream services appear as an oracle saying which lookups and calls succeed; what they store is not
    part of the state. */
module UserMerge {
  import opened UserGroups

  type UserId = nat

  // A gateway user with its resource row.
  datatype Account = Account(username: string, serviceId: string, partial: bool)

  datatype Metadata = Metadata(user: UserId, service: nat)

  datatype Db = Db(users: map<UserId, Account>, metadata: map<nat, Metadata>)

  datatype Config = Config(gatewaySid: string, serviceTypes: map<string, ServiceType>, system: UserId)

  // Whether the n-th lookup or call of the run succeeds.
  type Env = nat -> bool

  datatype Outcome =
    | Done
    | UnknownService
    | AlreadyLinked   // the check before the merge raised
    | LinkRaised
    | MigrateRaised
    | CountMismatch

  datatype Run = Run(db: Db, tick: nat, outcome: Outcome)

  /** Foreign key and unique (user, service). */
  predicate Valid(db: Db) {
    && (forall m :: m in db.metadata ==> db.metadata[m].user in db.users)
    && (forall m, n :: m in db.metadata && n in db.metadata && m != n ==> db.metadata[m] != db.metadata[n])
  }

  function Rows(db: Db, u: UserId): set<nat> {
    set m | m in db.metadata && db.metadata[m].user == u
  }

  /** Both accounts have a row for the same service. */
  predicate Clash(db: Db, a: UserId, b: UserId) {
    exists m, n :: m in db.metadata && n in db.metadata && db.metadata[m].user == a && db.metadata[n].user == b
                && db.metadata[m].service == db.metadata[n].service
  }

  predicate CallsOk(env: Env, tick: nat, n: nat) {
    forall i: nat :: tick <= i < tick + n ==> env(i)
  }

  predicate IsMember(accounts: seq<Listed>, u: UserId) {
    exists i :: 0 <= i < |accounts| && accounts[i].user == u
  }

  lemma MemberUnfolds(accounts: seq<Listed>, u: UserId)
    requires accounts != []
    ensures IsMember(accounts, u) <==> accounts[0].user == u || IsMember(accounts[1..], u)
  {
    if IsMember(accounts[1..], u) {
      var i :| 0 <= i < |accounts[1..]| && accounts[1..][i].user == u;
      assert accounts[i + 1].user == u;
    }
    if IsMember(accounts, u) && accounts[0].user != u {
      var i :| 0 <= i < |accounts| && accounts[i].user == u;
      assert accounts[1..][i - 1].user == u;
    }
  }

  lemma MembersUnfold(accounts: seq<Listed>)
    requires accounts != []
    ensures forall u :: IsMember(accounts, u) <==> accounts[0].user == u || IsMember(accounts[1..], u)
  {
    forall u ensures IsMember(accounts, u) <==> accounts[0].user == u || IsMember(accounts[1..], u) {
      MemberUnfolds(accounts, u);
    }
  }

  // ---------- linking one account ----------

  function Moved(db: Db, main: UserId, other: UserId): Db {
    Db(db.users - {other},
       map m | m in db.metadata :: if db.metadata[m].user == other then db.metadata[m].(user := main)
           else db.metadata[m])
  }

  /** One transaction: one lookup for each service of the other account, then two calls to each. */
  function Link(env: Env, cfg: Config, db: Db, tick: nat, main: UserId, other: UserId): Run {
    if main == other then Run(db, tick, Done)
    else
      var calls := 3 * |Rows(db, other)|;
      if other == cfg.system || Clash(db, main, other) || !CallsOk(env, tick, calls) then Run(db, tick, LinkRaised)
      else Run(Moved(db, main, other), tick + calls, Done)
  }

  function LinkAll(env: Env, cfg: Config, db: Db, tick: nat, main: UserId, others: seq<Listed>): (run: Run)
    ensures forall u :: u in db.users && !IsMember(others, u) ==> u in run.db.users
    decreases |others|
  {
    if others == [] then Run(db, tick, Done)
    else
      var run := Link(env, cfg, db, tick, main, others[0].user);
      MembersUnfold(others);
      if run.outcome.Done? then LinkAll(env, cfg, run.db, run.tick, main, others[1..]) else run
  }

  // ---------- migrating the main account ----------

  function Migrated(cfg: Config, db: Db, u: UserId): Db
    requires u in db.users
  {
    db.(users := db.users[u := db.users[u].(serviceId := cfg.gatewaySid, partial := false)])
  }

  function Migrate(env: Env, cfg: Config, db: Db, tick: nat, u: UserId): Run
    requires u in db.users
  {
    if db.users[u].serviceId == cfg.gatewaySid then Run(db, tick, Done)
    else
      var calls := 2 * |Rows(db, u)|;
      if CallsOk(env, tick, calls) then Run(Migrated(cfg, db, u), tick + calls, Done) else Run(db, tick, MigrateRaised)
  }

  // ---------- a group ----------

  predicate ClashWithMain(db: Db, main: UserId, others: seq<Listed>) {
    exists i :: 0 <= i < |others| && Clash(db, main, others[i].user)
  }

  /** The accounts of a group are different users, and exist. */
  ghost predicate Present(db: Db, group: Group) {
    && group.members != [] && Distinct(group.members)
    && (forall i :: 0 <= i < |group.members| ==> group.members[i].user in db.users)
  }

  function MergeGroup(env: Env, cfg: Config, db: Db, tick: nat, group: Group): (run: Run)
    requires Present(db, group)
    ensures forall u :: u in db.users && !IsMember(group.members, u) ==> u in run.db.users
  {
    MembersUnfold(group.members);
    var main, others := group.members[0].user, group.members[1..];
    if ClashWithMain(db, main, others) then Run(db, tick, AlreadyLinked)
    else
      var run := LinkAll(env, cfg, db, tick, main, others);
      if !run.outcome.Done? then run
      else
        assert !IsMember(others, main);
        Migrate(env, cfg, run.db, run.tick, main)
  }

  ghost predicate AllPresent(db: Db, groups: seq<Group>) {
    Apart(groups) && forall g :: g in groups ==> Present(db, g)
  }

  lemma StillPresent(db: Db, db1: Db, groups: seq<Group>)
    requires groups != [] && AllPresent(db, groups)
    requires forall u :: u in db.users && !IsMember(groups[0].members, u) ==> u in db1.users
    ensures AllPresent(db1, groups[1..])
  {
    forall k | 0 <= k < |groups[1..]| ensures Present(db1, groups[1..][k]) {
      var g := groups[k + 1];
      assert g in groups;
      forall i | 0 <= i < |g.members| ensures g.members[i].user in db1.users {
        assert g.members[i] in g.members;
        forall j | 0 <= j < |groups[0].members| ensures groups[0].members[j].user != g.members[i].user {
          assert groups[0].members[j] in groups[0].members;
        }
      }
    }
  }

  function MergeGroups(env: Env, cfg: Config, db: Db, tick: nat, groups: seq<Group>): Run
    requires AllPresent(db, groups)
    decreases |groups|
  {
    if groups == [] then Run(db, tick, Done)
    else
      var run := MergeGroup(env, cfg, db, tick, groups[0]);
      StillPresent(db, run.db, groups);
      if run.outcome.Done? then MergeGroups(env, cfg, run.db, run.tick, groups[1..]) else run
  }

  // ---------- the whole merge ----------

  function Foreign(cfg: Config, db: Db): set<UserId> {
    set u | u in db.users && db.users[u].serviceId != cfg.gatewaySid
  }

  /** The rows a query for the partially migrated users may return, in any order. */
  ghost predicate IsQuery(cfg: Config, db: Db, order: seq<UserId>) {
    && (forall u :: u in order <==> u in Foreign(cfg, db))
    && (forall i, j :: 0 <= i < j < |order| ==> order[i] != order[j])
  }

  predicate Known(cfg: Config, db: Db, order: seq<UserId>)
    requires forall u :: u in order ==> u in db.users
  {
    forall u :: u in order ==> db.users[u].serviceId in cfg.serviceTypes
  }

  function ListedOf(cfg: Config, db: Db, order: seq<UserId>): (r: seq<Listed>)
    requires forall u :: u in order ==> u in db.users
    requires Known(cfg, db, order)
    ensures |r| == |order| && forall i :: 0 <= i < |r| ==> r[i].user == order[i]
  {
    if order == [] then []
    else
      var last := order[|order| - 1];
      ListedOf(cfg, db, order[..|order| - 1])
          + [Listed(last, db.users[last].username, cfg.serviceTypes[db.users[last].serviceId])]
  }

  lemma GroupIsPresent(db: Db, listed: seq<Listed>, group: Group)
    requires group.members != [] && Distinct(group.members) && forall a :: a in group.members ==> a in listed
    requires forall i :: 0 <= i < |listed| ==> listed[i].user in db.users
    ensures Present(db, group)
  {
    forall i | 0 <= i < |group.members| ensures group.members[i].user in db.users {
      assert group.members[i] in group.members;
    }
  }

  lemma ListedArePresent(cfg: Config, db: Db, order: seq<UserId>)
    requires IsQuery(cfg, db, order) && Known(cfg, db, order)
    ensures AllPresent(db, Groups(ListedOf(cfg, db, order)))
  {
    var listed := ListedOf(cfg, db, order);
    var groups := Groups(listed);
    assert forall i :: 0 <= i < |listed| ==> listed[i].user in db.users by {
      forall i | 0 <= i < |listed| ensures listed[i].user in db.users {
        assert order[i] in order;
      }
    }
    GroupsApart(listed);
    MembersAreListed(listed);
    forall g | g in groups ensures Present(db, g) {
      GroupIsPresent(db, listed, g);
    }
  }

  function Merge(env: Env, cfg: Config, db: Db, order: seq<UserId>): Run
    requires IsQuery(cfg, db, order)
  {
    if !Known(cfg, db, order) then Run(db, 0, UnknownService)
    else
      var groups := Groups(ListedOf(cfg, db, order));
      ListedArePresent(cfg, db, order);
      MergeGroups(env, cfg, db, 0, groups)
  }

  // ---------- what one link changes ----------

  lemma MovedIsValid(db: Db, main: UserId, other: UserId)
    requires Valid(db) && main in db.users && main != other && !Clash(db, main, other)
    ensures Valid(Moved(db, main, other))
  {
  }

  /** The accounts of the group as one: the rows of `others` belong to main, and `others` are gone. */
  function Folded(db: Db, main: UserId, others: seq<Listed>): Db {
    Db(map u | u in db.users && !IsMember(others, u) :: db.users[u],
       map m | m in db.metadata ::
         if IsMember(others, db.metadata[m].user) then db.metadata[m].(user := main) else db.metadata[m])
  }

  lemma FoldedUnfolds(db: Db, main: UserId, others: seq<Listed>)
    requires others != [] && !IsMember(others, main)
    ensures Folded(db, main, others) == Folded(Moved(db, main, others[0].user), main, others[1..])
  {
    forall u {
      MemberUnfolds(others, u);
    }
    var first := Moved(db, main, others[0].user);
    forall u | u in db.users
      ensures u in Folded(db, main, others).users <==> u in Folded(first, main, others[1..]).users
    {
      MemberUnfolds(others, u);
    }
    assert Folded(db, main, others).users == Folded(first, main, others[1..]).users;
    forall m | m in db.metadata
      ensures Folded(db, main, others).metadata[m] == Folded(first, main, others[1..]).metadata[m]
    {
      MemberUnfolds(others, db.metadata[m].user);
      MemberUnfolds(others, main);
    }
    assert Folded(db, main, others).metadata == Folded(first, main, others[1..]).metadata;
  }

  // ---------- when a group can be merged ----------

  ghost predicate PairwiseApart(db: Db, main: UserId, others: seq<Listed>) {
    && (forall i :: 0 <= i < |others| ==> !Clash(db, main, others[i].user))
    && (forall i, j :: 0 <= i < j < |others| ==> !Clash(db, others[i].user, others[j].user))
  }

  function RowsOf(db: Db, accounts: seq<Listed>): set<nat> {
    set m | m in db.metadata && IsMember(accounts, db.metadata[m].user)
  }

  lemma ClashAfterMove(db: Db, main: UserId, other: UserId, u: UserId)
    requires main != other && u != main && u != other
    ensures Clash(Moved(db, main, other), main, u) <==> Clash(db, main, u) || Clash(db, other, u)
  {
    var after := Moved(db, main, other);
    if m, n :| m in db.metadata && n in db.metadata && db.metadata[m].user == main && db.metadata[n].user == u
               && db.metadata[m].service == db.metadata[n].service {
      assert after.metadata[m].user == main && after.metadata[n].user == u;
    }
    if m, n :| m in db.metadata && n in db.metadata && db.metadata[m].user == other && db.metadata[n].user == u
               && db.metadata[m].service == db.metadata[n].service {
      assert after.metadata[m].user == main && after.metadata[n].user == u;
    }
    if m, n :|
      m in after.metadata && n in after.metadata && after.metadata[m].user == main && after.metadata[n].user == u
      && after.metadata[m].service == after.metadata[n].service {
      assert db.metadata[m].user == main || db.metadata[m].user == other;
      assert db.metadata[n].user == u && db.metadata[m].service == db.metadata[n].service;
    }
  }

  lemma ClashUntouched(db: Db, main: UserId, other: UserId, u: UserId, v: UserId)
    requires main != other && u != main && u != other && v != main && v != other
    ensures Clash(Moved(db, main, other), u, v) <==> Clash(db, u, v)
  {
    var after := Moved(db, main, other);
    assert forall m :: m in db.metadata && (after.metadata[m].user == u || after.metadata[m].user == v) ==>
      after.metadata[m] == db.metadata[m];
  }

  lemma ApartUnfolds(db: Db, main: UserId, others: seq<Listed>)
    requires others != [] && Distinct(others) && !IsMember(others, main) && !Clash(db, main, others[0].user)
    ensures PairwiseApart(db, main, others) <==> PairwiseApart(Moved(db, main, others[0].user), main, others[1..])
  {
    var o, rest := others[0].user, others[1..];
    var after := Moved(db, main, o);
    forall i | 0 <= i < |rest|
      ensures rest[i] == others[i + 1]
              && (Clash(after, main, rest[i].user) <==> Clash(db, main, rest[i].user) || Clash(db, o, rest[i].user))
    {
      ClashAfterMove(db, main, o, others[i + 1].user);
    }
    forall i, j | 0 <= i < j < |rest|
      ensures Clash(after, rest[i].user, rest[j].user) <==> Clash(db, rest[i].user, rest[j].user)
    {
      ClashUntouched(db, main, o, others[i + 1].user, others[j + 1].user);
    }
    if PairwiseApart(after, main, rest) {
      forall i, j | 0 <= i < j < |others| ensures !Clash(db, others[i].user, others[j].user) {
        assert others[j] == rest[j - 1];
        if i > 0 {
          assert others[i] == rest[i - 1];
        }
      }
      forall i | 0 <= i < |others| ensures !Clash(db, main, others[i].user) {
        if i > 0 {
          assert others[i] == rest[i - 1];
        }
      }
    }
  }

  lemma RowsUnfold(db: Db, main: UserId, others: seq<Listed>)
    requires others != [] && Distinct(others) && !IsMember(others, main)
    ensures |RowsOf(db, others)| == |Rows(db, others[0].user)| + |RowsOf(Moved(db, main, others[0].user), others[1..])|
  {
    MembersUnfold(others);
    var first, rest := Rows(db, others[0].user), RowsOf(Moved(db, main, others[0].user), others[1..]);
    assert !IsMember(others[1..], others[0].user);
    assert RowsOf(db, others) == first + rest;
    assert first !! rest;
  }

  lemma CallsSplit(env: Env, tick: nat, n: nat, k: nat)
    ensures CallsOk(env, tick, n + k) <==> CallsOk(env, tick, n) && CallsOk(env, tick + n, k)
  {
    if CallsOk(env, tick, n) && CallsOk(env, tick + n, k) {
      forall i: nat | tick <= i < tick + (n + k) ensures env(i) {
        if i < tick + n {
          assert env(i);
        }
      }
    }
  }

  ghost predicate CanLink(env: Env, cfg: Config, db: Db, tick: nat, main: UserId, others: seq<Listed>) {
    PairwiseApart(db, main, others) && !IsMember(others, cfg.system) && CallsOk(env, tick, 3 * |RowsOf(db, others)|)
  }

  lemma CanLinkUnfolds(env: Env, cfg: Config, db: Db, tick: nat, main: UserId, others: seq<Listed>)
    requires others != [] && Distinct(others) && !IsMember(others, main)
    ensures var run := Link(env, cfg, db, tick, main, others[0].user);
            CanLink(env, cfg, db, tick, main, others) <==>
                run.outcome.Done? && CanLink(env, cfg, run.db, run.tick, main, others[1..])
  {
    var o, rest := others[0].user, others[1..];
    var n, k := 3 * |Rows(db, o)|, 3 * |RowsOf(Moved(db, main, o), rest)|;
    MemberUnfolds(others, cfg.system);
    MemberUnfolds(others, main);
    RowsUnfold(db, main, others);
    CallsSplit(env, tick, n, k);
    if !Clash(db, main, o) {
      ApartUnfolds(db, main, others);
    }
  }

  lemma FirstLink(env: Env, cfg: Config, db: Db, tick: nat, main: UserId, others: seq<Listed>)
    requires others != [] && Distinct(others) && !IsMember(others, main)
    requires Link(env, cfg, db, tick, main, others[0].user).outcome.Done?
    ensures var run := Link(env, cfg, db, tick, main, others[0].user);
            && Folded(db, main, others) == Folded(run.db, main, others[1..])
            && tick + 3 * |RowsOf(db, others)| == run.tick + 3 * |RowsOf(run.db, others[1..])|
            && Distinct(others[1..]) && !IsMember(others[1..], main)
  {
    MemberUnfolds(others, main);
    RowsUnfold(db, main, others);
    FoldedUnfolds(db, main, others);
  }

  /** Linking succeeds exactly when no two of the accounts have a service in common, none of the others is the
      system user, and every lookup and call succeeds. */
  lemma {:induction false} LinkAllIff(env: Env, cfg: Config, db: Db, tick: nat, main: UserId, others: seq<Listed>)
    requires Distinct(others) && !IsMember(others, main)
    ensures var run := LinkAll(env, cfg, db, tick, main, others);
            && (run.outcome.Done? <==> CanLink(env, cfg, db, tick, main, others))
            && (run.outcome.Done? ==> run.db == Folded(db, main, others) && run.tick == tick + 3 * |RowsOf(db, others)|)
            && (!run.outcome.Done? ==> run.outcome.LinkRaised?)
    decreases |others|
  {
    if others == [] {
      NobodyFolds(db, main);
    } else {
      CanLinkUnfolds(env, cfg, db, tick, main, others);
      var run := Link(env, cfg, db, tick, main, others[0].user);
      if run.outcome.Done? {
        FirstLink(env, cfg, db, tick, main, others);
        LinkAllIff(env, cfg, run.db, run.tick, main, others[1..]);
      }
    }
  }

  lemma NobodyFolds(db: Db, main: UserId)
    ensures RowsOf(db, []) == {} && Folded(db, main, []) == db
  {
    assert Folded(db, main, []).users == db.users;
    assert Folded(db, main, []).metadata == db.metadata;
  }

  // ---------- a whole group ----------

  function MergedGroup(cfg: Config, db: Db, group: Group): Db
    requires group.members != []
  {
    var main := group.members[0].user;
    var folded := Folded(db, main, group.members[1..]);
    if main in folded.users then Migrated(cfg, folded, main) else folded
  }

  function GroupCalls(db: Db, group: Group): nat
    requires group.members != []
  {
    3 * |RowsOf(db, group.members[1..])| + 2 * |RowsOf(db, group.members)|
  }

  /** No two accounts of the group have a service in common, and only its first may be the system user. */
  ghost predicate Mergeable(cfg: Config, db: Db, group: Group)
    requires group.members != []
  {
    && PairwiseApart(db, group.members[0].user, group.members[1..])
    && !IsMember(group.members[1..], cfg.system)
  }

  lemma FoldedRows(db: Db, group: Group)
    requires group.members != []
    ensures Rows(Folded(db, group.members[0].user, group.members[1..]), group.members[0].user)
            == RowsOf(db, group.members)
  {
    MembersUnfold(group.members);
  }

  lemma MergeGroupIff(env: Env, cfg: Config, db: Db, tick: nat, group: Group)
    requires Present(db, group) && db.users[group.members[0].user].serviceId != cfg.gatewaySid
    ensures var run := MergeGroup(env, cfg, db, tick, group);
            && (run.outcome.Done? <==> Mergeable(cfg, db, group) && CallsOk(env, tick, GroupCalls(db, group)))
            && (run.outcome.Done? ==> run.db == MergedGroup(cfg, db, group) && run.tick == tick + GroupCalls(db, group))
            && !run.outcome.CountMismatch? && !run.outcome.UnknownService?
  {
    var main, others := group.members[0].user, group.members[1..];
    MemberUnfolds(group.members, main);
    assert !IsMember(others, main);
    LinkAllIff(env, cfg, db, tick, main, others);
    FoldedRows(db, group);
    CallsSplit(env, tick, 3 * |RowsOf(db, others)|, 2 * |RowsOf(db, group.members)|);
    assert ClashWithMain(db, main, others) ==> !PairwiseApart(db, main, others);
  }

  // ---------- one group leaves the others alone ----------

  ghost predicate Disjoint(a: seq<Listed>, b: seq<Listed>) {
    forall i, j :: 0 <= i < |a| && 0 <= j < |b| ==> a[i].user != b[j].user
  }

  lemma MergedGroupKeeps(cfg: Config, db: Db, group: Group, u: UserId)
    requires group.members != [] && !IsMember(group.members, u)
    ensures var after := MergedGroup(cfg, db, group);
            && (u in after.users <==> u in db.users) && (u in db.users ==> after.users[u] == db.users[u])
            && after.metadata.Keys == db.metadata.Keys
            && (forall m :: m in db.metadata ==> (after.metadata[m].user == u <==> db.metadata[m].user == u))
            && (forall m :: m in db.metadata ==> after.metadata[m].service == db.metadata[m].service)
  {
    MemberUnfolds(group.members, u);
    MemberUnfolds(group.members, group.members[0].user);
  }

  lemma OtherGroupKept(cfg: Config, db: Db, group: Group, other: Group)
    requires group.members != [] && other.members != [] && Disjoint(group.members, other.members)
    ensures var after := MergedGroup(cfg, db, group);
            && (Mergeable(cfg, after, other) <==> Mergeable(cfg, db, other))
            && GroupCalls(after, other) == GroupCalls(db, other)
  {
    var after := MergedGroup(cfg, db, group);
    forall i | 0 <= i < |other.members|
      ensures after.metadata.Keys == db.metadata.Keys
      ensures forall m :: m in db.metadata ==>
              (after.metadata[m].user == other.members[i].user <==> db.metadata[m].user == other.members[i].user)
      ensures forall m :: m in db.metadata ==> after.metadata[m].service == db.metadata[m].service
    {
      MergedGroupKeeps(cfg, db, group, other.members[i].user);
    }
    MergedGroupKeeps(cfg, db, group, other.members[0].user);
    SameRows(db, after, other.members);
    SameRows(db, after, other.members[1..]);
    forall i, j | 0 <= i < |other.members| && 0 <= j < |other.members|
      ensures Clash(after, other.members[i].user, other.members[j].user) <==>
              Clash(db, other.members[i].user, other.members[j].user)
    {
    }
  }

  lemma SameRows(db: Db, after: Db, accounts: seq<Listed>)
    requires after.metadata.Keys == db.metadata.Keys
    requires forall i, m :: 0 <= i < |accounts| && m in db.metadata ==>
             (after.metadata[m].user == accounts[i].user <==> db.metadata[m].user == accounts[i].user)
    ensures RowsOf(after, accounts) == RowsOf(db, accounts)
  {
    forall m | m in db.metadata
      ensures IsMember(accounts, after.metadata[m].user) <==> IsMember(accounts, db.metadata[m].user)
    {
    }
  }

  // ---------- all groups ----------

  function MergedGroups(cfg: Config, db: Db, groups: seq<Group>): Db
    requires forall g :: g in groups ==> g.members != []
    decreases |groups|
  {
    if groups == [] then db else MergedGroups(cfg, MergedGroup(cfg, db, groups[0]), groups[1..])
  }

  function TotalCalls(db: Db, groups: seq<Group>): nat
    requires forall g :: g in groups ==> g.members != []
    decreases |groups|
  {
    if groups == [] then 0 else GroupCalls(db, groups[0]) + TotalCalls(db, groups[1..])
  }

  ghost predicate AllForeign(cfg: Config, db: Db, groups: seq<Group>) {
    forall g, a :: g in groups && a in g.members && a.user in db.users ==> db.users[a.user].serviceId != cfg.gatewaySid
  }

  ghost predicate AllMergeable(cfg: Config, db: Db, groups: seq<Group>)
    requires forall g :: g in groups ==> g.members != []
  {
    forall g :: g in groups ==> Mergeable(cfg, db, g)
  }

  lemma ApartIsDisjoint(groups: seq<Group>, g: Group)
    requires Apart(groups) && groups != [] && g in groups[1..]
    ensures g.members != [] && Disjoint(groups[0].members, g.members)
  {
    var k :| 0 <= k < |groups[1..]| && groups[1..][k] == g;
    assert groups[k + 1] == g;
    forall i, j | 0 <= i < |groups[0].members| && 0 <= j < |g.members|
      ensures groups[0].members[i].user != g.members[j].user
    {
      assert groups[0].members[i] in groups[0].members && g.members[j] in g.members;
    }
  }

  lemma {:induction false} SameCalls(db: Db, after: Db, groups: seq<Group>)
    requires forall g :: g in groups ==> g.members != [] && GroupCalls(after, g) == GroupCalls(db, g)
    ensures TotalCalls(after, groups) == TotalCalls(db, groups)
    decreases |groups|
  {
    if groups != [] {
      SameCalls(db, after, groups[1..]);
    }
  }

  lemma RestKept(cfg: Config, db: Db, groups: seq<Group>)
    requires groups != [] && AllPresent(db, groups) && AllForeign(cfg, db, groups)
    ensures var after, rest := MergedGroup(cfg, db, groups[0]), groups[1..];
            && AllPresent(after, rest) && AllForeign(cfg, after, rest)
            && (AllMergeable(cfg, after, rest) <==> AllMergeable(cfg, db, rest))
            && TotalCalls(after, rest) == TotalCalls(db, rest)
  {
    var after, rest := MergedGroup(cfg, db, groups[0]), groups[1..];
    forall u | !IsMember(groups[0].members, u)
      ensures (u in after.users <==> u in db.users) && (u in db.users ==> after.users[u] == db.users[u])
    {
      MergedGroupKeeps(cfg, db, groups[0], u);
    }
    StillPresent(db, after, groups);
    forall g | g in rest
      ensures g.members != [] && Mergeable(cfg, after, g) == Mergeable(cfg, db, g)
      && GroupCalls(after, g) == GroupCalls(db, g)
    {
      ApartIsDisjoint(groups, g);
      OtherGroupKept(cfg, db, groups[0], g);
    }
    SameCalls(db, after, rest);
    forall g, a | g in rest && a in g.members && a.user in after.users
      ensures after.users[a.user].serviceId != cfg.gatewaySid
    {
      ApartIsDisjoint(groups, g);
      var j :| 0 <= j < |g.members| && g.members[j] == a;
      assert !IsMember(groups[0].members, a.user);
      assert g in groups;
    }
  }

  lemma {:induction false} MergeGroupsIff(env: Env, cfg: Config, db: Db, tick: nat, groups: seq<Group>)
    requires AllPresent(db, groups) && AllForeign(cfg, db, groups)
    ensures var run := MergeGroups(env, cfg, db, tick, groups);
            && (run.outcome.Done? <==> AllMergeable(cfg, db, groups) && CallsOk(env, tick, TotalCalls(db, groups)))
            && (run.outcome.Done? ==> run.db == MergedGroups(cfg, db, groups))
            && !run.outcome.CountMismatch? && !run.outcome.UnknownService?
    decreases |groups|
  {
    if groups != [] {
      var g, rest := groups[0], groups[1..];
      assert g in groups && g.members[0] in g.members;
      var run := MergeGroup(env, cfg, db, tick, g);
      MergeGroupIff(env, cfg, db, tick, g);
      CallsSplit(env, tick, GroupCalls(db, g), TotalCalls(db, rest));
      assert AllMergeable(cfg, db, groups) <==> Mergeable(cfg, db, g) && AllMergeable(cfg, db, rest);
      if run.outcome.Done? {
        RestKept(cfg, db, groups);
        MergeGroupsIff(env, cfg, run.db, run.tick, rest);
      }
    }
  }

  // ---------- the result, read off the groups ----------

  /** The account a user ends up in: the first of the user's group, or the user. */
  function MainOf(groups: seq<Group>, u: UserId): UserId
    requires forall g :: g in groups ==> g.members != []
    decreases |groups|
  {
    if groups == [] then u
    else if IsMember(groups[0].members, u) then groups[0].members[0].user
    else MainOf(groups[1..], u)
  }

  predicate InGroups(groups: seq<Group>, u: UserId) {
    exists i :: 0 <= i < |groups| && IsMember(groups[i].members, u)
  }

  function Final(cfg: Config, db: Db, groups: seq<Group>): Db
    requires forall g :: g in groups ==> g.members != []
  {
    Db(map u | u in db.users && MainOf(groups, u) == u ::
         if InGroups(groups, u) then db.users[u].(serviceId := cfg.gatewaySid, partial := false) else db.users[u],
       map m | m in db.metadata :: db.metadata[m].(user := MainOf(groups, db.metadata[m].user)))
  }

  lemma InGroupsUnfolds(groups: seq<Group>, u: UserId)
    requires groups != []
    ensures InGroups(groups, u) <==> IsMember(groups[0].members, u) || InGroups(groups[1..], u)
  {
    if i :| 0 <= i < |groups[1..]| && IsMember(groups[1..][i].members, u) {
      assert IsMember(groups[i + 1].members, u);
    }
    if i :| 0 <= i < |groups| && IsMember(groups[i].members, u) {
      assert i == 0 || IsMember(groups[1..][i - 1].members, u);
    }
  }

  lemma {:induction false} OutsidersStay(groups: seq<Group>, u: UserId)
    requires (forall g :: g in groups ==> g.members != []) && !InGroups(groups, u)
    ensures MainOf(groups, u) == u
    decreases |groups|
  {
    if groups != [] {
      InGroupsUnfolds(groups, u);
      OutsidersStay(groups[1..], u);
    }
  }

  lemma MembersAreNotInRest(groups: seq<Group>, u: UserId)
    requires Apart(groups) && groups != [] && IsMember(groups[0].members, u)
    ensures !InGroups(groups[1..], u)
  {
    forall i | 0 <= i < |groups[1..]| ensures !IsMember(groups[1..][i].members, u) {
      ApartIsDisjoint(groups, groups[1..][i]);
    }
  }

  lemma FinalUserUnfolds(cfg: Config, db: Db, groups: seq<Group>, u: UserId)
    requires groups != [] && AllPresent(db, groups)
    ensures var after, rest := MergedGroup(cfg, db, groups[0]), groups[1..];
            && (u in db.users && MainOf(groups, u) == u <==> u in after.users && MainOf(rest, u) == u)
            && (u in after.users && InGroups(groups, u) && !InGroups(rest, u) ==>
               after.users[u] == db.users[u].(serviceId := cfg.gatewaySid, partial := false))
            && (u in after.users && (InGroups(rest, u) || !InGroups(groups, u)) ==>
               u in db.users && after.users[u] == db.users[u])
  {
    var g, rest := groups[0], groups[1..];
    assert g in groups;
    InGroupsUnfolds(groups, u);
    MemberUnfolds(g.members, u);
    if IsMember(g.members, u) {
      MembersAreNotInRest(groups, u);
      OutsidersStay(rest, u);
      assert !IsMember(g.members[1..], g.members[0].user);
    } else {
      MergedGroupKeeps(cfg, db, g, u);
    }
  }

  lemma FinalRowUnfolds(cfg: Config, db: Db, groups: seq<Group>, m: nat)
    requires groups != [] && AllPresent(db, groups) && m in db.metadata
    ensures var after, rest := MergedGroup(cfg, db, groups[0]), groups[1..];
            && after.metadata.Keys == db.metadata.Keys
            && db.metadata[m].(user := MainOf(groups, db.metadata[m].user))
               == after.metadata[m].(user := MainOf(rest, after.metadata[m].user))
  {
    var g, rest, u := groups[0], groups[1..], db.metadata[m].user;
    assert g in groups;
    MemberUnfolds(g.members, u);
    MemberUnfolds(g.members, g.members[0].user);
    if IsMember(g.members, u) {
      MembersAreNotInRest(groups, g.members[0].user);
      OutsidersStay(rest, g.members[0].user);
    }
  }

  lemma FinalUsersUnfold(cfg: Config, db: Db, groups: seq<Group>)
    requires groups != [] && AllPresent(db, groups)
    ensures Final(cfg, db, groups).users == Final(cfg, MergedGroup(cfg, db, groups[0]), groups[1..]).users
  {
    var after, rest := MergedGroup(cfg, db, groups[0]), groups[1..];
    var x, y := Final(cfg, db, groups).users, Final(cfg, after, rest).users;
    forall u ensures (u in x <==> u in y) && (u in x && u in y ==> x[u] == y[u]) {
      FinalUserUnfolds(cfg, db, groups, u);
      InGroupsUnfolds(groups, u);
    }
  }

  lemma FinalRowsUnfold(cfg: Config, db: Db, groups: seq<Group>)
    requires groups != [] && AllPresent(db, groups)
    ensures Final(cfg, db, groups).metadata == Final(cfg, MergedGroup(cfg, db, groups[0]), groups[1..]).metadata
  {
    var after, rest := MergedGroup(cfg, db, groups[0]), groups[1..];
    var x, y := Final(cfg, db, groups).metadata, Final(cfg, after, rest).metadata;
    MergedGroupKeys(cfg, db, groups[0]);
    forall m | m in db.metadata ensures m in y && x[m] == y[m] {
      FinalRowUnfolds(cfg, db, groups, m);
    }
  }

  lemma MergedGroupKeys(cfg: Config, db: Db, group: Group)
    requires group.members != []
    ensures MergedGroup(cfg, db, group).metadata.Keys == db.metadata.Keys
  {
  }

  lemma {:induction false} MergedGroupsIsFinal(cfg: Config, db: Db, groups: seq<Group>)
    requires AllPresent(db, groups) && AllForeign(cfg, db, groups)
    ensures MergedGroups(cfg, db, groups) == Final(cfg, db, groups)
    decreases |groups|
  {
    if groups == [] {
      assert Final(cfg, db, groups).users == db.users;
      assert Final(cfg, db, groups).metadata == db.metadata;
    } else {
      FinalUsersUnfold(cfg, db, groups);
      FinalRowsUnfold(cfg, db, groups);
      RestKept(cfg, db, groups);
      MergedGroupsIsFinal(cfg, MergedGroup(cfg, db, groups[0]), groups[1..]);
    }
  }

  // ---------- the merge ----------

  lemma QueryIsForeign(cfg: Config, db: Db, order: seq<UserId>)
    requires IsQuery(cfg, db, order) && Known(cfg, db, order)
    ensures AllForeign(cfg, db, Groups(ListedOf(cfg, db, order)))
    ensures forall u :: u in Foreign(cfg, db) ==> InGroups(Groups(ListedOf(cfg, db, order)), u)
  {
    var listed := ListedOf(cfg, db, order);
    var groups := Groups(listed);
    MembersAreListed(listed);
    forall g, a | g in groups && a in g.members && a.user in db.users
      ensures db.users[a.user].serviceId != cfg.gatewaySid
    {
      assert a in listed;
      var i :| 0 <= i < |listed| && listed[i] == a;
      assert order[i] in order;
    }
    forall u | u in Foreign(cfg, db) ensures InGroups(groups, u) {
      assert u in order;
      var i :| 0 <= i < |order| && order[i] == u;
      InSomeGroup(listed, listed[i]);
    }
  }

  lemma InSomeGroup(listed: seq<Listed>, a: Listed)
    requires a in listed
    ensures InGroups(Groups(listed), a.user)
  {
    GroupsByBase(listed);
    var g :| g in Groups(listed) && a in g.members;
    var i :| 0 <= i < |Groups(listed)| && Groups(listed)[i] == g;
    assert IsMember(Groups(listed)[i].members, a.user);
  }

  /** The merge ends normally exactly when every foreign service id is known, in each group no two accounts
      have a service in common and only the first may be the system user, and all calls succeed.  Then the
      result is the one read off the groups. */
  lemma MergeIff(env: Env, cfg: Config, db: Db, order: seq<UserId>)
    requires IsQuery(cfg, db, order)
    ensures var run := Merge(env, cfg, db, order);
            && !run.outcome.CountMismatch?
            && (run.outcome.UnknownService? <==> !Known(cfg, db, order))
            && (Known(cfg, db, order) ==>
                  var groups := Groups(ListedOf(cfg, db, order));
                  && AllPresent(db, groups)
                  && (run.outcome.Done? <==> AllMergeable(cfg, db, groups) && CallsOk(env, 0, TotalCalls(db, groups)))
                  && (run.outcome.Done? ==> run.db == Final(cfg, db, groups)))
  {
    if Known(cfg, db, order) {
      ListedArePresent(cfg, db, order);
      QueryIsForeign(cfg, db, order);
      var groups := Groups(ListedOf(cfg, db, order));
      MergeGroupsIff(env, cfg, db, 0, groups);
      MergedGroupsIsFinal(cfg, db, groups);
    }
  }

  /** On a normal end no user resource keeps a foreign service id; every partially migrated user is merged into one of
      the same person, of the earliest service type among them, which keeps its name and is the only one of the person
      that is left; every metadata row is still there for its service, under that user; and the users that were not
      partially migrated are as before. */
  lemma NormalEnd(env: Env, cfg: Config, db: Db, order: seq<UserId>)
    requires IsQuery(cfg, db, order) && Merge(env, cfg, db, order).outcome.Done?
    ensures var after := Merge(env, cfg, db, order).db;
            && Foreign(cfg, after) == {} && after.metadata.Keys == db.metadata.Keys
            && after.users.Keys <= db.users.Keys
            && (forall u :: u in Foreign(cfg, db) ==> IsMerged(cfg, db, after, u))
            && (forall u, v :: u in Foreign(cfg, db) && v in Foreign(cfg, db) ==> OneIsLeft(db, after, u, v))
            && (forall u :: u in db.users && u !in Foreign(cfg, db) ==> IsAsBefore(db, after, u))
  {
    MergeIff(env, cfg, db, order);
    QueryIsForeign(cfg, db, order);
    var listed := ListedOf(cfg, db, order);
    var groups := Groups(listed);
    forall u | u in db.users && u !in Foreign(cfg, db) ensures IsAsBefore(db, Final(cfg, db, groups), u) {
      NotInGroups(cfg, db, groups, u);
      OutsidersStay(groups, u);
    }
    forall u | u in Foreign(cfg, db) ensures IsMerged(cfg, db, Final(cfg, db, groups), u) {
      MainIs(cfg, db, order, listed, groups, u);
    }
    forall u, v | u in Foreign(cfg, db) && v in Foreign(cfg, db) ensures OneIsLeft(db, Final(cfg, db, groups), u, v) {
      OneMain(cfg, db, order, listed, groups, u, v);
    }
    NoForeignLeft(cfg, db, groups);
  }

  lemma NoForeignLeft(cfg: Config, db: Db, groups: seq<Group>)
    requires AllPresent(db, groups) && forall u :: u in Foreign(cfg, db) ==> InGroups(groups, u)
    ensures Foreign(cfg, Final(cfg, db, groups)) == {}
  {
    assert forall u :: u !in Foreign(cfg, Final(cfg, db, groups));
  }

  /** Of two partially migrated users of one person only one is left. */
  ghost predicate OneIsLeft(db: Db, after: Db, u: UserId, v: UserId)
    requires u in db.users && v in db.users
  {
    u in after.users && v in after.users && SamePerson(db.users[u].username, db.users[v].username) ==> u == v
  }

  ghost predicate IsAsBefore(db: Db, after: Db, u: UserId) {
    && u in db.users && u in after.users && after.users[u] == db.users[u]
    && (forall m :: m in db.metadata && db.metadata[m].user == u ==>
          m in after.metadata && after.metadata[m] == db.metadata[m])
  }

  /** User u ends up in main, which is the same person, from a service of no later type, and the gateway's now. */
  ghost predicate MergedInto(cfg: Config, db: Db, after: Db, u: UserId, main: UserId) {
    && u in db.users && main in db.users && main in after.users
    && SamePerson(db.users[u].username, db.users[main].username)
    && after.users[main] == Account(db.users[main].username, cfg.gatewaySid, false)
    && db.users[u].serviceId in cfg.serviceTypes && db.users[main].serviceId in cfg.serviceTypes
    && NoLater(cfg.serviceTypes[db.users[main].serviceId], cfg.serviceTypes[db.users[u].serviceId])
    && (forall m :: m in db.metadata && db.metadata[m].user == u ==>
          m in after.metadata && after.metadata[m] == Metadata(main, db.metadata[m].service))
  }

  ghost predicate IsMerged(cfg: Config, db: Db, after: Db, u: UserId) {
    exists main :: MergedInto(cfg, db, after, u, main)
  }

  lemma {:induction false} ListedIs(cfg: Config, db: Db, order: seq<UserId>, i: nat)
    requires (forall u :: u in order ==> u in db.users) && Known(cfg, db, order) && i < |order|
    ensures order[i] in order && order[i] in db.users && db.users[order[i]].serviceId in cfg.serviceTypes
    ensures ListedOf(cfg, db, order)[i]
            == Listed(order[i], db.users[order[i]].username, cfg.serviceTypes[db.users[order[i]].serviceId])
    decreases |order|
  {
    assert order[i] in order;
    if i < |order| - 1 {
      var init := order[..|order| - 1];
      assert init[i] == order[i];
      ListedIs(cfg, db, init, i);
    }
  }

  /** The account tells what the database holds. */
  predicate IsAccount(cfg: Config, db: Db, a: Listed) {
    && a.user in db.users && db.users[a.user].serviceId in cfg.serviceTypes
    && a.username == db.users[a.user].username && a.service == cfg.serviceTypes[db.users[a.user].serviceId]
  }

  lemma AllAreAccounts(cfg: Config, db: Db, order: seq<UserId>)
    requires (forall u :: u in order ==> u in db.users) && Known(cfg, db, order)
    ensures forall a :: a in ListedOf(cfg, db, order) ==> IsAccount(cfg, db, a)
    ensures forall u :: u in order ==> exists a :: a in ListedOf(cfg, db, order) && a.user == u
  {
    var listed := ListedOf(cfg, db, order);
    forall a | a in listed ensures IsAccount(cfg, db, a) {
      var i :| 0 <= i < |listed| && listed[i] == a;
      ListedIs(cfg, db, order, i);
    }
    forall u | u in order ensures exists a :: a in listed && a.user == u {
      var i :| 0 <= i < |order| && order[i] == u;
      assert listed[i] in listed;
    }
  }

  /** The group of an account, and what its first account is to it. */
  lemma GroupOf(listed: seq<Listed>, groups: seq<Group>, a: Listed) returns (g: Group)
    requires groups == Groups(listed) && Apart(groups) && a in listed
    ensures g in groups && a in g.members && g.members != [] && g.members[0] in listed
    ensures MainOf(groups, a.user) == g.members[0].user && MainOf(groups, g.members[0].user) == g.members[0].user
    ensures SamePerson(a.username, g.members[0].username) && NoLater(g.members[0].service, a.service)
  {
    GroupsPartition(listed);
    g :| g in groups && a in g.members;
    assert g.members[0] in g.members;
    MainOfMember(groups, g, a);
    MainOfMember(groups, g, g.members[0]);
  }

  lemma {:induction false} MainOfMember(groups: seq<Group>, g: Group, a: Listed)
    requires Apart(groups) && g in groups && a in g.members
    ensures MainOf(groups, a.user) == g.members[0].user && InGroups(groups, a.user)
    decreases |groups|
  {
    var k :| 0 <= k < |g.members| && g.members[k] == a;
    assert IsMember(g.members, a.user);
    InGroupsUnfolds(groups, a.user);
    if g != groups[0] {
      assert g in groups[1..];
      ApartIsDisjoint(groups, g);
      assert !IsMember(groups[0].members, a.user);
      RestIsApart(groups);
      MainOfMember(groups[1..], g, a);
    }
  }

  lemma RestIsApart(groups: seq<Group>)
    requires groups != [] && Apart(groups)
    ensures Apart(groups[1..])
  {
    var rest := groups[1..];
    forall i, j, a, b | 0 <= i < j < |rest| && a in rest[i].members && b in rest[j].members ensures a.user != b.user {
      assert rest[i] == groups[i + 1] && rest[j] == groups[j + 1];
    }
  }

  lemma MainIs(cfg: Config, db: Db, order: seq<UserId>, listed: seq<Listed>, groups: seq<Group>, u: UserId)
    requires IsQuery(cfg, db, order) && Known(cfg, db, order) && u in Foreign(cfg, db)
    requires listed == ListedOf(cfg, db, order) && groups == Groups(listed) && AllPresent(db, groups)
    ensures IsMerged(cfg, db, Final(cfg, db, groups), u)
  {
    assert u in order;
    AllAreAccounts(cfg, db, order);
    var a :| a in listed && a.user == u;
    var g := GroupOf(listed, groups, a);
    MainOfMember(groups, g, g.members[0]);
    EndsInMain(cfg, db, groups, a, g.members[0]);
  }

  lemma EndsInMain(cfg: Config, db: Db, groups: seq<Group>, a: Listed, main: Listed)
    requires forall g :: g in groups ==> g.members != []
    requires IsAccount(cfg, db, a) && IsAccount(cfg, db, main)
    requires MainOf(groups, a.user) == main.user && MainOf(groups, main.user) == main.user
    requires InGroups(groups, main.user)
    requires SamePerson(a.username, main.username) && NoLater(main.service, a.service)
    ensures IsMerged(cfg, db, Final(cfg, db, groups), a.user)
  {
    assert MergedInto(cfg, db, Final(cfg, db, groups), a.user, main.user);
  }

  lemma SameMain(listed: seq<Listed>, groups: seq<Group>, a: Listed, b: Listed)
    requires groups == Groups(listed) && Apart(groups) && a in listed && b in listed
    requires SamePerson(a.username, b.username)
    ensures MainOf(groups, a.user) == MainOf(groups, b.user)
  {
    var g := GroupOf(listed, groups, a);
    GroupsPartition(listed);
    MainOfMember(groups, g, b);
  }

  lemma AccountsOf(cfg: Config, db: Db, order: seq<UserId>, u: UserId, v: UserId) returns (a: Listed, b: Listed)
    requires IsQuery(cfg, db, order) && Known(cfg, db, order) && u in Foreign(cfg, db) && v in Foreign(cfg, db)
    ensures a in ListedOf(cfg, db, order) && IsAccount(cfg, db, a) && a.user == u
    ensures b in ListedOf(cfg, db, order) && IsAccount(cfg, db, b) && b.user == v
  {
    assert u in order && v in order;
    AllAreAccounts(cfg, db, order);
    a :| a in ListedOf(cfg, db, order) && a.user == u;
    b :| b in ListedOf(cfg, db, order) && b.user == v;
  }

  lemma OneMain(cfg: Config, db: Db, order: seq<UserId>, listed: seq<Listed>, groups: seq<Group>, u: UserId, v: UserId)
    requires IsQuery(cfg, db, order) && Known(cfg, db, order) && u in Foreign(cfg, db) && v in Foreign(cfg, db)
    requires listed == ListedOf(cfg, db, order) && groups == Groups(listed) && AllPresent(db, groups)
    ensures OneIsLeft(db, Final(cfg, db, groups), u, v)
  {
    var a, b := AccountsOf(cfg, db, order, u, v);
    if SamePerson(a.username, b.username) {
      SameMain(listed, groups, a, b);
    }
  }

  lemma NotInGroups(cfg: Config, db: Db, groups: seq<Group>, u: UserId)
    requires AllForeign(cfg, db, groups) && u in db.users && u !in Foreign(cfg, db)
    ensures !InGroups(groups, u)
  {
    forall i | 0 <= i < |groups| ensures !IsMember(groups[i].members, u) {
      forall j | 0 <= j < |groups[i].members| ensures groups[i].members[j].user != u {
        assert groups[i] in groups && groups[i].members[j] in groups[i].members;
      }
    }
  }

  // ---------- what no outcome loses ----------

  /** No metadata row is lost or changes its service, each still belongs to an existing user, users only go
      away by being merged, and users that were fully migrated are not touched. */
  ghost predicate Conserved(cfg: Config, db: Db, after: Db) {
    && Valid(after)
    && after.metadata.Keys == db.metadata.Keys
    && (forall m :: m in db.metadata ==> after.metadata[m].service == db.metadata[m].service)
    && (forall u :: u in after.users ==> u in db.users && after.users[u].username == db.users[u].username)
    && (forall u :: u in db.users && u !in Foreign(cfg, db) ==> u in after.users && after.users[u] == db.users[u])
  }

  lemma ConservedTransitive(cfg: Config, a: Db, b: Db, c: Db)
    requires Conserved(cfg, a, b) && Conserved(cfg, b, c)
    ensures Conserved(cfg, a, c)
  {
    forall u | u in a.users && u !in Foreign(cfg, a) ensures u in c.users && c.users[u] == a.users[u] {
      assert u in b.users && u !in Foreign(cfg, b);
    }
  }

  lemma LinkConserves(env: Env, cfg: Config, db: Db, tick: nat, main: UserId, other: UserId)
    requires Valid(db) && main in db.users && other in Foreign(cfg, db)
    ensures var run := Link(env, cfg, db, tick, main, other);
            Conserved(cfg, db, run.db)
                && (run.outcome.Done? ==> run.db.users == if main == other then db.users else db.users - {other})
  {
    if main != other && !Clash(db, main, other) {
      MovedIsValid(db, main, other);
    }
  }

  ghost predicate ForeignMembers(cfg: Config, db: Db, accounts: seq<Listed>) {
    forall i :: 0 <= i < |accounts| ==> accounts[i].user in Foreign(cfg, db)
  }

  lemma {:induction false} LinkAllConserves(env: Env, cfg: Config, db: Db, tick: nat, main: UserId, others: seq<Listed>)
    requires Valid(db) && main in Foreign(cfg, db) && ForeignMembers(cfg, db, others) && Distinct(others)
             && !IsMember(others, main)
    ensures var run := LinkAll(env, cfg, db, tick, main, others);
            Conserved(cfg, db, run.db) && main in Foreign(cfg, run.db)
    decreases |others|
  {
    if others != [] {
      LinkConserves(env, cfg, db, tick, main, others[0].user);
      MemberUnfolds(others, main);
      var run := Link(env, cfg, db, tick, main, others[0].user);
      if run.outcome.Done? {
        forall i | 0 <= i < |others[1..]| ensures others[1..][i].user in Foreign(cfg, run.db) {
          assert others[i + 1].user in Foreign(cfg, db);
        }
        LinkAllConserves(env, cfg, run.db, run.tick, main, others[1..]);
        ConservedTransitive(cfg, db, run.db, LinkAll(env, cfg, run.db, run.tick, main, others[1..]).db);
      }
    }
  }

  lemma MigrateConserves(env: Env, cfg: Config, db: Db, tick: nat, u: UserId)
    requires Valid(db) && u in Foreign(cfg, db)
    ensures Conserved(cfg, db, Migrate(env, cfg, db, tick, u).db)
  {
  }

  lemma MergeGroupConserves(env: Env, cfg: Config, db: Db, tick: nat, group: Group)
    requires Valid(db) && Present(db, group) && ForeignMembers(cfg, db, group.members)
    ensures Conserved(cfg, db, MergeGroup(env, cfg, db, tick, group).db)
  {
    var main, others := group.members[0].user, group.members[1..];
    MemberUnfolds(group.members, main);
    assert !IsMember(others, main);
    if !ClashWithMain(db, main, others) {
      LinkAllConserves(env, cfg, db, tick, main, others);
      var run := LinkAll(env, cfg, db, tick, main, others);
      MigrateConserves(env, cfg, run.db, run.tick, main);
      ConservedTransitive(cfg, db, run.db, Migrate(env, cfg, run.db, run.tick, main).db);
    }
  }

  lemma {:induction false} MergeGroupsConserves(env: Env, cfg: Config, db: Db, tick: nat, groups: seq<Group>)
    requires Valid(db) && AllPresent(db, groups) && AllForeign(cfg, db, groups)
    ensures Conserved(cfg, db, MergeGroups(env, cfg, db, tick, groups).db)
    decreases |groups|
  {
    if groups != [] {
      var g := groups[0];
      assert g in groups;
      forall i | 0 <= i < |g.members| ensures g.members[i].user in Foreign(cfg, db) {
        assert g.members[i] in g.members;
      }
      MergeGroupConserves(env, cfg, db, tick, g);
      assert g.members[0].user in Foreign(cfg, db);
      MergeGroupIff(env, cfg, db, tick, g);
      var run := MergeGroup(env, cfg, db, tick, g);
      if run.outcome.Done? {
        RestKept(cfg, db, groups);
        MergeGroupsConserves(env, cfg, run.db, run.tick, groups[1..]);
        ConservedTransitive(cfg, db, run.db, MergeGroups(env, cfg, run.db, run.tick, groups[1..]).db);
      }
    }
  }

  /** However the merge ends, at whichever call, nothing is lost. */
  lemma MergeConserves(env: Env, cfg: Config, db: Db, order: seq<UserId>)
    requires Valid(db) && IsQuery(cfg, db, order)
    ensures Conserved(cfg, db, Merge(env, cfg, db, order).db)
  {
    if Known(cfg, db, order) {
      ListedArePresent(cfg, db, order);
      QueryIsForeign(cfg, db, order);
      MergeGroupsConserves(env, cfg, db, 0, Groups(ListedOf(cfg, db, order)));
    }
  }
}

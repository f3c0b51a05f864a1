/** The upgrade runner of tools/scripts/migration_upgrade.py: a sequence of stages against one database, with
    an optional dump and restore into a temporary database after one of them.

    Commands, files and helpers are a script of outcomes.  A MigrationUpgradeError is `Raises`; any other
    exception, which no handler of the runner catches, is `Escapes`. */
module UpgradeRunner {
  import opened InventoryHistory
  import opened Sets
  import opened Wrappers

  datatype Outcome = Works | Raises | Escapes

  datatype NameOutcome = FactoryRaises | InvalidName | Name(database: string)

  /** What the fixture helper captures of a database. */
  datatype Captured = Captured(tableCounts: map<string, nat>, appliedMigrations: seq<Migration>, fixture: string)

  // OS errors inside the round trip are turned into MigrationUpgradeError and count as Raises.
  datatype RoundTripScript = RoundTripScript(
    name: NameOutcome, environmentOk: bool,
    commands: Outcome,          // seeding, dump, createdb, restore, and reading both captured states
    source: Captured, restored: Captured,
    diagnostic: Outcome,        // writing the diagnostic file
    dumpRemoved: bool)

  datatype StageScript = StageScript(
    sha: Outcome,               // checkout exists and is a git checkout
    commands: Outcome,          // venv, install, migrations, inventory collection and validation
    inventory: Inventory,
    provenanceOk: bool,
    roundTrip: RoundTripScript,
    fixtureRead: Outcome,       // running the helper that captures the fixture, and reading its file
    fixture: string,
    logClosed: bool,            // closing the stage log raises nothing
    summaryOk: bool)

  datatype Status = Pending | Passed | Failed

  datatype Result = Result(stage: string, status: Status)

  // `recorded`, `drops` and `used` record, in order, the snapshot names stored, the dropdb attempts, and the
  // database each stage started with; the program does not read them.
  datatype State = State(
    results: seq<Result>, inventories: seq<Inventory>, database: string,
    snapshotDatabase: Option<string>, snapshotStage: Option<string>, expectedFixture: Option<string>,
    recorded: seq<string>, drops: seq<string>, used: seq<string>)

  datatype Config = Config(stages: seq<string>, roundTripAfter: Option<string>, policy: Policy)

  // ---------- one stage ----------

  datatype Ended = Ended(state: State, outcome: Outcome)

  function RoundTrip(s: State, stage: string, t: RoundTripScript): Ended {
    if !t.name.Name? || !t.environmentOk then Ended(s, Raises)
    else
      var s1 := s.(snapshotDatabase := Some(t.name.database), snapshotStage := Some(stage),
                   recorded := s.recorded + [t.name.database]);
      if !t.commands.Works? then Ended(s1, t.commands)
      else if !t.diagnostic.Works? then Ended(s1, t.diagnostic)
      else if t.source != t.restored || !t.dumpRemoved then Ended(s1, Raises)
      else Ended(s1.(database := t.name.database, expectedFixture := Some(t.source.fixture)), Works)
  }

  /** The fixture check of the stages after the round trip. */
  function FixtureCheck(expected: Option<string>, sc: StageScript): Outcome {
    if expected.None? then Works
    else if !sc.fixtureRead.Works? then sc.fixtureRead
    else if sc.fixture != expected.value then Raises else Works
  }

  /** The stage's own inventory check, on the inventories collected so far. */
  predicate InventoryPasses(cfg: Config, inventories: seq<Inventory>, stage: string) {
    OfStage(CompareInventoryHistory(inventories, cfg.policy), stage) == []
  }

  /** What happens while the stage log is open. */
  function LoggedBody(cfg: Config, s: State, stage: string, sc: StageScript, inventoryPasses: bool): Ended {
    var s0 := s.(used := s.used + [s.database]);
    if !sc.commands.Works? then Ended(s0, sc.commands)
    else
      var s1 := s0.(inventories := s0.inventories + [sc.inventory.(stage := stage)]);
      if !sc.provenanceOk || !inventoryPasses then Ended(s1, Raises)
      else if cfg.roundTripAfter == Some(stage) then RoundTrip(s1, stage, sc.roundTrip)
      else Ended(s1, FixtureCheck(s1.expectedFixture, sc))
  }

  /** An exception raised on closing the log replaces whatever the body ended with. */
  function StageBody(cfg: Config, s: State, stage: string, sc: StageScript, inventoryPasses: bool): Ended {
    var e := LoggedBody(cfg, s, stage, sc, inventoryPasses);
    if sc.logClosed then e else e.(outcome := Escapes)
  }

  function Cleanup(s: State): State {
    if s.snapshotDatabase.None? || s.snapshotStage.None? then s
    else s.(snapshotDatabase := None, drops := s.drops + [s.snapshotDatabase.value])
  }

  function WithStatus(s: State, status: Status): State
    requires s.results != []
  {
    var last := |s.results| - 1;
    s.(results := s.results[..last] + [s.results[last].(status := status)])
  }

  /** How run() takes the end of a stage body. */
  function Finish(body: Ended, summaryOk: bool): Ended
    requires body.state.results != []
  {
    match body.outcome
    case Escapes => body
    case Raises => Ended(Cleanup(WithStatus(body.state, Failed)), Raises)
    case Works =>
      if summaryOk then Ended(WithStatus(body.state, Passed), Works)
      else Ended(Cleanup(WithStatus(body.state, Failed)), Raises)
  }

  function RunStage(cfg: Config, s: State, stage: string, sc: StageScript, inventoryPasses: bool): Ended {
    if sc.sha.Escapes? then Ended(s, Escapes)
    else if sc.sha.Raises? then Ended(Cleanup(s.(results := s.results + [Result(stage, Failed)])), Raises)
    else
      var started := s.(results := s.results + [Result(stage, Pending)]);
      var body := StageBody(cfg, started, stage, sc, inventoryPasses);
      assert body.state.results == started.results;
      Finish(body, sc.summaryOk)
  }

  // ---------- the run ----------

  /** The inventory check of the next stage. */
  predicate CheckStage(cfg: Config, s: State, stage: string, sc: StageScript) {
    InventoryPasses(cfg, s.inventories + [sc.inventory.(stage := stage)], stage)
  }

  function RunFrom(cfg: Config, s: State, stages: seq<string>, scripts: seq<StageScript>, finalSummaryOk: bool): Ended
    requires |stages| == |scripts|
    decreases |stages|
  {
    if stages == [] then Ended(Cleanup(s), if finalSummaryOk then Works else Raises)
    else
      var ended := RunStage(cfg, s, stages[0], scripts[0], CheckStage(cfg, s, stages[0], scripts[0]));
      if ended.outcome.Works? then RunFrom(cfg, ended.state, stages[1..], scripts[1..], finalSummaryOk) else ended
  }

  predicate ValidConfig(cfg: Config) {
    && cfg.stages != []
    && (forall i, j :: 0 <= i < j < |cfg.stages| ==> cfg.stages[i] != cfg.stages[j])
    && (cfg.roundTripAfter.Some? ==> cfg.roundTripAfter.value in cfg.stages[..|cfg.stages| - 1])
  }

  function Initial(database: string): State {
    State([], [], database, None, None, None, [], [], [])
  }

  function Run(cfg: Config, database: string, prepare: Outcome, scripts: seq<StageScript>, finalSummaryOk: bool): Ended
    requires |scripts| == |cfg.stages|
  {
    if !ValidConfig(cfg) then Ended(Initial(database), Raises)
    else if !prepare.Works? then Ended(Initial(database), prepare)
    else RunFrom(cfg, Initial(database), cfg.stages, scripts, finalSummaryOk)
  }

  // ---------- what holds between stages ----------

  predicate TripIn(cfg: Config, n: nat)
    requires n <= |cfg.stages|
  {
    cfg.roundTripAfter.Some? && cfg.roundTripAfter.value in cfg.stages[..n]
  }

  /** The results name the stages in order. */
  predicate NamesStages(cfg: Config, results: seq<Result>) {
    |results| <= |cfg.stages| && forall i :: 0 <= i < |results| ==> results[i].stage == cfg.stages[i]
  }

  /** Each stage so far started with the original database up to and including the round-trip stage, and
      with the restored one after it. */
  predicate UsedRightDatabase(cfg: Config, original: string, used: seq<string>, recorded: seq<string>) {
    |used| <= |cfg.stages| && forall i :: 0 <= i < |used| ==>
      used[i] == if recorded != [] && TripIn(cfg, i) then recorded[0] else original
  }

  predicate InventoriesPass(cfg: Config, inventories: seq<Inventory>) {
    |inventories| <= |cfg.stages| && forall i :: 0 <= i < |inventories| ==>
      inventories[i].stage == cfg.stages[i] && StagePasses(inventories, cfg.policy, i)
  }

  /** The snapshot fields before and after the round-trip stage has passed. */
  predicate SnapshotState(original: string, s: State, tripped: bool) {
    if tripped
    then |s.recorded| == 1 && s.snapshotDatabase == Some(s.recorded[0]) && s.snapshotStage.Some?
        && s.expectedFixture.Some? && s.database == s.recorded[0]
    else s.recorded == [] && s.snapshotDatabase.None? && s.expectedFixture.None? && s.database == original
  }

  /** After n stages, all passed. */
  predicate Between(cfg: Config, original: string, s: State, n: nat) {
    && n <= |cfg.stages| && |s.results| == n && |s.inventories| == n && |s.used| == n
    && NamesStages(cfg, s.results) && (forall r :: r in s.results ==> r.status.Passed?)
    && InventoriesPass(cfg, s.inventories)
    && UsedRightDatabase(cfg, original, s.used, s.recorded)
    && SnapshotState(original, s, TripIn(cfg, n))
    && s.drops == []
  }

  /** What is true when a run ends, however it ends. */
  predicate EndsSafely(cfg: Config, original: string, e: Ended) {
    var s := e.state;
    // a recorded snapshot name is dropped exactly once, unless an exception escaped the handlers
    && |s.recorded| <= 1
    && s.drops == (if e.outcome.Escapes? then [] else s.recorded)
    && (!e.outcome.Escapes? ==> s.snapshotDatabase.None?)
    && UsedRightDatabase(cfg, original, s.used, s.recorded)
    // the results are a prefix of the stages and only the last may not have passed
    && NamesStages(cfg, s.results)
    && (forall i :: 0 <= i < |s.results| - 1 ==> s.results[i].status.Passed?)
    // a normal end: all stages passed, each with its own inventory check
    && (e.outcome.Works? ==>
          && |s.results| == |cfg.stages| == |s.inventories|
          && (forall r :: r in s.results ==> r.status.Passed?)
          && InventoriesPass(cfg, s.inventories))
  }

  lemma AppendInventory(cfg: Config, inventories: seq<Inventory>, inv: Inventory)
    requires |inventories| < |cfg.stages| && InventoriesPass(cfg, inventories) && inv.stage == cfg.stages[|inventories|]
    ensures InventoryPasses(cfg, inventories + [inv], inv.stage) ==> InventoriesPass(cfg, inventories + [inv])
  {
    var all, n := inventories + [inv], |inventories|;
    assert all[..n + 1] == all;
    forall i | 0 <= i < n ensures StagePasses(all, cfg.policy, i) == StagePasses(inventories, cfg.policy, i) {
      assert all[..i + 1] == inventories[..i + 1];
    }
  }

  lemma TripStep(cfg: Config, n: nat)
    requires ValidConfig(cfg) && n < |cfg.stages|
    ensures TripIn(cfg, n + 1) <==> TripIn(cfg, n) || cfg.roundTripAfter == Some(cfg.stages[n])
    ensures cfg.roundTripAfter == Some(cfg.stages[n]) ==> forall i :: 0 <= i <= n ==> !TripIn(cfg, i)
  {
    assert cfg.stages[..n + 1] == cfg.stages[..n] + [cfg.stages[n]];
  }

  /** What the snapshot fields look like when a stage is left: a recorded name is still to be dropped. */
  predicate StillToDrop(s: State) {
    && s.drops == [] && |s.recorded| <= 1
    && (if s.recorded == [] then s.snapshotDatabase.None?
       else s.snapshotDatabase == Some(s.recorded[0]) && s.snapshotStage.Some?)
  }

  /** The snapshot and database fields over one stage body. */
  lemma BodyIsSafe(cfg: Config, original: string, s: State, n: nat, sc: StageScript, passes: bool)
    requires ValidConfig(cfg) && n < |cfg.stages| && |s.used| == n && s.drops == []
    requires UsedRightDatabase(cfg, original, s.used, s.recorded) && SnapshotState(original, s, TripIn(cfg, n))
    ensures var e := StageBody(cfg, s, cfg.stages[n], sc, passes);
            && StillToDrop(e.state) && UsedRightDatabase(cfg, original, e.state.used, e.state.recorded)
            && (e.outcome.Works? ==> SnapshotState(original, e.state, TripIn(cfg, n + 1)))
  {
    TripStep(cfg, n);
  }

  /** The lists over one stage body. */
  lemma BodyLists(cfg: Config, s: State, stage: string, sc: StageScript, passes: bool)
    ensures var e := StageBody(cfg, s, stage, sc, passes);
            && e.state.results == s.results && |e.state.used| == |s.used| + 1
            && (e.outcome.Works? ==> passes && e.state.inventories == s.inventories + [sc.inventory.(stage := stage)])
  {
  }

  /** Results of n passed stages and one more. */
  predicate NextResult(cfg: Config, results: seq<Result>, n: nat) {
    |results| == n + 1 && NamesStages(cfg, results) && forall i :: 0 <= i < n ==> results[i].status.Passed?
  }

  lemma StatusKeepsNames(cfg: Config, s: State, n: nat, status: Status)
    requires NextResult(cfg, s.results, n)
    ensures var s1 := WithStatus(s, status);
            && s1 == s.(results := s1.results) && NextResult(cfg, s1.results, n) && s1.results[n].status == status
  {
  }

  lemma RaisedEndsSafely(cfg: Config, original: string, s: State, n: nat)
    requires NextResult(cfg, s.results, n) && StillToDrop(s) && UsedRightDatabase(cfg, original, s.used, s.recorded)
    ensures EndsSafely(cfg, original, Ended(Cleanup(s), Raises))
    ensures EndsSafely(cfg, original, Ended(s, Escapes))
  {
  }

  lemma EscapedEndsSafely(cfg: Config, original: string, s: State, n: nat)
    requires Between(cfg, original, s, n)
    ensures EndsSafely(cfg, original, Ended(s, Escapes))
  {
  }

  lemma PassedIsBetween(cfg: Config, original: string, s: State, n: nat)
    requires n < |cfg.stages| && NextResult(cfg, s.results, n) && s.results[n].status.Passed?
    requires |s.inventories| == n + 1 && |s.used| == n + 1 && s.drops == []
    requires InventoriesPass(cfg, s.inventories) && UsedRightDatabase(cfg, original, s.used, s.recorded)
             && SnapshotState(original, s, TripIn(cfg, n + 1))
    ensures Between(cfg, original, s, n + 1)
  {
  }

  lemma FinishIsSafe(cfg: Config, original: string, body: Ended, n: nat, summaryOk: bool)
    requires n < |cfg.stages| && NextResult(cfg, body.state.results, n)
    requires StillToDrop(body.state) && UsedRightDatabase(cfg, original, body.state.used, body.state.recorded)
    requires body.outcome.Works? ==>
               && |body.state.inventories| == |body.state.used| == n + 1 && InventoriesPass(cfg, body.state.inventories)
               && SnapshotState(original, body.state, TripIn(cfg, n + 1))
    ensures var e := Finish(body, summaryOk);
            if e.outcome.Works? then Between(cfg, original, e.state, n + 1) else EndsSafely(cfg, original, e)
  {
    StatusKeepsNames(cfg, body.state, n, Failed);
    RaisedEndsSafely(cfg, original, body.state, n);
    RaisedEndsSafely(cfg, original, WithStatus(body.state, Failed), n);
    if body.outcome.Works? && summaryOk {
      StatusKeepsNames(cfg, body.state, n, Passed);
      PassedIsBetween(cfg, original, WithStatus(body.state, Passed), n);
    }
  }

  lemma StageIsSafe(cfg: Config, original: string, s: State, n: nat, sc: StageScript, passes: bool)
    requires ValidConfig(cfg) && n < |cfg.stages| && Between(cfg, original, s, n)
    requires passes ==> InventoriesPass(cfg, s.inventories + [sc.inventory.(stage := cfg.stages[n])])
    ensures var e := RunStage(cfg, s, cfg.stages[n], sc, passes);
            if e.outcome.Works? then Between(cfg, original, e.state, n + 1) else EndsSafely(cfg, original, e)
  {
    var stage := cfg.stages[n];
    if !sc.sha.Works? {
      EscapedEndsSafely(cfg, original, s, n);
      RaisedEndsSafely(cfg, original, s.(results := s.results + [Result(stage, Failed)]), n);
    } else {
      var started := s.(results := s.results + [Result(stage, Pending)]);
      BodyIsSafe(cfg, original, started, n, sc, passes);
      BodyLists(cfg, started, stage, sc, passes);
      FinishIsSafe(cfg, original, StageBody(cfg, started, stage, sc, passes), n, sc.summaryOk);
    }
  }

  lemma AllStagesDone(cfg: Config, original: string, s: State, finalSummaryOk: bool)
    requires Between(cfg, original, s, |cfg.stages|)
    ensures EndsSafely(cfg, original, Ended(Cleanup(s), if finalSummaryOk then Works else Raises))
  {
  }

  lemma {:induction false} RunFromIsSafe(cfg: Config, original: string, s: State, n: nat, scripts: seq<StageScript>,
      finalSummaryOk: bool)
    requires ValidConfig(cfg) && n <= |cfg.stages| && Between(cfg, original, s, n)
    requires |scripts| == |cfg.stages| - n
    ensures EndsSafely(cfg, original, RunFrom(cfg, s, cfg.stages[n..], scripts, finalSummaryOk))
    decreases |scripts|
  {
    if n == |cfg.stages| {
      AllStagesDone(cfg, original, s, finalSummaryOk);
    } else {
      var passes := CheckStage(cfg, s, cfg.stages[n], scripts[0]);
      AppendInventory(cfg, s.inventories, scripts[0].inventory.(stage := cfg.stages[n]));
      StageIsSafe(cfg, original, s, n, scripts[0], passes);
      var e := RunStage(cfg, s, cfg.stages[n], scripts[0], passes);
      assert cfg.stages[n..][1..] == cfg.stages[n + 1..];
      if e.outcome.Works? {
        RunFromIsSafe(cfg, original, e.state, n + 1, scripts[1..], finalSummaryOk);
      }
    }
  }

  /** Every run, whatever its stages, helpers and summary writes do: a recorded snapshot name is dropped
      exactly once unless an unhandled exception escaped, stages after a successful round trip start with
      the restored database, and the results are a prefix of the stages with only the last not passed. */
  lemma RunIsSafe(cfg: Config, original: string, prepare: Outcome, scripts: seq<StageScript>, finalSummaryOk: bool)
    requires |scripts| == |cfg.stages|
    ensures var e := Run(cfg, original, prepare, scripts, finalSummaryOk);
            if ValidConfig(cfg) && prepare.Works? then EndsSafely(cfg, original, e)
            else e.state == Initial(original) && !e.outcome.Works?
  {
    if ValidConfig(cfg) {
      RunFromIsSafe(cfg, original, Initial(original), 0, scripts, finalSummaryOk);
      assert cfg.stages[0..] == cfg.stages;
    }
  }

  // ---------- what a run does, read off its script ----------

  /** The inventories of the first n stages. */
  function Inventories(cfg: Config, scripts: seq<StageScript>, n: nat): seq<Inventory>
    requires n <= |scripts| == |cfg.stages|
  {
    seq(n, i requires 0 <= i < n => scripts[i].inventory.(stage := cfg.stages[i]))
  }

  /** Stage n gets to its round trip or fixture check. */
  predicate ReachesCheck(cfg: Config, scripts: seq<StageScript>, n: nat)
    requires n < |scripts| == |cfg.stages|
  {
    && scripts[n].sha.Works? && scripts[n].commands.Works? && scripts[n].provenanceOk
    && InventoryPasses(cfg, Inventories(cfg, scripts, n + 1), cfg.stages[n])
  }

  /** The round trip of stage n stores a database name. */
  predicate StoresName(cfg: Config, scripts: seq<StageScript>, n: nat)
    requires n < |scripts| == |cfg.stages|
  {
    && ReachesCheck(cfg, scripts, n) && cfg.roundTripAfter == Some(cfg.stages[n])
    && scripts[n].roundTrip.name.Name? && scripts[n].roundTrip.environmentOk
  }

  predicate TripSucceeds(t: RoundTripScript) {
    t.name.Name? && t.environmentOk && t.commands.Works? && t.diagnostic.Works? && t.source == t.restored
        && t.dumpRemoved
  }

  /** The round trip among the first n stages. */
  function TripBefore(cfg: Config, scripts: seq<StageScript>, n: nat): Option<RoundTripScript>
    requires n <= |scripts| == |cfg.stages|
  {
    if n == 0 then None
    else if cfg.roundTripAfter == Some(cfg.stages[n - 1]) then Some(scripts[n - 1].roundTrip)
    else TripBefore(cfg, scripts, n - 1)
  }

  function DumpedFixture(trip: Option<RoundTripScript>): Option<string> {
    if trip.None? then None else Some(trip.value.source.fixture)
  }

  /** Stage n passes, once the stages before it have. */
  predicate StageWorks(cfg: Config, scripts: seq<StageScript>, n: nat)
    requires n < |scripts| == |cfg.stages|
  {
    && ReachesCheck(cfg, scripts, n) && scripts[n].logClosed && scripts[n].summaryOk
    && if cfg.roundTripAfter == Some(cfg.stages[n]) then TripSucceeds(scripts[n].roundTrip)
       else FixtureCheck(DumpedFixture(TripBefore(cfg, scripts, n)), scripts[n]).Works?
  }

  /** At stage n some exception that is not a MigrationUpgradeError escapes while a name is stored: after the
      round trip, in the checkout, the commands, the fixture check or when the log is closed; or inside the round
      trip, or when its log is closed. */
  predicate EscapesWithName(cfg: Config, scripts: seq<StageScript>, n: nat)
    requires n < |scripts| == |cfg.stages|
  {
    var sc := scripts[n];
    || (TripIn(cfg, n)
        && (sc.sha.Escapes?
            || (sc.sha.Works? && (sc.commands.Escapes? || !sc.logClosed))
            || (ReachesCheck(cfg, scripts, n) && sc.fixtureRead.Escapes?)))
    || (StoresName(cfg, scripts, n) && (TripEscapes(sc.roundTrip) || !sc.logClosed))
  }

  predicate TripEscapes(t: RoundTripScript) {
    t.commands.Escapes? || (t.commands.Works? && t.diagnostic.Escapes?)
  }

  /** The fixture and database fields are what the round trip, if there has been one, has set. */
  predicate FieldsFollow(original: string, s: State, trip: Option<RoundTripScript>) {
    if trip.None? then s.expectedFixture.None? && s.database == original && s.recorded == []
    else s.expectedFixture == Some(trip.value.source.fixture) && trip.value.name == Name(s.database) && s.recorded != []
  }

  /** The state after n passed stages holds what their scripts say. */
  predicate Follows(cfg: Config, original: string, scripts: seq<StageScript>, s: State, n: nat)
    requires n <= |scripts| == |cfg.stages|
  {
    s.inventories == Inventories(cfg, scripts, n) && FieldsFollow(original, s, TripBefore(cfg, scripts, n))
  }

  lemma {:induction false} TripBeforeIff(cfg: Config, scripts: seq<StageScript>, n: nat)
    requires ValidConfig(cfg) && n <= |scripts| == |cfg.stages|
    ensures TripBefore(cfg, scripts, n).Some? <==> TripIn(cfg, n)
    decreases n
  {
    if n > 0 {
      TripBeforeIff(cfg, scripts, n - 1);
      TripStep(cfg, n - 1);
    }
  }

  lemma NextInventories(cfg: Config, scripts: seq<StageScript>, n: nat)
    requires n < |scripts| == |cfg.stages|
    ensures Inventories(cfg, scripts, n + 1)
            == Inventories(cfg, scripts, n) + [scripts[n].inventory.(stage := cfg.stages[n])]
  {
  }

  /** What a stage body does with the fields of the round trip. */
  lemma BodyFollows(cfg: Config, original: string, s: State, stage: string, sc: StageScript, passes: bool,
      trip: Option<RoundTripScript>)
    requires FieldsFollow(original, s, trip) && (trip.Some? ==> cfg.roundTripAfter != Some(stage))
    ensures var e := StageBody(cfg, s, stage, sc, passes);
            var reaches, isTrip := sc.commands.Works? && sc.provenanceOk && passes, cfg.roundTripAfter == Some(stage);
            && (e.outcome.Works? <==>
                  && reaches && sc.logClosed
                  && if isTrip then TripSucceeds(sc.roundTrip) else FixtureCheck(DumpedFixture(trip), sc).Works?)
            && (e.outcome.Works? ==> FieldsFollow(original, e.state, if isTrip then Some(sc.roundTrip) else trip))
            && (e.outcome.Escapes? && e.state.recorded != [] <==>
                  || (trip.Some? && (sc.commands.Escapes? || !sc.logClosed || (reaches && sc.fixtureRead.Escapes?)))
                  || (reaches && isTrip && sc.roundTrip.name.Name? && sc.roundTrip.environmentOk
                      && (TripEscapes(sc.roundTrip) || !sc.logClosed)))
  {
  }

  lemma FinishKeepsFields(body: Ended, summaryOk: bool)
    requires body.state.results != []
    ensures var e := Finish(body, summaryOk);
            && (e.outcome.Works? <==> body.outcome.Works? && summaryOk)
               && (e.outcome.Escapes? <==> body.outcome.Escapes?)
            && e.state.inventories == body.state.inventories && e.state.expectedFixture == body.state.expectedFixture
            && e.state.database == body.state.database && e.state.recorded == body.state.recorded
  {
  }

  /** One stage, read off the script. */
  lemma StageFollows(cfg: Config, original: string, scripts: seq<StageScript>, s: State, n: nat, passes: bool)
    requires ValidConfig(cfg) && n < |scripts| == |cfg.stages|
    requires Follows(cfg, original, scripts, s, n) && passes == CheckStage(cfg, s, cfg.stages[n], scripts[n])
    ensures var e := RunStage(cfg, s, cfg.stages[n], scripts[n], passes);
            && (e.outcome.Works? <==> StageWorks(cfg, scripts, n))
            && (e.outcome.Works? ==> Follows(cfg, original, scripts, e.state, n + 1))
            && (e.outcome.Escapes? && e.state.recorded != [] <==> EscapesWithName(cfg, scripts, n))
  {
    var stage, sc, trip := cfg.stages[n], scripts[n], TripBefore(cfg, scripts, n);
    NextInventories(cfg, scripts, n);
    TripBeforeIff(cfg, scripts, n);
    TripStep(cfg, n);
    if sc.sha.Works? {
      var started := s.(results := s.results + [Result(stage, Pending)]);
      BodyFollows(cfg, original, started, stage, sc, passes, trip);
      BodyLists(cfg, started, stage, sc, passes);
      FinishKeepsFields(StageBody(cfg, started, stage, sc, passes), sc.summaryOk);
    }
  }

  ghost predicate FirstToEscape(cfg: Config, scripts: seq<StageScript>, from: nat, n: nat)
    requires |scripts| == |cfg.stages|
  {
    from <= n < |scripts| && EscapesWithName(cfg, scripts, n) && forall i: nat :: from <= i < n ==>
        StageWorks(cfg, scripts, i)
  }

  ghost predicate SomeEscape(cfg: Config, scripts: seq<StageScript>, from: nat)
    requires |scripts| == |cfg.stages|
  {
    exists n: nat :: FirstToEscape(cfg, scripts, from, n)
  }

  lemma {:induction false} RunFromLeavesBehindIff(
      cfg: Config, original: string, s: State, n: nat, scripts: seq<StageScript>, finalSummaryOk: bool)
    requires ValidConfig(cfg) && n <= |scripts| == |cfg.stages|
    requires Between(cfg, original, s, n) && Follows(cfg, original, scripts, s, n)
    ensures var e := RunFrom(cfg, s, cfg.stages[n..], scripts[n..], finalSummaryOk);
            e.outcome.Escapes? && e.state.recorded != [] <==> SomeEscape(cfg, scripts, n)
    decreases |scripts| - n
  {
    if n < |cfg.stages| {
      var passes := CheckStage(cfg, s, cfg.stages[n], scripts[n]);
      AppendInventory(cfg, s.inventories, scripts[n].inventory.(stage := cfg.stages[n]));
      StageIsSafe(cfg, original, s, n, scripts[n], passes);
      StageFollows(cfg, original, scripts, s, n, passes);
      var one := RunStage(cfg, s, cfg.stages[n], scripts[n], passes);
      NextStage(cfg, s, n, scripts, finalSummaryOk, one);
      if one.outcome.Works? {
        RunFromLeavesBehindIff(cfg, original, one.state, n + 1, scripts, finalSummaryOk);
        LaterEscape(cfg, scripts, n);
      } else {
        NowOrNever(cfg, scripts, n);
      }
    }
  }

  lemma LaterEscape(cfg: Config, scripts: seq<StageScript>, n: nat)
    requires n < |scripts| == |cfg.stages| && StageWorks(cfg, scripts, n) && !EscapesWithName(cfg, scripts, n)
    ensures SomeEscape(cfg, scripts, n) <==> SomeEscape(cfg, scripts, n + 1)
  {
    if SomeEscape(cfg, scripts, n) {
      var m: nat :| FirstToEscape(cfg, scripts, n, m);
      assert FirstToEscape(cfg, scripts, n + 1, m);
    }
    if SomeEscape(cfg, scripts, n + 1) {
      EarlierEscape(cfg, scripts, n);
    }
  }

  lemma EarlierEscape(cfg: Config, scripts: seq<StageScript>, n: nat)
    requires n < |scripts| == |cfg.stages| && StageWorks(cfg, scripts, n) && SomeEscape(cfg, scripts, n + 1)
    ensures SomeEscape(cfg, scripts, n)
  {
    var m: nat :| FirstToEscape(cfg, scripts, n + 1, m);
    assert FirstToEscape(cfg, scripts, n, m);
  }

  lemma NowOrNever(cfg: Config, scripts: seq<StageScript>, n: nat)
    requires n < |scripts| == |cfg.stages| && !StageWorks(cfg, scripts, n)
    ensures SomeEscape(cfg, scripts, n) <==> EscapesWithName(cfg, scripts, n)
  {
    if EscapesWithName(cfg, scripts, n) {
      assert FirstToEscape(cfg, scripts, n, n);
    }
  }

  /** The snapshot database is left behind exactly if the first stage that does not pass lets an exception other
      than the runner's own escape while a name is stored. */
  lemma LeftBehindIff(cfg: Config, original: string, prepare: Outcome, scripts: seq<StageScript>, finalSummaryOk: bool)
    requires |scripts| == |cfg.stages|
    ensures var e := Run(cfg, original, prepare, scripts, finalSummaryOk);
            e.state.drops != e.state.recorded <==>
              ValidConfig(cfg) && prepare.Works? && SomeEscape(cfg, scripts, 0)
  {
    RunIsSafe(cfg, original, prepare, scripts, finalSummaryOk);
    if ValidConfig(cfg) && prepare.Works? {
      assert cfg.stages[0..] == cfg.stages && scripts[0..] == scripts;
      RunFromLeavesBehindIff(cfg, original, Initial(original), 0, scripts, finalSummaryOk);
    }
  }

  /** A run without stages, with two stages of one name, or with a round trip after no stage or the last one is
      refused before anything is done, and no other is. */
  lemma RefusedIff(cfg: Config, original: string, prepare: Outcome, scripts: seq<StageScript>, finalSummaryOk: bool)
    requires |scripts| == |cfg.stages| && prepare.Works?
    ensures var e := Run(cfg, original, prepare, scripts, finalSummaryOk);
            (e.state.results == [] && e.state.drops == [] && e.outcome.Raises?) <==>
              || |cfg.stages| == 0
              || (exists i, j :: 0 <= i < j < |cfg.stages| && cfg.stages[i] == cfg.stages[j])
              || (cfg.roundTripAfter.Some?
                  && forall i :: 0 <= i < |cfg.stages| - 1 ==> cfg.stages[i] != cfg.roundTripAfter.value)
  {
    if ValidConfig(cfg) {
      assert cfg.stages[0..] == cfg.stages && scripts[0..] == scripts;
      FirstLeavesResult(cfg, original, scripts, finalSummaryOk);
    }
    assert cfg.roundTripAfter.Some? ==>
      (cfg.roundTripAfter.value in cfg.stages[..if cfg.stages == [] then 0 else |cfg.stages| - 1] <==>
       exists i :: 0 <= i < |cfg.stages| - 1 && cfg.stages[i] == cfg.roundTripAfter.value);
  }

  lemma FirstLeavesResult(cfg: Config, original: string, scripts: seq<StageScript>, finalSummaryOk: bool)
    requires |scripts| == |cfg.stages| && ValidConfig(cfg)
    ensures var e := RunFrom(cfg, Initial(original), cfg.stages, scripts, finalSummaryOk);
            e.state.results != [] || e.outcome.Escapes?
  {
    if scripts[0].sha.Escapes? {
      EscapesAtOnce(cfg, Initial(original), cfg.stages, scripts, finalSummaryOk);
    } else {
      ResultsIff(cfg, original, Works, scripts, finalSummaryOk, 0);
    }
  }

  lemma EscapesAtOnce(cfg: Config, s: State, stages: seq<string>, scripts: seq<StageScript>, finalSummaryOk: bool)
    requires 0 < |stages| == |scripts| && scripts[0].sha.Escapes?
    ensures RunFrom(cfg, s, stages, scripts, finalSummaryOk).outcome.Escapes?
  {
  }

  // ---------- what is reported of each stage ----------

  /** Stage n gets a result: the stages before it have passed, and its checkout could be read or is reported. */
  predicate IsReported(cfg: Config, scripts: seq<StageScript>, from: nat, n: nat)
    requires |scripts| == |cfg.stages|
  {
    n < |scripts| && !scripts[n].sha.Escapes? && forall i: nat :: from <= i < n ==> StageWorks(cfg, scripts, i)
  }

  /** The result says passed if the stage has passed, pending if an exception escaped from it, and else failed. */
  predicate IsStatusOf(cfg: Config, scripts: seq<StageScript>, n: nat, escaped: bool, status: Status)
    requires n < |scripts| == |cfg.stages|
  {
    && (status == Passed <==> StageWorks(cfg, scripts, n))
    && (status == Pending <==> !StageWorks(cfg, scripts, n) && escaped)
  }

  function StatusFor(outcome: Outcome): Status {
    match outcome
    case Works => Passed
    case Raises => Failed
    case Escapes => Pending
  }

  lemma FinishReports(body: Ended, summaryOk: bool, before: seq<Result>, stage: string)
    requires body.state.results == before + [Result(stage, Pending)]
    ensures var e := Finish(body, summaryOk);
            e.state.results == before + [Result(stage, StatusFor(e.outcome))]
  {
  }

  /** What one stage adds to the results. */
  lemma StageReports(cfg: Config, s: State, stage: string, sc: StageScript, passes: bool)
    ensures var one := RunStage(cfg, s, stage, sc, passes);
            if sc.sha.Escapes? then one.state.results == s.results && one.outcome.Escapes?
            else one.state.results == s.results + [Result(stage, StatusFor(one.outcome))]
  {
    if sc.sha.Works? {
      var started := s.(results := s.results + [Result(stage, Pending)]);
      BodyLists(cfg, started, stage, sc, passes);
      FinishReports(StageBody(cfg, started, stage, sc, passes), sc.summaryOk, s.results, stage);
    }
  }

  /** The first stage from n on. */
  lemma FirstReport(cfg: Config, original: string, s: State, n: nat, scripts: seq<StageScript>, finalSummaryOk: bool)
      returns (one: Ended)
    requires ValidConfig(cfg) && n < |scripts| == |cfg.stages| && Follows(cfg, original, scripts, s, n)
    ensures RunFrom(cfg, s, cfg.stages[n..], scripts[n..], finalSummaryOk)
            == if one.outcome.Works? then RunFrom(cfg, one.state, cfg.stages[n + 1..], scripts[n + 1..], finalSummaryOk)
               else one
    ensures one.outcome.Works? <==> StageWorks(cfg, scripts, n)
    ensures one.outcome.Works? ==> Follows(cfg, original, scripts, one.state, n + 1)
    ensures if scripts[n].sha.Escapes? then one.state.results == s.results && one.outcome.Escapes?
            else one.state.results == s.results + [Result(cfg.stages[n], StatusFor(one.outcome))]
  {
    var passes := CheckStage(cfg, s, cfg.stages[n], scripts[n]);
    one := RunStage(cfg, s, cfg.stages[n], scripts[n], passes);
    StageReports(cfg, s, cfg.stages[n], scripts[n], passes);
    StageFollows(cfg, original, scripts, s, n, passes);
    NextStage(cfg, s, n, scripts, finalSummaryOk, one);
  }

  lemma NextIsReported(cfg: Config, scripts: seq<StageScript>, n: nat, k: nat)
    requires |scripts| == |cfg.stages| && n < k < |scripts|
    ensures IsReported(cfg, scripts, n, k) <==> StageWorks(cfg, scripts, n) && IsReported(cfg, scripts, n + 1, k)
  {
  }

  lemma {:induction false} RunFromReports(cfg: Config, original: string, s: State, n: nat, scripts: seq<StageScript>,
      finalSummaryOk: bool, k: nat)
    requires ValidConfig(cfg) && n <= |scripts| == |cfg.stages| && n <= k < |scripts|
    requires Follows(cfg, original, scripts, s, n) && |s.results| == n
    ensures var e := RunFrom(cfg, s, cfg.stages[n..], scripts[n..], finalSummaryOk);
            && (k < |e.state.results| <==> IsReported(cfg, scripts, n, k))
            && (k < |e.state.results| ==>
                  && e.state.results[k].stage == cfg.stages[k]
                  && IsStatusOf(cfg, scripts, k, e.outcome.Escapes?, e.state.results[k].status))
    decreases |scripts| - n
  {
    var one := FirstReport(cfg, original, s, n, scripts, finalSummaryOk);
    if one.outcome.Works? {
      if k > n {
        NextIsReported(cfg, scripts, n, k);
        RunFromReports(cfg, original, one.state, n + 1, scripts, finalSummaryOk, k);
      } else {
        RunKeepsResults(cfg, one.state, cfg.stages[n + 1..], scripts[n + 1..], finalSummaryOk);
        assert one.state.results[n] == Result(cfg.stages[n], Passed);
      }
    } else if k > n {
      NextIsReported(cfg, scripts, n, k);
    }
  }

  /** A stage of a run keeps the results of those before it. */
  lemma {:induction false} RunKeepsResults(cfg: Config, s: State, stages: seq<string>, scripts: seq<StageScript>,
      finalSummaryOk: bool)
    requires |stages| == |scripts|
    ensures s.results <= RunFrom(cfg, s, stages, scripts, finalSummaryOk).state.results
    decreases |stages|
  {
    if stages != [] {
      var passes := CheckStage(cfg, s, stages[0], scripts[0]);
      var one := RunStage(cfg, s, stages[0], scripts[0], passes);
      StageReports(cfg, s, stages[0], scripts[0], passes);
      assert s.results <= one.state.results;
      if one.outcome.Works? {
        RunKeepsResults(cfg, one.state, stages[1..], scripts[1..], finalSummaryOk);
        PrefixTransitive(s.results, one.state.results,
          RunFrom(cfg, one.state, stages[1..], scripts[1..], finalSummaryOk).state.results);
      }
    }
  }

  /** Exactly the stages up to the first that does not pass have a result, and it says what became of them. */
  lemma ResultsIff(cfg: Config, original: string, prepare: Outcome, scripts: seq<StageScript>, finalSummaryOk: bool,
      k: nat)
    requires k < |scripts| == |cfg.stages| && ValidConfig(cfg) && prepare.Works?
    ensures var e := Run(cfg, original, prepare, scripts, finalSummaryOk);
            && (k < |e.state.results| <==> IsReported(cfg, scripts, 0, k))
            && (k < |e.state.results| ==>
                  && e.state.results[k].stage == cfg.stages[k]
                  && IsStatusOf(cfg, scripts, k, e.outcome.Escapes?, e.state.results[k].status))
  {
    assert cfg.stages[0..] == cfg.stages && scripts[0..] == scripts;
    RunFromReports(cfg, original, Initial(original), 0, scripts, finalSummaryOk, k);
  }

  lemma NothingAppliedNothingReported(invs: seq<Inventory>, policy: Policy, stage: string)
    requires forall inv :: inv in invs ==> inv.applied == {}
    ensures OfStage(CompareInventoryHistory(invs, policy), stage) == []
  {
    var vs := CompareInventoryHistory(invs, policy);
    if vs != [] {
      HistoryIff(invs, policy, vs[0]);
    }
  }

  /** Two stages are enough: a round trip after the first, and in the second a log file that cannot be opened. */
  lemma EscapeLeavesDatabaseBehind(old_: string, new_: string, copy: string, policy: Policy, state: Captured)
    returns (cfg: Config, scripts: seq<StageScript>)
    requires old_ != new_
    ensures |scripts| == |cfg.stages| && cfg.policy == policy
    ensures var e := Run(cfg, "gateway", Works, scripts, true); e.state.drops != e.state.recorded
  {
    var trip := RoundTripScript(Name(copy), true, Works, state, state, Works, true);
    var good := StageScript(Works, Works, Inventory("", map[], {}), true, trip, Works, state.fixture, true, true);
    cfg := Config([old_, new_], Some(old_), policy);
    scripts := [good, good.(commands := Escapes)];
    assert cfg.stages[..1] == [old_];
    NothingAppliedNothingReported(Inventories(cfg, scripts, 1), policy, old_);
    assert StageWorks(cfg, scripts, 0);
    assert EscapesWithName(cfg, scripts, 1);
    assert FirstToEscape(cfg, scripts, 0, 1);
    LeftBehindIff(cfg, "gateway", Works, scripts, true);
  }

  // ---------- a normal end ----------

  lemma NextAllWork(cfg: Config, scripts: seq<StageScript>, n: nat)
    requires n < |scripts| == |cfg.stages|
    ensures AllWork(cfg, scripts, n) <==> StageWorks(cfg, scripts, n) && AllWork(cfg, scripts, n + 1)
  {
  }

  lemma NextStage(cfg: Config, s: State, n: nat, scripts: seq<StageScript>, finalSummaryOk: bool, one: Ended)
    requires n < |scripts| == |cfg.stages|
    requires one == RunStage(cfg, s, cfg.stages[n], scripts[n], CheckStage(cfg, s, cfg.stages[n], scripts[n]))
    ensures RunFrom(cfg, s, cfg.stages[n..], scripts[n..], finalSummaryOk)
            == if one.outcome.Works? then RunFrom(cfg, one.state, cfg.stages[n + 1..], scripts[n + 1..], finalSummaryOk)
               else one
  {
    assert cfg.stages[n..][1..] == cfg.stages[n + 1..] && scripts[n..][1..] == scripts[n + 1..];
  }

  /** A run from stage n on ends normally exactly if the stages from n on pass, and then as they have left it. */
  predicate EndsAsFollows(cfg: Config, original: string, scripts: seq<StageScript>, n: nat, finalSummaryOk: bool,
      e: Ended)
    requires |scripts| == |cfg.stages|
  {
    && (e.outcome.Works? <==> finalSummaryOk && AllWork(cfg, scripts, n))
    && (e.outcome.Works? ==> FieldsFollow(original, e.state, TripBefore(cfg, scripts, |scripts|)))
  }

  lemma {:induction false} NormalEndFollows(
      cfg: Config, original: string, s: State, n: nat, scripts: seq<StageScript>, finalSummaryOk: bool, e: Ended)
    requires ValidConfig(cfg) && n <= |scripts| == |cfg.stages|
    requires Follows(cfg, original, scripts, s, n)
    requires e == RunFrom(cfg, s, cfg.stages[n..], scripts[n..], finalSummaryOk)
    ensures EndsAsFollows(cfg, original, scripts, n, finalSummaryOk, e)
    decreases |scripts| - n
  {
    if n == |cfg.stages| {
      LastFollows(cfg, original, s, scripts, finalSummaryOk);
    } else {
      var one := FirstReport(cfg, original, s, n, scripts, finalSummaryOk);
      if one.outcome.Works? {
        NormalEndFollows(cfg, original, one.state, n + 1, scripts, finalSummaryOk, e);
      }
      FollowsFromNext(cfg, original, scripts, n, finalSummaryOk, e);
    }
  }

  lemma FollowsFromNext(cfg: Config, original: string, scripts: seq<StageScript>, n: nat, finalSummaryOk: bool,
      e: Ended)
    requires n < |scripts| == |cfg.stages|
    requires if StageWorks(cfg, scripts, n) then EndsAsFollows(cfg, original, scripts, n + 1, finalSummaryOk, e)
             else !e.outcome.Works?
    ensures EndsAsFollows(cfg, original, scripts, n, finalSummaryOk, e)
  {
    NextAllWork(cfg, scripts, n);
  }

  lemma LastFollows(cfg: Config, original: string, s: State, scripts: seq<StageScript>, finalSummaryOk: bool)
    requires |scripts| == |cfg.stages| && Follows(cfg, original, scripts, s, |scripts|)
    ensures EndsAsFollows(cfg, original, scripts, |scripts|, finalSummaryOk,
              RunFrom(cfg, s, cfg.stages[|scripts|..], scripts[|scripts|..], finalSummaryOk))
  {
  }

  predicate AllWork(cfg: Config, scripts: seq<StageScript>, n: nat)
    requires |scripts| == |cfg.stages|
  {
    forall i: nat :: n <= i < |scripts| ==> StageWorks(cfg, scripts, i)
  }

  /** A run ends normally exactly if its configuration is valid, it can be prepared, every stage passes and its
      last summary is written.  It ends on the original database if it has no round trip, and else on the
      restored one. */
  lemma NormalEndIff(cfg: Config, original: string, prepare: Outcome, scripts: seq<StageScript>, finalSummaryOk: bool)
    requires |scripts| == |cfg.stages|
    ensures var e := Run(cfg, original, prepare, scripts, finalSummaryOk);
            && (e.outcome.Works? <==> ValidConfig(cfg) && prepare.Works? && finalSummaryOk && AllWork(cfg, scripts, 0))
            && (e.outcome.Works? ==> FieldsFollow(original, e.state, TripBefore(cfg, scripts, |scripts|)))
  {
    if ValidConfig(cfg) && prepare.Works? {
      assert cfg.stages[0..] == cfg.stages && scripts[0..] == scripts;
      NormalEndFollows(cfg, original, Initial(original), 0, scripts, finalSummaryOk,
        Run(cfg, original, prepare, scripts, finalSummaryOk));
    }
  }

  /** In a run that ends normally the restored state was the dumped one, and every later stage saw the fixture
      that was dumped. */
  lemma NormalEndKeepsData(
      cfg: Config, original: string, prepare: Outcome, scripts: seq<StageScript>, finalSummaryOk: bool, i: nat, j: nat)
    requires |scripts| == |cfg.stages| && Run(cfg, original, prepare, scripts, finalSummaryOk).outcome.Works?
    requires i < j < |scripts| && cfg.roundTripAfter == Some(cfg.stages[i])
    ensures scripts[i].roundTrip.source == scripts[i].roundTrip.restored
    ensures scripts[j].fixture == scripts[i].roundTrip.source.fixture
    ensures scripts[i].roundTrip.name == Name(Run(cfg, original, prepare, scripts, finalSummaryOk).state.database)
  {
    NormalEndIff(cfg, original, prepare, scripts, finalSummaryOk);
    assert StageWorks(cfg, scripts, i) && StageWorks(cfg, scripts, j);
    TripBeforeIs(cfg, scripts, i, j);
    TripBeforeIs(cfg, scripts, i, |scripts|);
  }

  lemma {:induction false} TripBeforeIs(cfg: Config, scripts: seq<StageScript>, i: nat, n: nat)
    requires ValidConfig(cfg) && i < n <= |scripts| == |cfg.stages| && cfg.roundTripAfter == Some(cfg.stages[i])
    ensures TripBefore(cfg, scripts, n) == Some(scripts[i].roundTrip)
    decreases n
  {
    if i < n - 1 {
      TripBeforeIs(cfg, scripts, i, n - 1);
    }
  }

  /** A run that ends normally has a clean history as a whole, not just stage by stage. */
  lemma NormalEndHasCleanHistory(cfg: Config, original: string, prepare: Outcome, scripts: seq<StageScript>,
      finalSummaryOk: bool)
    requires |scripts| == |cfg.stages| && Run(cfg, original, prepare, scripts, finalSummaryOk).outcome.Works?
    ensures CompareInventoryHistory(Run(cfg, original, prepare, scripts, finalSummaryOk).state.inventories, cfg.policy)
            == []
  {
    RunIsSafe(cfg, original, prepare, scripts, finalSummaryOk);
    var inventories := Run(cfg, original, prepare, scripts, finalSummaryOk).state.inventories;
    AllStagesPassIff(inventories, cfg.policy);
  }

  // ---------- the program ----------

  class MigrationUpgradeRunner {
    const cfg: Config
    var results: seq<Result>
    var inventories: seq<Inventory>
    var database: string
    var snapshotDatabase: Option<string>
    var snapshotStage: Option<string>
    var expectedFixture: Option<string>
    ghost var recorded: seq<string>
    ghost var drops: seq<string>
    ghost var used: seq<string>

    ghost function Now(): State
      reads this
    {
      State(results, inventories, database, snapshotDatabase, snapshotStage, expectedFixture, recorded, drops, used)
    }

    constructor (cfg: Config, database: string)
      ensures this.cfg == cfg && Now() == Initial(database)
    {
      this.cfg, this.database := cfg, database;
      results, inventories, snapshotDatabase, snapshotStage, expectedFixture := [], [], None, None, None;
      recorded, drops, used := [], [], [];
    }

    method RunSnapshotRoundTrip(stage: string, t: RoundTripScript) returns (outcome: Outcome)
      modifies this
      ensures Ended(Now(), outcome) == RoundTrip(old(Now()), stage, t)
    {
      if !t.name.Name? || !t.environmentOk {
        return Raises;
      }
      snapshotDatabase, snapshotStage := Some(t.name.database), Some(stage);
      recorded := recorded + [t.name.database];
      if !t.commands.Works? {
        return t.commands;
      }
      var passed := t.source == t.restored;
      if !t.diagnostic.Works? {
        return t.diagnostic;
      }
      if !passed || !t.dumpRemoved {
        return Raises;
      }
      expectedFixture := Some(t.source.fixture);
      database := t.name.database;
      return Works;
    }

    method RunStageBody(stage: string, sc: StageScript) returns (outcome: Outcome)
      modifies this
      ensures Ended(Now(), outcome) == StageBody(cfg, old(Now()), stage, sc, CheckStage(cfg, old(Now()), stage, sc))
    {
      outcome := RunLoggedBody(stage, sc);
      if !sc.logClosed {
        outcome := Escapes;
      }
    }

    method RunLoggedBody(stage: string, sc: StageScript) returns (outcome: Outcome)
      modifies this
      ensures Ended(Now(), outcome) == LoggedBody(cfg, old(Now()), stage, sc, CheckStage(cfg, old(Now()), stage, sc))
    {
      used := used + [database];
      if !sc.commands.Works? {
        return sc.commands;
      }
      inventories := inventories + [sc.inventory.(stage := stage)];
      if !sc.provenanceOk {
        return Raises;
      }
      var violations, _ := InventoryEvents(inventories, cfg.policy);
      if |OfStage(violations, stage)| > 0 {
        return Raises;
      }
      if cfg.roundTripAfter == Some(stage) {
        outcome := RunSnapshotRoundTrip(stage, sc.roundTrip);
      } else {
        outcome := VerifyFixture(sc);
      }
    }

    method VerifyFixture(sc: StageScript) returns (outcome: Outcome)
      ensures outcome == FixtureCheck(expectedFixture, sc)
    {
      if expectedFixture.None? {
        return Works;
      }
      if !sc.fixtureRead.Works? {
        return sc.fixtureRead;
      }
      return if sc.fixture != expectedFixture.value then Raises else Works;
    }

    method CleanupSnapshotDatabase()
      modifies this
      ensures Now() == Cleanup(old(Now()))
    {
      if snapshotDatabase.None? || snapshotStage.None? {
        return;
      }
      drops := drops + [snapshotDatabase.value];
      snapshotDatabase := None;
    }

    method SetStatus(status: Status)
      requires results != []
      modifies this
      ensures Now() == WithStatus(old(Now()), status)
    {
      var last := |results| - 1;
      results := results[..last] + [results[last].(status := status)];
    }

    method RunOneStage(stage: string, sc: StageScript) returns (outcome: Outcome)
      modifies this
      ensures Ended(Now(), outcome) == RunStage(cfg, old(Now()), stage, sc, CheckStage(cfg, old(Now()), stage, sc))
    {
      if sc.sha.Escapes? {
        return Escapes;
      }
      if sc.sha.Raises? {
        results := results + [Result(stage, Failed)];
        CleanupSnapshotDatabase();
        return Raises;
      }
      results := results + [Result(stage, Pending)];
      outcome := RunStageBody(stage, sc);
      match outcome
      case Escapes =>
      case Raises =>
        SetStatus(Failed);
        CleanupSnapshotDatabase();
      case Works =>
        SetStatus(if sc.summaryOk then Passed else Failed);
        if !sc.summaryOk {
          CleanupSnapshotDatabase();
          outcome := Raises;
        }
    }

    method RunAll(prepare: Outcome, scripts: seq<StageScript>, finalSummaryOk: bool) returns (outcome: Outcome)
      requires |scripts| == |cfg.stages|
      requires Now() == Initial(database)
      modifies this
      ensures Ended(Now(), outcome) == Run(cfg, old(database), prepare, scripts, finalSummaryOk)
    {
      if !ValidConfig(cfg) {
        return Raises;
      }
      if !prepare.Works? {
        return prepare;
      }
      ghost var start := Now();
      for i := 0 to |cfg.stages|
        invariant RunFrom(cfg, Now(), cfg.stages[i..], scripts[i..], finalSummaryOk)
                  == RunFrom(cfg, start, cfg.stages, scripts, finalSummaryOk)
      {
        assert cfg.stages[i..][1..] == cfg.stages[i + 1..] && scripts[i..][1..] == scripts[i + 1..];
        outcome := RunOneStage(cfg.stages[i], scripts[i]);
        if !outcome.Works? {
          return;
        }
      }
      CleanupSnapshotDatabase();
      outcome := if finalSummaryOk then Works else Raises;
    }
  }
}

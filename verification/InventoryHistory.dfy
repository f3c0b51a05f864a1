/** The migration-inventory history checker of tools/scripts/migration_upgrade.py.

    The checker folds over the stage inventories, remembering where each enforced migration was first seen
    applied.  It is compared here with a description that looks at the whole history at once. */
module InventoryHistory {
  import opened Sets
  import opened StringOrder
  import opened Wrappers

  type Migration = string
  type Fingerprint = string

  datatype Inventory = Inventory(stage: string, available: map<Migration, Fingerprint>, applied: set<Migration>)

  datatype Policy = Policy(enforcedApps: set<string>, allowedMissing: set<Migration>,
      allowedFingerprintChanges: set<Migration>)

  datatype Kind = Missing | Changed

  datatype Violation = Violation(
    kind: Kind, stage: string, migration: Migration, firstStage: string,
    firstFingerprint: Option<Fingerprint>, currentFingerprint: Option<Fingerprint>)

  datatype First = First(stage: string, fingerprint: Option<Fingerprint>)

  // ---------- the checker ----------

  /** `migration.split(".", 1)[0]` */
  function AppLabel(m: Migration): string {
    if m == "" || m[0] == '.' then "" else [m[0]] + AppLabel(m[1..])
  }

  predicate Enforced(policy: Policy, m: Migration) {
    AppLabel(m) in policy.enforcedApps
  }

  function Lookup(inv: Inventory, m: Migration): Option<Fingerprint> {
    if m in inv.available then Some(inv.available[m]) else None
  }

  /** `setdefault` for each of the given applied migrations that is enforced. */
  function Observe(seen: map<Migration, First>, inv: Inventory, policy: Policy,
      applied: set<Migration>): map<Migration, First>
  {
    map m | m in seen.Keys + applied && (m in seen || Enforced(policy, m)) ::
      if m in seen then seen[m] else First(inv.stage, Lookup(inv, m))
  }

  function Seen(invs: seq<Inventory>, policy: Policy): map<Migration, First> {
    if invs == [] then map[]
    else
      var last := invs[|invs| - 1];
      Observe(Seen(invs[..|invs| - 1], policy), last, policy, last.applied)
  }

  /** What a migration first seen as `first` has wrong with it in a later inventory. */
  function Fault(first: First, inv: Inventory, m: Migration): Option<Kind> {
    match Lookup(inv, m)
    case None => Some(Missing)
    case Some(current) => if first.fingerprint.Some? && current != first.fingerprint.value then Some(Changed) else None
  }

  predicate Allowed(policy: Policy, kind: Kind, m: Migration) {
    match kind
    case Missing => m in policy.allowedMissing
    case Changed => m in policy.allowedFingerprintChanges
  }

  function Report(first: First, inv: Inventory, policy: Policy, m: Migration): seq<Violation> {
    match Fault(first, inv, m)
    case None => []
    case Some(kind) =>
      if Allowed(policy, kind, m) then []
      else [Violation(kind, inv.stage, m, first.stage, first.fingerprint, Lookup(inv, m))]
  }

  const ALLOWED_MISSING := ": allowed missing migration "
  const ALLOWED_CHANGE := ": allowed fingerprint change for migration "

  function ExceptionText(stage: string, kind: Kind, m: Migration): string {
    stage + (match kind case Missing => ALLOWED_MISSING case Changed => ALLOWED_CHANGE) + m
  }

  function Excuse(first: First, inv: Inventory, policy: Policy, m: Migration): set<string> {
    match Fault(first, inv, m)
    case None => {}
    case Some(kind) => if Allowed(policy, kind, m) then {ExceptionText(inv.stage, kind, m)} else {}
  }

  function Reports(seen: map<Migration, First>, inv: Inventory, policy: Policy, ms: seq<Migration>): seq<Violation>
    requires forall m :: m in ms ==> m in seen
  {
    if ms == [] then [] else Report(seen[ms[0]], inv, policy, ms[0]) + Reports(seen, inv, policy, ms[1..])
  }

  function Excuses(seen: map<Migration, First>, inv: Inventory, policy: Policy, ms: seq<Migration>): set<string>
    requires forall m :: m in ms ==> m in seen
  {
    if ms == [] then {} else Excuse(seen[ms[0]], inv, policy, ms[0]) + Excuses(seen, inv, policy, ms[1..])
  }

  lemma SortedKeysAreKeys(seen: map<Migration, First>)
    ensures forall m :: m in SortedSet(seen.Keys) <==> m in seen
    ensures StrictlySorted(SortedSet(seen.Keys))
  {
    SortedSetSorts(seen.Keys);
  }

  /** The violations of the last stage of a history. */
  function StageViolations(invs: seq<Inventory>, policy: Policy): seq<Violation>
    requires invs != []
  {
    var seen := Seen(invs, policy);
    SortedKeysAreKeys(seen);
    Reports(seen, invs[|invs| - 1], policy, SortedSet(seen.Keys))
  }

  function StageExcuses(invs: seq<Inventory>, policy: Policy): set<string>
    requires invs != []
  {
    var seen := Seen(invs, policy);
    SortedKeysAreKeys(seen);
    Excuses(seen, invs[|invs| - 1], policy, SortedSet(seen.Keys))
  }

  function CompareInventoryHistory(invs: seq<Inventory>, policy: Policy): seq<Violation> {
    if invs == [] then [] else CompareInventoryHistory(invs[..|invs| - 1], policy) + StageViolations(invs, policy)
  }

  function AllExcuses(invs: seq<Inventory>, policy: Policy): set<string> {
    if invs == [] then {} else AllExcuses(invs[..|invs| - 1], policy) + StageExcuses(invs, policy)
  }

  function FindPolicyExceptions(invs: seq<Inventory>, policy: Policy): seq<string> {
    SortedSet(AllExcuses(invs, policy))
  }

  // ---------- the same, said about the whole history ----------

  /** Stage i is the first whose database has the migration applied. */
  ghost predicate FirstAppliedAt(invs: seq<Inventory>, m: Migration, i: nat) {
    i < |invs| && m in invs[i].applied && forall j :: 0 <= j < i ==> m !in invs[j].applied
  }

  /** The migration belongs to an enforced app: the text before its first dot, or all of it, names one. */
  ghost predicate IsEnforced(policy: Policy, m: Migration) {
    exists app :: app in policy.enforcedApps && OfApp(m, app)
  }

  predicate OfApp(m: Migration, app: string) {
    '.' !in app && (m == app || app + "." <= m)
  }

  lemma {:induction false} OfAppIff(m: Migration, app: string)
    ensures OfApp(m, app) <==> app == AppLabel(m)
    decreases |m|
  {
    if m == "" || m[0] == '.' {
      if app == "" {
        assert m != "" ==> app + "." == "." && "." <= m;
      } else {
        assert app + "." <= m ==> app[0] == m[0] && app[0] in app;
      }
    } else if app != "" {
      var rest := app[1..];
      OfAppIff(m[1..], rest);
      assert app == [app[0]] + rest && m == [m[0]] + m[1..];
      assert '.' in app <==> app[0] == '.' || '.' in rest;
      assert app + "." == [app[0]] + (rest + ".");
      assert app + "." <= m <==> app[0] == m[0] && rest + "." <= m[1..];
    } else {
      assert app + "." == ".";
    }
  }

  lemma EnforcedIff(policy: Policy, m: Migration)
    ensures Enforced(policy, m) <==> IsEnforced(policy, m)
  {
    OfAppIff(m, AppLabel(m));
    forall app | OfApp(m, app) ensures app == AppLabel(m) {
      OfAppIff(m, app);
    }
  }

  /** What the stage has of the migration. */
  predicate Has(inv: Inventory, m: Migration, fingerprint: Option<Fingerprint>) {
    if fingerprint.None? then m !in inv.available
    else m in inv.available && inv.available[m] == fingerprint.value
  }

  /** An enforced migration is applied from stage i on, and stage s is i or later. */
  ghost predicate Watched(invs: seq<Inventory>, policy: Policy, m: Migration, i: nat, s: nat) {
    IsEnforced(policy, m) && FirstAppliedAt(invs, m, i) && i <= s < |invs|
  }

  /** At stage s, an enforced migration applied from stage i on is absent, or differs from what stage i had,
      without the policy allowing it; v is the record of that. */
  ghost predicate Breach(invs: seq<Inventory>, policy: Policy, m: Migration, i: nat, s: nat, v: Violation) {
    && Watched(invs, policy, m, i, s)
    && v.stage == invs[s].stage && v.migration == m && v.firstStage == invs[i].stage
    && Has(invs[i], m, v.firstFingerprint) && Has(invs[s], m, v.currentFingerprint)
    && if v.currentFingerprint.None? then v.kind == Missing && m !in policy.allowedMissing
       else v.kind == Changed && m !in policy.allowedFingerprintChanges && v.firstFingerprint.Some?
            && v.firstFingerprint != v.currentFingerprint
  }

  /** At stage s the policy allows what would be a breach, and t says so. */
  ghost predicate Excused(invs: seq<Inventory>, policy: Policy, m: Migration, i: nat, s: nat, t: string) {
    && Watched(invs, policy, m, i, s)
    && if m !in invs[s].available
       then m in policy.allowedMissing && t == invs[s].stage + ": allowed missing migration " + m
       else
         && m in policy.allowedFingerprintChanges && m in invs[i].available
         && invs[i].available[m] != invs[s].available[m]
         && t == invs[s].stage + ": allowed fingerprint change for migration " + m
  }

  lemma FirstAppliedInPrefix(invs: seq<Inventory>, k: nat, m: Migration, i: nat)
    requires k <= |invs|
    ensures FirstAppliedAt(invs[..k], m, i) <==> FirstAppliedAt(invs, m, i) && i < k
  {
    assert forall j :: 0 <= j < k ==> invs[..k][j] == invs[j];
  }

  /** The fold remembers exactly the enforced migrations applied so far, with the stage and fingerprint of
      their first application. */
  lemma {:induction false} SeenIsFirst(invs: seq<Inventory>, policy: Policy, m: Migration)
    ensures m in Seen(invs, policy) <==> IsEnforced(policy, m) && exists i: nat :: FirstAppliedAt(invs, m, i)
    ensures forall i: nat :: m in Seen(invs, policy) && FirstAppliedAt(invs, m, i) ==>
              var first := Seen(invs, policy)[m];
              first.stage == invs[i].stage && Has(invs[i], m, first.fingerprint)
    decreases |invs|
  {
    EnforcedIff(policy, m);
    if invs != [] {
      var n := |invs| - 1;
      SeenIsFirst(invs[..n], policy, m);
      forall i: nat ensures FirstAppliedAt(invs[..n], m, i) <==> FirstAppliedAt(invs, m, i) && i < n {
        FirstAppliedInPrefix(invs, n, m, i);
      }
      if i: nat :| FirstAppliedAt(invs[..n], m, i) {
        assert FirstAppliedAt(invs, m, i);
        assert invs[..n][i] == invs[i];
      } else {
        NotAppliedBefore(invs[..n], m);
        assert forall j :: 0 <= j < n ==> invs[..n][j] == invs[j];
        assert m in invs[n].applied <==> FirstAppliedAt(invs, m, n);
      }
    }
  }

  lemma {:induction false} NotAppliedBefore(invs: seq<Inventory>, m: Migration)
    requires !exists i: nat :: FirstAppliedAt(invs, m, i)
    ensures forall j :: 0 <= j < |invs| ==> m !in invs[j].applied
    decreases |invs|
  {
    if invs != [] {
      var n := |invs| - 1;
      forall i: nat ensures !FirstAppliedAt(invs[..n], m, i) {
        FirstAppliedInPrefix(invs, n, m, i);
      }
      NotAppliedBefore(invs[..n], m);
      assert forall j :: 0 <= j < n ==> invs[..n][j] == invs[j];
      assert !FirstAppliedAt(invs, m, n);
    }
  }

  lemma {:induction false} ReportsIff(seen: map<Migration, First>, inv: Inventory, policy: Policy, ms: seq<Migration>,
      v: Violation)
    requires forall m :: m in ms ==> m in seen
    ensures v in Reports(seen, inv, policy, ms) <==>
            v.migration in ms && v in Report(seen[v.migration], inv, policy, v.migration)
    decreases |ms|
  {
    if ms != [] {
      ReportsIff(seen, inv, policy, ms[1..], v);
    }
  }

  /** One stage: a violation is reported exactly when it is a breach at that stage. */
  lemma StageViolationsIff(invs: seq<Inventory>, policy: Policy, last: nat, v: Violation)
    requires |invs| == last + 1
    ensures v in StageViolations(invs, policy) <==> exists i: nat :: Breach(invs, policy, v.migration, i, last, v)
  {
    var seen, m := Seen(invs, policy), v.migration;
    SortedKeysAreKeys(seen);
    ReportsIff(seen, invs[|invs| - 1], policy, SortedSet(seen.Keys), v);
    SeenIsFirst(invs, policy, m);
    ReportedIff(invs, policy, last, v);
  }

  lemma ReportedIff(invs: seq<Inventory>, policy: Policy, last: nat, v: Violation)
    requires |invs| == last + 1
    ensures v.migration in Seen(invs, policy)
              && v in Report(Seen(invs, policy)[v.migration], invs[last], policy, v.migration)
            <==> exists i: nat :: Breach(invs, policy, v.migration, i, last, v)
  {
    SeenIsFirst(invs, policy, v.migration);
    if v.migration in Seen(invs, policy) {
      var i: nat :| FirstAppliedAt(invs, v.migration, i);
      assert Breach(invs, policy, v.migration, i, last, v) <==>
             v in Report(Seen(invs, policy)[v.migration], invs[last], policy, v.migration);
    }
    if i: nat :| Breach(invs, policy, v.migration, i, last, v) {
      assert FirstAppliedAt(invs, v.migration, i);
    }
  }

  /** Whole history: the reported violations are exactly the breaches. */
  lemma {:induction false} HistoryIff(invs: seq<Inventory>, policy: Policy, v: Violation)
    ensures v in CompareInventoryHistory(invs, policy) <==>
            exists i: nat, s: nat :: Breach(invs, policy, v.migration, i, s, v)
    decreases |invs|
  {
    if invs != [] {
      var n := |invs| - 1;
      HistoryIff(invs[..n], policy, v);
      StageViolationsIff(invs, policy, n, v);
      forall i: nat, s: nat
        ensures Breach(invs[..n], policy, v.migration, i, s, v) <==>
        Breach(invs, policy, v.migration, i, s, v) && s < n
      {
        FirstAppliedInPrefix(invs, n, v.migration, i);
      }
    }
  }

  // ---------- order ----------

  /** The stage whose segment of the report holds position p. */
  function Rank(invs: seq<Inventory>, policy: Policy, p: nat): nat
    requires p < |CompareInventoryHistory(invs, policy)|
    decreases |invs|
  {
    if p < |CompareInventoryHistory(invs[..|invs| - 1], policy)| then Rank(invs[..|invs| - 1], policy, p)
        else |invs| - 1
  }

  lemma {:induction false} ReportsSorted(seen: map<Migration, First>, inv: Inventory, policy: Policy,
      ms: seq<Migration>)
    requires StrictlySorted(ms) && forall m :: m in ms ==> m in seen
    ensures var vs := Reports(seen, inv, policy, ms);
            && (forall i, j :: 0 <= i < j < |vs| ==> Less(vs[i].migration, vs[j].migration))
            && (forall v :: v in vs ==> v.stage == inv.stage && v.migration in ms)
    decreases |ms|
  {
    if ms != [] {
      ReportsSorted(seen, inv, policy, ms[1..]);
      var rest := Reports(seen, inv, policy, ms[1..]);
      forall v | v in rest ensures Less(ms[0], v.migration) {
        var k :| 0 <= k < |ms[1..]| && ms[1..][k] == v.migration;
        assert ms[k + 1] == v.migration;
      }
      var head := Report(seen[ms[0]], inv, policy, ms[0]);
      var vs := Reports(seen, inv, policy, ms);
      assert vs == head + rest && |head| <= 1;
      forall i, j | 0 <= i < j < |vs| ensures Less(vs[i].migration, vs[j].migration) {
        assert vs[j] == rest[j - |head|] && rest[j - |head|] in rest;
        assert i >= |head| ==> vs[i] == rest[i - |head|];
      }
    }
  }

  lemma StageViolationsSorted(invs: seq<Inventory>, policy: Policy)
    requires invs != []
    ensures var vs := StageViolations(invs, policy);
            && (forall i, j :: 0 <= i < j < |vs| ==> Less(vs[i].migration, vs[j].migration))
            && (forall v :: v in vs ==> v.stage == invs[|invs| - 1].stage)
  {
    var seen := Seen(invs, policy);
    SortedKeysAreKeys(seen);
    ReportsSorted(seen, invs[|invs| - 1], policy, SortedSet(seen.Keys));
  }

  /** The report goes through the stages in order and within a stage through the migrations in order, so
      no (stage, migration) pair is reported twice. */
  lemma {:induction false} HistoryIsOrdered(invs: seq<Inventory>, policy: Policy, p: nat, q: nat)
    requires p < q < |CompareInventoryHistory(invs, policy)|
    ensures var vs := CompareInventoryHistory(invs, policy);
            && Rank(invs, policy, p) < |invs| && invs[Rank(invs, policy, p)].stage == vs[p].stage
            && (|| Rank(invs, policy, p) < Rank(invs, policy, q)
                || (Rank(invs, policy, p) == Rank(invs, policy, q) && Less(vs[p].migration, vs[q].migration)))
    decreases |invs|
  {
    var n := |invs| - 1;
    var before := CompareInventoryHistory(invs[..n], policy);
    var segment := StageViolations(invs, policy);
    StageViolationsSorted(invs, policy);
    if q < |before| {
      HistoryIsOrdered(invs[..n], policy, p, q);
    } else if p < |before| {
      RankIsStage(invs[..n], policy, p);
    } else {
      assert segment[p - |before|] in segment;
    }
  }

  lemma {:induction false} RankIsStage(invs: seq<Inventory>, policy: Policy, p: nat)
    requires p < |CompareInventoryHistory(invs, policy)|
    ensures Rank(invs, policy, p) < |invs|
    ensures invs[Rank(invs, policy, p)].stage == CompareInventoryHistory(invs, policy)[p].stage
    decreases |invs|
  {
    var n := |invs| - 1;
    var before := CompareInventoryHistory(invs[..n], policy);
    if p < |before| {
      RankIsStage(invs[..n], policy, p);
    } else {
      StageViolationsSorted(invs, policy);
      assert StageViolations(invs, policy)[p - |before|] in StageViolations(invs, policy);
    }
  }

  // ---------- checking stage by stage ----------

  function OfStage(vs: seq<Violation>, stage: string): seq<Violation> {
    if vs == [] then [] else (if vs[0].stage == stage then [vs[0]] else []) + OfStage(vs[1..], stage)
  }

  ghost predicate DistinctStages(invs: seq<Inventory>) {
    forall i, j :: 0 <= i < j < |invs| ==> invs[i].stage != invs[j].stage
  }

  lemma {:induction false} OfStageAppend(a: seq<Violation>, b: seq<Violation>, stage: string)
    requires forall v :: v in a ==> v.stage != stage
    requires forall v :: v in b ==> v.stage == stage
    ensures OfStage(a + b, stage) == b
    decreases |a| + |b|
  {
    if a != [] {
      assert (a + b)[1..] == a[1..] + b;
      OfStageAppend(a[1..], b, stage);
    } else if b != [] {
      assert a + b == b;
      assert [] + b[1..] == b[1..];
      OfStageAppend([], b[1..], stage);
      assert b == [b[0]] + b[1..];
    }
  }

  /** With distinct stage names, what the runner keeps of the report for the prefix ending in a stage is
      that stage's own segment. */
  lemma IncrementalIsSegment(invs: seq<Inventory>, policy: Policy)
    requires invs != [] && DistinctStages(invs)
    ensures OfStage(CompareInventoryHistory(invs, policy), invs[|invs| - 1].stage) == StageViolations(invs, policy)
  {
    var n := |invs| - 1;
    var before := CompareInventoryHistory(invs[..n], policy);
    forall v | v in before ensures v.stage != invs[n].stage {
      var p :| 0 <= p < |before| && before[p] == v;
      RankIsStage(invs[..n], policy, p);
    }
    StageViolationsSorted(invs, policy);
    OfStageAppend(before, StageViolations(invs, policy), invs[n].stage);
  }

  /** The check the runner makes after collecting the inventory of stage s. */
  predicate StagePasses(invs: seq<Inventory>, policy: Policy, s: nat)
    requires s < |invs|
  {
    OfStage(CompareInventoryHistory(invs[..s + 1], policy), invs[s].stage) == []
  }

  ghost predicate AllStagesPass(invs: seq<Inventory>, policy: Policy) {
    forall s :: 0 <= s < |invs| ==> StagePasses(invs, policy, s)
  }

  lemma AllStagesPassStep(invs: seq<Inventory>, policy: Policy, n: nat)
    requires |invs| == n + 1
    ensures AllStagesPass(invs, policy) <==> AllStagesPass(invs[..n], policy) && StagePasses(invs, policy, n)
  {
    forall s | 0 <= s < n ensures StagePasses(invs[..n], policy, s) == StagePasses(invs, policy, s) {
      assert invs[..n][..s + 1] == invs[..s + 1];
    }
    if AllStagesPass(invs, policy) {
      assert StagePasses(invs, policy, n);
      forall s | 0 <= s < n ensures StagePasses(invs[..n], policy, s) {
        assert StagePasses(invs, policy, s);
      }
    }
  }

  /** Every stage passes its own check exactly when the comparison of the whole history is empty. */
  lemma {:induction false} AllStagesPassIff(invs: seq<Inventory>, policy: Policy)
    requires DistinctStages(invs)
    ensures AllStagesPass(invs, policy) <==> CompareInventoryHistory(invs, policy) == []
    decreases |invs|
  {
    if invs != [] {
      var n := |invs| - 1;
      AllStagesPassIff(invs[..n], policy);
      AllStagesPassStep(invs, policy, n);
      IncrementalIsSegment(invs, policy);
      assert invs[..n + 1] == invs;
    }
  }

  // ---------- policy exceptions ----------

  lemma ExceptionTextNamesStage(stage: string, kind: Kind, m: Migration)
    ensures stage + ":" <= ExceptionText(stage, kind, m)
  {
    var text := ExceptionText(stage, kind, m);
    var tail := match kind case Missing => ALLOWED_MISSING case Changed => ALLOWED_CHANGE;
    assert tail[0] == ':';
    assert text[|stage|] == (stage + tail)[|stage|] == tail[0];
    assert text[..|stage| + 1] == stage + ":";
  }

  lemma {:induction false} ExcusesText(seen: map<Migration, First>, inv: Inventory, policy: Policy, ms: seq<Migration>,
      t: string)
    requires (forall m :: m in ms ==> m in seen) && t in Excuses(seen, inv, policy, ms)
    ensures inv.stage + ":" <= t
    decreases |ms|
  {
    if t in Excuse(seen[ms[0]], inv, policy, ms[0]) {
      ExceptionTextNamesStage(inv.stage, Fault(seen[ms[0]], inv, ms[0]).value, ms[0]);
    } else {
      ExcusesText(seen, inv, policy, ms[1..], t);
    }
  }

  lemma PrefixDecides(a: string, b: string, t: string)
    requires ':' !in a && ':' !in b && a + ":" <= t && b + ":" <= t
    ensures a == b
  {
    assert t[|a|] == ':' && t[|b|] == ':';
    assert forall i :: 0 <= i < |a| ==> t[i] == (a + ":")[i] == a[i] && a[i] in a;
    assert forall i :: 0 <= i < |b| ==> t[i] == (b + ":")[i] == b[i] && b[i] in b;
    assert |a| == |b|;
    assert a == t[..|a|];
  }

  /** The runner selects a stage's exceptions by the text before the colon.  Stage names hold no colon, so
      with distinct names it selects exactly the exceptions of that stage. */
  lemma {:induction false} SelectedExceptions(invs: seq<Inventory>, policy: Policy, t: string)
    requires invs != [] && DistinctStages(invs) && forall inv :: inv in invs ==> ':' !in inv.stage
    ensures t in FindPolicyExceptions(invs, policy) && invs[|invs| - 1].stage + ":" <= t <==>
            t in StageExcuses(invs, policy)
  {
    var n := |invs| - 1;
    SortedSetSorts(AllExcuses(invs, policy));
    SortedKeysAreKeys(Seen(invs, policy));
    if t in StageExcuses(invs, policy) {
      ExcusesText(Seen(invs, policy), invs[n], policy, SortedSet(Seen(invs, policy).Keys), t);
    } else if t in AllExcuses(invs[..n], policy) && invs[n].stage + ":" <= t {
      var s := ExcuseHasStage(invs[..n], policy, t);
      assert invs[s] in invs && invs[n] in invs;
      PrefixDecides(invs[s].stage, invs[n].stage, t);
    }
  }

  lemma {:induction false} ExcuseHasStage(invs: seq<Inventory>, policy: Policy, t: string) returns (s: nat)
    requires t in AllExcuses(invs, policy)
    ensures s < |invs| && invs[s].stage + ":" <= t
    decreases |invs|
  {
    var n := |invs| - 1;
    if t in AllExcuses(invs[..n], policy) {
      s := ExcuseHasStage(invs[..n], policy, t);
    } else {
      SortedKeysAreKeys(Seen(invs, policy));
      ExcusesText(Seen(invs, policy), invs[n], policy, SortedSet(Seen(invs, policy).Keys), t);
      s := n;
    }
  }

  lemma {:induction false} ExcusesIff(seen: map<Migration, First>, inv: Inventory, policy: Policy, ms: seq<Migration>,
      t: string)
    requires forall m :: m in ms ==> m in seen
    ensures t in Excuses(seen, inv, policy, ms) <==> exists m :: m in ms && t in Excuse(seen[m], inv, policy, m)
    decreases |ms|
  {
    if ms != [] {
      ExcusesIff(seen, inv, policy, ms[1..], t);
    }
  }

  lemma ExcuseIs(invs: seq<Inventory>, policy: Policy, m: Migration, i: nat, t: string)
    requires invs != [] && m in Seen(invs, policy) && FirstAppliedAt(invs, m, i)
    ensures t in Excuse(Seen(invs, policy)[m], invs[|invs| - 1], policy, m) <==>
            Excused(invs, policy, m, i, |invs| - 1, t)
  {
    SeenIsFirst(invs, policy, m);
    var first, inv := Seen(invs, policy)[m], invs[|invs| - 1];
    assert first.fingerprint == Lookup(invs[i], m);
  }

  lemma StageExcusesIff(invs: seq<Inventory>, policy: Policy, last: nat, t: string)
    requires |invs| == last + 1
    ensures t in StageExcuses(invs, policy) <==> exists m, i: nat :: Excused(invs, policy, m, i, last, t)
  {
    var seen := Seen(invs, policy);
    SortedKeysAreKeys(seen);
    ExcusesIff(seen, invs[last], policy, SortedSet(seen.Keys), t);
    if t in StageExcuses(invs, policy) {
      var m :| m in seen && t in Excuse(seen[m], invs[last], policy, m);
      SeenIsFirst(invs, policy, m);
      var i: nat :| FirstAppliedAt(invs, m, i);
      ExcuseIs(invs, policy, m, i, t);
      assert Excused(invs, policy, m, i, last, t);
    }
    if m, i: nat :| Excused(invs, policy, m, i, last, t) {
      SeenIsFirst(invs, policy, m);
      assert FirstAppliedAt(invs, m, i);
      ExcuseIs(invs, policy, m, i, t);
    }
  }

  /** The exceptions are sorted, without repetition, and exactly what the policy allows in some stage. */
  lemma {:induction false} ExceptionsIff(invs: seq<Inventory>, policy: Policy, t: string)
    ensures StrictlySorted(FindPolicyExceptions(invs, policy))
    ensures t in FindPolicyExceptions(invs, policy) <==> exists m, i: nat, s: nat :: Excused(invs, policy, m, i, s, t)
    decreases |invs|
  {
    SortedSetSorts(AllExcuses(invs, policy));
    if invs != [] {
      var n := |invs| - 1;
      SortedSetSorts(AllExcuses(invs[..n], policy));
      ExceptionsIff(invs[..n], policy, t);
      StageExcusesIff(invs, policy, n, t);
      forall m, i: nat, s: nat
        ensures Excused(invs[..n], policy, m, i, s, t) <==> Excused(invs, policy, m, i, s, t) && s < n
      {
        FirstAppliedInPrefix(invs, n, m, i);
      }
    }
  }

  // ---------- the program ----------

  lemma ObserveStep(seen: map<Migration, First>, inv: Inventory, policy: Policy, done: set<Migration>, m: Migration)
    ensures var before := Observe(seen, inv, policy, done);
            Observe(seen, inv, policy, done + {m}) ==
            if Enforced(policy, m) && m !in before then before[m := First(inv.stage, Lookup(inv, m))] else before
  {
  }

  method ObserveApplied(seen: map<Migration, First>, inv: Inventory, policy: Policy)
      returns (after: map<Migration, First>)
    ensures after == Observe(seen, inv, policy, inv.applied)
  {
    var applied := SortedSet(inv.applied);
    SortedSetSorts(inv.applied);
    ghost var done: set<Migration> := {};
    after := seen;
    assert after == Observe(seen, inv, policy, done);
    for i := 0 to |applied|
      invariant forall m :: m in done <==> m in applied[..i]
      invariant after == Observe(seen, inv, policy, done)
    {
      assert applied[..i + 1] == applied[..i] + [applied[i]];
      ObserveStep(seen, inv, policy, done, applied[i]);
      if Enforced(policy, applied[i]) && applied[i] !in after {
        after := after[applied[i] := First(inv.stage, Lookup(inv, applied[i]))];
      }
      done := done + {applied[i]};
    }
    assert applied[..|applied|] == applied;
    SameElements(done, inv.applied);
  }

  method JudgeOne(first: First, inv: Inventory, policy: Policy, m: Migration)
      returns (violations: seq<Violation>, exceptions: set<string>)
    ensures violations == Report(first, inv, policy, m) && exceptions == Excuse(first, inv, policy, m)
  {
    violations, exceptions := [], {};
    var current := Lookup(inv, m);
    if current.None? {
      if m in policy.allowedMissing {
        exceptions := {ExceptionText(inv.stage, Missing, m)};
      } else {
        violations := [Violation(Missing, inv.stage, m, first.stage, first.fingerprint, None)];
      }
    } else if first.fingerprint.Some? && current != first.fingerprint {
      if m in policy.allowedFingerprintChanges {
        exceptions := {ExceptionText(inv.stage, Changed, m)};
      } else {
        violations := [Violation(Changed, inv.stage, m, first.stage, first.fingerprint, current)];
      }
    }
  }

  method JudgeSeen(seen: map<Migration, First>, inv: Inventory, policy: Policy, ms: seq<Migration>)
    returns (violations: seq<Violation>, exceptions: set<string>)
    requires forall m :: m in ms ==> m in seen
    ensures violations == Reports(seen, inv, policy, ms) && exceptions == Excuses(seen, inv, policy, ms)
  {
    violations, exceptions := [], {};
    for i := 0 to |ms|
      invariant violations + Reports(seen, inv, policy, ms[i..]) == Reports(seen, inv, policy, ms)
      invariant exceptions + Excuses(seen, inv, policy, ms[i..]) == Excuses(seen, inv, policy, ms)
    {
      assert ms[i..][1..] == ms[i + 1..];
      var vs, es := JudgeOne(seen[ms[i]], inv, policy, ms[i]);
      violations, exceptions := violations + vs, exceptions + es;
    }
  }

  method InventoryEvents(invs: seq<Inventory>, policy: Policy)
      returns (violations: seq<Violation>, exceptions: seq<string>)
    ensures violations == CompareInventoryHistory(invs, policy)
    ensures exceptions == FindPolicyExceptions(invs, policy)
  {
    var seen: map<Migration, First>, excuses: set<string> := map[], {};
    violations := [];
    for i := 0 to |invs|
      invariant seen == Seen(invs[..i], policy)
      invariant violations == CompareInventoryHistory(invs[..i], policy)
      invariant excuses == AllExcuses(invs[..i], policy)
    {
      assert invs[..i + 1][..i] == invs[..i];
      seen := ObserveApplied(seen, invs[i], policy);
      SortedKeysAreKeys(seen);
      var vs, es := JudgeSeen(seen, invs[i], policy, SortedSet(seen.Keys));
      violations, excuses := violations + vs, excuses + es;
    }
    assert invs[..|invs|] == invs;
    exceptions := SortedSet(excuses);
  }
}

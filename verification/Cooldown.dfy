/** The per-issuer cooldown of aap_gateway_api/utils/service_id_sync.py.

    The source keeps one bounded dictionary and prunes it in place.  Next and Admits say what one call
    does to it; RefAdmits is a second, stateless limiter that remembers every admission ever made.  The
    two are proved to take the same decision on every call sequence whose clock never goes back, and the
    throughput bounds are proved about that decision. */
module Cooldown {
  import opened Sets
  import opened Wrappers

  const COOLDOWN_SECONDS := 60.0
  const MAX_ENTRIES: nat := 1000

  type Issuer = string
  type Table = map<Issuer, real>

  datatype Call = Call(issuer: Issuer, now: real)

  // ---------- one call ----------

  function Pruned(t: Table, now: real): Table {
    map k | k in t && !(t[k] < now - COOLDOWN_SECONDS) :: t[k]
  }

  function AfterPrune(t: Table, now: real): Table {
    if |t| >= MAX_ENTRIES then Pruned(t, now) else t
  }

  predicate Admits(t: Table, c: Call) {
    var p := AfterPrune(t, c.now);
    |p| < MAX_ENTRIES && c.now - (if c.issuer in p then p[c.issuer] else 0.0) >= COOLDOWN_SECONDS
  }

  function Next(t: Table, c: Call): Table {
    var p := AfterPrune(t, c.now);
    if Admits(t, c) then p[c.issuer := c.now] else p
  }

  class CooldownTable {
    var table: Table

    constructor ()
      ensures table == map[]
    {
      table := map[];
    }

    /** True means the caller must skip this issuer. */
    method CheckAndSet(issuer: Issuer, now: real) returns (onCooldown: bool)
      modifies this
      ensures onCooldown == !Admits(old(table), Call(issuer, now))
      ensures table == Next(old(table), Call(issuer, now))
    {
      if |table| >= MAX_ENTRIES {
        var cutoff := now - COOLDOWN_SECONDS;
        var expired := set k | k in table && table[k] < cutoff;
        ghost var all := expired;
        while expired != {}
          invariant expired <= all
          invariant table == old(table) - (all - expired)
          decreases expired
        {
          var k :| k in expired;
          table := table - {k};
          expired := expired - {k};
        }
        assert table == Pruned(old(table), now);
        if |table| >= MAX_ENTRIES {
          return true;
        }
      }
      var last := if issuer in table then table[issuer] else 0.0;
      if now - last < COOLDOWN_SECONDS {
        return true;
      }
      table := table[issuer := now];
      return false;
    }
  }

  // ---------- whole runs ----------

  ghost predicate Nondecreasing(calls: seq<Call>) {
    forall i, j :: 0 <= i < j < |calls| ==> calls[i].now <= calls[j].now
  }

  /** The dictionary after a sequence of calls on a fresh process. */
  function Run(calls: seq<Call>): Table {
    if calls == [] then map[] else Next(Run(calls[..|calls| - 1]), calls[|calls| - 1])
  }

  predicate Admitted(calls: seq<Call>, i: nat)
    requires i < |calls|
  {
    Admits(Run(calls[..i]), calls[i])
  }

  // ---------- the limiter that remembers everything ----------

  function LastAdmission(calls: seq<Call>, k: Issuer): Option<real>
    decreases |calls|, 0
  {
    if calls == [] then None
    else
      var before, c := calls[..|calls| - 1], calls[|calls| - 1];
      if c.issuer == k && RefAdmits(before, c) then Some(c.now) else LastAdmission(before, k)
  }

  predicate IsFresh(calls: seq<Call>, k: Issuer, now: real)
    decreases |calls|, 1
  {
    var last := LastAdmission(calls, k);
    last.Some? && last.value >= now - COOLDOWN_SECONDS
  }

  /** The issuers whose latest admission is at most sixty seconds old. */
  function Fresh(calls: seq<Call>, now: real): set<Issuer>
    decreases |calls|, 2
  {
    set c | c in calls && IsFresh(calls, c.issuer, now) :: c.issuer
  }

  predicate RefAdmits(calls: seq<Call>, c: Call)
    decreases |calls|, 3
  {
    && |Fresh(calls, c.now)| < MAX_ENTRIES
    && c.now - LastAdmission(calls, c.issuer).GetOr(0.0) >= COOLDOWN_SECONDS
  }

  lemma {:induction false} LastAdmissionIsACall(calls: seq<Call>, k: Issuer)
    requires LastAdmission(calls, k).Some?
    ensures exists c :: c in calls && c.issuer == k && c.now == LastAdmission(calls, k).value
    ensures LastAdmission(calls, k).value >= COOLDOWN_SECONDS
  {
    var before, c := calls[..|calls| - 1], calls[|calls| - 1];
    assert c in calls;
    if c.issuer == k && RefAdmits(before, c) {
      if LastAdmission(before, k).Some? {
        LastAdmissionIsACall(before, k);
      }
    } else {
      LastAdmissionIsACall(before, k);
      var d :| d in before && d.issuer == k && d.now == LastAdmission(before, k).value;
      assert d in calls;
    }
  }

  lemma FreshIff(calls: seq<Call>, now: real, k: Issuer)
    ensures k in Fresh(calls, now) <==> IsFresh(calls, k, now)
  {
    if IsFresh(calls, k, now) {
      LastAdmissionIsACall(calls, k);
      var c :| c in calls && c.issuer == k && c.now == LastAdmission(calls, k).value;
    }
  }

  /** What the pruned dictionary still knows about the full history: every entry is the latest admission
      of its issuer, and what was forgotten is older than any cutoff still to come. */
  ghost predicate Agrees(t: Table, calls: seq<Call>, now: real) {
    && (forall k :: k in t ==> LastAdmission(calls, k) == Some(t[k]))
    && (forall k :: LastAdmission(calls, k).Some? && k !in t ==> LastAdmission(calls, k).value < now - COOLDOWN_SECONDS)
  }

  lemma PruneKeepsFresh(t: Table, calls: seq<Call>, now: real)
    requires Agrees(t, calls, now)
    ensures Agrees(AfterPrune(t, now), calls, now)
    ensures |AfterPrune(t, now)| < MAX_ENTRIES <==> |Fresh(calls, now)| < MAX_ENTRIES
    ensures |t| <= MAX_ENTRIES ==> |AfterPrune(t, now)| <= MAX_ENTRIES
  {
    forall k ensures k in Fresh(calls, now) <==> k in t && t[k] >= now - COOLDOWN_SECONDS {
      FreshIff(calls, now, k);
    }
    assert Fresh(calls, now) == Pruned(t, now).Keys;
    SubsetSize(Pruned(t, now).Keys, t.Keys);
    assert |Pruned(t, now)| == |Pruned(t, now).Keys| && |t| == |t.Keys|;
  }

  lemma DecisionsAgree(t: Table, calls: seq<Call>, c: Call)
    requires Agrees(t, calls, c.now)
    ensures Admits(t, c) == RefAdmits(calls, c)
  {
    PruneKeepsFresh(t, calls, c.now);
    var p := AfterPrune(t, c.now);
    if c.issuer !in p && LastAdmission(calls, c.issuer).Some? {
      LastAdmissionIsACall(calls, c.issuer);
    }
  }

  /** Run stays in agreement with the full history, whatever is pruned on the way. */
  lemma {:induction false} RunAgrees(calls: seq<Call>, now: real)
    requires Nondecreasing(calls)
    requires forall c :: c in calls ==> c.now <= now
    ensures Agrees(Run(calls), calls, now)
    ensures |Run(calls)| <= MAX_ENTRIES
  {
    if calls != [] {
      var before, c := calls[..|calls| - 1], calls[|calls| - 1];
      RunAgrees(before, c.now);
      DecisionsAgree(Run(before), before, c);
      PruneKeepsFresh(Run(before), before, c.now);
      var p, t := AfterPrune(Run(before), c.now), Run(calls);
      if Admits(Run(before), c) {
        assert t.Keys == p.Keys + {c.issuer};
        assert |t| == |t.Keys| && |p| == |p.Keys|;
      }
    }
  }

  /** The table never holds more than its cap. */
  lemma TableIsBounded(calls: seq<Call>)
    requires Nondecreasing(calls)
    ensures |Run(calls)| <= MAX_ENTRIES
  {
    if calls != [] {
      RunAgrees(calls, calls[|calls| - 1].now);
    }
  }

  /** The self-pruning dictionary decides every call exactly as the limiter with unbounded memory. */
  lemma RefinesFullMemory(calls: seq<Call>, i: nat)
    requires Nondecreasing(calls) && i < |calls|
    ensures Admitted(calls, i) == RefAdmits(calls[..i], calls[i])
  {
    RunAgrees(calls[..i], calls[i].now);
    DecisionsAgree(Run(calls[..i]), calls[..i], calls[i]);
  }

  // ---------- throughput ----------

  lemma {:induction false} LastAdmissionIsLate(calls: seq<Call>, i: nat)
    requires Nondecreasing(calls) && i < |calls| && RefAdmits(calls[..i], calls[i])
    ensures LastAdmission(calls, calls[i].issuer).Some?
    ensures LastAdmission(calls, calls[i].issuer).value >= calls[i].now
  {
    var before, c := calls[..|calls| - 1], calls[|calls| - 1];
    if i < |before| {
      assert before[..i] == calls[..i];
      LastAdmissionIsLate(before, i);
    }
  }

  /** Two admissions of one issuer are at least sixty seconds apart, despite pruning. */
  lemma AdmissionsAreSpaced(calls: seq<Call>, i: nat, j: nat)
    requires Nondecreasing(calls) && i < j < |calls|
    requires Admitted(calls, i) && Admitted(calls, j) && calls[i].issuer == calls[j].issuer
    ensures calls[j].now - calls[i].now >= COOLDOWN_SECONDS
  {
    RefinesFullMemory(calls, i);
    RefinesFullMemory(calls, j);
    assert calls[..j][..i] == calls[..i];
    LastAdmissionIsLate(calls[..j], i);
  }

  function AdmittedCount(calls: seq<Call>, lo: nat, hi: nat): nat
    requires lo <= hi <= |calls|
    decreases hi
  {
    if lo == hi then 0
    else AdmittedCount(calls, lo, hi - 1) + if Admitted(calls, hi - 1) then 1 else 0
  }

  function AdmittedIssuers(calls: seq<Call>, lo: nat, hi: nat): set<Issuer>
    requires lo <= hi <= |calls|
    decreases hi
  {
    if lo == hi then {}
    else AdmittedIssuers(calls, lo, hi - 1) + if Admitted(calls, hi - 1) then {calls[hi - 1].issuer} else {}
  }

  lemma {:induction false} IssuerWasAdmitted(calls: seq<Call>, lo: nat, hi: nat, k: Issuer) returns (i: nat)
    requires lo <= hi <= |calls| && k in AdmittedIssuers(calls, lo, hi)
    ensures lo <= i < hi && Admitted(calls, i) && calls[i].issuer == k
    decreases hi
  {
    if k in AdmittedIssuers(calls, lo, hi - 1) {
      i := IssuerWasAdmitted(calls, lo, hi - 1, k);
    } else {
      i := hi - 1;
    }
  }

  /** Inside a window shorter than sixty seconds no issuer is admitted twice. */
  lemma NoIssuerTwice(calls: seq<Call>, lo: nat, hi: nat)
    requires Nondecreasing(calls) && lo <= hi < |calls| && Admitted(calls, hi)
    requires calls[hi].now - calls[lo].now < COOLDOWN_SECONDS
    ensures calls[hi].issuer !in AdmittedIssuers(calls, lo, hi)
  {
    if calls[hi].issuer in AdmittedIssuers(calls, lo, hi) {
      var i := IssuerWasAdmitted(calls, lo, hi, calls[hi].issuer);
      assert calls[lo].now <= calls[i].now;
      AdmissionsAreSpaced(calls, i, hi);
    }
  }

  lemma {:induction false} WindowIssuersAreDistinct(calls: seq<Call>, lo: nat, hi: nat)
    requires Nondecreasing(calls) && lo < hi <= |calls|
    requires calls[hi - 1].now - calls[lo].now < COOLDOWN_SECONDS
    ensures |AdmittedIssuers(calls, lo, hi)| == AdmittedCount(calls, lo, hi)
    decreases hi
  {
    if lo < hi - 1 {
      WindowIssuersAreDistinct(calls, lo, hi - 1);
    }
    if Admitted(calls, hi - 1) {
      NoIssuerTwice(calls, lo, hi - 1);
    }
  }

  /** Everything admitted in the window is still fresh when its last call is made. */
  lemma WindowIssuerIsFresh(calls: seq<Call>, lo: nat, hi: nat, k: Issuer)
    requires Nondecreasing(calls) && lo < hi < |calls|
    requires calls[hi].now - calls[lo].now < COOLDOWN_SECONDS
    requires k in AdmittedIssuers(calls, lo, hi)
    ensures k in Fresh(calls[..hi], calls[hi].now)
  {
    var i := IssuerWasAdmitted(calls, lo, hi, k);
    assert calls[lo].now <= calls[i].now;
    RefinesFullMemory(calls, i);
    var before := calls[..hi];
    assert before[..i] == calls[..i];
    LastAdmissionIsLate(before, i);
    FreshIff(before, calls[hi].now, k);
  }

  /** Any window shorter than sixty seconds admits at most a thousand calls. */
  lemma {:induction false} WindowIsBounded(calls: seq<Call>, lo: nat, hi: nat)
    requires Nondecreasing(calls) && lo < hi <= |calls|
    requires calls[hi - 1].now - calls[lo].now < COOLDOWN_SECONDS
    ensures AdmittedCount(calls, lo, hi) <= MAX_ENTRIES
    decreases hi
  {
    if lo < hi - 1 {
      WindowIsBounded(calls, lo, hi - 1);
      if Admitted(calls, hi - 1) {
        RefinesFullMemory(calls, hi - 1);
        WindowIssuersAreDistinct(calls, lo, hi - 1);
        var issuers, recent := AdmittedIssuers(calls, lo, hi - 1), Fresh(calls[..hi - 1], calls[hi - 1].now);
        forall k | k in issuers ensures k in recent {
          WindowIssuerIsFresh(calls, lo, hi - 1, k);
        }
        SubsetSize(issuers, recent);
      }
    }
  }

  /** The default timestamp is 0, so a never-seen issuer is refused while the clock reads below sixty. */
  lemma NothingAdmittedBeforeSixty(calls: seq<Call>, i: nat)
    requires Nondecreasing(calls) && i < |calls| && calls[i].now < COOLDOWN_SECONDS
    ensures !Admitted(calls, i)
  {
    RefinesFullMemory(calls, i);
    if LastAdmission(calls[..i], calls[i].issuer).Some? {
      LastAdmissionIsACall(calls[..i], calls[i].issuer);
    }
  }
}

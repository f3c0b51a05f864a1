/** Filling in the service id of a cluster while a token is validated: `populate_service_id` in
    aap_gateway_api/utils/service_id_sync.py.

    Any number of calls run at once.  A call probes its candidates one after the other: it asks the cluster's
    service for its id, and if that is the issuer it looks for, it sets the id where it is still null, in one
    UPDATE.  Service ids are unique among clusters. */
module ServicePopulate {
  import opened Sets
  import opened Wrappers

  type Uuid = string
  type Pk = nat

  // `_MAX_CLUSTERS_TO_PROBE`: the number of service types other than the gateway's.
  const MAX_CLUSTERS_TO_PROBE: nat := 4

  type Table = map<Pk, Option<Uuid>>

  datatype Status = Probing | Checking(pk: Pk) | Returned(found: Option<Pk>)

  datatype Call = Call(issuer: Uuid, left: seq<Pk>, status: Status)

  datatype State = State(table: Table, calls: seq<Call>)

  // What happens to one call next: the answer of the service it asks, or an error, which the call swallows.
  datatype Event = Answer(id: Option<Uuid>) | Error

  predicate Used(t: Table, id: Uuid) {
    exists pk :: pk in t && t[pk] == Some(id)
  }

  /** The conditional UPDATE. */
  predicate Writes(t: Table, c: Call, e: Event) {
    && c.status.Probing? && c.left != [] && e == Answer(Some(c.issuer))
    && c.left[0] in t && t[c.left[0]].None? && !Used(t, c.issuer)
  }

  function StepTable(t: Table, c: Call, e: Event): Table {
    if Writes(t, c, e) then t[c.left[0] := Some(c.issuer)] else t
  }

  function StepCall(t: Table, c: Call, e: Event): Call {
    match c.status
    case Returned(_) => c
    case Checking(pk) =>
      if e.Error? then c.(status := Returned(None))
      else if pk in t && t[pk] == Some(c.issuer) then c.(status := Returned(Some(pk)))
      else c.(status := Probing)
    case Probing =>
      if e.Error? || c.left == [] then c.(status := Returned(None))
      else
        var pk, rest := c.left[0], c.left[1..];
        if e.id != Some(c.issuer) then c.(left := rest)
        else if Writes(t, c, e) then Call(c.issuer, rest, Returned(Some(pk)))
        else if pk in t && t[pk].None? then Call(c.issuer, rest, Returned(None))   // the unique constraint
        else Call(c.issuer, rest, Checking(pk))
  }

  /** Call i makes its next step. */
  function Step(s: State, i: nat, e: Event): State
    requires i < |s.calls|
  {
    State(StepTable(s.table, s.calls[i], e), s.calls[i := StepCall(s.table, s.calls[i], e)])
  }

  datatype Move = Move(call: nat, event: Event)

  function Run(s: State, moves: seq<Move>): (r: State)
    requires forall m :: m in moves ==> m.call < |s.calls|
    ensures |r.calls| == |s.calls|
  {
    if moves == [] then s
    else
      var last := moves[|moves| - 1];
      Step(Run(s, moves[..|moves| - 1]), last.call, last.event)
  }

  // ---------- every interleaving ----------

  ghost predicate Unique(t: Table) {
    forall p, q :: p in t && q in t && t[p].Some? && t[p] == t[q] ==> p == q
  }

  /** Ids once set stay; nothing is ever overwritten. */
  ghost predicate Grows(t: Table, after: Table) {
    after.Keys == t.Keys && forall pk :: pk in t && t[pk].Some? ==> after[pk] == t[pk]
  }

  /** A call that has returned a cluster finds its own issuer there. */
  ghost predicate Honest(t: Table, c: Call) {
    c.status.Returned? && c.status.found.Some? ==>
        c.status.found.value in t && t[c.status.found.value] == Some(c.issuer)
  }

  ghost predicate Good(s: State) {
    Unique(s.table) && forall i :: 0 <= i < |s.calls| ==> Honest(s.table, s.calls[i])
  }

  lemma StepIsGood(s: State, i: nat, e: Event)
    requires i < |s.calls| && Good(s)
    ensures Good(Step(s, i, e)) && Grows(s.table, Step(s, i, e).table)
    ensures forall j :: 0 <= j < |s.calls| ==> Step(s, i, e).calls[j].issuer == s.calls[j].issuer
  {
    var after := Step(s, i, e);
    assert Grows(s.table, after.table);
    forall j | 0 <= j < |s.calls| ensures Honest(after.table, after.calls[j]) {
      assert Honest(s.table, s.calls[j]);
    }
  }

  predicate Involves(moves: seq<Move>, i: nat) {
    exists m :: m in moves && m.call == i
  }

  lemma {:induction false} OthersMove(s: State, moves: seq<Move>, i: nat)
    requires (forall m :: m in moves ==> m.call < |s.calls|) && i < |s.calls| && !Involves(moves, i)
    ensures Run(s, moves).calls[i] == s.calls[i]
    decreases |moves|
  {
    if moves != [] {
      var last, before := moves[|moves| - 1], moves[..|moves| - 1];
      assert last in moves && last.call != i;
      assert Involves(before, i) ==> Involves(moves, i);
      OthersMove(s, before, i);
    }
  }

  /** A call that gets its issuer as an answer from a cluster which another call has just filled in returns that
      cluster too, whatever others do before it looks, unless its look at the table fails. */
  lemma LoserReturnsTheSame(s: State, i: nat, e: Event, moves: seq<Move>, again: Event)
    requires Good(s) && i < |s.calls| && s.calls[i].status.Probing? && s.calls[i].left != []
    requires e == Answer(Some(s.calls[i].issuer)) && !again.Error?
    requires s.calls[i].left[0] in s.table && s.table[s.calls[i].left[0]] == Some(s.calls[i].issuer)
    requires (forall m :: m in moves ==> m.call < |s.calls|) && !Involves(moves, i)
    ensures Step(Run(Step(s, i, e), moves), i, again).calls[i].status == Returned(Some(s.calls[i].left[0]))
  {
    var s1 := Step(s, i, e);
    StepIsGood(s, i, e);
    RunIsGood(s1, moves);
    OthersMove(s1, moves, i);
  }

  /** A call whose issuer a null cluster's service answers with sets the id and returns the cluster, unless another
      cluster has the id already: then the unique constraint makes it return nothing. */
  lemma MatchSets(s: State, i: nat)
    requires i < |s.calls| && s.calls[i].status.Probing? && s.calls[i].left != []
    requires s.calls[i].left[0] in s.table && s.table[s.calls[i].left[0]] == None
    ensures var c, pk := s.calls[i], s.calls[i].left[0];
            var after := Step(s, i, Answer(Some(c.issuer)));
            if forall q :: q in s.table ==> s.table[q] != Some(c.issuer)
            then after.table == s.table[pk := Some(c.issuer)] && after.calls[i].status == Returned(Some(pk))
            else after.table == s.table && after.calls[i].status == Returned(None)
  {
  }

  /** An error ends the call without a cluster, and so does having nothing left to probe; looking at a cluster that
      some other issuer has taken leads on to the next. */
  lemma DeadEnds(s: State, i: nat, e: Event)
    requires i < |s.calls| && !s.calls[i].status.Returned?
    ensures var c, after := s.calls[i], Step(s, i, e);
            && (e == Error || (c.status == Probing && c.left == []) ==>
                  after.table == s.table && after.calls[i].status == Returned(None))
            && (c.status.Checking? && e != Error && c.status.pk in s.table && s.table[c.status.pk] != Some(c.issuer) ==>
                  after.table == s.table && after.calls[i] == c.(status := Probing))
  {
  }

  /** How many steps a call can still make. */
  function StepsLeft(c: Call): nat {
    match c.status
    case Returned(_) => 0
    case Probing => 2 * |c.left| + 1
    case Checking(_) => 2 * |c.left| + 2
  }

  lemma StepsDecrease(t: Table, c: Call, e: Event)
    requires !c.status.Returned?
    ensures StepsLeft(StepCall(t, c, e)) < StepsLeft(c)
  {
  }

  function OwnMoves(moves: seq<Move>, i: nat): nat {
    if moves == [] then 0
    else OwnMoves(moves[..|moves| - 1], i) + if moves[|moves| - 1].call == i then 1 else 0
  }

  /** Every call ends: it returns within 2n + 1 steps of its own for n candidates, whatever the others do. */
  lemma {:induction false} CallEnds(s: State, moves: seq<Move>, i: nat)
    requires (forall m :: m in moves ==> m.call < |s.calls|) && i < |s.calls|
    ensures var c := Run(s, moves).calls[i];
            c.status.Returned? || StepsLeft(c) + OwnMoves(moves, i) <= StepsLeft(s.calls[i])
    decreases |moves|
  {
    if moves != [] {
      var last, before := moves[|moves| - 1], moves[..|moves| - 1];
      CallEnds(s, before, i);
      var s1 := Run(s, before);
      if last.call == i && !s1.calls[i].status.Returned? {
        StepsDecrease(s1.table, s1.calls[i], last.event);
      }
    }
  }

  /** A call moves on from a cluster whose service answers with another id, or none, and sets nothing. */
  lemma OtherAnswersMoveOn(s: State, i: nat, e: Event)
    requires i < |s.calls| && s.calls[i].status.Probing? && s.calls[i].left != []
    requires e.Answer? && e.id != Some(s.calls[i].issuer)
    ensures var after := Step(s, i, e);
            && after.table == s.table && after.calls[i].status.Probing?
            && after.calls[i].left == s.calls[i].left[1..]
  {
  }

  /** Over every interleaving of any number of calls, with any answers and errors: an id that is set is never
      overwritten, no two clusters get the same id, and what a call returned still has its issuer as its id. */
  lemma {:induction false} RunIsGood(s: State, moves: seq<Move>)
    requires Good(s) && forall m :: m in moves ==> m.call < |s.calls|
    ensures Good(Run(s, moves)) && Grows(s.table, Run(s, moves).table)
    ensures forall j :: 0 <= j < |s.calls| ==> Run(s, moves).calls[j].issuer == s.calls[j].issuer
    decreases |moves|
  {
    if moves != [] {
      var last, before := moves[|moves| - 1], moves[..|moves| - 1];
      assert last in moves;
      RunIsGood(s, before);
      StepIsGood(Run(s, before), last.call, last.event);
    }
  }

  /** So two calls that return a cluster return the same one exactly if they look for the same issuer. */
  lemma SameClusterIffSameIssuer(s: State, moves: seq<Move>, i: nat, j: nat)
    requires Good(s) && (forall m :: m in moves ==> m.call < |s.calls|) && i < |s.calls| && j < |s.calls|
    requires var a, b := Run(s, moves).calls[i].status, Run(s, moves).calls[j].status;
             a.Returned? && a.found.Some? && b.Returned? && b.found.Some?
    ensures Run(s, moves).calls[i].status.found == Run(s, moves).calls[j].status.found <==>
            s.calls[i].issuer == s.calls[j].issuer
  {
    RunIsGood(s, moves);
    var r := Run(s, moves);
    assert Honest(r.table, r.calls[i]) && Honest(r.table, r.calls[j]);
  }

  /** An id comes only from the service of its cluster: if one was set, some call asked that cluster and was
      answered with it. */
  lemma {:induction false} IdsAreReported(s: State, moves: seq<Move>, pk: Pk) returns (k: nat)
    requires forall m :: m in moves ==> m.call < |s.calls|
    requires pk in s.table && s.table[pk].None? && pk in Run(s, moves).table && Run(s, moves).table[pk].Some?
    ensures k < |moves|
    ensures (forall m :: m in moves[..k] ==> m.call < |s.calls|) && moves[k].call < |s.calls|
    ensures var c := Run(s, moves[..k]).calls[moves[k].call];
            c.left != [] && c.left[0] == pk && moves[k].event == Answer(Run(s, moves).table[pk])
    decreases |moves|
  {
    var n := |moves| - 1;
    assert moves[n] in moves;
    var before := Run(s, moves[..n]);
    if Writes(before.table, before.calls[moves[n].call], moves[n].event) && before.calls[moves[n].call].left[0] == pk {
      k := n;
    } else {
      k := IdsAreReported(s, moves[..n], pk);
      assert moves[..n][..k] == moves[..k];
    }
  }

  // ---------- one call on its own ----------

  type RoutePk = nat

  // A row of the service API routes, and what a cluster says of its eligibility.  Nothing in the tables keeps a
  // cluster to one route, or a service type to one cluster.
  datatype Tables = Tables(routes: map<RoutePk, Pk>, ids: Table, syncable: set<Pk>)

  predicate IsEligible(t: Tables, r: RoutePk) {
    r in t.routes && t.routes[r] in t.ids && t.ids[t.routes[r]].None? && t.routes[r] in t.syncable
  }

  /** The rows of the query before it is cut off: the eligible routes by the key of their cluster. */
  ghost predicate IsQuery(t: Tables, rows: seq<RoutePk>) {
    && (forall i :: 0 <= i < |rows| ==> IsEligible(t, rows[i])) && (forall r :: IsEligible(t, r) ==> r in rows)
    && (forall i, j :: 0 <= i < j < |rows| ==> rows[i] != rows[j] && t.routes[rows[i]] <= t.routes[rows[j]])
  }

  function Candidates(rows: seq<RoutePk>): seq<RoutePk> {
    if |rows| <= MAX_CLUSTERS_TO_PROBE then rows else rows[..MAX_CLUSTERS_TO_PROBE]
  }

  /** The eligible routes of clusters with a smaller key. */
  function Before(t: Tables, c: Pk): set<RoutePk> {
    set r | r in t.routes && t.routes[r] in t.ids && t.ids[t.routes[r]] == None && t.routes[r] in t.syncable
            && t.routes[r] < c
  }

  /** The first row of a cluster stands behind the rows of all clusters with a smaller key. */
  lemma FirstRowOf(t: Tables, rows: seq<RoutePk>, c: Pk, k: nat)
    requires IsQuery(t, rows) && k < |rows| && t.routes[rows[k]] == c
    requires forall i :: 0 <= i < k ==> t.routes[rows[i]] != c
    ensures k == |Before(t, c)|
  {
    DistinctSize(rows[..k]);
    forall r ensures r in ToSet(rows[..k]) <==> r in Before(t, c) {
      if r in rows[..k] {
        var i :| 0 <= i < k && rows[i] == r;
        assert r in rows;
      }
      if r in Before(t, c) {
        assert r in rows;
        var i :| 0 <= i < |rows| && rows[i] == r;
        assert i < k;
      }
    }
    SameElements(ToSet(rows[..k]), Before(t, c));
  }

  lemma FirstIndex(t: Tables, rows: seq<RoutePk>, r: RoutePk) returns (k: nat)
    requires IsQuery(t, rows) && r in rows
    ensures k < |rows| && t.routes[rows[k]] == t.routes[r]
    ensures forall i :: 0 <= i < k ==> t.routes[rows[i]] != t.routes[r]
  {
    k := 0;
    while t.routes[rows[k]] != t.routes[r]
      invariant k < |rows| && r in rows[k..]
      invariant forall i :: 0 <= i < k ==> t.routes[rows[i]] != t.routes[r]
      decreases |rows| - k
    {
      assert rows[k..] == [rows[k]] + rows[k + 1..];
      k := k + 1;
    }
  }

  ghost predicate IsProbed(t: Tables, rows: seq<RoutePk>, c: Pk)
    requires IsQuery(t, rows)
  {
    exists i :: 0 <= i < |Candidates(rows)| && t.routes[rows[i]] == c
  }

  /** An eligible cluster is probed exactly when fewer than four eligible routes belong to clusters with a
      smaller key, however the database orders the routes of one cluster. */
  lemma IsProbedIff(t: Tables, rows: seq<RoutePk>, r: RoutePk)
    requires IsQuery(t, rows) && IsEligible(t, r)
    ensures IsProbed(t, rows, t.routes[r]) <==> |Before(t, t.routes[r])| < 4
  {
    var k := FirstIndex(t, rows, r);
    FirstRowOf(t, rows, t.routes[r], k);
    if k < MAX_CLUSTERS_TO_PROBE {
      assert rows[k] in rows;
      assert k < |Candidates(rows)| && t.routes[rows[k]] == t.routes[r];
    }
  }

  /** Four routes of one cluster are enough to hide the next one. */
  lemma RoutesOfOneClusterHideTheNext(t: Tables, rows: seq<RoutePk>, r: RoutePk, group: set<RoutePk>, c: Pk)
    requires IsQuery(t, rows) && IsEligible(t, r) && |group| >= 4 && c < t.routes[r]
    requires forall g :: g in group ==> IsEligible(t, g) && t.routes[g] == c
    ensures !IsProbed(t, rows, t.routes[r])
  {
    IsProbedIff(t, rows, r);
    SubsetSize(group, Before(t, t.routes[r]));
  }

  ghost predicate HasRoute(t: Tables, c: Pk) {
    exists r :: r in t.routes && t.routes[r] == c
  }

  /** The service of the cluster answers with the issuer, the cluster has no id yet and is of a known type, and it is
      among those probed. */
  ghost predicate Reached(t: Tables, answers: map<Pk, Uuid>, issuer: Uuid, c: Pk) {
    && HasRoute(t, c) && c in t.ids && t.ids[c] == None && c in t.syncable
    && c in answers && answers[c] == issuer
    && |Before(t, c)| < 4
  }

  class ServiceClusters {
    var tables: Tables

    constructor (tables: Tables)
      ensures this.tables == tables
    {
      this.tables := tables;
    }

    /** `populate_service_id` behind the cooldown, with nobody else writing.  If no cluster has the issuer yet, the
        first cluster that can be reached and whose service answers with it gets it and is returned. */
    method Populate(issuer: Uuid, rows: seq<RoutePk>, answers: map<Pk, Uuid>) returns (found: Option<Pk>)
      requires IsQuery(tables, rows)
      modifies this
      ensures found.Some? <==>
              && (forall c :: c in old(tables).ids ==> old(tables).ids[c] != Some(issuer))
              && exists c :: Reached(old(tables), answers, issuer, c)
      ensures found.Some? ==> Reached(old(tables), answers, issuer, found.value)
      ensures forall c :: found.Some? && Reached(old(tables), answers, issuer, c) ==> found.value <= c
      ensures tables == if found.Some? then old(tables).(ids := old(tables).ids[found.value := Some(issuer)])
              else old(tables)
    {
      var candidates := Candidates(rows);
      for k := 0 to |candidates|
        invariant tables == old(tables)
        invariant forall i :: 0 <= i < k ==> !Matches(tables, answers, issuer, candidates[i])
      {
        var r := candidates[k];
        assert r in rows;
        var c := tables.routes[r];
        if c in answers && answers[c] == issuer {
          FirstMatchIsReached(tables, rows, answers, issuer, k);
          // UPDATE ... WHERE service_id IS NULL; a second cluster with the id violates the constraint
          if Used(tables.ids, issuer) {
            return None;
          }
          tables := tables.(ids := tables.ids[c := Some(issuer)]);
          return Some(c);
        }
      }
      NoMatchNoneReached(tables, rows, answers, issuer);
      found := None;
    }
  }

  predicate Matches(t: Tables, answers: map<Pk, Uuid>, issuer: Uuid, r: RoutePk) {
    r in t.routes && t.routes[r] in answers && answers[t.routes[r]] == issuer
  }

  lemma FirstMatchIsReached(t: Tables, rows: seq<RoutePk>, answers: map<Pk, Uuid>, issuer: Uuid, k: nat)
    requires IsQuery(t, rows) && k < |Candidates(rows)| && Matches(t, answers, issuer, rows[k])
    requires forall i :: 0 <= i < k ==> !Matches(t, answers, issuer, rows[i])
    ensures Reached(t, answers, issuer, t.routes[rows[k]])
    ensures forall c :: Reached(t, answers, issuer, c) ==> t.routes[rows[k]] <= c
  {
    var c := t.routes[rows[k]];
    assert rows[k] in rows && IsEligible(t, rows[k]);
    forall i | 0 <= i < k ensures t.routes[rows[i]] != c {
      assert rows[i] in rows;
    }
    FirstRowOf(t, rows, c, k);
    forall d | Reached(t, answers, issuer, d) ensures c <= d {
      var r :| IsEligible(t, r) && t.routes[r] == d;
      var j :| 0 <= j < |rows| && rows[j] == r;
      assert Matches(t, answers, issuer, rows[j]);
    }
  }

  lemma NoMatchNoneReached(t: Tables, rows: seq<RoutePk>, answers: map<Pk, Uuid>, issuer: Uuid)
    requires IsQuery(t, rows)
    requires forall i :: 0 <= i < |Candidates(rows)| ==> !Matches(t, answers, issuer, Candidates(rows)[i])
    ensures forall c :: !Reached(t, answers, issuer, c)
  {
    forall c ensures !Reached(t, answers, issuer, c) {
      if r :| IsEligible(t, r) && t.routes[r] == c {
        IsProbedIff(t, rows, r);
        if IsProbed(t, rows, c) {
          var i :| 0 <= i < |Candidates(rows)| && t.routes[rows[i]] == c;
          assert !Matches(t, answers, issuer, Candidates(rows)[i]);
        }
      }
    }
  }
}

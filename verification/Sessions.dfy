/** The limit on concurrent sessions: aap_gateway_api/signals/session.py and
    aap_gateway_api/models/user_session_membership.py.

    Every save of a session row runs the signal handler as one atomic step.  Rows are keyed by primary key;
    a membership belongs to one session (OneToOne) and goes with its session or its user (CASCADE). */
module Sessions {
  import opened Sets
  import opened Wrappers

  type SessionKey = string

  // `user` is the number under SESSION_KEY, if the data decodes and holds one.
  datatype Session = Session(user: Option<int>, expires: real)

  datatype Membership = Membership(user: int, session: SessionKey, created: real)

  datatype State = State(users: set<int>, sessions: map<SessionKey, Session>, memberships: map<nat, Membership>,
      nextPk: nat, now: real)

  ghost predicate Valid(s: State) {
    && (forall m :: m in s.memberships ==>
       && s.memberships[m].user in s.users && s.memberships[m].session in s.sessions
       && m < s.nextPk && s.memberships[m].created <= s.now)
    && (forall m, n :: m in s.memberships && n in s.memberships && m != n ==>
       s.memberships[m].session != s.memberships[n].session)
  }

  // ---------- the rows over the limit ----------

  function Active(s: State, u: int, now: real): set<nat> {
    set m | m in s.memberships && s.memberships[m].user == u && s.memberships[m].session in s.sessions
            && s.sessions[s.memberships[m].session].expires > now
  }

  /** ORDER BY created DESC, pk DESC. */
  predicate Newer(rows: map<nat, Membership>, m: nat, n: nat)
    requires m in rows && n in rows
  {
    rows[m].created > rows[n].created || (rows[m].created == rows[n].created && m > n)
  }

  ghost predicate IsNewestFirst(rows: map<nat, Membership>, pks: set<nat>, order: seq<nat>)
    requires pks <= rows.Keys
  {
    && (forall m :: m in order <==> m in pks)
    && (forall i, j :: 0 <= i < j < |order| ==> order[i] in rows && order[j] in rows && Newer(rows, order[i], order[j]))
  }

  predicate IsNewest(rows: map<nat, Membership>, pks: set<nat>, m: nat)
    requires pks <= rows.Keys
  {
    m in pks && forall n :: n in pks && n != m ==> Newer(rows, m, n)
  }

  lemma NewestOfOneMore(rows: map<nat, Membership>, rest: set<nat>, a: nat, b: nat)
    requires rest + {a} <= rows.Keys && a !in rest && IsNewest(rows, rest, b)
    ensures IsNewest(rows, rest + {a}, if Newer(rows, a, b) then a else b)
  {
  }

  lemma {:induction false} NewestExists(rows: map<nat, Membership>, pks: set<nat>)
    requires pks <= rows.Keys && pks != {}
    ensures exists m :: IsNewest(rows, pks, m)
    decreases pks
  {
    var a := Pick(pks);
    var rest := pks - {a};
    assert pks == rest + {a};
    if rest == {} {
      assert IsNewest(rows, pks, a);
    } else {
      NewestExists(rows, rest);
      var b :| IsNewest(rows, rest, b);
      NewestOfOneMore(rows, rest, a, b);
    }
  }

  ghost function NewestFirst(rows: map<nat, Membership>, pks: set<nat>): seq<nat>
    requires pks <= rows.Keys
    decreases pks
  {
    if pks == {} then []
    else
      NewestExists(rows, pks);
      var m :| IsNewest(rows, pks, m);
      [m] + NewestFirst(rows, pks - {m})
  }

  lemma {:induction false} NewestFirstIs(rows: map<nat, Membership>, pks: set<nat>)
    requires pks <= rows.Keys
    ensures IsNewestFirst(rows, pks, NewestFirst(rows, pks)) && |NewestFirst(rows, pks)| == |pks|
    decreases pks
  {
    if pks != {} {
      NewestExists(rows, pks);
      var order := NewestFirst(rows, pks);
      var m := order[0];
      NewestFirstIs(rows, pks - {m});
      assert order == [m] + NewestFirst(rows, pks - {m});
    }
  }

  /** There is only one such order, so whatever the database returns is this one. */
  lemma {:induction false} NewestFirstIsUnique(rows: map<nat, Membership>, pks: set<nat>, order: seq<nat>,
      other: seq<nat>)
    requires pks <= rows.Keys && IsNewestFirst(rows, pks, order) && IsNewestFirst(rows, pks, other)
    ensures order == other
    decreases |order|
  {
    FirstIsMember(rows, pks, order);
    FirstIsMember(rows, pks, other);
    if order != [] {
      var a, b := order[0], other[0];
      assert a in other && b in order;
      assert a == b;
      var rest := pks - {a};
      forall m ensures (m in order[1..] <==> m in rest) && (m in other[1..] <==> m in rest) {
        InTail(rows, pks, order, m);
        InTail(rows, pks, other, m);
      }
      NewestFirstIsUnique(rows, rest, order[1..], other[1..]);
      assert order == [a] + order[1..] && other == [b] + other[1..];
    }
  }

  lemma FirstIsMember(rows: map<nat, Membership>, pks: set<nat>, order: seq<nat>)
    requires pks <= rows.Keys && IsNewestFirst(rows, pks, order)
    ensures if order == [] then pks == {} else order[0] in pks
  {
    if order != [] {
      assert order[0] in order;
    } else {
      assert forall m :: m !in pks;
    }
  }

  lemma InTail(rows: map<nat, Membership>, pks: set<nat>, order: seq<nat>, m: nat)
    requires pks <= rows.Keys && IsNewestFirst(rows, pks, order) && order != []
    ensures m in order[1..] <==> m in pks && m != order[0]
  {
    if m in order && m != order[0] {
      var k :| 0 <= k < |order| && order[k] == m;
      assert order[1..][k - 1] == m;
    }
  }

  function Allowed(limit: Option<int>): Option<nat>
    requires limit.Some? ==> limit.value >= -1
  {
    if limit.None? || limit.value == -1 then None else Some(limit.value + 1)
  }

  ghost function OverLimit(s: State, u: int, now: real, limit: Option<int>): seq<nat>
    requires limit.Some? ==> limit.value >= -1
  {
    match Allowed(limit)
    case None => []
    case Some(n) => Beyond(NewestFirst(s.memberships, Active(s, u, now)), n)
  }

  function Beyond(order: seq<nat>, n: nat): seq<nat> {
    if |order| <= n then [] else order[n..]
  }

  // ---------- events ----------

  /** Deletes the sessions of the rows, and with them the rows. */
  function Evict(s: State, pks: seq<nat>): State
    decreases |pks|
  {
    if pks == [] then s
    else
      var before, last := Evict(s, pks[..|pks| - 1]), pks[|pks| - 1];
      if last in s.memberships then DropSession(before, s.memberships[last].session) else before
  }

  function DropSession(s: State, key: SessionKey): State {
    s.(sessions := s.sessions - {key},
       memberships := map m | m in s.memberships && s.memberships[m].session != key :: s.memberships[m])
  }

  predicate Tracked(s: State, key: SessionKey) {
    exists m :: m in s.memberships && s.memberships[m].session == key
  }

  /** Does saving the session start a membership? */
  predicate IsLogin(s: State, key: SessionKey, session: Session) {
    session.user.Some? && session.user.value in s.users && !Tracked(s, key)
  }

  function Join(s: State, u: int, key: SessionKey, created: real): State {
    s.(memberships := s.memberships[s.nextPk := Membership(u, key, created)], nextPk := s.nextPk + 1)
  }

  datatype Event =
    | Save(key: SessionKey, session: Session, created: real, checked: real)
    | Delete(key: SessionKey)
    | AddUser(user: int)
    | DeleteUser(user: int)
    | Wait(until: real)

  ghost function Apply(s: State, e: Event, limit: Option<int>): State
    requires limit.Some? ==> limit.value >= -1
  {
    match e
    case Save(key, session, created, checked) =>
      var s1 := s.(sessions := s.sessions[key := session], now := checked);
      if !IsLogin(s, key, session) then s1
      else
        var s2 := Join(s1, session.user.value, key, created);
        Evict(s2, OverLimit(s2, session.user.value, checked, limit))
    case Delete(key) => DropSession(s, key)
    case AddUser(u) => s.(users := s.users + {u})
    case DeleteUser(u) => s.(users := s.users - {u}, memberships := map m | m in s.memberships
        && s.memberships[m].user != u :: s.memberships[m])
    case Wait(until) => s.(now := until)
  }

  /** The clock does not go back. */
  predicate Timely(s: State, e: Event) {
    match e
    case Save(_, _, created, checked) => s.now <= created <= checked
    case Wait(until) => s.now <= until
    case _ => true
  }

  /** Every session and membership is as before. */
  predicate SameRows(s: State, after: State) {
    after.sessions == s.sessions && after.memberships == s.memberships && after.nextPk == s.nextPk
  }

  /** What the events do that are not logins: a session is stored, or goes with its membership; a user comes, or goes
      with all memberships but leaves the sessions; time passes. */
  lemma OtherEvents(s: State, e: Event, limit: Option<int>)
    requires limit.Some? ==> limit.value >= -1
    requires e.Save? ==> !IsLogin(s, e.key, e.session)
    ensures var after := Apply(s, e, limit);
            match e
            case Save(key, session, _, checked) =>
              && after.sessions == s.sessions[key := session] && after.memberships == s.memberships
              && after.users == s.users && after.now == checked && after.nextPk == s.nextPk
            case Delete(key) =>
              && (forall k :: k in after.sessions <==> k in s.sessions && k != key)
              && (forall k :: k in after.sessions ==> after.sessions[k] == s.sessions[k])
              && (forall m :: m in after.memberships <==> m in s.memberships && s.memberships[m].session != key)
              && (forall m :: m in after.memberships ==> after.memberships[m] == s.memberships[m])
              && after.users == s.users && after.now == s.now && after.nextPk == s.nextPk
            case AddUser(u) =>
              SameRows(s, after) && after.now == s.now && forall x :: x in after.users <==> x in s.users || x == u
            case DeleteUser(u) =>
              && after.sessions == s.sessions && after.now == s.now && after.nextPk == s.nextPk
              && (forall x :: x in after.users <==> x in s.users && x != u)
              && (forall m :: m in after.memberships <==> m in s.memberships && s.memberships[m].user != u)
              && (forall m :: m in after.memberships ==> after.memberships[m] == s.memberships[m])
            case Wait(until) =>
              SameRows(s, after) && after.users == s.users && after.now == until
  {
  }

  // ---------- eviction ----------

  /** After evicting rows, exactly they and their sessions are gone. */
  ghost predicate Evicted(s: State, pks: seq<nat>, after: State) {
    && after.users == s.users && after.nextPk == s.nextPk && after.now == s.now
    && (forall m :: m in after.memberships <==> m in s.memberships && m !in pks)
    && (forall m :: m in after.memberships ==> after.memberships[m] == s.memberships[m])
    && (forall k :: k in after.sessions <==>
       k in s.sessions && forall m :: m in pks && m in s.memberships ==> s.memberships[m].session != k)
    && (forall k :: k in after.sessions ==> after.sessions[k] == s.sessions[k])
  }

  lemma {:induction false} EvictIs(s: State, pks: seq<nat>)
    requires Valid(s) && forall m :: m in pks ==> m in s.memberships
    ensures Evicted(s, pks, Evict(s, pks)) && Valid(Evict(s, pks))
    decreases |pks|
  {
    if pks != [] {
      var rest, last := pks[..|pks| - 1], pks[|pks| - 1];
      EvictIs(s, rest);
      assert last in pks;
      assert forall m :: m in pks <==> m in rest || m == last;
    }
  }

  lemma SplitOrder(rows: map<nat, Membership>, pks: set<nat>, order: seq<nat>, n: nat)
    requires pks <= rows.Keys && IsNewestFirst(rows, pks, order) && n <= |order|
    ensures pks - ToSet(order[n..]) == ToSet(order[..n])
    ensures forall m, x :: m in order[..n] && x in order[n..] ==> m in pks && x in pks && Newer(rows, m, x)
  {
    forall m, x | m in order[..n] && x in order[n..] ensures m in pks && x in pks && Newer(rows, m, x) {
      var i :| 0 <= i < n && order[i] == m;
      var j :| n <= j < |order| && order[j] == x;
      assert order[i] in order && order[j] in order;
    }
    assert order == order[..n] + order[n..];
    forall m ensures m in pks - ToSet(order[n..]) <==> m in ToSet(order[..n]) {
      assert m in order <==> m in order[..n] || m in order[n..];
    }
    SameElements(pks - ToSet(order[n..]), ToSet(order[..n]));
  }

  /** Keeping the first n rows: those kept are n, or all if there were fewer, and newer than those that go. */
  lemma TopOfOrder(rows: map<nat, Membership>, pks: set<nat>, n: nat)
    requires pks <= rows.Keys
    ensures var order := NewestFirst(rows, pks);
            var gone := Beyond(order, n);
            var kept := pks - ToSet(gone);
            && |kept| == (if |pks| <= n then |pks| else n)
            && (forall m, x :: m in kept && x in gone ==> x in pks && Newer(rows, m, x))
  {
    var order := NewestFirst(rows, pks);
    NewestFirstIs(rows, pks);
    if |order| > n {
      SplitOrder(rows, pks, order, n);
      DistinctSize(order[..n]);
    } else {
      assert pks - ToSet([]) == pks;
    }
  }

  // ---------- one login ----------

  function Saved(s: State, key: SessionKey, session: Session, checked: real): State {
    s.(sessions := s.sessions[key := session], now := checked)
  }

  lemma JoinIsValid(s: State, key: SessionKey, session: Session, created: real, checked: real)
    requires Valid(s) && IsLogin(s, key, session) && s.now <= created <= checked
    ensures Valid(Join(Saved(s, key, session, checked), session.user.value, key, created))
  {
  }

  lemma GoneIsActive(rows: map<nat, Membership>, pks: set<nat>, n: nat)
    requires pks <= rows.Keys
    ensures forall m :: m in Beyond(NewestFirst(rows, pks), n) ==> m in pks
  {
    var order := NewestFirst(rows, pks);
    NewestFirstIs(rows, pks);
    assert forall m :: m in Beyond(order, n) ==> m in order;
  }

  lemma OverLimitIsActive(s: State, u: int, now: real, limit: Option<int>)
    requires limit.Some? ==> limit.value >= -1
    ensures forall m :: m in OverLimit(s, u, now, limit) ==> m in Active(s, u, now)
  {
    if Allowed(limit).Some? {
      GoneIsActive(s.memberships, Active(s, u, now), Allowed(limit).value);
    }
  }

  lemma EvictionLeaves(s: State, u: int, now: real, gone: seq<nat>)
    requires Valid(s) && forall m :: m in gone ==> m in Active(s, u, now)
    ensures var after := Evict(s, gone);
            && Evicted(s, gone, after) && Valid(after)
            && Active(after, u, now) == Active(s, u, now) - ToSet(gone)
            && (forall m :: m in s.memberships && s.memberships[m].user != u ==>
                  m in after.memberships && s.memberships[m].session in after.sessions)
            && (forall k :: k in s.sessions && (forall m :: m in s.memberships && s.memberships[m].user == u ==>
               s.memberships[m].session != k) ==>
                  k in after.sessions)
  {
    EvictIs(s, gone);
    var after := Evict(s, gone);
    forall m ensures m in Active(after, u, now) <==> m in Active(s, u, now) - ToSet(gone) {}
    SameElements(Active(after, u, now), Active(s, u, now) - ToSet(gone));
  }

  /** After a tracked login under a limit of L extra sessions the user has at most L + 1 active sessions; those
      evicted were active, and every one kept is newer than every one evicted; the new session is kept. */
  lemma LoginKeepsNewest(s: State, e: Event, limit: Option<int>)
    requires Valid(s) && e.Save? && Timely(s, e) && IsLogin(s, e.key, e.session)
    requires limit.Some? && limit.value >= 0
    ensures var u, after := e.session.user.value, Apply(s, e, limit);
            var joined := Join(Saved(s, e.key, e.session, e.checked), u, e.key, e.created);
            var before, kept := Active(joined, u, e.checked), Active(after, u, e.checked);
            && kept <= before
            && |kept| == (if |before| <= limit.value + 1 then |before| else limit.value + 1)
            && (forall m, x :: m in kept && x in before && x !in kept ==> Newer(joined.memberships, m, x))
            && s.nextPk in after.memberships && after.memberships[s.nextPk] == Membership(u, e.key, e.created)
            && e.key in after.sessions && after.sessions[e.key] == e.session
  {
    var u := e.session.user.value;
    var joined := Join(Saved(s, e.key, e.session, e.checked), u, e.key, e.created);
    JoinIsValid(s, e.key, e.session, e.created, e.checked);
    EvictionKeepsNewest(joined, u, e.checked, limit, s.nextPk);
  }

  lemma EvictionKeepsNewest(s: State, u: int, now: real, limit: Option<int>, m: nat)
    requires Valid(s) && limit.Some? && limit.value >= 0
    requires m in s.memberships && forall x :: x in s.memberships && x != m ==> Newer(s.memberships, m, x)
    ensures var after := Evict(s, OverLimit(s, u, now, limit));
            var before, kept := Active(s, u, now), Active(after, u, now);
            && kept <= before
            && |kept| == (if |before| <= limit.value + 1 then |before| else limit.value + 1)
            && (forall x, y :: x in kept && y in before && y !in kept ==> Newer(s.memberships, x, y))
            && m in after.memberships && after.memberships[m] == s.memberships[m]
            && s.memberships[m].session in after.sessions
               && after.sessions[s.memberships[m].session] == s.sessions[s.memberships[m].session]
  {
    var gone := OverLimit(s, u, now, limit);
    OverLimitIsOldest(s, u, now, limit, m);
    EvictionLeaves(s, u, now, gone);
    SessionKept(s, u, now, gone, m);
  }

  lemma OverLimitIsOldest(s: State, u: int, now: real, limit: Option<int>, m: nat)
    requires limit.Some? && limit.value >= 0
    requires m in s.memberships && forall x :: x in s.memberships && x != m ==> Newer(s.memberships, m, x)
    ensures var before, gone := Active(s, u, now), OverLimit(s, u, now, limit);
            && (forall y :: y in gone ==> y in before)
            && |before - ToSet(gone)| == (if |before| <= limit.value + 1 then |before| else limit.value + 1)
            && (forall x, y :: x in before - ToSet(gone) && y in gone ==> Newer(s.memberships, x, y))
            && m !in gone
  {
    var before, n := Active(s, u, now), limit.value + 1;
    var gone := Beyond(NewestFirst(s.memberships, before), n);
    TopOfOrder(s.memberships, before, n);
    GoneIsActive(s.memberships, before, n);
    NewestStays(s, before, gone, n, m);
    assert OverLimit(s, u, now, limit) == gone;
  }

  lemma SessionKept(s: State, u: int, now: real, gone: seq<nat>, m: nat)
    requires Valid(s) && (forall y :: y in gone ==> y in Active(s, u, now)) && m in s.memberships && m !in gone
    ensures var after, key := Evict(s, gone), s.memberships[m].session;
            m in after.memberships && after.memberships[m] == s.memberships[m] && key in after.sessions
                && after.sessions[key] == s.sessions[key]
  {
    EvictIs(s, gone);
  }

  lemma NewestStays(s: State, before: set<nat>, gone: seq<nat>, n: nat, m: nat)
    requires before <= s.memberships.Keys && m in s.memberships && n > 0
    requires (forall y :: y in gone ==> y in before)
             && |before - ToSet(gone)| == (if |before| <= n then |before| else n)
    requires forall x, y :: x in before - ToSet(gone) && y in gone ==> Newer(s.memberships, x, y)
    requires forall x :: x in before && x != m ==> Newer(s.memberships, m, x)
    ensures m !in gone
  {
    var kept := before - ToSet(gone);
    if kept == {} {
      assert |before| == 0;
    } else {
      var x := Pick(kept);
      assert x in before && x !in gone;
    }
  }

  /** No event but its own deletion or its own user's removal takes away a session of another user. */
  lemma LoginLeavesOthers(s: State, e: Event, limit: Option<int>, m: nat)
    requires Valid(s) && e.Save? && Timely(s, e) && IsLogin(s, e.key, e.session) && (limit.Some? ==> limit.value >= -1)
    requires m in s.memberships && s.memberships[m].user != e.session.user.value
    ensures var after := Apply(s, e, limit);
            && m in after.memberships && after.memberships[m] == s.memberships[m]
            && s.memberships[m].session in after.sessions
               && after.sessions[s.memberships[m].session] == s.sessions[s.memberships[m].session]
  {
    var u := e.session.user.value;
    var joined := Join(Saved(s, e.key, e.session, e.checked), u, e.key, e.created);
    JoinIsValid(s, e.key, e.session, e.created, e.checked);
    OverLimitIsActive(joined, u, e.checked, limit);
    assert m !in OverLimit(joined, u, e.checked, limit);
    SessionKept(joined, u, e.checked, OverLimit(joined, u, e.checked, limit), m);
  }

  // ---------- over runs ----------

  ghost predicate Bounded(s: State, n: nat) {
    forall u :: |Active(s, u, s.now)| <= n
  }

  /** Saving a session that has expired does not make it active again. */
  predicate NoRevival(s: State, e: Event) {
    e.Save? && e.key in s.sessions && Tracked(s, e.key) && s.sessions[e.key].expires <= e.checked ==>
        e.session.expires <= e.checked
  }

  lemma StepIsValid(s: State, e: Event, limit: Option<int>)
    requires Valid(s) && Timely(s, e) && (limit.Some? ==> limit.value >= -1)
    ensures Valid(Apply(s, e, limit))
  {
    if e.Save? && IsLogin(s, e.key, e.session) {
      var u := e.session.user.value;
      var joined := Join(Saved(s, e.key, e.session, e.checked), u, e.key, e.created);
      JoinIsValid(s, e.key, e.session, e.created, e.checked);
      OverLimitIsActive(joined, u, e.checked, limit);
      EvictIs(joined, OverLimit(joined, u, e.checked, limit));
    }
  }

  lemma OtherEventsShrink(s: State, e: Event, limit: Option<int>, u: int)
    requires Valid(s) && Timely(s, e) && NoRevival(s, e) && (limit.Some? ==> limit.value >= -1)
    requires !(e.Save? && IsLogin(s, e.key, e.session))
    ensures var after := Apply(s, e, limit);
            Active(after, u, after.now) <= Active(s, u, s.now)
  {
  }

  lemma LoginShrinksOthers(s: State, e: Event, limit: Option<int>, u: int)
    requires Valid(s) && Timely(s, e) && (limit.Some? ==> limit.value >= -1)
    requires e.Save? && IsLogin(s, e.key, e.session) && u != e.session.user.value
    ensures var after := Apply(s, e, limit);
            Active(after, u, after.now) <= Active(s, u, s.now)
  {
    var v := e.session.user.value;
    var joined := Join(Saved(s, e.key, e.session, e.checked), v, e.key, e.created);
    JoinIsValid(s, e.key, e.session, e.created, e.checked);
    OverLimitIsActive(joined, v, e.checked, limit);
    EvictIs(joined, OverLimit(joined, v, e.checked, limit));
    var after := Apply(s, e, limit);
    forall m | m in Active(after, u, after.now) ensures m in Active(s, u, s.now) {
      assert m in joined.memberships && m != s.nextPk;
    }
  }

  lemma StepKeepsBound(s: State, e: Event, limit: int)
    requires Valid(s) && Timely(s, e) && NoRevival(s, e) && limit >= 0 && Bounded(s, limit + 1)
    ensures Bounded(Apply(s, e, Some(limit)), limit + 1)
  {
    var after := Apply(s, e, Some(limit));
    forall u ensures |Active(after, u, after.now)| <= limit + 1 {
      if e.Save? && IsLogin(s, e.key, e.session) && u == e.session.user.value {
        LoginKeepsNewest(s, e, Some(limit));
        NowAfterLogin(s, e, Some(limit));
      } else {
        if e.Save? && IsLogin(s, e.key, e.session) {
          LoginShrinksOthers(s, e, Some(limit), u);
        } else {
          OtherEventsShrink(s, e, Some(limit), u);
        }
        SubsetSize(Active(after, u, after.now), Active(s, u, s.now));
      }
    }
  }

  lemma NowAfterLogin(s: State, e: Event, limit: Option<int>)
    requires Valid(s) && Timely(s, e) && (limit.Some? ==> limit.value >= -1)
    requires e.Save? && IsLogin(s, e.key, e.session)
    ensures Apply(s, e, limit).now == e.checked
  {
    var v := e.session.user.value;
    var joined := Join(Saved(s, e.key, e.session, e.checked), v, e.key, e.created);
    JoinIsValid(s, e.key, e.session, e.created, e.checked);
    OverLimitIsActive(joined, v, e.checked, limit);
    EvictIs(joined, OverLimit(joined, v, e.checked, limit));
  }

  ghost function Run(s: State, events: seq<Event>, limit: Option<int>): State
    requires limit.Some? ==> limit.value >= -1
  {
    if events == [] then s else Apply(Run(s, events[..|events| - 1], limit), events[|events| - 1], limit)
  }

  ghost predicate Proper(s: State, events: seq<Event>, limit: Option<int>)
    requires limit.Some? ==> limit.value >= -1
  {
    forall i :: 0 <= i < |events| ==>
      Timely(Run(s, events[..i], limit), events[i]) && NoRevival(Run(s, events[..i], limit), events[i])
  }

  /** Under a fixed limit of L extra sessions no user ever has more than L + 1 active sessions, at any point of
      any run, if no save revives an expired session. */
  lemma {:induction false} NeverOverLimit(s: State, events: seq<Event>, limit: int)
    requires limit >= 0 && Valid(s) && Bounded(s, limit + 1) && Proper(s, events, Some(limit))
    ensures Valid(Run(s, events, Some(limit))) && Bounded(Run(s, events, Some(limit)), limit + 1)
    decreases |events|
  {
    if events != [] {
      var n := |events| - 1;
      forall i | 0 <= i < n
        ensures Timely(Run(s, events[..n][..i], Some(limit)), events[..n][i])
                && NoRevival(Run(s, events[..n][..i], Some(limit)), events[..n][i])
      {
        assert events[..n][..i] == events[..i];
      }
      NeverOverLimit(s, events[..n], limit);
      StepIsValid(Run(s, events[..n], Some(limit)), events[n], Some(limit));
      StepKeepsBound(Run(s, events[..n], Some(limit)), events[n], limit);
    }
  }

  /** An update of a tracked session never evicts, so reviving an expired one adds a session whatever the limit. */
  lemma RevivalAddsOne(s: State, e: Event, limit: Option<int>, m: nat)
    requires Valid(s) && e.Save? && Timely(s, e) && (limit.Some? ==> limit.value >= -1)
    requires m in s.memberships && s.memberships[m].session == e.key
    requires s.sessions[e.key].expires <= e.checked < e.session.expires
    ensures var after, u := Apply(s, e, limit), s.memberships[m].user;
            |Active(after, u, e.checked)| == |Active(s, u, e.checked)| + 1
  {
    var after, u := Apply(s, e, limit), s.memberships[m].user;
    assert Tracked(s, e.key);
    forall x ensures x in Active(after, u, e.checked) <==> x in Active(s, u, e.checked) + {m} {}
    SameElements(Active(after, u, e.checked), Active(s, u, e.checked) + {m});
  }

  /** The event revives an expired tracked session of a user who already has all the sessions allowed. */
  predicate Overflows(s: State, e: Event, limit: int) {
    e.Save? && exists m ::
        m in s.memberships && Revives(s, e, m) && |Active(s, s.memberships[m].user, e.checked)| > limit
  }

  predicate Revives(s: State, e: Event, m: nat)
    requires m in s.memberships && e.Save?
  {
    && s.memberships[m].session == e.key && e.key in s.sessions
    && s.sessions[e.key].expires <= e.checked < e.session.expires
  }

  lemma RevivalLeavesOthers(s: State, e: Event, limit: Option<int>, m: nat, u: int)
    requires Valid(s) && e.Save? && Timely(s, e) && (limit.Some? ==> limit.value >= -1)
    requires m in s.memberships && Revives(s, e, m) && u != s.memberships[m].user
    ensures var after := Apply(s, e, limit); Active(after, u, after.now) <= Active(s, u, s.now)
  {
    assert Tracked(s, e.key);
  }

  lemma RevivalKeepsBoundIff(s: State, e: Event, limit: int, m: nat)
    requires Valid(s) && e.Save? && Timely(s, e) && limit >= 0 && Bounded(s, limit + 1)
    requires m in s.memberships && Revives(s, e, m)
    ensures Bounded(Apply(s, e, Some(limit)), limit + 1) <==> |Active(s, s.memberships[m].user, e.checked)| <= limit
  {
    var after, owner := Apply(s, e, Some(limit)), s.memberships[m].user;
    assert Tracked(s, e.key);
    RevivalAddsOne(s, e, Some(limit), m);
    forall u | u != owner ensures |Active(after, u, after.now)| <= limit + 1 {
      RevivalLeavesOthers(s, e, Some(limit), m, u);
      SubsetSize(Active(after, u, after.now), Active(s, u, s.now));
    }
  }

  /** One event keeps the bound exactly when it does not overflow. */
  lemma StepKeepsBoundIff(s: State, e: Event, limit: int)
    requires Valid(s) && Timely(s, e) && limit >= 0 && Bounded(s, limit + 1)
    ensures Bounded(Apply(s, e, Some(limit)), limit + 1) <==> !Overflows(s, e, limit)
  {
    if NoRevival(s, e) {
      StepKeepsBound(s, e, limit);
    } else {
      var m :| m in s.memberships && s.memberships[m].session == e.key;
      assert Revives(s, e, m);
      RevivalKeepsBoundIff(s, e, limit, m);
    }
  }

  ghost predicate BoundedAt(s: State, events: seq<Event>, limit: int, k: nat)
    requires limit >= 0 && k <= |events|
  {
    Bounded(Run(s, events[..k], Some(limit)), limit + 1)
  }

  ghost predicate OverflowsAt(s: State, events: seq<Event>, limit: int, k: nat)
    requires limit >= 0 && k < |events|
  {
    Overflows(Run(s, events[..k], Some(limit)), events[k], limit)
  }

  ghost predicate TimelyAt(s: State, events: seq<Event>, limit: int, k: nat)
    requires limit >= 0 && k < |events|
  {
    Timely(Run(s, events[..k], Some(limit)), events[k])
  }

  ghost predicate AllTimely(s: State, events: seq<Event>, limit: int, n: nat)
    requires limit >= 0 && n <= |events|
  {
    forall k: nat :: k < n ==> TimelyAt(s, events, limit, k)
  }

  lemma OneMoreEvent(s: State, events: seq<Event>, limit: int, k: nat)
    requires limit >= 0 && k < |events|
    ensures Run(s, events[..k + 1], Some(limit)) == Apply(Run(s, events[..k], Some(limit)), events[k], Some(limit))
  {
    assert events[..k + 1][..k] == events[..k];
  }

  lemma {:induction false} RunIsValid(s: State, events: seq<Event>, limit: int, n: nat)
    requires limit >= 0 && n <= |events| && Valid(s) && AllTimely(s, events, limit, n)
    ensures Valid(Run(s, events[..n], Some(limit)))
    decreases n
  {
    if n > 0 {
      RunIsValid(s, events, limit, n - 1);
      OneMoreEvent(s, events, limit, n - 1);
      assert TimelyAt(s, events, limit, n - 1);
      StepIsValid(Run(s, events[..n - 1], Some(limit)), events[n - 1], Some(limit));
    }
  }

  lemma BoundStepIff(s: State, events: seq<Event>, limit: int, k: nat)
    requires limit >= 0 && k < |events| && Valid(s) && AllTimely(s, events, limit, k + 1)
             && BoundedAt(s, events, limit, k)
    ensures BoundedAt(s, events, limit, k + 1) <==> !OverflowsAt(s, events, limit, k)
  {
    RunIsValid(s, events, limit, k);
    OneMoreEvent(s, events, limit, k);
    assert TimelyAt(s, events, limit, k);
    StepKeepsBoundIff(Run(s, events[..k], Some(limit)), events[k], limit);
  }

  /** Over any run with a fixed limit of L extra sessions, no user ever has more than L + 1 active sessions
      exactly when no event revives an expired session of a user who has L + 1 already. */
  lemma {:induction false} AlwaysBoundedIff(s: State, events: seq<Event>, limit: int, n: nat)
    requires limit >= 0 && n <= |events| && Valid(s) && Bounded(s, limit + 1) && AllTimely(s, events, limit, n)
    ensures (forall k: nat :: k <= n ==> BoundedAt(s, events, limit, k)) <==>
            (forall k: nat :: k < n ==> !OverflowsAt(s, events, limit, k))
    decreases n
  {
    if n == 0 {
      assert events[..0] == [];
    } else {
      AlwaysBoundedIff(s, events, limit, n - 1);
      if BoundedAt(s, events, limit, n - 1) {
        BoundStepIff(s, events, limit, n - 1);
      }
      assert (forall k: nat :: k <= n ==> BoundedAt(s, events, limit, k)) <==>
             (forall k: nat :: k <= n - 1 ==> BoundedAt(s, events, limit, k)) && BoundedAt(s, events, limit, n);
      assert (forall k: nat :: k < n ==> !OverflowsAt(s, events, limit, k)) <==>
             (forall k: nat :: k < n - 1 ==> !OverflowsAt(s, events, limit, k))
                 && !OverflowsAt(s, events, limit, n - 1);
    }
  }
}

/** Which partially migrated accounts are taken for the same person:
    aap_gateway_api/management/commands/_migrate_service_data/user_merge.py. */
module UserGroups {
  datatype ServiceType = Controller | Hub | Eda | Metrics

  const SERVICE_TYPE_ORDER := [Controller, Hub, Eda, Metrics]

  function Rank(t: ServiceType): nat {
    match t
    case Controller => 0
    case Hub => 1
    case Eda => 2
    case Metrics => 3
  }

  /** One known prefix is removed, once. */
  function BaseName(username: string): string {
    if "galaxy_" <= username then username[7..]
    else if "eda_" <= username then username[4..]
    else username
  }

  // ---------- which names belong to one person ----------

  /** Cutting off one leading `galaxy_` or `eda_`, where there is one, leaves base. */
  predicate Strips(username: string, base: string) {
    || username == "galaxy_" + base || username == "eda_" + base
    || (username == base && !("galaxy_" <= username) && !("eda_" <= username))
  }

  ghost predicate SamePerson(a: string, b: string) {
    exists base :: Strips(a, base) && Strips(b, base)
  }

  lemma PrefixIff(prefix: string, s: string, rest: string)
    ensures s == prefix + rest <==> prefix <= s && rest == s[|prefix|..]
  {
  }

  lemma StripsIff(username: string, base: string)
    ensures Strips(username, base) <==> base == BaseName(username)
  {
    PrefixIff("galaxy_", username, base);
    PrefixIff("eda_", username, base);
    if "galaxy_" <= username {
      assert username[0] == 'g';
    }
  }

  lemma SamePersonIff(a: string, b: string)
    ensures SamePerson(a, b) <==> BaseName(a) == BaseName(b)
  {
    forall base {:trigger Strips(a, base)}
      ensures Strips(a, base) && Strips(b, base) <==> base == BaseName(a) && base == BaseName(b)
    {
      StripsIff(a, base);
      StripsIff(b, base);
    }
    StripsIff(a, BaseName(a));
    StripsIff(b, BaseName(a));
  }

  // ---------- the grouping ----------

  // An account as the grouping sees it.
  datatype Listed = Listed(user: nat, username: string, service: ServiceType)

  function OfType(listed: seq<Listed>, t: ServiceType): seq<Listed> {
    if listed == [] then []
    else
      var rest, last := listed[..|listed| - 1], listed[|listed| - 1];
      OfType(rest, t) + (if last.service == t then [last] else [])
  }

  /** The accounts of the types in turn, in the order they were listed. */
  function Ordered(listed: seq<Listed>, types: seq<ServiceType>): seq<Listed> {
    if types == [] then [] else Ordered(listed, types[..|types| - 1]) + OfType(listed, types[|types| - 1])
  }

  function WithBase(accounts: seq<Listed>, base: string): seq<Listed> {
    if accounts == [] then []
    else
      var rest, last := accounts[..|accounts| - 1], accounts[|accounts| - 1];
      WithBase(rest, base) + (if BaseName(last.username) == base then [last] else [])
  }

  // The dict of groups keeps the order in which its keys came.
  datatype Group = Group(base: string, members: seq<Listed>)

  function AddTo(groups: seq<Group>, base: string, account: Listed): seq<Group> {
    if groups == [] then [Group(base, [account])]
    else if groups[0].base == base then [Group(base, groups[0].members + [account])] + groups[1..]
    else [groups[0]] + AddTo(groups[1..], base, account)
  }

  function Grouped(accounts: seq<Listed>): seq<Group> {
    if accounts == [] then []
    else
      var last := accounts[|accounts| - 1];
      AddTo(Grouped(accounts[..|accounts| - 1]), BaseName(last.username), last)
  }

  function Groups(listed: seq<Listed>): seq<Group> {
    Grouped(Ordered(listed, SERVICE_TYPE_ORDER))
  }

  // ---------- the groups are the classes of equal base names ----------

  ghost predicate AreClasses(groups: seq<Group>, accounts: seq<Listed>) {
    && (forall i, j :: 0 <= i < j < |groups| ==> groups[i].base != groups[j].base)
    && (forall g :: g in groups ==> g.members != [] && g.members == WithBase(accounts, g.base))
    && (forall a :: a in accounts ==> exists g :: g in groups && g.base == BaseName(a.username))
  }

  lemma {:induction false} AddToGroups(groups: seq<Group>, base: string, account: Listed)
    requires forall i, j :: 0 <= i < j < |groups| ==> groups[i].base != groups[j].base
    ensures var after := AddTo(groups, base, account);
            && (forall i, j :: 0 <= i < j < |after| ==> after[i].base != after[j].base)
            && (forall g :: g in after ==> g.base == base || g in groups)
            && (forall g :: g in groups && g.base != base ==> g in after)
            && (exists g :: g in after && g.base == base)
            && (forall g :: g in after && g.base == base ==>
                  if exists h :: h in groups && h.base == base
                  then exists h :: h in groups && h.base == base && g.members == h.members + [account]
                  else g.members == [account])
    decreases |groups|
  {
    var after := AddTo(groups, base, account);
    if groups == [] {
      assert after[0] in after;
    } else if groups[0].base == base {
      assert groups[0] in groups && after[0] in after;
      forall k | 0 <= k < |groups[1..]| ensures groups[1..][k].base != base {
        assert groups[k + 1] == groups[1..][k];
      }
    } else {
      AddToGroups(groups[1..], base, account);
      var rest := AddTo(groups[1..], base, account);
      forall k | 0 <= k < |rest| ensures groups[0].base != rest[k].base {
        assert rest[k] in rest;
        if rest[k] in groups[1..] {
          var m :| 0 <= m < |groups[1..]| && groups[1..][m] == rest[k];
          assert groups[m + 1] == rest[k];
        }
      }
      forall g | g in after && g.base == base
        ensures if exists h :: h in groups && h.base == base
                then exists h :: h in groups && h.base == base && g.members == h.members + [account]
                else g.members == [account]
      {
        assert g in rest;
        if h :| h in groups && h.base == base {
          assert h in groups[1..];
        }
      }
    }
  }

  lemma {:induction false} WithBaseEmptyIff(accounts: seq<Listed>, base: string)
    ensures WithBase(accounts, base) == [] <==> forall a :: a in accounts ==> BaseName(a.username) != base
    ensures forall a :: a in WithBase(accounts, base) <==> a in accounts && BaseName(a.username) == base
    decreases |accounts|
  {
    if accounts != [] {
      var rest, last := accounts[..|accounts| - 1], accounts[|accounts| - 1];
      WithBaseEmptyIff(rest, base);
      assert forall a :: a in accounts <==> a in rest || a == last;
    }
  }

  lemma {:induction false} GroupedAreClasses(accounts: seq<Listed>)
    ensures AreClasses(Grouped(accounts), accounts)
    decreases |accounts|
  {
    if accounts != [] {
      var rest, last := accounts[..|accounts| - 1], accounts[|accounts| - 1];
      GroupedAreClasses(rest);
      AddKeepsClasses(rest, Grouped(rest), last);
      assert rest + [last] == accounts;
    }
  }

  lemma AddKeepsClasses(rest: seq<Listed>, groups: seq<Group>, last: Listed)
    requires AreClasses(groups, rest)
    ensures AreClasses(AddTo(groups, BaseName(last.username), last), rest + [last])
  {
    var accounts, base := rest + [last], BaseName(last.username);
    var after := AddTo(groups, base, last);
    assert accounts[..|accounts| - 1] == rest;
    AddToGroups(groups, base, last);
    WithBaseEmptyIff(rest, base);
    forall a | a in accounts ensures exists g :: g in after && g.base == BaseName(a.username) {
      if a in rest && BaseName(a.username) != base {
        var g :| g in groups && g.base == BaseName(a.username);
        assert g in after;
      }
    }
    forall g | g in after ensures g.members != [] && g.members == WithBase(accounts, g.base) {
      if g.base == base && !(exists h :: h in groups && h.base == base) {
        assert WithBase(rest, base) == [];
      }
    }
  }

  // ---------- order and number ----------

  ghost predicate ByRank(accounts: seq<Listed>) {
    forall i, j :: 0 <= i < j < |accounts| ==> Rank(accounts[i].service) <= Rank(accounts[j].service)
  }

  lemma {:induction false} OfTypeIs(listed: seq<Listed>, t: ServiceType)
    ensures forall a :: a in OfType(listed, t) <==> a in listed && a.service == t
    decreases |listed|
  {
    if listed != [] {
      var rest, last := listed[..|listed| - 1], listed[|listed| - 1];
      OfTypeIs(rest, t);
      assert forall a :: a in listed <==> a in rest || a == last;
    }
  }

  lemma OneMoreType(listed: seq<Listed>, types: seq<ServiceType>, t: ServiceType)
    ensures Ordered(listed, types + [t]) == Ordered(listed, types) + OfType(listed, t)
  {
    assert (types + [t])[..|types|] == types;
  }

  lemma OrderedUnfolds(listed: seq<Listed>)
    ensures Ordered(listed, SERVICE_TYPE_ORDER)
            == OfType(listed, Controller) + OfType(listed, Hub) + OfType(listed, Eda) + OfType(listed, Metrics)
  {
    OneMoreType(listed, [], Controller);
    OneMoreType(listed, [Controller], Hub);
    OneMoreType(listed, [Controller, Hub], Eda);
    OneMoreType(listed, [Controller, Hub, Eda], Metrics);
    assert SERVICE_TYPE_ORDER == [Controller, Hub, Eda] + [Metrics];
    assert [Controller, Hub] + [Eda] == [Controller, Hub, Eda];
    assert [Controller] + [Hub] == [Controller, Hub];
    assert [] + [Controller] == [Controller];
  }

  lemma OrderedIsByRank(listed: seq<Listed>)
    ensures ByRank(Ordered(listed, SERVICE_TYPE_ORDER))
    ensures forall a :: a in Ordered(listed, SERVICE_TYPE_ORDER) <==> a in listed
  {
    OrderedUnfolds(listed);
    forall t ensures forall k :: 0 <= k < |OfType(listed, t)| ==> OfType(listed, t)[k].service == t {
      OfTypeIs(listed, t);
      forall k | 0 <= k < |OfType(listed, t)| ensures OfType(listed, t)[k].service == t {
        assert OfType(listed, t)[k] in OfType(listed, t);
      }
    }
    forall a ensures a in Ordered(listed, SERVICE_TYPE_ORDER) <==> a in listed {
      OfTypeIs(listed, a.service);
      OfTypeIs(listed, Controller);
      OfTypeIs(listed, Hub);
      OfTypeIs(listed, Eda);
      OfTypeIs(listed, Metrics);
    }
  }

  lemma {:induction false} OfTypeCounts(listed: seq<Listed>, t: ServiceType, a: Listed)
    ensures multiset(OfType(listed, t))[a] == if a.service == t then multiset(listed)[a] else 0
    decreases |listed|
  {
    if listed != [] {
      OfTypeCounts(listed[..|listed| - 1], t, a);
      assert listed == listed[..|listed| - 1] + [listed[|listed| - 1]];
    }
  }

  lemma OrderedIsPermutation(listed: seq<Listed>)
    ensures multiset(Ordered(listed, SERVICE_TYPE_ORDER)) == multiset(listed)
  {
    OrderedUnfolds(listed);
    forall a ensures multiset(Ordered(listed, SERVICE_TYPE_ORDER))[a] == multiset(listed)[a] {
      OfTypeCounts(listed, Controller, a);
      OfTypeCounts(listed, Hub, a);
      OfTypeCounts(listed, Eda, a);
      OfTypeCounts(listed, Metrics, a);
    }
  }

  lemma {:induction false} HeadHasLeastRank(accounts: seq<Listed>, base: string, a: Listed)
    requires ByRank(accounts) && a in WithBase(accounts, base)
    ensures Rank(WithBase(accounts, base)[0].service) <= Rank(a.service)
    decreases |accounts|
  {
    var rest, last := accounts[..|accounts| - 1], accounts[|accounts| - 1];
    if a in WithBase(rest, base) {
      HeadHasLeastRank(rest, base, a);
    } else if WithBase(rest, base) != [] {
      var head := WithBase(rest, base)[0];
      WithBaseEmptyIff(rest, base);
      assert head in rest;
      var k :| 0 <= k < |rest| && rest[k] == head;
      assert accounts[k] == head;
    }
  }

  function Total(groups: seq<Group>): nat {
    if groups == [] then 0 else |groups[0].members| + Total(groups[1..])
  }

  lemma {:induction false} AddToTotal(groups: seq<Group>, base: string, account: Listed)
    ensures Total(AddTo(groups, base, account)) == Total(groups) + 1
    decreases |groups|
  {
    if groups != [] && groups[0].base != base {
      AddToTotal(groups[1..], base, account);
    }
  }

  lemma {:induction false} GroupedTotal(accounts: seq<Listed>)
    ensures Total(Grouped(accounts)) == |accounts|
    decreases |accounts|
  {
    if accounts != [] {
      var last := accounts[|accounts| - 1];
      GroupedTotal(accounts[..|accounts| - 1]);
      AddToTotal(Grouped(accounts[..|accounts| - 1]), BaseName(last.username), last);
    }
  }

  lemma GroupsByBase(listed: seq<Listed>)
    ensures forall i, j :: 0 <= i < j < |Groups(listed)| ==> Groups(listed)[i].base != Groups(listed)[j].base
    ensures forall g, a :: g in Groups(listed) ==> (a in g.members <==> a in listed && BaseName(a.username) == g.base)
    ensures forall a :: a in listed ==> exists g :: g in Groups(listed) && a in g.members
    ensures Total(Groups(listed)) == |listed|
  {
    var accounts := Ordered(listed, SERVICE_TYPE_ORDER);
    OrderedIsByRank(listed);
    OrderedIsPermutation(listed);
    assert |multiset(accounts)| == |accounts| && |multiset(listed)| == |listed|;
    GroupedAreClasses(accounts);
    GroupedTotal(accounts);
    forall g, a | g in Groups(listed) ensures a in g.members <==> a in listed && BaseName(a.username) == g.base {
      WithBaseEmptyIff(accounts, g.base);
    }
  }

  lemma GroupsAreLed(listed: seq<Listed>)
    ensures forall g :: g in Groups(listed) ==> g.members != [] && forall a :: a in g.members ==>
            Rank(g.members[0].service) <= Rank(a.service)
  {
    var accounts := Ordered(listed, SERVICE_TYPE_ORDER);
    OrderedIsByRank(listed);
    GroupedAreClasses(accounts);
    forall g, a | g in Groups(listed) && a in g.members ensures Rank(g.members[0].service) <= Rank(a.service) {
      HeadHasLeastRank(accounts, g.base, a);
    }
  }

  /** Controller comes first, then Hub, then Eda, then Metrics. */
  predicate NoLater(a: ServiceType, b: ServiceType) {
    a == b || a == Controller || b == Metrics || (a == Hub && b == Eda)
  }

  /** The groups partition the listed accounts by person, each is led by an account of the earliest service type in
      it (Controller, Hub, Eda, Metrics), and together they are as many as were listed. */
  lemma GroupsPartition(listed: seq<Listed>)
    ensures forall a :: a in listed ==> exists g :: g in Groups(listed) && a in g.members
    ensures forall g, a, b :: g in Groups(listed) && a in g.members ==>
            (b in g.members <==> b in listed && SamePerson(a.username, b.username))
    ensures forall g :: g in Groups(listed) ==> g.members != [] && forall a :: a in g.members ==>
            NoLater(g.members[0].service, a.service)
    ensures Total(Groups(listed)) == |listed|
  {
    GroupsByBase(listed);
    GroupsAreLed(listed);
    forall g, a, b | g in Groups(listed) && a in g.members
      ensures b in g.members <==> b in listed && SamePerson(a.username, b.username)
    {
      SamePersonIff(a.username, b.username);
    }
  }

  lemma MembersAreListed(listed: seq<Listed>)
    ensures forall g, a :: g in Groups(listed) && a in g.members ==> a in listed
  {
    GroupsByBase(listed);
  }

  // ---------- no account twice ----------

  ghost predicate Distinct(accounts: seq<Listed>) {
    forall i, j :: 0 <= i < j < |accounts| ==> accounts[i].user != accounts[j].user
  }

  /** No user occurs twice, in one group or in two. */
  ghost predicate Apart(groups: seq<Group>) {
    && (forall g :: g in groups ==> g.members != [] && Distinct(g.members))
    && (forall i, j, a, b :: 0 <= i < j < |groups| && a in groups[i].members && b in groups[j].members ==>
       a.user != b.user)
  }

  lemma {:induction false} WithBaseDistinct(accounts: seq<Listed>, base: string)
    requires Distinct(accounts)
    ensures Distinct(WithBase(accounts, base))
    decreases |accounts|
  {
    if accounts != [] {
      var rest, last := accounts[..|accounts| - 1], accounts[|accounts| - 1];
      WithBaseDistinct(rest, base);
      WithBaseEmptyIff(rest, base);
      forall i | 0 <= i < |WithBase(rest, base)| ensures WithBase(rest, base)[i].user != last.user {
        assert WithBase(rest, base)[i] in rest;
      }
    }
  }

  lemma {:induction false} OfTypeDistinct(listed: seq<Listed>, t: ServiceType)
    requires Distinct(listed)
    ensures Distinct(OfType(listed, t))
    decreases |listed|
  {
    if listed != [] {
      var rest := listed[..|listed| - 1];
      OfTypeDistinct(rest, t);
      OfTypeIs(rest, t);
      forall i | 0 <= i < |OfType(rest, t)| ensures OfType(rest, t)[i].user != listed[|listed| - 1].user {
        assert OfType(rest, t)[i] in rest;
      }
    }
  }

  lemma AppendDistinct(a: seq<Listed>, b: seq<Listed>)
    requires Distinct(a) && Distinct(b) && forall x, y :: x in a && y in b ==> x.user != y.user
    ensures Distinct(a + b)
  {
    forall i, j | 0 <= i < j < |a + b| ensures (a + b)[i].user != (a + b)[j].user {
      if i < |a| <= j {
        assert a[i] in a && b[j - |a|] in b;
      }
    }
  }

  lemma SameUserSameAccount(listed: seq<Listed>, a: Listed, b: Listed)
    requires Distinct(listed) && a in listed && b in listed && a.user == b.user
    ensures a == b
  {
  }

  lemma OrderedDistinct(listed: seq<Listed>)
    requires Distinct(listed)
    ensures Distinct(Ordered(listed, SERVICE_TYPE_ORDER))
  {
    OrderedUnfolds(listed);
    var c, h, e, m := OfType(listed, Controller), OfType(listed, Hub), OfType(listed, Eda), OfType(listed, Metrics);
    forall t ensures Distinct(OfType(listed, t)) && forall a :: a in OfType(listed, t) ==>
      a in listed && a.service == t
    {
      OfTypeDistinct(listed, t);
      OfTypeIs(listed, t);
    }
    forall a, b | a in listed && b in listed && a.service != b.service ensures a.user != b.user {
      if a.user == b.user {
        SameUserSameAccount(listed, a, b);
      }
    }
    AppendDistinct(c, h);
    AppendDistinct(c + h, e);
    AppendDistinct(c + h + e, m);
  }

  lemma GroupsApart(listed: seq<Listed>)
    requires Distinct(listed)
    ensures Apart(Groups(listed))
  {
    GroupsByBase(listed);
    var accounts, groups := Ordered(listed, SERVICE_TYPE_ORDER), Groups(listed);
    OrderedDistinct(listed);
    GroupedAreClasses(accounts);
    forall g | g in groups ensures Distinct(g.members) {
      WithBaseDistinct(accounts, g.base);
    }
    forall i, j, a, b | 0 <= i < j < |groups| && a in groups[i].members && b in groups[j].members
      ensures a.user != b.user
    {
      assert groups[i] in groups && groups[j] in groups;
      if a.user == b.user {
        SameUserSameAccount(listed, a, b);
      }
    }
  }
}

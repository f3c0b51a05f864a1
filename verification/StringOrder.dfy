/** The order of Python strings, and sorting by it. */
module StringOrder {
  import opened Sets

  predicate Leq(a: string, b: string) {
    a == "" || (b != "" && (a[0] < b[0] || (a[0] == b[0] && Leq(a[1..], b[1..]))))
  }

  predicate Less(a: string, b: string) {
    a != b && Leq(a, b)
  }

  lemma {:induction false} LeqTotal(a: string, b: string)
    ensures Leq(a, b) || Leq(b, a)
    decreases |a|
  {
    if a != "" && b != "" {
      LeqTotal(a[1..], b[1..]);
    }
  }

  lemma {:induction false} LeqAntisymmetric(a: string, b: string)
    requires Leq(a, b) && Leq(b, a)
    ensures a == b
    decreases |a|
  {
    if a != "" {
      LeqAntisymmetric(a[1..], b[1..]);
      assert a == [a[0]] + a[1..] && b == [b[0]] + b[1..];
    }
  }

  lemma {:induction false} LeqTransitive(a: string, b: string, c: string)
    requires Leq(a, b) && Leq(b, c)
    ensures Leq(a, c)
    decreases |a|
  {
    if a != "" && a[0] == b[0] && b[0] == c[0] {
      LeqTransitive(a[1..], b[1..], c[1..]);
    }
  }

  // ---------- sorting a set ----------

  predicate IsLeast(m: string, s: set<string>) {
    m in s && forall x :: x in s ==> Leq(m, x)
  }

  lemma {:induction false} LeastExists(s: set<string>)
    requires s != {}
    ensures exists m :: IsLeast(m, s)
  {
    var y := Pick(s);
    LeqTotal(y, y);
    if s != {y} {
      LeastExists(s - {y});
      var m :| IsLeast(m, s - {y});
      LeqTotal(y, m);
      var least := if Leq(y, m) then y else m;
      forall x | x in s ensures Leq(least, x) {
        if x != y && least == y {
          LeqTransitive(y, m, x);
        }
      }
      assert IsLeast(least, s);
    } else {
      assert IsLeast(y, s);
    }
  }

  function Least(s: set<string>): (m: string)
    requires s != {}
    ensures IsLeast(m, s)
  {
    LeastExists(s);
    assert forall m, n :: IsLeast(m, s) && IsLeast(n, s) ==> m == n by {
      forall m, n | IsLeast(m, s) && IsLeast(n, s) ensures m == n {
        LeqAntisymmetric(m, n);
      }
    }
    var m :| m in s && IsLeast(m, s);
    m
  }

  function SortedSet(s: set<string>): seq<string> {
    if s == {} then [] else [Least(s)] + SortedSet(s - {Least(s)})
  }

  ghost predicate StrictlySorted(l: seq<string>) {
    forall i, j :: 0 <= i < j < |l| ==> Less(l[i], l[j])
  }

  lemma {:induction false} SortedSetSorts(s: set<string>)
    ensures StrictlySorted(SortedSet(s))
    ensures forall x :: x in SortedSet(s) <==> x in s
    decreases s
  {
    if s != {} {
      var m := Least(s);
      SortedSetSorts(s - {m});
      var rest := SortedSet(s - {m});
      forall i, j | 0 <= i < j < |[m] + rest| ensures Less(([m] + rest)[i], ([m] + rest)[j]) {
        assert rest[j - 1] in rest;
      }
    }
  }

  // ---------- sorting a list ----------

  ghost predicate Sorted(l: seq<string>) {
    forall i, j :: 0 <= i < j < |l| ==> Leq(l[i], l[j])
  }

  function Insert(x: string, l: seq<string>): seq<string> {
    if l == [] || Leq(x, l[0]) then [x] + l else [l[0]] + Insert(x, l[1..])
  }

  function Sort(l: seq<string>): seq<string> {
    if l == [] then [] else Insert(l[0], Sort(l[1..]))
  }

  lemma {:induction false} InsertSorts(x: string, l: seq<string>)
    requires Sorted(l)
    ensures Sorted(Insert(x, l)) && multiset(Insert(x, l)) == multiset(l) + multiset{x}
    decreases |l|
  {
    if l != [] {
      assert l == [l[0]] + l[1..];
      if Leq(x, l[0]) {
        forall i, j | 0 <= i < j < |[x] + l| ensures Leq(([x] + l)[i], ([x] + l)[j]) {
          if i == 0 && j > 1 {
            LeqTransitive(x, l[0], l[j - 1]);
          }
        }
      } else {
        LeqTotal(x, l[0]);
        InsertSorts(x, l[1..]);
        var rest := Insert(x, l[1..]);
        forall y | y in rest ensures Leq(l[0], y) {
          assert y in multiset(rest);
          assert y == x || y in l[1..];
        }
        assert forall k :: 0 <= k < |rest| ==> rest[k] in rest;
      }
    }
  }

  lemma {:induction false} SortSorts(l: seq<string>)
    ensures Sorted(Sort(l)) && multiset(Sort(l)) == multiset(l) && |Sort(l)| == |l|
    decreases |l|
  {
    if l != [] {
      SortSorts(l[1..]);
      InsertSorts(l[0], Sort(l[1..]));
      assert l == [l[0]] + l[1..];
    }
    assert |multiset(Sort(l))| == |multiset(l)|;
  }

  lemma SortMembers(l: seq<string>)
    ensures forall x :: x in Sort(l) <==> x in l
  {
    SortSorts(l);
    forall x ensures x in Sort(l) <==> x in l {
      assert x in Sort(l) <==> x in multiset(Sort(l));
      assert x in l <==> x in multiset(l);
    }
  }

  /** A sorted list is determined by its elements. */
  lemma {:induction false} SortedUnique(a: seq<string>, b: seq<string>)
    requires Sorted(a) && Sorted(b) && multiset(a) == multiset(b)
    ensures a == b
    decreases |a|
  {
    assert |a| == |multiset(a)| == |multiset(b)| == |b|;
    if a != [] {
      assert a[0] in multiset(a) && b[0] in multiset(b);
      assert a[0] in b && b[0] in a;
      LeqTotal(a[0], a[0]);
      LeqAntisymmetric(a[0], b[0]);
      assert a == [a[0]] + a[1..] && b == [b[0]] + b[1..];
      assert multiset(a[1..]) == multiset(a) - multiset{a[0]};
      assert multiset(b[1..]) == multiset(b) - multiset{b[0]};
      SortedUnique(a[1..], b[1..]);
    }
  }
}

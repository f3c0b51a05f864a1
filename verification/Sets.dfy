/** Facts about finite sets and sequences that several modules use. */
module Sets {
  /** Some element. */
  ghost function Pick<T>(s: set<T>): (x: T)
    requires s != {}
    ensures x in s
  {
    var x :| x in s;
    x
  }

  lemma SameElements<T>(a: set<T>, b: set<T>)
    requires forall x :: x in a <==> x in b
    ensures a == b
  {
  }

  lemma SubsetSize<T>(a: set<T>, b: set<T>)
    requires a <= b
    ensures |a| <= |b|
    ensures a != b ==> |a| < |b|
  {
    assert |b| == |a| + |b - a| by {
      assert b == a + (b - a);
    }
    if a != b {
      var x :| x in b && x !in a;
      assert x in b - a;
    }
  }

  ghost function ToSet<T>(elements: seq<T>): set<T> {
    set x | x in elements
  }

  lemma {:induction false} DistinctSize<T>(elements: seq<T>)
    requires forall i, j :: 0 <= i < j < |elements| ==> elements[i] != elements[j]
    ensures |ToSet(elements)| == |elements|
    decreases |elements|
  {
    if elements != [] {
      var init, last := elements[..|elements| - 1], elements[|elements| - 1];
      DistinctSize(init);
      assert last !in init;
      forall x ensures x in ToSet(elements) <==> x in ToSet(init) + {last} {}
      SameElements(ToSet(elements), ToSet(init) + {last});
    }
  }

  lemma FirstIsIn<T>(elements: seq<T>)
    ensures elements != [] ==> elements[0] in elements
  {
  }

  lemma PrefixGrows<T>(elements: seq<T>, i: nat)
    requires i < |elements|
    ensures elements[..i + 1] == elements[..i] + [elements[i]]
  {
  }

  lemma PrefixTransitive<T>(a: seq<T>, b: seq<T>, c: seq<T>)
    requires a <= b && b <= c
    ensures a <= c
  {
  }
}

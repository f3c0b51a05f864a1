/** The canonical Envoy cluster name of a route: aap_gateway_api/models/route.py.

    The name is built from the service cluster, the port and the sorted node tags, and Envoy clusters are
    deduplicated by it.  The question is what two routes with the same name have in common. */
module ClusterNames {
  import opened StringOrder

  // ---------- rendering ----------

  function Digit(d: nat): char
    requires d < 10
  {
    ('0' as int + d) as char
  }

  function Decimal(n: nat): string {
    if n < 10 then [Digit(n)] else Decimal(n / 10) + [Digit(n % 10)]
  }

  predicate IsSpace(c: char) { c in " \t\n\r" }

  function TrimLeft(s: string): string {
    if s != "" && IsSpace(s[0]) then TrimLeft(s[1..]) else s
  }

  function TrimRight(s: string): string {
    if s != "" && IsSpace(s[|s| - 1]) then TrimRight(s[..|s| - 1]) else s
  }

  /** `split(",")`, which is never empty. */
  function SplitCommas(s: string): (r: seq<string>)
    ensures |r| > 0
  {
    if s == "" then [""]
    else
      var rest := SplitCommas(s[1..]);
      if s[0] == ',' then [""] + rest else [[s[0]] + rest[0]] + rest[1..]
  }

  function Trimmed(parts: seq<string>): seq<string> {
    if parts == [] then [] else [TrimRight(TrimLeft(parts[0]))] + Trimmed(parts[1..])
  }

  /** `node_tags_list` and `tags_list`: empty text has no tags, any other text has at least one. */
  function TagsList(tags: string): seq<string> {
    if tags == "" then [] else Trimmed(SplitCommas(tags))
  }

  function JoinCommas(parts: seq<string>): string {
    if parts == [] then "" else if |parts| == 1 then parts[0] else parts[0] + "," + JoinCommas(parts[1..])
  }

  function TagsPart(tags: seq<string>): string {
    if tags == [] then "*" else JoinCommas(Sort(tags))
  }

  function CanonicalName(cluster: nat, port: nat, nodeTags: string): string {
    "cluster-" + (Decimal(cluster) + "-" + (Decimal(port) + "-" + ("nodes:" + TagsPart(TagsList(nodeTags)))))
  }

  // ---------- injectivity ----------

  lemma {:induction false} DecimalHasNoDash(n: nat)
    ensures Decimal(n) != "" && '-' !in Decimal(n)
    decreases n
  {
    if n >= 10 {
      DecimalHasNoDash(n / 10);
    }
  }

  lemma DecimalParts(n: nat)
    ensures var d := Decimal(n);
            && d != "" && d[|d| - 1] == Digit(n % 10)
            && d[..|d| - 1] == if n < 10 then "" else Decimal(n / 10)
  {
  }

  lemma {:induction false} DecimalInjective(m: nat, n: nat)
    requires Decimal(m) == Decimal(n)
    ensures m == n
    decreases m
  {
    DecimalParts(m);
    DecimalParts(n);
    assert m % 10 == n % 10;
    DecimalHasNoDash(m / 10);
    DecimalHasNoDash(n / 10);
    assert m < 10 <==> n < 10;
    if m >= 10 {
      DecimalInjective(m / 10, n / 10);
    }
  }

  /** Two texts cut at the first occurrence of a separator have equal parts if they are equal. */
  lemma CutIsUnique(a: string, b: string, x: string, y: string, c: char)
    requires c !in a && c !in b && a + [c] + x == b + [c] + y
    ensures a == b && x == y
  {
    var s := a + [c] + x;
    assert s[|a|] == c && s[|b|] == c;
    assert forall i :: 0 <= i < |a| ==> s[i] == a[i] && a[i] in a;
    assert forall i :: 0 <= i < |b| ==> s[i] == b[i] && b[i] in b;
    assert |a| == |b|;
    assert a == s[..|a|] && x == s[|a| + 1..];
  }

  ghost predicate NoCommas(parts: seq<string>) {
    forall p :: p in parts ==> ',' !in p
  }

  lemma {:induction false} SplitHasNoCommas(s: string)
    ensures NoCommas(SplitCommas(s))
    decreases |s|
  {
    if s != "" {
      SplitHasNoCommas(s[1..]);
      var rest := SplitCommas(s[1..]);
      assert rest[0] in rest;
    }
  }

  lemma {:induction false} TrimIsPart(s: string, c: char)
    requires c !in s
    ensures c !in TrimLeft(s) && c !in TrimRight(s)
    decreases |s|
  {
    if s != "" {
      TrimIsPart(s[1..], c);
      TrimIsPart(s[..|s| - 1], c);
    }
  }

  lemma {:induction false} TrimmedHasNoCommas(parts: seq<string>)
    requires NoCommas(parts)
    ensures NoCommas(Trimmed(parts)) && |Trimmed(parts)| == |parts|
    decreases |parts|
  {
    if parts != [] {
      TrimmedHasNoCommas(parts[1..]);
      assert parts[0] in parts;
      TrimIsPart(parts[0], ',');
      TrimIsPart(TrimLeft(parts[0]), ',');
    }
  }

  lemma TagsHaveNoCommas(tags: string)
    ensures NoCommas(TagsList(tags))
    ensures TagsList(tags) == [] <==> tags == ""
  {
    if tags != "" {
      SplitHasNoCommas(tags);
      TrimmedHasNoCommas(SplitCommas(tags));
    }
  }

  lemma JoinHasComma(a: seq<string>)
    requires a != [] && NoCommas(a)
    ensures ',' in JoinCommas(a) <==> |a| > 1
  {
    assert a[0] in a;
    if |a| > 1 {
      assert JoinCommas(a)[|a[0]|] == ',';
    }
  }

  lemma {:induction false} JoinInjective(a: seq<string>, b: seq<string>)
    requires a != [] && b != [] && NoCommas(a) && NoCommas(b) && JoinCommas(a) == JoinCommas(b)
    ensures a == b
    decreases |a|
  {
    assert a[0] in a && b[0] in b;
    JoinHasComma(a);
    JoinHasComma(b);
    if |a| > 1 {
      CutIsUnique(a[0], b[0], JoinCommas(a[1..]), JoinCommas(b[1..]), ',');
      JoinInjective(a[1..], b[1..]);
    }
  }

  /** The one ambiguity of the rendering: no tags, and the single tag `*`. */
  ghost predicate StarCollision(a: seq<string>, b: seq<string>) {
    (a == [] && b == ["*"]) || (a == ["*"] && b == [])
  }

  lemma TagsPartIff(a: seq<string>, b: seq<string>)
    requires NoCommas(a) && NoCommas(b)
    ensures TagsPart(a) == TagsPart(b) <==> multiset(a) == multiset(b) || StarCollision(a, b)
  {
    SortSorts(a);
    SortSorts(b);
    if a != [] && b != [] {
      SortMembers(a);
      SortMembers(b);
      if TagsPart(a) == TagsPart(b) {
        JoinInjective(Sort(a), Sort(b));
      }
      if multiset(a) == multiset(b) {
        SortedUnique(Sort(a), Sort(b));
      }
    } else if a == [] && b != [] {
      StarOnly(b);
      assert b[0] in multiset(b);
    } else if b == [] && a != [] {
      StarOnly(a);
      assert a[0] in multiset(a);
    }
  }

  lemma StarOnly(l: seq<string>)
    requires l != [] && NoCommas(l)
    ensures JoinCommas(Sort(l)) == "*" <==> l == ["*"]
  {
    SortSorts(l);
    var sorted := Sort(l);
    SortMembers(l);
    if JoinCommas(sorted) == "*" {
      JoinInjective(sorted, ["*"]);
      assert |l| == 1 && l[0] in multiset(l);
      assert multiset(l) == multiset(["*"]);
      assert l == ["*"];
    }
    if l == ["*"] {
      assert Sort(l[1..]) == [];
      assert sorted == ["*"];
    }
  }

  /** Two routes have the same canonical name exactly when they have the same service cluster, the same
      port, and the same tags up to order, or one of them has no tags and the other the single tag `*`. */
  lemma SameNameIff(cluster1: nat, port1: nat, tags1: string, cluster2: nat, port2: nat, tags2: string)
    ensures var a, b := TagsList(tags1), TagsList(tags2);
            CanonicalName(cluster1, port1, tags1) == CanonicalName(cluster2, port2, tags2) <==>
            cluster1 == cluster2 && port1 == port2 && (multiset(a) == multiset(b) || StarCollision(a, b))
  {
    var a, b := TagsList(tags1), TagsList(tags2);
    TagsHaveNoCommas(tags1);
    TagsHaveNoCommas(tags2);
    TagsPartIff(a, b);
    if CanonicalName(cluster1, port1, tags1) == CanonicalName(cluster2, port2, tags2) {
      NameParts(cluster1, port1, TagsPart(a), cluster2, port2, TagsPart(b));
    }
  }

  lemma NameParts(c1: nat, p1: nat, t1: string, c2: nat, p2: nat, t2: string)
    requires "cluster-" + (Decimal(c1) + "-" + (Decimal(p1) + "-" + ("nodes:" + t1)))
          == "cluster-" + (Decimal(c2) + "-" + (Decimal(p2) + "-" + ("nodes:" + t2)))
    ensures c1 == c2 && p1 == p2 && t1 == t2
  {
    DecimalHasNoDash(c1);
    DecimalHasNoDash(c2);
    DecimalHasNoDash(p1);
    DecimalHasNoDash(p2);
    var x1, x2 := Decimal(p1) + "-" + ("nodes:" + t1), Decimal(p2) + "-" + ("nodes:" + t2);
    CancelPrefix("cluster-", Decimal(c1) + "-" + x1, Decimal(c2) + "-" + x2);
    CutIsUnique(Decimal(c1), Decimal(c2), x1, x2, '-');
    CutIsUnique(Decimal(p1), Decimal(p2), "nodes:" + t1, "nodes:" + t2, '-');
    CancelPrefix("nodes:", t1, t2);
    DecimalInjective(c1, c2);
    DecimalInjective(p1, p2);
  }

  lemma CancelPrefix(prefix: string, x: string, y: string)
    requires prefix + x == prefix + y
    ensures x == y
  {
    assert x == (prefix + x)[|prefix|..];
    assert y == (prefix + y)[|prefix|..];
  }

  // ---------- endpoint selection ----------

  /** Whether a route sends traffic to a node with the given tags. */
  predicate Selects(routeTags: string, nodeTags: string) {
    routeTags == "" || exists tag :: tag in TagsList(routeTags) && tag in TagsList(nodeTags)
  }

  /** Equal names without the ambiguity select the same nodes, so any route may stand for its name. */
  lemma SameTagsSelectSame(tags1: string, tags2: string, nodeTags: string)
    requires multiset(TagsList(tags1)) == multiset(TagsList(tags2))
    ensures Selects(tags1, nodeTags) == Selects(tags2, nodeTags)
  {
    var a, b := TagsList(tags1), TagsList(tags2);
    TagsHaveNoCommas(tags1);
    TagsHaveNoCommas(tags2);
    assert forall tag :: tag in a <==> tag in multiset(a);
    assert forall tag :: tag in b <==> tag in multiset(b);
    assert |multiset(a)| == |a| && |multiset(b)| == |b|;
  }

  /** Under the ambiguity the two routes agree on a node exactly when the node carries the tag `*`. */
  lemma CollisionSelectsSameIff(tags1: string, tags2: string, nodeTags: string)
    requires StarCollision(TagsList(tags1), TagsList(tags2))
    ensures Selects(tags1, nodeTags) == Selects(tags2, nodeTags) <==> "*" in TagsList(nodeTags)
  {
    TagsHaveNoCommas(tags1);
    TagsHaveNoCommas(tags2);
    assert "*" in ["*"];
  }
}

/** How the tags of routes and nodes, and the names of clusters, are read and written:
    aap_gateway_api/models/route.py and aap_gateway_api/models/service_node.py, told by the texts themselves. */
module ClusterTexts {
  import opened ClusterNames
  import opened StringOrder

  // ---------- stripping ----------

  predicate IsWhite(c: char) {
    c == ' ' || c == '\t' || c == '\n' || c == '\r'
  }

  predicate White(s: string) {
    forall i :: 0 <= i < |s| ==> IsWhite(s[i])
  }

  /** The text begins and ends with something visible, if it is not empty. */
  predicate Visible(text: string) {
    text == "" || (!IsWhite(text[0]) && !IsWhite(text[|text| - 1]))
  }

  /** The text is what the part is without the white space around it. */
  ghost predicate Strips(part: string, text: string) {
    exists before, after :: StripsTo(part, before, text, after)
  }

  predicate StripsTo(part: string, before: string, text: string, after: string) {
    part == before + text + after && White(before) && White(after) && Visible(text)
  }

  lemma SpaceIsWhite(c: char)
    ensures IsSpace(c) <==> IsWhite(c)
  {
    var spaces := " \t\n\r";
    assert spaces[0] == ' ' && spaces[1] == '\t' && spaces[2] == '\n' && spaces[3] == '\r';
  }

  lemma {:induction false} TrimLeftSplits(s: string) returns (before: string)
    ensures s == before + TrimLeft(s) && White(before)
    ensures TrimLeft(s) == "" || !IsWhite(TrimLeft(s)[0])
    decreases |s|
  {
    before := "";
    if s != "" && IsSpace(s[0]) {
      SpaceIsWhite(s[0]);
      var rest := TrimLeftSplits(s[1..]);
      before := [s[0]] + rest;
    } else if s != "" {
      SpaceIsWhite(s[0]);
    }
  }

  lemma {:induction false} TrimRightSplits(s: string) returns (after: string)
    ensures s == TrimRight(s) + after && White(after)
    ensures TrimRight(s) == "" || !IsWhite(TrimRight(s)[|TrimRight(s)| - 1])
    decreases |s|
  {
    after := "";
    if s != "" {
      var init, last := s[..|s| - 1], s[|s| - 1];
      SpaceIsWhite(last);
      if IsSpace(last) {
        after := TrimRightSplits(init);
        assert s == init + [last];
        after := after + [last];
      }
    }
  }

  lemma TrimStrips(part: string)
    ensures Strips(part, TrimRight(TrimLeft(part)))
  {
    var before := TrimLeftSplits(part);
    var left := TrimLeft(part);
    var after := TrimRightSplits(left);
    assert left != "" && TrimRight(left) != "" ==> TrimRight(left)[0] == left[0];
    assert StripsTo(part, before, TrimRight(left), after);
  }

  lemma Around(part: string, a: string, s: string, b: string, i: nat)
    requires StripsTo(part, a, s, b) && i < |part|
    ensures i < |a| || i >= |a| + |s| ==> IsWhite(part[i])
  {
    if i < |a| {
      assert part[i] == a[i];
    } else if i >= |a| + |s| {
      assert part[i] == b[i - |a| - |s|];
    }
  }

  lemma EmptyIfWhite(part: string, a: string, s: string, b: string)
    requires StripsTo(part, a, s, b)
    ensures s == "" <==> White(part)
  {
    if s == "" {
      assert part == a + b;
    } else {
      assert part[|a|] == s[0];
    }
  }

  lemma StripsOnce(part: string, a: string, s: string, b: string, c: string, t: string, d: string)
    requires StripsTo(part, a, s, b) && StripsTo(part, c, t, d)
    ensures s == t
  {
    EmptyIfWhite(part, a, s, b);
    EmptyIfWhite(part, c, t, d);
    if s != "" && t != "" {
      assert part[|a|] == s[0] && part[|c|] == t[0];
      assert part[|a| + |s| - 1] == s[|s| - 1] && part[|c| + |t| - 1] == t[|t| - 1];
      Around(part, a, s, b, |c|);
      Around(part, c, t, d, |a|);
      Around(part, a, s, b, |c| + |t| - 1);
      Around(part, c, t, d, |a| + |s| - 1);
      assert s == part[|a|..|a| + |s|] && t == part[|c|..|c| + |t|];
    }
  }

  lemma TrimIff(part: string, text: string)
    ensures TrimRight(TrimLeft(part)) == text <==> Strips(part, text)
  {
    TrimStrips(part);
    var trimmed := TrimRight(TrimLeft(part));
    var a, b :| StripsTo(part, a, trimmed, b);
    if Strips(part, text) {
      var c, d :| StripsTo(part, c, text, d);
      StripsOnce(part, a, trimmed, b, c, text, d);
    }
  }

  // ---------- tags ----------

  predicate IsFirstPart(s: string, part: string) {
    part <= s && ',' !in part && (|part| == |s| || s[|part|] == ',')
  }

  ghost predicate IsLaterPart(s: string, part: string) {
    exists before, after :: before != "" && IsPartAt(s, before, part, after)
  }

  /** The part stands between commas, or at an end. */
  predicate IsPartAt(s: string, before: string, part: string, after: string) {
    && s == before + part + after && ',' !in part
    && (before == "" || before[|before| - 1] == ',') && (after == "" || after[0] == ',')
  }

  ghost predicate IsPart(s: string, part: string) {
    exists before, after :: IsPartAt(s, before, part, after)
  }

  lemma PartIs(s: string, part: string)
    ensures IsPart(s, part) <==> IsFirstPart(s, part) || IsLaterPart(s, part)
  {
    if IsFirstPart(s, part) {
      assert IsPartAt(s, "", part, s[|part|..]);
    }
  }

  lemma FirstPartIs(c: char, s: string, first: string)
    requires c != ',' && first != ""
    ensures IsFirstPart([c] + s, first) <==> first[0] == c && IsFirstPart(s, first[1..])
  {
    var whole := [c] + s;
    assert first == [first[0]] + first[1..];
    assert ',' in first <==> first[0] == ',' || ',' in first[1..];
    assert first <= whole <==> first[0] == c && first[1..] <= s;
    assert |first| < |whole| ==> whole[|first|] == s[|first| - 1];
  }

  lemma LaterPartIs(c: char, s: string, part: string)
    ensures IsLaterPart([c] + s, part) <==> IsLaterPart(s, part) || (c == ',' && IsFirstPart(s, part))
  {
    var whole := [c] + s;
    if IsLaterPart(whole, part) {
      var before, after :| before != "" && IsPartAt(whole, before, part, after);
      assert whole[0] == before[0];
      assert whole == before + (part + after);
      assert s == whole[1..] && (before + (part + after))[1..] == before[1..] + (part + after);
      if before[1..] != "" {
        assert s == before[1..] + part + after;
        assert IsPartAt(s, before[1..], part, after);
      } else {
        assert s == part + after;
      }
    }
    if IsLaterPart(s, part) {
      var before, after :| before != "" && IsPartAt(s, before, part, after);
      assert whole == ([c] + before) + part + after;
      assert IsPartAt(whole, [c] + before, part, after);
    }
    if c == ',' && IsFirstPart(s, part) {
      assert whole == [c] + part + s[|part|..];
      assert IsPartAt(whole, [c], part, s[|part|..]);
    }
  }

  lemma {:induction false} SplitIs(s: string, part: string)
    ensures SplitCommas(s)[0] == part <==> IsFirstPart(s, part)
    ensures part in SplitCommas(s)[1..] <==> IsLaterPart(s, part)
    decreases |s|
  {
    if s == "" {
      assert !IsLaterPart(s, part);
    } else {
      var c, rest := s[0], s[1..];
      assert s == [c] + rest;
      SplitIs(rest, part);
      LaterPartIs(c, rest, part);
      var parts := SplitCommas(rest);
      assert parts == [parts[0]] + parts[1..];
      if c == ',' {
        assert SplitCommas(s)[1..] == parts;
        assert part in parts <==> part == parts[0] || part in parts[1..];
        assert part != "" ==> part <= s ==> part[0] == ',';
      } else {
        assert SplitCommas(s)[1..] == parts[1..];
        if part != "" {
          FirstPartIs(c, rest, part);
          SplitIs(rest, part[1..]);
          assert part == [part[0]] + part[1..];
        }
      }
    }
  }

  /** The text names the tag: some part between commas is the tag when stripped.  The empty text names none. */
  ghost predicate HasTag(text: string, tag: string) {
    text != "" && exists part :: IsPart(text, part) && Strips(part, tag)
  }

  lemma {:induction false} TrimmedIs(parts: seq<string>, tag: string)
    ensures tag in Trimmed(parts) <==> exists part :: part in parts && Strips(part, tag)
    decreases |parts|
  {
    if parts != [] {
      TrimmedIs(parts[1..], tag);
      TrimIff(parts[0], tag);
    }
  }

  lemma HasTagIff(text: string, tag: string)
    ensures tag in TagsList(text) <==> HasTag(text, tag)
  {
    if text != "" {
      var parts := SplitCommas(text);
      TrimmedIs(parts, tag);
      forall part ensures part in parts <==> IsPart(text, part) {
        SplitIs(text, part);
        PartIs(text, part);
        assert parts == [parts[0]] + parts[1..];
      }
    }
  }

  /** A route sends traffic to a node if it names no tags, or one of the node's. */
  lemma SelectsIff(routeTags: string, nodeTags: string)
    ensures Selects(routeTags, nodeTags) <==>
            routeTags == "" || exists tag :: HasTag(routeTags, tag) && HasTag(nodeTags, tag)
  {
    forall tag ensures (tag in TagsList(routeTags) <==> HasTag(routeTags, tag))
                       && (tag in TagsList(nodeTags) <==> HasTag(nodeTags, tag))
    {
      HasTagIff(routeTags, tag);
      HasTagIff(nodeTags, tag);
    }
  }

  // ---------- the order of tags ----------

  /** One is a beginning of the other, or is smaller at the first place where they differ. */
  lemma {:induction false} LeqIff(a: string, b: string)
    ensures Leq(a, b) <==> a <= b || exists k :: FirstDifference(a, b, k) && a[k] < b[k]
    decreases |a|
  {
    if a != "" && b != "" {
      var x, y := a[1..], b[1..];
      assert a == [a[0]] + x && b == [b[0]] + y;
      LeqIff(x, y);
      assert a[0] == b[0] ==> (a <= b <==> x <= y);
      if k :| FirstDifference(x, y, k) && x[k] < y[k] && a[0] == b[0] {
        assert FirstDifference(a, b, k + 1) && a[k + 1] < b[k + 1];
      }
      if k :| FirstDifference(a, b, k) && a[k] < b[k] && a[0] == b[0] {
        assert FirstDifference(x, y, k - 1) && x[k - 1] < y[k - 1];
      }
      if a[0] != b[0] {
        assert FirstDifference(a, b, 0);
        assert forall k :: FirstDifference(a, b, k) ==> k == 0;
      }
    }
  }

  predicate FirstDifference(a: string, b: string, k: int) {
    0 <= k < |a| && k < |b| && a[k] != b[k] && forall i :: 0 <= i < k ==> a[i] == b[i]
  }

  // ---------- names ----------

  function Value(s: string): nat {
    if s == "" then 0 else 10 * Value(s[..|s| - 1]) + (if '0' <= s[|s| - 1] then s[|s| - 1] as int - '0' as int else 0)
  }

  /** The digits of a number, without leading zeros. */
  predicate Reads(s: string, n: nat) {
    && Value(s) == n && s != "" && (forall c :: c in s ==> '0' <= c <= '9') && (|s| > 1 ==> s[0] != '0')
  }

  lemma {:induction false} DecimalReads(n: nat)
    ensures Reads(Decimal(n), n)
    decreases n
  {
    if n >= 10 {
      DecimalReads(n / 10);
      var init := Decimal(n / 10);
      assert Decimal(n)[..|Decimal(n)| - 1] == init;
      assert Value(init) == n / 10;
      if |init| == 1 {
        assert init[..0] == "";
      }
    } else {
      assert Decimal(n)[..0] == "";
    }
  }

  predicate Joined(parts: seq<string>, text: string)
    decreases |parts|
  {
    if parts == [] then text == ""
    else if |parts| == 1 then text == parts[0]
    else
      var n := |parts[|parts| - 1]| + 1;
      && n <= |text| && text[|text| - n..] == "," + parts[|parts| - 1]
      && Joined(parts[..|parts| - 1], text[..|text| - n])
  }

  lemma {:induction false} JoinAppend(parts: seq<string>, last: string)
    requires parts != []
    ensures JoinCommas(parts + [last]) == JoinCommas(parts) + ("," + last)
    decreases |parts|
  {
    assert (parts + [last])[1..] == parts[1..] + [last];
    if |parts| > 1 {
      JoinAppend(parts[1..], last);
    }
  }

  lemma {:induction false} JoinIs(parts: seq<string>)
    ensures Joined(parts, JoinCommas(parts))
    decreases |parts|
  {
    if |parts| > 1 {
      var init, last := parts[..|parts| - 1], parts[|parts| - 1];
      assert parts == init + [last];
      JoinIs(init);
      JoinAppend(init, last);
      var text, n := JoinCommas(parts), |last| + 1;
      assert text[|text| - n..] == "," + last && text[..|text| - n] == JoinCommas(init);
    }
  }

  /** The tags in the order of their texts. */
  ghost predicate IsSortedTags(tags: string, sorted: seq<string>) {
    && multiset(sorted) == multiset(TagsList(tags))
    && forall i, j :: 0 <= i < j < |sorted| ==> Leq(sorted[i], sorted[j])
  }

  /** Either the tags in order, joined by commas, or `*` if there are none. */
  ghost predicate IsTagsText(tags: string, text: string) {
    exists sorted :: IsSortedTags(tags, sorted) && if sorted == [] then text == "*" else Joined(sorted, text)
  }

  lemma TagsPartReads(tags: string)
    ensures IsTagsText(tags, TagsPart(TagsList(tags)))
  {
    var sorted := Sort(TagsList(tags));
    SortSorts(TagsList(tags));
    JoinIs(sorted);
    assert IsSortedTags(tags, sorted);
    assert TagsList(tags) == [] <==> sorted == [];
  }

  /** The name of a cluster: its key, the port and the sorted tags. */
  lemma NameReads(cluster: nat, port: nat, tags: string) returns (c: string, p: string, t: string)
    ensures Reads(c, cluster) && Reads(p, port) && IsTagsText(tags, t)
    ensures CanonicalName(cluster, port, tags) == "cluster-" + (c + ("-" + (p + ("-nodes:" + t))))
  {
    c, p, t := Decimal(cluster), Decimal(port), TagsPart(TagsList(tags));
    DecimalReads(cluster);
    DecimalReads(port);
    TagsPartReads(tags);
    Dashes(c, p, t);
  }

  lemma Dashes(c: string, p: string, t: string)
    ensures "cluster-" + (c + "-" + (p + "-" + ("nodes:" + t))) == "cluster-" + (c + ("-" + (p + ("-nodes:" + t))))
  {
    assert "-" + ("nodes:" + t) == "-nodes:" + t;
    assert p + "-" + ("nodes:" + t) == p + ("-nodes:" + t);
    assert c + "-" + (p + ("-nodes:" + t)) == c + ("-" + (p + ("-nodes:" + t)));
  }
}

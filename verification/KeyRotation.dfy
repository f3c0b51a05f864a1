/** Secret-key rotation: aap_gateway_api/management/commands/rotate_secret_key.py.

    A column is paged by primary key while it is rewritten in place.  `loads` and `dumps` stand for the JSON
    module; how the database driver hands back a jsonb string is left open. */
module KeyRotation {
  import opened Wrappers
  import opened Envelope
  import opened Sets

  // What the driver returns for a column value: SQL null, text, or an already parsed non-string.
  datatype Raw = SqlNull | Text(s: string) | NotText

  datatype Codec = Codec(loads: string -> Option<Json>, dumps: Json -> string, unwrapsJsonb: bool) {
    ghost predicate Valid() {
      && (forall v :: loads(dumps(v)) == Some(v))
      && loads("") == None
      && (forall s :: s != "" && s[0] == '$' ==> loads(s) == None)
    }
  }

  datatype Keys = Keys(cipher: Cipher, codec: Codec, oldKey: string, newKey: string) {
    ghost predicate Valid() {
      cipher.Valid() && codec.Valid() && oldKey != newKey
    }
  }

  type Table = map<int, Raw>

  // ---------- one value ----------

  predicate Contains(s: string, t: string) {
    exists i :: 0 <= i <= |s| && t <= s[i..]
  }

  predicate LooksEncrypted(s: string) {
    s != "" && Contains(s, ENCRYPTED_MARKER)
  }

  function Normalise(k: Keys, raw: Raw): Option<string> {
    match raw
    case Text(s) =>
      (match k.codec.loads(s)
       case Some(Str(t)) => Some(t)
       case _ => Some(s))
    case _ => None
  }

  /** The cleartext a string stands for under a key, if it is ciphertext that opens under it. */
  function StringMeaning(k: Keys, key: string, s: string): Option<Json> {
    Decrypt(k.cipher, s, key)
  }

  /** The marker occurs in the string. */
  ghost predicate HasMarker(s: string) {
    exists before, after :: s == before + ("$encrypted$" + after)
  }

  lemma LooksEncryptedIff(s: string)
    ensures LooksEncrypted(s) <==> HasMarker(s)
  {
    if LooksEncrypted(s) {
      var i :| 0 <= i <= |s| && ENCRYPTED_MARKER <= s[i..];
      var after := s[i..][|ENCRYPTED_MARKER|..];
      assert s == s[..i] + s[i..] && s[i..] == "$encrypted$" + after;
    }
    if before, after :| s == before + ("$encrypted$" + after) {
      assert s[|before|..] == "$encrypted$" + after;
    }
  }

  lemma MeansEncrypted(k: Keys, key: string, s: string)
    ensures StringMeaning(k, key, s).Some? ==> HasMarker(s)
  {
    if StringMeaning(k, key, s).Some? {
      var after := s[|ENCRYPTED_MARKER|..];
      assert s == "" + ("$encrypted$" + after);
    }
  }

  function Meaning(k: Keys, key: string, raw: Raw): Option<Json> {
    match Normalise(k, raw)
    case Some(s) => StringMeaning(k, key, s)
    case None => None
  }

  datatype Verdict = Untouched | Skipped | Reencrypted(value: string)

  /** `None` doubles as the failure marker, so a cleartext JSON null is neither rewritten nor counted. */
  function ReencryptString(k: Keys, s: string, nonce: nat): Verdict {
    if !LooksEncrypted(s) then Untouched
    else
      match Decrypt(k.cipher, s, k.oldKey)
      case None => Skipped
      case Some(Null) => Untouched
      case Some(v) => Reencrypted(Encrypt(k.cipher, v, k.newKey, nonce))
  }

  function ReencryptValue(k: Keys, raw: Raw, nonce: nat): Verdict {
    match Normalise(k, raw)
    case None => Untouched
    case Some(s) => ReencryptString(k, s, nonce)
  }

  /** How a written string reads back: a jsonb string may come back still quoted. */
  function Written(k: Keys, s: string, isJsonb: bool): Raw {
    if isJsonb && !k.codec.unwrapsJsonb then Text(k.codec.dumps(Str(s))) else Text(s)
  }

  function RotateCell(k: Keys, isJsonb: bool, raw: Raw, nonce: nat): Raw {
    match ReencryptValue(k, raw, nonce)
    case Reencrypted(s) => Written(k, s, isJsonb)
    case _ => raw
  }

  lemma CiphertextLooksEncrypted(k: Keys, v: Json, key: string, nonce: nat)
    ensures LooksEncrypted(Encrypt(k.cipher, v, key, nonce))
    ensures Encrypt(k.cipher, v, key, nonce)[0] == '$'
  {
    var s := Encrypt(k.cipher, v, key, nonce);
    assert s[0..] == s && ENCRYPTED_MARKER <= s[0..];
  }

  /** A string is re-encrypted exactly when it has a non-null cleartext under the old key, and then it has
      the same one under the new key and none under the old; it is skipped exactly when it has the marker but no
      cleartext under the old key. */
  lemma StringKeepsMeaning(k: Keys, s: string, nonce: nat)
    requires k.Valid()
    ensures var verdict, before := ReencryptString(k, s, nonce), StringMeaning(k, k.oldKey, s);
            && (verdict.Reencrypted? <==> before.Some? && before != Some(Null))
            && (verdict.Skipped? <==> HasMarker(s) && before.None?)
            && (verdict.Reencrypted? ==>
                  && StringMeaning(k, k.newKey, verdict.value) == before
                  && StringMeaning(k, k.oldKey, verdict.value) == None
                  && verdict.value != "" && verdict.value[0] == '$')
  {
    var before := StringMeaning(k, k.oldKey, s);
    LooksEncryptedIff(s);
    MeansEncrypted(k, k.oldKey, s);
    if before.Some? {
      CiphertextLooksEncrypted(k, before.value, k.newKey, nonce);
      RoundTrip(k.cipher, before.value, k.newKey, nonce, k.newKey);
      RoundTrip(k.cipher, before.value, k.newKey, nonce, k.oldKey);
    }
  }

  lemma WrittenReadsBack(k: Keys, s: string, isJsonb: bool)
    requires k.codec.Valid() && s != "" && s[0] == '$'
    ensures Normalise(k, Written(k, s, isJsonb)) == Some(s)
  {
  }

  /** The value is ciphertext that opens to v; a jsonb column whose driver leaves the quotes on has it quoted. */
  ghost predicate Holds(k: Keys, key: string, isJsonb: bool, raw: Raw, v: Json) {
    && raw.Text?
    && if isJsonb && !k.codec.unwrapsJsonb
       then exists s :: k.codec.loads(raw.s) == Some(Str(s)) && StringMeaning(k, key, s) == Some(v)
       else StringMeaning(k, key, raw.s) == Some(v)
  }

  /** A value with a non-null cleartext under the old key is replaced by ciphertext that means the same under the
      new key and nothing under the old one; every other value is left as it was. */
  lemma RotationPreservesMeaning(k: Keys, isJsonb: bool, raw: Raw, nonce: nat)
    requires k.Valid()
    ensures var after, before := RotateCell(k, isJsonb, raw, nonce), Meaning(k, k.oldKey, raw);
            if before.Some? && before != Some(Null)
            then && Meaning(k, k.newKey, after) == before && Meaning(k, k.oldKey, after) == None
                 && Holds(k, k.newKey, isJsonb, after, before.value)
            else after == raw
  {
    var s := Normalise(k, raw);
    if s.Some? {
      StringKeepsMeaning(k, s.value, nonce);
      var verdict := ReencryptString(k, s.value, nonce);
      if verdict.Reencrypted? {
        WrittenReadsBack(k, verdict.value, isJsonb);
        assert k.codec.loads(k.codec.dumps(Str(verdict.value))) == Some(Str(verdict.value));
      }
    }
  }

  /** A sealed JSON null stays under the old key and is not reported as skipped either. */
  lemma NullIsLeftBehindSilently(k: Keys, isJsonb: bool, nonce: nat, nonce2: nat)
    requires k.Valid()
    ensures var raw := Text(Encrypt(k.cipher, Null, k.oldKey, nonce));
            && Meaning(k, k.oldKey, raw) == Some(Null)
            && ReencryptValue(k, raw, nonce2) == Untouched
            && Meaning(k, k.newKey, RotateCell(k, isJsonb, raw, nonce2)) == None
  {
    CiphertextLooksEncrypted(k, Null, k.oldKey, nonce);
    RoundTrip(k.cipher, Null, k.oldKey, nonce, k.oldKey);
    RoundTrip(k.cipher, Null, k.oldKey, nonce, k.newKey);
  }

  /** A value is counted as re-encrypted exactly when rotating changes it. */
  lemma CountedIffChanged(k: Keys, isJsonb: bool, raw: Raw, nonce: nat)
    requires k.Valid()
    ensures ReencryptValue(k, raw, nonce).Reencrypted? <==> RotateCell(k, isJsonb, raw, nonce) != raw
  {
    RotationPreservesMeaning(k, isJsonb, raw, nonce);
  }

  /** What was rotated once is not re-encrypted again. */
  lemma SecondRotationIsIdle(k: Keys, isJsonb: bool, raw: Raw, nonce: nat, nonce2: nat)
    requires k.Valid()
    ensures !ReencryptValue(k, RotateCell(k, isJsonb, raw, nonce), nonce2).Reencrypted?
  {
    RotationPreservesMeaning(k, isJsonb, raw, nonce);
  }

  // ---------- a column ----------

  const FETCH_BATCH_SIZE: nat := 2000

  function RowsAbove(t: Table, last: Option<int>): set<int> {
    set pk | pk in t && !t[pk].SqlNull? && (last.None? || pk > last.value)
  }

  function Least(s: set<int>): (m: int)
    requires s != {}
    ensures m in s && forall x :: x in s ==> m <= x
  {
    LeastExists(s);
    var m :| m in s && forall x :: x in s ==> m <= x;
    m
  }

  lemma {:induction false} LeastExists(s: set<int>)
    requires s != {}
    ensures exists m :: m in s && forall x :: x in s ==> m <= x
  {
    var y := Pick(s);
    if s != {y} {
      LeastExists(s - {y});
      var m :| m in s - {y} && forall x :: x in s - {y} ==> m <= x;
      var least := if y < m then y else m;
      forall x | x in s ensures least <= x {
        assert x == y || x in s - {y};
      }
      assert least in s;
    }
  }

  /** The non-null rows above last in key order: what the paged query would return without its limit. */
  function Ordered(t: Table, last: Option<int>): (pks: seq<int>)
    ensures forall pk :: pk in pks ==> pk in RowsAbove(t, last)
    decreases RowsAbove(t, last)
  {
    if RowsAbove(t, last) == {} then []
    else
      var m := Least(RowsAbove(t, last));
      assert m !in RowsAbove(t, Some(m)) && RowsAbove(t, Some(m)) <= RowsAbove(t, last);
      [m] + Ordered(t, Some(m))
  }

  function PageOf(t: Table, last: Option<int>, limit: nat): seq<int> {
    var all := Ordered(t, last);
    if |all| <= limit then all else all[..limit]
  }

  datatype Tally = Tally(count: nat, skipped: nat)

  function Judge(k: Keys, t: Table, nonce: int -> nat, pk: int): Verdict
    requires pk in t
  {
    ReencryptValue(k, t[pk], nonce(pk))
  }

  function TallyOf(k: Keys, t: Table, nonce: int -> nat, pks: seq<int>): Tally
    requires forall pk :: pk in pks ==> pk in t
  {
    if pks == [] then Tally(0, 0)
    else
      var rest, v := TallyOf(k, t, nonce, pks[1..]), Judge(k, t, nonce, pks[0]);
      Tally(rest.count + (if v.Reencrypted? then 1 else 0), rest.skipped + if v.Skipped? then 1 else 0)
  }

  /** The column after each of the given rows has been rotated. */
  function RotateRows(k: Keys, isJsonb: bool, t: Table, nonce: int -> nat, pks: seq<int>): Table {
    map pk | pk in t :: if pk in pks then RotateCell(k, isJsonb, t[pk], nonce(pk)) else t[pk]
  }

  /** The enumeration is strictly increasing and complete: each non-null row above last occurs once. */
  lemma {:induction false} OrderedIsEnumeration(t: Table, last: Option<int>)
    ensures forall pk :: pk in Ordered(t, last) <==> pk in RowsAbove(t, last)
    ensures forall i, j :: 0 <= i < j < |Ordered(t, last)| ==> Ordered(t, last)[i] < Ordered(t, last)[j]
    decreases RowsAbove(t, last)
  {
    if RowsAbove(t, last) != {} {
      var m := Least(RowsAbove(t, last));
      assert RowsAbove(t, last) == {m} + RowsAbove(t, Some(m));
      assert m !in RowsAbove(t, Some(m));
      OrderedIsEnumeration(t, Some(m));
      var rest := Ordered(t, Some(m));
      assert forall i :: 0 <= i < |rest| ==> rest[i] in rest;
    }
  }

  ghost predicate SameShape(t: Table, t1: Table) {
    forall pk :: (pk in t <==> pk in t1) && (pk in t ==> (t[pk].SqlNull? <==> t1[pk].SqlNull?))
  }

  /** Keyset paging: the rows above the i-th one are the rest of the enumeration, and rewriting the column
      does not change that, because only values change and never to null. */
  lemma {:induction false} OrderedAfter(t: Table, t1: Table, last: Option<int>, i: nat)
    requires SameShape(t, t1)
    requires i < |Ordered(t, last)|
    ensures Ordered(t1, Some(Ordered(t, last)[i])) == Ordered(t, last)[i + 1..]
    decreases RowsAbove(t, last)
  {
    var m := Least(RowsAbove(t, last));
    assert m !in RowsAbove(t, Some(m)) && RowsAbove(t, Some(m)) <= RowsAbove(t, last);
    if i == 0 {
      SameOrder(t, t1, Some(m));
    } else {
      OrderedAfter(t, t1, Some(m), i - 1);
    }
  }

  lemma {:induction false} SameOrder(t: Table, t1: Table, last: Option<int>)
    requires SameShape(t, t1)
    ensures Ordered(t, last) == Ordered(t1, last)
    decreases RowsAbove(t, last)
  {
    forall pk ensures pk in RowsAbove(t, last) <==> pk in RowsAbove(t1, last) {
    }
    SameElements(RowsAbove(t, last), RowsAbove(t1, last));
    if RowsAbove(t, last) != {} {
      var m := Least(RowsAbove(t, last));
      assert m !in RowsAbove(t, Some(m)) && RowsAbove(t, Some(m)) <= RowsAbove(t, last);
      SameOrder(t, t1, Some(m));
    }
  }

  lemma {:induction false} TallyAppend(k: Keys, t: Table, nonce: int -> nat, a: seq<int>, b: seq<int>)
    requires forall pk :: pk in a + b ==> pk in t
    ensures (forall pk :: pk in a ==> pk in t) && (forall pk :: pk in b ==> pk in t)
    ensures var x, y, z := TallyOf(k, t, nonce, a), TallyOf(k, t, nonce, b), TallyOf(k, t, nonce, a + b);
            z.count == x.count + y.count && z.skipped == x.skipped + y.skipped
    decreases |a|
  {
    assert forall pk :: (pk in a ==> pk in a + b) && (pk in b ==> pk in a + b);
    if a == [] {
      assert a + b == b;
    } else {
      assert (a + b)[1..] == a[1..] + b;
      TallyAppend(k, t, nonce, a[1..], b);
    }
  }

  lemma {:induction false} TallyDependsOnRows(k: Keys, t: Table, t1: Table, nonce: int -> nat, pks: seq<int>)
    requires forall pk :: pk in pks ==> pk in t && pk in t1 && t[pk] == t1[pk]
    ensures TallyOf(k, t, nonce, pks) == TallyOf(k, t1, nonce, pks)
    decreases |pks|
  {
    if pks != [] {
      TallyDependsOnRows(k, t, t1, nonce, pks[1..]);
    }
  }

  /** A page that follows the visited rows sees them unrotated, and adds its own to what was rotated. */
  lemma PageIsApart(column: Table, visited: seq<int>, rows: seq<int>, rest: seq<int>)
    requires visited + (rows + rest) == Ordered(column, None)
    ensures forall pk :: pk in visited + rows ==> pk in column && !column[pk].SqlNull?
    ensures forall i, j :: 0 <= i < j < |rows| ==> rows[i] != rows[j]
    ensures forall pk :: pk in rows ==> pk !in visited
  {
    OrderedIsEnumeration(column, None);
    var all := Ordered(column, None);
    assert forall pk :: pk in visited + rows ==> pk in all;
    assert forall i :: 0 <= i < |rows| ==> rows[i] == all[|visited| + i];
    assert forall i :: 0 <= i < |visited| ==> visited[i] == all[i];
  }

  lemma PageComposes(k: Keys, isJsonb: bool, column: Table, nonce: int -> nat, visited: seq<int>, rows: seq<int>,
      rest: seq<int>)
    requires visited + (rows + rest) == Ordered(column, None)
    ensures forall pk :: pk in visited + rows ==> pk in column && !column[pk].SqlNull?
    ensures forall i, j :: 0 <= i < j < |rows| ==> rows[i] != rows[j]
    ensures var mid := RotateRows(k, isJsonb, column, nonce, visited);
            && TallyOf(k, mid, nonce, rows) == TallyOf(k, column, nonce, rows)
            && RotateRows(k, isJsonb, mid, nonce, rows) == RotateRows(k, isJsonb, column, nonce, visited + rows)
    ensures var x, y, z := TallyOf(k, column, nonce, visited), TallyOf(k, column, nonce, rows),
            TallyOf(k, column, nonce, visited + rows);
            z.count == x.count + y.count && z.skipped == x.skipped + y.skipped
  {
    PageIsApart(column, visited, rows, rest);
    TallyAppend(k, column, nonce, visited, rows);
    TallyDependsOnRows(k, RotateRows(k, isJsonb, column, nonce, visited), column, nonce, rows);
  }

  lemma RotationKeepsShape(k: Keys, isJsonb: bool, t: Table, nonce: int -> nat, pks: seq<int>)
    ensures SameShape(t, RotateRows(k, isJsonb, t, nonce, pks))
  {
  }

  function Progress(k: Keys, isJsonb: bool, column: Table, nonce: int -> nat, visited: seq<int>, dryRun: bool): Table {
    if dryRun then column else RotateRows(k, isJsonb, column, nonce, visited)
  }

  /** Writing the visited rows and then one page changes nothing of what the query after the page returns. */
  lemma RestStays(k: Keys, isJsonb: bool, column: Table, nonce: int -> nat, visited: seq<int>, rows: seq<int>,
      dryRun: bool, last: Option<int>)
    requires var all := Ordered(Progress(k, isJsonb, column, nonce, visited, dryRun), last);
             0 < |rows| <= |all| && rows == all[..|rows|]
    ensures var next := Progress(k, isJsonb, column, nonce, visited + rows, dryRun);
            var all := Ordered(Progress(k, isJsonb, column, nonce, visited, dryRun), last);
            Ordered(next, Some(rows[|rows| - 1])) == all[|rows|..]
  {
    RotationKeepsShape(k, isJsonb, column, nonce, visited);
    RotationKeepsShape(k, isJsonb, column, nonce, visited + rows);
    OrderedAfter(Progress(k, isJsonb, column, nonce, visited, dryRun),
      Progress(k, isJsonb, column, nonce, visited + rows, dryRun), last, |rows| - 1);
  }

  /** One page of the loop: its rows follow the visited ones in the enumeration, none was visited before,
      and the next query returns what then remains. */
  lemma NextPage(k: Keys, isJsonb: bool, column: Table, nonce: int -> nat, visited: seq<int>, dryRun: bool,
      last: Option<int>, limit: nat)
    requires var after := Progress(k, isJsonb, column, nonce, visited, dryRun);
             visited + Ordered(after, last) == Ordered(column, None) && PageOf(after, last, limit) != []
    ensures var after := Progress(k, isJsonb, column, nonce, visited, dryRun);
            var rows := PageOf(after, last, limit);
            var next := Progress(k, isJsonb, column, nonce, visited + rows, dryRun);
            && (forall pk :: pk in visited + rows ==> pk in column)
            && (forall i, j :: 0 <= i < j < |rows| ==> rows[i] != rows[j])
            && next == (if dryRun then after else RotateRows(k, isJsonb, after, nonce, rows))
            && (visited + rows) + Ordered(next, Some(rows[|rows| - 1])) == Ordered(column, None)
            && var x, y, z := TallyOf(k, column, nonce, visited), TallyOf(k, after, nonce, rows),
               TallyOf(k, column, nonce, visited + rows);
               z.count == x.count + y.count && z.skipped == x.skipped + y.skipped
  {
    var after := Progress(k, isJsonb, column, nonce, visited, dryRun);
    var all, rows := Ordered(after, last), PageOf(after, last, limit);
    var rest := all[|rows|..];
    assert rows + rest == all;
    assert visited + (rows + rest) == (visited + rows) + rest;
    PageComposes(k, isJsonb, column, nonce, visited, rows, rest);
    RestStays(k, isJsonb, column, nonce, visited, rows, dryRun, last);
  }

  /** The rotated column, as the paging loop leaves it. */
  function RotateColumn(k: Keys, isJsonb: bool, column: Table, nonce: int -> nat): Table {
    RotateRows(k, isJsonb, column, nonce, Ordered(column, None))
  }

  lemma ColumnKeepsMeaning(k: Keys, isJsonb: bool, column: Table, nonce: int -> nat)
    requires k.Valid()
    ensures var after := RotateColumn(k, isJsonb, column, nonce);
            && after.Keys == column.Keys
            && forall pk :: pk in column ==>
                 var before := Meaning(k, k.oldKey, column[pk]);
                 if before.Some? && before != Some(Null)
                 then Meaning(k, k.newKey, after[pk]) == before && Meaning(k, k.oldKey, after[pk]) == None
                 else after[pk] == column[pk]
  {
    OrderedIsEnumeration(column, None);
    forall pk | pk in column
      ensures RotateColumn(k, isJsonb, column, nonce)[pk] == RotateCell(k, isJsonb, column[pk], nonce(pk))
    {
      assert pk in RowsAbove(column, None) || column[pk].SqlNull?;
    }
    forall pk | pk in column {
      RotationPreservesMeaning(k, isJsonb, column[pk], nonce(pk));
    }
  }

  function Counted(k: Keys, column: Table, nonce: int -> nat, last: Option<int>): set<int> {
    set pk | pk in RowsAbove(column, last) && Judge(k, column, nonce, pk).Reencrypted?
  }

  lemma {:induction false} TallyIsCounted(k: Keys, column: Table, nonce: int -> nat, last: Option<int>)
    ensures (forall pk :: pk in Ordered(column, last) ==> pk in column)
    ensures TallyOf(k, column, nonce, Ordered(column, last)).count == |Counted(k, column, nonce, last)|
    decreases RowsAbove(column, last)
  {
    OrderedIsEnumeration(column, last);
    if RowsAbove(column, last) != {} {
      var m := Least(RowsAbove(column, last));
      assert m !in RowsAbove(column, Some(m)) && RowsAbove(column, Some(m)) <= RowsAbove(column, last);
      TallyIsCounted(k, column, nonce, Some(m));
      var rest := Counted(k, column, nonce, Some(m));
      var all := if Judge(k, column, nonce, m).Reencrypted? then rest + {m} else rest;
      forall pk ensures pk in Counted(k, column, nonce, last) <==> pk in all {
      }
      SameElements(Counted(k, column, nonce, last), all);
    }
  }

  /** The reported count is the number of rows whose value is changed. */
  lemma CountIsNumberChanged(k: Keys, isJsonb: bool, column: Table, nonce: int -> nat)
    requires k.Valid()
    ensures (forall pk :: pk in Ordered(column, None) ==> pk in column)
    ensures var after := RotateColumn(k, isJsonb, column, nonce);
            TallyOf(k, column, nonce, Ordered(column, None)).count == |set pk | pk in column && after[pk] != column[pk]|
  {
    TallyIsCounted(k, column, nonce, None);
    OrderedIsEnumeration(column, None);
    var after := RotateColumn(k, isJsonb, column, nonce);
    var changed := set pk | pk in column && after[pk] != column[pk];
    forall pk ensures pk in changed <==> pk in Counted(k, column, nonce, None) {
      if pk in column {
        CountedIffChanged(k, isJsonb, column[pk], nonce(pk));
      }
    }
    SameElements(changed, Counted(k, column, nonce, None));
  }

  /** A value with the marker that has no cleartext under the old key. */
  ghost predicate Unreadable(k: Keys, raw: Raw) {
    var s := Normalise(k, raw);
    s.Some? && HasMarker(s.value) && StringMeaning(k, k.oldKey, s.value).None?
  }

  lemma SkippedIff(k: Keys, raw: Raw, nonce: nat)
    requires k.Valid()
    ensures ReencryptValue(k, raw, nonce).Skipped? <==> Unreadable(k, raw)
  {
    var s := Normalise(k, raw);
    if s.Some? {
      StringKeepsMeaning(k, s.value, nonce);
    }
  }

  lemma {:induction false} TallyIsSkipped(k: Keys, column: Table, nonce: int -> nat, pks: seq<int>)
    requires k.Valid() && (forall pk :: pk in pks ==> pk in column)
    requires forall i, j :: 0 <= i < j < |pks| ==> pks[i] != pks[j]
    ensures TallyOf(k, column, nonce, pks).skipped == |set pk | pk in pks && Unreadable(k, column[pk])|
    decreases |pks|
  {
    if pks != [] {
      var rest, pk := pks[1..], pks[0];
      TallyIsSkipped(k, column, nonce, rest);
      SkippedIff(k, column[pk], nonce(pk));
      assert forall x :: x in pks <==> x == pk || x in rest;
      OneMore((set x | x in rest && Unreadable(k, column[x])), (set x | x in pks && Unreadable(k, column[x])), pk,
          Unreadable(k, column[pk]));
    }
  }

  lemma OneMore<T>(a: set<T>, b: set<T>, n: T, more: bool)
    requires n !in a && forall x :: x in b <==> x in a || (x == n && more)
    ensures |b| == |a| + if more then 1 else 0
  {
    SameElements(b, a + if more then {n} else {});
  }

  /** The reported skips are the rows with the marker that do not open under the old key. */
  lemma SkippedIsNumberUnreadable(k: Keys, column: Table, nonce: int -> nat)
    requires k.Valid()
    ensures (forall pk :: pk in Ordered(column, None) ==> pk in column)
    ensures TallyOf(k, column, nonce, Ordered(column, None)).skipped
            == |set pk | pk in column && Unreadable(k, column[pk])|
  {
    var pks := Ordered(column, None);
    OrderedIsEnumeration(column, None);
    TallyIsSkipped(k, column, nonce, pks);
    var all, listed := set pk | pk in column && Unreadable(k, column[pk]),
        set pk | pk in pks && Unreadable(k, column[pk]);
    forall pk ensures pk in all <==> pk in listed {
      assert pk in column ==> pk in RowsAbove(column, None) || column[pk].SqlNull?;
    }
    SameElements(all, listed);
  }

  /** A second rotation with the same old key re-encrypts nothing. */
  lemma {:induction false} NothingLeftToRotate(k: Keys, isJsonb: bool, column: Table, nonce: int -> nat,
      nonce2: int -> nat, pks: seq<int>)
    requires k.Valid() && forall pk :: pk in pks ==> pk in column
    ensures TallyOf(k, RotateColumn(k, isJsonb, column, nonce), nonce2, pks).count == 0
    decreases |pks|
  {
    if pks != [] {
      NothingLeftToRotate(k, isJsonb, column, nonce, nonce2, pks[1..]);
      OrderedIsEnumeration(column, None);
      var pk := pks[0];
      assert pk in RowsAbove(column, None) || column[pk].SqlNull?;
      assert RotateColumn(k, isJsonb, column, nonce)[pk] == RotateCell(k, isJsonb, column[pk], nonce(pk));
      SecondRotationIsIdle(k, isJsonb, column[pk], nonce(pk), nonce2(pk));
    }
  }

  // ---------- authenticator configurations ----------

  type Config = map<string, Json>

  // A configuration column: absent, a parsed object, or text still to be parsed.
  datatype ConfigCell = NoConfig | Parsed(config: Config) | Unparsed(text: string)

  function ParseConfig(k: Keys, cell: ConfigCell): Option<Config> {
    match cell
    case NoConfig => None
    case Parsed(config) => Some(config)
    case Unparsed(text) =>
      if text == "" then None
      else
        match k.codec.loads(text)
        case Some(Object(config)) => Some(config)
        case _ => None
  }

  datatype FieldRun = FieldRun(config: Config, count: nat, skipped: nat)

  function FieldVerdict(k: Keys, config: Config, field: string, nonce: nat): Verdict {
    if field in config && config[field].Str? then ReencryptString(k, config[field].s, nonce) else Untouched
  }

  /** The encrypted fields are taken in the plugin's order; a repeated name is met again already rotated. */
  function RotateFields(k: Keys, config: Config, fields: seq<string>, nonce: string -> nat): FieldRun {
    if fields == [] then FieldRun(config, 0, 0)
    else
      var before := RotateFields(k, config, fields[..|fields| - 1], nonce);
      var field := fields[|fields| - 1];
      match FieldVerdict(k, before.config, field, nonce(field))
      case Untouched => before
      case Skipped => before.(skipped := before.skipped + 1)
      case Reencrypted(s) => FieldRun(before.config[field := Str(s)], before.count + 1, before.skipped)
  }

  function FieldMeaning(k: Keys, key: string, config: Config, field: string): Option<Json> {
    if field in config && config[field].Str? then StringMeaning(k, key, config[field].s) else None
  }

  lemma FieldStep(k: Keys, config: Config, field: string, nonce: nat)
    requires k.Valid()
    ensures var verdict, before := FieldVerdict(k, config, field, nonce), FieldMeaning(k, k.oldKey, config, field);
            && (verdict.Reencrypted? <==> before.Some? && before != Some(Null))
            && (verdict.Reencrypted? ==>
                  var after := config[field := Str(verdict.value)];
                  field in config && FieldMeaning(k, k.newKey, after, field) == before
                      && FieldMeaning(k, k.oldKey, after, field) == None)
  {
    if field in config && config[field].Str? {
      StringKeepsMeaning(k, config[field].s, nonce);
    }
  }

  /** The field has a non-null cleartext under the old key. */
  predicate HasSecret(k: Keys, config: Config, f: string) {
    var meaning := FieldMeaning(k, k.oldKey, config, f);
    meaning.Some? && meaning != Some(Null)
  }

  /** What rotating a configuration does to one field. */
  ghost predicate FieldKept(k: Keys, config: Config, after: Config, f: string, listed: bool) {
    var before := FieldMeaning(k, k.oldKey, config, f);
    if listed && before.Some? && before != Some(Null)
    then FieldMeaning(k, k.newKey, after, f) == before && FieldMeaning(k, k.oldKey, after, f) == None
    else f in config ==> f in after && after[f] == config[f]
  }

  function AfterField(k: Keys, config: Config, field: string, nonce: nat): Config {
    match FieldVerdict(k, config, field, nonce)
    case Reencrypted(s) => config[field := Str(s)]
    case _ => config
  }

  lemma FieldStaysKept(k: Keys, config: Config, mid: Config, field: string, nonce: nat, f: string, listed: bool)
    requires k.Valid() && mid.Keys == config.Keys
    requires FieldKept(k, config, mid, f, listed)
    ensures FieldKept(k, config, AfterField(k, mid, field, nonce), f, listed || f == field)
  {
    FieldStep(k, mid, field, nonce);
  }

  /** Each listed field with a non-null cleartext keeps it under the new key; all else in the configuration
      is untouched. */
  lemma {:induction false} FieldsKeepMeaning(k: Keys, config: Config, fields: seq<string>, nonce: string -> nat)
    requires k.Valid()
    ensures var run := RotateFields(k, config, fields, nonce);
            && run.config.Keys == config.Keys
            && (forall f :: FieldKept(k, config, run.config, f, f in fields))
            && (run.count == 0 ==> run.config == config)
    decreases |fields|
  {
    if fields != [] {
      var init, field := fields[..|fields| - 1], fields[|fields| - 1];
      FieldsKeepMeaning(k, config, init, nonce);
      var before, after := RotateFields(k, config, init, nonce), RotateFields(k, config, fields, nonce);
      assert after.config == AfterField(k, before.config, field, nonce(field));
      forall f ensures FieldKept(k, config, after.config, f, f in fields) {
        FieldStaysKept(k, config, before.config, field, nonce(field), f, f in init);
        assert f in fields <==> f in init || f == field;
      }
    }
  }

  /** The count is zero exactly when no listed field has a secret. */
  lemma {:induction false} CountsSecrets(k: Keys, config: Config, fields: seq<string>, nonce: string -> nat)
    requires k.Valid()
    ensures RotateFields(k, config, fields, nonce).count == 0 <==> forall f :: f in fields ==> !HasSecret(k, config, f)
    decreases |fields|
  {
    if fields != [] {
      var init, field := fields[..|fields| - 1], fields[|fields| - 1];
      CountsSecrets(k, config, init, nonce);
      FieldsKeepMeaning(k, config, init, nonce);
      FieldStep(k, RotateFields(k, config, init, nonce).config, field, nonce(field));
      assert (forall f :: f in fields ==> !HasSecret(k, config, f)) <==>
             (forall f :: f in init ==> !HasSecret(k, config, f)) && !HasSecret(k, config, field) by {
        assert forall f :: f in fields <==> f in init || f == field;
      }
    }
  }

  /** The field has the marker and does not open under the old key. */
  ghost predicate IsUnreadable(k: Keys, config: Config, f: string) {
    f in config && config[f].Str? && HasMarker(config[f].s) && FieldMeaning(k, k.oldKey, config, f) == None
  }

  /** What meeting the i-th listed name amounts to: a name met before has already been rotated, so the old key no
      longer opens it. */
  ghost predicate Rewrites(k: Keys, config: Config, fields: seq<string>, i: nat)
    requires i < |fields|
  {
    HasSecret(k, config, fields[i]) && fields[i] !in fields[..i]
  }

  ghost predicate Skips(k: Keys, config: Config, fields: seq<string>, i: nat)
    requires i < |fields|
  {
    IsUnreadable(k, config, fields[i]) || (HasSecret(k, config, fields[i]) && fields[i] in fields[..i])
  }

  lemma VerdictOnField(k: Keys, config: Config, fields: seq<string>, nonce: string -> nat)
    requires k.Valid() && fields != []
    ensures var i := |fields| - 1;
            var before := RotateFields(k, config, fields[..i], nonce).config;
            var verdict := FieldVerdict(k, before, fields[i], nonce(fields[i]));
            && (verdict.Reencrypted? <==> Rewrites(k, config, fields, i))
            && (verdict.Skipped? <==> Skips(k, config, fields, i))
  {
    var i := |fields| - 1;
    var init, f := fields[..i], fields[i];
    var before := RotateFields(k, config, init, nonce).config;
    FieldsKeepMeaning(k, config, init, nonce);
    assert FieldKept(k, config, before, f, f in init);
    if f in before && before[f].Str? {
      StringKeepsMeaning(k, before[f].s, nonce(f));
      MeansEncrypted(k, k.newKey, before[f].s);
    }
  }

  ghost function RewrittenAt(k: Keys, config: Config, fields: seq<string>): set<nat> {
    set i: nat | i < |fields| && Rewrites(k, config, fields, i)
  }

  ghost function SkippedAt(k: Keys, config: Config, fields: seq<string>): set<nat> {
    set i: nat | i < |fields| && Skips(k, config, fields, i)
  }

  lemma OneMoreMention(k: Keys, config: Config, fields: seq<string>, n: nat)
    requires |fields| == n + 1
    ensures |RewrittenAt(k, config, fields)|
            == |RewrittenAt(k, config, fields[..n])| + if Rewrites(k, config, fields, n) then 1 else 0
    ensures |SkippedAt(k, config, fields)|
            == |SkippedAt(k, config, fields[..n])| + if Skips(k, config, fields, n) then 1 else 0
  {
    assert forall i: nat :: i < n ==> fields[..n][..i] == fields[..i];
    OneMore(RewrittenAt(k, config, fields[..n]), RewrittenAt(k, config, fields), n, Rewrites(k, config, fields, n));
    OneMore(SkippedAt(k, config, fields[..n]), SkippedAt(k, config, fields), n, Skips(k, config, fields, n));
  }

  lemma OneMoreField(k: Keys, config: Config, fields: seq<string>, nonce: string -> nat, n: nat)
    requires k.Valid() && |fields| == n + 1
    ensures var before, run := RotateFields(k, config, fields[..n], nonce), RotateFields(k, config, fields, nonce);
            && run.count == before.count + (if Rewrites(k, config, fields, n) then 1 else 0)
            && run.skipped == before.skipped + if Skips(k, config, fields, n) then 1 else 0
  {
    VerdictOnField(k, config, fields, nonce);
  }

  /** The numbers reported for a configuration: a name is counted where it first meets a secret, and skipped where
      its value is unreadable or was rotated under an earlier mention. */
  lemma {:induction false} FieldsAreCounted(k: Keys, config: Config, fields: seq<string>, nonce: string -> nat)
    requires k.Valid()
    ensures var run := RotateFields(k, config, fields, nonce);
            run.count == |RewrittenAt(k, config, fields)| && run.skipped == |SkippedAt(k, config, fields)|
    decreases |fields|
  {
    if fields != [] {
      var n := |fields| - 1;
      FieldsAreCounted(k, config, fields[..n], nonce);
      OneMoreMention(k, config, fields, n);
      OneMoreField(k, config, fields, nonce, n);
    }
  }

  // ---------- the command ----------

  datatype Column = Column(isJsonb: bool, table: Table, nonce: int -> nat)
  datatype Authenticator = Authenticator(kind: string, cell: ConfigCell, nonce: string -> nat)
  datatype Database = Database(columns: seq<Column>, authenticators: seq<Authenticator>, preferences: Column)

  function Plus(a: Tally, b: Tally): Tally { Tally(a.count + b.count, a.skipped + b.skipped) }

  function ColumnTally(k: Keys, c: Column): Tally {
    TallyOf(k, c.table, c.nonce, Ordered(c.table, None))
  }

  function Rotated(k: Keys, c: Column): Column {
    c.(table := RotateColumn(k, c.isJsonb, c.table, c.nonce))
  }

  function ColumnsTally(k: Keys, cs: seq<Column>): Tally {
    if cs == [] then Tally(0, 0) else Plus(ColumnsTally(k, cs[..|cs| - 1]), ColumnTally(k, cs[|cs| - 1]))
  }

  // The encrypted field names of each authenticator type, if its plugin loads.
  type Plugins = map<string, seq<string>>

  function AuthenticatorRun(k: Keys, plugins: Plugins, a: Authenticator): Option<FieldRun> {
    match ParseConfig(k, a.cell)
    case None => None
    case Some(config) => if a.kind in plugins then Some(RotateFields(k, config, plugins[a.kind], a.nonce)) else None
  }

  function AuthenticatorTally(k: Keys, plugins: Plugins, a: Authenticator): Tally {
    match AuthenticatorRun(k, plugins, a)
    case None => Tally(0, 0)
    case Some(run) => Tally(run.count, run.skipped)
  }

  /** How a configuration written with `json.dumps` reads back. */
  function StoredConfig(k: Keys, config: Config): ConfigCell {
    if k.codec.unwrapsJsonb then Parsed(config) else Unparsed(k.codec.dumps(Object(config)))
  }

  function RotatedAuthenticator(k: Keys, plugins: Plugins, a: Authenticator): Authenticator {
    match AuthenticatorRun(k, plugins, a)
    case None => a
    case Some(run) =>
      if run.count == 0 then a
      else a.(cell := StoredConfig(k, run.config))
  }

  function AuthenticatorsTally(k: Keys, plugins: Plugins, auths: seq<Authenticator>): Tally {
    if auths == [] then Tally(0, 0)
    else Plus(AuthenticatorsTally(k, plugins, auths[..|auths| - 1]), AuthenticatorTally(k, plugins, auths[|auths| - 1]))
  }

  function RotatedColumns(k: Keys, cs: seq<Column>): seq<Column> {
    if cs == [] then [] else RotatedColumns(k, cs[..|cs| - 1]) + [Rotated(k, cs[|cs| - 1])]
  }

  function RotatedAuthenticators(k: Keys, plugins: Plugins, auths: seq<Authenticator>): seq<Authenticator> {
    if auths == [] then []
    else
      RotatedAuthenticators(k, plugins, auths[..|auths| - 1]) + [RotatedAuthenticator(k, plugins, auths[|auths| - 1])]
  }

  lemma ColumnsStep(k: Keys, cs: seq<Column>, i: nat)
    requires i < |cs|
    ensures ColumnsTally(k, cs[..i + 1]) == Plus(ColumnsTally(k, cs[..i]), ColumnTally(k, cs[i]))
    ensures RotatedColumns(k, cs[..i + 1]) == RotatedColumns(k, cs[..i]) + [Rotated(k, cs[i])]
  {
    assert cs[..i + 1][..i] == cs[..i];
  }

  lemma AuthenticatorsStep(k: Keys, plugins: Plugins, auths: seq<Authenticator>, i: nat)
    requires i < |auths|
    ensures AuthenticatorsTally(k, plugins, auths[..i + 1]).count
            == AuthenticatorsTally(k, plugins, auths[..i]).count + AuthenticatorTally(k, plugins, auths[i]).count
    ensures AuthenticatorsTally(k, plugins, auths[..i + 1]).skipped
            == AuthenticatorsTally(k, plugins, auths[..i]).skipped + AuthenticatorTally(k, plugins, auths[i]).skipped
    ensures RotatedAuthenticators(k, plugins, auths[..i + 1])
            == RotatedAuthenticators(k, plugins, auths[..i]) + [RotatedAuthenticator(k, plugins, auths[i])]
  {
    assert auths[..i + 1][..i] == auths[..i];
  }

  lemma {:induction false} RotatedPointwise(k: Keys, plugins: Plugins, cs: seq<Column>, auths: seq<Authenticator>)
    ensures |RotatedColumns(k, cs)| == |cs| && forall i :: 0 <= i < |cs| ==>
            RotatedColumns(k, cs)[i] == Rotated(k, cs[i])
    ensures |RotatedAuthenticators(k, plugins, auths)| == |auths| &&
            forall i :: 0 <= i < |auths| ==>
              RotatedAuthenticators(k, plugins, auths)[i] == RotatedAuthenticator(k, plugins, auths[i])
    decreases |cs| + |auths|
  {
    if cs != [] {
      RotatedPointwise(k, plugins, cs[..|cs| - 1], auths);
    } else if auths != [] {
      RotatedPointwise(k, plugins, cs, auths[..|auths| - 1]);
    }
  }

  function DatabaseTally(k: Keys, plugins: Plugins, db: Database): Tally {
    Plus(Plus(ColumnsTally(k, db.columns), AuthenticatorsTally(k, plugins, db.authenticators)),
        ColumnTally(k, db.preferences))
  }

  function RotatedDatabase(k: Keys, plugins: Plugins, db: Database): Database {
    Database(RotatedColumns(k, db.columns), RotatedAuthenticators(k, plugins, db.authenticators),
        Rotated(k, db.preferences))
  }

  datatype Result = Refused | Rotation(db: Database, total: nat, skipped: nat)

  /** A dry run leaves the database as it is and reports the numbers of a real run. */
  function Expected(k: Keys, plugins: Plugins, db: Database, dryRun: bool): Result {
    var tally := DatabaseTally(k, plugins, db);
    Rotation(if dryRun then db else RotatedDatabase(k, plugins, db), tally.count, tally.skipped)
  }

  function ListedFields(plugins: Plugins, a: Authenticator): seq<string> {
    if a.kind in plugins then plugins[a.kind] else []
  }

  /** A configuration that is read back after the rotation has kept every field as FieldsKeepMeaning says.  It is
      counted, and can be rewritten, only if some listed field has a secret. */
  lemma AuthenticatorKeepsMeaning(k: Keys, plugins: Plugins, a: Authenticator)
    requires k.Valid()
    ensures match ParseConfig(k, a.cell)
            case None => RotatedAuthenticator(k, plugins, a) == a && AuthenticatorTally(k, plugins, a).count == 0
            case Some(config) =>
              var rotated, listed := RotatedAuthenticator(k, plugins, a), ListedFields(plugins, a);
              var after := ParseConfig(k, rotated.cell);
              && rotated.kind == a.kind
              && after.Some? && after.value.Keys == config.Keys
                 && (forall f :: FieldKept(k, config, after.value, f, f in listed))
              && (AuthenticatorTally(k, plugins, a).count == 0 <==>
                 forall f :: f in listed ==> !HasSecret(k, config, f))
              && (rotated != a ==>
                 && (exists f :: f in listed && HasSecret(k, config, f))
                 && (if k.codec.unwrapsJsonb then rotated.cell.Parsed? else rotated.cell.Unparsed?))
  {
    var config := ParseConfig(k, a.cell);
    if config.Some? && a.kind in plugins {
      FieldsKeepMeaning(k, config.value, plugins[a.kind], a.nonce);
      CountsSecrets(k, config.value, plugins[a.kind], a.nonce);
      var run := RotateFields(k, config.value, plugins[a.kind], a.nonce);
      assert k.codec.loads(k.codec.dumps(Object(run.config))) == Some(Object(run.config));
    }
  }

  // ---------- a second rotation of everything ----------

  lemma NoAuthenticatorLeft(k: Keys, plugins: Plugins, a: Authenticator, again: Authenticator)
    requires k.Valid() && again.kind == a.kind && again.cell == RotatedAuthenticator(k, plugins, a).cell
    ensures AuthenticatorTally(k, plugins, again).count == 0
  {
    AuthenticatorKeepsMeaning(k, plugins, a);
    AuthenticatorKeepsMeaning(k, plugins, again);
    var config := ParseConfig(k, a.cell);
    if config.Some? {
      var after := ParseConfig(k, again.cell).value;
      forall f | f in ListedFields(plugins, a) ensures !HasSecret(k, after, f) {
        assert FieldKept(k, config.value, after, f, true);
      }
    }
  }

  /** The column, or the authenticator, as the first rotation left it; the nonces are those of the second. */
  predicate LeftBy(k: Keys, c: Column, again: Column) {
    again.isJsonb == c.isJsonb && again.table == Rotated(k, c).table
  }

  lemma NoColumnLeft(k: Keys, c: Column, again: Column)
    requires k.Valid() && LeftBy(k, c, again)
    ensures ColumnTally(k, again).count == 0
  {
    OrderedIsEnumeration(again.table, None);
    RotationKeepsKeys(k, c);
    NothingLeftToRotate(k, c.isJsonb, c.table, c.nonce, again.nonce, Ordered(again.table, None));
  }

  lemma RotationKeepsKeys(k: Keys, c: Column)
    requires k.Valid()
    ensures Rotated(k, c).table.Keys == c.table.Keys
  {
    ColumnKeepsMeaning(k, c.isJsonb, c.table, c.nonce);
  }

  lemma {:induction false} NoColumnsLeft(k: Keys, cs: seq<Column>, again: seq<Column>)
    requires k.Valid() && |cs| == |again| && forall i :: 0 <= i < |cs| ==> LeftBy(k, cs[i], again[i])
    ensures ColumnsTally(k, again).count == 0
    decreases |cs|
  {
    if cs != [] {
      NoColumnsLeft(k, cs[..|cs| - 1], again[..|cs| - 1]);
      NoColumnLeft(k, cs[|cs| - 1], again[|cs| - 1]);
    }
  }

  lemma {:induction false} NoAuthenticatorsLeft(k: Keys, plugins: Plugins, auths: seq<Authenticator>,
      again: seq<Authenticator>)
    requires k.Valid() && |auths| == |again|
    requires forall i :: 0 <= i < |auths| ==>
               again[i].kind == auths[i].kind && again[i].cell == RotatedAuthenticator(k, plugins, auths[i]).cell
    ensures AuthenticatorsTally(k, plugins, again).count == 0
    decreases |auths|
  {
    if auths != [] {
      NoAuthenticatorsLeft(k, plugins, auths[..|auths| - 1], again[..|auths| - 1]);
      NoAuthenticatorLeft(k, plugins, auths[|auths| - 1], again[|auths| - 1]);
    }
  }

  /** The second database holds what the first rotation left, with whatever nonces. */
  ghost predicate IsRotationOf(k: Keys, plugins: Plugins, db: Database, again: Database) {
    && |again.columns| == |db.columns| && |again.authenticators| == |db.authenticators|
    && (forall i :: 0 <= i < |db.columns| ==> LeftBy(k, db.columns[i], again.columns[i]))
    && (forall i :: 0 <= i < |db.authenticators| ==>
          && again.authenticators[i].kind == db.authenticators[i].kind
          && again.authenticators[i].cell == RotatedAuthenticator(k, plugins, db.authenticators[i]).cell)
    && LeftBy(k, db.preferences, again.preferences)
  }

  lemma RotatedDatabaseIs(k: Keys, plugins: Plugins, db: Database)
    ensures IsRotationOf(k, plugins, db, RotatedDatabase(k, plugins, db))
  {
    RotatedPointwise(k, plugins, db.columns, db.authenticators);
  }

  /** The same stored values, with whatever nonces the next run will draw. */
  ghost predicate SameData(db: Database, again: Database) {
    && |again.columns| == |db.columns| && |again.authenticators| == |db.authenticators|
    && (forall i :: 0 <= i < |db.columns| ==> SameColumn(db.columns[i], again.columns[i]))
    && (forall i :: 0 <= i < |db.authenticators| ==>
          again.authenticators[i].kind == db.authenticators[i].kind
          && again.authenticators[i].cell == db.authenticators[i].cell)
    && SameColumn(db.preferences, again.preferences)
  }

  predicate SameColumn(c: Column, again: Column) {
    again.isJsonb == c.isJsonb && again.table == c.table
  }

  /** A second rotation of the whole database with the same old key re-encrypts nothing. */
  lemma NothingLeftInDatabase(k: Keys, plugins: Plugins, db: Database, again: Database)
    requires k.Valid() && SameData(RotatedDatabase(k, plugins, db), again)
    ensures DatabaseTally(k, plugins, again).count == 0
  {
    RotatedDatabaseIs(k, plugins, db);
    assert IsRotationOf(k, plugins, db, again);
    NoColumnsLeft(k, db.columns, again.columns);
    NoAuthenticatorsLeft(k, plugins, db.authenticators, again.authenticators);
    NoColumnLeft(k, db.preferences, again.preferences);
  }

  class Rotator {
    const keys: Keys
    var skipped: nat

    constructor (keys: Keys)
      ensures this.keys == keys && skipped == 0
    {
      this.keys, skipped := keys, 0;
    }

    /** One fetched page: rows hold the values as fetched. */
    method ReencryptRows(column: Table, isJsonb: bool, rows: seq<int>, nonce: int -> nat, dryRun: bool)
        returns (after: Table, count: nat)
      requires forall pk :: pk in rows ==> pk in column
      requires forall i, j :: 0 <= i < j < |rows| ==> rows[i] != rows[j]
      modifies this
      ensures after == if dryRun then column else RotateRows(keys, isJsonb, column, nonce, rows)
      ensures var tally := TallyOf(keys, column, nonce, rows);
              count == tally.count && skipped == old(skipped) + tally.skipped
    {
      after, count := column, 0;
      for i := 0 to |rows|
        invariant after == if dryRun then column else RotateRows(keys, isJsonb, column, nonce, rows[..i])
        invariant var tally := TallyOf(keys, column, nonce, rows[..i]);
                  count == tally.count && skipped == old(skipped) + tally.skipped
      {
        var pk := rows[i];
        assert rows[..i + 1] == rows[..i] + [pk];
        TallyAppend(keys, column, nonce, rows[..i], [pk]);
        match ReencryptValue(keys, column[pk], nonce(pk)) {
          case Untouched =>
          case Skipped => skipped := skipped + 1;
          case Reencrypted(s) =>
            if !dryRun {
              after := after[pk := Written(keys, s, isJsonb)];
            }
            count := count + 1;
        }
      }
      assert rows[..|rows|] == rows;
    }

    /** Pages through the column while rewriting it.  Every non-null row is handled exactly once, in key
        order, whatever the page size; a dry run reports the same numbers and writes nothing. */
    method PaginatedReencrypt(column: Table, isJsonb: bool, limit: nat, nonce: int -> nat, dryRun: bool)
      returns (after: Table, count: nat, ghost visited: seq<int>)
      requires limit > 0
      modifies this
      ensures visited == Ordered(column, None) && forall pk :: pk in visited ==> pk in column
      ensures after == Progress(keys, isJsonb, column, nonce, visited, dryRun)
      ensures var tally := TallyOf(keys, column, nonce, visited);
              count == tally.count && skipped == old(skipped) + tally.skipped
    {
      after, count, visited := column, 0, [];
      var last: Option<int> := None;
      assert RotateRows(keys, isJsonb, column, nonce, []) == column;
      while true
        invariant after == Progress(keys, isJsonb, column, nonce, visited, dryRun)
        invariant visited + Ordered(after, last) == Ordered(column, None)
        invariant forall pk :: pk in visited ==> pk in column
        invariant var tally := TallyOf(keys, column, nonce, visited);
                  count == tally.count && skipped == old(skipped) + tally.skipped
        decreases |Ordered(column, None)| - |visited|
      {
        var rows := PageOf(after, last, limit);
        if |rows| == 0 {
          break;
        }
        NextPage(keys, isJsonb, column, nonce, visited, dryRun, last, limit);
        var n;
        after, n := ReencryptRows(after, isJsonb, rows, nonce, dryRun);
        last := Some(rows[|rows| - 1]);
        count, visited := count + n, visited + rows;
      }
    }

    method RotateOneColumn(c: Column, dryRun: bool) returns (after: Column, count: nat)
      modifies this
      ensures after == if dryRun then c else Rotated(keys, c)
      ensures var tally := ColumnTally(keys, c);
              count == tally.count && skipped == old(skipped) + tally.skipped
    {
      var table, n, _ := PaginatedReencrypt(c.table, c.isJsonb, FETCH_BATCH_SIZE, c.nonce, dryRun);
      after, count := c.(table := table), n;
    }

    method RotateColumns(columns: seq<Column>, dryRun: bool) returns (after: seq<Column>, total: nat)
      modifies this
      ensures after == if dryRun then columns else RotatedColumns(keys, columns)
      ensures var tally := ColumnsTally(keys, columns);
              total == tally.count && skipped == old(skipped) + tally.skipped
    {
      after, total := [], 0;
      for i := 0 to |columns|
        invariant after == if dryRun then columns[..i] else RotatedColumns(keys, columns[..i])
        invariant var tally := ColumnsTally(keys, columns[..i]);
                  total == tally.count && skipped == old(skipped) + tally.skipped
      {
        ColumnsStep(keys, columns, i);
        var c, n := RotateOneColumn(columns[i], dryRun);
        after, total := after + [c], total + n;
      }
      assert columns[..|columns|] == columns;
    }

    /** The fields of one configuration, rewritten in place. */
    method ReencryptFields(a: Authenticator, config: Config, fields: seq<string>) returns (run: FieldRun)
      ensures run == RotateFields(keys, config, fields, a.nonce)
    {
      run := FieldRun(config, 0, 0);
      for i := 0 to |fields|
        invariant run == RotateFields(keys, config, fields[..i], a.nonce)
      {
        assert fields[..i + 1][..i] == fields[..i];
        match FieldVerdict(keys, run.config, fields[i], a.nonce(fields[i])) {
          case Untouched =>
          case Skipped => run := run.(skipped := run.skipped + 1);
          case Reencrypted(s) => run := FieldRun(run.config[fields[i] := Str(s)], run.count + 1, run.skipped);
        }
      }
      assert fields[..|fields|] == fields;
    }

    method RotateOneAuthenticator(plugins: Plugins, a: Authenticator, dryRun: bool)
        returns (after: Authenticator, count: nat)
      modifies this
      ensures after == if dryRun then a else RotatedAuthenticator(keys, plugins, a)
      ensures var tally := AuthenticatorTally(keys, plugins, a);
              count == tally.count && skipped == old(skipped) + tally.skipped
    {
      after, count := a, 0;
      var config := ParseConfig(keys, a.cell);
      if config.None? || a.kind !in plugins {
        return;
      }
      var run := ReencryptFields(a, config.value, plugins[a.kind]);
      skipped, count := skipped + run.skipped, run.count;
      if run.count > 0 && !dryRun {
        after := a.(cell := StoredConfig(keys, run.config));
      }
    }

    method RotateAuthenticators(plugins: Plugins, auths: seq<Authenticator>, dryRun: bool)
        returns (after: seq<Authenticator>, total: nat)
      modifies this
      ensures after == if dryRun then auths else RotatedAuthenticators(keys, plugins, auths)
      ensures total == AuthenticatorsTally(keys, plugins, auths).count
      ensures skipped == old(skipped) + AuthenticatorsTally(keys, plugins, auths).skipped
    {
      after, total := [], 0;
      for i := 0 to |auths|
        invariant after == if dryRun then auths[..i] else RotatedAuthenticators(keys, plugins, auths[..i])
        invariant total == AuthenticatorsTally(keys, plugins, auths[..i]).count
        invariant skipped == old(skipped) + AuthenticatorsTally(keys, plugins, auths[..i]).skipped
      {
        var a, n := RotateOneAuthenticator(plugins, auths[i], dryRun);
        AuthenticatorsStep(keys, plugins, auths, i);
        PrefixGrows(auths, i);
        after, total := after + [a], total + n;
      }
      assert auths[..|auths|] == auths;
    }

    /** The whole rotation. */
    method RotateAll(plugins: Plugins, db: Database, dryRun: bool) returns (after: Database, total: nat)
      requires skipped == 0
      modifies this
      ensures after == if dryRun then db else RotatedDatabase(keys, plugins, db)
      ensures total == DatabaseTally(keys, plugins, db).count && skipped == DatabaseTally(keys, plugins, db).skipped
    {
      var columns, n := RotateColumns(db.columns, dryRun);
      var auths, m := RotateAuthenticators(plugins, db.authenticators, dryRun);
      var preferences, p := RotateOneColumn(db.preferences, dryRun);
      after, total := Database(columns, auths, preferences), n + m + p;
    }
  }

  /** None when the command refuses: no custom key where one was asked for, or the key already in use. */
  function NewKey(oldKey: string, useCustomKey: bool, customKey: Option<string>, generated: string): Option<string> {
    var key := if useCustomKey then customKey.GetOr("") else generated;
    if (useCustomKey && key == "") || key == oldKey then None else Some(key)
  }

  method Handle(cipher: Cipher, codec: Codec, oldKey: string, useCustomKey: bool, customKey: Option<string>,
      generated: string, plugins: Plugins, db: Database, dryRun: bool)
    returns (result: Result)
    ensures useCustomKey ==>
              if customKey == None || customKey == Some("") || customKey == Some(oldKey) then result == Refused
              else result == Expected(Keys(cipher, codec, oldKey, customKey.value), plugins, db, dryRun)
    ensures !useCustomKey ==>
              if generated == oldKey then result == Refused
              else result == Expected(Keys(cipher, codec, oldKey, generated), plugins, db, dryRun)
  {
    var newKey := NewKey(oldKey, useCustomKey, customKey, generated);
    if newKey.None? {
      return Refused;
    }
    var rotator := new Rotator(Keys(cipher, codec, oldKey, newKey.value));
    var after, total := rotator.RotateAll(plugins, db, dryRun);
    return Rotation(after, total, rotator.skipped);
  }
}

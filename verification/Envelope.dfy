/** The ciphertext envelope of aap_gateway_api/utils/encryption.py: `$encrypted$UTF8$AESCBC$<token>`.

    The token cipher is symbolic: a sealed value opens under its own key to what was sealed and under no
    other key.  Opening stands for base64, Fernet and JSON decoding together; any of their errors is None. */
module Envelope {
  import opened Wrappers

  datatype Json = Null | Str(s: string) | Object(fields: map<string, Json>) | Other(id: int)

  datatype Cipher = Cipher(seal: (string, Json, nat) -> string, open: (string, string) -> Option<Json>) {
    ghost predicate Valid() {
      && (forall key, v, nonce :: open(key, seal(key, v, nonce)) == Some(v))
      && (forall key, other, v, nonce :: key != other ==> open(other, seal(key, v, nonce)) == None)
    }
  }

  const ENCRYPTED_MARKER := "$encrypted$"
  const ENCODING_TAG := "UTF8$"
  const ENCRYPTION_METHOD := "AESCBC"

  function Encrypt(c: Cipher, v: Json, key: string, nonce: nat): string {
    ENCRYPTED_MARKER + "UTF8$" + ENCRYPTION_METHOD + "$" + c.seal(key, v, nonce)
  }

  /** `split('$', 1)` into exactly two parts. */
  function SplitAtDollar(s: string): Option<(string, string)> {
    if s == "" then None
    else if s[0] == '$' then Some(("", s[1..]))
    else
      match SplitAtDollar(s[1..])
      case None => None
      case Some((head, tail)) => Some(([s[0]] + head, tail))
  }

  /** None where the source raises ValueError or InvalidToken. */
  function Decrypt(c: Cipher, value: string, key: string): Option<Json> {
    if !(ENCRYPTED_MARKER <= value) then None
    else
      var raw := value[|ENCRYPTED_MARKER|..];
      var body := if ENCODING_TAG <= raw then raw[|ENCODING_TAG|..] else raw;
      match SplitAtDollar(body)
      case None => None
      case Some((algo, token)) => if algo != ENCRYPTION_METHOD then None else c.open(key, token)
  }

  lemma {:induction false} SplitIff(s: string, head: string, tail: string)
    ensures SplitAtDollar(s) == Some((head, tail)) <==> '$' !in head && s == head + "$" + tail
    decreases |s|
  {
    if s == "" {
    } else if s[0] == '$' {
      if '$' !in head && s == head + "$" + tail {
        assert s[0] == (head + "$" + tail)[0];
        assert head == "" && s[1..] == tail;
      }
      assert s == "" + "$" + s[1..];
    } else {
      if head != "" {
        SplitIff(s[1..], head[1..], tail);
        assert head == [head[0]] + head[1..];
        assert s == [s[0]] + s[1..];
        if s == head + "$" + tail {
          assert s[1..] == head[1..] + "$" + tail;
        }
        if SplitAtDollar(s) == Some((head, tail)) {
          assert SplitAtDollar(s[1..]) == Some((head[1..], tail));
        }
      }
    }
  }

  /** What the parser accepts: the marker, optionally the encoding tag, the one algorithm, and a token that
      opens under the key. */
  lemma DecryptIff(c: Cipher, value: string, key: string, v: Json)
    ensures Decrypt(c, value, key) == Some(v) <==>
            exists token :: c.open(key, token) == Some(v) &&
              (value == "$encrypted$" + ("AESCBC$" + token) ||
               value == "$encrypted$" + ("UTF8$" + ("AESCBC$" + token)))
  {
    assert forall token :: ENCRYPTION_METHOD + "$" + token == "AESCBC$" + token by {
      assert ENCRYPTION_METHOD + "$" == "AESCBC$";
    }
    if Decrypt(c, value, key) == Some(v) {
      var raw := value[|ENCRYPTED_MARKER|..];
      var body := if ENCODING_TAG <= raw then raw[|ENCODING_TAG|..] else raw;
      var token := SplitAtDollar(body).value.1;
      SplitIff(body, ENCRYPTION_METHOD, token);
      assert value == ENCRYPTED_MARKER + raw;
      assert raw == if ENCODING_TAG <= raw then ENCODING_TAG + body else body;
    }
    if token :| c.open(key, token) == Some(v) && value == ENCRYPTED_MARKER + (ENCRYPTION_METHOD + "$" + token) {
      var body := ENCRYPTION_METHOD + "$" + token;
      assert value[|ENCRYPTED_MARKER|..] == body;
      assert body[0] == 'A';
      SplitIff(body, ENCRYPTION_METHOD, token);
    }
    if token :|
      c.open(key, token) == Some(v) && value == ENCRYPTED_MARKER + (ENCODING_TAG + (ENCRYPTION_METHOD + "$" + token)) {
      var body := ENCRYPTION_METHOD + "$" + token;
      assert value[|ENCRYPTED_MARKER|..] == ENCODING_TAG + body;
      assert value[|ENCRYPTED_MARKER|..][|ENCODING_TAG|..] == body;
      SplitIff(body, ENCRYPTION_METHOD, token);
    }
  }

  /** The parser undoes the printer under the same key, and refuses it under any other. */
  lemma RoundTrip(c: Cipher, v: Json, key: string, nonce: nat, other: string)
    requires c.Valid()
    ensures Encrypt(c, v, key, nonce) == "$encrypted$UTF8$AESCBC$" + c.seal(key, v, nonce)
    ensures Decrypt(c, Encrypt(c, v, key, nonce), other) == if other == key then Some(v) else None
  {
    assert ENCRYPTED_MARKER + "UTF8$" + ENCRYPTION_METHOD + "$" == "$encrypted$UTF8$AESCBC$";
    var token := c.seal(key, v, nonce);
    var value, body := Encrypt(c, v, key, nonce), ENCRYPTION_METHOD + "$" + token;
    assert value == ENCRYPTED_MARKER + (ENCODING_TAG + body);
    assert value[|ENCRYPTED_MARKER|..] == ENCODING_TAG + body;
    assert value[|ENCRYPTED_MARKER|..][|ENCODING_TAG|..] == body;
    SplitIff(body, ENCRYPTION_METHOD, token);
  }
}

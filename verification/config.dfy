/** The token store: a JSON document in the user's home directory holding the provider
    token, read leniently and rewritten whole, and the masked form the page shows. The file
    itself is a value here: what reading it finds, and what writing puts back. */
module Config {
  import opened Wrappers

  /** A parsed JSON document, as far as the store cares: an object, a string, or anything
      else (array, number, boolean, null). */
  datatype Json = Obj(fields: map<string, Json>) | Str(text: string) | Other

  /** What reading the config file finds. A file that is not valid UTF-8 fails to decode
      with `UnicodeDecodeError`, which the reader does not catch. */
  datatype Stored = Absent | Unreadable | Undecodable | Malformed | Parsed(doc: Json)

  /** The exceptions below are named by their class; their messages are not modelled.
      Reading a file that is not valid UTF-8 raises `UnicodeDecodeError`. */
  const DecodeErrorName: string := "UnicodeDecodeError"
  /** `.get` on a document that is not an object raises `AttributeError`. */
  const NoGetName: string := "AttributeError"
  /** Item assignment on a document that is not an object raises `TypeError`. */
  const NoSetName: string := "TypeError"

  /** `_read_config`: a missing file, an I/O error and a JSON syntax error all read as the
      empty object; an undecodable file raises. */
  function ReadConfig(stored: Stored): (r: Result<Json, string>)
    ensures stored.Parsed? ==> r == Success(stored.doc)
    ensures stored.Undecodable? ==> r == Failure(DecodeErrorName)
    ensures stored.Absent? || stored.Unreadable? || stored.Malformed? ==> r == Success(Obj(map[]))
  {
    match stored
    case Absent => Success(Obj(map[]))
    case Unreadable => Success(Obj(map[]))
    case Malformed => Success(Obj(map[]))
    case Undecodable => Failure(DecodeErrorName)
    case Parsed(doc) => Success(doc)
  }

  /** `get_token`: the document's "token" entry, whatever its type, or nothing. */
  function GetToken(stored: Stored): (r: Result<Option<Json>, string>)
    ensures stored.Absent? || stored.Unreadable? || stored.Malformed? ==> r == Success(None)
    ensures stored.Parsed? && stored.doc.Obj? ==>
      r == Success(if "token" in stored.doc.fields then Some(stored.doc.fields["token"]) else None)
    ensures stored.Parsed? && !stored.doc.Obj? ==> r == Failure(NoGetName)
    ensures stored.Undecodable? ==> r == Failure(DecodeErrorName)
  {
    match ReadConfig(stored)
    case Failure(e) => Failure(e)
    case Success(doc) =>
      match doc
      case Obj(fields) => Success(if "token" in fields then Some(fields["token"]) else None)
      case _ => Failure(NoGetName)
  }

  /** `save_token`: read the document, set its "token" entry, write it all back. What the
      file holds afterwards is the written document; the write itself is not modelled. */
  function SaveToken(stored: Stored, token: string): (r: Result<Stored, string>)
    ensures r.Success? <==> ReadConfig(stored).Success? && ReadConfig(stored).value.Obj?
    ensures r.Success? ==> r.value.Parsed? && r.value.doc.Obj?
    ensures r.Success? ==> var before := ReadConfig(stored).value.fields;
      var after := r.value.doc.fields;
      after.Keys == before.Keys + {"token"} && after["token"] == Str(token) &&
      forall k :: k in before && k != "token" ==> after[k] == before[k]
  {
    match ReadConfig(stored)
    case Failure(e) => Failure(e)
    case Success(doc) =>
      match doc
      case Obj(fields) => Success(Parsed(Obj(fields["token" := Str(token)])))
      case _ => Failure(NoSetName)
  }

  /** A saved token is what the next `get_token` returns, and a second save of the same
      token changes nothing. */
  lemma SaveThenGet(stored: Stored, token: string)
    requires SaveToken(stored, token).Success?
    ensures GetToken(SaveToken(stored, token).value) == Success(Some(Str(token)))
    ensures SaveToken(SaveToken(stored, token).value, token) == SaveToken(stored, token)
  {
    var fields := ReadConfig(stored).value.fields;
    var once := fields["token" := Str(token)];
    assert once["token" := Str(token)] == once;
  }

  /** A missing or malformed file means no token; saving then starts a fresh document
      holding the token alone. */
  lemma EmptyStore(stored: Stored, token: string)
    requires stored.Absent? || stored.Unreadable? || stored.Malformed?
    ensures GetToken(stored) == Success(None)
    ensures SaveToken(stored, token) == Success(Parsed(Obj(map["token" := Str(token)])))
  {
  }

  /** `n` asterisks. */
  function Stars(n: nat): (r: string)
    ensures |r| == n
    ensures forall i :: 0 <= i < n ==> r[i] == '*'
  {
    seq(n, _ => '*')
  }

  /** `mask_token`: nothing for a missing or empty token, four asterisks for a short one,
      and for a longer one its first and last four characters around asterisks. */
  function MaskToken(token: Option<string>): (r: string)
    ensures token.None? || token.value == "" ==> r == ""
    ensures token.Some? && 0 < |token.value| <= 8 ==> r == "****"
    ensures token.Some? && |token.value| > 8 ==>
      var t := token.value;
      |r| == |t| && r[..4] == t[..4] && r[|r| - 4..] == t[|t| - 4..] &&
      forall i :: 4 <= i < |r| - 4 ==> r[i] == '*'
  {
    if token.None? || token.value == "" then ""
    else
      var t := token.value;
      if |t| <= 8 then "****"
      else
        var r := t[..4] + Stars(|t| - 8) + t[|t| - 4..];
        assert forall i :: 4 <= i < |r| - 4 ==> r[i] == Stars(|t| - 8)[i - 4];
        r
  }

  /** The mask gives away at most the length and the first and last four characters: two
      tokens that agree on those mask alike, and no short token can be told from another. */
  lemma MaskHides(a: string, b: string)
    requires |a| == |b|
    requires |a| <= 8 || (a[..4] == b[..4] && a[|a| - 4..] == b[|b| - 4..])
    ensures MaskToken(Some(a)) == MaskToken(Some(b))
  {
    if |a| > 8 {
      var ma, mb := MaskToken(Some(a)), MaskToken(Some(b));
      assert forall i :: 0 <= i < |ma| ==> ma[i] == mb[i] by {
        forall i | 0 <= i < |ma|
          ensures ma[i] == mb[i]
        {
          if i < 4 {
            assert ma[i] == ma[..4][i] && mb[i] == mb[..4][i];
          } else if i >= |ma| - 4 {
            assert ma[i] == ma[|ma| - 4..][i - (|ma| - 4)] && mb[i] == mb[|mb| - 4..][i - (|mb| - 4)];
          }
        }
      }
    }
  }

  /** Masking a long token twice gives the same as masking it once. */
  lemma MaskTwice(t: string)
    requires |t| > 8
    ensures MaskToken(Some(MaskToken(Some(t)))) == MaskToken(Some(t))
  {
    var m := MaskToken(Some(t));
    var mm := MaskToken(Some(m));
    assert forall i :: 0 <= i < |m| ==> mm[i] == m[i] by {
      forall i | 0 <= i < |m|
        ensures mm[i] == m[i]
      {
        if i < 4 {
          assert mm[i] == mm[..4][i] && m[i] == m[..4][i];
        } else if i >= |m| - 4 {
          assert mm[i] == mm[|mm| - 4..][i - (|mm| - 4)] && m[i] == m[|m| - 4..][i - (|m| - 4)];
        }
      }
    }
  }
}

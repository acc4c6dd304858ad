/** The page's list of security codes: normalising what the user typed into a
    `dddddd.SH` / `dddddd.SZ` code, adding it once, and removing it again. */
module CodeList {
  import opened Wrappers
  import opened Text

  predicate IsDigit(c: char) {
    '0' <= c <= '9'
  }

  /** `String.prototype.toUpperCase` on ASCII: lower-case letters become capitals, every
      other character stays. */
  function AsciiUpper(s: string): (r: string)
    ensures |r| == |s|
    ensures NoLower(r)
    ensures forall i :: 0 <= i < |s| && !IsLower(s[i]) ==> r[i] == s[i]
    ensures forall i :: 0 <= i < |s| && IsLower(s[i]) ==> 'A' <= r[i] <= 'Z' && r[i] as int - 'A' as int == s[i] as int - 'a' as int
  {
    seq(|s|, i requires 0 <= i < |s| => if 'a' <= s[i] <= 'z' then (s[i] as int - 32) as char else s[i])
  }

  predicate IsLower(c: char) {
    'a' <= c <= 'z'
  }

  /** No lower-case ASCII letter occurs in `s`. */
  predicate NoLower(s: string) {
    forall i :: 0 <= i < |s| ==> !IsLower(s[i])
  }

  /** Upper-casing leaves a string alone exactly when it has no lower-case letter; in
      particular it is idempotent. */
  lemma AsciiUpperFixes(s: string)
    ensures AsciiUpper(s) == s <==> NoLower(s)
    ensures AsciiUpper(AsciiUpper(s)) == AsciiUpper(s)
  {
    var r := AsciiUpper(s);
    if NoLower(s) {
      assert forall i :: 0 <= i < |s| ==> r[i] == s[i];
    }
    assert forall i :: 0 <= i < |r| ==> AsciiUpper(r)[i] == r[i];
  }

  /** `/^\d{6}$/`: six ASCII digits and nothing else. */
  predicate SixDigits(s: string) {
    |s| == 6 && forall i :: 0 <= i < 6 ==> IsDigit(s[i])
  }

  /** `/^\d{6}\.(SH|SZ)$/`: six digits, a dot, then the exchange. */
  predicate IsCode(s: string) {
    |s| == 9 && SixDigits(s[..6]) && s[6] == '.' && (s[7..] == "SH" || s[7..] == "SZ")
  }

  /** The exchange a bare code belongs to: Shanghai for codes starting with 6 or 9,
      Shenzhen otherwise. */
  function Exchange(digits: string): (x: string)
    requires |digits| > 0
    ensures x == "SH" <==> digits[0] == '6' || digits[0] == '9'
    ensures x == "SH" || x == "SZ"
  {
    if digits[0] == '6' || digits[0] == '9' then "SH" else "SZ"
  }

  /** `normalizeCode`: trim, upper-case, then accept a full code as it is, complete six bare
      digits with their exchange, and refuse anything else. */
  function NormalizeCode(raw: string): (r: Option<string>)
    ensures r.Some? ==> IsCode(r.value)
    ensures var s := AsciiUpper(Trim(raw, JavaScript));
      && (s == [] ==> r.None?)
      && (IsCode(s) ==> r == Some(s))
      && (SixDigits(s) ==> r == Some(s + "." + Exchange(s)))
      && (r.Some? <==> IsCode(s) || SixDigits(s))
  {
    var s := AsciiUpper(Trim(raw, JavaScript));
    if s == [] then None
    else if IsCode(s) then Some(s)
    else if SixDigits(s) then
      var c := s + "." + Exchange(s);
      assert c[..6] == s && c[7..] == Exchange(s);
      Some(c)
    else None
  }

  /** A normalised code normalises to itself. */
  lemma NormalizeIdempotent(raw: string)
    requires NormalizeCode(raw).Some?
    ensures NormalizeCode(NormalizeCode(raw).value) == NormalizeCode(raw)
  {
    var c := NormalizeCode(raw).value;
    assert c[0] == c[..6][0] && c[8] == c[7..][1];
    assert Trim(c, JavaScript) == c;
    assert forall i :: 0 <= i < |c| ==> !('a' <= c[i] <= 'z') by {
      forall i | 0 <= i < |c|
        ensures !('a' <= c[i] <= 'z')
      {
        if i < 6 {
          assert c[i] == c[..6][i];
        } else if i > 6 {
          assert c[i] == c[7..][i - 7];
        }
      }
    }
    assert AsciiUpper(c) == c;
  }

  predicate NoDuplicates(codes: seq<string>) {
    forall i, j :: 0 <= i < j < |codes| ==> codes[i] != codes[j]
  }

  /** The list after `addCode`, and what the input box holds: it is cleared unless the entry
      was refused, in which case it keeps what was typed. */
  datatype Added = Added(codes: seq<string>, input: string)

  /** `addCode`: refuse an entry that does not normalise, ignore one already listed, and
      append any other at the end. */
  function AddCode(codes: seq<string>, raw: string): (r: Added)
    ensures NormalizeCode(raw).None? ==> r == Added(codes, raw)
    ensures NormalizeCode(raw).Some? ==> r.input == ""
    ensures NormalizeCode(raw).Some? && NormalizeCode(raw).value in codes ==> r.codes == codes
    ensures NormalizeCode(raw).Some? && NormalizeCode(raw).value !in codes ==>
      r.codes == codes + [NormalizeCode(raw).value]
    ensures NoDuplicates(codes) ==> NoDuplicates(r.codes)
    ensures forall c :: c in r.codes ==> c in codes || Some(c) == NormalizeCode(raw)
  {
    match NormalizeCode(raw)
    case None => Added(codes, raw)
    case Some(c) =>
      if c in codes then Added(codes, "")
      else
        var r := codes + [c];
        assert r[|codes|] == c;
        Added(r, "")
  }

  /** The position of the first occurrence of `c`, `-1` when absent (`indexOf`). */
  function IndexOf(codes: seq<string>, c: string): (i: int)
    ensures -1 <= i < |codes|
    ensures i == -1 <==> c !in codes
    ensures i >= 0 ==> codes[i] == c && forall j :: 0 <= j < i ==> codes[j] != c
    decreases |codes|
  {
    if |codes| == 0 then -1
    else if codes[0] == c then 0
    else
      var k := IndexOf(codes[1..], c);
      if k == -1 then -1 else k + 1
  }

  /** `removeCode`: take out the first occurrence, keeping the rest in order. */
  function RemoveCode(codes: seq<string>, c: string): (r: seq<string>)
    ensures c !in codes ==> r == codes
    ensures c in codes ==> exists i :: 0 <= i < |codes| && codes[i] == c && r == codes[..i] + codes[i + 1..]
    ensures multiset(r) == multiset(codes) - multiset{c}
  {
    var i := IndexOf(codes, c);
    if i == -1 then codes
    else
      var r := codes[..i] + codes[i + 1..];
      assert codes == codes[..i] + [c] + codes[i + 1..];
      assert multiset(codes) == multiset(codes[..i]) + multiset{c} + multiset(codes[i + 1..]);
      r
  }

  /** On a duplicate-free list, removing a code removes it altogether and keeps the list
      duplicate-free. */
  lemma RemoveKeepsDistinct(codes: seq<string>, c: string)
    requires NoDuplicates(codes)
    ensures c !in RemoveCode(codes, c) && NoDuplicates(RemoveCode(codes, c))
  {
    var i := IndexOf(codes, c);
    if i != -1 {
      var r := codes[..i] + codes[i + 1..];
      DropDistinct(codes, i);
      RemoveCodeAt(codes, c);
    }
  }

  /** A present code is removed at its first occurrence. */
  lemma RemoveCodeAt(codes: seq<string>, c: string)
    requires c in codes
    ensures var i := IndexOf(codes, c); RemoveCode(codes, c) == codes[..i] + codes[i + 1..]
  {
  }

  lemma DropDistinct(codes: seq<string>, i: nat)
    requires i < |codes| && NoDuplicates(codes)
    ensures codes[i] !in codes[..i] + codes[i + 1..]
    ensures NoDuplicates(codes[..i] + codes[i + 1..])
  {
    var r := codes[..i] + codes[i + 1..];
    forall k | 0 <= k < |r|
      ensures r[k] == codes[Skip(k, i)]
    {
      if k < i {
        assert r[k] == codes[..i][k];
      } else {
        assert r[k] == codes[i + 1..][k - i];
      }
    }
    forall a, b | 0 <= a < b < |r|
      ensures r[a] != r[b]
    {
      assert Skip(a, i) < Skip(b, i);
    }
    forall k | 0 <= k < |r|
      ensures r[k] != codes[i]
    {
      assert Skip(k, i) != i;
    }
  }

  /** The position in the original list of the `k`-th element left after removing the one
      at `i`. */
  function Skip(k: nat, i: nat): nat {
    if k < i then k else k + 1
  }

  /** Removing a code just added gives back the list as it was. */
  lemma AddThenRemove(codes: seq<string>, raw: string)
    requires NormalizeCode(raw).Some? && NormalizeCode(raw).value !in codes
    ensures RemoveCode(AddCode(codes, raw).codes, NormalizeCode(raw).value) == codes
  {
    var c := NormalizeCode(raw).value;
    var added := codes + [c];
    assert IndexOf(added, c) == |codes| by {
      IndexOfAppend(codes, c);
    }
    assert added[..|codes|] == codes;
  }

  lemma {:induction false} IndexOfAppend(codes: seq<string>, c: string)
    requires c !in codes
    ensures IndexOf(codes + [c], c) == |codes|
    decreases |codes|
  {
    if |codes| > 0 {
      assert (codes + [c])[1..] == codes[1..] + [c];
      IndexOfAppend(codes[1..], c);
    }
  }
}

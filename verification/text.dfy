/** String helpers shared by the server (Python) and the browser page (JavaScript):
    whitespace stripping, comma splitting, decimal rendering and code-point ordering. */
module Text {

  /** Python's `str.isspace` on one code point: the characters `str.strip()` removes. */
  predicate IsPyWhitespace(c: char) {
    || ('\t' <= c <= '\r')                 // \t \n \x0b \x0c \r
    || ('\U{1C}' <= c <= '\U{1F}')         // file, group, record and unit separators
    || c == ' ' || c == '\U{85}' || c == '\U{A0}' || c == '\U{1680}'
    || ('\U{2000}' <= c <= '\U{200A}')
    || c == '\U{2028}' || c == '\U{2029}' || c == '\U{202F}' || c == '\U{205F}' || c == '\U{3000}'
  }

  /** ECMAScript WhiteSpace or LineTerminator: the characters `String.prototype.trim` removes. */
  predicate IsJsWhitespace(c: char) {
    || ('\t' <= c <= '\r')
    || c == ' ' || c == '\U{A0}' || c == '\U{1680}'
    || ('\U{2000}' <= c <= '\U{200A}')
    || c == '\U{2028}' || c == '\U{2029}' || c == '\U{202F}' || c == '\U{205F}' || c == '\U{3000}'
    || c == '\U{FEFF}'
  }

  /** Whose notion of whitespace a trim uses. */
  datatype Flavour = Python | JavaScript

  predicate IsWhitespace(f: Flavour, c: char) {
    match f
    case Python => IsPyWhitespace(c)
    case JavaScript => IsJsWhitespace(c)
  }

  /** `s` neither starts nor ends with whitespace of flavour `f`. */
  predicate IsTrimmed(s: string, f: Flavour) {
    s == [] || (!IsWhitespace(f, s[0]) && !IsWhitespace(f, s[|s| - 1]))
  }

  /** Removes whitespace of flavour `f` at both ends (`str.strip()`, `String.prototype.trim`). */
  function Trim(s: string, f: Flavour): (r: string)
    ensures IsTrimmed(r, f)
    ensures |r| <= |s|
    ensures forall c :: c in r ==> c in s
    ensures r == [] <==> forall i :: 0 <= i < |s| ==> IsWhitespace(f, s[i])
    decreases |s|
  {
    if |s| > 0 && IsWhitespace(f, s[0]) then
      var r := Trim(s[1..], f);
      assert forall i :: 1 <= i < |s| ==> s[i] == s[1..][i - 1];
      r
    else if |s| > 0 && IsWhitespace(f, s[|s| - 1]) then
      var r := Trim(s[..|s| - 1], f);
      assert forall i :: 0 <= i < |s| - 1 ==> s[i] == s[..|s| - 1][i];
      r
    else
      s
  }

  /** Stripping is idempotent. */
  lemma TrimIdempotent(s: string, f: Flavour)
    ensures Trim(Trim(s, f), f) == Trim(s, f)
  {
  }

  /** Positions `i <= j` cut `s` into whitespace, a middle part, and whitespace. */
  predicate IsStripCut(s: string, f: Flavour, i: int, j: int) {
    && 0 <= i <= j <= |s|
    && (forall k :: 0 <= k < i ==> IsWhitespace(f, s[k]))
    && (forall k :: j <= k < |s| ==> IsWhitespace(f, s[k]))
  }

  /** Stripping removes whitespace from the two ends and nothing else: the result is a slice
      of the input whose surroundings are all whitespace. */
  lemma {:induction false} TrimSlice(s: string, f: Flavour)
    ensures exists i, j :: IsStripCut(s, f, i, j) && Trim(s, f) == s[i..j]
    decreases |s|
  {
    if |s| > 0 && IsWhitespace(f, s[0]) {
      var t := s[1..];
      TrimSlice(t, f);
      var i, j :| IsStripCut(t, f, i, j) && Trim(t, f) == t[i..j];
      StripCutFront(s, f, i, j);
    } else if |s| > 0 && IsWhitespace(f, s[|s| - 1]) {
      var t := s[..|s| - 1];
      TrimSlice(t, f);
      var i, j :| IsStripCut(t, f, i, j) && Trim(t, f) == t[i..j];
      StripCutBack(s, f, i, j);
    } else {
      assert IsStripCut(s, f, 0, |s|) && s == s[0..|s|];
    }
  }

  /** A cut of `s[1..]` is one of `s` shifted by one, when `s` starts with whitespace. */
  lemma StripCutFront(s: string, f: Flavour, i: int, j: int)
    requires |s| > 0 && IsWhitespace(f, s[0]) && IsStripCut(s[1..], f, i, j)
    ensures IsStripCut(s, f, i + 1, j + 1) && s[1..][i..j] == s[i + 1..j + 1]
  {
    var t := s[1..];
    assert forall k :: 1 <= k < |s| ==> s[k] == t[k - 1];
  }

  /** A cut of `s` without its last character is one of `s`, when that character is
      whitespace. */
  lemma StripCutBack(s: string, f: Flavour, i: int, j: int)
    requires |s| > 0 && IsWhitespace(f, s[|s| - 1]) && IsStripCut(s[..|s| - 1], f, i, j)
    ensures IsStripCut(s, f, i, j) && s[..|s| - 1][i..j] == s[i..j]
  {
    var t := s[..|s| - 1];
    assert forall k :: 0 <= k < |s| - 1 ==> s[k] == t[k];
  }

  /** A string that is already trimmed strips to itself. */
  lemma TrimTrimmed(s: string, f: Flavour)
    requires IsTrimmed(s, f)
    ensures Trim(s, f) == s
  {
  }

  /** Python's `str.strip()`: `Trim` with Python's whitespace set, under the name the
      code-list parser uses. */
  function PyStrip(s: string): (r: string)
    ensures IsTrimmed(r, Python)
    ensures forall c :: c in r ==> c in s
    ensures r == [] <==> forall i :: 0 <= i < |s| ==> IsPyWhitespace(s[i])
  {
    Trim(s, Python)
  }

  /** The position of the first `c` in `s`, or `|s|` when there is none. */
  function IndexOfChar(s: string, c: char): (i: nat)
    ensures i <= |s|
    ensures i < |s| ==> s[i] == c
    ensures forall j :: 0 <= j < i ==> s[j] != c
  {
    if |s| == 0 then 0
    else if s[0] == c then 0
    else 1 + IndexOfChar(s[1..], c)
  }

  /** Python's `s.split(sep)` for a one-character separator: always at least one piece. */
  function Split(s: string, sep: char): (r: seq<string>)
    ensures |r| >= 1
    ensures forall k :: 0 <= k < |r| ==> sep !in r[k]
    decreases |s|
  {
    var i := IndexOfChar(s, sep);
    if i == |s| then [s] else [s[..i]] + Split(s[i + 1..], sep)
  }

  /** The first separator of `a + x` is that of `a`, when `a` has one. */
  lemma IndexOfCharPrefix(a: string, x: string, c: char)
    requires c in a
    ensures IndexOfChar(a + x, c) == IndexOfChar(a, c)
  {
    var i := IndexOfChar(a, c);
    var m := IndexOfChar(a + x, c);
    assert (a + x)[i] == c;
    if m < i {
      assert (a + x)[m] == a[m];
    }
  }

  /** Splitting at a separator placed between two strings splits each of them. */
  lemma {:induction false} SplitAppend(a: string, b: string, sep: char)
    ensures Split(a + [sep] + b, sep) == Split(a, sep) + Split(b, sep)
    decreases |a|
  {
    var s := a + [sep] + b;
    var i := IndexOfChar(a, sep);
    if i == |a| {
      IndexOfCharConcat(a, sep, b);
      assert s[..|a|] == a && s[|a| + 1..] == b;
    } else {
      IndexOfCharPrefix(a, [sep] + b, sep);
      assert s == a + ([sep] + b);
      assert s[..i] == a[..i];
      assert s[i + 1..] == a[i + 1..] + [sep] + b;
      SplitAppend(a[i + 1..], b, sep);
    }
  }

  /** `sep.join(parts)`. */
  function Join(parts: seq<string>, sep: char): string
  {
    if |parts| == 0 then ""
    else if |parts| == 1 then parts[0]
    else parts[0] + [sep] + Join(parts[1..], sep)
  }

  /** Splitting and re-joining on the same separator gives back the input. */
  lemma {:induction false} JoinSplit(s: string, sep: char)
    ensures Join(Split(s, sep), sep) == s
    decreases |s|
  {
    var i := IndexOfChar(s, sep);
    if i < |s| {
      var rest := Split(s[i + 1..], sep);
      JoinSplit(s[i + 1..], sep);
      var parts := Split(s, sep);
      assert parts == [s[..i]] + rest;
      assert |parts| > 1 && parts[0] == s[..i] && parts[1..] == rest;
      assert Join(parts, sep) == s[..i] + [sep] + s[i + 1..];
      assert s == s[..i] + [sep] + s[i + 1..];
    }
  }

  /** The separator's first occurrence in `a + [sep] + b` is the one after `a`. */
  lemma IndexOfCharConcat(a: string, sep: char, b: string)
    requires sep !in a
    ensures IndexOfChar(a + [sep] + b, sep) == |a|
  {
    var s := a + [sep] + b;
    var i := IndexOfChar(s, sep);
    assert s[|a|] == sep;
    assert forall j :: 0 <= j < |a| ==> s[j] == a[j];
  }

  /** Splitting a separator-free head, a separator and a tail peels off the head. */
  lemma SplitCons(a: string, rest: string, sep: char)
    requires sep !in a
    ensures Split(a + [sep] + rest, sep) == [a] + Split(rest, sep)
  {
    var s := a + [sep] + rest;
    IndexOfCharConcat(a, sep, rest);
    assert s[..|a|] == a;
    assert s[|a| + 1..] == rest;
  }

  /** Joining and splitting again gives back the pieces, when none holds the separator. */
  lemma {:induction false} SplitJoin(parts: seq<string>, sep: char)
    requires |parts| >= 1
    requires forall k :: 0 <= k < |parts| ==> sep !in parts[k]
    ensures Split(Join(parts, sep), sep) == parts
    decreases |parts|
  {
    if |parts| == 1 {
      assert IndexOfChar(parts[0], sep) == |parts[0]|;
    } else {
      var rest := Join(parts[1..], sep);
      SplitJoin(parts[1..], sep);
      SplitCons(parts[0], rest, sep);
      assert parts == [parts[0]] + parts[1..];
    }
  }

  /** Extending the last piece extends the joined string at its end. */
  lemma {:induction false} JoinExtendLast(parts: seq<string>, x: string, sep: char)
    requires |parts| >= 1
    ensures Join(parts[..|parts| - 1] + [parts[|parts| - 1] + x], sep) == Join(parts, sep) + x
    decreases |parts|
  {
    var ext := parts[..|parts| - 1] + [parts[|parts| - 1] + x];
    if |parts| > 1 {
      JoinExtendLast(parts[1..], x, sep);
      assert ext[0] == parts[0];
      assert ext[1..] == parts[1..][..|parts[1..]| - 1] + [parts[1..][|parts[1..]| - 1] + x];
    }
  }

  /** Every piece strips to the empty string. */
  predicate AllBlank(parts: seq<string>) {
    |parts| == 0 || (PyStrip(parts[0]) == [] && AllBlank(parts[1..]))
  }

  /** Python's `[c.strip() for c in parts if c.strip()]`. */
  function StripNonEmpty(parts: seq<string>): (r: seq<string>)
    ensures |r| <= |parts|
    ensures forall k :: 0 <= k < |r| ==> r[k] != [] && IsTrimmed(r[k], Python)
    ensures (forall j :: 0 <= j < |parts| ==> ',' !in parts[j]) ==> forall k :: 0 <= k < |r| ==> ',' !in r[k]
    ensures r == [] <==> AllBlank(parts)
  {
    if |parts| == 0 then []
    else
      var t := PyStrip(parts[0]);
      var rest := StripNonEmpty(parts[1..]);
      assert forall j :: 1 <= j < |parts| ==> parts[j] == parts[1..][j - 1];
      if t == [] then rest else [t] + rest
  }

  /** Stripping a concatenation of piece lists strips each list. */
  lemma {:induction false} StripNonEmptyAppend(x: seq<string>, y: seq<string>)
    ensures StripNonEmpty(x + y) == StripNonEmpty(x) + StripNonEmpty(y)
    decreases |x|
  {
    if |x| == 0 {
      assert x + y == y;
    } else {
      assert (x + y)[0] == x[0] && (x + y)[1..] == x[1..] + y;
      StripNonEmptyAppend(x[1..], y);
    }
  }

  /** The code list of a comma-separated request:
      `[c.strip() for c in codes.split(",") if c.strip()]`. */
  function ParseCodes(codes: string): (r: seq<string>)
    ensures forall k :: 0 <= k < |r| ==> r[k] != [] && ',' !in r[k]
    ensures forall k :: 0 <= k < |r| ==> IsTrimmed(r[k], Python)
    ensures r == [] <==> OnlyCommasAndSpace(codes)
  {
    var parts := Split(codes, ',');
    AllBlankIff(codes);
    StripNonEmpty(parts)
  }

  /** A request without a comma names at most one code: the request, stripped. */
  lemma ParseCodesSingle(s: string)
    requires ',' !in s
    ensures ParseCodes(s) == if PyStrip(s) == [] then [] else [PyStrip(s)]
  {
    assert IndexOfChar(s, ',') == |s|;
    assert Split(s, ',') == [s];
    assert Split(s, ',')[1..] == [];
  }

  /** The codes of two requests joined by a comma are the codes of the first, then those of
      the second. */
  lemma ParseCodesAppend(a: string, b: string)
    ensures ParseCodes(a + "," + b) == ParseCodes(a) + ParseCodes(b)
  {
    SplitAppend(a, b, ',');
    StripNonEmptyAppend(Split(a, ','), Split(b, ','));
  }

  /** Joining a list of stripped, comma-free, non-empty codes with commas and parsing it
      again gives back the list. */
  lemma {:induction false} ParseCodesJoin(cs: seq<string>)
    requires forall k :: 0 <= k < |cs| ==> cs[k] != [] && ',' !in cs[k] && IsTrimmed(cs[k], Python)
    ensures ParseCodes(Join(cs, ',')) == cs
    decreases |cs|
  {
    if |cs| == 0 {
      ParseCodesSingle("");
    } else {
      TrimTrimmed(cs[0], Python);
      ParseCodesSingle(cs[0]);
      if |cs| > 1 {
        ParseCodesJoin(cs[1..]);
        ParseCodesAppend(cs[0], Join(cs[1..], ','));
        assert cs == [cs[0]] + cs[1..];
      }
    }
  }

  /** `s` holds only commas and Python whitespace. */
  predicate OnlyCommasAndSpace(s: string) {
    forall i :: 0 <= i < |s| ==> s[i] == ',' || IsPyWhitespace(s[i])
  }

  lemma OnlyCommasAndSpaceSplit(s: string, i: nat)
    requires i < |s|
    ensures OnlyCommasAndSpace(s) <==>
      OnlyCommasAndSpace(s[..i]) && OnlyCommasAndSpace([s[i]]) && OnlyCommasAndSpace(s[i + 1..])
  {
    assert s == s[..i] + [s[i]] + s[i + 1..];
  }

  /** Every comma-separated piece strips to nothing exactly when the string holds only
      commas and whitespace. */
  lemma {:induction false} AllBlankIff(s: string)
    ensures AllBlank(Split(s, ',')) <==> OnlyCommasAndSpace(s)
    decreases |s|
  {
    var i := IndexOfChar(s, ',');
    var first := s[..i];
    var parts := Split(s, ',');
    assert PyStrip(first) == [] <==> OnlyCommasAndSpace(first);
    if i == |s| {
      assert first == s;
      assert parts == [s];
      assert parts[1..] == [];
    } else {
      var tail := s[i + 1..];
      AllBlankIff(tail);
      OnlyCommasAndSpaceSplit(s, i);
      assert OnlyCommasAndSpace([s[i]]);
      assert parts == [first] + Split(tail, ',');
      assert parts[1..] == Split(tail, ',');
    }
  }

  function DigitChar(d: nat): (c: char)
    requires d < 10
    ensures '0' <= c <= '9'
  {
    "0123456789"[d]
  }

  lemma DigitCharValue(d: nat)
    requires d < 10
    ensures (DigitChar(d) as int) - ('0' as int) == d
  {
  }

  /** Decimal rendering of a count (Python `str(n)`, `f"{n}"`). */
  function NatToString(n: nat): (r: string)
    ensures |r| >= 1
    ensures forall i :: 0 <= i < |r| ==> '0' <= r[i] <= '9'
    decreases n
  {
    if n < 10 then [DigitChar(n)] else NatToString(n / 10) + [DigitChar(n % 10)]
  }

  /** Decimal rendering of a signed number (`f"{n}"` on an `int`). */
  function IntToString(n: int): (r: string)
    ensures n >= 0 ==> r == NatToString(n)
    ensures n < 0 ==> r == "-" + NatToString(-n)
  {
    if n < 0 then "-" + NatToString(-n) else NatToString(n)
  }

  /** Three decimal digits, zero-padded. */
  function Pad3(d: nat): (r: string)
    requires d < 1000
    ensures |r| == 3 && forall i :: 0 <= i < 3 ==> '0' <= r[i] <= '9'
  {
    [DigitChar(d / 100), DigitChar(d / 10 % 10), DigitChar(d % 10)]
  }

  /** `f"{n:,}"`: the decimal digits with a comma between groups of three, counted from the
      right. */
  function Grouped(n: nat): string
    decreases n
  {
    if n < 1000 then NatToString(n) else Grouped(n / 1000) + "," + Pad3(n % 1000)
  }

  /** `s` without its commas. */
  function DropCommas(s: string): (r: string)
    ensures ',' !in r
  {
    if |s| == 0 then "" else (if s[0] == ',' then "" else [s[0]]) + DropCommas(s[1..])
  }

  lemma {:induction false} DropCommasAppend(a: string, b: string)
    ensures DropCommas(a + b) == DropCommas(a) + DropCommas(b)
    decreases |a|
  {
    if |a| == 0 {
      assert a + b == b;
    } else {
      var h := if a[0] == ',' then "" else [a[0]];
      assert (a + b)[0] == a[0] && (a + b)[1..] == a[1..] + b;
      assert DropCommas(a + b) == h + DropCommas(a[1..] + b);
      DropCommasAppend(a[1..], b);
      assert DropCommas(a) == h + DropCommas(a[1..]);
    }
  }

  lemma {:induction false} DropCommasDigits(s: string)
    requires forall i :: 0 <= i < |s| ==> '0' <= s[i] <= '9'
    ensures DropCommas(s) == s
    decreases |s|
  {
    if |s| > 0 {
      DropCommasDigits(s[1..]);
      assert s == [s[0]] + s[1..];
    }
  }

  /** Peeling three decimal digits off `n` one at a time agrees with dividing by 1000. */
  lemma ThousandsDigits(n: nat)
    ensures n / 10 / 10 / 10 == n / 1000
    ensures (n % 1000) / 100 == n / 10 / 10 % 10
    ensures (n % 1000) / 10 % 10 == n / 10 % 10
    ensures (n % 1000) % 10 == n % 10
  {
    var z, a := n % 10, n / 10;
    var y, b := a % 10, a / 10;
    var x, q := b % 10, b / 10;
    var d := 100 * x + 10 * y + z;
    assert n == 1000 * q + d && 0 <= d < 1000;
    assert n / 1000 == q && n % 1000 == d;
    assert d == 100 * x + (10 * y + z) && 0 <= 10 * y + z < 100;
    assert d / 10 == 10 * x + y;
  }

  /** The last three digits of a number of four or more digits are its remainder by 1000,
      zero-padded. */
  lemma NatToStringThousands(n: nat)
    requires n >= 1000
    ensures NatToString(n) == NatToString(n / 1000) + Pad3(n % 1000)
  {
    var z, a := n % 10, n / 10;
    var y, b := a % 10, a / 10;
    var x, q := b % 10, b / 10;
    ThousandsDigits(n);
    assert Pad3(n % 1000) == [DigitChar(x), DigitChar(y), DigitChar(z)];
    assert NatToString(n) == NatToString(a) + [DigitChar(z)];
    assert NatToString(a) == NatToString(b) + [DigitChar(y)];
    assert NatToString(b) == NatToString(q) + [DigitChar(x)];
  }

  /** Above 999, dropping the commas of the grouped rendering leaves those of the leading
      groups followed by the last three digits. */
  lemma GroupedStep(n: nat)
    requires n >= 1000
    ensures DropCommas(Grouped(n)) == DropCommas(Grouped(n / 1000)) + Pad3(n % 1000)
  {
    var g, p := Grouped(n / 1000), Pad3(n % 1000);
    assert Grouped(n) == g + "," + p;
    DropCommasAppend(g + ",", p);
    DropCommasAppend(g, ",");
    DropCommasDigits(p);
    assert DropCommas(",") == "";
  }

  /** Dropping the group separators gives back the plain decimal rendering; below 1000
      there are none. */
  lemma {:induction false} GroupedDigits(n: nat)
    ensures DropCommas(Grouped(n)) == NatToString(n)
    ensures n < 1000 ==> Grouped(n) == NatToString(n)
    decreases n
  {
    if n < 1000 {
      DropCommasDigits(NatToString(n));
    } else {
      GroupedDigits(n / 1000);
      GroupedStep(n);
      NatToStringThousands(n);
    }
  }

  /** `s[:n]`: at most the first `n` characters. */
  function Take(s: string, n: nat): (r: string)
    ensures r <= s && |r| == if |s| <= n then |s| else n
  {
    if |s| <= n then s else s[..n]
  }

  /** `c * n`: the character repeated `n` times. */
  function Repeat(c: char, n: nat): (r: string)
    ensures |r| == n && forall i :: 0 <= i < n ==> r[i] == c
  {
    seq(n, i => c)
  }

  /** The number a string of decimal digits denotes. */
  function DigitsValue(s: string): nat
    requires forall i :: 0 <= i < |s| ==> '0' <= s[i] <= '9'
  {
    if |s| == 0 then 0
    else DigitsValue(s[..|s| - 1]) * 10 + ((s[|s| - 1] as int) - ('0' as int))
  }

  lemma DigitsValueSnoc(s: string, c: char)
    requires forall i :: 0 <= i < |s| ==> '0' <= s[i] <= '9'
    requires '0' <= c <= '9'
    ensures DigitsValue(s + [c]) == DigitsValue(s) * 10 + ((c as int) - ('0' as int))
  {
    assert (s + [c])[..|s|] == s;
  }

  /** Reading back a rendered count gives the count. */
  lemma {:induction false} NatToStringRoundTrip(n: nat)
    ensures DigitsValue(NatToString(n)) == n
    decreases n
  {
    if n >= 10 {
      var q, d := n / 10, n % 10;
      DigitCharValue(d);
      NatToStringRoundTrip(q);
      DigitsValueSnoc(NatToString(q), DigitChar(d));
      assert NatToString(n) == NatToString(q) + [DigitChar(d)];
      assert DigitsValue(NatToString(n)) == q * 10 + d;
      assert q * 10 + d == n;
    } else {
      assert NatToString(n) == [] + [DigitChar(n)];
      DigitCharValue(n);
      DigitsValueSnoc([], DigitChar(n));
    }
  }

  /** Code-point lexicographic order on strings (Python `a <= b` on `str`). */
  predicate LexLe(a: string, b: string)
    decreases |a|
  {
    |a| == 0 || (|b| > 0 && (a[0] < b[0] || (a[0] == b[0] && LexLe(a[1..], b[1..]))))
  }

  lemma {:induction false} LexLeTotal(a: string, b: string)
    ensures LexLe(a, b) || LexLe(b, a)
    decreases |a|
  {
    if |a| > 0 && |b| > 0 && a[0] == b[0] {
      LexLeTotal(a[1..], b[1..]);
    }
  }

  lemma {:induction false} LexLeAntisymmetric(a: string, b: string)
    requires LexLe(a, b) && LexLe(b, a)
    ensures a == b
    decreases |a|
  {
    if |a| > 0 {
      LexLeAntisymmetric(a[1..], b[1..]);
      assert a == [a[0]] + a[1..] && b == [b[0]] + b[1..];
    }
  }

  lemma {:induction false} LexLeReflexive(a: string)
    ensures LexLe(a, a)
    decreases |a|
  {
    if |a| > 0 {
      LexLeReflexive(a[1..]);
    }
  }

  /** `sub` occurs in `s` (Python `sub in s`). */
  predicate Contains(s: string, sub: string)
    decreases |s|
  {
    if |s| < |sub| then false
    else s[..|sub|] == sub || Contains(s[1..], sub)
  }
}

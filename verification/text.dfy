/** The JavaScript string primitives the validator is built on, with their
    ECMAScript meaning written out: `trim`, `split` on a repeated-delimiter
    pattern, `parseInt`, `.length`, and the `\w` class of regular expressions. */
module Text {
  import opened Wrappers

  // ---------------------------------------------------------------------------
  // Whitespace and `String.prototype.trim`
  // ---------------------------------------------------------------------------

  /** ECMAScript WhiteSpace and LineTerminator code points: what `trim` strips and
      what `parseInt` skips before the number. */
  predicate IsWhitespace(c: char) {
    var n := c as int;
    n == 0x09 || n == 0x0A || n == 0x0B || n == 0x0C || n == 0x0D || n == 0x20
    || n == 0xA0 || n == 0x1680 || (0x2000 <= n <= 0x200A) || n == 0x2028
    || n == 0x2029 || n == 0x202F || n == 0x205F || n == 0x3000 || n == 0xFEFF
  }

  /** True of the empty string and of strings made only of whitespace. */
  predicate IsBlank(s: string) {
    forall i :: 0 <= i < |s| ==> IsWhitespace(s[i])
  }

  /** Neither starts nor ends with whitespace. */
  predicate IsTrimmed(s: string) {
    s == [] || (!IsWhitespace(s[0]) && !IsWhitespace(s[|s| - 1]))
  }

  function TrimStart(s: string): (r: string)
    ensures |r| <= |s| && r == s[|s| - |r|..]
    ensures IsBlank(s[..|s| - |r|])
    ensures r == [] || !IsWhitespace(r[0])
  {
    if s != [] && IsWhitespace(s[0]) then
      var r := TrimStart(s[1..]);
      assert s[1..][..|s[1..]| - |r|] == s[1..|s| - |r|];
      r
    else s
  }

  function TrimEnd(s: string): (r: string)
    ensures |r| <= |s| && r == s[..|r|]
    ensures IsBlank(s[|r|..])
    ensures r == [] || !IsWhitespace(r[|r| - 1])
  {
    if s != [] && IsWhitespace(s[|s| - 1]) then
      var t := s[..|s| - 1];
      var r := TrimEnd(t);
      assert t[..|r|] == s[..|r|];
      assert IsBlank(s[|r|..]) by {
        forall i | 0 <= i < |s| - |r|
          ensures IsWhitespace(s[|r|..][i])
        {
          if |r| + i < |t| {
            assert s[|r|..][i] == t[|r|..][i];
          }
        }
      }
      r
    else s
  }

  /** `String.prototype.trim`: strips whitespace from both ends. */
  function Trim(s: string): (r: string)
    ensures |r| <= |s|
    ensures IsTrimmed(r)
    ensures r == [] <==> IsBlank(s)
  {
    var t := TrimStart(s);
    assert t == [] ==> s == s[..|s| - |t|];
    TrimEnd(t)
  }

  lemma {:induction false} TrimStartBlankPrefix(a: string, m: string)
    requires IsBlank(a)
    requires m == [] || !IsWhitespace(m[0])
    ensures TrimStart(a + m) == m
    decreases |a|
  {
    if a == [] {
      assert a + m == m;
    } else {
      assert (a + m)[1..] == a[1..] + m;
      TrimStartBlankPrefix(a[1..], m);
    }
  }

  lemma {:induction false} TrimEndBlankSuffix(m: string, b: string)
    requires IsBlank(b)
    requires m == [] || !IsWhitespace(m[|m| - 1])
    ensures TrimEnd(m + b) == m
    decreases |b|
  {
    if b == [] {
      assert m + b == m;
    } else {
      assert (m + b)[..|m + b| - 1] == m + b[..|b| - 1];
      TrimEndBlankSuffix(m, b[..|b| - 1]);
    }
  }

  /** Reference characterisation of `trim`: whatever trimmed text is surrounded by
      whitespace, trimming recovers exactly that text. */
  lemma TrimSurrounded(a: string, m: string, b: string)
    requires IsBlank(a) && IsBlank(b) && IsTrimmed(m)
    ensures Trim(a + m + b) == m
  {
    if m == [] {
      assert IsBlank(a + m + b);
    } else {
      assert a + m + b == a + (m + b);
      TrimStartBlankPrefix(a, m + b);
      TrimEndBlankSuffix(m, b);
    }
  }

  /** Trimming an already trimmed string changes nothing. */
  lemma TrimTrimmed(m: string)
    requires IsTrimmed(m)
    ensures Trim(m) == m
  {
    assert [] + m + [] == m;
    TrimSurrounded([], m, []);
  }

  // ---------------------------------------------------------------------------
  // `String.prototype.split` on /(?:d1|d2|...)+/g
  // ---------------------------------------------------------------------------

  /** No character of `s` is a delimiter. */
  predicate Avoids(s: string, delims: set<char>) {
    forall i :: 0 <= i < |s| ==> s[i] !in delims
  }

  lemma AvoidsConcat(x: string, y: string, delims: set<char>)
    requires Avoids(x, delims) && Avoids(y, delims)
    ensures Avoids(x + y, delims)
  {
    forall i | 0 <= i < |x + y|
      ensures (x + y)[i] !in delims
    {
      if i >= |x| {
        assert (x + y)[i] == y[i - |x|];
      }
    }
  }

  /** A non-empty run of delimiter characters: what one match of the pattern consumes. */
  predicate IsRun(r: string, delims: set<char>) {
    r != [] && forall i :: 0 <= i < |r| ==> r[i] in delims
  }

  /** `s.split(/(?:[delims])+/g)`: the pieces between maximal runs of delimiters.
      A leading or trailing run yields an empty first or last piece. */
  function Split(s: string, delims: set<char>): (parts: seq<string>)
    ensures |parts| >= 1
    ensures forall k :: 0 <= k < |parts| ==> Avoids(parts[k], delims)
    decreases |s|
  {
    if s == [] then [""]
    else if s[0] !in delims then
      var rest := Split(s[1..], delims);
      assert Avoids(rest[0], delims);
      [[s[0]] + rest[0]] + rest[1..]
    else if |s| > 1 && s[1] in delims then Split(s[1..], delims)
    else [""] + Split(s[1..], delims)
  }

  /** Interleaves `parts` with the separators: parts[0] + seps[0] + parts[1] + ... */
  function Weave(parts: seq<string>, seps: seq<string>): string
    requires |parts| == |seps| + 1
    decreases |seps|
  {
    if seps == [] then parts[0] else parts[0] + seps[0] + Weave(parts[1..], seps[1..])
  }

  /** Pieces split out of the middle of a string are never empty. */
  predicate InteriorNonEmpty(parts: seq<string>) {
    forall k :: 0 < k < |parts| - 1 ==> parts[k] != []
  }

  lemma {:induction false} SplitAfterPlainPrefix(x: string, y: string, delims: set<char>)
    requires Avoids(x, delims)
    ensures Split(x + y, delims) == [x + Split(y, delims)[0]] + Split(y, delims)[1..]
    decreases |x|
  {
    var sy := Split(y, delims);
    if x == [] {
      assert x + y == y;
      assert x + sy[0] == sy[0];
      assert [sy[0]] + sy[1..] == sy;
    } else {
      assert (x + y)[1..] == x[1..] + y;
      SplitAfterPlainPrefix(x[1..], y, delims);
      assert [x[0]] + (x[1..] + sy[0]) == x + sy[0];
    }
  }

  lemma {:induction false} SplitAfterRun(r: string, y: string, delims: set<char>)
    requires IsRun(r, delims)
    requires y == [] || y[0] !in delims
    ensures Split(r + y, delims) == [""] + Split(y, delims)
    decreases |r|
  {
    assert (r + y)[1..] == r[1..] + y;
    if |r| > 1 {
      SplitAfterRun(r[1..], y, delims);
    }
  }

  /** Round trip: weaving delimiter-free pieces (non-empty except possibly the first
      and the last) with non-empty delimiter runs, then splitting, gives the pieces back. */
  lemma {:induction false} SplitWeave(parts: seq<string>, runs: seq<string>, delims: set<char>)
    requires |parts| == |runs| + 1
    requires forall k :: 0 <= k < |parts| ==> Avoids(parts[k], delims)
    requires forall k :: 0 <= k < |runs| ==> IsRun(runs[k], delims)
    requires InteriorNonEmpty(parts)
    ensures Split(Weave(parts, runs), delims) == parts
    decreases |runs|
  {
    if runs == [] {
      assert parts[0] + [] == parts[0];
      SplitAfterPlainPrefix(parts[0], [], delims);
      assert [parts[0]] == parts;
    } else {
      var w := Weave(parts[1..], runs[1..]);
      assert w == [] || w[0] !in delims by {
        if |runs| == 1 {
          assert w == parts[1];
        } else {
          assert parts[1] != [];
          assert w[0] == parts[1][0];
        }
      }
      SplitWeave(parts[1..], runs[1..], delims);
      SplitAfterRun(runs[0], w, delims);
      assert Weave(parts, runs) == parts[0] + (runs[0] + w);
      SplitAfterPlainPrefix(parts[0], runs[0] + w, delims);
      assert parts[0] + "" == parts[0];
      assert [parts[0]] + parts[1..] == parts;
    }
  }

  // ---------------------------------------------------------------------------
  // `.length` of a string
  // ---------------------------------------------------------------------------

  /** Characters outside the Basic Multilingual Plane take two UTF-16 code units. */
  predicate InBmp(c: char) {
    (c as int) < 0x1_0000
  }

  /** `s.length` in JavaScript: the number of UTF-16 code units. */
  function Utf16Length(s: string): (n: nat)
    ensures |s| <= n <= 2 * |s|
    ensures (forall i :: 0 <= i < |s| ==> InBmp(s[i])) ==> n == |s|
  {
    if s == [] then 0
    else
      assert forall i :: 0 <= i < |s[1..]| ==> s[1..][i] == s[i + 1];
      Utf16Length(s[1..]) + (if InBmp(s[0]) then 1 else 2)
  }

  // ---------------------------------------------------------------------------
  // `parseInt(s)` with no radix argument
  // ---------------------------------------------------------------------------

  predicate IsDecimalDigit(c: char) {
    '0' <= c <= '9'
  }

  predicate IsRadixDigit(c: char, hex: bool) {
    IsDecimalDigit(c) || (hex && ('a' <= c <= 'f' || 'A' <= c <= 'F'))
  }

  function DigitValue(c: char, hex: bool): (v: nat)
    requires IsRadixDigit(c, hex)
    ensures v < (if hex then 16 else 10)
  {
    if IsDecimalDigit(c) then c as int - '0' as int
    else if 'a' <= c <= 'f' then c as int - 'a' as int + 10
    else c as int - 'A' as int + 10
  }

  /** Length of the longest prefix of `s` made of digits of the radix. */
  function DigitRun(s: string, hex: bool): (n: nat)
    ensures n <= |s|
    ensures forall i :: 0 <= i < n ==> IsRadixDigit(s[i], hex)
    ensures n == |s| || !IsRadixDigit(s[n], hex)
  {
    if s != [] && IsRadixDigit(s[0], hex) then 1 + DigitRun(s[1..], hex) else 0
  }

  /** Positional value of a digit string, most significant digit first. */
  function DigitsValue(ds: string, hex: bool): nat
    requires forall i :: 0 <= i < |ds| ==> IsRadixDigit(ds[i], hex)
  {
    if ds == [] then 0
    else DigitsValue(ds[..|ds| - 1], hex) * (if hex then 16 else 10) + DigitValue(ds[|ds| - 1], hex)
  }

  /** The part of `parseInt` after the sign: an optional `0x`/`0X` prefix selects
      radix 16, then the longest run of digits of the radix is read. `None` when
      that run is empty. */
  function ParseUnsigned(u: string): (r: Option<nat>)
  {
    var hex := |u| >= 2 && u[0] == '0' && (u[1] == 'x' || u[1] == 'X');
    var v := if hex then u[2..] else u;
    var n := DigitRun(v, hex);
    if n == 0 then None else Some(DigitsValue(v[..n], hex))
  }

  /** `parseInt(s)`: skips leading whitespace, reads an optional sign, then the
      unsigned part. `None` stands for `NaN`. */
  function ParseInt(s: string): (r: Option<int>)
  {
    ParseSigned(TrimStart(s))
  }

  /** `parseInt` after the leading whitespace: an optional sign, then the unsigned part. */
  function ParseSigned(t: string): (r: Option<int>)
  {
    if t != [] && t[0] == '-' then WithSign(true, ParseUnsigned(t[1..]))
    else if t != [] && t[0] == '+' then WithSign(false, ParseUnsigned(t[1..]))
    else WithSign(false, ParseUnsigned(t))
  }

  /** The magnitude read after the sign, negated for '-'; `NaN` stays `NaN`. */
  function WithSign(negative: bool, p: Option<nat>): (r: Option<int>)
    ensures r.Some? <==> p.Some?
    ensures r.Some? ==> r.value == if negative then -(p.value as int) else p.value
  {
    match p
    case None => None
    case Some(m) => Some(if negative then -(m as int) else m)
  }

  /** Decimal numeral of a natural number, no leading zeros. */
  function Digits(n: nat): (ds: string)
    ensures |ds| >= 1
    ensures forall i :: 0 <= i < |ds| ==> IsDecimalDigit(ds[i])
    ensures ds[0] == '0' ==> n == 0
  {
    if n < 10 then ['0' + n as char] else Digits(n / 10) + ['0' + (n % 10) as char]
  }

  /** Decimal numeral of an integer, with a leading '-' when negative. */
  function Decimal(n: int): string {
    if n < 0 then "-" + Digits(-n) else Digits(n)
  }

  lemma {:induction false} DigitsValueOfDigits(n: nat)
    ensures DigitsValue(Digits(n), false) == n
  {
    if n >= 10 {
      var ds := Digits(n);
      assert ds[..|ds| - 1] == Digits(n / 10);
      DigitsValueOfDigits(n / 10);
    }
  }

  lemma {:induction false} DigitRunOfDigits(ds: string, tail: string)
    requires forall i :: 0 <= i < |ds| ==> IsDecimalDigit(ds[i])
    requires tail == [] || !IsDecimalDigit(tail[0])
    ensures DigitRun(ds + tail, false) == |ds|
    decreases |ds|
  {
    if ds == [] {
      assert ds + tail == tail;
    } else {
      assert (ds + tail)[1..] == ds[1..] + tail;
      DigitRunOfDigits(ds[1..], tail);
    }
  }

  /** Text that cannot continue a decimal numeral (nor turn a lone "0" into a hex prefix). */
  predicate EndsNumeral(tail: string) {
    tail == [] || (!IsDecimalDigit(tail[0]) && tail[0] != 'x' && tail[0] != 'X')
  }

  lemma ParseUnsignedDigits(m: nat, tail: string)
    requires EndsNumeral(tail)
    ensures ParseUnsigned(Digits(m) + tail) == Some(m)
  {
    var ds := Digits(m);
    var u := ds + tail;
    assert !(|u| >= 2 && u[0] == '0' && (u[1] == 'x' || u[1] == 'X')) by {
      if |u| >= 2 && u[0] == '0' {
        assert m == 0 && |ds| == 1;
        assert u[1] == tail[0];
      }
    }
    DigitRunOfDigits(ds, tail);
    assert u[..|ds|] == ds;
    DigitsValueOfDigits(m);
  }

  /** Round trip: `parseInt` reads back the decimal numeral of any integer, whatever
      non-numeric text follows it (so "10abc" reads as 10). */
  lemma ParseIntDecimal(n: int, tail: string)
    requires EndsNumeral(tail)
    ensures ParseInt(Decimal(n) + tail) == Some(n)
  {
    if n < 0 {
      ParseIntDecimalNegative(n, tail);
    } else {
      ParseIntDecimalNatural(n, tail);
    }
  }

  lemma ParseIntDecimalNegative(n: int, tail: string)
    requires n < 0 && EndsNumeral(tail)
    ensures ParseInt(Decimal(n) + tail) == Some(n)
  {
    var ds := Digits(-n);
    ParseUnsignedDigits(-n, tail);
    ParseIntMinusBefore(ds, tail);
    NegativeDecimal(n, tail);
    NegatedSome(-n);
  }

  lemma NegativeDecimal(n: int, tail: string)
    requires n < 0
    ensures Decimal(n) + tail == ("-" + Digits(-n)) + tail
  {
  }

  lemma NegatedSome(m: nat)
    ensures WithSign(true, Some(m)) == Some(-(m as int))
  {
  }

  lemma ParseIntMinusBefore(ds: string, tail: string)
    ensures ParseInt(("-" + ds) + tail) == WithSign(true, ParseUnsigned(ds + tail))
  {
    ConcatAssoc("-", ds, tail);
    ParseIntMinus(ds + tail);
  }

  lemma ConcatAssoc(a: string, b: string, c: string)
    ensures (a + b) + c == a + (b + c)
  {
  }

  lemma ParseIntDecimalNatural(n: int, tail: string)
    requires n >= 0 && EndsNumeral(tail)
    ensures ParseInt(Decimal(n) + tail) == Some(n)
  {
    var u := Digits(n) + tail;
    assert Decimal(n) + tail == u;
    ParseUnsignedDigits(n, tail);
    assert IsDecimalDigit(u[0]) by {
      assert u[0] == Digits(n)[0];
    }
    ParseIntPlain(u);
  }

  /** Text that does not start with whitespace is left alone by `TrimStart`. */
  lemma TrimStartUnspaced(s: string)
    requires s == [] || !IsWhitespace(s[0])
    ensures TrimStart(s) == s
  {
  }

  lemma ParseIntMinus(u: string)
    ensures ParseInt("-" + u) == WithSign(true, ParseUnsigned(u))
  {
    var s := "-" + u;
    TrimStartUnspaced(s);
    assert s[0] == '-' && s[1..] == u;
    assert ParseInt(s) == ParseSigned(s);
  }

  lemma ParseIntPlain(u: string)
    requires u != [] && IsDecimalDigit(u[0])
    ensures ParseInt(u) == WithSign(false, ParseUnsigned(u))
  {
    TrimStartUnspaced(u);
  }

  /** `parseInt` yields NaN for text whose first character is neither whitespace,
      a sign nor a digit. */
  lemma ParseIntRejects(s: string)
    requires s != [] && !IsWhitespace(s[0]) && !IsDecimalDigit(s[0])
    requires s[0] != '-' && s[0] != '+'
    ensures ParseInt(s) == None
  {
    TrimStartUnspaced(s);
  }

  // ---------------------------------------------------------------------------
  // Regular-expression character classes
  // ---------------------------------------------------------------------------

  /** The `\w` class: ASCII letters, digits and underscore. */
  predicate IsWordChar(c: char) {
    'a' <= c <= 'z' || 'A' <= c <= 'Z' || '0' <= c <= '9' || c == '_'
  }

  /** ASCII lower-casing: the only case folding that can matter for the letters of
      "attribute" under a case-insensitive Unicode regular expression. */
  function LowerAscii(c: char): (l: char)
    ensures 'A' <= c <= 'Z' ==> l as int == c as int + 32
    ensures !('A' <= c <= 'Z') ==> l == c
  {
    if 'A' <= c <= 'Z' then (c as int + 32) as char else c
  }
}

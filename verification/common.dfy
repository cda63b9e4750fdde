/** Option and Result, the two wrappers every other module uses for absent values and error paths. */
module Wrappers {
  datatype Option<T> = None | Some(value: T)

  datatype Result<T> = Success(value: T) | Failure(error: string)
}

/**
 * The string and number helpers both clients rely on: trimming, splitting on a
 * separator, ASCII case mapping, decimal text, JavaScript's parseInt, padding,
 * Kotlin's truncating division and JavaScript's round-to-cents.
 */
module Strings {
  import opened Wrappers

  // ---------------------------------------------------------------- whitespace

  /** Whitespace as JavaScript's trim() sees it, restricted to ASCII: space, tab, LF, VT, FF, CR. */
  predicate IsWhitespace(c: char) {
    c == ' ' || '\t' <= c <= '\r'
  }

  /**
   * Whitespace as Kotlin's Char.isWhitespace() sees it, restricted to ASCII: the
   * JavaScript set plus the four separators U+001C to U+001F.
   */
  predicate IsKotlinWhitespace(c: char) {
    IsWhitespace(c) || '\U{1C}' <= c <= '\U{1F}'
  }

  /** Drops leading whitespace: the result is a suffix of s that does not start with whitespace. */
  function TrimStart(s: string): (r: string)
    ensures |r| <= |s| && r == s[|s| - |r|..]
    ensures forall i :: 0 <= i < |s| - |r| ==> IsWhitespace(s[i])
    ensures r == [] || !IsWhitespace(r[0])
  {
    if |s| > 0 && IsWhitespace(s[0]) then TrimStart(s[1..]) else s
  }

  /** Drops trailing whitespace: the result is a prefix of s that does not end with whitespace. */
  function TrimEnd(s: string): (r: string)
    ensures |r| <= |s| && r == s[..|r|]
    ensures forall i :: |r| <= i < |s| ==> IsWhitespace(s[i])
    ensures r == [] || !IsWhitespace(r[|r| - 1])
  {
    if |s| > 0 && IsWhitespace(s[|s| - 1]) then TrimEnd(s[..|s| - 1]) else s
  }

  /** r is the slice s[i..i + |r|], and everything of s outside that slice is whitespace. */
  predicate TrimmedAt(s: string, r: string, i: int) {
    0 <= i <= |s| - |r| && r == s[i..i + |r|]
    && (forall k :: 0 <= k < i ==> IsWhitespace(s[k]))
    && (forall k :: i + |r| <= k < |s| ==> IsWhitespace(s[k]))
  }

  /** TrimmedAt for Kotlin's whitespace set. */
  predicate KotlinTrimmedAt(s: string, r: string, i: int) {
    0 <= i <= |s| - |r| && r == s[i..i + |r|]
    && (forall k :: 0 <= k < i ==> IsKotlinWhitespace(s[k]))
    && (forall k :: i + |r| <= k < |s| ==> IsKotlinWhitespace(s[k]))
  }

  /**
   * JavaScript's trim(): a slice of s with only whitespace around it, which
   * neither starts nor ends with whitespace.
   */
  function Trim(s: string): (r: string)
    ensures |r| <= |s|
    ensures exists i :: TrimmedAt(s, r, i)
    ensures r == [] || (!IsWhitespace(r[0]) && !IsWhitespace(r[|r| - 1]))
    ensures r == [] ==> forall i :: 0 <= i < |s| ==> IsWhitespace(s[i])
  {
    var t := TrimStart(s);
    var r := TrimEnd(t);
    SuffixThenPrefix(s, t, r);
    r
  }

  /** A whitespace-framed prefix r of a suffix t of s is a whitespace-framed slice of s. */
  lemma SuffixThenPrefix(s: string, t: string, r: string)
    requires |t| <= |s| && t == s[|s| - |t|..]
    requires forall k :: 0 <= k < |s| - |t| ==> IsWhitespace(s[k])
    requires |r| <= |t| && r == t[..|r|]
    requires forall k :: |r| <= k < |t| ==> IsWhitespace(t[k])
    ensures TrimmedAt(s, r, |s| - |t|)
  {
    var i := |s| - |t|;
    assert r == s[i..i + |r|];
    forall k | i + |r| <= k < |s|
      ensures IsWhitespace(s[k])
    {
      assert s[k] == t[k - i];
    }
  }

  /**
   * Kotlin's trim(): like Trim, but on Kotlin's wider whitespace set; the
   * whitespace is dropped one character at a time from either end.
   * KotlinTrimSlice shows the result is a slice with only whitespace around it.
   */
  function KotlinTrim(s: string): (r: string)
    ensures |r| <= |s|
    ensures r == [] || (!IsKotlinWhitespace(r[0]) && !IsKotlinWhitespace(r[|r| - 1]))
  {
    if |s| > 0 && IsKotlinWhitespace(s[0]) then KotlinTrim(s[1..])
    else if |s| > 0 && IsKotlinWhitespace(s[|s| - 1]) then KotlinTrim(s[..|s| - 1])
    else s
  }

  /** Kotlin's trim() returns a slice of its input with only whitespace around it. */
  lemma {:induction false} KotlinTrimSlice(s: string)
    ensures exists i :: KotlinTrimmedAt(s, KotlinTrim(s), i)
  {
    var r := KotlinTrim(s);
    if |s| > 0 && IsKotlinWhitespace(s[0]) {
      KotlinTrimSlice(s[1..]);
      var j :| KotlinTrimmedAt(s[1..], r, j);
      KotlinTrimmedFront(s, r, j);
    } else if |s| > 0 && IsKotlinWhitespace(s[|s| - 1]) {
      KotlinTrimSlice(s[..|s| - 1]);
      var j :| KotlinTrimmedAt(s[..|s| - 1], r, j);
      KotlinTrimmedBack(s, r, j);
    } else {
      assert KotlinTrimmedAt(s, s, 0);
    }
  }

  /** A whitespace character in front widens the leading whitespace by one. */
  lemma KotlinTrimmedFront(s: string, r: string, j: int)
    requires |s| > 0 && IsKotlinWhitespace(s[0]) && KotlinTrimmedAt(s[1..], r, j)
    ensures KotlinTrimmedAt(s, r, j + 1)
  {
    assert r == s[j + 1..j + 1 + |r|];
    assert forall k :: 1 <= k < |s| ==> s[k] == s[1..][k - 1];
  }

  /** A whitespace character at the back widens the trailing whitespace by one. */
  lemma KotlinTrimmedBack(s: string, r: string, j: int)
    requires |s| > 0 && IsKotlinWhitespace(s[|s| - 1]) && KotlinTrimmedAt(s[..|s| - 1], r, j)
    ensures KotlinTrimmedAt(s, r, j)
  {
    assert r == s[j..j + |r|];
  }

  /** Text that neither starts nor ends with whitespace is left as it is by Trim. */
  lemma TrimKeeps(s: string)
    requires s == [] || (!IsWhitespace(s[0]) && !IsWhitespace(s[|s| - 1]))
    ensures Trim(s) == s
  {
  }

  // ---------------------------------------------------------------- searching and splitting

  /** Position of the first occurrence of c in s, if any. */
  function IndexOf(s: string, c: char): (r: Option<nat>)
    ensures r.None? <==> c !in s
    ensures r.Some? ==> r.value < |s| && s[r.value] == c && c !in s[..r.value]
  {
    if |s| == 0 then None
    else if s[0] == c then Some(0)
    else match IndexOf(s[1..], c)
      case None => None
      case Some(k) =>
        assert s[..k + 1] == [s[0]] + s[1..][..k];
        Some(k + 1)
  }

  /** The part of s before the first c, or all of s when c does not occur: Kotlin's substringBefore(c), JavaScript's split(c)[0]. */
  function SubstringBefore(s: string, c: char): (r: string)
    ensures r <= s && c !in r
    ensures c in s ==> |r| < |s| && s[|r|] == c
    ensures c !in s ==> r == s
  {
    match IndexOf(s, c)
    case None => s
    case Some(k) => s[..k]
  }

  /** Inverse of Split: the parts glued back together with the separator between them. */
  function Join(parts: seq<string>, sep: char): string {
    if |parts| == 0 then []
    else if |parts| == 1 then parts[0]
    else parts[0] + [sep] + Join(parts[1..], sep)
  }

  /**
   * split(sep) on a one-character separator, as in Kotlin and JavaScript: always
   * at least one part, no part holds the separator, and joining the parts gives s back.
   */
  function Split(s: string, sep: char): (parts: seq<string>)
    ensures |parts| >= 1
    ensures forall i :: 0 <= i < |parts| ==> sep !in parts[i]
    ensures Join(parts, sep) == s
    decreases |s|
  {
    match IndexOf(s, sep)
    case None => [s]
    case Some(k) =>
      var rest := Split(s[k + 1..], sep);
      assert s == s[..k] + [sep] + s[k + 1..];
      [s[..k]] + rest
  }

  /** Splitting at the first separator: the text before it is the first part. */
  lemma SplitFirst(a: string, sep: char, tail: string)
    requires sep !in a
    ensures Split(a + [sep] + tail, sep) == [a] + Split(tail, sep)
  {
    var s := a + [sep] + tail;
    assert s[..|a|] == a;
    assert s[|a|] == sep;
    assert IndexOf(s, sep) == Some(|a|);
    assert s[|a| + 1..] == tail;
  }

  /** The text before the first separator, or all of it, is the first part. */
  lemma SplitHead(a: string, sep: char, tail: string)
    requires sep !in a
    requires tail == [] || tail[0] == sep
    ensures Split(a + tail, sep) == [a] + (if tail == [] then [] else Split(tail[1..], sep))
  {
    if tail == [] {
      assert a + tail == a;
    } else {
      assert a + tail == a + [sep] + tail[1..];
      SplitFirst(a, sep, tail[1..]);
    }
  }

  /** Text without a separator is one part. */
  lemma SplitNone(a: string, sep: char)
    requires sep !in a
    ensures Split(a, sep) == [a]
  {
  }

  /** Split undoes Join whenever no part holds the separator. */
  lemma {:induction false} SplitJoin(parts: seq<string>, sep: char)
    requires |parts| >= 1
    requires forall i :: 0 <= i < |parts| ==> sep !in parts[i]
    ensures Split(Join(parts, sep), sep) == parts
  {
    if |parts| > 1 {
      var s := Join(parts, sep);
      assert s == parts[0] + [sep] + Join(parts[1..], sep);
      assert s[..|parts[0]|] == parts[0];
      assert s[|parts[0]|] == sep;
      assert IndexOf(s, sep) == Some(|parts[0]|);
      assert s[|parts[0]| + 1..] == Join(parts[1..], sep);
      SplitJoin(parts[1..], sep);
    }
  }

  // ---------------------------------------------------------------- ASCII case

  function LowerChar(c: char): char {
    if 'A' <= c <= 'Z' then (c as int + 32) as char else c
  }

  function UpperChar(c: char): char {
    if 'a' <= c <= 'z' then (c as int - 32) as char else c
  }

  /** lowercase(): maps every ASCII capital to its small letter, position by position. */
  function ToLower(s: string): (r: string)
    ensures |r| == |s|
    ensures forall i :: 0 <= i < |s| ==> r[i] == LowerChar(s[i])
  {
    seq(|s|, i requires 0 <= i < |s| => LowerChar(s[i]))
  }

  /** toUpperCase(): maps every ASCII small letter to its capital, position by position. */
  function ToUpper(s: string): (r: string)
    ensures |r| == |s|
    ensures forall i :: 0 <= i < |s| ==> r[i] == UpperChar(s[i])
  {
    seq(|s|, i requires 0 <= i < |s| => UpperChar(s[i]))
  }

  /** Kotlin's equals(other, ignoreCase = true), restricted to ASCII letters. */
  predicate EqualsIgnoreCase(a: string, b: string) {
    ToLower(a) == ToLower(b)
  }

  // ---------------------------------------------------------------- decimal text

  predicate IsDigit(c: char) {
    '0' <= c <= '9'
  }

  predicate AllDigits(s: string) {
    forall i :: 0 <= i < |s| ==> IsDigit(s[i])
  }

  function DigitChar(d: nat): (c: char)
    requires d < 10
    ensures IsDigit(c) && c as int - '0' as int == d
  {
    ('0' as int + d) as char
  }

  function DigitValue(c: char): nat
    requires IsDigit(c)
  {
    c as int - '0' as int
  }

  /** The number a string of decimal digits denotes, most significant digit first. */
  function DigitsValue(s: string): nat
    requires AllDigits(s)
  {
    if |s| == 0 then 0 else DigitsValue(s[..|s| - 1]) * 10 + DigitValue(s[|s| - 1])
  }

  /** Decimal text of a natural number: digits only, no leading zero, and it denotes n. */
  function NatToString(n: nat): (r: string)
    ensures |r| >= 1 && AllDigits(r)
    ensures |r| == 1 || r[0] != '0'
    ensures DigitsValue(r) == n
    decreases n
  {
    if n < 10 then [DigitChar(n)]
    else
      var p := NatToString(n / 10);
      var r := p + [DigitChar(n % 10)];
      assert r[..|r| - 1] == p;
      r
  }

  /** Decimal text of an integer, with a leading '-' for negatives (Kotlin's and JavaScript's toString). */
  function IntToString(n: int): (r: string)
    ensures |r| >= 1
    ensures n < 0 <==> r[0] == '-'
    ensures n >= 0 ==> r == NatToString(n)
    ensures n < 0 ==> r == "-" + NatToString(-n)
  {
    if n < 0 then "-" + NatToString(-n) else NatToString(n)
  }

  /** Length of the longest prefix of s made only of digits. */
  function DigitPrefixLength(s: string): (k: nat)
    ensures k <= |s| && AllDigits(s[..k])
    ensures k == |s| || !IsDigit(s[k])
  {
    if |s| == 0 || !IsDigit(s[0]) then 0
    else
      var k := DigitPrefixLength(s[1..]);
      assert s[..k + 1] == [s[0]] + s[1..][..k];
      k + 1
  }

  /**
   * JavaScript's parseInt(text, 10): leading whitespace, an optional sign, then the
   * longest run of digits; None (NaN) when there is no digit. A missing field
   * (undefined) is passed as None and also gives NaN.
   */
  function JsParseInt(text: Option<string>): (r: Option<int>)
  {
    if text.None? then None else ParseSigned(TrimStart(text.value))
  }

  /** An optional sign followed by the longest run of digits. */
  function ParseSigned(t: string): Option<int> {
    if |t| > 0 && t[0] == '-' then
      match ParseDigits(t[1..])
      case None => None
      case Some(v) => Some(-v)
    else if |t| > 0 && t[0] == '+' then ParseDigits(t[1..])
    else ParseDigits(t)
  }

  /** The value of the longest run of digits at the front, if there is one. */
  function ParseDigits(body: string): Option<int> {
    var k := DigitPrefixLength(body);
    if k == 0 then None else Some(DigitsValue(body[..k]))
  }

  /** The decimal text of an integer holds no separator or newline and has no whitespace at either end. */
  lemma DigitsShape(n: int)
    ensures ':' !in IntToString(n) && '\n' !in IntToString(n)
    ensures !IsWhitespace(IntToString(n)[0])
    ensures !IsWhitespace(IntToString(n)[|IntToString(n)| - 1])
  {
    var d := IntToString(n);
    var digits := NatToString(if n < 0 then -n else n);
    assert d == digits || d == "-" + digits;
    assert forall i :: 0 <= i < |d| ==> d[i] == '-' || IsDigit(d[i]);
  }

  /** parseInt reads back every integer's own decimal text. */
  lemma ParseIntRoundTrip(n: int)
    ensures JsParseInt(Some(IntToString(n))) == Some(n)
  {
    if n < 0 {
      var d := NatToString(-n);
      assert IntToString(n) == "-" + d;
      NegativeLeads(d);
      assert d + [] == d;
      ParseDigitsOf(d, []);
    } else {
      var d := NatToString(n);
      assert IntToString(n) == d;
      DigitLeads(d);
      assert d + [] == d;
      ParseDigitsOf(d, []);
    }
  }

  /** A number followed by a non-digit is read up to that character (parseInt ignores the tail). */
  lemma ParseIntIgnoresTail(n: nat, tail: string)
    requires tail == [] || !IsDigit(tail[0])
    ensures JsParseInt(Some(NatToString(n) + tail)) == Some(n)
  {
    var d := NatToString(n);
    assert (d + tail)[0] == d[0];
    DigitLeads(d + tail);
    ParseDigitsOf(d, tail);
  }

  /** Text that starts with a digit is parsed as a run of digits, with no sign. */
  lemma DigitLeads(s: string)
    requires |s| > 0 && IsDigit(s[0])
    ensures JsParseInt(Some(s)) == ParseDigits(s)
  {
    assert !IsWhitespace(s[0]) && s[0] != '-' && s[0] != '+';
    StartKept(s);
    assert JsParseInt(Some(s)) == ParseSigned(s);
  }

  /** Text that does not start with whitespace has nothing to trim at the front. */
  lemma StartKept(s: string)
    requires |s| > 0 && !IsWhitespace(s[0])
    ensures TrimStart(s) == s
  {
  }

  /** A minus sign before digits negates them. */
  lemma NegativeLeads(d: string)
    requires |d| > 0 && IsDigit(d[0])
    ensures JsParseInt(Some("-" + d)) == (if ParseDigits(d).Some? then Some(-ParseDigits(d).value) else None)
  {
    var s := "-" + d;
    assert s[0] == '-' && s[1..] == d;
    StartKept(s);
    assert ParseSigned(s) == (match ParseDigits(d) case None => None case Some(v) => Some(-v));
  }

  lemma ParseDigitsOf(d: string, tail: string)
    requires |d| > 0 && AllDigits(d)
    requires tail == [] || !IsDigit(tail[0])
    ensures ParseDigits(d + tail) == Some(DigitsValue(d) as int)
  {
    DigitPrefixOf(d, tail);
    assert (d + tail)[..|d|] == d;
  }

  lemma {:induction false} DigitPrefixOf(d: string, tail: string)
    requires AllDigits(d)
    requires tail == [] || !IsDigit(tail[0])
    ensures DigitPrefixLength(d + tail) == |d|
    decreases |d|
  {
    if |d| > 0 {
      assert (d + tail)[1..] == d[1..] + tail;
      DigitPrefixOf(d[1..], tail);
    }
  }

  // ---------------------------------------------------------------- padding and slicing

  /** padStart(width, fill) / "%0<width>d" padding: fill characters put in front up to width. */
  function PadStart(s: string, width: nat, fill: char): (r: string)
    ensures |r| == if |s| >= width then |s| else width
    ensures r[|r| - |s|..] == s
    ensures forall i :: 0 <= i < |r| - |s| ==> r[i] == fill
  {
    if |s| >= width then s else seq(width - |s|, _ => fill) + s
  }

  /** padEnd(width): spaces appended up to width. */
  function PadEnd(s: string, width: nat): (r: string)
    ensures |r| == if |s| >= width then |s| else width
    ensures r[..|s|] == s
    ensures forall i :: |s| <= i < |r| ==> r[i] == ' '
  {
    if |s| >= width then s else s + seq(width - |s|, _ => ' ')
  }

  /** Two-digit zero padding of an integer: Kotlin's "%02d" and JavaScript's toString().padStart(2, '0') agree. */
  function Pad2(n: int): (r: string)
    ensures |r| >= 2
    ensures 0 <= n < 10 ==> r == ['0', DigitChar(n)]
    ensures n >= 10 ==> r == NatToString(n)
    ensures n < 0 ==> r == IntToString(n)
  {
    PadStart(IntToString(n), 2, '0')
  }

  /** take(n): the first min(n, |s|) elements. */
  function Take<T>(s: seq<T>, n: nat): (r: seq<T>)
    ensures |r| == if n < |s| then n else |s|
    ensures r <= s
  {
    if n < |s| then s[..n] else s
  }

  /** takeLast(n): the last min(n, |s|) elements. */
  function TakeLast<T>(s: seq<T>, n: nat): (r: seq<T>)
    ensures |r| == if n < |s| then n else |s|
    ensures r == s[|s| - |r|..]
  {
    if n < |s| then s[|s| - n..] else s
  }

  // ---------------------------------------------------------------- ordering of text

  /** Code-point lexicographic order: the order of an "order by name" on plain ASCII names. */
  predicate LexLess(a: string, b: string) {
    |b| > 0 && (|a| == 0 || a[0] < b[0] || (a[0] == b[0] && LexLess(a[1..], b[1..])))
  }

  predicate LexLessEq(a: string, b: string) {
    a == b || LexLess(a, b)
  }

  lemma {:induction false} LexLessIrreflexive(a: string)
    ensures !LexLess(a, a)
  {
    if |a| > 0 {
      LexLessIrreflexive(a[1..]);
    }
  }

  lemma {:induction false} LexLessTransitive(a: string, b: string, c: string)
    requires LexLess(a, b) && LexLess(b, c)
    ensures LexLess(a, c)
  {
    if |a| > 0 && a[0] == b[0] && b[0] == c[0] {
      LexLessTransitive(a[1..], b[1..], c[1..]);
    }
  }

  lemma {:induction false} LexLessTotal(a: string, b: string)
    ensures LexLess(a, b) || a == b || LexLess(b, a)
  {
    if |a| > 0 && |b| > 0 && a[0] == b[0] {
      LexLessTotal(a[1..], b[1..]);
      if a[1..] == b[1..] {
        assert a == [a[0]] + a[1..] && b == [b[0]] + b[1..];
      }
    }
  }

  /** A proper prefix sorts first (so "2024-05-01" orders before "2024-05-01T..."). */
  lemma {:induction false} PrefixLexLess(a: string, b: string)
    requires a < b
    ensures LexLess(a, b)
  {
    if |a| > 0 {
      assert a[1..] < b[1..];
      PrefixLexLess(a[1..], b[1..]);
    }
  }

  // ---------------------------------------------------------------- arithmetic

  /** Kotlin/Java integer division, truncating toward zero (Dafny's / is Euclidean). */
  function TruncDiv(a: int, b: int): (q: int)
    requires b > 0
    ensures a >= 0 ==> q == a / b
    ensures a < 0 ==> q == -((-a) / b)
    ensures a >= 0 ==> 0 <= a - q * b < b
    ensures a < 0 ==> -b < a - q * b <= 0
  {
    if a >= 0 then a / b else -((-a) / b)
  }

  /** Kotlin/Java and JavaScript remainder: its sign follows the dividend. */
  function TruncMod(a: int, b: int): (m: int)
    requires b > 0
    ensures a == TruncDiv(a, b) * b + m
    ensures a >= 0 ==> 0 <= m < b
    ensures a < 0 ==> -b < m <= 0
  {
    a - TruncDiv(a, b) * b
  }

  /** JavaScript's Math.round(x * 100) / 100 on exact reals: halves round up. */
  function RoundCents(x: real): (r: real)
    ensures x - 0.005 < r <= x + 0.005
  {
    ((100.0 * x + 0.5).Floor as real) / 100.0
  }

  /** Rounding to cents never reverses an order. */
  lemma RoundCentsMonotone(x: real, y: real)
    requires x <= y
    ensures RoundCents(x) <= RoundCents(y)
  {
    var fx, fy := (100.0 * x + 0.5).Floor, (100.0 * y + 0.5).Floor;
    assert fx as real <= 100.0 * y + 0.5;
    assert fx <= fy;
  }

  /** A whole number of cents is already rounded. */
  lemma RoundCentsExact(cents: int)
    ensures RoundCents(cents as real / 100.0) == cents as real / 100.0
  {
    var x := cents as real / 100.0;
    assert 100.0 * x + 0.5 == cents as real + 0.5;
    assert (100.0 * x + 0.5).Floor == cents;
  }
}

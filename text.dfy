/**
 * String and number helpers shared by the Java back end and the browser
 * scripts: Java's `indexOf`/`lastIndexOf`/`endsWith`, JavaScript's `split`,
 * `join`, `trim` and global character replacement, and Java's decimal
 * rendering and parsing of `long` values with their 64-bit wrap-around.
 */
module Text {
  import opened Wrappers

  // ---------------------------------------------------------------------------
  // Java `long`
  // ---------------------------------------------------------------------------

  const MIN_LONG: int := -0x8000_0000_0000_0000
  const MAX_LONG: int := 0x7FFF_FFFF_FFFF_FFFF
  const TWO_TO_64: int := 0x1_0000_0000_0000_0000

  predicate IsLong(x: int) {
    MIN_LONG <= x <= MAX_LONG
  }

  /** The value a Java `long` expression yields: the mathematical result reduced modulo 2^64. */
  function WrapLong(x: int): (r: int)
    ensures IsLong(r)
    ensures IsLong(x) ==> r == x
    ensures (x - r) % TWO_TO_64 == 0
  {
    var m := (x - MIN_LONG) % TWO_TO_64;
    assert x - MIN_LONG == TWO_TO_64 * ((x - MIN_LONG) / TWO_TO_64) + m;
    m + MIN_LONG
  }

  // ---------------------------------------------------------------------------
  // Searching
  // ---------------------------------------------------------------------------

  /** Java `String.indexOf(char)` and JavaScript `indexOf`: the first position of `c`, or -1. */
  function IndexOf(s: string, c: char): (r: int)
    ensures -1 <= r < |s|
    ensures r == -1 <==> c !in s
    ensures 0 <= r ==> s[r] == c && c !in s[..r]
  {
    if |s| == 0 then -1
    else if s[0] == c then 0
    else
      var k := IndexOf(s[1..], c);
      assert c in s[1..] ==> c in s;
      assert c in s ==> c in s[1..] by {
        if c in s { var j :| 0 <= j < |s| && s[j] == c; assert s[1..][j - 1] == c; }
      }
      if k == -1 then -1
      else
        assert s[..k + 1] == [s[0]] + s[1..][..k];
        k + 1
  }

  /** Java `String.lastIndexOf(char)`: the last position of `c`, or -1. */
  function LastIndexOf(s: string, c: char): (r: int)
    ensures -1 <= r < |s|
    ensures r == -1 <==> c !in s
    ensures 0 <= r ==> s[r] == c && c !in s[r + 1..]
  {
    if |s| == 0 then -1
    else if s[|s| - 1] == c then |s| - 1
    else
      var k := LastIndexOf(s[..|s| - 1], c);
      InFront(s, c);
      if k == -1 then -1
      else
        FrontTail(s, k);
        k
  }

  /** When the last character is not `c`, `c` occurs in `s` exactly when it occurs in the rest. */
  lemma InFront(s: string, c: char)
    requires |s| > 0 && s[|s| - 1] != c
    ensures c in s <==> c in s[..|s| - 1]
  {
    if c in s {
      var j :| 0 <= j < |s| && s[j] == c;
      assert s[..|s| - 1][j] == c;
    }
  }

  lemma FrontTail(s: string, k: nat)
    requires k < |s| - 1
    ensures s[k + 1..] == s[..|s| - 1][k + 1..] + [s[|s| - 1]]
  {
  }

  predicate StartsWith(s: string, prefix: string) {
    |prefix| <= |s| && s[..|prefix|] == prefix
  }

  /** Java `String.endsWith`. */
  predicate EndsWith(s: string, suffix: string) {
    |suffix| <= |s| && s[|s| - |suffix|..] == suffix
  }

  // ---------------------------------------------------------------------------
  // JavaScript `split` and `join` on a single separator character
  // ---------------------------------------------------------------------------

  /** JavaScript `s.split(sep)`: the pieces between separators; never empty ("" gives [""]). */
  function Split(s: string, sep: char): (r: seq<string>)
    ensures |r| >= 1
    ensures forall i :: 0 <= i < |r| ==> sep !in r[i]
    decreases |s|
  {
    var k := IndexOf(s, sep);
    if k == -1 then [s] else [s[..k]] + Split(s[k + 1..], sep)
  }

  /** JavaScript `xs.join(sep)`. */
  function Join(xs: seq<string>, sep: char): string
  {
    if |xs| == 0 then ""
    else if |xs| == 1 then xs[0]
    else xs[0] + [sep] + Join(xs[1..], sep)
  }

  lemma {:induction false} JoinSplit(s: string, sep: char)
    ensures Join(Split(s, sep), sep) == s
    decreases |s|
  {
    var k := IndexOf(s, sep);
    if k != -1 {
      JoinSplit(s[k + 1..], sep);
      var rest := Split(s[k + 1..], sep);
      assert Split(s, sep) == [s[..k]] + rest;
      assert ([s[..k]] + rest)[1..] == rest;
      assert s == s[..k] + [sep] + s[k + 1..];
    }
  }

  lemma {:induction false} SplitJoin(xs: seq<string>, sep: char)
    requires |xs| >= 1
    requires forall i :: 0 <= i < |xs| ==> sep !in xs[i]
    ensures Split(Join(xs, sep), sep) == xs
  {
    if |xs| > 1 {
      SplitJoin(xs[1..], sep);
      var s := Join(xs, sep);
      var tail := Join(xs[1..], sep);
      assert sep !in xs[0];
      SeparatorAt(xs[0], sep, tail);
      assert s == xs[0] + [sep] + tail;
      assert Split(s, sep) == [xs[0]] + Split(tail, sep);
      assert xs == [xs[0]] + xs[1..];
    } else {
      assert IndexOf(xs[0], sep) == -1;
    }
  }

  /** The first separator of `head + [sep] + tail` is the one after `head`. */
  lemma SeparatorAt(head: string, sep: char, tail: string)
    requires sep !in head
    ensures var s := head + [sep] + tail;
      && IndexOf(s, sep) == |head|
      && s[..|head|] == head
      && s[|head| + 1..] == tail
  {
    var s := head + [sep] + tail;
    assert s[|head|] == sep;
    assert s[..|head|] == head;
    assert forall j :: 0 <= j < |head| ==> s[j] == head[j];
    assert forall j :: |head| < j <= |s| ==> s[..j][|head|] == sep;
    assert s[|head| + 1..] == tail;
  }

  /** The middle of `head + mid + tail` is `mid`, character by character. */
  lemma MiddleChars(head: string, mid: string, tail: string, inClass: char -> bool)
    requires forall k :: 0 <= k < |mid| ==> inClass(mid[k])
    ensures forall k :: |head| <= k < |head| + |mid| ==> inClass((head + mid + tail)[k])
  {
    var s := head + mid + tail;
    forall k | |head| <= k < |head| + |mid| ensures inClass(s[k]) {
      assert s[k] == mid[k - |head|];
    }
  }

  /** Length of a join: the pieces plus one separator between each two. */
  lemma {:induction false} JoinLength(xs: seq<string>, sep: char)
    requires |xs| >= 1
    ensures |Join(xs, sep)| >= |xs[0]|
    ensures Join(xs, sep)[..|xs[0]|] == xs[0]
  {
    if |xs| > 1 {
      assert Join(xs, sep) == xs[0] + ([sep] + Join(xs[1..], sep));
    }
  }

  /** Appending one more piece to a join, the way an accumulating loop builds it. */
  lemma {:induction false} JoinSnoc(xs: seq<string>, x: string, sep: char)
    ensures Join(xs + [x], sep) == if |xs| == 0 then x else Join(xs, sep) + [sep] + x
  {
    if |xs| == 1 {
      assert xs + [x] == [xs[0], x];
      assert [xs[0], x][1..] == [x];
    } else if |xs| > 1 {
      JoinSnoc(xs[1..], x, sep);
      assert (xs + [x])[1..] == xs[1..] + [x];
    }
  }

  // ---------------------------------------------------------------------------
  // JavaScript `trim` and `replace(/c/g, d)`
  // ---------------------------------------------------------------------------

  /** The characters JavaScript's `trim` removes: white space (category Zs, tab, VT, FF, BOM) and line terminators. */
  predicate IsJsSpace(c: char) {
    c == ' ' || c == '\t' || c == '\n' || c == '\r' || c == '\U{B}' || c == '\U{C}'
    || c == '\U{A0}' || c == '\U{FEFF}' || c == '\U{1680}' || ('\U{2000}' <= c <= '\U{200A}')
    || c == '\U{2028}' || c == '\U{2029}' || c == '\U{202F}' || c == '\U{205F}' || c == '\U{3000}'
  }

  function TrimStart(s: string): (r: string)
    ensures |r| <= |s| && r == s[|s| - |r|..]
    ensures |r| == 0 || !IsJsSpace(r[0])
    ensures forall i :: 0 <= i < |s| - |r| ==> IsJsSpace(s[i])
  {
    if |s| > 0 && IsJsSpace(s[0]) then
      var r := TrimStart(s[1..]);
      assert forall i :: 1 <= i < |s| ==> s[i] == s[1..][i - 1];
      r
    else s
  }

  function TrimEnd(s: string): (r: string)
    ensures |r| <= |s| && r == s[..|r|]
    ensures |r| == 0 || !IsJsSpace(r[|r| - 1])
    ensures forall i :: |r| <= i < |s| ==> IsJsSpace(s[i])
  {
    if |s| > 0 && IsJsSpace(s[|s| - 1]) then
      var r := TrimEnd(s[..|s| - 1]);
      assert forall i :: 0 <= i < |s| - 1 ==> s[i] == s[..|s| - 1][i];
      r
    else s
  }

  /** JavaScript `s.trim()`. */
  function Trim(s: string): string {
    TrimEnd(TrimStart(s))
  }

  /** A trimmed string neither starts nor ends with white space, so trimming it again changes nothing. */
  lemma {:induction false} TrimIdempotent(s: string)
    ensures var r := Trim(s); |r| == 0 || (!IsJsSpace(r[0]) && !IsJsSpace(r[|r| - 1]))
    ensures Trim(Trim(s)) == Trim(s)
  {
    var t := TrimStart(s);
    var r := TrimEnd(t);
    assert |r| > 0 ==> r[0] == t[0];
    assert TrimStart(r) == r;
  }

  /** Trimming cuts only white space, from the two ends. */
  lemma {:induction false} TrimCutsSpace(s: string)
    ensures var r := Trim(s); var i := |s| - |TrimStart(s)|;
      && i + |r| <= |s| && s[i..i + |r|] == r
      && (forall k :: 0 <= k < i ==> IsJsSpace(s[k]))
      && (forall k :: i + |r| <= k < |s| ==> IsJsSpace(s[k]))
  {
    var t := TrimStart(s);
    var r := TrimEnd(t);
    var i := |s| - |t|;
    PrefixOfSuffix(s, i, |r|);
    forall k | i + |r| <= k < |s| ensures IsJsSpace(s[k]) {
      assert s[k] == t[k - i];
    }
  }

  lemma AppendAssoc(a: string, b: string, c: string)
    ensures a + b + c == a + (b + c)
  {
  }

  lemma PrefixOfSuffix(s: string, i: nat, n: nat)
    requires i + n <= |s|
    ensures s[i..][..n] == s[i..i + n]
  {
  }

  /** JavaScript `s.replace(/from/g, to)` for a single character. */
  function ReplaceChar(s: string, from: char, to: char): (r: string)
    ensures |r| == |s|
    ensures forall i :: 0 <= i < |s| ==> r[i] == if s[i] == from then to else s[i]
  {
    if |s| == 0 then [] else [if s[0] == from then to else s[0]] + ReplaceChar(s[1..], from, to)
  }

  // ---------------------------------------------------------------------------
  // Decimal rendering and parsing (Java `String.valueOf(long)`, `Long.valueOf(String)`)
  // ---------------------------------------------------------------------------

  predicate IsDigit(c: char) {
    '0' <= c <= '9'
  }

  predicate AllDigits(s: string) {
    forall i :: 0 <= i < |s| ==> IsDigit(s[i])
  }

  function DigitValue(c: char): nat
    requires IsDigit(c)
  {
    (c as int) - ('0' as int)
  }

  function DigitChar(d: nat): (c: char)
    requires d < 10
    ensures IsDigit(c) && DigitValue(c) == d
  {
    ('0' as int + d) as char
  }

  /** The number a string of decimal digits denotes. */
  function DigitsValue(s: string): nat
    requires AllDigits(s)
  {
    if |s| == 0 then 0 else DigitsValue(s[..|s| - 1]) * 10 + DigitValue(s[|s| - 1])
  }

  /** The shortest decimal digits of `n`. */
  function NatDigits(n: nat): (r: string)
    ensures |r| >= 1 && AllDigits(r)
  {
    if n < 10 then [DigitChar(n)] else NatDigits(n / 10) + [DigitChar(n % 10)]
  }

  /** Java `String.valueOf(long)`. */
  function DecimalString(n: int): string {
    if n < 0 then "-" + NatDigits(-n) else NatDigits(n)
  }

  /**
   * Java `Long.valueOf(String)`: an optional '+' or '-', then one or more
   * decimal digits, denoting a value in the `long` range; anything else
   * raises NumberFormatException, modelled as None.
   */
  function ParseLong(s: string): (r: Option<int>)
    ensures r.Some? ==> IsLong(r.value)
  {
    if |s| == 0 then None
    else
      var digits := if s[0] == '-' || s[0] == '+' then s[1..] else s;
      if |digits| == 0 || !AllDigits(digits) then None
      else
        var v := if s[0] == '-' then -(DigitsValue(digits) as int) else DigitsValue(digits);
        if IsLong(v) then Some(v) else None
  }

  lemma {:induction false} NatDigitsValue(n: nat)
    ensures DigitsValue(NatDigits(n)) == n
  {
    if n >= 10 {
      NatDigitsValue(n / 10);
      var r := NatDigits(n);
      assert r[..|r| - 1] == NatDigits(n / 10);
    }
  }

  /** Parsing the decimal rendering of a `long` gives the value back. */
  lemma ParseDecimalString(n: int)
    requires IsLong(n)
    ensures ParseLong(DecimalString(n)) == Some(n)
  {
    var s := DecimalString(n);
    if n < 0 {
      var digits := NatDigits(-n);
      NatDigitsValue(-n);
      assert s == "-" + digits;
      assert s[0] == '-' && s[1..] == digits;
      assert AllDigits(digits) && |digits| > 0;
      assert -(DigitsValue(digits) as int) == n;
    } else {
      NatDigitsValue(n);
      assert s == NatDigits(n);
      assert IsDigit(s[0]);
      assert s[0] != '-' && s[0] != '+';
    }
  }

  /** A string holding a non-digit other than a leading sign does not parse. */
  lemma ParseRejectsNonDigit(s: string, i: nat)
    requires i < |s| && !IsDigit(s[i])
    requires i > 0 || (s[0] != '-' && s[0] != '+')
    ensures ParseLong(s) == None
  {
    if |s| > 0 && (s[0] == '-' || s[0] == '+') {
      assert s[1..][i - 1] == s[i];
    }
  }
}

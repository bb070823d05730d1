/**
 * The five regular expressions the swagger rewriter uses, written out as
 * matchers with the semantics `java.util.regex` gives them, and
 * `Matcher.appendReplacement`'s reading of a replacement string.
 *
 *   HOST      "host"[ ]*:[ ]*"([a-zA-Z0-9.]+)"
 *   BASEPATH  "basePath"[ ]*:[ ]*"([a-zA-Z/]+)"
 *   SCHEMES   "schemes"[ ]*:[ ]*\["https"\]
 *   SECDEF    "securityDefinitions"[ ]*:.*"type"[ ]*:[ ]*"oauth2"[ ]*\}\}
 *   SECURITY  "security"[ ]*:[ ]*\[\{"evesso".*?\]\}\]
 *
 * `[ ]*` and the character classes are followed by a character outside
 * them, so they match exactly the longest run. `.` matches anything but a
 * line terminator; the greedy `.*` ends at the LAST place on the line where
 * the rest matches, the lazy `.*?` at the FIRST.
 */
module Patterns {
  import opened Wrappers

  datatype Pattern = HostPattern | BasePathPattern | SchemesPattern | SecDefPattern | SecurityPattern

  /**
   * A match: where it starts and ends, and its groups (group 0 is the whole
   * match; HOST and BASEPATH have a group 1).
   */
  datatype Match = Match(start: nat, end: nat, groups: seq<string>)

  function GroupCount(p: Pattern): nat {
    if p == HostPattern || p == BasePathPattern then 1 else 0
  }

  /** The characters `.` does not match: Java's line terminators. */
  predicate IsLineTerminator(c: char) {
    c == '\n' || c == '\r' || c == '\U{85}' || c == '\U{2028}' || c == '\U{2029}'
  }

  predicate HostChar(c: char) {
    'a' <= c <= 'z' || 'A' <= c <= 'Z' || '0' <= c <= '9' || c == '.'
  }

  predicate BasePathChar(c: char) {
    'a' <= c <= 'z' || 'A' <= c <= 'Z' || c == '/'
  }

  predicate LitAt(s: string, i: nat, lit: string) {
    i + |lit| <= |s| && s[i..i + |lit|] == lit
  }

  /** The end of the longest run from `i` of characters satisfying `inClass`. */
  function SkipWhile(s: string, i: nat, inClass: char -> bool): (r: nat)
    requires i <= |s|
    ensures i <= r <= |s|
    ensures forall k :: i <= k < r ==> inClass(s[k])
    ensures r == |s| || !inClass(s[r])
    decreases |s| - i
  {
    if i < |s| && inClass(s[i]) then SkipWhile(s, i + 1, inClass) else i
  }

  function SkipSpaces(s: string, i: nat): (r: nat)
    requires i <= |s|
    ensures i <= r <= |s|
  {
    SkipWhile(s, i, c => c == ' ')
  }

  /** `n` spaces at `i` and no more: `[ ]*` stops after them. */
  lemma SkipSpacesRun(s: string, i: nat, n: nat)
    requires i + n <= |s|
    requires forall k :: i <= k < i + n ==> s[k] == ' '
    requires i + n == |s| || s[i + n] != ' '
    ensures SkipSpaces(s, i) == i + n
  {
    SkipWhileRun(s, i, n, c => c == ' ');
  }

  /** `"key"[ ]*:` at `i`: the position after the colon. */
  function KeyColon(s: string, i: nat, key: string): (r: Option<nat>)
    ensures r.Some? ==> i < r.value <= |s|
  {
    if LitAt(s, i, "\"" + key + "\"") then
      var j := SkipSpaces(s, i + |key| + 2);
      if j < |s| && s[j] == ':' then Some(j + 1) else None
    else None
  }

  /** `"key"[ ]*:[ ]*"(class+)"` at `i`: the end of the match and the captured run. */
  function QuotedValue(s: string, i: nat, key: string, inClass: char -> bool): (r: Option<(nat, string)>)
    ensures r.Some? ==> i < r.value.0 <= |s|
    ensures r.Some? ==> |r.value.1| >= 1 && forall k :: 0 <= k < |r.value.1| ==> inClass(r.value.1[k])
  {
    match KeyColon(s, i, key)
    case None => None
    case Some(a) =>
      var q := SkipSpaces(s, a);
      if q < |s| && s[q] == '"' then QuotedRun(s, q, inClass) else None
  }

  /** `(class+)"` after the opening quote at `q`: the end of the match and the captured run. */
  function QuotedRun(s: string, q: nat, inClass: char -> bool): (r: Option<(nat, string)>)
    requires q < |s|
    ensures r.Some? ==> q + 1 < r.value.0 <= |s|
    ensures r.Some? ==> |r.value.1| >= 1 && forall k :: 0 <= k < |r.value.1| ==> inClass(r.value.1[k])
  {
    var g := SkipWhile(s, q + 1, inClass);
    if g > q + 1 && g < |s| && s[g] == '"' then Some((g + 1, s[q + 1..g])) else None
  }

  lemma {:induction false} SkipWhileRun(s: string, i: nat, n: nat, inClass: char -> bool)
    requires i + n <= |s|
    requires forall k :: i <= k < i + n ==> inClass(s[k])
    requires i + n == |s| || !inClass(s[i + n])
    ensures SkipWhile(s, i, inClass) == i + n
    decreases n
  {
    if n > 0 {
      SkipWhileRun(s, i + 1, n - 1, inClass);
    }
  }

  /** `"key"` then `n` spaces and a colon, read by `"key"[ ]*:`. */
  lemma KeyColonReads(s: string, key: string, n: nat)
    requires |key| + 3 + n <= |s|
    requires s[..|key| + 2] == "\"" + key + "\""
    requires forall k :: |key| + 2 <= k < |key| + 2 + n ==> s[k] == ' '
    requires s[|key| + 2 + n] == ':'
    ensures KeyColon(s, 0, key) == Some(|key| + 3 + n)
  {
    assert LitAt(s, 0, "\"" + key + "\"");
    SkipSpacesRun(s, |key| + 2, n);
  }

  /** `"key":`, `n` spaces and an opening quote: the value read is the run after the quote. */
  lemma QuotedValueAt(s: string, key: string, n: nat, inClass: char -> bool)
    requires |key| + 4 + n <= |s|
    requires s[..|key| + 2] == "\"" + key + "\"" && s[|key| + 2] == ':'
    requires forall k :: |key| + 3 <= k < |key| + 3 + n ==> s[k] == ' '
    requires s[|key| + 3 + n] == '"'
    ensures QuotedValue(s, 0, key, inClass) == QuotedRun(s, |key| + 3 + n, inClass)
  {
    KeyColonReads(s, key, 0);
    SkipSpacesRun(s, |key| + 3, n);
  }

  /** `"key":`, `n` spaces and a quoted run of the class, laid out position by position, read by `"key"[ ]*:[ ]*"(class+)"`: the run is captured. */
  lemma QuotedValueReads(s: string, key: string, n: nat, inClass: char -> bool)
    requires |s| >= |key| + n + 6
    requires s[..|key| + 2] == "\"" + key + "\"" && s[|key| + 2] == ':'
    requires forall k :: |key| + 3 <= k < |key| + 3 + n ==> s[k] == ' '
    requires s[|key| + 3 + n] == '"' && s[|s| - 1] == '"'
    requires forall k :: |key| + 4 + n <= k < |s| - 1 ==> inClass(s[k])
    requires !inClass('"')
    ensures QuotedValue(s, 0, key, inClass) == Some((|s|, s[|key| + 4 + n..|s| - 1]))
  {
    QuotedValueAt(s, key, n, inClass);
    SkipWhileRun(s, |key| + 4 + n, |s| - 1 - (|key| + 4 + n), inClass);
  }

  /** `"type"[ ]*:[ ]*"oauth2"[ ]*\}\}` at `j`: the end of the match. */
  function OAuthTail(s: string, j: nat): (r: Option<nat>)
    ensures r.Some? ==> j < r.value <= |s|
  {
    match KeyColon(s, j, "type")
    case None => None
    case Some(a) =>
      var b := SkipSpaces(s, a);
      if LitAt(s, b, "\"oauth2\"") then
        var c := SkipSpaces(s, b + 8);
        if LitAt(s, c, "}}") then Some(c + 2) else None
      else None
  }

  /** The first line terminator at or after `i`, or the end of the text. */
  function LineEnd(s: string, i: nat): (r: nat)
    requires i <= |s|
    ensures i <= r <= |s|
    ensures forall k :: i <= k < r ==> !IsLineTerminator(s[k])
    ensures r == |s| || IsLineTerminator(s[r])
    decreases |s| - i
  {
    if i < |s| && !IsLineTerminator(s[i]) then LineEnd(s, i + 1) else i
  }

  /** What a tail matcher promises: a tail found at `j` ends after `j`, inside the text. */
  ghost predicate TailSound(f: (string, nat) -> Option<nat>) {
    forall s: string, j: nat :: f(s, j).Some? ==> j < f(s, j).value <= |s|
  }

  function NoTail(s: string, j: nat): Option<nat> {
    None
  }

  type Tail = f: (string, nat) -> Option<nat> | TailSound(f) witness NoTail

  /** Greedy `.*` before a tail: tries `j` down to `a`, the first tail found wins. */
  function LastTail(tail: Tail, s: string, a: nat, j: nat): (r: Option<nat>)
    requires a <= j
    ensures r.Some? ==> a < r.value <= |s|
    ensures r.None? ==> forall k :: a <= k <= j ==> tail(s, k).None?
    decreases j - a
  {
    if tail(s, j).Some? then tail(s, j)
    else if j == a then None
    else LastTail(tail, s, a, j - 1)
  }

  /** The greedy `.*` ends at the last place where the tail matches: the tail found starts at `k`, and at no later place. */
  lemma {:induction false} LastTailFound(tail: Tail, s: string, a: nat, j: nat) returns (k: nat)
    requires a <= j && LastTail(tail, s, a, j).Some?
    ensures a <= k <= j && tail(s, k) == LastTail(tail, s, a, j)
    ensures forall k' :: k < k' <= j ==> tail(s, k').None?
    decreases j - a
  {
    if tail(s, j).Some? {
      k := j;
    } else {
      k := LastTailFound(tail, s, a, j - 1);
    }
  }

  /** `]}]` at `k`. */
  predicate CloseAt(s: string, k: nat) {
    k + 3 <= |s| && s[k] == ']' && s[k + 1] == '}' && s[k + 2] == ']'
  }

  /** Lazy `.*?` before `]}]`: tries `j` upwards from `a` while the line lasts. */
  function FirstClose(s: string, j: nat): (r: Option<nat>)
    requires j <= |s|
    ensures r.Some? ==> j + 3 <= r.value <= |s| && CloseAt(s, r.value - 3)
    ensures r.Some? ==> forall k :: j <= k < r.value - 3 ==> !CloseAt(s, k) && !IsLineTerminator(s[k])
    ensures r.None? ==> forall k :: j <= k <= LineEnd(s, j) ==> !CloseAt(s, k)
    decreases |s| - j
  {
    if CloseAt(s, j) then Some(j + 3)
    else if j < |s| && !IsLineTerminator(s[j]) then FirstClose(s, j + 1)
    else None
  }

  predicate WellFormed(p: Pattern, s: string, i: nat, m: Match) {
    m.start == i && i < m.end <= |s| && |m.groups| == GroupCount(p) + 1 && m.groups[0] == s[i..m.end]
  }

  function HostMatch(s: string, i: nat): (r: Option<Match>)
    ensures r.Some? ==> WellFormed(HostPattern, s, i, r.value)
  {
    match QuotedValue(s, i, "host", HostChar)
    case None => None
    case Some(v) => Some(Match(i, v.0, [s[i..v.0], v.1]))
  }

  function BasePathMatch(s: string, i: nat): (r: Option<Match>)
    ensures r.Some? ==> WellFormed(BasePathPattern, s, i, r.value)
    ensures r.Some? ==> forall k :: 0 <= k < |r.value.groups[1]| ==> BasePathChar(r.value.groups[1][k])
  {
    match QuotedValue(s, i, "basePath", BasePathChar)
    case None => None
    case Some(v) => Some(Match(i, v.0, [s[i..v.0], v.1]))
  }

  function SchemesMatch(s: string, i: nat): (r: Option<Match>)
    ensures r.Some? ==> WellFormed(SchemesPattern, s, i, r.value)
  {
    match KeyColon(s, i, "schemes")
    case None => None
    case Some(a) =>
      var b := SkipSpaces(s, a);
      if LitAt(s, b, "[\"https\"]") then Some(Match(i, b + 9, [s[i..b + 9]])) else None
  }

  function SecDefMatch(s: string, i: nat): (r: Option<Match>)
    ensures r.Some? ==> WellFormed(SecDefPattern, s, i, r.value)
  {
    match KeyColon(s, i, "securityDefinitions")
    case None => None
    case Some(a) =>
      match LastTail(OAuthTail, s, a, LineEnd(s, a))
      case None => None
      case Some(e) => Some(Match(i, e, [s[i..e]]))
  }

  function SecurityMatch(s: string, i: nat): (r: Option<Match>)
    ensures r.Some? ==> WellFormed(SecurityPattern, s, i, r.value)
  {
    match KeyColon(s, i, "security")
    case None => None
    case Some(a) =>
      var b := SkipSpaces(s, a);
      if LitAt(s, b, "[{\"evesso\"") then
        match FirstClose(s, b + 10)
        case None => None
        case Some(e) => Some(Match(i, e, [s[i..e]]))
      else None
  }

  /** What every matcher promises: a match found at `i` starts there, is not empty, ends inside the text, and has group 0. */
  ghost predicate Sound(f: (string, nat) -> Option<Match>) {
    forall s: string, i: nat :: f(s, i).Some? ==>
      f(s, i).value.start == i && i < f(s, i).value.end <= |s| && |f(s, i).value.groups| >= 1
  }

  /** The matcher of a pattern that matches nowhere. */
  function NoMatch(s: string, i: nat): Option<Match> {
    None
  }

  /** A pattern's matcher: the match starting exactly at a position, if there is one. */
  type Matcher = f: (string, nat) -> Option<Match> | Sound(f) witness NoMatch

  /** The five matchers keep the promise every matcher makes. */
  lemma MatchersSound()
    ensures Sound(HostMatch) && Sound(BasePathMatch) && Sound(SchemesMatch)
    ensures Sound(SecDefMatch) && Sound(SecurityMatch)
  {
  }

  /** `Matcher.find` from `from`: the match with the leftmost start. */
  function Find(p: Matcher, s: string, from: nat): (r: Option<Match>)
    ensures r.Some? ==> from <= r.value.start && p(s, r.value.start) == r
    ensures r.Some? ==> forall k :: from <= k < r.value.start ==> p(s, k).None?
    ensures r.None? ==> forall k :: from <= k ==> p(s, k).None?
    decreases |s| - from
  {
    if from >= |s| then
      None
    else if p(s, from).Some? then p(s, from)
    else Find(p, s, from + 1)
  }

  // ---------------------------------------------------------------------------
  // Matcher.appendReplacement's reading of the replacement string
  // ---------------------------------------------------------------------------

  function Digit(c: char): int {
    c as int - '0' as int
  }

  /**
   * After "$d": further digits are taken while the number they make stays a
   * valid group number. Returns the group number and the position after it.
   */
  function GroupRef(r: string, i: nat, ref: nat, groupCount: nat): (res: (nat, nat))
    requires i <= |r|
    ensures i <= res.1 <= |r|
    ensures res.1 > i ==> res.0 <= groupCount
    ensures res.1 == i ==> res.0 == ref
    decreases |r| - i
  {
    if i < |r| && 0 <= Digit(r[i]) <= 9 && ref * 10 + Digit(r[i]) <= groupCount then
      GroupRef(r, i + 1, ref * 10 + Digit(r[i]), groupCount)
    else (ref, i)
  }

  /**
   * The text a replacement string stands for: '\' makes the next character
   * literal, "$n" inserts group n. None where Java throws: a trailing '\' or
   * '$', a '$' not followed by a digit, a named group (there are none), or a
   * group number above the pattern's group count.
   */
  function Expand(r: string, groups: seq<string>): (t: Option<string>)
    requires |groups| >= 1
    decreases |r|
  {
    if |r| == 0 then Some([])
    else if r[0] == '\\' then
      if |r| == 1 then None
      else match Expand(r[2..], groups)
        case None => None
        case Some(rest) => Some([r[1]] + rest)
    else if r[0] == '$' then
      if |r| == 1 || !(0 <= Digit(r[1]) <= 9) then None
      else
        var ref := GroupRef(r, 2, Digit(r[1]) as nat, |groups| - 1);
        if ref.0 >= |groups| then None
        else match Expand(r[ref.1..], groups)
          case None => None
          case Some(rest) => Some(groups[ref.0] + rest)
    else match Expand(r[1..], groups)
      case None => None
      case Some(rest) => Some([r[0]] + rest)
  }

  /** Text with no '\' and no '$' stands for itself. */
  lemma {:induction false} ExpandPlain(r: string, groups: seq<string>)
    requires |groups| >= 1
    requires '\\' !in r && '$' !in r
    ensures Expand(r, groups) == Some(r)
  {
    if |r| > 0 {
      assert r[0] in r;
      assert forall c :: c in r[1..] ==> c in r;
      ExpandPlain(r[1..], groups);
      assert r == [r[0]] + r[1..];
    }
  }

  /** A plain prefix is copied as it is. */
  lemma {:induction false} ExpandPlainPrefix(a: string, b: string, groups: seq<string>)
    requires |groups| >= 1
    requires '\\' !in a && '$' !in a
    ensures Expand(b, groups).None? ==> Expand(a + b, groups).None?
    ensures Expand(b, groups).Some? ==> Expand(a + b, groups) == Some(a + Expand(b, groups).value)
  {
    if |a| == 0 {
      assert a + b == b;
      if Expand(b, groups).Some? {
        assert a + Expand(b, groups).value == Expand(b, groups).value;
      }
    } else {
      var ab := a + b;
      assert a[0] in a;
      assert ab[0] == a[0];
      assert forall c :: c in a[1..] ==> c in a;
      assert ab[1..] == a[1..] + b;
      ExpandPlainPrefix(a[1..], b, groups);
      if Expand(b, groups).Some? {
        calc {
          Expand(ab, groups);
          Some([a[0]] + Expand(ab[1..], groups).value);
          Some([a[0]] + (a[1..] + Expand(b, groups).value));
          { assert a == [a[0]] + a[1..];
            assert [a[0]] + (a[1..] + Expand(b, groups).value) == ([a[0]] + a[1..]) + Expand(b, groups).value; }
          Some(a + Expand(b, groups).value);
        }
      }
    }
  }

  /** An escaped character stands for itself. */
  lemma ExpandEscaped(c: char, b: string, groups: seq<string>)
    requires |groups| >= 1
    ensures Expand(b, groups).None? ==> Expand(['\\', c] + b, groups).None?
    ensures Expand(b, groups).Some? ==> Expand(['\\', c] + b, groups) == Some([c] + Expand(b, groups).value)
  {
    assert (['\\', c] + b)[2..] == b;
  }

  /** A replacement starting with a reference to a missing group is rejected. */
  lemma ExpandMissingGroup(d: char, b: string, groups: seq<string>)
    requires |groups| >= 1
    requires 0 <= Digit(d) <= 9 && Digit(d) >= |groups|
    requires |b| == 0 || !(0 <= Digit(b[0]) <= 9)
    ensures Expand(['$', d] + b, groups) == None
  {
    var r := ['$', d] + b;
    var ref := GroupRef(r, 2, Digit(d) as nat, |groups| - 1);
    assert r[1] == d;
    if |b| > 0 {
      assert r[2] == b[0];
    }
  }
}

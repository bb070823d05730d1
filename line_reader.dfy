/**
 * How the servlet reads the upstream swagger document: `BufferedReader.readLine`
 * line by line, each line appended to one buffer without its terminator.
 */
module LineReader {
  import opened Wrappers
  import opened Text

  /** The characters `BufferedReader.readLine` ends a line at. */
  predicate IsLineBreak(c: char) {
    c == '\n' || c == '\r'
  }

  /** The text with every line break dropped. */
  function StripLineBreaks(text: string): (r: string)
    ensures |r| <= |text|
    ensures forall k :: 0 <= k < |r| ==> !IsLineBreak(r[k])
  {
    if |text| == 0 then [] else (if IsLineBreak(text[0]) then [] else [text[0]]) + StripLineBreaks(text[1..])
  }

  lemma {:induction false} StripAppend(a: string, b: string)
    ensures StripLineBreaks(a + b) == StripLineBreaks(a) + StripLineBreaks(b)
  {
    if |a| == 0 {
      assert a + b == b;
    } else {
      assert (a + b)[1..] == a[1..] + b;
      StripAppend(a[1..], b);
    }
  }

  lemma {:induction false} StripKeepsLine(line: string)
    requires forall k :: 0 <= k < |line| ==> !IsLineBreak(line[k])
    ensures StripLineBreaks(line) == line
  {
    if |line| > 0 {
      StripKeepsLine(line[1..]);
    }
  }

  lemma {:induction false} StripDropsBreaks(gap: string)
    requires forall k :: 0 <= k < |gap| ==> IsLineBreak(gap[k])
    ensures StripLineBreaks(gap) == []
  {
    if |gap| > 0 {
      StripDropsBreaks(gap[1..]);
    }
  }

  /** The end of the line starting at `pos`: the first line break, or the end of the text. */
  function LineBreakAt(text: string, pos: nat): (e: nat)
    requires pos <= |text|
    ensures pos <= e <= |text|
    ensures forall k :: pos <= k < e ==> !IsLineBreak(text[k])
    ensures e == |text| || IsLineBreak(text[e])
    decreases |text| - pos
  {
    if pos == |text| || IsLineBreak(text[pos]) then pos else LineBreakAt(text, pos + 1)
  }

  /**
   * `BufferedReader.readLine` at `pos`: nothing at the end of the text,
   * otherwise the line without its terminator and the position after the
   * terminator, where "\r\n" counts as one.
   */
  function ReadLine(text: string, pos: nat): (r: Option<(string, nat)>)
    requires pos <= |text|
    ensures r.None? <==> pos == |text|
    ensures r.Some? ==> pos < r.value.1 <= |text|
  {
    if pos == |text| then None
    else
      var e := LineBreakAt(text, pos);
      var next := if e == |text| then e
        else if text[e] == '\r' && e + 1 < |text| && text[e + 1] == '\n' then e + 2
        else e + 1;
      Some((text[pos..e], next))
  }

  /** A line read is the stripped text up to where reading resumes. */
  lemma ReadLineSplits(text: string, pos: nat)
    requires pos < |text|
    ensures var r := ReadLine(text, pos).value;
      StripLineBreaks(text[pos..]) == r.0 + StripLineBreaks(text[r.1..])
  {
    var r := ReadLine(text, pos).value;
    var e := LineBreakAt(text, pos);
    forall k | e <= k < r.1 ensures IsLineBreak(text[k]) {
    }
    StripSplit(text, pos, e, r.1);
  }

  /** Text without breaks from `i` to `e`, only breaks from `e` to `n`: stripping keeps the first part and drops the second. */
  lemma StripSplit(s: string, i: nat, e: nat, n: nat)
    requires i <= e <= n <= |s|
    requires forall k :: i <= k < e ==> !IsLineBreak(s[k])
    requires forall k :: e <= k < n ==> IsLineBreak(s[k])
    ensures StripLineBreaks(s[i..]) == s[i..e] + StripLineBreaks(s[n..])
  {
    var line, gap, rest := s[i..e], s[e..n], s[n..];
    assert s[i..] == line + (gap + rest);
    forall k | 0 <= k < |line| ensures !IsLineBreak(line[k]) {
      assert line[k] == s[i + k];
    }
    forall k | 0 <= k < |gap| ensures IsLineBreak(gap[k]) {
      assert gap[k] == s[e + k];
    }
    StripKeepsLine(line);
    StripDropsBreaks(gap);
    StripAppend(line, gap + rest);
    StripAppend(gap, rest);
  }

  /** The servlet's loop that appends every line read to one buffer. */
  method AssembleLines(text: string) returns (assembly: string)
    ensures assembly == StripLineBreaks(text)
  {
    assembly := "";
    var pos := 0;
    var next := ReadLine(text, pos);
    assert text[pos..] == text;
    while next.Some?
      invariant pos <= |text| && next == ReadLine(text, pos)
      invariant assembly + StripLineBreaks(text[pos..]) == StripLineBreaks(text)
      decreases |text| - pos
    {
      ReadLineSplits(text, pos);
      AppendAssoc(assembly, next.value.0, StripLineBreaks(text[next.value.1..]));
      assembly := assembly + next.value.0;
      pos := next.value.1;
      next := ReadLine(text, pos);
    }
    assert text[pos..] == [];
  }
}

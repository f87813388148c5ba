/** The markdown-fence clean-up that both the browser component and the server
    route apply to a model reply: four regular-expression replacements and two
    trims, in a fixed order. Each replacement is written out for its one pattern. */
module Fences {
  import opened TextOps

  /** "```json" at the start of `s`. */
  predicate StartsWithJsonMarker(s: string) {
    && |s| >= 7 && s[0] == '`' && s[1] == '`' && s[2] == '`'
    && s[3] == 'j' && s[4] == 's' && s[5] == 'o' && s[6] == 'n'
  }

  /** "```" at the start of `s`. */
  predicate StartsWithFence(s: string) {
    |s| >= 3 && s[0] == '`' && s[1] == '`' && s[2] == '`'
  }

  /** "\n```" at the end of `s`. */
  predicate EndsWithNewlineFence(s: string) {
    |s| >= 4 && s[|s| - 4] == '\n' && s[|s| - 3] == '`' && s[|s| - 2] == '`' && s[|s| - 1] == '`'
  }

  /** `text.replace(/```json\s*\/g, "")`: scanning left to right, every
      occurrence of "```json" is deleted together with the white space that
      follows it; the scan resumes after the deleted text. */
  function StripJsonMarkers(s: string): (r: string)
    ensures |r| <= |s|
  {
    MarkerScan(s, false)
  }

  /** The scan behind `StripJsonMarkers`; `afterMarker` holds while the `\s*`
      of a match is still consuming white space. */
  function MarkerScan(s: string, afterMarker: bool): (r: string)
    ensures |r| <= |s|
    decreases |s|
  {
    if afterMarker && s != [] && IsWs(s[0]) then MarkerScan(s[1..], true)
    else if StartsWithJsonMarker(s) then MarkerScan(s[7..], true)
    else if s == [] then []
    else [s[0]] + MarkerScan(s[1..], false)
  }

  /** `replace(/```\s*$/g, "")`: a "```" followed only by white space up to
      the end of the text is deleted, white space included. Only one position
      can match, so the result is a prefix of the input. */
  function StripClosingFence(s: string): (r: string)
    ensures |r| <= |s| && r == s[..|r|]
    ensures r != s ==> |r| + 3 <= |s| && StartsWithFence(s[|r|..]) && AllWs(s[|r| + 3..])
  {
    if StartsWithFence(s) && AllWs(s[3..]) then []
    else if s == [] then []
    else
      var r' := StripClosingFence(s[1..]);
      assert s[1..][..|r'|] == s[1..|r'| + 1];
      [s[0]] + r'
  }

  /** `replace(/^```.*\n/g, "")`: when the text starts with "```", the rest of
      that first line and its "\n" are deleted. `^` anchors at the start of the
      text only, and `.` stops at any line terminator, so a first line ended
      by "\r" (or by nothing) is left alone. The result is a suffix of the input. */
  function StripOpeningFenceLine(s: string): (r: string)
    ensures |r| <= |s| && r == s[|s| - |r|..]
    ensures r != s ==> var k := |s| - |r| - 1;
      3 <= k && StartsWithFence(s) && s[k] == '\n'
      && forall i :: 3 <= i < k ==> !IsLineTerminator(s[i])
  {
    if StartsWithFence(s) then
      var k := 3 + LineEnd(s[3..]);
      if k < |s| && s[k] == '\n' then s[k + 1..] else s
    else s
  }

  /** `replace(/\n```$/g, "")`: a final "\n```" is deleted. */
  function StripClosingNewlineFence(s: string): (r: string)
    ensures r == s || (EndsWithNewlineFence(s) && r == s[..|s| - 4])
    ensures EndsWithNewlineFence(s) ==> r == s[..|s| - 4]
  {
    if EndsWithNewlineFence(s) then s[..|s| - 4] else s
  }

  /** The whole clean-up: the first two replacements, `trim`, the last two
      replacements, `trim`. */
  function StripFences(s: string): (r: string)
    ensures Trimmed(r) && |r| <= |s|
  {
    var a := Trim(StripClosingFence(StripJsonMarkers(s)));
    var b := StripClosingNewlineFence(StripOpeningFenceLine(a));
    Trim(b)
  }

  // ---------------------------------------------------------------- properties

  /** No replacement introduces a character: every step only deletes. */
  lemma {:induction false} MarkerScanKeepsAbsence(s: string, afterMarker: bool, c: char)
    requires c !in s
    ensures c !in MarkerScan(s, afterMarker)
    decreases |s|
  {
    if afterMarker && s != [] && IsWs(s[0]) {
      AbsentFromSlice(s, 1, |s|, c);
      MarkerScanKeepsAbsence(s[1..], true, c);
    } else if StartsWithJsonMarker(s) {
      AbsentFromSlice(s, 7, |s|, c);
      MarkerScanKeepsAbsence(s[7..], true, c);
    } else if s != [] {
      AbsentFromSlice(s, 1, |s|, c);
      MarkerScanKeepsAbsence(s[1..], false, c);
    }
  }

  /** The whole clean-up adds no character. */
  lemma StripFencesKeepAbsence(s: string, c: char)
    requires c !in s
    ensures c !in StripFences(s)
  {
    MarkerScanKeepsAbsence(s, false, c);
    var j := StripJsonMarkers(s);
    AbsentFromSlice(j, 0, |StripClosingFence(j)|, c);
    TrimKeepsAbsence(StripClosingFence(j), c);
    var a := Trim(StripClosingFence(j));
    var o := StripOpeningFenceLine(a);
    AbsentFromSlice(a, |a| - |o|, |a|, c);
    var b := StripClosingNewlineFence(o);
    if b != o {
      AbsentFromSlice(o, 0, |o| - 4, c);
    }
    TrimKeepsAbsence(b, c);
  }

  /** Every pattern starts or ends with a backtick, so text without one is left alone. */
  lemma {:induction false} MarkerScanWithoutBacktick(s: string)
    requires '`' !in s
    ensures MarkerScan(s, false) == s
    decreases |s|
  {
    if s != [] {
      AbsentFromSlice(s, 1, |s|, '`');
      MarkerScanWithoutBacktick(s[1..]);
      assert s == [s[0]] + s[1..];
    }
  }

  lemma {:induction false} ClosingFenceWithoutBacktick(s: string)
    requires '`' !in s
    ensures StripClosingFence(s) == s
  {
    if s != [] {
      AbsentFromSlice(s, 1, |s|, '`');
      ClosingFenceWithoutBacktick(s[1..]);
      assert s == [s[0]] + s[1..];
    }
  }

  /** On text without backticks the clean-up is plain `trim`. */
  lemma StripFencesWithoutBacktick(s: string)
    requires '`' !in s
    ensures StripFences(s) == Trim(s)
  {
    FirstStepsWithoutBacktick(s);
    TrimKeepsAbsence(s, '`');
    LastStepsWithoutBacktick(Trim(s));
  }

  lemma FirstStepsWithoutBacktick(s: string)
    requires '`' !in s
    ensures Trim(StripClosingFence(StripJsonMarkers(s))) == Trim(s)
  {
    MarkerScanWithoutBacktick(s);
    ClosingFenceWithoutBacktick(s);
  }

  lemma LastStepsWithoutBacktick(a: string)
    requires '`' !in a && Trimmed(a)
    ensures Trim(StripClosingNewlineFence(StripOpeningFenceLine(a))) == a
  {
    assert a != [] ==> a[0] in a && a[|a| - 1] in a;
  }

  /** The second replacement removes a closing fence, and the white space
      after it, from the end of any text. */
  lemma {:induction false} ClosingFenceRemoved(p: string, w: string)
    requires AllWs(w)
    ensures StripClosingFence(p + "```" + w) == p
  {
    var s := p + "```" + w;
    if p == [] {
      assert s[3..] == w;
    } else {
      assert s[|p| + 2] == '`';
      TickIsNotWs(s[3..], |p| - 1);
      assert s[1..] == p[1..] + "```" + w;
      ClosingFenceRemoved(p[1..], w);
      assert StripClosingFence(s) == [s[0]] + StripClosingFence(s[1..]);
      assert [p[0]] + p[1..] == p;
    }
  }

  /** The third replacement removes a first line "```..." ended by "\n",
      whatever follows the fence on that line. */
  lemma OpeningFenceLineRemoved(x: string, y: string)
    requires forall i :: 0 <= i < |x| ==> !IsLineTerminator(x[i])
    ensures StripOpeningFenceLine("```" + x + "\n" + y) == y
  {
    var s := "```" + x + "\n" + y;
    assert StartsWithFence(s) && s[3 + |x|] == '\n' by {
      assert s[0] == s[1] == s[2] == '`';
    }
    assert s[3..] == x + "\n" + y;
    assert s[3 + |x| + 1..] == y;
    FirstLineOf(x, y);
    OpeningLineCut(s, 3 + |x|);
  }

  lemma OpeningLineCut(s: string, k: int)
    requires StartsWithFence(s) && 3 <= k < |s| && s[k] == '\n' && LineEnd(s[3..]) == k - 3
    ensures StripOpeningFenceLine(s) == s[k + 1..]
  {
  }

  lemma FirstLineOf(x: string, y: string)
    requires forall i :: 0 <= i < |x| ==> !IsLineTerminator(x[i])
    ensures LineEnd(x + "\n" + y) == |x|
  {
    var t := x + "\n" + y;
    assert t[|x|] == '\n';
    assert forall i :: 0 <= i < |x| ==> t[i] == x[i];
    LineEndAt(t, |x|);
  }

  /** The first line terminator of a text is where its first line ends. */
  lemma LineEndAt(t: string, j: int)
    requires 0 <= j < |t| && IsLineTerminator(t[j])
    requires forall i :: 0 <= i < j ==> !IsLineTerminator(t[i])
    ensures LineEnd(t) == j
  {
  }

  lemma TickIsNotWs(s: string, k: int)
    requires 0 <= k < |s| && s[k] == '`'
    ensures !AllWs(s)
  {
  }
}

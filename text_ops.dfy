/** String primitives of the JavaScript runtime that the validation pipeline
    relies on: the white-space class shared by `\s` and `String.prototype.trim`,
    `trim`, `indexOf` and `lastIndexOf` on a single character.

    Strings are `seq<char>`, and a Dafny `char` is a Unicode scalar value. The
    model covers text inside the Basic Multilingual Plane, where one `char` is
    one UTF-16 code unit of the source program and lengths and positions agree
    with JavaScript's. */
module TextOps {

  /** JavaScript WhiteSpace and LineTerminator code points: the set matched by
      the regular-expression class `\s` and removed by `trim`. */
  predicate IsWs(c: char) {
    || c == '\t' || c == '\n' || c == '\U{000B}' || c == '\U{000C}' || c == '\r'
    || c == ' ' || c == '\U{00A0}' || c == '\U{1680}'
    || ('\U{2000}' <= c <= '\U{200A}')
    || c == '\U{2028}' || c == '\U{2029}' || c == '\U{202F}' || c == '\U{205F}'
    || c == '\U{3000}' || c == '\U{FEFF}'
  }

  /** Line terminators: the characters the regular-expression `.` does not match. */
  predicate IsLineTerminator(c: char) {
    c == '\n' || c == '\r' || c == '\U{2028}' || c == '\U{2029}'
  }

  predicate AllWs(s: string) {
    forall i :: 0 <= i < |s| ==> IsWs(s[i])
  }

  /** Neither end of `s` is white space. */
  predicate Trimmed(s: string) {
    s == [] || (!IsWs(s[0]) && !IsWs(s[|s| - 1]))
  }

  /** `s` occurs somewhere inside `t`. */
  ghost predicate Infix(s: string, t: string) {
    exists i :: 0 <= i <= |t| && s <= t[i..]
  }

  /** Some occurrence of `a` in `s` lies strictly before some occurrence of `b`. */
  ghost predicate HasPairBefore(s: string, a: char, b: char) {
    exists i, j :: 0 <= i < j < |s| && s[i] == a && s[j] == b
  }

  /** Removes the leading white space: what `\s*` consumes, and the first half of `trim`. */
  function TrimStart(s: string): (r: string)
    ensures |r| <= |s| && r == s[|s| - |r|..]
    ensures AllWs(s[..|s| - |r|])
    ensures r == [] || !IsWs(r[0])
  {
    if s != [] && IsWs(s[0]) then TrimStart(s[1..]) else s
  }

  /** Removes the trailing white space. */
  function TrimEnd(s: string): (r: string)
    ensures |r| <= |s| && r == s[..|r|]
    ensures AllWs(s[|r|..])
    ensures r == [] || !IsWs(r[|r| - 1])
  {
    if s != [] && IsWs(s[|s| - 1]) then TrimEnd(s[..|s| - 1]) else s
  }

  /** `r` is `s` with some white space cut from each end and nothing else. */
  ghost predicate CutsOnlyEnds(s: string, r: string) {
    exists i :: 0 <= i <= |s| - |r| && r == s[i..i + |r|] && AllWs(s[..i]) && AllWs(s[i + |r|..])
  }

  /** `String.prototype.trim`. */
  function Trim(s: string): (r: string)
    ensures Trimmed(r) && |r| <= |s|
    ensures Trimmed(s) ==> r == s
  {
    var t := TrimStart(s);
    var r := TrimEnd(t);
    assert r == [] || r[0] == t[0];
    r
  }

  /** `trim` keeps a contiguous run of the text and deletes only white space,
      from the start and from the end. */
  lemma TrimCutsOnlyEnds(s: string)
    ensures CutsOnlyEnds(s, Trim(s))
  {
    TrimSpan(s, TrimStart(s), Trim(s));
  }

  lemma TrimSpan(s: string, t: string, r: string)
    requires |t| <= |s| && t == s[|s| - |t|..] && AllWs(s[..|s| - |t|])
    requires |r| <= |t| && r == t[..|r|] && AllWs(t[|r|..])
    ensures CutsOnlyEnds(s, r)
  {
    var i := |s| - |t|;
    assert s[i + |r|..] == t[|r|..];
    assert r == s[i..i + |r|];
  }

  /** A character absent from a text is absent from every slice of it. */
  lemma AbsentFromSlice(s: string, i: nat, j: nat, c: char)
    requires i <= j <= |s| && c !in s
    ensures c !in s[i..j]
  {
    assert forall k :: 0 <= k < j - i ==> s[i..j][k] == s[i + k];
  }

  /** Trimming adds no character. */
  lemma TrimKeepsAbsence(s: string, c: char)
    requires c !in s
    ensures c !in Trim(s)
  {
    var t := TrimStart(s);
    AbsentFromSlice(s, |s| - |t|, |s|, c);
    AbsentFromSlice(t, 0, |TrimEnd(t)|, c);
  }

  /** `s.indexOf(c)`: the first position of `c`, or -1. */
  function IndexOf(s: string, c: char): (k: int)
    ensures -1 <= k < |s|
    ensures k >= 0 ==> s[k] == c
  {
    if s == [] then -1
    else if s[0] == c then 0
    else
      var k := IndexOf(s[1..], c);
      if k == -1 then -1 else k + 1
  }

  /** No occurrence of `c` comes before `IndexOf(s, c)`. */
  lemma {:induction false} IndexOfFirst(s: string, c: char, i: nat)
    requires i < |s| && s[i] == c
    ensures 0 <= IndexOf(s, c) <= i
  {
    if s[0] != c {
      IndexOfFirst(s[1..], c, i - 1);
    }
  }

  /** `s.lastIndexOf(c)`: the last position of `c`, or -1. */
  function LastIndexOf(s: string, c: char): (k: int)
    ensures -1 <= k < |s|
    ensures k >= 0 ==> s[k] == c
  {
    if s == [] then -1
    else if s[|s| - 1] == c then |s| - 1
    else LastIndexOf(s[..|s| - 1], c)
  }

  /** No occurrence of `c` comes after `LastIndexOf(s, c)`. */
  lemma {:induction false} LastIndexOfLast(s: string, c: char, j: nat)
    requires j < |s| && s[j] == c
    ensures j <= LastIndexOf(s, c)
  {
    if s[|s| - 1] != c {
      LastIndexOfLast(s[..|s| - 1], c, j);
    }
  }

  /** The first line terminator at or after position 0, or `|s|` when there is none. */
  function LineEnd(s: string): (k: nat)
    ensures k <= |s|
    ensures forall i :: 0 <= i < k ==> !IsLineTerminator(s[i])
    ensures k < |s| ==> IsLineTerminator(s[k])
  {
    if s == [] || IsLineTerminator(s[0]) then 0 else 1 + LineEnd(s[1..])
  }

  lemma InfixOfConcat(a: string, s: string, b: string)
    ensures Infix(s, a + s + b)
  {
    assert s <= (a + s + b)[|a|..];
  }

  /** The parts joined with nothing in between. */
  function Concat(parts: seq<string>): string {
    if parts == [] then [] else parts[0] + Concat(parts[1..])
  }

  /** An infix of the middle piece is an infix of the whole. */
  lemma InfixWithin(s: string, a: string, t: string, b: string)
    requires Infix(s, t)
    ensures Infix(s, a + t + b)
  {
    var k :| 0 <= k <= |t| && s <= t[k..];
    assert s <= (a + t + b)[|a| + k..];
  }

  /** Every part is an infix of the concatenation. */
  lemma {:induction false} ConcatHasInfix(parts: seq<string>, i: nat)
    requires i < |parts|
    ensures Infix(parts[i], Concat(parts))
  {
    if i == 0 {
      InfixOfConcat([], parts[0], Concat(parts[1..]));
      assert [] + parts[0] + Concat(parts[1..]) == Concat(parts);
    } else {
      ConcatHasInfix(parts[1..], i - 1);
      InfixWithin(parts[i], parts[0], Concat(parts[1..]), []);
      assert parts[0] + Concat(parts[1..]) + [] == Concat(parts);
    }
  }
}

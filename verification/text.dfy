/** Strings and the handful of Python `str` operations the email parser relies on:
    `strip`, `lower`, `startswith`, `endswith`, `in`, `find`, `split`, `join`,
    `replace` and slicing with non-negative bounds. A Python `str` is a `seq<char>`. */
module Text {

  datatype Option<+T> = None | Some(value: T) {
    predicate IsFailure() { None? }
    function PropagateFailure<U>(): Option<U> requires None? { None }
    function Extract(): T requires Some? { value }
  }

  /** Python's `str.isspace()`, which is also what the regex class `\s` matches. */
  predicate IsSpace(c: char) {
    || c == ' ' || c == '\t' || c == '\n' || c == '\r' || c == '\U{000B}' || c == '\U{000C}'
    || ('\U{001C}' <= c <= '\U{001F}') || c == '\U{0085}' || c == '\U{00A0}' || c == '\U{1680}'
    || ('\U{2000}' <= c <= '\U{200A}') || c == '\U{2028}' || c == '\U{2029}' || c == '\U{202F}'
    || c == '\U{205F}' || c == '\U{3000}'
  }

  predicate IsUpper(c: char) { 'A' <= c <= 'Z' }

  function LowerChar(c: char): char {
    if IsUpper(c) then (c as int + 32) as char else c
  }

  /** `s.lower()` on the ASCII letters. */
  function Lower(s: string): (r: string)
    ensures |r| == |s|
    ensures forall i :: 0 <= i < |s| ==> r[i] == LowerChar(s[i])
  {
    seq(|s|, i requires 0 <= i < |s| => LowerChar(s[i]))
  }

  /** No ASCII upper-case letter occurs in `s`. */
  predicate IsLower(s: string) {
    forall i :: 0 <= i < |s| ==> !IsUpper(s[i])
  }

  lemma LowerIsLower(s: string)
    ensures IsLower(Lower(s))
  {
  }

  lemma LowerConcat(a: string, b: string)
    ensures Lower(a + b) == Lower(a) + Lower(b)
  {
    assert forall i :: 0 <= i < |a + b| ==> Lower(a + b)[i] == (Lower(a) + Lower(b))[i];
  }

  lemma LowerKeeps(s: string, c: char)
    requires c in "@/:<>\"-"
    ensures c in Lower(s) <==> c in s
  {
    if c in s {
      var i :| 0 <= i < |s| && s[i] == c;
      assert Lower(s)[i] == c;
    }
    if c in Lower(s) {
      var i :| 0 <= i < |s| && Lower(s)[i] == c;
      assert s[i] == c;
    }
  }

  /** The first index at or after `i` that is not white space, or `|s|`. */
  function SpaceEnd(s: string, i: nat): (a: nat)
    requires i <= |s|
    decreases |s| - i
    ensures i <= a <= |s|
    ensures forall k :: i <= k < a ==> IsSpace(s[k])
    ensures a < |s| ==> !IsSpace(s[a])
  {
    if i < |s| && IsSpace(s[i]) then SpaceEnd(s, i + 1) else i
  }

  /** One past the last index before `j` that is not white space, or `i`. */
  function SpaceStart(s: string, i: nat, j: nat): (b: nat)
    requires i <= j <= |s|
    decreases j
    ensures i <= b <= j
    ensures forall k :: b <= k < j ==> IsSpace(s[k])
    ensures b > i ==> !IsSpace(s[b - 1])
  {
    if j > i && IsSpace(s[j - 1]) then SpaceStart(s, i, j - 1) else j
  }

  /** Neither end of `s` is white space. */
  predicate IsTrimmed(s: string) {
    |s| == 0 || (!IsSpace(s[0]) && !IsSpace(s[|s| - 1]))
  }

  /** `s.strip()`: the text between the leading and the trailing white space. */
  function Strip(s: string): (r: string)
    ensures IsTrimmed(r)
  {
    var a := SpaceEnd(s, 0);
    s[a..SpaceStart(s, a, |s|)]
  }

  /** Stripping a trimmed text changes nothing. */
  lemma StripTrimmed(s: string)
    requires IsTrimmed(s)
    ensures Strip(s) == s
  {
    if |s| > 0 {
      assert SpaceEnd(s, 0) == 0;
      assert SpaceStart(s, 0, |s|) == |s|;
    }
  }

  lemma StripIsSubstring(s: string)
    ensures IsSubstring(Strip(s), s)
  {
    assert At(s, SpaceEnd(s, 0), Strip(s));
  }

  /** `t` occurs in `s` as a contiguous piece. */
  ghost predicate IsSubstring(t: string, s: string) {
    exists a :: 0 <= a <= |s| && At(s, a, t)
  }

  lemma SubstringTrans(t: string, u: string, s: string)
    requires IsSubstring(t, u) && IsSubstring(u, s)
    ensures IsSubstring(t, s)
  {
    var a :| 0 <= a <= |u| && At(u, a, t);
    var b :| 0 <= b <= |s| && At(s, b, u);
    assert forall k :: 0 <= k < |t| ==> t[k] == u[a + k] == s[b + a + k];
    assert At(s, b + a, t);
  }

  lemma SubstringChars(t: string, s: string, c: char)
    requires IsSubstring(t, s) && c in t
    ensures c in s
  {
    var a :| 0 <= a <= |s| && At(s, a, t);
    var i :| 0 <= i < |t| && t[i] == c;
    assert s[a + i] == c;
  }

  lemma StripChars(s: string, c: char)
    requires c in Strip(s)
    ensures c in s
  {
    StripIsSubstring(s);
    SubstringChars(Strip(s), s, c);
  }

  lemma StripKeepsOut(s: string, c: char)
    requires c !in s
    ensures c !in Strip(s)
  {
    if c in Strip(s) {
      StripChars(s, c);
    }
  }

  lemma PrefixIsSubstring(s: string, t: string)
    requires StartsWith(s, t)
    ensures IsSubstring(t, s)
  {
    assert At(s, 0, t);
  }

  lemma StripLower(s: string)
    requires IsLower(s)
    ensures IsLower(Strip(s))
  {
  }

  /** No element occurs twice. */
  predicate NoDuplicates<T(==)>(xs: seq<T>) {
    forall i, j :: 0 <= i < j < |xs| ==> xs[i] != xs[j]
  }

  /** `s.startswith(p)`. */
  predicate StartsWith(s: string, p: string) {
    |p| <= |s| && s[..|p|] == p
  }

  /** `s.endswith(p)`. */
  predicate EndsWith(s: string, p: string) {
    |p| <= |s| && s[|s| - |p|..] == p
  }

  /** `s.startswith(tuple(ps))`. */
  predicate StartsWithAny(s: string, ps: seq<string>) {
    exists k :: 0 <= k < |ps| && StartsWith(s, ps[k])
  }

  /** `p` occurs in `s` at index `i`. */
  predicate At(s: string, i: int, p: string) {
    0 <= i && i + |p| <= |s| && s[i..i + |p|] == p
  }

  /** `s.find(p, i)`: the first index at or after `i` where `p` occurs, or -1. */
  function FindFrom(s: string, p: string, i: nat): (r: int)
    decreases |s| - i
    ensures r == -1 || (i <= r && At(s, r, p))
    ensures r >= 0 ==> forall k :: i <= k < r ==> !At(s, k, p)
    ensures r == -1 ==> forall k :: i <= k ==> !At(s, k, p)
  {
    if i + |p| > |s| then -1 else if s[i..i + |p|] == p then i else FindFrom(s, p, i + 1)
  }

  /** `s.find(p)`. */
  function Find(s: string, p: string): int {
    FindFrom(s, p, 0)
  }

  /** `p in s`. */
  predicate Contains(s: string, p: string) {
    Find(s, p) >= 0
  }

  lemma ContainsAt(s: string, p: string, i: int)
    requires At(s, i, p)
    ensures Contains(s, p)
  {
  }

  /** The first index at or after `i` holding `c`, or -1. */
  function IndexOf(s: string, c: char, i: nat): (r: int)
    decreases |s| - i
    ensures r == -1 || (i <= r < |s| && s[r] == c)
    ensures r >= 0 ==> forall k :: i <= k < r ==> s[k] != c
    ensures r == -1 ==> forall k :: i <= k < |s| ==> s[k] != c
  {
    if i >= |s| then -1 else if s[i] == c then i else IndexOf(s, c, i + 1)
  }

  /** `s[a:]` for a non-negative `a`. */
  function SliceFrom(s: string, a: nat): (r: string)
    ensures |r| <= |s| && r == s[|s| - |r|..]
  {
    if a <= |s| then s[a..] else []
  }

  /** `s[a:b]` for non-negative `a` and `b`. */
  function Slice(s: string, a: nat, b: nat): (r: string)
    ensures |r| <= |s|
  {
    var e := if b <= |s| then b else |s|;
    if a < e then s[a..e] else []
  }

  lemma SliceIsSubstring(s: string, a: nat, b: nat)
    ensures IsSubstring(Slice(s, a, b), s)
  {
    var e := if b <= |s| then b else |s|;
    if a < e {
      assert At(s, a, s[a..e]);
    } else {
      assert At(s, 0, []);
    }
  }

  /** `s.split(c)` for a one-character separator: never empty. */
  function Split(s: string, c: char): (parts: seq<string>)
    ensures |parts| >= 1
  {
    SplitFrom(s, c, 0)
  }

  /** The parts of `s[a:]` split at `c`. */
  function SplitFrom(s: string, c: char, a: nat): (parts: seq<string>)
    requires a <= |s|
    decreases |s| - a
    ensures |parts| >= 1
  {
    var i := IndexOf(s, c, a);
    if i < 0 then [s[a..]] else [s[a..i]] + SplitFrom(s, c, i + 1)
  }

  /** A text without the separator splits into itself alone. */
  lemma SplitWithout(s: string, c: char)
    requires c !in s
    ensures Split(s, c) == [s]
  {
    assert IndexOf(s, c, 0) == -1;
  }

  /** Joining the parts of a split with the separator gives back the text. */
  lemma SplitJoin(s: string, c: char)
    ensures Join(Split(s, c), [c]) == s
  {
    SplitFromJoin(s, c, 0);
  }

  lemma {:induction false} SplitFromJoin(s: string, c: char, a: nat)
    requires a <= |s|
    ensures Join(SplitFrom(s, c, a), [c]) == s[a..]
    decreases |s| - a
  {
    var i := IndexOf(s, c, a);
    if i >= 0 {
      calc {
        Join(SplitFrom(s, c, a), [c]);
        Join([s[a..i]] + SplitFrom(s, c, i + 1), [c]);
        { JoinCons(s[a..i], SplitFrom(s, c, i + 1), [c]); }
        s[a..i] + [c] + Join(SplitFrom(s, c, i + 1), [c]);
        { SplitFromJoin(s, c, i + 1); }
        s[a..i] + [s[i]] + s[i + 1..];
        { SliceAround(s, a, i); }
        s[a..];
      }
    }
  }

  lemma SliceAround(s: string, a: nat, i: nat)
    requires a <= i < |s|
    ensures s[a..i] + [s[i]] + s[i + 1..] == s[a..]
  {
  }

  /** Joining a part in front of at least one more. */
  lemma JoinCons(p: string, rest: seq<string>, sep: string)
    requires |rest| >= 1
    ensures Join([p] + rest, sep) == p + sep + Join(rest, sep)
  {
    assert ([p] + rest)[1..] == rest;
  }

  /** No part of a split holds the separator. */
  lemma {:induction false} SplitFromFree(s: string, c: char, a: nat)
    requires a <= |s|
    ensures forall k :: 0 <= k < |SplitFrom(s, c, a)| ==> c !in SplitFrom(s, c, a)[k]
    decreases |s| - a
  {
    var i := IndexOf(s, c, a);
    if i >= 0 {
      SplitFromFree(s, c, i + 1);
      var parts := SplitFrom(s, c, a);
      assert parts == [s[a..i]] + SplitFrom(s, c, i + 1);
      forall k | 0 <= k < |parts|
        ensures c !in parts[k]
      {
        if k == 0 {
          assert forall j :: a <= j < i ==> s[j] != c;
        } else {
          assert parts[k] == SplitFrom(s, c, i + 1)[k - 1];
        }
      }
    } else {
      assert forall j :: a <= j < |s| ==> s[j] != c;
    }
  }

  /** The join of a tail of the parts is a suffix of the join of all of them. */
  lemma {:induction false} JoinTail(parts: seq<string>, sep: string, k: nat)
    requires k < |parts|
    ensures EndsWith(Join(parts, sep), Join(parts[k..], sep))
    decreases k
  {
    if k > 0 {
      JoinTail(parts[1..], sep, k - 1);
      assert parts[1..][k - 1..] == parts[k..];
    }
  }

  /** A suffix is a substring. */
  lemma SuffixIsSubstring(s: string, t: string)
    requires EndsWith(s, t)
    ensures IsSubstring(t, s)
  {
    assert At(s, |s| - |t|, t);
  }

  /** The trimmed text of the lines from line `k` on is text of the whole. */
  lemma LinesTailInText(content: string, k: nat)
    requires k <= |Lines(content)|
    ensures IsSubstring(Strip(Join(Lines(content)[k..], "\n")), content)
  {
    var lines := Lines(content);
    var tail := Join(lines[k..], "\n");
    SplitJoin(content, '\n');
    if k < |lines| {
      JoinTail(lines, "\n", k);
      SuffixIsSubstring(content, tail);
    } else {
      assert lines[k..] == [];
      assert At(content, 0, tail);
    }
    StripIsSubstring(tail);
    SubstringTrans(Strip(tail), tail, content);
  }

  /** `sep.join(parts)`. */
  function Join(parts: seq<string>, sep: string): string {
    if |parts| == 0 then "" else if |parts| == 1 then parts[0] else parts[0] + sep + Join(parts[1..], sep)
  }

  /** `s.split(d)` for a non-empty separator string. */
  function SplitOn(s: string, d: string): (parts: seq<string>)
    requires |d| > 0
    ensures |parts| >= 1
  {
    SplitOnFrom(s, d, 0)
  }

  /** The parts of `s[a:]` split at `d`, scanning left to right without overlap. */
  function SplitOnFrom(s: string, d: string, a: nat): (parts: seq<string>)
    requires |d| > 0 && a <= |s|
    decreases |s| - a
    ensures |parts| >= 1
  {
    var i := FindFrom(s, d, a);
    if i < 0 then [s[a..]] else [s[a..i]] + SplitOnFrom(s, d, i + |d|)
  }

  /** The first part runs from `a` to the first separator at or after it, or to the end. */
  lemma SplitOnFromFirst(s: string, d: string, a: nat)
    requires |d| > 0 && a <= |s|
    ensures var j := FindFrom(s, d, a);
      SplitOnFrom(s, d, a)[0] == if j < 0 then s[a..] else s[a..j]
  {
  }

  /** `s.replace(a, b)` for one character by one character. */
  function Replace(s: string, a: char, b: char): (r: string)
    ensures |r| == |s|
    ensures forall i :: 0 <= i < |s| ==> r[i] == if s[i] == a then b else s[i]
  {
    seq(|s|, i requires 0 <= i < |s| => if s[i] == a then b else s[i])
  }

  // ---------------------------------------------------------------- lines

  /** `content.split('\n')`: the lines of a text, none of which holds a newline. */
  function Lines(content: string): (lines: seq<string>)
    ensures |lines| >= 1
    ensures forall k :: 0 <= k < |lines| ==> '\n' !in lines[k]
  {
    SplitFromFree(content, '\n', 0);
    Split(content, '\n')
  }

  /** `not line.strip()`. */
  predicate IsBlank(line: string) {
    Strip(line) == ""
  }

  /** The loop `for x in xs: if p(x): return True`, falling through to `False`. */
  method AnyMatch<T>(xs: seq<T>, p: T -> bool) returns (found: bool)
    ensures found <==> exists k :: 0 <= k < |xs| && p(xs[k])
  {
    found := false;
    var i := 0;
    while i < |xs|
      invariant 0 <= i <= |xs|
      invariant !found
      invariant forall k :: 0 <= k < i ==> !p(xs[k])
    {
      if p(xs[i]) {
        found := true;
        break;
      }
      i := i + 1;
    }
  }

  /** The state after `step` has been applied to the first `n` elements, in order. */
  function FoldPrefix<T, S>(xs: seq<T>, step: (T, S) -> S, s0: S, n: nat): S
    requires n <= |xs|
  {
    if n == 0 then s0 else step(xs[n - 1], FoldPrefix(xs, step, s0, n - 1))
  }

  /** The loop `for x in xs: s = step(x, s)`. */
  method Fold<T, S>(xs: seq<T>, step: (T, S) -> S, s0: S) returns (s: S)
    ensures s == FoldPrefix(xs, step, s0, |xs|)
  {
    s := s0;
    var i := 0;
    while i < |xs|
      invariant 0 <= i <= |xs|
      invariant s == FoldPrefix(xs, step, s0, i)
    {
      s := step(xs[i], s);
      i := i + 1;
    }
  }

  /** The first index at or after `i` whose element satisfies `p`. */
  function First<T>(xs: seq<T>, i: nat, p: T -> bool): (r: Option<nat>)
    decreases |xs| - i
    ensures r.Some? ==> i <= r.value < |xs| && p(xs[r.value])
    ensures r.Some? ==> forall k :: i <= k < r.value ==> !p(xs[k])
    ensures r.None? ==> forall k :: i <= k < |xs| ==> !p(xs[k])
  {
    if i >= |xs| then None else if p(xs[i]) then Some(i) else First(xs, i + 1, p)
  }

  /** A line is blank exactly when it is all white space. */
  lemma BlankIffSpaces(s: string)
    ensures Strip(s) == "" <==> forall k :: 0 <= k < |s| ==> IsSpace(s[k])
  {
    var a := SpaceEnd(s, 0);
    var b := SpaceStart(s, a, |s|);
    if Strip(s) == "" {
      assert a == b;
    }
  }

  /** Lowercasing leaves white space alone, so a blank line stays blank. */
  lemma BlankLower(s: string)
    requires Strip(s) == ""
    ensures Strip(Lower(s)) == ""
  {
    BlankIffSpaces(s);
    BlankIffSpaces(Lower(s));
  }

  /** A character that is not white space survives `strip`. */
  lemma StripKeepsNonSpace(s: string, c: char)
    requires c in s && !IsSpace(c)
    ensures c in Strip(s)
  {
    var q :| 0 <= q < |s| && s[q] == c;
    var a := SpaceEnd(s, 0);
    var b := SpaceStart(s, a, |s|);
    assert a <= q < b;
    assert Strip(s)[q - a] == c;
  }

  /** `First` finds `j` when `j` satisfies `p` and nothing between `i` and `j` does. */
  lemma FirstIs<T>(xs: seq<T>, i: nat, p: T -> bool, j: nat)
    requires i <= j < |xs| && p(xs[j])
    requires forall k :: i <= k < j ==> !p(xs[k])
    ensures First(xs, i, p) == Some(j)
  {
  }

  function DigitChar(d: nat): char
    requires d < 10
  {
    ('0' as int + d) as char
  }

  /** `str(n)` for a natural number. */
  function NatToString(n: nat): (r: string)
    decreases n
    ensures |r| >= 1
  {
    if n < 10 then [DigitChar(n)] else NatToString(n / 10) + [DigitChar(n % 10)]
  }

  function Min(a: int, b: int): int { if a <= b then a else b }

  function Max(a: int, b: int): int { if a >= b then a else b }
}

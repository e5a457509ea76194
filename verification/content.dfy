/** The segment finder, which cuts forwarded or quoted messages out of a body, and the
    body isolator, which finds where the text of a forwarded message starts. */
module Content {
  import opened Text
  import opened Collaborators
  import opened Helpers

  // ================================================================ extract_original_email

  /** A match's header group followed by its content group. */
  function Joined(m: Match): string {
    m.header + m.content
  }

  function JoinedAll(ms: seq<Match>): (r: seq<string>)
    ensures |r| == |ms|
    ensures forall k :: 0 <= k < |ms| ==> r[k] == Joined(ms[k])
  {
    seq(|ms|, k requires 0 <= k < |ms| => Joined(ms[k]))
  }

  /** The texts longer than `n`, in order. */
  function Long(xs: seq<string>, n: nat): seq<string>
    decreases |xs|
  {
    if xs == [] then []
    else
      var x := xs[|xs| - 1];
      Long(xs[..|xs| - 1], n) + (if |x| > n then [x] else [])
  }

  /** `Long` keeps exactly the texts longer than `n`. */
  lemma {:induction false} LongMembers(xs: seq<string>, n: nat)
    ensures forall x :: x in Long(xs, n) <==> x in xs && |x| > n
    decreases |xs|
  {
    if xs != [] {
      LongMembers(xs[..|xs| - 1], n);
      assert xs == xs[..|xs| - 1] + [xs[|xs| - 1]];
    }
  }

  /** The loop of the first, second and fourth phases. */
  method KeepLong(xs: seq<string>, n: nat) returns (found: seq<string>)
    ensures found == Long(xs, n)
  {
    found := [];
    var i := 0;
    while i < |xs|
      invariant 0 <= i <= |xs|
      invariant found == Long(xs[..i], n)
    {
      assert xs[..i + 1][..i] == xs[..i];
      if |xs[i]| > n {
        found := found + [xs[i]];
      }
      i := i + 1;
    }
    assert xs[..|xs|] == xs;
  }

  /** The third phase's step for a list of candidates: each text longer than 20 not
      found yet is added. */
  function AddNew(acc: seq<string>, xs: seq<string>): seq<string>
    decreases |xs|
  {
    if xs == [] then acc
    else
      var a := AddNew(acc, xs[..|xs| - 1]);
      var x := xs[|xs| - 1];
      if x !in a && |x| > 20 then a + [x] else a
  }

  /** `AddNew` keeps what was found as a prefix and adds only texts longer than 20
      taken from the candidates. */
  lemma {:induction false} AddNewAdds(acc: seq<string>, xs: seq<string>)
    ensures |acc| <= |AddNew(acc, xs)| && AddNew(acc, xs)[..|acc|] == acc
    ensures forall k :: |acc| <= k < |AddNew(acc, xs)| ==>
      |AddNew(acc, xs)[k]| > 20 && AddNew(acc, xs)[k] in xs
    decreases |xs|
  {
    if xs != [] {
      var init := xs[..|xs| - 1];
      AddNewAdds(acc, init);
      assert forall x :: x in init ==> x in xs;
    }
  }

  /** `AddNew` misses no candidate longer than 20. */
  lemma {:induction false} AddNewComplete(acc: seq<string>, xs: seq<string>)
    ensures forall x :: x in xs && |x| > 20 ==> x in AddNew(acc, xs)
    decreases |xs|
  {
    if xs != [] {
      var init := xs[..|xs| - 1];
      AddNewComplete(acc, init);
      assert xs == init + [xs[|xs| - 1]];
    }
  }

  /** `AddNew` never adds a text twice. */
  lemma {:induction false} AddNewDistinct(acc: seq<string>, xs: seq<string>)
    requires NoDuplicates(acc)
    ensures NoDuplicates(AddNew(acc, xs))
    decreases |xs|
  {
    if xs != [] {
      AddNewDistinct(acc, xs[..|xs| - 1]);
    }
  }

  /** Every text in the result was found already or is a candidate longer than 20. */
  lemma AddNewMembers(acc: seq<string>, xs: seq<string>)
    ensures forall x :: x in AddNew(acc, xs) ==> x in acc || (x in xs && |x| > 20)
  {
    AddNewAdds(acc, xs);
    var r := AddNew(acc, xs);
    forall x | x in r
      ensures x in acc || (x in xs && |x| > 20)
    {
      var k :| 0 <= k < |r| && r[k] == x;
      if k < |acc| {
        assert r[..|acc|][k] == x;
      }
    }
  }

  method AddNewLoop(acc: seq<string>, xs: seq<string>) returns (found: seq<string>)
    ensures found == AddNew(acc, xs)
  {
    found := acc;
    var i := 0;
    while i < |xs|
      invariant 0 <= i <= |xs|
      invariant found == AddNew(acc, xs[..i])
    {
      assert xs[..i + 1][..i] == xs[..i];
      if xs[i] !in found && |xs[i]| > 20 {
        found := found + [xs[i]];
      }
      i := i + 1;
    }
    assert xs[..|xs|] == xs;
  }

  /** The three forward patterns' matches, in pattern order. */
  function PatternPhase(acc: seq<string>, pats: seq<seq<Match>>): seq<string>
    decreases |pats|
  {
    if pats == [] then acc
    else AddNew(PatternPhase(acc, pats[..|pats| - 1]), JoinedAll(pats[|pats| - 1]))
  }

  /** The delimiters the third phase splits the body on. */
  const Delimiters: seq<string> := ["\n\n----- Forwarded", "\n\n----- Original", "\n\nFrom:"]

  predicate NonEmptyAll(ds: seq<string>) {
    forall k :: 0 <= k < |ds| ==> |ds[k]| > 0
  }

  /** Each part of the body after the first, with the delimiter put back in front. */
  function Pieces(body: string, d: string): (r: seq<string>)
    requires |d| > 0
  {
    var parts := SplitOn(body, d);
    seq(|parts| - 1, i requires 0 <= i < |parts| - 1 => d + parts[i + 1])
  }

  /** The delimiter splits, in delimiter order. */
  function DelimiterPhase(acc: seq<string>, body: string, ds: seq<string>): seq<string>
    requires NonEmptyAll(ds)
    decreases |ds|
  {
    if ds == [] then acc
    else
      var a := DelimiterPhase(acc, body, ds[..|ds| - 1]);
      var d := ds[|ds| - 1];
      if Contains(body, d) then AddNew(a, Pieces(body, d)) else a
  }

  /** The respond markers that enable the fourth phase. */
  predicate SpecificMarkers(body: string) {
    Contains(body, "Please respond to <") && Contains(body, "To: \"")
  }

  /** Where a stanza's message ends: the next blank line after the match, or the end. */
  function NextBreak(body: string, from: nat): (e: nat)
    ensures e <= |body|
  {
    var i := FindFrom(body, "\n\n", from);
    if i < 0 then |body| else i
  }

  /** A stanza's message: from the match start to the next blank line, trimmed. */
  function StanzaSegment(body: string, sp: Span): (r: string)
    ensures IsTrimmed(r)
  {
    Strip(Slice(body, sp.start, NextBreak(body, sp.end)))
  }

  function StanzaSegments(body: string, sps: seq<Span>): (r: seq<string>)
    ensures |r| == |sps|
    ensures forall k :: 0 <= k < |sps| ==> r[k] == StanzaSegment(body, sps[k])
  {
    seq(|sps|, k requires 0 <= k < |sps| => StanzaSegment(body, sps[k]))
  }

  /** The dashed "Forwarded" blocks longer than 20. */
  function ForwardedPhase(fam: Families): seq<string> {
    Long(JoinedAll(fam.forwarded), 20)
  }

  /** The "Please respond to" blocks longer than 30. */
  function RespondPhase(fam: Families): seq<string> {
    Long(JoinedAll(fam.respond), 30)
  }

  /** The forward patterns' matches and then the delimiter splits, each new one longer
      than 20. */
  function SplitPhase(fam: Families, body: string): seq<string> {
    DelimiterPhase(PatternPhase([], fam.patterns), body, Delimiters)
  }

  /** The specific respond layout's matches longer than 30, when both markers occur. */
  function SpecificPhase(fam: Families, body: string): seq<string> {
    if SpecificMarkers(body) then Long(fam.specific, 30) else []
  }

  /** The internal stanzas' messages longer than 30. */
  function StanzaPhase(fam: Families, body: string): seq<string> {
    Long(StanzaSegments(body, fam.stanzas), 30)
  }

  /** What each of the five phases finds when it runs. */
  function Phases(fam: Families, body: string): (ph: seq<seq<string>>)
    ensures |ph| == 5
  {
    [ForwardedPhase(fam), RespondPhase(fam), SplitPhase(fam, body), SpecificPhase(fam, body),
     StanzaPhase(fam, body)]
  }

  /** The finds of the first phase, from `k` on, that finds anything. */
  function FirstFound(ph: seq<seq<string>>, k: nat): seq<string>
    decreases |ph| - k
  {
    if k >= |ph| then [] else if ph[k] != [] then ph[k] else FirstFound(ph, k + 1)
  }

  /** `extract_original_email`: each phase runs only while nothing has been found. */
  function OriginalEmails(fam: Families, body: string): seq<string> {
    FirstFound(Phases(fam, body), 0)
  }

  /** The result is what the first phase to find anything found, and empty only when no
      phase finds anything. */
  lemma {:induction false} FirstFoundIsFirst(ph: seq<seq<string>>, i: nat)
    ensures FirstFound(ph, i) == [] <==> forall k :: i <= k < |ph| ==> ph[k] == []
    ensures FirstFound(ph, i) != [] ==>
      exists k :: i <= k < |ph| && FirstFound(ph, i) == ph[k] && forall j :: i <= j < k ==> ph[j] == []
    decreases |ph| - i
  {
    if i >= |ph| {
    } else if ph[i] != [] {
      assert FirstFound(ph, i) == ph[i];
    } else {
      FirstFoundIsFirst(ph, i + 1);
      assert FirstFound(ph, i) == FirstFound(ph, i + 1);
      if FirstFound(ph, i) != [] {
        var k :| i + 1 <= k < |ph| && FirstFound(ph, i + 1) == ph[k]
          && forall j :: i + 1 <= j < k ==> ph[j] == [];
        assert forall j :: i <= j < k ==> ph[j] == [];
      }
    }
  }

  lemma OriginalPhaseOrder(fam: Families, body: string)
    ensures var ph := Phases(fam, body); var r := OriginalEmails(fam, body);
      (r == [] <==> forall k :: 0 <= k < 5 ==> ph[k] == [])
      && (r != [] ==> exists k :: 0 <= k < 5 && r == ph[k] && forall j :: 0 <= j < k ==> ph[j] == [])
  {
    FirstFoundIsFirst(Phases(fam, body), 0);
  }

  /** Every text is longer than `n`. */
  predicate AllLonger(xs: seq<string>, n: nat) {
    forall x :: x in xs ==> |x| > n
  }

  /** `Long` keeps only texts longer than `n`. */
  lemma {:induction false} LongIsLong(xs: seq<string>, n: nat)
    ensures AllLonger(Long(xs, n), n)
    decreases |xs|
  {
    if xs != [] {
      LongIsLong(xs[..|xs| - 1], n);
    }
  }

  /** Every segment of the first, second, fourth and fifth phases is longer than
      their threshold. */
  lemma LongPhases(fam: Families, body: string)
    ensures AllLonger(ForwardedPhase(fam), 20)
    ensures AllLonger(RespondPhase(fam), 30)
    ensures AllLonger(SpecificPhase(fam, body), 30)
    ensures AllLonger(StanzaPhase(fam, body), 30)
  {
    LongIsLong(JoinedAll(fam.forwarded), 20);
    LongIsLong(JoinedAll(fam.respond), 30);
    LongIsLong(fam.specific, 30);
    LongIsLong(StanzaSegments(body, fam.stanzas), 30);
  }

  lemma {:induction false} PatternPhaseShape(acc: seq<string>, pats: seq<seq<Match>>)
    requires NoDuplicates(acc) && forall x :: x in acc ==> |x| > 20
    ensures NoDuplicates(PatternPhase(acc, pats))
    ensures forall x :: x in PatternPhase(acc, pats) ==> |x| > 20
    decreases |pats|
  {
    if pats != [] {
      var a := PatternPhase(acc, pats[..|pats| - 1]);
      PatternPhaseShape(acc, pats[..|pats| - 1]);
      AddNewDistinct(a, JoinedAll(pats[|pats| - 1]));
      AddNewMembers(a, JoinedAll(pats[|pats| - 1]));
    }
  }

  lemma {:induction false} DelimiterPhaseShape(acc: seq<string>, body: string, ds: seq<string>)
    requires NonEmptyAll(ds)
    requires NoDuplicates(acc) && forall x :: x in acc ==> |x| > 20
    ensures NoDuplicates(DelimiterPhase(acc, body, ds))
    ensures forall x :: x in DelimiterPhase(acc, body, ds) ==> |x| > 20
    decreases |ds|
  {
    if ds != [] {
      var a := DelimiterPhase(acc, body, ds[..|ds| - 1]);
      DelimiterPhaseShape(acc, body, ds[..|ds| - 1]);
      var d := ds[|ds| - 1];
      if Contains(body, d) {
        AddNewDistinct(a, Pieces(body, d));
        AddNewMembers(a, Pieces(body, d));
      }
    }
  }

  /** The third phase never adds a segment twice, and each is longer than 20. */
  lemma ThirdPhaseShape(fam: Families, body: string)
    ensures NoDuplicates(SplitPhase(fam, body))
    ensures AllLonger(SplitPhase(fam, body), 20)
  {
    PatternPhaseShape([], fam.patterns);
    DelimiterPhaseShape(PatternPhase([], fam.patterns), body, Delimiters);
  }

  /** Every segment found is longer than 20, and longer than 30 unless it came from
      the first or the third phase. */
  lemma OriginalLengths(fam: Families, body: string)
    ensures AllLonger(OriginalEmails(fam, body), 20)
    ensures ForwardedPhase(fam) == [] && SplitPhase(fam, body) == [] ==> AllLonger(OriginalEmails(fam, body), 30)
  {
    var p0, p1, p2, p3, p4 := ForwardedPhase(fam), RespondPhase(fam), SplitPhase(fam, body),
      SpecificPhase(fam, body), StanzaPhase(fam, body);
    LongPhases(fam, body);
    ThirdPhaseShape(fam, body);
    LongerThan30(p1);
    LongerThan30(p3);
    LongerThan30(p4);
    FirstOfFiveLonger(p0, p1, p2, p3, p4, 20);
    if p0 == [] && p2 == [] {
      FirstOfFiveLonger(p0, p1, p2, p3, p4, 30);
    }
  }

  lemma FirstOfFiveLonger(p0: seq<string>, p1: seq<string>, p2: seq<string>, p3: seq<string>,
                          p4: seq<string>, n: nat)
    requires AllLonger(p0, n) && AllLonger(p1, n) && AllLonger(p2, n)
    requires AllLonger(p3, n) && AllLonger(p4, n)
    ensures AllLonger(FirstFound([p0, p1, p2, p3, p4], 0), n)
  {
    var ph := [p0, p1, p2, p3, p4];
    forall k | 0 <= k < 5
      ensures AllLonger(ph[k], n)
    {
      if k == 0 {} else if k == 1 {} else if k == 2 {} else if k == 3 {} else {}
    }
    FirstFoundLonger(ph, 0, n);
  }

  lemma LongerThan30(xs: seq<string>)
    requires AllLonger(xs, 30)
    ensures AllLonger(xs, 20)
  {
  }

  /** A bound every phase keeps holds for the result. */
  lemma {:induction false} FirstFoundLonger(ph: seq<seq<string>>, i: nat, n: nat)
    requires forall k :: i <= k < |ph| ==> AllLonger(ph[k], n)
    ensures AllLonger(FirstFound(ph, i), n)
    decreases |ph| - i
  {
    if i < |ph| && ph[i] == [] {
      FirstFoundLonger(ph, i + 1, n);
    }
  }

  /** A part of a split after the first is delimited by the separator in front of it
      and by the next occurrence of the separator or the end of the text behind it. */
  lemma SplitOnPieces(s: string, d: string, i: nat)
    requires |d| > 0 && 1 <= i < |SplitOn(s, d)|
    ensures IsSubstring(d + SplitOn(s, d)[i], s)
    ensures !Contains(SplitOn(s, d)[i], d)
    ensures exists p :: Delimited(s, p, d + SplitOn(s, d)[i], d)
  {
    var pos := SplitOnPieceIn(s, d, 0, i);
    assert 0 <= pos <= |s|;
    var x := SplitOn(s, d)[i];
    DelimitedPiece(s, d, pos, x);
    assert Delimited(s, pos, d + x, d);
    SplitOnPieceFree(s, d, 0, i);
  }

  /** The parts after the first are those of the text after the first separator. */
  lemma SplitOnTail(s: string, d: string, a: nat, i: nat)
    requires |d| > 0 && a <= |s| && 1 <= i < |SplitOnFrom(s, d, a)|
    ensures FindFrom(s, d, a) >= 0
    ensures |SplitOnFrom(s, d, a)| == 1 + |SplitOnFrom(s, d, FindFrom(s, d, a) + |d|)|
    ensures SplitOnFrom(s, d, a)[i] == SplitOnFrom(s, d, FindFrom(s, d, a) + |d|)[i - 1]
  {
  }

  /** `x` occurs in `s` at `p` and is followed by the end of `s` or by `d`. */
  predicate Delimited(s: string, p: int, x: string, d: string) {
    At(s, p, x) && (p + |x| == |s| || At(s, p + |x|, d))
  }

  /** `d` occurs in `s` at `p`, `x` right after it, and then the end of `s` or `d`. */
  predicate PieceAt(s: string, p: int, d: string, x: string) {
    At(s, p, d) && At(s, p + |d|, x) && (p + |d| + |x| == |s| || At(s, p + |d| + |x|, d))
  }

  /** A part of a split from `a` after the first follows its separator in `s` and runs up
      to the next separator or the end. */
  lemma {:induction false} SplitOnPieceIn(s: string, d: string, a: nat, i: nat) returns (pos: nat)
    requires |d| > 0 && a <= |s| && 1 <= i < |SplitOnFrom(s, d, a)|
    ensures PieceAt(s, pos, d, SplitOnFrom(s, d, a)[i])
    decreases |s| - a
  {
    SplitOnTail(s, d, a, i);
    var j := FindFrom(s, d, a);
    if i == 1 {
      SplitOnSecondPart(s, d, a);
      pos := j;
    } else {
      pos := SplitOnPieceIn(s, d, j + |d|, i - 1);
    }
  }

  /** The part after the first separator found from `a` runs up to the next separator or
      the end. */
  lemma SplitOnSecondPart(s: string, d: string, a: nat)
    requires |d| > 0 && a <= |s| && FindFrom(s, d, a) >= 0
    ensures var j := FindFrom(s, d, a);
      PieceAt(s, j, d, SplitOnFrom(s, d, j + |d|)[0])
  {
    var b := FindFrom(s, d, a) + |d|;
    SplitOnFirstPart(s, d, b);
    SplitOnFirstEnd(s, d, b);
  }

  /** The first part of a split from `b` is text of `s` starting at `b`. */
  lemma SplitOnFirstPart(s: string, d: string, b: nat)
    requires |d| > 0 && b <= |s|
    ensures b + |SplitOnFrom(s, d, b)[0]| <= |s|
    ensures s[b..b + |SplitOnFrom(s, d, b)[0]|] == SplitOnFrom(s, d, b)[0]
  {
    SplitOnFromFirst(s, d, b);
  }

  /** The first part of a split from `b` is followed by the end of `s` or by a separator. */
  lemma SplitOnFirstEnd(s: string, d: string, b: nat)
    requires |d| > 0 && b <= |s|
    ensures b + |SplitOnFrom(s, d, b)[0]| == |s| || At(s, b + |SplitOnFrom(s, d, b)[0]|, d)
  {
    SplitOnFromFirst(s, d, b);
  }

  /** A separator occurrence followed by text gives text of `s`. */
  lemma DelimitedPiece(s: string, d: string, j: nat, p: string)
    requires At(s, j, d)
    requires j + |d| + |p| <= |s| && s[j + |d|..j + |d| + |p|] == p
    ensures At(s, j, d + p)
  {
    assert s[j..j + |d| + |p|] == d + p;
  }

  lemma {:induction false} SplitOnPieceFree(s: string, d: string, a: nat, i: nat)
    requires |d| > 0 && a <= |s| && i < |SplitOnFrom(s, d, a)|
    ensures !Contains(SplitOnFrom(s, d, a)[i], d)
    decreases |s| - a
  {
    if i == 0 {
      SplitOnFromFirst(s, d, a);
      SplitOnFirstPartFree(s, d, a);
    } else {
      SplitOnTail(s, d, a, i);
      SplitOnPieceFree(s, d, FindFrom(s, d, a) + |d|, i - 1);
    }
  }

  /** The text from `a` up to the first separator at or after it holds no separator. */
  lemma SplitOnFirstPartFree(s: string, d: string, a: nat)
    requires |d| > 0 && a <= |s|
    ensures var j := FindFrom(s, d, a);
      !Contains(if j < 0 then s[a..] else s[a..j], d)
  {
    var j := FindFrom(s, d, a);
    var e := if j < 0 then |s| else j;
    assert (if j < 0 then s[a..] else s[a..j]) == s[a..e];
    var f := Find(s[a..e], d);
    if f >= 0 {
      NotAtBefore(s, d, a, a + f);
      AtInSlice(s, a, e, f, d);
      assert false;
    }
  }

  /** An occurrence inside `s[a..e]` is an occurrence in `s`. */
  lemma AtInSlice(s: string, a: nat, e: nat, f: int, d: string)
    requires a <= e <= |s| && At(s[a..e], f, d)
    ensures At(s, a + f, d)
  {
    forall t | 0 <= t < |d|
      ensures s[a + f + t] == d[t]
    {
      assert s[a..e][f..f + |d|][t] == d[t];
    }
  }

  /** No separator starts between `a` and the first one found from `a`. */
  lemma NotAtBefore(s: string, d: string, a: nat, k: nat)
    requires a <= k && (FindFrom(s, d, a) < 0 || k < FindFrom(s, d, a))
    ensures !At(s, k, d)
  {
  }

  /** Each delimiter segment is the delimiter followed by the text up to the next
      delimiter or the end of the body, so it is text of the body. */
  lemma DelimiterSegments(body: string, d: string)
    requires |d| > 0
    ensures forall x :: x in Pieces(body, d) ==>
      StartsWith(x, d) && IsSubstring(x, body) && !Contains(x[|d|..], d)
    ensures forall x :: x in Pieces(body, d) ==> exists p :: Delimited(body, p, x, d)
  {
    var parts := SplitOn(body, d);
    forall x | x in Pieces(body, d)
      ensures StartsWith(x, d) && IsSubstring(x, body) && !Contains(x[|d|..], d)
      ensures exists p :: Delimited(body, p, x, d)
    {
      var i :| 0 <= i < |parts| - 1 && x == d + parts[i + 1];
      SplitOnPieces(body, d, i + 1);
      assert x[|d|..] == parts[i + 1];
    }
  }

  /** Each stanza segment is trimmed, is text of the body, and starts no earlier than
      its match. */
  lemma StanzaSegmentInBody(body: string, sp: Span)
    ensures IsTrimmed(StanzaSegment(body, sp))
    ensures IsSubstring(StanzaSegment(body, sp), body)
  {
    var cut := Slice(body, sp.start, NextBreak(body, sp.end));
    SliceIsSubstring(body, sp.start, NextBreak(body, sp.end));
    StripIsSubstring(cut);
    SubstringTrans(Strip(cut), cut, body);
  }

  /** The delimiter loop of the third phase. */
  method DelimiterLoop(acc: seq<string>, body: string) returns (found: seq<string>)
    ensures found == DelimiterPhase(acc, body, Delimiters)
  {
    found := acc;
    var k := 0;
    while k < |Delimiters|
      invariant 0 <= k <= |Delimiters|
      invariant found == DelimiterPhase(acc, body, Delimiters[..k])
    {
      var d := Delimiters[k];
      assert Delimiters[..k + 1][..k] == Delimiters[..k];
      if Contains(body, d) {
        found := AddPieces(found, body, d);
      }
      k := k + 1;
    }
    assert Delimiters[..|Delimiters|] == Delimiters;
  }

  /** The inner loop of the delimiter phase: the pieces after one delimiter, in order. */
  method AddPieces(acc: seq<string>, body: string, d: string) returns (found: seq<string>)
    requires |d| > 0
    ensures found == AddNew(acc, Pieces(body, d))
  {
    found := acc;
    var parts := SplitOn(body, d);
    ghost var pieces := Pieces(body, d);
    var i := 1;
    while i < |parts|
      invariant 1 <= i <= |parts|
      invariant found == AddNew(acc, pieces[..i - 1])
    {
      assert pieces[..i][..i - 1] == pieces[..i - 1];
      var part := d + parts[i];
      if part !in found && |part| > 20 {
        found := found + [part];
      }
      i := i + 1;
    }
    assert pieces[..|parts| - 1] == pieces;
  }

  /** The pattern loop of the third phase. */
  method PatternLoop(pats: seq<seq<Match>>) returns (found: seq<string>)
    ensures found == PatternPhase([], pats)
  {
    found := [];
    var p := 0;
    while p < |pats|
      invariant 0 <= p <= |pats|
      invariant found == PatternPhase([], pats[..p])
    {
      assert pats[..p + 1][..p] == pats[..p];
      found := AddNewLoop(found, JoinedAll(pats[p]));
      p := p + 1;
    }
    assert pats[..|pats|] == pats;
  }

  method ExtractOriginalEmail(env: Env, body: string) returns (found: seq<string>)
    ensures found == OriginalEmails(env.families(body), body)
  {
    var fam := env.families(body);
    ghost var ph := Phases(fam, body);
    found := KeepLong(JoinedAll(fam.forwarded), 20);
    assert found == ph[0];
    assert found != [] ==> found == FirstFound(ph, 0);
    assert found == [] ==> FirstFound(ph, 0) == FirstFound(ph, 1);
    if found == [] {
      found := KeepLong(JoinedAll(fam.respond), 30);
      assert found == ph[1];
    }
    assert found != [] ==> found == FirstFound(ph, 0);
    assert found == [] ==> FirstFound(ph, 0) == FirstFound(ph, 2);
    if found == [] {
      found := PatternLoop(fam.patterns);
      found := DelimiterLoop(found, body);
      assert found == ph[2];
    }
    assert found != [] ==> found == FirstFound(ph, 0);
    assert found == [] ==> FirstFound(ph, 0) == FirstFound(ph, 3);
    if found == [] && Contains(body, "Please respond to <") && Contains(body, "To: \"") {
      found := KeepLong(fam.specific, 30);
      assert found == ph[3];
    }
    assert found != [] ==> found == FirstFound(ph, 0);
    assert found == [] ==> FirstFound(ph, 0) == FirstFound(ph, 4);
    if found == [] {
      found := KeepLong(StanzaSegments(body, fam.stanzas), 30);
      assert found == ph[4];
      assert FirstFound(ph, 5) == [];
    }
  }

  // ================================================================ extract_forwarded_full_body

  /** The section markers, in the order they are tried. */
  const SectionMarkers: seq<string> :=
    ["STRUCTURE:", "INTRODUCTION:", "SUMMARY:", "BACKGROUND:", "OVERVIEW:", "ANALYSIS:", "REPORT:", "DETAILS:"]

  /** The typical endings of a forwarded message. */
  const EndMarkers: seq<string> :=
    [" - winmail.dat", "\n\n-----Original Message", "\n\n-----Forwarded", "\n------ End of Forwarded Message"]

  /** The first marker of `ms`, in list order from `k`, that occurs in the content. */
  function FirstListed(content: string, ms: seq<string>, k: nat): (m: Option<nat>)
    decreases |ms| - k
    ensures m.Some? ==> (k <= m.value < |ms| && Contains(content, ms[m.value])
      && forall j :: k <= j < m.value ==> !Contains(content, ms[j]))
    ensures m.None? ==> forall j :: k <= j < |ms| ==> !Contains(content, ms[j])
  {
    if k >= |ms| then None
    else if Contains(content, ms[k]) then Some(k)
    else FirstListed(content, ms, k + 1)
  }

  /** The earliest occurrence at or after `start` of the first `n` end markers, or the
      end of the content. */
  function EndCut(content: string, ends: seq<string>, start: nat, n: nat): nat
    requires n <= |ends|
  {
    if n == 0 then |content|
    else
      var e := EndCut(content, ends, start, n - 1);
      var pos := FindFrom(content, ends[n - 1], start);
      if pos != -1 && pos < e then pos else e
  }

  /** `EndCut` lies between the start and the end of the content. */
  lemma {:induction false} EndCutBounds(content: string, ends: seq<string>, start: nat, n: nat)
    requires n <= |ends| && start <= |content|
    ensures start <= EndCut(content, ends, start, n) <= |content|
  {
    if n > 0 {
      EndCutBounds(content, ends, start, n - 1);
    }
  }

  /** `EndCut` is the earliest end marker at or after the start, or the end. */
  lemma {:induction false} EndCutIsEarliest(content: string, ends: seq<string>, start: nat, n: nat)
    requires n <= |ends| && start <= |content|
    ensures forall j, p :: 0 <= j < n && start <= p < EndCut(content, ends, start, n) ==> !At(content, p, ends[j])
    ensures EndCut(content, ends, start, n) == |content|
      || exists j :: 0 <= j < n && At(content, EndCut(content, ends, start, n), ends[j])
  {
    if n > 0 {
      EndCutIsEarliest(content, ends, start, n - 1);
    }
  }

  /** The trimmed text from the first listed marker present to the earliest end marker
      after it, if a marker occurs. */
  function CutFrom(content: string, ms: seq<string>, ends: seq<string>): Option<string> {
    match FirstListed(content, ms, 0)
    case Some(m) =>
      var start := Find(content, ms[m]);
      Some(Strip(Slice(content, start, EndCut(content, ends, start, |ends|))))
    case None => None
  }

  /** The first step. */
  function MarkerCut(content: string): Option<string> {
    CutFrom(content, SectionMarkers, EndMarkers)
  }

  lemma CutFromApplies(content: string, ms: seq<string>, ends: seq<string>)
    ensures CutFrom(content, ms, ends).Some? <==> exists j :: 0 <= j < |ms| && Contains(content, ms[j])
  {
    var fm := FirstListed(content, ms, 0);
    if fm.Some? {
      assert Contains(content, ms[fm.value]);
    }
  }

  /** The first step applies exactly when a section marker occurs. */
  lemma MarkerCutApplies(content: string)
    ensures MarkerCut(content).Some? <==>
      exists j :: 0 <= j < |SectionMarkers| && Contains(content, SectionMarkers[j])
  {
    CutFromApplies(content, SectionMarkers, EndMarkers);
  }

  lemma CutFromSpan(content: string, ms: seq<string>, ends: seq<string>, m: nat)
    requires FirstListed(content, ms, 0) == Some(m)
    ensures var start := Find(content, ms[m]);
      var e := EndCut(content, ends, start, |ends|);
      start <= e <= |content| && CutFrom(content, ms, ends) == Some(Strip(content[start..e]))
  {
    var start := Find(content, ms[m]);
    var e := EndCut(content, ends, start, |ends|);
    EndCutBounds(content, ends, start, |ends|);
    assert Slice(content, start, e) == content[start..e];
  }

  /** When a section marker occurs, the first step cuts the text from where the first
      listed marker present occurs up to the earliest end marker after it (see
      `EndCutIsEarliest`), and trims it. */
  lemma MarkerCutSpan(content: string, m: nat)
    requires FirstListed(content, SectionMarkers, 0) == Some(m)
    ensures var start := Find(content, SectionMarkers[m]);
      var e := EndCut(content, EndMarkers, start, |EndMarkers|);
      start <= e <= |content| && MarkerCut(content) == Some(Strip(content[start..e]))
  {
    CutFromSpan(content, SectionMarkers, EndMarkers, m);
  }

  lemma CutFromInContent(content: string, ms: seq<string>, ends: seq<string>)
    requires CutFrom(content, ms, ends).Some?
    ensures IsSubstring(CutFrom(content, ms, ends).value, content)
  {
    var m := FirstListed(content, ms, 0).value;
    var start := Find(content, ms[m]);
    var e := EndCut(content, ends, start, |ends|);
    SliceIsSubstring(content, start, e);
    StripIsSubstring(Slice(content, start, e));
    SubstringTrans(Strip(Slice(content, start, e)), Slice(content, start, e), content);
  }

  /** The header labels of the second step. */
  const HeaderPrefixes: seq<string> := ["from:", "to:", "cc:", "subject:", "date:"]

  /** What the second and third steps read of one line. */
  datatype BodyLine = BodyLine(
    header: bool, blankLow: bool, blank: bool, startsHeader: bool, forwardedBy: bool)

  function BodyLineOf(line: string): BodyLine {
    var low := Strip(Lower(line));
    var starts := StartsWithAny(low, HeaderPrefixes);
    BodyLine(
      starts || ('"' in line && '<' in line && '>' in line && Contains(line, " on ")),
      low == "",
      Strip(line) == "",
      starts,
      Contains(Lower(line), "forwarded by"))
  }

  function BodyLines(lines: seq<string>): (infos: seq<BodyLine>)
    ensures |infos| == |lines|
    ensures forall k :: 0 <= k < |lines| ==> infos[k] == BodyLineOf(lines[k])
  {
    seq(|lines|, k requires 0 <= k < |lines| => BodyLineOf(lines[k]))
  }

  /** A header-looking line occurs before line `i`. */
  predicate HeaderBefore(infos: seq<BodyLine>, i: nat)
    requires i <= |infos|
  {
    exists j :: 0 <= j < i && infos[j].header
  }

  /** Line `i` is a blank line after the headers, and the line after it is neither
      blank nor a header. */
  predicate Break(infos: seq<BodyLine>, i: nat) {
    i + 1 < |infos| && !infos[i].header && infos[i].blankLow && HeaderBefore(infos, i)
    && !infos[i + 1].blank && !infos[i + 1].startsHeader
  }

  function FirstBreak(infos: seq<BodyLine>, i: nat): (r: Option<nat>)
    decreases |infos| - i
    ensures r.Some? ==> (i <= r.value && Break(infos, r.value)
      && forall j :: i <= j < r.value ==> !Break(infos, j))
    ensures r.None? ==> forall j :: i <= j ==> !Break(infos, j)
  {
    if i >= |infos| then None else if Break(infos, i) then Some(i) else FirstBreak(infos, i + 1)
  }

  /** Line `i` mentions "forwarded by" and has at least three lines after it. */
  predicate ForwardedAt(infos: seq<BodyLine>, i: nat) {
    i + 3 < |infos| && infos[i].forwardedBy
  }

  function FirstForwarded(infos: seq<BodyLine>, i: nat): (r: Option<nat>)
    decreases |infos| - i
    ensures r.Some? ==> (i <= r.value && ForwardedAt(infos, r.value)
      && forall j :: i <= j < r.value ==> !ForwardedAt(infos, j))
    ensures r.None? ==> forall j :: i <= j ==> !ForwardedAt(infos, j)
  {
    if i >= |infos| then None else if ForwardedAt(infos, i) then Some(i) else FirstForwarded(infos, i + 1)
  }

  /** The second, third and fourth steps, given the content's lines and what they read. */
  function LineSteps(cuts: seq<string -> Option<nat>>, content: string, lines: seq<string>,
    infos: seq<BodyLine>): string
    requires |infos| == |lines|
  {
    match FirstBreak(infos, 0)
    case Some(i) => Strip(Join(lines[i + 1..], "\n"))
    case None =>
      match FirstForwarded(infos, 0)
      case Some(i) => Strip(Join(lines[i + 3..], "\n"))
      case None => Cleaned(cuts, content)
  }

  /** The four steps in priority order. */
  function FullBodyOf(cuts: seq<string -> Option<nat>>, content: string, lines: seq<string>,
    infos: seq<BodyLine>): string
    requires |infos| == |lines|
  {
    match MarkerCut(content)
    case Some(r) => r
    case None => LineSteps(cuts, content, lines, infos)
  }

  /** `extract_forwarded_full_body`. */
  function FullBody(cuts: seq<string -> Option<nat>>, content: string): string {
    FullBodyOf(cuts, content, Lines(content), BodyLines(Lines(content)))
  }

  /** The second step's loop: the index after the first break, or -1. */
  method FindBreak(infos: seq<BodyLine>) returns (start: int)
    ensures start == match FirstBreak(infos, 0) case Some(i) => i + 1 case None => -1
  {
    var inHeaders := false;
    start := -1;
    var i := 0;
    while i < |infos|
      invariant 0 <= i <= |infos|
      invariant inHeaders == HeaderBefore(infos, i)
      invariant forall j :: 0 <= j < i ==> !Break(infos, j)
    {
      if infos[i].header {
        inHeaders := true;
      } else if inHeaders && infos[i].blankLow {
        if i + 1 < |infos| && !infos[i + 1].blank && !infos[i + 1].startsHeader {
          assert Break(infos, i);
          start := i + 1;
          return;
        }
      }
      assert !Break(infos, i);
      i := i + 1;
    }
  }

  /** The third step's loop: the first "forwarded by" line with three lines after it. */
  method FindForwardedBy(infos: seq<BodyLine>) returns (at: int)
    ensures at == match FirstForwarded(infos, 0) case Some(i) => i case None => -1
  {
    at := -1;
    var i := 0;
    while i < |infos|
      invariant 0 <= i <= |infos|
      invariant forall j :: 0 <= j < i ==> !ForwardedAt(infos, j)
    {
      if infos[i].forwardedBy && i + 3 < |infos| {
        assert ForwardedAt(infos, i);
        at := i;
        return;
      }
      i := i + 1;
    }
  }

  /** The first step's loops. */
  method CutAtMarker(content: string) returns (r: Option<string>)
    ensures r == MarkerCut(content)
  {
    var k := 0;
    while k < |SectionMarkers|
      invariant 0 <= k <= |SectionMarkers|
      invariant FirstListed(content, SectionMarkers, 0) == FirstListed(content, SectionMarkers, k)
    {
      var marker := SectionMarkers[k];
      if Contains(content, marker) {
        var start := Find(content, marker);
        var end := |content|;
        var n := 0;
        while n < |EndMarkers|
          invariant 0 <= n <= |EndMarkers|
          invariant end == EndCut(content, EndMarkers, start, n)
        {
          var pos := FindFrom(content, EndMarkers[n], start);
          if pos != -1 && pos < end {
            end := pos;
          }
          n := n + 1;
        }
        return Some(Strip(Slice(content, start, end)));
      }
      k := k + 1;
    }
    return None;
  }

  method ExtractForwardedFullBody(cuts: seq<string -> Option<nat>>, content: string) returns (r: string)
    ensures r == FullBody(cuts, content)
  {
    var cut := CutAtMarker(content);
    if cut.Some? {
      return cut.value;
    }
    var lines := Lines(content);
    var infos := BodyLines(lines);
    var start := FindBreak(infos);
    if start >= 0 {
      return Strip(Join(lines[start..], "\n"));
    }
    var at := FindForwardedBy(infos);
    if at >= 0 {
      return Strip(Join(lines[at + 3..], "\n"));
    }
    r := CleanBody(cuts, content);
  }

  lemma LineStepsInContent(cuts: seq<string -> Option<nat>>, content: string, infos: seq<BodyLine>)
    requires |infos| == |Lines(content)|
    ensures IsSubstring(LineSteps(cuts, content, Lines(content), infos), content)
  {
    var lines := Lines(content);
    var b := FirstBreak(infos, 0);
    var f := FirstForwarded(infos, 0);
    if b.Some? {
      LinesTailInText(content, b.value + 1);
    } else if f.Some? {
      LinesTailInText(content, f.value + 3);
    } else {
      CleanedIsSubstring(cuts, content);
    }
  }

  lemma FullBodyOfInContent(cuts: seq<string -> Option<nat>>, content: string, infos: seq<BodyLine>)
    requires |infos| == |Lines(content)|
    ensures IsSubstring(FullBodyOf(cuts, content, Lines(content), infos), content)
  {
    if MarkerCut(content).Some? {
      CutFromInContent(content, SectionMarkers, EndMarkers);
    } else {
      LineStepsInContent(cuts, content, infos);
    }
  }

  /** Whichever step applies, the isolated body is text of the forwarded message. */
  lemma FullBodyInContent(cuts: seq<string -> Option<nat>>, content: string)
    ensures IsSubstring(FullBody(cuts, content), content)
  {
    FullBodyOfInContent(cuts, content, BodyLines(Lines(content)));
  }
}

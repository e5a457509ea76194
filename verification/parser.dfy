/** The record assembly of `EmailParser` (email_parser/parser.py): the fast path for
    the "name / date / To:" stanza, the "Please respond to" recipient repair, the
    nested-record defaults, the fallbacks, the thread id and the ordering of the
    records of one message. */
module Parser {
  import opened Text
  import opened Patterns
  import opened Collaborators
  import opened Helpers
  import opened Headers
  import opened Content
  import opened Models

  /** One row of the parser's output: a message or a nested message. */
  datatype Record = Record(
    id: string,
    date: Option<string>,
    subject: string,
    from: string,
    to: seq<string>,
    cc: seq<string>,
    bcc: seq<string>,
    bodyClean: string,
    fileSource: string)

  /** `a or b` on texts. */
  function Or(a: string, b: string): (r: string)
    ensures r == "" ==> a == "" && b == ""
  {
    if a != "" then a else b
  }

  /** A Python value that is truthy: present and non-empty. */
  predicate Truthy(d: Option<string>) {
    d.Some? && d.value != ""
  }

  /** `extract_date(s)`: nothing for an empty text, the oracle's reading otherwise. */
  function ExtractDate(env: Env, s: string): Option<string> {
    if s == "" then None else env.parseDate(s)
  }

  /** `f"{file_id}-nested-{idx}"`. */
  function NestedSource(fileId: string, idx: nat): string {
    fileId + "-nested-" + NatToString(idx)
  }

  // ================================================================ the stanza fast path

  /** What the fast path reads off one line: the trimmed text, whether it is blank,
      whether it starts with a date, and which keyword its lowercased form starts
      with. */
  datatype StanzaLine = StanzaLine(
    text: string, blank: bool, dated: bool, isTo: bool, isCc: bool, isSubject: bool, isFrom: bool,
    /** The trimmed text after the first 3 characters ("To:", "cc:") and after the
        first 8 ("Subject:"), when the line is longer. */
    after3: Option<string>, after8: Option<string>)

  /** A line never starts with both "cc:" and "subject:". */
  predicate StanzaLineOk(info: StanzaLine) {
    !(info.isCc && info.isSubject)
  }

  function StanzaLineOf(raw: string): (info: StanzaLine)
    ensures StanzaLineOk(info)
  {
    var t := Strip(raw);
    var low := Lower(t);
    assert StartsWith(low, "cc:") ==> low[..3][0] == 'c' == low[0];
    assert StartsWith(low, "subject:") ==> low[..8][0] == 's' == low[0];
    StanzaLine(t, t == "", IsDateShaped(t, Loose), StartsWith(low, "to:"),
      StartsWith(low, "cc:"), StartsWith(low, "subject:"), StartsWith(low, "from:"),
      After(t, 3), After(t, 8))
  }

  function StanzaLines(lines: seq<string>): (infos: seq<StanzaLine>)
    ensures |infos| == |lines|
    ensures forall k :: 0 <= k < |lines| ==> infos[k] == StanzaLineOf(lines[k])
  {
    seq(|lines|, k requires 0 <= k < |lines| => StanzaLineOf(lines[k]))
  }

  predicate StanzaLinesOk(infos: seq<StanzaLine>) {
    forall k :: 0 <= k < |infos| ==> StanzaLineOk(infos[k])
  }

  /** The section the stanza loop is collecting. */
  datatype Section = InTo | InCc | InSubject

  /** The loop's accumulators: `current_section`, `full_to_text`, `full_cc_text` and
      `subject`. The loop has stopped once the section is `InSubject`. */
  datatype StanzaScan = StanzaScan(section: Section, toText: string, ccText: string, subject: string)

  /** The trimmed text after a keyword of `n` characters, when the line is longer. */
  function After(text: string, n: nat): Option<string> {
    if |text| > n then Some(Strip(text[n..])) else None
  }

  function OrElse(o: Option<string>, otherwise: string): string {
    match o case Some(t) => t case None => otherwise
  }

  /** One iteration of the stanza loop. A cc: line switches to the cc section (its text,
      if any, replaces the cc text); a Subject: line sets the subject and stops; any
      other line not starting with "from:" continues the current section. (The loop's
      own test for cc:/subject: in the To: branch can never fire, those lines being
      taken by the branches before it.) */
  function StanzaStep(info: StanzaLine, s: StanzaScan): StanzaScan {
    if s.section == InSubject then s
    else if info.isCc then s.(section := InCc, ccText := OrElse(info.after3, s.ccText))
    else if info.isSubject then s.(section := InSubject, subject := OrElse(info.after8, s.subject))
    else if s.section == InTo && !info.isFrom then s.(toText := s.toText + " " + info.text)
    else if s.section == InCc && !info.isFrom then s.(ccText := s.ccText + " " + info.text)
    else s
  }

  /** The state after the first `n` lines from line 3 on. */
  function StanzaPrefix(rest: seq<StanzaLine>, start: StanzaScan, n: nat): StanzaScan
    requires n <= |rest|
    decreases n
  {
    if n == 0 then start else StanzaStep(rest[n - 1], StanzaPrefix(rest, start, n - 1))
  }

  /** The state the loop starts from, given the text after "To:". */
  function StanzaStart(toText: string): StanzaScan {
    StanzaScan(InTo, toText, "", "")
  }

  /** The state after all lines from line 3 on. */
  function ScanOf(rest: seq<StanzaLine>, toText: string): StanzaScan {
    StanzaPrefix(rest, StanzaStart(toText), |rest|)
  }

  /** The stanza loop over the lines from line 3 on. */
  method ScanStanza(rest: seq<StanzaLine>, toText: string) returns (s: StanzaScan)
    ensures s == ScanOf(rest, toText)
  {
    s := StanzaStart(toText);
    var i := 0;
    while i < |rest|
      invariant 0 <= i <= |rest|
      invariant s == StanzaPrefix(rest, StanzaStart(toText), i)
      invariant s.section != InSubject
    {
      var line := rest[i];
      if line.isCc {
        s := s.(section := InCc);
        if line.after3.Some? {
          s := s.(ccText := line.after3.value);
        }
      } else if line.isSubject {
        s := s.(section := InSubject);
        if line.after8.Some? {
          s := s.(subject := line.after8.value);
        }
        assert s == StanzaPrefix(rest, StanzaStart(toText), i + 1);
        StanzaDoneStays(rest, StanzaStart(toText), i + 1, |rest|);
        break;
      } else if s.section == InTo && !line.isFrom {
        s := s.(toText := s.toText + " " + line.text);
      } else if s.section == InCc && !line.isFrom {
        s := s.(ccText := s.ccText + " " + line.text);
      }
      i := i + 1;
    }
  }

  /** Once a Subject: line has been read, nothing changes any more. */
  lemma {:induction false} StanzaDoneStays(rest: seq<StanzaLine>, start: StanzaScan, m: nat, n: nat)
    requires m <= n <= |rest|
    requires StanzaPrefix(rest, start, m).section == InSubject
    ensures StanzaPrefix(rest, start, n) == StanzaPrefix(rest, start, m)
    decreases n
  {
    if n > m {
      StanzaDoneStays(rest, start, m, n - 1);
    }
  }

  /** A line that ends the To: section: a cc: or a Subject: line. */
  predicate EndsTo(info: StanzaLine) {
    info.isCc || info.isSubject
  }

  predicate SubjectInfo(info: StanzaLine) {
    info.isSubject
  }

  /** The index of the first line that ends the To: section, or the number of lines. */
  function ToEnd(rest: seq<StanzaLine>): (e: nat)
    ensures e <= |rest|
  {
    match First(rest, 0, EndsTo) case Some(k) => k case None => |rest|
  }

  /** The text the first `n` lines add to the To: text: a space and the line, for each
      line not starting with "from:". */
  function Continuations(rest: seq<StanzaLine>, n: nat): string
    requires n <= |rest|
    decreases n
  {
    if n == 0 then ""
    else Continuations(rest, n - 1) + (if rest[n - 1].isFrom then "" else " " + rest[n - 1].text)
  }

  /** Before the first cc: or Subject: line, only the To: text grows. */
  lemma {:induction false} StanzaBeforeTheEnd(rest: seq<StanzaLine>, start: StanzaScan, n: nat)
    requires start.section == InTo && n <= ToEnd(rest)
    ensures StanzaPrefix(rest, start, n)
         == start.(toText := start.toText + Continuations(rest, n))
    decreases n
  {
    if n > 0 {
      StanzaBeforeTheEnd(rest, start, n - 1);
      assert !EndsTo(rest[n - 1]);
    }
  }

  /** Once out of the To: section, the loop never returns to it. */
  lemma {:induction false} StanzaToFrozen(rest: seq<StanzaLine>, start: StanzaScan, m: nat, n: nat)
    requires m <= n <= |rest|
    requires StanzaPrefix(rest, start, m).section != InTo
    ensures StanzaPrefix(rest, start, n).section != InTo
    ensures StanzaPrefix(rest, start, n).toText == StanzaPrefix(rest, start, m).toText
    decreases n
  {
    if n > m {
      StanzaToFrozen(rest, start, m, n - 1);
    }
  }

  /** The To: text is the text after "To:" followed by every line up to the first cc:
      or Subject: line, except those starting with "from:". */
  lemma StanzaToText(rest: seq<StanzaLine>, toText: string)
    ensures StanzaPrefix(rest, StanzaStart(toText), |rest|).toText
         == toText + Continuations(rest, ToEnd(rest))
  {
    var start := StanzaStart(toText);
    var e := ToEnd(rest);
    StanzaBeforeTheEnd(rest, start, e);
    if e < |rest| {
      StanzaLeavesTo(rest, start, e);
      StanzaToFrozen(rest, start, e + 1, |rest|);
    }
  }

  /** The line that ends the To: section leaves the To: text as it was. */
  lemma StanzaLeavesTo(rest: seq<StanzaLine>, start: StanzaScan, e: nat)
    requires e < |rest| && EndsTo(rest[e])
    requires StanzaPrefix(rest, start, e).section == InTo
    ensures StanzaPrefix(rest, start, e + 1).section != InTo
    ensures StanzaPrefix(rest, start, e + 1).toText == StanzaPrefix(rest, start, e).toText
  {
  }

  /** Before the first Subject: line, the loop is still running and the subject unset. */
  lemma {:induction false} StanzaBeforeSubject(rest: seq<StanzaLine>, start: StanzaScan, n: nat)
    requires start.section != InSubject && n <= |rest|
    requires forall k :: 0 <= k < n ==> !rest[k].isSubject
    ensures StanzaPrefix(rest, start, n).section != InSubject
    ensures StanzaPrefix(rest, start, n).subject == start.subject
    decreases n
  {
    if n > 0 {
      StanzaBeforeSubject(rest, start, n - 1);
    }
  }

  /** The loop stops at the first Subject: line: the final state is the one right after
      it, and the subject is the text after "Subject:" on it (left empty when there is
      none). Without a Subject: line the subject stays empty. */
  lemma StanzaStopsAtSubject(rest: seq<StanzaLine>, toText: string)
    requires StanzaLinesOk(rest)
    ensures var s := StanzaPrefix(rest, StanzaStart(toText), |rest|);
      match First(rest, 0, SubjectInfo)
      case Some(f) =>
        s == StanzaPrefix(rest, StanzaStart(toText), f + 1) && s.section == InSubject
        && s.subject == OrElse(rest[f].after8, "")
      case None => s.section != InSubject && s.subject == ""
  {
    var start := StanzaStart(toText);
    match First(rest, 0, SubjectInfo)
    case Some(f) =>
      StanzaBeforeSubject(rest, start, f);
      assert StanzaLineOk(rest[f]);
      StanzaDoneStays(rest, start, f + 1, |rest|);
    case None =>
      StanzaBeforeSubject(rest, start, |rest|);
  }

  predicate CcInfo(info: StanzaLine) {
    info.isCc
  }

  /** A cc: line with text after "cc:". */
  predicate CcWithText(info: StanzaLine) {
    info.isCc && info.after3.Some?
  }

  /** The index of the first line ending at the Subject: line, or the number of lines. */
  function SubjectEnd(rest: seq<StanzaLine>): (e: nat)
    ensures e <= |rest|
    ensures forall k :: 0 <= k < e ==> !rest[k].isSubject
  {
    match First(rest, 0, SubjectInfo) case Some(f) => f case None => |rest|
  }

  /** The first cc: line among the first `n` lines. */
  function FirstCc(rest: seq<StanzaLine>, n: nat): (r: Option<nat>)
    requires n <= |rest|
    ensures r.Some? ==> r.value < n && rest[r.value].isCc
    ensures r.Some? ==> forall k :: 0 <= k < r.value ==> !rest[k].isCc
    ensures r.None? ==> forall k :: 0 <= k < n ==> !rest[k].isCc
  {
    match First(rest, 0, CcInfo)
    case Some(f) => if f < n then Some(f) else None
    case None => None
  }

  /** The last cc: line with text among the first `n` lines. */
  function LastCcText(rest: seq<StanzaLine>, n: nat): (r: Option<nat>)
    requires n <= |rest|
    ensures r.Some? ==> r.value < n && CcWithText(rest[r.value])
    ensures r.Some? ==> forall k :: r.value < k < n ==> !CcWithText(rest[k])
    ensures r.None? ==> forall k :: 0 <= k < n ==> !CcWithText(rest[k])
    decreases n
  {
    if n == 0 then None
    else if CcWithText(rest[n - 1]) then Some(n - 1)
    else LastCcText(rest, n - 1)
  }

  /** The text lines `lo` to `hi - 1` add to the cc text: a space and the line, for each
      line that is neither a cc: line nor starts with "from:". */
  function CcContinuations(rest: seq<StanzaLine>, lo: nat, hi: nat): string
    requires lo <= hi <= |rest|
    decreases hi - lo
  {
    if hi == lo then ""
    else
      var line := rest[hi - 1];
      CcContinuations(rest, lo, hi - 1) + (if line.isCc || line.isFrom then "" else " " + line.text)
  }

  /** The cc text after the first `n` lines when none of them is a Subject: line. */
  function CcValue(rest: seq<StanzaLine>, n: nat): string
    requires n <= |rest|
  {
    match LastCcText(rest, n)
    case Some(c) => rest[c].after3.value + CcContinuations(rest, c + 1, n)
    case None => match FirstCc(rest, n) case Some(f) => CcContinuations(rest, f + 1, n) case None => ""
  }

  /** The section after the first `n` lines when none of them is a Subject: line. */
  function StanzaCcSection(rest: seq<StanzaLine>, n: nat): Section
    requires n <= |rest|
  {
    if FirstCc(rest, n).Some? then InCc else InTo
  }

  /** Without a cc: line among the first `n` lines, the cc text is empty. */
  lemma CcValueEmpty(rest: seq<StanzaLine>, n: nat)
    requires n <= |rest| && FirstCc(rest, n).None?
    ensures CcValue(rest, n) == ""
  {
  }

  /** How the first cc: line and the cc text move on by one line. */
  lemma CcValueStep(rest: seq<StanzaLine>, n: nat)
    requires 0 < n <= |rest|
    ensures FirstCc(rest, n) == if FirstCc(rest, n - 1).Some? then FirstCc(rest, n - 1)
      else if rest[n - 1].isCc then Some(n - 1) else None
    ensures var line := rest[n - 1];
      CcValue(rest, n) ==
        if CcWithText(line) then line.after3.value
        else if FirstCc(rest, n - 1).None? then ""
        else CcValue(rest, n - 1) + (if line.isCc || line.isFrom then "" else " " + line.text)
  {
    var line := rest[n - 1];
    if FirstCc(rest, n - 1).None? {
      CcValueEmpty(rest, n - 1);
      if line.isCc {
        assert FirstCc(rest, n) == Some(n - 1);
      } else {
        CcValueEmpty(rest, n);
      }
    } else {
      assert FirstCc(rest, n) == FirstCc(rest, n - 1);
    }
    if !CcWithText(line) {
      assert LastCcText(rest, n) == LastCcText(rest, n - 1);
    }
  }

  /** One line that is not a Subject: line keeps the cc text and the section as
      `CcValue` and `StanzaCcSection` give them. */
  lemma CcStep(rest: seq<StanzaLine>, toText: string, n: nat)
    requires 0 < n <= |rest| && !rest[n - 1].isSubject
    requires StanzaPrefix(rest, StanzaStart(toText), n - 1).ccText == CcValue(rest, n - 1)
    requires StanzaPrefix(rest, StanzaStart(toText), n - 1).section == StanzaCcSection(rest, n - 1)
    ensures StanzaPrefix(rest, StanzaStart(toText), n).ccText == CcValue(rest, n)
    ensures StanzaPrefix(rest, StanzaStart(toText), n).section == StanzaCcSection(rest, n)
  {
    CcValueStep(rest, n);
    if FirstCc(rest, n - 1).None? {
      CcValueEmpty(rest, n - 1);
    }
  }

  /** Before the first Subject: line, the cc text and the section are `CcValue` and
      `StanzaCcSection`. */
  lemma {:induction false} CcBeforeSubject(rest: seq<StanzaLine>, toText: string, n: nat)
    requires n <= |rest|
    requires forall k :: 0 <= k < n ==> !rest[k].isSubject
    ensures StanzaPrefix(rest, StanzaStart(toText), n).ccText == CcValue(rest, n)
    ensures StanzaPrefix(rest, StanzaStart(toText), n).section == StanzaCcSection(rest, n)
    decreases n
  {
    if n > 0 {
      CcBeforeSubject(rest, toText, n - 1);
      CcStep(rest, toText, n);
    }
  }

  /** The final cc text is the one before the first Subject: line. */
  lemma CcAtSubject(rest: seq<StanzaLine>, toText: string)
    requires StanzaLinesOk(rest)
    ensures ScanOf(rest, toText).ccText == CcValue(rest, SubjectEnd(rest))
  {
    var start := StanzaStart(toText);
    var e := SubjectEnd(rest);
    CcBeforeSubject(rest, toText, e);
    StanzaStopsAtSubject(rest, toText);
    if e < |rest| {
      assert StanzaLineOk(rest[e]);
      assert ScanOf(rest, toText) == StanzaStep(rest[e], StanzaPrefix(rest, start, e));
    }
  }

  /** The cc text is made from the lines before the first Subject: line. If one of them
      is a cc: line with text, it is the text of the last such line followed by a space
      and the line for each later line that is neither a cc: line nor starts with
      "from:". Otherwise, from the first cc: line on, the same continuations follow the
      empty start value; without any cc: line it stays empty. */
  lemma StanzaCcText(rest: seq<StanzaLine>, toText: string)
    requires StanzaLinesOk(rest)
    ensures var e := SubjectEnd(rest);
      forall c :: 0 <= c < e && CcWithText(rest[c]) && (forall k :: c < k < e ==> !CcWithText(rest[k]))
        ==> ScanOf(rest, toText).ccText == rest[c].after3.value + CcContinuations(rest, c + 1, e)
    ensures var e := SubjectEnd(rest);
      (forall k :: 0 <= k < e ==> !CcWithText(rest[k])) ==>
        forall f :: 0 <= f < e && rest[f].isCc && (forall k :: 0 <= k < f ==> !rest[k].isCc)
          ==> ScanOf(rest, toText).ccText == CcContinuations(rest, f + 1, e)
    ensures var e := SubjectEnd(rest);
      (forall k :: 0 <= k < e ==> !rest[k].isCc) ==> ScanOf(rest, toText).ccText == ""
  {
    CcAtSubject(rest, toText);
    CcValueCases(rest, SubjectEnd(rest));
  }

  /** `CcValue` by cases: the last cc: line with text, else the first cc: line, else
      none. */
  lemma CcValueCases(rest: seq<StanzaLine>, e: nat)
    requires e <= |rest|
    ensures forall c :: 0 <= c < e && CcWithText(rest[c]) && (forall k :: c < k < e ==> !CcWithText(rest[k]))
                     ==> CcValue(rest, e) == rest[c].after3.value + CcContinuations(rest, c + 1, e)
    ensures (forall k :: 0 <= k < e ==> !CcWithText(rest[k])) ==>
      forall f :: 0 <= f < e && rest[f].isCc && (forall k :: 0 <= k < f ==> !rest[k].isCc)
        ==> CcValue(rest, e) == CcContinuations(rest, f + 1, e)
    ensures (forall k :: 0 <= k < e ==> !rest[k].isCc) ==> CcValue(rest, e) == ""
  {
    forall c | 0 <= c < e && CcWithText(rest[c]) && (forall k :: c < k < e ==> !CcWithText(rest[k]))
      ensures CcValue(rest, e) == rest[c].after3.value + CcContinuations(rest, c + 1, e)
    {
      LastCcTextIs(rest, e, c);
    }
    forall f | 0 <= f < e && rest[f].isCc && (forall k :: 0 <= k < f ==> !rest[k].isCc)
      ensures FirstCc(rest, e) == Some(f)
    {
      FirstCcIs(rest, e, f);
    }
    if forall k :: 0 <= k < e ==> !rest[k].isCc {
      CcValueEmpty(rest, e);
    }
  }

  lemma LastCcTextIs(rest: seq<StanzaLine>, e: nat, c: nat)
    requires c < e <= |rest| && CcWithText(rest[c])
    requires forall k :: c < k < e ==> !CcWithText(rest[k])
    ensures LastCcText(rest, e) == Some(c)
  {
  }

  lemma FirstCcIs(rest: seq<StanzaLine>, e: nat, f: nat)
    requires f < e <= |rest| && rest[f].isCc
    requires forall k :: 0 <= k < f ==> !rest[k].isCc
    ensures FirstCc(rest, e) == Some(f)
  {
  }

  // ---------------------------------------------------------------- body of a stanza

  /** A blank line followed by a non-blank one. */
  predicate GapAt(infos: seq<StanzaLine>, j: nat) {
    j + 1 < |infos| && infos[j].blank && !infos[j + 1].blank
  }

  function FirstGap(infos: seq<StanzaLine>, j: nat): (r: Option<nat>)
    decreases |infos| - j
    ensures r.Some? ==> j <= r.value && GapAt(infos, r.value)
    ensures r.Some? ==> forall k :: j <= k < r.value ==> !GapAt(infos, k)
    ensures r.None? ==> forall k :: j <= k < |infos| ==> !GapAt(infos, k)
  {
    if j >= |infos| then None else if GapAt(infos, j) then Some(j) else FirstGap(infos, j + 1)
  }

  /** Where the body of a stanza starts: after the first Subject: line, the first
      non-blank line that directly follows a blank one. */
  function StanzaBodyStart(infos: seq<StanzaLine>): (r: Option<nat>)
    ensures r.Some? ==> 2 <= r.value < |infos|
  {
    match First(infos, 0, SubjectInfo)
    case Some(i) => (match FirstGap(infos, i + 1) case Some(j) => Some(j + 1) case None => None)
    case None => None
  }

  /** The body-start search of the stanza path: only the first Subject: line is
      searched from. */
  method SearchStanzaBody(infos: seq<StanzaLine>) returns (bodyStart: int)
    ensures bodyStart == match StanzaBodyStart(infos) case Some(b) => b case None => -1
  {
    bodyStart := -1;
    var i := 0;
    while i < |infos|
      invariant 0 <= i <= |infos|
      invariant First(infos, 0, SubjectInfo) == First(infos, i, SubjectInfo)
    {
      if infos[i].isSubject {
        var j := i + 1;
        while j < |infos|
          invariant i + 1 <= j <= |infos|
          invariant FirstGap(infos, i + 1) == FirstGap(infos, j)
        {
          if infos[j].blank && j + 1 < |infos| && !infos[j + 1].blank {
            bodyStart := j + 1;
            break;
          }
          j := j + 1;
        }
        break;
      }
      i := i + 1;
    }
  }

  /** The body starts on a non-blank line right after a blank line, and some Subject:
      line comes before that blank line; no earlier line pair after the first Subject:
      line has that shape. */
  lemma StanzaBodyStartShape(infos: seq<StanzaLine>)
    requires StanzaBodyStart(infos).Some?
    ensures var b := StanzaBodyStart(infos).value;
      var i := First(infos, 0, SubjectInfo).value;
      i + 2 <= b < |infos| && infos[i].isSubject && infos[b - 1].blank && !infos[b].blank
      && (forall k :: 0 <= k < i ==> !infos[k].isSubject)
      && (forall k :: i + 1 <= k < b - 1 ==> !GapAt(infos, k))
  {
  }

  /** The lines from the body start on are text of the segment. */
  lemma LinesFromInText(content: string, b: nat)
    requires b < |Lines(content)|
    ensures IsSubstring(Join(Lines(content)[b..], "\n"), content)
  {
    SplitJoin(content, '\n');
    JoinTail(Lines(content), "\n", b);
    SuffixIsSubstring(content, Join(Lines(content)[b..], "\n"));
  }

  // ---------------------------------------------------------------- the stanza record

  /** The layout the fast path recognises: at least five lines, a non-empty first line,
      a date at the start of the second and a third starting with "to:". */
  predicate StanzaShape(infos: seq<StanzaLine>) {
    |infos| >= 5 && !infos[0].blank && infos[1].dated && infos[2].isTo
  }

  /** How the fast path ends: it does not apply; it raises because the To: line holds
      only "To:" (`full_cc_text` is then never bound); its record is refused, leaving
      the date it parsed; or its record is returned. */
  datatype Stanza = NotStanza | Unbound | Rejected(date: Option<string>) | Accepted(record: Record)

  /** The comma parts of a recipient text (`re.split(r',\s*', text)`, up to the white
      space after each comma, which each part's `strip` removes anyway). */
  function StanzaRecipients(rule: RecipientRule, text: string): (r: seq<string>)
    ensures AllAddresses(r)
  {
    CommaAddresses(rule, Split(text, ','))
  }

  /** The body of a stanza: the lines from the body start on, or nothing. */
  function StanzaBody(lines: seq<string>, infos: seq<StanzaLine>): string
    requires |infos| == |lines|
  {
    match StanzaBodyStart(infos) case Some(b) => Join(lines[b..], "\n") case None => ""
  }

  /** The record the fast path builds from the loop's final state and the body. */
  function StanzaRecord(env: Env, content: string, fileId: string, idx: nat, parent: string,
                        name: string, date: string, subject: string, to: seq<string>, cc: seq<string>,
                        body: string): Record
  {
    Record(
      GenerateId(env.md5Hex, content, fileId, Some(idx)), ExtractDate(env, date), Or(subject, parent),
      EnronAddress(name), to, cc, [], body, NestedSource(fileId, idx))
  }

  /** The cc addresses: none when the cc text is empty. */
  function StanzaCc(ccText: string): (r: seq<string>)
    ensures AllAddresses(r)
  {
    if ccText != "" then StanzaRecipients(StanzaCcRule, ccText) else []
  }

  /** A record is kept when it has a sender and recipients or a subject. */
  function Verdict(r: Record): Stanza {
    if r.from != "" && (r.to != [] || r.subject != "") then Accepted(r) else Rejected(r.date)
  }

  /** The fast path of `_extract_nested_email`. */
  function StanzaOf(env: Env, content: string, fileId: string, idx: nat, parent: string,
                    lines: seq<string>, infos: seq<StanzaLine>): (st: Stanza)
    requires |infos| == |lines|
    ensures st.Accepted? ==> st.record.id == GenerateId(env.md5Hex, content, fileId, Some(idx))
    ensures st.Accepted? ==> st.record.fileSource == NestedSource(fileId, idx)
  {
    if !StanzaShape(infos) then NotStanza
    else
      match infos[2].after3
      case None => Unbound
      case Some(toText) =>
        var s := ScanOf(infos[3..], toText);
        Verdict(StanzaRecord(env, content, fileId, idx, parent, infos[0].text, infos[1].text, s.subject,
          StanzaRecipients(StanzaToRule, s.toText), StanzaCc(s.ccText), StanzaBody(lines, infos)))
  }

  /** The fast path, step by step. */
  method StanzaPath(env: Env, content: string, fileId: string, idx: nat, parent: string,
                    lines: seq<string>, infos: seq<StanzaLine>) returns (st: Stanza)
    requires |infos| == |lines|
    ensures st == StanzaOf(env, content, fileId, idx, parent, lines, infos)
  {
    if !StanzaShape(infos) {
      return NotStanza;
    }
    if infos[2].after3.None? {
      return Unbound;
    }
    var s := ScanStanza(infos[3..], infos[2].after3.value);
    var to := AppendCommaParts(StanzaToRule, Split(s.toText, ','), []);
    var cc: seq<string> := [];
    if s.ccText != "" {
      cc := AppendCommaParts(StanzaCcRule, Split(s.ccText, ','), []);
    }
    var bodyStart := SearchStanzaBody(infos);
    var body := "";
    if bodyStart > 0 {
      body := Join(lines[bodyStart..], "\n");
    }
    assert to == StanzaRecipients(StanzaToRule, s.toText) by {
      assert [] + StanzaRecipients(StanzaToRule, s.toText) == StanzaRecipients(StanzaToRule, s.toText);
    }
    assert cc == StanzaCc(s.ccText) by {
      assert [] + StanzaRecipients(StanzaCcRule, s.ccText) == StanzaRecipients(StanzaCcRule, s.ccText);
    }
    assert body == StanzaBody(lines, infos);
    var r := StanzaRecord(env, content, fileId, idx, parent, infos[0].text, infos[1].text, s.subject, to, cc, body);
    st := Verdict(r);
  }

  /** The fast path raises exactly when its layout is there and the To: line holds
      nothing after "To:". */
  lemma StanzaUnbound(env: Env, content: string, fileId: string, idx: nat, parent: string,
                      lines: seq<string>, infos: seq<StanzaLine>)
    requires |infos| == |lines|
    ensures StanzaOf(env, content, fileId, idx, parent, lines, infos).Unbound?
        <==> StanzaShape(infos) && infos[2].after3.None?
  {
  }

  /** The layout read off the lines themselves: at least five lines, a non-empty first
      line, a date at the start of the second and a third starting with "to:"; the
      fast path then raises exactly when the third line is "To:" alone. */
  lemma StanzaShapeOfLines(lines: seq<string>)
    ensures var infos := StanzaLines(lines);
      && (StanzaShape(infos) <==>
           |lines| >= 5 && Strip(lines[0]) != "" && IsDateShaped(Strip(lines[1]), Loose)
           && StartsWith(Lower(Strip(lines[2])), "to:"))
      && (StanzaShape(infos) ==> (infos[2].after3.None? <==> |Strip(lines[2])| == 3))
  {
    var infos := StanzaLines(lines);
    if |lines| >= 3 {
      assert infos[0] == StanzaLineOf(lines[0]);
      assert infos[1] == StanzaLineOf(lines[1]);
      assert infos[2] == StanzaLineOf(lines[2]);
    }
  }

  /** When the layout is there and the To: line has text, the record is returned exactly
      when it has recipients or a subject (its sender is never empty), and it is
      refused otherwise, with the date it parsed. The record's sender is the first line
      as a dotted internal address, its subject defaults to the parent's, its bcc is
      empty and every recipient is an address. */
  lemma StanzaAcceptance(env: Env, content: string, fileId: string, idx: nat, parent: string,
                         lines: seq<string>, infos: seq<StanzaLine>)
    requires |infos| == |lines| && StanzaShape(infos) && infos[2].after3.Some?
    ensures var st := StanzaOf(env, content, fileId, idx, parent, lines, infos);
      var s := ScanOf(infos[3..], infos[2].after3.value);
      var r := StanzaRecord(env, content, fileId, idx, parent, infos[0].text, infos[1].text, s.subject,
        StanzaRecipients(StanzaToRule, s.toText), StanzaCc(s.ccText), StanzaBody(lines, infos));
      && (st.Accepted? <==> r.to != [] || r.subject != "")
      && (st.Accepted? ==> st.record == r)
      && (!st.Accepted? ==> st == Rejected(ExtractDate(env, infos[1].text)))
      && r.from == Replace(Lower(infos[0].text), ' ', '.') + EnronDomain
      && r.subject == (if s.subject != "" then s.subject else parent)
      && r.bcc == [] && AllAddresses(r.to) && AllAddresses(r.cc)
      && r.fileSource == NestedSource(fileId, idx)
  {
    assert EndsWith(EnronAddress(infos[0].text), EnronDomain);
  }

  /** The body of a stanza record is text of the segment. */
  lemma StanzaBodyInContent(content: string, infos: seq<StanzaLine>)
    requires |infos| == |Lines(content)|
    ensures IsSubstring(StanzaBody(Lines(content), infos), content)
  {
    match StanzaBodyStart(infos)
    case Some(b) =>
      LinesFromInText(content, b);
    case None =>
      assert At(content, 0, "");
  }

  // ---------------------------------------------------------------- "Please respond to" repair

  /** The first `<...@...>` token of a text. */
  function FirstAtToken(s: string): Option<string> {
    var ts := AtTokens(s);
    if ts != [] then Some(ts[0]) else None
  }

  /** The address found for one quoted cc name: the bracket right after the quoted name,
      else the first bracketed address within 200 characters of the name's first quoted
      occurrence; lowercased. */
  function NamedCc(content: string, name: string): (r: Option<string>)
    ensures r.Some? ==> IsLower(r.value)
  {
    match NamedAddress(content, name)
    case Some(a) => LowerIsLower(a); Some(Lower(a))
    case None =>
      var pos := Find(content, ['"'] + name + ['"']);
      if pos < 0 then None
      else
        match FirstAtToken(Slice(content, pos, pos + 200))
        case Some(a) => LowerIsLower(a); Some(Lower(a))
        case None => None
  }

  /** The addresses found for the first `n` quoted cc names, in order. */
  function NamedCcs(content: string, names: seq<string>, n: nat): (r: seq<string>)
    requires n <= |names|
    ensures |r| <= n && AllLower(r)
  {
    if n == 0 then []
    else
      var rest := NamedCcs(content, names, n - 1);
      match NamedCc(content, names[n - 1])
      case Some(a) => rest + [a]
      case None => rest
  }

  /** `xs` without the entries that are in `ex`, in order. */
  function Without(xs: seq<string>, ex: seq<string>): (r: seq<string>)
    ensures forall x :: x in r <==> x in xs && x !in ex
  {
    if xs == [] then []
    else if xs[|xs| - 1] in ex then Without(xs[..|xs| - 1], ex)
    else Without(xs[..|xs| - 1], ex) + [xs[|xs| - 1]]
  }

  /** The lowered sender and recipient of the "Please respond to" layout, when present. */
  function Excluded(content: string): seq<string> {
    (match FromQuoted(content) case Some(a) => [Lower(a)] case None => [])
    + (match ToQuoted(content) case Some(a) => [Lower(a)] case None => [])
  }

  /** Every bracketed address of the content, lowered, except the sender and recipient. */
  function Others(content: string): (r: seq<string>)
    ensures AllLower(r)
  {
    var all := LowerAll(AtTokens(content));
    forall x | x in all ensures IsLower(x) {
      var k :| 0 <= k < |all| && all[k] == x;
      LowerIsLower(AtTokens(content)[k]);
    }
    Without(all, Excluded(content))
  }

  /** The cc list after the named lookup and the section fallback. */
  function SectionCc(content: string, cc: seq<string>): seq<string> {
    match CcSection(content)
    case None => cc
    case Some(sec) =>
      var names := QuotedNames(sec);
      var found := NamedCcs(content, names, |names|);
      if found != [] then found
      else if AtTokens(sec) != [] then LowerAll(AtTokens(sec))
      else cc
  }

  /** The cc list after the last fallback. */
  function SweptCc(content: string, cc: seq<string>): seq<string> {
    if cc == [] && CcQuoted(content).Some? && Others(content) != [] then Others(content) else cc
  }

  /** `_handle_please_respond_format` on the header value it updates. */
  function PleaseRespond(content: string, h: HeaderFields): (r: HeaderFields)
    ensures r == h.(to := r.to, cc := r.cc)
  {
    var to := match ToQuoted(content) case Some(a) => [Lower(a)] case None => h.to;
    h.(to := to, cc := SweptCc(content, SectionCc(content, h.cc)))
  }

  /** The quoted-name loop. */
  method FindNamedCcs(content: string, names: seq<string>) returns (ccs: seq<string>)
    ensures ccs == NamedCcs(content, names, |names|)
  {
    ccs := [];
    for i := 0 to |names|
      invariant ccs == NamedCcs(content, names, i)
    {
      var address := LookUpNamedCc(content, names[i]);
      if address.Some? {
        ccs := ccs + [address.value];
      }
    }
  }

  /** The lookup for one quoted name: the bracket right after it, else the first
      bracketed address within 200 characters of its first quoted occurrence. */
  method LookUpNamedCc(content: string, name: string) returns (address: Option<string>)
    ensures address == NamedCc(content, name)
  {
    address := None;
    var m := NamedAddress(content, name);
    if m.Some? {
      address := Some(Lower(m.value));
    } else {
      var pos := Find(content, ['"'] + name + ['"']);
      if pos != -1 {
        var sub := AtTokens(Slice(content, pos, pos + 200));
        if sub != [] {
          address := Some(Lower(sub[0]));
        }
      }
    }
  }

  /** The repair, step by step. */
  method HandlePleaseRespondFormat(content: string, h: HeaderFields) returns (r: HeaderFields)
    ensures r == PleaseRespond(content, h)
  {
    r := h;
    var toMatch := ToQuoted(content);
    if toMatch.Some? {
      r := r.(to := [Lower(toMatch.value)]);
    }
    var ccs: seq<string> := [];
    var section := CcSection(content);
    if section.Some? {
      ccs := FindNamedCcs(content, QuotedNames(section.value));
    }
    if ccs != [] {
      r := r.(cc := ccs);
    }
    if ccs == [] && section.Some? {
      var matches := AtTokens(section.value);
      if matches != [] {
        r := r.(cc := LowerAll(matches));
      }
    }
    assert r.cc == SectionCc(content, h.cc);
    if r.cc == [] {
      var ccLine := CcQuoted(content);
      if ccLine.Some? {
        var others := Others(content);
        if others != [] {
          r := r.(cc := others);
        }
      }
    }
  }

  /** The repair keeps recipient lists free of upper-case letters. */
  lemma PleaseRespondLower(content: string, h: HeaderFields)
    requires AllLower(h.to) && AllLower(h.cc)
    ensures AllLower(PleaseRespond(content, h).to) && AllLower(PleaseRespond(content, h).cc)
  {
    if ToQuoted(content).Some? {
      LowerIsLower(ToQuoted(content).value);
    }
    match CcSection(content)
    case None =>
    case Some(sec) =>
      var ts := AtTokens(sec);
      forall k | 0 <= k < |ts| ensures IsLower(LowerAll(ts)[k]) {
        LowerIsLower(ts[k]);
      }
  }

  /** The last fallback: when the earlier steps leave cc empty and a `cc: "Name"` line is
      there, cc becomes exactly the bracketed addresses other than the sender's and the
      recipient's, when there are any. */
  lemma PleaseRespondSweep(content: string, h: HeaderFields)
    requires SectionCc(content, h.cc) == [] && CcQuoted(content).Some?
    ensures var cc := PleaseRespond(content, h).cc;
      && (cc == [] <==> forall x :: x in LowerAll(AtTokens(content)) ==> x in Excluded(content))
      && forall x :: x in cc <==> x in LowerAll(AtTokens(content)) && x !in Excluded(content)
  {
    var all := LowerAll(AtTokens(content));
    if Others(content) == [] {
      forall x | x in all ensures x in Excluded(content) {
        assert x in Others(content) <==> x !in Excluded(content);
      }
    } else {
      var y := Others(content)[0];
      assert y in Others(content);
    }
  }

  // ---------------------------------------------------------------- message fields and fallbacks

  /** What `_extract_email_fields` returns. */
  datatype Fields = Fields(
    date: Option<string>, subject: string, from: string, to: seq<string>, cc: seq<string>,
    bcc: seq<string>, body: string, bodyClean: string)

  /** `_extract_email_fields` on a parsed message: its date read by `extract_date`, the
      first normalized sender (or nothing), the normalized recipient lists and the body
      with quoted text cut off. */
  function EmailFields(env: Env, m: RawMessage): (f: Fields)
    ensures f.from == "" || f.from in env.normalizeAddresses(m.from)
    ensures env.normalizeAddresses(m.from) == [] ==> f.from == ""
    ensures f.body == m.body && IsSubstring(f.bodyClean, m.body)
    ensures m.date == "" ==> f.date.None?
  {
    CleanedIsSubstring(env.cleanCuts, m.body);
    var froms := env.normalizeAddresses(m.from);
    Fields(ExtractDate(env, m.date), m.subject, if froms != [] then froms[0] else "",
      env.normalizeAddresses(m.to), env.normalizeAddresses(m.cc), env.normalizeAddresses(m.bcc),
      m.body, Cleaned(env.cleanCuts, m.body))
  }

  /** The headers put in front of a segment that no extractor could read. */
  const PseudoHeaders := "From: Unknown\nTo: Unknown\nSubject: Unknown\nDate: Unknown\n\n"

  /** `_extract_nested_email_fallback`: the segment read as a message behind placeholder
      headers; subject and cleaned body fall back to the parent subject and the cleaned
      segment. */
  function Fallback(env: Env, content: string, fileId: string, idx: nat, parent: string): (r: Record)
    ensures r.id == GenerateId(env.md5Hex, content, fileId, Some(idx))
    ensures r.fileSource == NestedSource(fileId, idx)
    ensures r.subject == "" ==> parent == ""
    ensures r.bodyClean == "" ==> Cleaned(env.cleanCuts, content) == ""
  {
    var f := EmailFields(env, env.parseMessage(PseudoHeaders + content));
    Record(GenerateId(env.md5Hex, content, fileId, Some(idx)), f.date, Or(f.subject, parent), f.from,
      f.to, f.cc, f.bcc, Or(f.bodyClean, Cleaned(env.cleanCuts, content)), NestedSource(fileId, idx))
  }

  /** `_create_nested_email_dict`: the record of a segment from its extracted headers. */
  function NestedDict(env: Env, content: string, h: HeaderFields, fileId: string, idx: nat,
                      parent: string): (r: Record)
    ensures r.from == h.from && r.to == h.to && r.cc == h.cc && r.bcc == h.bcc
    ensures h.subject != "" ==> r.subject == h.subject
    ensures h.subject == "" ==> r.subject == parent
    ensures h.date == "" ==> r.date.None?
    ensures h.bodyClean != "" ==> r.bodyClean == h.bodyClean
    ensures h.bodyClean == "" ==> IsSubstring(r.bodyClean, content)
    ensures r.id == GenerateId(env.md5Hex, content, fileId, Some(idx))
    ensures r.fileSource == NestedSource(fileId, idx)
  {
    CleanedIsSubstring(env.cleanCuts, content);
    Record(GenerateId(env.md5Hex, content, fileId, Some(idx)), ExtractDate(env, h.date), Or(h.subject, parent),
      h.from, h.to, h.cc, h.bcc, Or(h.bodyClean, Cleaned(env.cleanCuts, content)), NestedSource(fileId, idx))
  }

  /** `_get_nested_body_content`: the full body of the raw file when the sender occurs in
      it, otherwise the extracted body or the cleaned segment. */
  function NestedBodyContent(env: Env, h: HeaderFields, content: string, fileId: string): (r: string)
    ensures r == h.bodyClean || IsSubstring(r, content)
      || (env.readFile(fileId).Some? && IsSubstring(r, env.readFile(fileId).value))
  {
    CleanedIsSubstring(env.cleanCuts, content);
    var fallback := Or(h.bodyClean, Cleaned(env.cleanCuts, content));
    match env.readFile(fileId)
    case None => fallback
    case Some(raw) =>
      if h.from != "" && Contains(raw, h.from) then FullBodyInContent(env.cleanCuts, raw); FullBody(env.cleanCuts, raw)
      else fallback
  }

  /** The body lookup, step by step. */
  method GetNestedBodyContent(env: Env, h: HeaderFields, content: string, fileId: string) returns (r: string)
    ensures r == NestedBodyContent(env, h, content, fileId)
  {
    var raw := env.readFile(fileId);
    if raw.Some? && h.from != "" && Contains(raw.value, h.from) {
      r := ExtractForwardedFullBody(env.cleanCuts, raw.value);
      return;
    }
    r := h.bodyClean;
    if r == "" {
      r := CleanBody(env.cleanCuts, content);
    }
  }

  // ---------------------------------------------------------------- the general path

  /** The local `parsed_date`: never assigned, or assigned a date (or None). */
  datatype DateVar = Unset | Set(date: Option<string>)

  /** What the direct loose-date search leaves: `date_string` (empty for None) and
      `parsed_date`. */
  datatype DirectRead = DirectRead(dateString: string, parsed: DateVar)

  /** The direct date search of `_extract_nested_email`: a loose date in the segment
      assigns `parsed_date` (None when the US/Central reading fails); without one the
      variable keeps what the fast path left in it. */
  function DirectDate(env: Env, content: string, prior: DateVar): DirectRead {
    match FindDate(content, Loose)
    case None => DirectRead("", prior)
    case Some(ds) =>
      match env.centralDate(ds)
      case None => DirectRead(ds, Set(None))
      case Some((iso, rewritten)) => DirectRead(rewritten, Set(Some(iso)))
  }

  /** The segment's layout is the "Please respond to" one. */
  predicate IsPleaseRespond(content: string) {
    Contains(content, "Please respond to <") && Contains(content, "To: \"")
  }

  /** The enron-style headers, repaired for the "Please respond to" layout. */
  function Repaired(content: string): HeaderFields {
    var h := EnronHeaders(content);
    if IsPleaseRespond(content) then PleaseRespond(content, h) else h
  }

  /** The headers with the direct date string filled in when they have no date and the
      direct reading succeeded. */
  function Dated(h: HeaderFields, d: DirectRead): HeaderFields {
    if d.parsed.Set? && Truthy(d.parsed.date) && h.date == "" then h.(date := d.dateString) else h
  }

  /** The extractor found a sender, recipients or a subject. */
  predicate Meaningful(h: HeaderFields) {
    h.from != "" || h.to != [] || h.subject != ""
  }

  /** The record built from the dispatcher's headers when the enron-style ones say nothing:
      the dispatcher's date, else the direct one. */
  function ForwardedRecord(env: Env, content: string, fileId: string, idx: nat, parent: string,
                           parsed: Option<string>): (r: Record)
    ensures r.id == GenerateId(env.md5Hex, content, fileId, Some(idx))
    ensures r.fileSource == NestedSource(fileId, idx)
    ensures r.subject == "" ==> parent == ""
  {
    var f := ForwardedHeaders(env, content);
    var date := if f.date != "" then ExtractDate(env, f.date) else if Truthy(parsed) then parsed else None;
    Record(GenerateId(env.md5Hex, content, fileId, Some(idx)), date, Or(f.subject, parent),
      env.emailAddress(f.from), f.to, f.cc, f.bcc, NestedBodyContent(env, f, content, fileId),
      NestedSource(fileId, idx))
  }

  /** The dispatcher's record is kept when it has a body over 10 characters, a sender or
      recipients. */
  predicate KeepForwarded(r: Record) {
    |r.bodyClean| > 10 || r.from != "" || r.to != []
  }

  /** The general path given the direct date reading, the repaired enron-style headers and
      the dispatcher's record. Reading `parsed_date` while it is unassigned raises, and the
      pseudo-message fallback answers. */
  function GeneralOutcome(env: Env, content: string, fileId: string, idx: nat, parent: string,
                          d: DirectRead, repaired: HeaderFields, fwd: Record): Option<Record>
  {
    match d.parsed
    case Unset => Some(Fallback(env, content, fileId, idx, parent))
    case Set(parsed) =>
      var h := Dated(repaired, d);
      if Meaningful(h) then
        var r := NestedDict(env, content, h, fileId, idx, parent);
        Some(if Truthy(parsed) && !Truthy(r.date) then r.(date := parsed) else r)
      else if KeepForwarded(fwd) then Some(fwd)
      else None
  }

  /** The `parsed_date` the dispatcher's record falls back to. */
  function DirectParsed(d: DirectRead): Option<string> {
    if d.parsed.Set? then d.parsed.date else None
  }

  /** `_extract_nested_email` after the fast path, given what the fast path left in
      `parsed_date`. */
  function GeneralPath(env: Env, content: string, fileId: string, idx: nat, parent: string,
                       prior: DateVar): (r: Option<Record>)
    ensures r.Some? ==> r.value.id == GenerateId(env.md5Hex, content, fileId, Some(idx))
    ensures r.Some? ==> r.value.fileSource == NestedSource(fileId, idx)
  {
    var d := DirectDate(env, content, prior);
    var fwd := ForwardedRecord(env, content, fileId, idx, parent, DirectParsed(d));
    GeneralOutcomeShape(env, content, fileId, idx, parent, d, Repaired(content), fwd);
    GeneralOutcome(env, content, fileId, idx, parent, d, Repaired(content), fwd)
  }

  /** `_extract_nested_email`: the fast path's record, the fallback when it raises, and
      otherwise the general path. */
  function ExtractNested(env: Env, content: string, fileId: string, idx: nat, parent: string)
    : (r: Option<Record>)
    ensures r.Some? ==> r.value.id == GenerateId(env.md5Hex, content, fileId, Some(idx))
    ensures r.Some? ==> r.value.fileSource == NestedSource(fileId, idx)
  {
    var lines := Lines(content);
    match StanzaOf(env, content, fileId, idx, parent, lines, StanzaLines(lines))
    case Accepted(rec) => Some(rec)
    case Unbound => Some(Fallback(env, content, fileId, idx, parent))
    case Rejected(date) => GeneralPath(env, content, fileId, idx, parent, Set(date))
    case NotStanza => GeneralPath(env, content, fileId, idx, parent, Unset)
  }

  /** The direct date search, step by step. */
  method ReadDirectDate(env: Env, content: string, prior: DateVar) returns (d: DirectRead)
    ensures d == DirectDate(env, content, prior)
  {
    d := DirectRead("", prior);
    var dateMatch := FindDate(content, Loose);
    if dateMatch.Some? {
      d := DirectRead(dateMatch.value, Set(None));
      var central := env.centralDate(dateMatch.value);
      if central.Some? {
        d := DirectRead(central.value.1, Set(Some(central.value.0)));
      }
    }
  }

  /** The enron-style extraction and the layout repair. */
  method RepairedHeaders(content: string) returns (h: HeaderFields)
    ensures h == Repaired(content)
  {
    h := ExtractEnronStyleHeaders(content);
    if Contains(content, "Please respond to <") && Contains(content, "To: \"") {
      h := HandlePleaseRespondFormat(content, h);
    }
  }

  /** The dispatcher's record, step by step. */
  method ForwardedStep(env: Env, content: string, fileId: string, idx: nat, parent: string,
                       parsed: Option<string>) returns (r: Record)
    ensures r == ForwardedRecord(env, content, fileId, idx, parent, parsed)
  {
    var f := ExtractForwardedHeaders(env, content);
    var body := GetNestedBodyContent(env, f, content, fileId);
    var date: Option<string> := None;
    if f.date != "" {
      date := ExtractDate(env, f.date);
    } else if Truthy(parsed) {
      date := parsed;
    }
    r := Record(GenerateId(env.md5Hex, content, fileId, Some(idx)), date, Or(f.subject, parent),
      env.emailAddress(f.from), f.to, f.cc, f.bcc, body, NestedSource(fileId, idx));
  }

  /** The general path once the direct date and the repaired headers are read. */
  method GeneralFrom(env: Env, content: string, fileId: string, idx: nat, parent: string,
                     d: DirectRead, repaired: HeaderFields) returns (r: Option<Record>)
    ensures r == GeneralOutcome(env, content, fileId, idx, parent, d, repaired,
      ForwardedRecord(env, content, fileId, idx, parent, DirectParsed(d)))
  {
    if d.parsed.Unset? {
      // reading the unassigned `parsed_date` raises; the fallback answers
      return Some(Fallback(env, content, fileId, idx, parent));
    }
    var h := repaired;
    if Truthy(d.parsed.date) && h.date == "" {
      h := h.(date := d.dateString);
    }
    if h.from != "" || h.to != [] || h.subject != "" {
      var rec := NestedDict(env, content, h, fileId, idx, parent);
      if Truthy(d.parsed.date) && !Truthy(rec.date) {
        rec := rec.(date := d.parsed.date);
      }
      return Some(rec);
    }
    var fwd := ForwardedStep(env, content, fileId, idx, parent, d.parsed.date);
    if |fwd.bodyClean| > 10 || fwd.from != "" || fwd.to != [] {
      return Some(fwd);
    }
    return None;
  }

  /** The general path, step by step. */
  method ExtractNestedGeneral(env: Env, content: string, fileId: string, idx: nat, parent: string,
                              prior: DateVar) returns (r: Option<Record>)
    ensures r == GeneralPath(env, content, fileId, idx, parent, prior)
  {
    var d := ReadDirectDate(env, content, prior);
    var h := RepairedHeaders(content);
    r := GeneralFrom(env, content, fileId, idx, parent, d, h);
  }

  /** `_extract_nested_email`, step by step. */
  method ExtractNestedEmail(env: Env, content: string, fileId: string, idx: nat, parent: string)
    returns (r: Option<Record>)
    ensures r == ExtractNested(env, content, fileId, idx, parent)
  {
    var lines := Lines(content);
    var infos := StanzaLines(lines);
    var st := StanzaPath(env, content, fileId, idx, parent, lines, infos);
    match st
    case Accepted(rec) =>
      r := Some(rec);
    case Unbound =>
      r := Some(Fallback(env, content, fileId, idx, parent));
    case Rejected(date) =>
      r := ExtractNestedGeneral(env, content, fileId, idx, parent, Set(date));
    case NotStanza =>
      r := ExtractNestedGeneral(env, content, fileId, idx, parent, Unset);
  }

  /** Whatever the general path returns carries the segment's id and source; it returns
      nothing exactly when `parsed_date` was assigned, the headers say nothing and the
      dispatcher's record is too thin; a record from meaningful headers keeps their sender
      and recipients and has a date whenever the direct reading gave one. */
  lemma GeneralOutcomeShape(env: Env, content: string, fileId: string, idx: nat, parent: string,
                            d: DirectRead, repaired: HeaderFields, fwd: Record)
    requires fwd.id == GenerateId(env.md5Hex, content, fileId, Some(idx))
    requires fwd.fileSource == NestedSource(fileId, idx)
    ensures var r := GeneralOutcome(env, content, fileId, idx, parent, d, repaired, fwd);
      && (r.Some? ==> r.value.id == GenerateId(env.md5Hex, content, fileId, Some(idx)))
      && (r.Some? ==> r.value.fileSource == NestedSource(fileId, idx))
      && (r.None? <==> d.parsed.Set? && !Meaningful(Dated(repaired, d)) && !KeepForwarded(fwd))
      && (d.parsed.Set? && Meaningful(repaired) ==>
            r.Some? && r.value.from == repaired.from && r.value.to == repaired.to && r.value.cc == repaired.cc
            && (Truthy(d.parsed.date) ==> Truthy(r.value.date)))
  {
    if d.parsed.Set? && Meaningful(repaired) {
      var h := Dated(repaired, d);
      assert h.from == repaired.from && h.to == repaired.to && h.cc == repaired.cc;
    }
  }

  // ---------------------------------------------------------------- one message

  /** The message's own record, identified by the file and sourced from it. */
  function TopRecord(env: Env, content: string, fileId: string): (r: Record)
    ensures r.id == GenerateId(env.md5Hex, content, fileId, None) && r.fileSource == fileId
  {
    var f := EmailFields(env, env.parseMessage(content));
    Record(GenerateId(env.md5Hex, content, fileId, None), f.date, f.subject, f.from, f.to, f.cc, f.bcc,
      f.bodyClean, fileId)
  }

  /** The message's fields. */
  function TopFields(env: Env, content: string): Fields {
    EmailFields(env, env.parseMessage(content))
  }

  /** The forwarded segments of the message's body. */
  function Segments(env: Env, content: string): seq<string> {
    var body := TopFields(env, content).body;
    OriginalEmails(env.families(body), body)
  }

  /** `_extract_nested_email` as a function of a segment and its index. */
  ghost function NestedOf(env: Env, fileId: string, subject: string): (string, nat) -> Option<Record> {
    (s: string, i: nat) => ExtractNested(env, s, fileId, i, subject)
  }

  /** `os` are what `nested` yields for the first `|os|` segments, in order. */
  ghost predicate NestedOutcomes(segs: seq<string>, nested: (string, nat) -> Option<Record>,
                                 os: seq<Option<Record>>) {
    && |os| <= |segs|
    && forall i {:trigger nested(segs[i], i)} :: 0 <= i < |os| ==> os[i] == nested(segs[i], i)
  }

  /** One more segment's outcome extends the outcomes. */
  lemma NestedOutcomesExtend(segs: seq<string>, nested: (string, nat) -> Option<Record>,
                             os: seq<Option<Record>>, next: Option<Record>)
    requires NestedOutcomes(segs, nested, os) && |os| < |segs|
    requires next == nested(segs[|os|], |os|)
    ensures NestedOutcomes(segs, nested, os + [next])
  {
    var os' := os + [next];
    forall i | 0 <= i < |os'|
      ensures os'[i] == nested(segs[i], i)
    {
      if i < |os| {
        assert os'[i] == os[i];
      }
    }
  }

  /** The outcomes of all segments are determined by the segments. */
  lemma NestedOutcomesUnique(segs: seq<string>, nested: (string, nat) -> Option<Record>,
                             os1: seq<Option<Record>>, os2: seq<Option<Record>>)
    requires NestedOutcomes(segs, nested, os1) && |os1| == |segs|
    requires NestedOutcomes(segs, nested, os2) && |os2| == |segs|
    ensures os1 == os2
  {
    forall i | 0 <= i < |segs| ensures os1[i] == os2[i] {
      assert os1[i] == nested(segs[i], i);
    }
  }

  /** Each outcome of `_extract_nested_email` that is a record is sourced from its segment's
      index. */
  lemma NestedOutcomesSourced(env: Env, segs: seq<string>, fileId: string, subject: string,
                              os: seq<Option<Record>>)
    requires NestedOutcomes(segs, NestedOf(env, fileId, subject), os)
    ensures forall i :: 0 <= i < |os| && os[i].Some? ==> os[i].value.fileSource == NestedSource(fileId, i)
  {
    forall i | 0 <= i < |os| && os[i].Some?
      ensures os[i].value.fileSource == NestedSource(fileId, i)
    {
      assert os[i] == NestedOf(env, fileId, subject)(segs[i], i);
    }
  }

  /** The records among the first `n` outcomes, in order. */
  function Present(os: seq<Option<Record>>, n: nat): seq<Record>
    requires n <= |os|
  {
    if n == 0 then []
    else Present(os, n - 1) + (if os[n - 1].Some? then [os[n - 1].value] else [])
  }

  /** The positions of those records. */
  function PresentIndices(os: seq<Option<Record>>, n: nat): seq<nat>
    requires n <= |os|
  {
    if n == 0 then []
    else PresentIndices(os, n - 1) + (if os[n - 1].Some? then [n - 1] else [])
  }

  /** Later outcomes do not change the records kept from earlier ones. */
  lemma {:induction false} PresentStable(os: seq<Option<Record>>, more: seq<Option<Record>>, n: nat)
    requires n <= |os|
    ensures Present(os + more, n) == Present(os, n)
  {
    if n > 0 {
      PresentStable(os, more, n - 1);
      assert (os + more)[n - 1] == os[n - 1];
    }
  }

  /** The kept records are exactly the present outcomes, in increasing position. */
  lemma {:induction false} PresentIndexed(os: seq<Option<Record>>, n: nat)
    requires n <= |os|
    ensures var rs := Present(os, n); var ix := PresentIndices(os, n);
      && |rs| == |ix|
      && (forall k :: 0 <= k < |ix| ==> ix[k] < n && os[ix[k]] == Some(rs[k]))
      && (forall k, l :: 0 <= k < l < |ix| ==> ix[k] < ix[l])
      && (forall i :: 0 <= i < n && os[i].Some? ==> i in ix)
  {
    if n > 0 {
      PresentIndexed(os, n - 1);
    }
  }

  /** One iteration of the loop of `_parse_email_content`: segment `idx` is extracted
      and its record, if any, is kept. */
  method NestedStep(env: Env, segs: seq<string>, fileId: string, subject: string,
                    idx: nat, kept: seq<Record>, ghost outcomes: seq<Option<Record>>)
    returns (kept': seq<Record>, ghost outcomes': seq<Option<Record>>)
    requires idx == |outcomes| < |segs| && NestedOutcomes(segs, NestedOf(env, fileId, subject), outcomes)
    requires kept == Present(outcomes, |outcomes|)
    ensures |outcomes'| == |outcomes| + 1 && NestedOutcomes(segs, NestedOf(env, fileId, subject), outcomes')
    ensures kept' == Present(outcomes', |outcomes'|)
  {
    var nested := ExtractNestedEmail(env, segs[idx], fileId, idx, subject);
    NestedOutcomesExtend(segs, NestedOf(env, fileId, subject), outcomes, nested);
    PresentStable(outcomes, [nested], idx);
    outcomes' := outcomes + [nested];
    kept' := if nested.Some? then kept + [nested.value] else kept;
  }

  /** The loop of `_parse_email_content` over the segments: the record of each segment that
      yields one, in segment order. */
  method NestedRecords(env: Env, segs: seq<string>, fileId: string, subject: string)
    returns (kept: seq<Record>, ghost outcomes: seq<Option<Record>>)
    ensures |outcomes| == |segs| && NestedOutcomes(segs, NestedOf(env, fileId, subject), outcomes)
    ensures kept == Present(outcomes, |outcomes|)
  {
    kept := [];
    outcomes := [];
    for idx := 0 to |segs|
      invariant |outcomes| == idx
      invariant NestedOutcomes(segs, NestedOf(env, fileId, subject), outcomes)
      invariant kept == Present(outcomes, idx)
    {
      kept, outcomes := NestedStep(env, segs, fileId, subject, idx, kept, outcomes);
    }
  }

  /** `_parse_email_content`: the message's record first, then the record of each segment
      that yields one, in segment order. */
  method ParseEmailContent(env: Env, content: string, fileId: string)
    returns (records: seq<Record>, ghost outcomes: seq<Option<Record>>)
    ensures |outcomes| == |Segments(env, content)|
    ensures NestedOutcomes(Segments(env, content), NestedOf(env, fileId, TopFields(env, content).subject), outcomes)
    ensures records == [TopRecord(env, content, fileId)] + Present(outcomes, |outcomes|)
  {
    var fields := EmailFields(env, env.parseMessage(content));
    var segs := ExtractOriginalEmail(env, fields.body);
    var kept;
    kept, outcomes := NestedRecords(env, segs, fileId, fields.subject);
    records := [TopRecord(env, content, fileId)] + kept;
  }

  // ---------------------------------------------------------------- thread id

  /** The key `_generate_thread_id` hashes for an output row, as the parser builds it:
      the cleaned subject, '|', and the sorted distinct non-empty participants joined
      by '|'. */
  function ParserThreadKey(r: Record): string {
    CleanSubject(r.subject) + "|" + Join(SortedDistinct(NonEmptyOnly([r.from] + r.to)), "|")
  }

  /** `_generate_thread_id` on an output row. */
  function ParserThreadId(env: Env, r: Record): string {
    env.uuid5Dns(ParserThreadKey(r))
  }

  /** The parser's thread id is the record's. `_generate_thread_id` in the parser
      (email_parser/parser.py:639-661) and `generate_thread_id` on the record
      (email_parser/models.py:66-82) are the same computation, written twice: the key
      text the parser builds from a row is the record's thread key, so both hash the
      same string. */
  lemma ThreadIdsAgree(env: Env, r: Record, e: EmailData)
    requires e.subject == r.subject && e.fromAddr == r.from && e.to == r.to
    ensures ParserThreadKey(r) == ThreadKey(e.subject, e.fromAddr, e.to)
    ensures ParserThreadId(env, r) == GenerateThreadId(env, e)
  {
  }

  /** Rows with the same subject and sender whose recipients are the same set of
      addresses, in any order and with repeats, share a thread. */
  lemma ThreadIdIgnoresOrder(env: Env, r1: Record, r2: Record)
    requires r1.subject == r2.subject && r1.from == r2.from
    requires forall y :: y in r1.to <==> y in r2.to
    ensures ParserThreadId(env, r1) == ParserThreadId(env, r2)
  {
    ThreadKeyIgnoresOrder(r1.subject, r1.from, r1.to, r2.to);
    assert ParserThreadKey(r1) == ThreadKey(r1.subject, r1.from, r1.to);
    assert ParserThreadKey(r2) == ThreadKey(r2.subject, r2.from, r2.to);
  }
}

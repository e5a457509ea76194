/** Header extraction from forwarded message text (email_parser/extractors/headers.py):
    the Enron-style line scanner, the name / date stanza scanner, and the dispatcher
    with its generic labelled-header fallback. */
module Headers {
  import opened Text
  import opened Patterns
  import opened Helpers
  import opened Collaborators

  /** The header dict every extractor returns. */
  datatype HeaderFields = HeaderFields(
    from: string, to: seq<string>, cc: seq<string>, bcc: seq<string>,
    subject: string, date: string, bodyClean: string)

  const EmptyHeaders := HeaderFields("", [], [], [], "", "", "")

  /** No entry has an upper-case letter. */
  predicate AllLower(xs: seq<string>) {
    forall k :: 0 <= k < |xs| ==> IsLower(xs[k])
  }

  lemma PrefixTrans<T>(a: seq<T>, b: seq<T>, c: seq<T>)
    requires a <= b && b <= c
    ensures a <= c
  {
    assert forall k :: 0 <= k < |a| ==> a[k] == b[k] == c[k];
  }

  /** `line.lower().strip()`. */
  function LowStrip(line: string): string {
    Strip(Lower(line))
  }

  /** The loop `for m in tokens: if m not in lst: lst.append(m.lower())`. The test is on
      the token as written, the entry appended is lowercased. */
  function AppendNewLower(list: seq<string>, tokens: seq<string>): (r: seq<string>)
    decreases |tokens|
    ensures list <= r
    ensures AllLower(list) ==> AllLower(r)
  {
    if |tokens| == 0 then list
    else
      LowerIsLower(tokens[0]);
      AppendNewLower(if tokens[0] in list then list else list + [Lower(tokens[0])], tokens[1..])
  }

  // ================================================================ extract_enron_style_headers

  /** The line, lowercased and trimmed, starts with "please respond to". */
  predicate StartsRespond(line: string) {
    StartsWith(LowStrip(line), "please respond to")
  }

  /** Some line is a "please respond to" line. */
  predicate HasRespondLine(lines: seq<string>) {
    exists i :: 0 <= i < |lines| && StartsRespond(lines[i])
  }

  /** The first pass: does the message use the "Please respond to" layout? The loop
      over the lines is `AnyMatch`, run with the line test. */
  method DetectPleaseRespond(lines: seq<string>) returns (respond: bool)
    ensures respond <==> HasRespondLine(lines)
  {
    respond := AnyMatch(lines, StartsRespond);
  }

  /** What the second pass reads off one line, independently of the scan's state:
      which of the first three branches the line takes, the captures each branch would
      use, and what the line would add as a To:/cc: line or as a continuation line. */
  datatype LineInfo = LineInfo(
    head: HeadKind,
    /** The sender a "Sent by" line sets, if its capture matches. */
    sentBy: Option<string>,
    /** The sender and date a sender line sets (None: left as it was). */
    senderFrom: Option<string>, senderDate: Option<string>,
    /** The sender a "Please respond to" line sets. */
    respondFrom: Option<string>,
    /** Whether the line may be an internal sender line, and what it would set. */
    internal: bool, internalFrom: Option<string>, internalDate: Option<string>,
    field: FieldKind,
    /** What the line adds as a To: or cc: line. */
    fieldAdds: Additions,
    /** The subject a Subject: line sets. */
    subject: string,
    /** Non-blank and not starting with subject:, bcc: or from:. */
    canContinue: bool,
    /** What the line adds as a continuation line. */
    continues: Additions,
    /** `not line.strip()`. */
    blank: bool,
    /** The lowercased, trimmed line starts with "subject:". */
    subjectLine: bool,
    /** The line ends the headers in the best-effort body pass. */
    endsHeaders: bool,
    /** What the line does in the recovery pass. */
    recover: RecoverKind,
    /** The lowercased `<...@...>` tokens the final sweep takes from the line. */
    sweep: seq<string>)

  datatype HeadKind = SentByHead | SenderHead | RespondHead | RestHead

  datatype FieldKind = ToField | CcField | SubjectField | NoField

  /** An addition to a recipient list: the new `<...>` tokens, lowercased, or a list
      appended as it stands. */
  datatype Additions = NewTokens(tokens: seq<string>) | Appended(entries: seq<string>)

  function Add(list: seq<string>, a: Additions): (r: seq<string>)
    ensures list <= r
    ensures AllLower(list) && (a.Appended? ==> AllLower(a.entries)) ==> AllLower(r)
  {
    match a
    case NewTokens(t) => AppendNewLower(list, t)
    case Appended(e) => list + e
  }

  /** Additions that keep a list lower-case. */
  predicate LowerAdditions(a: Additions) {
    a.Appended? ==> AllLower(a.entries)
  }

  /** The sender a "Sent by: " capture names: kept when it holds an '@', otherwise
      synthesised as an internal address. */
  function SentByValue(v: string): (r: string)
    ensures '@' in r
  {
    var t := Strip(v);
    if '@' in t then t else EnronAddress(t)
  }

  /** The sender line's sender: the first `<...>` token, lowercased, when the line has
      both angle brackets, otherwise the forwarder's name as an internal address. */
  function SenderFrom(line: string): Option<string> {
    if '<' in line && '>' in line then
      match FirstBracket(line)
      case Some(t) => Some(Lower(t))
      case None => None
    else
      match ForwardedByCapture(line)
      case Some(f) => Some(EnronAddress(Strip(f)))
      case None => None
  }

  /** What a To:/cc: field text adds: in the "Please respond to" layout, a text with a
      quote and angle brackets contributes its new `<...>` tokens; otherwise
      `process_recipients` runs on it. */
  function FieldAdditions(respond: bool, text: string): (a: Additions)
    ensures LowerAdditions(a)
  {
    if respond && '"' in text && '<' in text && '>' in text then NewTokens(BracketTokens(text))
    else
      RecipientsAreAddresses(text);
      Appended(Recipients(text))
  }

  /** What a continuation line adds: nothing for a separator line starting with '-',
      the new `<...>` tokens in the "Please respond to" layout, and otherwise what
      `process_recipients` finds in the trimmed line. */
  function ContinuationAdditions(respond: bool, line: string): (a: Additions)
    ensures LowerAdditions(a)
  {
    if StartsWith(Strip(line), "-") then Appended([])
    else if respond && '<' in line && '>' in line then NewTokens(BracketTokens(line))
    else
      RecipientsAreAddresses(Strip(line));
      Appended(Recipients(Strip(line)))
  }

  /** The reading of line `i`. */
  function Classify(lines: seq<string>, respond: bool, i: nat): (info: LineInfo)
    requires i < |lines| && '\n' !in lines[i]
    ensures LineWellFormed(info)
  {
    var line := lines[i];
    SubjectLineNotBlank(line);
    var low := LowStrip(line);
    LineInfo(
      HeadOf(line),
      SentByOf(line),
      SenderFrom(line),
      OnDate(line),
      match FirstBracket(line) case Some(t) => Some(Lower(t)) case None => None,
      Contains(line, "@ENRON") && !StartsWithAny(low, ["to:", "cc:", "subject:"]),
      InternalFrom(line),
      if i + 1 < |lines| && IsDateShaped(Strip(lines[i + 1]), Banner) then Some(Strip(lines[i + 1])) else None,
      FieldOf(low),
      FieldAdditions(respond, Strip(SliceFrom(line, 3))),
      Strip(SliceFrom(line, 8)),
      !IsBlank(line) && !StartsWithAny(low, ["subject:", "bcc:", "from:"]),
      ContinuationAdditions(respond, line),
      IsBlank(line),
      IsSubjectLine(line),
      EndsHeaders(line),
      RecoverKindOf(line),
      SweepTokens(line))
  }

  /** Which of the first three branches a line takes, if any. */
  function HeadOf(line: string): HeadKind {
    var low := LowStrip(line);
    if Contains(low, "sent by:") then SentByHead
    else if ('<' in line && '>' in line && Contains(line, " on "))
      || (Contains(low, "forwarded by") && Contains(low, " on "))
    then SenderHead
    else if StartsWith(low, "please respond to") && '<' in line && '>' in line then RespondHead
    else RestHead
  }

  /** The header a lowercased, trimmed line starts. */
  function FieldOf(low: string): FieldKind {
    if StartsWith(low, "to:") then ToField
    else if StartsWith(low, "cc:") then CcField
    else if StartsWith(low, "subject:") then SubjectField
    else NoField
  }

  /** The sender a "Sent by" line sets. */
  function SentByOf(line: string): (r: Option<string>)
    requires '\n' !in line
    ensures r.Some? ==> '@' in r.value
  {
    match SentByCapture(line)
    case Some(v) => Some(SentByValue(v))
    case None => None
  }

  /** The sender an internal sender line sets: the trimmed text before the first '@',
      as an internal address, unless it is empty. */
  function InternalFrom(line: string): Option<string> {
    var possible := Strip(Split(line, '@')[0]);
    if possible != "" then Some(EnronAddress(possible)) else None
  }

  /** The readings of all lines. */
  function Infos(lines: seq<string>, respond: bool): (infos: seq<LineInfo>)
    requires forall k :: 0 <= k < |lines| ==> '\n' !in lines[k]
    ensures |infos| == |lines|
    ensures forall k :: 0 <= k < |lines| ==> infos[k] == Classify(lines, respond, k)
    ensures WellFormed(infos)
  {
    seq(|lines|, k requires 0 <= k < |lines| => Classify(lines, respond, k))
  }

  /** What every reading satisfies: its additions keep lists lower-case, a Subject:
      line is not blank, and the sweep tokens hold an '@' and no upper-case letter. */
  predicate LineWellFormed(info: LineInfo) {
    && LowerAdditions(info.fieldAdds) && LowerAdditions(info.continues)
    && (info.subjectLine ==> !info.blank)
    && (info.sentBy.Some? ==> '@' in info.sentBy.value)
    && (forall k :: 0 <= k < |info.sweep| ==> '@' in info.sweep[k] && IsLower(info.sweep[k]))
  }

  predicate WellFormed(infos: seq<LineInfo>) {
    forall k :: 0 <= k < |infos| ==> LineWellFormed(infos[k])
  }

  /** The scanner's state: the headers so far, whether a To: or cc: field is being
      continued, and the "Sent by" sender seen last. */
  datatype Scan = Scan(h: HeaderFields, inTo: bool, inCc: bool, sentBy: Option<string>)

  const StartScan := Scan(EmptyHeaders, false, false, None)

  /** Which branch of the second pass's if/elif chain a line takes. */
  datatype LineKind =
    | SentByLine | SenderLine | RespondLine | InternalSender
    | ToLine | CcLine | Continuation | SubjectLine | OtherLine

  /** The branch line `i` takes in state `s`: the internal-sender test needs one of the
      first five lines and no sender yet, the continuation test an open To:/cc: field. */
  function KindOf(info: LineInfo, i: nat, s: Scan): LineKind {
    match info.head
    case SentByHead => SentByLine
    case SenderHead => SenderLine
    case RespondHead => RespondLine
    case RestHead =>
      if i < 5 && info.internal && s.h.from == "" then InternalSender
      else if info.field == ToField then ToLine
      else if info.field == CcField then CcLine
      else if (s.inTo || s.inCc) && info.canContinue then Continuation
      else if info.field == SubjectField then SubjectLine
      else OtherLine
  }

  /** One iteration of the second pass. Recipient lists only grow and stay lower-case,
      and `bcc` is never touched. */
  function ScanLine(info: LineInfo, i: nat, s: Scan): (r: Scan)
    ensures s.h.to <= r.h.to && s.h.cc <= r.h.cc && r.h.bcc == s.h.bcc
  {
    match KindOf(info, i, s)
    case SentByLine => if info.sentBy.Some? then s.(sentBy := info.sentBy) else s
    case SenderLine =>
      s.(h := s.h.(
        from := if info.senderFrom.Some? then info.senderFrom.value else s.h.from,
        date := if info.senderDate.Some? then info.senderDate.value else s.h.date))
    case RespondLine =>
      if info.respondFrom.Some? then s.(h := s.h.(from := info.respondFrom.value)) else s
    case InternalSender =>
      s.(h := s.h.(
        from := if info.internalFrom.Some? then info.internalFrom.value else s.h.from,
        date := if info.internalDate.Some? then info.internalDate.value else s.h.date))
    case ToLine => Scan(s.h.(to := Add(s.h.to, info.fieldAdds)), true, false, s.sentBy)
    case CcLine => Scan(s.h.(cc := Add(s.h.cc, info.fieldAdds)), false, true, s.sentBy)
    case Continuation =>
      if s.inTo then s.(h := s.h.(to := Add(s.h.to, info.continues)))
      else s.(h := s.h.(cc := Add(s.h.cc, info.continues)))
    case SubjectLine => Scan(s.h.(subject := info.subject), false, false, s.sentBy)
    case OtherLine => s
  }

  /** A step keeps the recipient lists lower-case. */
  lemma StepKeepsLower(info: LineInfo, i: nat, s: Scan)
    requires AllLower(s.h.to) && AllLower(s.h.cc)
    requires LowerAdditions(info.fieldAdds) && LowerAdditions(info.continues)
    ensures AllLower(ScanLine(info, i, s).h.to) && AllLower(ScanLine(info, i, s).h.cc)
  {
  }

  /** The state after the second pass has read the first `n` lines. */
  function ScanPrefix(infos: seq<LineInfo>, n: nat): Scan
    requires n <= |infos|
  {
    if n == 0 then StartScan else ScanLine(infos[n - 1], n - 1, ScanPrefix(infos, n - 1))
  }

  /** The branch line `i` takes in the state the scan reaches it in. */
  function KindAt(infos: seq<LineInfo>, i: nat): LineKind
    requires i < |infos|
  {
    KindOf(infos[i], i, ScanPrefix(infos, i))
  }

  /** The second pass. */
  method ScanLines(infos: seq<LineInfo>) returns (s: Scan)
    ensures s == ScanPrefix(infos, |infos|)
  {
    s := StartScan;
    var i := 0;
    while i < |infos|
      invariant 0 <= i <= |infos|
      invariant s == ScanPrefix(infos, i)
    {
      s := ScanLine(infos[i], i, s);
      i := i + 1;
    }
  }

  /** Throughout the scan `bcc` stays empty. */
  lemma {:induction false} ScanBccEmpty(infos: seq<LineInfo>, n: nat)
    requires n <= |infos|
    ensures ScanPrefix(infos, n).h.bcc == []
  {
    if n > 0 {
      ScanBccEmpty(infos, n - 1);
    }
  }

  /** Throughout the scan every recipient is lower-case. */
  lemma {:induction false} ScanKeepsLower(infos: seq<LineInfo>, n: nat)
    requires n <= |infos| && WellFormed(infos)
    ensures AllLower(ScanPrefix(infos, n).h.to) && AllLower(ScanPrefix(infos, n).h.cc)
  {
    if n > 0 {
      ScanKeepsLower(infos, n - 1);
      StepKeepsLower(infos[n - 1], n - 1, ScanPrefix(infos, n - 1));
    }
  }

  /** Recipient lists only grow: the lists after `m` lines are prefixes of those after
      any later point. */
  lemma {:induction false} ScanOnlyAppends(infos: seq<LineInfo>, m: nat, n: nat)
    requires m <= n <= |infos|
    ensures ScanPrefix(infos, m).h.to <= ScanPrefix(infos, n).h.to
    ensures ScanPrefix(infos, m).h.cc <= ScanPrefix(infos, n).h.cc
  {
    if m < n {
      ScanOnlyAppends(infos, m, n - 1);
      PrefixTrans(ScanPrefix(infos, m).h.to, ScanPrefix(infos, n - 1).h.to, ScanPrefix(infos, n).h.to);
      PrefixTrans(ScanPrefix(infos, m).h.cc, ScanPrefix(infos, n - 1).h.cc, ScanPrefix(infos, n).h.cc);
    }
  }

  // ---------------------------------------------------------------- the "Sent by" sender

  /** The sender of the last line among the first `n` that sets one: a line whose
      lowercased text holds "sent by:" and whose "Sent by: " capture matches. */
  function LastSentBy(infos: seq<LineInfo>, n: nat): Option<string>
    requires n <= |infos|
  {
    if n == 0 then None
    else if infos[n - 1].head == SentByHead && infos[n - 1].sentBy.Some? then infos[n - 1].sentBy
    else LastSentBy(infos, n - 1)
  }

  lemma StepSentBy(info: LineInfo, i: nat, s: Scan)
    ensures ScanLine(info, i, s).sentBy
      == if info.head == SentByHead && info.sentBy.Some? then info.sentBy else s.sentBy
  {
  }

  /** The scan's "Sent by" sender is that of the last line setting one. */
  lemma {:induction false} ScanSentBy(infos: seq<LineInfo>, n: nat)
    requires n <= |infos|
    ensures ScanPrefix(infos, n).sentBy == LastSentBy(infos, n)
  {
    if n > 0 {
      ScanSentBy(infos, n - 1);
      StepSentBy(infos[n - 1], n - 1, ScanPrefix(infos, n - 1));
    }
  }

  // ---------------------------------------------------------------- field continuation

  /** The kind of the last To:, cc: or Subject: line among the first `n`. */
  function LastField(infos: seq<LineInfo>, n: nat): Option<LineKind>
    requires n <= |infos|
  {
    if n == 0 then None
    else
      var kind := KindAt(infos, n - 1);
      if kind == ToLine || kind == CcLine || kind == SubjectLine then Some(kind)
      else LastField(infos, n - 1)
  }

  /** A To: field is being continued exactly when the last field line was a To: line,
      and a cc: field exactly when it was a cc: line; a Subject: line ends both. */
  lemma {:induction false} ScanTracksField(infos: seq<LineInfo>, n: nat)
    requires n <= |infos|
    ensures ScanPrefix(infos, n).inTo <==> LastField(infos, n) == Some(ToLine)
    ensures ScanPrefix(infos, n).inCc <==> LastField(infos, n) == Some(CcLine)
  {
    if n > 0 {
      ScanTracksField(infos, n - 1);
    }
  }

  /** A continuation line adds its recipients to the field of the last To:/cc: line
      and leaves the other field alone. */
  lemma ContinuationJoinsField(infos: seq<LineInfo>, i: nat)
    requires i < |infos|
    requires KindAt(infos, i) == Continuation
    ensures var before, after := ScanPrefix(infos, i), ScanPrefix(infos, i + 1);
      if LastField(infos, i) == Some(ToLine) then
        after.h.to == Add(before.h.to, infos[i].continues) && after.h.cc == before.h.cc
      else
        LastField(infos, i) == Some(CcLine)
        && after.h.cc == Add(before.h.cc, infos[i].continues) && after.h.to == before.h.to
  {
    ScanTracksField(infos, i);
  }

  // ---------------------------------------------------------------- per-line tests

  /** `line.lower().strip().startswith('subject:')`. */
  predicate IsSubjectLine(line: string) {
    StartsWith(LowStrip(line), "subject:")
  }

  lemma SubjectLineNotBlank(line: string)
    ensures IsSubjectLine(line) ==> !IsBlank(line)
  {
    if IsBlank(line) {
      BlankLower(line);
    }
  }

  /** The prefixes of a header-looking line. */
  const HeaderStarts: seq<string> :=
    ["subject:", "to:", "cc:", "bcc:", "from:", "sent by:", "date:", "please respond to"]

  /** A lowercased, trimmed line that looks like a header: a header prefix, a
      "forwarded by" banner, or a short line with an internal address. */
  predicate HeaderLooking(low: string) {
    StartsWithAny(low, HeaderStarts) || Contains(low, "forwarded by") || (Contains(low, "@enron") && |low| < 40)
  }

  /** The line that ends the headers in the best-effort pass: not header-looking, and
      blank or an all-capitals label. */
  predicate EndsHeaders(line: string) {
    !HeaderLooking(LowStrip(line)) && (IsBlank(line) || IsCapsLabel(Strip(line)))
  }

  /** What a line does in the recovery pass. */
  datatype RecoverKind =
    | RecoverTo(tokens: seq<string>)
    | RecoverCc(tokens: seq<string>)
    | RecoverSubject(text: string)
    | RecoverNone

  /** The recovery pass's reading of a line: a line mentioning "to:" (or starting "to ")
      with angle brackets gives its `<...>` tokens to `to`, likewise for cc, and a line
      holding "subject:" offers the text after it as the subject. The subject is cut
      from the unstripped line at the index found in the stripped, lowercased one. */
  function RecoverKindOf(line: string): RecoverKind {
    var low := Lower(Strip(line));
    if (Contains(low, "to:") || StartsWith(low, "to ")) && '<' in line && '>' in line then
      RecoverTo(BracketTokens(line))
    else if (Contains(low, "cc:") || StartsWith(low, "cc ")) && '<' in line && '>' in line then
      RecoverCc(BracketTokens(line))
    else if Contains(low, "subject:") then
      RecoverSubject(Strip(SliceFrom(line, Find(low, "subject:") + 8)))
    else RecoverNone
  }

  /** The `<...@...>` tokens of a line, lowercased, when the line holds '<', '>' and '@'. */
  function SweepTokens(line: string): (r: seq<string>)
    ensures forall k :: 0 <= k < |r| ==> '@' in r[k] && IsLower(r[k])
  {
    if '<' in line && '>' in line && '@' in line then
      var t := AtTokens(line);
      forall k | 0 <= k < |t| ensures '@' in Lower(t[k]) && IsLower(Lower(t[k])) {
        InnerAtHasAt(t[k]);
        LowerKeeps(t[k], '@');
        LowerIsLower(t[k]);
      }
      LowerAll(t)
    else []
  }

  // ---------------------------------------------------------------- where the body starts

  predicate Blank(info: LineInfo) { info.blank }

  predicate NotBlank(info: LineInfo) { !info.blank }

  predicate Subject(info: LineInfo) { info.subjectLine }

  /** The search from the Subject: line `i`: the first non-blank line after the first
      blank line after it. */
  function AfterSubject(infos: seq<LineInfo>, i: nat): (r: Option<nat>)
    ensures r.Some? ==> i + 1 < r.value < |infos| && !infos[r.value].blank
  {
    match First(infos, i + 1, Blank)
    case Some(j) => First(infos, j + 1, NotBlank)
    case None => None
  }

  /** Where the body starts: the search from the first Subject: line. */
  function BodyStart(infos: seq<LineInfo>): (r: Option<nat>)
    ensures r.Some? ==> 1 < r.value < |infos| && !infos[r.value].blank
  {
    match First(infos, 0, Subject)
    case Some(i) => AfterSubject(infos, i)
    case None => None
  }

  /** When the search from a Subject: line fails, so does the search from any later
      Subject: line: everything after the blank line it reached is blank. */
  lemma LaterSubjectFails(infos: seq<LineInfo>, f: nat, i: nat)
    requires WellFormed(infos)
    requires f < i < |infos| && infos[i].subjectLine
    requires AfterSubject(infos, f).None?
    ensures AfterSubject(infos, i).None?
  {
    assert !infos[i].blank;
    match First(infos, f + 1, Blank)
    case None =>
      assert First(infos, i + 1, Blank).None?;
    case Some(j) =>
      assert i < j;
      FirstIs(infos, i + 1, Blank, j);
  }

  /** The two inner loops of the body-start search, from the Subject: line `i`. */
  method SearchAfterSubject(infos: seq<LineInfo>, i: nat) returns (start: Option<nat>)
    requires i < |infos|
    ensures start == AfterSubject(infos, i)
  {
    start := None;
    var j := i + 1;
    while j < |infos|
      invariant i + 1 <= j <= |infos|
      invariant start.None?
      invariant forall b :: i + 1 <= b < j && infos[b].blank ==> First(infos, b + 1, NotBlank).None?
    {
      if infos[j].blank {
        var k := j + 1;
        while k < |infos|
          invariant j + 1 <= k <= |infos|
          invariant start.None?
          invariant forall m :: j + 1 <= m < k ==> infos[m].blank
        {
          if !infos[k].blank {
            FirstIs(infos, j + 1, NotBlank, k);
            start := Some(k);
            break;
          }
          k := k + 1;
        }
        if start.Some? {
          NoEarlierBlank(infos, i, j, start.value);
          FirstIs(infos, i + 1, Blank, j);
          break;
        }
      }
      j := j + 1;
    }
  }

  /** A blank line before `j` would have found the non-blank line `k` already. */
  lemma NoEarlierBlank(infos: seq<LineInfo>, i: nat, j: nat, k: nat)
    requires i + 1 <= j < k < |infos| && !infos[k].blank
    requires forall b :: i + 1 <= b < j && infos[b].blank ==> First(infos, b + 1, NotBlank).None?
    ensures forall b :: i + 1 <= b < j ==> !infos[b].blank
  {
  }

  /** The body-start search (headers.py): for each Subject: line, the first non-blank
      line after a blank line after it; the first success wins. */
  method FindBodyStart(infos: seq<LineInfo>) returns (start: Option<nat>)
    requires WellFormed(infos)
    ensures start == BodyStart(infos)
  {
    start := None;
    var i := 0;
    while i < |infos|
      invariant 0 <= i <= |infos|
      invariant start.None?
      invariant forall f :: 0 <= f < i && infos[f].subjectLine ==> AfterSubject(infos, f).None?
    {
      if infos[i].subjectLine {
        start := SearchAfterSubject(infos, i);
        if start.Some? {
          var f := First(infos, 0, Subject).value;
          if f < i {
            LaterSubjectFails(infos, f, i);
          }
          break;
        }
      }
      i := i + 1;
    }
  }

  // ---------------------------------------------------------------- best-effort body

  predicate EndsHead(info: LineInfo) { info.endsHeaders }

  /** The best-effort body: the trimmed text after the line that ends the headers. */
  function BestEffortBody(lines: seq<string>, infos: seq<LineInfo>): string
    requires |infos| == |lines|
  {
    match First(infos, 0, EndsHead)
    case Some(m) => Strip(Join(lines[m + 1..], "\n"))
    case None => ""
  }

  /** The best-effort pass: skip header-looking lines until a line ends the headers,
      then collect every line after it. */
  method BestEffort(lines: seq<string>, infos: seq<LineInfo>) returns (body: string)
    requires |infos| == |lines|
    ensures body == BestEffortBody(lines, infos)
  {
    ghost var m := First(infos, 0, EndsHead);
    var collected: seq<string> := [];
    var past := false;
    var i := 0;
    while i < |lines|
      invariant 0 <= i <= |lines|
      invariant past <==> m.Some? && m.value < i
      invariant past ==> collected == lines[m.value + 1..i]
      invariant !past ==> collected == []
    {
      if !past {
        if infos[i].endsHeaders {
          past := true;
        }
      } else {
        collected := collected + [lines[i]];
      }
      i := i + 1;
    }
    if |collected| > 0 {
      body := Strip(Join(collected, "\n"));
    } else {
      body := "";
    }
    if past {
      BestEffortCollected(lines, infos, collected);
    }
  }

  /** The lines collected after the header-ending line give the best-effort body; an
      empty collection gives the empty body. */
  lemma BestEffortCollected(lines: seq<string>, infos: seq<LineInfo>, collected: seq<string>)
    requires |infos| == |lines|
    requires First(infos, 0, EndsHead).Some?
    requires collected == lines[First(infos, 0, EndsHead).value + 1..]
    ensures BestEffortBody(lines, infos) == if |collected| > 0 then Strip(Join(collected, "\n")) else ""
  {
    if |collected| == 0 {
      assert Join(collected, "\n") == "";
      assert Strip("") == "";
    }
  }

  // ---------------------------------------------------------------- recovery passes

  /** One line of the recovery pass that runs when no To: recipient was found. The
      subject is taken only while none is set. */
  function RecoverLine(info: LineInfo, h: HeaderFields): HeaderFields {
    match info.recover
    case RecoverTo(t) => h.(to := AppendNewLower(h.to, t))
    case RecoverCc(t) => h.(cc := AppendNewLower(h.cc, t))
    case RecoverSubject(text) => if h.subject == "" then h.(subject := text) else h
    case RecoverNone => h
  }

  /** `r` only appends to the recipient lists of `h`, keeps its sender, date, bcc and
      body, and keeps its subject once one is set. */
  predicate OnlyAppends(h: HeaderFields, r: HeaderFields) {
    && h.to <= r.to && h.cc <= r.cc
    && r.from == h.from && r.bcc == h.bcc && r.date == h.date && r.bodyClean == h.bodyClean
    && (h.subject != "" ==> r.subject == h.subject)
  }

  lemma OnlyAppendsTrans(a: HeaderFields, b: HeaderFields, c: HeaderFields)
    requires OnlyAppends(a, b) && OnlyAppends(b, c)
    ensures OnlyAppends(a, c)
  {
    PrefixTrans(a.to, b.to, c.to);
    PrefixTrans(a.cc, b.cc, c.cc);
  }

  /** One recovery line only appends recipients, keeps the sender, date, bcc and body,
      and never replaces a subject. */
  lemma RecoverLineKeeps(info: LineInfo, h: HeaderFields)
    ensures OnlyAppends(h, RecoverLine(info, h))
  {
  }

  /** The recovery pass over the first `n` lines. */
  function RecoverPrefix(infos: seq<LineInfo>, h: HeaderFields, n: nat): HeaderFields
    requires n <= |infos|
  {
    FoldPrefix(infos, RecoverLine, h, n)
  }

  /** The recovery loop, line by line (`Fold` with `RecoverLine`). */
  method Recover(infos: seq<LineInfo>, h0: HeaderFields) returns (h: HeaderFields)
    ensures h == RecoverPrefix(infos, h0, |infos|)
  {
    h := Fold(infos, RecoverLine, h0);
  }

  /** The recovery pass only adds recipients, keeps the sender, date, bcc and body, and
      never replaces a subject. */
  lemma {:induction false} RecoverKeeps(infos: seq<LineInfo>, h: HeaderFields, n: nat)
    requires n <= |infos|
    ensures OnlyAppends(h, RecoverPrefix(infos, h, n))
  {
    if n > 0 {
      RecoverKeeps(infos, h, n - 1);
      var m := RecoverPrefix(infos, h, n - 1);
      RecoverLineKeeps(infos[n - 1], m);
      OnlyAppendsTrans(h, m, RecoverPrefix(infos, h, n));
    }
  }

  lemma RecoverLineLower(info: LineInfo, h: HeaderFields)
    requires AllLower(h.to) && AllLower(h.cc)
    ensures AllLower(RecoverLine(info, h).to) && AllLower(RecoverLine(info, h).cc)
  {
  }

  /** The recovery pass keeps the recipient lists lower-case. */
  lemma {:induction false} RecoverLower(infos: seq<LineInfo>, h: HeaderFields, n: nat)
    requires n <= |infos| && AllLower(h.to) && AllLower(h.cc)
    ensures AllLower(RecoverPrefix(infos, h, n).to) && AllLower(RecoverPrefix(infos, h, n).cc)
  {
    if n > 0 {
      var m := RecoverPrefix(infos, h, n - 1);
      RecoverLower(infos, h, n - 1);
      RecoverLineLower(infos[n - 1], m);
      assert RecoverPrefix(infos, h, n) == RecoverLine(infos[n - 1], m);
    }
  }

  /** Appends each of `xs` that is neither `from` nor already collected. */
  function AddNewExcept(acc: seq<string>, xs: seq<string>, from: string): seq<string>
    decreases |xs|
  {
    if |xs| == 0 then acc
    else
      var a := AddNewExcept(acc, xs[..|xs| - 1], from);
      var x := xs[|xs| - 1];
      if x != from && x !in a then a + [x] else a
  }

  /** The potential recipients of the final sweep, over the first `n` lines. */
  function Potential(infos: seq<LineInfo>, from: string, n: nat): seq<string>
    requires n <= |infos|
  {
    if n == 0 then [] else AddNewExcept(Potential(infos, from, n - 1), infos[n - 1].sweep, from)
  }

  /** The final sweep's collection loop. */
  method CollectPotential(infos: seq<LineInfo>, from: string) returns (potential: seq<string>)
    ensures potential == Potential(infos, from, |infos|)
  {
    potential := [];
    var i := 0;
    while i < |infos|
      invariant 0 <= i <= |infos|
      invariant potential == Potential(infos, from, i)
    {
      var tokens := infos[i].sweep;
      potential := AddTokens(potential, tokens, from);
      i := i + 1;
    }
  }

  /** The inner loop over one line's tokens. */
  method AddTokens(acc: seq<string>, tokens: seq<string>, from: string) returns (r: seq<string>)
    ensures r == AddNewExcept(acc, tokens, from)
  {
    r := acc;
    var j := 0;
    while j < |tokens|
      invariant 0 <= j <= |tokens|
      invariant r == AddNewExcept(acc, tokens[..j], from)
    {
      assert tokens[..j + 1][..j] == tokens[..j];
      if tokens[j] != from && tokens[j] !in r {
        r := r + [tokens[j]];
      }
      j := j + 1;
    }
    assert tokens[..j] == tokens;
  }

  /** What the sweep collects: every entry holds an '@', is lower-case, is not the
      sender and occurs once. */
  predicate SweepShape(xs: seq<string>, from: string) {
    && NoDuplicates(xs)
    && (forall k :: 0 <= k < |xs| ==> xs[k] != from && '@' in xs[k] && IsLower(xs[k]))
  }

  lemma {:induction false} AddNewExceptShape(acc: seq<string>, xs: seq<string>, from: string)
    requires SweepShape(acc, from)
    requires forall k :: 0 <= k < |xs| ==> '@' in xs[k] && IsLower(xs[k])
    ensures SweepShape(AddNewExcept(acc, xs, from), from)
    decreases |xs|
  {
    if |xs| > 0 {
      AddNewExceptShape(acc, xs[..|xs| - 1], from);
    }
  }

  /** The sweep never collects the sender, a duplicate, or an entry without '@'. */
  lemma {:induction false} PotentialShape(infos: seq<LineInfo>, from: string, n: nat)
    requires n <= |infos| && WellFormed(infos)
    ensures SweepShape(Potential(infos, from, n), from)
  {
    if n > 0 {
      PotentialShape(infos, from, n - 1);
      AddNewExceptShape(Potential(infos, from, n - 1), infos[n - 1].sweep, from);
    }
  }

  /** `for e in xs: if e not in list: list.append(e)`. */
  function AppendNew(list: seq<string>, xs: seq<string>): (r: seq<string>)
    decreases |xs|
    ensures list <= r
  {
    if |xs| == 0 then list
    else
      var a := AppendNew(list, xs[..|xs| - 1]);
      var x := xs[|xs| - 1];
      if x !in a then a + [x] else a
  }

  method AppendMissing(list: seq<string>, xs: seq<string>) returns (r: seq<string>)
    ensures r == AppendNew(list, xs)
  {
    r := list;
    var j := 0;
    while j < |xs|
      invariant 0 <= j <= |xs|
      invariant r == AppendNew(list, xs[..j])
    {
      assert xs[..j + 1][..j] == xs[..j];
      if xs[j] !in r {
        r := r + [xs[j]];
      }
      j := j + 1;
    }
    assert xs[..j] == xs;
  }

  /** Appending distinct entries to an empty list yields them as they are. */
  lemma {:induction false} AppendNewDistinct(xs: seq<string>)
    requires NoDuplicates(xs)
    ensures AppendNew([], xs) == xs
    decreases |xs|
  {
    if |xs| > 0 {
      var init := xs[..|xs| - 1];
      AppendNewDistinct(init);
      assert xs[|xs| - 1] !in init;
      assert init + [xs[|xs| - 1]] == xs;
    }
  }

  // ---------------------------------------------------------------- the whole extractor

  /** The headers after the second pass and the "Sent by" override. */
  function ScannedHeaders(infos: seq<LineInfo>): HeaderFields {
    var s := ScanPrefix(infos, |infos|);
    if s.sentBy.Some? && Strip(s.sentBy.value) != "" then s.h.(from := s.sentBy.value) else s.h
  }

  /** The body: from the body start, otherwise the best-effort body. */
  function EnronBody(lines: seq<string>, infos: seq<LineInfo>): string
    requires |infos| == |lines|
  {
    match BodyStart(infos)
    case Some(k) => Strip(Join(lines[k..], "\n"))
    case None => BestEffortBody(lines, infos)
  }

  /** The recovery pass, run when no To: recipient was found but a sender was. */
  function RecoverStage(infos: seq<LineInfo>, h: HeaderFields): HeaderFields {
    if h.to == [] && h.from != "" then RecoverPrefix(infos, h, |infos|) else h
  }

  /** The final sweep, run when there is still no To: recipient but a sender and a
      subject. */
  function Sweep(infos: seq<LineInfo>, h: HeaderFields): HeaderFields {
    if h.to == [] && h.from != "" && h.subject != "" then
      h.(to := AppendNew(h.to, Potential(infos, h.from, |infos|)))
    else h
  }

  function Recovered(infos: seq<LineInfo>, h: HeaderFields): HeaderFields {
    Sweep(infos, RecoverStage(infos, h))
  }

  /** The readings `extract_enron_style_headers` works from. */
  function EnronInfos(content: string): (infos: seq<LineInfo>)
    ensures |infos| == |Lines(content)| && WellFormed(infos)
  {
    var lines := Lines(content);
    Infos(lines, HasRespondLine(lines))
  }

  /** The passes after the first, from the lines and their readings. */
  function Assemble(lines: seq<string>, infos: seq<LineInfo>): HeaderFields
    requires |infos| == |lines|
  {
    Recovered(infos, ScannedHeaders(infos).(bodyClean := EnronBody(lines, infos)))
  }

  /** `extract_enron_style_headers`. */
  function EnronHeaders(content: string): HeaderFields {
    Assemble(Lines(content), EnronInfos(content))
  }

  /** The body-start search, falling back to the best-effort pass. */
  method FindBody(lines: seq<string>, infos: seq<LineInfo>) returns (body: string)
    requires |infos| == |lines| && WellFormed(infos)
    ensures body == EnronBody(lines, infos)
  {
    var start := FindBodyStart(infos);
    if start.Some? {
      body := Strip(Join(lines[start.value..], "\n"));
    } else {
      body := BestEffort(lines, infos);
    }
  }

  /** The recovery pass and the final sweep. */
  method RecoverRecipients(infos: seq<LineInfo>, h0: HeaderFields) returns (h: HeaderFields)
    ensures h == Recovered(infos, h0)
  {
    h := h0;
    if h.to == [] && h.from != "" {
      h := Recover(infos, h);
    }
    if h.to == [] && h.from != "" && h.subject != "" {
      var potential := CollectPotential(infos, h.from);
      var to := AppendMissing(h.to, potential);
      h := h.(to := to);
    }
  }

  method ExtractEnronStyleHeaders(content: string) returns (h: HeaderFields)
    ensures h == EnronHeaders(content)
  {
    var lines := Lines(content);
    var respond := DetectPleaseRespond(lines);
    var infos := Infos(lines, respond);
    assert infos == EnronInfos(content);
    var s := ScanLines(infos);
    h := s.h;
    if s.sentBy.Some? && Strip(s.sentBy.value) != "" {
      h := h.(from := s.sentBy.value);
    }
    assert h == ScannedHeaders(infos);
    var body := FindBody(lines, infos);
    h := RecoverRecipients(infos, h.(bodyClean := body));
    assert h == Assemble(lines, infos);
  }

  // ---------------------------------------------------------------- what the extractor promises

  /** Every "Sent by" sender holds an '@'. */
  lemma {:induction false} LastSentByHasAt(infos: seq<LineInfo>, n: nat)
    requires n <= |infos| && WellFormed(infos)
    ensures LastSentBy(infos, n).Some? ==> '@' in LastSentBy(infos, n).value
  {
    if n > 0 {
      LastSentByHasAt(infos, n - 1);
    }
  }

  /** The recovery pass and the sweep keep the sender, date, bcc and body. */
  lemma RecoveredKeeps(infos: seq<LineInfo>, h: HeaderFields)
    ensures var r := Recovered(infos, h);
      r.from == h.from && r.bcc == h.bcc && r.date == h.date && r.bodyClean == h.bodyClean
  {
    RecoverKeeps(infos, h, |infos|);
  }

  /** The passes never fill `bcc`. */
  lemma AssembleBccEmpty(lines: seq<string>, infos: seq<LineInfo>)
    requires |infos| == |lines|
    ensures Assemble(lines, infos).bcc == []
  {
    ScanBccEmpty(infos, |infos|);
    RecoveredKeeps(infos, ScannedHeaders(infos).(bodyClean := EnronBody(lines, infos)));
  }

  /** `extract_enron_style_headers` never fills `bcc`. */
  lemma EnronBccEmpty(content: string)
    ensures EnronHeaders(content).bcc == []
  {
    AssembleBccEmpty(Lines(content), EnronInfos(content));
  }

  /** A "Sent by" sender overrides every other sender source. */
  lemma AssembleSentByWins(lines: seq<string>, infos: seq<LineInfo>)
    requires |infos| == |lines| && WellFormed(infos)
    ensures LastSentBy(infos, |infos|).Some? ==> Assemble(lines, infos).from == LastSentBy(infos, |infos|).value
  {
    ScanSentBy(infos, |infos|);
    LastSentByHasAt(infos, |infos|);
    var sb := LastSentBy(infos, |infos|);
    if sb.Some? {
      StripKeepsNonSpace(sb.value, '@');
    }
    RecoveredKeeps(infos, ScannedHeaders(infos).(bodyClean := EnronBody(lines, infos)));
  }

  /** A "Sent by" sender overrides every other sender: the sender of the last line
      whose "Sent by: " capture matches is the result's `from`. */
  lemma EnronSentByWins(content: string)
    ensures var infos := EnronInfos(content);
      LastSentBy(infos, |infos|).Some? ==> EnronHeaders(content).from == LastSentBy(infos, |infos|).value
  {
    AssembleSentByWins(Lines(content), EnronInfos(content));
  }

  /** The final sweep runs only with no To: recipient, a sender and a subject; it then
      yields distinct lower-case addresses, none of them the sender's. */
  lemma SweepShapeHolds(infos: seq<LineInfo>, h: HeaderFields)
    requires WellFormed(infos)
    ensures Sweep(infos, h).to != h.to ==> h.to == [] && h.from != "" && h.subject != ""
    ensures h.to == [] && h.from != "" && h.subject != "" ==> SweepShape(Sweep(infos, h).to, h.from)
    ensures Sweep(infos, h).from == h.from && Sweep(infos, h).subject == h.subject
  {
    var p := Potential(infos, h.from, |infos|);
    PotentialShape(infos, h.from, |infos|);
    AppendNewDistinct(p);
  }

  lemma AssembleLower(lines: seq<string>, infos: seq<LineInfo>)
    requires |infos| == |lines| && WellFormed(infos)
    ensures AllLower(Assemble(lines, infos).to) && AllLower(Assemble(lines, infos).cc)
  {
    ScanKeepsLower(infos, |infos|);
    var h := ScannedHeaders(infos).(bodyClean := EnronBody(lines, infos));
    RecoverLower(infos, h, |infos|);
    SweepShapeHolds(infos, RecoverStage(infos, h));
  }

  /** Every recipient of the result is lower-case. */
  lemma EnronRecipientsLower(content: string)
    ensures AllLower(EnronHeaders(content).to) && AllLower(EnronHeaders(content).cc)
  {
    AssembleLower(Lines(content), EnronInfos(content));
  }

  lemma AssembleBody(content: string, infos: seq<LineInfo>)
    requires |infos| == |Lines(content)|
    ensures IsSubstring(Assemble(Lines(content), infos).bodyClean, content)
  {
    var lines := Lines(content);
    var body := EnronBody(lines, infos);
    SplitJoin(content, '\n');
    var from: nat := match BodyStart(infos)
      case Some(k) => k
      case None => match First(infos, 0, EndsHead) case Some(m) => m + 1 case None => |lines|;
    if from < |lines| {
      JoinTail(lines, ['\n'], from);
      SuffixIsSubstring(content, Join(lines[from..], "\n"));
      StripIsSubstring(Join(lines[from..], "\n"));
      SubstringTrans(body, Join(lines[from..], "\n"), content);
    } else {
      assert body == "";
      assert At(content, 0, body);
    }
    RecoveredKeeps(infos, ScannedHeaders(infos).(bodyClean := body));
  }

  /** The body is text of the message: a piece of `content`. */
  lemma EnronBodyInContent(content: string)
    ensures IsSubstring(EnronHeaders(content).bodyClean, content)
  {
    AssembleBody(content, EnronInfos(content));
  }

  // ================================================================ extract_nested_email_headers

  /** What the stanza scanner reads off one line. */
  datatype NestedInfo = NestedInfo(
    /** `line.strip()` */
    stripped: string,
    /** The trimmed line is date-shaped (stanza style). */
    dateShaped: bool,
    /** The header the trimmed, lowercased line starts. */
    field: FieldKind,
    /** The addresses of a To: line's comma parts, and of a cc: line's. */
    toList: seq<string>, ccList: seq<string>,
    /** The cc: line has text after "cc:". */
    ccLong: bool,
    /** The subject a Subject: line sets. */
    subject: string,
    /** A blank line followed by a non-blank one. */
    bodyBreak: bool,
    /** A name line: not the first line, after a blank line, non-blank, not starting
        with '-', and followed by a date-shaped line. */
    nameLine: bool,
    /** The sender a name line sets. */
    nameFrom: string)

  /** The reading of line `i`. */
  function NestedClassify(lines: seq<string>, i: nat): (info: NestedInfo)
    requires i < |lines|
    ensures AllAddresses(info.toList) && AllAddresses(info.ccList) && IsAddress(info.nameFrom)
  {
    var stripped := Strip(lines[i]);
    var next := if i + 1 < |lines| then Strip(lines[i + 1]) else "";
    NestedInfo(
      stripped,
      IsDateShaped(stripped, Stanza),
      FieldOf(Lower(stripped)),
      CommaAddresses(NestedToRule, Split(Strip(SliceFrom(stripped, 3)), ',')),
      CommaAddresses(NestedCcRule, Split(Strip(SliceFrom(stripped, 3)), ',')),
      |stripped| > 3,
      Strip(SliceFrom(stripped, 8)),
      stripped == "" && i + 1 < |lines| && next != "",
      && i > 0 && Strip(lines[i - 1]) == "" && stripped != "" && !StartsWith(stripped, "-")
      && i + 1 < |lines| && IsDateShaped(next, Stanza),
      EnronAddress(stripped))
  }

  function NestedInfos(lines: seq<string>): (infos: seq<NestedInfo>)
    ensures |infos| == |lines|
    ensures forall k :: 0 <= k < |lines| ==> infos[k] == NestedClassify(lines, k)
  {
    seq(|lines|, k requires 0 <= k < |lines| => NestedClassify(lines, k))
  }

  predicate NestedWellFormed(infos: seq<NestedInfo>) {
    forall k :: 0 <= k < |infos| ==> AllAddresses(infos[k].toList) && AllAddresses(infos[k].ccList)
  }

  lemma NestedInfosWellFormed(lines: seq<string>)
    ensures NestedWellFormed(NestedInfos(lines))
  {
  }

  /** The stanza scanner's state: the headers so far, the name line once found, whether
      a Subject: line was seen, and where the body starts once found (the loop then
      stops). */
  datatype NestedScan = NestedScan(h: HeaderFields, name: Option<nat>, subjectSeen: bool, bodyStart: Option<nat>)

  const StartNested := NestedScan(EmptyHeaders, None, false, None)

  /** One iteration of the stanza scanner. Before the name line only a name line
      matters; after it, the date line, To:/cc:/Subject: lines and the body break. */
  function NestedStep(info: NestedInfo, i: nat, s: NestedScan): (r: NestedScan)
    ensures r.h.bcc == s.h.bcc
  {
    if s.bodyStart.Some? then s
    else if s.name.Some? then
      if i == s.name.value + 1 && info.dateShaped then s.(h := s.h.(date := info.stripped))
      else if info.field == ToField then s.(h := s.h.(to := info.toList))
      else if info.field == CcField then
        if info.ccLong then s.(h := s.h.(cc := info.ccList)) else s
      else if info.field == SubjectField then s.(h := s.h.(subject := info.subject), subjectSeen := true)
      else if s.subjectSeen && info.bodyBreak then s.(bodyStart := Some(i + 1))
      else s
    else if info.nameLine then s.(h := s.h.(from := info.nameFrom), name := Some(i))
    else s
  }

  function NestedPrefix(infos: seq<NestedInfo>, n: nat): NestedScan
    requires n <= |infos|
  {
    if n == 0 then StartNested else NestedStep(infos[n - 1], n - 1, NestedPrefix(infos, n - 1))
  }

  /** Once the body start is found nothing changes any more. */
  lemma {:induction false} NestedDoneStays(infos: seq<NestedInfo>, m: nat, n: nat)
    requires m <= n <= |infos| && NestedPrefix(infos, m).bodyStart.Some?
    ensures NestedPrefix(infos, n) == NestedPrefix(infos, m)
  {
    if m < n {
      NestedDoneStays(infos, m, n - 1);
    }
  }

  predicate NameLine(info: NestedInfo) { info.nameLine }

  /** The name line is the first name line, found once and never moved; the sender
      is the one it gives, and the body start is only searched for after it. */
  lemma {:induction false} NestedNameIsFirst(infos: seq<NestedInfo>, n: nat)
    requires n <= |infos|
    ensures var s, f := NestedPrefix(infos, n), First(infos, 0, NameLine);
      && s.name == (if f.Some? && f.value < n then f else None)
      && s.h.from == (if s.name.Some? then infos[s.name.value].nameFrom else "")
      && (s.bodyStart.Some? ==> s.name.Some?)
  {
    if n > 0 {
      NestedNameIsFirst(infos, n - 1);
      var f := First(infos, 0, NameLine);
      if NestedPrefix(infos, n - 1).name.None? && infos[n - 1].nameLine {
        FirstIs(infos, 0, NameLine, n - 1);
      }
    }
  }

  /** Every recipient the stanza scanner keeps is an address, and `bcc` stays empty. */
  lemma {:induction false} NestedAddresses(infos: seq<NestedInfo>, n: nat)
    requires n <= |infos| && NestedWellFormed(infos)
    ensures AllAddresses(NestedPrefix(infos, n).h.to) && AllAddresses(NestedPrefix(infos, n).h.cc)
    ensures NestedPrefix(infos, n).h.bcc == []
  {
    if n > 0 {
      NestedAddresses(infos, n - 1);
    }
  }

  /** The body start lies after the line that found it. */
  lemma {:induction false} NestedBodyStartBound(infos: seq<NestedInfo>, n: nat)
    requires n <= |infos|
    ensures NestedPrefix(infos, n).bodyStart.Some? ==> 0 < NestedPrefix(infos, n).bodyStart.value <= n
  {
    if n > 0 {
      NestedBodyStartBound(infos, n - 1);
    }
  }

  /** Line `j`, after the name line `a`, replaces the `to` list (`cc` false) or the `cc`
      list (`cc` true): a To: line, or a cc: line with text after "cc:", that is not the
      date line right after the name line. */
  predicate NestedSets(infos: seq<NestedInfo>, a: nat, j: nat, cc: bool)
    requires j < |infos|
  {
    && a < j && !(j == a + 1 && infos[j].dateShaped)
    && if cc then infos[j].field == CcField && infos[j].ccLong else infos[j].field == ToField
  }

  /** The addresses line `info` gives for the `to` list or the `cc` list. */
  function NestedList(info: NestedInfo, cc: bool): seq<string> {
    if cc then info.ccList else info.toList
  }

  function ListOf(h: HeaderFields, cc: bool): seq<string> {
    if cc then h.cc else h.to
  }

  /** `v` is the list given by the last line between `a` and `hi` that sets it, or `[]`
      when none does. */
  predicate KeptLast(infos: seq<NestedInfo>, a: nat, hi: nat, cc: bool, v: seq<string>)
    requires hi <= |infos|
  {
    || (exists j :: a < j < hi && NestedSets(infos, a, j, cc) && v == NestedList(infos[j], cc)
                    && forall k :: j < k < hi ==> !NestedSets(infos, a, k, cc))
    || (v == [] && forall k :: a < k < hi ==> !NestedSets(infos, a, k, cc))
  }

  lemma KeptLastExtend(infos: seq<NestedInfo>, a: nat, hi: nat, cc: bool, v: seq<string>)
    requires hi < |infos| && KeptLast(infos, a, hi, cc, v) && !NestedSets(infos, a, hi, cc)
    ensures KeptLast(infos, a, hi + 1, cc, v)
  {
    if v == [] && forall k :: a < k < hi ==> !NestedSets(infos, a, k, cc) {
    } else {
      var j :| a < j < hi && NestedSets(infos, a, j, cc) && v == NestedList(infos[j], cc)
               && forall k :: j < k < hi ==> !NestedSets(infos, a, k, cc);
      assert forall k :: j < k < hi + 1 ==> !NestedSets(infos, a, k, cc);
    }
  }

  lemma KeptLastSet(infos: seq<NestedInfo>, a: nat, j: nat, cc: bool)
    requires j < |infos| && NestedSets(infos, a, j, cc)
    ensures KeptLast(infos, a, j + 1, cc, NestedList(infos[j], cc))
  {
  }

  /** The lines the scanner has read among the first `n`: up to the body start once it
      is found (the loop stops there), else all `n`. */
  function ReadUpTo(s: NestedScan, n: nat): (hi: nat)
    ensures hi <= n
  {
    if s.bodyStart.Some? && s.bodyStart.value <= n then s.bodyStart.value else n
  }

  /** Before the name line both lists are empty, and the name line lies before `n`. */
  lemma {:induction false} NestedBeforeName(infos: seq<NestedInfo>, n: nat)
    requires n <= |infos|
    ensures NestedPrefix(infos, n).name.None? ==>
      NestedPrefix(infos, n).h.to == [] && NestedPrefix(infos, n).h.cc == []
    ensures NestedPrefix(infos, n).name.Some? ==> NestedPrefix(infos, n).name.value < n
  {
    if n > 0 {
      NestedBeforeName(infos, n - 1);
    }
  }

  /** What one line after the name line does to a list: line `i` replaces it exactly
      when it sets it, and the lines read grow by one. */
  lemma NestedStepList(infos: seq<NestedInfo>, i: nat, cc: bool)
    requires i < |infos|
    requires NestedPrefix(infos, i).bodyStart.None? && NestedPrefix(infos, i).name.Some?
    requires NestedPrefix(infos, i).name.value < i
    ensures var p, r := NestedPrefix(infos, i), NestedPrefix(infos, i + 1);
      && r.name == p.name
      && ReadUpTo(r, i + 1) == i + 1
      && ListOf(r.h, cc) == if NestedSets(infos, p.name.value, i, cc) then NestedList(infos[i], cc) else ListOf(p.h, cc)
  {
  }

  /** After the name line `a`, each list is the one given by the last line that sets it
      among the lines read, or empty when no such line sets it. */
  lemma {:induction false} NestedListIsLast(infos: seq<NestedInfo>, n: nat, cc: bool)
    requires n <= |infos|
    ensures NestedPrefix(infos, n).name.Some? ==>
      KeptLast(infos, NestedPrefix(infos, n).name.value, ReadUpTo(NestedPrefix(infos, n), n),
               cc, ListOf(NestedPrefix(infos, n).h, cc))
  {
    if n > 0 {
      var p := NestedPrefix(infos, n - 1);
      NestedBodyStartBound(infos, n - 1);
      if p.bodyStart.Some? {
        NestedListIsLast(infos, n - 1, cc);
        assert NestedPrefix(infos, n) == p;
        assert ReadUpTo(p, n) == ReadUpTo(p, n - 1);
      } else if p.name.Some? {
        NestedListIsLast(infos, n - 1, cc);
        NestedBeforeName(infos, n - 1);
        NestedStepList(infos, n - 1, cc);
        var a := p.name.value;
        if NestedSets(infos, a, n - 1, cc) {
          KeptLastSet(infos, a, n - 1, cc);
        } else {
          KeptLastExtend(infos, a, n - 1, cc, ListOf(p.h, cc));
        }
      } else {
        NestedBeforeName(infos, n - 1);
      }
    }
  }

  /** `headers['to'] = to_emails`: once the name line is found, the `to` list is the
      one of the last To: line after it and before the body start, or empty. */
  lemma NestedToIsLast(infos: seq<NestedInfo>, n: nat)
    requires n <= |infos|
    ensures var s := NestedPrefix(infos, n);
      s.name.Some? ==> KeptLast(infos, s.name.value, ReadUpTo(s, n), false, s.h.to)
  {
    NestedListIsLast(infos, n, false);
  }

  /** `headers['cc'] = cc_emails`: once the name line is found, the `cc` list is the one
      of the last cc: line with text after "cc:" after it and before the body start, or
      empty; a bare "cc:" line leaves it as it was. */
  lemma NestedCcIsLast(infos: seq<NestedInfo>, n: nat)
    requires n <= |infos|
    ensures var s := NestedPrefix(infos, n);
      s.name.Some? ==> KeptLast(infos, s.name.value, ReadUpTo(s, n), true, s.h.cc)
  {
    NestedListIsLast(infos, n, true);
  }

  /** The headers with the body cut from the body start, if found. */
  function NestedResult(lines: seq<string>, s: NestedScan): HeaderFields {
    match s.bodyStart
    case Some(b) => if b <= |lines| then s.h.(bodyClean := Strip(Join(lines[b..], "\n"))) else s.h
    case None => s.h
  }

  /** The stanza scan and the body cut, from the lines and their readings. */
  function NestedAssemble(lines: seq<string>, infos: seq<NestedInfo>): HeaderFields {
    NestedResult(lines, NestedPrefix(infos, |infos|))
  }

  /** `extract_nested_email_headers`. */
  function NestedHeaders(content: string): HeaderFields {
    NestedAssemble(Lines(content), NestedInfos(Lines(content)))
  }

  /** The scanning loop, which stops at the body start. */
  method NestedScanLines(infos: seq<NestedInfo>) returns (s: NestedScan)
    ensures s == NestedPrefix(infos, |infos|)
  {
    s := StartNested;
    var i := 0;
    while i < |infos|
      invariant 0 <= i <= |infos|
      invariant s == NestedPrefix(infos, i)
      invariant s.bodyStart.None?
    {
      s := NestedStep(infos[i], i, s);
      i := i + 1;
      if s.bodyStart.Some? {
        NestedDoneStays(infos, i, |infos|);
        break;
      }
    }
  }

  method ExtractNestedEmailHeaders(content: string) returns (h: HeaderFields)
    ensures h == NestedHeaders(content)
  {
    var lines := Lines(content);
    var infos := NestedInfos(lines);
    var s := NestedScanLines(infos);
    h := NestedResult(lines, s);
  }

  lemma NestedAssembleAddresses(lines: seq<string>, infos: seq<NestedInfo>)
    requires NestedWellFormed(infos)
    ensures AllAddresses(NestedAssemble(lines, infos).to) && AllAddresses(NestedAssemble(lines, infos).cc)
    ensures NestedAssemble(lines, infos).bcc == []
  {
    NestedAddresses(infos, |infos|);
  }

  /** The nested extractor's recipients are addresses and it never fills `bcc`. */
  lemma NestedHeadersAddresses(content: string)
    ensures AllAddresses(NestedHeaders(content).to) && AllAddresses(NestedHeaders(content).cc)
    ensures NestedHeaders(content).bcc == []
  {
    NestedInfosWellFormed(Lines(content));
    NestedAssembleAddresses(Lines(content), NestedInfos(Lines(content)));
  }

  lemma NestedAssembleFrom(lines: seq<string>, infos: seq<NestedInfo>)
    ensures var f := First(infos, 0, NameLine);
      NestedAssemble(lines, infos).from == (if f.Some? then infos[f.value].nameFrom else "")
  {
    NestedNameIsFirst(infos, |infos|);
  }

  /** The nested extractor's sender is set by the first name line, as its dotted
      lowercase name with "@enron.com", and is empty when there is none. */
  lemma NestedHeadersFrom(content: string)
    ensures var lines := Lines(content); var f := First(NestedInfos(lines), 0, NameLine);
      NestedHeaders(content).from == (if f.Some? then EnronAddress(Strip(lines[f.value])) else "")
  {
    var lines := Lines(content);
    var infos := NestedInfos(lines);
    NestedAssembleFrom(lines, infos);
    var f := First(infos, 0, NameLine);
    if f.Some? {
      NestedNameFrom(lines, f.value);
    }
  }

  lemma NestedNameFrom(lines: seq<string>, i: nat)
    requires i < |lines|
    ensures NestedClassify(lines, i).nameFrom == EnronAddress(Strip(lines[i]))
  {
  }

  lemma NestedAssembleBody(content: string, infos: seq<NestedInfo>)
    ensures IsSubstring(NestedAssemble(Lines(content), infos).bodyClean, content)
  {
    var s := NestedPrefix(infos, |infos|);
    NestedScanBodyEmpty(infos, |infos|);
    if s.bodyStart.Some? && s.bodyStart.value <= |Lines(content)| {
      LinesTailInText(content, s.bodyStart.value);
    } else {
      assert At(content, 0, "");
    }
  }

  /** The stanza scan leaves `bodyClean` empty: the body is cut after it. */
  lemma {:induction false} NestedScanBodyEmpty(infos: seq<NestedInfo>, n: nat)
    requires n <= |infos|
    ensures NestedPrefix(infos, n).h.bodyClean == ""
  {
    if n > 0 {
      NestedScanBodyEmpty(infos, n - 1);
    }
  }

  /** The nested extractor's body is text of the message. */
  lemma NestedBodyInContent(content: string)
    ensures IsSubstring(NestedHeaders(content).bodyClean, content)
  {
    NestedAssembleBody(content, NestedInfos(Lines(content)));
  }

  // ================================================================ extract_forwarded_headers

  /** The labels the generic fallback looks for, in order. */
  const GenericKeys: seq<string> := ["From:", "To:", "Cc:", "Bcc:", "Subject:", "Date:"]

  /** Where the match of a label's value ends, or -1. */
  function KeyEnd(content: string, key: string): int {
    match HeaderValue(content, key)
    case Some((e, _)) => e
    case None => -1
  }

  /** The match end of each label, in label order. */
  function KeyEnds(content: string): (ends: seq<int>)
    ensures |ends| == |GenericKeys|
  {
    seq(|GenericKeys|, k requires 0 <= k < |GenericKeys| => KeyEnd(content, GenericKeys[k]))
  }

  /** The largest of the first `n` ends, or -1. */
  function MaxEnd(ends: seq<int>, n: nat): int
    requires n <= |ends|
  {
    if n == 0 then -1 else Max(MaxEnd(ends, n - 1), ends[n - 1])
  }

  /** `MaxEnd` bounds every end and is one of them, or -1. */
  lemma {:induction false} MaxEndIsMax(ends: seq<int>, n: nat)
    requires n <= |ends|
    ensures forall k :: 0 <= k < n ==> ends[k] <= MaxEnd(ends, n)
    ensures MaxEnd(ends, n) == -1 || exists k :: 0 <= k < n && ends[k] == MaxEnd(ends, n)
  {
    if n > 0 {
      MaxEndIsMax(ends, n - 1);
    }
  }

  /** The end of the last label found, or -1. */
  function LastEnd(content: string): int {
    MaxEnd(KeyEnds(content), |GenericKeys|)
  }

  /** The fallback's loop over the labels, keeping the largest match end. */
  method LargestEnd(ends: seq<int>) returns (last: int)
    ensures last == MaxEnd(ends, |ends|)
  {
    last := -1;
    var k := 0;
    while k < |ends|
      invariant 0 <= k <= |ends|
      invariant last == MaxEnd(ends, k)
    {
      if ends[k] > last {
        last := ends[k];
      }
      k := k + 1;
    }
  }

  method LastHeaderEnd(content: string) returns (last: int)
    ensures last == LastEnd(content)
  {
    last := LargestEnd(KeyEnds(content));
  }

  /** The generic body: the trimmed text after the header block, else after the last
      label found, else the cleaned content when there is content. */
  function GenericBody(cuts: seq<string -> Option<nat>>, content: string): string {
    var body :=
      match HeaderBlockEnd(content)
      case Some(e) => Strip(SliceFrom(content, e))
      case None =>
        var last := LastEnd(content);
        if last > 0 then Strip(SliceFrom(content, last)) else "";
    if body == "" && content != "" then Cleaned(cuts, content) else body
  }

  /** A header list: the normalised addresses of a non-empty value, else none. */
  function AddressList(env: Env, value: string): seq<string> {
    if value != "" then env.normalizeAddresses(value) else []
  }

  /** The generic labelled-header fallback. */
  function GenericHeaders(env: Env, content: string): HeaderFields {
    HeaderFields(
      ExtractHeaderFromText(content, "From"),
      AddressList(env, ExtractHeaderFromText(content, "To")),
      AddressList(env, ExtractHeaderFromText(content, "Cc")),
      AddressList(env, ExtractHeaderFromText(content, "Bcc")),
      ExtractHeaderFromText(content, "Subject"),
      ExtractHeaderFromText(content, "Date"),
      GenericBody(env.cleanCuts, content))
  }

  /** The body search of the fallback. */
  method GenericBodyOf(cuts: seq<string -> Option<nat>>, content: string) returns (body: string)
    ensures body == GenericBody(cuts, content)
  {
    match HeaderBlockEnd(content) {
      case Some(e) =>
        body := Strip(SliceFrom(content, e));
      case None =>
        var last := LastHeaderEnd(content);
        body := if last > 0 then Strip(SliceFrom(content, last)) else "";
    }
    if body == "" && content != "" {
      body := Cleaned(cuts, content);
    }
  }

  method ExtractGenericHeaders(env: Env, content: string) returns (h: HeaderFields)
    ensures h == GenericHeaders(env, content)
  {
    var body := GenericBodyOf(env.cleanCuts, content);
    h := HeaderFields(
      ExtractHeaderFromText(content, "From"),
      AddressList(env, ExtractHeaderFromText(content, "To")),
      AddressList(env, ExtractHeaderFromText(content, "Cc")),
      AddressList(env, ExtractHeaderFromText(content, "Bcc")),
      ExtractHeaderFromText(content, "Subject"),
      ExtractHeaderFromText(content, "Date"),
      body);
  }

  /** The generic body is text of the message. */
  lemma GenericBodyInContent(cuts: seq<string -> Option<nat>>, content: string)
    ensures IsSubstring(GenericBody(cuts, content), content)
  {
    var body :=
      match HeaderBlockEnd(content)
      case Some(e) => Strip(SliceFrom(content, e))
      case None =>
        var last := LastEnd(content);
        if last > 0 then Strip(SliceFrom(content, last)) else "";
    if body == "" && content != "" {
      CleanedIsSubstring(cuts, content);
    } else if body == "" {
      assert At(content, 0, body);
    } else {
      var tail := match HeaderBlockEnd(content)
        case Some(e) => SliceFrom(content, e)
        case None => SliceFrom(content, LastEnd(content));
      assert body == Strip(tail);
      SuffixIsSubstring(content, tail);
      StripIsSubstring(tail);
      SubstringTrans(body, tail, content);
    }
  }

  /** Which extractor the dispatcher picks. */
  datatype Route = EnronRoute | NestedRoute | GenericRoute

  /** A dashed "Forwarded by" banner, or a quote, angle brackets and " on ", pick the
      Enron-style extractor; otherwise a name / date stanza picks the nested one. */
  function RouteOf(content: string): Route {
    if Contains(content, "---------------------- Forwarded by")
      || ('"' in content && '<' in content && '>' in content && Contains(content, " on "))
    then EnronRoute
    else if HasNameDateStanza(content) then NestedRoute
    else GenericRoute
  }

  /** `extract_forwarded_headers`. */
  function ForwardedHeaders(env: Env, content: string): HeaderFields {
    match RouteOf(content)
    case EnronRoute => EnronHeaders(content)
    case NestedRoute => NestedHeaders(content)
    case GenericRoute => GenericHeaders(env, content)
  }

  method ExtractForwardedHeaders(env: Env, content: string) returns (h: HeaderFields)
    ensures h == ForwardedHeaders(env, content)
  {
    if Contains(content, "---------------------- Forwarded by")
      || ('"' in content && '<' in content && '>' in content && Contains(content, " on "))
    {
      h := ExtractEnronStyleHeaders(content);
    } else if HasNameDateStanza(content) {
      h := ExtractNestedEmailHeaders(content);
    } else {
      h := ExtractGenericHeaders(env, content);
    }
  }

  /** Whichever extractor runs, the body it returns is text of the message. */
  lemma ForwardedBodyInContent(env: Env, content: string)
    ensures IsSubstring(ForwardedHeaders(env, content).bodyClean, content)
  {
    match RouteOf(content)
    case EnronRoute => EnronBodyInContent(content);
    case NestedRoute => NestedBodyInContent(content);
    case GenericRoute => GenericBodyInContent(env.cleanCuts, content);
  }

  /** The Enron-style and nested extractors never fill `bcc`; only the generic one, from
      a "Bcc:" label, does. */
  lemma ForwardedBcc(env: Env, content: string)
    ensures RouteOf(content) != GenericRoute ==> ForwardedHeaders(env, content).bcc == []
  {
    match RouteOf(content)
    case EnronRoute => EnronBccEmpty(content);
    case NestedRoute => NestedHeadersAddresses(content);
    case GenericRoute =>
  }
}

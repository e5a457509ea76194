/** Exact recognisers for the regular expressions the extractors use. Each one is
    deterministic: at every point where the expression could backtrack, the two
    character classes that meet are disjoint, so the greedy reading is the only one. */
module Patterns {
  import opened Text

  /** The regex class `\d`, on ASCII. */
  predicate IsDigit(c: char) { '0' <= c <= '9' }

  predicate IsLetter(c: char) { 'a' <= c <= 'z' || 'A' <= c <= 'Z' }

  /** The regex class `\w`, on ASCII. */
  predicate IsWord(c: char) { IsDigit(c) || IsLetter(c) || c == '_' }

  /** Length of the longest run of characters satisfying `p` starting at `i`. */
  function Run(s: string, i: nat, p: char -> bool): (n: nat)
    decreases |s| - i
    ensures i + n <= |s| || n == 0
    ensures forall k :: i <= k < i + n ==> p(s[k])
    ensures i + n < |s| ==> !p(s[i + n])
  {
    if i < |s| && p(s[i]) then 1 + Run(s, i + 1, p) else 0
  }

  function DigitRun(s: string, i: nat): nat { Run(s, i, IsDigit) }

  function SpaceRun(s: string, i: nat): nat { Run(s, i, IsSpace) }

  function WordRun(s: string, i: nat): nat { Run(s, i, IsWord) }

  /** The first `i` in `[from, n]` at which `at` succeeds, with what it found there
      (Python's `re.search`, the leftmost position where a match exists). */
  function SearchFrom<T>(n: nat, from: nat, at: nat -> Option<T>): (r: Option<(nat, T)>)
    decreases n - from
    ensures r.Some? ==> from <= r.value.0 <= n && at(r.value.0) == Some(r.value.1)
    ensures r.Some? ==> forall k :: from <= k < r.value.0 ==> at(k).None?
    ensures r.None? ==> forall k :: from <= k <= n ==> at(k).None?
  {
    if from > n then None
    else match at(from)
      case Some(v) => Some((from, v))
      case None => SearchFrom(n, from + 1, at)
  }

  /** `s[i..]` starts with `p` ignoring ASCII case (a literal under `re.IGNORECASE`). */
  predicate CiAt(s: string, i: nat, p: string) {
    i + |p| <= |s| && Lower(s[i..i + |p|]) == Lower(p)
  }

  // ---------------------------------------------------------------- dates

  /** How the pieces of a date-time shape are separated. */
  datatype Gap = OneSpace | Spaces | OptSpaces

  /** The three date-time shapes the source matches: whether day, month and hour may
      have one digit, what separates the date from the time, whether seconds may
      follow the minutes, and what separates the time from AM/PM. */
  datatype DateStyle = DateStyle(flexDigits: bool, dateGap: Gap, seconds: bool, meridiemGap: Gap)

  /** `\d{1,2}/\d{1,2}/\d{4}\s+\d{1,2}:\d{2}(?::\d{2})?\s*(?:AM|PM)` */
  const Loose := DateStyle(true, Spaces, true, OptSpaces)
  /** `\d{2}/\d{2}/\d{4} \d{2}:\d{2}(?::\d{2})? [AP]M` */
  const Banner := DateStyle(false, OneSpace, true, OneSpace)
  /** `\d{2}/\d{2}/\d{4}\s+\d{2}:\d{2}\s+[AP]M` */
  const Stanza := DateStyle(false, Spaces, false, Spaces)

  function Num(s: string, i: nat, flex: bool): (r: Option<nat>)
    ensures r.Some? ==> i < r.value <= |s|
  {
    var k := Min(DigitRun(s, i), 2);
    if k == 2 || (flex && k == 1) then Some(i + k) else None
  }

  function Year(s: string, i: nat): (r: Option<nat>)
    ensures r.Some? ==> i < r.value <= |s|
  {
    if DigitRun(s, i) >= 4 then Some(i + 4) else None
  }

  function Lit(s: string, i: nat, c: char): (r: Option<nat>)
    ensures r.Some? ==> i < r.value <= |s|
  {
    if i < |s| && s[i] == c then Some(i + 1) else None
  }

  function GapEnd(s: string, i: nat, g: Gap): (r: Option<nat>)
    ensures r.Some? ==> i <= r.value <= |s| || (r.value == i && g == OptSpaces)
  {
    match g
    case OneSpace => Lit(s, i, ' ')
    case Spaces => if SpaceRun(s, i) >= 1 then Some(i + SpaceRun(s, i)) else None
    case OptSpaces => Some(i + SpaceRun(s, i))
  }

  function Seconds(s: string, i: nat, allowed: bool): nat {
    if allowed && i < |s| && s[i] == ':' && DigitRun(s, i + 1) >= 2 then i + 3 else i
  }

  function Meridiem(s: string, i: nat): (r: Option<nat>)
    ensures r.Some? ==> i < r.value <= |s|
  {
    if i + 1 < |s| && (s[i] == 'A' || s[i] == 'P') && s[i + 1] == 'M' then Some(i + 2) else None
  }

  /** `dd/dd/dddd` (or `d/d/dddd` when single digits are allowed). */
  function DayMonthYear(s: string, i: nat, flex: bool): (r: Option<nat>)
    ensures r.Some? ==> i < r.value <= |s|
  {
    var a :- Num(s, i, flex);
    var b :- Lit(s, a, '/');
    var c :- Num(s, b, flex);
    var d :- Lit(s, c, '/');
    Year(s, d)
  }

  /** `hh:mm` (or `h:mm` when single digits are allowed). */
  function HourMinute(s: string, i: nat, flex: bool): (r: Option<nat>)
    ensures r.Some? ==> i < r.value <= |s|
  {
    var g :- Num(s, i, flex);
    var h :- Lit(s, g, ':');
    Num(s, h, false)
  }

  /** Optional seconds, the gap, then AM or PM. */
  function ClockTail(s: string, m: nat, st: DateStyle): (r: Option<nat>)
    ensures r.Some? ==> m < r.value <= |s|
  {
    var n :- GapEnd(s, Seconds(s, m, st.seconds), st.meridiemGap);
    Meridiem(s, n)
  }

  /** The gap after the date, then the time of day. */
  function TimeOfDay(s: string, e: nat, st: DateStyle): (r: Option<nat>)
    ensures r.Some? ==> e < r.value <= |s|
  {
    var f :- GapEnd(s, e, st.dateGap);
    var m :- HourMinute(s, f, st.flexDigits);
    ClockTail(s, m, st)
  }

  /** Where a date-time of the given style that starts at `i` ends, if one does. */
  function DateEnd(s: string, i: nat, st: DateStyle): (r: Option<nat>)
    ensures r.Some? ==> i < r.value <= |s|
  {
    var e :- DayMonthYear(s, i, st.flexDigits);
    TimeOfDay(s, e, st)
  }

  /** `re.match(<style>, s)`. */
  predicate IsDateShaped(s: string, st: DateStyle) {
    DateEnd(s, 0, st).Some?
  }

  /** `re.search(<style>, s)`: the first date-time of that style in `s`. */
  function FindDate(s: string, st: DateStyle): (r: Option<string>)
    ensures r.Some? ==> |r.value| > 0 && |r.value| <= |s|
  {
    match SearchFrom(|s|, 0, p => DateEnd(s, p, st))
    case Some((p, e)) => Some(s[p..e])
    case None => None
  }

  lemma FindDateIsSubstring(s: string, st: DateStyle)
    requires FindDate(s, st).Some?
    ensures IsSubstring(FindDate(s, st).value, s)
  {
    match SearchFrom(|s|, 0, p => DateEnd(s, p, st))
    case Some((p, e)) =>
      assert At(s, p, s[p..e]);
    case None =>
  }

  lemma NumFlex(s: string, i: nat)
    requires Num(s, i, false).Some?
    ensures Num(s, i, true) == Num(s, i, false)
  {
  }

  lemma DayMonthYearFlex(s: string, i: nat)
    requires DayMonthYear(s, i, false).Some?
    ensures DayMonthYear(s, i, true) == DayMonthYear(s, i, false)
  {
    NumFlex(s, i);
    NumFlex(s, Num(s, i, false).value + 1);
  }

  lemma HourMinuteFlex(s: string, i: nat)
    requires HourMinute(s, i, false).Some?
    ensures HourMinute(s, i, true) == HourMinute(s, i, false)
  {
    NumFlex(s, i);
  }

  /** A single space followed by a non-space is also a `\s+` or `\s*` gap. */
  lemma OneSpaceGap(s: string, i: nat, g: Gap)
    requires g != OneSpace
    requires GapEnd(s, i, OneSpace).Some? && i + 1 < |s| && !IsSpace(s[i + 1])
    ensures GapEnd(s, i, g) == GapEnd(s, i, OneSpace)
  {
    assert SpaceRun(s, i + 1) == 0;
  }

  /** Every stanza-style date is also a loose-style date, ending at the same place. */
  lemma {:induction false} StanzaIsLoose(s: string, i: nat)
    requires DateEnd(s, i, Stanza).Some?
    ensures DateEnd(s, i, Loose) == DateEnd(s, i, Stanza)
  {
    DayMonthYearFlex(s, i);
    StanzaTimeLoose(s, DayMonthYear(s, i, false).value);
  }

  lemma StanzaTailLoose(s: string, m: nat)
    requires ClockTail(s, m, Stanza).Some?
    ensures ClockTail(s, m, Loose) == ClockTail(s, m, Stanza)
  {
    assert GapEnd(s, m, Spaces).Some?;
    assert Seconds(s, m, true) == m;
    assert GapEnd(s, m, OptSpaces) == GapEnd(s, m, Spaces);
  }

  lemma StanzaTimeLoose(s: string, e: nat)
    requires TimeOfDay(s, e, Stanza).Some?
    ensures TimeOfDay(s, e, Loose) == TimeOfDay(s, e, Stanza)
  {
    var f := GapEnd(s, e, Spaces).value;
    HourMinuteFlex(s, f);
    StanzaTailLoose(s, HourMinute(s, f, false).value);
  }

  lemma BannerTailLoose(s: string, m: nat)
    requires ClockTail(s, m, Banner).Some?
    ensures ClockTail(s, m, Loose) == ClockTail(s, m, Banner)
  {
    var sec := Seconds(s, m, true);
    assert Meridiem(s, sec + 1).Some?;
    OneSpaceGap(s, sec, OptSpaces);
  }

  lemma BannerTimeLoose(s: string, e: nat)
    requires TimeOfDay(s, e, Banner).Some?
    ensures TimeOfDay(s, e, Loose) == TimeOfDay(s, e, Banner)
  {
    assert HourMinute(s, e + 1, false).Some?;
    OneSpaceGap(s, e, Spaces);
    HourMinuteFlex(s, e + 1);
    BannerTailLoose(s, HourMinute(s, e + 1, false).value);
  }

  /** Every banner-style date is also a loose-style date, ending at the same place. */
  lemma {:induction false} BannerIsLoose(s: string, i: nat)
    requires DateEnd(s, i, Banner).Some?
    ensures DateEnd(s, i, Loose) == DateEnd(s, i, Banner)
  {
    DayMonthYearFlex(s, i);
    BannerTimeLoose(s, DayMonthYear(s, i, false).value);
  }

  // ---------------------------------------------------------------- delimited tokens

  /** The delimited text holds an '@' with at least one character on either side
      (the `[^>]+@[^>]+` inside `<...>`). */
  predicate HasInnerAt(c: string) {
    |c| >= 3 && '@' in c[1..|c| - 1]
  }

  /** A match of `<([^>]+)>` (or, with `needAt`, of `<([^>]+@[^>]+)>`; with `"` for both
      delimiters, of `"([^"]+)"`) starting at `i`: where it ends and what it captured. */
  function DelimitedAt(s: string, i: nat, open: char, close: char, needAt: bool): (r: Option<(nat, string)>)
    ensures r.Some? ==> i + 2 < r.value.0 <= |s| && r.value.1 == s[i + 1..r.value.0 - 1]
    ensures r.Some? ==> |r.value.1| > 0 && close !in r.value.1
    ensures r.Some? && needAt ==> HasInnerAt(r.value.1)
  {
    if i < |s| && s[i] == open then
      var j := IndexOf(s, close, i + 1);
      if j > i + 1 then
        var c := s[i + 1..j];
        assert forall k :: 0 <= k < |c| ==> c[k] == s[i + 1 + k];
        if !needAt || HasInnerAt(c) then Some((j + 1, c)) else None
      else None
    else None
  }

  /** `re.findall` / `re.finditer` of a delimited pattern, from index `i` on. */
  function Tokens(s: string, i: nat, open: char, close: char, needAt: bool): (r: seq<string>)
    decreases |s| - i
    ensures forall k :: 0 <= k < |r| ==> |r[k]| > 0 && close !in r[k]
    ensures needAt ==> forall k :: 0 <= k < |r| ==> HasInnerAt(r[k])
  {
    if i >= |s| then []
    else match DelimitedAt(s, i, open, close, needAt)
      case Some((e, c)) => [c] + Tokens(s, e, open, close, needAt)
      case None => Tokens(s, i + 1, open, close, needAt)
  }

  /** The contents of every `<...>` token, in order. */
  function BracketTokens(s: string): seq<string> { Tokens(s, 0, '<', '>', false) }

  /** The contents of every `<...@...>` token, in order. */
  function AtTokens(s: string): seq<string> { Tokens(s, 0, '<', '>', true) }

  /** The contents of every `"..."` token, in order. */
  function QuotedNames(s: string): seq<string> { Tokens(s, 0, '"', '"', false) }

  /** `re.search(r'<([^>]+)>', s)`: the first `<...>` token's contents. */
  function FirstBracket(s: string): Option<string> {
    if |BracketTokens(s)| > 0 then Some(BracketTokens(s)[0]) else None
  }

  lemma InnerAtHasAt(c: string)
    requires HasInnerAt(c)
    ensures '@' in c
  {
    var k :| 0 <= k < |c[1..|c| - 1]| && c[1..|c| - 1][k] == '@';
    assert c[k + 1] == '@';
  }

  function LowerAll(xs: seq<string>): (r: seq<string>)
    ensures |r| == |xs|
    ensures forall k :: 0 <= k < |xs| ==> r[k] == Lower(xs[k])
  {
    seq(|xs|, k requires 0 <= k < |xs| => Lower(xs[k]))
  }

  // ---------------------------------------------------------------- single-line captures

  /** `re.search(r'Sent by: (.+?)(@ENRON|$)', line)`, group 1, on a line without '\n':
      the text after the first "Sent by: " up to the first "@ENRON" that leaves at least
      one character, or to the end of the line. */
  function SentByCapture(line: string): (r: Option<string>)
    requires '\n' !in line
    ensures r.Some? ==> 0 < |r.value| < |line|
  {
    var p := Find(line, "Sent by: ");
    if p < 0 then None
    else
      var rest := line[p + 9..];
      if |rest| == 0 then None
      else
        var q := FindFrom(rest, "@ENRON", 1);
        var k := if q < 0 then |rest| else q;
        Some(rest[..k])
  }

  function ForwardedByAt(s: string, p: nat): (r: Option<string>)
    ensures r.Some? ==> |r.value| > 0 && '/' !in r.value
  {
    if At(s, p, "Forwarded by ") && p + 13 < |s| && s[p + 13] != '/' then
      var n := Run(s, p + 13, c => c != '/');
      var t := s[p + 13..p + 13 + n];
      assert forall k :: 0 <= k < |t| ==> t[k] == s[p + 13 + k];
      Some(t)
    else None
  }

  /** `re.search(r'Forwarded by ([^/]+)', s)`, group 1. */
  function ForwardedByCapture(s: string): (r: Option<string>)
    ensures r.Some? ==> |r.value| > 0 && '/' !in r.value
  {
    match SearchFrom(|s|, 0, p => ForwardedByAt(s, p))
    case Some((_, v)) => Some(v)
    case None => None
  }

  function OnDateAt(s: string, p: nat): Option<string> {
    if At(s, p, " on ") then
      match DateEnd(s, p + 4, Banner)
      case Some(e) => Some(s[p + 4..e])
      case None => None
    else None
  }

  /** `re.search(r' on (<banner date>)', s)`, group 1. */
  function OnDate(s: string): Option<string> {
    match SearchFrom(|s|, 0, p => OnDateAt(s, p))
    case Some((_, v)) => Some(v)
    case None => None
  }

  /** `re.match(r'^[A-Z][A-Z\s]+:$', t)` on a stripped line: an all-capitals label. */
  predicate IsCapsLabel(t: string) {
    && |t| >= 3
    && IsUpper(t[0])
    && t[|t| - 1] == ':'
    && forall k :: 1 <= k < |t| - 1 ==> IsUpper(t[k]) || IsSpace(t[k])
  }

  // ---------------------------------------------------------------- labelled headers

  /** A match of `<key>\s*(.*?)(?:\n|$)` (ignoring case) at `p`: the match end and the
      raw captured value, which runs to the next newline or the end. */
  function HeaderValueAt(s: string, p: nat, key: string): (r: Option<(nat, string)>)
    ensures r.Some? ==> p < r.value.0 <= |s| || (|key| == 0 && r.value.0 <= |s|)
    ensures r.Some? ==> '\n' !in r.value.1
    ensures r.Some? <==> CiAt(s, p, key)
  {
    if CiAt(s, p, key) then
      var w := p + |key| + SpaceRun(s, p + |key|);
      var nl := IndexOf(s, '\n', w);
      if nl < 0 then
        assert forall k :: 0 <= k < |s| - w ==> s[w..][k] == s[w + k];
        Some((|s|, s[w..]))
      else
        assert forall k :: 0 <= k < nl - w ==> s[w..nl][k] == s[w + k];
        Some((nl + 1, s[w..nl]))
    else None
  }

  /** `re.search(key + r'\s*(.*?)(?:\n|$)', s, re.IGNORECASE)`: the match end and group 1. */
  function HeaderValue(s: string, key: string): (r: Option<(nat, string)>)
    ensures r.Some? ==> '\n' !in r.value.1 && r.value.0 <= |s|
    ensures r.Some? ==> exists p :: 0 <= p <= |s| && CiAt(s, p, key)
  {
    match SearchFrom(|s|, 0, p => HeaderValueAt(s, p, key))
    case Some((p, v)) => assert CiAt(s, p, key); Some(v)
    case None => None
  }

  function NewlineToAt(s: string, q: nat): Option<nat> {
    if q < |s| && s[q] == '\n' && CiAt(s, q + 1, "to:") then Some(q + 1) else None
  }

  /** The end of the optional `Cc:`, `Bcc:`, `Subject:` and `Date:` lines, in that order. */
  function OptionalLines(s: string, e: nat, keys: seq<string>): (r: nat)
    decreases |keys|
    ensures e <= r
  {
    if |keys| == 0 then e
    else
      var nl := IndexOf(s, '\n', e + |keys[0]|);
      var e' := if CiAt(s, e, keys[0]) && nl >= 0 then nl + 1 else e;
      OptionalLines(s, e', keys[1..])
  }

  /** A match of the header-block pattern (headers.py) at `p`: "From:" up to the first
      newline followed by "To:", the To line, then the optional lines. */
  function HeaderBlockAt(s: string, p: nat): Option<nat> {
    if !CiAt(s, p, "from:") then None
    else match SearchFrom(|s|, p + 5, q => NewlineToAt(s, q))
      case None => None
      case Some((_, t)) =>
        var nl := IndexOf(s, '\n', t + 3);
        if nl < 0 then None else Some(OptionalLines(s, nl + 1, ["cc:", "bcc:", "subject:", "date:"]))
  }

  /** Where the first labelled header block ends, if there is one. */
  function HeaderBlockEnd(s: string): Option<nat> {
    match SearchFrom(|s|, 0, p => HeaderBlockAt(s, p))
    case Some((_, e)) => Some(e)
    case None => None
  }

  // ---------------------------------------------------------------- name / date stanza

  /** A match of `\n\w+\s+\w+\n<stanza date>\n` at `p`. */
  function NameDateStanzaAt(s: string, p: nat): Option<nat> {
    if p < |s| && s[p] == '\n' then
      var w1 := WordRun(s, p + 1);
      var b := p + 1 + w1;
      var sp := SpaceRun(s, b);
      var w2 := WordRun(s, b + sp);
      var d := b + sp + w2;
      if w1 >= 1 && sp >= 1 && w2 >= 1 && d < |s| && s[d] == '\n' then
        match DateEnd(s, d + 1, Stanza)
        case Some(e) => if e < |s| && s[e] == '\n' then Some(e + 1) else None
        case None => None
      else None
    else None
  }

  /** `re.search(r'\n\w+\s+\w+\n<stanza date>\n', s)` succeeds. */
  predicate HasNameDateStanza(s: string) {
    SearchFrom(|s|, 0, p => NameDateStanzaAt(s, p)).Some?
  }

  // ---------------------------------------------------------------- bare addresses

  predicate IsLocalChar(c: char) { IsLetter(c) || IsDigit(c) || c in "._%+-" }

  predicate IsDomainChar(c: char) { IsLetter(c) || IsDigit(c) || c == '.' || c == '-' }

  /** The length of the run of `p`-characters at `i`, as `Run` computes it, with only its
      bound as contract: the address search unfolds it at every position of a line. */
  function ClassRun(s: string, i: nat, p: char -> bool): (n: nat)
    decreases |s| - i
    ensures i + n <= |s| || n == 0
  {
    if i < |s| && p(s[i]) then 1 + ClassRun(s, i + 1, p) else 0
  }

  lemma {:induction false} ClassRunIsRun(s: string, i: nat, p: char -> bool)
    decreases |s| - i
    ensures ClassRun(s, i, p) == Run(s, i, p)
  {
    if i < |s| && p(s[i]) {
      ClassRunIsRun(s, i + 1, p);
    }
  }

  /** The rightmost '.' at `start + j` (1 <= j) followed by at least two letters. */
  function LastDot(s: string, start: nat, j: nat): (r: Option<nat>)
    requires start + j < |s|
    decreases j
    ensures r.Some? ==> start + 2 <= r.value <= |s| && s[r.value - 1] == '.' && ClassRun(s, r.value, IsLetter) >= 2
  {
    if j == 0 then None
    else if s[start + j] == '.' && ClassRun(s, start + j + 1, IsLetter) >= 2 then Some(start + j + 1)
    else LastDot(s, start, j - 1)
  }

  /** A match of `[a-zA-Z0-9._%+-]+@[a-zA-Z0-9.-]+\.[a-zA-Z]{2,}` at `p`: its end. */
  function EmailAt(s: string, p: nat): (e: Option<nat>)
    ensures e.Some? ==> p < e.value <= |s|
  {
    var l := ClassRun(s, p, IsLocalChar);
    if l == 0 || p + l >= |s| || s[p + l] != '@' then None
    else
      var d := ClassRun(s, p + l + 1, IsDomainChar);
      if d < 2 then None
      else match LastDot(s, p + l + 1, d - 1)
        case Some(k) => Some(k + ClassRun(s, k, IsLetter))
        case None => None
  }

  /** The first position at or after `from` where the bare-address pattern matches. */
  function EmailFrom(s: string, from: nat): (r: Option<nat>)
    decreases |s| + 1 - from
    ensures r.Some? ==> from <= r.value <= |s| && EmailAt(s, r.value).Some?
  {
    if from > |s| then None
    else if EmailAt(s, from).Some? then Some(from)
    else EmailFrom(s, from + 1)
  }

  /** A position between `from` and the one `EmailFrom` finds is not a match. */
  lemma {:induction false} EmailFromBefore(s: string, from: nat, q: nat)
    requires EmailFrom(s, from).Some? && from <= q < EmailFrom(s, from).value
    decreases q - from
    ensures EmailAt(s, q).None?
  {
    if q > from {
      EmailFromBefore(s, from + 1, q);
    }
  }

  /** When `EmailFrom` finds nothing, a position from `from` on is not a match. */
  lemma {:induction false} EmailFromMissed(s: string, from: nat, q: nat)
    requires EmailFrom(s, from).None? && from <= q <= |s|
    decreases q - from
    ensures EmailAt(s, q).None?
  {
    if q > from {
      EmailFromMissed(s, from + 1, q);
    }
  }

  /** No position between `from` and the one `EmailFrom` finds is a match. */
  lemma EmailFromFirst(s: string, from: nat)
    requires EmailFrom(s, from).Some?
    ensures forall q :: from <= q < EmailFrom(s, from).value ==> EmailAt(s, q).None?
  {
    forall q | from <= q < EmailFrom(s, from).value
      ensures EmailAt(s, q).None?
    {
      EmailFromBefore(s, from, q);
    }
  }

  /** When `EmailFrom` finds nothing, no position from `from` on is a match. */
  lemma EmailFromNone(s: string, from: nat)
    requires EmailFrom(s, from).None?
    ensures forall q :: from <= q <= |s| ==> EmailAt(s, q).None?
  {
    forall q | from <= q <= |s|
      ensures EmailAt(s, q).None?
    {
      EmailFromMissed(s, from, q);
    }
  }

  function FindEmail(s: string): Option<string> {
    match EmailFrom(s, 0)
    case Some(p) => Some(s[p..EmailAt(s, p).value])
    case None => None
  }

  /** The bare-address pattern matches at `p` and at no position before it. */
  predicate LeftmostEmail(s: string, p: nat) {
    p <= |s| && EmailAt(s, p).Some? && forall q :: 0 <= q < p ==> EmailAt(s, q).None?
  }

  /** The bare-address search finds a match exactly when the pattern matches somewhere,
      and then returns the match at the leftmost position where it does. */
  lemma FindEmailLeftmost(s: string)
    ensures FindEmail(s).None? <==> forall p :: 0 <= p <= |s| ==> EmailAt(s, p).None?
    ensures FindEmail(s).Some? ==>
      exists p: nat :: LeftmostEmail(s, p) && FindEmail(s).value == s[p..EmailAt(s, p).value]
  {
    match EmailFrom(s, 0)
    case Some(p) =>
      EmailFromFirst(s, 0);
      assert LeftmostEmail(s, p);
    case None =>
      EmailFromNone(s, 0);
  }

  /** The bare address found is a piece of the text and holds an '@'. */
  lemma FindEmailHasAt(s: string)
    requires FindEmail(s).Some?
    ensures '@' in FindEmail(s).value && IsSubstring(FindEmail(s).value, s)
  {
    var p := EmailFrom(s, 0).value;
    var e := EmailAt(s, p).value;
    EmailAtHasAt(s, p);
    assert At(s, p, s[p..e]);
  }

  /** A bare-address match holds its '@'. */
  lemma EmailAtHasAt(s: string, p: nat)
    requires EmailAt(s, p).Some?
    ensures '@' in s[p..EmailAt(s, p).value]
  {
    var l := ClassRun(s, p, IsLocalChar);
    assert s[p..EmailAt(s, p).value][l] == s[p + l];
  }

  // ---------------------------------------------------------------- "Please respond to" layout

  /** `"[^"]+"` at `p`: the index just after the closing quote. */
  function QuotedAt(s: string, p: nat): (r: Option<nat>)
    ensures r.Some? ==> p < r.value <= |s|
  {
    match DelimitedAt(s, p, '"', '"', false)
    case Some((e, _)) => Some(e)
    case None => None
  }

  /** `\s+<([^>]+)>` at `p`: the match end and the address. */
  function SpacedBracketAt(s: string, p: nat, minSpaces: nat): Option<(nat, string)> {
    var sp := SpaceRun(s, p);
    if sp >= minSpaces then DelimitedAt(s, p + sp, '<', '>', false) else None
  }

  function ToQuotedAt(s: string, p: nat): Option<string> {
    if At(s, p, "To:") && SpaceRun(s, p + 3) >= 1 then
      match QuotedAt(s, p + 3 + SpaceRun(s, p + 3))
      case Some(q) => (match SpacedBracketAt(s, q, 1) case Some((_, a)) => Some(a) case None => None)
      case None => None
    else None
  }

  /** `re.search(r'To:\s+"[^"]+"\s+<([^>]+)>', s)`, group 1. */
  function ToQuoted(s: string): Option<string> {
    match SearchFrom(|s|, 0, p => ToQuotedAt(s, p))
    case Some((_, a)) => Some(a)
    case None => None
  }

  function FromQuotedAt(s: string, p: nat): Option<string> {
    match QuotedAt(s, p)
    case Some(q) =>
      (match SpacedBracketAt(s, q, 1)
       case Some((e, a)) => if SpaceRun(s, e) >= 1 && At(s, e + SpaceRun(s, e), "on") then Some(a) else None
       case None => None)
    case None => None
  }

  /** `re.search(r'"[^"]+"\s+<([^>]+)>\s+on', s)`, group 1. */
  function FromQuoted(s: string): Option<string> {
    match SearchFrom(|s|, 0, p => FromQuotedAt(s, p))
    case Some((_, a)) => Some(a)
    case None => None
  }

  function NamedAddressAt(s: string, p: nat, name: string): Option<string> {
    if At(s, p, ['"'] + name + ['"']) then
      match SpacedBracketAt(s, p + |name| + 2, 0)
      case Some((_, a)) => Some(a)
      case None => None
    else None
  }

  /** `re.search('"' + re.escape(name) + r'"\s*<([^>]+)>', s)`, group 1. */
  function NamedAddress(s: string, name: string): Option<string> {
    match SearchFrom(|s|, 0, p => NamedAddressAt(s, p, name))
    case Some((_, a)) => Some(a)
    case None => None
  }

  function CcQuotedAt(s: string, p: nat): Option<string> {
    if At(s, p, "cc:") && SpaceRun(s, p + 3) >= 1 then
      match DelimitedAt(s, p + 3 + SpaceRun(s, p + 3), '"', '"', false)
      case Some((_, n)) => Some(n)
      case None => None
    else None
  }

  /** `re.search(r'cc:\s+"([^"]+)"', s)`, group 1. */
  function CcQuoted(s: string): Option<string> {
    match SearchFrom(|s|, 0, p => CcQuotedAt(s, p))
    case Some((_, n)) => Some(n)
    case None => None
  }

  /** Where the lookahead `(?=\n\w+:|Subject:|$)` holds (ignoring case, `$` also just
      before a final newline). */
  predicate CcSectionStop(s: string, q: nat) {
    || (q < |s| && s[q] == '\n' && WordRun(s, q + 1) >= 1 && q + 1 + WordRun(s, q + 1) < |s|
        && s[q + 1 + WordRun(s, q + 1)] == ':')
    || CiAt(s, q, "subject:")
    || q == |s|
    || (q + 1 == |s| && s[q] == '\n')
  }

  function CcSectionAt(s: string, p: nat): Option<string> {
    if CiAt(s, p, "cc:") && SpaceRun(s, p + 3) >= 1 then
      var start := p + 3 + SpaceRun(s, p + 3);
      match SearchFrom(|s|, start, q => if CcSectionStop(s, q) then Some(q) else None)
      case Some((q, _)) => Some(s[start..q])
      case None => None
    else None
  }

  /** `re.search(r'cc:\s+(.*?)(?=\n\w+:|Subject:|$)', s, re.DOTALL | re.IGNORECASE)`, group 1. */
  function CcSection(s: string): Option<string> {
    match SearchFrom(|s|, 0, p => CcSectionAt(s, p))
    case Some((_, c)) => Some(c)
    case None => None
  }
}

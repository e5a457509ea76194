/** Address synthesis, recipient lists, stable ids, labelled-header lookup and body
    cleaning (email_parser/utils/helpers.py). */
module Helpers {
  import opened Text
  import opened Patterns

  /** Every synthesised internal address ends with this domain. */
  const EnronDomain := "@enron.com"

  /** An internal Enron display name turned into an address:
      `name.lower().replace(' ', '.') + '@enron.com'`. */
  function EnronAddress(name: string): (r: string)
    ensures EndsWith(r, EnronDomain)
    ensures IsAddress(r)
  {
    var r := Replace(Lower(name), ' ', '.') + EnronDomain;
    assert r[|r| - 10] == '@';
    r
  }

  /** What every recipient the extractors produce looks like: it holds an '@' and has
      no upper-case letter. */
  predicate IsAddress(a: string) {
    '@' in a && IsLower(a)
  }

  predicate AllAddresses(xs: seq<string>) {
    forall k :: 0 <= k < |xs| ==> IsAddress(xs[k])
  }

  lemma AddressesConcat(xs: seq<string>, ys: seq<string>)
    requires AllAddresses(xs) && AllAddresses(ys)
    ensures AllAddresses(xs + ys)
  {
  }

  // ---------------------------------------------------------------- comma-separated recipients

  /** The copies of the comma-part rule differ in these five respects:
      whether a part with '@' ending in "@Enron" or "@ECT" is treated as a name,
      whether the part is split at '/' after trimming or as it stands, how many '/'
      segments a name part needs, whether the name must be non-empty, and which
      keyword prefixes disqualify a name. */
  datatype RecipientRule = RecipientRule(
    excludeTags: bool, splitTrimmed: bool, minSegments: nat, requireName: bool, keywords: seq<string>)

  /** `process_recipients` (helpers.py). */
  const HelperRule := RecipientRule(true, true, 1, true, ["to:", "cc:"])
  /** The To: text of the stanza path in `_extract_nested_email` (parser.py). */
  const StanzaToRule := RecipientRule(false, true, 1, true, ["to:"])
  /** The cc: text of the stanza path in `_extract_nested_email` (parser.py). */
  const StanzaCcRule := RecipientRule(false, true, 1, true, ["cc:"])
  /** The To: line of `extract_nested_email_headers` (headers.py). */
  const NestedToRule := RecipientRule(false, false, 2, false, ["to:"])
  /** The cc: line of `extract_nested_email_headers` (headers.py). */
  const NestedCcRule := RecipientRule(false, false, 2, false, ["cc:"])

  /** Whether a trimmed part is taken as an address as it stands. */
  predicate TakenAsIs(rule: RecipientRule, part: string) {
    '@' in part && !(rule.excludeTags && (EndsWith(part, "@Enron") || EndsWith(part, "@ECT")))
  }

  /** The address one comma-separated part contributes, if any. */
  function PartAddress(rule: RecipientRule, raw: string): (r: Option<string>)
    ensures r.Some? ==> IsAddress(r.value)
  {
    var part := Strip(raw);
    if part == "" then None
    else if TakenAsIs(rule, part) then
      LowerKeeps(part, '@');
      Some(Lower(part))
    else
      var segments := Split(if rule.splitTrimmed then part else raw, '/');
      var name := Strip(segments[0]);
      if |segments| < rule.minSegments || (rule.requireName && name == "")
        || StartsWithAny(Lower(name), rule.keywords)
      then None
      else Some(EnronAddress(name))
  }

  function PartList(a: Option<string>): seq<string> {
    match a case Some(x) => [x] case None => []
  }

  /** The addresses of all parts, in order. */
  function CommaAddresses(rule: RecipientRule, parts: seq<string>): (r: seq<string>)
    ensures AllAddresses(r)
  {
    if |parts| == 0 then []
    else
      PartList(PartAddress(rule, parts[0])) + CommaAddresses(rule, parts[1..])
  }

  /** The lowercased `<...>` contents that hold an '@', in order. */
  function StandardEmails(tokens: seq<string>): (r: seq<string>)
    ensures AllAddresses(r)
  {
    if |tokens| == 0 then []
    else
      var email := Lower(tokens[0]);
      (if '@' in email then [email] else []) + StandardEmails(tokens[1..])
  }

  /** What `process_recipients` appends for one line. */
  function Recipients(line: string): seq<string> {
    if line == "" then []
    else
      var standard := StandardEmails(BracketTokens(line));
      if |standard| > 0 then standard else CommaAddresses(HelperRule, Split(line, ','))
  }

  /** The loop over `<...>` matches in `process_recipients`. */
  method CollectStandardEmails(tokens: seq<string>) returns (standard: seq<string>)
    ensures standard == StandardEmails(tokens)
  {
    standard := [];
    var k := 0;
    while k < |tokens|
      invariant 0 <= k <= |tokens|
      invariant standard + StandardEmails(tokens[k..]) == StandardEmails(tokens)
    {
      assert tokens[k..][1..] == tokens[k + 1..];
      var email := Lower(tokens[k]);
      if '@' in email {
        standard := standard + [email];
      }
      k := k + 1;
    }
  }

  lemma CommaAddressesStep(rule: RecipientRule, parts: seq<string>, j: nat)
    requires j < |parts|
    ensures CommaAddresses(rule, parts[j..])
         == PartList(PartAddress(rule, parts[j])) + CommaAddresses(rule, parts[j + 1..])
  {
    assert parts[j..][1..] == parts[j + 1..];
  }

  /** The loop over comma parts, appending each part's address to `list`. */
  method AppendCommaParts(rule: RecipientRule, parts: seq<string>, list: seq<string>) returns (result: seq<string>)
    ensures result == list + CommaAddresses(rule, parts)
  {
    result := list;
    var j := 0;
    while j < |parts|
      invariant 0 <= j <= |parts|
      invariant result + CommaAddresses(rule, parts[j..]) == list + CommaAddresses(rule, parts)
    {
      CommaAddressesStep(rule, parts, j);
      result := result + PartList(PartAddress(rule, parts[j]));
      j := j + 1;
    }
  }

  /** `process_recipients(line, list)`: the list after the call. */
  method ProcessRecipients(line: string, list: seq<string>) returns (result: seq<string>)
    ensures result == list + Recipients(line)
  {
    if line == "" {
      return list;
    }
    var standard := CollectStandardEmails(BracketTokens(line));
    if |standard| > 0 {
      result := list + standard;
    } else {
      result := AppendCommaParts(HelperRule, Split(line, ','), list);
    }
  }

  /** An empty line appends nothing. */
  lemma RecipientsOfEmptyLine()
    ensures Recipients("") == []
  {
  }

  /** When some `<...>` token holds an '@', exactly those tokens, lowercased and in
      order, are appended. */
  lemma {:induction false} RecipientsPreferBrackets(line: string)
    requires line != ""
    requires exists k :: 0 <= k < |BracketTokens(line)| && '@' in BracketTokens(line)[k]
    ensures Recipients(line) == StandardEmails(BracketTokens(line))
    ensures |Recipients(line)| > 0
  {
    var k :| 0 <= k < |BracketTokens(line)| && '@' in BracketTokens(line)[k];
    StandardEmailsNonEmpty(BracketTokens(line), k);
  }

  lemma {:induction false} StandardEmailsNonEmpty(tokens: seq<string>, k: nat)
    requires k < |tokens| && '@' in tokens[k]
    ensures |StandardEmails(tokens)| > 0
  {
    LowerKeeps(tokens[0], '@');
    if k > 0 {
      StandardEmailsNonEmpty(tokens[1..], k - 1);
    }
  }

  /** Every string `process_recipients` appends is an address: it holds an '@' and
      has no upper-case letter. */
  lemma RecipientsAreAddresses(line: string)
    ensures AllAddresses(Recipients(line))
  {
  }

  /** A comma part under the `process_recipients` rule: kept lowercased when it holds an
      '@' and is not an "@Enron"/"@ECT" tag, otherwise the name before the first '/'
      is synthesised, and a name starting "to:"/"cc:" is dropped. */
  lemma HelperPartCases(raw: string)
    requires Strip(raw) != ""
    ensures TakenAsIs(HelperRule, Strip(raw)) ==> PartAddress(HelperRule, raw) == Some(Lower(Strip(raw)))
    ensures !TakenAsIs(HelperRule, Strip(raw)) ==>
      var name := Strip(Split(Strip(raw), '/')[0]);
      PartAddress(HelperRule, raw) ==
        if name == "" || StartsWithAny(Lower(name), ["to:", "cc:"]) then None
        else Some(EnronAddress(name))
  {
  }

  /** Under the `extract_nested_email_headers` rule, a part with neither '@' nor '/'
      is dropped. */
  lemma NestedBareNameDropped(raw: string, rule: RecipientRule)
    requires rule == NestedToRule || rule == NestedCcRule
    requires '@' !in raw && '/' !in raw
    ensures PartAddress(rule, raw) == None
  {
    StripKeepsOut(raw, '@');
    SplitWithout(raw, '/');
  }

  /** A comma part under the `extract_nested_email_headers` rules for To: and cc:
      lines: a part holding '@' is kept stripped and lowercased; any other part, split
      at '/' as it stands, needs at least two segments, and then the trimmed name before
      the first '/' (which may be empty) becomes its dotted lowercase form +
      "@enron.com", unless it starts with the line's own keyword. */
  lemma NestedPartCases(rule: RecipientRule, raw: string)
    requires rule == NestedToRule || rule == NestedCcRule
    ensures '@' in raw ==> PartAddress(rule, raw) == Some(Lower(Strip(raw)))
    ensures '@' !in raw ==>
      var segments := Split(raw, '/');
      var name := Strip(segments[0]);
      PartAddress(rule, raw) ==
        if |segments| < 2 || StartsWith(Lower(name), rule.keywords[0]) then None
        else Some(EnronAddress(name))
  {
    if '@' in raw {
      StripKeepsNonSpace(raw, '@');
    } else {
      StripKeepsOut(raw, '@');
      var name := Strip(Split(raw, '/')[0]);
      assert StartsWithAny(Lower(name), rule.keywords) <==> StartsWith(Lower(name), rule.keywords[0]);
      if Strip(raw) == "" && '/' in raw {
        StripKeepsNonSpace(raw, '/');
      }
      if '/' !in raw {
        SplitWithout(raw, '/');
      }
    }
  }

  // ---------------------------------------------------------------- ids

  /** The first 16 characters of a digest (`hexdigest()[:16]`). */
  function Prefix16(h: string): string {
    if |h| <= 16 then h else h[..16]
  }

  /** The 900-character sample hashed for content longer than 1000 characters. */
  function Sample(content: string): (r: string)
    requires |content| > 1000
    ensures |r| == 900
    ensures r[..300] == content[..300]
    ensures r[300..600] == content[|content| / 2 - 150..|content| / 2 + 150]
    ensures r[600..] == content[|content| - 300..]
  {
    var middleStart := Max(0, |content| / 2 - 150);
    content[..300] + Slice(content, middleStart, middleStart + 300) + content[Max(0, |content| - 300)..]
  }

  /** `generate_id(content, file_id, message_index)`; an empty `fileId` stands for a
      missing one. */
  function GenerateId(md5: string -> string, content: string, fileId: string, index: Option<nat>): string {
    if fileId != "" then Prefix16(md5(fileId))
    else if |content| > 1000 then md5(Sample(content))
    else md5(content)
  }

  /** With a file id, the id depends on nothing else. */
  lemma IdIgnoresContent(md5: string -> string, c1: string, c2: string, fileId: string, i1: Option<nat>, i2: Option<nat>)
    requires fileId != ""
    ensures GenerateId(md5, c1, fileId, i1) == GenerateId(md5, c2, fileId, i2)
  {
  }

  /** Without one, long content is identified by its three 300-character windows:
      two contents of the same length that agree on them get the same id. */
  lemma IdFromWindows(md5: string -> string, c1: string, c2: string, i1: Option<nat>, i2: Option<nat>)
    requires |c1| == |c2| > 1000
    requires c1[..300] == c2[..300]
    requires c1[|c1| / 2 - 150..|c1| / 2 + 150] == c2[|c2| / 2 - 150..|c2| / 2 + 150]
    requires c1[|c1| - 300..] == c2[|c2| - 300..]
    ensures GenerateId(md5, c1, "", i1) == GenerateId(md5, c2, "", i2)
  {
    var s1, s2 := Sample(c1), Sample(c2);
    assert s1 == s1[..300] + s1[300..600] + s1[600..];
    assert s2 == s2[..300] + s2[300..600] + s2[600..];
  }

  /** Short content is hashed whole. */
  lemma IdOfShortContent(md5: string -> string, c: string, i: Option<nat>)
    requires |c| <= 1000
    ensures GenerateId(md5, c, "", i) == md5(c)
  {
  }

  // ---------------------------------------------------------------- labelled headers

  /** `extract_header_from_text(text, name)`: the trimmed value after the first
      "name:" (any case), or "" when there is none. */
  function ExtractHeaderFromText(text: string, name: string): (r: string)
    ensures IsTrimmed(r) && '\n' !in r
    ensures (forall p :: 0 <= p <= |text| ==> !CiAt(text, p, name + ":")) ==> r == ""
  {
    match HeaderValue(text, name + ":")
    case Some((_, v)) => StripKeepsOut(v, '\n'); Strip(v)
    case None => ""
  }

  /** `extract_address_from_line(line)`: the first `<...>` token, else the first bare
      address, lowercased; "" when there is neither. */
  function ExtractAddressFromLine(line: string): (r: string)
    ensures IsLower(r)
    ensures FirstBracket(line).Some? ==> r == Lower(FirstBracket(line).value)
    ensures FirstBracket(line).None? && FindEmail(line).Some? ==> r == Lower(FindEmail(line).value)
    ensures FirstBracket(line).None? && FindEmail(line).None? ==> r == ""
  {
    match FirstBracket(line)
    case Some(t) => Lower(t)
    case None =>
      match FindEmail(line)
      case Some(e) => Lower(e)
      case None => ""
  }

  // ---------------------------------------------------------------- body cleaning

  /** `re.split(pattern, text)[0]` when the pattern matched at `m`. */
  function CutAt(text: string, m: Option<nat>): (r: string)
    ensures StartsWith(text, r)
  {
    if m.Some? && m.value <= |text| then text[..m.value] else text
  }

  /** The text after each pattern in turn has cut it at its first match. */
  function ApplyCuts(cuts: seq<string -> Option<nat>>, text: string): (r: string)
    decreases |cuts|
    ensures StartsWith(text, r)
  {
    if |cuts| == 0 then text else ApplyCuts(cuts[1..], CutAt(text, cuts[0](text)))
  }

  /** What `clean_body` returns. */
  function Cleaned(cuts: seq<string -> Option<nat>>, body: string): (r: string)
    ensures IsTrimmed(r)
  {
    if body == "" then "" else Strip(ApplyCuts(cuts, body))
  }

  lemma CleanedIsSubstring(cuts: seq<string -> Option<nat>>, body: string)
    ensures IsSubstring(Cleaned(cuts, body), body)
  {
    if body == "" {
      assert At(body, 0, "");
    } else {
      var cut := ApplyCuts(cuts, body);
      PrefixIsSubstring(body, cut);
      StripIsSubstring(cut);
      SubstringTrans(Strip(cut), cut, body);
    }
  }

  /** `clean_body(body)`, given where each of its six patterns first matches. */
  method CleanBody(cuts: seq<string -> Option<nat>>, body: string) returns (r: string)
    ensures r == Cleaned(cuts, body)
  {
    if body == "" {
      return "";
    }
    var text := body;
    var k := 0;
    while k < |cuts|
      invariant 0 <= k <= |cuts|
      invariant ApplyCuts(cuts[k..], text) == ApplyCuts(cuts, body)
    {
      assert cuts[k..][1..] == cuts[k + 1..];
      var m := cuts[k](text);
      if m.Some? && m.value <= |text| {
        text := text[..m.value];
      }
      k := k + 1;
    }
    r := Strip(text);
  }
}

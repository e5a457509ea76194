# Enron email parser: nested-message extraction, modelled in Dafny

This project models the core of the Enron email parser. That core takes one raw
email and turns it into a list of header records:

- the message's own record first;
- then one record for each forwarded or quoted message found in its body.

The model covers:

- **Recipient synthesis** (`Helpers`): `process_recipients` and the two other copies of
  its comma-part rule, which are one function with their differences made explicit.
  Also `generate_id`'s content sampling, `extract_header_from_text`,
  `extract_address_from_line`, and `clean_body` as "cut at the first match of each
  pattern in turn".
- **Line-oriented header extractors** (`Headers`):
  - `extract_enron_style_headers`, a state machine over lines. It does a
    "Please respond to" detection pass, then a header pass with To:/cc: continuation
    and the "Sent by" override, then a body-start search with a best-effort fallback,
    then a recipient recovery pass and a final address sweep.
  - `extract_nested_email_headers`, which handles the name / date / To: stanza.
  - The dispatcher `extract_forwarded_headers` with its generic labelled-header
    fallback.
- **The segment finder** (`Content`): `extract_original_email`, with five phases in
  priority order, their length filters, the duplicate checks of the third phase, the
  delimiter split and the stanza span.
- **The body isolator** (`Content`): `extract_forwarded_full_body`, with four steps in
  priority order.
- **Record assembly** (`Parser`):
  - the stanza fast path of `_extract_nested_email`, its acceptance rule, and the
    general path after it;
  - the "Please respond to" recipient repair;
  - the nested-record defaults and the pseudo-message fallback;
  - `_parse_email_content`'s ordering of the records;
  - the parser's thread id.
- **The record** (`Models`): `EmailData`, its dictionary round trip, and the thread key
  (subject without a reply prefix, plus the sorted distinct participants).

The regular expressions the header extractors, the parser and the address helpers rely
on are written out as exact recognisers (`Patterns`). Two groups are inputs instead: the
five match families of `extract_original_email` and the six patterns of `clean_body`
(see "Left out"). Python's string methods are in `Text`, with two generic loops that the
line passes run: `AnyMatch` (find a line that passes a test) and `Fold` (update a
state line by line). Everything the code delegates to a library is a function-typed
field of `Collaborators.Env`, so every property holds whatever that function
computes. This covers MIME parsing, date parsing, RFC 5322 address parsing, md5,
uuid5 and file reading.

Each imperative piece of the source is a method with its loops and invariants. Each
method's `ensures` ties the result to a specification function. The properties the
source promises are then lemmas about that function.

## Behaviour of the code, as modelled

Where the documented behaviour and the code differ, the model follows the code:

- `extract_original_email` can return overlapping segments. For example, the
  delimiter split of the third phase can add a segment that contains one found by a
  pattern.
- In `_extract_nested_email`, `parsed_date` is never assigned when the stanza path did
  not reach email_parser/parser.py line 315 and the loose date search finds nothing.
  The test at line 388 then raises, and the pseudo-message fallback runs (`DateVar.Unset`).
- A stanza whose To: line holds nothing after "To:" leaves `full_cc_text` unassigned.
  The test at line 280 raises, and the fallback runs (`Stanza.Unbound`).
- The duplicate checks of `extract_enron_style_headers` compare the raw `<...>` token
  with entries that are already lowercased. A token with upper-case letters can
  therefore be added twice (`Headers.AppendNewLower`).
- A "Sent by" value that holds an '@' is kept in its original case.
- The date `extract_date` produces for naive times is UTC, while the direct reading in
  `_extract_nested_email` uses US/Central. Both are oracles here.

## Model

| member | source | states |
|---|---|---|
| Helpers.EnronAddress | email_parser/utils/helpers.py:265 | a synthesised internal address ends in "@enron.com" and is an address (holds '@', no upper case) |
| Helpers.PartAddress | email_parser/utils/helpers.py:249-265 | one comma part, under any of the three rules, contributes at most one address |
| Helpers.CommaAddresses | email_parser/utils/helpers.py:249-265 | every address the comma parts yield holds '@' and has no upper case |
| Helpers.StandardEmails | email_parser/utils/helpers.py:236-241 | the lowered `<...>` contents holding '@' are all addresses |
| Helpers.CollectStandardEmails | email_parser/utils/helpers.py:236-241 | the bracket loop keeps exactly the lowered tokens that hold '@', in order |
| Helpers.AppendCommaParts | email_parser/utils/helpers.py:249-265 | the comma-part loop leaves the old list as a prefix and appends each part's address in order |
| Helpers.ProcessRecipients | email_parser/utils/helpers.py:223-265 | `process_recipients` only appends: the old list is an unchanged prefix of the new one |
| Helpers.RecipientsOfEmptyLine | email_parser/utils/helpers.py:232-233 | an empty line leaves the list unchanged |
| Helpers.RecipientsPreferBrackets | email_parser/utils/helpers.py:236-245 | when some `<...>` token holds '@', exactly those tokens, lowered and in order, are appended, and at least one is |
| Helpers.StandardEmailsNonEmpty | email_parser/utils/helpers.py:240-241 | a token holding '@' is never filtered out |
| Helpers.RecipientsAreAddresses | email_parser/utils/helpers.py:239-265 | every string appended holds '@' and has no upper-case letter |
| Helpers.HelperPartCases | email_parser/utils/helpers.py:255-265 | a part with '@' not ending in @Enron/@ECT is kept lowered; any other part becomes the dotted name before '/' + "@enron.com", and names starting to:/cc: are dropped |
| Helpers.NestedBareNameDropped | email_parser/extractors/headers.py:334-344 | under the nested extractor's rule, a part with neither '@' nor '/' yields nothing |
| Helpers.NestedPartCases | email_parser/extractors/headers.py:331-344 | under the nested extractor's To:/cc: rule, a part holding '@' is kept stripped and lowercased; any other part, split at '/' as it stands, needs at least two segments, and its trimmed name before the first '/' (possibly empty) becomes the dotted name + "@enron.com" unless it starts with the line's keyword |
| Helpers.Sample | email_parser/utils/helpers.py:45-51 | the sample is 900 characters: the first 300, the 300 from len/2-150, and the last 300 |
| Helpers.IdIgnoresContent | email_parser/utils/helpers.py:30-41 | with a non-empty file id, the id ignores content and message index |
| Helpers.IdFromWindows | email_parser/utils/helpers.py:45-52 | without a file id, long contents agreeing on the three windows get the same id |
| Helpers.IdOfShortContent | email_parser/utils/helpers.py:54-55 | content of at most 1000 characters is hashed whole |
| Helpers.ExtractHeaderFromText | email_parser/utils/helpers.py:151-153 | the value is trimmed and holds no newline, and it is "" when "Name:" does not occur in any case |
| Helpers.ExtractAddressFromLine | email_parser/utils/helpers.py:156-176 | the first `<...>` token lowered, else the first bare address lowered, else "" |
| Patterns.FindEmailLeftmost | email_parser/utils/helpers.py:172-174 | the bare-address search finds nothing exactly when the pattern matches at no position, and otherwise returns the match at the leftmost position where it matches |
| Patterns.FindEmailHasAt | email_parser/utils/helpers.py:172-174 | a bare address found is a piece of the line and holds an '@' |
| Patterns.EmailFromFirst | email_parser/utils/helpers.py:172 | no position between the start of the scan and the position found is a match |
| Patterns.EmailFromNone | email_parser/utils/helpers.py:172 | a scan that finds nothing has passed no matching position |
| Patterns.ClassRunIsRun | email_parser/utils/helpers.py:172 | the character runs of the bare-address pattern are the runs the other patterns use |
| Helpers.CutAt | email_parser/utils/helpers.py:133-135 | cutting at a match keeps a prefix of the text |
| Helpers.ApplyCuts | email_parser/utils/helpers.py:132-135 | the patterns applied in turn leave a prefix of the body |
| Helpers.Cleaned | email_parser/utils/helpers.py:106-137 | the cleaned body is trimmed |
| Helpers.CleanedIsSubstring | email_parser/utils/helpers.py:129-137 | the cleaned body is a piece of the body |
| Helpers.CleanBody | email_parser/utils/helpers.py:106-137 | the pattern loop computes the cleaned body |
| Patterns.FindDate | email_parser/parser.py:342 | a found date is a non-empty text no longer than the input |
| Patterns.StanzaIsLoose | email_parser/extractors/headers.py:322 | every stanza-style date is also a loose-style date ending at the same place |
| Patterns.BannerIsLoose | email_parser/extractors/headers.py:105 | every banner-style date is also a loose-style date ending at the same place |
| Patterns.Tokens | email_parser/utils/helpers.py:237 | each `<...>` match is non-empty and holds no '>' (and holds an inner '@' for the `@` pattern) |
| Patterns.SentByCapture | email_parser/extractors/headers.py:82 | the lazy "Sent by: " capture is non-empty and shorter than the line |
| Patterns.ForwardedByCapture | email_parser/extractors/headers.py:98 | the forwarder's name is non-empty and holds no '/' |
| Patterns.HeaderValue | email_parser/utils/helpers.py:151-152 | a match's value holds no newline and the label occurs, in any case |
| Headers.AppendNewLower | email_parser/extractors/headers.py:137-139 | the token loop only appends, and keeps a lower-case list lower-case |
| Headers.DetectPleaseRespond | email_parser/extractors/headers.py:70-73 | the first pass is true iff some lowered, trimmed line starts with "please respond to" |
| Text.AnyMatch | email_parser/extractors/headers.py:70-73 | the first-pass loop answers true exactly when some element passes the line test |
| Headers.Add | email_parser/extractors/headers.py:135-142 | adding recipients only appends and keeps the list lower-case |
| Headers.SentByValue | email_parser/extractors/headers.py:84-87 | a "Sent by" sender always holds '@' |
| Headers.SentByOf | email_parser/extractors/headers.py:80-87 | a "Sent by" line's sender, when set, holds '@' |
| Headers.FieldAdditions | email_parser/extractors/headers.py:132-142 | a To:/cc: line adds only lower-case entries |
| Headers.ContinuationAdditions | email_parser/extractors/headers.py:164-175 | a continuation line adds only lower-case entries |
| Headers.Classify | email_parser/extractors/headers.py:76-181 | each line's reading is well formed: lower-case additions, Subject: lines non-blank, "Sent by" senders hold '@' |
| Headers.ScanLine | email_parser/extractors/headers.py:76-181 | one iteration only appends to `to` and `cc` and never touches `bcc` |
| Headers.StepKeepsLower | email_parser/extractors/headers.py:137-175 | one iteration keeps the recipient lists lower-case |
| Headers.ScanLines | email_parser/extractors/headers.py:76-181 | the second pass computes the scan over all lines |
| Headers.ScanBccEmpty | email_parser/extractors/headers.py:44-52 | `bcc` stays empty throughout the scan |
| Headers.ScanKeepsLower | email_parser/extractors/headers.py:128-175 | every recipient collected is lower-case |
| Headers.ScanOnlyAppends | email_parser/extractors/headers.py:128-175 | the lists after m lines are prefixes of the lists after n >= m lines |
| Headers.ScanSentBy | email_parser/extractors/headers.py:79-87 | the tracked "Sent by" sender is the one of the last line that sets one |
| Headers.StepSentBy | email_parser/extractors/headers.py:79-87 | a "Sent by" line with a sender replaces the tracked sender; any other line keeps it |
| Headers.ScanTracksField | email_parser/extractors/headers.py:128-181 | a To: (cc:) field is being continued iff the last To:/cc:/Subject: line was a To: (cc:) line |
| Headers.ContinuationJoinsField | email_parser/extractors/headers.py:161-175 | a continuation line adds its recipients to the field of the last To:/cc: line and leaves the other list alone |
| Headers.SweepTokens | email_parser/extractors/headers.py:264-266 | every swept token holds '@' and is lower-case |
| Headers.AfterSubject | email_parser/extractors/headers.py:194-206 | the body found from a Subject: line is a non-blank line after it |
| Headers.BodyStart | email_parser/extractors/headers.py:189-206 | the body start, when found, is a non-blank line after line 1 |
| Headers.LaterSubjectFails | email_parser/extractors/headers.py:189-206 | when the search from a Subject: line fails, so does the search from any later one |
| Headers.SearchAfterSubject | email_parser/extractors/headers.py:196-204 | the two inner loops compute the search from one Subject: line |
| Headers.FindBodyStart | email_parser/extractors/headers.py:189-206 | the outer loop finds the body start from the first Subject: line that yields one |
| Headers.BestEffort | email_parser/extractors/headers.py:212-233 | the best-effort loop skips every line until the first non-header blank or all-caps label line, then collects the rest |
| Headers.RecoverLineKeeps | email_parser/extractors/headers.py:238-257 | one recovery line only appends to `to`/`cc`, keeps sender, date, bcc and body, and never replaces a subject |
| Headers.Recover | email_parser/extractors/headers.py:237-257 | the recovery loop computes the recovery pass |
| Headers.RecoverKeeps | email_parser/extractors/headers.py:237-257 | the recovery pass only appends and keeps sender, date, bcc, body and a set subject |
| Headers.RecoverLower | email_parser/extractors/headers.py:242-253 | the recovery pass keeps recipient lists lower-case |
| Headers.RecoverLineLower | email_parser/extractors/headers.py:242-253 | one recovery line keeps recipient lists lower-case |
| Headers.CollectPotential | email_parser/extractors/headers.py:262-268 | the sweep loop computes the potential recipients |
| Headers.AddTokens | email_parser/extractors/headers.py:265-268 | the token loop skips the sender and tokens already collected |
| Headers.AddNewExceptShape | email_parser/extractors/headers.py:265-268 | the collected list never holds the sender, a duplicate or an entry without '@' |
| Headers.PotentialShape | email_parser/extractors/headers.py:261-268 | the sweep collects only distinct lower-case addresses other than the sender |
| Headers.AppendNew | email_parser/extractors/headers.py:271-273 | appending missing entries keeps the old list as a prefix |
| Headers.AppendMissing | email_parser/extractors/headers.py:271-273 | the final loop appends each potential recipient not yet in `to` |
| Headers.AppendNewDistinct | email_parser/extractors/headers.py:271-273 | distinct entries appended to an empty list come out as they are |
| Headers.FindBody | email_parser/extractors/headers.py:189-233 | the body is cut from the body start, else by the best-effort pass |
| Headers.RecoverRecipients | email_parser/extractors/headers.py:235-273 | the recovery pass runs only with no To: recipient and a sender; the sweep runs only if `to` is still empty and a subject is set |
| Headers.ExtractEnronStyleHeaders | email_parser/extractors/headers.py:19-275 | the three passes and the recovery compute the enron-style headers |
| Headers.LastSentByHasAt | email_parser/extractors/headers.py:80-87 | the last "Sent by" sender holds '@' |
| Headers.RecoveredKeeps | email_parser/extractors/headers.py:235-273 | the recovery pass and the sweep keep the sender, date, bcc and body |
| Headers.EnronBccEmpty | email_parser/extractors/headers.py:44-52 | `extract_enron_style_headers` never fills `bcc` |
| Headers.AssembleBccEmpty | email_parser/extractors/headers.py:44-52 | the assembled headers have an empty `bcc` |
| Headers.AssembleSentByWins | email_parser/extractors/headers.py:183-185 | a "Sent by" sender overrides the sender of every other source |
| Headers.EnronSentByWins | email_parser/extractors/headers.py:183-185 | the result's sender is the last "Sent by" sender whenever there is one |
| Headers.SweepShapeHolds | email_parser/extractors/headers.py:261-273 | the sweep changes `to` only when it was empty with a sender and subject set, and then adds distinct addresses other than the sender |
| Headers.EnronRecipientsLower | email_parser/extractors/headers.py:128-273 | every recipient of the result is lower-case |
| Headers.AssembleLower | email_parser/extractors/headers.py:128-185 | the assembled recipient lists are lower-case |
| Headers.EnronBodyInContent | email_parser/extractors/headers.py:208-233 | the body is a piece of the content |
| Headers.AssembleBody | email_parser/extractors/headers.py:208-233 | the assembled body is a piece of the content |
| Headers.NestedClassify | email_parser/extractors/headers.py:316-382 | a stanza line's To:/cc: entries and its name-line sender are addresses |
| Headers.NestedStep | email_parser/extractors/headers.py:316-382 | one stanza iteration never touches `bcc` |
| Headers.NestedListIsLast | email_parser/extractors/headers.py:327-366 | after the name line, the `to` (or `cc`) list is that of the last To: line (or cc: line with text) read before the body start, or empty when there is none |
| Headers.NestedToIsLast | email_parser/extractors/headers.py:327-346 | each To: line replaces `to` with its entries, so `to` is the list of the last To: line between the name line and the body start, or empty |
| Headers.NestedCcIsLast | email_parser/extractors/headers.py:348-366 | a cc: line with text after "cc:" replaces `cc`, a bare "cc:" line leaves it, so `cc` is the list of the last cc: line with text between the name line and the body start, or empty |
| Headers.NestedDoneStays | email_parser/extractors/headers.py:373-375 | once the body start is found, nothing changes |
| Headers.NestedNameIsFirst | email_parser/extractors/headers.py:377-382 | the name line is the first name line (after a blank, before a date-shaped line), and it sets the sender |
| Headers.NestedAddresses | email_parser/extractors/headers.py:327-366 | every kept recipient is an address and `bcc` stays empty |
| Headers.NestedBodyStartBound | email_parser/extractors/headers.py:373-374 | the body start lies after the line that found it |
| Headers.NestedScanLines | email_parser/extractors/headers.py:316-382 | the stanza loop, stopping at the body start, computes the scan |
| Headers.ExtractNestedEmailHeaders | email_parser/extractors/headers.py:278-388 | the scan and the body cut compute the nested headers |
| Headers.NestedHeadersAddresses | email_parser/extractors/headers.py:327-366 | the nested extractor's recipients are addresses and `bcc` is empty |
| Headers.NestedHeadersFrom | email_parser/extractors/headers.py:377-382 | the sender is set only by the first name line, as its dotted lowercase name + "@enron.com" |
| Headers.NestedAssembleFrom | email_parser/extractors/headers.py:377-382 | the assembled sender comes from the first name line, or is empty when there is none |
| Headers.NestedAssembleAddresses | email_parser/extractors/headers.py:327-366 | the assembled recipients are addresses and `bcc` is empty |
| Headers.NestedNameFrom | email_parser/extractors/headers.py:382 | a name line's sender is its trimmed text as an internal address |
| Headers.NestedBodyInContent | email_parser/extractors/headers.py:384-386 | the nested extractor's body is a piece of the content |
| Headers.NestedScanBodyEmpty | email_parser/extractors/headers.py:316-386 | the stanza scan leaves the body empty, so the body is the cut after it, a piece of the content |
| Headers.NestedAssembleBody | email_parser/extractors/headers.py:384-386 | the assembled body is a piece of the content |
| Headers.MaxEndIsMax | email_parser/extractors/headers.py:452-456 | the kept end is at least every match end and is one of them, or -1 |
| Headers.LargestEnd | email_parser/extractors/headers.py:450-456 | the label loop keeps the largest match end |
| Headers.LastHeaderEnd | email_parser/extractors/headers.py:448-456 | the fallback computes the end of the last label found |
| Headers.GenericBodyOf | email_parser/extractors/headers.py:436-463 | the body search: after the header block, else after the last label, else the cleaned content |
| Headers.ExtractGenericHeaders | email_parser/extractors/headers.py:412-466 | the generic labelled-header extraction |
| Headers.GenericBodyInContent | email_parser/extractors/headers.py:436-465 | the generic body is a piece of the content |
| Headers.ExtractForwardedHeaders | email_parser/extractors/headers.py:391-466 | a "Forwarded by" banner, or a quote, '<', '>' and " on ", route to the enron-style extractor; else the name/date stanza routes to the nested one; else the generic one |
| Headers.ForwardedBodyInContent | email_parser/extractors/headers.py:391-466 | whichever extractor runs, the body is a piece of the content |
| Headers.ForwardedBcc | email_parser/extractors/headers.py:404-431 | only the generic route can fill `bcc` |
| Content.JoinedAll | email_parser/extractors/content.py:32-36 | each candidate is its match's header group followed by its content group |
| Content.LongMembers | email_parser/extractors/content.py:37-38 | the length filter keeps exactly the candidates longer than the bound |
| Content.LongIsLong | email_parser/extractors/content.py:37-38 | the filter keeps only texts longer than the bound, so the forwarded phase keeps texts longer than 20 |
| Content.KeepLong | email_parser/extractors/content.py:31-38 | the match loop keeps the candidates longer than the bound, in order |
| Content.AddNewAdds | email_parser/extractors/content.py:80-82 | the third phase keeps what it found as a prefix and adds only new candidates longer than 20 |
| Content.AddNewComplete | email_parser/extractors/content.py:81 | no candidate longer than 20 is missed |
| Content.AddNewDistinct | email_parser/extractors/content.py:81 | no segment is added twice |
| Content.AddNewMembers | email_parser/extractors/content.py:81 | every segment was found before or is a candidate longer than 20 |
| Content.AddNewLoop | email_parser/extractors/content.py:76-82 | the candidate loop computes the step |
| Content.NextBreak | email_parser/extractors/content.py:132-134 | the stanza's end lies within the body |
| Content.StanzaSegment | email_parser/extractors/content.py:129-137 | a stanza segment is trimmed |
| Content.FirstFoundIsFirst | email_parser/extractors/content.py:23-143 | the result is the finds of the first phase that finds anything, and it is empty iff every phase finds nothing |
| Content.OriginalPhaseOrder | email_parser/extractors/content.py:23-143 | each phase runs only if every earlier phase found nothing, in the order forwarded, respond, patterns+delimiters, specific, stanzas |
| Content.LongPhases | email_parser/extractors/content.py:37-138 | forwarded-phase segments are longer than 20; respond, specific and stanza segments longer than 30 |
| Content.PatternPhaseShape | email_parser/extractors/content.py:73-82 | the pattern loop adds no duplicate and only texts longer than 20 |
| Content.DelimiterPhaseShape | email_parser/extractors/content.py:95-101 | the delimiter loop adds no duplicate and only texts longer than 20 |
| Content.ThirdPhaseShape | email_parser/extractors/content.py:59-101 | the third phase never adds a segment twice and each is longer than 20 |
| Content.OriginalLengths | email_parser/extractors/content.py:37-138 | every segment is longer than 20, and longer than 30 unless it came from the first or third phase |
| Content.SplitOnPieces | email_parser/extractors/content.py:97-99 | a split part after the first, with the delimiter in front, is a piece of the body, holds no delimiter, and is followed by the next delimiter or the end of the body |
| Content.DelimiterSegments | email_parser/extractors/content.py:95-101 | each delimiter segment starts with the delimiter, is a piece of the body, and runs to the next occurrence or the end |
| Content.StanzaSegmentInBody | email_parser/extractors/content.py:129-139 | each stanza segment is trimmed and is a piece of the body |
| Content.DelimiterLoop | email_parser/extractors/content.py:95-101 | the delimiter loop computes the delimiter phase |
| Content.PatternLoop | email_parser/extractors/content.py:73-85 | the pattern loop computes the pattern phase |
| Content.ExtractOriginalEmail | email_parser/extractors/content.py:13-143 | the phases, step by step, compute the segments |
| Content.FirstListed | email_parser/extractors/content.py:174-175 | the marker picked is the first in list order that occurs; none is picked iff none occurs |
| Content.EndCutBounds | email_parser/extractors/content.py:186-190 | the end of the cut lies between the marker and the end of the content |
| Content.EndCutIsEarliest | email_parser/extractors/content.py:186-190 | no end marker occurs before the cut, and the cut is at one unless it is the end |
| Content.MarkerCutApplies | email_parser/extractors/content.py:174-175 | the first step applies iff some section marker occurs |
| Content.MarkerCutSpan | email_parser/extractors/content.py:174-192 | the first step returns the trimmed text from the first listed marker to the earliest end marker after it |
| Content.CutFromApplies | email_parser/extractors/content.py:174-175 | the marker cut applies iff one of the markers occurs |
| Content.CutFromSpan | email_parser/extractors/content.py:174-192 | the cut runs from the first listed marker to the earliest end marker after it |
| Content.CutFromInContent | email_parser/extractors/content.py:174-192 | the marker cut is a piece of the content |
| Content.FirstBreak | email_parser/extractors/content.py:201-214 | the second step's break is the first blank line after a header line that is followed by a non-blank, non-header line |
| Content.FirstForwarded | email_parser/extractors/content.py:221-222 | the third step's line is the first "forwarded by" line with three lines after it |
| Content.FindBreak | email_parser/extractors/content.py:198-214 | the header loop computes the second step's start |
| Content.FindForwardedBy | email_parser/extractors/content.py:221-224 | the line loop computes the third step's line |
| Content.CutAtMarker | email_parser/extractors/content.py:174-192 | the marker loops compute the first step |
| Content.ExtractForwardedFullBody | email_parser/extractors/content.py:146-227 | the four steps, in priority order, compute the body |
| Content.FullBodyInContent | email_parser/extractors/content.py:160-227 | whichever step applies, the body is a piece of the content |
| Content.LineStepsInContent | email_parser/extractors/content.py:198-227 | the header-break and "forwarded by" steps give a piece of the content |
| Content.FullBodyOfInContent | email_parser/extractors/content.py:160-227 | the four steps give a piece of the content |
| Models.ToDict | email_parser/models.py:49-63 | the dictionary has exactly the eleven keys |
| Models.FromDictToDict | email_parser/models.py:33-63 | `from_dict(to_dict(x))` is `x`, field for field |
| Models.ToDictFromDict | email_parser/models.py:33-63 | a well-typed dictionary with exactly the eleven keys survives the round trip the other way |
| Models.FromDictDefaults | email_parser/models.py:36-46 | missing keys give "" for texts, [] for lists and None for date and thread id |
| Models.EmptyDict | email_parser/models.py:36-46 | the empty dictionary gives the default record |
| Models.PrefixLen | email_parser/models.py:77 | the prefix removed is no longer than the subject |
| Models.CleanSubject | email_parser/models.py:76-77 | the subject part of the key is lower-case |
| Models.CleanSubjectOnce | email_parser/models.py:77 | exactly one reply prefix followed by ": " is removed |
| Models.ReplySameSubject | email_parser/models.py:77 | "Re: Budget" and "Budget" give the same subject part |
| Models.LessIrreflexive | email_parser/models.py:80 | Python's string order is irreflexive |
| Models.LessTransitive | email_parser/models.py:80 | Python's string order is transitive |
| Models.LessTotal | email_parser/models.py:80 | Python's string order is total |
| Models.SortedDistinctShape | email_parser/models.py:80 | `sorted(set(xs))` is strictly sorted and has exactly the elements of xs |
| Models.SortedUnique | email_parser/models.py:80 | two strictly sorted lists with the same elements are equal |
| Models.NonEmptyOnlyMembers | email_parser/models.py:80 | `filter(None, xs)` keeps exactly the non-empty texts |
| Models.ParticipantsShape | email_parser/models.py:80 | the participants are strictly sorted and are exactly the non-empty sender and recipients |
| Models.SameParticipants | email_parser/models.py:80 | participants depend only on which non-empty addresses take part |
| Models.ThreadKeyIgnoresOrder | email_parser/models.py:80-81 | permuting or duplicating `to` does not change the key |
| Models.ThreadKeyEmptySender | email_parser/models.py:80 | an empty sender is ignored |
| Parser.ScanStanza | email_parser/parser.py:242-257 | the stanza loop computes the scan over the lines from line 3 on |
| Parser.StanzaDoneStays | email_parser/parser.py:249-253 | once a Subject: line is read, nothing changes |
| Parser.StanzaBeforeTheEnd | email_parser/parser.py:254-255 | before the first cc: or Subject: line only the To: text grows |
| Parser.StanzaToFrozen | email_parser/parser.py:245-257 | once out of the To: section the loop never returns to it |
| Parser.StanzaToText | email_parser/parser.py:242-257 | the To: text is the text after "To:" plus a space and each line up to the first cc: or Subject: line |
| Parser.StanzaBeforeSubject | email_parser/parser.py:249-253 | before the first Subject: line the subject is unset |
| Parser.StanzaStopsAtSubject | email_parser/parser.py:249-253 | the loop stops at the first Subject: line and takes its subject |
| Parser.CcValueCases | email_parser/parser.py:245-257 | the cc text after some lines: the last cc: line's text and the later continuations, else the continuations after the first cc: line, else empty |
| Parser.StanzaCcText | email_parser/parser.py:245-257 | before the first Subject: line, the cc text is the text of the last cc: line with text followed by " " + each later line that is neither cc: nor starts with "from:"; without one, the same continuations after the first cc: line follow the empty start; without any cc: line it stays empty |
| Parser.FirstGap | email_parser/parser.py:304-307 | the gap found is the first blank line followed by a non-blank one |
| Parser.StanzaBodyStart | email_parser/parser.py:300-308 | the body start lies within the segment after line 1 |
| Parser.SearchStanzaBody | email_parser/parser.py:300-308 | the search looks only after the first Subject: line |
| Parser.StanzaBodyStartShape | email_parser/parser.py:300-308 | the body starts on a non-blank line right after a blank one, after a Subject: line |
| Parser.StanzaRecipients | email_parser/parser.py:262-276 | every To: recipient of the stanza is an address |
| Parser.StanzaCc | email_parser/parser.py:279-297 | every cc recipient of the stanza is an address |
| Parser.StanzaOf | email_parser/parser.py:215-338 | an accepted stanza record has the segment's id and source `<file_id>-nested-<idx>` |
| Parser.StanzaPath | email_parser/parser.py:215-338 | the fast path, step by step, computes the stanza outcome |
| Parser.StanzaUnbound | email_parser/parser.py:232-280 | with the layout present and nothing after "To:", the fast path raises |
| Parser.StanzaShapeOfLines | email_parser/parser.py:216-224 | the path applies iff there are at least 5 lines, line 0 is non-empty, line 1 is date-shaped and line 2 starts with "to:" |
| Parser.StanzaAcceptance | email_parser/parser.py:227-338 | the record is returned iff the sender is set and `to` or the subject is non-empty; the sender is line 0 dotted + "@enron.com" and the subject defaults to the parent's |
| Parser.StanzaBodyInContent | email_parser/parser.py:310-312 | the stanza body is a piece of the segment |
| Parser.NamedCc | email_parser/parser.py:490-504 | an address found for a quoted name is lower-case |
| Parser.NamedCcs | email_parser/parser.py:490-504 | the named lookup finds at most one lower-case address per name |
| Parser.Without | email_parser/parser.py:538 | the filter keeps exactly the entries not excluded |
| Parser.Others | email_parser/parser.py:525-538 | the last fallback's addresses are lower-case |
| Parser.PleaseRespond | email_parser/parser.py:457-541 | the repair changes only `to` and `cc` |
| Parser.FindNamedCcs | email_parser/parser.py:489 | the quoted-name loop appends, in name order, the address found for each name and skips names with none |
| Parser.LookUpNamedCc | email_parser/parser.py:490-503 | one name's lookup: the bracket right after the quoted name wins, else the first bracketed address within 200 characters of the name's first quoted occurrence, lowercased; none if neither exists |
| Parser.HandlePleaseRespondFormat | email_parser/parser.py:457-541 | the repair, step by step, computes the updated headers |
| Parser.PleaseRespondLower | email_parser/parser.py:472-541 | the repair keeps recipient lists lower-case |
| Parser.PleaseRespondSweep | email_parser/parser.py:517-541 | when the earlier steps leave cc empty and a `cc: "Name"` line exists, cc is every bracketed address except the sender and recipient |
| Parser.EmailFields | email_parser/parser.py:140-197 | the sender is the first normalised address or ""; the body is kept; the cleaned body is a piece of it; no date header gives no date |
| Parser.Fallback | email_parser/parser.py:603-637 | the pseudo-message record has the segment's id and source, the parent's subject when it has none, and a cleaned body |
| Parser.NestedDict | email_parser/parser.py:543-575 | the record keeps the headers' addresses; the subject defaults to the parent's; no date gives None; an empty body is replaced by the cleaned segment |
| Parser.NestedBodyContent | email_parser/parser.py:577-601 | the body is the headers' body or a piece of the segment or of the raw file |
| Parser.GetNestedBodyContent | email_parser/parser.py:577-601 | the body lookup, step by step |
| Parser.ForwardedRecord | email_parser/parser.py:409-438 | the dispatcher's record has the segment's id and source and the parent's subject by default |
| Parser.GeneralPath | email_parser/parser.py:340-455 | any record from the general path has the segment's id and source |
| Parser.ExtractNested | email_parser/parser.py:199-455 | any record of a segment has the segment's id and source `<file_id>-nested-<idx>` |
| Parser.ReadDirectDate | email_parser/parser.py:341-378 | the direct date search, step by step |
| Parser.RepairedHeaders | email_parser/parser.py:381-385 | the enron-style headers with the "Please respond to" repair |
| Parser.ForwardedStep | email_parser/parser.py:409-438 | the dispatcher's record, step by step |
| Parser.GeneralFrom | email_parser/parser.py:380-442 | the general path once the date and headers are read |
| Parser.ExtractNestedGeneral | email_parser/parser.py:340-442 | the general path, step by step |
| Parser.ExtractNestedEmail | email_parser/parser.py:199-455 | `_extract_nested_email`, step by step |
| Parser.GeneralOutcomeShape | email_parser/parser.py:388-442 | the result is None iff the parsed date is set, the headers say nothing and the dispatcher's record is not kept; a meaningful result keeps the headers' sender and recipients and falls back to the parsed date |
| Parser.TopRecord | email_parser/parser.py:703-718 | the message's own record is identified by the file and sourced from it |
| Parser.NestedOutcomesExtend | email_parser/parser.py:728-729 | each iteration records the next segment's outcome |
| Parser.NestedOutcomesUnique | email_parser/parser.py:728-729 | the outcomes of all segments are determined by the segments |
| Parser.NestedOutcomesSourced | email_parser/parser.py:707-733 | every nested record is sourced `<file_id>-nested-<idx>` from its segment's index |
| Parser.PresentStable | email_parser/parser.py:728-731 | later segments do not change the records kept from earlier ones |
| Parser.PresentIndexed | email_parser/parser.py:728-731 | the kept records are exactly the non-None outcomes, in increasing segment order |
| Parser.NestedStep | email_parser/parser.py:728-731 | one iteration extends the outcomes and appends the record, if any |
| Parser.NestedRecords | email_parser/parser.py:728-731 | the loop keeps the record of each segment that yields one, in segment order |
| Parser.ParseEmailContent | email_parser/parser.py:686-733 | the top-level record first, then the non-None nested records in segment order |
| Parser.ThreadIdsAgree | email_parser/parser.py:639-661 | the key text the parser builds from a row (cleaned subject, '|', sorted distinct non-empty participants joined by '|') is the record's thread key of email_parser/models.py:66-82, so the parser's thread id is the record's `generate_thread_id` |
| Parser.ThreadIdIgnoresOrder | email_parser/parser.py:653-661 | rows with the same subject, sender and set of recipients share a thread id |

## Left out

- File and CSV reading, directory walking, the pandas assembly and the CLI are not modelled. `_get_nested_body_content` reads the raw file through the `readFile` oracle, with a failed read as None.
- MIME parsing, multipart walking and body decoding are the `parseMessage` oracle, which yields raw header values and a decoded body.
- `extract_date`, `strptime` and the US/Central localisation are the `parseDate` and `centralDate` oracles. Only the date-shape recognisers are modelled.
- `parseaddr`, `getaddresses`, `normalize_addresses` and `extract_email_address` are oracles.
- md5 and uuid5 are uninterpreted functions, so the proofs are about the strings hashed.
- All five match families of `extract_original_email` are an ordered input of matches per family (`Collaborators.Families`); none of them is written out as a recogniser. They are the dashed "Forwarded" blocks, the "Please respond to" blocks, the three forward patterns, the specific respond layout, and the name/date stanza `nested_pattern` of email_parser/extractors/content.py:123. The stanza family is greedy and is run with MULTILINE only; it is given by its match spans, and the stanza-segment lemmas hold for any span. `clean_body`'s six patterns are given by where each first matches, if at all.
- Lowercasing is ASCII only: Python's Unicode `lower()` is not modelled. `strip()` and the regex class `\s` use the full `str.isspace` set (`Text.IsSpace`).
- The regex classes `\d` and `\w` and the IGNORECASE comparisons are modelled on ASCII only (`Patterns.IsDigit`, `Patterns.IsWord`, `Patterns.CiAt`). Python 3 matches `\d` and `\w` against Unicode digits and word characters, so a name such as "José García" on a stanza's first line, a non-ASCII digit in a date, or a non-ASCII label before `:` in the cc look-ahead is matched by the source but not by the model. This affects the date shapes, the name/date stanza test of `extract_forwarded_headers`, and the look-ahead of the cc section search.
- `re.split(r',\s*', text)` is a split on ',' followed by a trim of each part. These are the same because every part is trimmed before use.
- The `re.sub` at email_parser/parser.py lines 261 and 282 is left out. It never changes its input, because the To: and cc: texts are built from stripped lines and cannot hold a newline.
- Header dictionaries are a datatype value. `_handle_please_respond_format` updates the caller's dict in place; here it returns the updated value, and its caller uses that value. The dict is a local of `_extract_nested_email`, so no aliasing is lost.
- `process_recipients` extends the caller's list in place; here it returns the extended list.
- Models.FromDict: a value of the wrong kind (a list where text is expected, and so on) yields None, whereas Python would store it unchecked.
- Exceptions: only the two unassigned-variable errors above and the file-read failure are modelled. The pseudo-message fallback is assumed not to raise, so the outer `return None` after a failed fallback is not modelled. The `try` blocks around the regex searches of `extract_original_email` cannot raise on string input.
- Debug printing is left out.
- `EmailData.date` is a datetime in the source and ISO-8601 text here.
- An absent `file_id` and an empty one are the same. Both are falsy in `generate_id`, and the message index is unused either way.
- Parser.ParseEmailContent: the nested outcomes are given through a ghost sequence related segment by segment to `_extract_nested_email`, rather than by one closed expression. Parser.NestedOutcomesUnique shows that this sequence is determined.
- Models.GenerateThreadId and Parser.ParserThreadId are functions of the record, so they cannot assign to it. No separate contract states this.

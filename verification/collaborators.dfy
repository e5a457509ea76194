/** The parser's collaborators that are not part of this model: hashing, the MIME
    parser, date parsing, RFC 5322 address parsing, the regular expressions whose
    full semantics are left out, and file reading. Each is a function-typed field, so
    every property proved holds whatever these functions compute. */
module Collaborators {
  import opened Text

  /** What the MIME parser yields for a message: the raw header values (empty when a
      header is missing) and the decoded plain-text body. */
  datatype RawMessage = RawMessage(
    date: string, subject: string, from: string, to: string, cc: string, bcc: string, body: string)

  /** One match of a (header, content) pattern family: its first and second groups. */
  datatype Match = Match(header: string, content: string)

  /** Start and end index of one match in the body. */
  datatype Span = Span(start: nat, end: nat)

  /** The ordered matches, in one body, of each pattern family used to find
      forwarded segments: the dashed "Forwarded" blocks, the "Please respond to" blocks,
      the three forward patterns (in list order), the specific respond layout (whole
      matches) and the internal name / date stanzas (their spans). */
  datatype Families = Families(
    forwarded: seq<Match>,
    respond: seq<Match>,
    patterns: seq<seq<Match>>,
    specific: seq<string>,
    stanzas: seq<Span>)

  datatype Env = Env(
    /** `hashlib.md5(s.encode('utf-8')).hexdigest()` */
    md5Hex: string -> string,
    /** `str(uuid.uuid5(uuid.NAMESPACE_DNS, key))` */
    uuid5Dns: string -> string,
    /** `email.message_from_string(text, policy=policy.default)` with its body decoded */
    parseMessage: string -> RawMessage,
    /** `extract_date`: a date header to its UTC ISO-8601 text, or None */
    parseDate: string -> Option<string>,
    /** The US/Central reading of a loose date string: None when it raises, otherwise
        the ISO-8601 text and the date string as rewritten without seconds */
    centralDate: string -> Option<(string, string)>,
    /** `normalize_addresses` */
    normalizeAddresses: string -> seq<string>,
    /** `extract_email_address` */
    emailAddress: string -> string,
    /** For each of `clean_body`'s six patterns, in order: where its first match in a
        text starts, if it has one */
    cleanCuts: seq<string -> Option<nat>>,
    /** The pattern-family matches in a body */
    families: string -> Families,
    /** The contents of the file at a path, or None when it cannot be read */
    readFile: string -> Option<string>)
}

/** The email record, its dictionary form, and the thread key that groups related
    messages into conversations. */
module Models {
  import opened Text
  import opened Collaborators

  // ================================================================ EmailData

  /** One parsed message. Dates are ISO-8601 text. */
  datatype EmailData = EmailData(
    id: string,
    date: Option<string>,
    subject: string,
    fromAddr: string,
    to: seq<string>,
    cc: seq<string>,
    bcc: seq<string>,
    body: string,
    bodyClean: string,
    fileSource: string,
    threadId: Option<string>)

  /** The record built from an empty dictionary. */
  const EmptyEmail := EmailData("", None, "", "", [], [], [], "", "", "", None)

  /** A dictionary value: text, a list of texts, or `None`. */
  datatype Value = Str(text: string) | Strs(items: seq<string>) | Null

  type Dict = map<string, Value>

  /** The keys `to_dict` writes. */
  const DictKeys: set<string> :=
    {"id", "date", "subject", "from", "to", "cc", "bcc", "body", "body_clean", "file_source", "thread_id"}

  /** A text entry: "" when missing, nothing when it holds something else. */
  function GetText(d: Dict, key: string): Option<string> {
    if key !in d then Some("") else match d[key] case Str(t) => Some(t) case _ => None
  }

  /** A list entry: [] when missing, nothing when it holds something else. */
  function GetList(d: Dict, key: string): Option<seq<string>> {
    if key !in d then Some([]) else match d[key] case Strs(xs) => Some(xs) case _ => None
  }

  /** An optional entry: `None` when missing or `None`, nothing when it is a list. */
  function GetOptional(d: Dict, key: string): Option<Option<string>> {
    if key !in d then Some(None)
    else match d[key] case Str(t) => Some(Some(t)) case Null => Some(None) case Strs(_) => None
  }

  /** `EmailData.from_dict`, failing when an entry has the wrong kind of value. */
  function FromDict(d: Dict): Option<EmailData> {
    var id :- GetText(d, "id");
    var date :- GetOptional(d, "date");
    var subject :- GetText(d, "subject");
    var from :- GetText(d, "from");
    var to :- GetList(d, "to");
    var cc :- GetList(d, "cc");
    var bcc :- GetList(d, "bcc");
    var body :- GetText(d, "body");
    var bodyClean :- GetText(d, "body_clean");
    var fileSource :- GetText(d, "file_source");
    var threadId :- GetOptional(d, "thread_id");
    Some(EmailData(id, date, subject, from, to, cc, bcc, body, bodyClean, fileSource, threadId))
  }

  function OptionalValue(o: Option<string>): Value {
    match o case Some(t) => Str(t) case None => Null
  }

  /** `EmailData.to_dict`; the sender is stored under "from". */
  function ToDict(e: EmailData): (d: Dict)
    ensures d.Keys == DictKeys
  {
    map[
      "id" := Str(e.id),
      "date" := OptionalValue(e.date),
      "subject" := Str(e.subject),
      "from" := Str(e.fromAddr),
      "to" := Strs(e.to),
      "cc" := Strs(e.cc),
      "bcc" := Strs(e.bcc),
      "body" := Str(e.body),
      "body_clean" := Str(e.bodyClean),
      "file_source" := Str(e.fileSource),
      "thread_id" := OptionalValue(e.threadId)]
  }

  /** Reading back a record's dictionary gives the record, field for field. */
  lemma FromDictToDict(e: EmailData)
    ensures FromDict(ToDict(e)) == Some(e)
  {
    var d := ToDict(e);
    assert GetText(d, "id") == Some(e.id);
    assert GetOptional(d, "date") == Some(e.date);
    assert GetText(d, "from") == Some(e.fromAddr);
    assert GetOptional(d, "thread_id") == Some(e.threadId);
  }

  /** A dictionary holding exactly the eleven keys, each with a value of its kind, is
      the dictionary of the record read from it. */
  lemma ToDictFromDict(d: Dict)
    requires d.Keys == DictKeys && FromDict(d).Some?
    ensures ToDict(FromDict(d).value) == d
  {
    var e := FromDict(d).value;
    var r := ToDict(e);
    assert r["id"] == d["id"] && r["date"] == d["date"] && r["subject"] == d["subject"];
    assert r["from"] == d["from"] && r["to"] == d["to"] && r["cc"] == d["cc"];
    assert r["bcc"] == d["bcc"] && r["body"] == d["body"] && r["body_clean"] == d["body_clean"];
    assert r["file_source"] == d["file_source"] && r["thread_id"] == d["thread_id"];
  }

  /** Missing entries take their defaults: "" for texts, [] for lists, `None` for the
      date and the thread id. */
  lemma FromDictDefaults(d: Dict)
    requires FromDict(d).Some?
    ensures var e := FromDict(d).value;
      ("id" !in d ==> e.id == "") && ("date" !in d ==> e.date.None?)
      && ("subject" !in d ==> e.subject == "") && ("from" !in d ==> e.fromAddr == "")
      && ("to" !in d ==> e.to == []) && ("cc" !in d ==> e.cc == []) && ("bcc" !in d ==> e.bcc == [])
      && ("body" !in d ==> e.body == "") && ("body_clean" !in d ==> e.bodyClean == "")
      && ("file_source" !in d ==> e.fileSource == "") && ("thread_id" !in d ==> e.threadId.None?)
  {
  }

  lemma EmptyDict()
    ensures FromDict(map[]) == Some(EmptyEmail)
  {
  }

  // ================================================================ thread key

  /** How much of a lowercased subject the reply / forward prefix takes (0 if none). */
  function PrefixLen(s: string): (n: nat)
    ensures n <= |s|
  {
    if StartsWith(s, "re:") then 3
    else if StartsWith(s, "fwd:") then 4
    else if StartsWith(s, "fw:") then 3
    else if StartsWith(s, "forward:") then 8
    else 0
  }

  /** The subject part of the key: trimmed, lowercased, and without one leading
      re: / fwd: / fw: / forward: and the white space after it. */
  function CleanSubject(subject: string): (r: string)
    ensures IsLower(r)
  {
    LowerIsLower(Strip(subject));
    DropPrefix(Lower(Strip(subject)))
  }

  /** The reply and forward prefixes, in any case. */
  predicate IsReplyPrefix(p: string) {
    Lower(p) in ["re", "fwd", "fw", "forward"]
  }

  /** A lowercase prefix followed by ':' is measured in full. */
  lemma ReplyPrefixLen(lp: string, u: string)
    requires lp in ["re", "fwd", "fw", "forward"]
    ensures PrefixLen(lp + ":" + u) == |lp| + 1
  {
    var s := lp + ":" + u;
    assert s[..|lp| + 1] == lp + ":";
    if lp != "re" {
      assert s[0] == 'f';
      assert !StartsWith(s, "re:") by {
        assert s[..3][0] == 'f';
      }
      if lp == "fw" {
        assert !StartsWith(s, "fwd:") by {
          if |s| >= 4 {
            assert s[..4][2] == ':';
          }
        }
      } else if lp == "forward" {
        assert s[1] == 'o';
        assert !StartsWith(s, "fwd:") by {
          assert s[..4][1] == 'o';
        }
        assert !StartsWith(s, "fw:") by {
          assert s[..3][1] == 'o';
        }
      }
    }
  }

  /** Dropping a prefix, the ':' after it and the white space after that. */
  function DropPrefix(s: string): string {
    var n := PrefixLen(s);
    if n > 0 then s[SpaceEnd(s, n)..] else s
  }

  lemma DropReplyPrefix(lp: string, v: string)
    requires lp in ["re", "fwd", "fw", "forward"] && v != "" && !IsSpace(v[0])
    ensures DropPrefix(lp + ":" + (" " + v)) == v
  {
    var s := lp + ":" + (" " + v);
    ReplyPrefixLen(lp, " " + v);
    assert s[|lp| + 1] == ' ' && s[|lp| + 2] == v[0];
    assert SpaceEnd(s, |lp| + 2) == |lp| + 2;
    assert s[|lp| + 2..] == v;
  }

  /** A reply prefix is at least two letters long. */
  lemma ReplyPrefixShape(p: string)
    requires IsReplyPrefix(p)
    ensures |p| >= 2 && !IsSpace(p[0])
  {
    var lp := Lower(p);
    assert lp[0] == 'r' || lp[0] == 'f';
    assert lp[0] == LowerChar(p[0]);
  }

  /** The trimmed, lowercased text of a prefix, ": " and a trimmed subject. */
  lemma ReplyLowered(p: string, t: string)
    requires IsReplyPrefix(p) && IsTrimmed(t) && t != ""
    ensures Lower(Strip(p + ": " + t)) == Lower(p) + ":" + (" " + Lower(t))
  {
    ReplyPrefixShape(p);
    ReplyJoinTrimmed(p, t);
    ReplyJoinLower(p, t);
  }

  lemma ReplyJoinTrimmed(p: string, t: string)
    requires |p| >= 2 && !IsSpace(p[0]) && IsTrimmed(t) && t != ""
    ensures Strip(p + ": " + t) == p + ": " + t
  {
    var full := p + ": " + t;
    assert full[0] == p[0];
    assert full[|full| - 1] == t[|t| - 1];
    StripTrimmed(full);
  }

  lemma ReplyJoinLower(p: string, t: string)
    ensures Lower(p + ": " + t) == Lower(p) + ":" + (" " + Lower(t))
  {
    assert p + ": " + t == p + (": " + t);
    LowerConcat(p, ": " + t);
    LowerConcat(": ", t);
    assert Lower(": ") == ": ";
  }

  /** Exactly one prefix is removed: a prefix followed by ": " and a trimmed subject
      leaves that subject lowercased, whatever it starts with. */
  lemma CleanSubjectOnce(p: string, t: string)
    requires IsReplyPrefix(p) && IsTrimmed(t) && t != ""
    ensures CleanSubject(p + ": " + t) == Lower(t)
  {
    ReplyLowered(p, t);
    assert Lower(t)[0] == LowerChar(t[0]);
    DropReplyPrefix(Lower(p), Lower(t));
  }

  /** So "Re: Budget" and "Budget" give the same subject part. */
  lemma ReplySameSubject(p: string, t: string)
    requires IsReplyPrefix(p) && IsTrimmed(t) && t != "" && PrefixLen(Lower(t)) == 0
    ensures CleanSubject(p + ": " + t) == CleanSubject(t)
  {
    CleanSubjectOnce(p, t);
    StripTrimmed(t);
  }

  /** Python's string order: by code point, a proper prefix first. */
  predicate Less(a: string, b: string)
    decreases |a|
  {
    if a == [] then b != []
    else if b == [] then false
    else if a[0] != b[0] then a[0] < b[0]
    else Less(a[1..], b[1..])
  }

  lemma {:induction false} LessIrreflexive(a: string)
    ensures !Less(a, a)
    decreases |a|
  {
    if a != [] {
      LessIrreflexive(a[1..]);
    }
  }

  lemma {:induction false} LessTransitive(a: string, b: string, c: string)
    requires Less(a, b) && Less(b, c)
    ensures Less(a, c)
    decreases |a|
  {
    if a != [] && b != [] && c != [] && a[0] == b[0] && b[0] == c[0] {
      LessTransitive(a[1..], b[1..], c[1..]);
    }
  }

  lemma {:induction false} LessTotal(a: string, b: string)
    requires a != b
    ensures Less(a, b) || Less(b, a)
    decreases |a|
  {
    if a != [] && b != [] && a[0] == b[0] {
      assert a == [a[0]] + a[1..] && b == [b[0]] + b[1..];
      LessTotal(a[1..], b[1..]);
    }
  }

  /** Ascending with no repeats. */
  predicate StrictlySorted(xs: seq<string>) {
    forall i, j :: 0 <= i < j < |xs| ==> Less(xs[i], xs[j])
  }

  /** Put `x` in its place in a strictly sorted list, unless it is there already. */
  function Insert(xs: seq<string>, x: string): seq<string>
    decreases |xs|
  {
    if xs == [] then [x]
    else if x == xs[0] then xs
    else if Less(x, xs[0]) then [x] + xs
    else [xs[0]] + Insert(xs[1..], x)
  }

  lemma {:induction false} InsertMembers(xs: seq<string>, x: string)
    ensures forall y :: y in Insert(xs, x) <==> y == x || y in xs
    decreases |xs|
  {
    if xs != [] && x != xs[0] && !Less(x, xs[0]) {
      InsertMembers(xs[1..], x);
      assert xs == [xs[0]] + xs[1..];
    }
  }

  lemma {:induction false} InsertSorted(xs: seq<string>, x: string)
    requires StrictlySorted(xs)
    ensures StrictlySorted(Insert(xs, x))
    decreases |xs|
  {
    if xs != [] && x != xs[0] {
      if Less(x, xs[0]) {
        forall j | 0 < j < |xs|
          ensures Less(x, xs[j])
        {
          LessTransitive(x, xs[0], xs[j]);
        }
      } else {
        LessTotal(x, xs[0]);
        InsertSorted(xs[1..], x);
        InsertMembers(xs[1..], x);
        var r := Insert(xs[1..], x);
        forall j | 0 <= j < |r|
          ensures Less(xs[0], r[j])
        {
          assert r[j] in r;
        }
      }
    }
  }

  /** `sorted(set(xs))`. */
  function SortedDistinct(xs: seq<string>): seq<string>
    decreases |xs|
  {
    if xs == [] then [] else Insert(SortedDistinct(xs[..|xs| - 1]), xs[|xs| - 1])
  }

  /** `SortedDistinct` is strictly sorted and holds exactly the elements of the list. */
  lemma {:induction false} SortedDistinctShape(xs: seq<string>)
    ensures StrictlySorted(SortedDistinct(xs))
    ensures forall y :: y in SortedDistinct(xs) <==> y in xs
    decreases |xs|
  {
    if xs != [] {
      var init := xs[..|xs| - 1];
      SortedDistinctShape(init);
      InsertSorted(SortedDistinct(init), xs[|xs| - 1]);
      InsertMembers(SortedDistinct(init), xs[|xs| - 1]);
      assert xs == init + [xs[|xs| - 1]];
    }
  }

  /** Two strictly sorted lists with the same elements are the same list. */
  lemma {:induction false} SortedUnique(a: seq<string>, b: seq<string>)
    requires StrictlySorted(a) && StrictlySorted(b)
    requires forall y :: y in a <==> y in b
    ensures a == b
    decreases |a|
  {
    if a != [] {
      assert a[0] in b;
      assert b != [] && b[0] in a;
      if a[0] != b[0] {
        var i :| 0 <= i < |a| && a[i] == b[0];
        var j :| 0 <= j < |b| && b[j] == a[0];
        LessTransitive(a[0], b[0], a[0]);
        LessIrreflexive(a[0]);
      }
      forall y
        ensures y in a[1..] <==> y in b[1..]
      {
        if y in a[1..] {
          var i :| 1 <= i < |a| && a[i] == y;
          assert y != a[0] by { LessIrreflexive(a[0]); }
          assert y in b;
        }
        if y in b[1..] {
          var i :| 1 <= i < |b| && b[i] == y;
          assert y != b[0] by { LessIrreflexive(b[0]); }
          assert y in a;
        }
      }
      SortedUnique(a[1..], b[1..]);
      assert a == [a[0]] + a[1..] && b == [b[0]] + b[1..];
    } else {
      HeadIsMember(b);
    }
  }

  lemma HeadIsMember(b: seq<string>)
    ensures b != [] ==> b[0] in b
  {
  }

  /** `filter(None, xs)`: the non-empty texts, in order. */
  function NonEmptyOnly(xs: seq<string>): (r: seq<string>)
    decreases |xs|
  {
    if xs == [] then [] else (if xs[0] == "" then [] else [xs[0]]) + NonEmptyOnly(xs[1..])
  }

  lemma {:induction false} NonEmptyOnlyMembers(xs: seq<string>)
    ensures forall y :: y in NonEmptyOnly(xs) <==> y in xs && y != ""
    decreases |xs|
  {
    if xs != [] {
      NonEmptyOnlyMembers(xs[1..]);
      assert xs == [xs[0]] + xs[1..];
    }
  }

  /** The sorted distinct non-empty participants: the sender and the recipients. */
  function Participants(from: string, to: seq<string>): seq<string> {
    SortedDistinct(NonEmptyOnly([from] + to))
  }

  lemma ParticipantsShape(from: string, to: seq<string>)
    ensures StrictlySorted(Participants(from, to))
    ensures forall y :: y in Participants(from, to) <==> y != "" && (y == from || y in to)
  {
    NonEmptyOnlyMembers([from] + to);
    SortedDistinctShape(NonEmptyOnly([from] + to));
  }

  /** The text the thread id is derived from. */
  function ThreadKey(subject: string, from: string, to: seq<string>): string {
    CleanSubject(subject) + "|" + Join(Participants(from, to), "|")
  }

  /** The participants depend only on which non-empty addresses take part: reordering
      or repeating recipients, or naming the sender again among them, changes nothing. */
  lemma SameParticipants(from1: string, to1: seq<string>, from2: string, to2: seq<string>)
    requires forall y :: y != "" ==> ((y == from1 || y in to1) <==> (y == from2 || y in to2))
    ensures Participants(from1, to1) == Participants(from2, to2)
  {
    ParticipantsShape(from1, to1);
    ParticipantsShape(from2, to2);
    SortedUnique(Participants(from1, to1), Participants(from2, to2));
  }

  /** Permuting or duplicating the recipients does not change the key. */
  lemma ThreadKeyIgnoresOrder(subject: string, from: string, to1: seq<string>, to2: seq<string>)
    requires forall y :: y in to1 <==> y in to2
    ensures ThreadKey(subject, from, to1) == ThreadKey(subject, from, to2)
  {
    SameParticipants(from, to1, from, to2);
  }

  /** An empty sender is ignored: the key is the one of any sender already among the
      recipients. */
  lemma ThreadKeyEmptySender(subject: string, from: string, to: seq<string>)
    requires from in to
    ensures ThreadKey(subject, "", to) == ThreadKey(subject, from, to)
  {
    SameParticipants("", to, from, to);
  }

  /** `EmailData.generate_thread_id`: reads the record only. */
  function GenerateThreadId(env: Env, e: EmailData): string {
    env.uuid5Dns(ThreadKey(e.subject, e.fromAddr, e.to))
  }
}

/** The part of the private-file retriever (src/components/IPFSFileRetriever.js)
    that turns a CID and a Pinata JWT into a signed download link: the request
    payload, the interpretation of Pinata's answer, and the best-effort file
    name and type recovered from a HEAD probe of the returned URL.
    Every network exchange is an input datatype; time is integer milliseconds. */
module LinkIssuer {
  import opened Common

  /** The dedicated gateway the signed URL is requested for. */
  const GatewayFilesPrefix: string := "https://moccasin-absolute-eagle-393.mypinata.cloud/files/"

  /** Lifetime of a signed link, in seconds (ten days). */
  const TtlSeconds: nat := 864000

  /** The same lifetime in the milliseconds `Date.now()` counts in. */
  const TtlMillis: nat := TtlSeconds * 1000

  /** The JSON body posted to Pinata's private download-link endpoint. */
  datatype LinkRequest = LinkRequest(url: string, expires: nat, date: int, httpMethod: string)

  /** What the download-link POST produced: the fetch itself threw (network
      failure, or a body that is not JSON) with `message`; the response was
      not ok; or an ok response whose `data` field is `data` (empty when the
      field is missing or falsy). */
  datatype Issuance =
    | RequestThrew(message: string)
    | NotOk(status: nat, statusText: string)
    | Answered(data: string)

  /** What the HEAD probe of the signed URL produced: it threw, or it answered
      with these `content-type` and `content-disposition` header values (empty
      when absent). */
  datatype Probe = ProbeFailed | ProbeAnswered(contentType: string, disposition: string)

  function GatewayUrl(cid: string): (r: string)
    ensures |r| == |GatewayFilesPrefix| + |cid|
    ensures r[..|GatewayFilesPrefix|] == GatewayFilesPrefix && r[|GatewayFilesPrefix|..] == cid
  {
    GatewayFilesPrefix + cid
  }

  /** The payload built at time `nowMs`: the link is asked to live `TtlSeconds`
      from the current epoch second, for GET. */
  function BuildLinkRequest(cid: string, nowMs: int): (r: LinkRequest)
    ensures r.expires == TtlSeconds && r.httpMethod == "GET"
    ensures r.date * 1000 <= nowMs < r.date * 1000 + 1000
    ensures |r.url| == |GatewayFilesPrefix| + |cid|
    ensures r.url[..|GatewayFilesPrefix|] == GatewayFilesPrefix && r.url[|GatewayFilesPrefix|..] == cid
  {
    LinkRequest(GatewayUrl(cid), TtlSeconds, nowMs / 1000, "GET")
  }

  /** The message of the Error thrown for a non-ok answer. */
  function NotOkMessage(status: nat, statusText: string): string {
    "Failed to get download link: " + Decimal(status) + " " + statusText
  }

  const NoLinkMessage: string := "No download link received from Pinata"

  datatype Result = Url(url: string) | Failed(message: string)

  /** The signed URL, or the message of the Error the issuance step throws. */
  function IssuedUrl(iss: Issuance): (r: Result)
    ensures r.Url? <==> iss.Answered? && iss.data != ""
    ensures r.Url? ==> r.url == iss.data
    ensures iss.NotOk? ==> r == Failed(NotOkMessage(iss.status, iss.statusText)) && r.message != ""
    ensures iss.Answered? && iss.data == "" ==> r == Failed(NoLinkMessage)
    ensures iss.RequestThrew? ==> r == Failed(iss.message)
  {
    match iss
    case RequestThrew(m) => Failed(m)
    case NotOk(status, text) => Failed(NotOkMessage(status, text))
    case Answered(data) => if data == "" then Failed(NoLinkMessage) else Url(data)
  }

  // ---------------------------------------------------------------------
  // File name and type defaults and the `content-disposition` match
  // ---------------------------------------------------------------------

  const UnknownType: string := "unknown"

  /** `file-` followed by the first ten characters of the CID. */
  function DefaultFileName(cid: string): (r: string)
    ensures |r| == 5 + (if |cid| < 10 then |cid| else 10)
    ensures r[..5] == "file-" && r[5..] == cid[..|r| - 5]
  {
    "file-" + Prefix(cid, 10)
  }

  const FilenameKey: string := "filename="

  predicate IsQuote(c: char) {
    c == '"' || c == '\''
  }

  /** The longest prefix of `s` free of quote characters: what `[^"']+`
      consumes greedily (it is empty when the regex item cannot match). */
  function NonQuoteRun(s: string): (r: string)
    ensures |r| <= |s| && r == s[..|r|]
    ensures forall k :: 0 <= k < |r| ==> !IsQuote(r[k])
    ensures |r| == |s| || IsQuote(s[|r|])
  {
    if s == [] || IsQuote(s[0]) then [] else [s[0]] + NonQuoteRun(s[1..])
  }

  /** The match of `/filename=["']?([^"']+)/` anchored at index `i` of `s`,
      returning capture group 1. The optional quote is tried first; if no
      non-quote follows it, the regex backtracks to not taking the quote, and
      then `[^"']+` fails on that quote, so the attempt fails. */
  function MatchAt(s: string, i: nat): Option<string>
  {
    if !OccursAt(s, i, FilenameKey) then None
    else
      var rest := s[i + |FilenameKey|..];
      var body := if rest != [] && IsQuote(rest[0]) then rest[1..] else rest;
      var run := NonQuoteRun(body);
      if run == [] then None else Some(run)
  }

  /** `String.prototype.match` without the `g` flag: the leftmost start index
      at or after `i` where the pattern matches. */
  function FindFrom(s: string, i: nat): Option<string>
    decreases |s| - i
  {
    if i >= |s| then None
    else if MatchAt(s, i).Some? then MatchAt(s, i)
    else FindFrom(s, i + 1)
  }

  /** The name recovered from the header at IPFSFileRetriever.js:99-105:
      present only when the header is non-empty, contains `filename=` and the
      regex matches with a non-empty group. */
  function FilenameFromDisposition(disposition: string): Option<string>
  {
    if disposition != "" && Includes(disposition, FilenameKey) then FindFrom(disposition, 0)
    else None
  }

  /** The file name stored in a new record. */
  function ResolvedFileName(cid: string, probe: Probe): string {
    match probe
    case ProbeFailed => DefaultFileName(cid)
    case ProbeAnswered(_, disposition) => FilenameFromDisposition(disposition).GetOr(DefaultFileName(cid))
  }

  /** The file type stored in a new record. */
  function ResolvedFileType(probe: Probe): string {
    match probe
    case ProbeFailed => UnknownType
    case ProbeAnswered(contentType, _) => if contentType != "" then contentType else UnknownType
  }

  // ---------------------------------------------------------------------
  // Lemmas
  // ---------------------------------------------------------------------

  /** `name` occurs at index `p` of `s` and is followed by a quote or the end. */
  predicate RunAt(s: string, p: nat, name: string) {
    OccursAt(s, p, name) && (p + |name| == |s| || IsQuote(s[p + |name|]))
  }

  /** A successful anchored match lies inside `s` after the key, optionally
      after one quote, is non-empty, quote-free and maximal. */
  lemma MatchAtShape(s: string, i: nat, name: string)
    requires MatchAt(s, i) == Some(name)
    ensures OccursAt(s, i, FilenameKey)
    ensures name != [] && forall k :: 0 <= k < |name| ==> !IsQuote(name[k])
    ensures RunAt(s, i + |FilenameKey|, name)
         || (IsQuote(s[i + |FilenameKey|]) && RunAt(s, i + |FilenameKey| + 1, name))
  {
    var start := i + |FilenameKey|;
    var rest := s[start..];
    var q := if rest != [] && IsQuote(rest[0]) then 1 else 0;
    var body := rest[q..];
    assert body == s[start + q..];
    assert name == NonQuoteRun(body);
    assert name == body[..|name|] == s[start + q..start + q + |name|];
    if start + q + |name| < |s| {
      assert s[start + q + |name|] == body[|name|];
    }
    assert RunAt(s, start + q, name);
  }

  /** The search finds exactly the leftmost anchored match, and finds nothing
      exactly when no index matches. */
  lemma {:induction false} FindFromLeftmost(s: string, i: nat)
    ensures FindFrom(s, i).Some? ==>
      exists p :: i <= p < |s| && MatchAt(s, p) == FindFrom(s, i) && forall j :: i <= j < p ==> MatchAt(s, j).None?
    ensures FindFrom(s, i).None? <==> forall j :: i <= j ==> MatchAt(s, j).None?
    decreases |s| - i
  {
    if i >= |s| {
      forall j | i <= j
        ensures MatchAt(s, j).None?
      {
        NoMatchPastEnd(s, j);
      }
    } else if MatchAt(s, i).Some? {
      assert !(forall j :: i <= j ==> MatchAt(s, j).None?);
    } else {
      FindFromLeftmost(s, i + 1);
      if FindFrom(s, i).Some? {
        var p :| i + 1 <= p < |s| && MatchAt(s, p) == FindFrom(s, i + 1) && forall j :: i + 1 <= j < p ==> MatchAt(s, j).None?;
        assert forall j :: i <= j < p ==> MatchAt(s, j).None?;
        assert !(forall j :: i <= j ==> MatchAt(s, j).None?);
      } else {
        forall j | i <= j
          ensures MatchAt(s, j).None?
        {
          if j > i {
            assert i + 1 <= j;
          }
        }
      }
    }
  }

  /** No match can start past the end of the text. */
  lemma NoMatchPastEnd(s: string, j: nat)
    requires j >= |s|
    ensures MatchAt(s, j).None?
  {
    assert !OccursAt(s, j, FilenameKey);
  }

  /** The `includes('filename=')` test at line 100 never rejects a header the
      regex would match: it changes nothing. */
  lemma IncludesGuardRedundant(disposition: string)
    ensures FilenameFromDisposition(disposition) == FindFrom(disposition, 0)
  {
    FindFromLeftmost(disposition, 0);
    if FindFrom(disposition, 0).Some? {
      var p :| 0 <= p < |disposition| && MatchAt(disposition, p) == FindFrom(disposition, 0)
             && forall j :: 0 <= j < p ==> MatchAt(disposition, j).None?;
      assert OccursAt(disposition, p, FilenameKey);
      assert Includes(disposition, FilenameKey);
    }
  }

  /** A name taken from the header is non-empty and contains no quote. */
  lemma ExtractedNameWellFormed(disposition: string)
    requires FilenameFromDisposition(disposition).Some?
    ensures var n := FilenameFromDisposition(disposition).value;
            n != [] && forall k :: 0 <= k < |n| ==> !IsQuote(n[k])
  {
    FindFromLeftmost(disposition, 0);
    var p :| 0 <= p < |disposition| && MatchAt(disposition, p) == FindFrom(disposition, 0)
           && forall j :: 0 <= j < p ==> MatchAt(disposition, j).None?;
    MatchAtShape(disposition, p, FindFrom(disposition, 0).value);
  }

  /** Metadata defaults: a failed probe, or headers that are absent, keep
      `file-<first ten CID characters>` and `unknown`; a present content type
      is taken as is. */
  lemma MetadataDefaults(cid: string, probe: Probe)
    ensures probe.ProbeFailed? ==> ResolvedFileName(cid, probe) == DefaultFileName(cid) && ResolvedFileType(probe) == UnknownType
    ensures probe.ProbeAnswered? && probe.disposition == "" ==> ResolvedFileName(cid, probe) == DefaultFileName(cid)
    ensures probe.ProbeAnswered? && probe.contentType == "" ==> ResolvedFileType(probe) == UnknownType
    ensures probe.ProbeAnswered? && probe.contentType != "" ==> ResolvedFileType(probe) == probe.contentType
    ensures probe.ProbeAnswered? && !Includes(probe.disposition, FilenameKey) ==> ResolvedFileName(cid, probe) == DefaultFileName(cid)
  {
  }

  /** Text without an `f` cannot hold the start of the key. */
  lemma NoKeyIn(p: string, rest: string)
    requires 'f' !in p
    ensures forall j :: 0 <= j < |p| ==> MatchAt(p + rest, j).None?
  {
    var s := p + rest;
    forall j | 0 <= j < |p|
      ensures !OccursAt(s, j, FilenameKey)
    {
      if j + |FilenameKey| <= |s| {
        assert s[j..j + |FilenameKey|][0] == s[j] == p[j];
      }
    }
  }

  /** Indices where nothing matches are skipped by the search. */
  lemma {:induction false} FindSkips(s: string, i: nat, n: nat)
    requires i <= n <= |s| && forall j :: i <= j < n ==> MatchAt(s, j).None?
    ensures FindFrom(s, i) == FindFrom(s, n)
    decreases n - i
  {
    if i < n {
      FindSkips(s, i + 1, n);
    }
  }

  /** A quote-free run followed by a quote or the end is consumed whole. */
  lemma {:induction false} RunOfQuoteFree(x: string, tail: string)
    requires forall k :: 0 <= k < |x| ==> !IsQuote(x[k])
    requires tail == [] || IsQuote(tail[0])
    ensures NonQuoteRun(x + tail) == x
  {
    if x != [] {
      assert (x + tail)[1..] == x[1..] + tail;
      RunOfQuoteFree(x[1..], tail);
    }
  }

  /** After a lead-in without the letter `f`, the search starts at the key
      that follows it. */
  lemma SearchAfterLead(lead: string, tail: string)
    requires 'f' !in lead
    ensures FilenameFromDisposition(lead + FilenameKey + tail) == FindFrom(lead + FilenameKey + tail, |lead|)
  {
    var d := lead + FilenameKey + tail;
    KeyAfterLead(lead, tail);
    NoKeyIn(lead, FilenameKey + tail);
    assert d == lead + (FilenameKey + tail);
    FindSkips(d, 0, |lead|);
  }

  /** The key sits right after the lead-in, followed by `tail`. */
  lemma KeyAfterLead(lead: string, tail: string)
    ensures OccursAt(lead + FilenameKey + tail, |lead|, FilenameKey)
    ensures (lead + FilenameKey + tail)[|lead| + |FilenameKey|..] == tail
    ensures Includes(lead + FilenameKey + tail, FilenameKey)
  {
    var d := lead + FilenameKey + tail;
    assert d[|lead|..|lead| + |FilenameKey|] == FilenameKey;
    assert OccursAt(d, |lead|, FilenameKey);
  }

  /** A quoted parameter `filename="name"` after a lead-in such as
      `attachment; ` (one without the letter `f`) yields `name`. */
  lemma FilenameQuoted(lead: string, name: string)
    requires 'f' !in lead
    requires name != [] && forall k :: 0 <= k < |name| ==> !IsQuote(name[k])
    ensures FilenameFromDisposition(lead + FilenameKey + "\"" + name + "\"") == Some(name)
  {
    var tail := "\"" + name + "\"";
    SearchAfterLead(lead, tail);
    KeyAfterLead(lead, tail);
    assert lead + FilenameKey + tail == lead + FilenameKey + "\"" + name + "\"";
    assert tail[1..] == name + "\"";
    RunOfQuoteFree(name, "\"");
  }

  /** An unquoted parameter `filename=name` at the end of the header yields `name`. */
  lemma FilenameUnquoted(lead: string, name: string)
    requires 'f' !in lead
    requires name != [] && forall k :: 0 <= k < |name| ==> !IsQuote(name[k])
    ensures FilenameFromDisposition(lead + FilenameKey + name) == Some(name)
  {
    SearchAfterLead(lead, name);
    KeyAfterLead(lead, name);
    assert name == name + "";
    RunOfQuoteFree(name, "");
  }

  /** An empty quoted value `filename=""` matches nothing, so the default name is kept. */
  lemma FilenameEmptyQuoted(lead: string)
    requires 'f' !in lead
    ensures FilenameFromDisposition(lead + FilenameKey + "\"\"") == None
  {
    var c := lead + FilenameKey + "\"\"";
    var k := |lead|;
    SearchAfterLead(lead, "\"\"");
    KeyAfterLead(lead, "\"\"");
    assert MatchAt(c, k).None?;
    forall j | k < j
      ensures MatchAt(c, j).None?
    {
      if j + |FilenameKey| <= |c| {
        assert c[j..j + |FilenameKey|][0] == c[j] == FilenameKey[j - k];
      }
    }
    FindFromLeftmost(c, k);
  }
}

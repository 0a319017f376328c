/**
 * The pure parsing helpers of the scanner (service/EmailScannerService.java):
 * header lookup, splitting a `From` value into address and display name, the
 * depth-first search for the HTML body in the MIME part tree (the multipart
 * structure of section 5.1 of RFC 2046), the `List-Unsubscribe` URL (section 3.2
 * of RFC 2369) and the unsubscribe-link priority rule.
 */
module MessageParsing {
  import opened Wrappers
  import opened Text

  /** A `MessagePartHeader`. */
  datatype Header = Header(name: string, value: string)

  /**
   * A `MessagePart`. A null body or null body data is `bodyData == None`; a null
   * list of sub-parts is the empty list, which the body search treats the same way.
   */
  datatype MessagePart = MessagePart(
    mimeType: Option<string>,
    headers: Option<seq<Header>>,
    bodyData: Option<string>,
    parts: seq<MessagePart>)

  /** A Gmail `Message` fetched in "full" format. */
  datatype RawMessage = RawMessage(
    snippet: Option<string>,
    payload: Option<MessagePart>,
    internalDate: Option<int>,
    sizeEstimate: Option<int>,
    labelIds: Option<seq<string>>)

  /** An `a[href]` element of the HTML body: its text and its `href`. */
  datatype Anchor = Anchor(text: string, href: string)

  // ----------------------------------------------------------------- headers

  /** The payload's header list; a missing payload or list reads as empty. */
  function Headers(m: RawMessage): seq<Header> {
    if m.payload.Some? && m.payload.value.headers.Some? then m.payload.value.headers.value else []
  }

  /** Index of the first header at or after `from` whose name equals `name` ignoring case, or -1. */
  function HeaderIndex(hs: seq<Header>, name: string, from: nat): (r: int)
    requires from <= |hs|
    ensures r == -1 || from <= r < |hs|
    decreases |hs| - from
  {
    if from == |hs| then -1
    else if EqualsIgnoreCase(hs[from].name, name) then from
    else HeaderIndex(hs, name, from + 1)
  }

  /** The index found names a matching header, and no header before it matches. */
  lemma {:induction false} HeaderIndexSpec(hs: seq<Header>, name: string, from: nat)
    requires from <= |hs|
    ensures var r := HeaderIndex(hs, name, from);
      && (r != -1 ==> EqualsIgnoreCase(hs[r].name, name))
      && (forall j :: from <= j < |hs| && (r == -1 || j < r) ==> !EqualsIgnoreCase(hs[j].name, name))
    decreases |hs| - from
  {
    if from < |hs| && !EqualsIgnoreCase(hs[from].name, name) {
      HeaderIndexSpec(hs, name, from + 1);
    }
  }

  /**
   * `getHeader`: the value of the first header named `name` (ignoring case), or ""
   * when the payload or its headers are missing or no header has that name.
   */
  function GetHeader(m: RawMessage, name: string): string {
    var hs := Headers(m);
    var i := HeaderIndex(hs, name, 0);
    if i == -1 then "" else hs[i].value
  }

  /** `getHeader` returns the value of the first header with that name, or "" when there is none. */
  lemma GetHeaderSpec(m: RawMessage, name: string)
    ensures var hs := Headers(m); var r := GetHeader(m, name);
      && (forall i :: (0 <= i < |hs| && EqualsIgnoreCase(hs[i].name, name) &&
                       (forall j :: 0 <= j < i ==> !EqualsIgnoreCase(hs[j].name, name))) ==> r == hs[i].value)
      && ((forall i :: 0 <= i < |hs| ==> !EqualsIgnoreCase(hs[i].name, name)) ==> r == "")
  {
    HeaderIndexSpec(Headers(m), name, 0);
  }

  // ------------------------------------------------------------- From header

  /**
   * `extractEmail`: the text between the first '<' and the first '>' when that '>'
   * comes after the '<'; otherwise the trimmed value if it has an '@', else the
   * value as it is.
   */
  function ExtractEmail(from: string): string {
    if from == [] then ""
    else
      var start := IndexOfChar(from, '<');
      var end := IndexOfChar(from, '>');
      if start != -1 && end != -1 && end > start then from[start + 1..end]
      else if '@' in from then Trim(from)
      else from
  }

  /** `extractName`: what precedes the first '<', trimmed, without '"'; "" without a '<'. */
  function ExtractName(from: string): string {
    if from == [] then ""
    else
      var start := IndexOfChar(from, '<');
      if start != -1 then RemoveChar(Trim(from[..start]), '"') else ""
  }

  /** With a '<' before the first '>', the address is exactly what lies between them. */
  lemma ExtractEmailBracketed(from: string, lt: nat, gt: nat)
    requires lt < gt < |from| && from[lt] == '<' && from[gt] == '>'
    requires '<' !in from[..lt] && '>' !in from[..gt]
    ensures ExtractEmail(from) == from[lt + 1..gt]
  {
    IndexOfCharAt(from, '<', lt);
    IndexOfCharAt(from, '>', gt);
  }

  /**
   * Without a '<' that precedes the first '>' (no '<', no '>' at all, or the first
   * '>' before the first '<'), the value is taken whole: trimmed when it contains
   * '@', untouched otherwise.
   */
  lemma ExtractEmailUnbracketed(from: string)
    requires from != []
    requires '<' !in from || '>' !in from || IndexOfChar(from, '>') < IndexOfChar(from, '<')
    ensures ExtractEmail(from) == if '@' in from then Trim(from) else from
  {
    IndexOfCharSpec(from, '<');
    IndexOfCharSpec(from, '>');
  }

  /** The display name never contains a '"', and is "" when there is no '<'. */
  lemma ExtractNameSpec(from: string)
    ensures '"' !in ExtractName(from)
    ensures '<' !in from ==> ExtractName(from) == ""
    ensures forall lt :: 0 <= lt < |from| && from[lt] == '<' && '<' !in from[..lt] ==>
      ExtractName(from) == RemoveChar(Trim(from[..lt]), '"')
  {
    IndexOfCharSpec(from, '<');
    forall lt | 0 <= lt < |from| && from[lt] == '<' && '<' !in from[..lt]
      ensures IndexOfChar(from, '<') == lt
    {
      IndexOfCharAt(from, '<', lt);
    }
  }

  /**
   * Splitting undoes formatting: for `Name <address>` with no angle brackets in
   * either part, the address comes back exactly and the name trimmed and unquoted.
   */
  lemma FromHeaderRoundTrip(name: string, address: string)
    requires '<' !in name && '>' !in name && '<' !in address && '>' !in address
    ensures var from := name + "<" + address + ">";
      ExtractEmail(from) == address && ExtractName(from) == RemoveChar(Trim(name), '"')
  {
    var from := name + "<" + address + ">";
    var lt, gt := |name|, |name| + 1 + |address|;
    assert from[..lt] == name;
    assert from[..gt] == name + "<" + address;
    assert '>' !in name + "<" + address;
    ExtractEmailBracketed(from, lt, gt);
    assert from[lt + 1..gt] == address;
    ExtractNameSpec(from);
  }

  // --------------------------------------------------------------- HTML body

  /** A part whose type is exactly "text/html" and that carries body data. */
  predicate IsHtmlWithData(p: MessagePart) {
    p.mimeType == Some("text/html") && p.bodyData.Some?
  }

  /**
   * `getHtmlBody` on a part: an HTML part with data gives its decoded body without
   * looking at its children; any other part gives the first non-empty result of
   * its children, in order, or "".
   */
  function HtmlBody(p: MessagePart, decode: string -> string): string
    decreases p, 1
  {
    if IsHtmlWithData(p) then decode(p.bodyData.value) else HtmlBodyFrom(p, 0, decode)
  }

  /** The loop over the children of `p`, from child `i` on. */
  function HtmlBodyFrom(p: MessagePart, i: nat, decode: string -> string): string
    requires i <= |p.parts|
    decreases p, 0, |p.parts| - i
  {
    if i == |p.parts| then ""
    else
      var body := HtmlBody(p.parts[i], decode);
      if body != "" then body else HtmlBodyFrom(p, i + 1, decode)
  }

  /** `getHtmlBody(payload)`: "" for a missing payload. */
  function GetHtmlBody(payload: Option<MessagePart>, decode: string -> string): string {
    if payload.None? then "" else HtmlBody(payload.value, decode)
  }

  /**
   * The reference reading of the search: the decoded bodies of the HTML parts with
   * data, in depth-first pre-order, not descending below such a part.
   */
  function HtmlCandidates(p: MessagePart, decode: string -> string): seq<string>
    decreases p, 1
  {
    if IsHtmlWithData(p) then [decode(p.bodyData.value)] else CandidatesFrom(p, 0, decode)
  }

  function CandidatesFrom(p: MessagePart, i: nat, decode: string -> string): seq<string>
    requires i <= |p.parts|
    decreases p, 0, |p.parts| - i
  {
    if i == |p.parts| then [] else HtmlCandidates(p.parts[i], decode) + CandidatesFrom(p, i + 1, decode)
  }

  /** The first non-empty string of a list, or "". */
  function FirstNonEmpty(cs: seq<string>): (r: string)
    ensures r != "" ==> r in cs
  {
    if cs == [] then "" else if cs[0] != "" then cs[0] else FirstNonEmpty(cs[1..])
  }

  lemma {:induction false} FirstNonEmptyConcat(a: seq<string>, b: seq<string>)
    ensures FirstNonEmpty(a + b) == if FirstNonEmpty(a) != "" then FirstNonEmpty(a) else FirstNonEmpty(b)
  {
    if a != [] {
      assert (a + b)[1..] == a[1..] + b;
      FirstNonEmptyConcat(a[1..], b);
    } else {
      assert a + b == b;
    }
  }

  /**
   * The search returns the first non-empty candidate: the decoded body of the
   * first HTML part with data, in depth-first pre-order, that is not empty.
   */
  lemma {:induction false} HtmlBodyIsFirstCandidate(p: MessagePart, decode: string -> string)
    ensures HtmlBody(p, decode) == FirstNonEmpty(HtmlCandidates(p, decode))
    decreases p, 1
  {
    if !IsHtmlWithData(p) {
      HtmlBodyFromIsFirstCandidate(p, 0, decode);
    }
  }

  lemma {:induction false} HtmlBodyFromIsFirstCandidate(p: MessagePart, i: nat, decode: string -> string)
    requires i <= |p.parts|
    ensures HtmlBodyFrom(p, i, decode) == FirstNonEmpty(CandidatesFrom(p, i, decode))
    decreases p, 0, |p.parts| - i
  {
    if i < |p.parts| {
      HtmlBodyIsFirstCandidate(p.parts[i], decode);
      HtmlBodyFromIsFirstCandidate(p, i + 1, decode);
      FirstNonEmptyConcat(HtmlCandidates(p.parts[i], decode), CandidatesFrom(p, i + 1, decode));
    }
  }

  // ------------------------------------------------------- List-Unsubscribe

  /** "http", the start of every URL taken from the header. */
  predicate StartsWithHttp(s: string) {
    |s| >= 4 && s[..4] == "http"
  }

  /**
   * What follows an "<http" at `start`: no '>' among its own five characters, so
   * the next '>' (if any) closes a non-empty text that starts with "http".
   */
  lemma BracketAfterHttp(header: string, start: nat)
    requires OccursAt(header, "<http", start)
    ensures var end := IndexOfFrom(header, ">", start);
      end == -1 || (start + 5 <= end && StartsWithHttp(header[start + 1..end]) &&
                    '>' !in header[start + 1..end])
  {
    var end := IndexOfFrom(header, ">", start);
    IndexOfFromSpec(header, ">", start);
    forall j | start <= j < start + 5
      ensures !OccursAt(header, ">", j)
    {
      assert header[j] == header[start..start + 5][j - start];
      assert header[j..j + 1] == [header[j]];
    }
    if end != -1 {
      var url := header[start + 1..end];
      forall k | 0 <= k < |url|
        ensures url[k] != '>'
      {
        var j := start + 1 + k;
        assert !OccursAt(header, ">", j);
        assert header[j..j + 1] == [header[j]];
      }
      assert url[..4] == header[start..start + 5][1..];
    }
  }

  /**
   * `extractUrlFromListUnsubscribe`: from the first "<http" up to the next '>',
   * without the brackets; `None` (Java's null) when either is missing.
   */
  function ExtractUrlFromListUnsubscribe(header: string): (r: Option<string>)
    ensures r.Some? ==> StartsWithHttp(r.value) && '>' !in r.value
    ensures r.None? <==> IndexOf(header, "<http") < 0 || IndexOfFrom(header, ">", IndexOf(header, "<http") as nat) == -1
  {
    IndexOfFindsIff(header, "<http");
    if Contains(header, "<http") then
      var start := IndexOf(header, "<http");
      var end := IndexOfFrom(header, ">", start);
      BracketAfterHttp(header, start);
      if end != -1 then Some(header[start + 1..end]) else None
    else None
  }

  /**
   * A header `pre<url>post` gives back `url` when `url` starts with "http", holds no
   * '>', and no '<' in `pre` opens an "h" (so `<mailto:...>` entries may precede it).
   */
  lemma ListUnsubscribeRoundTrip(pre: string, url: string, post: string)
    requires StartsWithHttp(url) && '>' !in url
    requires forall i :: 0 <= i < |pre| && pre[i] == '<' && i + 1 < |pre| ==> pre[i + 1] != 'h'
    ensures ExtractUrlFromListUnsubscribe(pre + "<" + url + ">" + post) == Some(url)
  {
    var h := pre + "<" + url + ">" + post;
    HttpBracketFoundAt(pre, url, post);
    CloseBracketFoundAt(pre, url, post);
    IndexOfFindsIff(h, "<http");
    assert h[|pre| + 1..|pre| + 1 + |url|] == url;
  }

  /** In `pre<url>post`, the first "<http" is the one before `url`. */
  lemma HttpBracketFoundAt(pre: string, url: string, post: string)
    requires StartsWithHttp(url)
    requires forall i :: 0 <= i < |pre| && pre[i] == '<' && i + 1 < |pre| ==> pre[i + 1] != 'h'
    ensures IndexOf(pre + "<" + url + ">" + post, "<http") == |pre|
  {
    var h := pre + "<" + url + ">" + post;
    var at := |pre|;
    assert h[at..at + 5] == "<" + url[..4];
    assert OccursAt(h, "<http", at);
    forall j | 0 <= j < at
      ensures !OccursAt(h, "<http", j)
    {
      assert h[j] == pre[j];
      if pre[j] == '<' && j + 1 < at {
        assert h[j + 1] == pre[j + 1];
        assert h[j..j + 5][1] == h[j + 1];
      } else if pre[j] == '<' {
        assert h[j + 1] == '<';
        assert h[j..j + 5][1] == h[j + 1];
      } else {
        assert h[j..j + 5][0] == h[j];
      }
    }
    IndexOfFromSpec(h, "<http", 0);
  }

  /** In `pre<url>post`, the first '>' from the '<' on is the one after `url`. */
  lemma CloseBracketFoundAt(pre: string, url: string, post: string)
    requires '>' !in url
    ensures IndexOfFrom(pre + "<" + url + ">" + post, ">", |pre|) == |pre| + 1 + |url|
  {
    var h := pre + "<" + url + ">" + post;
    var at, end := |pre|, |pre| + 1 + |url|;
    assert h[end..end + 1] == ">";
    assert OccursAt(h, ">", end);
    forall j | at <= j < end
      ensures !OccursAt(h, ">", j)
    {
      assert h[j..j + 1] == [h[j]];
      if j > at {
        assert h[j] == url[j - at - 1];
      } else {
        assert h[j] == '<';
      }
    }
    IndexOfFromSpec(h, ">", at);
  }

  // ------------------------------------------------------- unsubscribe rule

  /** A link that looks like an unsubscribe link, by its text or its target. */
  predicate IsUnsubscribeAnchor(a: Anchor) {
    var text := Lower(a.text);
    Contains(text, "unsubscribe") || Contains(text, "opt out") || Contains(text, "remove") ||
    Contains(Lower(a.href), "unsubscribe")
  }

  /** Index of the first unsubscribe-looking anchor at or after `from`, or -1. */
  function FirstUnsubscribeAnchor(anchors: seq<Anchor>, from: nat): (r: int)
    requires from <= |anchors|
    ensures r == -1 || from <= r < |anchors|
    decreases |anchors| - from
  {
    if from == |anchors| then -1
    else if IsUnsubscribeAnchor(anchors[from]) then from
    else FirstUnsubscribeAnchor(anchors, from + 1)
  }

  /** The anchor found qualifies, and none before it does. */
  lemma {:induction false} FirstUnsubscribeAnchorSpec(anchors: seq<Anchor>, from: nat)
    requires from <= |anchors|
    ensures var r := FirstUnsubscribeAnchor(anchors, from);
      && (r != -1 ==> IsUnsubscribeAnchor(anchors[r]))
      && (forall j :: from <= j < |anchors| && (r == -1 || j < r) ==> !IsUnsubscribeAnchor(anchors[j]))
    decreases |anchors| - from
  {
    if from < |anchors| && !IsUnsubscribeAnchor(anchors[from]) {
      FirstUnsubscribeAnchorSpec(anchors, from + 1);
    }
  }

  /**
   * The link `parseUnsubscribeInfo` records: the header URL, else the `href` of the
   * first unsubscribe-looking anchor of a non-empty HTML body, else none.
   */
  function UnsubscribeLink(listUnsubscribe: string, htmlBody: string, anchors: seq<Anchor>): Option<string> {
    var fromHeader := if listUnsubscribe != "" then ExtractUrlFromListUnsubscribe(listUnsubscribe) else None;
    if fromHeader.Some? then fromHeader
    else if htmlBody != "" && FirstUnsubscribeAnchor(anchors, 0) != -1 then
      Some(anchors[FirstUnsubscribeAnchor(anchors, 0)].href)
    else None
  }

  /**
   * The three-step priority: a header URL wins; otherwise the first qualifying
   * anchor of a non-empty body; otherwise there is no link.
   */
  lemma UnsubscribePriority(listUnsubscribe: string, htmlBody: string, anchors: seq<Anchor>)
    ensures var r := UnsubscribeLink(listUnsubscribe, htmlBody, anchors);
      var header := ExtractUrlFromListUnsubscribe(listUnsubscribe);
      && (header.Some? ==> r == header)
      && (forall i :: (0 <= i < |anchors| && IsUnsubscribeAnchor(anchors[i]) &&
                       (forall j :: 0 <= j < i ==> !IsUnsubscribeAnchor(anchors[j])) &&
                       header.None? && htmlBody != "") ==> r == Some(anchors[i].href))
      && (r.None? <==>
            (header.None? &&
             (htmlBody == "" || forall i :: 0 <= i < |anchors| ==> !IsUnsubscribeAnchor(anchors[i]))))
  {
    FirstUnsubscribeAnchorSpec(anchors, 0);
    if listUnsubscribe == "" {
      assert !Contains(listUnsubscribe, "<http");
    }
  }
}

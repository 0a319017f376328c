/**
 * The scan pipeline of service/EmailScannerService.java: list message ids page
 * by page, fetch and parse each message into an `Email`, and hand the parsed
 * emails to the database in batches of 50 while reporting progress.
 *
 * The Gmail client is a `Services` value: `fetch` is `messages().get(..).execute()`
 * (`None` when it throws), `decode` is the body's `decodeData()` read as a string,
 * `anchors` is Jsoup's `a[href]` selection and `toLocal` is the conversion of epoch
 * milliseconds into local time; `categorize` is the categorizer service the scanner
 * holds, `Categorizer.Categorize` in the application. The listing is a sequence of
 * pages, and every page but the last carries a next-page token.
 */
module Scanner {
  import opened Wrappers
  import opened Text
  import opened EmailModel
  import opened Categorizer
  import opened MessageParsing

  datatype Services = Services(
    fetch: string -> Option<RawMessage>,
    decode: string -> string,
    anchors: string -> seq<Anchor>,
    toLocal: int -> Timestamp,
    categorize: (EmailRec, Option<string>) -> Category)

  /** Emails are written to the database this many at a time. */
  const BatchSize: nat := 50

  // ------------------------------------------------------------ the database

  /**
   * `DatabaseService.saveEmails`: one transaction per batch, so a batch is stored
   * whole or, when the transaction fails, not at all. Whether attempt number `k`
   * succeeds is `accepts(k)`.
   */
  class Sink {
    var saved: seq<seq<EmailRec>>
    var attempts: nat
    const accepts: nat -> bool

    constructor (accepts: nat -> bool)
      ensures saved == [] && attempts == 0 && this.accepts == accepts
    {
      saved, attempts := [], 0;
      this.accepts := accepts;
    }

    method SaveEmails(batch: seq<EmailRec>) returns (ok: bool)
      modifies this
      ensures ok == accepts(old(attempts))
      ensures attempts == old(attempts) + 1
      ensures saved == if ok then old(saved) + [batch] else old(saved)
    {
      ok := accepts(attempts);
      if ok {
        saved := saved + [batch];
      }
      attempts := attempts + 1;
    }
  }

  /** Every save attempt from number `from` on succeeds. */
  ghost predicate AcceptsFrom(accepts: nat -> bool, from: nat) {
    forall k: nat :: from <= k ==> accepts(k)
  }

  // --------------------------------------------------------- batches

  /** The emails of a list of batches, in order. */
  function Flatten<T>(bs: seq<seq<T>>): seq<T> {
    if bs == [] then [] else bs[0] + Flatten(bs[1..])
  }

  lemma {:induction false} FlattenSnoc<T>(bs: seq<seq<T>>, b: seq<T>)
    ensures Flatten(bs + [b]) == Flatten(bs) + b
  {
    if bs == [] {
      assert [] + [b] == [b];
      assert Flatten([b]) == b + Flatten([b][1..]);
    } else {
      assert (bs + [b])[1..] == bs[1..] + [b];
      FlattenSnoc(bs[1..], b);
    }
  }

  /** `xs` cut into consecutive chunks of `n`, the last one possibly shorter. */
  function Chunks<T>(xs: seq<T>, n: nat): seq<seq<T>>
    requires n > 0
    decreases |xs|
  {
    if xs == [] then [] else if |xs| <= n then [xs] else [xs[..n]] + Chunks(xs[n..], n)
  }

  /** Chunking loses nothing and cuts where it says: full chunks, one short tail at most. */
  lemma {:induction false} ChunksSpec<T>(xs: seq<T>, n: nat)
    requires n > 0
    ensures var cs := Chunks(xs, n);
      && Flatten(cs) == xs
      && (forall k :: 0 <= k < |cs| ==> 0 < |cs[k]| <= n)
      && (forall k :: 0 <= k < |cs| - 1 ==> |cs[k]| == n)
    decreases |xs|
  {
    if xs != [] && |xs| > n {
      ChunksSpec(xs[n..], n);
      var cs := Chunks(xs, n);
      assert cs[1..] == Chunks(xs[n..], n);
      assert xs == xs[..n] + xs[n..];
    } else if xs != [] {
      assert Flatten([xs]) == xs + Flatten([xs][1..]);
    }
  }

  /** Batches of exactly `n` followed by a short tail are the chunking of what they hold. */
  lemma {:induction false} FullBatchesAreChunks<T>(bs: seq<seq<T>>, tail: seq<T>, n: nat)
    requires n > 0
    requires forall k :: 0 <= k < |bs| ==> |bs[k]| == n
    requires |tail| < n
    ensures Chunks(Flatten(bs) + tail, n) == bs + (if tail == [] then [] else [tail])
  {
    if bs == [] {
      assert Flatten(bs) + tail == tail;
    } else {
      var b, rest := bs[0], bs[1..];
      var xs := Flatten(bs) + tail;
      assert xs == b + (Flatten(rest) + tail);
      FullBatchesAreChunks(rest, tail, n);
      if rest == [] && tail == [] {
        assert xs == b;
        assert bs == [b];
      } else {
        if rest != [] {
          assert |Flatten(rest)| >= |rest[0]| by {
            assert Flatten(rest) == rest[0] + Flatten(rest[1..]);
          }
        }
        assert |xs| > n;
        assert xs[..n] == b;
        assert xs[n..] == Flatten(rest) + tail;
        assert bs == [b] + rest;
      }
    }
  }

  // ------------------------------------------------------- parsing one message

  /**
   * `parseUnsubscribeInfo`: records the link chosen by the priority rule; when there
   * is none it clears the flag and leaves the URL as it was.
   */
  method ParseUnsubscribeInfo(email: Email, m: RawMessage, htmlBody: string, anchorsOf: string -> seq<Anchor>)
    modifies email`hasUnsubscribeLink, email`unsubscribeUrl
    ensures var link := UnsubscribeOf(m, htmlBody, anchorsOf);
      email.hasUnsubscribeLink == link.Some? &&
      email.unsubscribeUrl == if link.Some? then link else old(email.unsubscribeUrl)
  {
    var listUnsubscribe := GetHeader(m, "List-Unsubscribe");
    if listUnsubscribe != "" {
      var url := ExtractUrlFromListUnsubscribe(listUnsubscribe);
      if url.Some? {
        email.SetHasUnsubscribeLink(true);
        email.SetUnsubscribeUrl(url);
        return;
      }
    }
    if htmlBody != "" {
      var links := anchorsOf(htmlBody);
      FirstUnsubscribeAnchorSpec(links, 0);
      var i := 0;
      while i < |links|
        invariant 0 <= i <= |links|
        invariant forall j :: 0 <= j < i ==> !IsUnsubscribeAnchor(links[j])
      {
        if IsUnsubscribeAnchor(links[i]) {
          email.SetHasUnsubscribeLink(true);
          email.SetUnsubscribeUrl(Some(links[i].href));
          return;
        }
        i := i + 1;
      }
    }
    email.SetHasUnsubscribeLink(false);
  }

  /** The link `parseUnsubscribeInfo` records for message `m` with this HTML body. */
  function UnsubscribeOf(m: RawMessage, htmlBody: string, anchorsOf: string -> seq<Anchor>): Option<string> {
    UnsubscribeLink(GetHeader(m, "List-Unsubscribe"), htmlBody, anchorsOf(htmlBody))
  }

  /** The local time of a message, when it has an internal date. */
  function LocalDate(svc: Services, m: RawMessage): Option<Timestamp> {
    if m.internalDate.Some? then Some(svc.toLocal(m.internalDate.value)) else None
  }

  /** The fields `fetchAndParseEmail` fills in from the message's headers and metadata. */
  function HeaderRecord(svc: Services, id: string, m: RawMessage): EmailRec {
    var from := GetHeader(m, "From");
    EmailRec(
      Some(id), Some(GetHeader(m, "Message-ID")), Some(ExtractEmail(from)), Some(ExtractName(from)),
      Some(GetHeader(m, "Subject")), m.snippet, LocalDate(svc, m), m.sizeEstimate.GetOr(0),
      None, false, None,
      m.labelIds.Some? && "UNREAD" !in m.labelIds.value,
      if m.labelIds.Some? then Some(Join(",", m.labelIds.value)) else None)
  }

  /** The fields `fetchAndParseEmail` fills in before it categorizes: the headers' and the unsubscribe link. */
  function BaseRecord(svc: Services, id: string, m: RawMessage): EmailRec {
    var link := UnsubscribeOf(m, GetHtmlBody(m.payload, svc.decode), svc.anchors);
    HeaderRecord(svc, id, m).(hasUnsubscribeLink := link.Some?, unsubscribeUrl := link)
  }

  /** The email `fetchAndParseEmail` builds from message `m` with id `id`. */
  function ParsedRecord(svc: Services, id: string, m: RawMessage): EmailRec {
    var e := BaseRecord(svc, id, m);
    e.(category := Some(svc.categorize(e, Some(GetHtmlBody(m.payload, svc.decode))).Name()))
  }

  /** The first part of `fetchAndParseEmail`: a new `Email` filled in from the headers and metadata. */
  method NewEmailFromHeaders(svc: Services, messageId: string, m: RawMessage) returns (email: Email)
    ensures fresh(email) && email.Snapshot() == HeaderRecord(svc, messageId, m)
  {
    email := new Email();
    email.SetId(Some(messageId));
    email.SetMessageId(Some(GetHeader(m, "Message-ID")));
    email.SetSnippet(m.snippet);
    var from := GetHeader(m, "From");
    email.SetFrom(Some(ExtractEmail(from)));
    email.SetFromName(Some(ExtractName(from)));
    email.SetSubject(Some(GetHeader(m, "Subject")));
    if m.internalDate.Some? {
      email.SetDate(Some(svc.toLocal(m.internalDate.value)));
    }
    email.SetSizeBytes(if m.sizeEstimate.Some? then m.sizeEstimate.value else 0);
    if m.labelIds.Some? {
      email.SetLabelIds(Some(Join(",", m.labelIds.value)));
      email.SetRead(!("UNREAD" in m.labelIds.value));
    }
  }

  /**
   * `fetchAndParseEmail`: `null` stands for the exception of a failed fetch; otherwise
   * a new `Email` holding the parsed record.
   */
  method FetchAndParseEmail(svc: Services, messageId: string) returns (email: Email?)
    ensures email == null <==> svc.fetch(messageId).None?
    ensures email != null ==> fresh(email) && email.Snapshot() == ParsedRecord(svc, messageId, svc.fetch(messageId).value)
  {
    var fetched := svc.fetch(messageId);
    if fetched.None? {
      return null;
    }
    var m := fetched.value;
    email := NewEmailFromHeaders(svc, messageId, m);
    var htmlBody := GetHtmlBody(m.payload, svc.decode);
    ParseUnsubscribeInfo(email, m, htmlBody, svc.anchors);
    assert email.Snapshot() == BaseRecord(svc, messageId, m);
    var category := svc.categorize(email.Snapshot(), Some(htmlBody));
    email.SetCategory(Some(category.Name()));
  }

  /**
   * What a parsed email holds: the size estimate or 0; read exactly when Gmail's
   * labels lack UNREAD; every label id inside the stored label string; one of the
   * six category names; a URL exactly when the unsubscribe flag is set, the header
   * URL first.
   */
  lemma ParsedRecordFields(svc: Services, id: string, m: RawMessage)
    ensures var r := ParsedRecord(svc, id, m);
      && r.id == Some(id)
      && r.sizeBytes == (if m.sizeEstimate.Some? then m.sizeEstimate.value else 0)
      && (r.isRead <==> m.labelIds.Some? && "UNREAD" !in m.labelIds.value)
      && (m.labelIds.Some? ==> forall l :: l in m.labelIds.value ==> Contains(r.labelIds.value, l))
      && (m.labelIds.None? ==> r.labelIds.None?)
      && r.category.Some?
      && (exists c: Category :: r.category.value == c.Name())
      && (r.hasUnsubscribeLink <==> r.unsubscribeUrl.Some?)
      && (ExtractUrlFromListUnsubscribe(GetHeader(m, "List-Unsubscribe")).Some? ==>
            r.hasUnsubscribeLink && r.unsubscribeUrl == ExtractUrlFromListUnsubscribe(GetHeader(m, "List-Unsubscribe")))
  {
    var r := ParsedRecord(svc, id, m);
    var htmlBody := GetHtmlBody(m.payload, svc.decode);
    UnsubscribePriority(GetHeader(m, "List-Unsubscribe"), htmlBody, svc.anchors(htmlBody));
    if m.labelIds.Some? {
      var labels := m.labelIds.value;
      forall l | l in labels
        ensures Contains(r.labelIds.value, l)
      {
        var k :| 0 <= k < |labels| && labels[k] == l;
        JoinContainsParts(",", labels, k);
      }
    }
  }

  /**
   * With the application's categorizer, mail that carries an unsubscribe link (in
   * its header or its body) is filed as NEWSLETTER, PROMOTIONAL or SOCIAL.
   */
  lemma ParsedUnsubscribableIsBulk(svc: Services, id: string, m: RawMessage)
    requires svc.categorize == Categorize
    ensures var r := ParsedRecord(svc, id, m);
      r.hasUnsubscribeLink ==> r.category.value in {"NEWSLETTER", "PROMOTIONAL", "SOCIAL"}
  {
    var e := BaseRecord(svc, id, m);
    if e.hasUnsubscribeLink {
      UnsubscribableIsBulk(e, Some(GetHtmlBody(m.payload, svc.decode)), e.from, e.labelIds);
    }
  }

  /** The sender of a `Name <address>` From header is stored as the bare address and the name. */
  lemma ParsedSender(svc: Services, id: string, m: RawMessage, name: string, address: string)
    requires GetHeader(m, "From") == name + "<" + address + ">"
    requires '<' !in name && '>' !in name && '<' !in address && '>' !in address
    ensures ParsedRecord(svc, id, m).from == Some(address)
    ensures ParsedRecord(svc, id, m).fromName == Some(RemoveChar(Trim(name), '"'))
  {
    FromHeaderRoundTrip(name, address);
  }

  // ------------------------------------------------------------ progress text

  /** A progress message passed to the callback. */
  datatype Report = Fetching | Found(count: int) | Processing(current: int, total: int) | Complete(total: int)
  {
    /** The text `String.format` renders. */
    function Text(): string {
      match this
      case Fetching => "Fetching email list..."
      case Found(count) => "Found " + IntToString(count) + " emails..."
      case Processing(current, total) =>
        "Processing " + IntToString(current) + "/" + IntToString(total) + " emails..."
      case Complete(total) => "Scan complete! Processed " + IntToString(total) + " emails."
    }
  }

  /** The reports for the first `n` processed emails: every tenth, and the last of `total`. */
  function ProgressReports(n: nat, total: int): seq<Report> {
    if n == 0 then []
    else ProgressReports(n - 1, total) + (if n % 10 == 0 || n == total then [Processing(n, total)] else [])
  }

  lemma ProgressReportsNext(n: nat, total: int)
    ensures ProgressReports(n + 1, total) ==
      ProgressReports(n, total) + (if (n + 1) % 10 == 0 || n + 1 == total then [Processing(n + 1, total)] else [])
  {
  }

  /**
   * After `n` of `total` messages are parsed: one report per ten, plus one more only
   * when `n` reaches `total` and is not a multiple of ten.
   */
  lemma {:induction false} ProgressReportCount(n: nat, total: nat)
    requires n <= total
    ensures |ProgressReports(n, total)| == n / 10 + (if n == total && n % 10 != 0 then 1 else 0)
  {
    if n > 0 {
      ProgressReportCount(n - 1, total);
      if n % 10 == 0 {
        assert n / 10 == (n - 1) / 10 + 1;
      } else {
        assert n / 10 == (n - 1) / 10;
      }
    }
  }

  // ------------------------------------------------------------ processing

  /** The record of one listed id: none when its fetch fails. */
  function ParsedOne(svc: Services, id: string): seq<EmailRec> {
    if svc.fetch(id).Some? then [ParsedRecord(svc, id, svc.fetch(id).value)] else []
  }

  /** The records of the messages whose fetch succeeds, in listing order. */
  function ParsedAll(svc: Services, ids: seq<string>): seq<EmailRec> {
    if ids == [] then [] else ParsedAll(svc, ids[..|ids| - 1]) + ParsedOne(svc, ids[|ids| - 1])
  }

  lemma ParsedAllSnoc(svc: Services, ids: seq<string>, i: nat)
    requires i < |ids|
    ensures ParsedAll(svc, ids[..i + 1]) == ParsedAll(svc, ids[..i]) + ParsedOne(svc, ids[i])
  {
    assert ids[..i + 1][..i] == ids[..i];
  }

  /** A fetch gives one record, carrying the message's id, or none when it fails. */
  lemma ParsedOneId(svc: Services, id: string)
    ensures |ParsedOne(svc, id)| == (if svc.fetch(id).Some? then 1 else 0)
    ensures forall k :: 0 <= k < |ParsedOne(svc, id)| ==> ParsedOne(svc, id)[k].id == Some(id)
  {
  }

  /**
   * Failed fetches are skipped and nothing else: at most one record per id, each
   * carrying the id of a listed message.
   */
  lemma {:induction false} ParsedAllIds(svc: Services, ids: seq<string>)
    ensures var r := ParsedAll(svc, ids);
      && |r| <= |ids|
      && (forall k :: 0 <= k < |r| ==> r[k].id.Some? && r[k].id.value in ids)
  {
    if ids != [] {
      var init, last := ids[..|ids| - 1], ids[|ids| - 1];
      ParsedAllIds(svc, init);
      ParsedOneId(svc, last);
      var p, one := ParsedAll(svc, init), ParsedOne(svc, last);
      var r := p + one;
      assert ids == init + [last];
      forall k | 0 <= k < |r|
        ensures r[k].id.Some? && r[k].id.value in ids
      {
        if k < |p| {
          assert r[k] == p[k];
        } else {
          assert r[k] == one[k - |p|];
        }
      }
    }
  }

  /** With every fetch succeeding, the records are those of the ids, one for one. */
  lemma {:induction false} ParsedAllComplete(svc: Services, ids: seq<string>)
    requires forall k :: 0 <= k < |ids| ==> svc.fetch(ids[k]).Some?
    ensures var r := ParsedAll(svc, ids);
      |r| == |ids| && forall k :: 0 <= k < |ids| ==> r[k].id == Some(ids[k])
  {
    if ids != [] {
      var init, last := ids[..|ids| - 1], ids[|ids| - 1];
      assert forall k :: 0 <= k < |init| ==> init[k] == ids[k];
      ParsedAllComplete(svc, init);
      ParsedOneId(svc, last);
      var p, one := ParsedAll(svc, init), ParsedOne(svc, last);
      var r := p + one;
      forall k | 0 <= k < |ids|
        ensures r[k].id == Some(ids[k])
      {
        if k < |p| {
          assert r[k] == p[k];
        } else {
          assert r[k] == one[0];
        }
      }
    }
  }

  /**
   * What `processMessages` carries from one email to the next: the unsaved buffer,
   * the count of parsed emails, the reports so far, and, mirroring the database,
   * the batches saved and the number of save attempts made.
   */
  datatype BatchState = BatchState(
    buffer: seq<EmailRec>, processed: nat, reports: seq<Report>, batches: seq<seq<EmailRec>>, attempts: nat)

  function Start(attempts: nat): BatchState {
    BatchState([], 0, [], [], attempts)
  }

  /**
   * One parsed email: buffered and counted, reported when the count is a multiple
   * of ten or the last of `total`; a full buffer is then saved and cleared, or kept
   * when the save throws.
   */
  function Take(accepts: nat -> bool, total: int, s: BatchState, e: EmailRec): BatchState {
    var buffer := s.buffer + [e];
    var n := s.processed + 1;
    var reports := s.reports + (if n % 10 == 0 || n == total then [Processing(n, total)] else []);
    if |buffer| < BatchSize then BatchState(buffer, n, reports, s.batches, s.attempts)
    else if accepts(s.attempts) then BatchState([], n, reports, s.batches + [buffer], s.attempts + 1)
    else BatchState(buffer, n, reports, s.batches, s.attempts + 1)
  }

  /** The parsed emails `es`, taken one after the other from state `s`. */
  function TakeAll(accepts: nat -> bool, total: int, s: BatchState, es: seq<EmailRec>): BatchState
    decreases |es|
  {
    if es == [] then s else Take(accepts, total, TakeAll(accepts, total, s, es[..|es| - 1]), es[|es| - 1])
  }

  lemma {:induction false} TakeAllAppend(accepts: nat -> bool, total: int, s: BatchState, xs: seq<EmailRec>, ys: seq<EmailRec>)
    ensures TakeAll(accepts, total, s, xs + ys) == TakeAll(accepts, total, TakeAll(accepts, total, s, xs), ys)
    decreases |ys|
  {
    if ys == [] {
      assert xs + ys == xs;
    } else {
      var zs := xs + ys;
      assert zs[..|zs| - 1] == xs + ys[..|ys| - 1];
      TakeAllAppend(accepts, total, s, xs, ys[..|ys| - 1]);
    }
  }

  /**
   * The state after taking `es` from `Start(a)` holds all of them, in order, between
   * the saved batches and the buffer; has counted and reported them; has saved only
   * full batches; and, when every save from attempt `a` on succeeds, keeps the
   * buffer short and every batch exactly full.
   */
  ghost predicate Batched(accepts: nat -> bool, total: int, a: nat, es: seq<EmailRec>, st: BatchState) {
    && Flatten(st.batches) + st.buffer == es
    && st.processed == |es|
    && st.reports == ProgressReports(|es|, total)
    && st.attempts >= a
    && (forall k :: 0 <= k < |st.batches| ==> |st.batches[k]| >= BatchSize)
    && (AcceptsFrom(accepts, a) ==>
          |st.buffer| < BatchSize && forall k :: 0 <= k < |st.batches| ==> |st.batches[k]| == BatchSize)
  }

  lemma TakeKeepsBatched(accepts: nat -> bool, total: int, a: nat, es: seq<EmailRec>, s: BatchState, e: EmailRec)
    requires Batched(accepts, total, a, es, s)
    ensures Batched(accepts, total, a, es + [e], Take(accepts, total, s, e))
  {
    ProgressReportsNext(|es|, total);
    var buffer := s.buffer + [e];
    assert Flatten(s.batches) + buffer == es + [e];
    if |buffer| >= BatchSize && accepts(s.attempts) {
      FlattenSnoc(s.batches, buffer);
      assert Flatten(s.batches + [buffer]) + [] == es + [e];
    }
  }

  lemma {:induction false} TakeAllSpec(accepts: nat -> bool, total: int, a: nat, es: seq<EmailRec>)
    ensures Batched(accepts, total, a, es, TakeAll(accepts, total, Start(a), es))
    decreases |es|
  {
    if es != [] {
      var init, e := es[..|es| - 1], es[|es| - 1];
      TakeAllSpec(accepts, total, a, init);
      assert es == init + [e];
      TakeKeepsBatched(accepts, total, a, init, TakeAll(accepts, total, Start(a), init), e);
    }
  }

  /** Whether the final save of `processMessages` goes through (nothing left counts as success). */
  function Completes(accepts: nat -> bool, st: BatchState): bool {
    st.buffer == [] || accepts(st.attempts)
  }

  /** The batches `processMessages` leaves in the database: the full ones, and the rest if saved. */
  function SavedBy(accepts: nat -> bool, st: BatchState): seq<seq<EmailRec>> {
    st.batches + (if Completes(accepts, st) && st.buffer != [] then [st.buffer] else [])
  }

  /**
   * What the database gains from processing the parsed emails `es`: all of them in
   * order when the scan completes, a strict prefix otherwise, in non-empty batches of
   * which all but the last hold at least `BatchSize`. The progress reports are those
   * of the parsed count `|es|`, which falls short of `total` when a fetch failed.
   */
  lemma ProcessedEmailsSaved(accepts: nat -> bool, total: int, a: nat, es: seq<EmailRec>)
    ensures var st := TakeAll(accepts, total, Start(a), es);
      var completed := Completes(accepts, st);
      var added := SavedBy(accepts, st);
      && (completed ==> Flatten(added) == es)
      && (!completed ==> |Flatten(added)| < |es| && Flatten(added) == es[..|Flatten(added)|])
      && (forall k :: 0 <= k < |added| ==> added[k] != [])
      && (forall k :: 0 <= k < |added| - 1 ==> |added[k]| >= BatchSize)
      && st.reports == ProgressReports(|es|, total)
  {
    TakeAllSpec(accepts, total, a, es);
    var st := TakeAll(accepts, total, Start(a), es);
    assert Batched(accepts, total, a, es, st);
    SavedBatches(es, st.batches, st.buffer, false);
  }

  /**
   * When every save from attempt `a` on succeeds, the scan completes and the
   * database gains exactly the `BatchSize` chunks of the parsed emails.
   */
  lemma ProcessedInChunks(accepts: nat -> bool, total: int, a: nat, es: seq<EmailRec>)
    requires AcceptsFrom(accepts, a)
    ensures var st := TakeAll(accepts, total, Start(a), es);
      Completes(accepts, st) && SavedBy(accepts, st) == Chunks(es, BatchSize)
  {
    TakeAllSpec(accepts, total, a, es);
    var st := TakeAll(accepts, total, Start(a), es);
    assert Batched(accepts, total, a, es, st);
    assert accepts(st.attempts);
    SavedBatches(es, st.batches, st.buffer, true);
  }

  /**
   * The batches left after the loop, with the buffer `rest` saved too: every email in
   * order, in non-empty batches all but the last full; with every save succeeding,
   * exactly the chunks.
   */
  lemma SavedBatches(parsed: seq<EmailRec>, done: seq<seq<EmailRec>>, rest: seq<EmailRec>, allAccepted: bool)
    requires Flatten(done) + rest == parsed
    requires forall k :: 0 <= k < |done| ==> |done[k]| >= BatchSize
    requires allAccepted ==> |rest| < BatchSize && forall k :: 0 <= k < |done| ==> |done[k]| == BatchSize
    ensures var final := done + (if rest == [] then [] else [rest]);
      && Flatten(final) == parsed
      && (forall k :: 0 <= k < |final| ==> final[k] != [])
      && (forall k :: 0 <= k < |final| - 1 ==> |final[k]| >= BatchSize)
      && (allAccepted ==> final == Chunks(parsed, BatchSize))
    ensures rest != [] ==> |Flatten(done)| < |parsed| && Flatten(done) == parsed[..|Flatten(done)|]
  {
    if rest != [] {
      FlattenSnoc(done, rest);
    } else {
      assert done + [] == done;
    }
    if allAccepted {
      FullBatchesAreChunks(done, rest, BatchSize);
    }
  }

  /**
   * The part of a pass after a successful fetch: the email is buffered and counted,
   * reported when the count is a multiple of ten or the last, and a full buffer is
   * saved, staying buffered when the save throws.
   */
  method BufferEmail(sink: Sink, total: int, e: EmailRec,
                     buffered: seq<EmailRec>, processed: nat, reported: seq<Report>,
                     ghost saved0: seq<seq<EmailRec>>, ghost added: seq<seq<EmailRec>>)
    returns (buffer: seq<EmailRec>, count: nat, reports: seq<Report>, ghost batches: seq<seq<EmailRec>>)
    requires sink.saved == saved0 + added
    modifies sink
    ensures sink.saved == saved0 + batches
    ensures BatchState(buffer, count, reports, batches, sink.attempts) ==
      Take(sink.accepts, total, BatchState(buffered, processed, reported, added, old(sink.attempts)), e)
  {
    buffer, count, reports, batches := buffered + [e], processed + 1, reported, added;
    if count % 10 == 0 || count == total {
      reports := reports + [Processing(count, total)];
    }
    if |buffer| >= BatchSize {
      var ok := sink.SaveEmails(buffer);
      if ok {
        batches := batches + [buffer];
        buffer := [];
      }
    }
  }

  /**
   * One pass of `processMessages`' loop: the message is fetched and parsed, and when
   * that throws the rest of the pass is skipped; otherwise the email is buffered.
   * The state moves as `TakeAll` says for the message's parsed record.
   */
  method ProcessMessage(svc: Services, id: string, sink: Sink, total: int,
                        buffered: seq<EmailRec>, processed: nat, reported: seq<Report>,
                        ghost saved0: seq<seq<EmailRec>>, ghost added: seq<seq<EmailRec>>)
    returns (buffer: seq<EmailRec>, count: nat, reports: seq<Report>, ghost batches: seq<seq<EmailRec>>)
    requires sink.saved == saved0 + added
    modifies sink
    ensures sink.saved == saved0 + batches
    ensures BatchState(buffer, count, reports, batches, sink.attempts) ==
      TakeAll(sink.accepts, total, BatchState(buffered, processed, reported, added, old(sink.attempts)), ParsedOne(svc, id))
  {
    var email := FetchAndParseEmail(svc, id);
    if email == null {
      assert ParsedOne(svc, id) == [];
      return buffered, processed, reported, added;
    }
    assert ParsedOne(svc, id) == [email.Snapshot()];
    assert [email.Snapshot()][..0] == [];
    buffer, count, reports, batches := BufferEmail(sink, total, email.Snapshot(), buffered, processed, reported, saved0, added);
  }

  /**
   * `processMessages`: every listed message goes through one pass, then what is still
   * buffered is saved, and only if that save succeeds is the scan complete. The
   * database and the reports end as `TakeAll` says for the parsed emails, followed
   * by the final save; `ProcessedEmailsSaved` says what that state holds.
   */
  method ProcessMessages(messages: seq<string>, svc: Services, sink: Sink)
    returns (reports: seq<Report>, completed: bool)
    modifies sink
    ensures var st := TakeAll(sink.accepts, |messages|, Start(old(sink.attempts)), ParsedAll(svc, messages));
      && completed == Completes(sink.accepts, st)
      && sink.saved == old(sink.saved) + SavedBy(sink.accepts, st)
      && sink.attempts == st.attempts + (if st.buffer == [] then 0 else 1)
      && reports == st.reports + (if completed then [Complete(|messages|)] else [])
  {
    ghost var a0 := sink.attempts;
    ghost var added: seq<seq<EmailRec>> := [];
    var emails: seq<EmailRec> := [];
    var processed := 0;
    var total := |messages|;
    reports := [];
    for i := 0 to |messages|
      invariant sink.saved == old(sink.saved) + added
      invariant BatchState(emails, processed, reports, added, sink.attempts) ==
        TakeAll(sink.accepts, total, Start(a0), ParsedAll(svc, messages[..i]))
    {
      ParsedAllSnoc(svc, messages, i);
      TakeAllAppend(sink.accepts, total, Start(a0), ParsedAll(svc, messages[..i]), ParsedOne(svc, messages[i]));
      emails, processed, reports, added :=
        ProcessMessage(svc, messages[i], sink, total, emails, processed, reports, old(sink.saved), added);
    }
    assert messages[..|messages|] == messages;
    if emails != [] {
      var ok := sink.SaveEmails(emails);
      if !ok {
        completed := false;
        return;
      }
    } else {
      assert added + [] == added;
    }
    reports := reports + [Complete(total)];
    completed := true;
  }

  // ------------------------------------------------------------ listing

  /** The ids of a page; a page without messages has none. */
  function PageIds(page: Option<seq<string>>): seq<string> {
    page.GetOr([])
  }

  /** The ids of the first `n` pages, in order. */
  function Listed(pages: seq<Option<seq<string>>>, n: nat): seq<string>
    requires n <= |pages|
  {
    if n == 0 then [] else Listed(pages, n - 1) + PageIds(pages[n - 1])
  }

  /** Reading more pages only appends. */
  lemma {:induction false} ListedGrows(pages: seq<Option<seq<string>>>, n: nat, m: nat)
    requires n <= m <= |pages|
    ensures |Listed(pages, n)| <= |Listed(pages, m)|
    ensures Listed(pages, m)[..|Listed(pages, n)|] == Listed(pages, n)
    decreases m - n
  {
    if n < m {
      ListedGrows(pages, n, m - 1);
      var a := Listed(pages, n);
      var b := Listed(pages, m - 1);
      assert Listed(pages, m)[..|b|] == b;
      assert Listed(pages, m)[..|a|] == b[..|a|];
    }
  }

  /** The number of pages read: up to the first that brings the count to `maxResults`, or all. */
  function PagesRead(pages: seq<Option<seq<string>>>, maxResults: int, n: nat): (r: nat)
    requires 1 <= n <= |pages|
    ensures n <= r <= |pages|
    ensures r < |pages| ==> |Listed(pages, r)| >= maxResults
    decreases |pages| - n
  {
    if |Listed(pages, n)| >= maxResults || n == |pages| then n else PagesRead(pages, maxResults, n + 1)
  }

  /** Reading stops at the first page that reaches `maxResults`: none before it did. */
  lemma {:induction false} PagesReadIsFirst(pages: seq<Option<seq<string>>>, maxResults: int, n: nat)
    requires 1 <= n <= |pages|
    ensures forall k :: n <= k < PagesRead(pages, maxResults, n) ==> |Listed(pages, k)| < maxResults
    decreases |pages| - n
  {
    if !(|Listed(pages, n)| >= maxResults || n == |pages|) {
      PagesReadIsFirst(pages, maxResults, n + 1);
    }
  }

  /** One "Found n emails..." report per page read, with the running count. */
  function FoundReports(pages: seq<Option<seq<string>>>, n: nat): (r: seq<Report>)
    requires n <= |pages|
    ensures |r| == n
  {
    if n == 0 then [] else FoundReports(pages, n - 1) + [Found(|Listed(pages, n)|)]
  }

  /** The messages a successful listing returns: all listed ids, cut at `maxResults`. */
  function ListedMessages(pages: seq<Option<seq<string>>>, maxResults: nat): seq<string> {
    var all := Listed(pages, |pages|);
    if |all| <= maxResults then all else all[..maxResults]
  }

  /**
   * The listing loop of `scanEmails`: pages are read while there is a next-page
   * token and fewer than `maxResults` ids have been collected, each read reported
   * with the running count; the list is then cut at `maxResults`. A negative
   * `maxResults` makes the cut throw, after the first page has been reported.
   */
  method ListMessages(maxResults: int, pages: seq<Option<seq<string>>>)
    returns (messages: seq<string>, reports: seq<Report>, ok: bool)
    requires |pages| >= 1
    ensures ok <==> maxResults >= 0
    ensures ok ==> messages == ListedMessages(pages, maxResults)
    ensures reports == [Fetching] + FoundReports(pages, PagesRead(pages, maxResults, 1))
  {
    reports := [Fetching];
    messages := [];
    var n := 0;
    while true
      invariant 0 <= n < |pages|
      invariant messages == Listed(pages, n)
      invariant reports == [Fetching] + FoundReports(pages, n)
      invariant PagesRead(pages, maxResults, 1) == PagesRead(pages, maxResults, n + 1)
      decreases |pages| - n
    {
      messages := messages + PageIds(pages[n]);
      n := n + 1;
      reports := reports + [Found(|messages|)];
      if |messages| >= maxResults {
        assert PagesRead(pages, maxResults, n) == n;
        if maxResults < 0 {
          ok := false;
          return;
        }
        ListedGrows(pages, n, |pages|);
        messages := messages[..maxResults];
        break;
      }
      if n == |pages| {
        assert PagesRead(pages, maxResults, n) == n;
        break;
      }
    }
    ok := true;
  }

  /**
   * `scanEmails`: the listing, then the processing of the listed messages; its
   * reports are the listing's followed by the processing's. With a negative
   * `maxResults` nothing is fetched or saved.
   */
  method ScanEmails(maxResults: int, pages: seq<Option<seq<string>>>, svc: Services, sink: Sink)
    returns (reports: seq<Report>, completed: bool)
    requires |pages| >= 1
    modifies sink
    ensures var listing := [Fetching] + FoundReports(pages, PagesRead(pages, maxResults, 1));
      if maxResults < 0 then
        !completed && reports == listing && sink.saved == old(sink.saved) && sink.attempts == old(sink.attempts)
      else
        var messages := ListedMessages(pages, maxResults);
        var st := TakeAll(sink.accepts, |messages|, Start(old(sink.attempts)), ParsedAll(svc, messages));
        && completed == Completes(sink.accepts, st)
        && sink.saved == old(sink.saved) + SavedBy(sink.accepts, st)
        && reports == listing + st.reports + (if completed then [Complete(|messages|)] else [])
  {
    var messages, listReports, ok := ListMessages(maxResults, pages);
    if !ok {
      reports, completed := listReports, false;
      return;
    }
    var processReports;
    processReports, completed := ProcessMessages(messages, svc, sink);
    reports := listReports + processReports;
  }
}

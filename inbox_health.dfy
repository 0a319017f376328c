/**
 * `analyzeInboxHealth` of SmartAnalysisService: per sender, how much of their mail
 * is read and how recent it is; senders that are not ACTIVE are reported, largest
 * footprint first. The clock is a parameter (`now`); the order of a `HashMap`'s
 * entries is taken to be the order in which their keys first occur.
 */
module InboxHealth {
  import opened Wrappers
  import opened Text
  import opened EmailModel
  import opened Sorting
  import opened Collecting

  const DayMillis: int := 86_400_000

  /** `ChronoUnit.DAYS.between(from, to)`. */
  function DaysBetween(from: Timestamp, to: Timestamp): int {
    JavaDiv(to - from, DayMillis)
  }

  /**
   * Whole days elapsed: never more than the time that passed and less than a day
   * short of it; negative (rounded toward zero) when `to` is earlier.
   */
  lemma DaysBetweenCountsWholeDays(from: Timestamp, to: Timestamp)
    ensures var d := DaysBetween(from, to);
      if from <= to then 0 <= d && d * DayMillis <= to - from < (d + 1) * DayMillis
      else d <= 0 && (d - 1) * DayMillis < to - from <= d * DayMillis
  {
  }

  /** The status strings of `determineStatus`. */
  datatype Status = Spammer | Ghost | Cold | Active {
    function Name(): string {
      match this
      case Spammer => "SPAMMER"
      case Ghost => "GHOST"
      case Cold => "COLD"
      case Active => "ACTIVE"
    }
  }

  /** `determineStatus`: the first rule that applies, in this order. */
  function DetermineStatus(openRate: real, daysSinceLast: int, total: int): Status {
    if openRate < 0.10 && total > 10 then Spammer
    else if daysSinceLast > 90 then Ghost
    else if openRate < 0.30 then Cold
    else Active
  }

  /** For positive `t`, comparing `x / t` with `y` is comparing `x` with `y * t`. */
  lemma RatioBelow(x: real, t: real, y: real)
    requires t > 0.0
    ensures x / t < y <==> x < y * t
  {
    var q := x / t;
    assert q * t == x;
    if q < y {
      assert q * t < y * t;
    } else {
      assert q * t >= y * t;
    }
  }

  /**
   * With the open rate `read / total` of a sender, the status needs no fractions:
   * under 10% read is `10 * read < total`, under 30% is `10 * read < 3 * total`.
   */
  lemma {:induction false} StatusByCounts(read: int, total: int, daysSinceLast: int)
    requires 0 <= read <= total && total > 0
    ensures DetermineStatus(read as real / total as real, daysSinceLast, total) ==
      if 10 * read < total && total > 10 then Spammer
      else if daysSinceLast > 90 then Ghost
      else if 10 * read < 3 * total then Cold
      else Active
  {
    RatioBelow(read as real, total as real, 0.10);
    RatioBelow(read as real, total as real, 0.30);
  }

  /** The `SenderDecayScore` record; `status` holds one of the `Status` names. */
  datatype SenderDecayScore = SenderDecayScore(
    senderEmail: string,
    senderName: string,
    totalEmails: int,
    unreadCount: int,
    openRate: real,
    lastReceived: Timestamp,
    wastedBytes: int,
    status: Status)

  function WastedBytes(s: SenderDecayScore): int {
    s.wastedBytes
  }

  /** `getFormattedWastedSpace()`: whole kilobytes below 1 MiB, megabytes from there on. */
  function WastedSpaceText(s: SenderDecayScore): (r: SizeText)
    ensures r.Exact? <==> s.wastedBytes < MiB
    ensures r.Exact? && s.wastedBytes >= 0 ==>
      r.text == IntToString(s.wastedBytes / KiB) + " KB" &&
      (s.wastedBytes / KiB) * KiB <= s.wastedBytes < (s.wastedBytes / KiB + 1) * KiB
    ensures r.Scaled? ==>
      r.unit == " MB" && r.amount >= 1.0 && r.amount * MiB as real == s.wastedBytes as real
  {
    if s.wastedBytes < MiB then Exact(IntToString(JavaDiv(s.wastedBytes, KiB)) + " KB")
    else Scaled(s.wastedBytes as real / (1024.0 * 1024.0), " MB")
  }

  /** The emails `groupingBy(Email::getFrom)` puts under `sender`, in their order. */
  function FromSender(es: seq<EmailRec>, sender: string): seq<EmailRec> {
    if es == [] then []
    else FromSender(es[..|es| - 1], sender) + (if es[|es| - 1].from == Some(sender) then [es[|es| - 1]] else [])
  }

  /** The keys of that grouping, in order of first occurrence. */
  function Senders(es: seq<EmailRec>): seq<string> {
    if es == [] then []
    else
      var s := Senders(es[..|es| - 1]);
      var from := es[|es| - 1].from;
      if from.None? || from.value in s then s else s + [from.value]
  }

  /** `filter(e -> !e.isRead()).count()`. */
  function CountUnread(es: seq<EmailRec>): nat {
    if es == [] then 0 else CountUnread(es[..|es| - 1]) + (if es[|es| - 1].isRead then 0 else 1)
  }

  predicate Dated(es: seq<EmailRec>) {
    forall i :: 0 <= i < |es| ==> es[i].date.Some?
  }

  /** `map(Email::getDate).max(LocalDateTime::compareTo).orElse(now)`. */
  function LatestDate(es: seq<EmailRec>, now: Timestamp): Timestamp
    requires Dated(es)
  {
    if es == [] then now
    else if |es| == 1 then es[0].date.value
    else
      var latest := LatestDate(es[..|es| - 1], now);
      var d := es[|es| - 1].date.value;
      if d > latest then d else latest
  }

  /**
   * What `analyzeInboxHealth` throws on: a null sender (`groupingBy` refuses null
   * keys), or a missing date among the emails of a sender with three or more
   * emails (the `max` over their dates compares it).
   */
  ghost predicate Analyzable(es: seq<EmailRec>) {
    (forall i :: 0 <= i < |es| ==> es[i].from.Some?) &&
    (forall sender :: |FromSender(es, sender)| >= 3 ==> Dated(FromSender(es, sender)))
  }

  /**
   * One pass of the loop: the score of `sender`, or nothing when it has fewer than
   * three emails or is ACTIVE. (Where a date is missing Java throws instead;
   * `AnalyzeInboxHealth` requires that this does not happen.)
   */
  function ScoreOf(es: seq<EmailRec>, sender: string, now: Timestamp): Option<SenderDecayScore> {
    var emails := FromSender(es, sender);
    var total := |emails|;
    if total < 3 || !Dated(emails) then None
    else
      var unread := CountUnread(emails);
      var openRate := (total - unread) as real / total as real;
      var lastDate := LatestDate(emails, now);
      var status := DetermineStatus(openRate, DaysBetween(lastDate, now), total);
      if status == Active then None
      else
        var name := emails[0].fromName;
        var senderName := if name.None? || name.value == "" then sender else name.value;
        Some(SenderDecayScore(sender, senderName, total, unread, openRate, lastDate,
                              SumSizes(emails), status))
  }

  function Scorer(es: seq<EmailRec>, now: Timestamp): string -> Option<SenderDecayScore> {
    sender => ScoreOf(es, sender, now)
  }

  function SenderOf(s: SenderDecayScore): string {
    s.senderEmail
  }

  /** A score is filed under its own sender. */
  lemma ScoresOwnSender(es: seq<EmailRec>, now: Timestamp)
    ensures forall x :: Scorer(es, now)(x).Some? ==> SenderOf(Scorer(es, now)(x).value) == x
  {
  }

  /** `analyzeInboxHealth`, with the clock reading `now` as a parameter. */
  method AnalyzeInboxHealth(allEmails: seq<EmailRec>, now: Timestamp) returns (scores: seq<SenderDecayScore>)
    requires Analyzable(allEmails)
    ensures SortedDesc(scores, WastedBytes)
    ensures forall k :: 0 <= k < |scores| ==> ScoreOf(allEmails, scores[k].senderEmail, now) == Some(scores[k])
    ensures forall sender :: ScoreOf(allEmails, sender, now).Some? <==>
      exists k :: 0 <= k < |scores| && scores[k].senderEmail == sender
    ensures forall j, k :: 0 <= j < k < |scores| ==> scores[j].senderEmail != scores[k].senderEmail
  {
    var senders := Senders(allEmails);
    scores := [];
    for i := 0 to |senders|
      invariant scores == Present(senders[..i], Scorer(allEmails, now))
    {
      var sender := senders[i];
      var emails := FromSender(allEmails, sender);
      var total := |emails|;
      assert senders[..i + 1][..i] == senders[..i];
      if total < 3 {
        continue;
      }
      var unread := CountUnread(emails);
      var openRate := (total - unread) as real / total as real;
      var lastDate := LatestDate(emails, now);
      var daysSinceLast := DaysBetween(lastDate, now);
      var wastedBytes := SumSizes(emails);
      var status := DetermineStatus(openRate, daysSinceLast, total);
      if status != Active {
        var name := emails[0].fromName;
        var senderName := if name.None? || name.value == "" then sender else name.value;
        scores := scores + [SenderDecayScore(sender, senderName, total, unread, openRate,
                                             lastDate, wastedBytes, status)];
      }
    }
    assert senders[..|senders|] == senders;
    var candidates := scores;
    scores := SortDesc(candidates, WastedBytes);
    SortedScoresSpec(allEmails, candidates, scores, now);
  }

  /** The senders are the distinct non-null `from` values. */
  lemma {:induction false} SendersSpec(es: seq<EmailRec>)
    ensures Distinct(Senders(es))
    ensures forall s :: s in Senders(es) <==> exists i :: 0 <= i < |es| && es[i].from == Some(s)
  {
    if es != [] {
      var init := es[..|es| - 1];
      SendersSpec(init);
      forall s | (exists i :: 0 <= i < |es| && es[i].from == Some(s))
        ensures s in Senders(es)
      {
        var i :| 0 <= i < |es| && es[i].from == Some(s);
        if i < |es| - 1 {
          assert init[i] == es[i];
        }
      }
      forall s | s in Senders(es)
        ensures exists i :: 0 <= i < |es| && es[i].from == Some(s)
      {
        if s in Senders(init) {
          var i :| 0 <= i < |init| && init[i].from == Some(s);
          assert es[i] == init[i];
        } else {
          assert es[|es| - 1].from == Some(s);
        }
      }
    }
  }

  /** A sender with no email has no group, so no score. */
  lemma {:induction false} NoEmailsNoGroup(es: seq<EmailRec>, sender: string)
    requires forall i :: 0 <= i < |es| ==> es[i].from != Some(sender)
    ensures FromSender(es, sender) == []
  {
    if es != [] {
      NoEmailsNoGroup(es[..|es| - 1], sender);
    }
  }

  /** Sorting the collected scores keeps each score and adds or loses none. */
  lemma SortedScoresSpec(es: seq<EmailRec>, c: seq<SenderDecayScore>, scores: seq<SenderDecayScore>, now: Timestamp)
    requires c == Present(Senders(es), Scorer(es, now))
    requires multiset(scores) == multiset(c)
    ensures forall k :: 0 <= k < |scores| ==> ScoreOf(es, scores[k].senderEmail, now) == Some(scores[k])
    ensures forall sender :: ScoreOf(es, sender, now).Some? <==>
      exists k :: 0 <= k < |scores| && scores[k].senderEmail == sender
    ensures forall j, k :: 0 <= j < k < |scores| ==> scores[j].senderEmail != scores[k].senderEmail
  {
    var f := Scorer(es, now);
    SendersSpec(es);
    ScoresOwnSender(es, now);
    PresentPermutation(Senders(es), f, SenderOf, scores);
    forall sender | ScoreOf(es, sender, now).Some?
      ensures sender in Senders(es)
    {
      if sender !in Senders(es) {
        NoEmailsNoGroup(es, sender);
      }
    }
    assert forall k :: 0 <= k < |scores| ==> SenderOf(scores[k]) == scores[k].senderEmail;
  }

  /** The group of `sender` is exactly its emails, in their order. */
  lemma {:induction false} FromSenderSpec(es: seq<EmailRec>, sender: string)
    ensures forall e :: e in FromSender(es, sender) ==> e in es && e.from == Some(sender)
    ensures forall i :: 0 <= i < |es| && es[i].from == Some(sender) ==> es[i] in FromSender(es, sender)
  {
    if es != [] {
      var init := es[..|es| - 1];
      FromSenderSpec(init, sender);
      assert es == init + [es[|es| - 1]];
    }
  }

  lemma {:induction false} UnreadAtMostAll(es: seq<EmailRec>)
    ensures CountUnread(es) <= |es|
    ensures CountUnread(es) == 0 <==> forall i :: 0 <= i < |es| ==> es[i].isRead
  {
    if es != [] {
      var init := es[..|es| - 1];
      UnreadAtMostAll(init);
      if CountUnread(es) == 0 {
        forall i | 0 <= i < |es|
          ensures es[i].isRead
        {
          if i < |init| {
            assert es[i] == init[i];
          }
        }
      }
      if CountUnread(init) != 0 {
        var i :| 0 <= i < |init| && !init[i].isRead;
        assert es[i] == init[i];
      }
    }
  }

  /** The latest date is one of the dates, and no date is later. */
  lemma {:induction false} LatestDateSpec(es: seq<EmailRec>, now: Timestamp)
    requires Dated(es) && es != []
    ensures exists i :: 0 <= i < |es| && es[i].date == Some(LatestDate(es, now))
    ensures forall i :: 0 <= i < |es| ==> es[i].date.value <= LatestDate(es, now)
  {
    if |es| > 1 {
      var init := es[..|es| - 1];
      assert Dated(init);
      LatestDateSpec(init, now);
      var i :| 0 <= i < |init| && init[i].date == Some(LatestDate(init, now));
      assert es[i] == init[i];
      if es[|es| - 1].date.value > LatestDate(init, now) {
        assert es[|es| - 1].date == Some(LatestDate(es, now));
      }
      forall j | 0 <= j < |es| - 1
        ensures es[j].date.value <= LatestDate(es, now)
      {
        assert es[j] == init[j];
      }
    } else {
      assert es[0].date == Some(LatestDate(es, now));
    }
  }

  /**
   * A sender is reported exactly when it has three or more emails (all dated) and
   * is not ACTIVE; its score then counts its emails and its unread ones, its open
   * rate is the share read, its last date is its latest, its size is the sum of
   * its sizes, its name falls back to the address, and its status follows the
   * integer rules of `StatusByCounts`.
   */
  lemma ScoreOfSpec(es: seq<EmailRec>, sender: string, now: Timestamp)
    ensures var g := FromSender(es, sender);
      ScoreOf(es, sender, now).Some? <==>
        |g| >= 3 && Dated(g) &&
        DetermineStatus((|g| - CountUnread(g)) as real / |g| as real,
                        DaysBetween(LatestDate(g, now), now), |g|) != Active
    ensures var g := FromSender(es, sender);
      ScoreOf(es, sender, now).Some? ==>
        var sc := ScoreOf(es, sender, now).value;
        var read := sc.totalEmails - sc.unreadCount;
        sc.senderEmail == sender && sc.totalEmails == |g| >= 3 &&
        sc.unreadCount == CountUnread(g) && 0 <= read <= sc.totalEmails &&
        sc.openRate == read as real / sc.totalEmails as real &&
        0.0 <= sc.openRate <= 1.0 &&
        (exists i :: 0 <= i < |g| && g[i].date == Some(sc.lastReceived)) &&
        (forall i :: 0 <= i < |g| ==> g[i].date.value <= sc.lastReceived) &&
        sc.wastedBytes == SumSizes(g) &&
        sc.senderName == (if g[0].fromName.Some? && g[0].fromName.value != "" then g[0].fromName.value else sender) &&
        sc.status != Active &&
        var days := DaysBetween(sc.lastReceived, now);
        sc.status == (if 10 * read < sc.totalEmails && sc.totalEmails > 10 then Spammer
                      else if days > 90 then Ghost
                      else if 10 * read < 3 * sc.totalEmails then Cold
                      else Active)
  {
    var g := FromSender(es, sender);
    if |g| >= 3 && Dated(g) {
      UnreadAtMostAll(g);
      LatestDateSpec(g, now);
      var total := |g|;
      var read := total - CountUnread(g);
      StatusByCounts(read, total, DaysBetween(LatestDate(g, now), now));
      var rate := read as real / total as real;
      assert 0.0 <= rate <= 1.0 by {
        RatioBelow(read as real, total as real, 0.0);
        RatioAtMostOne(read as real, total as real);
      }
    }
  }

  lemma RatioAtMostOne(x: real, t: real)
    requires 0.0 <= x <= t && t > 0.0
    ensures x / t <= 1.0
  {
    var q := x / t;
    assert q * t == x;
  }
}

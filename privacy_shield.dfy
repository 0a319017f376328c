/**
 * `scanForPrivacyRisks` of SmartAnalysisService: emails whose subject or snippet
 * mentions credentials, money or identity papers, HIGH risks before MEDIUM ones.
 */
module PrivacyShield {
  import opened Wrappers
  import opened Text
  import opened EmailModel
  import opened Sorting

  /** `RiskLevel`, in declaration order. */
  datatype RiskLevel = High | Medium | Low {
    /** The enum's ordinal, which `Comparator.comparing(PrivacyRisk::level)` sorts by. */
    function Ordinal(): nat {
      match this
      case High => 0
      case Medium => 1
      case Low => 2
    }
  }

  /** The `PrivacyRisk` record. */
  datatype PrivacyRisk = PrivacyRisk(email: EmailRec, riskType: string, level: RiskLevel, triggerPhrase: string)

  /** The three checks the scan runs on every email, in the order it runs them. */
  datatype RiskKind = Credentials | Financial | Identity {
    function Name(): string {
      match this
      case Credentials => "Credentials"
      case Financial => "Financial"
      case Identity => "Identity"
    }

    function Level(): RiskLevel {
      match this
      case Credentials => High
      case Financial => Medium
      case Identity => High
    }

    /** The list of `lists` this check searches for. */
    function KeywordsIn(lists: KeywordLists): seq<string> {
      match this
      case Credentials => lists.credentials
      case Financial => lists.financial
      case Identity => lists.identity
    }
  }

  /**
   * The three keyword lists, one per check. The scan below is stated for any lists;
   * `ScanForPrivacyRisks` uses the ones the source declares.
   */
  datatype KeywordLists = KeywordLists(credentials: seq<string>, financial: seq<string>, identity: seq<string>)

  /** The lists `scanForPrivacyRisks` declares, all lower-case. */
  function SourceKeywords(): KeywordLists {
    KeywordLists(
      ["password reset", "verification code", "security code", "login alert", "2fa", "otp"],
      ["bank statement", "account summary", "payment confirmation", "invoice #", "receipt for"],
      ["passport application", "visa granted", "tax return", "aadhaar", "social security"])
  }

  /** String concatenation in Java renders a missing field as "null". */
  function JavaString(s: Option<string>): string {
    if s.Some? then s.value else "null"
  }

  /** The text searched: subject, a space and snippet, lower-cased. */
  function RiskText(e: EmailRec): string {
    Lower(JavaString(e.subject) + " " + JavaString(e.snippet))
  }

  /** `keys[i]` is the first keyword of `keys` that `text` contains. */
  predicate FirstMatchAt(text: string, keys: seq<string>, i: int) {
    0 <= i < |keys| && Contains(text, keys[i]) && forall j :: 0 <= j < i ==> !Contains(text, keys[j])
  }

  /**
   * The keyword an inner loop stops at when it starts at index `from`, if any;
   * `String.contains` is `indexOf(s) >= 0`.
   */
  function FirstMatchFrom(text: string, keys: seq<string>, from: nat): Option<string>
    decreases |keys| - from
  {
    if from >= |keys| then None
    else if IndexOf(text, keys[from]) >= 0 then Some(keys[from])
    else FirstMatchFrom(text, keys, from + 1)
  }

  /** The keyword an inner loop stops at, if any. */
  function FirstMatch(text: string, keys: seq<string>): Option<string> {
    FirstMatchFrom(text, keys, 0)
  }

  /** From `from` on, the loop stops exactly when the text contains a keyword, and then at the first. */
  lemma {:induction false} FirstMatchFromSpec(text: string, keys: seq<string>, from: nat)
    ensures FirstMatchFrom(text, keys, from).None? <==>
      forall i :: from <= i < |keys| ==> !Contains(text, keys[i])
    ensures FirstMatchFrom(text, keys, from).Some? ==>
      exists i :: from <= i < |keys| && keys[i] == FirstMatchFrom(text, keys, from).value &&
        Contains(text, keys[i]) && forall j :: from <= j < i ==> !Contains(text, keys[j])
    decreases |keys| - from
  {
    if from < |keys| {
      IndexOfFindsIff(text, keys[from]);
      if !Contains(text, keys[from]) {
        FirstMatchFromSpec(text, keys, from + 1);
      }
    }
  }

  /** The loop stops at a keyword exactly when the text contains one, and then at the first. */
  lemma FirstMatchSpec(text: string, keys: seq<string>)
    ensures FirstMatch(text, keys).None? <==> forall i :: 0 <= i < |keys| ==> !Contains(text, keys[i])
    ensures FirstMatch(text, keys).Some? ==>
      exists i :: FirstMatchAt(text, keys, i) && keys[i] == FirstMatch(text, keys).value
  {
    FirstMatchFromSpec(text, keys, 0);
  }

  /** The entry a check adds for `e` when `text` contains one of `keys`. */
  function Hit(e: EmailRec, text: string, riskType: string, level: RiskLevel, keys: seq<string>): seq<PrivacyRisk> {
    var m := FirstMatch(text, keys);
    if m.Some? then [PrivacyRisk(e, riskType, level, m.value)] else []
  }

  /** The risk one check raises for `e`. */
  function Found(e: EmailRec, kind: RiskKind, lists: KeywordLists): seq<PrivacyRisk> {
    Hit(e, RiskText(e), kind.Name(), kind.Level(), kind.KeywordsIn(lists))
  }

  /** The risks one email raises, in the order the three checks add them. */
  function RisksOf(e: EmailRec, lists: KeywordLists): seq<PrivacyRisk> {
    Found(e, Credentials, lists) + Found(e, Financial, lists) + Found(e, Identity, lists)
  }

  /** The list the scan loop builds, before sorting. */
  function AllRisks(es: seq<EmailRec>, lists: KeywordLists): seq<PrivacyRisk> {
    if es == [] then [] else AllRisks(es[..|es| - 1], lists) + RisksOf(es[|es| - 1], lists)
  }

  function LevelKey(r: PrivacyRisk): int {
    -(r.level.Ordinal() as int)
  }

  /** One inner loop of `scanForPrivacyRisks`: the first keyword the text contains. */
  method MatchKeyword(text: string, keys: seq<string>) returns (found: Option<string>)
    ensures found == FirstMatch(text, keys)
  {
    for i := 0 to |keys|
      invariant FirstMatch(text, keys) == FirstMatchFrom(text, keys, i)
    {
      if IndexOf(text, keys[i]) >= 0 {
        return Some(keys[i]);
      }
    }
    return None;
  }

  /** One keyword check of `scanForPrivacyRisks` on an email's text. */
  method CheckRisk(email: EmailRec, text: string, kind: RiskKind, lists: KeywordLists) returns (hit: seq<PrivacyRisk>)
    requires text == RiskText(email)
    ensures hit == Found(email, kind, lists)
  {
    var key := MatchKeyword(text, kind.KeywordsIn(lists));
    hit := if key.Some? then [PrivacyRisk(email, kind.Name(), kind.Level(), key.value)] else [];
  }

  /** The body of the scan loop: the three checks on one email's text, in order. */
  method ScanEmail(email: EmailRec, lists: KeywordLists) returns (raised: seq<PrivacyRisk>)
    ensures raised == RisksOf(email, lists)
  {
    var text := Lower(JavaString(email.subject) + " " + JavaString(email.snippet));
    var credentials := CheckRisk(email, text, Credentials, lists);
    var financial := CheckRisk(email, text, Financial, lists);
    var identity := CheckRisk(email, text, Identity, lists);
    raised := credentials + financial + identity;
  }

  /** `scanForPrivacyRisks`. */
  method ScanForPrivacyRisks(allEmails: seq<EmailRec>) returns (risks: seq<PrivacyRisk>)
    ensures multiset(risks) == multiset(AllRisks(allEmails, SourceKeywords()))
    ensures forall j, k :: 0 <= j < k < |risks| ==> risks[j].level.Ordinal() <= risks[k].level.Ordinal()
    ensures forall level :: WithKey(risks, LevelKey, level) == WithKey(AllRisks(allEmails, SourceKeywords()), LevelKey, level)
    ensures forall k :: 0 <= k < |risks| ==> risks[k].email in allEmails && risks[k].level != Low
  {
    var lists := SourceKeywords();
    var found := CollectRisks(allEmails, lists);
    risks := SortDesc(found, LevelKey);
    SortedRisksSpec(allEmails, lists, risks);
  }

  /** The scan loop of `scanForPrivacyRisks`, before the final sort. */
  method CollectRisks(allEmails: seq<EmailRec>, lists: KeywordLists) returns (found: seq<PrivacyRisk>)
    ensures found == AllRisks(allEmails, lists)
  {
    found := [];
    for i := 0 to |allEmails|
      invariant found == AllRisks(allEmails[..i], lists)
    {
      var email := allEmails[i];
      var raised := ScanEmail(email, lists);
      AllRisksStep(allEmails, i, lists);
      found := found + raised;
    }
    assert allEmails[..|allEmails|] == allEmails;
  }

  /** One loop step: the next email's risks are appended. */
  lemma {:induction false} AllRisksStep(es: seq<EmailRec>, i: nat, lists: KeywordLists)
    requires i < |es|
    ensures AllRisks(es[..i + 1], lists) == AllRisks(es[..i], lists) + RisksOf(es[i], lists)
  {
    assert es[..i + 1][..i] == es[..i];
  }

  /** Sorting keeps every risk an email raised: none of level LOW, HIGH ones first. */
  lemma {:induction false} SortedRisksSpec(es: seq<EmailRec>, lists: KeywordLists, risks: seq<PrivacyRisk>)
    requires multiset(risks) == multiset(AllRisks(es, lists))
    requires SortedDesc(risks, LevelKey)
    ensures forall j, k :: 0 <= j < k < |risks| ==> risks[j].level.Ordinal() <= risks[k].level.Ordinal()
    ensures forall k :: 0 <= k < |risks| ==> risks[k].email in es && risks[k].level != Low
  {
    AllRisksSpec(es, lists);
    forall k | 0 <= k < |risks|
      ensures risks[k].email in es && risks[k].level != Low
    {
      assert risks[k] in multiset(AllRisks(es, lists));
      assert risks[k] in AllRisks(es, lists);
      var i :| 0 <= i < |es| && risks[k] in RisksOf(es[i], lists);
      RisksOfSpec(es[i], lists);
    }
    forall j, k | 0 <= j < k < |risks|
      ensures risks[j].level.Ordinal() <= risks[k].level.Ordinal()
    {
      assert LevelKey(risks[j]) >= LevelKey(risks[k]);
    }
  }

  /**
   * A check adds one entry at most, and exactly when the text contains one of its
   * keywords; the entry names the email, the check's type and level, and the first of
   * its keywords found.
   */
  lemma HitSpec(e: EmailRec, text: string, riskType: string, level: RiskLevel, keys: seq<string>)
    ensures |Hit(e, text, riskType, level, keys)| <= 1
    ensures Hit(e, text, riskType, level, keys) != [] <==> exists i :: 0 <= i < |keys| && Contains(text, keys[i])
    ensures forall r :: r in Hit(e, text, riskType, level, keys) ==>
      r.email == e && r.riskType == riskType && r.level == level &&
      exists i :: FirstMatchAt(text, keys, i) && keys[i] == r.triggerPhrase
  {
    FirstMatchSpec(text, keys);
  }

  /** What each of the three checks adds for an email. */
  lemma FoundSpec(e: EmailRec, kind: RiskKind, lists: KeywordLists)
    ensures |Found(e, kind, lists)| <= 1
    ensures Found(e, kind, lists) != [] <==>
      exists i :: 0 <= i < |kind.KeywordsIn(lists)| && Contains(RiskText(e), kind.KeywordsIn(lists)[i])
    ensures forall r :: r in Found(e, kind, lists) ==>
      r.email == e && r.riskType == kind.Name() && r.level == kind.Level() &&
      exists i :: FirstMatchAt(RiskText(e), kind.KeywordsIn(lists), i) && kind.KeywordsIn(lists)[i] == r.triggerPhrase
  {
    HitSpec(e, RiskText(e), kind.Name(), kind.Level(), kind.KeywordsIn(lists));
  }

  /** An email raises at most one risk per type, three in all, and none of level LOW. */
  lemma RisksOfSpec(e: EmailRec, lists: KeywordLists)
    ensures |RisksOf(e, lists)| <= 3
    ensures forall j, k :: 0 <= j < k < |RisksOf(e, lists)| ==> RisksOf(e, lists)[j].riskType != RisksOf(e, lists)[k].riskType
    ensures forall r :: r in RisksOf(e, lists) ==> r.email == e && r.level != Low
  {
    var a, b, c := Found(e, Credentials, lists), Found(e, Financial, lists), Found(e, Identity, lists);
    FoundSpec(e, Credentials, lists);
    FoundSpec(e, Financial, lists);
    FoundSpec(e, Identity, lists);
    var rs := a + b + c;
    assert RisksOf(e, lists) == rs;
    forall j, k | 0 <= j < k < |rs|
      ensures rs[j].riskType != rs[k].riskType
    {
      KindsDiffer(rs, a, b, c, j, k);
    }
  }

  /** Two entries of `a + b + c` at different places come from different blocks. */
  lemma KindsDiffer(rs: seq<PrivacyRisk>, a: seq<PrivacyRisk>, b: seq<PrivacyRisk>, c: seq<PrivacyRisk>, j: int, k: int)
    requires rs == a + b + c && |a| <= 1 && |b| <= 1 && |c| <= 1 && 0 <= j < k < |rs|
    requires forall r :: r in a ==> r.riskType == Credentials.Name()
    requires forall r :: r in b ==> r.riskType == Financial.Name()
    requires forall r :: r in c ==> r.riskType == Identity.Name()
    ensures rs[j].riskType != rs[k].riskType
  {
    var n1, n2, n3 := Credentials.Name(), Financial.Name(), Identity.Name();
    assert n1[0] != n2[0] && n1[0] != n3[0] && n2[0] != n3[0];
    if j < |a| {
      assert rs[j] in a;
      assert rs[k] in b || rs[k] in c;
    } else {
      assert rs[j] in b && rs[k] in c;
    }
  }

  /** The unsorted list holds exactly the risks of each email. */
  lemma {:induction false} AllRisksSpec(es: seq<EmailRec>, lists: KeywordLists)
    ensures forall r :: r in AllRisks(es, lists) <==> exists i :: 0 <= i < |es| && r in RisksOf(es[i], lists)
  {
    if es != [] {
      var init := es[..|es| - 1];
      AllRisksSpec(init, lists);
      forall r | r in AllRisks(es, lists)
        ensures exists i :: 0 <= i < |es| && r in RisksOf(es[i], lists)
      {
        if r in AllRisks(init, lists) {
          var i :| 0 <= i < |init| && r in RisksOf(init[i], lists);
          assert es[i] == init[i];
        } else {
          assert r in RisksOf(es[|es| - 1], lists);
        }
      }
      forall r, i | 0 <= i < |es| && r in RisksOf(es[i], lists)
        ensures r in AllRisks(es, lists)
      {
        if i < |es| - 1 {
          assert es[i] == init[i];
        }
      }
    }
  }

  /**
   * Matching ignores case: a subject or snippet holding a keyword in any mix of
   * upper and lower case raises that check's risk.
   */
  lemma DetectsAnyCase(e: EmailRec, kind: RiskKind, lists: KeywordLists, phrase: string)
    requires Lower(phrase) in kind.KeywordsIn(lists)
    requires (e.subject.Some? && Contains(e.subject.value, phrase)) ||
             (e.snippet.Some? && Contains(e.snippet.value, phrase))
    ensures Found(e, kind, lists) != []
  {
    var sub, snip := JavaString(e.subject), JavaString(e.snippet);
    if e.subject.Some? && Contains(e.subject.value, phrase) {
      ContainsInContext(sub, phrase, [], " " + snip);
      assert [] + sub + (" " + snip) == sub + " " + snip;
    } else {
      ContainsInContext(snip, phrase, sub + " ", []);
      assert (sub + " ") + snip + [] == sub + " " + snip;
    }
    LowerKeepsContains(sub + " " + snip, phrase);
    FoundSpec(e, kind, lists);
  }

}

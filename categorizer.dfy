/**
 * The rule-based categorizer (service/EmailCategorizerService.java): an ordered
 * chain of keyword, sender and label tests over lower-cased text that gives every
 * email exactly one category.
 */
module Categorizer {
  import opened Wrappers
  import opened Text
  import opened EmailModel

  /** The six labels `categorizeEmail` returns. */
  datatype Category = PROMOTIONAL | NEWSLETTER | SOCIAL | AUTOMATED | SPAM | IMPORTANT {
    /** The string the service returns and stores in `Email.category`. */
    function Name(): string {
      match this
      case PROMOTIONAL => "PROMOTIONAL"
      case NEWSLETTER => "NEWSLETTER"
      case SOCIAL => "SOCIAL"
      case AUTOMATED => "AUTOMATED"
      case SPAM => "SPAM"
      case IMPORTANT => "IMPORTANT"
    }
  }

  const PromotionalKeywords: seq<string> := [
    "sale", "discount", "offer", "deal", "promotion", "coupon", "save", "free shipping",
    "limited time", "exclusive", "special offer", "buy now", "shop now", "clearance",
    "% off", "unsubscribe", "newsletter", "marketing", "advertisement"]

  const SocialKeywords: seq<string> := [
    "liked", "commented", "shared", "followed", "mentioned", "tagged",
    "notification", "activity", "update from", "friend request", "message from"]

  const NewsletterKeywords: seq<string> := [
    "newsletter", "weekly digest", "monthly update", "daily brief",
    "subscribe", "subscription", "bulletin", "roundup"]

  /** The alternatives of the automated-sender pattern. */
  const AutomatedSenderTokens: seq<string> := [
    "noreply", "no-reply", "donotreply", "do-not-reply", "notifications", "automated", "mailer"]

  /** `containsKeywords`: some keyword of the list is a substring of `text`. */
  predicate ContainsKeywords(text: string, keywords: seq<string>) {
    exists k | k in keywords :: Contains(text, k)
  }

  /** The searched text: lower-cased subject, snippet and HTML body, null read as "". */
  function CombinedText(e: EmailRec, htmlBody: Option<string>): string {
    Lower(e.subject.GetOr("")) + " " + Lower(e.snippet.GetOr("")) + " " + Lower(htmlBody.GetOr(""))
  }

  /**
   * The case-insensitive automated-sender pattern finds a match in the lower-cased
   * sender address (a null sender reads as "").
   */
  predicate IsAutomatedSender(from: Option<string>) {
    ContainsKeywords(Lower(from.GetOr("")), AutomatedSenderTokens)
  }

  /** The last step: Gmail's label ids, lower-cased, tested in a fixed order. */
  function LabelCategory(labelIds: Option<string>): Category {
    if labelIds.None? then IMPORTANT
    else
      var labels := Lower(labelIds.value);
      if Contains(labels, "spam") then SPAM
      else if Contains(labels, "promotions") || Contains(labels, "category_promotions") then PROMOTIONAL
      else if Contains(labels, "social") || Contains(labels, "category_social") then SOCIAL
      else if Contains(labels, "updates") || Contains(labels, "category_updates") then NEWSLETTER
      else IMPORTANT
  }

  /** `categorizeEmail`: the first rule that applies decides. */
  function Categorize(e: EmailRec, htmlBody: Option<string>): Category {
    var text := CombinedText(e, htmlBody);
    if e.hasUnsubscribeLink then
      if ContainsKeywords(text, NewsletterKeywords) then NEWSLETTER
      else if ContainsKeywords(text, PromotionalKeywords) then PROMOTIONAL
      else if ContainsKeywords(text, SocialKeywords) then SOCIAL
      else PROMOTIONAL
    else if IsAutomatedSender(e.from) then
      if ContainsKeywords(text, SocialKeywords) then SOCIAL else AUTOMATED
    else if ContainsKeywords(text, PromotionalKeywords) then PROMOTIONAL
    else if ContainsKeywords(text, SocialKeywords) then SOCIAL
    else if ContainsKeywords(text, NewsletterKeywords) then NEWSLETTER
    else LabelCategory(e.labelIds)
  }

  // ------------------------------------------------------------------ lemmas

  /** The six names are distinct, so the stored string determines the category. */
  lemma CategoryNamesDistinct(a: Category, b: Category)
    ensures a.Name() == b.Name() ==> a == b
  {
  }

  /** A keyword anywhere in the subject is seen by every keyword test. */
  lemma SubjectKeywordIsSeen(e: EmailRec, htmlBody: Option<string>, k: string)
    requires Contains(Lower(e.subject.GetOr("")), k)
    ensures Contains(CombinedText(e, htmlBody), k)
  {
    var rest := " " + Lower(e.snippet.GetOr("")) + " " + Lower(htmlBody.GetOr(""));
    ContainsInContext(Lower(e.subject.GetOr("")), k, "", rest);
    assert "" + Lower(e.subject.GetOr("")) + rest == CombinedText(e, htmlBody);
  }

  /**
   * Mail with an unsubscribe link is bulk mail: only NEWSLETTER, PROMOTIONAL or
   * SOCIAL, in that keyword priority with PROMOTIONAL as the default, and neither
   * the sender nor the labels are consulted.
   */
  lemma UnsubscribableIsBulk(e: EmailRec, htmlBody: Option<string>, otherFrom: Option<string>,
                             otherLabels: Option<string>)
    requires e.hasUnsubscribeLink
    ensures var r := Categorize(e, htmlBody); var text := CombinedText(e, htmlBody);
      && (r == NEWSLETTER || r == PROMOTIONAL || r == SOCIAL)
      && (r == NEWSLETTER <==> ContainsKeywords(text, NewsletterKeywords))
      && (r == SOCIAL <==> !ContainsKeywords(text, NewsletterKeywords) &&
                           !ContainsKeywords(text, PromotionalKeywords) &&
                           ContainsKeywords(text, SocialKeywords))
      && r == Categorize(e.(from := otherFrom, labelIds := otherLabels), htmlBody)
  {
  }

  /**
   * "subscribe" is a newsletter keyword and a substring of "unsubscribe", so any
   * unsubscribable email whose text says "unsubscribe" is a NEWSLETTER, whatever
   * else it says.
   */
  lemma UnsubscribeWordMeansNewsletter(e: EmailRec, htmlBody: Option<string>)
    requires e.hasUnsubscribeLink
    requires Contains(CombinedText(e, htmlBody), "unsubscribe")
    ensures Categorize(e, htmlBody) == NEWSLETTER
  {
    assert OccursAt("unsubscribe", "subscribe", 2);
    ContainsTransitive(CombinedText(e, htmlBody), "unsubscribe", "subscribe");
    assert "subscribe" in NewsletterKeywords;
  }

  /**
   * Without an unsubscribe link, an automated sender gets SOCIAL when a social
   * keyword matches and AUTOMATED otherwise.
   */
  lemma AutomatedSenderCategory(e: EmailRec, htmlBody: Option<string>)
    requires !e.hasUnsubscribeLink && IsAutomatedSender(e.from)
    ensures var r := Categorize(e, htmlBody);
      (r == SOCIAL <==> ContainsKeywords(CombinedText(e, htmlBody), SocialKeywords)) &&
      (r == AUTOMATED <==> !ContainsKeywords(CombinedText(e, htmlBody), SocialKeywords))
  {
  }

  /** A "noreply" sender without an unsubscribe link is never promotional. */
  lemma NoReplySenderIsAutomatedOrSocial(e: EmailRec, htmlBody: Option<string>)
    requires !e.hasUnsubscribeLink && e.from.Some?
    requires Contains(Lower(e.from.value), "noreply")
    ensures Categorize(e, htmlBody) in {AUTOMATED, SOCIAL}
  {
    assert "noreply" in AutomatedSenderTokens;
  }

  /**
   * A personal sender (no link, not automated): promotional, then social, then
   * newsletter keywords; the labels decide only when no keyword matches.
   */
  lemma PersonalSenderOrder(e: EmailRec, htmlBody: Option<string>)
    requires !e.hasUnsubscribeLink && !IsAutomatedSender(e.from)
    ensures var r := Categorize(e, htmlBody); var text := CombinedText(e, htmlBody);
      && (ContainsKeywords(text, PromotionalKeywords) ==> r == PROMOTIONAL)
      && (!ContainsKeywords(text, PromotionalKeywords) && ContainsKeywords(text, SocialKeywords)
          ==> r == SOCIAL)
      && ((!ContainsKeywords(text, PromotionalKeywords) && !ContainsKeywords(text, SocialKeywords) &&
           ContainsKeywords(text, NewsletterKeywords)) ==> r == NEWSLETTER)
      && ((!ContainsKeywords(text, PromotionalKeywords) && !ContainsKeywords(text, SocialKeywords) &&
           !ContainsKeywords(text, NewsletterKeywords)) ==> r == LabelCategory(e.labelIds))
  {
  }

  /**
   * "newsletter" is also a promotional keyword, which is tested first for personal
   * senders: their mail that says "newsletter" is PROMOTIONAL, never NEWSLETTER.
   */
  lemma NewsletterWordWithoutLinkIsPromotional(e: EmailRec, htmlBody: Option<string>)
    requires !e.hasUnsubscribeLink && !IsAutomatedSender(e.from)
    requires Contains(CombinedText(e, htmlBody), "newsletter")
    ensures Categorize(e, htmlBody) == PROMOTIONAL
  {
    assert "newsletter" in PromotionalKeywords;
  }

  /**
   * The label step: no labels means IMPORTANT; "spam" beats "promotions", which
   * beats "social", which beats "updates"; none of them means IMPORTANT.
   */
  lemma LabelOrder(labelIds: Option<string>)
    ensures var r := LabelCategory(labelIds); var l := Lower(labelIds.GetOr(""));
      && (labelIds.None? ==> r == IMPORTANT)
      && (labelIds.Some? && Contains(l, "spam") ==> r == SPAM)
      && (labelIds.Some? && !Contains(l, "spam") && Contains(l, "promotions") ==> r == PROMOTIONAL)
      && (labelIds.Some? && !Contains(l, "spam") && !Contains(l, "promotions") && Contains(l, "social")
          ==> r == SOCIAL)
      && ((labelIds.Some? && !Contains(l, "spam") && !Contains(l, "promotions") &&
           !Contains(l, "social") && Contains(l, "updates")) ==> r == NEWSLETTER)
      && ((!Contains(l, "spam") && !Contains(l, "promotions") && !Contains(l, "social") &&
           !Contains(l, "updates")) ==> r == IMPORTANT)
  {
    var l := Lower(labelIds.GetOr(""));
    if Contains(l, "category_promotions") {
      assert OccursAt("category_promotions", "promotions", 9);
      ContainsTransitive(l, "category_promotions", "promotions");
    }
    if Contains(l, "category_social") {
      assert OccursAt("category_social", "social", 9);
      ContainsTransitive(l, "category_social", "social");
    }
    if Contains(l, "category_updates") {
      assert OccursAt("category_updates", "updates", 9);
      ContainsTransitive(l, "category_updates", "updates");
    }
  }

  /**
   * A personal message without keywords that Gmail labelled SPAM (the label ids are
   * stored comma-joined) is categorized SPAM.
   */
  lemma SpamLabelledMailIsSpam(e: EmailRec, htmlBody: Option<string>, labels: seq<string>)
    requires !e.hasUnsubscribeLink && !IsAutomatedSender(e.from)
    requires var text := CombinedText(e, htmlBody);
      !ContainsKeywords(text, PromotionalKeywords) && !ContainsKeywords(text, SocialKeywords) &&
      !ContainsKeywords(text, NewsletterKeywords)
    requires e.labelIds == Some(Join(",", labels)) && "SPAM" in labels
    ensures Categorize(e, htmlBody) == SPAM
  {
    var k :| 0 <= k < |labels| && labels[k] == "SPAM";
    JoinContainsParts(",", labels, k);
    LowerKeepsContains(Join(",", labels), "SPAM");
    assert Lower("SPAM") == "spam";
  }
}

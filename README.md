# SmartMail core in Dafny

A verified model of the core of SmartMail, a desktop Gmail clean-up tool. The
model covers:

- the **scan pipeline** (`EmailScannerService`):
  - list message ids page by page, up to `maxResults`;
  - fetch each message and parse its headers into an `Email`: sender address
    and display name, HTML body found by a depth-first search of the MIME part
    tree, unsubscribe link taken from `List-Unsubscribe` or from the body's
    anchors;
  - categorize each email;
  - hand the parsed emails to the database in batches of 50, reporting progress
    along the way.
- the **rule-based categorizer** (`EmailCategorizerService.categorizeEmail`).
- the three **analyses** of `SmartAnalysisService`:
  - inbox health per sender (`analyzeInboxHealth`, `determineStatus`);
  - subject clusters (`findSimilarSubjects` and its subject normalisation);
  - the privacy shield (`scanForPrivacyRisks`).
- the two beans **`Email`** and **`SenderStats`**.

Modules, one concern each:

| module | file | models |
|---|---|---|
| `Wrappers` | wrappers.dfy | Java `null` as `Option` |
| `Text` | text.dfy | the `java.lang.String` operations the core uses (ASCII case mapping, `contains`/`indexOf`, `trim`, `isBlank`, `%d`, `String.join`) |
| `EmailModel` | email.dfy | `Email`: a class with its setters, `equals`/`hashCode` by id and the size formatter; `EmailRec` is the value of its fields |
| `SenderStatsModel` | sender_stats.dfy | `SenderStats` |
| `Categorizer` | categorizer.dfy | `categorizeEmail` |
| `MessageParsing` | message_parsing.dfy | `getHeader`, `extractEmail`, `extractName`, `getHtmlBody`, `extractUrlFromListUnsubscribe`, the unsubscribe-link rule |
| `Scanner` | scanner.dfy | `scanEmails`, `processMessages`, `fetchAndParseEmail`, `parseUnsubscribeInfo`, and `DatabaseService.saveEmails` as a sink that stores a batch whole or not at all |
| `Sorting` | sorting.dfy | `List.sort` with a key comparator: a stable sort |
| `Collecting` | collecting.dfy | Java's integer `/`, size sums, the `filter`/`map` over a map's entries |
| `InboxHealth` | inbox_health.dfy | `analyzeInboxHealth`, `determineStatus`, `SenderDecayScore` |
| `SubjectNormalizer` | subject_normalizer.dfy | the regex chain that normalises a subject |
| `SubjectClusters` | subject_clusters.dfy | `findSimilarSubjects`, `SubjectCluster` |
| `PrivacyShield` | privacy_shield.dfy | `scanForPrivacyRisks`, `RiskLevel`, `PrivacyRisk` |

How the model is built:

- **State-changing code is imperative Dafny.** This covers the beans' setters,
  the scan, processing and listing loops, `parseUnsubscribeInfo`, and the loops
  of the three analyses. Each method is proved against a specification function.
  For example:
  - `ProcessMessages` ends in the state `TakeAll` computes;
  - `AnalyzeInboxHealth` collects `Present(Senders(..), Scorer(..))`;
  - `GroupBySubject` builds `Grouped(..)`.

  What those functions mean is proved in lemmas beside them:
  - `ProcessedEmailsSaved` and `ProcessedInChunks` for the database;
  - `ScoreOfSpec` and `SortedScoresSpec` for the scores;
  - `SortedClustersSpec` for the clusters;
  - `AllRisksSpec` and `RisksOfSpec` for the risks.
- **Pure code becomes functions** with lemmas: the parsing helpers, the
  categorizer and the subject normaliser.

Notable behaviours of the code, each proved:

- **Subject normalisation.** `Order #123 Confirmed` normalises to
  `Order ## Confirmed`. The comment at `SmartAnalysisService.java:105` shows the
  result as `Order #... Confirmed`. In fact the `#` already in the subject stays,
  and the digit run becomes a second `#`. See
  `SubjectNormalizer.PlainOrderNormalized`.
- **"unsubscribe" with an unsubscribe link.** The link branch tests the
  newsletter keywords first (`EmailCategorizerService.java:55`). "subscribe" is
  one of them and is a substring of "unsubscribe", so such an email is always
  NEWSLETTER. See `Categorizer.UnsubscribeWordMeansNewsletter`.
- **"newsletter" without a link.** Mail from a personal sender that says
  "newsletter" is PROMOTIONAL, because "newsletter" is also a promotional keyword
  and that list is tested first. See
  `Categorizer.NewsletterWordWithoutLinkIsPromotional`.
- **Up to three privacy entries per email.** The comment at
  `SmartAnalysisService.java:154` says "move to next email". The `break` leaves
  only the inner keyword loop, so the next check still runs. An email can
  therefore raise one entry per kind, three at most. See
  `PrivacyShield.RisksOfSpec`.
- **Sort order of the inbox-health scores.** The comment at
  `SmartAnalysisService.java:71` promises "Zombie" senders first, then size. The
  comparator sorts by wasted bytes alone, largest first, and the model follows
  the comparator.

## Model

Source paths are abbreviated as:

- `S/` = `src/main/java/com/emailcleanup/service/`
- `M/` = `src/main/java/com/emailcleanup/model/`

| member | source | states |
|---|---|---|
| EmailModel.Email.constructor | src/main/java/com/emailcleanup/model/Email.java:21-22 | a new `Email` has every reference field null, both flags false and size 0 |
| EmailModel.Email.Of | src/main/java/com/emailcleanup/model/Email.java:24-34 | the eight-argument constructor sets those eight fields and leaves category, flags, URL and labels at their defaults |
| EmailModel.Email.SetId | src/main/java/com/emailcleanup/model/Email.java:40-42 | writes `id`, and the rest of the email stays as it was |
| EmailModel.Email.SetMessageId | src/main/java/com/emailcleanup/model/Email.java:48-50 | writes `messageId` and leaves the rest of the email as it was |
| EmailModel.Email.SetFrom | src/main/java/com/emailcleanup/model/Email.java:56-58 | writes `from` and leaves the rest of the email as it was |
| EmailModel.Email.SetFromName | src/main/java/com/emailcleanup/model/Email.java:64-66 | writes `fromName` and leaves the rest of the email as it was |
| EmailModel.Email.SetSubject | src/main/java/com/emailcleanup/model/Email.java:72-74 | writes `subject` and leaves the rest of the email as it was |
| EmailModel.Email.SetSnippet | src/main/java/com/emailcleanup/model/Email.java:80-82 | writes `snippet` and leaves the rest of the email as it was |
| EmailModel.Email.SetDate | src/main/java/com/emailcleanup/model/Email.java:88-90 | writes `date` and leaves the rest of the email as it was |
| EmailModel.Email.SetSizeBytes | src/main/java/com/emailcleanup/model/Email.java:96-98 | writes `sizeBytes` and leaves the rest of the email as it was |
| EmailModel.Email.SetCategory | src/main/java/com/emailcleanup/model/Email.java:104-106 | writes `category` and leaves the rest of the email as it was |
| EmailModel.Email.SetHasUnsubscribeLink | src/main/java/com/emailcleanup/model/Email.java:112-114 | writes `hasUnsubscribeLink` and leaves the rest of the email as it was |
| EmailModel.Email.SetUnsubscribeUrl | src/main/java/com/emailcleanup/model/Email.java:120-122 | writes `unsubscribeUrl` and leaves the rest of the email as it was |
| EmailModel.Email.SetRead | src/main/java/com/emailcleanup/model/Email.java:128-130 | writes `isRead` and leaves the rest of the email as it was |
| EmailModel.Email.SetLabelIds | src/main/java/com/emailcleanup/model/Email.java:136-138 | writes `labelIds` and leaves the rest of the email as it was |
| EmailModel.Email.SizeFormatted | src/main/java/com/emailcleanup/model/Email.java:140-148 | bytes exactly below 1 KiB; below 1 MiB, KB with an amount in [1, 1024); from 1 MiB on, MB; the amount times the unit is the size |
| EmailModel.ByteTierReadsBack | src/main/java/com/emailcleanup/model/Email.java:141-142 | the bytes tier is the decimal size followed by " B", and parsing the digits gives the size back |
| EmailModel.EqualsIsSameId | src/main/java/com/emailcleanup/model/Email.java:150-156 | `equals` holds exactly when the ids are equal, and it is reflexive, symmetric and transitive |
| EmailModel.Wrap32 | src/main/java/com/emailcleanup/model/Email.java:158-161 | 32-bit wrap-around: the result is an `int` congruent to its input modulo 2^32 |
| EmailModel.StringHash | src/main/java/com/emailcleanup/model/Email.java:158-161 | the id's `String.hashCode` is a 32-bit value |
| EmailModel.IdHash | src/main/java/com/emailcleanup/model/Email.java:158-161 | `Objects.hash(id)` is a 32-bit value, and 31 for a null id |
| EmailModel.Email.HashCode | src/main/java/com/emailcleanup/model/Email.java:158-161 | the hash is a 32-bit value that depends on the id alone (31 when it is null) |
| EmailModel.EqualEmailsHashEqually | src/main/java/com/emailcleanup/model/Email.java:150-161 | the `equals`/`hashCode` contract: equal emails hash equally |
| SenderStatsModel.SenderStats.constructor | src/main/java/com/emailcleanup/model/SenderStats.java:10-11 | a new row has null strings and zero counts |
| SenderStatsModel.SenderStats.Of | src/main/java/com/emailcleanup/model/SenderStats.java:13-18 | the four-argument constructor sets its four fields; the category stays null |
| SenderStatsModel.SenderStats.SetSenderEmail | src/main/java/com/emailcleanup/model/SenderStats.java:24-26 | writes `senderEmail` only |
| SenderStatsModel.SenderStats.SetSenderName | src/main/java/com/emailcleanup/model/SenderStats.java:32-34 | writes `senderName` only |
| SenderStatsModel.SenderStats.SetEmailCount | src/main/java/com/emailcleanup/model/SenderStats.java:40-42 | writes `emailCount` only |
| SenderStatsModel.SenderStats.SetTotalSizeBytes | src/main/java/com/emailcleanup/model/SenderStats.java:48-50 | writes `totalSizeBytes` only |
| SenderStatsModel.SenderStats.SetCategory | src/main/java/com/emailcleanup/model/SenderStats.java:56-58 | writes `category` only |
| SenderStatsModel.SenderStats.SizeFormatted | src/main/java/com/emailcleanup/model/SenderStats.java:60-70 | four tiers, B, KB, MB, GB, each boundary a power of 1024. The bytes tier is the exact decimal size. Each scaled amount is at least 1 (below 1024 except in GB), and the amount times its unit is the size. |
| SenderStatsModel.SenderStats.DisplayName | src/main/java/com/emailcleanup/model/SenderStats.java:72-74 | the name when it is non-empty, otherwise the address; a non-empty address always gives a non-empty display name |
| Categorizer.Categorize | src/main/java/com/emailcleanup/service/EmailCategorizerService.java:46-104 | `categorizeEmail` as its ordered rule chain: link rules, then the automated-sender rules, then the keyword rules, then the labels, then IMPORTANT. Its behaviour is stated by `UnsubscribableIsBulk`, `AutomatedSenderCategory`, `PersonalSenderOrder` and `LabelOrder` |
| Categorizer.CategoryNamesDistinct | src/main/java/com/emailcleanup/service/EmailCategorizerService.java:46-103 | the six category strings are distinct, so the stored string determines the category |
| Categorizer.SubjectKeywordIsSeen | src/main/java/com/emailcleanup/service/EmailCategorizerService.java:47-52 | a keyword in the lower-cased subject is found in the combined text |
| Categorizer.UnsubscribableIsBulk | src/main/java/com/emailcleanup/service/EmailCategorizerService.java:54-65 | with an unsubscribe link the result is NEWSLETTER, PROMOTIONAL or SOCIAL. It is NEWSLETTER exactly when a newsletter keyword matches, and SOCIAL exactly when only a social keyword does. Sender and labels are ignored. |
| Categorizer.UnsubscribeWordMeansNewsletter | src/main/java/com/emailcleanup/service/EmailCategorizerService.java:26-57 | with a link, text containing "unsubscribe" is always NEWSLETTER, because "subscribe" is a newsletter keyword |
| Categorizer.AutomatedSenderCategory | src/main/java/com/emailcleanup/service/EmailCategorizerService.java:67-72 | without a link, an automated sender is SOCIAL exactly when a social keyword matches, otherwise AUTOMATED |
| Categorizer.NoReplySenderIsAutomatedOrSocial | src/main/java/com/emailcleanup/service/EmailCategorizerService.java:31-72 | a "noreply" sender without a link is AUTOMATED or SOCIAL |
| Categorizer.PersonalSenderOrder | src/main/java/com/emailcleanup/service/EmailCategorizerService.java:74-102 | for other senders, the keyword priority is promotional, then social, then newsletter; the labels decide only when no keyword matches |
| Categorizer.NewsletterWordWithoutLinkIsPromotional | src/main/java/com/emailcleanup/service/EmailCategorizerService.java:15-76 | "newsletter" from a personal sender is PROMOTIONAL, since it is also a promotional keyword |
| Categorizer.LabelOrder | src/main/java/com/emailcleanup/service/EmailCategorizerService.java:86-102 | with no labels, IMPORTANT; otherwise "spam" beats "promotions", which beats "social", which beats "updates"; with none of them, IMPORTANT |
| Categorizer.SpamLabelledMailIsSpam | src/main/java/com/emailcleanup/service/EmailCategorizerService.java:86-90 | a keyword-free personal email whose comma-joined Gmail labels include SPAM is categorized SPAM |
| MessageParsing.GetHeader | src/main/java/com/emailcleanup/service/EmailScannerService.java:152-163 | `getHeader`; its behaviour is stated by `GetHeaderSpec` |
| MessageParsing.HeaderIndex | src/main/java/com/emailcleanup/service/EmailScannerService.java:157-162 | the header search returns -1 or an index in range |
| MessageParsing.HeaderIndexSpec | src/main/java/com/emailcleanup/service/EmailScannerService.java:157-162 | the index found names a header equal to the name ignoring case, and no earlier header matches |
| MessageParsing.GetHeaderSpec | src/main/java/com/emailcleanup/service/EmailScannerService.java:152-163 | `getHeader` gives the value of the first matching header, and "" when none matches or the payload or its headers are missing |
| MessageParsing.ExtractEmail | src/main/java/com/emailcleanup/service/EmailScannerService.java:165-180 | `extractEmail`; its behaviour is stated by `ExtractEmailBracketed`, `ExtractEmailUnbracketed` and `FromHeaderRoundTrip` |
| MessageParsing.ExtractEmailBracketed | src/main/java/com/emailcleanup/service/EmailScannerService.java:165-173 | with a '<' before the first '>', the address is exactly the text between them |
| MessageParsing.ExtractEmailUnbracketed | src/main/java/com/emailcleanup/service/EmailScannerService.java:165-180 | without a '<' before the first '>' (no '<', no '>', or the '>' first), the value is kept whole: trimmed if it contains '@', unchanged if not |
| MessageParsing.ExtractName | src/main/java/com/emailcleanup/service/EmailScannerService.java:182-191 | `extractName`; its behaviour is stated by `ExtractNameSpec` and `FromHeaderRoundTrip` |
| MessageParsing.ExtractNameSpec | src/main/java/com/emailcleanup/service/EmailScannerService.java:182-191 | the name never contains '"'; it is "" without a '<'; otherwise it is the text before the first '<', trimmed, with quotes removed |
| MessageParsing.FromHeaderRoundTrip | src/main/java/com/emailcleanup/service/EmailScannerService.java:165-191 | for `name<address>` without angle brackets inside, the address comes back exactly and the name trimmed and unquoted |
| MessageParsing.GetHtmlBody | src/main/java/com/emailcleanup/service/EmailScannerService.java:193-212 | `getHtmlBody`, "" for a missing payload, else the recursive search `HtmlBody`; the search is stated by `HtmlBodyIsFirstCandidate` |
| MessageParsing.FirstNonEmpty | src/main/java/com/emailcleanup/service/EmailScannerService.java:203-211 | a non-empty result is one of the candidates |
| MessageParsing.FirstNonEmptyConcat | src/main/java/com/emailcleanup/service/EmailScannerService.java:203-211 | the first non-empty string of `a + b` is the first of `a`, or the first of `b` when `a` has none |
| MessageParsing.HtmlBodyIsFirstCandidate | src/main/java/com/emailcleanup/service/EmailScannerService.java:193-212 | the body search returns the first non-empty decoded body among the HTML parts with data, in depth-first pre-order, without descending below an HTML part |
| MessageParsing.HtmlBodyFromIsFirstCandidate | src/main/java/com/emailcleanup/service/EmailScannerService.java:202-211 | the same, for the loop over the children from child `i` on |
| MessageParsing.BracketAfterHttp | src/main/java/com/emailcleanup/service/EmailScannerService.java:250-255 | after an "<http", the next '>' (if any) closes a text that starts with "http" and holds no '>' |
| MessageParsing.ExtractUrlFromListUnsubscribe | src/main/java/com/emailcleanup/service/EmailScannerService.java:249-258 | null exactly when there is no "<http", or no '>' after it; a URL returned starts with "http" and holds no '>' |
| MessageParsing.ListUnsubscribeRoundTrip | src/main/java/com/emailcleanup/service/EmailScannerService.java:249-258 | for `pre<url>post`, where `url` starts with "http", holds no '>', and `pre` has no "<h", the URL comes back exactly |
| MessageParsing.HttpBracketFoundAt | src/main/java/com/emailcleanup/service/EmailScannerService.java:251 | in `pre<url>post`, the first "<http" is the one before `url` |
| MessageParsing.CloseBracketFoundAt | src/main/java/com/emailcleanup/service/EmailScannerService.java:252 | in `pre<url>post`, the first '>' from the '<' on is the one after `url` |
| MessageParsing.FirstUnsubscribeAnchor | src/main/java/com/emailcleanup/service/EmailScannerService.java:230-240 | the anchor search returns -1 or an index in range |
| MessageParsing.FirstUnsubscribeAnchorSpec | src/main/java/com/emailcleanup/service/EmailScannerService.java:230-240 | the anchor found has "unsubscribe", "opt out" or "remove" in its text, or "unsubscribe" in its href, and no earlier anchor qualifies |
| MessageParsing.UnsubscribeLink | src/main/java/com/emailcleanup/service/EmailScannerService.java:214-247 | the link `parseUnsubscribeInfo` records; its behaviour is stated by `UnsubscribePriority`, and `Scanner.ParseUnsubscribeInfo` stores it |
| MessageParsing.UnsubscribePriority | src/main/java/com/emailcleanup/service/EmailScannerService.java:214-247 | a header URL wins; otherwise the href of the first qualifying anchor of a non-empty body; the link is missing exactly when neither exists |
| Scanner.Sink.constructor | src/main/java/com/emailcleanup/service/EmailScannerService.java:95 | an empty database sink with no save attempts |
| Scanner.Sink.SaveEmails | src/main/java/com/emailcleanup/service/EmailScannerService.java:95 | a save attempt stores the whole batch when it succeeds, and nothing when it throws |
| Scanner.ParseUnsubscribeInfo | src/main/java/com/emailcleanup/service/EmailScannerService.java:214-247 | sets the flag exactly when the priority rule finds a link and then records that URL; otherwise clears the flag and keeps the old URL |
| Scanner.NewEmailFromHeaders | src/main/java/com/emailcleanup/service/EmailScannerService.java:117-141 | `new Email()` followed by the setters, in the source's order: a fresh `Email` whose fields are the message's headers and metadata |
| Scanner.FetchAndParseEmail | src/main/java/com/emailcleanup/service/EmailScannerService.java:111-150 | no email exactly when the fetch fails; otherwise a fresh `Email` holding the parsed record, categorized last |
| Scanner.ParsedRecordFields | src/main/java/com/emailcleanup/service/EmailScannerService.java:111-150 | the parsed record carries: the id; the size estimate, or 0; read exactly when the labels lack UNREAD; every label inside the stored label string; one of the six category names; a URL exactly when the flag is set, with the header URL first |
| Scanner.ParsedUnsubscribableIsBulk | src/main/java/com/emailcleanup/service/EmailScannerService.java:143-147 | with the application's categorizer, a parsed email with an unsubscribe link is NEWSLETTER, PROMOTIONAL or SOCIAL |
| Scanner.ParsedSender | src/main/java/com/emailcleanup/service/EmailScannerService.java:122-124 | a `Name <address>` From header is stored as the bare address and the cleaned name |
| Scanner.FlattenSnoc | src/main/java/com/emailcleanup/service/EmailScannerService.java:94-97 | appending a batch appends its emails |
| Scanner.ChunksSpec | src/main/java/com/emailcleanup/service/EmailScannerService.java:94-105 | chunking loses nothing: non-empty chunks of at most the size, all full but the last |
| Scanner.FullBatchesAreChunks | src/main/java/com/emailcleanup/service/EmailScannerService.java:94-105 | full batches followed by a short tail are exactly the chunking of their emails |
| Scanner.ProgressReportsNext | src/main/java/com/emailcleanup/service/EmailScannerService.java:89-92 | each processed email adds a report exactly when its count is a multiple of ten or the total |
| Scanner.ProgressReportCount | src/main/java/com/emailcleanup/service/EmailScannerService.java:89-92 | after `n` parsed emails out of `total` listed: one report per ten, plus one more only when `n` reaches `total` and is not a multiple of ten |
| Scanner.ParsedAllSnoc | src/main/java/com/emailcleanup/service/EmailScannerService.java:82-87 | one more message adds its record, or nothing when its fetch fails |
| Scanner.ParsedOneId | src/main/java/com/emailcleanup/service/EmailScannerService.java:84-87 | a fetch gives one record carrying the message id, or none |
| Scanner.ParsedAllIds | src/main/java/com/emailcleanup/service/EmailScannerService.java:82-101 | at most one record per id, each carrying the id of a listed message |
| Scanner.ParsedAllComplete | src/main/java/com/emailcleanup/service/EmailScannerService.java:82-101 | when every fetch succeeds, the records match the ids one for one, in order |
| Scanner.TakeAllAppend | src/main/java/com/emailcleanup/service/EmailScannerService.java:82-101 | processing `xs + ys` is processing `xs`, then `ys` |
| Scanner.TakeKeepsBatched | src/main/java/com/emailcleanup/service/EmailScannerService.java:85-97 | one parsed email keeps the batching invariant: all emails, in order, between the saved batches and the buffer; the count and the reports are right; only full batches are saved |
| Scanner.TakeAllSpec | src/main/java/com/emailcleanup/service/EmailScannerService.java:82-101 | the loop establishes the batching invariant for all the parsed emails |
| Scanner.ProcessedEmailsSaved | src/main/java/com/emailcleanup/service/EmailScannerService.java:76-109 | the database gains all parsed emails in order when the scan completes, and a strict prefix otherwise. Batches are non-empty and all but the last hold at least 50. The progress reports are those of the parsed count: one per ten parsed emails, plus one when the parsed count reaches the number of listed messages and is not a multiple of ten; when a fetch failed, no report is made for the last message. |
| Scanner.ProcessedInChunks | src/main/java/com/emailcleanup/service/EmailScannerService.java:76-109 | when every save succeeds, the scan completes and the database gains exactly the 50-email chunks of the parsed emails |
| Scanner.SavedBatches | src/main/java/com/emailcleanup/service/EmailScannerService.java:103-105 | the final save of the buffer completes the list of batches with every email, in order |
| Scanner.BufferEmail | src/main/java/com/emailcleanup/service/EmailScannerService.java:86-97 | buffering one email moves the state and the database as one step of `TakeAll` |
| Scanner.ProcessMessage | src/main/java/com/emailcleanup/service/EmailScannerService.java:83-100 | one pass of the loop: a failed fetch skips the rest of the pass; otherwise the email is buffered, as `TakeAll` says |
| Scanner.ProcessMessages | src/main/java/com/emailcleanup/service/EmailScannerService.java:76-109 | the database and the reports end as `TakeAll` over the parsed emails says, followed by the final save; "complete" is reported only when that save succeeds |
| Scanner.ListedGrows | src/main/java/com/emailcleanup/service/EmailScannerService.java:59-61 | reading more pages only appends ids |
| Scanner.PagesRead | src/main/java/com/emailcleanup/service/EmailScannerService.java:52-70 | reading stops at the last page, or earlier only once `maxResults` ids are collected |
| Scanner.PagesReadIsFirst | src/main/java/com/emailcleanup/service/EmailScannerService.java:66-70 | no page before the stopping page had reached `maxResults` |
| Scanner.FoundReports | src/main/java/com/emailcleanup/service/EmailScannerService.java:64 | one "Found" report per page read |
| Scanner.ListMessages | src/main/java/com/emailcleanup/service/EmailScannerService.java:46-70 | the listing succeeds exactly when `maxResults >= 0`, and then returns every listed id cut at `maxResults`. It reports "Fetching", then one running count per page read. |
| Scanner.ScanEmails | src/main/java/com/emailcleanup/service/EmailScannerService.java:42-74 | a negative `maxResults` fails after the first page and saves nothing; otherwise the listed messages are processed as `ProcessMessages` says, with the listing's reports first |
| InboxHealth.DaysBetweenCountsWholeDays | src/main/java/com/emailcleanup/service/SmartAnalysisService.java:55 | `DAYS.between` counts whole days, rounding toward zero in both directions |
| InboxHealth.DetermineStatus | src/main/java/com/emailcleanup/service/SmartAnalysisService.java:76-81 | `determineStatus` on the `double` open rate; `StatusByCounts` states it in integers |
| InboxHealth.StatusByCounts | src/main/java/com/emailcleanup/service/SmartAnalysisService.java:76-81 | `determineStatus` on the open rate `read/total`, in integers: SPAMMER when fewer than 10% are read and there are more than 10 emails; else GHOST after more than 90 days; else COLD when fewer than 30% are read; else ACTIVE |
| InboxHealth.WastedSpaceText | src/main/java/com/emailcleanup/service/SmartAnalysisService.java:26-29 | whole kilobytes, rounded down, below 1 MiB; megabytes from 1 MiB on, the amount times 1 MiB being the size |
| InboxHealth.ScoresOwnSender | src/main/java/com/emailcleanup/service/SmartAnalysisService.java:65-67 | a score is filed under the sender it was computed for |
| InboxHealth.AnalyzeInboxHealth | src/main/java/com/emailcleanup/service/SmartAnalysisService.java:32-74 | scores sorted by wasted bytes, largest first. Each score is the one `ScoreOf` gives its sender. A sender is reported exactly when `ScoreOf` gives it a score, and at most once. |
| InboxHealth.SendersSpec | src/main/java/com/emailcleanup/service/SmartAnalysisService.java:33-34 | the group keys are the distinct non-null senders |
| InboxHealth.NoEmailsNoGroup | src/main/java/com/emailcleanup/service/SmartAnalysisService.java:33-34 | a sender with no email has an empty group |
| InboxHealth.SortedScoresSpec | src/main/java/com/emailcleanup/service/SmartAnalysisService.java:72 | sorting the collected scores keeps each one, and adds or loses none |
| InboxHealth.FromSenderSpec | src/main/java/com/emailcleanup/service/SmartAnalysisService.java:33-34 | a sender's group holds exactly its emails |
| InboxHealth.UnreadAtMostAll | src/main/java/com/emailcleanup/service/SmartAnalysisService.java:47 | the unread count is at most the total, and zero exactly when all are read |
| InboxHealth.LatestDateSpec | src/main/java/com/emailcleanup/service/SmartAnalysisService.java:50-53 | the last date is one of the dates, and none is later |
| InboxHealth.ScoreOf | src/main/java/com/emailcleanup/service/SmartAnalysisService.java:40-69 | one pass of the `analyzeInboxHealth` loop; its behaviour is stated by `ScoreOfSpec`, and `AnalyzeInboxHealth` collects it |
| InboxHealth.ScoreOfSpec | src/main/java/com/emailcleanup/service/SmartAnalysisService.java:39-69 | a sender is scored exactly when it has three or more dated emails and is not ACTIVE. The score holds its total and unread counts, the share read (between 0 and 1), its latest date and its size sum. Its name falls back to the address, and its status follows the integer form of the rules. |
| SubjectNormalizer.NormalizeSubject | src/main/java/com/emailcleanup/service/SmartAnalysisService.java:106-110 | the subject normalisation; stated by `PrefixStripped`, `NormalizedHasNoDigits`, `NormalizedSpacing`, `NormalizeIdempotent`, `NumbersDoNotMatter` and the three `…OrderNormalized` lemmas |
| SubjectNormalizer.ReplyPrefixLength | src/main/java/com/emailcleanup/service/SmartAnalysisService.java:107 | the matched `re:`/`fwd:`/`fw:` prefix fits in the subject |
| SubjectNormalizer.PrefixStripped | src/main/java/com/emailcleanup/service/SmartAnalysisService.java:107 | a reply or forward prefix, in any case, is removed with the whitespace after it |
| SubjectNormalizer.NoPrefixToStrip | src/main/java/com/emailcleanup/service/SmartAnalysisService.java:107 | a subject that does not start with r or f keeps its start |
| SubjectNormalizer.RunsAppend | src/main/java/com/emailcleanup/service/SmartAnalysisService.java:108-109 | the run replacement over `x + y` is the replacement over `x`, followed by `y` replaced in the state `x` ends in |
| SubjectNormalizer.RunCollapses | src/main/java/com/emailcleanup/service/SmartAnalysisService.java:108-109 | a whole run of any length becomes a single replacement |
| SubjectNormalizer.RunInside | src/main/java/com/emailcleanup/service/SmartAnalysisService.java:108-109 | the rest of a run writes nothing |
| SubjectNormalizer.NoRunsUnchanged | src/main/java/com/emailcleanup/service/SmartAnalysisService.java:108-109 | text without the class is left unchanged |
| SubjectNormalizer.SingleRunsUnchanged | src/main/java/com/emailcleanup/service/SmartAnalysisService.java:109 | text whose runs are already single spaces is left unchanged |
| SubjectNormalizer.RunsChars | src/main/java/com/emailcleanup/service/SmartAnalysisService.java:108-109 | every output character is a copied non-class character or comes from the replacement |
| SubjectNormalizer.ConsNoAdjacent | src/main/java/com/emailcleanup/service/SmartAnalysisService.java:109 | prefixing a non-adjacent-safe character keeps class characters apart |
| SubjectNormalizer.RunsSingle | src/main/java/com/emailcleanup/service/SmartAnalysisService.java:109 | with a one-space replacement, no two whitespace characters end up adjacent |
| SubjectNormalizer.TrimSlice | src/main/java/com/emailcleanup/service/SmartAnalysisService.java:110 | `trim()` adds no character |
| SubjectNormalizer.NormalizedHasNoDigits | src/main/java/com/emailcleanup/service/SmartAnalysisService.java:106-110 | a normalised subject has no digits |
| SubjectNormalizer.CollapsedIsSingleSpaced | src/main/java/com/emailcleanup/service/SmartAnalysisService.java:109 | after the collapse, every whitespace character is a single plain space |
| SubjectNormalizer.SliceSingleSpaced | src/main/java/com/emailcleanup/service/SmartAnalysisService.java:109-110 | a slice of single-spaced text is single-spaced |
| SubjectNormalizer.NormalizedSpacing | src/main/java/com/emailcleanup/service/SmartAnalysisService.java:106-110 | a normalised subject is single-spaced and has nothing to trim at either end |
| SubjectNormalizer.TrimmedSingleSpaced | src/main/java/com/emailcleanup/service/SmartAnalysisService.java:109-110 | trimming keeps text single-spaced |
| SubjectNormalizer.NormalizeIdempotent | src/main/java/com/emailcleanup/service/SmartAnalysisService.java:106-110 | normalising again changes nothing, unless the result itself starts with a reply prefix |
| SubjectNormalizer.LiteralBeforeDigit | src/main/java/com/emailcleanup/service/SmartAnalysisService.java:107 | a digit-free prefix literal matches at the start of `a + x` exactly when it matches at the start of `a`, where `x` starts with a digit |
| SubjectNormalizer.StripBeforeDigit | src/main/java/com/emailcleanup/service/SmartAnalysisService.java:107 | prefix stripping stops before any digit |
| SubjectNormalizer.DropSpacesBeforeDigit | src/main/java/com/emailcleanup/service/SmartAnalysisService.java:107 | dropping leading whitespace stops before any digit |
| SubjectNormalizer.NumbersDoNotMatter | src/main/java/com/emailcleanup/service/SmartAnalysisService.java:105-110 | subjects that differ only in one number normalise alike, so they fall into one cluster |
| SubjectNormalizer.DigitRunReplaced | src/main/java/com/emailcleanup/service/SmartAnalysisService.java:107-108 | a digit run between `a` and `b` becomes one `#`, or merges with a run that `a` ends in |
| SubjectNormalizer.RunThen | src/main/java/com/emailcleanup/service/SmartAnalysisService.java:108-109 | a run between class-free text and a non-class character becomes one replacement |
| SubjectNormalizer.OrderDigits | src/main/java/com/emailcleanup/service/SmartAnalysisService.java:108 | the digits of `Order #<n> Confirmed` become one `#` |
| SubjectNormalizer.OrderDigitsPieces | src/main/java/com/emailcleanup/service/SmartAnalysisService.java:108 | the same, in pieces |
| SubjectNormalizer.NoDigitsInOrder | src/main/java/com/emailcleanup/service/SmartAnalysisService.java:108 | the literal parts of the example hold no digits |
| SubjectNormalizer.NoSpacesInOrder | src/main/java/com/emailcleanup/service/SmartAnalysisService.java:109 | the words of the example hold no whitespace |
| SubjectNormalizer.OrderSpaces | src/main/java/com/emailcleanup/service/SmartAnalysisService.java:109-110 | the space collapse and the trim leave `Order ## Confirmed` unchanged |
| SubjectNormalizer.OrderSpacesPieces | src/main/java/com/emailcleanup/service/SmartAnalysisService.java:109 | the same for the space collapse, in pieces |
| SubjectNormalizer.NothingToTrim | src/main/java/com/emailcleanup/service/SmartAnalysisService.java:110 | text without trimmable ends is left as it is by `trim()` |
| SubjectNormalizer.ReplyOrderNormalized | src/main/java/com/emailcleanup/service/SmartAnalysisService.java:105-110 | `Re: Order #<n> Confirmed` normalises to `Order ## Confirmed` for every number |
| SubjectNormalizer.PlainOrderNormalized | src/main/java/com/emailcleanup/service/SmartAnalysisService.java:105-110 | `Order #<n> Confirmed` normalises to `Order ## Confirmed` for every number |
| SubjectNormalizer.ForwardOrderNormalized | src/main/java/com/emailcleanup/service/SmartAnalysisService.java:105-110 | `FWD:Order #<n> Confirmed` normalises to `Order ## Confirmed` for every number |
| SubjectClusters.ClusterSizeText | src/main/java/com/emailcleanup/service/SmartAnalysisService.java:91-95 | bytes exactly below 1 KiB, then KB below 1 MiB, then MB; the amount times the unit is the size |
| SubjectClusters.GroupBySubject | src/main/java/com/emailcleanup/service/SmartAnalysisService.java:99-113 | the loop builds `Grouped` (each key's emails) and lists the keys in order of first insertion |
| SubjectClusters.FindSimilarSubjects | src/main/java/com/emailcleanup/service/SmartAnalysisService.java:98-124 | clusters sorted by total size, largest first. Each cluster holds exactly the emails whose normalised subject is its key (three or more), with its count and size sum. A key gets a cluster exactly when three or more emails share it, and each key has at most one cluster. |
| SubjectClusters.GroupedStep | src/main/java/com/emailcleanup/service/SmartAnalysisService.java:112 | one email adds itself to its key's group, or changes nothing when its subject is null or blank |
| SubjectClusters.SubjectKeysStep | src/main/java/com/emailcleanup/service/SmartAnalysisService.java:112 | a key is listed when the map did not hold it yet |
| SubjectClusters.GroupedKeys | src/main/java/com/emailcleanup/service/SmartAnalysisService.java:99-113 | the listed keys are exactly the map's keys, each once |
| SubjectClusters.GroupedSpec | src/main/java/com/emailcleanup/service/SmartAnalysisService.java:101-113 | each group is exactly the emails with that key, in order; a key not in the map has no emails |
| SubjectClusters.ClustersOwnKey | src/main/java/com/emailcleanup/service/SmartAnalysisService.java:118-121 | a cluster is filed under its own key |
| SubjectClusters.SortedClustersSpec | src/main/java/com/emailcleanup/service/SmartAnalysisService.java:116-123 | sorting keeps every cluster of three or more and adds none |
| PrivacyShield.MatchKeyword | src/main/java/com/emailcleanup/service/SmartAnalysisService.java:151-156 | an inner loop stops at `FirstMatch`, the first keyword the text contains |
| PrivacyShield.FirstMatchFromSpec | src/main/java/com/emailcleanup/service/SmartAnalysisService.java:151-156 | from a given index, there is no match exactly when no keyword occurs; otherwise the match is the first keyword that occurs |
| PrivacyShield.FirstMatchSpec | src/main/java/com/emailcleanup/service/SmartAnalysisService.java:151-156 | the same from the start of the list |
| PrivacyShield.CheckRisk | src/main/java/com/emailcleanup/service/SmartAnalysisService.java:151-172 | one check adds the entry `Found` gives |
| PrivacyShield.ScanEmail | src/main/java/com/emailcleanup/service/SmartAnalysisService.java:148-172 | one email adds the credentials, financial and identity entries, in that order |
| PrivacyShield.CollectRisks | src/main/java/com/emailcleanup/service/SmartAnalysisService.java:147-173 | the loop collects `AllRisks`: the entries of each email, in order |
| PrivacyShield.AllRisksStep | src/main/java/com/emailcleanup/service/SmartAnalysisService.java:147-173 | the next email's entries are appended |
| PrivacyShield.ScanForPrivacyRisks | src/main/java/com/emailcleanup/service/SmartAnalysisService.java:139-178 | a permutation of all entries, HIGH before MEDIUM. The sort is stable, so entries of one level keep their scan order. Every entry names a scanned email, and none is LOW. |
| PrivacyShield.SortedRisksSpec | src/main/java/com/emailcleanup/service/SmartAnalysisService.java:176 | after sorting by level, ordinals never decrease; every entry names a scanned email and none is LOW |
| PrivacyShield.RisksOf | src/main/java/com/emailcleanup/service/SmartAnalysisService.java:147-170 | the entries one email raises, in the order of the three checks; stated by `FoundSpec` and `RisksOfSpec` |
| PrivacyShield.HitSpec | src/main/java/com/emailcleanup/service/SmartAnalysisService.java:151-156 | a check adds at most one entry, exactly when the text contains one of its keywords. The entry names the email, the check's type and level, and the first keyword found. |
| PrivacyShield.FoundSpec | src/main/java/com/emailcleanup/service/SmartAnalysisService.java:150-172 | the same for each of the three checks on the email's subject-and-snippet text |
| PrivacyShield.RisksOfSpec | src/main/java/com/emailcleanup/service/SmartAnalysisService.java:150-172 | an email raises at most three entries, of distinct types, each naming it, none LOW |
| PrivacyShield.KindsDiffer | src/main/java/com/emailcleanup/service/SmartAnalysisService.java:153-169 | entries from different checks have different types |
| PrivacyShield.AllRisksSpec | src/main/java/com/emailcleanup/service/SmartAnalysisService.java:147-173 | the collected list holds exactly the entries each email raises |
| PrivacyShield.DetectsAnyCase | src/main/java/com/emailcleanup/service/SmartAnalysisService.java:148-152 | a subject or snippet holding a lower-case keyword in any case raises that check's entry |
| Collecting.PresentAreValues | src/main/java/com/emailcleanup/service/SmartAnalysisService.java:116-121 | each collected value is the one its key gives |
| Collecting.PresentCover | src/main/java/com/emailcleanup/service/SmartAnalysisService.java:116-121 | every key with a value contributes it |
| Collecting.PresentDistinct | src/main/java/com/emailcleanup/service/SmartAnalysisService.java:116-121 | distinct keys give distinct values |
| Collecting.PresentPermutation | src/main/java/com/emailcleanup/service/SmartAnalysisService.java:116-123 | any reordering of the collected values keeps them: each is its key's value, every key with a value is present, and no key occurs twice |
| Sorting.SortDesc | src/main/java/com/emailcleanup/service/SmartAnalysisService.java:72 | `List.sort` on a key, largest first: a sorted permutation of the same length in which elements with equal keys keep their order |
| Sorting.InsertBounded | src/main/java/com/emailcleanup/service/SmartAnalysisService.java:72 | inserting below a bound stays below it |
| Sorting.InsertPerm | src/main/java/com/emailcleanup/service/SmartAnalysisService.java:72 | inserting adds exactly one element |
| Sorting.InsertSorted | src/main/java/com/emailcleanup/service/SmartAnalysisService.java:72 | inserting keeps the order |
| Sorting.WithKeyCons | src/main/java/com/emailcleanup/service/SmartAnalysisService.java:176 | the elements with a key, of a list with one more element in front |
| Sorting.InsertWithKey | src/main/java/com/emailcleanup/service/SmartAnalysisService.java:176 | an inserted element goes before every element with the same key |
| Sorting.DistinctCountsOne | src/main/java/com/emailcleanup/service/SmartAnalysisService.java:116-123 | an element of a repeat-free list is counted once |
| Sorting.SingleCountAtOnePlace | src/main/java/com/emailcleanup/service/SmartAnalysisService.java:116-123 | an element counted once is at one place |
| Sorting.PermutationKeepsDistinct | src/main/java/com/emailcleanup/service/SmartAnalysisService.java:116-123 | a reordering of a repeat-free list is repeat-free |
| Text.IndexOfFrom | src/main/java/com/emailcleanup/service/EmailScannerService.java:252 | `indexOf(sub, from)` returns -1 or an occurrence at or after `from` |
| Text.IndexOfFromSpec | src/main/java/com/emailcleanup/service/EmailScannerService.java:252 | no occurrence is skipped before the one found |
| Text.IndexOfFindsIff | src/main/java/com/emailcleanup/service/EmailScannerService.java:250-251 | `indexOf` finds something exactly when `contains` holds |
| Text.IndexOfCharSpec | src/main/java/com/emailcleanup/service/EmailScannerService.java:168-169 | `indexOf(c)` is -1 exactly when `c` is absent, and otherwise the first position of `c` |
| Text.IndexOfCharAt | src/main/java/com/emailcleanup/service/EmailScannerService.java:168-169 | a `c` with none before it is what `indexOf(c)` finds |
| Text.OccursAtShift | src/main/java/com/emailcleanup/service/EmailCategorizerService.java:52 | a match stays a match inside surrounding text |
| Text.ContainsInContext | src/main/java/com/emailcleanup/service/EmailCategorizerService.java:52 | surrounding text keeps a contained string |
| Text.ContainsSelf | src/main/java/com/emailcleanup/service/EmailScannerService.java:139 | every string contains itself |
| Text.ContainsTransitive | src/main/java/com/emailcleanup/service/EmailCategorizerService.java:91 | a string containing `mid` contains everything `mid` contains |
| Text.LowerKeepsContains | src/main/java/com/emailcleanup/service/SmartAnalysisService.java:148 | lower-casing keeps matches, lower-cased |
| Text.TrimStart | src/main/java/com/emailcleanup/service/EmailScannerService.java:176 | drops exactly the leading characters at or below U+0020 |
| Text.TrimEnd | src/main/java/com/emailcleanup/service/EmailScannerService.java:176 | drops exactly the trailing characters at or below U+0020 |
| Text.TrimSpec | src/main/java/com/emailcleanup/service/EmailScannerService.java:176 | `trim()` keeps exactly the middle slice: what it cuts off is trimmable, and neither end of the result is |
| Text.TrimMiddle | src/main/java/com/emailcleanup/service/EmailScannerService.java:176 | the same, from what the two halves ensure |
| Text.TrimIdempotent | src/main/java/com/emailcleanup/service/SmartAnalysisService.java:110 | trimming twice is trimming once |
| Text.RemoveChar | src/main/java/com/emailcleanup/service/EmailScannerService.java:187 | removing a character leaves every other character, with its count, and none of it |
| Text.NatToString | src/main/java/com/emailcleanup/model/Email.java:142 | decimal digits, at least one, without a leading zero |
| Text.NatToStringRoundTrip | src/main/java/com/emailcleanup/model/Email.java:142 | parsing the digits gives the number back |
| Text.IntToStringRoundTrip | src/main/java/com/emailcleanup/model/Email.java:142 | the same for negative numbers, with a minus sign |
| Text.JoinContainsParts | src/main/java/com/emailcleanup/service/EmailScannerService.java:139 | every label appears in the comma-joined string |

## Left out

- **I/O.** The Gmail client, OAuth, the clock, logging and the database connection
  are not modelled. Fetch, body decoding, Jsoup's `a[href]` selection, the local
  time zone conversion and the categorizer the scanner holds are parameters of
  `Scanner.Services`. The clock of `analyzeInboxHealth` is the parameter `now`.
  The database is `Scanner.Sink`, whose `accepts` decides whether each save
  attempt succeeds.
- **Exceptions.** The Jsoup parse exception is not modelled: `anchors` is a total
  function. The exceptions of the list call and of authentication are not
  modelled either: the listing is a finite sequence of pages, and every page but
  the last has a next-page token. A failed fetch is the only exception of the
  processing loop that is modelled.
- **Progress text.** The progress callback is a list of `Scanner.Report` values.
  Their texts are rendered by `Report.Text`, and nothing is proved about them.
- **Floating point.** `%.2f` and `%.1f%%` rendering, and `getFormattedOpenRate`,
  are left out. The size formatters return the amount and the unit (`SizeText`),
  and the open rate is an exact `real`.
- **Map iteration order.** The order of `HashMap` entries is taken to be the
  order of first occurrence. The contracts of `AnalyzeInboxHealth` and
  `FindSimilarSubjects` state only sortedness and the set of entries, so the
  order among equal keys is not stated.
- **Unicode.** Lower-casing, `isWhitespace` and the regex classes `\d` and `\s`
  are modelled over ASCII only. `hashCode` folds over Dafny characters, which are
  Unicode scalar values, whereas Java's `String.hashCode` folds over UTF-16 code
  units, so the two differ for characters outside the Basic Multilingual Plane.
- **Integer widths.**
  - `long` sums of sizes are unbounded `int`, so their overflow is not modelled.
  - `(int) unread` is not narrowed.
  - `hashCode` does model 32-bit wrap-around.
- **Aliasing.** The analyses and the categorizer read `EmailRec` values rather
  than `Email` objects: nothing in the core mutates an email after it is parsed.
- **The `processMessages` state.** `Scanner.BatchState.batches` mirrors the
  batches the database gained, as a value. The link between the two is a ghost
  out-parameter of the loop's helper methods.
- MessageParsing.GetHeaderSpec: header names and values are taken to be
  non-null, as Gmail returns them.
  - In the source, a null name reached before a match makes
    `equalsIgnoreCase` throw (`EmailScannerService.java:158`). The catch at
    `:98` then skips the message.
  - A matching header with a null value makes `getHeader` return null. That
    null is then stored by `setMessageId` or `setSubject`.
  - `Scanner.HeaderRecord`, by contrast, always stores `Some(..)`.
- InboxHealth.ScoreOf: a sender with three or more emails and a missing date gets
  no score, where Java throws. `AnalyzeInboxHealth` requires `Analyzable`, which
  rules this out, together with null senders (which make `groupingBy` throw).
- SubjectClusters.GroupBySubject: the grouping is stated for any normalisation
  function. Only `FindSimilarSubjects` passes `NormalizeSubject`, so the grouping
  proofs say nothing about that function.
- PrivacyShield.CollectRisks: the scan is stated for any three keyword lists.
  `ScanForPrivacyRisks` uses `SourceKeywords`, the lists the source declares.
  These lists are all lower-case, which `DetectsAnyCase` relies on. This fact is
  visible in `SourceKeywords` but not proved as a lemma.
- PrivacyShield.MatchKeyword: the three inner loops of `scanForPrivacyRisks` are
  one method, called once per list.
- **Unmodelled members.** `getInstance` singletons, getters, `toString` and
  `SenderStats` aggregation by the database are outside this model.

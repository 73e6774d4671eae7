# Gmail inbox manager — a verified Dafny model

This project models the decision logic of the Gmail inbox manager. It has
three parts:

- **Backend** (`backend/src/routes/gmail.ts`):
  - `categorizeSender`, the ordered first-match category chain;
  - sender-address extraction from a `From` header;
  - the `GET /senders` aggregation into sender groups sorted by count;
  - the `maxResults` defaulting;
  - the `POST /delete` validation and its sequential list-then-batch-delete loop.
- **Two React components.**
  - `app.tsx` runs on mock data. It groups emails by sender, filters the groups, and keeps the selection. Deletion is local: the emails are partitioned and regrouped.
  - `frontend/src/App.tsx` talks to the backend. It flattens the `/senders` answer into an email list, filters and selects, guards deletion, resets on logout, and picks badge colours.
- **Analysis service** (`ai-service`):
  - the rule-based email categoriser and sentiment fallback, and the batch tallies;
  - the sender spam score, frequency bucket, recommended action and top-20 ranking;
  - the recommendation rules, the summary counts and the error path of `/analyze`.

Gmail is a value: a `GmailStore.Mailbox` holds the messages and the calls the
API would refuse. The three API calls are pure functions over it. Network
replies to the React components arrive as method parameters. Scores that the
Python code keeps as decimals are integer tenths here.

Modules, one per file:

| module | models |
|---|---|
| `Wrappers` | the `Option` and `Result` values |
| `Text` | lower-casing, substring search, digit and letter runs |
| `CategoryRules` | the six labels, and first-match rule tables |
| `SenderAddress` | the two regular expressions of the address extraction, as scans |
| `GmailStore` | `list`, `get` and `batchDelete` over a mailbox value |
| `Grouping` | first-seen key order, and the elements per key |
| `StableSort` | stable insertion sort by a descending integer key |
| `GmailRoutes` | `gmail.ts` |
| `InboxView` | the view logic both components share |
| `MockApp` | `app.tsx` (class `MockInbox`) |
| `GmailApp` | `frontend/src/App.tsx` (class `Inbox`) |
| `AnalysisModels` | the request models of `main.py` |
| `EmailAnalyzer` | `email_analyzer.py` |
| `SenderClassifier` | `sender_classifier.py` |
| `AnalysisService` | `main.py` |

Behaviour kept as the code has it:

- A sender group keeps every email reference, not a capped sample.
- Message details are fetched with unbounded `Promise.all`, not through a worker pool.
- The delete loop stops at the first failing sender and answers 500. Earlier senders stay deleted, and no per-sender outcome is reported.
- Ties in the count sort keep the order in which senders were first recorded. The sort is stable.

## Model

| member | source | states |
|---|---|---|
| Text.LowerIdempotent | backend/src/routes/gmail.ts:216-217 | lower-casing twice is lower-casing once |
| Text.ContainsIff | backend/src/routes/gmail.ts:221 | `includes` holds iff the word occurs at some position |
| Text.ContainsAnyIff | ai-service/models/email_analyzer.py:66 | `any(word in text ...)` holds iff some listed word occurs |
| Text.ContainsAnyJoined | ai-service/models/email_analyzer.py:63 | a space-free word occurs in `a + " " + b` iff it occurs in `a` or in `b` |
| CategoryRules.FirstMatchWinner | backend/src/routes/gmail.ts:219-273 | a rule chain answers the fallback when no rule fires, and otherwise the label of the first rule that fires |
| CategoryRules.FirstMatchFallbackIff | backend/src/routes/gmail.ts:219-273 | when no rule carries the fallback's label, the chain answers the fallback iff no rule fires |
| CategoryRules.FirstMatchRange | backend/src/routes/gmail.ts:219-273 | a rule chain answers the fallback or one of its own labels |
| GmailRoutes.CategorizeSender | backend/src/routes/gmail.ts:215-274 | the result is one of the six labels |
| GmailRoutes.CategorizeSenderIsFirstMatch | backend/src/routes/gmail.ts:215-274 | the `if` chain equals the rule table promotional, social, billing, security, transactional, evaluated first-match with fallback `work`; `work` iff no rule fires |
| GmailRoutes.PromotionalRuleFires | backend/src/routes/gmail.ts:220-229 | the promotional rule fires iff the address has newsletter/promo/marketing or the subject has sale/offer/discount |
| GmailRoutes.SocialRuleFires | backend/src/routes/gmail.ts:232-240 | the social rule fires iff the address names one of the four networks or "notification" |
| GmailRoutes.BillingRuleFires | backend/src/routes/gmail.ts:243-250 | the billing rule fires iff the address has billing/invoice/receipt or the subject has payment |
| GmailRoutes.SecurityRuleFires | backend/src/routes/gmail.ts:253-260 | the security rule fires iff the subject has security/alert/verify/suspicious |
| GmailRoutes.TransactionalRuleFires | backend/src/routes/gmail.ts:263-270 | the transactional rule fires iff the address has no-reply/noreply or the subject has confirmation/order |
| GmailRoutes.CategorizeSenderCaseInsensitive | backend/src/routes/gmail.ts:216-217 | the category depends only on the lower-cased inputs |
| GmailRoutes.CategorizeSenderNewsletterBeatsBilling | backend/src/routes/gmail.ts:219-250 | a newsletter address with a payment subject is promotional, although the billing rule would fire too |
| SenderAddress.ExtractAddressSpec | backend/src/routes/gmail.ts:118-119 | the address is the text inside the first `<…>` pair with no line break; failing that, the first whitespace-free run with an inner `@`; failing that, the whole header |
| SenderAddress.AngleMatchUnique | backend/src/routes/gmail.ts:118 | the lazy `<(.+?)>` match from a given `<` ends at one position only |
| SenderAddress.AtTokenUnique | backend/src/routes/gmail.ts:118 | the `[^\s]+@[^\s]+` match from a given start ends at one position only |
| SenderAddress.ExtractAddressNamed | backend/src/routes/gmail.ts:118-119 | `Jo <jo@x.io>` gives `jo@x.io` |
| SenderAddress.ExtractAddressBare | backend/src/routes/gmail.ts:118-119 | worked example: `jo@x.io` is kept as it is (the general rule is `ExtractAddressSpec`) |
| SenderAddress.ExtractAddressPassThrough | backend/src/routes/gmail.ts:118-119 | worked example: `Jane Doe`, with neither form, is returned unchanged (the general rule is `ExtractAddressSpec`) |
| GmailRoutes.MissingFromIsUnknown | backend/src/routes/gmail.ts:112-119 | a message without `From` is described with `Unknown` and grouped under `Unknown` |
| GmailRoutes.MaxResultsListing | backend/src/routes/gmail.ts:86-92 | Gmail is never asked for zero results; an absent, unparsable or zero `maxResults` lists the first min(500, mailbox size) messages; a positive one lists min(value, 500, mailbox size); a negative one, like a refused query, makes the listing fail |
| GmailStore.BatchDeleteRemoves | backend/src/routes/gmail.ts:186-197 | a successful batch delete of listed ids removes exactly that many messages, exactly those ids, and keeps ids distinct |
| GmailRoutes.AggregateSenders | backend/src/routes/gmail.ts:101-147 | the map-building loop yields the groups of all successfully fetched messages, sorted by count |
| GmailRoutes.SendersOfTotal | backend/src/routes/gmail.ts:121-137 | the counts add up to the number of fetched messages; one group per distinct sender |
| GmailRoutes.SendersOfEmails | backend/src/routes/gmail.ts:131-137 | each group's count is its number of email references, and these are the sender's messages in order |
| GmailRoutes.SendersOfOrder | backend/src/routes/gmail.ts:145-147 | senders are distinct and counts non-increasing; equal counts keep first-seen order |
| GmailRoutes.SendersOfFirstSeen | backend/src/routes/gmail.ts:121-128 | a group's full header and category come from the sender's first message |
| GmailRoutes.GroupsDistinct | backend/src/routes/gmail.ts:121-129 | no group appears twice before sorting |
| GmailRoutes.SendersOfMembers | backend/src/routes/gmail.ts:121-147 | every returned group is the group of a sender that occurs in the fetched messages |
| GmailRoutes.HandleSenders | backend/src/routes/gmail.ts:83-157 | a failed list answers "Failed to fetch senders"; otherwise the sorted groups of the fetched messages with their number as `count` |
| GmailRoutes.SendersEmptyAndBounded | backend/src/routes/gmail.ts:86-98 | at most 500 ids are listed, and an empty mailbox answers no senders |
| GmailRoutes.HandleDelete | backend/src/routes/gmail.ts:163-210 | a missing, non-array or empty `senders` is a 400 that changes nothing; otherwise the loop's result: `deletedCount` and the sender count, or a failure after earlier deletions |
| GmailRoutes.DeleteOneFacts | backend/src/routes/gmail.ts:177-198 | one sender removes at most 500 messages; a sender with no match changes nothing; a step fails iff its list or its batch delete fails |
| GmailRoutes.RunDeletesCounts | backend/src/routes/gmail.ts:172-197 | `deletedCount` equals the number of messages removed, at most 500 per sender |
| GmailRoutes.RunDeletesNoRollback | backend/src/routes/gmail.ts:175-209 | when the second sender fails, the first sender's deletion stands and the request fails |
| StableSort.SortDescFacts | backend/src/routes/gmail.ts:146-147 | the count sort is a permutation, non-increasing, keeps the count total and keeps the order among equal counts |
| Grouping.KeysFacts | backend/src/routes/gmail.ts:121-129 | the sender keys are distinct and are exactly the senders that occur |
| MockApp.GroupBySender | app.tsx:28-43 | the `forEach` over the object of groups yields the groups in first-seen order, sorted by count |
| MockApp.GroupedBySenderContents | app.tsx:30-41 | counts add up to the number of emails, and each group holds its sender's emails in order, `count` being their number |
| MockApp.GroupedBySenderSenders | app.tsx:28-42 | the grouped senders are exactly the senders of the email list |
| MockApp.GroupedBySenderOrder | app.tsx:42 | senders are distinct and counts non-increasing; ties keep first-seen order |
| MockApp.GroupedBySenderFirstCategory | app.tsx:31-38 | a group's category is that of the sender's first email |
| MockApp.MockGroupsExample | app.tsx:14-25 | the mock inbox groups into seven senders in the order shopping (3), facebook (2), then amazon, slack, github, linkedin, netflix (1 each) |
| MockApp.MockInbox.constructor | app.tsx:5-11 | the initial state: no emails, no groups, nothing selected, no search, filter `all` |
| MockApp.MockInbox.LoadMockEmails | app.tsx:69-72 | the mount effect installs the mock emails and their grouping |
| MockApp.MockInbox.ToggleSenderSelection | app.tsx:74-82 | the selection gains the sender if absent and loses it if present; nothing else changes |
| MockApp.MockInbox.SelectAllSenders | app.tsx:84-87 | the selection becomes the senders of the filtered groups |
| MockApp.MockInbox.DeselectAll | app.tsx:89-91 | the selection becomes empty |
| MockApp.MockInbox.DeleteSelectedEmails | app.tsx:93-102 | the emails become those of unselected senders, regrouped; selection cleared; the counts reported are the selected emails and senders |
| MockApp.DeleteLeavesNoSelectedSender | app.tsx:94-98 | after a local delete no group belongs to a selected sender, and the counts add up to the remaining emails |
| InboxView.MatchingSearchFacts | app.tsx:107-111 | the search keeps, in order, exactly the groups whose sender contains the term, ignoring case |
| InboxView.MatchingCategoryFacts | app.tsx:113-115 | the category filter keeps, in order, exactly the groups of that category |
| InboxView.FilteredGroupsFacts | app.tsx:104-118 | a group is shown iff it passes the non-empty search and the non-`all` filter; order is kept; with neither, everything is shown |
| InboxView.Toggled | frontend/src/App.tsx:144-152 | the toggled sender flips membership and no other sender changes |
| InboxView.ToggledTwice | frontend/src/App.tsx:144-152 | toggling twice restores the selection |
| InboxView.SelectAllShown | frontend/src/App.tsx:154-157 | after select-all, a sender is selected iff some group of that sender passes the current search and category filter |
| InboxView.SelectionPartition | app.tsx:94-95 | the selected and the remaining emails together are the list, each email once, and their sizes add up |
| InboxView.SelectionMembers | frontend/src/App.tsx:232 | an email counts as selected iff its sender is selected; both filters keep order |
| InboxView.EmptySelection | frontend/src/App.tsx:232 | with nothing selected the count is 0 and every email remains |
| InboxView.CategoryColorFacts | frontend/src/App.tsx:219-229 | the six labels get six distinct non-gray colours, and every other string gets gray |
| GmailApp.FlattenGroups | frontend/src/App.tsx:97-110 | the nested `forEach` builds the flattening of the groups |
| GmailApp.FlattenAppend | frontend/src/App.tsx:98-109 | flattening is group by group: flattening a concatenation concatenates the flattenings |
| GmailApp.FlattenLength | frontend/src/App.tsx:98-109 | the flat list has one entry per email of every group |
| GmailApp.FlattenEntries | frontend/src/App.tsx:98-109 | every entry is some group's email with that group's sender and category, and every such email is present |
| GmailApp.ClientListsEveryFetchedEmail | frontend/src/App.tsx:94-110 | after `GET /senders`, the client lists exactly as many emails as the backend fetched |
| GmailApp.Inbox.constructor | frontend/src/App.tsx:22-30 | the initial component state |
| GmailApp.Inbox.FetchEmails | frontend/src/App.tsx:83-117 | on a reply the groups are installed and flattened into the email list; on failure they stay; the spinner stops either way |
| GmailApp.Inbox.HandleLogout | frontend/src/App.tsx:67-81 | a completed logout clears authentication, emails, groups, selection and analysis; a failed one changes nothing |
| GmailApp.Inbox.ToggleSenderSelection | frontend/src/App.tsx:144-152 | the selection is toggled for that sender; nothing else changes |
| GmailApp.Inbox.SelectAllSenders | frontend/src/App.tsx:154-157 | the selection becomes the senders of the filtered groups |
| GmailApp.Inbox.DeselectAll | frontend/src/App.tsx:159-161 | the selection becomes empty |
| GmailApp.Inbox.DeleteSelectedEmails | frontend/src/App.tsx:163-201 | an empty selection or a refused confirmation sends nothing; otherwise the selected senders are sent, and after a successful reply the selection is cleared and the groups are fetched again; the data spinner is untouched unless that refetch runs, and stopped after it; the email list stays the flattening of the groups |
| EmailAnalyzer.CategorizeSingle | ai-service/models/email_analyzer.py:60-97 | without a classifier the result is one of the six labels |
| EmailAnalyzer.JoinedText | ai-service/models/email_analyzer.py:63 | a listed word is in the lower-cased `sender subject` text iff it is in the lower-cased sender or subject |
| EmailAnalyzer.AnalyzerRulesFire | ai-service/models/email_analyzer.py:65-83 | each rule of the analyser's table fires iff its `any(...)` test holds |
| EmailAnalyzer.CategorizeSingleIsFirstMatch | ai-service/models/email_analyzer.py:60-97 | the chain equals the table promotional, social, transactional, security, billing, evaluated first-match with fallback `work` |
| EmailAnalyzer.ReceiptSender | ai-service/models/email_analyzer.py:74-83 | a receipt sender with no promotional or social hit is transactional here, while the backend calls it billing |
| EmailAnalyzer.CountContainedFacts | ai-service/models/email_analyzer.py:116-117 | the word count is at most the list length, and 0 iff no listed word occurs |
| EmailAnalyzer.AnalyzeSentiment | ai-service/models/email_analyzer.py:99-123 | the verdict is positive, negative or neutral |
| EmailAnalyzer.SentimentFacts | ai-service/models/email_analyzer.py:101-123 | empty text is neutral; positive iff more distinct positive than negative words, negative symmetrically, a tie neutral; case does not matter |
| EmailAnalyzer.AnalyzeBatch | ai-service/models/email_analyzer.py:39-58 | the loop builds the category and sentiment tallies of the emails and reports their number |
| EmailAnalyzer.ListsFacts | ai-service/models/email_analyzer.py:44-52 | one category per email; one sentiment per email with a non-empty subject |
| EmailAnalyzer.BatchCounts | ai-service/models/email_analyzer.py:54-58 | `total_analyzed` is the number of emails; category counts add up to it; sentiment counts add up to the emails with a subject |
| SenderClassifier.CalculateSpamScore | ai-service/models/sender_classifier.py:65-91 | the accumulating loops compute the capped spam score in tenths |
| SenderClassifier.SpamScoreFacts | ai-service/models/sender_classifier.py:67-91 | the score is between 0 and 10 tenths; subjects add at most one tenth each over at most ten emails; the 100-email branch never applies |
| SenderClassifier.SpamScoreFirstTen | ai-service/models/sender_classifier.py:76-79 | two email lists of equal length that agree on the first ten subjects score the same |
| SenderClassifier.VolumeTerm | ai-service/models/sender_classifier.py:82-85 | the volume term is two tenths iff there are more than 50 emails, never three |
| SenderClassifier.Sample | ai-service/models/sender_classifier.py:76 | the sample is the first ten emails, or all of them when fewer |
| SenderClassifier.FrequencyMonotone | ai-service/models/sender_classifier.py:93-106 | the buckets are five labels, and more emails never give a lower bucket |
| SenderClassifier.RecommendActionPriority | ai-service/models/sender_classifier.py:108-119 | each action is chosen iff its test holds and no earlier test does |
| SenderClassifier.DaysSinceLast | ai-service/models/sender_classifier.py:121-132 | 999, and so over 90 days, exactly when there is no email |
| SenderClassifier.CalculateReputation | ai-service/models/sender_classifier.py:36-63 | the insight of a group from its spam score, frequency, action and day count |
| SenderClassifier.ReputationFacts | ai-service/models/sender_classifier.py:43-52 | engagement is 10 tenths minus the spam score; old mail is archived only for senders scoring at most 0.3 when the count is the email count |
| SenderClassifier.ReputationsKeepGroups | ai-service/models/sender_classifier.py:27-63 | one insight per group, in input order, each with its group's sender, count and category, a spam score of at most 1.0 and an engagement score that complements it |
| SenderClassifier.AnalyzeSenders | ai-service/models/sender_classifier.py:23-34 | the loop, stable descending sort and `[:20]` give the top twenty insights |
| SenderClassifier.TopInsightsShape | ai-service/models/sender_classifier.py:31-34 | at most twenty insights, non-increasing in spam score, drawn from the input; with at most twenty senders all are kept |
| SenderClassifier.TopInsightsAreTop | ai-service/models/sender_classifier.py:31-34 | an insight left out scores no higher than any returned one |
| AnalysisService.DistinctSendersBound | ai-service/main.py:106 | the distinct senders of a non-empty list number between 1 and its length |
| AnalysisService.UniqueSendersFacts | ai-service/main.py:106 | `unique_senders` is the number of groups when there are any, otherwise the number of distinct email senders |
| AnalysisService.SenderCountsPositive | ai-service/main.py:167-183 | the spam and inactive lists are non-empty iff some insight scores above 0.7 or is over 90 days |
| AnalysisService.GenerateRecommendations | ai-service/main.py:156-205 | the appends build the recommendations check by check |
| AnalysisService.RecommendationsOrdered | ai-service/main.py:164-205 | the checks appear in their fixed order, at most one each, so there are at most six |
| AnalysisService.HasRank | ai-service/main.py:166-203 | the entry of check k is present iff check k fires |
| AnalysisService.RecommendationsPresent | ai-service/main.py:166-203 | block iff some score is above 0.7; unsubscribe iff 10·promo > 3·total; inactive iff some day count is over 90; merge, archive (>1000 emails) and night filter (>50) iff their conditions hold |
| AnalysisService.RecommendationCounts | ai-service/main.py:167-185 | the block and inactive entries quote their list lengths, which are positive and at most the number of insights |
| AnalysisService.InactiveMeansEmptyGroup | ai-service/main.py:181-185 | with at most twenty sender groups, the inactive recommendation appears iff some group has no email |
| AnalysisService.AnalyzeEmails | ai-service/main.py:76-126 | an empty email list is a 500 "Analysis failed", not a 400; a null sender list is a 500 too; otherwise the summary, recommendations and top insights |
| AnalysisService.AnalysisFacts | ai-service/main.py:104-116 | a success reports `total_emails` = number of emails, one category per email, at most twenty insights and six recommendations |

## Left out

- Authentication (`requireAuth`, the OAuth client, `backend/src/routes/auth.ts`) is not part of this model. Routes are modelled as if authenticated.
- The `/messages` route is not modelled. It shares the header defaults and address extraction modelled for `/senders`.
- `Promise.all` concurrency: message details are modelled as fetched one after another in list order. In the source, the order in which senders enter the map follows completion order. That affects the tie order and which message fixes a group's full header and category.
- The Gmail search `from:<sender>` runs server-side. It is modelled as a case-insensitive substring test on the `From` header.
- A `maxResults` below 1 (a negative `parseInt`) is modelled as a Gmail error, surfacing as the 500 of `/senders`.
- `GmailStore.BatchDelete` is all-or-nothing. Only the first page of `list` is used, as in the source.
- `/delete` sender items are modelled as strings. The source accepts any array and interpolates items into the query.
- `toLowerCase()` and `lower()` are modelled on ASCII letters only; other letters keep their case. The `\s` and `.` classes of the address patterns follow ECMAScript's definitions.
- Object-key quirks are not modelled: prototype names such as `constructor` or `__proto__` used as keys, and integer-like keys reordering `Object.values`. In `app.tsx` groups the model uses a plain map in first-seen order. In `getCategoryColor` the model answers gray.
- Mock email ids are numbers in `app.tsx` and strings here.
- React rendering, `useEffect`, the auth-status check and URL handling, `handleLogin`'s redirect, `window.confirm`/`alert` texts and the simulated `analyzeWithAI` are UI and timers and are not modelled.
- The transformer pipelines of `email_analyzer.py` are foreign ML calls. Only the not-loaded branch is modelled, so `text[:512]` plays no part.
- The pattern detector is not part of this model. Its answer is the `Patterns` parameter, holding only `similar_sender_groups` and `night_emails`.
- The float-valued summary fields `spam_likelihood` and `storage_used_estimate` are not modelled. Neither are the recommendation texts, with their percentage and storage formatting. `round(…, 2)` is not modelled either.
- The `/categorize`, `/sender-reputation`, `/` and `/health` endpoints and the FastAPI/CORS wiring are service plumbing and are not modelled.
- SenderClassifier.CalculateSpamScore: exact tenths instead of binary floats. The only sums that land differently are those that should equal 0.3, so only the `> 0.3` test can decide differently. Python's `0.1 + 0.2` is 0.30000000000000004. Take a sender that matches no pattern and has more than 50 emails, exactly one of its first ten subjects being spammy. Its score is one subject plus the volume term. The source's `_recommend_action` then answers `review`. The model's 3 tenths does not pass `> 3`, so it answers `keep`, or `archive_old` when the count is over 100.
- SenderClassifier.CalculateSpamScore: the `\d{5,}` and `[A-Z]{10,}` indicators are modelled on ASCII digits and letters only. Python's `\d` also matches other Unicode decimal digits, and `[A-Z]` under `re.IGNORECASE` also matches a few non-ASCII letters (U+0130, U+0131, U+017F, U+212A).
- AnalysisService.RecommendationsPresent: `promo > total * 0.3` becomes `10 * promo > 3 * total`. This can differ from the float product only when `10 * promo == 3 * total`.
- AnalysisService.AnalyzeEmails: the detail texts assume Starlette's `str()` of an `HTTPException` ("400: No emails provided") and CPython's `TypeError` message. Other exceptions (a malformed request body) are not modelled.
- AnalysisService.AnalyzeEmails: the model reads the `Dict[str, any]` and `List[Dict[str, any]]` annotations of `AnalysisResponse` (ai-service/main.py:55-58) as `typing.Any`. As written they name the builtin function `any`, and `Any` is not imported (main.py:4). Pydantic has no schema for a builtin function, so the module would fail when the class is defined and `/analyze` would never answer. The model describes the service as evidently intended.

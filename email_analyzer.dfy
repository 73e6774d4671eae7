/** The rule-based side of `EmailAnalyzer` in
    `ai-service/models/email_analyzer.py`: the category chain, the word-count
    sentiment fallback and the batch tallies. The transformer pipelines are
    taken as not loaded, which is the branch the service runs without them. */
module EmailAnalyzer {
  import opened Text
  import opened CategoryRules
  import opened AnalysisModels
  import GmailRoutes

  // ---------------------------------------------------------------------
  // categorize_single

  const PromotionalWords: seq<string> := ["sale", "offer", "discount", "deal", "promo", "newsletter"]
  const SocialDomains: seq<string> := ["facebook", "twitter", "linkedin", "instagram"]
  const TransactionalWords: seq<string> := ["receipt", "order", "shipping", "delivery", "confirmation"]
  const SecurityWords: seq<string> := ["security", "verify", "alert", "password", "suspicious"]
  const BillingWords: seq<string> := ["invoice", "payment", "billing", "subscription"]

  /** The analyser's chain as data. A word tested against the joined text
      `sender + " " + subject` fires on either part; the social test looks
      at the sender only. Transactional comes before security and billing,
      unlike the backend's chain. */
  const AnalyzerRules: seq<Rule> := [
    Rule(Promotional, PromotionalWords, PromotionalWords),
    Rule(Social, SocialDomains, []),
    Rule(Transactional, TransactionalWords, TransactionalWords),
    Rule(Security, SecurityWords, SecurityWords),
    Rule(Billing, BillingWords, BillingWords)
  ]

  /** `categorize_single(email)` with no classifier loaded. */
  function CategorizeSingle(email: Email): (r: string)
    ensures r in Labels
  {
    var text := Lower(email.sender + " " + email.subject);
    if ContainsAny(text, PromotionalWords) then Promotional
    else if ContainsAny(Lower(email.sender), SocialDomains) then Social
    else if ContainsAny(text, TransactionalWords) then Transactional
    else if ContainsAny(text, SecurityWords) then Security
    else if ContainsAny(text, BillingWords) then Billing
    else Work
  }

  predicate NoSpace(words: seq<string>)
  {
    forall k :: 0 <= k < |words| ==> ' ' !in words[k]
  }

  /** Testing the joined, lower-cased text is testing either lower-cased part. */
  lemma JoinedText(sender: string, subject: string, words: seq<string>)
    requires NoSpace(words)
    ensures ContainsAny(Lower(sender + " " + subject), words) <==>
      ContainsAny(Lower(sender), words) || ContainsAny(Lower(subject), words)
  {
    LowerAppend(sender + " ", subject);
    LowerAppend(sender, " ");
    assert Lower(" ") == " ";
    ContainsAnyJoined(Lower(sender), Lower(subject), words);
  }

  /** No listed keyword holds a blank. */
  lemma WordListsNoSpace()
    ensures NoSpace(PromotionalWords) && NoSpace(TransactionalWords)
    ensures NoSpace(SecurityWords) && NoSpace(BillingWords)
  {
  }

  /** A rule that looks for the same words in the address and the subject
      fires exactly when the joined text holds one of them. */
  lemma JoinedRuleFires(email: Email, category: string, words: seq<string>)
    requires NoSpace(words)
    ensures Fires(Rule(category, words, words), Lower(email.sender), Lower(email.subject)) <==>
      ContainsAny(Lower(email.sender + " " + email.subject), words)
  {
    JoinedText(email.sender, email.subject, words);
  }

  /** Each rule of the table fires exactly when its clause of the `if`
      chain holds. */
  lemma AnalyzerRulesFire(email: Email)
    ensures Fires(AnalyzerRules[0], Lower(email.sender), Lower(email.subject)) <==>
      ContainsAny(Lower(email.sender + " " + email.subject), PromotionalWords)
    ensures Fires(AnalyzerRules[1], Lower(email.sender), Lower(email.subject)) <==>
      ContainsAny(Lower(email.sender), SocialDomains)
    ensures Fires(AnalyzerRules[2], Lower(email.sender), Lower(email.subject)) <==>
      ContainsAny(Lower(email.sender + " " + email.subject), TransactionalWords)
    ensures Fires(AnalyzerRules[3], Lower(email.sender), Lower(email.subject)) <==>
      ContainsAny(Lower(email.sender + " " + email.subject), SecurityWords)
    ensures Fires(AnalyzerRules[4], Lower(email.sender), Lower(email.subject)) <==>
      ContainsAny(Lower(email.sender + " " + email.subject), BillingWords)
  {
    WordListsNoSpace();
    JoinedRuleFires(email, Promotional, PromotionalWords);
    JoinedRuleFires(email, Transactional, TransactionalWords);
    JoinedRuleFires(email, Security, SecurityWords);
    JoinedRuleFires(email, Billing, BillingWords);
    assert !ContainsAny(Lower(email.subject), []);
  }

  /** The `if` chain is the rule table evaluated first-match-wins with `work`
      as the fallback: `work` exactly when no rule fires, otherwise the label
      of the first rule that fires. */
  lemma CategorizeSingleIsFirstMatch(email: Email)
    ensures CategorizeSingle(email) == FirstMatch(AnalyzerRules, Lower(email.sender), Lower(email.subject), Work)
    ensures CategorizeSingle(email) == Work <==> NoneFires(AnalyzerRules, Lower(email.sender), Lower(email.subject))
    ensures forall k :: WinsAt(AnalyzerRules, Lower(email.sender), Lower(email.subject), k) ==>
      CategorizeSingle(email) == AnalyzerRules[k].category
  {
    var a := Lower(email.sender);
    var s := Lower(email.subject);
    AnalyzerRulesFire(email);
    var r := AnalyzerRules;
    assert FirstMatch(r[4..], a, s, Work) == if Fires(r[4], a, s) then Billing else Work by {
      assert r[4..][1..] == [];
    }
    assert FirstMatch(r[3..], a, s, Work) == if Fires(r[3], a, s) then Security else FirstMatch(r[4..], a, s, Work) by {
      assert r[3..][1..] == r[4..];
    }
    assert FirstMatch(r[2..], a, s, Work) == if Fires(r[2], a, s) then Transactional else FirstMatch(r[3..], a, s, Work) by {
      assert r[2..][1..] == r[3..];
    }
    assert FirstMatch(r[1..], a, s, Work) == if Fires(r[1], a, s) then Social else FirstMatch(r[2..], a, s, Work) by {
      assert r[1..][1..] == r[2..];
    }
    assert CategorizeSingle(email) == FirstMatch(r, a, s, Work);
    FirstMatchWinner(r, a, s, Work);
    if !NoneFires(r, a, s) {
      var k :| WinsAt(r, a, s, k);
      assert r[k].category != Work;
    }
  }

  /** A sender containing "receipt", with no promotional word and no social
      domain, is transactional here. The backend's chain puts billing before
      its transactional rule, so the same sender is billing there whenever
      neither of the backend's first two rules fires. */
  lemma ReceiptSender(email: Email)
    requires Contains(Lower(email.sender), "receipt")
    requires !ContainsAny(Lower(email.sender + " " + email.subject), PromotionalWords)
    requires !ContainsAny(Lower(email.sender), SocialDomains)
    ensures CategorizeSingle(email) == Transactional
    ensures !Fires(GmailRoutes.BackendRules[0], Lower(email.sender), Lower(email.subject)) &&
            !Fires(GmailRoutes.BackendRules[1], Lower(email.sender), Lower(email.subject)) ==>
            GmailRoutes.CategorizeSender(email.sender, email.subject) == Billing
  {
    var a := Lower(email.sender);
    var s := Lower(email.subject);
    WordListsNoSpace();
    ContainsAnyIff(a, TransactionalWords);
    assert Contains(a, TransactionalWords[0]);
    JoinedText(email.sender, email.subject, TransactionalWords);
    var b := GmailRoutes.BackendRules;
    if !Fires(b[0], a, s) && !Fires(b[1], a, s) {
      GmailRoutes.BillingRuleFires(a, s);
      assert WinsAt(b, a, s, 2);
      FirstMatchWinner(b, a, s, Work);
      GmailRoutes.CategorizeSenderIsFirstMatch(email.sender, email.subject);
    }
  }

  // ---------------------------------------------------------------------
  // analyze_sentiment

  const Positive := "positive"
  const Negative := "negative"
  const Neutral := "neutral"

  const PositiveWords: seq<string> := ["great", "excellent", "amazing", "love", "best", "thank"]
  const NegativeWords: seq<string> := ["bad", "terrible", "worst", "hate", "spam", "urgent"]

  /** `sum(1 for word in words if word in text)`: each listed word counts
      once, however often it occurs. */
  function CountContained(text: string, words: seq<string>): nat
  {
    if words == [] then 0
    else (if Contains(text, words[0]) then 1 else 0) + CountContained(text, words[1..])
  }

  /** The count is at most the number of listed words, and zero exactly when
      none of them occurs. */
  lemma {:induction false} CountContainedFacts(text: string, words: seq<string>)
    ensures CountContained(text, words) <= |words|
    ensures CountContained(text, words) == 0 <==> !ContainsAny(text, words)
  {
    if words != [] {
      CountContainedFacts(text, words[1..]);
    }
  }

  /** `analyze_sentiment(text)` with no sentiment model loaded. */
  function AnalyzeSentiment(text: string): (r: string)
    ensures r == Positive || r == Negative || r == Neutral
  {
    if text == "" then Neutral
    else
      var t := Lower(text);
      var pos := CountContained(t, PositiveWords);
      var neg := CountContained(t, NegativeWords);
      if pos > neg then Positive
      else if neg > pos then Negative
      else Neutral
  }

  /** Empty text is neutral; otherwise the verdict follows the majority of
      distinct listed words, a tie (including no listed word at all) being
      neutral. Case does not matter. */
  lemma SentimentFacts(text: string)
    ensures text == "" ==> AnalyzeSentiment(text) == Neutral
    ensures AnalyzeSentiment(text) == Positive <==>
      text != "" && CountContained(Lower(text), PositiveWords) > CountContained(Lower(text), NegativeWords)
    ensures AnalyzeSentiment(text) == Negative <==>
      text != "" && CountContained(Lower(text), NegativeWords) > CountContained(Lower(text), PositiveWords)
    ensures !ContainsAny(Lower(text), PositiveWords) && !ContainsAny(Lower(text), NegativeWords) ==>
      AnalyzeSentiment(text) == Neutral
    ensures AnalyzeSentiment(Lower(text)) == AnalyzeSentiment(text)
  {
    CountContainedFacts(Lower(text), PositiveWords);
    CountContainedFacts(Lower(text), NegativeWords);
    LowerIdempotent(text);
    assert |Lower(text)| == |text|;
  }

  // ---------------------------------------------------------------------
  // analyze_batch

  /** A `Counter` is a multiset: its keys are the values that occur and each
      maps to its number of occurrences. */
  datatype BatchAnalysis = BatchAnalysis(
    categoryCounts: multiset<string>,
    sentimentDistribution: multiset<string>,
    totalAnalyzed: nat)

  /** The `categories` list: one label per email, in order. */
  function Categories(emails: seq<Email>): seq<string>
  {
    if emails == [] then []
    else Categories(emails[..|emails| - 1]) + [CategorizeSingle(emails[|emails| - 1])]
  }

  /** The `sentiments` list: one verdict per email with a non-empty subject. */
  function Sentiments(emails: seq<Email>): seq<string>
  {
    if emails == [] then []
    else
      var e := emails[|emails| - 1];
      Sentiments(emails[..|emails| - 1]) + (if e.subject != "" then [AnalyzeSentiment(e.subject)] else [])
  }

  function Batch(emails: seq<Email>): BatchAnalysis
  {
    BatchAnalysis(multiset(Categories(emails)), multiset(Sentiments(emails)), |emails|)
  }

  /** The loop over `emails` of `analyze_batch`. */
  method AnalyzeBatch(emails: seq<Email>) returns (r: BatchAnalysis)
    ensures r == Batch(emails)
  {
    var categories: seq<string> := [];
    var sentiments: seq<string> := [];
    var i := 0;
    while i < |emails|
      invariant 0 <= i <= |emails|
      invariant categories == Categories(emails[..i])
      invariant sentiments == Sentiments(emails[..i])
    {
      var email := emails[i];
      var category := CategorizeSingle(email);
      categories := categories + [category];
      if email.subject != "" {
        var sentiment := AnalyzeSentiment(email.subject);
        sentiments := sentiments + [sentiment];
      }
      assert emails[..i + 1][..i] == emails[..i];
      i := i + 1;
    }
    assert emails[..|emails|] == emails;
    r := BatchAnalysis(multiset(categories), multiset(sentiments), |emails|);
  }

  /** Number of emails whose subject is not empty. */
  function WithSubject(emails: seq<Email>): nat
  {
    if emails == [] then 0 else (if emails[0].subject != "" then 1 else 0) + WithSubject(emails[1..])
  }

  lemma {:induction false} WithSubjectSnoc(emails: seq<Email>, e: Email)
    ensures WithSubject(emails + [e]) == WithSubject(emails) + (if e.subject != "" then 1 else 0)
  {
    if emails != [] {
      assert (emails + [e])[1..] == emails[1..] + [e];
      WithSubjectSnoc(emails[1..], e);
    }
  }

  lemma {:induction false} ListsFacts(emails: seq<Email>)
    ensures |Categories(emails)| == |emails|
    ensures |Sentiments(emails)| == WithSubject(emails)
    ensures forall c :: c in Categories(emails) ==> c in Labels
    ensures forall s :: s in Sentiments(emails) ==> s == Positive || s == Negative || s == Neutral
  {
    if emails != [] {
      var init := emails[..|emails| - 1];
      var e := emails[|emails| - 1];
      ListsFacts(init);
      assert emails == init + [e];
      WithSubjectSnoc(init, e);
    }
  }

  /** `total_analyzed` is the number of emails and the category counts add
      up to it; the sentiment counts add up to the number of emails with a
      subject; only the six labels and three verdicts occur as keys. */
  lemma BatchCounts(emails: seq<Email>)
    ensures Batch(emails).totalAnalyzed == |emails|
    ensures |Batch(emails).categoryCounts| == |emails|
    ensures |Batch(emails).sentimentDistribution| == WithSubject(emails)
    ensures forall c :: c in Batch(emails).categoryCounts ==> c in Labels
    ensures forall s :: s in Batch(emails).sentimentDistribution ==> s == Positive || s == Negative || s == Neutral
  {
    var cs := Categories(emails);
    var ss := Sentiments(emails);
    ListsFacts(emails);
    assert forall c :: c in multiset(cs) ==> c in cs;
    assert forall c :: c in multiset(ss) ==> c in ss;
  }
}

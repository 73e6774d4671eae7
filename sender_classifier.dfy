/** `SenderClassifier` of `ai-service/models/sender_classifier.py`: a spam
    score per sender, an engagement score, a frequency bucket, a recommended
    action, and the top-20 ranking. Scores are kept in integer tenths: the
    source adds the decimals 0.1, 0.2 and 0.3 and compares with 0.3, 0.5
    and 0.7, which become 1, 2, 3 and 3, 5, 7 here. */
module SenderClassifier {
  import opened Text
  import opened AnalysisModels
  import StableSort

  // ---------------------------------------------------------------------
  // _calculate_spam_score

  /** The sender patterns: a substring, a run of digits, a run of letters. */
  datatype Indicator = Substring(word: string) | DigitRun(minimum: nat) | LetterRun(minimum: nat)

  const SpamIndicators: seq<Indicator> := [
    Substring("no-reply"), Substring("noreply"), Substring("donotreply"), DigitRun(5), LetterRun(10)
  ]

  /** `re.search(pattern, sender, re.IGNORECASE)`. */
  predicate IndicatorMatches(p: Indicator, sender: string)
  {
    match p
    case Substring(word) => Contains(Lower(sender), word)
    case DigitRun(n) => HasDigitRun(sender, n)
    case LetterRun(n) => HasLetterRun(sender, n)
  }

  const SpamSubjectWords: seq<string> := ["urgent", "!!!", "winner", "congratulations", "click here", "act now"]
  const GenericSenders: seq<string> := ["noreply", "no-reply", "donotreply"]

  /** Only this many subjects are sampled. */
  const SubjectSample := 10

  /** Number of indicators that match the sender. */
  function IndicatorHits(sender: string, ps: seq<Indicator>): nat
  {
    if ps == [] then 0
    else IndicatorHits(sender, ps[..|ps| - 1]) + (if IndicatorMatches(ps[|ps| - 1], sender) then 1 else 0)
  }

  predicate SpammySubject(e: Email)
  {
    ContainsAny(Lower(e.subject), SpamSubjectWords)
  }

  /** Number of emails whose subject holds a spam word. */
  function SubjectHits(emails: seq<Email>): nat
  {
    if emails == [] then 0
    else SubjectHits(emails[..|emails| - 1]) + (if SpammySubject(emails[|emails| - 1]) then 1 else 0)
  }

  function Sample(emails: seq<Email>): (r: seq<Email>)
    ensures |r| <= SubjectSample && |r| <= |emails| && r == emails[..|r|]
    ensures |emails| >= SubjectSample ==> |r| == SubjectSample
    ensures |emails| < SubjectSample ==> r == emails
  {
    if |emails| <= SubjectSample then emails else emails[..SubjectSample]
  }

  /** The volume term, in the source's branch order. */
  function VolumeTerm(n: int): (r: int)
    ensures r == if n > 50 then 2 else 0
  {
    if n > 50 then 2 else if n > 100 then 3 else 0
  }

  function GenericTerm(sender: string): nat
  {
    if ContainsAny(Lower(sender), GenericSenders) then 3 else 0
  }

  /** The sum of all terms, before the cap. */
  function RawSpamScore(sender: string, emails: seq<Email>): nat
  {
    2 * IndicatorHits(sender, SpamIndicators) + SubjectHits(Sample(emails)) + VolumeTerm(|emails|) + GenericTerm(sender)
  }

  /** The spam score in tenths: the raw sum capped at 10. */
  function SpamScore(sender: string, emails: seq<Email>): nat
  {
    var raw := RawSpamScore(sender, emails);
    if raw < 10 then raw else 10
  }

  /** `_calculate_spam_score(sender, emails)`, accumulating into `score`. */
  method CalculateSpamScore(sender: string, emails: seq<Email>) returns (score: nat)
    ensures score == SpamScore(sender, emails)
  {
    var total: int := 0;
    var i := 0;
    while i < |SpamIndicators|
      invariant 0 <= i <= |SpamIndicators|
      invariant total == 2 * IndicatorHits(sender, SpamIndicators[..i])
    {
      if IndicatorMatches(SpamIndicators[i], sender) {
        total := total + 2;
      }
      assert SpamIndicators[..i + 1][..i] == SpamIndicators[..i];
      i := i + 1;
    }
    assert SpamIndicators[..i] == SpamIndicators;
    var sample := Sample(emails);
    var j := 0;
    while j < |sample|
      invariant 0 <= j <= |sample|
      invariant total == 2 * IndicatorHits(sender, SpamIndicators) + SubjectHits(sample[..j])
    {
      var subjectLower := Lower(sample[j].subject);
      if ContainsAny(subjectLower, SpamSubjectWords) {
        total := total + 1;
      }
      assert sample[..j + 1][..j] == sample[..j];
      j := j + 1;
    }
    assert sample[..j] == sample;
    if |emails| > 50 {
      total := total + 2;
    } else if |emails| > 100 {
      total := total + 3;
    }
    if ContainsAny(Lower(sender), GenericSenders) {
      total := total + 3;
    }
    score := if total > 10 then 10 else total;
  }

  lemma {:induction false} IndicatorHitsBound(sender: string, ps: seq<Indicator>)
    ensures IndicatorHits(sender, ps) <= |ps|
  {
    if ps != [] {
      IndicatorHitsBound(sender, ps[..|ps| - 1]);
    }
  }

  lemma {:induction false} SubjectHitsBound(emails: seq<Email>)
    ensures SubjectHits(emails) <= |emails|
  {
    if emails != [] {
      SubjectHitsBound(emails[..|emails| - 1]);
    }
  }

  lemma {:induction false} SubjectHitsSame(a: seq<Email>, b: seq<Email>)
    requires |a| == |b|
    requires forall i :: 0 <= i < |a| ==> a[i].subject == b[i].subject
    ensures SubjectHits(a) == SubjectHits(b)
  {
    if a != [] {
      SubjectHitsSame(a[..|a| - 1], b[..|b| - 1]);
    }
  }

  /** The score lies between 0 and 10 tenths; the subjects add at most one
      tenth each, and only the first ten emails are sampled; the volume
      term is two tenths exactly when there are more than 50 emails, so the
      three-tenths branch for more than 100 never applies. */
  lemma SpamScoreFacts(sender: string, emails: seq<Email>)
    ensures 0 <= SpamScore(sender, emails) <= 10
    ensures SubjectHits(Sample(emails)) <= SubjectSample
    ensures SpamScore(sender, emails) == 10 || SpamScore(sender, emails) == RawSpamScore(sender, emails)
    ensures VolumeTerm(|emails|) != 3
  {
    SubjectHitsBound(Sample(emails));
  }

  /** Only the subjects of the first ten emails matter: two lists of the
      same length that agree on those subjects get the same score. */
  lemma SpamScoreFirstTen(sender: string, a: seq<Email>, b: seq<Email>)
    requires |a| == |b|
    requires forall i :: 0 <= i < |a| && i < SubjectSample ==> a[i].subject == b[i].subject
    ensures SpamScore(sender, a) == SpamScore(sender, b)
  {
    SubjectHitsSame(Sample(a), Sample(b));
  }

  // ---------------------------------------------------------------------
  // _calculate_frequency, _recommend_action, _days_since_last_email

  const VeryHigh := "very_high"
  const High := "high"
  const Medium := "medium"
  const Low := "low"
  const VeryLow := "very_low"

  /** `_calculate_frequency`: the bucket of an email count. */
  function Frequency(count: int): string
  {
    if count > 100 then VeryHigh
    else if count > 50 then High
    else if count > 20 then Medium
    else if count > 5 then Low
    else VeryLow
  }

  function FrequencyRank(f: string): nat
  {
    if f == VeryHigh then 4 else if f == High then 3 else if f == Medium then 2 else if f == Low then 1 else 0
  }

  /** The buckets are ordered: more emails never give a lower bucket, and
      the five buckets are five different labels. */
  lemma FrequencyMonotone(a: int, b: int)
    requires a <= b
    ensures FrequencyRank(Frequency(a)) <= FrequencyRank(Frequency(b))
    ensures Frequency(a) in {VeryHigh, High, Medium, Low, VeryLow}
    ensures a != b && FrequencyRank(Frequency(a)) == FrequencyRank(Frequency(b)) ==> Frequency(a) == Frequency(b)
  {
  }

  const Block := "block"
  const Unsubscribe := "unsubscribe"
  const Review := "review"
  const ArchiveOld := "archive_old"
  const Keep := "keep"

  /** `_recommend_action(spam_score, count, frequency)`, score in tenths. */
  function RecommendAction(spamScore: int, count: int, frequency: string): string
  {
    if spamScore > 7 then Block
    else if spamScore > 5 && count > 20 then Unsubscribe
    else if (frequency == VeryHigh || frequency == High) && spamScore > 3 then Review
    else if count > 100 then ArchiveOld
    else Keep
  }

  /** The checks apply in priority order: each action is chosen exactly
      when its own test holds and no earlier one does. */
  lemma RecommendActionPriority(spamScore: int, count: int, frequency: string)
    ensures RecommendAction(spamScore, count, frequency) == Block <==> spamScore > 7
    ensures RecommendAction(spamScore, count, frequency) == Unsubscribe <==>
      spamScore <= 7 && spamScore > 5 && count > 20
    ensures RecommendAction(spamScore, count, frequency) == Review <==>
      spamScore <= 7 && !(spamScore > 5 && count > 20) && (frequency == VeryHigh || frequency == High) && spamScore > 3
    ensures RecommendAction(spamScore, count, frequency) == ArchiveOld <==>
      spamScore <= 7 && !(spamScore > 5 && count > 20) &&
      !((frequency == VeryHigh || frequency == High) && spamScore > 3) && count > 100
  {
  }

  /** `_days_since_last_email`: 999 for no email, otherwise the fixed 30. */
  function DaysSinceLast(emails: seq<Email>): (r: int)
    ensures r == 999 <==> emails == []
    ensures r > 90 <==> emails == []
  {
    if emails == [] then 999 else 30
  }

  // ---------------------------------------------------------------------
  // calculate_reputation and analyze_senders

  datatype Insight = Insight(
    sender: string,
    emailCount: int,
    spamScore: nat,
    engagementScore: int,
    frequency: string,
    recommendedAction: string,
    daysSinceLast: int,
    category: string)

  function Reputation(g: SenderGroup): Insight
  {
    var spam := SpamScore(g.sender, g.emails);
    var frequency := Frequency(|g.emails|);
    Insight(g.sender, g.count, spam, 10 - spam, frequency,
            RecommendAction(spam, g.count, frequency), DaysSinceLast(g.emails), g.category)
  }

  /** `calculate_reputation(sender_group)`. */
  method CalculateReputation(g: SenderGroup) returns (insight: Insight)
    ensures insight == Reputation(g)
  {
    var spam := CalculateSpamScore(g.sender, g.emails);
    var engagement := 10 - spam;
    var frequency := Frequency(|g.emails|);
    var action := RecommendAction(spam, g.count, frequency);
    insight := Insight(g.sender, g.count, spam, engagement, frequency, action, DaysSinceLast(g.emails), g.category);
  }

  /** Engagement is the complement of the spam score, so both lie in
      [0, 10] tenths. When the group's count is its number of emails, old
      mail is archived only for senders scoring at most 0.3, since a sender
      with more than 100 emails is in the top bucket and gets a review above
      that score. */
  lemma ReputationFacts(g: SenderGroup)
    ensures Reputation(g).spamScore + Reputation(g).engagementScore == 10
    ensures 0 <= Reputation(g).engagementScore <= 10
    ensures g.count == |g.emails| && Reputation(g).recommendedAction == ArchiveOld ==>
      Reputation(g).spamScore <= 3 && |g.emails| > 100
  {
    SpamScoreFacts(g.sender, g.emails);
  }

  function SpamKey(i: Insight): int
  {
    i.spamScore
  }

  /** One insight per sender group, in input order. */
  function Reputations(senders: seq<SenderGroup>): seq<Insight>
  {
    seq(|senders|, i requires 0 <= i < |senders| => Reputation(senders[i]))
  }

  /** Each insight reports its own group: the same sender, the count the
      caller sent and the category, a spam score between 0 and 1.0 and an
      engagement score that complements it. */
  lemma ReputationsKeepGroups(senders: seq<SenderGroup>)
    ensures |Reputations(senders)| == |senders|
    ensures forall i :: 0 <= i < |senders| ==>
      Reputations(senders)[i].sender == senders[i].sender &&
      Reputations(senders)[i].emailCount == senders[i].count &&
      Reputations(senders)[i].category == senders[i].category &&
      Reputations(senders)[i].spamScore <= 10 &&
      Reputations(senders)[i].spamScore + Reputations(senders)[i].engagementScore == 10
  {
    forall i | 0 <= i < |senders|
      ensures Reputation(senders[i]).spamScore <= 10
      ensures Reputation(senders[i]).spamScore + Reputation(senders[i]).engagementScore == 10
    {
      ReputationFacts(senders[i]);
    }
  }

  const TopCount := 20

  /** `insights[:20]`. */
  function Prefix(s: seq<Insight>, n: nat): (r: seq<Insight>)
    ensures |r| == if |s| < n then |s| else n
    ensures r == s[..|r|]
  {
    if |s| <= n then s else s[..n]
  }

  /** Stable sort by spam score, highest first, then the first twenty. */
  function TopInsights(senders: seq<SenderGroup>): seq<Insight>
  {
    Prefix(StableSort.SortDesc(Reputations(senders), SpamKey), TopCount)
  }

  /** `analyze_senders(senders, emails)`. */
  method AnalyzeSenders(senders: seq<SenderGroup>) returns (top: seq<Insight>)
    ensures top == TopInsights(senders)
  {
    var insights: seq<Insight> := [];
    var i := 0;
    while i < |senders|
      invariant 0 <= i <= |senders|
      invariant insights == Reputations(senders[..i])
    {
      var insight := CalculateReputation(senders[i]);
      insights := insights + [insight];
      i := i + 1;
    }
    assert senders[..i] == senders;
    insights := StableSort.SortDesc(insights, SpamKey);
    top := Prefix(insights, TopCount);
  }

  /** At most twenty insights, highest spam score first, each of them the
      insight of one input sender; with at most twenty senders every one is
      returned. */
  lemma TopInsightsShape(senders: seq<SenderGroup>)
    ensures |TopInsights(senders)| == if |senders| < TopCount then |senders| else TopCount
    ensures StableSort.NonIncreasing(TopInsights(senders), SpamKey)
    ensures multiset(TopInsights(senders)) <= multiset(Reputations(senders))
    ensures |senders| <= TopCount ==> multiset(TopInsights(senders)) == multiset(Reputations(senders))
  {
    var all := Reputations(senders);
    var sorted := StableSort.SortDesc(all, SpamKey);
    assert |sorted| == |all| && StableSort.NonIncreasing(sorted, SpamKey) && multiset(sorted) == multiset(all) by {
      StableSort.SortDescFacts(all, SpamKey);
    }
    var top := TopInsights(senders);
    var k := |top|;
    assert top == sorted[..k];
    assert sorted == sorted[..k] + sorted[k..];
    assert multiset(sorted) == multiset(sorted[..k]) + multiset(sorted[k..]);
    if |senders| <= TopCount {
      assert sorted[k..] == [];
    }
  }

  /** In a list sorted by descending score, an element outside a prefix
      scores no higher than any element of the prefix. */
  lemma PrefixOfSorted(sorted: seq<Insight>, k: nat)
    requires StableSort.NonIncreasing(sorted, SpamKey) && k <= |sorted|
    ensures forall x, y :: x in sorted[..k] && y in sorted && y !in sorted[..k] ==> y.spamScore <= x.spamScore
  {
    forall x, y | x in sorted[..k] && y in sorted && y !in sorted[..k] ensures y.spamScore <= x.spamScore {
      var p :| 0 <= p < k && sorted[..k][p] == x;
      var q :| 0 <= q < |sorted| && sorted[q] == y;
      assert forall j :: 0 <= j < k ==> sorted[j] == sorted[..k][j];
      assert q >= k;
      assert SpamKey(sorted[p]) >= SpamKey(sorted[q]);
    }
  }

  /** An insight that is not returned scores no higher than any returned one. */
  lemma TopInsightsAreTop(senders: seq<SenderGroup>)
    ensures forall x, y :: x in TopInsights(senders) && y in Reputations(senders) && y !in TopInsights(senders) ==>
      y.spamScore <= x.spamScore
  {
    var all := Reputations(senders);
    var sorted := StableSort.SortDesc(all, SpamKey);
    assert StableSort.NonIncreasing(sorted, SpamKey) && multiset(sorted) == multiset(all) by {
      StableSort.SortDescFacts(all, SpamKey);
    }
    var top := TopInsights(senders);
    assert top == sorted[..|top|];
    PrefixOfSorted(sorted, |top|);
    forall y | y in all ensures y in sorted {
      assert y in multiset(all);
    }
  }
}

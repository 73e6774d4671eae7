/** The `/analyze` endpoint of `ai-service/main.py`: the summary counts, the
    recommendation rules and the translation of every failure into a 500.
    The pattern detector is not part of this model; its answer arrives as
    the `Patterns` parameter, reduced to the two entries the rules read. */
module AnalysisService {
  import opened Wrappers
  import opened AnalysisModels
  import opened CategoryRules
  import EmailAnalyzer
  import SenderClassifier

  type Insight = SenderClassifier.Insight

  /** `patterns.get("similar_sender_groups")` as a truth value and
      `patterns["time_patterns"]["night_emails"]`, 0 when absent. */
  datatype Patterns = Patterns(similarSenderGroups: bool, nightEmails: int)

  datatype Summary = Summary(
    totalEmails: nat,
    uniqueSenders: nat,
    categoryBreakdown: multiset<string>,
    sentimentDistribution: multiset<string>)

  // ---------------------------------------------------------------------
  // The summary

  function DistinctSenders(emails: seq<Email>): set<string>
  {
    set i | 0 <= i < |emails| :: emails[i].sender
  }

  /** `len(senders) if senders else len(set(e.sender for e in emails))`. */
  function UniqueSenders(emails: seq<Email>, senders: seq<SenderGroup>): nat
  {
    if |senders| > 0 then |senders| else |DistinctSenders(emails)|
  }

  function MakeSummary(emails: seq<Email>, senders: seq<SenderGroup>, batch: EmailAnalyzer.BatchAnalysis): Summary
  {
    Summary(|emails|, UniqueSenders(emails, senders), batch.categoryCounts, batch.sentimentDistribution)
  }

  lemma {:induction false} DistinctSendersBound(emails: seq<Email>)
    ensures |DistinctSenders(emails)| <= |emails|
    ensures emails != [] ==> |DistinctSenders(emails)| >= 1
  {
    if emails != [] {
      var init := emails[..|emails| - 1];
      DistinctSendersBound(init);
      assert DistinctSenders(emails) == DistinctSenders(init) + {emails[|emails| - 1].sender} by {
        forall s | s in DistinctSenders(emails) ensures s in DistinctSenders(init) + {emails[|emails| - 1].sender} {
          var i :| 0 <= i < |emails| && emails[i].sender == s;
          if i < |emails| - 1 {
            assert init[i].sender == s;
          }
        }
        forall s | s in DistinctSenders(init) ensures s in DistinctSenders(emails) {
          var i :| 0 <= i < |init| && init[i].sender == s;
          assert emails[i].sender == s;
        }
      }
    }
  }

  /** With sender groups, their number; without, the number of distinct
      senders, which for a non-empty email list lies between 1 and the
      number of emails. */
  lemma UniqueSendersFacts(emails: seq<Email>, senders: seq<SenderGroup>)
    ensures |senders| > 0 ==> UniqueSenders(emails, senders) == |senders|
    ensures |senders| == 0 ==> UniqueSenders(emails, senders) <= |emails|
    ensures |senders| == 0 && emails != [] ==> UniqueSenders(emails, senders) >= 1
    ensures |senders| == 0 ==>
      forall s :: s in DistinctSenders(emails) <==> exists i :: 0 <= i < |emails| && emails[i].sender == s
  {
    DistinctSendersBound(emails);
  }

  // ---------------------------------------------------------------------
  // _generate_recommendations

  /** The six recommendations, carrying the numbers their messages quote. */
  datatype Recommendation =
    | BlockSpamSenders(spamSenders: nat)
    | UnsubscribePromotional(promoCount: nat, totalEmails: nat)
    | DeleteInactiveSenders(inactiveSenders: nat)
    | MergeSimilarSenders
    | ArchiveOldEmails
    | FilterNightEmails

  /** Position of each check in the function. */
  function Rank(r: Recommendation): nat
  {
    match r
    case BlockSpamSenders(_) => 0
    case UnsubscribePromotional(_, _) => 1
    case DeleteInactiveSenders(_) => 2
    case MergeSimilarSenders => 3
    case ArchiveOldEmails => 4
    case FilterNightEmails => 5
  }

  /** `len([s for s in sender_insights if s.get("spam_score", 0) > 0.7])`. */
  function SpamSenderCount(insights: seq<Insight>): nat
  {
    if insights == [] then 0
    else (if insights[0].spamScore > 7 then 1 else 0) + SpamSenderCount(insights[1..])
  }

  /** `len([s for s in sender_insights if s.get("days_since_last", 0) > 90])`. */
  function InactiveSenderCount(insights: seq<Insight>): nat
  {
    if insights == [] then 0
    else (if insights[0].daysSinceLast > 90 then 1 else 0) + InactiveSenderCount(insights[1..])
  }

  lemma {:induction false} SenderCountsPositive(insights: seq<Insight>)
    ensures SpamSenderCount(insights) > 0 <==> exists i :: 0 <= i < |insights| && insights[i].spamScore > 7
    ensures InactiveSenderCount(insights) > 0 <==> exists i :: 0 <= i < |insights| && insights[i].daysSinceLast > 90
  {
    if insights != [] {
      SenderCountsPositive(insights[1..]);
      if exists i :: 0 <= i < |insights[1..]| && insights[1..][i].spamScore > 7 {
        var i :| 0 <= i < |insights[1..]| && insights[1..][i].spamScore > 7;
        assert insights[i + 1].spamScore > 7;
      }
      if exists i :: 0 <= i < |insights[1..]| && insights[1..][i].daysSinceLast > 90 {
        var i :| 0 <= i < |insights[1..]| && insights[1..][i].daysSinceLast > 90;
        assert insights[i + 1].daysSinceLast > 90;
      }
      forall i | 1 <= i < |insights|
        ensures insights[i] == insights[1..][i - 1]
      {
      }
    }
  }

  /** One check's contribution: its entry when it fires, nothing otherwise. */
  function Opt(fires: bool, r: Recommendation): seq<Recommendation>
  {
    if fires then [r] else []
  }

  /** The recommendations, check by check in the source's order. */
  function Recommendations(summary: Summary, insights: seq<Insight>, patterns: Patterns): seq<Recommendation>
  {
    var spam := SpamSenderCount(insights);
    var promo := summary.categoryBreakdown[Promotional];
    var inactive := InactiveSenderCount(insights);
    Opt(spam > 0, BlockSpamSenders(spam)) +
    Opt(10 * promo > 3 * summary.totalEmails, UnsubscribePromotional(promo, summary.totalEmails)) +
    Opt(inactive > 0, DeleteInactiveSenders(inactive)) +
    Opt(patterns.similarSenderGroups, MergeSimilarSenders) +
    Opt(summary.totalEmails > 1000, ArchiveOldEmails) +
    Opt(patterns.nightEmails > 50, FilterNightEmails)
  }

  /** `_generate_recommendations(summary, sender_insights, patterns)`. */
  method GenerateRecommendations(summary: Summary, insights: seq<Insight>, patterns: Patterns)
    returns (recommendations: seq<Recommendation>)
    ensures recommendations == Recommendations(summary, insights, patterns)
  {
    recommendations := [];
    var spamSenders := SpamSenderCount(insights);
    if spamSenders > 0 {
      recommendations := recommendations + [BlockSpamSenders(spamSenders)];
    }
    ghost var expected := Opt(spamSenders > 0, BlockSpamSenders(spamSenders));
    assert recommendations == expected;
    var promoCount := summary.categoryBreakdown[Promotional];
    if 10 * promoCount > 3 * summary.totalEmails {
      recommendations := recommendations + [UnsubscribePromotional(promoCount, summary.totalEmails)];
    }
    expected := expected + Opt(10 * promoCount > 3 * summary.totalEmails, UnsubscribePromotional(promoCount, summary.totalEmails));
    assert recommendations == expected;
    var oldSenders := InactiveSenderCount(insights);
    if oldSenders > 0 {
      recommendations := recommendations + [DeleteInactiveSenders(oldSenders)];
    }
    expected := expected + Opt(oldSenders > 0, DeleteInactiveSenders(oldSenders));
    assert recommendations == expected;
    if patterns.similarSenderGroups {
      recommendations := recommendations + [MergeSimilarSenders];
    }
    expected := expected + Opt(patterns.similarSenderGroups, MergeSimilarSenders);
    assert recommendations == expected;
    if summary.totalEmails > 1000 {
      recommendations := recommendations + [ArchiveOldEmails];
    }
    expected := expected + Opt(summary.totalEmails > 1000, ArchiveOldEmails);
    assert recommendations == expected;
    if patterns.nightEmails > 50 {
      recommendations := recommendations + [FilterNightEmails];
    }
    expected := expected + Opt(patterns.nightEmails > 50, FilterNightEmails);
    assert recommendations == expected;
  }

  predicate Has(rs: seq<Recommendation>, rank: nat)
  {
    exists k :: 0 <= k < |rs| && Rank(rs[k]) == rank
  }

  /** Ranks strictly increase along the list. */
  predicate RanksIncrease(rs: seq<Recommendation>)
  {
    forall i, j :: 0 <= i < j < |rs| ==> Rank(rs[i]) < Rank(rs[j])
  }

  /** Every entry ranks below `n`. */
  predicate RanksBelow(rs: seq<Recommendation>, n: nat)
  {
    forall i :: 0 <= i < |rs| ==> Rank(rs[i]) < n
  }

  /** Appending the optional entry of a later check keeps ranks increasing. */
  lemma OptStep(a: seq<Recommendation>, fires: bool, r: Recommendation)
    requires RanksIncrease(a) && RanksBelow(a, Rank(r)) && |a| <= Rank(r)
    ensures RanksIncrease(a + Opt(fires, r)) && RanksBelow(a + Opt(fires, r), Rank(r) + 1)
    ensures |a + Opt(fires, r)| <= Rank(r) + 1
  {
    if fires {
      var b := a + [r];
      assert forall i :: 0 <= i < |a| ==> b[i] == a[i];
      assert b[|a|] == r;
    } else {
      assert a + Opt(fires, r) == a;
    }
  }

  /** Six optional entries of ranks 0 to 5, concatenated in rank order. */
  lemma SixChecksOrdered(f0: bool, x0: Recommendation, f1: bool, x1: Recommendation,
                         f2: bool, x2: Recommendation, f3: bool, x3: Recommendation,
                         f4: bool, x4: Recommendation, f5: bool, x5: Recommendation)
    requires Rank(x0) == 0 && Rank(x1) == 1 && Rank(x2) == 2
    requires Rank(x3) == 3 && Rank(x4) == 4 && Rank(x5) == 5
    ensures RanksIncrease(Opt(f0, x0) + Opt(f1, x1) + Opt(f2, x2) + Opt(f3, x3) + Opt(f4, x4) + Opt(f5, x5))
    ensures |Opt(f0, x0) + Opt(f1, x1) + Opt(f2, x2) + Opt(f3, x3) + Opt(f4, x4) + Opt(f5, x5)| <= 6
  {
    OptStep([], f0, x0);
    assert [] + Opt(f0, x0) == Opt(f0, x0);
    var r0 := Opt(f0, x0);
    OptStep(r0, f1, x1);
    var r1 := r0 + Opt(f1, x1);
    OptStep(r1, f2, x2);
    var r2 := r1 + Opt(f2, x2);
    OptStep(r2, f3, x3);
    var r3 := r2 + Opt(f3, x3);
    OptStep(r3, f4, x4);
    var r4 := r3 + Opt(f4, x4);
    OptStep(r4, f5, x5);
  }

  /** The six checks run in a fixed order and each adds at most one entry:
      ranks strictly increase along the list, so there are at most six. */
  lemma RecommendationsOrdered(summary: Summary, insights: seq<Insight>, patterns: Patterns)
    ensures RanksIncrease(Recommendations(summary, insights, patterns))
    ensures |Recommendations(summary, insights, patterns)| <= 6
  {
    var spam := SpamSenderCount(insights);
    var promo := summary.categoryBreakdown[Promotional];
    var inactive := InactiveSenderCount(insights);
    SixChecksOrdered(spam > 0, BlockSpamSenders(spam),
                     10 * promo > 3 * summary.totalEmails, UnsubscribePromotional(promo, summary.totalEmails),
                     inactive > 0, DeleteInactiveSenders(inactive),
                     patterns.similarSenderGroups, MergeSimilarSenders,
                     summary.totalEmails > 1000, ArchiveOldEmails,
                     patterns.nightEmails > 50, FilterNightEmails);
  }

  lemma HasAppend(a: seq<Recommendation>, b: seq<Recommendation>, rank: nat)
    ensures Has(a + b, rank) <==> Has(a, rank) || Has(b, rank)
  {
    if Has(a + b, rank) {
      var k :| 0 <= k < |a + b| && Rank((a + b)[k]) == rank;
      if k >= |a| {
        assert b[k - |a|] == (a + b)[k];
      }
    }
    if Has(b, rank) {
      var k :| 0 <= k < |b| && Rank(b[k]) == rank;
      assert (a + b)[k + |a|] == b[k];
    }
    if Has(a, rank) {
      var k :| 0 <= k < |a| && Rank(a[k]) == rank;
      assert (a + b)[k] == a[k];
    }
  }

  lemma HasOpt(fires: bool, r: Recommendation, rank: nat)
    ensures Has(Opt(fires, r), rank) <==> fires && Rank(r) == rank
  {
    if fires {
      assert Opt(fires, r)[0] == r;
    }
  }

  lemma HasSix(p0: seq<Recommendation>, p1: seq<Recommendation>, p2: seq<Recommendation>,
               p3: seq<Recommendation>, p4: seq<Recommendation>, p5: seq<Recommendation>, rank: nat)
    ensures Has(p0 + p1 + p2 + p3 + p4 + p5, rank) <==>
      Has(p0, rank) || Has(p1, rank) || Has(p2, rank) || Has(p3, rank) || Has(p4, rank) || Has(p5, rank)
  {
    HasAppend(p0 + p1 + p2 + p3 + p4, p5, rank);
    HasAppend(p0 + p1 + p2 + p3, p4, rank);
    HasAppend(p0 + p1 + p2, p3, rank);
    HasAppend(p0 + p1, p2, rank);
    HasAppend(p0, p1, rank);
  }

  /** Entry `rank` is present exactly when check `rank` fires. */
  lemma HasRank(summary: Summary, insights: seq<Insight>, patterns: Patterns, rank: nat)
    ensures Has(Recommendations(summary, insights, patterns), rank) <==>
      (rank == 0 && SpamSenderCount(insights) > 0) ||
      (rank == 1 && 10 * summary.categoryBreakdown[Promotional] > 3 * summary.totalEmails) ||
      (rank == 2 && InactiveSenderCount(insights) > 0) ||
      (rank == 3 && patterns.similarSenderGroups) ||
      (rank == 4 && summary.totalEmails > 1000) ||
      (rank == 5 && patterns.nightEmails > 50)
  {
    var spam := SpamSenderCount(insights);
    var promo := summary.categoryBreakdown[Promotional];
    var inactive := InactiveSenderCount(insights);
    HasSix(Opt(spam > 0, BlockSpamSenders(spam)),
           Opt(10 * promo > 3 * summary.totalEmails, UnsubscribePromotional(promo, summary.totalEmails)),
           Opt(inactive > 0, DeleteInactiveSenders(inactive)),
           Opt(patterns.similarSenderGroups, MergeSimilarSenders),
           Opt(summary.totalEmails > 1000, ArchiveOldEmails),
           Opt(patterns.nightEmails > 50, FilterNightEmails), rank);
    HasOpt(spam > 0, BlockSpamSenders(spam), rank);
    HasOpt(10 * promo > 3 * summary.totalEmails, UnsubscribePromotional(promo, summary.totalEmails), rank);
    HasOpt(inactive > 0, DeleteInactiveSenders(inactive), rank);
    HasOpt(patterns.similarSenderGroups, MergeSimilarSenders, rank);
    HasOpt(summary.totalEmails > 1000, ArchiveOldEmails, rank);
    HasOpt(patterns.nightEmails > 50, FilterNightEmails, rank);
  }

  /** Each recommendation is present exactly when its condition holds; the
      30% threshold is `10 * promo > 3 * total` in integers. */
  lemma RecommendationsPresent(summary: Summary, insights: seq<Insight>, patterns: Patterns)
    ensures Has(Recommendations(summary, insights, patterns), 0) <==>
      exists i :: 0 <= i < |insights| && insights[i].spamScore > 7
    ensures Has(Recommendations(summary, insights, patterns), 1) <==>
      10 * summary.categoryBreakdown[Promotional] > 3 * summary.totalEmails
    ensures Has(Recommendations(summary, insights, patterns), 2) <==>
      exists i :: 0 <= i < |insights| && insights[i].daysSinceLast > 90
    ensures Has(Recommendations(summary, insights, patterns), 3) <==> patterns.similarSenderGroups
    ensures Has(Recommendations(summary, insights, patterns), 4) <==> summary.totalEmails > 1000
    ensures Has(Recommendations(summary, insights, patterns), 5) <==> patterns.nightEmails > 50
  {
    SenderCountsPositive(insights);
    HasRank(summary, insights, patterns, 0);
    HasRank(summary, insights, patterns, 1);
    HasRank(summary, insights, patterns, 2);
    HasRank(summary, insights, patterns, 3);
    HasRank(summary, insights, patterns, 4);
    HasRank(summary, insights, patterns, 5);
  }

  /** Neither count quoted by the recommendations exceeds the number of
      insights: not the insights scoring above 0.7, and not the insights
      (the top twenty senders at most) whose last email is over 90 days old. */
  lemma {:induction false} SenderCountsBound(insights: seq<Insight>)
    ensures SpamSenderCount(insights) <= |insights| && InactiveSenderCount(insights) <= |insights|
  {
    if insights != [] {
      SenderCountsBound(insights[1..]);
    }
  }

  lemma OptMember(fires: bool, x: Recommendation, r: Recommendation)
    requires r in Opt(fires, x)
    ensures fires && r == x
  {
  }

  lemma RecommendationCounts(summary: Summary, insights: seq<Insight>, patterns: Patterns)
    ensures forall r :: r in Recommendations(summary, insights, patterns) && r.BlockSpamSenders? ==>
      r.spamSenders == SpamSenderCount(insights) && 0 < r.spamSenders <= |insights|
    ensures forall r :: r in Recommendations(summary, insights, patterns) && r.DeleteInactiveSenders? ==>
      r.inactiveSenders == InactiveSenderCount(insights) && 0 < r.inactiveSenders <= |insights|
  {
    SenderCountsBound(insights);
    var spam := SpamSenderCount(insights);
    var promo := summary.categoryBreakdown[Promotional];
    var inactive := InactiveSenderCount(insights);
    var p0 := Opt(spam > 0, BlockSpamSenders(spam));
    var p1 := Opt(10 * promo > 3 * summary.totalEmails, UnsubscribePromotional(promo, summary.totalEmails));
    var p2 := Opt(inactive > 0, DeleteInactiveSenders(inactive));
    var p3 := Opt(patterns.similarSenderGroups, MergeSimilarSenders);
    var p4 := Opt(summary.totalEmails > 1000, ArchiveOldEmails);
    var p5 := Opt(patterns.nightEmails > 50, FilterNightEmails);
    forall r | r in Recommendations(summary, insights, patterns)
      ensures r.BlockSpamSenders? ==> r == BlockSpamSenders(spam) && spam > 0
      ensures r.DeleteInactiveSenders? ==> r == DeleteInactiveSenders(inactive) && inactive > 0
    {
      assert r in p0 + p1 + p2 + p3 + p4 + p5;
      if r in p0 {
        OptMember(spam > 0, BlockSpamSenders(spam), r);
      } else if r in p1 {
        OptMember(10 * promo > 3 * summary.totalEmails, UnsubscribePromotional(promo, summary.totalEmails), r);
      } else if r in p2 {
        OptMember(inactive > 0, DeleteInactiveSenders(inactive), r);
      } else if r in p3 {
        OptMember(patterns.similarSenderGroups, MergeSimilarSenders, r);
      } else if r in p4 {
        OptMember(summary.totalEmails > 1000, ArchiveOldEmails, r);
      } else {
        assert r in p5;
        OptMember(patterns.nightEmails > 50, FilterNightEmails, r);
      }
    }
  }

  /** With at most twenty sender groups, all of them have an insight, and
      since the day count is 999 only for a group with no email, the
      inactive recommendation appears exactly when some group is empty. */
  lemma InactiveMeansEmptyGroup(summary: Summary, senders: seq<SenderGroup>, patterns: Patterns)
    requires |senders| <= SenderClassifier.TopCount
    ensures Has(Recommendations(summary, SenderClassifier.TopInsights(senders), patterns), 2) <==>
      exists i :: 0 <= i < |senders| && senders[i].emails == []
  {
    var top := SenderClassifier.TopInsights(senders);
    var all := SenderClassifier.Reputations(senders);
    SenderClassifier.TopInsightsShape(senders);
    RecommendationsPresent(summary, top, patterns);
    if exists i :: 0 <= i < |top| && top[i].daysSinceLast > 90 {
      var i :| 0 <= i < |top| && top[i].daysSinceLast > 90;
      assert top[i] in multiset(all);
      var j :| 0 <= j < |all| && all[j] == top[i];
      assert senders[j].emails == [];
    }
    if exists i :: 0 <= i < |senders| && senders[i].emails == [] {
      var i :| 0 <= i < |senders| && senders[i].emails == [];
      assert all[i].daysSinceLast > 90;
      assert all[i] in multiset(top);
      var j :| 0 <= j < |top| && top[j] == all[i];
    }
  }

  // ---------------------------------------------------------------------
  // analyze_emails

  datatype AnalysisResponse =
    | Analysis(summary: Summary, recommendations: seq<Recommendation>, senderInsights: seq<Insight>, patterns: Patterns)
    | AnalysisFailed(status: int, detail: string)

  /** The detail the broad exception handler gives any failure. */
  function FailedDetail(message: string): string
  {
    "Analysis failed: " + message
  }

  /** The 400 for an empty email list, as the broad handler rewraps it. */
  const NoEmailsDetail := FailedDetail("400: No emails provided")
  /** Iterating over a `null` sender list raises a `TypeError`. */
  const NullSendersDetail := FailedDetail("'NoneType' object is not iterable")

  /** The successful answer for a non-empty email list and a sender list. */
  function Analyze(emails: seq<Email>, senders: seq<SenderGroup>, patterns: Patterns): AnalysisResponse
  {
    var summary := MakeSummary(emails, senders, EmailAnalyzer.Batch(emails));
    var insights := SenderClassifier.TopInsights(senders);
    Analysis(summary, Recommendations(summary, insights, patterns), insights, patterns)
  }

  /** `analyze_emails(request)`. `senders` is `None` when the request holds
      an explicit `null`; an absent field is the empty list. */
  method AnalyzeEmails(emails: seq<Email>, senders: Option<seq<SenderGroup>>, patterns: Patterns)
    returns (response: AnalysisResponse)
    ensures emails == [] ==> response == AnalysisFailed(500, NoEmailsDetail)
    ensures emails != [] && senders.None? ==> response == AnalysisFailed(500, NullSendersDetail)
    ensures emails != [] && senders.Some? ==> response == Analyze(emails, senders.value, patterns)
  {
    if emails == [] {
      return AnalysisFailed(500, NoEmailsDetail);
    }
    var emailAnalysis := EmailAnalyzer.AnalyzeBatch(emails);
    if senders.None? {
      return AnalysisFailed(500, NullSendersDetail);
    }
    var insights := SenderClassifier.AnalyzeSenders(senders.value);
    var summary := MakeSummary(emails, senders.value, emailAnalysis);
    var recommendations := GenerateRecommendations(summary, insights, patterns);
    response := Analysis(summary, recommendations, insights, patterns);
  }

  /** A success reports one email count and one category per email, at
      most twenty insights and at most six recommendations. */
  lemma AnalysisFacts(emails: seq<Email>, senders: seq<SenderGroup>, patterns: Patterns)
    requires emails != []
    ensures Analyze(emails, senders, patterns).summary.totalEmails == |emails|
    ensures |Analyze(emails, senders, patterns).summary.categoryBreakdown| == |emails|
    ensures |Analyze(emails, senders, patterns).senderInsights| <= SenderClassifier.TopCount
    ensures |Analyze(emails, senders, patterns).recommendations| <= 6
  {
    var batch := EmailAnalyzer.Batch(emails);
    var summary := MakeSummary(emails, senders, batch);
    var insights := SenderClassifier.TopInsights(senders);
    EmailAnalyzer.BatchCounts(emails);
    SenderClassifier.TopInsightsShape(senders);
    RecommendationsOrdered(summary, insights, patterns);
    assert Analyze(emails, senders, patterns) == Analysis(summary, Recommendations(summary, insights, patterns), insights, patterns);
  }
}

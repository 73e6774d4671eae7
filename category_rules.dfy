/** The six category labels shared by the backend, the two React components and
    the analysis service, and ordered first-match rule chains over them. Both
    categorisers of the system (`categorizeSender` in the backend and
    `categorize_single` in the analysis service) are written in their source
    as `if` chains; each is proved equal to one of the rule tables of this
    module, so that precedence is stated once, as data. */
module CategoryRules {
  import opened Text

  const Promotional := "promotional"
  const Social := "social"
  const Billing := "billing"
  const Security := "security"
  const Transactional := "transactional"
  const Work := "work"

  const Labels: set<string> := {Promotional, Social, Billing, Security, Transactional, Work}

  /** A rule fires when the lower-cased address contains one of `addressWords`
      or the lower-cased subject contains one of `subjectWords`. */
  datatype Rule = Rule(category: string, addressWords: seq<string>, subjectWords: seq<string>)

  predicate Fires(rule: Rule, address: string, subject: string)
  {
    ContainsAny(address, rule.addressWords) || ContainsAny(subject, rule.subjectWords)
  }

  /** Rule `k` is the first rule of the chain that fires. */
  predicate WinsAt(rules: seq<Rule>, address: string, subject: string, k: int)
  {
    0 <= k < |rules| && Fires(rules[k], address, subject) &&
    forall j :: 0 <= j < k ==> !Fires(rules[j], address, subject)
  }

  predicate NoneFires(rules: seq<Rule>, address: string, subject: string)
  {
    forall j :: 0 <= j < |rules| ==> !Fires(rules[j], address, subject)
  }

  /** Evaluates the chain in order; the first rule that fires gives the category. */
  function FirstMatch(rules: seq<Rule>, address: string, subject: string, fallback: string): string
  {
    if |rules| == 0 then fallback
    else if Fires(rules[0], address, subject) then rules[0].category
    else FirstMatch(rules[1..], address, subject, fallback)
  }

  /** First match wins: the label of the first rule that fires, and the
      fallback when no rule fires. */
  lemma {:induction false} FirstMatchWinner(rules: seq<Rule>, address: string, subject: string, fallback: string)
    ensures NoneFires(rules, address, subject) ==> FirstMatch(rules, address, subject, fallback) == fallback
    ensures forall k :: WinsAt(rules, address, subject, k) ==>
      FirstMatch(rules, address, subject, fallback) == rules[k].category
    ensures NoneFires(rules, address, subject) || exists k :: WinsAt(rules, address, subject, k)
  {
    if |rules| > 0 && !Fires(rules[0], address, subject) {
      var tail := rules[1..];
      FirstMatchWinner(tail, address, subject, fallback);
      forall k | WinsAt(rules, address, subject, k)
        ensures WinsAt(tail, address, subject, k - 1)
      {
        assert k != 0;
      }
      if !NoneFires(tail, address, subject) {
        var k :| WinsAt(tail, address, subject, k);
        assert WinsAt(rules, address, subject, k + 1);
      }
    } else if |rules| > 0 {
      assert WinsAt(rules, address, subject, 0);
    }
  }

  /** The chain only ever answers one of its own labels or the fallback. */
  lemma {:induction false} FirstMatchRange(rules: seq<Rule>, address: string, subject: string, fallback: string)
    ensures FirstMatch(rules, address, subject, fallback) == fallback ||
            exists k :: 0 <= k < |rules| && FirstMatch(rules, address, subject, fallback) == rules[k].category
  {
    if |rules| > 0 && !Fires(rules[0], address, subject) {
      FirstMatchRange(rules[1..], address, subject, fallback);
      if FirstMatch(rules, address, subject, fallback) != fallback {
        var k :| 0 <= k < |rules[1..]| && FirstMatch(rules[1..], address, subject, fallback) == rules[1..][k].category;
        assert FirstMatch(rules, address, subject, fallback) == rules[k + 1].category;
      }
    }
  }

  /** When no rule of the chain carries the fallback's label, the answer is
      the fallback exactly when no rule fires. */
  lemma FirstMatchFallbackIff(rules: seq<Rule>, address: string, subject: string, fallback: string)
    requires forall k :: 0 <= k < |rules| ==> rules[k].category != fallback
    ensures FirstMatch(rules, address, subject, fallback) == fallback <==> NoneFires(rules, address, subject)
  {
    FirstMatchWinner(rules, address, subject, fallback);
  }
}

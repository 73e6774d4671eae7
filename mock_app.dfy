/** The prototype component `app.tsx`: it works on a built-in list of ten
    sample emails, groups them by sender on the client and deletes locally. */
module MockApp {
  import opened CategoryRules
  import opened InboxView
  import Grouping
  import StableSort

  /** A sender group of `groupBySender`. */
  datatype Group = Group(sender: string, emails: seq<Email>, category: string, count: int)

  function EmailSender(e: Email): string
  {
    e.sender
  }

  function GroupSender(g: Group): string
  {
    g.sender
  }

  function GroupCategory(g: Group): string
  {
    g.category
  }

  function GroupCount(g: Group): int
  {
    g.count
  }

  // ---------------------------------------------------------------------
  // groupBySender, specified

  /** The group of sender `s`: all of its emails in input order, with the
      category of the first one. */
  function GroupOf(es: seq<Email>, s: string): Group
    requires s in Grouping.Keys(es, EmailSender)
  {
    Grouping.WithMembers(es, EmailSender, s);
    var w := Grouping.With(es, EmailSender, s);
    Group(s, w, w[0].category, |w|)
  }

  function GroupsFor(es: seq<Email>, ks: seq<string>): (r: seq<Group>)
    requires forall k :: k in ks ==> k in Grouping.Keys(es, EmailSender)
    ensures |r| == |ks|
    ensures forall j :: 0 <= j < |ks| ==> r[j] == GroupOf(es, ks[j])
  {
    if ks == [] then [] else [GroupOf(es, ks[0])] + GroupsFor(es, ks[1..])
  }

  /** The groups in first-seen order of their senders (`Object.values`). */
  function Groups(es: seq<Email>): seq<Group>
  {
    GroupsFor(es, Grouping.Keys(es, EmailSender))
  }

  /** What `groupBySender` returns. */
  function GroupedBySender(es: seq<Email>): seq<Group>
  {
    StableSort.SortDesc(Groups(es), GroupCount)
  }

  /** The entry the source creates for a sender seen for the first time. */
  function Fresh(e: Email): Group
  {
    Group(e.sender, [], e.category, 0)
  }

  /** `emails.push(email)` and `count++` on an entry. */
  function Bump(g: Group, e: Email): Group
  {
    g.(emails := g.emails + [e], count := g.count + 1)
  }

  function TableOf(es: seq<Email>): map<string, Group>
  {
    map k | k in Grouping.Keys(es, EmailSender) :: GroupOf(es, k)
  }

  lemma {:induction false} GroupOfSnoc(es: seq<Email>, e: Email, k: string)
    requires k in Grouping.Keys(es + [e], EmailSender)
    ensures k == e.sender && k !in Grouping.Keys(es, EmailSender) ==> GroupOf(es + [e], k) == Bump(Fresh(e), e)
    ensures k == e.sender && k in Grouping.Keys(es, EmailSender) ==> GroupOf(es + [e], k) == Bump(GroupOf(es, k), e)
    ensures k != e.sender ==> k in Grouping.Keys(es, EmailSender) && GroupOf(es + [e], k) == GroupOf(es, k)
  {
    Grouping.KeysSnoc(es, e, EmailSender);
    Grouping.WithSnoc(es, e, EmailSender, k);
    Grouping.WithMembers(es, EmailSender, k);
  }

  lemma TableOfKeys(es: seq<Email>)
    ensures TableOf(es).Keys == set k | k in Grouping.Keys(es, EmailSender)
    ensures forall k :: k in TableOf(es) ==> TableOf(es)[k] == GroupOf(es, k)
  {
  }

  /** The entry of one sender after one more email. */
  lemma TableEntrySnoc(es: seq<Email>, e: Email, k: string)
    requires k in TableOf(es + [e])
    ensures k != e.sender ==> k in TableOf(es) && TableOf(es + [e])[k] == TableOf(es)[k]
    ensures k == e.sender && k in TableOf(es) ==> TableOf(es + [e])[k] == Bump(TableOf(es)[k], e)
    ensures k == e.sender && k !in TableOf(es) ==> TableOf(es + [e])[k] == Bump(Fresh(e), e)
  {
    TableOfKeys(es);
    TableOfKeys(es + [e]);
    GroupOfSnoc(es, e, k);
  }

  lemma {:induction false} TableOfSnoc(es: seq<Email>, e: Email)
    ensures e.sender in TableOf(es) ==> TableOf(es + [e]) == TableOf(es)[e.sender := Bump(TableOf(es)[e.sender], e)]
    ensures e.sender !in TableOf(es) ==> TableOf(es + [e]) == TableOf(es)[e.sender := Bump(Fresh(e), e)]
  {
    var t := TableOf(es);
    var s := e.sender;
    var t2 := t[s := if s in t then Bump(t[s], e) else Bump(Fresh(e), e)];
    var t' := TableOf(es + [e]);
    TableOfKeys(es);
    TableOfKeys(es + [e]);
    Grouping.KeysSnoc(es, e, EmailSender);
    assert t'.Keys == t2.Keys;
    forall k | k in t' ensures t'[k] == t2[k] {
      TableEntrySnoc(es, e, k);
    }
    assert t' == t2;
  }

  lemma FoldStep(es: seq<Email>, i: nat)
    requires i < |es|
    ensures es[..i + 1] == es[..i] + [es[i]]
    ensures es[i].sender in TableOf(es[..i]) <==> es[i].sender in Grouping.Keys(es[..i], EmailSender)
    ensures Grouping.Keys(es[..i + 1], EmailSender) ==
      if es[i].sender in Grouping.Keys(es[..i], EmailSender) then Grouping.Keys(es[..i], EmailSender)
      else Grouping.Keys(es[..i], EmailSender) + [es[i].sender]
    ensures var t := TableOf(es[..i]);
      TableOf(es[..i + 1]) ==
        if es[i].sender in t then t[es[i].sender := Bump(t[es[i].sender], es[i])] else t[es[i].sender := Bump(Fresh(es[i]), es[i])]
  {
    assert es[..i + 1] == es[..i] + [es[i]];
    Grouping.KeysSnoc(es[..i], es[i], EmailSender);
    TableOfKeys(es[..i]);
    TableOfSnoc(es[..i], es[i]);
  }

  /** Reading the table in key order gives the groups. */
  lemma TableValues(es: seq<Email>, table: map<string, Group>, order: seq<string>)
    requires order == Grouping.Keys(es, EmailSender) && table == TableOf(es)
    ensures forall k :: k in order ==> k in table
    ensures |Groups(es)| == |order|
    ensures forall j :: 0 <= j < |order| ==> table[order[j]] == Groups(es)[j]
    ensures seq(|order|, j requires 0 <= j < |order| => table[order[j]]) == Groups(es)
  {
    TableOfKeys(es);
    var values := seq(|order|, j requires 0 <= j < |order| => table[order[j]]);
    assert |values| == |Groups(es)|;
    forall j | 0 <= j < |order| ensures values[j] == Groups(es)[j] {
    }
  }

  /** `groupBySender(emailList)`: fills the `groups` object email by email
      (its key order kept as `order`), then sorts its values by count. */
  method GroupBySender(emailList: seq<Email>) returns (groups: seq<Group>)
    ensures groups == GroupedBySender(emailList)
  {
    var table: map<string, Group> := map[];
    var order: seq<string> := [];
    var i := 0;
    while i < |emailList|
      invariant 0 <= i <= |emailList|
      invariant order == Grouping.Keys(emailList[..i], EmailSender)
      invariant table == TableOf(emailList[..i])
    {
      var e := emailList[i];
      FoldStep(emailList, i);
      var entry := if e.sender in table then table[e.sender] else Fresh(e);
      if e.sender !in table {
        order := order + [e.sender];
      }
      table := table[e.sender := Bump(entry, e)];
      assert table == TableOf(emailList[..i + 1]);
      i := i + 1;
    }
    assert emailList[..|emailList|] == emailList;
    TableValues(emailList, table, order);
    var values := seq(|order|, j requires 0 <= j < |order| => table[order[j]]);
    groups := StableSort.SortDesc(values, GroupCount);
  }

  // ---------------------------------------------------------------------
  // groupBySender, proved

  lemma {:induction false} GroupsForSum(es: seq<Email>, ks: seq<string>)
    requires forall k :: k in ks ==> k in Grouping.Keys(es, EmailSender)
    ensures StableSort.KeySum(GroupsFor(es, ks), GroupCount) == Grouping.Sizes(ks, es, EmailSender)
  {
    if ks != [] {
      GroupsForSum(es, ks[1..]);
      assert GroupsFor(es, ks)[1..] == GroupsFor(es, ks[1..]);
    }
  }

  /** Every group of the result is the group of its own sender. */
  lemma GroupedMembers(es: seq<Email>)
    ensures forall g :: g in GroupedBySender(es) ==> g.sender in Grouping.Keys(es, EmailSender) && g == GroupOf(es, g.sender)
  {
    StableSort.SortDescFacts(Groups(es), GroupCount);
    forall g | g in GroupedBySender(es)
      ensures g.sender in Grouping.Keys(es, EmailSender) && g == GroupOf(es, g.sender)
    {
      assert g in multiset(GroupedBySender(es));
      assert g in Groups(es);
    }
  }

  /** The counts add up to the number of emails, and each group holds
      exactly its sender's emails in input order. */
  lemma GroupedBySenderContents(es: seq<Email>)
    ensures StableSort.KeySum(GroupedBySender(es), GroupCount) == |es|
    ensures forall g :: g in GroupedBySender(es) ==>
      g.emails == Grouping.With(es, EmailSender, g.sender) && g.count == |g.emails|
  {
    StableSort.SortDescFacts(Groups(es), GroupCount);
    GroupsForSum(es, Grouping.Keys(es, EmailSender));
    Grouping.SizesOfKeys(es, EmailSender);
    GroupedMembers(es);
  }

  /** There is a group for every sender of the input and for no one else. */
  lemma GroupedBySenderSenders(es: seq<Email>)
    ensures forall s :: s in SendersOf(GroupedBySender(es), GroupSender) <==> s in Grouping.Keys(es, EmailSender)
    ensures forall s :: s in Grouping.Keys(es, EmailSender) <==> exists i :: 0 <= i < |es| && es[i].sender == s
  {
    var out := GroupedBySender(es);
    var ks := Grouping.Keys(es, EmailSender);
    Grouping.KeysFacts(es, EmailSender);
    GroupedMembers(es);
    forall s | s in ks ensures s in SendersOf(out, GroupSender) {
      StableSort.SortDescFacts(Groups(es), GroupCount);
      var j :| 0 <= j < |ks| && ks[j] == s;
      assert Groups(es)[j] in multiset(out);
      var k :| 0 <= k < |out| && out[k] == Groups(es)[j];
      assert GroupSender(out[k]) == s;
    }
    forall s | s in SendersOf(out, GroupSender) ensures s in ks {
      var k :| 0 <= k < |out| && GroupSender(out[k]) == s;
      assert out[k] in out;
    }
  }

  /** Senders are distinct and groups come in non-increasing count order;
      groups with equal counts keep the first-seen order of their senders. */
  lemma GroupedBySenderOrder(es: seq<Email>)
    ensures forall i, j :: 0 <= i < j < |GroupedBySender(es)| ==> GroupedBySender(es)[i].sender != GroupedBySender(es)[j].sender
    ensures forall i, j :: 0 <= i < j < |GroupedBySender(es)| ==> GroupedBySender(es)[i].count >= GroupedBySender(es)[j].count
    ensures forall v :: StableSort.WithKey(GroupedBySender(es), GroupCount, v) == StableSort.WithKey(Groups(es), GroupCount, v)
  {
    var out := GroupedBySender(es);
    StableSort.SortDescFacts(Groups(es), GroupCount);
    Grouping.KeysFacts(es, EmailSender);
    assert StableSort.DistinctElems(Groups(es));
    StableSort.SortDescDistinct(Groups(es), GroupCount);
    GroupedMembers(es);
    forall i, j | 0 <= i < j < |out| ensures out[i].sender != out[j].sender {
      assert out[i] in out && out[j] in out;
    }
  }

  /** A group's category is the category of its sender's first email. */
  lemma GroupedBySenderFirstCategory(es: seq<Email>, g: Group, i: nat)
    requires g in GroupedBySender(es)
    requires i < |es| && es[i].sender == g.sender
    requires forall j :: 0 <= j < i ==> es[j].sender != g.sender
    ensures g.category == es[i].category
  {
    GroupedMembers(es);
    Grouping.WithFirst(es, EmailSender, i);
  }

  // ---------------------------------------------------------------------
  // The component

  const MockEmails: seq<Email> := [
    Email("1", "newsletter@shopping.com", "Flash Sale - 50% Off Everything!", "2025-01-15", Promotional),
    Email("2", "notifications@facebook.com", "You have 5 new notifications", "2025-01-14", Social),
    Email("3", "no-reply@amazon.com", "Your order has shipped", "2025-01-14", Transactional),
    Email("4", "newsletter@shopping.com", "New Arrivals This Week", "2025-01-13", Promotional),
    Email("5", "team@slack.com", "Weekly digest from your workspace", "2025-01-12", Work),
    Email("6", "support@github.com", "Security alert for your account", "2025-01-12", Security),
    Email("7", "notifications@linkedin.com", "Someone viewed your profile", "2025-01-11", Social),
    Email("8", "newsletter@shopping.com", "Weekend Special Offers", "2025-01-10", Promotional),
    Email("9", "billing@netflix.com", "Your monthly subscription receipt", "2025-01-09", Billing),
    Email("10", "notifications@facebook.com", "Weekly summary", "2025-01-08", Social)
  ]

  // The fold over the sample data, one email at a time: the senders seen so
  // far, and how many emails each of the seven senders has, after the first
  // `n` emails.

  lemma MockSnoc(n: nat)
    requires 0 < n <= |MockEmails|
    ensures MockEmails[..n] == MockEmails[..n - 1] + [MockEmails[n - 1]]
  {
  }

  lemma MockKeys1()
    ensures Grouping.Keys(MockEmails[..1], EmailSender) == ["newsletter@shopping.com"]
  {
    assert MockEmails[..0] == [];
    MockSnoc(1);
    Grouping.KeysSnoc(MockEmails[..0], MockEmails[0], EmailSender);
  }

  lemma MockKeys2()
    ensures Grouping.Keys(MockEmails[..2], EmailSender) == ["newsletter@shopping.com", "notifications@facebook.com"]
  {
    MockKeys1();
    MockSnoc(2);
    Grouping.KeysSnoc(MockEmails[..1], MockEmails[1], EmailSender);
  }

  lemma MockKeys3()
    ensures Grouping.Keys(MockEmails[..3], EmailSender) == ["newsletter@shopping.com", "notifications@facebook.com", "no-reply@amazon.com"]
  {
    MockKeys2();
    MockSnoc(3);
    Grouping.KeysSnoc(MockEmails[..2], MockEmails[2], EmailSender);
  }

  lemma MockKeys4()
    ensures Grouping.Keys(MockEmails[..4], EmailSender) == ["newsletter@shopping.com", "notifications@facebook.com", "no-reply@amazon.com"]
  {
    MockKeys3();
    MockSnoc(4);
    Grouping.KeysSnoc(MockEmails[..3], MockEmails[3], EmailSender);
  }

  lemma MockKeys5()
    ensures Grouping.Keys(MockEmails[..5], EmailSender) == ["newsletter@shopping.com", "notifications@facebook.com", "no-reply@amazon.com", "team@slack.com"]
  {
    MockKeys4();
    MockSnoc(5);
    Grouping.KeysSnoc(MockEmails[..4], MockEmails[4], EmailSender);
  }

  lemma MockKeys6()
    ensures Grouping.Keys(MockEmails[..6], EmailSender) == ["newsletter@shopping.com", "notifications@facebook.com", "no-reply@amazon.com", "team@slack.com", "support@github.com"]
  {
    MockKeys5();
    MockSnoc(6);
    Grouping.KeysSnoc(MockEmails[..5], MockEmails[5], EmailSender);
  }

  lemma MockKeys7()
    ensures Grouping.Keys(MockEmails[..7], EmailSender) == ["newsletter@shopping.com", "notifications@facebook.com", "no-reply@amazon.com", "team@slack.com", "support@github.com", "notifications@linkedin.com"]
  {
    MockKeys6();
    MockSnoc(7);
    Grouping.KeysSnoc(MockEmails[..6], MockEmails[6], EmailSender);
  }

  lemma MockKeys8()
    ensures Grouping.Keys(MockEmails[..8], EmailSender) == ["newsletter@shopping.com", "notifications@facebook.com", "no-reply@amazon.com", "team@slack.com", "support@github.com", "notifications@linkedin.com"]
  {
    MockKeys7();
    MockSnoc(8);
    Grouping.KeysSnoc(MockEmails[..7], MockEmails[7], EmailSender);
  }

  lemma MockKeys9()
    ensures Grouping.Keys(MockEmails[..9], EmailSender) == ["newsletter@shopping.com", "notifications@facebook.com", "no-reply@amazon.com", "team@slack.com", "support@github.com", "notifications@linkedin.com", "billing@netflix.com"]
  {
    MockKeys8();
    MockSnoc(9);
    Grouping.KeysSnoc(MockEmails[..8], MockEmails[8], EmailSender);
  }

  lemma MockKeys10()
    ensures Grouping.Keys(MockEmails[..10], EmailSender) == ["newsletter@shopping.com", "notifications@facebook.com", "no-reply@amazon.com", "team@slack.com", "support@github.com", "notifications@linkedin.com", "billing@netflix.com"]
  {
    MockKeys9();
    MockSnoc(10);
    Grouping.KeysSnoc(MockEmails[..9], MockEmails[9], EmailSender);
  }

  lemma MockCounts1()
    ensures |Grouping.With(MockEmails[..1], EmailSender, MockSenders[0])| == 1
    ensures |Grouping.With(MockEmails[..1], EmailSender, MockSenders[1])| == 0
    ensures |Grouping.With(MockEmails[..1], EmailSender, MockSenders[2])| == 0
    ensures |Grouping.With(MockEmails[..1], EmailSender, MockSenders[3])| == 0
    ensures |Grouping.With(MockEmails[..1], EmailSender, MockSenders[4])| == 0
    ensures |Grouping.With(MockEmails[..1], EmailSender, MockSenders[5])| == 0
    ensures |Grouping.With(MockEmails[..1], EmailSender, MockSenders[6])| == 0
  {
    assert MockEmails[..0] == [];
    MockSnoc(1);
    forall k | k in MockSenders
      ensures Grouping.With(MockEmails[..1], EmailSender, k) ==
        Grouping.With(MockEmails[..0], EmailSender, k) + (if MockEmails[0].sender == k then [MockEmails[0]] else [])
    {
      Grouping.WithSnoc(MockEmails[..0], MockEmails[0], EmailSender, k);
    }
  }

  lemma MockCounts2()
    ensures |Grouping.With(MockEmails[..2], EmailSender, MockSenders[0])| == 1
    ensures |Grouping.With(MockEmails[..2], EmailSender, MockSenders[1])| == 1
    ensures |Grouping.With(MockEmails[..2], EmailSender, MockSenders[2])| == 0
    ensures |Grouping.With(MockEmails[..2], EmailSender, MockSenders[3])| == 0
    ensures |Grouping.With(MockEmails[..2], EmailSender, MockSenders[4])| == 0
    ensures |Grouping.With(MockEmails[..2], EmailSender, MockSenders[5])| == 0
    ensures |Grouping.With(MockEmails[..2], EmailSender, MockSenders[6])| == 0
  {
    MockCounts1();
    MockSnoc(2);
    forall k | k in MockSenders
      ensures Grouping.With(MockEmails[..2], EmailSender, k) ==
        Grouping.With(MockEmails[..1], EmailSender, k) + (if MockEmails[1].sender == k then [MockEmails[1]] else [])
    {
      Grouping.WithSnoc(MockEmails[..1], MockEmails[1], EmailSender, k);
    }
  }

  lemma MockCounts3()
    ensures |Grouping.With(MockEmails[..3], EmailSender, MockSenders[0])| == 1
    ensures |Grouping.With(MockEmails[..3], EmailSender, MockSenders[1])| == 1
    ensures |Grouping.With(MockEmails[..3], EmailSender, MockSenders[2])| == 1
    ensures |Grouping.With(MockEmails[..3], EmailSender, MockSenders[3])| == 0
    ensures |Grouping.With(MockEmails[..3], EmailSender, MockSenders[4])| == 0
    ensures |Grouping.With(MockEmails[..3], EmailSender, MockSenders[5])| == 0
    ensures |Grouping.With(MockEmails[..3], EmailSender, MockSenders[6])| == 0
  {
    MockCounts2();
    MockSnoc(3);
    forall k | k in MockSenders
      ensures Grouping.With(MockEmails[..3], EmailSender, k) ==
        Grouping.With(MockEmails[..2], EmailSender, k) + (if MockEmails[2].sender == k then [MockEmails[2]] else [])
    {
      Grouping.WithSnoc(MockEmails[..2], MockEmails[2], EmailSender, k);
    }
  }

  lemma MockCounts4()
    ensures |Grouping.With(MockEmails[..4], EmailSender, MockSenders[0])| == 2
    ensures |Grouping.With(MockEmails[..4], EmailSender, MockSenders[1])| == 1
    ensures |Grouping.With(MockEmails[..4], EmailSender, MockSenders[2])| == 1
    ensures |Grouping.With(MockEmails[..4], EmailSender, MockSenders[3])| == 0
    ensures |Grouping.With(MockEmails[..4], EmailSender, MockSenders[4])| == 0
    ensures |Grouping.With(MockEmails[..4], EmailSender, MockSenders[5])| == 0
    ensures |Grouping.With(MockEmails[..4], EmailSender, MockSenders[6])| == 0
  {
    MockCounts3();
    MockSnoc(4);
    forall k | k in MockSenders
      ensures Grouping.With(MockEmails[..4], EmailSender, k) ==
        Grouping.With(MockEmails[..3], EmailSender, k) + (if MockEmails[3].sender == k then [MockEmails[3]] else [])
    {
      Grouping.WithSnoc(MockEmails[..3], MockEmails[3], EmailSender, k);
    }
  }

  lemma MockCounts5()
    ensures |Grouping.With(MockEmails[..5], EmailSender, MockSenders[0])| == 2
    ensures |Grouping.With(MockEmails[..5], EmailSender, MockSenders[1])| == 1
    ensures |Grouping.With(MockEmails[..5], EmailSender, MockSenders[2])| == 1
    ensures |Grouping.With(MockEmails[..5], EmailSender, MockSenders[3])| == 1
    ensures |Grouping.With(MockEmails[..5], EmailSender, MockSenders[4])| == 0
    ensures |Grouping.With(MockEmails[..5], EmailSender, MockSenders[5])| == 0
    ensures |Grouping.With(MockEmails[..5], EmailSender, MockSenders[6])| == 0
  {
    MockCounts4();
    MockSnoc(5);
    forall k | k in MockSenders
      ensures Grouping.With(MockEmails[..5], EmailSender, k) ==
        Grouping.With(MockEmails[..4], EmailSender, k) + (if MockEmails[4].sender == k then [MockEmails[4]] else [])
    {
      Grouping.WithSnoc(MockEmails[..4], MockEmails[4], EmailSender, k);
    }
  }

  lemma MockCounts6()
    ensures |Grouping.With(MockEmails[..6], EmailSender, MockSenders[0])| == 2
    ensures |Grouping.With(MockEmails[..6], EmailSender, MockSenders[1])| == 1
    ensures |Grouping.With(MockEmails[..6], EmailSender, MockSenders[2])| == 1
    ensures |Grouping.With(MockEmails[..6], EmailSender, MockSenders[3])| == 1
    ensures |Grouping.With(MockEmails[..6], EmailSender, MockSenders[4])| == 1
    ensures |Grouping.With(MockEmails[..6], EmailSender, MockSenders[5])| == 0
    ensures |Grouping.With(MockEmails[..6], EmailSender, MockSenders[6])| == 0
  {
    MockCounts5();
    MockSnoc(6);
    forall k | k in MockSenders
      ensures Grouping.With(MockEmails[..6], EmailSender, k) ==
        Grouping.With(MockEmails[..5], EmailSender, k) + (if MockEmails[5].sender == k then [MockEmails[5]] else [])
    {
      Grouping.WithSnoc(MockEmails[..5], MockEmails[5], EmailSender, k);
    }
  }

  lemma MockCounts7()
    ensures |Grouping.With(MockEmails[..7], EmailSender, MockSenders[0])| == 2
    ensures |Grouping.With(MockEmails[..7], EmailSender, MockSenders[1])| == 1
    ensures |Grouping.With(MockEmails[..7], EmailSender, MockSenders[2])| == 1
    ensures |Grouping.With(MockEmails[..7], EmailSender, MockSenders[3])| == 1
    ensures |Grouping.With(MockEmails[..7], EmailSender, MockSenders[4])| == 1
    ensures |Grouping.With(MockEmails[..7], EmailSender, MockSenders[5])| == 1
    ensures |Grouping.With(MockEmails[..7], EmailSender, MockSenders[6])| == 0
  {
    MockCounts6();
    MockSnoc(7);
    forall k | k in MockSenders
      ensures Grouping.With(MockEmails[..7], EmailSender, k) ==
        Grouping.With(MockEmails[..6], EmailSender, k) + (if MockEmails[6].sender == k then [MockEmails[6]] else [])
    {
      Grouping.WithSnoc(MockEmails[..6], MockEmails[6], EmailSender, k);
    }
  }

  lemma MockCounts8()
    ensures |Grouping.With(MockEmails[..8], EmailSender, MockSenders[0])| == 3
    ensures |Grouping.With(MockEmails[..8], EmailSender, MockSenders[1])| == 1
    ensures |Grouping.With(MockEmails[..8], EmailSender, MockSenders[2])| == 1
    ensures |Grouping.With(MockEmails[..8], EmailSender, MockSenders[3])| == 1
    ensures |Grouping.With(MockEmails[..8], EmailSender, MockSenders[4])| == 1
    ensures |Grouping.With(MockEmails[..8], EmailSender, MockSenders[5])| == 1
    ensures |Grouping.With(MockEmails[..8], EmailSender, MockSenders[6])| == 0
  {
    MockCounts7();
    MockSnoc(8);
    forall k | k in MockSenders
      ensures Grouping.With(MockEmails[..8], EmailSender, k) ==
        Grouping.With(MockEmails[..7], EmailSender, k) + (if MockEmails[7].sender == k then [MockEmails[7]] else [])
    {
      Grouping.WithSnoc(MockEmails[..7], MockEmails[7], EmailSender, k);
    }
  }

  lemma MockCounts9()
    ensures |Grouping.With(MockEmails[..9], EmailSender, MockSenders[0])| == 3
    ensures |Grouping.With(MockEmails[..9], EmailSender, MockSenders[1])| == 1
    ensures |Grouping.With(MockEmails[..9], EmailSender, MockSenders[2])| == 1
    ensures |Grouping.With(MockEmails[..9], EmailSender, MockSenders[3])| == 1
    ensures |Grouping.With(MockEmails[..9], EmailSender, MockSenders[4])| == 1
    ensures |Grouping.With(MockEmails[..9], EmailSender, MockSenders[5])| == 1
    ensures |Grouping.With(MockEmails[..9], EmailSender, MockSenders[6])| == 1
  {
    MockCounts8();
    MockSnoc(9);
    forall k | k in MockSenders
      ensures Grouping.With(MockEmails[..9], EmailSender, k) ==
        Grouping.With(MockEmails[..8], EmailSender, k) + (if MockEmails[8].sender == k then [MockEmails[8]] else [])
    {
      Grouping.WithSnoc(MockEmails[..8], MockEmails[8], EmailSender, k);
    }
  }

  lemma MockCounts10()
    ensures |Grouping.With(MockEmails[..10], EmailSender, MockSenders[0])| == 3
    ensures |Grouping.With(MockEmails[..10], EmailSender, MockSenders[1])| == 2
    ensures |Grouping.With(MockEmails[..10], EmailSender, MockSenders[2])| == 1
    ensures |Grouping.With(MockEmails[..10], EmailSender, MockSenders[3])| == 1
    ensures |Grouping.With(MockEmails[..10], EmailSender, MockSenders[4])| == 1
    ensures |Grouping.With(MockEmails[..10], EmailSender, MockSenders[5])| == 1
    ensures |Grouping.With(MockEmails[..10], EmailSender, MockSenders[6])| == 1
  {
    MockCounts9();
    MockSnoc(10);
    forall k | k in MockSenders
      ensures Grouping.With(MockEmails[..10], EmailSender, k) ==
        Grouping.With(MockEmails[..9], EmailSender, k) + (if MockEmails[9].sender == k then [MockEmails[9]] else [])
    {
      Grouping.WithSnoc(MockEmails[..9], MockEmails[9], EmailSender, k);
    }
  }

  /** The senders of the sample data in first-seen order, and their counts. */
  const MockSenders: seq<string> := ["newsletter@shopping.com", "notifications@facebook.com", "no-reply@amazon.com", "team@slack.com", "support@github.com", "notifications@linkedin.com", "billing@netflix.com"]
  const MockCounts: seq<int> := [3, 2, 1, 1, 1, 1, 1]

  /** The groups of the sample data before sorting, in first-seen order. */
  lemma MockGroupsUnsorted()
    ensures |Groups(MockEmails)| == 7
    ensures forall j :: 0 <= j < 7 ==> Groups(MockEmails)[j].sender == MockSenders[j] && Groups(MockEmails)[j].count == MockCounts[j]
  {
    var e := MockEmails;
    MockKeys10();
    MockCounts10();
    assert e[..10] == e;
    assert Grouping.Keys(e, EmailSender) == MockSenders;
    var gs := Groups(e);
    forall j | 0 <= j < 7 ensures gs[j].sender == MockSenders[j] && gs[j].count == MockCounts[j] {
      assert gs[j] == GroupOf(e, MockSenders[j]);
    }
  }

  /** On the sample data the newsletter comes first with 3 emails, then
      the Facebook notifications with 2, then the five single-email senders
      in the order they first appear, the sort being stable. */
  lemma MockGroupsExample()
    ensures |GroupedBySender(MockEmails)| == 7
    ensures forall j :: 0 <= j < 7 ==>
      GroupedBySender(MockEmails)[j].sender == MockSenders[j] && GroupedBySender(MockEmails)[j].count == MockCounts[j]
  {
    var gs := Groups(MockEmails);
    MockGroupsUnsorted();
    forall i, j | 0 <= i < j < |gs| ensures GroupCount(gs[i]) >= GroupCount(gs[j]) {
      if i > 0 {
        assert MockCounts[j] == 1;
      }
    }
    StableSort.SortDescOfSorted(gs, GroupCount);
    assert GroupedBySender(MockEmails) == gs;
  }

  /** The state of `GmailManagerApp` in `app.tsx`. */
  class MockInbox {
    var emails: seq<Email>
    var senderGroups: seq<Group>
    var selectedSenders: set<string>
    var searchTerm: string
    var filterType: string
    var aiAnalysis: string

    /** The groups on screen always come from the current email list. */
    ghost predicate Valid()
      reads this
    {
      senderGroups == GroupedBySender(emails)
    }

    /** The `useState` initial values. */
    constructor ()
      ensures emails == [] && senderGroups == [] && selectedSenders == {}
      ensures searchTerm == "" && filterType == "all" && aiAnalysis == ""
      ensures Valid()
    {
      emails := [];
      senderGroups := [];
      selectedSenders := {};
      searchTerm := "";
      filterType := "all";
      aiAnalysis := "";
    }

    /** The mount effect: load the sample emails and group them. */
    method LoadMockEmails()
      modifies this
      ensures emails == MockEmails && Valid()
      ensures selectedSenders == old(selectedSenders) && searchTerm == old(searchTerm)
      ensures filterType == old(filterType) && aiAnalysis == old(aiAnalysis)
    {
      emails := MockEmails;
      senderGroups := GroupBySender(MockEmails);
    }

    function FilteredGroupsNow(): seq<Group>
      reads this
    {
      FilteredGroups(senderGroups, GroupSender, GroupCategory, searchTerm, filterType)
    }

    function SelectedEmailCountNow(): nat
      reads this
    {
      SelectedEmailCount(emails, selectedSenders)
    }

    /** `toggleSenderSelection(sender)`. */
    method ToggleSenderSelection(sender: string)
      requires Valid()
      modifies this
      ensures Valid()
      ensures selectedSenders == Toggled(old(selectedSenders), sender)
      ensures emails == old(emails) && senderGroups == old(senderGroups)
      ensures searchTerm == old(searchTerm) && filterType == old(filterType) && aiAnalysis == old(aiAnalysis)
    {
      selectedSenders := Toggled(selectedSenders, sender);
    }

    /** `selectAllSenders()`: exactly the senders of the visible groups. */
    method SelectAllSenders()
      requires Valid()
      modifies this
      ensures Valid()
      ensures selectedSenders == SendersOf(old(FilteredGroupsNow()), GroupSender)
      ensures emails == old(emails) && senderGroups == old(senderGroups)
      ensures searchTerm == old(searchTerm) && filterType == old(filterType) && aiAnalysis == old(aiAnalysis)
    {
      selectedSenders := SendersOf(FilteredGroupsNow(), GroupSender);
    }

    /** `deselectAll()`. */
    method DeselectAll()
      requires Valid()
      modifies this
      ensures Valid()
      ensures selectedSenders == {}
      ensures emails == old(emails) && senderGroups == old(senderGroups)
      ensures searchTerm == old(searchTerm) && filterType == old(filterType) && aiAnalysis == old(aiAnalysis)
    {
      selectedSenders := {};
    }

    /** `deleteSelectedEmails()`: keeps the emails of unselected senders,
      regroups them and clears the selection; answers the two numbers of
      the alert. */
    method DeleteSelectedEmails() returns (deletedCount: nat, senderCount: nat)
      modifies this
      ensures emails == RemainingEmails(old(emails), old(selectedSenders))
      ensures Valid() && selectedSenders == {}
      ensures deletedCount == SelectedEmailCount(old(emails), old(selectedSenders))
      ensures senderCount == |old(selectedSenders)|
      ensures searchTerm == old(searchTerm) && filterType == old(filterType) && aiAnalysis == old(aiAnalysis)
    {
      var toDelete := SelectedEmails(emails, selectedSenders);
      var remaining := RemainingEmails(emails, selectedSenders);
      emails := remaining;
      senderGroups := GroupBySender(remaining);
      deletedCount := |toDelete|;
      senderCount := |selectedSenders|;
      selectedSenders := {};
    }
  }

  /** After a delete, no group on screen belongs to a sender that was
      selected, and every remaining email is still grouped. */
  lemma DeleteLeavesNoSelectedSender(emails: seq<Email>, selection: set<string>)
    ensures forall g :: g in GroupedBySender(RemainingEmails(emails, selection)) ==> g.sender !in selection
    ensures StableSort.KeySum(GroupedBySender(RemainingEmails(emails, selection)), GroupCount) ==
      |emails| - SelectedEmailCount(emails, selection)
  {
    var rest := RemainingEmails(emails, selection);
    SelectionMembers(emails, selection);
    SelectionPartition(emails, selection);
    GroupedBySenderContents(rest);
    GroupedMembers(rest);
    forall g | g in GroupedBySender(rest) ensures g.sender !in selection {
      Grouping.KeysFacts(rest, EmailSender);
      var i :| 0 <= i < |rest| && EmailSender(rest[i]) == g.sender;
      assert rest[i] in rest;
    }
  }
}

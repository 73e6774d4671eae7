/** The backend routes of `backend/src/routes/gmail.ts`: the sender
    categoriser, the `/senders` aggregation and the `/delete` loop. Every
    Gmail call goes through the store functions of `GmailStore`, one call
    after another in list order. */
module GmailRoutes {
  import opened Wrappers
  import opened Text
  import opened CategoryRules
  import opened GmailStore
  import SenderAddress
  import Grouping
  import StableSort

  // ---------------------------------------------------------------------
  // categorizeSender

  /** The backend's rule chain as data, in its order of precedence. */
  const BackendRules: seq<Rule> := [
    Rule(Promotional, ["newsletter", "promo", "marketing"], ["sale", "offer", "discount"]),
    Rule(Social, ["facebook", "twitter", "linkedin", "instagram", "notification"], []),
    Rule(Billing, ["billing", "invoice", "receipt"], ["payment"]),
    Rule(Security, [], ["security", "alert", "verify", "suspicious"]),
    Rule(Transactional, ["no-reply", "noreply"], ["confirmation", "order"])
  ]

  /** `categorizeSender(email, subject)`. */
  function CategorizeSender(email: string, subject: string): (r: string)
    ensures r in Labels
  {
    var e := Lower(email);
    var s := Lower(subject);
    if Contains(e, "newsletter") || Contains(e, "promo") || Contains(e, "marketing") ||
       Contains(s, "sale") || Contains(s, "offer") || Contains(s, "discount") then Promotional
    else if Contains(e, "facebook") || Contains(e, "twitter") || Contains(e, "linkedin") ||
            Contains(e, "instagram") || Contains(e, "notification") then Social
    else if Contains(e, "billing") || Contains(e, "invoice") || Contains(e, "receipt") ||
            Contains(s, "payment") then Billing
    else if Contains(s, "security") || Contains(s, "alert") || Contains(s, "verify") ||
            Contains(s, "suspicious") then Security
    else if Contains(e, "no-reply") || Contains(e, "noreply") ||
            Contains(s, "confirmation") || Contains(s, "order") then Transactional
    else Work
  }

  /** The `if` chain is the rule table evaluated first-match-wins, with `work`
      as the fallback; hence `work` exactly when no rule fires, and otherwise
      the label of the first rule that fires. */
  lemma CategorizeSenderIsFirstMatch(email: string, subject: string)
    ensures CategorizeSender(email, subject) == FirstMatch(BackendRules, Lower(email), Lower(subject), Work)
    ensures CategorizeSender(email, subject) == Work <==> NoneFires(BackendRules, Lower(email), Lower(subject))
    ensures forall k :: WinsAt(BackendRules, Lower(email), Lower(subject), k) ==>
      CategorizeSender(email, subject) == BackendRules[k].category
  {
    var e := Lower(email);
    var s := Lower(subject);
    PromotionalRuleFires(e, s);
    SocialRuleFires(e, s);
    BillingRuleFires(e, s);
    SecurityRuleFires(e, s);
    TransactionalRuleFires(e, s);
    var r := BackendRules;
    assert FirstMatch(r[4..], e, s, Work) == if Fires(r[4], e, s) then Transactional else Work by {
      assert r[4..][1..] == [];
    }
    assert FirstMatch(r[3..], e, s, Work) == if Fires(r[3], e, s) then Security else FirstMatch(r[4..], e, s, Work) by {
      assert r[3..][1..] == r[4..];
    }
    assert FirstMatch(r[2..], e, s, Work) == if Fires(r[2], e, s) then Billing else FirstMatch(r[3..], e, s, Work) by {
      assert r[2..][1..] == r[3..];
    }
    assert FirstMatch(r[1..], e, s, Work) == if Fires(r[1], e, s) then Social else FirstMatch(r[2..], e, s, Work) by {
      assert r[1..][1..] == r[2..];
    }
    FirstMatchWinner(r, e, s, Work);
    if !NoneFires(r, e, s) {
      var k :| WinsAt(r, e, s, k);
      assert r[k].category != Work;
    }
  }

  /** Each rule of the table fires exactly when its clause of the `if`
      chain holds. */
  lemma PromotionalRuleFires(e: string, s: string)
    ensures Fires(BackendRules[0], e, s) <==> (Contains(e, "newsletter") || Contains(e, "promo") || Contains(e, "marketing") || Contains(s, "sale") || Contains(s, "offer") || Contains(s, "discount"))
  {
    assert ContainsAny(e, ["newsletter", "promo", "marketing"]) == (Contains(e, "newsletter") || ContainsAny(e, ["promo", "marketing"])) by {
      assert ["newsletter", "promo", "marketing"][1..] == ["promo", "marketing"];
    }
    assert ContainsAny(e, ["promo", "marketing"]) == (Contains(e, "promo") || ContainsAny(e, ["marketing"])) by {
      assert ["promo", "marketing"][1..] == ["marketing"];
    }
    assert ContainsAny(e, ["marketing"]) == (Contains(e, "marketing") || ContainsAny(e, [])) by {
      assert ["marketing"][1..] == [];
    }
    assert ContainsAny(s, ["sale", "offer", "discount"]) == (Contains(s, "sale") || ContainsAny(s, ["offer", "discount"])) by {
      assert ["sale", "offer", "discount"][1..] == ["offer", "discount"];
    }
    assert ContainsAny(s, ["offer", "discount"]) == (Contains(s, "offer") || ContainsAny(s, ["discount"])) by {
      assert ["offer", "discount"][1..] == ["discount"];
    }
    assert ContainsAny(s, ["discount"]) == (Contains(s, "discount") || ContainsAny(s, [])) by {
      assert ["discount"][1..] == [];
    }
  }

  lemma SocialRuleFires(e: string, s: string)
    ensures Fires(BackendRules[1], e, s) <==> (Contains(e, "facebook") || Contains(e, "twitter") || Contains(e, "linkedin") || Contains(e, "instagram") || Contains(e, "notification"))
  {
    assert ContainsAny(e, ["facebook", "twitter", "linkedin", "instagram", "notification"]) == (Contains(e, "facebook") || ContainsAny(e, ["twitter", "linkedin", "instagram", "notification"])) by {
      assert ["facebook", "twitter", "linkedin", "instagram", "notification"][1..] == ["twitter", "linkedin", "instagram", "notification"];
    }
    assert ContainsAny(e, ["twitter", "linkedin", "instagram", "notification"]) == (Contains(e, "twitter") || ContainsAny(e, ["linkedin", "instagram", "notification"])) by {
      assert ["twitter", "linkedin", "instagram", "notification"][1..] == ["linkedin", "instagram", "notification"];
    }
    assert ContainsAny(e, ["linkedin", "instagram", "notification"]) == (Contains(e, "linkedin") || ContainsAny(e, ["instagram", "notification"])) by {
      assert ["linkedin", "instagram", "notification"][1..] == ["instagram", "notification"];
    }
    assert ContainsAny(e, ["instagram", "notification"]) == (Contains(e, "instagram") || ContainsAny(e, ["notification"])) by {
      assert ["instagram", "notification"][1..] == ["notification"];
    }
    assert ContainsAny(e, ["notification"]) == (Contains(e, "notification") || ContainsAny(e, [])) by {
      assert ["notification"][1..] == [];
    }
  }

  lemma BillingRuleFires(e: string, s: string)
    ensures Fires(BackendRules[2], e, s) <==> (Contains(e, "billing") || Contains(e, "invoice") || Contains(e, "receipt") || Contains(s, "payment"))
  {
    assert ContainsAny(e, ["billing", "invoice", "receipt"]) == (Contains(e, "billing") || ContainsAny(e, ["invoice", "receipt"])) by {
      assert ["billing", "invoice", "receipt"][1..] == ["invoice", "receipt"];
    }
    assert ContainsAny(e, ["invoice", "receipt"]) == (Contains(e, "invoice") || ContainsAny(e, ["receipt"])) by {
      assert ["invoice", "receipt"][1..] == ["receipt"];
    }
    assert ContainsAny(e, ["receipt"]) == (Contains(e, "receipt") || ContainsAny(e, [])) by {
      assert ["receipt"][1..] == [];
    }
    assert ContainsAny(s, ["payment"]) == (Contains(s, "payment") || ContainsAny(s, [])) by {
      assert ["payment"][1..] == [];
    }
  }

  lemma SecurityRuleFires(e: string, s: string)
    ensures Fires(BackendRules[3], e, s) <==> (Contains(s, "security") || Contains(s, "alert") || Contains(s, "verify") || Contains(s, "suspicious"))
  {
    assert ContainsAny(s, ["security", "alert", "verify", "suspicious"]) == (Contains(s, "security") || ContainsAny(s, ["alert", "verify", "suspicious"])) by {
      assert ["security", "alert", "verify", "suspicious"][1..] == ["alert", "verify", "suspicious"];
    }
    assert ContainsAny(s, ["alert", "verify", "suspicious"]) == (Contains(s, "alert") || ContainsAny(s, ["verify", "suspicious"])) by {
      assert ["alert", "verify", "suspicious"][1..] == ["verify", "suspicious"];
    }
    assert ContainsAny(s, ["verify", "suspicious"]) == (Contains(s, "verify") || ContainsAny(s, ["suspicious"])) by {
      assert ["verify", "suspicious"][1..] == ["suspicious"];
    }
    assert ContainsAny(s, ["suspicious"]) == (Contains(s, "suspicious") || ContainsAny(s, [])) by {
      assert ["suspicious"][1..] == [];
    }
  }

  lemma TransactionalRuleFires(e: string, s: string)
    ensures Fires(BackendRules[4], e, s) <==> (Contains(e, "no-reply") || Contains(e, "noreply") || Contains(s, "confirmation") || Contains(s, "order"))
  {
    assert ContainsAny(e, ["no-reply", "noreply"]) == (Contains(e, "no-reply") || ContainsAny(e, ["noreply"])) by {
      assert ["no-reply", "noreply"][1..] == ["noreply"];
    }
    assert ContainsAny(e, ["noreply"]) == (Contains(e, "noreply") || ContainsAny(e, [])) by {
      assert ["noreply"][1..] == [];
    }
    assert ContainsAny(s, ["confirmation", "order"]) == (Contains(s, "confirmation") || ContainsAny(s, ["order"])) by {
      assert ["confirmation", "order"][1..] == ["order"];
    }
    assert ContainsAny(s, ["order"]) == (Contains(s, "order") || ContainsAny(s, [])) by {
      assert ["order"][1..] == [];
    }
  }

  /** Categorisation depends only on the lower-cased inputs. */
  lemma CategorizeSenderCaseInsensitive(email: string, subject: string)
    ensures CategorizeSender(Lower(email), Lower(subject)) == CategorizeSender(email, subject)
  {
    LowerIdempotent(email);
    LowerIdempotent(subject);
  }

  /** A newsletter address wins over a billing subject: the promotional rule
      comes first. */
  lemma CategorizeSenderNewsletterBeatsBilling()
    ensures CategorizeSender("newsletter@x.com", "Payment Due") == Promotional
    ensures Contains(Lower("Payment Due"), "payment")
  {
    var e := Lower("newsletter@x.com");
    assert e == "newsletter@x.com";
    assert e[..10] == "newsletter";
    var s := Lower("Payment Due");
    assert s == "payment due";
    assert s[..7] == "payment";
  }

  // ---------------------------------------------------------------------
  // Reading a fetched message

  /** `headers.find(h => h.name === name)?.value || dflt`: an absent or
      empty header gives the default. */
  function HeaderOr(headers: seq<Header>, name: string, dflt: string): string
  {
    match HeaderValue(headers, name)
    case Some(v) => if v == "" then dflt else v
    case None => dflt
  }

  /** The metadata the routes read from one fetched message. */
  datatype Fetched = Fetched(id: string, from: string, subject: string, date: string)

  function Describe(id: string, m: StoredMessage): Fetched
  {
    Fetched(id, HeaderOr(m.headers, "From", "Unknown"), HeaderOr(m.headers, "Subject", "No Subject"),
            HeaderOr(m.headers, "Date", ""))
  }

  function SenderOf(f: Fetched): string
  {
    SenderAddress.ExtractAddress(f.from)
  }

  /** A message without a `From` header is grouped under `Unknown`. */
  lemma MissingFromIsUnknown(id: string, m: StoredMessage)
    requires HeaderValue(m.headers, "From").None?
    ensures Describe(id, m).from == "Unknown"
    ensures SenderOf(Describe(id, m)) == "Unknown"
  {
    var s := "Unknown";
    assert SenderAddress.AngleFrom(s, 0) == SenderAddress.AngleFrom(s, 1);
    assert SenderAddress.AngleFrom(s, 1) == SenderAddress.AngleFrom(s, 2);
    assert SenderAddress.AngleFrom(s, 2) == SenderAddress.AngleFrom(s, 3);
    assert SenderAddress.AngleFrom(s, 3) == SenderAddress.AngleFrom(s, 4);
    assert SenderAddress.AngleFrom(s, 4) == SenderAddress.AngleFrom(s, 5);
    assert SenderAddress.AngleFrom(s, 5) == SenderAddress.AngleFrom(s, 6);
    assert SenderAddress.AngleFrom(s, 6) == SenderAddress.AngleFrom(s, 7);
    assert SenderAddress.AngleFrom(s, 7).None?;
    assert SenderAddress.RunEnd(s, 0) == 7;
    assert SenderAddress.TokenFrom(s, 0) == SenderAddress.TokenFrom(s, 7);
    assert SenderAddress.TokenFrom(s, 7).None?;
  }

  /** `parseInt(req.query.maxResults) || dflt`: a missing or unparsable value
      (`NaN`) and zero fall back to the default; any other number, negative
      ones included, is passed on. */
  function MaxResultsOrDefault(parsed: Option<int>, dflt: int): int
  {
    match parsed
    case Some(n) => if n == 0 then dflt else n
    case None => dflt
  }

  /** What the defaulting means for the listing of `GET /senders`: Gmail
      is never asked for zero results; an absent, unparsable or zero value
      lists the first 500 messages; a positive value lists that many,
      still capped at 500; a negative value makes the listing fail, as a
      refused query does. */
  lemma MaxResultsListing(mb: Mailbox, maxResults: Option<int>)
    ensures MaxResultsOrDefault(maxResults, 500) != 0
    ensures List(mb, AllMessages, MaxResultsOrDefault(maxResults, 500)).Ok? <==>
      AllMessages !in mb.failingQueries && (maxResults.None? || maxResults.value >= 0)
    ensures AllMessages !in mb.failingQueries && (maxResults.None? || maxResults.value == 0) ==>
      |List(mb, AllMessages, MaxResultsOrDefault(maxResults, 500)).value| ==
        if |mb.messages| < PageLimit then |mb.messages| else PageLimit
    ensures AllMessages !in mb.failingQueries && maxResults.Some? && maxResults.value > 0 ==>
      var n := if maxResults.value < PageLimit then maxResults.value else PageLimit;
      |List(mb, AllMessages, MaxResultsOrDefault(maxResults, 500)).value| ==
        if |mb.messages| < n then |mb.messages| else n
  {
    AllMessagesCount(mb.messages);
  }

  // ---------------------------------------------------------------------
  // GET /senders

  datatype EmailRef = EmailRef(id: string, subject: string, date: string)

  datatype SenderGroup = SenderGroup(sender: string, senderFull: string, count: int, emails: seq<EmailRef>, category: string)

  function Ref(f: Fetched): EmailRef
  {
    EmailRef(f.id, f.subject, f.date)
  }

  function Refs(fs: seq<Fetched>): seq<EmailRef>
  {
    seq(|fs|, i requires 0 <= i < |fs| => Ref(fs[i]))
  }

  function Count(g: SenderGroup): int
  {
    g.count
  }

  /** The messages whose detail fetch succeeded, in list order; a failing
      `get` is skipped. */
  function FetchAll(mb: Mailbox, ids: seq<string>): seq<Fetched>
  {
    if ids == [] then []
    else
      var last := ids[|ids| - 1];
      FetchAll(mb, ids[..|ids| - 1]) +
        match Get(mb, last)
        case Ok(m) => [Describe(last, m)]
        case Err(_) => []
  }

  /** The group of sender `s`: every message of `s` in order, with the full
      `From` value and the category of the first one. */
  function GroupOf(fs: seq<Fetched>, s: string): SenderGroup
    requires s in Grouping.Keys(fs, SenderOf)
  {
    Grouping.WithMembers(fs, SenderOf, s);
    var w := Grouping.With(fs, SenderOf, s);
    SenderGroup(s, w[0].from, |w|, Refs(w), CategorizeSender(s, w[0].subject))
  }

  function GroupsFor(fs: seq<Fetched>, ks: seq<string>): (r: seq<SenderGroup>)
    requires forall k :: k in ks ==> k in Grouping.Keys(fs, SenderOf)
    ensures |r| == |ks|
    ensures forall j :: 0 <= j < |ks| ==> r[j] == GroupOf(fs, ks[j])
  {
    if ks == [] then [] else [GroupOf(fs, ks[0])] + GroupsFor(fs, ks[1..])
  }

  /** The groups in first-seen order of their senders. */
  function Groups(fs: seq<Fetched>): seq<SenderGroup>
  {
    GroupsFor(fs, Grouping.Keys(fs, SenderOf))
  }

  /** What `/senders` answers for the fetched messages. */
  function SendersOf(fs: seq<Fetched>): seq<SenderGroup>
  {
    StableSort.SortDesc(Groups(fs), Count)
  }

  /** One more message: it opens a new group with count 1, or it bumps the
      count of its sender's group and appends to its emails while the
      category and `senderFull` stay as they were; other groups do not change. */
  lemma {:induction false} GroupOfSnoc(fs: seq<Fetched>, f: Fetched, k: string)
    requires k in Grouping.Keys(fs + [f], SenderOf)
    ensures k == SenderOf(f) && k !in Grouping.Keys(fs, SenderOf) ==>
      GroupOf(fs + [f], k) == SenderGroup(k, f.from, 1, [Ref(f)], CategorizeSender(k, f.subject))
    ensures k == SenderOf(f) && k in Grouping.Keys(fs, SenderOf) ==>
      GroupOf(fs + [f], k) == GroupOf(fs, k).(count := GroupOf(fs, k).count + 1, emails := GroupOf(fs, k).emails + [Ref(f)])
    ensures k != SenderOf(f) ==> k in Grouping.Keys(fs, SenderOf) && GroupOf(fs + [f], k) == GroupOf(fs, k)
  {
    Grouping.KeysSnoc(fs, f, SenderOf);
    Grouping.WithSnoc(fs, f, SenderOf, k);
    Grouping.WithMembers(fs, SenderOf, k);
    var w := Grouping.With(fs, SenderOf, k);
    if k == SenderOf(f) {
      if k in Grouping.Keys(fs, SenderOf) {
        assert Refs(w + [f]) == Refs(w) + [Ref(f)];
      } else {
        assert w == [];
      }
    }
  }

  lemma {:induction false} FetchAllSnoc(mb: Mailbox, ids: seq<string>, i: nat)
    requires i < |ids|
    ensures FetchAll(mb, ids[..i + 1]) ==
      FetchAll(mb, ids[..i]) + match Get(mb, ids[i]) case Ok(m) => [Describe(ids[i], m)] case Err(_) => []
  {
    assert ids[..i + 1][..i] == ids[..i];
  }

  /** The keyed table after folding `fs`, as the source's `senderMap`. */
  function TableOf(fs: seq<Fetched>): map<string, SenderGroup>
  {
    map k | k in Grouping.Keys(fs, SenderOf) :: GroupOf(fs, k)
  }

  /** The entry the source creates for a sender seen for the first time. */
  function Fresh(f: Fetched): SenderGroup
  {
    SenderGroup(SenderOf(f), f.from, 0, [], CategorizeSender(SenderOf(f), f.subject))
  }

  /** `count++` and `emails.push(...)` on an entry. */
  function Bump(g: SenderGroup, f: Fetched): SenderGroup
  {
    g.(count := g.count + 1, emails := g.emails + [Ref(f)])
  }

  lemma TableOfKeys(fs: seq<Fetched>)
    ensures TableOf(fs).Keys == set k | k in Grouping.Keys(fs, SenderOf)
    ensures forall k :: k in TableOf(fs) ==> TableOf(fs)[k] == GroupOf(fs, k)
  {
  }

  /** The entry of one sender after one more message. */
  lemma TableEntrySnoc(fs: seq<Fetched>, f: Fetched, k: string)
    requires k in TableOf(fs + [f])
    ensures k != SenderOf(f) ==> k in TableOf(fs) && TableOf(fs + [f])[k] == TableOf(fs)[k]
    ensures k == SenderOf(f) && k in TableOf(fs) ==> TableOf(fs + [f])[k] == Bump(TableOf(fs)[k], f)
    ensures k == SenderOf(f) && k !in TableOf(fs) ==> TableOf(fs + [f])[k] == Bump(Fresh(f), f)
  {
    TableOfKeys(fs);
    TableOfKeys(fs + [f]);
    GroupOfSnoc(fs, f, k);
  }

  /** One fold step on the table: the sender's entry, created first if the
      sender is new, is bumped; nothing else changes. */
  lemma {:induction false} TableOfSnoc(fs: seq<Fetched>, f: Fetched)
    ensures SenderOf(f) in TableOf(fs) ==>
      TableOf(fs + [f]) == TableOf(fs)[SenderOf(f) := Bump(TableOf(fs)[SenderOf(f)], f)]
    ensures SenderOf(f) !in TableOf(fs) ==>
      TableOf(fs + [f]) == TableOf(fs)[SenderOf(f) := Bump(Fresh(f), f)]
  {
    var t := TableOf(fs);
    var s := SenderOf(f);
    var t' := TableOf(fs + [f]);
    var t2 := t[s := if s in t then Bump(t[s], f) else Bump(Fresh(f), f)];
    TableOfKeys(fs);
    TableOfKeys(fs + [f]);
    Grouping.KeysSnoc(fs, f, SenderOf);
    assert t'.Keys == t2.Keys;
    forall k | k in t' ensures t'[k] == t2[k] {
      TableEntrySnoc(fs, f, k);
    }
    assert t' == t2;
  }

  /** A fold step over an identifier whose message cannot be fetched changes nothing. */
  lemma FoldStepErr(mb: Mailbox, ids: seq<string>, i: nat)
    requires i < |ids| && Get(mb, ids[i]).Err?
    ensures FetchAll(mb, ids[..i + 1]) == FetchAll(mb, ids[..i])
  {
    FetchAllSnoc(mb, ids, i);
  }

  /** A fold step over a fetched message, stated on the order of senders
      and on the table. */
  lemma FoldStepOk(mb: Mailbox, ids: seq<string>, i: nat, fs: seq<Fetched>, f: Fetched)
    requires i < |ids| && Get(mb, ids[i]).Ok?
    requires f == Describe(ids[i], Get(mb, ids[i]).value) && fs == FetchAll(mb, ids[..i])
    ensures FetchAll(mb, ids[..i + 1]) == fs + [f]
    ensures SenderOf(f) in TableOf(fs) <==> SenderOf(f) in Grouping.Keys(fs, SenderOf)
    ensures Grouping.Keys(fs + [f], SenderOf) ==
      (if SenderOf(f) in Grouping.Keys(fs, SenderOf) then Grouping.Keys(fs, SenderOf) else Grouping.Keys(fs, SenderOf) + [SenderOf(f)])
    ensures SenderOf(f) in TableOf(fs) ==>
      TableOf(fs + [f]) == TableOf(fs)[SenderOf(f) := Bump(TableOf(fs)[SenderOf(f)], f)]
    ensures SenderOf(f) !in TableOf(fs) ==>
      TableOf(fs + [f]) == TableOf(fs)[SenderOf(f) := Bump(Fresh(f), f)]
  {
    FetchAllSnoc(mb, ids, i);
    Grouping.KeysSnoc(fs, f, SenderOf);
    TableOfKeys(fs);
    TableOfSnoc(fs, f);
  }

  /** Reading the table in key order gives the groups. */
  lemma TableValues(fs: seq<Fetched>, table: map<string, SenderGroup>, order: seq<string>)
    requires order == Grouping.Keys(fs, SenderOf) && table == TableOf(fs)
    ensures forall k :: k in order ==> k in table
    ensures seq(|order|, j requires 0 <= j < |order| => table[order[j]]) == Groups(fs)
  {
    TableOfKeys(fs);
    var values := seq(|order|, j requires 0 <= j < |order| => table[order[j]]);
    assert |values| == |Groups(fs)|;
    forall j | 0 <= j < |order| ensures values[j] == Groups(fs)[j] {
    }
  }

  /** The fold of the `/senders` route: a table keyed by sender (a `Map` in
      the source, whose insertion order is kept here as `order`). */
  method AggregateSenders(mb: Mailbox, ids: seq<string>) returns (groups: seq<SenderGroup>)
    ensures groups == SendersOf(FetchAll(mb, ids))
  {
    var table: map<string, SenderGroup> := map[];
    var order: seq<string> := [];
    var i := 0;
    while i < |ids|
      invariant 0 <= i <= |ids|
      invariant order == Grouping.Keys(FetchAll(mb, ids[..i]), SenderOf)
      invariant table == TableOf(FetchAll(mb, ids[..i]))
    {
      var got := Get(mb, ids[i]);
      if got.Ok? {
        var f := Describe(ids[i], got.value);
        ghost var fs := FetchAll(mb, ids[..i]);
        FoldStepOk(mb, ids, i, fs, f);
        var s := SenderOf(f);
        var entry := if s in table then table[s] else Fresh(f);
        if s !in table {
          order := order + [s];
        }
        table := table[s := Bump(entry, f)];
        assert table == TableOf(fs + [f]);
      } else {
        FoldStepErr(mb, ids, i);
      }
      i := i + 1;
    }
    assert ids[..|ids|] == ids;
    TableValues(FetchAll(mb, ids), table, order);
    var values := seq(|order|, j requires 0 <= j < |order| => table[order[j]]);
    groups := StableSort.SortDesc(values, Count);
  }

  lemma {:induction false} GroupsForSum(fs: seq<Fetched>, ks: seq<string>)
    requires forall k :: k in ks ==> k in Grouping.Keys(fs, SenderOf)
    ensures StableSort.KeySum(GroupsFor(fs, ks), Count) == Grouping.Sizes(ks, fs, SenderOf)
  {
    if ks != [] {
      GroupsForSum(fs, ks[1..]);
      assert GroupsFor(fs, ks)[1..] == GroupsFor(fs, ks[1..]);
    }
  }

  lemma GroupsDistinct(fs: seq<Fetched>)
    ensures StableSort.DistinctElems(Groups(fs))
  {
    Grouping.KeysFacts(fs, SenderOf);
  }

  /** Every group of the answer is the group of its own sender. */
  lemma SendersOfMembers(fs: seq<Fetched>)
    ensures forall g :: g in SendersOf(fs) ==> g.sender in Grouping.Keys(fs, SenderOf) && g == GroupOf(fs, g.sender)
  {
    StableSort.SortDescFacts(Groups(fs), Count);
    forall g | g in SendersOf(fs)
      ensures g.sender in Grouping.Keys(fs, SenderOf) && g == GroupOf(fs, g.sender)
    {
      assert g in multiset(SendersOf(fs));
      assert g in Groups(fs);
    }
  }

  /** Nothing is lost or counted twice: the counts add up to the number of
      messages whose fetch succeeded, and there is one group per sender. */
  lemma SendersOfTotal(fs: seq<Fetched>)
    ensures StableSort.KeySum(SendersOf(fs), Count) == |fs|
    ensures |SendersOf(fs)| == |Grouping.Keys(fs, SenderOf)|
  {
    StableSort.SortDescFacts(Groups(fs), Count);
    GroupsForSum(fs, Grouping.Keys(fs, SenderOf));
    Grouping.SizesOfKeys(fs, SenderOf);
  }

  /** Each count is the length of its email list, and the list holds exactly
      that sender's messages in the order they were fetched. */
  lemma SendersOfEmails(fs: seq<Fetched>)
    ensures forall g :: g in SendersOf(fs) ==>
      g.count == |g.emails| && g.emails == Refs(Grouping.With(fs, SenderOf, g.sender))
  {
    SendersOfMembers(fs);
  }

  /** Senders are distinct and come in non-increasing count order; groups
      with equal counts keep the first-seen order of their senders. */
  lemma SendersOfOrder(fs: seq<Fetched>)
    ensures forall i, j :: 0 <= i < j < |SendersOf(fs)| ==> SendersOf(fs)[i].sender != SendersOf(fs)[j].sender
    ensures forall i, j :: 0 <= i < j < |SendersOf(fs)| ==> SendersOf(fs)[i].count >= SendersOf(fs)[j].count
    ensures forall v :: StableSort.WithKey(SendersOf(fs), Count, v) == StableSort.WithKey(Groups(fs), Count, v)
  {
    var out := SendersOf(fs);
    StableSort.SortDescFacts(Groups(fs), Count);
    GroupsDistinct(fs);
    StableSort.SortDescDistinct(Groups(fs), Count);
    SendersOfMembers(fs);
    forall i, j | 0 <= i < j < |out| ensures out[i].sender != out[j].sender {
      assert out[i] in out && out[j] in out;
    }
  }

  /** A group's category and full `From` value are those of the first fetched
      message of its sender. */
  lemma SendersOfFirstSeen(fs: seq<Fetched>, g: SenderGroup, i: nat)
    requires g in SendersOf(fs)
    requires i < |fs| && SenderOf(fs[i]) == g.sender
    requires forall j :: 0 <= j < i ==> SenderOf(fs[j]) != g.sender
    ensures g.senderFull == fs[i].from
    ensures g.category == CategorizeSender(g.sender, fs[i].subject)
  {
    SendersOfMembers(fs);
    Grouping.WithFirst(fs, SenderOf, i);
  }

  datatype SendersResponse = SendersOk(senders: seq<SenderGroup>, count: int) | SendersFailed(error: string)

  /** `GET /senders`. */
  method HandleSenders(mb: Mailbox, maxResults: Option<int>) returns (resp: SendersResponse)
    ensures List(mb, AllMessages, MaxResultsOrDefault(maxResults, 500)).Err? ==>
      resp == SendersFailed("Failed to fetch senders")
    ensures List(mb, AllMessages, MaxResultsOrDefault(maxResults, 500)).Ok? ==>
      var fs := FetchAll(mb, List(mb, AllMessages, MaxResultsOrDefault(maxResults, 500)).value);
      resp == SendersOk(SendersOf(fs), |SendersOf(fs)|)
    ensures resp.SendersOk? ==> resp.count == |resp.senders|
  {
    var listed := List(mb, AllMessages, MaxResultsOrDefault(maxResults, 500));
    if listed.Err? {
      return SendersFailed("Failed to fetch senders");
    }
    if |listed.value| == 0 {
      return SendersOk([], 0);
    }
    var groups := AggregateSenders(mb, listed.value);
    resp := SendersOk(groups, |groups|);
  }

  /** An empty listing answers no senders and a count of zero, and no more
      than 500 messages are ever listed. */
  lemma SendersEmptyAndBounded(mb: Mailbox, maxResults: Option<int>)
    ensures List(mb, AllMessages, MaxResultsOrDefault(maxResults, 500)).Ok? ==>
      |List(mb, AllMessages, MaxResultsOrDefault(maxResults, 500)).value| <= PageLimit
    ensures mb.messages == [] && List(mb, AllMessages, MaxResultsOrDefault(maxResults, 500)).Ok? ==>
      SendersOf(FetchAll(mb, List(mb, AllMessages, MaxResultsOrDefault(maxResults, 500)).value)) == []
  {
  }

  // ---------------------------------------------------------------------
  // POST /delete

  /** The `senders` field of the request body: absent or falsy, some other
      non-array value, or an array. */
  datatype SendersField = Missing | NotAnArray | SenderArray(items: seq<string>)

  datatype DeleteResponse =
    | NoSendersProvided
    | DeleteOk(deletedCount: int, senderCount: int)
    | DeleteFailed

  /** The effect of one sender's list-then-delete step. */
  datatype Step = Step(removed: nat, mailbox: Mailbox)

  function DeleteOne(mb: Mailbox, sender: string): Result<Step>
  {
    match List(mb, FromSender(sender), PageLimit)
    case Err(e) => Err(e)
    case Ok(ids) =>
      if |ids| > 0 then
        match BatchDelete(mb, ids)
        case Err(e) => Err(e)
        case Ok(mb') => Ok(Step(|ids|, mb'))
      else Ok(Step(0, mb))
  }

  /** The whole loop: whether it ran to the end, how many identifiers it
      deleted (including those deleted before an error) and the mailbox
      it leaves behind. */
  datatype Run = Run(ok: bool, deleted: nat, mailbox: Mailbox)

  function RunDeletes(mb: Mailbox, senders: seq<string>): Run
    decreases |senders|
  {
    if senders == [] then Run(true, 0, mb)
    else
      match DeleteOne(mb, senders[0])
      case Err(_) => Run(false, 0, mb)
      case Ok(step) =>
        var rest := RunDeletes(step.mailbox, senders[1..]);
        Run(rest.ok, step.removed + rest.deleted, rest.mailbox)
  }

  /** `POST /delete`: the new mailbox is returned beside the response. */
  method HandleDelete(mb: Mailbox, body: SendersField) returns (resp: DeleteResponse, mb': Mailbox)
    ensures (body.Missing? || body.NotAnArray? || (body.SenderArray? && body.items == [])) ==>
      resp == NoSendersProvided && mb' == mb
    ensures body.SenderArray? && body.items != [] ==>
      var run := RunDeletes(mb, body.items);
      mb' == run.mailbox && resp == (if run.ok then DeleteOk(run.deleted, |body.items|) else DeleteFailed)
  {
    if body.Missing? || body.NotAnArray? || |body.items| == 0 {
      return NoSendersProvided, mb;
    }
    var senders := body.items;
    var deletedCount: nat := 0;
    mb' := mb;
    var i := 0;
    while i < |senders|
      invariant 0 <= i <= |senders|
      invariant var r := RunDeletes(mb', senders[i..]);
        RunDeletes(mb, senders) == Run(r.ok, deletedCount + r.deleted, r.mailbox)
    {
      assert senders[i..][1..] == senders[i + 1..];
      var listed := List(mb', FromSender(senders[i]), PageLimit);
      if listed.Err? {
        return DeleteFailed, mb';
      }
      var ids := listed.value;
      if |ids| > 0 {
        var deleted := BatchDelete(mb', ids);
        if deleted.Err? {
          return DeleteFailed, mb';
        }
        mb' := deleted.value;
        deletedCount := deletedCount + |ids|;
      }
      i := i + 1;
    }
    resp := DeleteOk(deletedCount, |senders|);
  }

  /** One sender's step deletes at most 500 messages, and a sender with no
      match deletes nothing, never calls `batchDelete` and leaves the
      mailbox as it was. */
  lemma DeleteOneFacts(mb: Mailbox, sender: string)
    ensures DeleteOne(mb, sender).Ok? ==> DeleteOne(mb, sender).value.removed <= PageLimit
    ensures FromSender(sender) !in mb.failingQueries && MatchingIds(mb.messages, FromSender(sender)) == [] ==>
      DeleteOne(mb, sender) == Ok(Step(0, mb))
    ensures DeleteOne(mb, sender).Err? <==>
      FromSender(sender) in mb.failingQueries || BatchDelete(mb, List(mb, FromSender(sender), PageLimit).value).Err?
  {
  }

  /** The counter is exactly the number of messages removed from the
      mailbox, and it never exceeds 500 per sender. */
  lemma {:induction false} RunDeletesCounts(mb: Mailbox, senders: seq<string>)
    requires DistinctIds(mb.messages)
    ensures RunDeletes(mb, senders).deleted == |mb.messages| - |RunDeletes(mb, senders).mailbox.messages|
    ensures RunDeletes(mb, senders).deleted <= PageLimit * |senders|
    ensures DistinctIds(RunDeletes(mb, senders).mailbox.messages)
    decreases |senders|
  {
    if senders != [] {
      var one := DeleteOne(mb, senders[0]);
      DeleteOneFacts(mb, senders[0]);
      if one.Ok? {
        var listed := List(mb, FromSender(senders[0]), PageLimit);
        if |listed.value| > 0 {
          BatchDeleteRemoves(mb, FromSender(senders[0]), PageLimit, one.value.mailbox);
        }
        RunDeletesCounts(one.value.mailbox, senders[1..]);
      }
    }
  }

  /** An error in a later sender's step does not undo the deletions already
      made: the mailbox keeps the effect of every completed step although
      the response reports no count. */
  lemma {:induction false} RunDeletesNoRollback(mb: Mailbox, senders: seq<string>, step: Step)
    requires |senders| >= 2
    requires DeleteOne(mb, senders[0]) == Ok(step)
    requires DeleteOne(step.mailbox, senders[1]).Err?
    ensures !RunDeletes(mb, senders).ok
    ensures RunDeletes(mb, senders).mailbox == step.mailbox
    ensures RunDeletes(mb, senders).deleted == step.removed
  {
    assert senders[1..][0] == senders[1];
  }
}

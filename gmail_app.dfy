/** The production component `frontend/src/App.tsx`: it shows the sender
    groups answered by `GET /senders`, flattens them into an email list and
    sends the selected senders to `POST /delete`. Network replies arrive as
    parameters: a missing reply stands for a response that is not `ok` or a
    `fetch` that throws. */
module GmailApp {
  import opened Wrappers
  import opened InboxView
  import GmailRoutes
  import StableSort

  type SenderGroup = GmailRoutes.SenderGroup

  function GroupSender(g: SenderGroup): string
  {
    g.sender
  }

  function GroupCategory(g: SenderGroup): string
  {
    g.category
  }

  // ---------------------------------------------------------------------
  // Flattening `data.senders`

  /** The emails of one group, each stamped with the group's sender and category. */
  function Entries(g: SenderGroup): seq<Email>
  {
    seq(|g.emails|, j requires 0 <= j < |g.emails| =>
      Email(g.emails[j].id, g.sender, g.emails[j].subject, g.emails[j].date, g.category))
  }

  /** Group after group, each group's emails in order. */
  function Flatten(gs: seq<SenderGroup>): seq<Email>
  {
    if gs == [] then [] else Flatten(gs[..|gs| - 1]) + Entries(gs[|gs| - 1])
  }

  /** Number of emails over all groups. */
  function EmailTotal(gs: seq<SenderGroup>): nat
  {
    if gs == [] then 0 else |gs[0].emails| + EmailTotal(gs[1..])
  }

  /** The nested `forEach` of `fetchEmails`, pushing into `allEmails`. */
  method FlattenGroups(groups: seq<SenderGroup>) returns (allEmails: seq<Email>)
    ensures allEmails == Flatten(groups)
  {
    allEmails := [];
    var i := 0;
    while i < |groups|
      invariant 0 <= i <= |groups|
      invariant allEmails == Flatten(groups[..i])
    {
      var g := groups[i];
      var j := 0;
      while j < |g.emails|
        invariant 0 <= j <= |g.emails|
        invariant allEmails == Flatten(groups[..i]) + Entries(g)[..j]
      {
        var e := g.emails[j];
        allEmails := allEmails + [Email(e.id, g.sender, e.subject, e.date, g.category)];
        j := j + 1;
      }
      assert groups[..i + 1][..i] == groups[..i];
      assert Entries(g)[..|g.emails|] == Entries(g);
      i := i + 1;
    }
    assert groups[..|groups|] == groups;
  }

  /** Flattening a concatenation concatenates the flattenings: the order is
      group by group. */
  lemma {:induction false} FlattenAppend(a: seq<SenderGroup>, b: seq<SenderGroup>)
    ensures Flatten(a + b) == Flatten(a) + Flatten(b)
    decreases |b|
  {
    if b != [] {
      var b' := b[..|b| - 1];
      assert (a + b)[..|a + b| - 1] == a + b';
      FlattenAppend(a, b');
    } else {
      assert a + b == a;
    }
  }

  lemma {:induction false} EmailTotalSnoc(gs: seq<SenderGroup>, g: SenderGroup)
    ensures EmailTotal(gs + [g]) == EmailTotal(gs) + |g.emails|
  {
    if gs != [] {
      assert (gs + [g])[1..] == gs[1..] + [g];
      EmailTotalSnoc(gs[1..], g);
    }
  }

  /** The flat list has one entry per email of every group. */
  lemma {:induction false} FlattenLength(gs: seq<SenderGroup>)
    ensures |Flatten(gs)| == EmailTotal(gs)
  {
    if gs != [] {
      var init := gs[..|gs| - 1];
      FlattenLength(init);
      assert gs == init + [gs[|gs| - 1]];
      EmailTotalSnoc(init, gs[|gs| - 1]);
    }
  }

  /** `e` is email `j` of group `i`, stamped with that group's sender and category. */
  ghost predicate FromGroup(gs: seq<SenderGroup>, i: int, j: int, e: Email)
  {
    0 <= i < |gs| && 0 <= j < |gs[i].emails| && e == Entries(gs[i])[j]
  }

  /** Every flat entry comes from an email of some group and carries that
      group's sender and category; every email of every group is there. */
  lemma {:induction false} FlattenEntries(gs: seq<SenderGroup>)
    ensures forall e :: e in Flatten(gs) ==> exists i, j :: FromGroup(gs, i, j, e)
    ensures forall i, j :: 0 <= i < |gs| && 0 <= j < |gs[i].emails| ==> Entries(gs[i])[j] in Flatten(gs)
  {
    if gs != [] {
      var init := gs[..|gs| - 1];
      var last := gs[|gs| - 1];
      FlattenEntries(init);
      forall e | e in Flatten(gs) ensures exists i, j :: FromGroup(gs, i, j, e) {
        if e in Flatten(init) {
          var i, j :| FromGroup(init, i, j, e);
          assert gs[i] == init[i];
          assert FromGroup(gs, i, j, e);
        } else {
          var j :| 0 <= j < |Entries(last)| && Entries(last)[j] == e;
          assert FromGroup(gs, |gs| - 1, j, e);
        }
      }
      forall i, j | 0 <= i < |gs| && 0 <= j < |gs[i].emails| ensures Entries(gs[i])[j] in Flatten(gs) {
        if i < |gs| - 1 {
          assert gs[i] == init[i];
          assert Entries(init[i])[j] in Flatten(init);
        } else {
          assert Entries(last)[j] in Entries(last);
        }
      }
    }
  }

  lemma {:induction false} EmailTotalIsKeySum(gs: seq<SenderGroup>)
    requires forall g :: g in gs ==> g.count == |g.emails|
    ensures EmailTotal(gs) == StableSort.KeySum(gs, GmailRoutes.Count)
  {
    if gs != [] {
      EmailTotalIsKeySum(gs[1..]);
    }
  }

  /** End to end: after `GET /senders`, the client lists exactly as many
      emails as the backend managed to fetch. */
  lemma ClientListsEveryFetchedEmail(fs: seq<GmailRoutes.Fetched>)
    ensures |Flatten(GmailRoutes.SendersOf(fs))| == |fs|
  {
    var gs := GmailRoutes.SendersOf(fs);
    GmailRoutes.SendersOfEmails(fs);
    GmailRoutes.SendersOfTotal(fs);
    EmailTotalIsKeySum(gs);
    FlattenLength(gs);
  }

  // ---------------------------------------------------------------------
  // The component

  /** The state of `GmailManagerApp` in `frontend/src/App.tsx`. */
  class Inbox {
    var emails: seq<Email>
    var senderGroups: seq<SenderGroup>
    var selectedSenders: set<string>
    var searchTerm: string
    var filterType: string
    var aiAnalysis: string
    var authenticated: bool
    var loading: bool
    var fetchingData: bool

    /** The email list is always the flattening of the groups on screen. */
    ghost predicate Valid()
      reads this
    {
      emails == Flatten(senderGroups)
    }

    /** The `useState` initial values. */
    constructor ()
      ensures emails == [] && senderGroups == [] && selectedSenders == {}
      ensures searchTerm == "" && filterType == "all" && aiAnalysis == ""
      ensures !authenticated && !loading && !fetchingData
      ensures Valid()
    {
      emails := [];
      senderGroups := [];
      selectedSenders := {};
      searchTerm := "";
      filterType := "all";
      aiAnalysis := "";
      authenticated := false;
      loading := false;
      fetchingData := false;
    }

    function FilteredGroupsNow(): seq<SenderGroup>
      reads this
    {
      FilteredGroups(senderGroups, GroupSender, GroupCategory, searchTerm, filterType)
    }

    function SelectedEmailCountNow(): nat
      reads this
    {
      SelectedEmailCount(emails, selectedSenders)
    }

    /** `fetchEmails()`: on a reply, the groups are taken as they are and
        flattened into the email list; on failure only the spinner stops. */
    method FetchEmails(reply: Option<seq<SenderGroup>>)
      requires Valid()
      modifies this
      ensures reply.Some? ==> senderGroups == reply.value && emails == Flatten(reply.value)
      ensures reply.None? ==> senderGroups == old(senderGroups) && emails == old(emails)
      ensures !fetchingData
      ensures selectedSenders == old(selectedSenders) && searchTerm == old(searchTerm) && filterType == old(filterType)
      ensures aiAnalysis == old(aiAnalysis) && authenticated == old(authenticated) && loading == old(loading)
      ensures Valid()
    {
      fetchingData := true;
      if reply.Some? {
        senderGroups := reply.value;
        emails := FlattenGroups(reply.value);
      }
      fetchingData := false;
    }

    /** `handleLogout()`: when the logout request completes, everything
        shown is cleared; when it throws, nothing changes. */
    method HandleLogout(completed: bool)
      requires Valid()
      modifies this
      ensures completed ==>
        (!authenticated && emails == [] && senderGroups == [] && selectedSenders == {} && aiAnalysis == "")
      ensures !completed ==>
        (authenticated == old(authenticated) && emails == old(emails) && senderGroups == old(senderGroups) &&
         selectedSenders == old(selectedSenders) && aiAnalysis == old(aiAnalysis))
      ensures searchTerm == old(searchTerm) && filterType == old(filterType)
      ensures loading == old(loading) && fetchingData == old(fetchingData)
      ensures Valid()
    {
      if completed {
        authenticated := false;
        emails := [];
        senderGroups := [];
        selectedSenders := {};
        aiAnalysis := "";
      }
    }

    /** `toggleSenderSelection(sender)`. */
    method ToggleSenderSelection(sender: string)
      requires Valid()
      modifies this
      ensures Valid()
      ensures selectedSenders == Toggled(old(selectedSenders), sender)
      ensures emails == old(emails) && senderGroups == old(senderGroups)
      ensures searchTerm == old(searchTerm) && filterType == old(filterType) && aiAnalysis == old(aiAnalysis)
      ensures authenticated == old(authenticated) && loading == old(loading) && fetchingData == old(fetchingData)
    {
      selectedSenders := Toggled(selectedSenders, sender);
    }

    /** `selectAllSenders()`: exactly the senders of the visible groups. */
    method SelectAllSenders()
      requires Valid()
      modifies this
      ensures Valid()
      ensures selectedSenders == SendersOf(old(FilteredGroupsNow()), GroupSender)
      ensures emails == old(emails) && senderGroups == old(senderGroups)
      ensures searchTerm == old(searchTerm) && filterType == old(filterType) && aiAnalysis == old(aiAnalysis)
      ensures authenticated == old(authenticated) && loading == old(loading) && fetchingData == old(fetchingData)
    {
      selectedSenders := SendersOf(FilteredGroupsNow(), GroupSender);
    }

    /** `deselectAll()`. */
    method DeselectAll()
      requires Valid()
      modifies this
      ensures Valid()
      ensures selectedSenders == {}
      ensures emails == old(emails) && senderGroups == old(senderGroups)
      ensures searchTerm == old(searchTerm) && filterType == old(filterType) && aiAnalysis == old(aiAnalysis)
      ensures authenticated == old(authenticated) && loading == old(loading) && fetchingData == old(fetchingData)
    {
      selectedSenders := {};
    }

    /** `deleteSelectedEmails()`. With nothing selected, or when the user
        does not confirm, nothing is sent and nothing changes. Otherwise the
        selected senders are sent; after a successful reply the selection
        is cleared and the groups are fetched again (`refetched`), after a
        failed one the state stays as it was. `sent` is the set of senders
        in the request body. */
    method DeleteSelectedEmails(confirmed: bool, deleteReply: Option<int>, refetched: Option<seq<SenderGroup>>)
      returns (sent: Option<set<string>>)
      requires Valid()
      modifies this
      ensures old(selectedSenders) == {} || !confirmed ==>
        (sent.None? && selectedSenders == old(selectedSenders) && emails == old(emails) &&
         senderGroups == old(senderGroups) && loading == old(loading))
      ensures old(selectedSenders) != {} && confirmed ==> sent == Some(old(selectedSenders)) && !loading
      ensures old(selectedSenders) != {} && confirmed && deleteReply.Some? ==>
        (selectedSenders == {} &&
         (refetched.Some? ==> senderGroups == refetched.value && emails == Flatten(refetched.value)) &&
         (refetched.None? ==> senderGroups == old(senderGroups) && emails == old(emails)))
      ensures deleteReply.None? ==>
        (selectedSenders == old(selectedSenders) && emails == old(emails) && senderGroups == old(senderGroups))
      ensures searchTerm == old(searchTerm) && filterType == old(filterType) && aiAnalysis == old(aiAnalysis)
      ensures old(selectedSenders) == {} || !confirmed || deleteReply.None? ==> fetchingData == old(fetchingData)
      ensures old(selectedSenders) != {} && confirmed && deleteReply.Some? ==> !fetchingData
      ensures authenticated == old(authenticated)
      ensures Valid()
    {
      if |selectedSenders| == 0 {
        return None;
      }
      if !confirmed {
        return None;
      }
      loading := true;
      sent := Some(selectedSenders);
      if deleteReply.Some? {
        selectedSenders := {};
        FetchEmails(refetched);
      }
      loading := false;
    }
  }
}

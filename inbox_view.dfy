/** Pure view logic shared by the two React components (`app.tsx` and
    `frontend/src/App.tsx`), which carry the same code for it: the search
    and category filter over sender groups, the selection toggle, the
    count of selected emails and the category badge colour. Group types
    differ between the components, so the filter takes accessors. */
module InboxView {
  import opened Text
  import opened CategoryRules

  /** One row of the `emails` state. */
  datatype Email = Email(id: string, sender: string, subject: string, date: string, category: string)

  /** `a` is `b` with some elements dropped and the rest in order. */
  ghost predicate IsSubsequence<G>(a: seq<G>, b: seq<G>)
    decreases |b|
  {
    a == [] || (b != [] && ((a[0] == b[0] && IsSubsequence(a[1..], b[1..])) || IsSubsequence(a, b[1..])))
  }

  lemma {:induction false} SubsequenceRefl<G>(s: seq<G>)
    ensures IsSubsequence(s, s)
  {
    if s != [] {
      SubsequenceRefl(s[1..]);
    }
  }

  lemma {:induction false} SubsequenceTrans<G>(a: seq<G>, b: seq<G>, c: seq<G>)
    requires IsSubsequence(a, b) && IsSubsequence(b, c)
    ensures IsSubsequence(a, c)
    decreases |c|
  {
    if a != [] {
      if c[0] == b[0] && IsSubsequence(b[1..], c[1..]) {
        if a[0] == b[0] && IsSubsequence(a[1..], b[1..]) {
          SubsequenceTrans(a[1..], b[1..], c[1..]);
        } else {
          SubsequenceTrans(a, b[1..], c[1..]);
        }
      } else {
        SubsequenceTrans(a, b, c[1..]);
      }
    }
  }

  // ---------------------------------------------------------------------
  // getFilteredGroups

  /** `filtered.filter(group => group.sender.toLowerCase().includes(searchTerm.toLowerCase()))`. */
  function MatchingSearch<G>(gs: seq<G>, sender: G -> string, searchTerm: string): seq<G>
  {
    if gs == [] then []
    else (if Contains(Lower(sender(gs[0])), Lower(searchTerm)) then [gs[0]] else []) + MatchingSearch(gs[1..], sender, searchTerm)
  }

  /** `filtered.filter(group => group.category === filterType)`. */
  function MatchingCategory<G>(gs: seq<G>, category: G -> string, filterType: string): seq<G>
  {
    if gs == [] then []
    else (if category(gs[0]) == filterType then [gs[0]] else []) + MatchingCategory(gs[1..], category, filterType)
  }

  lemma {:induction false} MatchingSearchFacts<G>(gs: seq<G>, sender: G -> string, searchTerm: string)
    ensures forall g :: g in MatchingSearch(gs, sender, searchTerm) <==> g in gs && Contains(Lower(sender(g)), Lower(searchTerm))
    ensures IsSubsequence(MatchingSearch(gs, sender, searchTerm), gs)
  {
    if gs != [] {
      var r := MatchingSearch(gs[1..], sender, searchTerm);
      MatchingSearchFacts(gs[1..], sender, searchTerm);
      assert gs == [gs[0]] + gs[1..];
      if Contains(Lower(sender(gs[0])), Lower(searchTerm)) {
        assert ([gs[0]] + r)[1..] == r;
        assert ([gs[0]] + r)[0] == gs[0];
      } else {
        assert MatchingSearch(gs, sender, searchTerm) == r;
      }
    }
  }

  lemma {:induction false} MatchingCategoryFacts<G>(gs: seq<G>, category: G -> string, filterType: string)
    ensures forall g :: g in MatchingCategory(gs, category, filterType) <==> g in gs && category(g) == filterType
    ensures IsSubsequence(MatchingCategory(gs, category, filterType), gs)
  {
    if gs != [] {
      var r := MatchingCategory(gs[1..], category, filterType);
      MatchingCategoryFacts(gs[1..], category, filterType);
      assert gs == [gs[0]] + gs[1..];
      if category(gs[0]) == filterType {
        assert ([gs[0]] + r)[1..] == r;
        assert ([gs[0]] + r)[0] == gs[0];
      } else {
        assert MatchingCategory(gs, category, filterType) == r;
      }
    }
  }

  /** A group stays visible: its sender contains the search term, ignoring
      case (an empty term is no filter), and its category is the chosen
      one unless the filter is `all`. */
  predicate Shown<G>(g: G, sender: G -> string, category: G -> string, searchTerm: string, filterType: string)
  {
    (searchTerm == "" || Contains(Lower(sender(g)), Lower(searchTerm))) &&
    (filterType == "all" || category(g) == filterType)
  }

  /** `getFilteredGroups()`: the search filter, then the category filter. */
  function FilteredGroups<G>(groups: seq<G>, sender: G -> string, category: G -> string,
                             searchTerm: string, filterType: string): seq<G>
  {
    var bySearch := if searchTerm != "" then MatchingSearch(groups, sender, searchTerm) else groups;
    if filterType != "all" then MatchingCategory(bySearch, category, filterType) else bySearch
  }

  /** The filter keeps, in their order, exactly the groups that are shown;
      with no search term and `all`, it keeps everything. */
  lemma FilteredGroupsFacts<G>(groups: seq<G>, sender: G -> string, category: G -> string,
                               searchTerm: string, filterType: string)
    ensures forall g :: g in FilteredGroups(groups, sender, category, searchTerm, filterType) <==>
      g in groups && Shown(g, sender, category, searchTerm, filterType)
    ensures IsSubsequence(FilteredGroups(groups, sender, category, searchTerm, filterType), groups)
    ensures searchTerm == "" && filterType == "all" ==>
      FilteredGroups(groups, sender, category, searchTerm, filterType) == groups
  {
    var bySearch := if searchTerm != "" then MatchingSearch(groups, sender, searchTerm) else groups;
    if searchTerm != "" {
      MatchingSearchFacts(groups, sender, searchTerm);
    } else {
      SubsequenceRefl(groups);
    }
    if filterType != "all" {
      MatchingCategoryFacts(bySearch, category, filterType);
      SubsequenceTrans(MatchingCategory(bySearch, category, filterType), bySearch, groups);
    }
  }

  // ---------------------------------------------------------------------
  // Selection

  /** `toggleSenderSelection`: a copy of the selection with `sender` added
      when absent and removed when present. */
  function Toggled(selection: set<string>, sender: string): (r: set<string>)
    ensures sender in r <==> sender !in selection
    ensures forall t :: t != sender ==> (t in r <==> t in selection)
  {
    if sender in selection then selection - {sender} else selection + {sender}
  }

  /** Toggling the same sender twice gives the selection back. */
  lemma ToggledTwice(selection: set<string>, sender: string)
    ensures Toggled(Toggled(selection, sender), sender) == selection
  {
  }

  /** `new Set(groups.map(group => group.sender))`. */
  function SendersOf<G>(groups: seq<G>, sender: G -> string): set<string>
  {
    set i | 0 <= i < |groups| :: sender(groups[i])
  }

  /** `selectAllSenders()` on the filtered view: a sender ends up selected
      exactly when one of its groups is shown under the current search
      term and category filter. */
  lemma SelectAllShown<G>(groups: seq<G>, sender: G -> string, category: G -> string,
                          searchTerm: string, filterType: string, s: string)
    ensures s in SendersOf(FilteredGroups(groups, sender, category, searchTerm, filterType), sender) <==>
      exists g :: g in groups && Shown(g, sender, category, searchTerm, filterType) && sender(g) == s
  {
    var fg := FilteredGroups(groups, sender, category, searchTerm, filterType);
    FilteredGroupsFacts(groups, sender, category, searchTerm, filterType);
    if s in SendersOf(fg, sender) {
      var i :| 0 <= i < |fg| && sender(fg[i]) == s;
      assert fg[i] in fg;
    }
    if exists g :: g in groups && Shown(g, sender, category, searchTerm, filterType) && sender(g) == s {
      var g :| g in groups && Shown(g, sender, category, searchTerm, filterType) && sender(g) == s;
      assert g in fg;
      var i :| 0 <= i < |fg| && fg[i] == g;
      assert sender(fg[i]) == s;
    }
  }

  /** `emails.filter(email => selectedSenders.has(email.sender))`. */
  function SelectedEmails(emails: seq<Email>, selection: set<string>): seq<Email>
  {
    if emails == [] then []
    else (if emails[0].sender in selection then [emails[0]] else []) + SelectedEmails(emails[1..], selection)
  }

  /** `emails.filter(email => !selectedSenders.has(email.sender))`. */
  function RemainingEmails(emails: seq<Email>, selection: set<string>): seq<Email>
  {
    if emails == [] then []
    else (if emails[0].sender !in selection then [emails[0]] else []) + RemainingEmails(emails[1..], selection)
  }

  /** `selectedEmailCount`. */
  function SelectedEmailCount(emails: seq<Email>, selection: set<string>): nat
  {
    |SelectedEmails(emails, selection)|
  }

  /** The selected and the remaining emails partition the list: together
      they hold every email exactly once, and their sizes add up. */
  lemma {:induction false} SelectionPartition(emails: seq<Email>, selection: set<string>)
    ensures multiset(SelectedEmails(emails, selection)) + multiset(RemainingEmails(emails, selection)) == multiset(emails)
    ensures SelectedEmailCount(emails, selection) + |RemainingEmails(emails, selection)| == |emails|
  {
    if emails != [] {
      SelectionPartition(emails[1..], selection);
      assert emails == [emails[0]] + emails[1..];
    }
  }

  /** An email is selected exactly when its sender is, and remains exactly
      when its sender is not; both lists keep the original order. */
  lemma {:induction false} SelectionMembers(emails: seq<Email>, selection: set<string>)
    ensures forall e :: e in SelectedEmails(emails, selection) <==> e in emails && e.sender in selection
    ensures forall e :: e in RemainingEmails(emails, selection) <==> e in emails && e.sender !in selection
    ensures IsSubsequence(SelectedEmails(emails, selection), emails)
    ensures IsSubsequence(RemainingEmails(emails, selection), emails)
  {
    if emails != [] {
      var e0 := emails[0];
      var a := SelectedEmails(emails[1..], selection);
      var b := RemainingEmails(emails[1..], selection);
      SelectionMembers(emails[1..], selection);
      assert emails == [e0] + emails[1..];
      if e0.sender in selection {
        assert ([e0] + a)[1..] == a && ([e0] + a)[0] == e0;
        assert RemainingEmails(emails, selection) == b;
      } else {
        assert ([e0] + b)[1..] == b && ([e0] + b)[0] == e0;
        assert SelectedEmails(emails, selection) == a;
      }
    }
  }

  /** With nothing selected, nothing counts as selected and everything remains. */
  lemma {:induction false} EmptySelection(emails: seq<Email>)
    ensures SelectedEmailCount(emails, {}) == 0
    ensures RemainingEmails(emails, {}) == emails
  {
    if emails != [] {
      EmptySelection(emails[1..]);
    }
  }

  // ---------------------------------------------------------------------
  // getCategoryColor

  const Gray := "bg-gray-100 text-gray-800"

  /** `colors[category] || 'bg-gray-100 text-gray-800'`. */
  function CategoryColor(category: string): string
  {
    if category == Promotional then "bg-orange-100 text-orange-800"
    else if category == Social then "bg-blue-100 text-blue-800"
    else if category == Work then "bg-green-100 text-green-800"
    else if category == Transactional then "bg-purple-100 text-purple-800"
    else if category == Billing then "bg-red-100 text-red-800"
    else if category == Security then "bg-yellow-100 text-yellow-800"
    else Gray
  }

  /** The six labels get six different colours, none of them gray, and
      every other string gets gray. */
  lemma CategoryColorFacts(a: string, b: string)
    ensures a in Labels && b in Labels && a != b ==> CategoryColor(a) != CategoryColor(b)
    ensures a in Labels ==> CategoryColor(a) != Gray
    ensures a !in Labels ==> CategoryColor(a) == Gray
  {
  }
}

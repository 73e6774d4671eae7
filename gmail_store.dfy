/** The message store that the backend reaches through the Gmail API
    (`users.messages.list`, `users.messages.get`, `users.messages.batchDelete`),
    modelled as pure functions over a mailbox value. Whatever the API would
    answer with an error is part of the mailbox: queries it refuses, messages
    whose metadata it cannot return and messages it refuses to delete. */
module GmailStore {
  import opened Wrappers
  import opened Text

  datatype Header = Header(name: string, value: string)

  datatype StoredMessage = StoredMessage(id: string, threadId: string, labelIds: seq<string>, headers: seq<Header>)

  /** The two searches the modelled routes issue: no query, and `from:<sender>`. */
  datatype Query = AllMessages | FromSender(sender: string)

  datatype Mailbox = Mailbox(
    messages: seq<StoredMessage>,
    failingQueries: set<Query>,
    failingGets: set<string>,
    undeletable: set<string>)

  /** The API returns at most this many identifiers per `list` call. */
  const PageLimit := 500

  /** Value of the first header with exactly this name. */
  function HeaderValue(headers: seq<Header>, name: string): Option<string>
  {
    if headers == [] then None
    else if headers[0].name == name then Some(headers[0].value)
    else HeaderValue(headers[1..], name)
  }

  /** The search `from:<sender>` is modelled as a case-insensitive
      containment test on the message's `From` header. */
  predicate Matches(m: StoredMessage, q: Query)
  {
    match q
    case AllMessages => true
    case FromSender(sender) =>
      match HeaderValue(m.headers, "From")
      case Some(from) => Contains(Lower(from), Lower(sender))
      case None => false
  }

  function MatchingIds(ms: seq<StoredMessage>, q: Query): seq<string>
  {
    if ms == [] then []
    else (if Matches(ms[0], q) then [ms[0].id] else []) + MatchingIds(ms[1..], q)
  }

  function Take<T>(s: seq<T>, n: int): (r: seq<T>)
    ensures |r| == if n <= 0 then 0 else if n < |s| then n else |s|
    ensures forall i :: 0 <= i < |r| ==> r[i] == s[i]
  {
    if n <= 0 then [] else if n < |s| then s[..n] else s
  }

  /** `users.messages.list`: the first page of matching identifiers, in mailbox order. */
  function List(mb: Mailbox, q: Query, maxResults: int): Result<seq<string>>
  {
    if q in mb.failingQueries then Err("list failed")
    else if maxResults < 1 then Err("invalid maxResults")
    else Ok(Take(MatchingIds(mb.messages, q), if maxResults < PageLimit then maxResults else PageLimit))
  }

  function Find(ms: seq<StoredMessage>, id: string): Option<StoredMessage>
  {
    if ms == [] then None
    else if ms[0].id == id then Some(ms[0])
    else Find(ms[1..], id)
  }

  /** `users.messages.get`. */
  function Get(mb: Mailbox, id: string): Result<StoredMessage>
  {
    if id in mb.failingGets then Err("get failed")
    else match Find(mb.messages, id)
      case Some(m) => Ok(m)
      case None => Err("not found")
  }

  function Without(ms: seq<StoredMessage>, ids: set<string>): seq<StoredMessage>
  {
    if ms == [] then []
    else (if ms[0].id in ids then [] else [ms[0]]) + Without(ms[1..], ids)
  }

  /** `users.messages.batchDelete`: all or nothing. */
  function BatchDelete(mb: Mailbox, ids: seq<string>): Result<Mailbox>
  {
    if exists i :: 0 <= i < |ids| && ids[i] in mb.undeletable then Err("batchDelete failed")
    else Ok(mb.(messages := Without(mb.messages, set i | 0 <= i < |ids| :: ids[i])))
  }

  // ---------------------------------------------------------------------
  // Identifier bookkeeping used to count what a deletion removes

  function Ids(ms: seq<StoredMessage>): set<string>
  {
    set i | 0 <= i < |ms| :: ms[i].id
  }

  ghost predicate DistinctIds(ms: seq<StoredMessage>)
  {
    forall i, j :: 0 <= i < j < |ms| ==> ms[i].id != ms[j].id
  }

  ghost predicate DistinctStrings(s: seq<string>)
  {
    forall i, j :: 0 <= i < j < |s| ==> s[i] != s[j]
  }

  /** The identifiers of a non-empty list: the first one and those of the rest. */
  lemma IdsCons(ms: seq<StoredMessage>)
    requires ms != []
    ensures Ids(ms) == {ms[0].id} + Ids(ms[1..])
    ensures DistinctIds(ms) ==> DistinctIds(ms[1..]) && ms[0].id !in Ids(ms[1..])
  {
    forall k | k in Ids(ms) ensures k in {ms[0].id} + Ids(ms[1..]) {
      var i :| 0 <= i < |ms| && ms[i].id == k;
      if i > 0 {
        assert ms[1..][i - 1].id == k;
      }
    }
    forall k | k in Ids(ms[1..]) ensures k in Ids(ms) {
      var i :| 0 <= i < |ms[1..]| && ms[1..][i].id == k;
      assert ms[i + 1].id == k;
    }
    assert ms[0].id in Ids(ms);
    if DistinctIds(ms) {
      forall k | k in Ids(ms[1..]) ensures k != ms[0].id {
        var i :| 0 <= i < |ms[1..]| && ms[1..][i].id == k;
        assert ms[i + 1].id == k;
      }
    }
  }

  lemma {:induction false} MatchingIdsFacts(ms: seq<StoredMessage>, q: Query)
    requires DistinctIds(ms)
    ensures DistinctStrings(MatchingIds(ms, q))
    ensures forall i :: 0 <= i < |MatchingIds(ms, q)| ==> MatchingIds(ms, q)[i] in Ids(ms)
  {
    if ms != [] {
      var rest := MatchingIds(ms[1..], q);
      MatchingIdsFacts(ms[1..], q);
      assert forall k :: k in Ids(ms[1..]) ==> k in Ids(ms) && k != ms[0].id by {
        forall k | k in Ids(ms[1..]) ensures k in Ids(ms) && k != ms[0].id {
          var i :| 0 <= i < |ms[1..]| && ms[1..][i].id == k;
          assert ms[i + 1].id == k;
        }
      }
      assert ms[0].id in Ids(ms);
      var head: seq<string> := if Matches(ms[0], q) then [ms[0].id] else [];
      assert MatchingIds(ms, q) == head + rest;
      forall i | 0 <= i < |head + rest| ensures (head + rest)[i] in Ids(ms) {
        if i >= |head| {
          assert (head + rest)[i] == rest[i - |head|];
        }
      }
      forall i, j | 0 <= i < j < |head + rest| ensures (head + rest)[i] != (head + rest)[j] {
        assert (head + rest)[j] == rest[j - |head|];
        if i >= |head| {
          assert (head + rest)[i] == rest[i - |head|];
        }
      }
    }
  }

  /** The unrestricted search matches every message. */
  lemma {:induction false} AllMessagesCount(ms: seq<StoredMessage>)
    ensures |MatchingIds(ms, AllMessages)| == |ms|
  {
    if ms != [] {
      AllMessagesCount(ms[1..]);
    }
  }

  /** The set of the first `n` elements. */
  lemma PrefixSetSnoc(s: seq<string>, n: nat)
    requires 0 < n <= |s|
    ensures (set i | 0 <= i < n :: s[i]) == (set i | 0 <= i < n - 1 :: s[i]) + {s[n - 1]}
  {
    var b := set i | 0 <= i < n :: s[i];
    var a := set i | 0 <= i < n - 1 :: s[i];
    forall k | k in b ensures k in a + {s[n - 1]} {
      var i :| 0 <= i < n && s[i] == k;
      if i < n - 1 {
        assert k in a;
      }
    }
  }

  lemma {:induction false} DistinctPrefixCard(s: seq<string>, n: nat)
    requires DistinctStrings(s) && n <= |s|
    ensures |set i | 0 <= i < n :: s[i]| == n
  {
    if n > 0 {
      DistinctPrefixCard(s, n - 1);
      PrefixSetSnoc(s, n);
      var a := set i | 0 <= i < n - 1 :: s[i];
      assert s[n - 1] !in a;
    }
  }

  lemma DistinctCard(s: seq<string>)
    requires DistinctStrings(s)
    ensures |set i | 0 <= i < |s| :: s[i]| == |s|
  {
    DistinctPrefixCard(s, |s|);
  }

  /** Deleting a set of identifiers that all occur, from messages with
      distinct identifiers, removes exactly as many messages as the set has
      members. */
  lemma {:induction false} WithoutCount(ms: seq<StoredMessage>, s: set<string>)
    requires DistinctIds(ms)
    requires s <= Ids(ms)
    ensures |Without(ms, s)| == |ms| - |s|
  {
    if ms != [] {
      var rest := ms[1..];
      IdsCons(ms);
      if ms[0].id in s {
        var s' := s - {ms[0].id};
        WithoutCount(rest, s');
        WithoutSame(rest, s, s');
      } else {
        WithoutCount(rest, s);
      }
    }
  }

  lemma {:induction false} WithoutSame(ms: seq<StoredMessage>, s: set<string>, s': set<string>)
    requires forall i :: 0 <= i < |ms| ==> (ms[i].id in s <==> ms[i].id in s')
    ensures Without(ms, s) == Without(ms, s')
  {
    if ms != [] {
      WithoutSame(ms[1..], s, s');
    }
  }

  lemma IdsAppend(a: seq<StoredMessage>, b: seq<StoredMessage>)
    ensures Ids(a + b) == Ids(a) + Ids(b)
  {
    forall k | k in Ids(a + b) ensures k in Ids(a) + Ids(b) {
      var i :| 0 <= i < |a + b| && (a + b)[i].id == k;
      if i >= |a| {
        assert b[i - |a|].id == k;
      } else {
        assert a[i].id == k;
      }
    }
    forall k | k in Ids(b) ensures k in Ids(a + b) {
      var i :| 0 <= i < |b| && b[i].id == k;
      assert (a + b)[i + |a|].id == k;
    }
    forall k | k in Ids(a) ensures k in Ids(a + b) {
      var i :| 0 <= i < |a| && a[i].id == k;
      assert (a + b)[i].id == k;
    }
  }

  lemma {:induction false} WithoutIds(ms: seq<StoredMessage>, s: set<string>)
    ensures Ids(Without(ms, s)) == Ids(ms) - s
  {
    if ms != [] {
      WithoutIds(ms[1..], s);
      var head: seq<StoredMessage> := if ms[0].id in s then [] else [ms[0]];
      var rest := Without(ms[1..], s);
      assert Without(ms, s) == head + rest;
      IdsCons(ms);
      IdsAppend(head, rest);
      if head != [] {
        IdsCons(head);
        assert head[1..] == [];
      }
    }
  }

  lemma {:induction false} WithoutDistinct(ms: seq<StoredMessage>, s: set<string>)
    requires DistinctIds(ms)
    ensures DistinctIds(Without(ms, s))
  {
    if ms != [] {
      IdsCons(ms);
      WithoutDistinct(ms[1..], s);
      WithoutIds(ms[1..], s);
      var head: seq<StoredMessage> := if ms[0].id in s then [] else [ms[0]];
      var rest := Without(ms[1..], s);
      assert Without(ms, s) == head + rest;
      forall i, j | 0 <= i < j < |head + rest| ensures (head + rest)[i].id != (head + rest)[j].id {
        assert (head + rest)[j] == rest[j - |head|];
        assert (head + rest)[j].id in Ids(rest);
        if i >= |head| {
          assert (head + rest)[i] == rest[i - |head|];
        }
      }
    }
  }

  /** A successful batch delete of listed identifiers removes exactly as many
      messages as were listed, and only those. */
  lemma BatchDeleteRemoves(mb: Mailbox, q: Query, n: int, mb': Mailbox)
    requires DistinctIds(mb.messages)
    requires List(mb, q, n).Ok?
    requires BatchDelete(mb, List(mb, q, n).value) == Ok(mb')
    ensures |mb'.messages| == |mb.messages| - |List(mb, q, n).value|
    ensures Ids(mb'.messages) == Ids(mb.messages) - set i | 0 <= i < |List(mb, q, n).value| :: List(mb, q, n).value[i]
    ensures DistinctIds(mb'.messages)
  {
    var all := MatchingIds(mb.messages, q);
    var ids := List(mb, q, n).value;
    MatchingIdsFacts(mb.messages, q);
    assert DistinctStrings(ids);
    var s := set i | 0 <= i < |ids| :: ids[i];
    DistinctCard(ids);
    assert s <= Ids(mb.messages);
    WithoutCount(mb.messages, s);
    WithoutIds(mb.messages, s);
    WithoutDistinct(mb.messages, s);
  }
}

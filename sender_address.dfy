/** Extraction of the canonical sender address from a `From` header, as the
    backend does with
    `from.match(/<(.+?)>/) || from.match(/([^\s]+@[^\s]+)/)` and falls back
    to the header itself. The two regular expressions are written out as
    left-to-right scans. Each scan is proved against a declarative statement
    of what the leftmost match of its expression is. */
module SenderAddress {
  import opened Wrappers

  /** Characters that the ECMAScript `.` does not match. */
  predicate IsLineTerminator(c: char)
  {
    c == '\n' || c == '\r' || c == '\U{2028}' || c == '\U{2029}'
  }

  /** The ECMAScript `\s` class: white space and line terminators. */
  predicate IsSpace(c: char)
  {
    c == ' ' || c == '\t' || c == '\n' || c == '\U{000B}' || c == '\U{000C}' || c == '\r' ||
    c == '\U{00A0}' || c == '\U{1680}' || '\U{2000}' <= c <= '\U{200A}' ||
    c == '\U{2028}' || c == '\U{2029}' || c == '\U{202F}' || c == '\U{205F}' ||
    c == '\U{3000}' || c == '\U{FEFF}'
  }

  // ---------------------------------------------------------------------
  // `<(.+?)>`

  /** `<(.+?)>` matches at `i` and its lazy capture ends just before `q`:
      at least one character between the brackets, `q` is the first `>`
      after that first character, and no line terminator is captured. */
  ghost predicate AngleMatchAt(s: string, i: int, q: int)
  {
    0 <= i && i + 2 <= q < |s| && s[i] == '<' && s[q] == '>' &&
    (forall p :: i + 2 <= p < q ==> s[p] != '>') &&
    (forall p :: i + 1 <= p < q ==> !IsLineTerminator(s[p]))
  }

  ghost predicate AngleOpensAt(s: string, i: int)
  {
    exists q :: AngleMatchAt(s, i, q)
  }

  /** Lazy scan for the closing `>`; `q - 1` is the last character captured so far. */
  function CloseFrom(s: string, q: nat): (r: Option<nat>)
    requires q >= 1
    ensures r.Some? ==> q <= r.value < |s| && s[r.value] == '>'
    decreases |s| - q
  {
    if q >= |s| then None
    else if IsLineTerminator(s[q - 1]) then None
    else if s[q] == '>' then Some(q)
    else CloseFrom(s, q + 1)
  }

  /** The capture of the leftmost match of `<(.+?)>` at or after `i`. */
  function AngleFrom(s: string, i: nat): Option<string>
    decreases |s| - i
  {
    if i >= |s| then None
    else if s[i] == '<' && CloseFrom(s, i + 2).Some? then
      Some(s[i + 1..CloseFrom(s, i + 2).value])
    else AngleFrom(s, i + 1)
  }

  lemma {:induction false} CloseFromSpec(s: string, i: nat, q: nat)
    requires i < |s| && s[i] == '<' && i + 2 <= q
    requires forall p :: i + 2 <= p < q && p < |s| ==> s[p] != '>'
    requires forall p :: i + 1 <= p < q - 1 && p < |s| ==> !IsLineTerminator(s[p])
    ensures CloseFrom(s, q).Some? ==> AngleMatchAt(s, i, CloseFrom(s, q).value)
    ensures CloseFrom(s, q).None? ==> !AngleOpensAt(s, i)
    decreases |s| - q
  {
    if q < |s| && !IsLineTerminator(s[q - 1]) && s[q] != '>' {
      CloseFromSpec(s, i, q + 1);
    }
  }

  /** The scan returns the capture of the leftmost match, and nothing exactly
      when `<(.+?)>` does not match at all. */
  lemma {:induction false} AngleFromSpec(s: string, i: nat)
    ensures AngleFrom(s, i).None? ==> forall j :: i <= j ==> !AngleOpensAt(s, j)
    ensures AngleFrom(s, i).Some? ==>
      exists j, q :: i <= j && AngleMatchAt(s, j, q) && AngleFrom(s, i).value == s[j + 1..q] &&
        forall j' :: i <= j' < j ==> !AngleOpensAt(s, j')
    decreases |s| - i
  {
    if i < |s| {
      if s[i] == '<' {
        CloseFromSpec(s, i, i + 2);
      }
      if !(s[i] == '<' && CloseFrom(s, i + 2).Some?) {
        AngleFromSpec(s, i + 1);
        if AngleFrom(s, i).Some? {
          var j, q :| i + 1 <= j && AngleMatchAt(s, j, q) && AngleFrom(s, i + 1).value == s[j + 1..q] &&
            forall j' :: i + 1 <= j' < j ==> !AngleOpensAt(s, j');
          assert forall j' :: i <= j' < j ==> !AngleOpensAt(s, j');
        }
      }
    }
  }

  // ---------------------------------------------------------------------
  // `([^\s]+@[^\s]+)`

  /** `s[a..b]` is a maximal run of non-space characters with an `@` that is
      neither its first nor its last character. The leftmost match of
      `[^\s]+@[^\s]+` is exactly the first such run: a start inside a run
      sees a shorter suffix of it, and the greedy tail runs to its end. */
  ghost predicate AtTokenAt(s: string, a: int, b: int)
  {
    0 <= a < b <= |s| &&
    (a == 0 || IsSpace(s[a - 1])) && (b == |s| || IsSpace(s[b])) &&
    (forall p :: a <= p < b ==> !IsSpace(s[p])) &&
    exists k :: a < k < b - 1 && s[k] == '@'
  }

  /** The first index at or after `p` that holds a space, or `|s|`. */
  function RunEnd(s: string, p: nat): (e: nat)
    requires p <= |s|
    ensures p <= e <= |s| && (e == |s| || IsSpace(s[e]))
    ensures forall r :: p <= r < e ==> !IsSpace(s[r])
    decreases |s| - p
  {
    if p == |s| || IsSpace(s[p]) then p else RunEnd(s, p + 1)
  }

  /** The leftmost run at or after `p` that holds an inner `@`; `p` never
      lies strictly inside a run. */
  function TokenFrom(s: string, p: nat): Option<string>
    requires p <= |s|
    decreases |s| - p
  {
    if p == |s| then None
    else if IsSpace(s[p]) then TokenFrom(s, p + 1)
    else
      var e := RunEnd(s, p);
      if e - p >= 3 && '@' in s[p + 1..e - 1] then Some(s[p..e]) else TokenFrom(s, e)
  }

  /** A run that starts at `p` is the only candidate match starting
      anywhere inside it; it is a match iff it has an inner `@`. */
  lemma RunAt(s: string, p: nat)
    requires p < |s| && !IsSpace(s[p]) && (p == 0 || IsSpace(s[p - 1]))
    ensures forall a, b :: p <= a < RunEnd(s, p) && AtTokenAt(s, a, b) ==> a == p && b == RunEnd(s, p)
    ensures var e := RunEnd(s, p);
      (e - p >= 3 && '@' in s[p + 1..e - 1]) <==> AtTokenAt(s, p, e)
  {
    var e := RunEnd(s, p);
    forall a, b | p <= a < e && AtTokenAt(s, a, b) ensures a == p && b == e {
    }
    if e - p >= 3 && '@' in s[p + 1..e - 1] {
      var m :| 0 <= m < |s[p + 1..e - 1]| && s[p + 1..e - 1][m] == '@';
      assert s[p + 1 + m] == '@';
    }
    if AtTokenAt(s, p, e) {
      var k :| p < k < e - 1 && s[k] == '@';
      assert s[p + 1..e - 1][k - p - 1] == '@';
    }
  }

  lemma {:induction false} TokenFromSpec(s: string, p: nat)
    requires p <= |s|
    requires p == 0 || p == |s| || IsSpace(s[p - 1]) || IsSpace(s[p])
    ensures TokenFrom(s, p).None? ==> forall a, b :: p <= a ==> !AtTokenAt(s, a, b)
    ensures TokenFrom(s, p).Some? ==>
      exists a, b :: p <= a && AtTokenAt(s, a, b) && TokenFrom(s, p).value == s[a..b] &&
        forall a', b' :: p <= a' < a ==> !AtTokenAt(s, a', b')
    decreases |s| - p
  {
    if p < |s| {
      if IsSpace(s[p]) {
        TokenFromSpec(s, p + 1);
        assert forall b' :: !AtTokenAt(s, p, b');
      } else {
        var e := RunEnd(s, p);
        RunAt(s, p);
        if !(e - p >= 3 && '@' in s[p + 1..e - 1]) {
          TokenFromSpec(s, e);
          assert forall a', b' :: p <= a' < e ==> !AtTokenAt(s, a', b');
        }
      }
    }
  }

  // ---------------------------------------------------------------------

  /** `emailMatch ? emailMatch[1] : from` (backend/src/routes/gmail.ts). */
  function ExtractAddress(from: string): string
  {
    match AngleFrom(from, 0)
    case Some(inner) => inner
    case None =>
      match TokenFrom(from, 0)
      case Some(token) => token
      case None => from
  }

  /** The address is the capture of the leftmost `<...>` match; failing
      that, the first whitespace-free run with an inner `@`; failing that,
      the header unchanged. */
  lemma ExtractAddressSpec(from: string)
    ensures forall i, q :: AngleMatchAt(from, i, q) && (forall j :: 0 <= j < i ==> !AngleOpensAt(from, j)) ==>
      ExtractAddress(from) == from[i + 1..q]
    ensures (forall i :: !AngleOpensAt(from, i)) ==>
      forall a, b :: AtTokenAt(from, a, b) && (forall a', b' :: 0 <= a' < a ==> !AtTokenAt(from, a', b')) ==>
        ExtractAddress(from) == from[a..b]
    ensures (forall i :: !AngleOpensAt(from, i)) && (forall a, b :: !AtTokenAt(from, a, b)) ==>
      ExtractAddress(from) == from
  {
    AngleFromSpec(from, 0);
    TokenFromSpec(from, 0);
    forall i, q | AngleMatchAt(from, i, q) && (forall j :: 0 <= j < i ==> !AngleOpensAt(from, j))
      ensures ExtractAddress(from) == from[i + 1..q]
    {
      assert AngleOpensAt(from, i);
      var j, q' :| 0 <= j && AngleMatchAt(from, j, q') && AngleFrom(from, 0).value == from[j + 1..q'] &&
        forall j' :: 0 <= j' < j ==> !AngleOpensAt(from, j');
      assert AngleOpensAt(from, j);
      assert j == i;
      AngleMatchUnique(from, i, q, q');
    }
    if forall i :: !AngleOpensAt(from, i) {
      assert AngleFrom(from, 0).None? by {
        if AngleFrom(from, 0).Some? {
          var j, q :| 0 <= j && AngleMatchAt(from, j, q) && AngleFrom(from, 0).value == from[j + 1..q] &&
            forall j' :: 0 <= j' < j ==> !AngleOpensAt(from, j');
          assert AngleOpensAt(from, j);
        }
      }
      if forall a, b :: !AtTokenAt(from, a, b) {
        assert TokenFrom(from, 0).None?;
      }
      forall a, b | AtTokenAt(from, a, b) && (forall a', b' :: 0 <= a' < a ==> !AtTokenAt(from, a', b'))
        ensures ExtractAddress(from) == from[a..b]
      {
        var a1, b1 :| 0 <= a1 && AtTokenAt(from, a1, b1) && TokenFrom(from, 0).value == from[a1..b1] &&
          forall a', b' :: 0 <= a' < a1 ==> !AtTokenAt(from, a', b');
        assert a1 == a;
        AtTokenUnique(from, a, b, b1);
      }
    }
  }

  lemma AngleMatchUnique(s: string, i: int, q: int, q': int)
    requires AngleMatchAt(s, i, q) && AngleMatchAt(s, i, q')
    ensures q == q'
  {
  }

  lemma AtTokenUnique(s: string, a: int, b: int, b': int)
    requires AtTokenAt(s, a, b) && AtTokenAt(s, a, b')
    ensures b == b'
  {
  }

  /** Worked example: a display name with the address in angle brackets. */
  lemma ExtractAddressNamed()
    ensures ExtractAddress("Jo <jo@x.io>") == "jo@x.io"
  {
    var s := "Jo <jo@x.io>";
    assert AngleFrom(s, 0) == AngleFrom(s, 1);
    assert AngleFrom(s, 1) == AngleFrom(s, 2);
    assert AngleFrom(s, 2) == AngleFrom(s, 3);
    assert CloseFrom(s, 11) == Some(11);
    assert CloseFrom(s, 10) == Some(11);
    assert CloseFrom(s, 9) == Some(11);
    assert CloseFrom(s, 8) == Some(11);
    assert CloseFrom(s, 7) == Some(11);
    assert CloseFrom(s, 6) == Some(11);
    assert CloseFrom(s, 5) == Some(11);
    assert s[4..11] == "jo@x.io";
  }

  /** Worked example: a bare address is its own whitespace-free run. */
  lemma ExtractAddressBare()
    ensures ExtractAddress("jo@x.io") == "jo@x.io"
  {
    var s := "jo@x.io";
    assert AngleFrom(s, 0) == AngleFrom(s, 1);
    assert AngleFrom(s, 1) == AngleFrom(s, 2);
    assert AngleFrom(s, 2) == AngleFrom(s, 3);
    assert AngleFrom(s, 3) == AngleFrom(s, 4);
    assert AngleFrom(s, 4) == AngleFrom(s, 5);
    assert AngleFrom(s, 5) == AngleFrom(s, 6);
    assert AngleFrom(s, 6) == AngleFrom(s, 7);
    assert RunEnd(s, 6) == 7;
    assert RunEnd(s, 5) == 7;
    assert RunEnd(s, 4) == 7;
    assert RunEnd(s, 3) == 7;
    assert RunEnd(s, 2) == 7;
    assert RunEnd(s, 1) == 7;
    assert RunEnd(s, 0) == 7;
    assert s[1..6][1] == '@';
  }

  /** Worked example: a header with neither form passes through unchanged. */
  lemma ExtractAddressPassThrough()
    ensures ExtractAddress("Jane Doe") == "Jane Doe"
  {
    var s := "Jane Doe";
    assert AngleFrom(s, 0) == AngleFrom(s, 1);
    assert AngleFrom(s, 1) == AngleFrom(s, 2);
    assert AngleFrom(s, 2) == AngleFrom(s, 3);
    assert AngleFrom(s, 3) == AngleFrom(s, 4);
    assert AngleFrom(s, 4) == AngleFrom(s, 5);
    assert AngleFrom(s, 5) == AngleFrom(s, 6);
    assert AngleFrom(s, 6) == AngleFrom(s, 7);
    assert AngleFrom(s, 7) == AngleFrom(s, 8);
    assert RunEnd(s, 8) == 8;
    assert RunEnd(s, 7) == 8;
    assert RunEnd(s, 6) == 8;
    assert RunEnd(s, 5) == 8;
    assert RunEnd(s, 4) == 4;
    assert RunEnd(s, 3) == 4;
    assert RunEnd(s, 2) == 4;
    assert RunEnd(s, 1) == 4;
    assert RunEnd(s, 0) == 4;
    assert TokenFrom(s, 5) == None;
    assert TokenFrom(s, 4) == None;
    assert TokenFrom(s, 0) == None;
  }
}

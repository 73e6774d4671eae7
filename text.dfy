/** Character and string helpers shared by every component: ASCII case
    folding, substring search and the keyword tests that the rule chains use.
    `toLowerCase()` in TypeScript and `lower()` in Python are modelled on the
    ASCII letters only. */
module Text {

  function LowerChar(c: char): char
  {
    if 'A' <= c <= 'Z' then (c as int + 32) as char else c
  }

  /** Lower-cases every ASCII letter and leaves every other character alone. */
  function Lower(s: string): string
  {
    seq(|s|, i requires 0 <= i < |s| => LowerChar(s[i]))
  }

  lemma LowerIdempotent(s: string)
    ensures Lower(Lower(s)) == Lower(s)
  {
  }

  lemma LowerAppend(a: string, b: string)
    ensures Lower(a + b) == Lower(a) + Lower(b)
  {
    assert forall i :: 0 <= i < |a + b| ==> Lower(a + b)[i] == (Lower(a) + Lower(b))[i];
  }

  /** `word` occurs in `text` starting at position `i`. */
  predicate OccursAt(text: string, word: string, i: int)
  {
    0 <= i && i + |word| <= |text| && text[i..i + |word|] == word
  }

  /** Substring test (`includes` in TypeScript, `in` in Python), by a left-to-right scan. */
  function Contains(text: string, word: string): bool
    decreases |text|
  {
    |word| <= |text| && (text[..|word|] == word || Contains(text[1..], word))
  }

  /** The scan finds exactly the words that occur somewhere in the text. */
  lemma {:induction false} ContainsIff(text: string, word: string)
    ensures Contains(text, word) <==> exists i :: OccursAt(text, word, i)
    decreases |text|
  {
    if |word| <= |text| {
      if text[..|word|] == word {
        assert OccursAt(text, word, 0);
      } else {
        ContainsIff(text[1..], word);
        if Contains(text[1..], word) {
          var j :| OccursAt(text[1..], word, j);
          assert text[1..][j..j + |word|] == text[j + 1..j + 1 + |word|];
          assert OccursAt(text, word, j + 1);
        } else {
          forall i | OccursAt(text, word, i)
            ensures OccursAt(text[1..], word, i - 1)
          {
            assert text[1..][i - 1..i - 1 + |word|] == text[i..i + |word|];
          }
        }
      }
    }
  }

  /** Python `any(word in text for word in words)`, also the `||` chains of `includes` calls. */
  function ContainsAny(text: string, words: seq<string>): bool
  {
    |words| > 0 && (Contains(text, words[0]) || ContainsAny(text, words[1..]))
  }

  lemma {:induction false} ContainsAnyIff(text: string, words: seq<string>)
    ensures ContainsAny(text, words) <==> exists k :: 0 <= k < |words| && Contains(text, words[k])
  {
    if |words| > 0 {
      ContainsAnyIff(text, words[1..]);
      if ContainsAny(text, words[1..]) {
        var k :| 0 <= k < |words[1..]| && Contains(text, words[1..][k]);
        assert Contains(text, words[k + 1]);
      }
      forall k | 0 < k < |words| && Contains(text, words[k])
        ensures ContainsAny(text, words[1..])
      {
        assert words[1..][k - 1] == words[k];
      }
    }
  }

  /** A window of `a + " " + b` that holds no blank lies wholly in `a` or
      wholly in `b`. */
  lemma OccursJoined(a: string, b: string, word: string, i: int)
    requires ' ' !in word && OccursAt(a + " " + b, word, i)
    ensures OccursAt(a, word, i) || OccursAt(b, word, i - |a| - 1)
  {
    var t := a + " " + b;
    if i + |word| <= |a| {
      assert t[i..i + |word|] == a[i..i + |word|];
    } else {
      assert t[|a|] == ' ';
      assert forall p :: i <= p < i + |word| ==> t[p] == word[p - i];
      assert i > |a|;
      assert t[i..i + |word|] == b[i - |a| - 1..i - |a| - 1 + |word|];
    }
  }

  lemma OccursLeft(a: string, b: string, word: string, i: int)
    requires OccursAt(a, word, i)
    ensures OccursAt(a + " " + b, word, i)
  {
    assert (a + " " + b)[i..i + |word|] == a[i..i + |word|];
  }

  lemma OccursRight(a: string, b: string, word: string, i: int)
    requires OccursAt(b, word, i)
    ensures OccursAt(a + " " + b, word, i + |a| + 1)
  {
    assert (a + " " + b)[i + |a| + 1..i + |a| + 1 + |word|] == b[i..i + |word|];
  }

  /** Python's `f"{sender} {subject}"` test relies on this. */
  lemma ContainsJoined(a: string, b: string, word: string)
    requires ' ' !in word
    ensures Contains(a + " " + b, word) <==> Contains(a, word) || Contains(b, word)
  {
    var t := a + " " + b;
    ContainsIff(t, word);
    ContainsIff(a, word);
    ContainsIff(b, word);
    if Contains(t, word) {
      var i :| OccursAt(t, word, i);
      OccursJoined(a, b, word, i);
    }
    if Contains(a, word) {
      var i :| OccursAt(a, word, i);
      OccursLeft(a, b, word, i);
    }
    if Contains(b, word) {
      var i :| OccursAt(b, word, i);
      OccursRight(a, b, word, i);
    }
  }

  lemma ContainsAnyJoined(a: string, b: string, words: seq<string>)
    requires forall k :: 0 <= k < |words| ==> ' ' !in words[k]
    ensures ContainsAny(a + " " + b, words) <==> ContainsAny(a, words) || ContainsAny(b, words)
  {
    ContainsAnyIff(a + " " + b, words);
    ContainsAnyIff(a, words);
    ContainsAnyIff(b, words);
    forall k | 0 <= k < |words|
      ensures Contains(a + " " + b, words[k]) <==> Contains(a, words[k]) || Contains(b, words[k])
    {
      ContainsJoined(a, b, words[k]);
    }
  }

  predicate IsDigit(c: char) { '0' <= c <= '9' }

  predicate IsAsciiLetter(c: char) { 'a' <= c <= 'z' || 'A' <= c <= 'Z' }

  /** The `n` characters from position `i` on are all digits. */
  predicate DigitRunAt(s: string, i: int, n: nat)
  {
    0 <= i && i + n <= |s| && forall j :: i <= j < i + n ==> IsDigit(s[j])
  }

  /** The `n` characters from position `i` on are all ASCII letters. */
  predicate LetterRunAt(s: string, i: int, n: nat)
  {
    0 <= i && i + n <= |s| && forall j :: i <= j < i + n ==> IsAsciiLetter(s[j])
  }

  /** Regular expression `\d{n,}`: some run of at least `n` digits. */
  predicate HasDigitRun(s: string, n: nat)
  {
    exists i :: 0 <= i <= |s| && DigitRunAt(s, i, n)
  }

  /** Regular expression `[A-Z]{n,}` under IGNORECASE, on ASCII text. */
  predicate HasLetterRun(s: string, n: nat)
  {
    exists i :: 0 <= i <= |s| && LetterRunAt(s, i, n)
  }
}

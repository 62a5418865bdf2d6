/**
 * Literal string rewriting: the left-to-right, non-overlapping replacement
 * that `String.prototype.replaceAll` performs with a string pattern (and
 * `replace` with a global regular expression that matches one fixed word).
 */
module Text {

  /** `pat` occurs in `s` starting at index `i`. */
  predicate OccursAt(s: string, pat: string, i: int) {
    0 <= i && i + |pat| <= |s| && s[i..i + |pat|] == pat
  }

  /** `pat` occurs somewhere in `s`. */
  predicate Contains(s: string, pat: string) {
    exists i | 0 <= i <= |s| :: OccursAt(s, pat, i)
  }

  predicate StartsWith(s: string, pat: string) {
    |pat| <= |s| && s[..|pat|] == pat
  }

  /** A string that starts with a word agrees with it at each of its positions. */
  lemma StartsWithAt(s: string, pat: string, i: nat)
    requires i < |pat|
    ensures StartsWith(s, pat) ==> i < |s| && s[i] == pat[i]
  {
    if StartsWith(s, pat) {
      assert s[i] == s[..|pat|][i];
    }
  }

  /**
   * Scans `s` from the left; at each position where `pat` starts, emits `rep`
   * and resumes after the match, otherwise copies one character.
   */
  function ReplaceAll(s: string, pat: string, rep: string): string
    requires |pat| > 0
    decreases |s|
  {
    if |s| < |pat| then s
    else if s[..|pat|] == pat then rep + ReplaceAll(s[|pat|..], pat, rep)
    else [s[0]] + ReplaceAll(s[1..], pat, rep)
  }

  /** A string that starts with a word agrees with it on every slice of it. */
  lemma StartsWithSlice(s: string, pat: string, i: nat, j: nat)
    requires i <= j <= |pat|
    ensures StartsWith(s, pat) ==> j <= |s| && s[i..j] == pat[i..j]
  {
    if StartsWith(s, pat) {
      forall k | 0 <= k < j - i
        ensures s[i..j][k] == pat[i..j][k]
      {
        assert s[i + k] == s[..|pat|][i + k];
      }
    }
  }

  /** Starting with `p + q` means starting with `p`. */
  lemma StartsWithPrefix(s: string, p: string, q: string)
    ensures StartsWith(s, p + q) ==> StartsWith(s, p)
  {
    if StartsWith(s, p + q) {
      assert s[..|p|] == s[..|p + q|][..|p|];
    }
  }

  /** Two leading characters make a two-character prefix. */
  lemma StartsWithPair(s: string, a: char, b: char)
    ensures |s| >= 2 && s[0] == a && s[1] == b ==> StartsWith(s, [a, b])
  {
    if |s| >= 2 && s[0] == a && s[1] == b {
      assert s[..2] == [a, b];
    }
  }

  // ---------------------------------------------------------------------
  // Facts about occurrences

  /** A string that lacks `pat` does not start with it. */
  lemma NotContainsHead(s: string, pat: string)
    requires !Contains(s, pat)
    ensures !StartsWith(s, pat)
  {
    assert StartsWith(s, pat) ==> OccursAt(s, pat, 0);
  }

  /** An occurrence in a suffix is an occurrence in the whole string. */
  lemma OccursInSuffix(s: string, pat: string, k: nat, i: int)
    requires k <= |s|
    requires OccursAt(s[k..], pat, i)
    ensures OccursAt(s, pat, i + k)
  {
    assert s[k..][i..i + |pat|] == s[i + k..i + k + |pat|];
  }

  /** A string that lacks `pat` has suffixes that lack it too. */
  lemma NotContainsSuffix(s: string, pat: string, k: nat)
    requires k <= |s|
    requires !Contains(s, pat)
    ensures !Contains(s[k..], pat)
  {
    if Contains(s[k..], pat) {
      var i :| OccursAt(s[k..], pat, i);
      OccursInSuffix(s, pat, k, i);
    }
  }

  /** A string with no occurrence of the first character of `pat` lacks `pat`. */
  lemma FirstCharAbsent(s: string, pat: string)
    requires |pat| > 0
    requires pat[0] !in s
    ensures !Contains(s, pat)
  {
  }

  /** Lacking `p` means lacking every word that starts with `p`. */
  lemma NotContainsExtension(s: string, p: string, q: string)
    requires !Contains(s, p)
    ensures !Contains(s, p + q)
  {
    forall i | OccursAt(s, p + q, i)
      ensures OccursAt(s, p, i)
    {
      assert s[i..i + |p|] == s[i..i + |p + q|][..|p|];
    }
  }

  // ---------------------------------------------------------------------
  // Decimal rendering of numbers inside template strings

  function DigitChar(d: nat): (c: char)
    requires d < 10
    ensures '0' <= c <= '9'
  {
    ('0' as int + d) as char
  }

  /** `${n}` for a non-negative integer: its decimal digits, most significant first. */
  function DecimalString(n: nat): (s: string)
    ensures |s| > 0
    ensures forall i | 0 <= i < |s| :: '0' <= s[i] <= '9'
    decreases n
  {
    if n < 10 then [DigitChar(n)] else DecimalString(n / 10) + [DigitChar(n % 10)]
  }

  /** The number a string of decimal digits denotes. */
  function DecimalValue(s: string): nat
    requires forall i | 0 <= i < |s| :: '0' <= s[i] <= '9'
    decreases |s|
  {
    if |s| == 0 then 0
    else 10 * DecimalValue(s[..|s| - 1]) + (s[|s| - 1] as int - '0' as int)
  }

  /** Reading back the rendered digits gives the number. */
  lemma {:induction false} DecimalRoundTrip(n: nat)
    ensures DecimalValue(DecimalString(n)) == n
    decreases n
  {
    var s := DecimalString(n);
    if n >= 10 {
      DecimalRoundTrip(n / 10);
      assert s[..|s| - 1] == DecimalString(n / 10);
    }
  }

  // ---------------------------------------------------------------------
  // Facts about ReplaceAll

  /** Where the pattern does not start, one character is copied and the scan moves on. */
  lemma ReplaceAllStep(s: string, pat: string, rep: string)
    requires |pat| > 0 && |s| > 0 && !StartsWith(s, pat)
    ensures ReplaceAll(s, pat, rep) == [s[0]] + ReplaceAll(s[1..], pat, rep)
  {
    if |s| < |pat| {
      assert [s[0]] + s[1..] == s;
    }
  }

  /** A chunk without the pattern's first character passes through the scan untouched. */
  lemma {:induction false} ReplaceAllPlainChunk(chunk: string, rest: string, pat: string, rep: string)
    requires |pat| > 0 && pat[0] !in chunk
    ensures ReplaceAll(chunk + rest, pat, rep) == chunk + ReplaceAll(rest, pat, rep)
    decreases |chunk|
  {
    if |chunk| > 0 {
      var s := chunk + rest;
      StartsWithAt(s, pat, 0);
      assert s[0] == chunk[0];
      ReplaceAllStep(s, pat, rep);
      assert s[1..] == chunk[1..] + rest;
      ReplaceAllPlainChunk(chunk[1..], rest, pat, rep);
      assert chunk == [chunk[0]] + chunk[1..];
    } else {
      assert chunk + rest == rest;
    }
  }

  /** Text without any occurrence of the pattern is returned unchanged. */
  lemma {:induction false} ReplaceAllAbsent(s: string, pat: string, rep: string)
    requires |pat| > 0
    requires !Contains(s, pat)
    ensures ReplaceAll(s, pat, rep) == s
    decreases |s|
  {
    if |s| >= |pat| {
      NotContainsHead(s, pat);
      NotContainsSuffix(s, pat, 1);
      ReplaceAllAbsent(s[1..], pat, rep);
      assert [s[0]] + s[1..] == s;
    }
  }

  /** Every character of the output comes from the input or the replacement. */
  lemma {:induction false} ReplaceAllChars(s: string, pat: string, rep: string, c: char)
    requires |pat| > 0
    requires c in ReplaceAll(s, pat, rep)
    ensures c in s || c in rep
    decreases |s|
  {
    if |s| < |pat| {
    } else if s[..|pat|] == pat {
      var t := ReplaceAll(s[|pat|..], pat, rep);
      if c !in rep {
        assert c in t;
        ReplaceAllChars(s[|pat|..], pat, rep, c);
      }
    } else {
      var t := ReplaceAll(s[1..], pat, rep);
      if c != s[0] {
        assert c in t;
        ReplaceAllChars(s[1..], pat, rep, c);
      }
    }
  }

  /** A character absent from the input and the replacement is absent from the output. */
  lemma ReplaceAllKeepsAbsent(s: string, pat: string, rep: string, c: char)
    requires |pat| > 0
    requires c !in s && c !in rep
    ensures c !in ReplaceAll(s, pat, rep)
  {
    if c in ReplaceAll(s, pat, rep) {
      ReplaceAllChars(s, pat, rep, c);
    }
  }

  /** Replacing a pattern by one of the same length preserves the length. */
  lemma {:induction false} ReplaceAllLength(s: string, pat: string, rep: string)
    requires |pat| > 0 && |rep| == |pat|
    ensures |ReplaceAll(s, pat, rep)| == |s|
    decreases |s|
  {
    if |s| < |pat| {
    } else if s[..|pat|] == pat {
      ReplaceAllLength(s[|pat|..], pat, rep);
    } else {
      ReplaceAllLength(s[1..], pat, rep);
    }
  }

  /** No two adjacent characters of `s` are both `a`. */
  predicate NoPair(s: string, a: char) {
    forall i | 0 <= i < |s| - 1 :: !(s[i] == a && s[i + 1] == a)
  }

  /** Text with no two adjacent `a`s does not contain `aa`. */
  lemma NoPairNotContains(s: string, a: char)
    requires NoPair(s, a)
    ensures !Contains(s, [a, a])
  {
    forall i | 0 <= i <= |s|
      ensures !OccursAt(s, [a, a], i)
    {
      if i + 2 <= |s| {
        assert s[i..i + 2][0] == s[i] && s[i..i + 2][1] == s[i + 1];
      }
    }
  }

  /** Joining two texts free of `aa` makes no `aa` unless an `a` ends one and starts the other. */
  lemma NoPairConcat(x: string, y: string, a: char)
    requires NoPair(x, a) && NoPair(y, a)
    requires !(|x| > 0 && |y| > 0 && x[|x| - 1] == a && y[0] == a)
    ensures NoPair(x + y, a)
  {
    var z := x + y;
    forall i | 0 <= i < |z| - 1
      ensures !(z[i] == a && z[i + 1] == a)
    {
      if i + 1 < |x| {
        assert z[i] == x[i] && z[i + 1] == x[i + 1];
      } else if i >= |x| {
        assert z[i] == y[i - |x|] && z[i + 1] == y[i - |x| + 1];
      }
    }
  }

  /** A suffix of text free of `aa` is free of it too. */
  lemma NoPairSuffix(s: string, a: char, k: nat)
    requires NoPair(s, a) && k <= |s|
    ensures NoPair(s[k..], a)
  {
    forall i | 0 <= i < |s[k..]| - 1
      ensures !(s[k..][i] == a && s[k..][i + 1] == a)
    {
      assert s[k..][i] == s[k + i] && s[k..][i + 1] == s[k + i + 1];
    }
  }

  /**
   * Swapping every `aa` for `bb` leaves no two adjacent `a`s; an output that
   * opens with `a` comes from an input opening with a lone `a`.
   */
  lemma {:induction false} SwapLeavesNoPair(s: string, a: char, b: char)
    requires a != b
    ensures NoPair(ReplaceAll(s, [a, a], [b, b]), a)
    ensures var out := ReplaceAll(s, [a, a], [b, b]);
            |out| > 0 && out[0] == a ==> |s| > 0 && s[0] == a && !StartsWith(s, [a, a])
    decreases |s|
  {
    var out := ReplaceAll(s, [a, a], [b, b]);
    if |s| < 2 {
      assert out == s;
    } else if s[..2] == [a, a] {
      var t := ReplaceAll(s[2..], [a, a], [b, b]);
      assert out == [b, b] + t;
      SwapLeavesNoPair(s[2..], a, b);
      NoPairConcat([b, b], t, a);
    } else {
      var t := ReplaceAll(s[1..], [a, a], [b, b]);
      assert out == [s[0]] + t;
      SwapLeavesNoPair(s[1..], a, b);
      NoPairConcat([s[0]], t, a);
    }
  }

  /**
   * The swap keeps the length and changes a character only by turning an `a`
   * into a `b`: together with `SwapLeavesNoPair`, each `aa` became `bb`.
   */
  lemma {:induction false} SwapPositions(s: string, a: char, b: char)
    ensures var out := ReplaceAll(s, [a, a], [b, b]);
            && |out| == |s|
            && forall i | 0 <= i < |s| :: out[i] == s[i] || (s[i] == a && out[i] == b)
    decreases |s|
  {
    var out := ReplaceAll(s, [a, a], [b, b]);
    if |s| < 2 {
    } else if s[..2] == [a, a] {
      var t := ReplaceAll(s[2..], [a, a], [b, b]);
      assert out == [b, b] + t;
      SwapPositions(s[2..], a, b);
      forall i | 0 <= i < |s|
        ensures out[i] == s[i] || (s[i] == a && out[i] == b)
      {
        if i < 2 {
          assert s[i] == s[..2][i];
        } else {
          assert out[i] == t[i - 2] && s[i] == s[2..][i - 2];
        }
      }
    } else {
      var t := ReplaceAll(s[1..], [a, a], [b, b]);
      assert out == [s[0]] + t;
      SwapPositions(s[1..], a, b);
      forall i | 1 <= i < |s|
        ensures out[i] == s[i] || (s[i] == a && out[i] == b)
      {
        assert out[i] == t[i - 1] && s[i] == s[1..][i - 1];
      }
    }
  }

  /**
   * Replacing a word by a non-empty replacement free of `a` never joins two
   * `a`s; an output that opens with `a` comes from an input opening with `a`.
   */
  lemma {:induction false} ReplaceAllKeepsNoPair(s: string, pat: string, rep: string, a: char)
    requires |pat| > 0 && |rep| > 0 && a !in rep
    requires NoPair(s, a)
    ensures NoPair(ReplaceAll(s, pat, rep), a)
    ensures var out := ReplaceAll(s, pat, rep);
            |out| > 0 && out[0] == a ==> |s| > 0 && s[0] == a
    decreases |s|
  {
    var out := ReplaceAll(s, pat, rep);
    if |s| < |pat| {
      assert out == s;
    } else if s[..|pat|] == pat {
      var t := ReplaceAll(s[|pat|..], pat, rep);
      assert out == rep + t;
      NoPairSuffix(s, a, |pat|);
      ReplaceAllKeepsNoPair(s[|pat|..], pat, rep, a);
      assert rep[|rep| - 1] in rep && rep[0] in rep;
      NoPairConcat(rep, t, a);
      assert out[0] == rep[0];
    } else {
      var t := ReplaceAll(s[1..], pat, rep);
      assert out == [s[0]] + t;
      NoPairSuffix(s, a, 1);
      ReplaceAllKeepsNoPair(s[1..], pat, rep, a);
      NoPairConcat([s[0]], t, a);
    }
  }

  /**
   * Swapping a doubled delimiter `aa` for `bb` and back restores the text,
   * provided the text never contained the character `b`.
   */
  lemma {:induction false} SwapRoundTrip(s: string, a: char, b: char)
    requires a != b
    requires b !in s
    ensures ReplaceAll(ReplaceAll(s, [a, a], [b, b]), [b, b], [a, a]) == s
    decreases |s|
  {
    var x := ReplaceAll(s, [a, a], [b, b]);
    if |s| < 2 {
    } else if s[..2] == [a, a] {
      var t := ReplaceAll(s[2..], [a, a], [b, b]);
      assert x == [b, b] + t;
      assert x[..2] == [b, b] && x[2..] == t;
      SwapRoundTrip(s[2..], a, b);
      assert ReplaceAll(x, [b, b], [a, a]) == [a, a] + s[2..];
      assert [a, a] + s[2..] == s;
    } else {
      var t := ReplaceAll(s[1..], [a, a], [b, b]);
      assert x == [s[0]] + t;
      ReplaceAllLength(s[1..], [a, a], [b, b]);
      assert |t| == |s| - 1 >= 1;
      assert x[..2] != [b, b] by { assert x[0] == s[0] != b; }
      assert x[1..] == t;
      SwapRoundTrip(s[1..], a, b);
      assert ReplaceAll(x, [b, b], [a, a]) == [s[0]] + s[1..];
      assert [s[0]] + s[1..] == s;
    }
  }
}

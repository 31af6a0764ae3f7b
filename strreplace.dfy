/**
 * PHP's `str_replace` for one search string: the subject is scanned from
 * left to right and every non-overlapping occurrence of the search string
 * is replaced; an empty search string leaves the subject unchanged.
 */
module StrReplace {

  /** `needle` occurs in `s` starting at index `i`. */
  predicate MatchAt(s: string, i: int, needle: string)
  {
    0 <= i && i + |needle| <= |s| && s[i..i + |needle|] == needle
  }

  /** `needle` occurs somewhere in `s`. */
  predicate Occurs(s: string, needle: string)
  {
    exists i | 0 <= i <= |s| :: MatchAt(s, i, needle)
  }

  /** `str_replace(needle, repl, s)`. */
  function Replace(needle: string, repl: string, s: string): string
    decreases |s|
  {
    if needle == [] || |s| < |needle| then s
    else if s[..|needle|] == needle then repl + Replace(needle, repl, s[|needle|..])
    else [s[0]] + Replace(needle, repl, s[1..])
  }

  /** A match in a suffix is a match in the whole string, shifted by the cut. */
  lemma MatchInSuffix(s: string, k: nat, i: nat, needle: string)
    requires k <= |s|
    ensures MatchAt(s[k..], i, needle) <==> MatchAt(s, i + k, needle)
  {
    if i + |needle| <= |s| - k {
      assert s[k..][i..i + |needle|] == s[i + k..i + k + |needle|];
    }
  }

  /** A match inside the middle piece of a concatenation is a match of the whole. */
  lemma MatchInMiddle(a: string, b: string, c: string, i: nat, needle: string)
    requires MatchAt(b, i, needle)
    ensures MatchAt(a + b + c, |a| + i, needle)
  {
    var s := a + b + c;
    assert s[|a| + i..|a| + i + |needle|] == b[i..i + |needle|];
  }

  /** Every occurrence of the needle brings each of its characters into the subject. */
  lemma OccursBringsChar(s: string, needle: string, k: nat)
    requires k < |needle|
    ensures Occurs(s, needle) ==> needle[k] in s
  {
    if Occurs(s, needle) {
      var i :| 0 <= i <= |s| && MatchAt(s, i, needle);
      assert s[i + k] == s[i..i + |needle|][k];
    }
  }

  /**
   * When the left piece ends with a character the needle does not contain,
   * no occurrence straddles the join: each lies wholly in one piece.
   */
  lemma OccursInJoin(a: string, b: string, needle: string, c: char)
    requires a != [] && a[|a| - 1] == c && c !in needle
    ensures Occurs(a + b, needle) ==> Occurs(a, needle) || Occurs(b, needle)
  {
    if Occurs(a + b, needle) {
      var s := a + b;
      var n := |needle|;
      var i :| 0 <= i <= |s| && MatchAt(s, i, needle);
      forall k | i <= k < i + n ensures s[k] != c {
        assert s[k] == s[i..i + n][k - i];
      }
      assert s[|a| - 1] == c;
      if i + n <= |a| {
        assert s[i..i + n] == a[i..i + n];
        assert MatchAt(a, i, needle);
      } else {
        assert s[i..i + n] == b[i - |a|..i - |a| + n];
        assert MatchAt(b, i - |a|, needle);
      }
    }
  }

  /** A middle piece that ends with the needle gives a match at its end. */
  lemma MatchAtEndOfMiddle(a: string, b: string, c: string, needle: string)
    requires |needle| <= |b| && b[|b| - |needle|..] == needle
    ensures MatchAt(a + b + c, |a| + |b| - |needle|, needle)
  {
    var s := a + b + c;
    assert s[|a| + |b| - |needle|..|a| + |b|] == b[|b| - |needle|..];
  }

  /**
   * Characters before the first occurrence are copied unchanged: if no
   * occurrence starts before `k`, replacing in `s` is replacing in `s[k..]`
   * behind the untouched prefix `s[..k]`.
   */
  lemma {:induction false} ReplaceSkipsPrefix(needle: string, repl: string, s: string, k: nat)
    requires k <= |s|
    requires forall i :: 0 <= i < k ==> !MatchAt(s, i, needle)
    ensures Replace(needle, repl, s) == s[..k] + Replace(needle, repl, s[k..])
    decreases k
  {
    if k == 0 {
      assert s[..0] == [] && s[0..] == s;
    } else if needle == [] {
      assert s == s[..k] + s[k..];
    } else if |s| < |needle| {
      assert |s[k..]| < |needle|;
      assert s == s[..k] + s[k..];
    } else {
      assert !MatchAt(s, 0, needle);
      assert s[..|needle|] != needle;
      var t := s[1..];
      forall i | 0 <= i < k - 1 ensures !MatchAt(t, i, needle) {
        MatchInSuffix(s, 1, i, needle);
      }
      ReplaceSkipsPrefix(needle, repl, t, k - 1);
      assert t[..k - 1] == s[1..k];
      assert t[k - 1..] == s[k..];
      assert [s[0]] + s[1..k] == s[..k];
    }
  }

  /** A subject without any occurrence of the search string comes back unchanged. */
  lemma ReplaceNoMatch(needle: string, repl: string, s: string)
    requires !Occurs(s, needle)
    ensures Replace(needle, repl, s) == s
  {
    ReplaceSkipsPrefix(needle, repl, s, |s|);
    assert s[..|s|] == s;
    assert s[|s|..] == [];
  }

  /**
   * The first occurrence, at `k`, is replaced by `repl`, the text before it
   * is kept, and the scan resumes right after the occurrence.
   */
  lemma {:induction false} ReplaceFirst(needle: string, repl: string, s: string, k: nat)
    requires needle != []
    requires MatchAt(s, k, needle)
    requires forall i :: 0 <= i < k ==> !MatchAt(s, i, needle)
    ensures Replace(needle, repl, s) == s[..k] + repl + Replace(needle, repl, s[k + |needle|..])
  {
    ReplaceSkipsPrefix(needle, repl, s, k);
    var t := s[k..];
    assert t[..|needle|] == s[k..k + |needle|] == needle;
    assert t[|needle|..] == s[k + |needle|..];
    var r := Replace(needle, repl, t[|needle|..]);
    assert Replace(needle, repl, t) == repl + r;
    assert s[..k] + (repl + r) == s[..k] + repl + r;
  }

  /**
   * When the replacement ends with the needle, the needle is found again
   * at the end of the replacement of its first occurrence.
   */
  lemma ReplacementEndsWithNeedle(needle: string, repl: string, s: string, k: nat)
    requires needle != [] && MatchAt(s, k, needle)
    requires forall i :: 0 <= i < k ==> !MatchAt(s, i, needle)
    requires |repl| >= |needle| && repl[|repl| - |needle|..] == needle
    ensures MatchAt(Replace(needle, repl, s), k + |repl| - |needle|, needle)
  {
    ReplaceFirst(needle, repl, s, k);
    assert MatchAt(repl, |repl| - |needle|, needle);
    MatchInMiddle(s[..k], repl, Replace(needle, repl, s[k + |needle|..]), |repl| - |needle|, needle);
  }

  /**
   * Widening the middle of `x + m + y` to a longer `b` that ends with `m`
   * creates no new match of `needle`, when `b` holds no match itself and
   * begins with a character `c` that `needle` has only at its start: every
   * match in `x + b + y` lies in `x`, or is a match of `x + m + y` moved
   * right by the growth.
   */
  lemma MatchAcrossWidening(x: string, m: string, b: string, y: string, needle: string, i: int, c: char)
    requires needle != [] && |needle| <= |m| <= |b| && b[|b| - |m|..] == m && b[0] == c
    requires forall k :: 0 < k < |needle| ==> needle[k] != c
    requires !Occurs(b, needle)
    requires MatchAt(x + b + y, i, needle)
    ensures i < |x| ==> MatchAt(x + m + y, i, needle)
    ensures i >= |x| ==> i >= |x| + |b| - |m| && MatchAt(x + m + y, i - (|b| - |m|), needle)
  {
    if i < |x| {
      MatchBeforeWidening(x, m, b, y, needle, i, c);
    } else {
      MatchAfterWidening(x, m, b, y, needle, i);
    }
  }

  /** A match that starts before the widened middle ends before it, and so is unaffected. */
  lemma MatchBeforeWidening(x: string, m: string, b: string, y: string, needle: string, i: int, c: char)
    requires needle != [] && |m| <= |b| && b != [] && b[0] == c
    requires forall k :: 0 < k < |needle| ==> needle[k] != c
    requires MatchAt(x + b + y, i, needle) && i < |x|
    ensures MatchAt(x + m + y, i, needle)
  {
    var s, s' := x + b + y, x + m + y;
    var n := |needle|;
    forall k | i < k < i + n ensures s[k] != b[0] {
      assert s[k] == needle[k - i];
    }
    assert s[|x|] == c;
    assert s[i..i + n] == x[i..i + n] == s'[i..i + n];
  }

  /** A match that starts in the widened middle runs past it, and so reads the same text as before the widening. */
  lemma MatchAfterWidening(x: string, m: string, b: string, y: string, needle: string, i: int)
    requires needle != [] && |needle| <= |m| <= |b| && b[|b| - |m|..] == m
    requires !Occurs(b, needle)
    requires MatchAt(x + b + y, i, needle) && i >= |x|
    ensures i >= |x| + |b| - |m| && MatchAt(x + m + y, i - (|b| - |m|), needle)
  {
    var s, s' := x + b + y, x + m + y;
    var n := |needle|;
    assert i - |x| <= |b| && i + n <= |x| + |b| ==> b[i - |x|..i - |x| + n] == s[i..i + n];
    assert i - |x| <= |b| ==> !MatchAt(b, i - |x|, needle);
    var g := |b| - |m|;
    var z, j := m + y, i - |x| - g;
    assert s[|x| + g..] == z by {
      assert s[|x| + g..] == b[g..] + y;
    }
    assert s[i..i + n] == z[j..j + n];
    assert s' == x + z;
    assert s'[i - g..i - g + n] == z[j..j + n];
  }
}

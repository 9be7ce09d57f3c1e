/** `_fuzzy_match`: whether every character of a pattern appears in a text,
    in order. */
module Fuzzy {

  /** `f` places the characters of `p` at increasing positions of `t`. */
  ghost predicate Embeds(f: seq<nat>, p: string, t: string) {
    && |f| == |p|
    && (forall i :: 0 <= i < |f| ==> f[i] < |t| && t[f[i]] == p[i])
    && (forall i, j :: 0 <= i < j < |f| ==> f[i] < f[j])
  }

  /** `p` is a subsequence of `t`. */
  ghost predicate IsSubsequence(p: string, t: string) {
    exists f :: Embeds(f, p, t)
  }

  /** The empty pattern is a subsequence of every text. */
  lemma EmptyIsSubsequence(t: string)
    ensures IsSubsequence([], t)
  {
    assert Embeds([], [], t);
  }

  /** A pattern longer than the text is never a subsequence of it. */
  lemma LongerIsNotSubsequence(p: string, t: string)
    requires |p| > |t|
    ensures !IsSubsequence(p, t)
  {
    if IsSubsequence(p, t) {
      var f :| Embeds(f, p, t);
      BoundedIncreasing(f, |t|);
    }
  }

  /** Strictly increasing positions below `n` are at most `n` many. */
  lemma {:induction false} BoundedIncreasing(f: seq<nat>, n: nat)
    requires forall i :: 0 <= i < |f| ==> f[i] < n
    requires forall i, j :: 0 <= i < j < |f| ==> f[i] < f[j]
    ensures |f| <= n
    decreases |f|
  {
    if |f| > 0 {
      var init := f[..|f| - 1];
      assert forall i :: 0 <= i < |init| ==> init[i] < f[|f| - 1];
      BoundedIncreasing(init, f[|f| - 1]);
    }
  }

  /** An embedding into one more text character, with the pattern's last
      character dropped, stays inside the shorter text. */
  lemma DropLast(p: string, t: string, j: nat)
    requires j < |t| && |p| > 0
    ensures IsSubsequence(p, t[..j + 1]) ==> IsSubsequence(p[..|p| - 1], t[..j])
  {
    if IsSubsequence(p, t[..j + 1]) {
      var f :| Embeds(f, p, t[..j + 1]);
      var m := |f| - 1;
      forall i | 0 <= i < m ensures f[i] < j && t[..j][f[i]] == p[..m][i] {
        assert f[i] < f[m] < j + 1;
        assert t[..j + 1][f[i]] == p[i];
      }
      assert Embeds(f[..m], p[..m], t[..j]);
    }
  }

  /** If the new text character is not the pattern's last one, the embedding
      did not use it. */
  lemma SkipLast(p: string, t: string, j: nat)
    requires j < |t| && |p| > 0
    ensures IsSubsequence(p, t[..j + 1]) && t[j] != p[|p| - 1] ==> IsSubsequence(p, t[..j])
  {
    if IsSubsequence(p, t[..j + 1]) && t[j] != p[|p| - 1] {
      var f :| Embeds(f, p, t[..j + 1]);
      var m := |f| - 1;
      assert f[m] != j by { assert t[..j + 1][f[m]] == p[m]; }
      forall i | 0 <= i < |f| ensures f[i] < j && t[..j][f[i]] == p[i] {
        assert f[i] <= f[m];
        assert t[..j + 1][f[i]] == p[i];
      }
      assert Embeds(f, p, t[..j]);
    }
  }

  /** Every prefix of a subsequence is a subsequence. */
  lemma PrefixSubsequence(p: string, t: string, n: nat)
    requires n <= |p|
    ensures IsSubsequence(p, t) ==> IsSubsequence(p[..n], t)
  {
    if IsSubsequence(p, t) {
      var f :| Embeds(f, p, t);
      assert Embeds(f[..n], p[..n], t);
    }
  }

  /** `_fuzzy_match(pattern, text)`: the greedy scan is exactly the
      subsequence test. */
  method FuzzyMatch(pattern: string, text: string) returns (b: bool)
    ensures b <==> IsSubsequence(pattern, text)
  {
    var k := 0;
    ghost var f: seq<nat> := [];
    if |pattern| > 0 {
      LongerIsNotSubsequence(pattern[..1], text[..0]);
    }
    for j := 0 to |text|
      invariant k <= |pattern|
      invariant Embeds(f, pattern[..k], text[..j])
      invariant k < |pattern| ==> !IsSubsequence(pattern[..k + 1], text[..j])
    {
      if k < |pattern| && text[j] == pattern[k] {
        NotLonger(pattern, text, k, j);
        f := f + [j];
        k := k + 1;
        assert pattern[..k][..k - 1] == pattern[..k - 1];
        forall i | 0 <= i < |f| ensures f[i] < j + 1 && text[..j + 1][f[i]] == pattern[..k][i] {
          if i < k - 1 {
            assert text[..j][f[i]] == pattern[..k - 1][i];
          }
        }
      } else {
        forall i | 0 <= i < |f| ensures text[..j + 1][f[i]] == pattern[..k][i] {
          assert text[..j][f[i]] == pattern[..k][i];
        }
        if k < |pattern| {
          SkipLast(pattern[..k + 1], text, j);
        }
      }
    }
    assert text[..|text|] == text;
    b := k == |pattern|;
    if b {
      assert pattern[..k] == pattern;
    } else {
      PrefixSubsequence(pattern, text, k + 1);
    }
  }

  /** After matching the pattern's next character at `j`, the next prefix of
      the pattern does not fit before `j + 1`. */
  lemma NotLonger(pattern: string, text: string, k: nat, j: nat)
    requires k < |pattern| && j < |text| && text[j] == pattern[k]
    requires !IsSubsequence(pattern[..k + 1], text[..j])
    ensures k + 1 < |pattern| ==> !IsSubsequence(pattern[..k + 2], text[..j + 1])
  {
    if k + 1 < |pattern| {
      DropLast(pattern[..k + 2], text, j);
      assert pattern[..k + 2][..k + 1] == pattern[..k + 1];
    }
  }
}

/** Ranking structure shared by the file-based `hybrid_rank` and the
    database-backed `search`: the title/URL bonus and the top-k cut. Score
    values are floating point and stay outside the model; only whether the
    bonus is zero, its bounds, and the shape of the top-k list are modelled. */
module Ranking {
  import opened Strings
  import opened Tokenizer
  import opened Sorting
  import opened Counting

  /** How one query term matches a title (as its token list) and URL, in
      tenths: an exact title token 10, a substring of a title token 8, a
      substring of the URL 6, otherwise 0. */
  function TermWeight(qt: string, titleTokens: seq<string>, url: string): nat {
    if qt in titleTokens then 10
    else if exists i :: 0 <= i < |titleTokens| && Contains(titleTokens[i], qt) then 8
    else if Contains(url, qt) then 6
    else 0
  }

  /** The `matches` counter of `title_match_score`, in tenths. */
  function MatchTenths(qterms: seq<string>, titleTokens: seq<string>, url: string): nat
    decreases |qterms|
  {
    if qterms == [] then 0
    else TermWeight(qterms[0], titleTokens, url) + MatchTenths(qterms[1..], titleTokens, url)
  }

  /** A query term hits the title or URL in any of the three ways. */
  predicate Hits(qt: string, titleTokens: seq<string>, url: string) {
    qt in titleTokens
    || (exists i :: 0 <= i < |titleTokens| && Contains(titleTokens[i], qt))
    || Contains(url, qt)
  }

  /** `boost * (matches / q)` for a counter of `m` tenths over `q` terms. */
  function Scaled(boost: real, m: nat, q: nat): real
    requires q > 0
  {
    boost * ((m as real) / 10.0) / (q as real)
  }

  /** The bonus for a title given as its token list. */
  function Bonus(qterms: seq<string>, titleTokens: seq<string>, url: string, boost: real): real {
    var m := MatchTenths(qterms, titleTokens, url);
    if m == 0 || qterms == [] then 0.0
    else Scaled(boost, m, |qterms|)
  }

  /** `title_match_score(d)`: zero when nothing matches, otherwise the boost
      scaled by the average match weight. Titles and URLs are lower-cased
      first; the title's tokens are what it is matched against. */
  function TitleBonus(qterms: seq<string>, title: string, url: string, boost: real): real {
    Bonus(qterms, Tokenize(Lower(title)), Lower(url), boost)
  }

  /** The final score of both rankers: the BM25 score scaled by the floor
      weight, the weighted normalised PageRank and the title bonus. */
  function Combine(bm: real, prNorm: real, bonus: real, alpha: real, beta: real): real {
    bm * (alpha + beta * prNorm + bonus)
  }

  /** The bonus is zero exactly when no query term hits the title or URL. */
  lemma {:induction false} MatchTenthsZeroIff(qterms: seq<string>, titleTokens: seq<string>, url: string)
    ensures MatchTenths(qterms, titleTokens, url) == 0
            <==> forall k :: 0 <= k < |qterms| ==> !Hits(qterms[k], titleTokens, url)
    decreases |qterms|
  {
    if qterms != [] {
      MatchTenthsZeroIff(qterms[1..], titleTokens, url);
      assert forall k :: 1 <= k < |qterms| ==> qterms[k] == qterms[1..][k - 1];
    }
  }

  /** The counter never exceeds a full match on every term. */
  lemma {:induction false} MatchTenthsAtMost(qterms: seq<string>, titleTokens: seq<string>, url: string)
    ensures MatchTenths(qterms, titleTokens, url) <= 10 * |qterms|
    decreases |qterms|
  {
    if qterms != [] {
      MatchTenthsAtMost(qterms[1..], titleTokens, url);
    }
  }

  /** The counter reaches a full match exactly when every term is a title
      token. */
  lemma {:induction false} MatchTenthsFull(qterms: seq<string>, titleTokens: seq<string>, url: string)
    ensures MatchTenths(qterms, titleTokens, url) == 10 * |qterms|
            <==> forall k :: 0 <= k < |qterms| ==> qterms[k] in titleTokens
    decreases |qterms|
  {
    if qterms != [] {
      MatchTenthsFull(qterms[1..], titleTokens, url);
      MatchTenthsAtMost(qterms[1..], titleTokens, url);
      assert forall k :: 1 <= k < |qterms| ==> qterms[k] == qterms[1..][k - 1];
    }
  }

  /** The scaled bonus for a counter `0 < m <= 10 * q` lies between zero and
      the boost, and is zero only for a zero boost. */
  lemma ScaleBound(boost: real, m: nat, q: nat)
    requires boost >= 0.0 && 0 < m <= 10 * q
    ensures 0.0 <= Scaled(boost, m, q) <= boost
    ensures Scaled(boost, m, q) == 0.0 <==> boost == 0.0
  {
    var x := (m as real) / 10.0;
    var n := q as real;
    assert 0.0 < x <= n;
    var y := boost * x;
    assert 0.0 <= y <= boost * n;
    assert y / n <= boost;
    assert boost > 0.0 ==> y > 0.0;
  }

  /** The bonus lies between zero and the boost; it is zero exactly when the
      match counter is, or the boost is zero. */
  lemma BonusBounds(qterms: seq<string>, titleTokens: seq<string>, url: string, boost: real)
    requires boost >= 0.0
    ensures 0.0 <= Bonus(qterms, titleTokens, url, boost) <= boost
    ensures Bonus(qterms, titleTokens, url, boost) == 0.0 <==>
      boost == 0.0 || MatchTenths(qterms, titleTokens, url) == 0
  {
    var m := MatchTenths(qterms, titleTokens, url);
    MatchTenthsAtMost(qterms, titleTokens, url);
    if m != 0 {
      ScaleBound(boost, m, |qterms|);
    }
  }

  /** The bonus is zero exactly when no query term hits the title or URL (or
      the boost is zero). */
  lemma BonusZeroIff(qterms: seq<string>, titleTokens: seq<string>, url: string, boost: real)
    requires boost >= 0.0
    ensures Bonus(qterms, titleTokens, url, boost) == 0.0 <==>
      boost == 0.0 || forall k :: 0 <= k < |qterms| ==> !Hits(qterms[k], titleTokens, url)
  {
    BonusBounds(qterms, titleTokens, url, boost);
    MatchTenthsZeroIff(qterms, titleTokens, url);
  }

  /** Every term an exact title token: the full boost. */
  lemma BonusFull(qterms: seq<string>, titleTokens: seq<string>, url: string, boost: real)
    requires qterms != [] && forall k :: 0 <= k < |qterms| ==> qterms[k] in titleTokens
    ensures Bonus(qterms, titleTokens, url, boost) == boost
  {
    var m := MatchTenths(qterms, titleTokens, url);
    MatchTenthsFull(qterms, titleTokens, url);
    var n := |qterms| as real;
    assert (m as real) / 10.0 == n;
    assert Scaled(boost, m, |qterms|) == boost * n / n == boost;
  }

  /** `sorted(items, key=score, reverse=True)[:k]` on the scored ids: the
      ids by descending score, equal scores keeping their original order,
      cut with Python's slice (a negative `k` drops from the end). */
  function TopK(ids: seq<nat>, score: nat -> real, k: int): (r: seq<nat>)
    ensures |r| <= |ids|
    ensures k >= 0 ==> |r| == if k <= |ids| then k else |ids|
    ensures k < 0 ==> |r| == if |ids| + k >= 0 then |ids| + k else 0
    ensures forall i :: 0 <= i < |r| ==> r[i] in ids
    ensures forall i, j :: 0 <= i < j < |r| ==> score(r[i]) >= score(r[j])
    ensures multiset(r) <= multiset(ids)
    ensures forall i, x :: 0 <= i < |r| && x in ids && x !in r ==> score(x) <= score(r[i])
    ensures NoDuplicates(ids) ==> NoDuplicates(r)
  {
    var sorted := SortBy(ids, Descending(score));
    SortedFacts(ids, sorted, score);
    var r := PySliceTo(sorted, k);
    assert forall i :: 0 <= i < |r| ==> r[i] == sorted[i];
    PrefixTop(ids, sorted, score, |r|);
    assert NoDuplicates(sorted) ==> NoDuplicates(r) by {
      if NoDuplicates(sorted) {
        NoDuplicatesPrefix(sorted, |r|);
      }
    }
    r
  }

  /** The sort key of the rankers: by descending score. */
  function Descending(score: nat -> real): nat -> Rank {
    (d: nat) => Rank(0, -score(d))
  }

  /** A prefix of a descending permutation of `ids` takes from `ids`, and
      every id it leaves out scores no more than any it keeps. */
  lemma PrefixTop(ids: seq<nat>, sorted: seq<nat>, score: nat -> real, n: nat)
    requires multiset(sorted) == multiset(ids) && n <= |sorted|
    requires forall i, j :: 0 <= i < j < |sorted| ==> score(sorted[i]) >= score(sorted[j])
    ensures multiset(sorted[..n]) <= multiset(ids)
    ensures forall i, x :: 0 <= i < n && x in ids && x !in sorted[..n] ==> score(x) <= score(sorted[i])
  {
    assert sorted == sorted[..n] + sorted[n..];
    assert multiset(sorted) == multiset(sorted[..n]) + multiset(sorted[n..]);
    forall i, x | 0 <= i < n && x in ids && x !in sorted[..n] ensures score(x) <= score(sorted[i]) {
      assert x in multiset(sorted);
      var j :| 0 <= j < |sorted| && sorted[j] == x;
      assert j >= n;
    }
  }

  /** A permutation of `ids` sorted by descending score. */
  lemma SortedFacts(ids: seq<nat>, sorted: seq<nat>, score: nat -> real)
    requires multiset(sorted) == multiset(ids) && SortedBy(sorted, Descending(score))
    ensures |sorted| == |ids|
    ensures forall i :: 0 <= i < |sorted| ==> sorted[i] in ids
    ensures forall i, j :: 0 <= i < j < |sorted| ==> score(sorted[i]) >= score(sorted[j])
    ensures NoDuplicates(ids) ==> NoDuplicates(sorted)
  {
    assert |sorted| == |multiset(sorted)| == |multiset(ids)| == |ids|;
    forall i | 0 <= i < |sorted| ensures sorted[i] in ids {
      assert sorted[i] in multiset(sorted);
    }
    forall i, j | 0 <= i < j < |sorted| ensures score(sorted[i]) >= score(sorted[j]) {
      assert RankLe(Descending(score)(sorted[i]), Descending(score)(sorted[j]));
    }
    if NoDuplicates(ids) {
      NoDuplicatesPermutation(ids, sorted);
    }
  }

  /** `top` is a top-`k` selection of `hits` by `score`, as
      `sorted(..., reverse=True)[:k]` makes one: distinct hits, as many as
      Python's slice keeps, best first, and no hit left out scores above a
      kept one. */
  ghost predicate TopOf(hits: set<nat>, score: nat -> real, k: int, top: seq<nat>) {
    && NoDuplicates(top)
    && (forall i :: 0 <= i < |top| ==> top[i] in hits)
    && (k >= 0 ==> |top| == if k <= |hits| then k else |hits|)
    && (k < 0 ==> |top| == if |hits| + k >= 0 then |hits| + k else 0)
    && (forall i, j :: 0 <= i < j < |top| ==> score(top[i]) >= score(top[j]))
    && (forall i, x :: 0 <= i < |top| && x in hits && x !in top ==> score(x) <= score(top[i]))
  }

  /** The cut of the descending sort of distinct ids is a top-`k`
      selection of those ids. */
  lemma TopKSelects(ids: seq<nat>, score: nat -> real, k: int)
    requires NoDuplicates(ids)
    ensures TopOf((set x | x in ids), score, k, TopK(ids, score, k))
  {
    DistinctCard(ids);
  }

  /** Two top-`k` selections of the same hits have the same length, and
      their `i`-th entries score alike: the selection is fixed up to ties. */
  lemma TopScoresAgree(hits: set<nat>, score: nat -> real, k: int, t1: seq<nat>, t2: seq<nat>)
    requires TopOf(hits, score, k, t1) && TopOf(hits, score, k, t2)
    ensures |t1| == |t2|
    ensures forall i :: 0 <= i < |t1| ==> score(t1[i]) == score(t2[i])
  {
    forall i | 0 <= i < |t1| ensures score(t1[i]) == score(t2[i]) {
      TopNotBelow(hits, score, k, t1, t2, i);
      TopNotBelow(hits, score, k, t2, t1, i);
    }
  }

  /** The `i`-th entry of one top-`k` selection scores no more than the
      `i`-th of another: otherwise its first `i + 1` entries would all have
      to fit among the other's first `i`. */
  lemma TopNotBelow(hits: set<nat>, score: nat -> real, k: int, t1: seq<nat>, t2: seq<nat>, i: nat)
    requires TopOf(hits, score, k, t1) && TopOf(hits, score, k, t2) && i < |t1|
    ensures i < |t2| && score(t1[i]) <= score(t2[i])
  {
    if score(t1[i]) > score(t2[i]) {
      var p1, p2 := t1[..i + 1], t2[..i];
      var a: set<nat> := set x: nat | x in p1;
      var b: set<nat> := set x: nat | x in p2;
      forall x | x in a ensures x in b {
        var p :| 0 <= p <= i && t1[p] == x;
        assert score(x) >= score(t1[i]);
        assert x in t2;
        var q :| 0 <= q < |t2| && t2[q] == x;
        assert q < i;
        assert p2[q] == x;
      }
      NoDuplicatesPrefix(t1, i + 1);
      NoDuplicatesPrefix(t2, i);
      DistinctCard(p1);
      DistinctCard(p2);
      SubsetCard(a, b);
      assert false;
    }
  }

  /** A subset is no larger than its superset. */
  lemma SubsetCard<T>(a: set<T>, b: set<T>)
    requires a <= b
    ensures |a| <= |b|
  {
    assert b == a + (b - a);
    assert a * (b - a) == {};
  }

  /** A ranked answer: the documents of a top-`k` selection of `hits`, each
      paired with its score. */
  ghost predicate RankedTop<D>(docs: seq<D>, hits: set<nat>, score: nat -> real, k: int, r: seq<(D, real)>) {
    exists top: seq<nat> :: TopOf(hits, score, k, top) && |top| == |r|
      && forall i :: 0 <= i < |r| ==> top[i] < |docs| && r[i] == (docs[top[i]], score(top[i]))
  }

  /** The documents of a top-`k` selection, with their scores, are a ranked
      answer. */
  lemma RankedTopOf<D>(docs: seq<D>, hits: set<nat>, score: nat -> real, k: int, top: seq<nat>, r: seq<(D, real)>)
    requires TopOf(hits, score, k, top) && |top| == |r|
    requires forall i :: 0 <= i < |r| ==> top[i] < |docs| && r[i] == (docs[top[i]], score(top[i]))
    ensures RankedTop(docs, hits, score, k, r)
  {
  }

  /** Two ranked answers for the same hits have the same length and the
      same scores, position by position. */
  lemma RankedTopAgree<D>(docs: seq<D>, hits: set<nat>, score: nat -> real, k: int,
                          r1: seq<(D, real)>, r2: seq<(D, real)>)
    requires RankedTop(docs, hits, score, k, r1) && RankedTop(docs, hits, score, k, r2)
    ensures |r1| == |r2|
    ensures forall i :: 0 <= i < |r1| ==> r1[i].1 == r2[i].1
  {
    var t1: seq<nat> :| TopOf(hits, score, k, t1) && |t1| == |r1|
      && forall i :: 0 <= i < |r1| ==> t1[i] < |docs| && r1[i] == (docs[t1[i]], score(t1[i]));
    var t2: seq<nat> :| TopOf(hits, score, k, t2) && |t2| == |r2|
      && forall i :: 0 <= i < |r2| ==> t2[i] < |docs| && r2[i] == (docs[t2[i]], score(t2[i]));
    TopScoresAgree(hits, score, k, t1, t2);
  }
}

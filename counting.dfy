/** `collections.Counter` over a token list, the sum of a map's values, and
    first-occurrence de-duplication. */
module Counting {

  predicate NoDuplicates<T(==)>(s: seq<T>) {
    forall i, j :: 0 <= i < j < |s| ==> s[i] != s[j]
  }

  /** `Counter(toks)`: each distinct token with its number of occurrences. */
  function TfMap(toks: seq<string>): (m: map<string, nat>)
    ensures forall t :: t in m <==> t in toks
    ensures forall t :: t in m ==> m[t] > 0
  {
    map t | t in toks :: multiset(toks)[t]
  }

  /** The distinct elements of `s` in order of first occurrence (the key order
      of a `Counter` or of a dict filled in that order). */
  function Dedup(s: seq<string>): (r: seq<string>)
    ensures NoDuplicates(r)
    ensures forall x :: x in r <==> x in s
    decreases |s|
  {
    if s == [] then []
    else
      var r' := Dedup(s[..|s| - 1]);
      assert forall x :: x in s <==> x in s[..|s| - 1] || x == s[|s| - 1] by {
        assert s == s[..|s| - 1] + [s[|s| - 1]];
      }
      if s[|s| - 1] in r' then r' else r' + [s[|s| - 1]]
  }

  /** Some key of a non-empty map, fixed once and for all. */
  ghost function Pick<K>(m: map<K, nat>): (k: K)
    requires |m| > 0
    ensures k in m
  {
    assert exists k :: k in m by {
      var ks := m.Keys;
      assert |ks| > 0;
      var k :| k in ks;
    }
    var k :| k in m; k
  }

  /** `sum(m.values())`. */
  ghost function SumValues<K>(m: map<K, nat>): nat
    decreases |m|
  {
    if |m| == 0 then 0
    else
      var k := Pick(m);
      assert |m - {k}| == |m| - 1 by { assert (m - {k}).Keys == m.Keys - {k}; }
      m[k] + SumValues(m - {k})
  }

  /** Any key may be taken out first: the sum does not depend on the order. */
  lemma {:induction false} SumValuesRemove<K>(m: map<K, nat>, k: K)
    requires k in m
    ensures SumValues(m) == m[k] + SumValues(m - {k})
    decreases |m|
  {
    var k' := Pick(m);
    assert |m - {k}| == |m| - 1 by { assert (m - {k}).Keys == m.Keys - {k}; }
    assert |m - {k'}| == |m| - 1 by { assert (m - {k'}).Keys == m.Keys - {k'}; }
    if k' != k {
      SumValuesRemove(m - {k'}, k);
      SumValuesRemove(m - {k}, k');
      assert m - {k'} - {k} == m - {k} - {k'};
    }
  }

  /** Counting one more token updates a single entry. */
  lemma TfMapCons(x: string, rest: seq<string>)
    ensures TfMap([x] + rest) == TfMap(rest)[x := if x in rest then TfMap(rest)[x] + 1 else 1]
  {
    var toks := [x] + rest;
    assert multiset(toks) == multiset{x} + multiset(rest);
    assert forall t :: t in toks <==> t == x || t in rest;
  }

  /** Setting one entry: the sum is that value plus the sum of the others. */
  lemma SumValuesUpdate<K>(m: map<K, nat>, k: K, v: nat)
    ensures SumValues(m[k := v]) == v + SumValues(m - {k})
  {
    SumValuesRemove(m[k := v], k);
    assert m[k := v] - {k} == m - {k};
  }

  /** The counts of a `Counter` add up to the number of tokens counted. */
  lemma {:induction false} SumTfMap(toks: seq<string>)
    ensures SumValues(TfMap(toks)) == |toks|
    decreases |toks|
  {
    if toks != [] {
      SumTfMap(toks[1..]);
      assert toks == [toks[0]] + toks[1..];
      SumTfMapStep(toks[0], toks[1..]);
    }
  }

  lemma SumTfMapStep(x: string, rest: seq<string>)
    requires SumValues(TfMap(rest)) == |rest|
    ensures SumValues(TfMap([x] + rest)) == |rest| + 1
  {
    var m := TfMap(rest);
    var v: nat := if x in rest then m[x] + 1 else 1;
    TfMapCons(x, rest);
    SumValuesSet(m, x, v);
  }

  /** Setting one entry replaces its old value in the sum. */
  lemma SumValuesSet<K>(m: map<K, nat>, k: K, v: nat)
    ensures SumValues(m[k := v]) == v + SumValues(m) - (if k in m then m[k] else 0)
  {
    SumValuesUpdate(m, k, v);
    if k in m {
      SumValuesRemove(m, k);
    } else {
      assert m - {k} == m;
    }
  }

  /** A sequence has no duplicates exactly when each element occurs once. */
  lemma {:induction false} NoDuplicatesMultiset<T>(s: seq<T>)
    ensures NoDuplicates(s) <==> forall x :: multiset(s)[x] <= 1
    decreases |s|
  {
    if s != [] {
      var rest := s[1..];
      assert s == [s[0]] + rest;
      NoDuplicatesMultiset(rest);
      if NoDuplicates(s) {
        assert s[0] !in rest by {
          forall j | 0 <= j < |rest| ensures rest[j] != s[0] {
            assert rest[j] == s[j + 1];
          }
        }
        assert NoDuplicates(rest) by {
          forall i, j | 0 <= i < j < |rest| ensures rest[i] != rest[j] {
            assert rest[i] == s[i + 1] && rest[j] == s[j + 1];
          }
        }
      }
      if forall x :: multiset(s)[x] <= 1 {
        assert forall x :: multiset(rest)[x] <= 1 by {
          forall x ensures multiset(rest)[x] <= 1 {
            assert multiset(s)[x] == multiset{s[0]}[x] + multiset(rest)[x];
          }
        }
        assert multiset(rest)[s[0]] == 0 by {
          assert multiset(s)[s[0]] == 1 + multiset(rest)[s[0]];
        }
        forall i, j | 0 <= i < j < |s| ensures s[i] != s[j] {
          if i == 0 {
            assert s[j] in rest by { assert s[j] == rest[j - 1]; }
          } else {
            assert s[i] == rest[i - 1] && s[j] == rest[j - 1];
          }
        }
      }
    }
  }

  /** Reordering keeps a sequence free of duplicates. */
  lemma NoDuplicatesPermutation<T>(s: seq<T>, r: seq<T>)
    requires multiset(r) == multiset(s) && NoDuplicates(s)
    ensures NoDuplicates(r)
  {
    NoDuplicatesMultiset(s);
    NoDuplicatesMultiset(r);
  }

  /** A prefix of a duplicate-free sequence is duplicate-free. */
  lemma NoDuplicatesPrefix<T>(s: seq<T>, n: nat)
    requires NoDuplicates(s) && n <= |s|
    ensures NoDuplicates(s[..n])
  {
  }

  /** Appending a new element keeps a sequence duplicate-free. */
  lemma NoDuplicatesSnoc<T>(s: seq<T>, x: T)
    requires NoDuplicates(s) && x !in s
    ensures NoDuplicates(s + [x])
  {
    forall i, j | 0 <= i < j < |s + [x]| ensures (s + [x])[i] != (s + [x])[j] {
      if j == |s| {
        assert (s + [x])[i] == s[i];
      }
    }
  }

  /** One more element: appended exactly when it is new. */
  lemma DedupSnoc(s: seq<string>, x: string)
    ensures Dedup(s + [x]) == if x in Dedup(s) then Dedup(s) else Dedup(s) + [x]
  {
    assert (s + [x])[..|s|] == s;
  }

  /** Feeding the distinct elements of `b`, in first-occurrence order, after
      `a` gives the same order as feeding all of `b`. */
  lemma {:induction false} DedupDedup(a: seq<string>, b: seq<string>)
    ensures Dedup(a + Dedup(b)) == Dedup(a + b)
    decreases |b|
  {
    if b == [] {
      assert a + [] == a;
    } else {
      var b' := b[..|b| - 1];
      assert b == b' + [b[|b| - 1]];
      DedupDedup(a, b');
      DedupDedupStep(a, b', b[|b| - 1]);
    }
  }

  lemma DedupDedupStep(a: seq<string>, b: seq<string>, y: string)
    requires Dedup(a + Dedup(b)) == Dedup(a + b)
    ensures Dedup(a + Dedup(b + [y])) == Dedup(a + (b + [y]))
  {
    assert a + (b + [y]) == (a + b) + [y];
    assert Dedup((a + b) + [y]) == if y in Dedup(a + b) then Dedup(a + b) else Dedup(a + b) + [y] by {
      DedupSnoc(a + b, y);
    }
    if y in Dedup(b) {
      assert Dedup(b + [y]) == Dedup(b) by {
        DedupSnoc(b, y);
      }
      assert y in Dedup(a + b) by {
        assert y in a + b;
      }
    } else {
      var d := Dedup(b);
      assert Dedup(b + [y]) == d + [y] by {
        DedupSnoc(b, y);
      }
      assert a + (d + [y]) == (a + d) + [y];
      assert Dedup((a + d) + [y]) == if y in Dedup(a + d) then Dedup(a + d) else Dedup(a + d) + [y] by {
        DedupSnoc(a + d, y);
      }
    }
  }

  /** A duplicate-free sequence has as many elements as its set. */
  lemma {:induction false} DistinctCard<T>(s: seq<T>)
    requires NoDuplicates(s)
    ensures |set x | x in s| == |s|
    decreases |s|
  {
    if s != [] {
      var init := s[..|s| - 1];
      var x := s[|s| - 1];
      DistinctCard(init);
      assert s == init + [x];
      assert (set y | y in s) == (set y | y in init) + {x};
      assert x !in (set y | y in init);
    }
  }
}

/** `get_suggestions`: completions for a query prefix, drawn from the
    index vocabulary (ranked by how they match, then by IDF) and from the
    document titles. */
module Suggestions {
  import opened Wrappers
  import opened Strings
  import opened Sorting
  import opened Counting
  import opened Fuzzy

  /** `''.join(c for c in s if c.isalnum())`. */
  function AlnumOnly(s: string): (r: string)
    ensures |r| <= |s|
    ensures forall i :: 0 <= i < |r| ==> IsAlnum(r[i])
    decreases |s|
  {
    if s == [] then [] else (if IsAlnum(s[0]) then [s[0]] else []) + AlnumOnly(s[1..])
  }

  /** Only non-alphanumeric characters are dropped: a string of letters and
      digits is kept whole, and any other string loses something. */
  lemma {:induction false} AlnumOnlyKeeps(s: string)
    ensures AlnumOnly(s) == s <==> forall i :: 0 <= i < |s| ==> IsAlnum(s[i])
    decreases |s|
  {
    if s != [] {
      AlnumOnlyKeeps(s[1..]);
      assert forall i :: 1 <= i < |s| ==> s[i] == s[1..][i - 1];
      if !IsAlnum(s[0]) {
        assert |AlnumOnly(s)| <= |s[1..]| < |s|;
      }
      if AlnumOnly(s) == s {
        assert s[1..] == AlnumOnly(s[1..]);
      }
    }
  }

  /** How a vocabulary term matches: 0 it starts with the prefix; 1 it
      starts with the prefix stripped to letters and digits (at least 3 of
      them); 2 it contains a prefix of at least 3 characters; 3 the
      stripped prefix is spread through it in order; otherwise no match. */
  ghost function Priority(term: string, prefix: string, stripped: string): Option<nat> {
    if StartsWith(term, prefix) then Some(0)
    else if |stripped| >= 3 && StartsWith(term, stripped) then Some(1)
    else if Contains(term, prefix) && |prefix| >= 3 then Some(2)
    else if |stripped| >= 3 && IsSubsequence(stripped, term) then Some(3)
    else None
  }

  /** `matching_terms`: the matching terms with their priorities, in
      vocabulary order. */
  ghost function Matching(terms: seq<string>, prefix: string, stripped: string): seq<(string, nat)>
    decreases |terms|
  {
    if terms == [] then []
    else
      var t := terms[|terms| - 1];
      Matching(terms[..|terms| - 1], prefix, stripped)
        + match Priority(t, prefix, stripped) case Some(p) => [(t, p)] case None => []
  }

  /** The loop over the vocabulary that fills `matching_terms`. */
  method MatchingTerms(terms: seq<string>, prefix: string, stripped: string) returns (m: seq<(string, nat)>)
    ensures m == Matching(terms, prefix, stripped)
  {
    m := [];
    for i := 0 to |terms|
      invariant m == Matching(terms[..i], prefix, stripped)
    {
      assert terms[..i + 1][..i] == terms[..i];
      var t := terms[i];
      if StartsWith(t, prefix) {
        m := m + [(t, 0)];
      } else if |stripped| >= 3 && StartsWith(t, stripped) {
        m := m + [(t, 1)];
      } else if Contains(t, prefix) && |prefix| >= 3 {
        m := m + [(t, 2)];
      } else if |stripped| >= 3 {
        var fuzzy := FuzzyMatch(stripped, t);
        if fuzzy {
          m := m + [(t, 3)];
        }
      }
    }
    assert terms[..|terms|] == terms;
  }

  /** Every entry is a vocabulary term with its priority. */
  lemma {:induction false} MatchingSound(terms: seq<string>, prefix: string, stripped: string)
    ensures forall i :: 0 <= i < |Matching(terms, prefix, stripped)| ==>
      Matching(terms, prefix, stripped)[i].0 in terms
      && Priority(Matching(terms, prefix, stripped)[i].0, prefix, stripped) == Some(Matching(terms, prefix, stripped)[i].1)
    decreases |terms|
  {
    if terms != [] {
      var init := terms[..|terms| - 1];
      MatchingSound(init, prefix, stripped);
      assert forall t :: t in init ==> t in terms;
    }
  }

  /** The sort key `(priority, idf)`. */
  function Key(idf: string -> real): ((string, nat)) -> Rank {
    (x: (string, nat)) => Rank(x.1, idf(x.0))
  }

  function Firsts(s: seq<(string, nat)>): (r: seq<string>)
    ensures |r| == |s| && forall i :: 0 <= i < |s| ==> r[i] == s[i].0
  {
    seq(|s|, i requires 0 <= i < |s| => s[i].0)
  }

  /** `matching_terms` sorted by key and cut to `limit * 2`. */
  ghost function TopPairs(terms: seq<string>, prefix: string, stripped: string, limit: int, idf: string -> real)
    : seq<(string, nat)>
  {
    PySliceTo(SortBy(Matching(terms, prefix, stripped), Key(idf)), limit * 2)
  }

  /** The term candidates are matching vocabulary terms, best priority first
      and, within a priority, lowest IDF first. */
  lemma TopPairsOrdered(terms: seq<string>, prefix: string, stripped: string, limit: int, idf: string -> real)
    ensures SortedBy(TopPairs(terms, prefix, stripped, limit, idf), Key(idf))
    ensures forall i :: 0 <= i < |TopPairs(terms, prefix, stripped, limit, idf)| ==>
      var x := TopPairs(terms, prefix, stripped, limit, idf)[i];
      x.0 in terms && Priority(x.0, prefix, stripped) == Some(x.1)
  {
    var m := Matching(terms, prefix, stripped);
    var sorted := SortBy(m, Key(idf));
    MatchingSound(terms, prefix, stripped);
    forall i | 0 <= i < |sorted| ensures sorted[i].0 in terms && Priority(sorted[i].0, prefix, stripped) == Some(sorted[i].1) {
      assert sorted[i] in multiset(m);
    }
  }

  /** A title matches when its lower-cased form contains the prefix, or its
      letters and digits contain the stripped prefix (of at least 3). */
  predicate TitleMatches(title: string, prefix: string, stripped: string) {
    var tl := Lower(title);
    Contains(tl, prefix) || (|stripped| >= 3 && Contains(AlnumOnly(tl), stripped))
  }

  /** The title loop from `acc` on: each new lower-cased matching title is
      added, and the loop stops as soon as `half` are collected. */
  function TitleScan(titles: seq<string>, prefix: string, stripped: string, half: int, acc: seq<string>)
    : (r: seq<string>)
    ensures |acc| <= |r| && r[..|acc|] == acc
    decreases |titles|
  {
    if titles == [] then acc
    else
      var tl := Lower(titles[0]);
      if TitleMatches(titles[0], prefix, stripped) && tl !in acc then
        var acc' := acc + [tl];
        assert acc'[..|acc|] == acc;
        if |acc'| >= half then acc'
        else
          var r := TitleScan(titles[1..], prefix, stripped, half, acc');
          assert r[..|acc'|][..|acc|] == r[..|acc|];
          r
      else TitleScan(titles[1..], prefix, stripped, half, acc)
  }

  /** The loop that fills `title_suggestions`, with its early `break`. */
  method TitleSuggestions(titles: seq<string>, prefix: string, stripped: string, half: int) returns (acc: seq<string>)
    ensures acc == TitleScan(titles, prefix, stripped, half, [])
  {
    acc := [];
    for i := 0 to |titles|
      invariant TitleScan(titles, prefix, stripped, half, []) == TitleScan(titles[i..], prefix, stripped, half, acc)
    {
      assert titles[i..][1..] == titles[i + 1..];
      var tl := Lower(titles[i]);
      if Contains(tl, prefix) || (|stripped| >= 3 && Contains(AlnumOnly(tl), stripped)) {
        if tl !in acc {
          acc := acc + [tl];
          if |acc| >= half {
            break;
          }
        }
      }
    }
  }

  /** The title suggestions are distinct. */
  lemma {:induction false} TitleScanDistinct(titles: seq<string>, prefix: string, stripped: string, half: int, acc: seq<string>)
    requires NoDuplicates(acc)
    ensures NoDuplicates(TitleScan(titles, prefix, stripped, half, acc))
    decreases |titles|
  {
    if titles != [] {
      var tl := Lower(titles[0]);
      if TitleMatches(titles[0], prefix, stripped) && tl !in acc {
        if |acc + [tl]| < half {
          TitleScanDistinct(titles[1..], prefix, stripped, half, acc + [tl]);
        }
      } else {
        TitleScanDistinct(titles[1..], prefix, stripped, half, acc);
      }
    }
  }

  /** Each title suggestion beyond `acc` is a matching title, lower-cased. */
  lemma {:induction false} TitleScanFrom(titles: seq<string>, prefix: string, stripped: string, half: int, acc: seq<string>)
    ensures forall x :: x in TitleScan(titles, prefix, stripped, half, acc) ==>
      x in acc || exists j :: 0 <= j < |titles| && TitleMatches(titles[j], prefix, stripped) && Lower(titles[j]) == x
    decreases |titles|
  {
    if titles != [] {
      var tl := Lower(titles[0]);
      var rest := titles[1..];
      assert forall j :: 0 <= j < |rest| ==> rest[j] == titles[j + 1];
      if TitleMatches(titles[0], prefix, stripped) && tl !in acc {
        if |acc + [tl]| < half {
          TitleScanFrom(rest, prefix, stripped, half, acc + [tl]);
        }
      } else {
        TitleScanFrom(rest, prefix, stripped, half, acc);
      }
    }
  }

  /** At most `half` title suggestions are collected after `acc` (one more
      when `acc` already holds that many). */
  lemma {:induction false} TitleScanBound(titles: seq<string>, prefix: string, stripped: string, half: int, acc: seq<string>)
    ensures |TitleScan(titles, prefix, stripped, half, acc)| <= if |acc| < half then half else |acc| + 1
    decreases |titles|
  {
    if titles != [] {
      var tl := Lower(titles[0]);
      if TitleMatches(titles[0], prefix, stripped) && tl !in acc {
        if |acc + [tl]| < half {
          TitleScanBound(titles[1..], prefix, stripped, half, acc + [tl]);
        }
      } else {
        TitleScanBound(titles[1..], prefix, stripped, half, acc);
      }
    }
  }

  /** The term loop from `all` on: each term not yet present is added while
      fewer than `limit` suggestions are collected. */
  function MergeTerms(all: seq<string>, terms: seq<string>, limit: int): (r: seq<string>)
    ensures |all| <= |r| && r[..|all|] == all
    decreases |terms|
  {
    if terms == [] then all
    else
      var next := if terms[0] !in all && |all| < limit then all + [terms[0]] else all;
      assert next[..|all|] == all;
      var r := MergeTerms(next, terms[1..], limit);
      assert r[..|next|][..|all|] == r[..|all|];
      r
  }

  /** Merging appends only terms not yet present. */
  lemma {:induction false} MergeDistinct(all: seq<string>, terms: seq<string>, limit: int)
    requires NoDuplicates(all)
    ensures NoDuplicates(MergeTerms(all, terms, limit))
    decreases |terms|
  {
    if terms != [] {
      var next := if terms[0] !in all && |all| < limit then all + [terms[0]] else all;
      MergeDistinct(next, terms[1..], limit);
    }
  }

  /** Merging adds nothing but the given terms. */
  lemma {:induction false} MergeFrom(all: seq<string>, terms: seq<string>, limit: int)
    ensures forall x :: x in MergeTerms(all, terms, limit) ==> x in all || x in terms
    decreases |terms|
  {
    if terms != [] {
      var next := if terms[0] !in all && |all| < limit then all + [terms[0]] else all;
      MergeFrom(next, terms[1..], limit);
      assert forall x :: x in terms[1..] ==> x in terms;
    }
  }

  /** Merging stops growing at `limit`. */
  lemma {:induction false} MergeBound(all: seq<string>, terms: seq<string>, limit: int)
    ensures |MergeTerms(all, terms, limit)| <= if |all| < limit then limit else |all|
    decreases |terms|
  {
    if terms != [] {
      var next := if terms[0] !in all && |all| < limit then all + [terms[0]] else all;
      MergeBound(next, terms[1..], limit);
    }
  }

  /** `all_suggestions`: the titles, each once, then the new terms while
      there is room. */
  method Merge(titleSugs: seq<string>, termSugs: seq<string>, limit: int) returns (all: seq<string>)
    ensures all == MergeTerms(Dedup(titleSugs), termSugs, limit)
  {
    var seen;
    all, seen := DistinctTitles(titleSugs);
    for j := 0 to |termSugs|
      invariant MergeTerms(Dedup(titleSugs), termSugs, limit) == MergeTerms(all, termSugs[j..], limit)
      invariant seen == set x | x in all
    {
      MergeStep(all, termSugs[j..], limit);
      assert termSugs[j..][1..] == termSugs[j + 1..];
      var term := termSugs[j];
      if term !in seen && |all| < limit {
        SeenSnoc(all, term);
        all := all + [term];
        seen := seen + {term};
      }
    }
  }

  /** The titles loop of `all_suggestions`: each title once, in order, with
      the set of those taken. */
  method DistinctTitles(titleSugs: seq<string>) returns (all: seq<string>, seen: set<string>)
    ensures all == Dedup(titleSugs) && seen == set x | x in all
  {
    all := [];
    seen := {};
    for i := 0 to |titleSugs|
      invariant all == Dedup(titleSugs[..i]) && seen == set x | x in all
    {
      var title := titleSugs[i];
      assert Dedup(titleSugs[..i + 1]) == if title in all then all else all + [title] by {
        assert titleSugs[..i + 1] == titleSugs[..i] + [title];
        DedupSnoc(titleSugs[..i], title);
      }
      if title !in seen {
        SeenSnoc(all, title);
        all := all + [title];
        seen := seen + {title};
      }
    }
    assert titleSugs[..|titleSugs|] == titleSugs;
  }

  lemma SeenSnoc(all: seq<string>, x: string)
    ensures (set y | y in all + [x]) == (set y | y in all) + {x}
  {
  }

  lemma MergeStep(all: seq<string>, terms: seq<string>, limit: int)
    requires terms != []
    ensures MergeTerms(all, terms, limit) ==
      MergeTerms(if terms[0] !in all && |all| < limit then all + [terms[0]] else all, terms[1..], limit)
  {
  }

  /** The title suggestions for `prefix`. */
  function TitlesFor(titles: seq<string>, prefix: string, limit: int): seq<string> {
    var pl := Lower(prefix);
    TitleScan(titles, pl, AlnumOnly(pl), limit / 2, [])
  }

  /** The suggestions for `prefix` among the index keys `terms` (with their
      IDF values) and the document titles. */
  ghost function SuggestionsOf(terms: seq<string>, titles: seq<string>, prefix: string, limit: int,
                               idf: string -> real): seq<string>
  {
    var pl := Lower(prefix);
    var termSugs := Firsts(TopPairs(terms, pl, AlnumOnly(pl), limit, idf));
    PySliceTo(MergeTerms(Dedup(TitlesFor(titles, prefix, limit)), termSugs, limit), limit)
  }

  /** `get_suggestions` on a built index. */
  method GetSuggestions(terms: seq<string>, titles: seq<string>, prefix: string, limit: int, idf: string -> real)
    returns (r: seq<string>)
    ensures r == SuggestionsOf(terms, titles, prefix, limit, idf)
  {
    var pl := Lower(prefix);
    var pn := AlnumOnly(pl);
    var matching := MatchingTerms(terms, pl, pn);
    var sorted := SortBy(matching, Key(idf));
    var termSugs := Firsts(PySliceTo(sorted, limit * 2));
    var titleSugs := TitleSuggestions(titles, pl, pn, limit / 2);
    var all := Merge(titleSugs, termSugs, limit);
    r := PySliceTo(all, limit);
  }

  /** The title suggestions are distinct matching titles, at most `limit / 2`
      of them, or one when that is not positive. */
  lemma TitlesForSpec(titles: seq<string>, prefix: string, limit: int)
    ensures NoDuplicates(TitlesFor(titles, prefix, limit))
    ensures Dedup(TitlesFor(titles, prefix, limit)) == TitlesFor(titles, prefix, limit)
    ensures |TitlesFor(titles, prefix, limit)| <= if limit / 2 > 0 then limit / 2 else 1
    ensures forall x :: x in TitlesFor(titles, prefix, limit) ==>
      exists j :: 0 <= j < |titles| && TitleMatches(titles[j], Lower(prefix), AlnumOnly(Lower(prefix)))
                  && Lower(titles[j]) == x
  {
    TitlesForShape(titles, prefix, limit);
    var pl := Lower(prefix);
    TitleScanFrom(titles, pl, AlnumOnly(pl), limit / 2, []);
  }

  /** The title suggestions are distinct and at most half the limit (one
      when that is below 1). */
  lemma TitlesForShape(titles: seq<string>, prefix: string, limit: int)
    ensures NoDuplicates(TitlesFor(titles, prefix, limit))
    ensures Dedup(TitlesFor(titles, prefix, limit)) == TitlesFor(titles, prefix, limit)
    ensures |TitlesFor(titles, prefix, limit)| <= if limit / 2 > 0 then limit / 2 else 1
  {
    var pl := Lower(prefix);
    TitleScanDistinct(titles, pl, AlnumOnly(pl), limit / 2, []);
    TitleScanBound(titles, pl, AlnumOnly(pl), limit / 2, []);
    DedupOfDistinct(TitlesFor(titles, prefix, limit));
  }

  /** Merging at most half the limit of titles with the terms and cutting
      at the limit keeps the titles in front. */
  lemma SliceMerge(t: seq<string>, termSugs: seq<string>, limit: int)
    requires |t| <= if limit / 2 > 0 then limit / 2 else 1
    ensures limit <= 0 ==> PySliceTo(MergeTerms(t, termSugs, limit), limit) == []
    ensures |PySliceTo(MergeTerms(t, termSugs, limit), limit)| <= if limit < 0 then 0 else limit
    ensures limit > 0 ==>
      |t| <= |PySliceTo(MergeTerms(t, termSugs, limit), limit)|
      && PySliceTo(MergeTerms(t, termSugs, limit), limit)[..|t|] == t
  {
    MergeBound(t, termSugs, limit);
    var all := MergeTerms(t, termSugs, limit);
    if limit <= 0 {
      assert |all| <= 1;
    } else {
      assert |all| <= limit;
      assert PySliceTo(all, limit) == all;
    }
  }

  /** The suggestions are distinct. */
  lemma SuggestionsDistinct(terms: seq<string>, titles: seq<string>, prefix: string, limit: int, idf: string -> real)
    ensures NoDuplicates(SuggestionsOf(terms, titles, prefix, limit, idf))
  {
    var pl := Lower(prefix);
    var t := TitlesFor(titles, prefix, limit);
    TitlesForSpec(titles, prefix, limit);
    var all := MergeTerms(t, Firsts(TopPairs(terms, pl, AlnumOnly(pl), limit, idf)), limit);
    MergeDistinct(t, Firsts(TopPairs(terms, pl, AlnumOnly(pl), limit, idf)), limit);
    NoDuplicatesPrefix(all, |SuggestionsOf(terms, titles, prefix, limit, idf)|);
  }

  /** No suggestions for a limit below 1, and at most `limit` otherwise; the
      title suggestions come first. */
  lemma SuggestionsBound(terms: seq<string>, titles: seq<string>, prefix: string, limit: int, idf: string -> real)
    ensures limit <= 0 ==> SuggestionsOf(terms, titles, prefix, limit, idf) == []
    ensures |SuggestionsOf(terms, titles, prefix, limit, idf)| <= if limit < 0 then 0 else limit
    ensures limit > 0 ==>
      |TitlesFor(titles, prefix, limit)| <= |SuggestionsOf(terms, titles, prefix, limit, idf)|
      && SuggestionsOf(terms, titles, prefix, limit, idf)[..|TitlesFor(titles, prefix, limit)|] == TitlesFor(titles, prefix, limit)
  {
    var pl := Lower(prefix);
    var t := TitlesFor(titles, prefix, limit);
    TitlesForShape(titles, prefix, limit);
    SliceMerge(t, Firsts(TopPairs(terms, pl, AlnumOnly(pl), limit, idf)), limit);
  }

  /** Each suggestion is a matching title, lower-cased, or a matching
      vocabulary term. */
  lemma SuggestionsFrom(terms: seq<string>, titles: seq<string>, prefix: string, limit: int, idf: string -> real)
    ensures forall x :: x in SuggestionsOf(terms, titles, prefix, limit, idf) ==>
      (exists j :: 0 <= j < |titles| && TitleMatches(titles[j], Lower(prefix), AlnumOnly(Lower(prefix)))
                   && Lower(titles[j]) == x)
      || (x in terms && Priority(x, Lower(prefix), AlnumOnly(Lower(prefix))).Some?)
  {
    var pl := Lower(prefix);
    var pn := AlnumOnly(pl);
    var t := TitlesFor(titles, prefix, limit);
    TitlesForSpec(titles, prefix, limit);
    var pairs := TopPairs(terms, pl, pn, limit, idf);
    var termSugs := Firsts(pairs);
    TopPairsOrdered(terms, pl, pn, limit, idf);
    MergeFrom(t, termSugs, limit);
    var all := MergeTerms(t, termSugs, limit);
    var r := SuggestionsOf(terms, titles, prefix, limit, idf);
    assert r == PySliceTo(all, limit);
    forall x | x in r
      ensures (exists j :: 0 <= j < |titles| && TitleMatches(titles[j], pl, pn) && Lower(titles[j]) == x)
              || (x in terms && Priority(x, pl, pn).Some?)
    {
      assert x in all;
      if x !in t {
        var i :| 0 <= i < |termSugs| && termSugs[i] == x;
        assert pairs[i].0 == x;
      }
    }
  }

  /** A duplicate-free sequence is its own first-occurrence order. */
  lemma {:induction false} DedupOfDistinct(s: seq<string>)
    requires NoDuplicates(s)
    ensures Dedup(s) == s
    decreases |s|
  {
    if s != [] {
      var init := s[..|s| - 1];
      DedupOfDistinct(init);
      assert s[|s| - 1] !in init;
    }
  }
}

/** The database-backed search engine: the index built from the stored
    pages (`_build_index`), the link lists PageRank iterates over, the shape
    of `search`'s results and the index statistics. The database is a
    sequence of stored records, read in the order the collection returns
    them; floating-point scoring stays outside. */
module MongoSearch {
  import opened Wrappers
  import opened Strings
  import opened Tokenizer
  import opened Counting
  import opened Ranking
  import opened MiniSearch
  import opened Fuzzy
  import Suggestions

  /** A stored page as `find` returns it: fields that may be missing. */
  datatype MongoDoc = MongoDoc(url: Option<string>, title: Option<string>, text: Option<string>,
                               snippet: Option<string>, links: Option<seq<string>>)

  /** `doc.get(key, default)`. */
  function GetOr(o: Option<string>, default: string): string {
    match o case Some(s) => s case None => default
  }

  function DocUrl(m: MongoDoc): string { GetOr(m.url, "") }

  function DocTitle(m: MongoDoc): string { GetOr(m.title, "Untitled") }

  function DocText(m: MongoDoc): string { GetOr(m.text, "") }

  /** The stored snippet, cut to 200 characters. */
  function StoredSnippet(m: MongoDoc): string { Take(GetOr(m.snippet, ""), 200) }

  function DocLinks(m: MongoDoc): seq<string> {
    match m.links case Some(l) => l case None => []
  }

  /** What is indexed besides the title: the text, or the snippet without one. */
  function Content(m: MongoDoc): string {
    if DocText(m) != [] then DocText(m) else StoredSnippet(m)
  }

  /** The tokens of `f"{title} {content}"`. */
  function DocTokens(m: MongoDoc): seq<string> {
    Tokenize(DocTitle(m) + " " + Content(m))
  }

  /** The `Document` kept for a stored page: the snippet falls back to the
      first 200 characters of the text. */
  function MakeDoc(m: MongoDoc): Document {
    var s := StoredSnippet(m);
    Document(DocUrl(m), DocTitle(m), |DocTokens(m)|,
             if s == [] && DocText(m) != [] then Take(DocText(m), 200) else s)
  }

  /** The title and the content are tokenized apart: no token spans both. */
  lemma TokensSplit(m: MongoDoc)
    ensures DocTokens(m) == Tokenize(DocTitle(m)) + Tokenize(Content(m))
  {
    TokenizeSeparated(DocTitle(m), ' ', Content(m));
  }

  /** The snippet has at most 200 characters, is a prefix of the stored
      snippet or of the text, and is empty only when both are. */
  lemma SnippetShape(m: MongoDoc)
    ensures |MakeDoc(m).snippet| <= 200
    ensures StartsWith(GetOr(m.snippet, ""), MakeDoc(m).snippet) || StartsWith(DocText(m), MakeDoc(m).snippet)
    ensures MakeDoc(m).snippet == [] <==> GetOr(m.snippet, "") == [] && DocText(m) == []
  {
  }

  // ---------------------------------------------------------------------
  // Per-document sequences, by position in the store.

  function TokensOf(store: seq<MongoDoc>): (toks: seq<seq<string>>)
    ensures |toks| == |store|
    decreases |store|
  {
    if store == [] then [] else TokensOf(store[..|store| - 1]) + [DocTokens(store[|store| - 1])]
  }

  function DocsOfStore(store: seq<MongoDoc>): (docs: seq<Document>)
    ensures |docs| == |store|
    decreases |store|
  {
    if store == [] then [] else DocsOfStore(store[..|store| - 1]) + [MakeDoc(store[|store| - 1])]
  }

  function UrlsOf(store: seq<MongoDoc>): (urls: seq<string>)
    ensures |urls| == |store|
    decreases |store|
  {
    if store == [] then [] else UrlsOf(store[..|store| - 1]) + [DocUrl(store[|store| - 1])]
  }

  lemma {:induction false} StoreIndex(store: seq<MongoDoc>, d: nat)
    requires d < |store|
    ensures TokensOf(store)[d] == DocTokens(store[d])
    ensures DocsOfStore(store)[d] == MakeDoc(store[d])
    ensures UrlsOf(store)[d] == DocUrl(store[d])
    decreases |store|
  {
    if d < |store| - 1 {
      StoreIndex(store[..|store| - 1], d);
    }
  }

  lemma StoreSnoc(store: seq<MongoDoc>, i: nat)
    requires i < |store|
    ensures TokensOf(store[..i + 1]) == TokensOf(store[..i]) + [DocTokens(store[i])]
    ensures DocsOfStore(store[..i + 1]) == DocsOfStore(store[..i]) + [MakeDoc(store[i])]
    ensures UrlsOf(store[..i + 1]) == UrlsOf(store[..i]) + [DocUrl(store[i])]
  {
    assert store[..i + 1][..i] == store[..i];
  }

  /** The per-document loop of `_build_index`: the documents, their tokens
      and lengths, and `url_to_idx`. */
  method CollectDocs(store: seq<MongoDoc>)
    returns (docs: seq<Document>, toks: seq<seq<string>>, doclen: seq<nat>, ids: map<string, nat>)
    ensures docs == DocsOfStore(store) && toks == TokensOf(store)
    ensures doclen == LengthsOf(toks) && ids == UrlIndex(UrlsOf(store))
  {
    docs, toks, doclen, ids := [], [], [], map[];
    for i := 0 to |store|
      invariant docs == DocsOfStore(store[..i]) && toks == TokensOf(store[..i])
      invariant doclen == LengthsOf(toks) && ids == UrlIndex(UrlsOf(store[..i]))
    {
      CollectStep(store, i, docs, toks, doclen, ids);
      var m := store[i];
      var tokens := DocTokens(m);
      docs := docs + [MakeDoc(m)];
      toks := toks + [tokens];
      doclen := doclen + [|tokens|];
      ids := ids[DocUrl(m) := i];
    }
    assert store[..|store|] == store;
  }

  /** One more stored page in the per-document loop. */
  lemma CollectStep(store: seq<MongoDoc>, i: nat, docs: seq<Document>, toks: seq<seq<string>>,
                    doclen: seq<nat>, ids: map<string, nat>)
    requires i < |store|
    requires docs == DocsOfStore(store[..i]) && toks == TokensOf(store[..i])
    requires doclen == LengthsOf(toks) && ids == UrlIndex(UrlsOf(store[..i]))
    ensures docs + [MakeDoc(store[i])] == DocsOfStore(store[..i + 1])
    ensures toks + [DocTokens(store[i])] == TokensOf(store[..i + 1])
    ensures doclen + [|DocTokens(store[i])|] == LengthsOf(toks + [DocTokens(store[i])])
    ensures ids[DocUrl(store[i]) := i] == UrlIndex(UrlsOf(store[..i + 1]))
  {
    StoreSnoc(store, i);
    var toks' := toks + [DocTokens(store[i])];
    assert toks'[..|toks'| - 1] == toks;
    var urls := UrlsOf(store[..i + 1]);
    assert urls[..|urls| - 1] == UrlsOf(store[..i]);
  }

  // ---------------------------------------------------------------------
  // The inverted index.

  /** All tokens, document after document. */
  function Flatten(toks: seq<seq<string>>): seq<string>
    decreases |toks|
  {
    if toks == [] then [] else Flatten(toks[..|toks| - 1]) + toks[|toks| - 1]
  }

  lemma {:induction false} FlattenMember(toks: seq<seq<string>>, t: string)
    ensures t in Flatten(toks) <==> exists d :: 0 <= d < |toks| && t in toks[d]
    decreases |toks|
  {
    if toks != [] {
      var init := toks[..|toks| - 1];
      FlattenMember(init, t);
      assert forall d :: 0 <= d < |init| ==> init[d] == toks[d];
    }
  }

  /** `inverted_index[t]` as the loops leave it: a `(document, count)` pair for
      every document containing `t`, in document order. */
  function PostingsOf(toks: seq<seq<string>>, t: string): seq<(nat, nat)>
    decreases |toks|
  {
    if toks == [] then []
    else
      var d := |toks| - 1;
      PostingsOf(toks[..d], t) + (if t in toks[d] then [(d, multiset(toks[d])[t])] else [])
  }

  /** The list of a term, or none when the term is not a key. */
  function Lookup(inv: map<string, seq<(nat, nat)>>, t: string): seq<(nat, nat)> {
    if t in inv then inv[t] else []
  }

  /** What `t`'s list holds after `n` documents and `j` of the keys of the
      next one. */
  ghost function ListAfter(toks: seq<seq<string>>, n: nat, keys: seq<string>, j: nat, t: string): seq<(nat, nat)>
    requires n < |toks| || (n == |toks| && j == 0)
    requires j <= |keys|
  {
    PostingsOf(toks[..n], t) + (if t in keys[..j] then [(n, multiset(toks[n])[t])] else [])
  }

  ghost predicate ListsUpTo(inv: map<string, seq<(nat, nat)>>, toks: seq<seq<string>>, n: nat, keys: seq<string>, j: nat)
    requires n < |toks| || (n == |toks| && j == 0)
    requires j <= |keys|
  {
    forall t :: Lookup(inv, t) == ListAfter(toks, n, keys, j, t)
  }

  /** The key order after `n` documents and `j` of the keys of the next one. */
  ghost predicate KeysUpTo(terms: seq<string>, toks: seq<seq<string>>, n: nat, keys: seq<string>, j: nat)
    requires n <= |toks| && j <= |keys|
  {
    terms == Dedup(Flatten(toks[..n]) + keys[..j])
  }

  /** Every key has a non-empty list, and `terms` lists exactly the keys. */
  ghost predicate KeysAgree(inv: map<string, seq<(nat, nat)>>, terms: seq<string>) {
    && (forall t :: t in inv ==> inv[t] != [])
    && (forall t :: t in terms <==> t in inv)
  }

  /** Appending document `i`'s pair for the next key. */
  lemma ListsStep(inv: map<string, seq<(nat, nat)>>, inv': map<string, seq<(nat, nat)>>,
                  toks: seq<seq<string>>, i: nat, keys: seq<string>, j: nat)
    requires i < |toks| && j < |keys| && NoDuplicates(keys) && ListsUpTo(inv, toks, i, keys, j)
    requires Lookup(inv', keys[j]) == Lookup(inv, keys[j]) + [(i, multiset(toks[i])[keys[j]])]
    requires forall u :: u != keys[j] ==> Lookup(inv', u) == Lookup(inv, u)
    ensures ListsUpTo(inv', toks, i, keys, j + 1)
  {
    var t := keys[j];
    TakeSnoc(keys, j);
    forall u ensures Lookup(inv', u) == ListAfter(toks, i, keys, j + 1, u) {
      if u == t {
        assert t !in keys[..j];
        assert Lookup(inv, t) == PostingsOf(toks[..i], t);
      } else {
        assert u in keys[..j + 1] <==> u in keys[..j];
      }
    }
  }

  /** No key of document `i` done yet. */
  lemma StartDoc(inv: map<string, seq<(nat, nat)>>, terms: seq<string>, toks: seq<seq<string>>, i: nat, keys: seq<string>)
    requires i < |toks| && ListsUpTo(inv, toks, i, [], 0) && KeysUpTo(terms, toks, i, [], 0)
    ensures ListsUpTo(inv, toks, i, keys, 0) && KeysUpTo(terms, toks, i, keys, 0)
  {
    assert keys[..0] == [][..0];
    forall t ensures ListAfter(toks, i, keys, 0, t) == ListAfter(toks, i, [], 0, t) {
    }
  }

  /** All keys of document `i` done: the lists after `i + 1` documents. */
  lemma ListsDone(inv: map<string, seq<(nat, nat)>>, toks: seq<seq<string>>, i: nat, keys: seq<string>)
    requires i < |toks| && keys == Dedup(toks[i]) && ListsUpTo(inv, toks, i, keys, |keys|)
    ensures ListsUpTo(inv, toks, i + 1, [], 0)
  {
    assert keys[..|keys|] == keys;
    assert toks[..i + 1][..i] == toks[..i];
  }

  /** A new key is appended to the key order. */
  lemma KeysStep(terms: seq<string>, toks: seq<seq<string>>, i: nat, keys: seq<string>, j: nat)
    requires i < |toks| && j < |keys| && KeysUpTo(terms, toks, i, keys, j)
    ensures KeysUpTo(if keys[j] in terms then terms else terms + [keys[j]], toks, i, keys, j + 1)
  {
    var t := keys[j];
    assert keys[..j + 1] == keys[..j] + [t];
    assert Flatten(toks[..i]) + keys[..j + 1] == (Flatten(toks[..i]) + keys[..j]) + [t];
    DedupSnoc(Flatten(toks[..i]) + keys[..j], t);
  }

  /** Adding a pair under a key, new or old, keeps the keys and the key order
      in step. */
  lemma AgreeStep(inv: map<string, seq<(nat, nat)>>, terms: seq<string>, t: string, x: (nat, nat))
    requires KeysAgree(inv, terms)
    ensures KeysAgree(AddPair(inv, t, x), if t in inv then terms else terms + [t])
  {
  }

  /** `if t not in inv: inv[t] = []`, then `inv[t].append(x)`. */
  function AddPair(inv: map<string, seq<(nat, nat)>>, t: string, x: (nat, nat)): (r: map<string, seq<(nat, nat)>>)
    ensures Lookup(r, t) == Lookup(inv, t) + [x] && t in r
    ensures forall u :: u != t ==> (u in r <==> u in inv) && Lookup(r, u) == Lookup(inv, u)
  {
    var mid := if t in inv then inv else inv[t := []];
    mid[t := mid[t] + [x]]
  }

  /** All keys of document `i` done: the key order after `i + 1` documents. */
  lemma KeysDone(terms: seq<string>, toks: seq<seq<string>>, i: nat, keys: seq<string>)
    requires i < |toks| && keys == Dedup(toks[i]) && KeysUpTo(terms, toks, i, keys, |keys|)
    ensures KeysUpTo(terms, toks, i + 1, [], 0)
  {
    assert keys[..|keys|] == keys;
    assert toks[..i + 1][..i] == toks[..i];
    assert Flatten(toks[..i + 1]) == Flatten(toks[..i]) + toks[i];
    DedupDedup(Flatten(toks[..i]), toks[i]);
    assert Flatten(toks[..i + 1]) + [][..0] == Flatten(toks[..i + 1]);
  }

  /** One pair for one token: a new token becomes a key with an empty list
      first. */
  method AppendPosting(inv0: map<string, seq<(nat, nat)>>, terms0: seq<string>, t: string, x: (nat, nat))
    returns (inv: map<string, seq<(nat, nat)>>, terms: seq<string>)
    ensures inv == AddPair(inv0, t, x)
    ensures terms == if t in inv0 then terms0 else terms0 + [t]
  {
    inv, terms := inv0, terms0;
    if t !in inv {
      inv := inv[t := []];
      terms := terms + [t];
    }
    inv := inv[t := inv[t] + [x]];
  }

  /** The body of the loop over document `i`'s `Counter`, for its `j`-th key
      and that key's count `c`. */
  method AddKey(inv0: map<string, seq<(nat, nat)>>, terms0: seq<string>, toks: seq<seq<string>>, i: nat,
                keys: seq<string>, j: nat, c: nat)
    returns (inv: map<string, seq<(nat, nat)>>, terms: seq<string>)
    requires i < |toks| && keys == Dedup(toks[i]) && j < |keys| && c == multiset(toks[i])[keys[j]]
    requires ListsUpTo(inv0, toks, i, keys, j) && KeysUpTo(terms0, toks, i, keys, j) && KeysAgree(inv0, terms0)
    ensures ListsUpTo(inv, toks, i, keys, j + 1) && KeysUpTo(terms, toks, i, keys, j + 1) && KeysAgree(inv, terms)
  {
    var t := keys[j];
    KeysStep(terms0, toks, i, keys, j);
    AgreeStep(inv0, terms0, t, (i, c));
    inv, terms := AppendPosting(inv0, terms0, t, (i, c));
    ListsStep(inv0, inv, toks, i, keys, j);
  }

  /** `for token, count in Counter(tokens).items()` for document `i`: its
      pair is appended to each of its terms' lists, and new terms become
      keys. */
  method AddDoc(inv0: map<string, seq<(nat, nat)>>, terms0: seq<string>, toks: seq<seq<string>>, i: nat)
    returns (inv: map<string, seq<(nat, nat)>>, terms: seq<string>)
    requires i < |toks| && ListsUpTo(inv0, toks, i, [], 0) && KeysUpTo(terms0, toks, i, [], 0)
    requires KeysAgree(inv0, terms0)
    ensures ListsUpTo(inv, toks, i + 1, [], 0) && KeysUpTo(terms, toks, i + 1, [], 0)
    ensures KeysAgree(inv, terms)
  {
    var cnt := TfMap(toks[i]);
    var keys := Dedup(toks[i]);
    inv, terms := inv0, terms0;
    StartDoc(inv, terms, toks, i, keys);
    for j := 0 to |keys|
      invariant ListsUpTo(inv, toks, i, keys, j) && KeysUpTo(terms, toks, i, keys, j)
      invariant KeysAgree(inv, terms)
    {
      inv, terms := AddKey(inv, terms, toks, i, keys, j, cnt[keys[j]]);
    }
    ListsDone(inv, toks, i, keys);
    KeysDone(terms, toks, i, keys);
  }

  /** The inverted-index loop of `_build_index`: the lists of every term, with
      the keys in the order they were first met. */
  method Invert(toks: seq<seq<string>>) returns (inv: map<string, seq<(nat, nat)>>, terms: seq<string>)
    ensures forall t :: Lookup(inv, t) == PostingsOf(toks, t)
    ensures terms == Dedup(Flatten(toks))
    ensures KeysAgree(inv, terms)
  {
    inv, terms := map[], [];
    assert Flatten(toks[..0]) + [][..0] == [];
    for i := 0 to |toks|
      invariant ListsUpTo(inv, toks, i, [], 0) && KeysUpTo(terms, toks, i, [], 0)
      invariant KeysAgree(inv, terms)
    {
      inv, terms := AddDoc(inv, terms, toks, i);
    }
    assert toks[..|toks|] == toks;
    assert Flatten(toks) + [][..0] == Flatten(toks);
  }

  /** Every pair of a term's list names a document containing the term, with
      its true count. */
  predicate PairsTrue(ps: seq<(nat, nat)>, toks: seq<seq<string>>, t: string) {
    forall p :: 0 <= p < |ps| ==>
      ps[p].0 < |toks| && t in toks[ps[p].0] && ps[p].1 == multiset(toks[ps[p].0])[t] > 0
  }

  predicate IdsIncreasing(ps: seq<(nat, nat)>) {
    forall p, q :: 0 <= p < q < |ps| ==> ps[p].0 < ps[q].0
  }

  lemma {:induction false} PostingsOfPairs(toks: seq<seq<string>>, t: string)
    ensures PairsTrue(PostingsOf(toks, t), toks, t)
    decreases |toks|
  {
    if toks != [] {
      var d := |toks| - 1;
      var init := toks[..d];
      PostingsOfPairs(init, t);
      assert forall e :: 0 <= e < d ==> init[e] == toks[e];
    }
  }

  lemma {:induction false} PostingsOfIncreasing(toks: seq<seq<string>>, t: string)
    ensures IdsIncreasing(PostingsOf(toks, t))
    decreases |toks|
  {
    if toks != [] {
      var d := |toks| - 1;
      var init := toks[..d];
      PostingsOfIncreasing(init, t);
      PostingsOfPairs(init, t);
    }
  }

  lemma {:induction false} PostingsOfEmpty(toks: seq<seq<string>>, t: string)
    ensures PostingsOf(toks, t) == [] <==> forall d :: 0 <= d < |toks| ==> t !in toks[d]
    decreases |toks|
  {
    if toks != [] {
      var d := |toks| - 1;
      var init := toks[..d];
      PostingsOfEmpty(init, t);
      assert forall e :: 0 <= e < d ==> init[e] == toks[e];
    }
  }

  /** The `tf` lookup of `search`: the count of the first pair for `d`, or 0. */
  function Tf(plist: seq<(nat, nat)>, d: nat): nat
    decreases |plist|
  {
    if plist == [] then 0
    else if plist[0].0 == d then plist[0].1
    else Tf(plist[1..], d)
  }

  /** The scan over a term's list, stopping at the first pair for `d`. */
  method TermFrequency(plist: seq<(nat, nat)>, d: nat) returns (tf: nat)
    ensures tf == Tf(plist, d)
  {
    tf := 0;
    for p := 0 to |plist|
      invariant Tf(plist, d) == Tf(plist[p..], d)
    {
      assert plist[p..][1..] == plist[p + 1..];
      if plist[p].0 == d {
        tf := plist[p].1;
        return;
      }
    }
  }

  /** An appended pair is found only when no earlier pair is for `d`. */
  lemma {:induction false} TfSnoc(plist: seq<(nat, nat)>, x: (nat, nat), d: nat)
    ensures Tf(plist + [x], d) ==
      if x.0 == d && forall p :: 0 <= p < |plist| ==> plist[p].0 != d then x.1 else Tf(plist, d)
    ensures (forall p :: 0 <= p < |plist| ==> plist[p].0 != d) ==> Tf(plist, d) == 0
    decreases |plist|
  {
    if plist != [] {
      assert (plist + [x])[1..] == plist[1..] + [x];
      TfSnoc(plist[1..], x, d);
      assert forall p :: 1 <= p < |plist| ==> plist[p] == plist[1..][p - 1];
    }
  }

  /** Reading a term's list for a document gives its count there. */
  lemma {:induction false} TfOfPostings(toks: seq<seq<string>>, t: string, d: nat)
    requires d < |toks|
    ensures Tf(PostingsOf(toks, t), d) == multiset(toks[d])[t]
    decreases |toks|
  {
    var n := |toks| - 1;
    var init := toks[..n];
    var a := PostingsOf(init, t);
    PostingsOfPairs(init, t);
    var x := (n, multiset(toks[n])[t]);
    TfSnoc(a, x, d);
    assert PostingsOf(toks, t) == a + (if t in toks[n] then [x] else []);
    if t !in toks[n] {
      assert PostingsOf(toks, t) == a;
    }
    if d < n {
      TfOfPostings(init, t, d);
      assert init[d] == toks[d];
    }
  }

  /** The index keys are the distinct tokens of the store, each once. */
  lemma TermsSpec(toks: seq<seq<string>>, t: string)
    ensures NoDuplicates(Dedup(Flatten(toks)))
    ensures t in Dedup(Flatten(toks)) <==> exists d :: 0 <= d < |toks| && t in toks[d]
  {
    FlattenMember(toks, t);
  }

  // ---------------------------------------------------------------------
  // The link lists of `_calculate_pagerank`.

  /** `outlinks[i]`: the indices of the links that are stored URLs, except
      document `i` itself, in order, duplicates kept. */
  function OutRow(ids: map<string, nat>, links: seq<string>, i: nat): seq<nat>
    decreases |links|
  {
    if links == [] then []
    else
      var u := links[|links| - 1];
      OutRow(ids, links[..|links| - 1], i) + (if u in ids && ids[u] != i then [ids[u]] else [])
  }

  function AdjacencyOf(ids: map<string, nat>, store: seq<MongoDoc>): (rows: seq<seq<nat>>)
    ensures |rows| == |store|
    decreases |store|
  {
    if store == [] then []
    else AdjacencyOf(ids, store[..|store| - 1]) + [OutRow(ids, DocLinks(store[|store| - 1]), |store| - 1)]
  }

  /** Every edge leaves `i` for another document, at one of `i`'s links. */
  lemma {:induction false} OutRowFrom(ids: map<string, nat>, links: seq<string>, i: nat)
    ensures |OutRow(ids, links, i)| <= |links|
    ensures forall e :: e in OutRow(ids, links, i) ==> e != i && exists u :: u in links && u in ids && ids[u] == e
    decreases |links|
  {
    if links != [] {
      var init := links[..|links| - 1];
      OutRowFrom(ids, init, i);
      assert forall u :: u in init ==> u in links;
    }
  }

  /** A link to a stored URL other than the page's own is an edge. */
  lemma {:induction false} OutRowHas(ids: map<string, nat>, links: seq<string>, i: nat, u: string)
    requires u in links && u in ids && ids[u] != i
    ensures ids[u] in OutRow(ids, links, i)
    decreases |links|
  {
    var init := links[..|links| - 1];
    if links[|links| - 1] != u {
      assert u in init by { assert links == init + [links[|links| - 1]]; }
      OutRowHas(ids, init, i, u);
    }
  }

  lemma {:induction false} AdjacencyIndex(ids: map<string, nat>, store: seq<MongoDoc>, d: nat)
    requires d < |store|
    ensures AdjacencyOf(ids, store)[d] == OutRow(ids, DocLinks(store[d]), d)
    decreases |store|
  {
    if d < |store| - 1 {
      AdjacencyIndex(ids, store[..|store| - 1], d);
    }
  }

  /** `for link in links: if link in url_to_idx and url_to_idx[link] != i`. */
  method LinkRow(ids: map<string, nat>, links: seq<string>, i: nat) returns (row: seq<nat>)
    ensures row == OutRow(ids, links, i)
  {
    row := [];
    for j := 0 to |links|
      invariant row == OutRow(ids, links[..j], i)
    {
      assert links[..j + 1][..j] == links[..j];
      var link := links[j];
      if link in ids {
        var target := ids[link];
        if target != i {
          row := row + [target];
        }
      }
    }
    assert links[..|links|] == links;
  }

  /** The adjacency loop of `_calculate_pagerank`. */
  method Adjacency(ids: map<string, nat>, store: seq<MongoDoc>) returns (rows: seq<seq<nat>>)
    ensures rows == AdjacencyOf(ids, store)
  {
    rows := [];
    for i := 0 to |store|
      invariant rows == AdjacencyOf(ids, store[..i])
    {
      assert store[..i + 1][..i] == store[..i];
      var row := LinkRow(ids, DocLinks(store[i]), i);
      rows := rows + [row];
    }
    assert store[..|store| - 0] == store;
  }

  // ---------------------------------------------------------------------
  // The index.

  /** The cached index: the documents and their lengths, the inverted
      index with its keys in insertion order, and the link lists. The IDF
      values, the average length and the PageRank values are reals computed
      from these. */
  datatype MongoIndex = MongoIndex(docs: seq<Document>, doclen: seq<nat>,
                                   inverted: map<string, seq<(nat, nat)>>, terms: seq<string>,
                                   outlinks: seq<seq<nat>>)

  /** The index `_build_index` builds from `store`. */
  ghost predicate BuiltFromStore(idx: MongoIndex, store: seq<MongoDoc>) {
    var toks := TokensOf(store);
    && idx.docs == DocsOfStore(store) && idx.doclen == LengthsOf(toks)
    && (forall t :: Lookup(idx.inverted, t) == PostingsOf(toks, t))
    && idx.terms == Dedup(Flatten(toks))
    && KeysAgree(idx.inverted, idx.terms)
    && idx.outlinks == AdjacencyOf(UrlIndex(UrlsOf(store)), store)
  }

  /** A store has one index: two indexes built from it are equal. */
  lemma BuiltFromStoreUnique(i1: MongoIndex, i2: MongoIndex, store: seq<MongoDoc>)
    requires BuiltFromStore(i1, store) && BuiltFromStore(i2, store)
    ensures i1 == i2
  {
    forall t ensures t in i1.inverted <==> t in i2.inverted {
      assert t in i1.inverted <==> t in i1.terms;
    }
    forall t | t in i1.inverted ensures i1.inverted[t] == i2.inverted[t] {
      assert Lookup(i1.inverted, t) == Lookup(i2.inverted, t);
    }
    assert i1.inverted == i2.inverted;
  }

  /** `_build_index` once the documents are fetched: nothing for an empty
      store. */
  method BuildFromStore(store: seq<MongoDoc>) returns (r: Option<MongoIndex>)
    ensures store == [] <==> r.None?
    ensures r.Some? ==> BuiltFromStore(r.value, store)
  {
    if store == [] {
      return None;
    }
    var docs, toks, doclen, ids := CollectDocs(store);
    var inv, terms := Invert(toks);
    var outlinks := Adjacency(ids, store);
    r := Some(MongoIndex(docs, doclen, inv, terms, outlinks));
  }

  /** A term of the store is a key exactly when some document contains it:
      the lists are the reference lists, non-empty for every key. */
  lemma IndexedTerm(idx: MongoIndex, store: seq<MongoDoc>, t: string)
    requires BuiltFromStore(idx, store)
    ensures t in idx.inverted <==> exists d :: 0 <= d < |store| && t in TokensOf(store)[d]
  {
    PostingsOfEmpty(TokensOf(store), t);
    assert Lookup(idx.inverted, t) == PostingsOf(TokensOf(store), t);
  }

  /** Every list of the index is in increasing document order, and each of its
      pairs is a document of the store with the term's true count there. */
  lemma IndexLists(idx: MongoIndex, store: seq<MongoDoc>, t: string)
    requires BuiltFromStore(idx, store) && t in idx.inverted
    ensures PairsTrue(idx.inverted[t], TokensOf(store), t) && IdsIncreasing(idx.inverted[t])
  {
    PostingsOfPairs(TokensOf(store), t);
    PostingsOfIncreasing(TokensOf(store), t);
    assert Lookup(idx.inverted, t) == PostingsOf(TokensOf(store), t);
  }

  /** The lookup of `search` reads a document's count of a term, zero for a
      term the index lacks. */
  lemma IndexTf(idx: MongoIndex, store: seq<MongoDoc>, t: string, d: nat)
    requires BuiltFromStore(idx, store) && d < |store|
    ensures Tf(Lookup(idx.inverted, t), d) == multiset(TokensOf(store)[d])[t]
  {
    TfOfPostings(TokensOf(store), t, d);
    assert Lookup(idx.inverted, t) == PostingsOf(TokensOf(store), t);
  }

  /** Every link list points from a document to other documents it links to. */
  lemma IndexEdges(idx: MongoIndex, store: seq<MongoDoc>, i: nat, e: nat)
    requires BuiltFromStore(idx, store) && i < |store| && e in idx.outlinks[i]
    ensures e < |store| && e != i && DocUrl(store[e]) in DocLinks(store[i])
  {
    var urls := UrlsOf(store);
    AdjacencyIndex(UrlIndex(urls), store, i);
    OutRowFrom(UrlIndex(urls), DocLinks(store[i]), i);
    UrlIndexSpec(urls);
    StoreIndex(store, e);
  }

  /** A link to another stored URL is an edge (to the last document with
      that URL). */
  lemma IndexEdgesComplete(idx: MongoIndex, store: seq<MongoDoc>, i: nat, u: string)
    requires BuiltFromStore(idx, store) && i < |store| && u in DocLinks(store[i])
    requires u in UrlIndex(UrlsOf(store)) && UrlIndex(UrlsOf(store))[u] != i
    ensures UrlIndex(UrlsOf(store))[u] in idx.outlinks[i]
  {
    var urls := UrlsOf(store);
    UrlIndexSpec(urls);
    AdjacencyIndex(UrlIndex(urls), store, i);
    OutRowHas(UrlIndex(urls), DocLinks(store[i]), i, u);
  }

  // ---------------------------------------------------------------------
  // Searching.

  /** Document `d` gets a positive BM25 score: some query term has a list in
      the index with a non-zero count for `d`. Each such term adds a positive
      amount, since IDF and the BM25 fraction are positive. */
  ghost predicate Hit(idx: MongoIndex, qterms: seq<string>, d: nat) {
    exists q :: 0 <= q < |qterms| && qterms[q] in idx.inverted && Tf(idx.inverted[qterms[q]], d) > 0
  }

  /** The inner loop of the BM25 pass for one document. */
  method DocHit(idx: MongoIndex, qterms: seq<string>, d: nat) returns (hit: bool)
    ensures hit <==> Hit(idx, qterms, d)
  {
    hit := false;
    for q := 0 to |qterms|
      invariant hit <==> exists q' :: 0 <= q' < q && qterms[q'] in idx.inverted && Tf(idx.inverted[qterms[q']], d) > 0
    {
      var term := qterms[q];
      if term !in idx.inverted {
        continue;
      }
      var tf := TermFrequency(idx.inverted[term], d);
      if tf == 0 {
        continue;
      }
      hit := true;
    }
  }

  /** The keys of `bm25_scores`: the documents with a hit, in increasing
      order. */
  method ScoredDocs(idx: MongoIndex, qterms: seq<string>) returns (scored: seq<nat>)
    ensures forall d: nat :: d in scored <==> d < |idx.docs| && Hit(idx, qterms, d)
    ensures forall a, b :: 0 <= a < b < |scored| ==> scored[a] < scored[b]
    ensures forall a :: 0 <= a < |scored| ==> scored[a] < |idx.docs|
  {
    scored := [];
    for d := 0 to |idx.docs|
      invariant forall e: nat :: e in scored <==> e < d && Hit(idx, qterms, e)
      invariant forall a, b :: 0 <= a < b < |scored| ==> scored[a] < scored[b]
      invariant forall a :: 0 <= a < |scored| ==> scored[a] < d
    {
      var hit := DocHit(idx, qterms, d);
      if hit {
        scored := scored + [d];
      }
    }
  }

  /** A document hits exactly when it contains one of the query terms. */
  lemma HitIff(idx: MongoIndex, store: seq<MongoDoc>, qterms: seq<string>, d: nat)
    requires BuiltFromStore(idx, store) && d < |store|
    ensures Hit(idx, qterms, d) <==> exists q :: 0 <= q < |qterms| && qterms[q] in TokensOf(store)[d]
  {
    forall q | 0 <= q < |qterms|
      ensures (qterms[q] in idx.inverted && Tf(idx.inverted[qterms[q]], d) > 0) <==> qterms[q] in TokensOf(store)[d]
    {
      IndexTf(idx, store, qterms[q], d);
    }
  }

  /** The final score of `search` for document `d`. */
  function MongoScore(idx: MongoIndex, qterms: seq<string>, d: nat, bm: nat -> real, prNorm: nat -> real,
                      alpha: real, beta: real, boost: real): real
  {
    if d < |idx.docs| then
      Combine(bm(d), prNorm(d), TitleBonus(qterms, idx.docs[d].title, idx.docs[d].url, boost), alpha, beta)
    else 0.0
  }

  /** The final score of `search`, as a function of the document. */
  function Scorer(idx: MongoIndex, qterms: seq<string>, bm: nat -> real, prNorm: nat -> real,
                  alpha: real, beta: real, boost: real): nat -> real
  {
    (d: nat) => MongoScore(idx, qterms, d, bm, prNorm, alpha, beta, boost)
  }

  /** The documents with a hit. */
  ghost function HitSet(idx: MongoIndex, qterms: seq<string>): set<nat> {
    set d: nat | d < |idx.docs| && Hit(idx, qterms, d)
  }

  /** `search` on the built index (`None` when the store was empty): nothing
      without an index, a query token or a hit; otherwise the top `k` hits
      (Python's `[:k]` of the descending sort) paired with their final
      score, best first, distinct, and every hit when `k` covers all
      documents. `bm` and `prNorm` stand for the
      floating-point BM25 and normalised PageRank values. */
  ghost predicate Answers(idx: Option<MongoIndex>, query: string, alpha: real, beta: real, k: int, boost: real,
                          bm: nat -> real, prNorm: nat -> real, r: seq<(Document, real)>)
  {
    && (idx.None? || Tokenize(query) == [] ==> r == [])
    && (k >= 0 ==> |r| <= k)
    && (idx.Some? ==> forall i :: 0 <= i < |r| ==>
          exists d :: (0 <= d < |idx.value.docs| && Hit(idx.value, Tokenize(query), d)
            && r[i] == (idx.value.docs[d], MongoScore(idx.value, Tokenize(query), d, bm, prNorm, alpha, beta, boost))))
    && (forall i, j :: 0 <= i < j < |r| ==> r[i].1 >= r[j].1)
    && (idx.Some? && Tokenize(query) != [] && k >= |idx.value.docs| ==>
          |r| == |HitSet(idx.value, Tokenize(query))|)
    && (idx.Some? && Tokenize(query) != [] ==>
          RankedTop(idx.value.docs, HitSet(idx.value, Tokenize(query)),
                    Scorer(idx.value, Tokenize(query), bm, prNorm, alpha, beta, boost), k, r))
  }

  method SearchIndex(idx: Option<MongoIndex>, query: string, alpha: real, beta: real, k: int, boost: real,
                     bm: nat -> real, prNorm: nat -> real)
    returns (r: seq<(Document, real)>)
    ensures Answers(idx, query, alpha, beta, k, boost, bm, prNorm, r)
  {
    if idx.None? {
      return [];
    }
    var index := idx.value;
    var qterms := Tokenize(query);
    if qterms == [] {
      return [];
    }
    var scored := ScoredDocs(index, qterms);
    ScoredCount(index, qterms, scored);
    if scored == [] {
      var score := Scorer(index, qterms, bm, prNorm, alpha, beta, boost);
      assert TopOf(HitSet(index, qterms), score, k, []);
      RankedTopOf(index.docs, HitSet(index, qterms), score, k, [], []);
      return [];
    }
    r := RankHits(index, query, qterms, scored, alpha, beta, k, boost, bm, prNorm);
  }

  /** The ranking of `search` once some document has a hit: the top `k`
      hits by final score, each with its document. */
  method RankHits(index: MongoIndex, query: string, qterms: seq<string>, scored: seq<nat>, alpha: real, beta: real,
                  k: int, boost: real, bm: nat -> real, prNorm: nat -> real)
    returns (r: seq<(Document, real)>)
    requires qterms == Tokenize(query) && qterms != []
    requires forall d: nat :: d in scored <==> d < |index.docs| && Hit(index, qterms, d)
    requires forall a :: 0 <= a < |scored| ==> scored[a] < |index.docs|
    requires NoDuplicates(scored)
    requires |scored| == |HitSet(index, qterms)| && |scored| <= |index.docs|
    ensures Answers(Some(index), query, alpha, beta, k, boost, bm, prNorm, r)
  {
    var score := Scorer(index, qterms, bm, prNorm, alpha, beta, boost);
    var top;
    r, top := RankDocs(index.docs, scored, score, k);
    HitSetOf(index, qterms, scored);
    AnswersOfTop(index, query, alpha, beta, k, boost, bm, prNorm, top, r);
  }

  /** The documents of a top-`k` selection of the hits, with their final
      scores, answer the query. */
  lemma AnswersOfTop(index: MongoIndex, query: string, alpha: real, beta: real, k: int, boost: real,
                     bm: nat -> real, prNorm: nat -> real, top: seq<nat>, r: seq<(Document, real)>)
    requires Tokenize(query) != [] && |HitSet(index, Tokenize(query))| <= |index.docs|
    requires TopOf(HitSet(index, Tokenize(query)), Scorer(index, Tokenize(query), bm, prNorm, alpha, beta, boost), k, top)
    requires |top| == |r| && forall i :: 0 <= i < |r| ==>
      top[i] < |index.docs| && r[i] == (index.docs[top[i]], MongoScore(index, Tokenize(query), top[i], bm, prNorm, alpha, beta, boost))
    ensures Answers(Some(index), query, alpha, beta, k, boost, bm, prNorm, r)
  {
    var qterms := Tokenize(query);
    var hits := HitSet(index, qterms);
    var score := Scorer(index, qterms, bm, prNorm, alpha, beta, boost);
    RankedTopOf(index.docs, hits, score, k, top, r);
    forall i | 0 <= i < |r|
      ensures exists d :: (0 <= d < |index.docs| && Hit(index, qterms, d)
        && r[i] == (index.docs[d], MongoScore(index, qterms, d, bm, prNorm, alpha, beta, boost)))
    {
      assert top[i] in hits;
    }
  }

  /** A sequence holding exactly the documents with a hit has them as its
      set. */
  lemma HitSetOf(idx: MongoIndex, qterms: seq<string>, scored: seq<nat>)
    requires forall d: nat :: d in scored <==> d < |idx.docs| && Hit(idx, qterms, d)
    ensures (set x: nat | x in scored) == HitSet(idx, qterms)
  {
  }

  /** The scored documents are as many as the documents with a hit, and no
      more than the documents. */
  lemma ScoredCount(idx: MongoIndex, qterms: seq<string>, scored: seq<nat>)
    requires forall d: nat :: d in scored <==> d < |idx.docs| && Hit(idx, qterms, d)
    requires forall a, b :: 0 <= a < b < |scored| ==> scored[a] < scored[b]
    requires forall a :: 0 <= a < |scored| ==> scored[a] < |idx.docs|
    ensures |scored| == |HitSet(idx, qterms)|
    ensures |scored| <= |idx.docs|
    ensures NoDuplicates(scored)
  {
    var hits := HitSet(idx, qterms);
    assert NoDuplicates(scored);
    DistinctCard(scored);
    assert forall x :: x in (set y: nat | y in scored) <==> x in hits;
    assert (set y: nat | y in scored) == hits;
    BoundedIncreasing(scored, |idx.docs|);
  }

  // ---------------------------------------------------------------------
  // Statistics.

  datatype IndexStats = IndexStats(totalDocs: nat, avgDocLength: real, vocabSize: nat)

  function SumNat(s: seq<nat>): nat
    decreases |s|
  {
    if s == [] then 0 else SumNat(s[..|s| - 1]) + s[|s| - 1]
  }

  /** `sum(doc_lengths.values()) / len(doc_lengths) if doc_lengths else 0`. */
  function Average(lengths: seq<nat>): real {
    if lengths == [] then 0.0 else (SumNat(lengths) as real) / (|lengths| as real)
  }

  /** `get_stats`: zeros without an index; otherwise the number of
      documents, the average length and the number of distinct terms. */
  function Stats(idx: Option<MongoIndex>): IndexStats {
    match idx
    case None => IndexStats(0, 0.0, 0)
    case Some(x) =>
      IndexStats(|x.docs|, Average(x.doclen), |x.inverted|)
  }

  /** The lengths add up to the number of tokens of the store. */
  lemma {:induction false} SumLengths(toks: seq<seq<string>>)
    ensures SumNat(LengthsOf(toks)) == |Flatten(toks)|
    decreases |toks|
  {
    if toks != [] {
      SumLengths(toks[..|toks| - 1]);
    }
  }

  /** Every stored page is a document. */
  lemma StatsDocs(idx: MongoIndex, store: seq<MongoDoc>)
    requires BuiltFromStore(idx, store)
    ensures Stats(Some(idx)).totalDocs == |store|
  {
  }

  /** The average length is the number of tokens in the store over the
      number of documents, and zero for an empty store (which holds for
      every index built from it). */
  lemma StatsAverage(idx: MongoIndex, store: seq<MongoDoc>)
    requires idx.doclen == LengthsOf(TokensOf(store))
    ensures store == [] ==> Stats(Some(idx)).avgDocLength == 0.0
    ensures store != [] ==>
      Stats(Some(idx)).avgDocLength == (|Flatten(TokensOf(store))| as real) / (|store| as real)
  {
    SumLengths(TokensOf(store));
  }

  /** The vocabulary size is the number of keys in the key order, and the
      number of distinct tokens of the store. */
  lemma StatsVocabulary(idx: MongoIndex, store: seq<MongoDoc>)
    requires BuiltFromStore(idx, store)
    ensures Stats(Some(idx)).vocabSize == |idx.terms| == |set t | t in Flatten(TokensOf(store))|
  {
    var flat := Flatten(TokensOf(store));
    DistinctCard(idx.terms);
    assert forall t :: t in (set x | x in idx.terms) <==> t in idx.inverted.Keys;
    assert (set x | x in idx.terms) == idx.inverted.Keys;
    assert (set x | x in idx.terms) == (set x | x in flat);
  }

  // ---------------------------------------------------------------------
  // The engine object and its index cache.

  /** The titles of the documents, in document order. */
  function TitlesOf(docs: seq<Document>): (titles: seq<string>)
    ensures |titles| == |docs|
    ensures forall i :: 0 <= i < |docs| ==> titles[i] == docs[i].title
  {
    seq(|docs|, i requires 0 <= i < |docs| => docs[i].title)
  }

  /** `_build_index` may answer from the cache: not forced, an index is
      cached, and the store holds as many records as when it was built. */
  predicate CacheUsable(cache: Option<MongoIndex>, lastCount: int, store: seq<MongoDoc>, force: bool) {
    !force && cache.Some? && lastCount == |store|
  }

  /** `MongoSearchEngine`: the store is the collection the engine reads,
      passed to every call; `cachedFrom` records which store the cached
      index was built from. */
  class MongoSearchEngine {
    var indexCache: Option<MongoIndex>
    var lastDocCount: int
    ghost var cachedFrom: seq<MongoDoc>

    /** A cached index is the index of a non-empty store of
        `lastDocCount` records. */
    ghost predicate Valid()
      reads this
    {
      indexCache.Some? ==>
        cachedFrom != [] && lastDocCount == |cachedFrom| && BuiltFromStore(indexCache.value, cachedFrom)
    }

    /** `__init__`: no index yet and a count of zero. */
    constructor()
      ensures indexCache.None? && lastDocCount == 0
      ensures Valid()
    {
      indexCache := None;
      lastDocCount := 0;
      cachedFrom := [];
    }

    /** `_build_index`: the cached index when usable (which may predate
        changes that kept the count); `None`, with the cache left alone, for
        an empty store; otherwise the index of `store`, which becomes the
        cache together with the store's size. */
    method BuildIndex(store: seq<MongoDoc>, force: bool) returns (idx: Option<MongoIndex>)
      requires Valid()
      modifies this
      ensures Valid()
      ensures CacheUsable(old(indexCache), old(lastDocCount), store, force) ==>
        idx == old(indexCache) && unchanged(this)
      ensures !CacheUsable(old(indexCache), old(lastDocCount), store, force) && store == [] ==>
        idx.None? && unchanged(this)
      ensures !CacheUsable(old(indexCache), old(lastDocCount), store, force) && store != [] ==>
        idx.Some? && BuiltFromStore(idx.value, store)
        && indexCache == idx && lastDocCount == |store| && cachedFrom == store
      ensures idx.Some? ==> idx == indexCache
    {
      if CacheUsable(indexCache, lastDocCount, store, force) {
        return indexCache;
      }
      idx := BuildFromStore(store);
      if idx.None? {
        return;
      }
      indexCache := idx;
      lastDocCount := |store|;
      cachedFrom := store;
    }

    /** `search`: the answer of `SearchIndex` on the index `_build_index`
        gives (the cache after the call, unless the store is empty). */
    method Search(store: seq<MongoDoc>, query: string, alpha: real, beta: real, k: int, boost: real,
                  bm: nat -> real, prNorm: nat -> real)
      returns (r: seq<(Document, real)>)
      requires Valid()
      modifies this
      ensures Valid()
      ensures CacheUsable(old(indexCache), old(lastDocCount), store, false) || store == [] ==>
        indexCache == old(indexCache) && lastDocCount == old(lastDocCount) && cachedFrom == old(cachedFrom)
      ensures !CacheUsable(old(indexCache), old(lastDocCount), store, false) && store != [] ==>
        indexCache.Some? && BuiltFromStore(indexCache.value, store) && lastDocCount == |store| && cachedFrom == store
      ensures old(indexCache).None? && store == [] ==> r == []
      ensures Answers(if store == [] && !CacheUsable(old(indexCache), old(lastDocCount), store, false) then None
                      else indexCache, query, alpha, beta, k, boost, bm, prNorm, r)
    {
      var idx := BuildIndex(store, false);
      r := SearchIndex(idx, query, alpha, beta, k, boost, bm, prNorm);
    }

    /** `get_stats` on the index `_build_index` gives. */
    method GetStats(store: seq<MongoDoc>) returns (s: IndexStats)
      requires Valid()
      modifies this
      ensures Valid()
      ensures CacheUsable(old(indexCache), old(lastDocCount), store, false) || store == [] ==>
        indexCache == old(indexCache) && lastDocCount == old(lastDocCount) && cachedFrom == old(cachedFrom)
      ensures !CacheUsable(old(indexCache), old(lastDocCount), store, false) && store != [] ==>
        indexCache.Some? && BuiltFromStore(indexCache.value, store) && lastDocCount == |store| && cachedFrom == store
      ensures s == Stats(if store == [] && !CacheUsable(old(indexCache), old(lastDocCount), store, false) then None
                         else indexCache)
      ensures store != [] ==> s.totalDocs == |cachedFrom| == lastDocCount
    {
      var idx := BuildIndex(store, false);
      s := Stats(idx);
    }

    /** `get_suggestions` on the index `_build_index` gives: nothing without
        one, otherwise the suggestions among its keys and document titles. */
    method GetSuggestions(store: seq<MongoDoc>, prefix: string, limit: int, idf: string -> real)
      returns (r: seq<string>)
      requires Valid()
      modifies this
      ensures Valid()
      ensures CacheUsable(old(indexCache), old(lastDocCount), store, false) || store == [] ==>
        indexCache == old(indexCache) && lastDocCount == old(lastDocCount) && cachedFrom == old(cachedFrom)
      ensures !CacheUsable(old(indexCache), old(lastDocCount), store, false) && store != [] ==>
        indexCache.Some? && BuiltFromStore(indexCache.value, store) && lastDocCount == |store| && cachedFrom == store
      ensures store == [] && !CacheUsable(old(indexCache), old(lastDocCount), store, false) ==> r == []
      ensures !(store == [] && !CacheUsable(old(indexCache), old(lastDocCount), store, false)) ==>
        indexCache.Some?
        && r == Suggestions.SuggestionsOf(indexCache.value.terms, TitlesOf(indexCache.value.docs), prefix, limit, idf)
    {
      var idx := BuildIndex(store, false);
      if idx.None? {
        return [];
      }
      r := Suggestions.GetSuggestions(idx.value.terms, TitlesOf(idx.value.docs), prefix, limit, idf);
    }
  }
}

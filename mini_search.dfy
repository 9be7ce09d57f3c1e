/** The file-based search engine: building the index from crawled page
    records (`build`), the set of documents BM25 scores, and the top-k list of
    `hybrid_rank`. Files, JSON and floating-point scoring stay outside; page
    records arrive as values in the order of the sorted file list. */
module MiniSearch {
  import opened Wrappers
  import opened Strings
  import opened Tokenizer
  import opened Counting
  import opened Ranking

  /** A stored page: `url`, and the keys read with `d.get(..)`, which may be
      missing. */
  datatype PageRecord = PageRecord(url: string, title: Option<string>, text: Option<string>, outlinks: Option<seq<string>>)

  datatype Document = Document(url: string, title: string, length: nat, snippet: string)

  /** The index in memory: `postings[t][i]` is the count of term `t` in
      document `i`; `doclen`, `docs` and `graph` are keyed by the ids
      `0 .. n - 1`; `df[t]` is the number of documents containing `t`. */
  datatype MiniIndex = MiniIndex(postings: map<string, map<nat, nat>>, doclen: seq<nat>, docs: seq<Document>,
                                 graph: seq<seq<nat>>, n: nat, df: map<string, nat>)

  function OrEmpty(o: Option<string>): string {
    match o case Some(s) => s case None => ""
  }

  /** The tokens a page is indexed under: its title and text. */
  function PageTokens(p: PageRecord): seq<string> {
    Tokenize(OrEmpty(p.title) + " " + OrEmpty(p.text))
  }

  /** The stored document: the stripped title, or the URL when that is empty;
      the number of tokens; the first 30 tokens joined by spaces. */
  function MakeDocument(p: PageRecord): Document {
    var toks := PageTokens(p);
    var t := Strip(OrEmpty(p.title));
    Document(p.url, if t != [] then t else p.url, |toks|, Join(Take(toks, 30), " "))
  }

  /** The snippet holds at most 30 tokens: exactly the first ones of the page. */
  lemma SnippetTokens(p: PageRecord)
    ensures Tokenize(MakeDocument(p).snippet) == Take(PageTokens(p), 30)
    ensures |Tokenize(MakeDocument(p).snippet)| <= 30
  {
    var toks := PageTokens(p);
    TokenizeJoin(Take(toks, 30));
  }

  /** The title is never blank unless the URL is, and a blank title falls back
      to the URL. */
  lemma DocumentTitle(p: PageRecord)
    ensures Strip(OrEmpty(p.title)) == [] ==> MakeDocument(p).title == p.url
    ensures MakeDocument(p).title == [] ==> p.url == []
    ensures Strip(OrEmpty(p.title)) != [] ==> Strip(MakeDocument(p).title) == MakeDocument(p).title
  {
    StripIdempotent(OrEmpty(p.title));
  }

  // ---------------------------------------------------------------------
  // URL ids and the link graph.

  /** `url_to_id` (and `url_to_idx`): each URL mapped to its position; a
      later occurrence of the same URL overrides an earlier one. */
  function UrlIndex(urls: seq<string>): map<string, nat>
    decreases |urls|
  {
    if urls == [] then map[]
    else UrlIndex(urls[..|urls| - 1])[urls[|urls| - 1] := |urls| - 1]
  }

  /** Every URL has an id, the position of its last occurrence, and no other
      string has one. */
  lemma {:induction false} UrlIndexSpec(urls: seq<string>)
    ensures forall u :: u in UrlIndex(urls) <==> u in urls
    ensures forall u :: u in UrlIndex(urls) ==>
      UrlIndex(urls)[u] < |urls| && urls[UrlIndex(urls)[u]] == u
      && forall j :: UrlIndex(urls)[u] < j < |urls| ==> urls[j] != u
    decreases |urls|
  {
    if urls != [] {
      var init := urls[..|urls| - 1];
      UrlIndexSpec(init);
      assert urls == init + [urls[|urls| - 1]];
    }
  }

  method UrlIds(urls: seq<string>) returns (ids: map<string, nat>)
    ensures ids == UrlIndex(urls)
    ensures forall u :: u in ids <==> u in urls
    ensures forall u :: u in ids ==> ids[u] < |urls| && urls[ids[u]] == u
  {
    ids := map[];
    for i := 0 to |urls|
      invariant ids == UrlIndex(urls[..i])
    {
      assert urls[..i + 1][..i] == urls[..i];
      ids := ids[urls[i] := i];
    }
    assert urls[..|urls|] == urls;
    UrlIndexSpec(urls);
  }

  function PageUrls(pages: seq<PageRecord>): (urls: seq<string>)
    ensures |urls| == |pages| && forall i :: 0 <= i < |pages| ==> urls[i] == pages[i].url
  {
    seq(|pages|, i requires 0 <= i < |pages| => pages[i].url)
  }

  /** `graph[i]`: the ids of those outlinks that are page URLs, in order,
      duplicates kept. */
  function OutIds(ids: map<string, nat>, links: seq<string>): seq<nat>
    decreases |links|
  {
    if links == [] then []
    else
      var u := links[|links| - 1];
      OutIds(ids, links[..|links| - 1]) + (if u in ids then [ids[u]] else [])
  }

  /** Every edge is the id of one of the outlinks. */
  lemma {:induction false} OutIdsFrom(ids: map<string, nat>, links: seq<string>)
    ensures |OutIds(ids, links)| <= |links|
    ensures forall e :: e in OutIds(ids, links) ==> exists u :: u in links && u in ids && ids[u] == e
    decreases |links|
  {
    if links != [] {
      var init := links[..|links| - 1];
      OutIdsFrom(ids, init);
      assert forall u :: u in init ==> u in links;
    }
  }

  method LinkIds(ids: map<string, nat>, links: seq<string>) returns (outs: seq<nat>)
    ensures outs == OutIds(ids, links)
  {
    outs := [];
    for j := 0 to |links|
      invariant outs == OutIds(ids, links[..j])
    {
      assert links[..j + 1][..j] == links[..j];
      if links[j] in ids {
        outs := outs + [ids[links[j]]];
      }
    }
    assert links[..|links|] == links;
  }

  function Outlinks(p: PageRecord): seq<string> {
    match p.outlinks case Some(l) => l case None => []
  }

  // ---------------------------------------------------------------------
  // Postings.

  /** The tokens of every page, by id. */
  function AllTokens(pages: seq<PageRecord>): (toks: seq<seq<string>>)
    ensures |toks| == |pages|
    ensures forall d :: 0 <= d < |pages| ==> toks[d] == PageTokens(pages[d])
  {
    seq(|pages|, d requires 0 <= d < |pages| => PageTokens(pages[d]))
  }

  /** `postings[t][d]` exists. */
  predicate Entry(postings: map<string, map<nat, nat>>, t: string, d: nat) {
    t in postings && d in postings[t]
  }

  /** Every entry of `postings` is the true count of a term in a document. */
  ghost predicate PostingsSound(postings: map<string, map<nat, nat>>, toks: seq<seq<string>>) {
    && (forall t, d: nat :: Entry(postings, t, d) ==>
          d < |toks| && t in toks[d] && postings[t][d] == multiset(toks[d])[t])
    && (forall t :: t in postings ==> |postings[t]| > 0)
  }

  /** The documents before `upto` are entered in full. */
  ghost predicate PostingsCover(postings: map<string, map<nat, nat>>, toks: seq<seq<string>>, upto: nat) {
    forall d, t :: 0 <= d < upto && d < |toks| && t in toks[d] ==> Entry(postings, t, d)
  }

  /** `postings[t][i] = c`. */
  function Insert(postings: map<string, map<nat, nat>>, t: string, i: nat, c: nat): (r: map<string, map<nat, nat>>)
    ensures forall t', d :: Entry(r, t', d) <==> Entry(postings, t', d) || (t' == t && d == i)
    ensures forall t', d :: Entry(postings, t', d) && !(t' == t && d == i) ==> Entry(r, t', d) && r[t'][d] == postings[t'][d]
    ensures Entry(r, t, i) && r[t][i] == c
  {
    var row: map<nat, nat> := if t in postings then postings[t] else map[];
    postings[t := row[i := c]]
  }

  /** Entering one true count keeps the postings sound. */
  lemma SoundInsert(postings: map<string, map<nat, nat>>, toks: seq<seq<string>>, t: string, i: nat)
    requires PostingsSound(postings, toks) && i < |toks| && t in toks[i]
    ensures PostingsSound(Insert(postings, t, i, multiset(toks[i])[t]), toks)
  {
    var r := Insert(postings, t, i, multiset(toks[i])[t]);
    forall t' | t' in r ensures |r[t']| > 0 {
      if t' == t {
        assert Entry(r, t, i);
        assert i in r[t];
      } else {
        assert r[t'] == postings[t'];
      }
    }
  }

  /** Entering a count removes no entry. */
  lemma CoverInsert(postings: map<string, map<nat, nat>>, toks: seq<seq<string>>, upto: nat, t: string, i: nat, c: nat)
    requires PostingsCover(postings, toks, upto)
    ensures PostingsCover(Insert(postings, t, i, c), toks, upto)
  {
  }

  /** `for t, tf in Counter(toks[i]).items(): postings[t][i] = tf`. */
  method AddPostings(postings: map<string, map<nat, nat>>, toks: seq<seq<string>>, i: nat)
    returns (out: map<string, map<nat, nat>>)
    requires i < |toks| && PostingsSound(postings, toks) && PostingsCover(postings, toks, i)
    ensures PostingsSound(out, toks) && PostingsCover(out, toks, i + 1)
  {
    var cnt := TfMap(toks[i]);
    var keys := Dedup(toks[i]);
    out := postings;
    for j := 0 to |keys|
      invariant PostingsSound(out, toks) && PostingsCover(out, toks, i)
      invariant forall t :: t in keys[..j] ==> Entry(out, t, i)
    {
      var t := keys[j];
      SoundInsert(out, toks, t, i);
      CoverInsert(out, toks, i, t, i, cnt[t]);
      assert keys[..j + 1] == keys[..j] + [t];
      out := Insert(out, t, i, cnt[t]);
    }
    assert keys[..|keys|] == keys;
    assert forall t :: t in toks[i] ==> Entry(out, t, i);
  }

  /** `docs[i]` for every page, by id. */
  function DocsOf(pages: seq<PageRecord>): seq<Document>
    decreases |pages|
  {
    if pages == [] then [] else DocsOf(pages[..|pages| - 1]) + [MakeDocument(pages[|pages| - 1])]
  }

  /** `graph[i]` for every page, by id. */
  function GraphOf(ids: map<string, nat>, pages: seq<PageRecord>): seq<seq<nat>>
    decreases |pages|
  {
    if pages == [] then [] else GraphOf(ids, pages[..|pages| - 1]) + [OutIds(ids, Outlinks(pages[|pages| - 1]))]
  }

  lemma {:induction false} DocsOfIndex(pages: seq<PageRecord>, d: nat)
    requires d < |pages|
    ensures |DocsOf(pages)| == |pages| && DocsOf(pages)[d] == MakeDocument(pages[d])
    decreases |pages|
  {
    DocsOfLength(pages);
    if d < |pages| - 1 {
      DocsOfIndex(pages[..|pages| - 1], d);
    }
  }

  lemma {:induction false} DocsOfLength(pages: seq<PageRecord>)
    ensures |DocsOf(pages)| == |pages|
    decreases |pages|
  {
    if pages != [] {
      DocsOfLength(pages[..|pages| - 1]);
    }
  }

  lemma {:induction false} GraphOfIndex(ids: map<string, nat>, pages: seq<PageRecord>, d: nat)
    requires d < |pages|
    ensures |GraphOf(ids, pages)| == |pages| && GraphOf(ids, pages)[d] == OutIds(ids, Outlinks(pages[d]))
    decreases |pages|
  {
    GraphOfLength(ids, pages);
    if d < |pages| - 1 {
      GraphOfIndex(ids, pages[..|pages| - 1], d);
    }
  }

  lemma {:induction false} GraphOfLength(ids: map<string, nat>, pages: seq<PageRecord>)
    ensures |GraphOf(ids, pages)| == |pages|
    decreases |pages|
  {
    if pages != [] {
      GraphOfLength(ids, pages[..|pages| - 1]);
    }
  }

  /** `doclen[i]` for every page, by id. */
  function LengthsOf(toks: seq<seq<string>>): (r: seq<nat>)
    ensures |r| == |toks|
    decreases |toks|
  {
    if toks == [] then [] else LengthsOf(toks[..|toks| - 1]) + [|toks[|toks| - 1]|]
  }

  lemma {:induction false} LengthsOfIndex(toks: seq<seq<string>>, d: nat)
    requires d < |toks|
    ensures LengthsOf(toks)[d] == |toks[d]|
    decreases |toks|
  {
    if d < |toks| - 1 {
      LengthsOfIndex(toks[..|toks| - 1], d);
    }
  }

  /** The index as `build` leaves it for `pages`. */
  ghost predicate BuiltFrom(idx: MiniIndex, pages: seq<PageRecord>) {
    && idx.n == |pages|
    && |idx.doclen| == |pages| && |idx.docs| == |pages| && |idx.graph| == |pages|
    && idx.doclen == LengthsOf(AllTokens(pages))
    && idx.docs == DocsOf(pages)
    && idx.graph == GraphOf(UrlIndex(PageUrls(pages)), pages)
    && PostingsSound(idx.postings, AllTokens(pages)) && PostingsCover(idx.postings, AllTokens(pages), |pages|)
    && (forall t :: t in idx.df <==> t in idx.postings)
    && (forall t :: t in idx.df ==> idx.df[t] == |idx.postings[t]|)
  }

  /** The per-page sequences after the first `i` pages. */
  ghost predicate RowsUpTo(pages: seq<PageRecord>, toks: seq<seq<string>>, ids: map<string, nat>, i: nat,
                           doclen: seq<nat>, docs: seq<Document>, graph: seq<seq<nat>>)
    requires i <= |pages| && i <= |toks|
  {
    doclen == LengthsOf(toks[..i]) && docs == DocsOf(pages[..i]) && graph == GraphOf(ids, pages[..i])
  }

  /** One more page extends each per-page sequence by one entry. */
  lemma RowsStep(pages: seq<PageRecord>, toks: seq<seq<string>>, ids: map<string, nat>, i: nat,
                 doclen: seq<nat>, docs: seq<Document>, graph: seq<seq<nat>>)
    requires i < |pages| && i < |toks| && RowsUpTo(pages, toks, ids, i, doclen, docs, graph)
    ensures RowsUpTo(pages, toks, ids, i + 1, doclen + [|toks[i]|], docs + [MakeDocument(pages[i])],
                     graph + [OutIds(ids, Outlinks(pages[i]))])
  {
    assert pages[..i + 1][..i] == pages[..i];
    assert toks[..i + 1][..i] == toks[..i];
  }

  /** The main loop of `build`, given each page's tokens. */
  method IndexPages(pages: seq<PageRecord>, toks: seq<seq<string>>, ids: map<string, nat>)
    returns (postings: map<string, map<nat, nat>>, doclen: seq<nat>, docs: seq<Document>, graph: seq<seq<nat>>)
    requires |toks| == |pages|
    ensures doclen == LengthsOf(toks) && docs == DocsOf(pages) && graph == GraphOf(ids, pages)
    ensures PostingsSound(postings, toks) && PostingsCover(postings, toks, |toks|)
  {
    postings := map[];
    doclen, docs, graph := [], [], [];
    RowsEnds(pages, toks, ids);
    for i := 0 to |pages|
      invariant RowsUpTo(pages, toks, ids, i, doclen, docs, graph)
      invariant PostingsSound(postings, toks) && PostingsCover(postings, toks, i)
    {
      postings, doclen, docs, graph := IndexPage(pages, toks, ids, i, postings, doclen, docs, graph);
    }
  }

  /** No page yet, and all pages. */
  lemma RowsEnds(pages: seq<PageRecord>, toks: seq<seq<string>>, ids: map<string, nat>)
    requires |toks| == |pages|
    ensures RowsUpTo(pages, toks, ids, 0, [], [], [])
    ensures forall doclen, docs, graph :: RowsUpTo(pages, toks, ids, |pages|, doclen, docs, graph) ==>
      doclen == LengthsOf(toks) && docs == DocsOf(pages) && graph == GraphOf(ids, pages)
  {
    assert pages[..0] == [] && toks[..0] == [];
    assert pages[..|pages|] == pages;
    assert toks[..|toks|] == toks;
  }

  /** One turn of the main loop of `build`: page `i`'s postings, length,
      document and out-links. */
  method IndexPage(pages: seq<PageRecord>, toks: seq<seq<string>>, ids: map<string, nat>, i: nat,
                   postings: map<string, map<nat, nat>>, doclen: seq<nat>, docs: seq<Document>, graph: seq<seq<nat>>)
    returns (postings': map<string, map<nat, nat>>, doclen': seq<nat>, docs': seq<Document>, graph': seq<seq<nat>>)
    requires i < |pages| && |toks| == |pages|
    requires RowsUpTo(pages, toks, ids, i, doclen, docs, graph)
    requires PostingsSound(postings, toks) && PostingsCover(postings, toks, i)
    ensures RowsUpTo(pages, toks, ids, i + 1, doclen', docs', graph')
    ensures PostingsSound(postings', toks) && PostingsCover(postings', toks, i + 1)
  {
    RowsStep(pages, toks, ids, i, doclen, docs, graph);
    var outs := LinkIds(ids, Outlinks(pages[i]));
    postings' := AddPostings(postings, toks, i);
    doclen' := doclen + [|toks[i]|];
    docs' := docs + [MakeDocument(pages[i])];
    graph' := graph + [outs];
  }

  /** `build` over the page records: `None` when there are none. */
  method Build(pages: seq<PageRecord>) returns (r: Option<MiniIndex>)
    ensures pages == [] <==> r.None?
    ensures r.Some? ==> BuiltFrom(r.value, pages)
  {
    if pages == [] {
      return None;
    }
    var ids := UrlIds(PageUrls(pages));
    var toks := AllTokens(pages);
    var postings, doclen, docs, graph := IndexPages(pages, toks, ids);
    DocsOfLength(pages);
    GraphOfLength(ids, pages);
    var df := map t | t in postings :: |postings[t]|;
    r := Some(MiniIndex(postings, doclen, docs, graph, |pages|, df));
  }

  /** One document's counts, across all terms. */
  ghost function DocCounts(postings: map<string, map<nat, nat>>, d: nat): map<string, nat> {
    map t | t in postings && Entry(postings, t, d) :: postings[t][d]
  }

  /** Sound and complete postings hold a document's `Counter`. */
  lemma DocCountsAreCounter(postings: map<string, map<nat, nat>>, toks: seq<seq<string>>, d: nat)
    requires PostingsSound(postings, toks) && PostingsCover(postings, toks, |toks|) && d < |toks|
    ensures DocCounts(postings, d) == TfMap(toks[d])
  {
    var m := DocCounts(postings, d);
    var tf := TfMap(toks[d]);
    assert forall t :: t in m <==> t in tf;
    assert forall t :: t in m ==> m[t] == tf[t];
  }

  /** The counts of a document in the postings add up to its length. */
  lemma DocCountsSum(idx: MiniIndex, pages: seq<PageRecord>, d: nat)
    requires BuiltFrom(idx, pages) && d < |pages|
    ensures DocCounts(idx.postings, d) == TfMap(PageTokens(pages[d]))
    ensures SumValues(DocCounts(idx.postings, d)) == idx.doclen[d] == |PageTokens(pages[d])|
  {
    var toks := AllTokens(pages);
    DocCountsAreCounter(idx.postings, toks, d);
    SumTfMap(toks[d]);
    LengthsOfIndex(toks, d);
  }

  /** Finitely many ids below `n`. */
  lemma {:induction false} RangeSize(n: nat, s: set<nat>)
    requires forall x :: x in s ==> x < n
    ensures |s| <= n
    decreases n
  {
    if n > 0 {
      RangeSize(n - 1, s - {n - 1});
    }
  }

  /** Every document frequency lies between 1 and the number of documents. */
  lemma DfRange(idx: MiniIndex, pages: seq<PageRecord>, t: string)
    requires BuiltFrom(idx, pages) && t in idx.df
    ensures 1 <= idx.df[t] <= idx.n
  {
    var toks := AllTokens(pages);
    assert PostingsSound(idx.postings, toks);
    var keys := idx.postings[t].Keys;
    assert forall x :: x in keys ==> x < idx.n by {
      forall x | x in keys ensures x < idx.n {
        assert Entry(idx.postings, t, x);
      }
    }
    RangeSize(idx.n, keys);
  }

  /** A term is indexed exactly when some page contains it. */
  lemma IndexedTerms(idx: MiniIndex, pages: seq<PageRecord>, t: string)
    requires BuiltFrom(idx, pages)
    ensures t in idx.postings <==> exists d :: 0 <= d < |pages| && t in PageTokens(pages[d])
  {
    var toks := AllTokens(pages);
    assert PostingsSound(idx.postings, toks) && PostingsCover(idx.postings, toks, |pages|);
    if t in idx.postings {
      var d :| d in idx.postings[t];
      assert Entry(idx.postings, t, d);
    }
    if exists d :: 0 <= d < |pages| && t in PageTokens(pages[d]) {
      var d :| 0 <= d < |pages| && t in PageTokens(pages[d]);
      assert t in toks[d];
    }
  }

  /** Graph edges point to pages, at one of the page's outlinks. */
  lemma GraphEdges(idx: MiniIndex, pages: seq<PageRecord>, i: nat, e: nat)
    requires BuiltFrom(idx, pages) && i < |pages| && e in idx.graph[i]
    ensures e < idx.n && pages[e].url in Outlinks(pages[i])
  {
    var urls := PageUrls(pages);
    GraphOfIndex(UrlIndex(urls), pages, i);
    UrlIndexSpec(urls);
    OutIdsFrom(UrlIndex(urls), Outlinks(pages[i]));
  }

  // ---------------------------------------------------------------------
  // Querying.

  /** A line of `postings.jsonl`: a term with its (document, count) pairs. */
  type PostingLine = (string, seq<(nat, nat)>)

  /** Document `d` is scored: a line for a query term known to `idf` lists it. */
  ghost predicate ScoredBy(d: nat, queryTerms: seq<string>, idfTerms: set<string>, stream: seq<PostingLine>) {
    exists j, p :: 0 <= j < |stream| && 0 <= p < |stream[j].1|
      && stream[j].0 in queryTerms && stream[j].0 in idfTerms && stream[j].1[p].0 == d
  }

  /** The documents `bm25_scores` gives a score to, in the order they first
      receive one. */
  method Bm25Keys(queryTerms: seq<string>, idfTerms: set<string>, stream: seq<PostingLine>) returns (scored: seq<nat>)
    ensures NoDuplicates(scored)
    ensures forall d :: d in scored <==> ScoredBy(d, queryTerms, idfTerms, stream)
    ensures (forall i :: 0 <= i < |queryTerms| ==> queryTerms[i] !in idfTerms) ==> scored == []
  {
    var terms: seq<string> := [];
    for i := 0 to |queryTerms|
      invariant forall t :: t in terms <==> t in queryTerms[..i] && t in idfTerms
    {
      assert queryTerms[..i + 1] == queryTerms[..i] + [queryTerms[i]];
      if queryTerms[i] in idfTerms {
        terms := terms + [queryTerms[i]];
      }
    }
    assert queryTerms[..|queryTerms|] == queryTerms;
    scored := [];
    if terms == [] {
      return;
    }
    assert exists w :: 0 <= w < |queryTerms| && queryTerms[w] in idfTerms by {
      assert terms[0] in queryTerms;
    }
    for j := 0 to |stream|
      invariant NoDuplicates(scored)
      invariant forall d :: d in scored <==> ScoredBy(d, queryTerms, idfTerms, stream[..j])
    {
      var line := stream[j];
      forall d ensures ScoredBy(d, queryTerms, idfTerms, stream[..j + 1]) <==>
        ScoredBy(d, queryTerms, idfTerms, stream[..j])
        || (line.0 in terms && exists q :: 0 <= q < |line.1| && line.1[q].0 == d)
      {
        ScoredBySnoc(d, queryTerms, idfTerms, stream, j);
      }
      if line.0 in terms {
        var plist := line.1;
        for p := 0 to |plist|
          invariant NoDuplicates(scored)
          invariant forall d :: d in scored <==>
            ScoredBy(d, queryTerms, idfTerms, stream[..j]) || exists q :: 0 <= q < p && plist[q].0 == d
        {
          if plist[p].0 !in scored {
            scored := scored + [plist[p].0];
          }
        }
      }
    }
    forall d ensures ScoredBy(d, queryTerms, idfTerms, stream[..|stream|]) <==> ScoredBy(d, queryTerms, idfTerms, stream) {
      assert stream[..|stream|] == stream;
    }
  }

  /** A document scored by the first `j + 1` lines: by the first `j`, or
      listed in line `j` when that line's term is a query term with an IDF. */
  lemma ScoredBySnoc(d: nat, queryTerms: seq<string>, idfTerms: set<string>, stream: seq<PostingLine>, j: nat)
    requires j < |stream|
    ensures ScoredBy(d, queryTerms, idfTerms, stream[..j + 1]) <==>
      ScoredBy(d, queryTerms, idfTerms, stream[..j])
      || (stream[j].0 in queryTerms && stream[j].0 in idfTerms
          && exists q :: 0 <= q < |stream[j].1| && stream[j].1[q].0 == d)
  {
    var s1 := stream[..j + 1];
    var s0 := stream[..j];
    assert forall jj :: 0 <= jj < j ==> s1[jj] == s0[jj];
    assert s1[j] == stream[j];
    if ScoredBy(d, queryTerms, idfTerms, s1) {
      var jj, q :| 0 <= jj < |s1| && 0 <= q < |s1[jj].1|
        && s1[jj].0 in queryTerms && s1[jj].0 in idfTerms && s1[jj].1[q].0 == d;
      if jj < j {
        assert s0[jj] == s1[jj];
      }
    }
  }

  /** The posting lines are exactly the index's postings, one line per term. */
  ghost predicate ListsPostings(stream: seq<PostingLine>, postings: map<string, map<nat, nat>>) {
    && (forall j :: 0 <= j < |stream| ==> stream[j].0 in postings)
    && (forall j, p :: 0 <= j < |stream| && 0 <= p < |stream[j].1| ==> stream[j].1[p].0 in postings[stream[j].0])
    && (forall t, d :: t in postings && d in postings[t] ==>
          exists j, p :: 0 <= j < |stream| && 0 <= p < |stream[j].1| && stream[j].0 == t && stream[j].1[p].0 == d)
  }

  /** Read from the index it was written from, the scored documents are
      exactly the union of the postings of the query terms present. */
  lemma ScoredIsUnion(d: nat, queryTerms: seq<string>, idfTerms: set<string>, stream: seq<PostingLine>,
                      postings: map<string, map<nat, nat>>)
    requires ListsPostings(stream, postings)
    ensures ScoredBy(d, queryTerms, idfTerms, stream)
            <==> exists t :: t in queryTerms && t in idfTerms && t in postings && d in postings[t]
  {
    if exists t :: t in queryTerms && t in idfTerms && t in postings && d in postings[t] {
      var t :| t in queryTerms && t in idfTerms && t in postings && d in postings[t];
      var j, p :| 0 <= j < |stream| && 0 <= p < |stream[j].1| && stream[j].0 == t && stream[j].1[p].0 == d;
    }
  }

  /** The final score of `hybrid_rank` for document `d`. */
  function FinalScore(d: nat, idx: MiniIndex, qterms: seq<string>, bm: nat -> real, prNorm: nat -> real,
                      alpha: real, beta: real, boost: real): real
  {
    if d < |idx.docs| then
      Combine(bm(d), prNorm(d), TitleBonus(qterms, idx.docs[d].title, idx.docs[d].url, boost), alpha, beta)
    else 0.0
  }

  /** Every posting line names a document of the index. */
  ghost predicate LinesInRange(stream: seq<PostingLine>, n: nat) {
    forall j, p :: 0 <= j < |stream| && 0 <= p < |stream[j].1| ==> stream[j].1[p].0 < n
  }

  /** `hybrid_rank`: nothing when no query term is indexed; otherwise at most
      `k` scored documents (Python's `[:k]`, all of them when `k` covers
      them), best first. `bm` and `prNorm`
      stand for the floating-point BM25 and normalised PageRank values. */
  method HybridRank(query: string, idx: MiniIndex, stream: seq<PostingLine>, k: int,
                    bm: nat -> real, prNorm: nat -> real, alpha: real, beta: real, boost: real)
    returns (r: seq<(Document, real)>)
    requires LinesInRange(stream, |idx.docs|)
    ensures (forall i :: 0 <= i < |Tokenize(query)| ==> Tokenize(query)[i] !in idx.df) ==> r == []
    ensures k >= 0 ==> |r| <= k
    ensures var n := |ScoredSet(Tokenize(query), idx.df.Keys, stream, |idx.docs|)|; |r| <= n && (k >= n ==> |r| == n)
    ensures forall i :: 0 <= i < |r| ==> RankedHit(r[i], idx, Tokenize(query), stream, bm, prNorm, alpha, beta, boost)
    ensures forall i, j :: 0 <= i < j < |r| ==> r[i].1 >= r[j].1
    ensures RankedTop(idx.docs, ScoredSet(Tokenize(query), idx.df.Keys, stream, |idx.docs|),
                      FinalScorer(idx, Tokenize(query), bm, prNorm, alpha, beta, boost), k, r)
  {
    var qterms := Tokenize(query);
    var scored := Bm25Keys(qterms, idx.df.Keys, stream);
    var hits := ScoredSet(qterms, idx.df.Keys, stream, |idx.docs|);
    var score := FinalScorer(idx, qterms, bm, prNorm, alpha, beta, boost);
    ScoredSetOf(scored, qterms, idx.df.Keys, stream, |idx.docs|);
    if scored == [] {
      assert TopOf(hits, score, k, []);
      RankedTopOf(idx.docs, hits, score, k, [], []);
      return [];
    }
    var top;
    r, top := RankDocs(idx.docs, scored, score, k);
    forall i | 0 <= i < |r| ensures RankedHit(r[i], idx, qterms, stream, bm, prNorm, alpha, beta, boost) {
      assert top[i] in scored;
      assert r[i] == (idx.docs[top[i]], FinalScore(top[i], idx, qterms, bm, prNorm, alpha, beta, boost));
    }
    RankedTopOf(idx.docs, hits, score, k, top, r);
  }

  /** The keys of `bm25_scores` are the scored documents, each once, all
      within the index. */
  lemma ScoredSetOf(scored: seq<nat>, queryTerms: seq<string>, idfTerms: set<string>, stream: seq<PostingLine>, n: nat)
    requires LinesInRange(stream, n) && NoDuplicates(scored)
    requires forall d :: d in scored <==> ScoredBy(d, queryTerms, idfTerms, stream)
    ensures forall a :: 0 <= a < |scored| ==> scored[a] < n
    ensures (set x: nat | x in scored) == ScoredSet(queryTerms, idfTerms, stream, n)
    ensures |scored| == |ScoredSet(queryTerms, idfTerms, stream, n)|
  {
    forall a | 0 <= a < |scored| ensures scored[a] < n {
      ScoredInRange(scored[a], queryTerms, idfTerms, stream, n);
    }
    DistinctCard(scored);
  }

  /** The final score of `hybrid_rank`, as a function of the document. */
  function FinalScorer(idx: MiniIndex, qterms: seq<string>, bm: nat -> real, prNorm: nat -> real,
                       alpha: real, beta: real, boost: real): nat -> real
  {
    (d: nat) => FinalScore(d, idx, qterms, bm, prNorm, alpha, beta, boost)
  }

  /** The documents of an index of `n` pages that the query scores. */
  ghost function ScoredSet(queryTerms: seq<string>, idfTerms: set<string>, stream: seq<PostingLine>, n: nat): set<nat> {
    set d: nat | d < n && ScoredBy(d, queryTerms, idfTerms, stream)
  }

  /** A result entry is a scored document of the index with its final
      score. */
  ghost predicate RankedHit(x: (Document, real), idx: MiniIndex, qterms: seq<string>, stream: seq<PostingLine>,
                            bm: nat -> real, prNorm: nat -> real, alpha: real, beta: real, boost: real)
  {
    exists d: nat :: d < |idx.docs| && ScoredBy(d, qterms, idx.df.Keys, stream)
      && x == (idx.docs[d], FinalScore(d, idx, qterms, bm, prNorm, alpha, beta, boost))
  }

  /** `sorted(scores.items(), key=score, reverse=True)[:k]` paired with the
      documents: at most `k` of the scored documents (Python's `[:k]`, all
      of them when `k` covers them), each with its score, best first. */
  method RankDocs(docs: seq<Document>, scored: seq<nat>, score: nat -> real, k: int)
    returns (r: seq<(Document, real)>, top: seq<nat>)
    requires forall a :: 0 <= a < |scored| ==> scored[a] < |docs|
    ensures |r| <= |scored| && (k >= 0 ==> |r| <= k) && (k >= |scored| ==> |r| == |scored|)
    ensures |top| == |r| && forall i :: 0 <= i < |r| ==> top[i] in scored && top[i] < |docs|
    ensures forall i :: 0 <= i < |r| ==> r[i] == (docs[top[i]], score(top[i]))
    ensures forall i, j :: 0 <= i < j < |r| ==> r[i].1 >= r[j].1
    ensures top == TopK(scored, score, k)
    ensures NoDuplicates(scored) ==> TopOf((set x: nat | x in scored), score, k, top)
  {
    top := TopK(scored, score, k);
    forall i | 0 <= i < |top| ensures top[i] < |docs| {
      assert top[i] in scored;
    }
    r := PairWithDocs(docs, top, score);
    PairsOrdered(docs, top, score, r);
    if NoDuplicates(scored) {
      TopKSelects(scored, score, k);
    }
  }

  /** Pairing keeps the order of the scores. */
  lemma PairsOrdered(docs: seq<Document>, top: seq<nat>, score: nat -> real, r: seq<(Document, real)>)
    requires forall i :: 0 <= i < |top| ==> top[i] < |docs|
    requires |r| == |top| && forall i :: 0 <= i < |r| ==> r[i] == (docs[top[i]], score(top[i]))
    requires forall i, j :: 0 <= i < j < |top| ==> score(top[i]) >= score(top[j])
    ensures forall i, j :: 0 <= i < j < |r| ==> r[i].1 >= r[j].1
  {
  }

  /** `[(docs[d], score) for d, score in top]`. */
  method PairWithDocs(docs: seq<Document>, top: seq<nat>, score: nat -> real) returns (r: seq<(Document, real)>)
    requires forall i :: 0 <= i < |top| ==> top[i] < |docs|
    ensures |r| == |top|
    ensures forall i :: 0 <= i < |r| ==> r[i] == (docs[top[i]], score(top[i]))
  {
    r := [];
    for i := 0 to |top|
      invariant |r| == i
      invariant forall m :: 0 <= m < i ==> r[m] == (docs[top[m]], score(top[m]))
    {
      r := r + [(docs[top[i]], score(top[i]))];
    }
  }

  /** A scored document is a document of the index. */
  lemma ScoredInRange(d: nat, queryTerms: seq<string>, idfTerms: set<string>, stream: seq<PostingLine>, n: nat)
    requires LinesInRange(stream, n) && ScoredBy(d, queryTerms, idfTerms, stream)
    ensures d < n
  {
  }
}

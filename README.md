# A verified model of a small crawler and search engine

The system crawls web sites and answers keyword queries. Its backend has
four parts:

- a command-line mini search engine (`backend/mini_search.py`). It
  normalises URLs, extracts links, text and title from HTML through
  parser callbacks, builds an inverted index with a link graph, and ranks
  documents by BM25 combined with PageRank and a title bonus;
- a MongoDB-backed engine (`backend/mongo_search.py`). It caches an index
  built from the stored pages, answers searches and statistics, and offers
  prefix suggestions from the vocabulary and the document titles;
- two crawlers. One is a polling crawler that advances a stored job by a
  bounded batch of pages per call (`backend/crawler_jobs.py`). The other
  runs a whole crawl and reports it over a WebSocket
  (`backend/crawler_ws.py`);
- a `.env` loader (`backend/load_env.py`).

The model is written in Dafny, one module per concept:

| Module | What it holds |
|---|---|
| `Wrappers` | `Option` |
| `Strings` | ASCII lower-casing, `strip`, `split`/`join`, substring tests, Python slicing with negative bounds |
| `Counting` | `Counter`, the first-occurrence order of dictionary keys, duplicate-freedom |
| `Sorting` | Python's stable `sorted`, on strings and by a key |
| `Tokenizer` | the token regex `[A-Za-z0-9]+` with lower-casing (shared by both engines) |
| `Urls` | `norm_url` on split components, `host_only`, `same_domain`, `same_reg_domain` |
| `Extractor` | `LinkAndTextExtractor` as a class over its four fields, with a value-level specification of a whole callback run |
| `MiniSearch` | `build`, the key set of `bm25_scores`, `hybrid_rank` |
| `Ranking` | the title bonus and the top-k cut, shared by both rankers |
| `Fuzzy` | `_fuzzy_match` |
| `Suggestions` | `get_suggestions` on a built index |
| `MongoSearch` | `_build_index` with its count-based cache, the adjacency of `_calculate_pagerank`, `search`, `get_stats`, and `MongoSearchEngine` as a class |
| `Crawl` | the parts both crawlers share: queue entries, node states, the link filter and the enqueue rule |
| `CrawlerJobs` | `create_job` and `process_job_batch` over a map of job records |
| `CrawlerWs` | `WebCrawler`: `__init__` and `crawl`, as a first-in-first-out state machine that appends its WebSocket messages to a trace |
| `EnvFile` | `load_env` |

Code that updates state step by step is modelled as methods with loops
and invariants. This covers the extractor's handlers, the index loops,
the suggestion loops, the crawl loops and the `.env` loop. Each method is
proved against a specification function or predicate. Lemmas then state
what the source promises about that specification.

Some things the source does are replaced by parameters:

- page fetches are an oracle `fetch: string -> Option<PageData>`, where
  `None` is a failed page;
- URL parsing is `parse: string -> Option<SplitUrl>`, where `None` is the
  `except` branch;
- the batch timeout is `expired: nat -> bool`, telling whether the time
  budget is spent at the n-th check. The batch duration is `elapsed`, and
  the WebSocket durations are `clock: nat -> real`;
- the floating-point scores are `bm` and `prNorm: nat -> real`, and the
  IDF values are `idf: string -> real`;
- the stored pages are a sequence of records. In the mini engine they are
  in the order of the sorted file names. In the Mongo engine they are in
  the order `find` returns them;
- the `.env` file is an optional sequence of lines.

`MongoSearchEngine.BuildIndex` reuses its cache whenever the collection
has as many records as at the last build. `BuildIndex`'s contract states
exactly this: it says the cached index is returned, not that the index
matches the current store. A store changed without a change in count
therefore gets a stale answer, as in the source.

## Model

| member | source | states |
|---|---|---|
| Strings.LowerChar | backend/mini_search.py:447-448 | lower-casing turns a letter or digit into a lower-case letter or digit, keeps lower-case ones and never changes whether a character is a letter or digit |
| Strings.Lower | backend/mini_search.py:447-448 | `lower()` keeps the length and acts character by character |
| Strings.LowerIdempotent | backend/mini_search.py:447-449 | lower-casing twice is lower-casing once |
| Strings.TrimLeft | backend/load_env.py:16 | exactly the leading white space is removed |
| Strings.TrimRight | backend/load_env.py:16 | exactly the trailing white space is removed |
| Strings.StripEnds | backend/load_env.py:16 | a non-empty stripped string neither starts nor ends with white space |
| Strings.StripIdempotent | backend/mini_search.py:121 | stripping twice is stripping once |
| Strings.StripEmptyIff | backend/mini_search.py:121-122 | a chunk strips to nothing exactly when it is all white space |
| Strings.ContainsIff | backend/mongo_search.py:298 | `sub in s` means an occurrence at some offset |
| Strings.StartsWithContains | backend/mongo_search.py:292-298 | a prefix is a substring |
| Strings.Split | backend/mini_search.py:48 | `split` yields at least one piece and no piece holds the separator |
| Strings.JoinSplit | backend/mini_search.py:48 | joining the pieces of a split with the separator gives back the string |
| Strings.SplitJoin | backend/mini_search.py:71-72 | splitting a join of separator-free pieces gives back the pieces |
| Strings.JoinFirstShorter | backend/mini_search.py:71-72 | dropping the first character of a join drops it from the first piece |
| Strings.SplitNoSep | backend/mini_search.py:71 | a string without the separator splits into itself |
| Strings.PySliceTo | backend/mini_search.py:471 | `s[:k]` has length `k` clamped to the sequence, or `len(s) + k` clamped at zero for negative `k`, and is a prefix |
| Strings.Take | backend/mini_search.py:336 | `s[:n]` for `n >= 0` has `min(n, len(s))` elements and is a prefix |
| Counting.TfMap | backend/mini_search.py:339 | `Counter(toks)` has exactly the tokens as keys, each with a positive count |
| Counting.Dedup | backend/mongo_search.py:101-105 | the key order of a `Counter` holds each element once and nothing else |
| Counting.SumTfMap | backend/mini_search.py:335-341 | the counts of a `Counter` add up to the number of tokens |
| Counting.SumValuesRemove | backend/mini_search.py:353 | a sum of dictionary values does not depend on the order of the keys |
| Counting.TfMapCons | backend/mini_search.py:339 | counting one more token updates a single entry |
| Counting.DedupDedup | backend/mongo_search.py:327-336 | feeding the distinct elements of a list in order gives the same order as feeding the whole list |
| Counting.NoDuplicatesMultiset | backend/mongo_search.py:317-318 | no duplicates exactly when every element occurs once |
| Counting.NoDuplicatesPermutation | backend/mini_search.py:471 | reordering keeps a list duplicate-free |
| Counting.NoDuplicatesPrefix | backend/mini_search.py:471 | a prefix of a duplicate-free list is duplicate-free |
| Counting.DistinctCard | backend/mongo_search.py:275 | a duplicate-free list has as many elements as its set |
| Sorting.LexLeTotal | backend/mini_search.py:48 | string order is total |
| Sorting.LexLeTransitive | backend/mini_search.py:48 | string order is transitive |
| Sorting.LexLeAntisymmetric | backend/mini_search.py:48 | string order is antisymmetric |
| Sorting.SortStrings | backend/mini_search.py:48 | `sorted` on strings is an ordered permutation |
| Sorting.SortSortedStrings | backend/mini_search.py:48 | sorting an ordered list changes nothing |
| Sorting.SortBy | backend/mongo_search.py:305 | `sorted(key=...)` is a permutation ordered by the key |
| Sorting.InsertByWithKey | backend/mongo_search.py:305 | an inserted element goes ahead of every element with the same key |
| Sorting.SortByStable | backend/mongo_search.py:305 | the sort is stable: for every key value, the elements with that key keep their order and multiplicity |
| Tokenizer.AlnumRun | backend/mini_search.py:148-150 | the regex match is the longest run of letters and digits |
| Tokenizer.Tokenize | backend/mongo_search.py:14-18 | every token is non-empty and made of lower-case ASCII letters and digits |
| Tokenizer.TokenizeSeparated | backend/mini_search.py:334 | a non-token character separates: the tokens of `a + " " + b` are those of `a` then those of `b` |
| Tokenizer.TokenizeToken | backend/mini_search.py:148-150 | a well-formed token tokenizes to itself |
| Tokenizer.TokenizeJoin | backend/mini_search.py:336 | tokens joined with spaces tokenize back to the same tokens |
| Tokenizer.TokenizeLower | backend/mini_search.py:447-449 | lower-casing the input first gives the same tokens |
| Urls.LowerNoUpper | backend/mini_search.py:43 | a lower-cased string has no upper-case letter |
| Urls.LastIndex | backend/mini_search.py:45 | the last occurrence of a character |
| Urls.RSplitHeadPrefix | backend/mini_search.py:45 | `rsplit(c, 1)[0]` is a prefix |
| Urls.NonEmpty | backend/mini_search.py:48 | `filter(None, parts)` keeps exactly the non-empty parts |
| Urls.NonEmptyKeeps | backend/mini_search.py:48 | filtering parts that are all non-empty keeps them all |
| Urls.NormNetlocNoUpper | backend/mini_search.py:43-45 | the normalised netloc has no upper-case letter |
| Urls.NormNetlocPort | backend/mini_search.py:43-45 | `:80` is removed for `http` and `:443` for `https`; any other netloc is only lower-cased |
| Urls.NormUrlShape | backend/mini_search.py:42-49 | `norm_url` gives an empty fragment, a lower-case scheme and host, and resolves an empty path as `/` |
| Urls.NormUrlPort | backend/mini_search.py:42-49 | the same port rule, as `norm_url` returns it |
| Urls.NormQueryParts | backend/mini_search.py:48 | the canonical query is the sorted non-empty `&`-parts of the original, and splits back into them |
| Urls.NormQueryIdempotent | backend/mini_search.py:48 | normalising the query again changes nothing |
| Urls.SameDomainIsSameRegDomain | backend/mini_search.py:59-73 | the same host implies the same registrable domain |
| Urls.JoinEndsWithLastTwo | backend/mini_search.py:70-72 | the last two labels, joined, end the joined host |
| Urls.RootShape | backend/mini_search.py:70-72 | a host without a dot is its own root; otherwise the root is its last two labels, a suffix of it |
| Urls.RootIdempotent | backend/mini_search.py:70-72 | the root of a root is itself |
| Fuzzy.EmptyIsSubsequence | backend/mongo_search.py:340-346 | the empty pattern matches every text |
| Fuzzy.LongerIsNotSubsequence | backend/mongo_search.py:340-346 | a pattern longer than the text never matches |
| Fuzzy.BoundedIncreasing | backend/mongo_search.py:343-345 | a pattern is matched at increasing text positions, of which there are at most the text's length |
| Fuzzy.DropLast | backend/mongo_search.py:343-345 | an embedding in one more text character, less its last pattern character, fits in the shorter text |
| Fuzzy.SkipLast | backend/mongo_search.py:343-345 | a text character unequal to the pattern's last one is not needed by an embedding |
| Fuzzy.PrefixSubsequence | backend/mongo_search.py:343-345 | every prefix of a matching pattern matches |
| Fuzzy.NotLonger | backend/mongo_search.py:343-345 | the greedy scan matches the longest pattern prefix possible so far |
| Fuzzy.FuzzyMatch | backend/mongo_search.py:340-346 | the greedy scan answers true exactly when the pattern is a subsequence of the text |
| Extractor.AnyNonEmptyIsFirst | backend/mini_search.py:118-119 | `any(self._title)` is whether the first title slot is non-empty, since only that slot is written |
| Extractor.StepInv | backend/mini_search.py:101-123 | no callback writes a title slot other than the first |
| Extractor.RunInv | backend/mini_search.py:101-123 | the same over a whole run of callbacks |
| Extractor.TextsOfCons | backend/mini_search.py:118-123 | one delivered chunk adds its stripped form to the text, unless it is blank or taken by a pending title |
| Extractor.CaptureCons | backend/mini_search.py:118-119 | one delivered item moves the title capture as the mode says |
| Extractor.StepItem | backend/mini_search.py:101-123 | a callback either delivers nothing and leaves text and title alone, or delivers one item and moves mode, title chunk and text as that item says |
| Extractor.TextsAfterItems | backend/mini_search.py:118-123 | the text after one item, whatever state it belongs to |
| Extractor.StepTexts | backend/mini_search.py:115-123 | one callback moves the texts as its delivered items say |
| Extractor.CaptureAfterItems | backend/mini_search.py:118-119 | the captured title after one item, whatever state it belongs to |
| Extractor.StepCapture | backend/mini_search.py:108-119 | one callback moves the captured title as its delivered items say |
| Extractor.RunLinks | backend/mini_search.py:104-107 | the links are every non-empty `href` of an `a` tag, in document order, skipped regions included |
| Extractor.RunTexts | backend/mini_search.py:115-123 | the texts gain exactly the delivered, non-blank chunks not taken by the title, stripped |
| Extractor.RunCapture | backend/mini_search.py:108-119 | the title is the first non-empty chunk delivered after a `<title>`, even after `</title>` |
| Extractor.ParseSpec | backend/mini_search.py:126-131 | from the initial state: title, text and links of a whole document |
| Extractor.ParseHtml | backend/mini_search.py:144-146 | `parse_html` returns the stripped title chunk, the text chunks joined by single spaces, and all links |
| Extractor.SkippedDataIgnored | backend/mini_search.py:116-117 | data inside `script`, `style` or `noscript` changes nothing |
| Extractor.SkipStackShape | backend/mini_search.py:102-103 | only the three skip tags are ever pushed, and an end tag pops only when it matches the innermost one |
| Extractor.RunSkipStackOnly | backend/mini_search.py:102-113 | the skip stack evolves independently of the other fields |
| Extractor.AllCleanConcat | backend/mini_search.py:121-123 | clean chunk lists concatenate to a clean list |
| Extractor.TextsClean | backend/mini_search.py:121-123 | every text chunk is stripped and non-empty |
| Extractor.LinkAndTextExtractor.constructor | backend/mini_search.py:94-99 | all four fields start empty |
| Extractor.LinkAndTextExtractor.HandleStartTag | backend/mini_search.py:101-109 | the start-tag handler moves the fields as the start-tag step says |
| Extractor.LinkAndTextExtractor.HandleEndTag | backend/mini_search.py:111-113 | the end-tag handler pops only a matching innermost skip tag |
| Extractor.LinkAndTextExtractor.HandleData | backend/mini_search.py:115-123 | the data handler moves the fields as the data step says |
| Extractor.LinkAndTextExtractor.Title | backend/mini_search.py:126-127 | the `title` property is the stripped first slot, or empty |
| Extractor.LinkAndTextExtractor.Text | backend/mini_search.py:130-131 | the `text` property is the chunks joined by spaces |
| Extractor.LinkAndTextExtractor.Feed | backend/mini_search.py:145 | `feed` is the callbacks in order |
| MiniSearch.SnippetTokens | backend/mini_search.py:336 | the snippet tokenizes to exactly the first 30 tokens of the page, so it has at most 30 |
| MiniSearch.DocumentTitle | backend/mini_search.py:332-337 | a blank title falls back to the URL; a kept title is stripped |
| MiniSearch.UrlIndexSpec | backend/mini_search.py:324-327 | every page URL has an id, the position of its last occurrence, and no other string has one |
| MiniSearch.UrlIds | backend/mini_search.py:324-327 | the first loop of `build` builds that map |
| MiniSearch.PageUrls | backend/mini_search.py:327 | the page URLs by position |
| MiniSearch.OutIdsFrom | backend/mini_search.py:343-348 | every edge is the id of one of the page's outlinks |
| MiniSearch.LinkIds | backend/mini_search.py:343-348 | the outlink loop builds the edge list |
| MiniSearch.AllTokens | backend/mini_search.py:334 | the tokens of every page, by id |
| MiniSearch.Insert | backend/mini_search.py:341 | `postings[t][i] = tf` sets one entry and keeps all others |
| MiniSearch.SoundInsert | backend/mini_search.py:339-341 | entering a true count keeps every posting a true count |
| MiniSearch.CoverInsert | backend/mini_search.py:341 | entering a count removes no entry |
| MiniSearch.AddPostings | backend/mini_search.py:339-341 | one page's `Counter` is entered in full, with true counts |
| MiniSearch.DocsOfIndex | backend/mini_search.py:337 | the document of page `d` |
| MiniSearch.GraphOfIndex | backend/mini_search.py:348 | the edge list of page `d` |
| MiniSearch.LengthsOfIndex | backend/mini_search.py:335 | the length of page `d` is its number of tokens |
| MiniSearch.RowsStep | backend/mini_search.py:335-348 | one more page extends length, document and edge lists by one entry each |
| MiniSearch.RowsEnds | backend/mini_search.py:329-348 | the per-page lists before the first page and after the last |
| MiniSearch.IndexPage | backend/mini_search.py:329-348 | one turn of the main loop enters page `i`'s postings, length, document and edges |
| MiniSearch.IndexPages | backend/mini_search.py:329-348 | the main loop yields the lengths, documents and edges of all pages, with sound and complete postings |
| MiniSearch.Build | backend/mini_search.py:308-353 | no index for no pages; otherwise the index of the pages |
| MiniSearch.DocCountsAreCounter | backend/mini_search.py:339-341 | a document's counts across all terms are its `Counter` |
| MiniSearch.DocCountsSum | backend/mini_search.py:335-341 | a document's counts sum to its length |
| MiniSearch.RangeSize | backend/mini_search.py:350-351 | a set of ids below `n` has at most `n` elements |
| MiniSearch.DfRange | backend/mini_search.py:350-351 | every document frequency lies between 1 and the number of documents |
| MiniSearch.IndexedTerms | backend/mini_search.py:339-341 | a term is indexed exactly when some page contains it |
| MiniSearch.GraphEdges | backend/mini_search.py:343-348 | every edge points to a page whose URL is one of the outlinks |
| MiniSearch.Bm25Keys | backend/mini_search.py:397-409 | the scored documents are exactly those listed under a query term with an IDF, each once; none when no query term has one |
| MiniSearch.ScoredBySnoc | backend/mini_search.py:402-408 | the documents scored after one more posting line |
| MiniSearch.ScoredIsUnion | backend/mini_search.py:399-408 | read from the index's own postings, the scored documents are the union of the postings of the query terms present |
| MiniSearch.ScoredInRange | backend/mini_search.py:406-408 | a scored document is a document of the index |
| MiniSearch.RankDocs | backend/mini_search.py:470-472 | the ids are the descending cut `TopK` of the scored documents, a top-`k` selection of them when they are distinct, each paired with its document and score, best first |
| MiniSearch.ScoredSetOf | backend/mini_search.py:406-427 | the keys of `bm25_scores` are the scored documents of the index, each once |
| MiniSearch.PairWithDocs | backend/mini_search.py:472 | each ranked id is paired with its document and score |
| MiniSearch.HybridRank | backend/mini_search.py:427-472 | nothing when no query term is indexed; otherwise the documents of a top-`k` selection of the scored documents (distinct, as many as Python's `[:k]` keeps, best first, none left out scoring above one kept) with their final scores |
| Ranking.MatchTenthsZeroIff | backend/mini_search.py:451-464 | the match counter is zero exactly when no query term hits title or URL |
| Ranking.MatchTenthsAtMost | backend/mini_search.py:451-461 | the counter is at most one full match per term |
| Ranking.MatchTenthsFull | backend/mini_search.py:451-455 | the counter is full exactly when every term is a title token |
| Ranking.ScaleBound | backend/mini_search.py:467 | the scaled bonus lies between zero and the boost, and is zero only for a zero boost |
| Ranking.BonusBounds | backend/mongo_search.py:232-249 | the title bonus lies between zero and the boost; it is zero exactly when the counter or the boost is |
| Ranking.BonusZeroIff | backend/mini_search.py:444-467 | the bonus is zero exactly when no query term hits (or the boost is zero) |
| Ranking.BonusFull | backend/mini_search.py:465-467 | every term a title token gives the full boost |
| Ranking.SortedFacts | backend/mongo_search.py:259 | a descending sort of the ids keeps them, and keeps them distinct |
| Ranking.PrefixTop | backend/mongo_search.py:259 | a prefix of the descending sort takes from the ids, and every id it leaves out scores no more than any it keeps |
| Ranking.TopK | backend/mongo_search.py:259 | the cut takes from the ids with multiplicity, best first, as many as Python's slice says, distinct for distinct ids, and no id left out scores above one kept |
| Ranking.TopKSelects | backend/mongo_search.py:259 | for distinct ids the cut is a top-`k` selection of them |
| Ranking.TopNotBelow | backend/mongo_search.py:259 | position by position, one top-`k` selection scores no less than another |
| Ranking.TopScoresAgree | backend/mongo_search.py:259 | all top-`k` selections of the same hits have the same length and the same scores position by position, so the selection is fixed up to ties |
| Ranking.RankedTopAgree | backend/mini_search.py:470-472 | two ranked answers for the same hits have the same length and the same scores |
| MongoSearch.TokensSplit | backend/mongo_search.py:76-79 | title and content are tokenized apart |
| MongoSearch.SnippetShape | backend/mongo_search.py:73-83 | the snippet has at most 200 characters, is a prefix of the stored snippet or the text, and is empty only when both are |
| MongoSearch.StoreIndex | backend/mongo_search.py:69-93 | tokens, document and URL of stored page `d` |
| MongoSearch.CollectStep | backend/mongo_search.py:69-93 | one more stored page in the per-document loop |
| MongoSearch.CollectDocs | backend/mongo_search.py:63-93 | the per-document loop builds the documents, tokens, lengths and `url_to_idx` |
| MongoSearch.FlattenMember | backend/mongo_search.py:99-105 | a token of the store is a token of some document |
| MongoSearch.AddPair | backend/mongo_search.py:101-105 | appending a pair to one list keeps all others |
| MongoSearch.ListsStep | backend/mongo_search.py:101-105 | appending a document's pair for the next key keeps the lists in step |
| MongoSearch.KeysStep | backend/mongo_search.py:103-104 | a new key joins the key order |
| MongoSearch.AgreeStep | backend/mongo_search.py:102-105 | the keys and the key order stay in step |
| MongoSearch.AppendPosting | backend/mongo_search.py:102-105 | a new token becomes a key with an empty list, then gets the pair |
| MongoSearch.AddKey | backend/mongo_search.py:101-105 | one key of a document's `Counter` |
| MongoSearch.AddDoc | backend/mongo_search.py:100-105 | one document's `Counter`, in full |
| MongoSearch.Invert | backend/mongo_search.py:99-105 | every term's list is its reference list, and the keys are the distinct tokens in the order first met |
| MongoSearch.PostingsOfPairs | backend/mongo_search.py:99-105 | each pair names a document containing the term, with its true count |
| MongoSearch.PostingsOfIncreasing | backend/mongo_search.py:99-105 | each list is in strictly increasing document order, so it mentions each document once |
| MongoSearch.PostingsOfEmpty | backend/mongo_search.py:99-105 | a term's list is empty exactly when no document contains it |
| MongoSearch.TermFrequency | backend/mongo_search.py:196-200 | the scan over a list stops at the first pair for the document |
| MongoSearch.TfSnoc | backend/mongo_search.py:196-200 | an appended pair is found only when no earlier pair is for the document |
| MongoSearch.TfOfPostings | backend/mongo_search.py:196-200 | reading a term's list for a document gives its count there |
| MongoSearch.TermsSpec | backend/mongo_search.py:99-112 | the index keys are the distinct tokens of the store, each once |
| MongoSearch.OutRowFrom | backend/mongo_search.py:137-144 | every edge of document `i` leaves it for another stored document at one of its links |
| MongoSearch.OutRowHas | backend/mongo_search.py:140-144 | a link to another stored URL is an edge |
| MongoSearch.AdjacencyIndex | backend/mongo_search.py:137-144 | the row of document `d` |
| MongoSearch.LinkRow | backend/mongo_search.py:139-144 | the link loop builds a document's row |
| MongoSearch.Adjacency | backend/mongo_search.py:137-144 | the adjacency loop builds every row |
| MongoSearch.BuildFromStore | backend/mongo_search.py:50-125 | no index for an empty store; otherwise the index of the store |
| MongoSearch.BuiltFromStoreUnique | backend/mongo_search.py:50-125 | a store has exactly one index |
| MongoSearch.IndexedTerm | backend/mongo_search.py:99-105 | a term is a key exactly when some document contains it |
| MongoSearch.IndexLists | backend/mongo_search.py:99-105 | every list is in increasing document order with true, non-zero counts |
| MongoSearch.IndexTf | backend/mongo_search.py:189-200 | the lookup of `search` reads a document's count of a term, zero for a term not indexed |
| MongoSearch.IndexEdges | backend/mongo_search.py:137-144 | edges go to other stored documents the page links to |
| MongoSearch.IndexEdgesComplete | backend/mongo_search.py:140-144 | every link to another stored URL is an edge |
| MongoSearch.DocHit | backend/mongo_search.py:191-203 | the inner BM25 loop finds a query term with a non-zero count exactly when there is one |
| MongoSearch.ScoredDocs | backend/mongo_search.py:188-215 | the keys of `bm25_scores` are the documents with a hit, in increasing order |
| MongoSearch.HitIff | backend/mongo_search.py:189-215 | a document hits exactly when it contains a query term |
| MongoSearch.ScoredCount | backend/mongo_search.py:188-218 | the scored documents are as many as the documents with a hit, distinct and no more than the documents |
| MongoSearch.RankHits | backend/mongo_search.py:252-260 | the documents of a top-`k` selection of the hits with their final scores |
| MongoSearch.AnswersOfTop | backend/mongo_search.py:252-260 | a top-`k` selection of the hits, paired with documents and final scores, answers the query |
| MongoSearch.SearchIndex | backend/mongo_search.py:174-260 | nothing without an index, query tokens or hits; otherwise the documents of a top-`k` selection of the hits (distinct, as many as Python's `[:k]` keeps, best first, none left out scoring above one kept) with their final scores |
| MongoSearch.SumLengths | backend/mongo_search.py:92-96 | the lengths add up to the number of tokens of the store |
| MongoSearch.StatsDocs | backend/mongo_search.py:272-273 | `total_docs` is the number of stored pages |
| MongoSearch.StatsAverage | backend/mongo_search.py:92-96 | the average length is the number of tokens over the number of documents, zero for none |
| MongoSearch.StatsVocabulary | backend/mongo_search.py:275 | `vocab_size` is the number of distinct tokens of the store |
| MongoSearch.TitlesOf | backend/mongo_search.py:310-311 | the titles of the documents, in order |
| MongoSearch.MongoSearchEngine.constructor | backend/mongo_search.py:36-38 | no cached index and a count of zero |
| MongoSearch.MongoSearchEngine.BuildIndex | backend/mongo_search.py:40-125 | the cache when usable, unchanged; nothing and the cache untouched for an empty store; otherwise the store's index, cached with the store's size |
| MongoSearch.MongoSearchEngine.Search | backend/mongo_search.py:159-260 | the cache is kept when usable or the store is empty, and otherwise becomes the index of the store; `search` answers on that index |
| MongoSearch.MongoSearchEngine.GetStats | backend/mongo_search.py:262-276 | the cache moves as `_build_index` says; zeros without an index, otherwise the statistics of that index |
| MongoSearch.MongoSearchEngine.GetSuggestions | backend/mongo_search.py:278-282 | the cache moves as `_build_index` says; nothing without an index, otherwise the suggestions among its keys and titles |
| Suggestions.AlnumOnly | backend/mongo_search.py:286 | only letters and digits are kept |
| Suggestions.AlnumOnlyKeeps | backend/mongo_search.py:286 | a string is kept whole exactly when it is all letters and digits |
| Suggestions.MatchingTerms | backend/mongo_search.py:289-302 | the vocabulary loop builds the matching terms with their priorities |
| Suggestions.MatchingSound | backend/mongo_search.py:289-302 | each entry is a vocabulary term with its first-matching priority |
| Suggestions.Firsts | backend/mongo_search.py:306 | the terms of the pairs, in order |
| Suggestions.TopPairsOrdered | backend/mongo_search.py:305-306 | the candidates are matching terms, best priority first, then lowest IDF |
| Suggestions.TitleScan | backend/mongo_search.py:309-320 | the title loop only extends what it has |
| Suggestions.TitleSuggestions | backend/mongo_search.py:309-320 | the title loop with its early `break` |
| Suggestions.TitleScanDistinct | backend/mongo_search.py:317-318 | the title suggestions are distinct |
| Suggestions.TitleScanFrom | backend/mongo_search.py:310-318 | each title suggestion is a matching title, lower-cased |
| Suggestions.TitleScanBound | backend/mongo_search.py:319-320 | at most `limit // 2` titles are taken (one when that is not positive) |
| Suggestions.MergeTerms | backend/mongo_search.py:333-336 | the term loop only extends what it has |
| Suggestions.MergeDistinct | backend/mongo_search.py:333-336 | the term loop adds only terms not yet present |
| Suggestions.MergeFrom | backend/mongo_search.py:333-336 | the term loop adds nothing but terms |
| Suggestions.MergeBound | backend/mongo_search.py:334 | the term loop stops growing at `limit` |
| Suggestions.MergeStep | backend/mongo_search.py:333-336 | one term of the loop |
| Suggestions.DistinctTitles | backend/mongo_search.py:327-330 | the titles loop takes each title once, in order, and `seen` is the set of those taken |
| Suggestions.SeenSnoc | backend/mongo_search.py:329-330 | adding one suggestion adds it to `seen` |
| Suggestions.Merge | backend/mongo_search.py:322-336 | the titles, each once, then the new terms while there is room |
| Suggestions.GetSuggestions | backend/mongo_search.py:284-338 | `get_suggestions` on a built index |
| Suggestions.TitlesForShape | backend/mongo_search.py:309-320 | the title suggestions are distinct and at most half the limit |
| Suggestions.TitlesForSpec | backend/mongo_search.py:309-320 | the title suggestions are distinct matching titles, lower-cased, at most half the limit |
| Suggestions.SliceMerge | backend/mongo_search.py:322-338 | with at most half the limit of titles, the cut merge keeps the titles in front and has at most `limit` entries |
| Suggestions.SuggestionsDistinct | backend/mongo_search.py:322-338 | the suggestions are distinct |
| Suggestions.SuggestionsBound | backend/mongo_search.py:319-338 | no suggestions for a limit below 1, at most `limit` otherwise, titles first |
| Suggestions.SuggestionsFrom | backend/mongo_search.py:289-320 | each suggestion is a matching title, lower-cased, or a matching vocabulary term |
| Suggestions.DedupOfDistinct | backend/mongo_search.py:327-330 | a duplicate-free list passes the titles loop unchanged |
| Crawl.Filter | backend/crawler_ws.py:91-94 | the accepted links are exactly those that pass the filter, in order |
| Crawl.FilterAppend | backend/crawler_jobs.py:196-199 | filtering a concatenation filters each part and concatenates, so order and repetitions are kept |
| Crawl.CollectLinks | backend/crawler_ws.py:90-94 | the link loop keeps the accepted links among the first 20 anchors |
| Crawl.PageLinksSpec | backend/crawler_jobs.py:195-199 | at most 20 links, each one of the first 20 anchors and accepted, and every such anchor |
| Crawl.SameSiteSameDomain | backend/crawler_jobs.py:211-221 | an accepted link is `http` or `https` on the start URL's netloc, hence on its domain |
| Crawl.Enqueue | backend/crawler_ws.py:187-189 | the links loop only appends to the queue |
| Crawl.EnqueueSpec | backend/crawler_ws.py:187-189 | the queue stays within 100; each added entry is an unvisited link one level deeper with the page as parent |
| Crawl.EnqueueComplete | backend/crawler_ws.py:187-189 | while there is room, no unvisited link is passed over |
| Crawl.EnqueueLinks | backend/crawler_jobs.py:118-124 | the links loop as both crawlers run it |
| CrawlerJobs.CountCompleted | backend/crawler_jobs.py:138 | at most the number of nodes, and equal exactly when all are completed |
| CrawlerJobs.NewJobValid | backend/crawler_jobs.py:26-44 | a new job has the seed alone at depth 0, nothing visited, zero counts, and satisfies the job invariant |
| CrawlerJobs.EntryUrls | backend/crawler_jobs.py:90 | the URLs of some entries, in order |
| CrawlerJobs.NodeFor | backend/crawler_jobs.py:92-130 | a crawled entry's node keeps its URL, depth and parent, and is completed exactly when the fetch succeeded, else error |
| CrawlerJobs.NodesFor | backend/crawler_jobs.py:99 | the nodes of the crawled entries, in order |
| CrawlerJobs.FreshDistinct | backend/crawler_jobs.py:86-90 | visited URLs stay distinct |
| CrawlerJobs.FreshFrom | backend/crawler_jobs.py:81-90 | each crawled entry was dequeued |
| CrawlerJobs.FreshSnoc | backend/crawler_jobs.py:86-90 | one more dequeued entry is crawled exactly when new |
| CrawlerJobs.EnqueueBelow | backend/crawler_jobs.py:117-124 | above the depth limit, added entries are one level deeper, within the limit, and keep the queue within 100 |
| CrawlerJobs.PageEntriesSpec | backend/crawler_jobs.py:117-124 | a crawled page only appends to the queue, keeps it within 100, and every added entry is within the depth limit under the page |
| CrawlerJobs.CrawlEntry | backend/crawler_jobs.py:92-124 | crawling one entry: its node, and the first ten unvisited links appended while there is room |
| CrawlerJobs.Advance | backend/crawler_jobs.py:80-132 | one turn: the front entry is dequeued and, unless visited, crawled; the new state is the one-turn step of the batch |
| CrawlerJobs.SkipKeeps | backend/crawler_jobs.py:86-88 | dropping a visited entry keeps the loop state |
| CrawlerJobs.VisitKeeps | backend/crawler_jobs.py:90-130 | crawling a new entry keeps the loop state |
| CrawlerJobs.VisitQueue | backend/crawler_jobs.py:117-124 | the queue stays first in, first out and within its bounds |
| CrawlerJobs.VisitLists | backend/crawler_jobs.py:90-99 | visited URLs and nodes grow by the crawled entry |
| CrawlerJobs.BatchLoop | backend/crawler_jobs.py:71-132 | the batch loop keeps the queue, visited and node invariants, crawls at most `batch_size` pages, takes exactly the turns the loop condition allows and stops where it must |
| CrawlerJobs.WalkedStep | backend/crawler_jobs.py:71-132 | one allowed turn extends the walk of the batch |
| CrawlerJobs.BatchDetermined | backend/crawler_jobs.py:67-147 | the batch contract fixes the result: two results meeting it, with their dequeued and added entries, are equal |
| CrawlerJobs.AlignedAppend | backend/crawler_jobs.py:90-99 | nodes and visited URLs stay in step, no node left crawling |
| CrawlerJobs.InvariantAfterBatch | backend/crawler_jobs.py:134-141 | the state a batch leaves satisfies the job invariant again |
| CrawlerJobs.RunBatch | backend/crawler_jobs.py:67-147 | a batch is first in, first out, takes exactly the turns the loop allows, crawls at most `batch_size` new pages and never past the budget, keeps the queue within 100 and depths in the limit, sets the stats and the status, and keeps the job invariant |
| CrawlerJobs.CrawlerJobManager.constructor | backend/crawler_jobs.py:19-22 | no jobs |
| CrawlerJobs.CrawlerJobManager.CreateJob | backend/crawler_jobs.py:24-46 | `create_job` stores the new job under its id |
| CrawlerJobs.CrawlerJobManager.ProcessJobBatch | backend/crawler_jobs.py:52-164 | an error for an unknown job, a completed job as it is, otherwise one batch, as the batch contract fixes it, stored back under its id with a duration that never decreases |
| CrawlerWs.UrlSet | backend/crawler_ws.py:128 | the URLs of some entries |
| CrawlerWs.AcceptedSnoc | backend/crawler_ws.py:122-128 | one more dequeued entry is accepted exactly when it is new and not too deep |
| CrawlerWs.CountOk | backend/crawler_ws.py:192 | the fetched pages number at most the accepted entries |
| CrawlerWs.CountOkSnoc | backend/crawler_ws.py:192 | one accepted entry counts when its page was fetched |
| CrawlerWs.RoundsLength | backend/crawler_ws.py:133-220 | three messages per accepted entry |
| CrawlerWs.RoundsAt | backend/crawler_ws.py:133-220 | round `i` is `crawling`, then `completed` exactly when the fetch succeeded (else `error`), then statistics counting `start + i + 1` pages both ways |
| CrawlerWs.RoundsSnoc | backend/crawler_ws.py:133-220 | one more round at the end |
| CrawlerWs.TraceStep | backend/crawler_ws.py:133-220 | one more round of the trace |
| CrawlerWs.FollowLinks | backend/crawler_ws.py:186-189 | the page's unvisited links are appended while there is room, one level deeper, with the page as parent |
| CrawlerWs.EnqueueShape | backend/crawler_ws.py:187-189 | the links loop appends only, within 100, unvisited links under the page |
| CrawlerWs.VisitEntry | backend/crawler_ws.py:128-220 | an accepted entry is visited, reported in one round and its links followed on success |
| CrawlerWs.SkipKept | backend/crawler_ws.py:125-126 | dropping an entry sends nothing and keeps the state |
| CrawlerWs.VisitKept | backend/crawler_ws.py:128-220 | visiting an accepted entry keeps the state |
| CrawlerWs.VisitQueue | backend/crawler_ws.py:186-189 | the queue stays first in, first out, with added entries under visited pages |
| CrawlerWs.VisitSeen | backend/crawler_ws.py:128 | visited set and page count grow with the accepted entries |
| CrawlerWs.SkipInv | backend/crawler_ws.py:123-126 | a visited or too deep entry is dropped silently |
| CrawlerWs.VisitInv | backend/crawler_ws.py:123-220 | a new entry within the depth limit is visited, one round more |
| CrawlerWs.CrawlStep | backend/crawler_ws.py:123-220 | one turn of the loop keeps the invariant and makes progress |
| CrawlerWs.CrawlFinished | backend/crawler_ws.py:226-236 | the loop's exit state and the `complete` message, with queue size 0 |
| CrawlerWs.TurnSkip | backend/crawler_ws.py:123-126 | a visited or too deep front entry is only dequeued |
| CrawlerWs.TurnVisit | backend/crawler_ws.py:128-189 | an accepted front entry is visited, counted when fetched, and its links followed |
| CrawlerWs.WalkedStep | backend/crawler_ws.py:122-189 | one allowed turn extends the walk of the crawl |
| CrawlerWs.CrawlLoop | backend/crawler_ws.py:122-236 | the crawl from a state: first in, first out, exactly the turns the loop condition allows, rounds for the accepted entries, stopped by an empty queue or the budget, then `complete` |
| CrawlerWs.CrawlDetermined | backend/crawler_ws.py:122-236 | the crawl contract fixes the frontier: dequeued and added entries, accepted entries, queue, visited set and page count |
| CrawlerWs.WebCrawler.constructor | backend/crawler_ws.py:25-35 | the budget clamped to 50, nothing visited, the seed alone at depth 0 without a parent |
| CrawlerWs.WebCrawler.Crawl | backend/crawler_ws.py:119-236 | `crawl` moves the fields as the crawl loop says, turn by turn, and keeps the budget, queue and visited bounds |
| EnvFile.IndexOf | backend/load_env.py:20 | the first `=` of a line, if any |
| EnvFile.AssignmentSpec | backend/load_env.py:16-20 | a stripped line is an assignment exactly when non-empty, not a comment and holding `=`; key, `=` and value make up the line, and the key has no `=` |
| EnvFile.ApplyKeeps | backend/load_env.py:22-23 | a variable already set keeps its value |
| EnvFile.FirstValueStep | backend/load_env.py:15-20 | the first value of a variable, one line at a time |
| EnvFile.ApplyValues | backend/load_env.py:15-23 | each added variable takes the value of its first assignment in the file |
| EnvFile.ApplyComplete | backend/load_env.py:15-23 | after a full run, every variable assigned in the file is set |
| EnvFile.ApplyOk | backend/load_env.py:22-23 | the loader runs to the end exactly when every first assignment to a new variable is one the environment accepts |
| EnvFile.ApplyOkLegal | backend/load_env.py:22-23 | a full run means every first new assignment was accepted |
| EnvFile.ApplyStopIllegal | backend/load_env.py:22-23 | a stopped run means some first new assignment was refused |
| EnvFile.LoadEnv | backend/load_env.py:12-26 | the line loop is the loader; nothing happens without a file |

## Left out

- URL parsing: `urllib.parse.urljoin`, `urlsplit`, `urlparse` and `urlunsplit` are treated as opaque. Reference resolution is section 5.2 of RFC 3986. `norm_url` takes split components and a `resolve` function for `urljoin("/", path)`, and returns components. The crawlers take `parse`, and fetched anchors arrive already made absolute.
- Character classes: casing and `isalnum` are modelled on ASCII only, and there is no Unicode case mapping. `strip` and `isspace` use Python's full whitespace set.
- Floating point: the PageRank power iteration, the BM25 values, IDF, `avgdl` in the mini engine and `pr_norm` are not modelled. These values enter as the oracles `bm`, `prNorm` and `idf`. The title bonus counter is kept in exact tenths, and the bonus and weights are reals, so float rounding is not modelled.
- Network and HTML libraries: `fetch`, `make_ssl_context`, aiohttp sessions, the BeautifulSoup extraction in `crawl_page` and `_crawl_page`, and byte decoding in `parse_html` are left out. A fetch is the oracle `fetch`, and the extractor receives parser callbacks.
- `mini_search.crawl`, `try_seed_sitemap`, robots handling, `sleep_polite`, shuffling and the `cmd_*`/`main` entry points are outside the modelled core.
- Files and the database: reading page files, writing `index.json`, `postings.jsonl` and `pagerank.json`, and MongoDB reads and writes are replaced by parameters. The stored posting lines of `hybrid_rank` are the `stream` parameter. The jobs collection is a map. `save_to_mongo`, `_save_page`, `get_job` as a query, and `cleanup_old_jobs` are not modelled.
- Time and identifiers: `uuid4` is the `jobId` parameter. The timeout check is an oracle. `created_at` and `updated_at` are not modelled.
- Concurrency: `asyncio.sleep`, the event loop, WebSocket sends and `print` are left out. Sends become appends to a trace that never fail.
- CrawlerJobs.CrawlerJobManager.ProcessJobBatch: does not model the intermediate `'running'` status, because it is written to the store and then overwritten in the same call.
- CrawlerJobs.CrawlerJobManager.CreateJob: requires an identifier not yet in use, because uuid collisions are not modelled.
- CrawlerWs.CrawlDetermined: the crawl contract fixes the frontier and the accepted entries, but not the `linkCount` in the `completed` messages or the `queueSize` in the statistics messages.
- CrawlerJobs.CrawlerJobManager.ProcessJobBatch: the elapsed time is supplied by the caller. The duration never decreases only when that time is not negative.
- CrawlerWs.WebCrawler.Crawl: runs the loop on a state value and writes the fields back once at the end. No other code observes the fields meanwhile.
- EnvFile.LoadEnv: setting a variable with an empty name or a NUL character raises in Python. The model stops the loop at that point (`ok` false) instead of propagating an exception.
- EnvFile.LoadEnv: the existence check, opening the file and splitting it into lines are replaced by the optional sequence of lines.
- MongoSearch.MongoSearchEngine.BuildIndex: `count_documents` is the length of the store passed in.
- CrawlerWs.VisitEntry: trimming `visited` to 50 entries every tenth page is not modelled as a state change. The budget is clamped to 50 pages, so `visited` never exceeds 100, and the model shows the branch is unreachable.

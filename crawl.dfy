/** The pieces the two crawlers share: queue entries, node states, what a
    page fetch yields, the link filter applied to a fetched page, and the
    rule by which a page's links join the queue. */
module Crawl {
  import opened Wrappers
  import opened Strings
  import opened Urls

  /** A queue entry `(url, depth, parent)`; the seed has no parent. */
  datatype Entry = Entry(url: string, depth: nat, parent: Option<string>)

  datatype NodeStatus = Crawling | Completed | Error

  /** What a successful fetch of a page yields: its title (the URL when the
      page has none), text and snippet, and the absolute URLs of its anchors
      with an `href`, in document order (`urljoin` already applied). A failed
      fetch (a non-200 status, a timeout, a parse error) yields nothing. */
  datatype PageData = PageData(title: string, text: string, snippet: string, anchors: seq<string>)

  function Max(a: int, b: int): int {
    if a < b then b else a
  }

  /** The elements of `s` that `keep` accepts, in order. */
  function Filter(s: seq<string>, keep: string -> bool): (r: seq<string>)
    ensures |r| <= |s|
    ensures forall x :: x in r <==> x in s && keep(x)
    decreases |s|
  {
    if s == [] then []
    else
      var init := s[..|s| - 1];
      var x := s[|s| - 1];
      assert s == init + [x];
      Filter(init, keep) + (if keep(x) then [x] else [])
  }

  /** A single element is kept exactly when `keep` accepts it. */
  lemma FilterSingle(x: string, keep: string -> bool)
    ensures Filter([x], keep) == if keep(x) then [x] else []
  {
    assert [x][..0] == [];
  }

  /** Filtering distributes over concatenation, so it keeps the accepted
      elements in their order and with their repetitions. */
  lemma {:induction false} FilterAppend(a: seq<string>, b: seq<string>, keep: string -> bool)
    ensures Filter(a + b, keep) == Filter(a, keep) + Filter(b, keep)
    decreases |b|
  {
    if b == [] {
      assert a + b == a;
    } else {
      var init := b[..|b| - 1];
      var x := b[|b| - 1];
      FilterAppend(a, init, keep);
      assert (a + b)[..|a + b| - 1] == a + init;
      assert (a + b)[|a + b| - 1] == x;
      var tail := if keep(x) then [x] else [];
      assert Filter(a + b, keep) == Filter(a + init, keep) + tail;
      assert Filter(b, keep) == Filter(init, keep) + tail;
      ConcatAssoc(Filter(a, keep), Filter(init, keep), tail);
    }
  }

  /** The links of a fetched page: those of its first 20 anchors that
      `keep` accepts. */
  function PageLinks(anchors: seq<string>, keep: string -> bool): seq<string> {
    Filter(Take(anchors, 20), keep)
  }

  /** The loop that collects a page's links. */
  method CollectLinks(anchors: seq<string>, keep: string -> bool) returns (links: seq<string>)
    ensures links == PageLinks(anchors, keep)
  {
    var first := Take(anchors, 20);
    links := [];
    for i := 0 to |first|
      invariant links == Filter(first[..i], keep)
    {
      assert first[..i + 1][..i] == first[..i];
      if keep(first[i]) {
        links := links + [first[i]];
      }
    }
    assert first[..|first|] == first;
  }

  /** At most 20 links, each one of the first 20 anchors and accepted. */
  lemma PageLinksSpec(anchors: seq<string>, keep: string -> bool)
    ensures |PageLinks(anchors, keep)| <= 20 && |PageLinks(anchors, keep)| <= |anchors|
    ensures forall l :: l in PageLinks(anchors, keep) <==>
      (exists i :: 0 <= i < 20 && i < |anchors| && anchors[i] == l) && keep(l)
  {
    var first := Take(anchors, 20);
    assert forall l :: l in first <==> exists i :: 0 <= i < 20 && i < |anchors| && anchors[i] == l by {
      forall l ensures l in first <==> exists i :: 0 <= i < 20 && i < |anchors| && anchors[i] == l {
        if l in first {
          var i :| 0 <= i < |first| && first[i] == l;
          assert anchors[i] == l;
        }
        if exists i :: 0 <= i < 20 && i < |anchors| && anchors[i] == l {
          var i :| 0 <= i < 20 && i < |anchors| && anchors[i] == l;
          assert first[i] == l;
        }
      }
    }
  }

  /** `_is_valid_url`: an http(s) URL on the start URL's netloc, with
      `parse` standing for `urlparse` (`None` where it raises). */
  predicate SameSite(parse: string -> Option<SplitUrl>, base: string, u: string) {
    HttpOnSameNetloc(parse(u), parse(base))
  }

  /** Accepted links keep the start URL's scheme family and netloc, so they
      lie on its domain in the sense of `same_domain`. */
  lemma SameSiteSameDomain(parse: string -> Option<SplitUrl>, base: string, u: string)
    requires SameSite(parse, base, u)
    ensures parse(u).value.netloc == parse(base).value.netloc
    ensures parse(u).value.scheme in {"http", "https"}
    ensures SameDomain(parse(u), parse(base))
  {
  }

  /** The links loop: each link not in `visited` is enqueued, one level
      deeper with `parent` as its parent, while the queue holds fewer than
      100 entries. */
  function Enqueue(queue: seq<Entry>, links: seq<string>, visited: set<string>, depth: nat, parent: string)
    : (q: seq<Entry>)
    ensures |queue| <= |q| && q[..|queue|] == queue
    decreases |links|
  {
    if links == [] then queue
    else
      var next := if links[0] !in visited && |queue| < 100
                  then queue + [Entry(links[0], depth + 1, Some(parent))] else queue;
      assert next[..|queue|] == queue;
      var q := Enqueue(next, links[1..], visited, depth, parent);
      assert q[..|next|][..|queue|] == q[..|queue|];
      q
  }

  /** The entries the links loop adds. */
  predicate Added(e: Entry, links: seq<string>, visited: set<string>, depth: nat, parent: string) {
    e.url in links && e.url !in visited && e.depth == depth + 1 && e.parent == Some(parent)
  }

  /** The queue grows past 100 never, and by at most one entry per link;
      each added entry is an unvisited link one level deeper with the
      current page as parent. */
  lemma {:induction false} EnqueueSpec(queue: seq<Entry>, links: seq<string>, visited: set<string>, depth: nat,
                                       parent: string)
    ensures |Enqueue(queue, links, visited, depth, parent)| <= Max(|queue|, 100)
    ensures |Enqueue(queue, links, visited, depth, parent)| <= |queue| + |links|
    ensures forall i :: |queue| <= i < |Enqueue(queue, links, visited, depth, parent)| ==>
      Added(Enqueue(queue, links, visited, depth, parent)[i], links, visited, depth, parent)
    decreases |links|
  {
    if links != [] {
      var next := if links[0] !in visited && |queue| < 100
                  then queue + [Entry(links[0], depth + 1, Some(parent))] else queue;
      EnqueueSpec(next, links[1..], visited, depth, parent);
      var q := Enqueue(queue, links, visited, depth, parent);
      forall i | |queue| <= i < |q| ensures Added(q[i], links, visited, depth, parent) {
        if i >= |next| {
          assert Added(q[i], links[1..], visited, depth, parent);
          assert q[i].url in links[1..];
        } else {
          assert q[i] == q[..|next|][i] == next[i];
        }
      }
    }
  }

  /** While there is room, no unvisited link is passed over. */
  lemma {:induction false} EnqueueComplete(queue: seq<Entry>, links: seq<string>, visited: set<string>, depth: nat,
                                           parent: string, l: string)
    requires l in links && l !in visited
    requires |Enqueue(queue, links, visited, depth, parent)| < 100
    ensures exists i :: (|queue| <= i < |Enqueue(queue, links, visited, depth, parent)|
                         && Enqueue(queue, links, visited, depth, parent)[i].url == l)
    decreases |links|
  {
    var next := if links[0] !in visited && |queue| < 100
                then queue + [Entry(links[0], depth + 1, Some(parent))] else queue;
    var q := Enqueue(queue, links, visited, depth, parent);
    assert |next| <= |q| && q[..|next|] == next;
    if links[0] == l {
      assert q[|queue|] == q[..|next|][|queue|] == next[|queue|];
    } else {
      EnqueueComplete(next, links[1..], visited, depth, parent, l);
    }
  }

  /** The links loop as the crawlers run it. */
  method EnqueueLinks(queue: seq<Entry>, links: seq<string>, visited: set<string>, depth: nat, parent: string)
    returns (q: seq<Entry>)
    ensures q == Enqueue(queue, links, visited, depth, parent)
  {
    q := queue;
    for i := 0 to |links|
      invariant Enqueue(queue, links, visited, depth, parent) == Enqueue(q, links[i..], visited, depth, parent)
    {
      assert links[i..][1..] == links[i + 1..];
      var link := links[i];
      if link !in visited && |q| < 100 {
        q := q + [Entry(link, depth + 1, Some(parent))];
      }
    }
  }
}

/** The WebSocket crawler: one `WebCrawler` object crawls breadth-first from
    its start URL and reports each page on the socket as it goes. Sending
    is appending to `trace`; fetching is an oracle `fetch` (`None` for a
    failed page), `parse` stands for `urlparse`, and `clock(k)` is the
    elapsed time reported in the k-th statistics message. */
module CrawlerWs {
  import opened Wrappers
  import opened Strings
  import opened Urls
  import opened Crawl

  /** The messages `crawl` sends: a node update (`'type': 'node'`), a
      statistics update (`'type': 'stats'`, status `'crawling'`) and the
      final `'complete'` message (status `'completed'`). */
  datatype Message =
    | NodeMsg(url: string, depth: nat, status: NodeStatus, parent: Option<string>,
              title: Option<string>, linkCount: Option<nat>)
    | StatsMsg(totalPages: nat, completedPages: nat, queueSize: nat, duration: real)
    | CompleteMsg(totalPages: nat, completedPages: nat, queueSize: nat, duration: real)

  /** `is_valid_url` with the visited set `visited`. */
  function ValidLink(parse: string -> Option<SplitUrl>, base: string, visited: set<string>): string -> bool {
    u => SameSite(parse, base, u) && u !in visited
  }

  /** The URLs of some entries. */
  function UrlSet(es: seq<Entry>): (s: set<string>)
    ensures forall u :: u in s <==> exists i :: 0 <= i < |es| && es[i].url == u
  {
    set e | e in es :: e.url
  }

  /** The dequeued entries that `crawl` accepts: not visited before (the
      initial `visited` or an earlier accepted entry) and not deeper than
      `maxDepth`. */
  ghost function Accepted(visited: set<string>, consumed: seq<Entry>, maxDepth: int): seq<Entry>
    decreases |consumed|
  {
    if consumed == [] then []
    else
      var f := Accepted(visited, consumed[..|consumed| - 1], maxDepth);
      var e := consumed[|consumed| - 1];
      if e.url in visited + UrlSet(f) || e.depth > maxDepth then f else f + [e]
  }

  lemma AcceptedSnoc(visited: set<string>, consumed: seq<Entry>, maxDepth: int, e: Entry)
    ensures Accepted(visited, consumed + [e], maxDepth) ==
      if e.url in visited + UrlSet(Accepted(visited, consumed, maxDepth)) || e.depth > maxDepth
      then Accepted(visited, consumed, maxDepth)
      else Accepted(visited, consumed, maxDepth) + [e]
  {
    assert (consumed + [e])[..|consumed|] == consumed;
  }

  lemma UrlSetSnoc(es: seq<Entry>, e: Entry)
    ensures UrlSet(es + [e]) == UrlSet(es) + {e.url}
  {
    assert forall u :: u in UrlSet(es + [e]) <==> u in UrlSet(es) || u == e.url by {
      forall u ensures u in UrlSet(es + [e]) <==> u in UrlSet(es) || u == e.url {
        if u in UrlSet(es + [e]) {
          var i :| 0 <= i < |es + [e]| && (es + [e])[i].url == u;
          if i < |es| {
            assert es[i].url == u;
          }
        }
        if u in UrlSet(es) {
          var i :| 0 <= i < |es| && es[i].url == u;
          assert (es + [e])[i].url == u;
        }
        if u == e.url {
          assert (es + [e])[|es|].url == u;
        }
      }
    }
  }

  /** The number of accepted entries whose page was fetched. */
  function CountOk(es: seq<Entry>, fetch: string -> Option<PageData>): (n: nat)
    ensures n <= |es|
    decreases |es|
  {
    if es == [] then 0
    else CountOk(es[..|es| - 1], fetch) + (if fetch(es[|es| - 1].url).Some? then 1 else 0)
  }

  lemma CountOkSnoc(es: seq<Entry>, e: Entry, fetch: string -> Option<PageData>)
    ensures CountOk(es + [e], fetch) == CountOk(es, fetch) + (if fetch(e.url).Some? then 1 else 0)
  {
    assert (es + [e])[..|es|] == es;
  }

  /** The three messages for one accepted entry: `crawling`, then
      `completed` (with the page's title) or `error`, then statistics that
      count `total` pages both as visited and as completed. */
  ghost predicate IsRound(ms: seq<Message>, e: Entry, page: Option<PageData>, total: nat, duration: real) {
    && |ms| == 3
    && ms[0] == NodeMsg(e.url, e.depth, Crawling, e.parent, None, None)
    && ms[1].NodeMsg? && ms[1].url == e.url && ms[1].depth == e.depth && ms[1].parent == e.parent
    && ms[1].status == (if page.Some? then Completed else Error)
    && ms[1].title == (if page.Some? then Some(page.value.title) else None)
    && (ms[1].linkCount.Some? <==> page.Some?)
    && ms[2].StatsMsg? && ms[2].totalPages == total && ms[2].completedPages == total
    && ms[2].duration == duration
  }

  /** `ms` is one round per entry of `es`, in order; the i-th round's
      statistics count `start + i + 1` pages. */
  ghost predicate Rounds(ms: seq<Message>, es: seq<Entry>, fetch: string -> Option<PageData>, start: nat,
                         clock: nat -> real)
    decreases |es|
  {
    if es == [] then ms == []
    else
      && |ms| >= 3
      && Rounds(ms[..|ms| - 3], es[..|es| - 1], fetch, start, clock)
      && IsRound(ms[|ms| - 3..], es[|es| - 1], fetch(es[|es| - 1].url), start + |es|, clock(|es| - 1))
  }

  /** Every round list has three messages per entry. */
  lemma {:induction false} RoundsLength(ms: seq<Message>, es: seq<Entry>, fetch: string -> Option<PageData>,
                                        start: nat, clock: nat -> real)
    requires Rounds(ms, es, fetch, start, clock)
    ensures |ms| == 3 * |es|
    decreases |es|
  {
    if es != [] {
      RoundsLength(ms[..|ms| - 3], es[..|es| - 1], fetch, start, clock);
    }
  }

  /** A round per entry: the i-th round opens with the `crawling` message of
      the i-th entry, and its page is reported `completed` exactly when the
      fetch succeeded. */
  lemma {:induction false} RoundsAt(ms: seq<Message>, es: seq<Entry>, fetch: string -> Option<PageData>,
                                    start: nat, clock: nat -> real, i: nat)
    requires Rounds(ms, es, fetch, start, clock) && i < |es|
    ensures |ms| == 3 * |es|
    ensures ms[3 * i] == NodeMsg(es[i].url, es[i].depth, Crawling, es[i].parent, None, None)
    ensures ms[3 * i + 1].NodeMsg? && ms[3 * i + 1].url == es[i].url
    ensures ms[3 * i + 1].status == Completed <==> fetch(es[i].url).Some?
    ensures ms[3 * i + 2].StatsMsg? && ms[3 * i + 2].totalPages == ms[3 * i + 2].completedPages == start + i + 1
    decreases |es|
  {
    RoundsLength(ms, es, fetch, start, clock);
    var last := ms[|ms| - 3..];
    if i < |es| - 1 {
      RoundsAt(ms[..|ms| - 3], es[..|es| - 1], fetch, start, clock, i);
      assert ms[3 * i] == ms[..|ms| - 3][3 * i];
      assert ms[3 * i + 1] == ms[..|ms| - 3][3 * i + 1];
      assert ms[3 * i + 2] == ms[..|ms| - 3][3 * i + 2];
    } else {
      assert ms[3 * i] == last[0] && ms[3 * i + 1] == last[1] && ms[3 * i + 2] == last[2];
    }
  }

  /** One more round at the end. */
  lemma RoundsSnoc(ms: seq<Message>, es: seq<Entry>, fetch: string -> Option<PageData>, start: nat,
                   clock: nat -> real, r: seq<Message>, e: Entry)
    requires Rounds(ms, es, fetch, start, clock)
    requires IsRound(r, e, fetch(e.url), start + |es| + 1, clock(|es|))
    ensures Rounds(ms + r, es + [e], fetch, start, clock)
  {
    assert (ms + r)[..|ms + r| - 3] == ms;
    assert (ms + r)[|ms + r| - 3..] == r;
    assert (es + [e])[..|es|] == es;
  }

  /** The trace since `t0` is a sequence of rounds for `acc`. */
  ghost predicate TraceKept(t0: seq<Message>, trace: seq<Message>, acc: seq<Entry>,
                            fetch: string -> Option<PageData>, start: nat, clock: nat -> real)
  {
    |t0| <= |trace| && trace[..|t0|] == t0 && Rounds(trace[|t0|..], acc, fetch, start, clock)
  }

  lemma TraceStep(t0: seq<Message>, trace: seq<Message>, acc: seq<Entry>, fetch: string -> Option<PageData>,
                  start: nat, clock: nat -> real, trace': seq<Message>, e: Entry)
    requires TraceKept(t0, trace, acc, fetch, start, clock)
    requires |trace| <= |trace'| && trace'[..|trace|] == trace
    requires IsRound(trace'[|trace|..], e, fetch(e.url), start + |acc| + 1, clock(|acc|))
    ensures TraceKept(t0, trace', acc + [e], fetch, start, clock)
  {
    var r := trace'[|trace|..];
    assert trace' == trace + r;
    assert trace'[..|t0|] == t0;
    assert trace'[|t0|..] == trace[|t0|..] + r;
    RoundsSnoc(trace[|t0|..], acc, fetch, start, clock, r, e);
  }

  /** The state `crawl` advances: the queue, the visited set, the count
      of fetched pages and the messages sent so far. */
  datatype CrawlState = CrawlState(queue: seq<Entry>, visited: set<string>, pageCount: nat, trace: seq<Message>)

  /** The queue after a page: its unvisited links appended while there is
      room, or nothing for a failed fetch. */
  function QueueAfter(queue: seq<Entry>, page: Option<PageData>, e: Entry, visited: set<string>,
                      parse: string -> Option<SplitUrl>, base: string): seq<Entry>
  {
    match page
    case None => queue
    case Some(p) => Enqueue(queue, PageLinks(p.anchors, ValidLink(parse, base, visited)), visited, e.depth, e.url)
  }

  /** The link handling of `crawl` for accepted entry `e`: collect the
      page's valid links and enqueue those not yet visited. */
  method FollowLinks(queue: seq<Entry>, p: PageData, e: Entry, visited: set<string>,
                     parse: string -> Option<SplitUrl>, base: string)
    returns (q: seq<Entry>, linkCount: nat)
    ensures q == QueueAfter(queue, Some(p), e, visited, parse, base)
    ensures |queue| <= |q| && q == queue + q[|queue|..]
    ensures |q| <= Max(|queue|, 100)
    ensures forall x :: x in q[|queue|..] ==> x.depth == e.depth + 1 && x.parent == Some(e.url) && x.url !in visited
  {
    var links := CollectLinks(p.anchors, ValidLink(parse, base, visited));
    linkCount := |links|;
    q := EnqueueLinks(queue, links, visited, e.depth, e.url);
    EnqueueShape(queue, links, visited, e.depth, e.url);
  }

  lemma EnqueueShape(queue: seq<Entry>, links: seq<string>, visited: set<string>, depth: nat, parent: string)
    ensures var q := Enqueue(queue, links, visited, depth, parent);
      && q == queue + q[|queue|..] && |q| <= Max(|queue|, 100)
      && forall x :: x in q[|queue|..] ==> x.depth == depth + 1 && x.parent == Some(parent) && x.url !in visited
  {
    var q := Enqueue(queue, links, visited, depth, parent);
    EnqueueSpec(queue, links, visited, depth, parent);
    assert q == queue + q[|queue|..];
    forall x | x in q[|queue|..] ensures x.depth == depth + 1 && x.parent == Some(parent) && x.url !in visited {
      var i :| 0 <= i < |q[|queue|..]| && q[|queue|..][i] == x;
      assert Added(q[|queue| + i], links, visited, depth, parent);
    }
  }

  /** The body of the crawl loop for an accepted entry `e`: mark it
      visited, report it, and on success enqueue its unvisited links and
      count the page; then report statistics. */
  method VisitEntry(s: CrawlState, e: Entry, maxPages: int, base: string, fetch: string -> Option<PageData>,
                    parse: string -> Option<SplitUrl>, clock: nat -> real, rounds: nat)
    returns (s': CrawlState)
    requires e.url !in s.visited && |s.visited| < maxPages <= 50
    ensures s'.visited == s.visited + {e.url} && |s'.visited| == |s.visited| + 1
    ensures |s.trace| <= |s'.trace| && s'.trace[..|s.trace|] == s.trace
    ensures IsRound(s'.trace[|s.trace|..], e, fetch(e.url), |s'.visited|, clock(rounds))
    ensures s'.pageCount == s.pageCount + (if fetch(e.url).Some? then 1 else 0)
    ensures s'.queue == QueueAfter(s.queue, fetch(e.url), e, s'.visited, parse, base)
    ensures |s.queue| <= |s'.queue| && s'.queue == s.queue + s'.queue[|s.queue|..]
    ensures |s'.queue| <= Max(|s.queue|, 100)
    ensures forall x :: x in s'.queue[|s.queue|..] ==>
      x.depth == e.depth + 1 && x.parent == Some(e.url) && x.url !in s'.visited
  {
    var visited := s.visited + {e.url};
    var queue := s.queue;
    var pageCount := s.pageCount;
    var msgs := [NodeMsg(e.url, e.depth, Crawling, e.parent, None, None)];
    var page := fetch(e.url);
    if page.Some? {
      var linkCount;
      queue, linkCount := FollowLinks(queue, page.value, e, visited, parse, base);
      msgs := msgs + [NodeMsg(e.url, e.depth, Completed, e.parent, Some(page.value.title), Some(linkCount))];
      pageCount := pageCount + 1;
      if pageCount % 10 == 0 {
        if |visited| > 100 {
          // Pruning `visited` to its last 50 entries: the budget of at
          // most 50 pages keeps this branch out of reach.
          assert false;
        }
      }
    } else {
      msgs := msgs + [NodeMsg(e.url, e.depth, Error, e.parent, None, None)];
      assert queue == queue + queue[|queue|..];
    }
    msgs := msgs + [StatsMsg(|visited|, |visited|, |queue|, clock(rounds))];
    s' := CrawlState(queue, visited, pageCount, s.trace + msgs);
    assert s'.trace[|s.trace|..] == msgs;
  }

  /** What the crawl loop keeps, from the state `s0` it started in, with
      `acc` the entries accepted so far. */
  ghost predicate CrawlKept(s0: CrawlState, s: CrawlState, consumed: seq<Entry>, added: seq<Entry>, acc: seq<Entry>,
                            maxDepth: int, fetch: string -> Option<PageData>, clock: nat -> real)
  {
    && QueueKept(s0, s, consumed, added, maxDepth)
    && SeenKept(s0, s, acc, fetch)
    && TraceKept(s0.trace, s.trace, acc, fetch, |s0.visited|, clock)
  }

  /** First in, first out, and every added entry is one level below a
      visited page. */
  ghost predicate QueueKept(s0: CrawlState, s: CrawlState, consumed: seq<Entry>, added: seq<Entry>, maxDepth: int) {
    && s0.queue + added == consumed + s.queue
    && (forall x :: x in added ==> 1 <= x.depth <= maxDepth + 1 && x.parent.Some? && x.parent.value in s.visited)
  }

  /** The visited set and the page count grow with the accepted entries. */
  ghost predicate SeenKept(s0: CrawlState, s: CrawlState, acc: seq<Entry>, fetch: string -> Option<PageData>) {
    && s.visited == s0.visited + UrlSet(acc) && |s.visited| == |s0.visited| + |acc|
    && s.pageCount == s0.pageCount + CountOk(acc, fetch)
  }

  /** Dropping a dequeued entry. */
  lemma SkipKept(s0: CrawlState, s: CrawlState, consumed: seq<Entry>, added: seq<Entry>, acc: seq<Entry>,
                 maxDepth: int, fetch: string -> Option<PageData>, clock: nat -> real)
    requires CrawlKept(s0, s, consumed, added, acc, maxDepth, fetch, clock) && s.queue != []
    ensures CrawlKept(s0, s.(queue := s.queue[1..]), consumed + [s.queue[0]], added, acc, maxDepth, fetch, clock)
  {
    assert consumed + s.queue == (consumed + [s.queue[0]]) + s.queue[1..];
  }

  /** Accepting a dequeued entry and visiting it. */
  lemma VisitKept(s0: CrawlState, s: CrawlState, consumed: seq<Entry>, added: seq<Entry>, acc: seq<Entry>,
                  maxDepth: int, fetch: string -> Option<PageData>, clock: nat -> real, s': CrawlState)
    requires CrawlKept(s0, s, consumed, added, acc, maxDepth, fetch, clock) && s.queue != []
    requires s.queue[0].depth <= maxDepth
    requires s'.visited == s.visited + {s.queue[0].url} && |s'.visited| == |s.visited| + 1
    requires |s.trace| <= |s'.trace| && s'.trace[..|s.trace|] == s.trace
    requires IsRound(s'.trace[|s.trace|..], s.queue[0], fetch(s.queue[0].url), |s'.visited|, clock(|acc|))
    requires s'.pageCount == s.pageCount + (if fetch(s.queue[0].url).Some? then 1 else 0)
    requires |s.queue[1..]| <= |s'.queue| && s'.queue == s.queue[1..] + s'.queue[|s.queue[1..]|..]
    requires forall x :: x in s'.queue[|s.queue[1..]|..] ==>
      x.depth == s.queue[0].depth + 1 && x.parent == Some(s.queue[0].url)
    ensures CrawlKept(s0, s', consumed + [s.queue[0]], added + s'.queue[|s.queue[1..]|..], acc + [s.queue[0]],
                      maxDepth, fetch, clock)
  {
    var e := s.queue[0];
    VisitQueue(s0, s, consumed, added, maxDepth, s');
    VisitSeen(s0, s, acc, fetch, s');
    TraceStep(s0.trace, s.trace, acc, fetch, |s0.visited|, clock, s'.trace, e);
  }

  lemma VisitQueue(s0: CrawlState, s: CrawlState, consumed: seq<Entry>, added: seq<Entry>, maxDepth: int,
                   s': CrawlState)
    requires QueueKept(s0, s, consumed, added, maxDepth) && s.queue != []
    requires s.queue[0].depth <= maxDepth && s.visited <= s'.visited && s.queue[0].url in s'.visited
    requires |s.queue[1..]| <= |s'.queue| && s'.queue == s.queue[1..] + s'.queue[|s.queue[1..]|..]
    requires forall x :: x in s'.queue[|s.queue[1..]|..] ==>
      x.depth == s.queue[0].depth + 1 && x.parent == Some(s.queue[0].url)
    ensures QueueKept(s0, s', consumed + [s.queue[0]], added + s'.queue[|s.queue[1..]|..], maxDepth)
  {
    var e := s.queue[0];
    var rest := s.queue[1..];
    var ext := s'.queue[|rest|..];
    ConcatAssoc(s0.queue, added, ext);
    assert s.queue == [e] + rest;
    ConcatAssoc(consumed, [e], rest);
  }

  lemma VisitSeen(s0: CrawlState, s: CrawlState, acc: seq<Entry>, fetch: string -> Option<PageData>, s': CrawlState)
    requires SeenKept(s0, s, acc, fetch) && s.queue != []
    requires s'.visited == s.visited + {s.queue[0].url} && |s'.visited| == |s.visited| + 1
    requires s'.pageCount == s.pageCount + (if fetch(s.queue[0].url).Some? then 1 else 0)
    ensures SeenKept(s0, s', acc + [s.queue[0]], fetch)
  {
    var e := s.queue[0];
    UrlSetSnoc(acc, e);
    CountOkSnoc(acc, e, fetch);
  }

  /** The part of the crawl state the fetched pages decide, with the
      entries dequeued so far. */
  datatype Frontier = Frontier(queue: seq<Entry>, visited: set<string>, pageCount: nat, consumed: seq<Entry>)

  /** One turn of the crawl loop, as a function: the front entry is
      dequeued; one that is new and not deeper than `maxDepth` is visited,
      and when its page was fetched its valid unvisited links are enqueued
      while there is room and the page is counted. */
  ghost function Turn(f: Frontier, maxDepth: int, base: string, fetch: string -> Option<PageData>,
                      parse: string -> Option<SplitUrl>): Frontier
  {
    if f.queue == [] then f
    else
      var e := f.queue[0];
      if e.url in f.visited || e.depth > maxDepth then f.(queue := f.queue[1..], consumed := f.consumed + [e])
      else
        var visited := f.visited + {e.url};
        Frontier(QueueAfter(f.queue[1..], fetch(e.url), e, visited, parse, base), visited,
                 f.pageCount + (if fetch(e.url).Some? then 1 else 0), f.consumed + [e])
  }

  /** The frontier after `n` turns from `s0`. */
  ghost function Turns(s0: CrawlState, n: nat, maxDepth: int, base: string, fetch: string -> Option<PageData>,
                       parse: string -> Option<SplitUrl>): Frontier
    decreases n
  {
    if n == 0 then Frontier(s0.queue, s0.visited, s0.pageCount, [])
    else Turn(Turns(s0, n - 1, maxDepth, base, fetch, parse), maxDepth, base, fetch, parse)
  }

  /** The loop took `|consumed|` turns from `s0` and reached `s`, and before
      each of them the queue was not empty and the budget not spent. */
  ghost predicate Walked(s0: CrawlState, s: CrawlState, consumed: seq<Entry>, maxPages: int, maxDepth: int,
                         base: string, fetch: string -> Option<PageData>, parse: string -> Option<SplitUrl>)
  {
    && Turns(s0, |consumed|, maxDepth, base, fetch, parse) == Frontier(s.queue, s.visited, s.pageCount, consumed)
    && forall i :: 0 <= i < |consumed| ==>
      Turns(s0, i, maxDepth, base, fetch, parse).queue != []
      && |Turns(s0, i, maxDepth, base, fetch, parse).visited| < maxPages
  }

  /** The turn that drops the front entry. */
  lemma TurnSkip(f: Frontier, maxDepth: int, base: string, fetch: string -> Option<PageData>,
                 parse: string -> Option<SplitUrl>)
    requires f.queue != [] && (f.queue[0].url in f.visited || f.queue[0].depth > maxDepth)
    ensures Turn(f, maxDepth, base, fetch, parse)
         == Frontier(f.queue[1..], f.visited, f.pageCount, f.consumed + [f.queue[0]])
  {
  }

  /** The turn that visits the front entry. */
  lemma TurnVisit(f: Frontier, maxDepth: int, base: string, fetch: string -> Option<PageData>,
                  parse: string -> Option<SplitUrl>, s': CrawlState)
    requires f.queue != [] && f.queue[0].url !in f.visited && f.queue[0].depth <= maxDepth
    requires s'.visited == f.visited + {f.queue[0].url}
    requires s'.queue == QueueAfter(f.queue[1..], fetch(f.queue[0].url), f.queue[0], s'.visited, parse, base)
    requires s'.pageCount == f.pageCount + (if fetch(f.queue[0].url).Some? then 1 else 0)
    ensures Turn(f, maxDepth, base, fetch, parse)
         == Frontier(s'.queue, s'.visited, s'.pageCount, f.consumed + [f.queue[0]])
  {
  }

  /** A turn taken while the loop runs extends the walk by one step. */
  lemma WalkedStep(s0: CrawlState, s: CrawlState, consumed: seq<Entry>, maxPages: int, maxDepth: int,
                   base: string, fetch: string -> Option<PageData>, parse: string -> Option<SplitUrl>,
                   s': CrawlState)
    requires Walked(s0, s, consumed, maxPages, maxDepth, base, fetch, parse)
    requires s.queue != [] && |s.visited| < maxPages
    requires Frontier(s'.queue, s'.visited, s'.pageCount, consumed + [s.queue[0]])
          == Turn(Frontier(s.queue, s.visited, s.pageCount, consumed), maxDepth, base, fetch, parse)
    ensures Walked(s0, s', consumed + [s.queue[0]], maxPages, maxDepth, base, fetch, parse)
  {
    var n := |consumed|;
    assert Turns(s0, n + 1, maxDepth, base, fetch, parse)
        == Turn(Turns(s0, n, maxDepth, base, fetch, parse), maxDepth, base, fetch, parse);
    forall i | 0 <= i < n + 1
      ensures Turns(s0, i, maxDepth, base, fetch, parse).queue != []
              && |Turns(s0, i, maxDepth, base, fetch, parse).visited| < maxPages
    {
      if i == n {
        assert Turns(s0, i, maxDepth, base, fetch, parse) == Frontier(s.queue, s.visited, s.pageCount, consumed);
      }
    }
  }

  /** What `crawl` leaves, from state `s0` to state `s`: the loop stopped
      because the queue ran empty or the budget is spent; the queue stayed
      first in, first out with `consumed` dequeued and `added` enqueued;
      `acc` are the dequeued entries the loop accepted, and their URLs and
      fetched pages are what the visited set and the page count gained;
      the turns taken are exactly those `Turns` takes until the loop stops
      (`Walked`), which fixes the entries `added`: the valid unvisited
      links of each fetched page, while the queue has room; every added entry is one level below a visited page and at most one
      below `maxDepth`; and the trace gained one round per accepted entry,
      in order, then the `complete` message. */
  ghost predicate CrawlDone(s0: CrawlState, s: CrawlState, consumed: seq<Entry>, added: seq<Entry>,
                            acc: seq<Entry>, maxPages: int, maxDepth: int, base: string,
                            fetch: string -> Option<PageData>, parse: string -> Option<SplitUrl>,
                            clock: nat -> real)
  {
    && (s.queue == [] || |s.visited| >= maxPages)
    && Walked(s0, s, consumed, maxPages, maxDepth, base, fetch, parse)
    && |s.queue| <= 100 && |s.visited| <= Max(maxPages, 0)
    && acc == Accepted(s0.visited, consumed, maxDepth)
    && s0.queue + added == consumed + s.queue
    && s.visited == s0.visited + UrlSet(acc) && |s.visited| == |s0.visited| + |acc|
    && s.pageCount == s0.pageCount + CountOk(acc, fetch)
    && (forall x :: x in added ==> 1 <= x.depth <= maxDepth + 1 && x.parent.Some? && x.parent.value in s.visited)
    && |s0.trace| < |s.trace| && s.trace[..|s0.trace|] == s0.trace
    && Rounds(s.trace[|s0.trace|..|s.trace| - 1], acc, fetch, |s0.visited|, clock)
    && s.trace[|s.trace| - 1] == CompleteMsg(|s.visited|, |s.visited|, 0, clock(|acc|))
  }

  /** A crawl is determined by its start state and the oracles: the
      entries it dequeues, accepts and enqueues, and the queue, visited set
      and page count it leaves, are the same for every run that meets
      `CrawlDone`. */
  lemma CrawlDetermined(s0: CrawlState, maxPages: int, maxDepth: int, base: string,
                        fetch: string -> Option<PageData>, parse: string -> Option<SplitUrl>, clock: nat -> real,
                        s1: CrawlState, consumed1: seq<Entry>, added1: seq<Entry>, acc1: seq<Entry>,
                        s2: CrawlState, consumed2: seq<Entry>, added2: seq<Entry>, acc2: seq<Entry>)
    requires CrawlDone(s0, s1, consumed1, added1, acc1, maxPages, maxDepth, base, fetch, parse, clock)
    requires CrawlDone(s0, s2, consumed2, added2, acc2, maxPages, maxDepth, base, fetch, parse, clock)
    ensures consumed1 == consumed2 && added1 == added2 && acc1 == acc2
    ensures s1.queue == s2.queue && s1.visited == s2.visited && s1.pageCount == s2.pageCount
  {
    assert |consumed1| == |consumed2|;
    assert Frontier(s1.queue, s1.visited, s1.pageCount, consumed1)
        == Frontier(s2.queue, s2.visited, s2.pageCount, consumed2);
    assert s0.queue + added1 == s0.queue + added2;
    assert added1 == (s0.queue + added1)[|s0.queue|..];
    assert added2 == (s0.queue + added2)[|s0.queue|..];
  }

  /** The loop's invariant at its exit, followed by the `complete`
      message. */
  lemma CrawlFinished(s0: CrawlState, s: CrawlState, consumed: seq<Entry>, added: seq<Entry>, acc: seq<Entry>,
                      maxPages: int, maxDepth: int, base: string, fetch: string -> Option<PageData>,
                      parse: string -> Option<SplitUrl>, clock: nat -> real)
    requires CrawlKept(s0, s, consumed, added, acc, maxDepth, fetch, clock)
    requires Walked(s0, s, consumed, maxPages, maxDepth, base, fetch, parse)
    requires acc == Accepted(s0.visited, consumed, maxDepth)
    requires s.queue == [] || |s.visited| >= maxPages
    requires |s.queue| <= 100 && |s.visited| <= Max(maxPages, 0)
    ensures CrawlDone(s0, s.(trace := s.trace + [CompleteMsg(|s.visited|, |s.visited|, 0, clock(|acc|))]),
                      consumed, added, acc, maxPages, maxDepth, base, fetch, parse, clock)
  {
    var final := s.trace + [CompleteMsg(|s.visited|, |s.visited|, 0, clock(|acc|))];
    assert final[|s0.trace|..|final| - 1] == s.trace[|s0.trace|..];
    assert final[..|s0.trace|] == s.trace[..|s0.trace|];
  }

  /** The crawl loop's invariant: `acc` are the accepted entries among
      those dequeued, one round each, and the loop state is kept. */
  ghost predicate CrawlInv(s0: CrawlState, s: CrawlState, consumed: seq<Entry>, added: seq<Entry>, acc: seq<Entry>,
                           rounds: nat, maxPages: int, maxDepth: int, fetch: string -> Option<PageData>,
                           clock: nat -> real)
  {
    && acc == Accepted(s0.visited, consumed, maxDepth) && rounds == |acc|
    && CrawlKept(s0, s, consumed, added, acc, maxDepth, fetch, clock)
    && |s.queue| <= 100 && |s.visited| <= Max(maxPages, 0)
  }

  /** A dequeued entry already visited or too deep is dropped. */
  lemma SkipInv(s0: CrawlState, s: CrawlState, consumed: seq<Entry>, added: seq<Entry>, acc: seq<Entry>,
                rounds: nat, maxPages: int, maxDepth: int, fetch: string -> Option<PageData>, clock: nat -> real)
    requires CrawlInv(s0, s, consumed, added, acc, rounds, maxPages, maxDepth, fetch, clock) && s.queue != []
    requires s.queue[0].url in s.visited || s.queue[0].depth > maxDepth
    ensures CrawlInv(s0, s.(queue := s.queue[1..]), consumed + [s.queue[0]], added, acc, rounds, maxPages,
                     maxDepth, fetch, clock)
  {
    AcceptedSnoc(s0.visited, consumed, maxDepth, s.queue[0]);
    SkipKept(s0, s, consumed, added, acc, maxDepth, fetch, clock);
  }

  /** A dequeued entry that is new and not too deep is visited, one round
      more. */
  lemma VisitInv(s0: CrawlState, s: CrawlState, consumed: seq<Entry>, added: seq<Entry>, acc: seq<Entry>,
                 rounds: nat, maxPages: int, maxDepth: int, fetch: string -> Option<PageData>, clock: nat -> real,
                 s': CrawlState)
    requires CrawlInv(s0, s, consumed, added, acc, rounds, maxPages, maxDepth, fetch, clock) && s.queue != []
    requires s.queue[0].url !in s.visited && s.queue[0].depth <= maxDepth
    requires |s.visited| < maxPages
    requires s'.visited == s.visited + {s.queue[0].url} && |s'.visited| == |s.visited| + 1
    requires |s.trace| <= |s'.trace| && s'.trace[..|s.trace|] == s.trace
    requires IsRound(s'.trace[|s.trace|..], s.queue[0], fetch(s.queue[0].url), |s'.visited|, clock(rounds))
    requires s'.pageCount == s.pageCount + (if fetch(s.queue[0].url).Some? then 1 else 0)
    requires |s.queue[1..]| <= |s'.queue| && s'.queue == s.queue[1..] + s'.queue[|s.queue[1..]|..]
    requires |s'.queue| <= Max(|s.queue[1..]|, 100)
    requires forall x :: x in s'.queue[|s.queue[1..]|..] ==>
      x.depth == s.queue[0].depth + 1 && x.parent == Some(s.queue[0].url)
    ensures CrawlInv(s0, s', consumed + [s.queue[0]], added + s'.queue[|s.queue[1..]|..], acc + [s.queue[0]],
                     rounds + 1, maxPages, maxDepth, fetch, clock)
  {
    AcceptedSnoc(s0.visited, consumed, maxDepth, s.queue[0]);
    VisitKept(s0, s, consumed, added, acc, maxDepth, fetch, clock, s');
  }

  /** One turn of the crawl loop: the front entry is dequeued and, when it
      is new and not too deep, visited; either a page more is visited or
      the queue is one entry shorter. */
  method CrawlStep(s0: CrawlState, s: CrawlState, ghost consumed: seq<Entry>, ghost added: seq<Entry>,
                   ghost acc: seq<Entry>, rounds: nat, maxPages: int, maxDepth: int, base: string,
                   fetch: string -> Option<PageData>, parse: string -> Option<SplitUrl>, clock: nat -> real)
    returns (s': CrawlState, ghost consumed': seq<Entry>, ghost added': seq<Entry>, ghost acc': seq<Entry>,
             rounds': nat)
    requires maxPages <= 50 && s.queue != [] && |s.visited| < maxPages
    requires CrawlInv(s0, s, consumed, added, acc, rounds, maxPages, maxDepth, fetch, clock)
    requires Walked(s0, s, consumed, maxPages, maxDepth, base, fetch, parse)
    ensures CrawlInv(s0, s', consumed', added', acc', rounds', maxPages, maxDepth, fetch, clock)
    ensures Walked(s0, s', consumed', maxPages, maxDepth, base, fetch, parse)
    ensures |s'.visited| == |s.visited| + 1 || (|s'.visited| == |s.visited| && |s'.queue| < |s.queue|)
  {
    var e := s.queue[0];
    var rest := s.(queue := s.queue[1..]);
    consumed' := consumed + [e];
    var f := Frontier(s.queue, s.visited, s.pageCount, consumed);
    if e.url in s.visited || e.depth > maxDepth {
      SkipInv(s0, s, consumed, added, acc, rounds, maxPages, maxDepth, fetch, clock);
      s', added', acc', rounds' := rest, added, acc, rounds;
      TurnSkip(f, maxDepth, base, fetch, parse);
    } else {
      s' := VisitEntry(rest, e, maxPages, base, fetch, parse, clock, rounds);
      VisitInv(s0, s, consumed, added, acc, rounds, maxPages, maxDepth, fetch, clock, s');
      added', acc', rounds' := added + s'.queue[|rest.queue|..], acc + [e], rounds + 1;
      TurnVisit(f, maxDepth, base, fetch, parse, s');
    }
    WalkedStep(s0, s, consumed, maxPages, maxDepth, base, fetch, parse, s');
  }

  /** The crawl loop, from state `s0`: breadth-first while the queue is
      not empty and fewer than `maxPages` pages are visited, then the
      `complete` message. */
  method CrawlLoop(s0: CrawlState, maxPages: int, maxDepth: int, base: string, fetch: string -> Option<PageData>,
                   parse: string -> Option<SplitUrl>, clock: nat -> real)
    returns (s: CrawlState, ghost consumed: seq<Entry>, ghost added: seq<Entry>, ghost acc: seq<Entry>)
    requires maxPages <= 50 && |s0.queue| <= 100 && |s0.visited| <= Max(maxPages, 0)
    ensures CrawlDone(s0, s, consumed, added, acc, maxPages, maxDepth, base, fetch, parse, clock)
  {
    s := s0;
    consumed := [];
    added := [];
    acc := [];
    var rounds: nat := 0;
    while s.queue != [] && |s.visited| < maxPages
      invariant CrawlInv(s0, s, consumed, added, acc, rounds, maxPages, maxDepth, fetch, clock)
      invariant Walked(s0, s, consumed, maxPages, maxDepth, base, fetch, parse)
      decreases maxPages - |s.visited|, |s.queue|
    {
      s, consumed, added, acc, rounds :=
        CrawlStep(s0, s, consumed, added, acc, rounds, maxPages, maxDepth, base, fetch, parse, clock);
    }
    CrawlFinished(s0, s, consumed, added, acc, maxPages, maxDepth, base, fetch, parse, clock);
    s := s.(trace := s.trace + [CompleteMsg(|s.visited|, |s.visited|, 0, clock(rounds))]);
  }

  class WebCrawler {
    var startUrl: string
    var maxDepth: int
    var maxPages: int
    var visited: set<string>
    var queue: seq<Entry>
    var pageCount: nat
    var trace: seq<Message>

    /** The page budget is at most 50, the queue at most 100 entries, and
        no more pages are visited than the budget allows. */
    ghost predicate Valid()
      reads this
    {
      maxPages <= 50 && |queue| <= 100 && |visited| <= Max(maxPages, 0)
    }

    /** `__init__`: the budget clamped to 50, nothing visited, the seed
        alone in the queue at depth 0 without parent. */
    constructor(startUrl: string, maxDepth: int, maxPages: int)
      ensures this.startUrl == startUrl && this.maxDepth == maxDepth
      ensures this.maxPages == (if maxPages < 50 then maxPages else 50)
      ensures visited == {} && queue == [Entry(startUrl, 0, None)] && pageCount == 0 && trace == []
      ensures Valid()
    {
      this.startUrl := startUrl;
      this.maxDepth := maxDepth;
      this.maxPages := if maxPages < 50 then maxPages else 50;
      visited := {};
      queue := [Entry(startUrl, 0, None)];
      pageCount := 0;
      trace := [];
    }

    /** `is_valid_url` against the start URL and the current visited set. */
    predicate IsValidUrl(parse: string -> Option<SplitUrl>, u: string)
      reads this
    {
      ValidLink(parse, startUrl, visited)(u)
    }

    /** `crawl`: breadth-first from the queue while it is not empty and the
        budget is not spent. `consumed` are the entries dequeued and `added`
        those enqueued. The trace gains one round of three messages per
        accepted entry, in order, and then the `complete` message. */
    method Crawl(fetch: string -> Option<PageData>, parse: string -> Option<SplitUrl>, clock: nat -> real)
      returns (ghost consumed: seq<Entry>, ghost added: seq<Entry>, ghost accepted: seq<Entry>)
      requires Valid()
      modifies this
      ensures Valid()
      ensures startUrl == old(startUrl) && maxDepth == old(maxDepth) && maxPages == old(maxPages)
      ensures CrawlDone(CrawlState(old(queue), old(visited), old(pageCount), old(trace)),
                        CrawlState(queue, visited, pageCount, trace), consumed, added, accepted, maxPages, maxDepth,
                        startUrl, fetch, parse, clock)
    {
      var s0 := CrawlState(queue, visited, pageCount, trace);
      var s;
      s, consumed, added, accepted := CrawlLoop(s0, maxPages, maxDepth, startUrl, fetch, parse, clock);
      queue, visited, pageCount, trace := s.queue, s.visited, s.pageCount, s.trace;
      assert CrawlState(queue, visited, pageCount, trace) == s;
    }
  }
}

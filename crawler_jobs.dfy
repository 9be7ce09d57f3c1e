/** The polling crawler: a crawl job is a record in the jobs collection
    holding its queue, the URLs it visited and one node per visited URL;
    each call of `process_job_batch` advances one job by a bounded batch of
    pages. Fetching is an oracle `fetch` (`None` for a failed page), `parse`
    stands for `urlparse`, and the wall clock enters as `expired` (whether
    the batch's time budget has run out at the n-th check) and `elapsed`
    (the batch's duration). */
module CrawlerJobs {
  import opened Wrappers
  import opened Strings
  import opened Counting
  import opened Urls
  import opened Crawl

  /** `'pending'`, `'running'` and `'completed'`. */
  datatype JobStatus = Pending | Running | Complete

  /** A node record; `title` and `linkCount` are present once the page was
      fetched. */
  datatype Node = Node(url: string, depth: nat, status: NodeStatus, parent: Option<string>,
                       title: Option<string>, linkCount: Option<nat>)

  datatype JobStats = JobStats(totalPages: nat, completedPages: nat, queueSize: nat, duration: real)

  datatype Job = Job(jobId: string, startUrl: string, maxDepth: int, maxPages: int, status: JobStatus,
                     stats: JobStats, queue: seq<Entry>, visited: seq<string>, nodes: seq<Node>)

  /** The record `create_job` inserts. */
  function NewJob(jobId: string, startUrl: string, maxDepth: int, maxPages: int): Job {
    Job(jobId, startUrl, maxDepth, maxPages, Pending, JobStats(0, 0, 1, 0.0),
        [Entry(startUrl, 0, None)], [], [])
  }

  /** The number of nodes with status `completed`. */
  function CountCompleted(nodes: seq<Node>): (n: nat)
    ensures n <= |nodes|
    ensures n == |nodes| <==> forall i :: 0 <= i < |nodes| ==> nodes[i].status == Completed
    decreases |nodes|
  {
    if nodes == [] then 0
    else
      var init := nodes[..|nodes| - 1];
      var c := CountCompleted(init);
      assert forall i :: 0 <= i < |init| ==> init[i] == nodes[i];
      c + (if nodes[|nodes| - 1].status == Completed then 1 else 0)
  }

  /** What holds of every job record between batches. */
  ghost predicate JobInvariant(job: Job) {
    && NoDuplicates(job.visited)
    && |job.nodes| == |job.visited|
    && (forall i :: 0 <= i < |job.nodes| ==> job.nodes[i].url == job.visited[i] && job.nodes[i].status != Crawling)
    && |job.queue| <= 100
    && |job.visited| <= Max(job.maxPages, 0)
    && (forall e :: e in job.queue ==> e.depth <= Max(job.maxDepth, 0))
    && job.stats.totalPages == |job.visited|
    && job.stats.completedPages == CountCompleted(job.nodes)
    && job.stats.queueSize == |job.queue|
  }

  /** A new job: the seed alone in the queue at depth 0 without parent,
      nothing visited, pending, with zero counts, and it satisfies the job
      invariant. */
  lemma NewJobValid(jobId: string, startUrl: string, maxDepth: int, maxPages: int)
    ensures JobInvariant(NewJob(jobId, startUrl, maxDepth, maxPages))
    ensures NewJob(jobId, startUrl, maxDepth, maxPages).stats.completedPages
            <= NewJob(jobId, startUrl, maxDepth, maxPages).stats.totalPages
  {
  }

  /** The accepted links filter: `_is_valid_url` against the start URL. */
  function Keep(parse: string -> Option<SplitUrl>, base: string): string -> bool {
    u => SameSite(parse, base, u)
  }

  /** The URLs of a sequence of entries. */
  function EntryUrls(es: seq<Entry>): (us: seq<string>)
    ensures |us| == |es|
    ensures forall i :: 0 <= i < |es| ==> us[i] == es[i].url
    decreases |es|
  {
    if es == [] then [] else EntryUrls(es[..|es| - 1]) + [es[|es| - 1].url]
  }

  /** The node an entry ends up as after its page is crawled. */
  function NodeFor(e: Entry, fetch: string -> Option<PageData>, parse: string -> Option<SplitUrl>, base: string)
    : (n: Node)
    ensures n.url == e.url && n.depth == e.depth && n.parent == e.parent
    ensures n.status == Completed <==> fetch(e.url).Some?
    ensures n.status != Crawling
  {
    match fetch(e.url)
    case None => Node(e.url, e.depth, Error, e.parent, None, None)
    case Some(p) =>
      Node(e.url, e.depth, Completed, e.parent, Some(p.title), Some(|PageLinks(p.anchors, Keep(parse, base))|))
  }

  function NodesFor(es: seq<Entry>, fetch: string -> Option<PageData>, parse: string -> Option<SplitUrl>, base: string)
    : (ns: seq<Node>)
    ensures |ns| == |es|
    ensures forall i :: 0 <= i < |es| ==> ns[i] == NodeFor(es[i], fetch, parse, base)
    decreases |es|
  {
    if es == [] then [] else NodesFor(es[..|es| - 1], fetch, parse, base) + [NodeFor(es[|es| - 1], fetch, parse, base)]
  }

  /** The dequeued entries that get crawled: those whose URL was not yet
      visited when they reached the front of the queue. */
  ghost function Fresh(visited: seq<string>, consumed: seq<Entry>): seq<Entry>
    decreases |consumed|
  {
    if consumed == [] then []
    else
      var f := Fresh(visited, consumed[..|consumed| - 1]);
      var e := consumed[|consumed| - 1];
      if e.url in visited + EntryUrls(f) then f else f + [e]
  }

  /** Crawled URLs are new and distinct. */
  lemma {:induction false} FreshDistinct(visited: seq<string>, consumed: seq<Entry>)
    requires NoDuplicates(visited)
    ensures NoDuplicates(visited + EntryUrls(Fresh(visited, consumed)))
    decreases |consumed|
  {
    if consumed != [] {
      var init := consumed[..|consumed| - 1];
      FreshDistinct(visited, init);
      var f := Fresh(visited, init);
      var e := consumed[|consumed| - 1];
      if e.url !in visited + EntryUrls(f) {
        assert visited + EntryUrls(f + [e]) == (visited + EntryUrls(f)) + [e.url];
        NoDuplicatesSnoc(visited + EntryUrls(f), e.url);
      }
    }
  }

  /** Each crawled entry is a dequeued one. */
  lemma {:induction false} FreshFrom(visited: seq<string>, consumed: seq<Entry>)
    ensures forall e :: e in Fresh(visited, consumed) ==> e in consumed
    decreases |consumed|
  {
    if consumed != [] {
      var init := consumed[..|consumed| - 1];
      FreshFrom(visited, init);
      assert forall x :: x in init ==> x in consumed;
    }
  }

  /** The queue after crawling an entry: the old queue with new entries at
      its end, at most 100 entries when the old one had no more, each new
      entry one level below the crawled one. */
  lemma PageEntriesSpec(queue: seq<Entry>, visited: seq<string>, current: Entry, maxDepth: int, base: string,
                        fetch: string -> Option<PageData>, parse: string -> Option<SplitUrl>)
    ensures var q := PageEntries(queue, visited, current, maxDepth, base, fetch, parse);
      && |queue| <= |q| && q == queue + q[|queue|..]
      && (|queue| <= 100 ==> |q| <= 100)
      && forall e :: e in q[|queue|..] ==> 1 <= e.depth <= maxDepth && e.parent == Some(current.url)
  {
    if fetch(current.url).Some? && current.depth < maxDepth {
      var links := Take(PageLinks(fetch(current.url).value.anchors, Keep(parse, base)), 10);
      EnqueueBelow(queue, links, (set u | u in visited), current.depth, current.url, maxDepth);
    }
  }

  /** The entries enqueued for a page above the depth limit. */
  lemma EnqueueBelow(queue: seq<Entry>, links: seq<string>, vs: set<string>, depth: nat, parent: string,
                     maxDepth: int)
    requires depth < maxDepth
    ensures var q := Enqueue(queue, links, vs, depth, parent);
      && |queue| <= |q| && q == queue + q[|queue|..]
      && (|queue| <= 100 ==> |q| <= 100)
      && forall e :: e in q[|queue|..] ==> 1 <= e.depth <= maxDepth && e.parent == Some(parent)
  {
    var q := Enqueue(queue, links, vs, depth, parent);
    EnqueueSpec(queue, links, vs, depth, parent);
    forall e | e in q[|queue|..] ensures 1 <= e.depth <= maxDepth && e.parent == Some(parent) {
      var i :| 0 <= i < |q| - |queue| && q[|queue|..][i] == e;
      assert Added(q[|queue| + i], links, vs, depth, parent);
    }
    assert q == queue + q[|queue|..];
  }

  /** The links a fetched page contributes to the queue. */
  function PageEntries(queue: seq<Entry>, visited: seq<string>, e: Entry, maxDepth: int, base: string,
                       fetch: string -> Option<PageData>, parse: string -> Option<SplitUrl>): seq<Entry>
  {
    match fetch(e.url)
    case Some(p) =>
      if e.depth < maxDepth then
        Enqueue(queue, Take(PageLinks(p.anchors, Keep(parse, base)), 10), (set u | u in visited), e.depth, e.url)
      else queue
    case None => queue
  }

  /** Crawling one newly visited entry: its node, and the queue with the
      first ten of its links that are not yet visited while there is room,
      when it lies above the depth limit. */
  method CrawlEntry(queue: seq<Entry>, visited: seq<string>, current: Entry, maxDepth: int, base: string,
                    fetch: string -> Option<PageData>, parse: string -> Option<SplitUrl>)
    returns (q: seq<Entry>, node: Node)
    ensures node == NodeFor(current, fetch, parse, base)
    ensures q == PageEntries(queue, visited, current, maxDepth, base, fetch, parse)
    ensures |queue| <= |q| && q == queue + q[|queue|..]
    ensures |queue| <= 100 ==> |q| <= 100
    ensures forall e :: e in q[|queue|..] ==> 1 <= e.depth <= maxDepth && e.parent == Some(current.url)
  {
    q := queue;
    var page := fetch(current.url);
    if page.Some? {
      var links := CollectLinks(page.value.anchors, Keep(parse, base));
      node := Node(current.url, current.depth, Completed, current.parent, Some(page.value.title), Some(|links|));
      if current.depth < maxDepth {
        q := EnqueueLinks(queue, Take(links, 10), (set u | u in visited), current.depth, current.url);
      }
    } else {
      node := Node(current.url, current.depth, Error, current.parent, None, None);
    }
    PageEntriesSpec(queue, visited, current, maxDepth, base, fetch, parse);
  }

  /** What one batch of `process_job_batch` does to a job that is not
      `completed`, with `consumed` the entries taken off the front of the
      queue and `added` those appended:
      - the job's identity and limits stay as they were;
      - the queue is first in, first out;
      - the crawled entries' URLs and nodes are appended to `visited` and
        `nodes`, and at most `batchSize` pages are crawled;
      - the loop turns are exactly those `Steps` takes until the batch
        stops (`BatchRun`), which fixes what was appended: the unvisited
        links among the first ten of each fetched page above the depth
        limit, while the queue has room;
      - page budget, queue length and depths stay in bounds;
      - the statistics and the status are set from the new state, and the
        duration grows by `elapsed`. */
  ghost predicate BatchOf(job: Job, r: Job, consumed: seq<Entry>, added: seq<Entry>, batchSize: int,
                          fetch: string -> Option<PageData>, parse: string -> Option<SplitUrl>,
                          expired: nat -> bool, elapsed: real)
  {
    && r.jobId == job.jobId && r.startUrl == job.startUrl
    && r.maxDepth == job.maxDepth && r.maxPages == job.maxPages
    && job.queue + added == consumed + r.queue
    && r.visited == job.visited + EntryUrls(Fresh(job.visited, consumed))
    && r.nodes == job.nodes + NodesFor(Fresh(job.visited, consumed), fetch, parse, job.startUrl)
    && |r.visited| <= |job.visited| + Max(batchSize, 0)
    && BatchRun(job, Progress(r.queue, r.visited, r.nodes), consumed, batchSize, fetch, parse, expired)
    && (forall e :: e in added ==> 1 <= e.depth <= job.maxDepth && e.parent.Some? && e.parent.value in r.visited)
    && (|job.visited| <= Max(job.maxPages, 0) ==> |r.visited| <= Max(job.maxPages, 0))
    && (|job.queue| <= 100 ==> |r.queue| <= 100)
    && r.stats == JobStats(|r.visited|, CountCompleted(r.nodes), |r.queue|, job.stats.duration + elapsed)
    && r.status == (if r.queue == [] || |r.visited| >= job.maxPages then Complete else Pending)
  }

  /** A batch is determined by its inputs: the job it leaves, the entries
      it dequeues and the entries it appends are the same for every run
      that meets `BatchOf`. */
  lemma BatchDetermined(job: Job, batchSize: int, fetch: string -> Option<PageData>,
                        parse: string -> Option<SplitUrl>, expired: nat -> bool, elapsed: real,
                        r1: Job, consumed1: seq<Entry>, added1: seq<Entry>,
                        r2: Job, consumed2: seq<Entry>, added2: seq<Entry>)
    requires BatchOf(job, r1, consumed1, added1, batchSize, fetch, parse, expired, elapsed)
    requires BatchOf(job, r2, consumed2, added2, batchSize, fetch, parse, expired, elapsed)
    ensures r1 == r2 && consumed1 == consumed2 && added1 == added2
  {
    var p1 := Progress(r1.queue, r1.visited, r1.nodes);
    var p2 := Progress(r2.queue, r2.visited, r2.nodes);
    assert |consumed1| == |consumed2|;
    assert Batch(p1, consumed1) == Batch(p2, consumed2);
    assert job.queue + added1 == job.queue + added2;
    assert added1 == (job.queue + added1)[|job.queue|..];
    assert added2 == (job.queue + added2)[|job.queue|..];
  }

  /** One batch of `process_job_batch` on a job that is not `completed`. */
  method RunBatch(job: Job, batchSize: int, fetch: string -> Option<PageData>, parse: string -> Option<SplitUrl>,
                  expired: nat -> bool, elapsed: real)
    returns (r: Job, ghost consumed: seq<Entry>, ghost added: seq<Entry>)
    ensures BatchOf(job, r, consumed, added, batchSize, fetch, parse, expired, elapsed)
    ensures JobInvariant(job) ==> JobInvariant(r)
  {
    var p;
    p, consumed, added := BatchLoop(job, batchSize, fetch, parse, expired);
    var stats := JobStats(|p.visited|, CountCompleted(p.nodes), |p.queue|, job.stats.duration + elapsed);
    var status := if p.queue == [] || |p.visited| >= job.maxPages then Complete else Pending;
    r := job.(status := status, stats := stats, queue := p.queue, visited := p.visited, nodes := p.nodes);
    assert Progress(r.queue, r.visited, r.nodes) == p;
    if JobInvariant(job) {
      InvariantAfterBatch(job, r, consumed, added, fetch, parse);
    }
  }

  /** The loop of a batch: entries are dequeued until the queue is empty,
      `batchSize` new pages are crawled, the page budget is spent or the
      timeout fires. */
  method BatchLoop(job: Job, batchSize: int, fetch: string -> Option<PageData>, parse: string -> Option<SplitUrl>,
                   expired: nat -> bool)
    returns (p: Progress, ghost consumed: seq<Entry>, ghost added: seq<Entry>)
    ensures Reached(job, p, consumed, added, fetch, parse)
    ensures BatchRun(job, p, consumed, batchSize, fetch, parse, expired)
    ensures |Fresh(job.visited, consumed)| <= Max(batchSize, 0)
  {
    p := Progress(job.queue, job.visited, job.nodes);
    consumed := [];
    added := [];
    var processed := 0;
    var checks: nat := 0;
    while p.queue != [] && processed < batchSize
      invariant Reached(job, p, consumed, added, fetch, parse)
      invariant processed == |Fresh(job.visited, consumed)| <= Max(batchSize, 0)
      invariant checks == |consumed| && Walked(job, p, consumed, batchSize, fetch, parse, expired)
      decreases batchSize - processed, |p.queue|
    {
      if expired(checks) {
        break;
      }
      checks := checks + 1;
      if |p.visited| >= job.maxPages {
        break;
      }
      var skipped;
      ghost var p0, consumed0 := p, consumed;
      p, skipped, consumed, added := Advance(job, p, consumed, added, fetch, parse);
      WalkedStep(job, p0, consumed0, batchSize, fetch, parse, expired, p);
      if !skipped {
        processed := processed + 1;
      }
    }
  }

  /** The batch loop's state together with the entries dequeued so far. */
  datatype Batch = Batch(progress: Progress, consumed: seq<Entry>)

  /** One turn of the batch loop past its checks, as a function: the front
      entry is dequeued; unless its URL is visited it is crawled, its node
      appended and the links of its page enqueued. */
  ghost function Step(job: Job, b: Batch, fetch: string -> Option<PageData>, parse: string -> Option<SplitUrl>)
    : Batch
  {
    var p := b.progress;
    if p.queue == [] then b
    else
      var e := p.queue[0];
      if e.url in p.visited then Batch(p.(queue := p.queue[1..]), b.consumed + [e])
      else
        var visited := p.visited + [e.url];
        Batch(Progress(PageEntries(p.queue[1..], visited, e, job.maxDepth, job.startUrl, fetch, parse), visited,
                       p.nodes + [NodeFor(e, fetch, parse, job.startUrl)]),
              b.consumed + [e])
  }

  /** The state after `n` turns from the job as stored. */
  ghost function Steps(job: Job, n: nat, fetch: string -> Option<PageData>, parse: string -> Option<SplitUrl>)
    : Batch
    decreases n
  {
    if n == 0 then Batch(Progress(job.queue, job.visited, job.nodes), [])
    else Step(job, Steps(job, n - 1, fetch, parse), fetch, parse)
  }

  /** Whether the loop takes another turn from `b`: the queue is not empty,
      fewer than `batchSize` pages were crawled, the timeout has not fired
      at this check and the page budget is not spent. */
  ghost predicate Goes(job: Job, b: Batch, batchSize: int, expired: nat -> bool) {
    && b.progress.queue != [] && |Fresh(job.visited, b.consumed)| < batchSize
    && !expired(|b.consumed|) && |b.progress.visited| < job.maxPages
  }

  /** The loop took `|consumed|` turns and reached `p`, every turn was
      allowed, and the loop may stop at `p`. */
  ghost predicate BatchRun(job: Job, p: Progress, consumed: seq<Entry>, batchSize: int,
                           fetch: string -> Option<PageData>, parse: string -> Option<SplitUrl>,
                           expired: nat -> bool)
  {
    && Walked(job, p, consumed, batchSize, fetch, parse, expired)
    && !Goes(job, Batch(p, consumed), batchSize, expired)
  }

  /** The loop took `|consumed|` allowed turns and reached `p`. */
  ghost predicate Walked(job: Job, p: Progress, consumed: seq<Entry>, batchSize: int,
                         fetch: string -> Option<PageData>, parse: string -> Option<SplitUrl>,
                         expired: nat -> bool)
  {
    && Steps(job, |consumed|, fetch, parse) == Batch(p, consumed)
    && forall i :: 0 <= i < |consumed| ==> Goes(job, Steps(job, i, fetch, parse), batchSize, expired)
  }

  /** An allowed turn extends the walk by one step. */
  lemma WalkedStep(job: Job, p: Progress, consumed: seq<Entry>, batchSize: int,
                   fetch: string -> Option<PageData>, parse: string -> Option<SplitUrl>, expired: nat -> bool,
                   p': Progress)
    requires Walked(job, p, consumed, batchSize, fetch, parse, expired)
    requires Goes(job, Batch(p, consumed), batchSize, expired)
    requires Batch(p', consumed + [p.queue[0]]) == Step(job, Batch(p, consumed), fetch, parse)
    ensures Walked(job, p', consumed + [p.queue[0]], batchSize, fetch, parse, expired)
  {
    var n := |consumed|;
    assert Steps(job, n + 1, fetch, parse) == Step(job, Steps(job, n, fetch, parse), fetch, parse);
    forall i | 0 <= i < n + 1 ensures Goes(job, Steps(job, i, fetch, parse), batchSize, expired) {
      if i == n {
        assert Steps(job, i, fetch, parse) == Batch(p, consumed);
      }
    }
  }

  /** The loop state of a batch: queue, visited URLs and nodes. */
  datatype Progress = Progress(queue: seq<Entry>, visited: seq<string>, nodes: seq<Node>)

  /** What the batch loop keeps: the queue is what was queued or added less
      what was dequeued, visited URLs and nodes grow by the crawled entries,
      and the bounds on pages, queue length and depth hold. */
  ghost predicate Reached(job: Job, p: Progress, consumed: seq<Entry>, added: seq<Entry>,
                          fetch: string -> Option<PageData>, parse: string -> Option<SplitUrl>)
  {
    QueueKept(job, p, consumed, added) && ListsKept(job, p, consumed, fetch, parse)
  }

  ghost predicate QueueKept(job: Job, p: Progress, consumed: seq<Entry>, added: seq<Entry>) {
    && job.queue + added == consumed + p.queue
    && (|job.visited| <= Max(job.maxPages, 0) ==> |p.visited| <= Max(job.maxPages, 0))
    && (|job.queue| <= 100 ==> |p.queue| <= 100)
    && (forall e :: e in added ==> 1 <= e.depth <= job.maxDepth && e.parent.Some? && e.parent.value in p.visited)
  }

  ghost predicate ListsKept(job: Job, p: Progress, consumed: seq<Entry>,
                            fetch: string -> Option<PageData>, parse: string -> Option<SplitUrl>)
  {
    && p.visited == job.visited + EntryUrls(Fresh(job.visited, consumed))
    && p.nodes == job.nodes + NodesFor(Fresh(job.visited, consumed), fetch, parse, job.startUrl)
  }

  /** One more dequeued entry. */
  lemma FreshSnoc(visited: seq<string>, consumed: seq<Entry>, e: Entry)
    ensures Fresh(visited, consumed + [e]) ==
      if e.url in visited + EntryUrls(Fresh(visited, consumed)) then Fresh(visited, consumed)
      else Fresh(visited, consumed) + [e]
  {
    assert (consumed + [e])[..|consumed|] == consumed;
  }

  /** One turn of the batch loop past its two `break`s: the front entry is
      dequeued and, unless already visited, crawled. */
  method Advance(job: Job, p: Progress, ghost consumed: seq<Entry>, ghost added: seq<Entry>,
                 fetch: string -> Option<PageData>, parse: string -> Option<SplitUrl>)
    returns (p': Progress, skipped: bool, ghost consumed': seq<Entry>, ghost added': seq<Entry>)
    requires Reached(job, p, consumed, added, fetch, parse)
    requires p.queue != [] && |p.visited| < job.maxPages
    ensures Reached(job, p', consumed', added', fetch, parse)
    ensures consumed' == consumed + [p.queue[0]]
    ensures skipped <==> p.queue[0].url in p.visited
    ensures |Fresh(job.visited, consumed')| == |Fresh(job.visited, consumed)| + (if skipped then 0 else 1)
    ensures skipped ==> p'.queue == p.queue[1..]
    ensures Batch(p', consumed') == Step(job, Batch(p, consumed), fetch, parse)
  {
    var current := p.queue[0];
    var queue := p.queue[1..];
    consumed' := consumed + [current];
    FreshSnoc(job.visited, consumed, current);
    if current.url in p.visited {
      skipped := true;
      p' := p.(queue := queue);
      added' := added;
      SkipKeeps(job, p, consumed, added, fetch, parse);
      return;
    }
    skipped := false;
    var visited := p.visited + [current.url];
    var q, node := CrawlEntry(queue, visited, current, job.maxDepth, job.startUrl, fetch, parse);
    added' := added + q[|queue|..];
    p' := Progress(q, visited, p.nodes + [node]);
    VisitKeeps(job, p, consumed, added, fetch, parse, q, node);
  }

  /** Dropping an entry already visited keeps the loop state. */
  lemma SkipKeeps(job: Job, p: Progress, consumed: seq<Entry>, added: seq<Entry>,
                  fetch: string -> Option<PageData>, parse: string -> Option<SplitUrl>)
    requires Reached(job, p, consumed, added, fetch, parse)
    requires p.queue != [] && p.queue[0].url in p.visited
    ensures Reached(job, p.(queue := p.queue[1..]), consumed + [p.queue[0]], added, fetch, parse)
  {
    var current := p.queue[0];
    assert p.queue == [current] + p.queue[1..];
    ConcatAssoc(consumed, [current], p.queue[1..]);
    FreshSnoc(job.visited, consumed, current);
    assert Fresh(job.visited, consumed + [current]) == Fresh(job.visited, consumed);
  }

  /** Crawling a new entry keeps the loop state. */
  lemma VisitKeeps(job: Job, p: Progress, consumed: seq<Entry>, added: seq<Entry>,
                   fetch: string -> Option<PageData>, parse: string -> Option<SplitUrl>, q: seq<Entry>, node: Node)
    requires Reached(job, p, consumed, added, fetch, parse)
    requires p.queue != [] && p.queue[0].url !in p.visited && |p.visited| < job.maxPages
    requires node == NodeFor(p.queue[0], fetch, parse, job.startUrl)
    requires |p.queue[1..]| <= |q| && q == p.queue[1..] + q[|p.queue[1..]|..]
    requires |p.queue[1..]| <= 100 ==> |q| <= 100
    requires forall e :: e in q[|p.queue[1..]|..] ==> 1 <= e.depth <= job.maxDepth && e.parent == Some(p.queue[0].url)
    ensures Reached(job, Progress(q, p.visited + [p.queue[0].url], p.nodes + [node]),
                    consumed + [p.queue[0]], added + q[|p.queue[1..]|..], fetch, parse)
  {
    var p' := Progress(q, p.visited + [p.queue[0].url], p.nodes + [node]);
    VisitQueue(job, p, consumed, added, q, p');
    VisitLists(job, p, consumed, fetch, parse, node, p');
  }

  lemma VisitQueue(job: Job, p: Progress, consumed: seq<Entry>, added: seq<Entry>, q: seq<Entry>, p': Progress)
    requires QueueKept(job, p, consumed, added)
    requires p.queue != [] && |p.visited| < job.maxPages
    requires p' == Progress(q, p.visited + [p.queue[0].url], p'.nodes)
    requires |p.queue[1..]| <= |q| && q == p.queue[1..] + q[|p.queue[1..]|..]
    requires |p.queue[1..]| <= 100 ==> |q| <= 100
    requires forall e :: e in q[|p.queue[1..]|..] ==> 1 <= e.depth <= job.maxDepth && e.parent == Some(p.queue[0].url)
    ensures QueueKept(job, p', consumed + [p.queue[0]], added + q[|p.queue[1..]|..])
  {
    var current := p.queue[0];
    var queue := p.queue[1..];
    var ext := q[|queue|..];
    assert job.queue + (added + ext) == (job.queue + added) + ext;
    assert consumed + p.queue == (consumed + [current]) + queue;
    assert forall e :: e in added + ext ==>
      1 <= e.depth <= job.maxDepth && e.parent.Some? && e.parent.value in p'.visited;
  }

  lemma VisitLists(job: Job, p: Progress, consumed: seq<Entry>,
                   fetch: string -> Option<PageData>, parse: string -> Option<SplitUrl>, node: Node, p': Progress)
    requires ListsKept(job, p, consumed, fetch, parse)
    requires p.queue != [] && p.queue[0].url !in p.visited
    requires node == NodeFor(p.queue[0], fetch, parse, job.startUrl)
    requires p'.visited == p.visited + [p.queue[0].url] && p'.nodes == p.nodes + [node]
    ensures ListsKept(job, p', consumed + [p.queue[0]], fetch, parse)
  {
    var current := p.queue[0];
    var crawled := Fresh(job.visited, consumed);
    FreshSnoc(job.visited, consumed, current);
    assert Fresh(job.visited, consumed + [current]) == crawled + [current];
    assert EntryUrls(crawled + [current]) == EntryUrls(crawled) + [current.url] by {
      assert (crawled + [current])[..|crawled|] == crawled;
    }
    ConcatAssoc(job.visited, EntryUrls(crawled), [current.url]);
    assert NodesFor(crawled + [current], fetch, parse, job.startUrl)
        == NodesFor(crawled, fetch, parse, job.startUrl) + [node] by {
      assert (crawled + [current])[..|crawled|] == crawled;
    }
    ConcatAssoc(job.nodes, NodesFor(crawled, fetch, parse, job.startUrl), [node]);
  }

  /** The state a batch leaves satisfies the job invariant again. */
  lemma InvariantAfterBatch(job: Job, r: Job, consumed: seq<Entry>, added: seq<Entry>,
                            fetch: string -> Option<PageData>, parse: string -> Option<SplitUrl>)
    requires JobInvariant(job)
    requires r.maxDepth == job.maxDepth && r.maxPages == job.maxPages
    requires job.queue + added == consumed + r.queue
    requires r.visited == job.visited + EntryUrls(Fresh(job.visited, consumed))
    requires r.nodes == job.nodes + NodesFor(Fresh(job.visited, consumed), fetch, parse, job.startUrl)
    requires forall e :: e in added ==> e.depth <= job.maxDepth
    requires |r.visited| <= Max(job.maxPages, 0) && |r.queue| <= 100
    requires r.stats.totalPages == |r.visited| && r.stats.completedPages == CountCompleted(r.nodes)
    requires r.stats.queueSize == |r.queue|
    ensures JobInvariant(r)
  {
    var f := Fresh(job.visited, consumed);
    FreshDistinct(job.visited, consumed);
    FreshFrom(job.visited, consumed);
    AlignedAppend(job.nodes, job.visited, f, fetch, parse, job.startUrl);
    forall e | e in r.queue ensures e.depth <= Max(r.maxDepth, 0) {
      assert e in consumed + r.queue;
      assert e in job.queue + added;
    }
  }

  /** Nodes and URLs of the crawled entries stay in step with those before. */
  lemma AlignedAppend(nodes: seq<Node>, visited: seq<string>, es: seq<Entry>,
                      fetch: string -> Option<PageData>, parse: string -> Option<SplitUrl>, base: string)
    requires |nodes| == |visited|
    requires forall i :: 0 <= i < |nodes| ==> nodes[i].url == visited[i] && nodes[i].status != Crawling
    ensures |nodes + NodesFor(es, fetch, parse, base)| == |visited + EntryUrls(es)|
    ensures forall i :: 0 <= i < |nodes + NodesFor(es, fetch, parse, base)| ==>
      (nodes + NodesFor(es, fetch, parse, base))[i].url == (visited + EntryUrls(es))[i]
      && (nodes + NodesFor(es, fetch, parse, base))[i].status != Crawling
  {
    var ns := nodes + NodesFor(es, fetch, parse, base);
    var us := visited + EntryUrls(es);
    forall i | 0 <= i < |ns| ensures ns[i].url == us[i] && ns[i].status != Crawling {
      if i >= |nodes| {
        assert ns[i] == NodesFor(es, fetch, parse, base)[i - |nodes|];
        assert us[i] == EntryUrls(es)[i - |nodes|];
      }
    }
  }

  /** The answer of `process_job_batch`. */
  datatype BatchResult = JobNotFound | JobState(job: Job)

  /** The jobs collection, keyed by job id. */
  class CrawlerJobManager {
    var jobs: map<string, Job>

    /** Every stored job is filed under its own id and satisfies the job
        invariant. */
    ghost predicate Valid()
      reads this
    {
      forall id :: id in jobs ==> jobs[id].jobId == id && JobInvariant(jobs[id])
    }

    constructor()
      ensures jobs == map[] && Valid()
    {
      jobs := map[];
    }

    /** `create_job`; `jobId` is the crawled identifier `uuid4` draws. */
    method CreateJob(jobId: string, startUrl: string, maxDepth: int, maxPages: int) returns (id: string)
      requires Valid() && jobId !in jobs
      modifies this
      ensures Valid()
      ensures id == jobId && jobs == old(jobs)[jobId := NewJob(jobId, startUrl, maxDepth, maxPages)]
    {
      NewJobValid(jobId, startUrl, maxDepth, maxPages);
      jobs := jobs[jobId := NewJob(jobId, startUrl, maxDepth, maxPages)];
      id := jobId;
    }

    /** `process_job_batch`: an error for an unknown job, a completed job
        as it is, otherwise one batch, stored back under the job's id, with
        `consumed` the entries it dequeued and `added` those it enqueued. */
    method ProcessJobBatch(jobId: string, batchSize: int, fetch: string -> Option<PageData>,
                           parse: string -> Option<SplitUrl>, expired: nat -> bool, elapsed: real)
      returns (r: BatchResult, ghost consumed: seq<Entry>, ghost added: seq<Entry>)
      requires Valid()
      modifies this
      ensures Valid()
      ensures jobId !in old(jobs) ==> r == JobNotFound && jobs == old(jobs)
      ensures jobId in old(jobs) && old(jobs)[jobId].status == Complete ==>
        r == JobState(old(jobs)[jobId]) && jobs == old(jobs)
      ensures jobId in old(jobs) && old(jobs)[jobId].status != Complete ==>
        r.JobState? && jobs == old(jobs)[jobId := r.job]
        && BatchOf(old(jobs)[jobId], r.job, consumed, added, batchSize, fetch, parse, expired, elapsed)
        && (elapsed >= 0.0 ==> r.job.stats.duration >= old(jobs)[jobId].stats.duration)
    {
      consumed, added := [], [];
      if jobId !in jobs {
        r := JobNotFound;
        return;
      }
      var job := jobs[jobId];
      if job.status == Complete {
        r := JobState(job);
        return;
      }
      var after;
      after, consumed, added := RunBatch(job, batchSize, fetch, parse, expired, elapsed);
      jobs := jobs[jobId := after];
      r := JobState(after);
    }
  }
}

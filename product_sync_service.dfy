/** The sync runs (services/productSyncService.js): a run by SKU list, a run
    over every store product and a run over the products of a date range,
    each streaming its log to the browser as server-sent events, mailing a
    summary and saving a history entry.

    The store and the CRM are oracles. A run is given the replies of the
    calls it makes: `replies(k)` are the replies the k-th reconciliation
    receives (k counts products in the order the run meets them),
    `lookup(i)` is what `getProductBySKU` answers for the i-th SKU, and a
    page source is the finite list of what successive page fetches return.
    The tasks the source runs five at a time are run one after another, in
    list order. */
module ProductSyncService {
  import opened Js
  import opened Text
  import opened HubSpot
  import opened HistoryLogger

  // ---------------------------------------------------------------------
  // The event stream and its logger

  /** The event the logger writes for a message: its newlines become spaces,
      so the message stays one `data:` line. */
  function Frame(message: string): string {
    "data: " + ReplaceNewlines(message) + "\n\n"
  }

  /** The events the logger writes for successive messages. */
  function Frames(messages: seq<string>): (r: seq<string>)
    ensures |r| == |messages|
  {
    if messages == [] then [] else Frames(messages[..|messages| - 1]) + [Frame(messages[|messages| - 1])]
  }

  /** Every logged message is exactly one event: a `data:` field holding no
      line break, then the blank line that ends the event. */
  lemma FrameIsOneEvent(message: string)
    ensures var f := Frame(message);
      && |f| == |message| + 8
      && f[..6] == "data: " && f[|f| - 2..] == "\n\n"
      && forall i :: 6 <= i < |f| - 2 ==> f[i] != '\n'
  {
    var d := ReplaceNewlines(message);
    var f := Frame(message);
    assert f == "data: " + d + "\n\n";
    forall i | 6 <= i < |f| - 2 ensures f[i] != '\n' {
      assert f[i] == d[i - 6];
    }
  }

  lemma {:induction false} FramesAppend(a: seq<string>, b: seq<string>)
    ensures Frames(a + b) == Frames(a) + Frames(b)
    decreases |b|
  {
    if b == [] {
      assert a + b == a;
    } else {
      var b' := b[..|b| - 1];
      FramesAppend(a, b');
      assert (a + b)[..|a + b| - 1] == a + b';
    }
  }

  /** The response the events are written to. */
  class Response {
    /** The chunks written, in order. */
    var frames: seq<string>
    /** `res.writableEnded`. */
    var ended: bool

    constructor ()
      ensures frames == [] && !ended
    {
      frames := [];
      ended := false;
    }

    /** The logger `createLogger(res)` returns: it writes the message as an
        event unless the response has ended. */
    method Log(message: string)
      modifies this
      ensures frames == old(frames) + (if old(ended) then [] else [Frame(message)])
      ensures ended == old(ended)
    {
      if !ended {
        frames := frames + [Frame(message)];
      }
    }

    /** The logger applied to each message in turn. */
    method LogAll(messages: seq<string>)
      modifies this
      ensures frames == old(frames) + (if old(ended) then [] else Frames(messages))
      ensures ended == old(ended)
    {
      for i := 0 to |messages|
        invariant frames == old(frames) + (if old(ended) then [] else Frames(messages[..i]))
        invariant ended == old(ended)
      {
        Log(messages[i]);
        assert messages[..i + 1] == messages[..i] + [messages[i]];
        FramesAppend(messages[..i], [messages[i]]);
      }
      assert messages[..|messages|] == messages;
    }

    /** `res.write(text)`, without the logger's newline replacement. */
    method Write(text: string)
      modifies this
      ensures frames == old(frames) + [text] && ended == old(ended)
    {
      frames := frames + [text];
    }

    /** `res.end()`. */
    method End()
      modifies this
      ensures frames == old(frames) && ended
    {
      ended := true;
    }
  }

  // ---------------------------------------------------------------------
  // Messages

  const StartAll := "\U{1F501} Starting sync of all products..."
  const CancelLine := "\U{26D4} Sync cancelled by user."
  const EndLog := "--- END LOG ---"
  const SkuDone := "\U{2705} SKU sync complete!"
  const NotFound := "Product not found in Shopify"

  function StartRange(startDate: string, endDate: string): string {
    "\U{1F501} Starting sync of products between " + startDate + " and " + endDate + "..."
  }

  function ProgressLine(processed: nat, total: nat): string {
    "\U{1F4E6} Progress: " + NatToString(processed) + " / " + NatToString(total)
  }

  function NotFoundLine(sku: string): string {
    Cross + " Could not find product for SKU: " + sku
  }

  function SyncedLine(count: nat): string {
    "\U{2705} Synced " + NatToString(count) + " products to HubSpot."
  }

  /** The closing event of a date-range run: `FINAL:` and the JSON object
      with the completion message and the failure count. */
  function FinalFrame(count: nat, failedCount: nat): string {
    "data: FINAL:{\"message\":\"Synced " + NatToString(count) + " products to HubSpot.\",\"failedCount\":"
      + NatToString(failedCount) + "}\n\n"
  }

  // ---------------------------------------------------------------------
  // SKU input

  /** The `skus` argument: one text, or a list of texts. */
  datatype SkuInput = SkuText(text: string) | SkuList(items: seq<string>)

  /** `s.trim().split(/\s+/)`. */
  function SplitSku(s: string): (skus: seq<string>)
    ensures |skus| >= 1
  {
    SplitSpaces(Trim(s))
  }

  function FlatSplit(items: seq<string>): seq<string> {
    if items == [] then [] else SplitSku(items[0]) + FlatSplit(items[1..])
  }

  /** The SKU list a SKU run works through: no SKU holds white space, and
      the SKUs together spell the input without its white space. */
  function NormalizeSkus(input: SkuInput): (skus: seq<string>)
    ensures forall p :: p in skus ==> NoSpace(p)
    ensures input.SkuText? ==> |skus| >= 1 && Concat(skus) == RemoveSpaces(input.text)
    ensures input.SkuList? ==> Concat(skus) == RemoveSpaces(Concat(input.items))
  {
    match input
    case SkuText(t) =>
      SplitSkuShape(t);
      SplitSkuKeepsText(t);
      SplitSku(t)
    case SkuList(items) =>
      FlatSplitNoSpace(items);
      FlatSplitKeepsText(items);
      FlatSplit(items)
  }

  /** A blank text gives the single SKU "", which the run then looks up; any
      other text gives SKUs that are neither empty nor hold a space. */
  lemma SplitSkuShape(s: string)
    ensures IsBlank(s) ==> SplitSku(s) == [""]
    ensures !IsBlank(s) ==> forall p :: p in SplitSku(s) ==> p != "" && NoSpace(p)
  {
    var t := Trim(s);
    SplitSpacesNoSpace(t);
    if !IsBlank(s) {
      SplitSpacesNonEmpty(t);
    }
  }

  /** `trim` removes nothing but spaces. */
  lemma RemoveSpacesOfTrim(s: string)
    ensures RemoveSpaces(Trim(s)) == RemoveSpaces(s)
  {
    RemoveSpacesOfTrimStart(s);
    RemoveSpacesOfTrimEnd(TrimStart(s));
  }

  lemma RemoveSpacesOfTrimStart(s: string)
    ensures RemoveSpaces(TrimStart(s)) == RemoveSpaces(s)
  {
    var k := |s| - |TrimStart(s)|;
    CutAt(s, k);
    RemoveSpacesOfSpaces(s[..k]);
    RemoveSpacesAppend(s[..k], s[k..]);
  }

  lemma RemoveSpacesOfTrimEnd(a: string)
    ensures RemoveSpaces(TrimEnd(a)) == RemoveSpaces(a)
  {
    var k := |TrimEnd(a)|;
    CutAt(a, k);
    RemoveSpacesOfSpaces(a[k..]);
    RemoveSpacesAppend(a[..k], a[k..]);
  }

  lemma CutAt(s: string, k: int)
    requires 0 <= k <= |s|
    ensures s == s[..k] + s[k..]
  {
  }

  /** Splitting a SKU text loses nothing but whitespace. */
  lemma SplitSkuKeepsText(s: string)
    ensures Concat(SplitSku(s)) == RemoveSpaces(s)
  {
    SplitSpacesConcat(Trim(s));
    RemoveSpacesOfTrim(s);
  }

  lemma {:induction false} ConcatAppend(a: seq<string>, b: seq<string>)
    ensures Concat(a + b) == Concat(a) + Concat(b)
    decreases |a|
  {
    if a == [] {
      assert a + b == b;
    } else {
      ConcatAppend(a[1..], b);
      assert (a + b)[1..] == a[1..] + b;
    }
  }

  /** The SKUs of a list, put back together, are the list's texts put
      together without their whitespace. */
  lemma {:induction false} FlatSplitKeepsText(items: seq<string>)
    ensures Concat(FlatSplit(items)) == RemoveSpaces(Concat(items))
    decreases |items|
  {
    if items != [] {
      var head, rest := SplitSku(items[0]), FlatSplit(items[1..]);
      FlatSplitKeepsText(items[1..]);
      SplitSkuKeepsText(items[0]);
      ConcatAppend(head, rest);
      RemoveSpacesAppend(items[0], Concat(items[1..]));
      assert FlatSplit(items) == head + rest;
      assert Concat(items) == items[0] + Concat(items[1..]);
    }
  }

  /** No SKU of a list holds a space. */
  lemma {:induction false} FlatSplitNoSpace(items: seq<string>)
    ensures forall p :: p in FlatSplit(items) ==> NoSpace(p)
    decreases |items|
  {
    if items != [] {
      var head, rest := SplitSku(items[0]), FlatSplit(items[1..]);
      FlatSplitNoSpace(items[1..]);
      SplitSpacesNoSpace(Trim(items[0]));
      assert FlatSplit(items) == head + rest;
    }
  }

  // ---------------------------------------------------------------------
  // processProducts

  /** One product of a listing page: its cursor, its id and its first
      variant's SKU. */
  datatype Edge = Edge(cursor: string, nodeId: string, sku: Option<string>)

  datatype Page = Page(edges: seq<Edge>, hasNextPage: bool)

  /** What one task of a batch did: nothing visible (it threw before its
      first log), or a reconciliation-like outcome. */
  datatype Task = Skipped | Done(outcome: Reconciliation)

  /** What a batch of tasks leaves: the calls made, the messages logged, the
      failures pushed, and the progress counter. */
  datatype Effect = Effect(calls: seq<Call>, messages: seq<string>, failures: seq<Failure>, processed: nat)

  function FailureList(f: Option<Failure>): seq<Failure> {
    if f.Some? then [f.value] else []
  }

  /** The batch extended by one more task: a task that completes adds its
      calls and logs, its failure if any, and then the progress line with
      the counter it has just incremented. */
  function Extend(prev: Effect, t: Task, total: nat): Effect {
    match t
    case Skipped => prev
    case Done(r) =>
      Effect(prev.calls + r.calls,
        prev.messages + (r.logs + [ProgressLine(prev.processed + 1, total)]),
        prev.failures + FailureList(r.failure),
        prev.processed + 1)
  }

  /** A batch run task by task. */
  function Combine(tasks: seq<Task>, processed: nat, total: nat): (e: Effect)
    ensures processed <= e.processed <= processed + |tasks|
    ensures |e.failures| <= e.processed - processed
    decreases |tasks|
  {
    if tasks == [] then Effect([], [], [], processed)
    else Extend(Combine(tasks[..|tasks| - 1], processed, total), tasks[|tasks| - 1], total)
  }

  /** Every failure of a batch is the failure of one of its completed tasks. */
  lemma {:induction false} FailureOrigin(tasks: seq<Task>, processed: nat, total: nat, j: int) returns (k: int)
    requires 0 <= j < |Combine(tasks, processed, total).failures|
    ensures 0 <= k < |tasks| && tasks[k].Done?
    ensures tasks[k].outcome.failure == Some(Combine(tasks, processed, total).failures[j])
    decreases |tasks|
  {
    var n := |tasks| - 1;
    var prev := Combine(tasks[..n], processed, total);
    if j < |prev.failures| {
      k := FailureOrigin(tasks[..n], processed, total, j);
      assert tasks[..n][k] == tasks[k];
    } else {
      k := n;
    }
  }

  /** Every failure of a completed task is in the batch's failures. */
  lemma {:induction false} FailureKept(tasks: seq<Task>, processed: nat, total: nat, k: int)
    requires 0 <= k < |tasks| && tasks[k].Done? && tasks[k].outcome.failure.Some?
    ensures tasks[k].outcome.failure.value in Combine(tasks, processed, total).failures
    decreases |tasks|
  {
    var n := |tasks| - 1;
    if k < n {
      assert tasks[..n][k] == tasks[k];
      FailureKept(tasks[..n], processed, total, k);
    }
  }

  /** When no task is skipped, the counter counts every task. */
  lemma {:induction false} AllCounted(tasks: seq<Task>, processed: nat, total: nat)
    requires forall k :: 0 <= k < |tasks| ==> tasks[k].Done?
    ensures Combine(tasks, processed, total).processed == processed + |tasks|
    decreases |tasks|
  {
    if tasks != [] {
      var n := |tasks| - 1;
      assert forall k :: 0 <= k < n ==> tasks[..n][k] == tasks[k];
      AllCounted(tasks[..n], processed, total);
    }
  }

  /** The last line a batch logs, when its last task completes, is the
      progress line with the final counter. */
  lemma EndsWithProgress(tasks: seq<Task>, processed: nat, total: nat)
    requires tasks != [] && tasks[|tasks| - 1].Done?
    ensures var e := Combine(tasks, processed, total);
      |e.messages| > 0 && e.messages[|e.messages| - 1] == ProgressLine(e.processed, total)
  {
  }

  /** One completed task extends the batch by its calls, logs, failure and
      progress line. */
  lemma CombineStep(tasks: seq<Task>, i: int, processed: nat, total: nat)
    requires 0 <= i < |tasks|
    ensures Combine(tasks[..i + 1], processed, total) == Extend(Combine(tasks[..i], processed, total), tasks[i], total)
  {
    assert tasks[..i + 1][..i] == tasks[..i];
  }

  /** The reconciliation of a listed product, filed under its listed SKU. */
  function EdgeReconciliation(e: Edge, replies: Replies): Reconciliation {
    Reconcile(e.nodeId, OrEmpty(e.sku), replies)
  }

  /** The tasks of `processProducts`: the k-th product of the page is
      reconciled with `replies(first + k)`. */
  function PageTasks(edges: seq<Edge>, replies: nat -> Replies, first: nat): (tasks: seq<Task>)
    ensures |tasks| == |edges|
    ensures forall k :: 0 <= k < |edges| ==> tasks[k] == Done(EdgeReconciliation(edges[k], replies(first + k)))
  {
    seq(|edges|, k requires 0 <= k < |edges| => Done(EdgeReconciliation(edges[k], replies(first + k))))
  }

  /** The progress counter of a page run counts every product of the page. */
  lemma PageCountsEveryProduct(edges: seq<Edge>, replies: nat -> Replies, first: nat, processed: nat, total: nat)
    ensures Combine(PageTasks(edges, replies, first), processed, total).processed == processed + |edges|
  {
    AllCounted(PageTasks(edges, replies, first), processed, total);
  }


  // ---------------------------------------------------------------------
  // syncBySkus

  /** The task of one SKU: a lookup that throws rejects the task before it
      logs or counts anything; a falsy answer is a "not found" failure; a
      product id is reconciled under the SKU. */
  function SkuTask(sku: string, found: Result<Option<string>>, replies: Replies): Task {
    match found
    case Threw(_) => Skipped
    case Ok(id) =>
      if !Truthy(id) then Done(Reconciliation([], [NotFoundLine(sku)], Some(Failure(sku, NotFound))))
      else Done(Reconcile(id.value, sku, replies))
  }

  /** The tasks of a SKU run: the i-th SKU is looked up with `lookup(i)`
      and reconciled with `replies(i)`. */
  function SkuTasks(skus: seq<string>, lookup: nat -> Result<Option<string>>, replies: nat -> Replies): (tasks: seq<Task>)
    ensures |tasks| == |skus|
    ensures forall i :: 0 <= i < |skus| ==> tasks[i] == SkuTask(skus[i], lookup(i), replies(i))
  {
    seq(|skus|, i requires 0 <= i < |skus| => SkuTask(skus[i], lookup(i), replies(i)))
  }

  /** A SKU the store does not know is recorded as a failure under that SKU. */
  lemma NotFoundIsRecorded(skus: seq<string>, lookup: nat -> Result<Option<string>>, replies: nat -> Replies, i: int)
    requires 0 <= i < |skus| && lookup(i).Ok? && !Truthy(lookup(i).value)
    ensures Failure(skus[i], NotFound) in Combine(SkuTasks(skus, lookup, replies), 0, |skus|).failures
  {
    FailureKept(SkuTasks(skus, lookup, replies), 0, |skus|, i);
  }

  /** Every failure of a SKU run comes from one SKU whose lookup answered:
      the "not found" failure under the SKU itself, or the reconciliation's
      failure under the SKU's label. */
  lemma SkuFailureOrigin(skus: seq<string>, lookup: nat -> Result<Option<string>>, replies: nat -> Replies, j: int)
    returns (k: int)
    requires 0 <= j < |Combine(SkuTasks(skus, lookup, replies), 0, |skus|).failures|
    ensures 0 <= k < |skus| && lookup(k).Ok?
    ensures var f := Combine(SkuTasks(skus, lookup, replies), 0, |skus|).failures[j];
      if Truthy(lookup(k).value) then f.sku == SkuLabel(skus[k]) else f == Failure(skus[k], NotFound)
  {
    k := FailureOrigin(SkuTasks(skus, lookup, replies), 0, |skus|, j);
  }

  /** A batch counts every one of its tasks only if none of them is skipped. */
  lemma {:induction false} CountedOnlyIfAllDone(tasks: seq<Task>, processed: nat, total: nat)
    requires Combine(tasks, processed, total).processed == processed + |tasks|
    ensures forall k :: 0 <= k < |tasks| ==> tasks[k].Done?
    decreases |tasks|
  {
    if tasks != [] {
      var n := |tasks| - 1;
      CountedOnlyIfAllDone(tasks[..n], processed, total);
      assert forall k :: 0 <= k < n ==> tasks[..n][k] == tasks[k];
    }
  }

  /** A SKU's task is skipped exactly when its lookup throws. */
  lemma SkuTaskDone(sku: string, found: Result<Option<string>>, replies: Replies)
    ensures SkuTask(sku, found, replies).Done? <==> found.Ok?
  {
  }

  /** A batch counts every one of its tasks exactly when none is skipped. */
  lemma CountedIffAllDone(tasks: seq<Task>, processed: nat, total: nat)
    ensures Combine(tasks, processed, total).processed == processed + |tasks|
      <==> forall k :: 0 <= k < |tasks| ==> tasks[k].Done?
  {
    if forall k :: 0 <= k < |tasks| ==> tasks[k].Done? {
      AllCounted(tasks, processed, total);
    } else if Combine(tasks, processed, total).processed == processed + |tasks| {
      CountedOnlyIfAllDone(tasks, processed, total);
    }
  }

  /** The progress counter of a SKU run reaches the number of SKUs exactly
      when no lookup throws. */
  lemma SkuRunCountsAll(skus: seq<string>, lookup: nat -> Result<Option<string>>, replies: nat -> Replies)
    ensures Combine(SkuTasks(skus, lookup, replies), 0, |skus|).processed == |skus|
      <==> forall i :: 0 <= i < |skus| ==> lookup(i).Ok?
  {
    var tasks := SkuTasks(skus, lookup, replies);
    forall i | 0 <= i < |skus| ensures tasks[i].Done? <==> lookup(i).Ok? {
      SkuTaskDone(skus[i], lookup(i), replies(i));
    }
    CountedIffAllDone(tasks, 0, |skus|);
  }

  // ---------------------------------------------------------------------
  // The page loop of syncAllProducts and syncProductsByDateRange

  /** How a page loop ended: the last page said there was no next page, the
      run was cancelled, a page fetch threw, or the page source has no
      further answer (the source would wait on it). */
  datatype Outcome = Finished | Cancelled | Aborted(error: Thrown) | SourceExhausted

  /** The cursor after a page: the last edge's cursor when another page
      follows and this one has edges, the previous cursor otherwise. */
  function NextCursor(cursor: Option<string>, page: Page): Option<string> {
    if page.hasNextPage && |page.edges| > 0 then Some(page.edges[|page.edges| - 1].cursor) else cursor
  }

  /** The cursor after the pages read so far; null before the first. */
  function CursorAfter(pages: seq<Page>): Option<string>
    decreases |pages|
  {
    if pages == [] then None else NextCursor(CursorAfter(pages[..|pages| - 1]), pages[|pages| - 1])
  }

  /** The cursor each page fetch was made with. */
  function Requests(pages: seq<Page>): (r: seq<Option<string>>)
    ensures |r| == |pages|
  {
    seq(|pages|, j requires 0 <= j < |pages| => CursorAfter(pages[..j]))
  }

  /** The first page is fetched without a cursor, each later page with the
      cursor the page before it leaves: so a page that has no edges but
      says another page follows makes the loop fetch the same page again. */
  lemma RequestsFollowCursors(pages: seq<Page>, j: int)
    requires 0 <= j < |pages| - 1
    ensures Requests(pages)[0] == None
    ensures Requests(pages)[j + 1] == NextCursor(Requests(pages)[j], pages[j])
    ensures |pages[j].edges| == 0 ==> Requests(pages)[j + 1] == Requests(pages)[j]
  {
    assert pages[..j + 1][..j] == pages[..j];
  }

  /** Reading one more page records one more fetch, made with the cursor
      the earlier pages left. */
  lemma RequestsStep(pages: seq<Page>, page: Page)
    ensures Requests(pages + [page]) == Requests(pages) + [CursorAfter(pages)]
    ensures CursorAfter(pages + [page]) == NextCursor(CursorAfter(pages), page)
  {
    var p := pages + [page];
    assert p[..|pages|] == pages;
    forall j | 0 <= j < |pages| ensures p[..j] == pages[..j] {
    }
  }

  /** The tasks a page of products gives, given the number of products
      listed before the page. */
  type PageRun = (seq<Edge>, nat) -> seq<Task>

  /** The page run of `processProducts`: the k-th product of a page that
      follows `first` products is reconciled with `replies(first + k)`. */
  function ProductTasks(replies: nat -> Replies): PageRun {
    (edges: seq<Edge>, first: nat) => PageTasks(edges, replies, first)
  }

  /** What the pages read so far have left: `totalCount`, and what the page
      batches did. */
  datatype Walk = Walk(total: nat, effect: Effect)

  /** The walk after a page of `count` products whose batch did `e`. */
  function Grow(w: Walk, count: nat, e: Effect): Walk {
    Walk(w.total + count,
      Effect(w.effect.calls + e.calls, w.effect.messages + e.messages, w.effect.failures + e.failures, e.processed))
  }

  /** The events of a grown walk are those of the walk, then those of the
      page's batch. */
  lemma GrowFrames(frames0: seq<string>, w: Walk, count: nat, e: Effect)
    ensures frames0 + Frames(Grow(w, count, e).effect.messages) == (frames0 + Frames(w.effect.messages)) + Frames(e.messages)
  {
    FramesAppend(w.effect.messages, e.messages);
  }

  /** One more page: its batch counts from `processedCount`, that is, from
      the number of failures so far (no success is ever pushed), up to the
      new `totalCount`. */
  function AddPage(w: Walk, p: Page, tasksOf: PageRun): Walk {
    Grow(w, |p.edges|, Combine(tasksOf(p.edges, w.total), |w.effect.failures|, w.total + |p.edges|))
  }

  function WalkPages(pages: seq<Page>, tasksOf: PageRun): Walk
    decreases |pages|
  {
    if pages == [] then Walk(0, Effect([], [], [], 0))
    else AddPage(WalkPages(pages[..|pages| - 1], tasksOf), pages[|pages| - 1], tasksOf)
  }

  lemma WalkStep(pages: seq<Page>, page: Page, tasksOf: PageRun)
    ensures WalkPages(pages + [page], tasksOf) == AddPage(WalkPages(pages, tasksOf), page, tasksOf)
  {
    assert (pages + [page])[..|pages|] == pages;
  }

  /** `totalCount` is the number of products listed, and no product fails
      twice: the failures never outnumber the products. */
  lemma {:induction false} WalkFailuresBounded(pages: seq<Page>, replies: nat -> Replies)
    ensures |WalkPages(pages, ProductTasks(replies)).effect.failures| <= WalkPages(pages, ProductTasks(replies)).total
    decreases |pages|
  {
    if pages != [] {
      var n := |pages| - 1;
      var w := WalkPages(pages[..n], ProductTasks(replies));
      WalkFailuresBounded(pages[..n], replies);
      PageCountsEveryProduct(pages[n].edges, replies, w.total, |w.effect.failures|, w.total + |pages[n].edges|);
    }
  }

  /** A batch none of whose tasks fails pushes no failure. */
  lemma NoFailureWithoutFailingTask(tasks: seq<Task>, processed: nat, total: nat)
    requires forall k :: 0 <= k < |tasks| ==> tasks[k].Done? ==> tasks[k].outcome.failure.None?
    ensures Combine(tasks, processed, total).failures == []
  {
    if Combine(tasks, processed, total).failures != [] {
      var k := FailureOrigin(tasks, processed, total, 0);
    }
  }

  /** The replies of a product none of whose calls throws. */
  predicate Clean(r: Replies) {
    r.product.Ok? && r.search.Ok? && r.write.Ok?
  }

  /** A page whose products all get clean replies pushes no failure. */
  lemma CleanPageHasNoFailures(edges: seq<Edge>, replies: nat -> Replies, first: nat, processed: nat, total: nat)
    requires forall k :: Clean(replies(k))
    ensures Combine(ProductTasks(replies)(edges, first), processed, total).failures == []
  {
    var tasks := PageTasks(edges, replies, first);
    assert ProductTasks(replies)(edges, first) == tasks;
    forall k | 0 <= k < |tasks| ensures tasks[k].outcome.failure.None? {
      assert Clean(replies(first + k));
    }
    NoFailureWithoutFailingTask(tasks, processed, total);
  }

  /** A page run none of whose batches pushes a failure. */
  ghost predicate NeverFails(tasksOf: PageRun) {
    forall edges: seq<Edge>, first: nat, processed: nat, total: nat ::
      Combine(tasksOf(edges, first), processed, total).failures == []
  }

  /** When every store fetch, search and write succeeds, no page batch
      pushes a failure. */
  lemma CleanRepliesNeverFail(replies: nat -> Replies)
    requires forall k :: Clean(replies(k))
    ensures NeverFails(ProductTasks(replies))
  {
    forall edges: seq<Edge>, first: nat, processed: nat, total: nat
      ensures Combine(ProductTasks(replies)(edges, first), processed, total).failures == []
    {
      CleanPageHasNoFailures(edges, replies, first, processed, total);
    }
  }

  /** A walk whose batches never fail has no failure. */
  lemma {:induction false} WalkWithoutFailures(pages: seq<Page>, tasksOf: PageRun)
    requires NeverFails(tasksOf)
    ensures |WalkPages(pages, tasksOf).effect.failures| == 0
    decreases |pages|
  {
    if pages != [] {
      WalkWithoutFailures(pages[..|pages| - 1], tasksOf);
    }
  }

  /** When every store fetch, search and write succeeds, the loop ends with
      no failure; since `processedCount` is the number of successes plus
      failures and no success is pushed, the closing line then says
      "Synced 0 products" whatever the number of products. */
  lemma CleanWalkHasNoFailures(pages: seq<Page>, replies: nat -> Replies)
    requires forall k :: Clean(replies(k))
    ensures |WalkPages(pages, ProductTasks(replies)).effect.failures| == 0
  {
    CleanRepliesNeverFail(replies);
    WalkWithoutFailures(pages, ProductTasks(replies));
  }

  /** When the page loop stops after a page: only when it can be cancelled,
      and then once the client has disconnected (`disconnected(j)`: gone by
      the end of page j) or the response had already ended. */
  datatype StopRule = StopRule(cancellable: bool, disconnected: nat -> bool, ended: bool)

  predicate Stops(rule: StopRule, j: nat) {
    rule.cancellable && (rule.disconnected(j) || rule.ended)
  }

  /** The pages read so far are the first answers of the page source, and
      every page but the last announced a next page and was not followed by
      a stop. */
  predicate Received(pages: seq<Page>, script: seq<Result<Page>>, stop: StopRule) {
    && |pages| <= |script|
    && (forall j :: 0 <= j < |pages| ==> script[j] == Ok(pages[j]))
    && (forall j :: 0 <= j < |pages| - 1 ==> pages[j].hasNextPage && !Stops(stop, j))
  }

  /** The loop goes on after these pages: none yet, or the last one
      announced a next page and was not followed by a stop. */
  predicate Continuing(pages: seq<Page>, stop: StopRule) {
    |pages| == 0 || (pages[|pages| - 1].hasNextPage && !Stops(stop, |pages| - 1))
  }

  /** How the page loop went: the pages it read, and why it left. */
  predicate Paged(pages: seq<Page>, script: seq<Result<Page>>, outcome: Outcome, stop: StopRule) {
    && Received(pages, script, stop)
    && match outcome
       case Finished => |pages| > 0 && !pages[|pages| - 1].hasNextPage && !Stops(stop, |pages| - 1)
       case Cancelled => |pages| > 0 && Stops(stop, |pages| - 1)
       case Aborted(e) => Continuing(pages, stop) && |pages| < |script| && script[|pages|] == Threw(e)
       case SourceExhausted => Continuing(pages, stop) && |pages| == |script|
  }

  /** Reading the next answer of the page source while the loop goes on. */
  lemma ReceivedStep(pages: seq<Page>, page: Page, script: seq<Result<Page>>, stop: StopRule)
    requires Received(pages, script, stop) && Continuing(pages, stop)
    requires |pages| < |script| && script[|pages|] == Ok(page)
    ensures Received(pages + [page], script, stop)
  {
  }

  /** The answers of the page source and the stops decide the pages read
      and the outcome. */
  lemma PagedIsDetermined(p1: seq<Page>, o1: Outcome, p2: seq<Page>, o2: Outcome,
                          script: seq<Result<Page>>, stop: StopRule)
    requires Paged(p1, script, o1, stop) && Paged(p2, script, o2, stop)
    requires |p1| <= |p2|
    ensures p1 == p2 && o1 == o2
  {
    assert forall j :: 0 <= j < |p1| ==> p1[j] == p2[j] by {
      forall j | 0 <= j < |p1| ensures p1[j] == p2[j] {
        assert script[j] == Ok(p1[j]) && script[j] == Ok(p2[j]);
      }
    }
    if |p1| < |p2| {
      assert false;
    }
    assert p1 == p2;
  }
  // ---------------------------------------------------------------------
  // A run

  /** A summary handed to `sendSummaryEmail`. */
  datatype Summary = Summary(successes: seq<Success>, failures: seq<Failure>)

  /** The state one run accumulates, with the trace of the calls it makes. */
  class SyncRun {
    const res: Response
    var failures: seq<Failure>
    /** Never pushed to: the reconciliation returns nothing. */
    var successes: seq<Success>
    /** The store fetches and CRM calls of the reconciliations. */
    var calls: seq<Call>
    /** The SKUs passed to `getProductBySKU`. */
    var lookups: seq<string>
    /** The cursor of each page fetch. */
    var pageRequests: seq<Option<string>>
    /** The pages received. */
    var pages: seq<Page>
    /** The summaries handed to `sendSummaryEmail`. */
    var emails: seq<Summary>

    constructor (res: Response)
      ensures this.res == res
      ensures failures == [] && successes == [] && calls == [] && lookups == []
      ensures pageRequests == [] && pages == [] && emails == []
    {
      this.res := res;
      failures := [];
      successes := [];
      calls := [];
      lookups := [];
      pageRequests := [];
      pages := [];
      emails := [];
    }

    /** The run's calls, failures and events are those of the batch `e`
        after the starting values `calls0`, `failures0` and `frames0`. */
    ghost predicate Reflects(e: Effect, calls0: seq<Call>, failures0: seq<Failure>, frames0: seq<string>, silent: bool)
      reads this, res
    {
      && calls == calls0 + e.calls
      && failures == failures0 + e.failures
      && res.ended == silent
      && (silent ==> res.frames == frames0)
      && (!silent ==> res.frames == frames0 + Frames(e.messages))
    }

    /** Run the i-th task of a batch. */
    method RunTask(tasks: seq<Task>, i: int, processed: nat, total: nat, progress: nat,
                   ghost calls0: seq<Call>, ghost failures0: seq<Failure>, ghost frames0: seq<string>, ghost silent: bool)
      returns (progress': nat)
      requires 0 <= i < |tasks|
      requires progress == Combine(tasks[..i], processed, total).processed
      requires Reflects(Combine(tasks[..i], processed, total), calls0, failures0, frames0, silent)
      modifies this, res
      ensures progress' == Combine(tasks[..i + 1], processed, total).processed
      ensures Reflects(Combine(tasks[..i + 1], processed, total), calls0, failures0, frames0, silent)
      ensures successes == old(successes) && lookups == old(lookups) && pageRequests == old(pageRequests)
      ensures pages == old(pages) && emails == old(emails)
    {
      CombineStep(tasks, i, processed, total);
      progress' := progress;
      if tasks[i].Done? {
        progress' := progress + 1;
        Complete(tasks[i].outcome, progress', total, Combine(tasks[..i], processed, total), calls0, failures0, frames0, silent);
      }
    }

    /** One completed task: record its calls and failure, log its lines and
        then the progress line. */
    method Complete(r: Reconciliation, progress: nat, total: nat, ghost prev: Effect,
                    ghost calls0: seq<Call>, ghost failures0: seq<Failure>, ghost frames0: seq<string>, ghost silent: bool)
      requires progress == prev.processed + 1
      requires Reflects(prev, calls0, failures0, frames0, silent)
      modifies this, res
      ensures Reflects(Extend(prev, Done(r), total), calls0, failures0, frames0, silent)
      ensures successes == old(successes) && lookups == old(lookups) && pageRequests == old(pageRequests)
      ensures pages == old(pages) && emails == old(emails)
    {
      var line := ProgressLine(progress, total);
      ghost var next := Extend(prev, Done(r), total);
      assert next.calls == prev.calls + r.calls;
      assert next.failures == prev.failures + FailureList(r.failure);
      assert next.messages == prev.messages + (r.logs + [line]);
      calls := calls + r.calls;
      if r.failure.Some? {
        failures := failures + [r.failure.value];
      }
      ghost var before := res.frames;
      res.LogAll(r.logs + [line]);
      FramesAppend(prev.messages, r.logs + [line]);
      if !silent {
        calc {
          res.frames;
          before + Frames(r.logs + [line]);
          (frames0 + Frames(prev.messages)) + Frames(r.logs + [line]);
          frames0 + (Frames(prev.messages) + Frames(r.logs + [line]));
          frames0 + Frames(next.messages);
        }
      }
    }

    /** Run a batch of tasks one after another. */
    method RunBatch(tasks: seq<Task>, processed: nat, total: nat)
      modifies this, res
      ensures Reflects(Combine(tasks, processed, total), old(calls), old(failures), old(res.frames), old(res.ended))
      ensures successes == old(successes) && lookups == old(lookups) && pageRequests == old(pageRequests)
      ensures pages == old(pages) && emails == old(emails)
    {
      var progress := processed;
      assert tasks[..0] == [];
      for i := 0 to |tasks|
        invariant progress == Combine(tasks[..i], processed, total).processed
        invariant Reflects(Combine(tasks[..i], processed, total), old(calls), old(failures), old(res.frames), old(res.ended))
        invariant successes == old(successes) && lookups == old(lookups) && pageRequests == old(pageRequests)
        invariant pages == old(pages) && emails == old(emails)
      {
        progress := RunTask(tasks, i, processed, total, progress, old(calls), old(failures), old(res.frames), old(res.ended));
      }
      assert tasks[..|tasks|] == tasks;
    }

    /** `processProducts`: the products of one page, reconciled with the
        replies numbered from `first`, under a progress counter starting at
        `processed` and a total of `total`. */
    method ProcessProducts(edges: seq<Edge>, replies: nat -> Replies, first: nat, processed: nat, total: nat)
      modifies this, res
      ensures Reflects(Combine(PageTasks(edges, replies, first), processed, total),
                       old(calls), old(failures), old(res.frames), old(res.ended))
      ensures successes == old(successes) && lookups == old(lookups) && pageRequests == old(pageRequests)
      ensures pages == old(pages) && emails == old(emails)
    {
      RunBatch(PageTasks(edges, replies, first), processed, total);
    }

    /** The SKU tasks of `syncBySkus`, one after another: each looks its SKU
        up and then runs its task. */
    method RunSkuBatch(skus: seq<string>, tasks: seq<Task>)
      requires |tasks| == |skus|
      modifies this, res
      ensures lookups == old(lookups) + skus
      ensures Reflects(Combine(tasks, 0, |skus|), old(calls), old(failures), old(res.frames), old(res.ended))
      ensures successes == old(successes) && pageRequests == old(pageRequests)
      ensures pages == old(pages) && emails == old(emails)
    {
      var progress := 0;
      assert tasks[..0] == [];
      for i := 0 to |tasks|
        invariant lookups == old(lookups) + skus[..i]
        invariant progress == Combine(tasks[..i], 0, |skus|).processed
        invariant Reflects(Combine(tasks[..i], 0, |skus|), old(calls), old(failures), old(res.frames), old(res.ended))
        invariant successes == old(successes) && pageRequests == old(pageRequests)
        invariant pages == old(pages) && emails == old(emails)
      {
        lookups := lookups + [skus[i]];
        assert skus[..i + 1] == skus[..i] + [skus[i]];
        progress := RunTask(tasks, i, 0, |skus|, progress, old(calls), old(failures), old(res.frames), old(res.ended));
      }
      assert tasks[..|tasks|] == tasks;
      assert skus[..|skus|] == skus;
    }

    /** `sendSummaryEmail(successes, failures)`; whether it throws or not,
        the run goes on. */
    method SendSummary()
      modifies this
      ensures emails == old(emails) + [Summary(successes, failures)]
      ensures failures == old(failures) && successes == old(successes) && calls == old(calls)
      ensures lookups == old(lookups) && pageRequests == old(pageRequests) && pages == old(pages)
    {
      emails := emails + [Summary(successes, failures)];
    }

    /** The end of a completed run over all products: log the count, mail
        the summary, save an "all" history entry, log the end marker and end
        the response. */
    method CloseAll(history: HistoryFile, now: string)
      requires successes == [] && history.Valid()
      modifies this, res, history
      ensures old(res.ended) ==> res.frames == old(res.frames)
      ensures !old(res.ended) ==> res.frames == old(res.frames) + [Frame(SyncedLine(|failures|)), Frame(EndLog)]
      ensures res.ended
      ensures emails == old(emails) + [Summary([], failures)]
      ensures history.content == Some(old(history.Entries()) + [MakeEntry("all", None, now, [], failures)])
      ensures history.Valid()
      ensures failures == old(failures) && successes == [] && calls == old(calls)
      ensures lookups == old(lookups) && pageRequests == old(pageRequests) && pages == old(pages)
    {
      res.Log(SyncedLine(|successes| + |failures|));
      SendSummary();
      history.SaveSyncResult("all", None, now, successes, failures);
      res.Log(EndLog);
      res.End();
    }

    /** The end of a completed date-range run: log the count, mail the
        summary, save a "dates" history entry and, when the response is
        still open, write the `FINAL:` event and end it. */
    method CloseRange(history: HistoryFile, now: string)
      requires successes == [] && history.Valid()
      modifies this, res, history
      ensures old(res.ended) ==> res.frames == old(res.frames)
      ensures !old(res.ended) ==>
        res.frames == old(res.frames) + [Frame(SyncedLine(|failures|)), FinalFrame(|failures|, |failures|)]
      ensures res.ended
      ensures emails == old(emails) + [Summary([], failures)]
      ensures history.content == Some(old(history.Entries()) + [MakeEntry("dates", None, now, [], failures)])
      ensures history.Valid()
      ensures failures == old(failures) && successes == [] && calls == old(calls)
      ensures lookups == old(lookups) && pageRequests == old(pageRequests) && pages == old(pages)
    {
      var processedCount := |successes| + |failures|;
      res.Log(SyncedLine(processedCount));
      SendSummary();
      history.SaveSyncResult("dates", None, now, successes, failures);
      if !res.ended {
        res.Write(FinalFrame(processedCount, |failures|));
        res.End();
      }
    }

    /** The cancellation branch of the page loop: log the two closing lines
        and end the response. */
    method Stop()
      modifies res
      ensures old(res.ended) ==> res.frames == old(res.frames)
      ensures !old(res.ended) ==> res.frames == old(res.frames) + [Frame(CancelLine), Frame(EndLog)]
      ensures res.ended
    {
      res.Log(CancelLine);
      res.Log(EndLog);
      res.End();
    }

    /** Read one page: run its batch and record it. */
    method TakePage(page: Page, tasksOf: PageRun, first: nat, processed: nat, total: nat,
                    ghost w: Walk, ghost frames0: seq<string>, ghost silent: bool)
      requires first == w.total && processed == |w.effect.failures| && total == first + |page.edges|
      requires Reflects(w.effect, [], [], frames0, silent)
      modifies this, res
      ensures pages == old(pages) + [page]
      ensures Reflects(AddPage(w, page, tasksOf).effect, [], [], frames0, silent)
      ensures successes == old(successes) && lookups == old(lookups) && pageRequests == old(pageRequests)
      ensures emails == old(emails)
    {
      ghost var e := Combine(tasksOf(page.edges, first), processed, total);
      ghost var grown := AddPage(w, page, tasksOf).effect;
      assert grown.calls == w.effect.calls + e.calls && grown.failures == w.effect.failures + e.failures;
      RunBatch(tasksOf(page.edges, first), processed, total);
      pages := pages + [page];
      GrowFrames(frames0, w, |page.edges|, e);
      assert calls == [] + grown.calls && failures == [] + grown.failures;
    }

    /** One page received: run its batch, update `totalCount` and
        `processedCount`, and advance the cursor. */
    method ReadPage(page: Page, tasksOf: PageRun, cursor: Option<string>, totalCount: nat, processedCount: nat,
                    ghost frames0: seq<string>, ghost silent: bool)
      returns (cursor': Option<string>, totalCount': nat, processedCount': nat)
      requires cursor == CursorAfter(pages) && totalCount == WalkPages(pages, tasksOf).total
      requires successes == [] && processedCount == |failures|
      requires Reflects(WalkPages(pages, tasksOf).effect, [], [], frames0, silent)
      modifies this, res
      ensures pages == old(pages) + [page]
      ensures cursor' == CursorAfter(pages) && totalCount' == WalkPages(pages, tasksOf).total
      ensures processedCount' == |failures|
      ensures Reflects(WalkPages(pages, tasksOf).effect, [], [], frames0, silent)
      ensures successes == old(successes) && lookups == old(lookups) && pageRequests == old(pageRequests)
      ensures emails == old(emails)
    {
      var first := totalCount;
      totalCount' := totalCount + |page.edges|;
      RequestsStep(pages, page);
      WalkStep(pages, page, tasksOf);
      TakePage(page, tasksOf, first, processedCount, totalCount', WalkPages(pages, tasksOf), frames0, silent);
      processedCount' := |successes| + |failures|;
      cursor' := cursor;
      if page.hasNextPage && |page.edges| > 0 {
        cursor' := Some(page.edges[|page.edges| - 1].cursor);
      }
    }

    /** The state of the page loop between two fetches: the pages read so
        far, the fetches made for them, the counters and what the page
        batches did. */
    ghost predicate Between(script: seq<Result<Page>>, tasksOf: PageRun, stop: StopRule,
                            frames0: seq<string>, silent: bool,
                            cursor: Option<string>, totalCount: nat, processedCount: nat)
      reads this, res
    {
      && Received(pages, script, stop) && Continuing(pages, stop)
      && cursor == CursorAfter(pages) && pageRequests == Requests(pages)
      && totalCount == WalkPages(pages, tasksOf).total && processedCount == |failures|
      && Reflects(WalkPages(pages, tasksOf).effect, [], [], frames0, silent)
      && successes == []
    }

    /** The state of the page loop once it has left with `outcome` (before
        the cancellation branch closes the response). */
    ghost predicate Left(script: seq<Result<Page>>, tasksOf: PageRun, stop: StopRule,
                         frames0: seq<string>, silent: bool, outcome: Outcome)
      reads this, res
    {
      && Paged(pages, script, outcome, stop)
      && pageRequests == Requests(pages) + (if outcome.Aborted? then [CursorAfter(pages)] else [])
      && Reflects(WalkPages(pages, tasksOf).effect, [], [], frames0, silent)
      && successes == []
    }

    /** One round of the page loop: fetch with the current cursor; on an
        answer, run the page and decide whether to go on. */
    method NextPage(script: seq<Result<Page>>, tasksOf: PageRun, cancellable: bool, disconnected: nat -> bool,
                    cursor: Option<string>, totalCount: nat, processedCount: nat,
                    ghost frames0: seq<string>, ghost silent: bool)
      returns (going: bool, outcome: Outcome, cursor': Option<string>, totalCount': nat, processedCount': nat)
      requires Between(script, tasksOf, StopRule(cancellable, disconnected, silent), frames0, silent,
                       cursor, totalCount, processedCount)
      modifies this, res
      ensures going ==> |pages| == |old(pages)| + 1 && outcome == Finished
      ensures going ==> Between(script, tasksOf, StopRule(cancellable, disconnected, silent), frames0, silent,
                                cursor', totalCount', processedCount')
      ensures !going ==> Left(script, tasksOf, StopRule(cancellable, disconnected, silent), frames0, silent, outcome)
      ensures lookups == old(lookups) && emails == old(emails)
    {
      going, outcome, cursor', totalCount', processedCount' := false, Finished, cursor, totalCount, processedCount;
      if |pages| == |script| {
        outcome := SourceExhausted;
      } else if script[|pages|].Threw? {
        pageRequests := pageRequests + [cursor];
        outcome := Aborted(script[|pages|].error);
      } else {
        going, outcome, cursor', totalCount', processedCount' :=
          TakeAnswer(script, tasksOf, cancellable, disconnected, cursor, totalCount, processedCount, frames0, silent);
      }
    }

    /** A round of the page loop whose fetch is answered with a page. */
    method TakeAnswer(script: seq<Result<Page>>, tasksOf: PageRun, cancellable: bool, disconnected: nat -> bool,
                      cursor: Option<string>, totalCount: nat, processedCount: nat,
                      ghost frames0: seq<string>, ghost silent: bool)
      returns (going: bool, outcome: Outcome, cursor': Option<string>, totalCount': nat, processedCount': nat)
      requires Between(script, tasksOf, StopRule(cancellable, disconnected, silent), frames0, silent,
                       cursor, totalCount, processedCount)
      requires |pages| < |script| && script[|pages|].Ok?
      modifies this, res
      ensures going ==> |pages| == |old(pages)| + 1 && outcome == Finished
      ensures going ==> Between(script, tasksOf, StopRule(cancellable, disconnected, silent), frames0, silent,
                                cursor', totalCount', processedCount')
      ensures !going ==> Left(script, tasksOf, StopRule(cancellable, disconnected, silent), frames0, silent, outcome)
      ensures lookups == old(lookups) && emails == old(emails)
    {
      var page := script[|pages|].value;
      pageRequests := pageRequests + [cursor];
      ReceivedStep(pages, page, script, StopRule(cancellable, disconnected, silent));
      RequestsStep(pages, page);
      cursor', totalCount', processedCount' := ReadPage(page, tasksOf, cursor, totalCount, processedCount, frames0, silent);
      going, outcome := false, Finished;
      if cancellable && (disconnected(|pages| - 1) || res.ended) {
        outcome := Cancelled;
      } else if page.hasNextPage {
        going := true;
      }
    }

    /** The page loop shared by the run over all products and the run over
        a date range: fetch a page with the current cursor, run its batch,
        advance the cursor, and (when the run can be cancelled) stop once
        the client has gone or the response has ended. */
    method FetchPages(script: seq<Result<Page>>, tasksOf: PageRun, cancellable: bool, disconnected: nat -> bool)
      returns (outcome: Outcome)
      requires calls == [] && failures == [] && successes == [] && pageRequests == [] && pages == []
      modifies this, res
      ensures Paged(pages, script, outcome, StopRule(cancellable, disconnected, old(res.ended)))
      ensures pageRequests == Requests(pages) + (if outcome.Aborted? then [CursorAfter(pages)] else [])
      ensures var w := WalkPages(pages, tasksOf);
        && calls == w.effect.calls && failures == w.effect.failures
        && res.ended == (old(res.ended) || outcome.Cancelled?)
        && (old(res.ended) ==> res.frames == old(res.frames))
        && (!old(res.ended) && !outcome.Cancelled? ==> res.frames == old(res.frames) + Frames(w.effect.messages))
        && (!old(res.ended) && outcome.Cancelled? ==>
              res.frames == old(res.frames) + Frames(w.effect.messages) + [Frame(CancelLine), Frame(EndLog)])
      ensures successes == [] && lookups == old(lookups) && emails == old(emails)
    {
      ghost var frames0 := res.frames;
      ghost var silent := res.ended;
      ghost var stop := StopRule(cancellable, disconnected, silent);
      var going := true;
      var cursor: Option<string> := None;
      var totalCount: nat := 0;
      var processedCount: nat := 0;
      outcome := Finished;
      while going
        invariant going ==> Between(script, tasksOf, stop, frames0, silent, cursor, totalCount, processedCount)
        invariant !going ==> Left(script, tasksOf, stop, frames0, silent, outcome)
        invariant lookups == old(lookups) && emails == old(emails)
        decreases |script| - |pages|, going
      {
        ghost var before := |pages|;
        going, outcome, cursor, totalCount, processedCount :=
          NextPage(script, tasksOf, cancellable, disconnected, cursor, totalCount, processedCount, frames0, silent);
        assert going ==> |pages| <= |script| && before < |pages|;
      }
      if outcome.Cancelled? {
        Stop();
      }
    }
  }

  // ---------------------------------------------------------------------
  // The three runs

  /** The body of `syncBySkus` after normalisation: run one task per SKU,
      log the completion line, mail the summary and save a "sku" history
      entry. The response is not ended. */
  method RunSkus(res: Response, skus: seq<string>, tasks: seq<Task>, history: HistoryFile, now: string)
    returns (run: SyncRun)
    requires |tasks| == |skus| && history.Valid()
    modifies res, history
    ensures fresh(run) && run.res == res
    ensures var e := Combine(tasks, 0, |skus|);
      && run.lookups == skus && run.calls == e.calls && run.failures == e.failures && run.successes == []
      && run.pageRequests == [] && run.emails == [Summary([], e.failures)]
      && res.ended == old(res.ended)
      && (old(res.ended) ==> res.frames == old(res.frames))
      && (!old(res.ended) ==> res.frames == old(res.frames) + Frames(e.messages) + [Frame(SkuDone)])
      && history.content == Some(old(history.Entries()) + [MakeEntry("sku", None, now, [], e.failures)])
    ensures history.Valid()
  {
    run := new SyncRun(res);
    run.RunSkuBatch(skus, tasks);
    res.Log(SkuDone);
    run.SendSummary();
    history.SaveSyncResult("sku", None, now, run.successes, run.failures);
  }

  /** `syncBySkus`: the SKU input normalised, and the k-th SKU's task looked
      up with `lookup(k)` and reconciled with `replies(k)`. */
  method SyncBySkus(input: SkuInput, res: Response, lookup: nat -> Result<Option<string>>,
                    replies: nat -> Replies, history: HistoryFile, now: string)
    returns (run: SyncRun)
    requires history.Valid()
    modifies res, history
    ensures fresh(run) && run.res == res
    ensures var skus := NormalizeSkus(input);
      var e := Combine(SkuTasks(skus, lookup, replies), 0, |skus|);
      && run.lookups == skus && run.calls == e.calls && run.failures == e.failures && run.successes == []
      && run.pageRequests == [] && run.emails == [Summary([], e.failures)]
      && res.ended == old(res.ended)
      && (old(res.ended) ==> res.frames == old(res.frames))
      && (!old(res.ended) ==> res.frames == old(res.frames) + Frames(e.messages) + [Frame(SkuDone)])
      && history.content == Some(old(history.Entries()) + [MakeEntry("sku", None, now, [], e.failures)])
    ensures history.Valid()
  {
    var skus := NormalizeSkus(input);
    run := RunSkus(res, skus, SkuTasks(skus, lookup, replies), history, now);
  }

  /** The date-range run does not watch the connection. */
  predicate NoDisconnect(j: nat) {
    false
  }

  /** The events a run over pages writes after its batches: the completion
      line and the end marker when the loop finished, the two cancellation
      lines when it was cancelled, nothing when a fetch threw. */
  function AllClosing(outcome: Outcome, failures: seq<Failure>): seq<string> {
    match outcome
    case Finished => [Frame(SyncedLine(|failures|)), Frame(EndLog)]
    case Cancelled => [Frame(CancelLine), Frame(EndLog)]
    case _ => []
  }

  /** The body of `syncAllProducts` over a page run: log the start line,
      run the page loop with cancellation, and on completion log the count,
      mail the summary, save an "all" history entry, log the end marker and
      end the response. A cancelled run mails nothing and saves nothing; a
      fetch that throws leaves the run where it is. */
  method RunAllPages(res: Response, script: seq<Result<Page>>, tasksOf: PageRun,
                     disconnected: nat -> bool, history: HistoryFile, now: string)
    returns (run: SyncRun, outcome: Outcome)
    requires history.Valid()
    modifies res, history
    ensures fresh(run) && run.res == res
    ensures Paged(run.pages, script, outcome, StopRule(true, disconnected, old(res.ended)))
    ensures run.pageRequests == Requests(run.pages) + (if outcome.Aborted? then [CursorAfter(run.pages)] else [])
    ensures var w := WalkPages(run.pages, tasksOf);
      && run.calls == w.effect.calls && run.failures == w.effect.failures && run.successes == []
      && res.ended == (old(res.ended) || outcome.Finished? || outcome.Cancelled?)
      && (old(res.ended) ==> res.frames == old(res.frames))
      && (!old(res.ended) ==>
            res.frames == old(res.frames) + [Frame(StartAll)] + Frames(w.effect.messages) + AllClosing(outcome, run.failures))
    ensures outcome.Finished? ==>
      && run.emails == [Summary([], run.failures)]
      && history.content == Some(old(history.Entries()) + [MakeEntry("all", None, now, [], run.failures)])
    ensures !outcome.Finished? ==> run.emails == [] && history.content == old(history.content)
    ensures history.Valid()
  {
    run := new SyncRun(res);
    res.Log(StartAll);
    outcome := run.FetchPages(script, tasksOf, true, disconnected);
    if outcome.Finished? {
      run.CloseAll(history, now);
    }
  }

  /** The body of `syncProductsByDateRange` over a page run: log the start
      line, run the page loop (never cancelled), log the count, mail the
      summary, save a "dates" history entry, and, when the response is
      still open, write the `FINAL:` event with the failure count and end
      it. */
  method RunRangePages(res: Response, startDate: string, endDate: string, script: seq<Result<Page>>,
                       tasksOf: PageRun, history: HistoryFile, now: string)
    returns (run: SyncRun, outcome: Outcome)
    requires history.Valid()
    modifies res, history
    ensures fresh(run) && run.res == res
    ensures Paged(run.pages, script, outcome, StopRule(false, NoDisconnect, old(res.ended)))
    ensures !outcome.Cancelled?
    ensures run.pageRequests == Requests(run.pages) + (if outcome.Aborted? then [CursorAfter(run.pages)] else [])
    ensures var w := WalkPages(run.pages, tasksOf);
      && run.calls == w.effect.calls && run.failures == w.effect.failures && run.successes == []
      && res.ended == (old(res.ended) || outcome.Finished?)
      && (old(res.ended) ==> res.frames == old(res.frames))
      && (!old(res.ended) && outcome.Finished? ==>
            res.frames == old(res.frames) + [Frame(StartRange(startDate, endDate))] + Frames(w.effect.messages)
                          + [Frame(SyncedLine(|run.failures|)), FinalFrame(|run.failures|, |run.failures|)])
      && (!old(res.ended) && !outcome.Finished? ==>
            res.frames == old(res.frames) + [Frame(StartRange(startDate, endDate))] + Frames(w.effect.messages))
    ensures outcome.Finished? ==>
      && run.emails == [Summary([], run.failures)]
      && history.content == Some(old(history.Entries()) + [MakeEntry("dates", None, now, [], run.failures)])
    ensures !outcome.Finished? ==> run.emails == [] && history.content == old(history.content)
    ensures history.Valid()
  {
    run := new SyncRun(res);
    res.Log(StartRange(startDate, endDate));
    outcome := run.FetchPages(script, tasksOf, false, NoDisconnect);
    if outcome.Finished? {
      run.CloseRange(history, now);
    }
  }

  /** `syncAllProducts`, whose page run is `processProducts`: the k-th
      product listed is reconciled with `replies(k)`. */
  method SyncAllProducts(res: Response, script: seq<Result<Page>>, replies: nat -> Replies,
                         disconnected: nat -> bool, history: HistoryFile, now: string)
    returns (run: SyncRun, outcome: Outcome)
    requires history.Valid()
    modifies res, history
    ensures fresh(run) && run.res == res
    ensures Paged(run.pages, script, outcome, StopRule(true, disconnected, old(res.ended)))
    ensures run.pageRequests == Requests(run.pages) + (if outcome.Aborted? then [CursorAfter(run.pages)] else [])
    ensures var w := WalkPages(run.pages, ProductTasks(replies));
      && run.calls == w.effect.calls && run.failures == w.effect.failures && run.successes == []
      && res.ended == (old(res.ended) || outcome.Finished? || outcome.Cancelled?)
      && (old(res.ended) ==> res.frames == old(res.frames))
      && (!old(res.ended) ==>
            res.frames == old(res.frames) + [Frame(StartAll)] + Frames(w.effect.messages) + AllClosing(outcome, run.failures))
    ensures outcome.Finished? ==>
      && run.emails == [Summary([], run.failures)]
      && history.content == Some(old(history.Entries()) + [MakeEntry("all", None, now, [], run.failures)])
    ensures !outcome.Finished? ==> run.emails == [] && history.content == old(history.content)
    ensures history.Valid()
  {
    run, outcome := RunAllPages(res, script, ProductTasks(replies), disconnected, history, now);
  }

  /** `syncProductsByDateRange`, whose page run is `processProducts`. */
  method SyncProductsByDateRange(res: Response, startDate: string, endDate: string, script: seq<Result<Page>>,
                                 replies: nat -> Replies, history: HistoryFile, now: string)
    returns (run: SyncRun, outcome: Outcome)
    requires history.Valid()
    modifies res, history
    ensures fresh(run) && run.res == res
    ensures Paged(run.pages, script, outcome, StopRule(false, NoDisconnect, old(res.ended)))
    ensures !outcome.Cancelled?
    ensures run.pageRequests == Requests(run.pages) + (if outcome.Aborted? then [CursorAfter(run.pages)] else [])
    ensures var w := WalkPages(run.pages, ProductTasks(replies));
      && run.calls == w.effect.calls && run.failures == w.effect.failures && run.successes == []
      && res.ended == (old(res.ended) || outcome.Finished?)
      && (old(res.ended) ==> res.frames == old(res.frames))
      && (!old(res.ended) && outcome.Finished? ==>
            res.frames == old(res.frames) + [Frame(StartRange(startDate, endDate))] + Frames(w.effect.messages)
                          + [Frame(SyncedLine(|run.failures|)), FinalFrame(|run.failures|, |run.failures|)])
      && (!old(res.ended) && !outcome.Finished? ==>
            res.frames == old(res.frames) + [Frame(StartRange(startDate, endDate))] + Frames(w.effect.messages))
    ensures outcome.Finished? ==>
      && run.emails == [Summary([], run.failures)]
      && history.content == Some(old(history.Entries()) + [MakeEntry("dates", None, now, [], run.failures)])
    ensures !outcome.Finished? ==> run.emails == [] && history.content == old(history.content)
    ensures history.Valid()
  {
    run, outcome := RunRangePages(res, startDate, endDate, script, ProductTasks(replies), history, now);
  }
}

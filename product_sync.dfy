/** The store-status handler (lib/productSync.js): given a product id, read
    the product's ERP metafields, decide whether it is sold, deleted, boxed
    or left alone, and update its inventory, tags, channels and status.

    The store is an oracle: each store call is answered by the matching
    field of `StoreReplies` (what the call settles to once `withRetry` in
    `ShopifyClient` has given up or succeeded), and the calls made are
    recorded in order. The inventory adjustments and the tag update that the
    source starts together are made one after the other. */
module ProductSync {
  import opened Js
  import opened Text
  import opened Retry

  // ---------------------------------------------------------------------
  // Configuration

  /** `config.retry` when the environment sets neither override. */
  const RetryAttempts: nat := 3
  const RetryBaseDelay: nat := 500

  /** `config.thresholds`. */
  const WeightThreshold: real := 0.01
  const SoldStatuses: seq<string> := ["CONSUMED", "INVOICE"]
  const SoldDepartments: seq<string> := ["ONLINE Dept", "CAN Dept"]

  const SupplierSold := "DATA - sold by the supplier"

  // ---------------------------------------------------------------------
  // withRetry

  /** `withRetry(fn, attempts, baseDelay)`: call `fn` until it succeeds, at
      most `attempts + 1` times, waiting `baseDelay * (i + 1)` after the
      (i+1)-th failure; the last failure is rethrown. */
  method WithRetry<T(==)>(fn: nat -> Result<T>, attempts: nat, baseDelay: nat)
    returns (r: Result<T>, tries: nat, waits: seq<nat>)
    ensures Retried(fn, attempts, r, tries)
    ensures waits == Backoff(baseDelay, tries - 1)
  {
    var i: nat := 0;
    waits := [];
    while true
      invariant i <= attempts
      invariant forall j :: 0 <= j < i ==> fn(j).Threw?
      invariant waits == Backoff(baseDelay, i)
      decreases attempts - i
    {
      r := fn(i);
      if r.Ok? || i == attempts {
        tries := i + 1;
        return;
      }
      BackoffStep(baseDelay, i);
      waits := waits + [baseDelay * (i + 1)];
      i := i + 1;
    }
  }

  // ---------------------------------------------------------------------
  // Product ids

  /** `productGid.split('/').pop()`: the text after the last slash. */
  function ProductId(productGid: string): (id: string)
    ensures |id| <= |productGid| && '/' !in id && id == productGid[|productGid| - |id|..]
    ensures |id| < |productGid| ==> productGid[|productGid| - |id| - 1] == '/'
  {
    LastSegmentFollowsLastSeparator(productGid, '/');
    LastSegment(productGid, '/')
  }

  /** The id the GraphQL calls use: the input when it is already a global
      id, otherwise the product global id built from the numeric id. */
  function GlobalId(productGid: string): (g: string)
    ensures StartsWith(g, "gid://")
    ensures StartsWith(productGid, "gid://") ==> g == productGid
    ensures !StartsWith(productGid, "gid://") ==> |g| >= |ProductPrefix| && '/' !in g[|ProductPrefix|..]
  {
    if StartsWith(productGid, "gid://") then productGid
    else
      var g := ProductPrefix + ProductId(productGid);
      assert g[..6] == ProductPrefix[..6];
      assert g[|ProductPrefix|..] == ProductId(productGid);
      g
  }

  const ProductPrefix := "gid://shopify/Product/"

  // ---------------------------------------------------------------------
  // fetchProductAndMF

  /** `p.tags`: an array, or a comma-separated text that may be null. */
  datatype TagsField = TagArray(items: seq<string>) | TagText(text: Option<string>)

  /** `Number(rawWeight)`, taken as given: a number, or NaN. */
  datatype Number = NaN | Finite(value: real)

  /** The `product` object of the query: its tags, the inventory item of its
      first variant (None when it has no variant), and the `value` of each
      metafield (None when the metafield or its value is null). */
  datatype StoreProduct = StoreProduct(
    tags: TagsField,
    inventoryItem: Option<string>,
    erpStatus: Option<string>,
    department: Option<string>,
    location: Option<string>,
    weight: Option<string>,
    weightNumber: Number,
    soldFlag: Option<string>)

  /** What `fetchProductAndMF` returns: the tags, the four metafields of
      `mfMap`, the inventory item, and the weight when it is present. */
  datatype ProductFacts = ProductFacts(
    tags: seq<string>,
    status: string,
    dept: string,
    location: string,
    sold: string,
    invItemId: string,
    weight: Option<Number>)

  /** The TypeError of a property read on `holder` (null or undefined). */
  function ReadError(holder: string, property: string): Thrown {
    ThrownObject(NoBody, ErrorObject("Cannot read properties of " + holder + " (reading '" + property + "')", "{}", None, None))
  }

  /** Each piece trimmed: no piece starts or ends with a space. */
  function TrimAll(parts: seq<string>): (r: seq<string>)
    ensures |r| == |parts|
    ensures forall i :: 0 <= i < |parts| ==> r[i] == Trim(parts[i])
    ensures forall i :: 0 <= i < |r| ==> r[i] == [] || (!IsSpace(r[i][0]) && !IsSpace(r[i][|r[i]| - 1]))
  {
    seq(|parts|, i requires 0 <= i < |parts| => Trim(parts[i]))
  }

  function TagList(t: TagsField): seq<string> {
    match t
    case TagArray(items) => items
    case TagText(text) => TrimAll(SplitOn(OrEmpty(text), ","))
  }

  /** `fetchProductAndMF`: the query's reply turned into the facts the
      handler decides on. A null product or a product without a variant
      makes the property reads throw. */
  function FetchProductAndMF(reply: Result<Option<StoreProduct>>): (r: Result<ProductFacts>)
    ensures reply.Threw? ==> r == Threw(reply.error)
    ensures reply.Ok? && reply.value.Some? && reply.value.value.inventoryItem.Some? <==> r.Ok?
  {
    match reply
    case Threw(e) => Threw(e)
    case Ok(None) => Threw(ReadError("null", "tags"))
    case Ok(Some(p)) =>
      if p.inventoryItem.None? then Threw(ReadError("undefined", "node"))
      else
        var hasWeight := p.weight.Some? && p.weight.value != "";
        Ok(ProductFacts(
          TagList(p.tags),
          if Truthy(p.erpStatus) then p.erpStatus.value else "",
          if Truthy(p.department) then p.department.value else "",
          if Truthy(p.location) then p.location.value else "",
          if Truthy(p.soldFlag) then p.soldFlag.value else "false",
          p.inventoryItem.value,
          if hasWeight then Some(p.weightNumber) else None))
  }

  /** The facts are the product's fields with the source's defaults: an
      empty text for a missing metafield, "false" for a missing sold flag,
      and a weight only when its metafield holds a non-empty text. */
  lemma FetchedFields(reply: Result<Option<StoreProduct>>)
    requires FetchProductAndMF(reply).Ok?
    ensures var p := reply.value.value; var f := FetchProductAndMF(reply).value;
      && f.tags == TagList(p.tags)
      && f.status == OrEmpty(p.erpStatus) && f.dept == OrEmpty(p.department)
      && f.location == OrEmpty(p.location)
      && f.sold == (if Truthy(p.soldFlag) then p.soldFlag.value else "false")
      && f.invItemId == p.inventoryItem.value
      && (f.weight.Some? <==> Truthy(p.weight))
      && (f.weight.Some? ==> f.weight.value == p.weightNumber)
  {
  }

  /** A text tag list is the text cut at its commas, each piece trimmed:
      the pieces, joined back with commas, give the text again. */
  lemma TagTextPieces(text: string)
    ensures var pieces := SplitOn(text, ",");
      && Join(pieces, ",") == text
      && TagList(TagText(Some(text))) == TrimAll(pieces)
  {
    JoinSplitOn(text, ",");
  }

  // ---------------------------------------------------------------------
  // The decision

  /** What `handle` does with a product. */
  datatype Action = AlreadySold | MarkSold | MarkDeleted | MarkBoxed | NoAction

  predicate SoldSignal(f: ProductFacts) {
    f.status in SoldStatuses || f.dept in SoldDepartments
  }

  /** `hasWeight && weight < config.thresholds.weight`; NaN compares false. */
  predicate Underweight(w: Option<Number>) {
    w.Some? && w.value.Finite? && w.value.value < WeightThreshold
  }

  predicate DeleteSignal(f: ProductFacts) {
    f.status == "DELETE" || f.location == SupplierSold || Underweight(f.weight)
  }

  /** Whether the condition of a branch holds. */
  predicate Fires(a: Action, f: ProductFacts) {
    match a
    case AlreadySold => f.sold == "true"
    case MarkSold => SoldSignal(f)
    case MarkDeleted => DeleteSignal(f)
    case MarkBoxed => f.status == "BOXED"
    case NoAction => true
  }

  /** The branches in the order the handler tries them. */
  const BranchOrder: seq<Action> := [AlreadySold, MarkSold, MarkDeleted, MarkBoxed, NoAction]

  /** The first branch of `order` whose condition holds. */
  function FirstFiring(order: seq<Action>, f: ProductFacts): (a: Action)
    ensures a == NoAction || a in order
    ensures a != NoAction ==> Fires(a, f)
  {
    if order == [] then NoAction
    else if Fires(order[0], f) then order[0]
    else FirstFiring(order[1..], f)
  }

  /** The decision: the first branch whose condition holds. */
  function Decide(f: ProductFacts): (a: Action)
    ensures a in BranchOrder && Fires(a, f)
  {
    if f.sold == "true" then AlreadySold
    else if SoldSignal(f) then MarkSold
    else if DeleteSignal(f) then MarkDeleted
    else if f.status == "BOXED" then MarkBoxed
    else NoAction
  }

  /** The handler's if-chain takes the first branch, in `BranchOrder`, whose
      condition holds. */
  lemma DecideIsFirstFiring(f: ProductFacts)
    ensures Decide(f) == FirstFiring(BranchOrder, f)
  {
    var o4: seq<Action> := [NoAction];
    var o3 := [MarkBoxed] + o4;
    var o2 := [MarkDeleted] + o3;
    var o1 := [MarkSold] + o2;
    var o0 := [AlreadySold] + o1;
    assert o0 == BranchOrder;
    assert o0[1..] == o1 && o1[1..] == o2 && o2[1..] == o3 && o3[1..] == o4;
    assert FirstFiring(o4, f) == NoAction;
    assert FirstFiring(o3, f) == if Fires(MarkBoxed, f) then MarkBoxed else NoAction;
    assert FirstFiring(o2, f) == if Fires(MarkDeleted, f) then MarkDeleted else FirstFiring(o3, f);
    assert FirstFiring(o1, f) == if Fires(MarkSold, f) then MarkSold else FirstFiring(o2, f);
    assert FirstFiring(o0, f) == if Fires(AlreadySold, f) then AlreadySold else FirstFiring(o1, f);
  }

  /** A branch is taken only when no earlier branch's condition holds. */
  lemma DecideRespectsOrder(f: ProductFacts, k: int)
    requires 0 <= k < |BranchOrder| && BranchOrder[k] == Decide(f)
    ensures Fires(Decide(f), f)
    ensures forall j :: 0 <= j < k ==> !Fires(BranchOrder[j], f)
  {
  }

  // ---------------------------------------------------------------------
  // Store calls

  datatype StoreCall =
    | QueryProduct(globalId: string)
    | ListLevels(itemId: string)
    | AdjustLevel(itemId: string, locationId: string, delta: int)
    | SetTags(globalId: string, tags: seq<string>)
    | UnpublishAll(globalId: string, publications: seq<string>)
    | ArchiveProduct(globalId: string)
    | SetSoldMetafield(productId: string)

  /** An inventory level; `available` may be missing. */
  datatype Level = Level(locationId: string, available: Option<int>)

  /** What each store call of one `handle` settles to. `adjust(k)` answers
      the k-th adjustment; a handle makes at most one tag update. */
  datatype StoreReplies = StoreReplies(
    product: Result<Option<StoreProduct>>,
    levels: Result<Option<seq<Level>>>,
    adjust: nat -> Result<()>,
    tags: Result<()>,
    unpublish: Result<()>,
    archive: Result<()>,
    soldFlag: Result<()>)

  /** `l.available > 0`: a missing count is not positive. */
  predicate InStock(l: Level) {
    l.available.Some? && l.available.value > 0
  }

  /** `levels.filter(l => l.available > 0)`. */
  function InStockLevels(levels: seq<Level>): (r: seq<Level>)
    ensures |r| <= |levels|
    ensures forall i :: 0 <= i < |r| ==> InStock(r[i])
    ensures forall l :: l in r <==> l in levels && InStock(l)
  {
    if levels == [] then []
    else (if InStock(levels[0]) then [levels[0]] else []) + InStockLevels(levels[1..])
  }

  /** The count of a level, a missing one read as zero. */
  function Available(l: Level): int {
    if l.available.Some? then l.available.value else 0
  }

  /** The adjustments that bring each level to zero. */
  function Adjustments(itemId: string, jobs: seq<Level>): (calls: seq<StoreCall>)
    ensures |calls| == |jobs|
    ensures forall i :: 0 <= i < |jobs| ==> calls[i].AdjustLevel?
  {
    seq(|jobs|, i requires 0 <= i < |jobs| => AdjustLevel(itemId, jobs[i].locationId, -Available(jobs[i])))
  }

  /** The number of the first `n` adjustments that succeed. */
  function Fulfilled(n: nat, adjust: nat -> Result<()>): nat {
    if n == 0 then 0 else Fulfilled(n - 1, adjust) + (if adjust(n - 1).Ok? then 1 else 0)
  }

  lemma {:induction false} FulfilledPositive(n: nat, adjust: nat -> Result<()>)
    ensures Fulfilled(n, adjust) > 0 <==> exists k :: 0 <= k < n && adjust(k).Ok?
  {
    if n > 0 {
      FulfilledPositive(n - 1, adjust);
      if adjust(n - 1).Ok? {
        assert 0 <= n - 1 < n && adjust(n - 1).Ok?;
      } else {
        forall k | 0 <= k < n && adjust(k).Ok? ensures k < n - 1 {
        }
      }
    }
  }

  /** `const { inventory_levels: levels = [] } = ...`: the default applies
      to a missing field, which `None` stands for; a `null` list, on which
      `.filter` would throw, is not modelled. lib/shopifyStatusSync.js
      writes `data.inventory_levels || []`, which maps both to `[]`. */
  function LevelsOf(levels: Option<seq<Level>>): seq<Level> {
    if levels.Some? then levels.value else []
  }

  /** The calls of `resetInventory`. */
  function ResetCalls(itemId: string, r: StoreReplies): seq<StoreCall> {
    [ListLevels(itemId)] + (if r.levels.Ok? then Adjustments(itemId, InStockLevels(LevelsOf(r.levels.value))) else [])
  }

  /** The result of `resetInventory`: whether an adjustment succeeded. */
  function ResetResult(r: StoreReplies): Result<bool> {
    if r.levels.Threw? then Threw(r.levels.error)
    else Ok(Fulfilled(|InStockLevels(LevelsOf(r.levels.value))|, r.adjust) > 0)
  }

  /** The calls of `updateTags`: none when the tag is already there. */
  function TagCalls(globalId: string, existing: seq<string>, tag: string): seq<StoreCall> {
    if tag in existing then [] else [SetTags(globalId, existing + [tag])]
  }

  function TagResult(existing: seq<string>, tag: string, reply: Result<()>): Result<bool> {
    if tag in existing then Ok(false)
    else if reply.Threw? then Threw(reply.error)
    else Ok(true)
  }

  /** `ids.filter(Boolean)`: the ids that are not empty, in order. */
  function Present(ids: seq<string>): (r: seq<string>)
    ensures |r| <= |ids|
    ensures forall x :: x in r <==> x in ids && x != ""
  {
    if ids == [] then []
    else (if ids[0] != "" then [ids[0]] else []) + Present(ids[1..])
  }

  /** The filter works id by id: it keeps the order of the list. */
  lemma {:induction false} PresentAppend(a: seq<string>, b: seq<string>)
    ensures Present(a + b) == Present(a) + Present(b)
  {
    if a == [] {
      assert a + b == b;
    } else {
      var head := if a[0] != "" then [a[0]] else [];
      assert (a + b)[0] == a[0] && (a + b)[1..] == a[1..] + b;
      assert Present(a + b) == head + Present(a[1..] + b);
      PresentAppend(a[1..], b);
      assert Present(a) == head + Present(a[1..]);
    }
  }

  /** Ids that are all non-empty pass unchanged, duplicates included. */
  lemma {:induction false} PresentKeepsNonEmpty(ids: seq<string>)
    requires forall i :: 0 <= i < |ids| ==> ids[i] != ""
    ensures Present(ids) == ids
  {
    if ids != [] {
      PresentKeepsNonEmpty(ids[1..]);
    }
  }

  /** The calls of `unpublish`: one mutation over all publications, none
      when there is no publication. */
  function UnpublishCalls(globalId: string, publications: seq<string>): seq<StoreCall> {
    if publications == [] then [] else [UnpublishAll(globalId, publications)]
  }

  // ---------------------------------------------------------------------
  // What a handle does

  datatype HandleOutcome = Busy | Handled(action: Action) | Failed(error: Thrown)

  datatype Trace = Trace(calls: seq<StoreCall>, outcome: HandleOutcome)

  /** The sold branch: reset the inventory and add the Sold tag; if either
      changed something, unpublish; then set the sold metafield. */
  function SoldTrace(f: ProductFacts, globalId: string, productId: string, publications: seq<string>,
                     r: StoreReplies): (t: Trace)
    ensures ResetCalls(f.invItemId, r) + TagCalls(globalId, f.tags, "Sold") <= t.calls
    ensures t.outcome == Handled(MarkSold) || t.outcome.Failed?
  {
    var inv := ResetResult(r);
    var tag := TagResult(f.tags, "Sold", r.tags);
    var started := ResetCalls(f.invItemId, r) + TagCalls(globalId, f.tags, "Sold");
    if inv.Threw? then Trace(started, Failed(inv.error))
    else if tag.Threw? then Trace(started, Failed(tag.error))
    else
      var unpublished := if inv.value || tag.value then UnpublishCalls(globalId, publications) else [];
      if unpublished != [] && r.unpublish.Threw? then Trace(started + unpublished, Failed(r.unpublish.error))
      else
        var done := started + unpublished + [SetSoldMetafield(productId)];
        if r.soldFlag.Threw? then Trace(done, Failed(r.soldFlag.error)) else Trace(done, Handled(MarkSold))
  }

  /** The deleted and boxed branches: add the tag, then archive. */
  function RetireTrace(f: ProductFacts, globalId: string, tag: string, action: Action, r: StoreReplies): Trace {
    var tagged := TagResult(f.tags, tag, r.tags);
    var calls := TagCalls(globalId, f.tags, tag);
    if tagged.Threw? then Trace(calls, Failed(tagged.error))
    else if r.archive.Threw? then Trace(calls + [ArchiveProduct(globalId)], Failed(r.archive.error))
    else Trace(calls + [ArchiveProduct(globalId)], Handled(action))
  }

  /** The branch `Decide` chooses for the facts, and what it does. */
  function BranchTrace(f: ProductFacts, globalId: string, productId: string, publications: seq<string>,
                       r: StoreReplies): Trace
  {
    match Decide(f)
    case AlreadySold => Trace([], Handled(AlreadySold))
    case NoAction => Trace([], Handled(NoAction))
    case MarkSold => SoldTrace(f, globalId, productId, publications, r)
    case MarkDeleted => RetireTrace(f, globalId, "Deleted", MarkDeleted, r)
    case MarkBoxed => RetireTrace(f, globalId, "Boxed", MarkBoxed, r)
  }

  /** The try block of a handle: query the product, then take the branch
      `Decide` chooses. */
  function TryTrace(globalId: string, productId: string, publications: seq<string>, r: StoreReplies): (t: Trace)
    ensures |t.calls| >= 1 && t.calls[0] == QueryProduct(globalId)
    ensures !t.outcome.Busy?
  {
    var fetched := FetchProductAndMF(r.product);
    if fetched.Threw? then Trace([QueryProduct(globalId)], Failed(fetched.error))
    else
      var t := BranchTrace(fetched.value, globalId, productId, publications, r);
      Trace([QueryProduct(globalId)] + t.calls, t.outcome)
  }

  /** A handle of a product nobody else is handling. */
  function Expected(productGid: string, publications: seq<string>, r: StoreReplies): Trace {
    TryTrace(GlobalId(productGid), ProductId(productGid), publications, r)
  }

  // ---------------------------------------------------------------------
  // Properties of a handle

  /** A product whose sold metafield is "true" is queried and left alone. */
  lemma SoldProductIsLeftAlone(productGid: string, publications: seq<string>, r: StoreReplies)
    requires FetchProductAndMF(r.product).Ok? && FetchProductAndMF(r.product).value.sold == "true"
    ensures Expected(productGid, publications, r) == Trace([QueryProduct(GlobalId(productGid))], Handled(AlreadySold))
  {
    var f := FetchProductAndMF(r.product).value;
    assert Decide(f) == AlreadySold;
    var q := [QueryProduct(GlobalId(productGid))];
    assert BranchTrace(f, GlobalId(productGid), ProductId(productGid), publications, r) == Trace([], Handled(AlreadySold));
    assert q + [] == q;
  }

  /** `resetInventory` adjusts exactly the in-stock levels, each by minus
      its count, and reports a change exactly when one adjustment
      succeeded. */
  lemma ResetAdjustsInStockLevels(itemId: string, r: StoreReplies)
    requires r.levels.Ok?
    ensures var jobs := InStockLevels(LevelsOf(r.levels.value));
      && ResetCalls(itemId, r)[0] == ListLevels(itemId)
      && |ResetCalls(itemId, r)| == |jobs| + 1
      && (forall k :: 0 <= k < |jobs| ==>
            ResetCalls(itemId, r)[k + 1] == AdjustLevel(itemId, jobs[k].locationId, -Available(jobs[k]))
            && Available(jobs[k]) > 0)
      && (ResetResult(r) == Ok(true) <==> exists k :: 0 <= k < |jobs| && r.adjust(k).Ok?)
  {
    FulfilledPositive(|InStockLevels(LevelsOf(r.levels.value))|, r.adjust);
  }

  /** On the sold branch, the channels are unpublished exactly when the
      inventory reset or the tag update changed something (and there is a
      publication), and a branch that completes ends by setting the sold
      metafield, whether or not anything changed. */
  lemma SoldBranchShape(f: ProductFacts, globalId: string, productId: string, publications: seq<string>,
                        r: StoreReplies)
    requires ResetResult(r).Ok? && TagResult(f.tags, "Sold", r.tags).Ok?
    ensures var t := SoldTrace(f, globalId, productId, publications, r);
      var changed := ResetResult(r).value || TagResult(f.tags, "Sold", r.tags).value;
      && (UnpublishAll(globalId, publications) in t.calls <==> changed && publications != [])
      && (t.outcome == Handled(MarkSold) ==> t.calls[|t.calls| - 1] == SetSoldMetafield(productId))
      && (t.outcome == Handled(MarkSold) <==>
            (!(changed && publications != []) || r.unpublish.Ok?) && r.soldFlag.Ok?)
  {
    var started := ResetCalls(f.invItemId, r) + TagCalls(globalId, f.tags, "Sold");
    assert UnpublishAll(globalId, publications) !in started by {
      if r.levels.Ok? {
        var jobs := InStockLevels(LevelsOf(r.levels.value));
        assert forall k :: 0 <= k < |jobs| ==> Adjustments(f.invItemId, jobs)[k].AdjustLevel?;
      }
    }
  }

  /** The tag update adds the tag last and only when it is missing. */
  lemma TagAddedOnlyWhenMissing(globalId: string, existing: seq<string>, tag: string, reply: Result<()>)
    ensures tag in existing ==> TagCalls(globalId, existing, tag) == [] && TagResult(existing, tag, reply) == Ok(false)
    ensures tag !in existing ==>
      && TagCalls(globalId, existing, tag) == [SetTags(globalId, existing + [tag])]
      && (existing + [tag])[..|existing|] == existing
      && (TagResult(existing, tag, reply).Ok? <==> reply.Ok?)
  {
    assert (existing + [tag])[..|existing|] == existing;
  }

  /** The sold branch never archives. */
  lemma SoldBranchKeepsProduct(f: ProductFacts, globalId: string, productId: string, publications: seq<string>,
                               r: StoreReplies)
    ensures forall c :: c in SoldTrace(f, globalId, productId, publications, r).calls ==> !c.ArchiveProduct?
  {
    var calls := ResetCalls(f.invItemId, r);
    assert forall k :: 0 <= k < |calls| ==> !calls[k].ArchiveProduct?;
  }

  /** Only the deleted and boxed branches archive the product. */
  lemma ArchiveOnlyWhenRetired(f: ProductFacts, globalId: string, productId: string, publications: seq<string>,
                               r: StoreReplies)
    requires ArchiveProduct(globalId) in BranchTrace(f, globalId, productId, publications, r).calls
    ensures Decide(f) == MarkDeleted || Decide(f) == MarkBoxed
  {
    SoldBranchKeepsProduct(f, globalId, productId, publications, r);
  }

  // ---------------------------------------------------------------------
  // The service

  lemma Appended(a: seq<StoreCall>, b: seq<StoreCall>, c: seq<StoreCall>)
    ensures a + b + c == a + (b + c)
  {
  }

  /** Marking an id that was not marked and releasing it restores the set. */
  lemma Released(held: set<string>, id: string)
    requires id !in held
    ensures held + {id} - {id} == held
  {
  }

  /** `ProductSyncService`: the ids being handled, and the store calls
      made so far. */
  class ProductSyncService {
    var processing: set<string>
    var calls: seq<StoreCall>
    /** `config.publications`: the four publication ids, the empty ones
        dropped. */
    const publications: seq<string>

    constructor (publicationIds: seq<string>)
      ensures processing == {} && calls == [] && publications == Present(publicationIds)
    {
      publications := Present(publicationIds);
      processing := {};
      calls := [];
    }

    /** `resetInventory(itemId)`. */
    method ResetInventory(itemId: string, r: StoreReplies) returns (changed: Result<bool>)
      modifies this
      ensures calls == old(calls) + ResetCalls(itemId, r) && changed == ResetResult(r)
      ensures processing == old(processing)
    {
      calls := calls + [ListLevels(itemId)];
      if r.levels.Threw? {
        return Threw(r.levels.error);
      }
      var jobs := InStockLevels(LevelsOf(r.levels.value));
      calls := calls + Adjustments(itemId, jobs);
      var successCount := Fulfilled(|jobs|, r.adjust);
      changed := Ok(successCount > 0);
    }

    /** `updateTags(globalId, existingTags, tag)`. */
    method UpdateTags(globalId: string, existing: seq<string>, tag: string, reply: Result<()>)
      returns (added: Result<bool>)
      modifies this
      ensures calls == old(calls) + TagCalls(globalId, existing, tag) && added == TagResult(existing, tag, reply)
      ensures processing == old(processing)
    {
      if tag in existing {
        return Ok(false);
      }
      calls := calls + [SetTags(globalId, existing + [tag])];
      if reply.Threw? {
        return Threw(reply.error);
      }
      added := Ok(true);
    }

    /** The try block of `handle`. */
    method Process(globalId: string, productId: string, r: StoreReplies) returns (outcome: HandleOutcome)
      modifies this
      ensures calls == old(calls) + TryTrace(globalId, productId, publications, r).calls
      ensures outcome == TryTrace(globalId, productId, publications, r).outcome
      ensures processing == old(processing)
    {
      calls := calls + [QueryProduct(globalId)];
      var fetched := FetchProductAndMF(r.product);
      if fetched.Threw? {
        return Failed(fetched.error);
      }
      ghost var queried := calls;
      outcome := Branch(fetched.value, globalId, productId, r);
      Appended(old(calls), [QueryProduct(globalId)], calls[|queried|..]);
    }

    /** The if-chain of `handle` over the fetched facts. */
    method Branch(f: ProductFacts, globalId: string, productId: string, r: StoreReplies) returns (outcome: HandleOutcome)
      modifies this
      ensures calls == old(calls) + BranchTrace(f, globalId, productId, publications, r).calls
      ensures outcome == BranchTrace(f, globalId, productId, publications, r).outcome
      ensures processing == old(processing)
    {
      if f.sold == "true" {
        outcome := Handled(AlreadySold);
      } else if f.status in SoldStatuses || f.dept in SoldDepartments {
        outcome := Sell(f, globalId, productId, r);
      } else if f.status == "DELETE" || f.location == SupplierSold || Underweight(f.weight) {
        outcome := Retire(f, globalId, "Deleted", MarkDeleted, r);
      } else if f.status == "BOXED" {
        outcome := Retire(f, globalId, "Boxed", MarkBoxed, r);
      } else {
        outcome := Handled(NoAction);
      }
    }

    /** `unpublish(globalId)`. */
    method Unpublish(globalId: string, reply: Result<()>) returns (done: Result<()>)
      modifies this
      ensures calls == old(calls) + UnpublishCalls(globalId, publications)
      ensures publications == [] ==> done == Ok(())
      ensures publications != [] ==> done == reply
      ensures processing == old(processing)
    {
      if publications == [] {
        return Ok(());
      }
      calls := calls + [UnpublishAll(globalId, publications)];
      done := reply;
    }

    /** The sold branch. */
    method Sell(f: ProductFacts, globalId: string, productId: string, r: StoreReplies) returns (outcome: HandleOutcome)
      modifies this
      ensures calls == old(calls) + SoldTrace(f, globalId, productId, publications, r).calls
      ensures outcome == SoldTrace(f, globalId, productId, publications, r).outcome
      ensures processing == old(processing)
    {
      ghost var before := calls;
      ghost var started := ResetCalls(f.invItemId, r) + TagCalls(globalId, f.tags, "Sold");
      var invChanged := ResetInventory(f.invItemId, r);
      var tagChanged := UpdateTags(globalId, f.tags, "Sold", r.tags);
      assert calls == before + started;
      if invChanged.Threw? {
        return Failed(invChanged.error);
      }
      if tagChanged.Threw? {
        return Failed(tagChanged.error);
      }
      ghost var unpublishCalls: seq<StoreCall> := [];
      if invChanged.value || tagChanged.value {
        unpublishCalls := UnpublishCalls(globalId, publications);
        var unpublished := Unpublish(globalId, r.unpublish);
        if unpublished.Threw? {
          return Failed(unpublished.error);
        }
      }
      assert calls == before + (started + unpublishCalls);
      calls := calls + [SetSoldMetafield(productId)];
      assert calls == before + (started + unpublishCalls + [SetSoldMetafield(productId)]);
      if r.soldFlag.Threw? {
        return Failed(r.soldFlag.error);
      }
      outcome := Handled(MarkSold);
    }

    /** The deleted and boxed branches. */
    method Retire(f: ProductFacts, globalId: string, tag: string, action: Action, r: StoreReplies)
      returns (outcome: HandleOutcome)
      modifies this
      ensures calls == old(calls) + RetireTrace(f, globalId, tag, action, r).calls
      ensures outcome == RetireTrace(f, globalId, tag, action, r).outcome
      ensures processing == old(processing)
    {
      var tagged := UpdateTags(globalId, f.tags, tag, r.tags);
      if tagged.Threw? {
        return Failed(tagged.error);
      }
      calls := calls + [ArchiveProduct(globalId)];
      if r.archive.Threw? {
        return Failed(r.archive.error);
      }
      outcome := Handled(action);
    }

    /** `handle(productGid)`: skip an id already being handled; otherwise
        mark it, process the product, and release the mark on every exit,
        the rethrowing one included. */
    method Handle(productGid: string, r: StoreReplies) returns (outcome: HandleOutcome)
      modifies this
      ensures processing == old(processing)
      ensures ProductId(productGid) in old(processing) ==> outcome == Busy && calls == old(calls)
      ensures ProductId(productGid) !in old(processing) ==>
        && calls == old(calls) + Expected(productGid, publications, r).calls
        && outcome == Expected(productGid, publications, r).outcome
    {
      var productId := ProductId(productGid);
      if productId in processing {
        return Busy;
      }
      processing := processing + {productId};
      outcome := Process(GlobalId(productGid), productId, r);
      processing := processing - {productId};
      Released(old(processing), productId);
    }
  }
}

/** The earlier store-status handler (lib/shopifyStatusSync.js): read a
    product and its metafields over REST and, when the ERP marks it sold,
    zero its inventory, add the Sold tag, and unpublish it from every sales
    channel.

    As in `ProductSync`, the store is an oracle answering each request with
    what it settles to after `withRetry`, and the requests are recorded in
    order. The inventory reset and the tag update run one after the other. */
module ShopifyStatusSync {
  import opened Js
  import opened Text
  import opened Retry
  import PS = ProductSync

  const RetryLimit: nat := 3
  const RetryBaseDelay: nat := 500
  const SoldConditions: seq<string> := ["CONSUMED", "INVOICE"]
  const DeptConditions: seq<string> := ["ONLINE Dept", "CAN Dept"]

  // ---------------------------------------------------------------------
  // withRetry

  /** `withRetry(fn, retries, delayMs)`: count the failed attempts; rethrow
      once they exceed `retries`, otherwise wait `delayMs * attempt` and
      call again. The loop is only left by a return or the rethrow. */
  method WithRetry<T(==)>(fn: nat -> Result<T>, retries: nat, delayMs: nat)
    returns (r: Result<T>, tries: nat, waits: seq<nat>)
    ensures Retried(fn, retries, r, tries)
    ensures waits == Backoff(delayMs, tries - 1)
  {
    var attempt: nat := 0;
    waits := [];
    while attempt <= retries
      invariant attempt <= retries
      invariant forall j :: 0 <= j < attempt ==> fn(j).Threw?
      invariant waits == Backoff(delayMs, attempt)
      decreases retries - attempt
    {
      r := fn(attempt);
      if r.Ok? {
        tries := attempt + 1;
        return;
      }
      attempt := attempt + 1;
      if attempt > retries {
        tries := attempt;
        return;
      }
      BackoffStep(delayMs, attempt - 1);
      waits := waits + [delayMs * attempt];
    }
    assert false;
  }

  // ---------------------------------------------------------------------
  // Metafields

  datatype Metafield = Metafield(namespace: string, key: string, value: string)

  /** `${m.namespace}.${m.key}`. */
  function EntryKey(m: Metafield): string {
    m.namespace + "." + m.key
  }

  /** `Object.fromEntries(...)`: each entry in turn sets its key. */
  function MfMap(mfs: seq<Metafield>): (m: map<string, string>)
    ensures |m| <= |mfs|
  {
    if mfs == [] then map[]
    else MfMap(mfs[..|mfs| - 1])[EntryKey(mfs[|mfs| - 1]) := mfs[|mfs| - 1].value]
  }

  /** A key is in the map exactly when some metafield has it, and then it
      holds the value of the last such metafield. */
  lemma {:induction false} MfMapLastWins(mfs: seq<Metafield>, k: string)
    ensures k in MfMap(mfs) <==> exists i :: 0 <= i < |mfs| && EntryKey(mfs[i]) == k
    ensures k in MfMap(mfs) ==>
      exists i :: (0 <= i < |mfs| && EntryKey(mfs[i]) == k && MfMap(mfs)[k] == mfs[i].value
        && forall j :: i < j < |mfs| ==> EntryKey(mfs[j]) != k)
  {
    if mfs != [] {
      var init := mfs[..|mfs| - 1];
      var last := mfs[|mfs| - 1];
      MfMapLastWins(init, k);
      if EntryKey(last) == k {
        assert EntryKey(mfs[|mfs| - 1]) == k;
      } else if k in MfMap(mfs) {
        var i :| 0 <= i < |init| && EntryKey(init[i]) == k && MfMap(init)[k] == init[i].value
          && forall j :: i < j < |init| ==> EntryKey(init[j]) != k;
        assert EntryKey(mfs[i]) == k && MfMap(mfs)[k] == mfs[i].value;
        assert forall j :: i < j < |mfs| ==> EntryKey(mfs[j]) != k by {
          forall j | i < j < |mfs| ensures EntryKey(mfs[j]) != k {
            if j < |init| {
              assert mfs[j] == init[j];
            }
          }
        }
      } else {
        forall i | 0 <= i < |mfs| ensures EntryKey(mfs[i]) != k {
          if i < |init| {
            assert mfs[i] == init[i];
          }
        }
      }
    }
  }

  /** `mfMap[key]`, undefined when absent. */
  function Lookup(m: map<string, string>, key: string): Option<string> {
    if key in m then Some(m[key]) else None
  }

  /** `soldConditions.includes(status) || deptConditions.includes(dept)`. */
  predicate IsSold(m: map<string, string>) {
    var status := Lookup(m, "fantasy.erp_status");
    var dept := Lookup(m, "fantasy.department");
    (status.Some? && status.value in SoldConditions) || (dept.Some? && dept.value in DeptConditions)
  }

  // ---------------------------------------------------------------------
  // Requests

  datatype Call =
    | GetProduct(productId: string)
    | GetMetafields(productId: string)
    | GetLevels(itemId: string)
    | Adjust(itemId: string, locationId: string, delta: int)
    | TagMutation(globalId: string, tags: seq<string>)
    | UnpublishMutation(globalId: string, publicationIds: seq<string>)

  /** The REST `product`: the inventory item of each variant, and the
      comma-separated tags. */
  datatype RestProduct = RestProduct(variants: seq<string>, tags: Option<string>)

  /** What each request of one sync settles to: `product` and `metafields`
      are None when the payload lacks the field; `adjust(k)` answers the
      k-th adjustment. */
  datatype RestReplies = RestReplies(
    product: Result<Option<RestProduct>>,
    metafields: Result<Option<seq<Metafield>>>,
    levels: Result<Option<seq<PS.Level>>>,
    adjust: nat -> Result<()>,
    tags: Result<()>,
    unpublish: Result<()>)

  const NoVariant := ThrownObject(NoBody, ErrorObject("No variant", "{}", None, None))

  // ---------------------------------------------------------------------
  // adjustInventory

  function AdjustCalls(itemId: string, jobs: seq<PS.Level>): (calls: seq<Call>)
    ensures |calls| == |jobs|
    ensures forall i :: 0 <= i < |jobs| ==> calls[i] == Adjust(itemId, jobs[i].locationId, -PS.Available(jobs[i]))
  {
    seq(|jobs|, i requires 0 <= i < |jobs| => Adjust(itemId, jobs[i].locationId, -PS.Available(jobs[i])))
  }

  /** The error of the first of the `n` adjustments that fails, if any. */
  function FirstFailure(n: nat, adjust: nat -> Result<()>): Option<Thrown> {
    if n == 0 then None
    else
      var earlier := FirstFailure(n - 1, adjust);
      if earlier.Some? then earlier
      else if adjust(n - 1).Threw? then Some(adjust(n - 1).error)
      else None
  }

  /** `Promise.all` over the adjustments succeeds exactly when each does. */
  lemma {:induction false} FirstFailureNone(n: nat, adjust: nat -> Result<()>)
    ensures FirstFailure(n, adjust).None? <==> forall k :: 0 <= k < n ==> adjust(k).Ok?
  {
    if n > 0 {
      FirstFailureNone(n - 1, adjust);
    }
  }

  function Jobs(r: RestReplies): seq<PS.Level>
    requires r.levels.Ok?
  {
    PS.InStockLevels(PS.LevelsOf(r.levels.value))
  }

  /** The requests of `adjustInventory`: list the levels, then adjust every
      level in stock. */
  function InventoryCalls(itemId: string, r: RestReplies): seq<Call> {
    [GetLevels(itemId)] + (if r.levels.Ok? then AdjustCalls(itemId, Jobs(r)) else [])
  }

  /** The result of `adjustInventory` as written: `tasks.some(task => task
      instanceof Promise)` holds for every task, the `Promise.resolve()` of
      a level out of stock included, so it reports a change whenever there
      is a level. */
  function AdjustResultAsWritten(r: RestReplies): (res: Result<bool>)
    ensures res.Ok? ==> r.levels.Ok? && forall k :: 0 <= k < |Jobs(r)| ==> r.adjust(k).Ok?
    ensures res == Ok(true) <==> res.Ok? && |PS.LevelsOf(r.levels.value)| > 0
  {
    if r.levels.Threw? then Threw(r.levels.error)
    else
      var failed := FirstFailure(|Jobs(r)|, r.adjust);
      FirstFailureNone(|Jobs(r)|, r.adjust);
      if failed.Some? then Threw(failed.value) else Ok(|PS.LevelsOf(r.levels.value)| > 0)
  }

  /** The result of `adjustInventory` as intended: a change exactly when a
      level was adjusted. */
  function AdjustResult(r: RestReplies): (res: Result<bool>)
    ensures res.Ok? ==> r.levels.Ok? && forall k :: 0 <= k < |Jobs(r)| ==> r.adjust(k).Ok?
    ensures res == Ok(true) <==> res.Ok? && |Jobs(r)| > 0
  {
    if r.levels.Threw? then Threw(r.levels.error)
    else
      var failed := FirstFailure(|Jobs(r)|, r.adjust);
      FirstFailureNone(|Jobs(r)|, r.adjust);
      if failed.Some? then Threw(failed.value) else Ok(|Jobs(r)| > 0)
  }

  /** The intended result reports a change exactly when an adjustment was
      made, and then every adjustment succeeded. */
  lemma AdjustResultMeansAdjusted(itemId: string, r: RestReplies)
    requires AdjustResult(r).Ok?
    ensures AdjustResult(r).value <==> exists c :: c in InventoryCalls(itemId, r) && c.Adjust?
    ensures forall k :: 0 <= k < |Jobs(r)| ==> r.adjust(k).Ok?
  {
    FirstFailureNone(|Jobs(r)|, r.adjust);
    var calls := InventoryCalls(itemId, r);
    if |Jobs(r)| > 0 {
      assert calls[1].Adjust?;
    } else {
      assert calls == [GetLevels(itemId)];
    }
  }

  /** The two agree except on levels that are all out of stock, where the
      code as written reports a change although nothing was adjusted. */
  lemma AsWrittenOverreports(r: RestReplies)
    ensures AdjustResult(r).Threw? <==> AdjustResultAsWritten(r).Threw?
    ensures AdjustResult(r) == Ok(true) ==> AdjustResultAsWritten(r) == Ok(true)
  {
    if r.levels.Ok? {
      var levels := PS.LevelsOf(r.levels.value);
      if |Jobs(r)| > 0 {
        assert Jobs(r)[0] in levels;
      }
    }
  }

  /** One location with nothing available: no adjustment is made, yet the
      code as written reports a change. */
  lemma PhantomInventoryChange(itemId: string, r: RestReplies)
    requires r.levels == Ok(Some([PS.Level("loc-1", Some(0))]))
    ensures InventoryCalls(itemId, r) == [GetLevels(itemId)]
    ensures AdjustResultAsWritten(r) == Ok(true)
    ensures AdjustResult(r) == Ok(false)
  {
    assert !PS.InStock(PS.Level("loc-1", Some(0)));
    assert Jobs(r) == [];
  }

  // ---------------------------------------------------------------------
  // ensureSoldTag and bulkUnpublish

  function TagCalls(globalId: string, tags: seq<string>): seq<Call> {
    if "Sold" in tags then [] else [TagMutation(globalId, tags + ["Sold"])]
  }

  function TagResult(tags: seq<string>, reply: Result<()>): Result<bool> {
    if "Sold" in tags then Ok(false)
    else if reply.Threw? then Threw(reply.error)
    else Ok(true)
  }

  /** One mutation unpublishing from every present publication; no
      request when none is present. */
  function UnpublishCalls(globalId: string, ids: seq<string>): seq<Call> {
    if PS.Present(ids) == [] then [] else [UnpublishMutation(globalId, PS.Present(ids))]
  }

  // ---------------------------------------------------------------------
  // handleProductSync

  datatype SyncOutcome = Busy | NotSold | Done | Failed(error: Thrown)

  datatype Trace = Trace(calls: seq<Call>, outcome: SyncOutcome)

  /** The sold branch, given what `adjustInventory` settled to: reset the
      inventory and add the tag (both requests go out together), then
      unpublish if either reports a change. */
  function SoldSteps(globalId: string, p: RestProduct, ids: seq<string>, r: RestReplies, inv: Result<bool>): (t: Trace)
    requires p.variants != []
    ensures InventoryCalls(p.variants[0], r) + TagCalls(globalId, PS.TrimAll(SplitOn(OrEmpty(p.tags), ","))) <= t.calls
    ensures t.outcome.Done? || t.outcome.Failed?
  {
    var tags := PS.TrimAll(SplitOn(OrEmpty(p.tags), ","));
    var tag := TagResult(tags, r.tags);
    var started := InventoryCalls(p.variants[0], r) + TagCalls(globalId, tags);
    if inv.Threw? then Trace(started, Failed(inv.error))
    else if tag.Threw? then Trace(started, Failed(tag.error))
    else if !(inv.value || tag.value) then Trace(started, Done)
    else
      var unpublished := UnpublishCalls(globalId, ids);
      if unpublished != [] && r.unpublish.Threw? then Trace(started + unpublished, Failed(r.unpublish.error))
      else Trace(started + unpublished, Done)
  }

  /** The sold branch with the intended inventory result: the channels are
      unpublished only after a request that changed the product. */
  function SoldTrace(globalId: string, p: RestProduct, ids: seq<string>, r: RestReplies): (t: Trace)
    requires p.variants != []
    ensures (exists c :: c in t.calls && c.UnpublishMutation?) ==>
      exists c :: c in t.calls && (c.Adjust? || c.TagMutation?)
  {
    UnpublishFollowsWrite(globalId, p, ids, r);
    SoldSteps(globalId, p, ids, r, AdjustResult(r))
  }

  /** The sold branch as written, with the result line 110 computes: it
      makes every request the intended branch makes, and may unpublish
      where the intended branch does not. */
  function SoldTraceAsWritten(globalId: string, p: RestProduct, ids: seq<string>, r: RestReplies): (t: Trace)
    requires p.variants != []
    ensures SoldTrace(globalId, p, ids, r).calls <= t.calls
  {
    AsWrittenOverreports(r);
    SoldSteps(globalId, p, ids, r, AdjustResultAsWritten(r))
  }

  /** With the intended result, an unpublish follows an adjustment or the
      tag mutation. */
  lemma UnpublishFollowsWrite(globalId: string, p: RestProduct, ids: seq<string>, r: RestReplies)
    requires p.variants != []
    ensures var t := SoldSteps(globalId, p, ids, r, AdjustResult(r));
      (exists c :: c in t.calls && c.UnpublishMutation?) ==>
      exists c :: c in t.calls && (c.Adjust? || c.TagMutation?)
  {
    var t := SoldSteps(globalId, p, ids, r, AdjustResult(r));
    var tags := PS.TrimAll(SplitOn(OrEmpty(p.tags), ","));
    var started := InventoryCalls(p.variants[0], r) + TagCalls(globalId, tags);
    if c :| c in t.calls && c.UnpublishMutation? {
      UnpublishOnlyAfterChange(globalId, p, ids, r, AdjustResult(r), c);
      if AdjustResult(r) == Ok(true) {
        assert started[1] in t.calls && started[1].Adjust?;
      } else {
        assert started[|InventoryCalls(p.variants[0], r)|] in t.calls;
      }
    }
  }

  /** One location with nothing available, a product already tagged 'Sold'
      and a publication: the code as written unpublishes the product
      although it sent no adjustment and no tag mutation, while the
      intended branch only reads the levels. */
  lemma PhantomUnpublish(globalId: string, p: RestProduct, ids: seq<string>, r: RestReplies)
    requires p.variants != []
    requires r.levels == Ok(Some([PS.Level("loc-1", Some(0))]))
    requires "Sold" in PS.TrimAll(SplitOn(OrEmpty(p.tags), ","))
    requires PS.Present(ids) != []
    ensures UnpublishMutation(globalId, PS.Present(ids)) in SoldTraceAsWritten(globalId, p, ids, r).calls
    ensures forall c :: c in SoldTraceAsWritten(globalId, p, ids, r).calls ==> !c.Adjust? && !c.TagMutation?
    ensures SoldTrace(globalId, p, ids, r) == Trace([GetLevels(p.variants[0])], Done)
  {
    var tags := PS.TrimAll(SplitOn(OrEmpty(p.tags), ","));
    PhantomInventoryChange(p.variants[0], r);
    assert TagCalls(globalId, tags) == [] && TagResult(tags, r.tags) == Ok(false);
    assert UnpublishCalls(globalId, ids) == [UnpublishMutation(globalId, PS.Present(ids))];
    var t := SoldSteps(globalId, p, ids, r, AdjustResultAsWritten(r));
    assert t.calls == [GetLevels(p.variants[0]), UnpublishMutation(globalId, PS.Present(ids))];
  }

  /** The try block: read the product and its metafields, skip a product
      that is not sold, fail on a product without a variant. */
  function TryTrace(productId: string, globalId: string, ids: seq<string>, r: RestReplies): (t: Trace)
    ensures |t.calls| >= 1 && t.calls[0] == GetProduct(productId)
    ensures t.outcome != Busy
    ensures t.outcome == NotSold ==> t.calls == [GetProduct(productId), GetMetafields(productId)]
  {
    var read := [GetProduct(productId), GetMetafields(productId)];
    if r.product.Threw? then Trace([GetProduct(productId)], Failed(r.product.error))
    else if r.metafields.Threw? then Trace(read, Failed(r.metafields.error))
    else if r.metafields.value.None? then Trace(read, Failed(PS.ReadError("undefined", "map")))
    else if !IsSold(MfMap(r.metafields.value.value)) then Trace(read, NotSold)
    else if r.product.value.None? then Trace(read, Failed(PS.ReadError("undefined", "variants")))
    else if r.product.value.value.variants == [] then Trace(read, Failed(NoVariant))
    else
      var t := SoldTrace(globalId, r.product.value.value, ids, r);
      Trace(read + t.calls, t.outcome)
  }

  /** A product the ERP does not mark sold is read and left alone. */
  lemma NotSoldIsOnlyRead(productId: string, globalId: string, ids: seq<string>, r: RestReplies)
    requires r.product.Ok? && r.metafields.Ok? && r.metafields.value.Some?
    requires !IsSold(MfMap(r.metafields.value.value))
    ensures TryTrace(productId, globalId, ids, r) == Trace([GetProduct(productId), GetMetafields(productId)], NotSold)
  {
  }

  /** Whatever the inventory result, the channels are unpublished only
      when it or the tag step reports a change, and then from the present
      publications only. */
  lemma UnpublishOnlyAfterChange(globalId: string, p: RestProduct, ids: seq<string>, r: RestReplies,
                                 inv: Result<bool>, c: Call)
    requires p.variants != []
    requires c in SoldSteps(globalId, p, ids, r, inv).calls && c.UnpublishMutation?
    ensures inv == Ok(true) || TagResult(PS.TrimAll(SplitOn(OrEmpty(p.tags), ",")), r.tags) == Ok(true)
    ensures c == UnpublishMutation(globalId, PS.Present(ids)) && PS.Present(ids) != []
  {
    var tags := PS.TrimAll(SplitOn(OrEmpty(p.tags), ","));
    var started := InventoryCalls(p.variants[0], r) + TagCalls(globalId, tags);
    NoUnpublishBeforeChange(globalId, p.variants[0], tags, r);
    var t := SoldSteps(globalId, p, ids, r, inv);
    assert t.calls == started || t.calls == started + UnpublishCalls(globalId, ids);
    assert c !in started;
  }

  /** Resetting the inventory and tagging never unpublish. */
  lemma NoUnpublishBeforeChange(globalId: string, itemId: string, tags: seq<string>, r: RestReplies)
    ensures forall d :: d in InventoryCalls(itemId, r) + TagCalls(globalId, tags) ==> !d.UnpublishMutation?
  {
    var inv := InventoryCalls(itemId, r);
    assert forall k :: 0 <= k < |inv| ==> !inv[k].UnpublishMutation?;
  }

  // ---------------------------------------------------------------------
  // The module state

  /** The ids being synced, the requests made so far, and the four
      publication ids read from the environment. */
  class StatusSync {
    var processing: set<string>
    var calls: seq<Call>
    const publicationIds: seq<string>

    constructor (publicationIds: seq<string>)
      ensures processing == {} && calls == [] && this.publicationIds == publicationIds
    {
      this.publicationIds := publicationIds;
      processing := {};
      calls := [];
    }

    /** `adjustInventory(inventoryItemId)`, with its result as intended. */
    method AdjustInventory(itemId: string, r: RestReplies) returns (changed: Result<bool>)
      modifies this
      ensures calls == old(calls) + InventoryCalls(itemId, r) && changed == AdjustResult(r)
      ensures processing == old(processing)
    {
      calls := calls + [GetLevels(itemId)];
      if r.levels.Threw? {
        return Threw(r.levels.error);
      }
      var jobs := PS.InStockLevels(PS.LevelsOf(r.levels.value));
      calls := calls + AdjustCalls(itemId, jobs);
      var failed := FirstFailure(|jobs|, r.adjust);
      if failed.Some? {
        return Threw(failed.value);
      }
      changed := Ok(|jobs| > 0);
    }

    /** `ensureSoldTag(globalId, tags)`. */
    method EnsureSoldTag(globalId: string, tags: seq<string>, reply: Result<()>) returns (added: Result<bool>)
      modifies this
      ensures calls == old(calls) + TagCalls(globalId, tags) && added == TagResult(tags, reply)
      ensures processing == old(processing)
    {
      if "Sold" in tags {
        return Ok(false);
      }
      calls := calls + [TagMutation(globalId, tags + ["Sold"])];
      if reply.Threw? {
        return Threw(reply.error);
      }
      added := Ok(true);
    }

    /** `bulkUnpublish(globalId, publicationIds)`. */
    method BulkUnpublish(globalId: string, reply: Result<()>) returns (done: Result<()>)
      modifies this
      ensures calls == old(calls) + UnpublishCalls(globalId, publicationIds)
      ensures UnpublishCalls(globalId, publicationIds) == [] ==> done == Ok(())
      ensures UnpublishCalls(globalId, publicationIds) != [] ==> done == reply
      ensures processing == old(processing)
    {
      var fields := PS.Present(publicationIds);
      if fields == [] {
        return Ok(());
      }
      calls := calls + [UnpublishMutation(globalId, fields)];
      done := reply;
    }

    /** The sold branch of the try block. */
    method Sell(globalId: string, p: RestProduct, r: RestReplies) returns (outcome: SyncOutcome)
      requires p.variants != []
      modifies this
      ensures calls == old(calls) + SoldTrace(globalId, p, publicationIds, r).calls
      ensures outcome == SoldTrace(globalId, p, publicationIds, r).outcome
      ensures processing == old(processing)
    {
      var existingTags := PS.TrimAll(SplitOn(OrEmpty(p.tags), ","));
      ghost var before := calls;
      ghost var started := InventoryCalls(p.variants[0], r) + TagCalls(globalId, existingTags);
      var invChanged := AdjustInventory(p.variants[0], r);
      var tagChanged := EnsureSoldTag(globalId, existingTags, r.tags);
      assert calls == before + started;
      if invChanged.Threw? {
        return Failed(invChanged.error);
      }
      if tagChanged.Threw? {
        return Failed(tagChanged.error);
      }
      if invChanged.value || tagChanged.value {
        var unpublished := BulkUnpublish(globalId, r.unpublish);
        if unpublished.Threw? {
          return Failed(unpublished.error);
        }
      }
      outcome := Done;
    }

    /** The try block of `handleProductSync`. */
    method Process(productId: string, globalId: string, r: RestReplies) returns (outcome: SyncOutcome)
      modifies this
      ensures calls == old(calls) + TryTrace(productId, globalId, publicationIds, r).calls
      ensures outcome == TryTrace(productId, globalId, publicationIds, r).outcome
      ensures processing == old(processing)
    {
      calls := calls + [GetProduct(productId)];
      if r.product.Threw? {
        return Failed(r.product.error);
      }
      calls := calls + [GetMetafields(productId)];
      if r.metafields.Threw? {
        return Failed(r.metafields.error);
      }
      if r.metafields.value.None? {
        return Failed(PS.ReadError("undefined", "map"));
      }
      var mfMap := MfMap(r.metafields.value.value);
      if !IsSold(mfMap) {
        return NotSold;
      }
      if r.product.value.None? {
        return Failed(PS.ReadError("undefined", "variants"));
      }
      var product := r.product.value.value;
      if product.variants == [] {
        return Failed(NoVariant);
      }
      ghost var read := calls;
      outcome := Sell(globalId, product, r);
      assert read == old(calls) + [GetProduct(productId), GetMetafields(productId)];
      Appended(old(calls), [GetProduct(productId), GetMetafields(productId)], calls[|read|..]);
    }

    /** `handleProductSync(productGid)`: skip an id already being synced;
        otherwise mark it, run the try block, and release the mark on every
        exit, the rethrowing one included. */
    method HandleProductSync(productGid: string, r: RestReplies) returns (outcome: SyncOutcome)
      modifies this
      ensures processing == old(processing)
      ensures PS.ProductId(productGid) in old(processing) ==> outcome == Busy && calls == old(calls)
      ensures PS.ProductId(productGid) !in old(processing) ==>
        var t := TryTrace(PS.ProductId(productGid), PS.GlobalId(productGid), publicationIds, r);
        calls == old(calls) + t.calls && outcome == t.outcome
    {
      var productId := PS.ProductId(productGid);
      var globalId := PS.GlobalId(productGid);
      if productId in processing {
        return Busy;
      }
      processing := processing + {productId};
      outcome := Process(productId, globalId, r);
      processing := processing - {productId};
      PS.Released(old(processing), productId);
    }
  }

  lemma Appended(a: seq<Call>, b: seq<Call>, c: seq<Call>)
    ensures a + b + c == a + (b + c)
  {
  }
}

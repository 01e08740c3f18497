# shopify-hubspot-sync, modelled in Dafny

This project models the sync core of shopify-hubspot-sync. It has two directions between a Shopify store and a HubSpot CRM:

- **Store product → CRM product.** A product's record is mapped to CRM properties: the allow-listed metafields become `namespace__key` properties and empty values are dropped. The CRM is searched by SKU and the product is updated or created there. A CRM error is classified into one failure record.
- **Orchestration.** The runs that drive this are a run over a SKU list, a run over every store product and a run over a date range. They:
  - page through the store with a cursor;
  - count progress;
  - stream a server-sent-event log;
  - stop early when the client disconnects;
  - mail a failure report;
  - append an entry to the sync history.
- **Store-status handler (two revisions).** This reads a product's ERP metafields and decides between sold, deleted, boxed and no action. It then zeroes inventory, adds a tag, unpublishes and archives. A `processing` set guards against re-entry, and store calls are retried with linear back-off.
- **Small pieces.**
  - The CRM-to-store property write-back, which splits `namespace__key` again.
  - The contact purge script, which lists, chunks and archives.
  - The CSV export of the result panel.

Every external service is an oracle. This covers the store, the CRM, the mail transport and the page sources. A call's outcome is a parameter: a `Result` that is either the value or what was thrown, with numbered replies for repeated calls. The calls the code issues are recorded as a trace, and contracts state the trace and the new state.

The code was written to be updated in place, and the model keeps that form:

- the handler services are classes with a `processing` set and a call trace;
- a run is a class holding the event stream, the failures and the requests;
- the history file is a class;
- loops are `while`/`for` loops with their invariants.

Each method is proved against a specification function: `Combine`, `WalkPages`, `Paged`, `TryTrace`, `SoldTrace`, `MetafieldProperties`, `Rows`. The properties are then proved about those functions.

Modules, one per source file, plus two shared ones:

- `Js` (js.dfy): nullable values, thrown values, results.
- `Text` (text.dfy): the JavaScript string built-ins the code uses, `trim`, `split`, `indexOf`, `startsWith` and the `\s` class, with their laws.
- `Retry` (retry.dfy): what both `withRetry` revisions promise.
- `HubSpot` (hubspot.dfy): lib/hubspot.js.
- `ProductSyncService` (product_sync_service.dfy): services/productSyncService.js.
- `ProductSync` (product_sync.dfy): lib/productSync.js.
- `ShopifyStatusSync` (shopify_status_sync.dfy): lib/shopifyStatusSync.js.
- `HistoryLogger` (history.dfy): lib/historyLogger.js.
- `Email` (email.dfy): lib/email.js.
- `HubSpotSyncService` (hubspot_sync_service.dfy): services/hubspotSyncService.js.
- `DeleteContacts` (delete_contacts.dfy): delete-all-contacts.js.
- `SyncResultPanel` (sync_result_panel.dfy): frontend/src/components/SyncResultPanel.js.

Behaviour of the code worth knowing:

- **No `success` result.** `createOrUpdateHubSpotProduct` never returns a `success` result. So `successes` stays empty in every run, and the run classes keep that as an invariant.
- **Blank SKU.** A product whose SKU is blank is skipped with a warning line and no failure.
- **Cancelled or failed run.** A cancelled full-catalog run mails nothing and saves no history. Neither does a run whose page fetch throws.
- **Lookup that throws.** In a SKU run, a lookup that throws rejects its task (`Promise.allSettled`): no line is logged, the SKU is not counted and no failure is recorded.
- **Completion line.** The completion line "Synced N products" reports `successes.length + failures.length`, which is the number of failures.
- **No run guard.** Nothing stops two full-catalog runs from overlapping. Only the rate limiter sits in front of the routes, and it is left out.

## Model

| member | source | states |
|---|---|---|
| Js.OrEmpty | lib/hubspot.js:80-87 | reference definition of `x \|\| ""` (the string when present, "" when null or undefined); the "" it gives a missing field is then dropped by `HubSpot.FilterEmptyProperties`, so a missing field is never sent |
| Text.TrimStart | lib/hubspot.js:29 | `trim` drops only white space from the front, and what it keeps is empty or starts with a non-space |
| Text.TrimStartIsSuffix | lib/hubspot.js:29 | what the front trim keeps is a suffix of the input |
| Text.TrimEnd | lib/hubspot.js:29 | the back trim drops only white space, keeps a prefix, and that prefix is empty or ends with a non-space |
| Text.Trim | lib/hubspot.js:29 | what `trim` keeps is empty or starts and ends with a non-space |
| Text.BlankIffAllSpaces | lib/hubspot.js:92 | `!s.trim()` holds exactly when every character is white space |
| Text.IndexFromIsFirst | services/hubspotSyncService.js:25 | a search from an index finds an occurrence no later than any occurrence after that index |
| Text.IndexOfIsFirst | services/hubspotSyncService.js:25 | `indexOf` finds the first occurrence of the pattern |
| Text.JoinSplitOn | lib/productSync.js:126 | joining the pieces of `split(sep)` with `sep` gives the text back |
| Text.SplitOnFound | services/hubspotSyncService.js:25 | when the separator occurs, the first piece is the text before its first occurrence and the rest are the pieces of the text after it |
| Text.SplitOnPiecesFree | lib/productSync.js:126 | no piece of `split(sep)` contains `sep` |
| Text.LastSegment | lib/productSync.js:196 | `split('/').pop()` holds no separator and is no longer than the input |
| Text.LastSegmentFollowsLastSeparator | lib/productSync.js:196 | the last segment is a suffix of the input, preceded by the separator unless it is the whole input |
| Text.LastSegmentIsLastPiece | lib/productSync.js:196 | the last segment is exactly the last piece `split` produces |
| Text.LastSegmentWhole | lib/productSync.js:196 | a text without the separator is its own last segment |
| Text.LastSegmentOfSuffix | lib/productSync.js:196 | the last segment is unchanged by dropping the text up to any separator |
| Text.FirstSpaceIsFirst | services/productSyncService.js:50-51 | the white-space search finds the first white-space character: none occurs before it |
| Text.SplitSpacesNoSpace | services/productSyncService.js:50-51 | no piece of `split(/\s+/)` holds white space |
| Text.SplitSpacesFound | services/productSyncService.js:50-51 | a text with white space splits into the run before it, then the pieces after the whole white-space run |
| Text.SplitSpacesNonEmpty | services/productSyncService.js:50-51 | a text that starts and ends with non-space (a trimmed non-blank text) splits into non-empty pieces |
| Text.SplitSpacesConcat | services/productSyncService.js:50-51 | the pieces, concatenated, are the text with its white space removed |
| Text.RemoveSpacesAppend | services/productSyncService.js:50-51 | removing white space distributes over concatenation |
| Text.ReplaceNewlines | services/productSyncService.js:8 | `replace(/\n/g, ' ')` keeps the length, puts a space exactly where a line feed was, and leaves no line feed |
| Text.NatToString | services/productSyncService.js:37 | a counter prints as a non-empty run of decimal digits |
| Text.LowerAll | frontend/src/components/SyncResultPanel.js:11 | the `/i` comparison lowers each character and keeps the length |
| Retry.Backoff | lib/productSync.js:55 | reference definition of the wait schedule, the i-th wait `baseDelay * (i + 1)`; `ProductSync.WithRetry` and `ShopifyStatusSync.WithRetry` prove that the loops wait exactly this schedule |
| Retry.RetriedIsDetermined | lib/productSync.js:50-60 | both wrapper revisions, given the same call outcomes and budget, make the same number of calls and settle the same way |
| Retry.RetrySucceedsIff | lib/shopifyStatusSync.js:47-60 | the wrapper succeeds exactly when one of the first `retries + 1` calls succeeds, and then with the first success |
| HubSpot.PropertyName | lib/hubspot.js:31 | the CRM name is the namespace, `__` and the key, each at its place; `HubSpotSyncService.ParseInvertsPropertyName` shows the write-back splits it again |
| HubSpot.ExtractMetafields | lib/hubspot.js:22-35 | the `forEach` builds exactly the fold over the metafields |
| HubSpot.KeptIsPresent | lib/hubspot.js:26-31 | a metafield with an allowed namespace and a non-blank value puts `namespace__key` in the result |
| HubSpot.PresentIsKept | lib/hubspot.js:26-31 | every name in the result comes from such a metafield |
| HubSpot.MetafieldPropertiesLastWins | lib/hubspot.js:31 | a name holds the untrimmed value of the last kept metafield stored under it |
| HubSpot.FilterEmptyProperties | lib/hubspot.js:40-46 | the result is a sub-map of the input that keeps exactly the entries that are not null and not a blank string; numbers and booleans pass |
| HubSpot.FilterEmptyIdempotent | lib/hubspot.js:40-46 | filtering twice is filtering once |
| HubSpot.ParseHubSpotError | lib/hubspot.js:51-66 | the loop computes the detail's message and the fold of missing property names |
| HubSpot.MissingPropertiesAppend | lib/hubspot.js:57-63 | the missing properties are the in-order concatenation of the `PROPERTY_DOESNT_EXIST` entries' names |
| HubSpot.ParsedErrorShapes | lib/hubspot.js:52-65 | a string detail is the message unchanged with no missing properties; an `errors` that is not an array gives none |
| HubSpot.FailureReason | lib/hubspot.js:119-127 | the reason is "Missing Properties: …" when names are missing, else "SKU already in use. …" when the message says so, else the raw message |
| HubSpot.Caught | lib/hubspot.js:118-139 | the catch block keeps the calls and pushes one failure under the caller's SKU or "Unknown SKU", with the classified reason |
| HubSpot.AfterSearch | lib/hubspot.js:98-117 | after the search, exactly one update-or-create follows, and a failure is recorded exactly when that write throws |
| HubSpot.AfterFetch | lib/hubspot.js:75-117 | a blank SKU stops after the fetch with no failure; otherwise a search by `hs_sku` with limit 1, then the write when the search answers |
| HubSpot.Reconcile | lib/hubspot.js:71-140 | the fetch comes first; a failure is recorded exactly when the fetch throws, or the SKU is not blank and the search or the write throws; it is filed under the caller's SKU label |
| HubSpot.BlankSkuSkipped | lib/hubspot.js:92-95 | a blank SKU gets no search, no write and no failure |
| HubSpot.SearchThenOneWrite | lib/hubspot.js:98-117 | otherwise the search is by `hs_sku` EQ the SKU with limit 1, and exactly one update or create follows an answered search |
| HubSpot.FailureIsClassified | lib/hubspot.js:118-138 | whichever call throws, the one failure carries the classified reason of that error |
| HubSpot.WriteCallShape | lib/hubspot.js:90-117 | a non-empty search updates its first id, an empty one creates, and the properties sent all passed the empty filter |
| HubSpot.DeleteProduct | lib/hubspot.js:146-176 | no id: no call; otherwise a search by `shopify_id` with limit 1, an archive of the first match only, exactly one log line and no rethrow |
| ProductSyncService.Frames | services/productSyncService.js:7-17 | one event per logged message |
| ProductSyncService.FrameIsOneEvent | services/productSyncService.js:8-12 | each event is `data: `, a line-feed-free payload of the message's length and the blank line ending the event |
| ProductSyncService.FramesAppend | services/productSyncService.js:7-17 | the events of successive messages are written in order |
| ProductSyncService.Response.Log | services/productSyncService.js:7-17 | the logger writes the message's event unless the response has ended, and changes nothing else |
| ProductSyncService.Response.LogAll | services/productSyncService.js:7-17 | the logger over several messages writes their events in order, nothing once ended |
| ProductSyncService.Response.Write | services/productSyncService.js:193-198 | `res.write` appends the text as given |
| ProductSyncService.Response.End | services/productSyncService.js:199 | `res.end` ends the response and writes nothing |
| ProductSyncService.NormalizeSkus | services/productSyncService.js:49-53 | the SKU list has no SKU holding white space, and the SKUs together spell the input (text or list) without its white space; a text gives at least one SKU |
| ProductSyncService.SplitSku | services/productSyncService.js:51 | a SKU text yields at least one SKU |
| ProductSyncService.SplitSkuShape | services/productSyncService.js:50-51 | a blank text yields the single SKU ""; otherwise every SKU is non-empty and has no white space |
| ProductSyncService.SplitSkuKeepsText | services/productSyncService.js:51 | the SKUs, concatenated, are the text with its white space removed |
| ProductSyncService.FlatSplitKeepsText | services/productSyncService.js:50 | a list's SKUs, concatenated, are its texts concatenated without white space (duplicates kept) |
| ProductSyncService.FlatSplitNoSpace | services/productSyncService.js:50 | no SKU of a list holds white space |
| ProductSyncService.Combine | services/productSyncService.js:22-41 | a batch counts each completed task once, and pushes no more failures than it counts |
| ProductSyncService.FailureOrigin | services/productSyncService.js:22-41 | every failure of a batch is the failure of one completed task |
| ProductSyncService.FailureKept | services/productSyncService.js:22-41 | every completed task's failure is in the batch's failures |
| ProductSyncService.AllCounted | services/productSyncService.js:36-37 | when no task is rejected, the counter rises by the number of tasks |
| ProductSyncService.CountedIffAllDone | services/productSyncService.js:36-75 | the counter reaches the task count exactly when no task is rejected |
| ProductSyncService.EndsWithProgress | services/productSyncService.js:36-37 | a batch whose last task completes ends with the progress line carrying the final counter |
| ProductSyncService.CombineStep | services/productSyncService.js:22-41 | one more completed task adds its calls, logs, failure and progress line |
| ProductSyncService.PageTasks | services/productSyncService.js:22-30 | reference definition of a page's tasks: the k-th product is reconciled under its first variant's SKU with its own replies; `PageCountsEveryProduct` proves that the page run counts every product |
| ProductSyncService.PageCountsEveryProduct | services/productSyncService.js:36 | a page batch counts every product of the page |
| ProductSyncService.SkuTasks | services/productSyncService.js:58-78 | reference definition of a SKU run's tasks: the i-th task looks up the i-th SKU and reconciles the product found; `NotFoundIsRecorded` and `SkuFailureOrigin` state what failures the run records |
| ProductSyncService.NotFoundIsRecorded | services/productSyncService.js:60-64 | a SKU the store does not know is recorded as "Product not found in Shopify" under that SKU |
| ProductSyncService.SkuFailureOrigin | services/productSyncService.js:58-78 | every failure of a SKU run comes from one answered lookup: "not found" under the SKU, or the reconciliation's failure under its label |
| ProductSyncService.SkuTaskDone | services/productSyncService.js:60 | a SKU's task is rejected exactly when its lookup throws |
| ProductSyncService.SkuRunCountsAll | services/productSyncService.js:53-75 | the counter reaches the number of SKUs exactly when no lookup throws |
| ProductSyncService.Requests | services/productSyncService.js:111-128 | one page request per page read |
| ProductSyncService.RequestsFollowCursors | services/productSyncService.js:112-128 | the first request has no cursor; each later one uses the last edge's cursor when a next page was announced and the page had edges, else the previous cursor |
| ProductSyncService.RequestsStep | services/productSyncService.js:115-128 | reading a page records one request made with the current cursor and advances the cursor |
| ProductSyncService.GrowFrames | services/productSyncService.js:118-121 | a page's events follow those of the pages before it |
| ProductSyncService.WalkStep | services/productSyncService.js:114-128 | one more page extends the walk by that page's batch |
| ProductSyncService.WalkFailuresBounded | services/productSyncService.js:116-123 | the failures never outnumber `totalCount`, the number of products listed |
| ProductSyncService.NoFailureWithoutFailingTask | services/productSyncService.js:22-41 | a batch none of whose tasks fails pushes no failure |
| ProductSyncService.CleanPageHasNoFailures | services/productSyncService.js:22-41 | a page whose store and CRM calls all succeed pushes no failure |
| ProductSyncService.CleanRepliesNeverFail | services/productSyncService.js:22-41 | with every call succeeding, no page batch ever fails |
| ProductSyncService.WalkWithoutFailures | services/productSyncService.js:114-135 | a walk whose batches never fail has no failure |
| ProductSyncService.CleanWalkHasNoFailures | services/productSyncService.js:123-137 | a run whose calls all succeed ends with no failure, so its count line says "Synced 0 products" |
| ProductSyncService.ReceivedStep | services/productSyncService.js:114-135 | reading the next answer while the loop goes on keeps the pages read a prefix of the answers |
| ProductSyncService.PagedIsDetermined | services/productSyncService.js:114-135 | the answers and the stops decide the pages read and how the loop ends |
| ProductSyncService.SyncRun.constructor | services/productSyncService.js:45-47 | a run starts with no failures, successes, calls, lookups, requests, pages or mails |
| ProductSyncService.SyncRun.RunTask | services/productSyncService.js:24-38 | one task: a rejected one changes nothing, a completed one extends the run by its effect |
| ProductSyncService.SyncRun.Complete | services/productSyncService.js:25-37 | a completed task records its calls and failure and logs its lines, then the progress line |
| ProductSyncService.SyncRun.RunBatch | services/productSyncService.js:19-42 | the batch leaves exactly the calls, failures and events of `Combine` |
| ProductSyncService.SyncRun.ProcessProducts | services/productSyncService.js:19-42 | `processProducts` leaves the effect of the page's tasks, counting from the given counter |
| ProductSyncService.SyncRun.RunSkuBatch | services/productSyncService.js:58-80 | every SKU is looked up in order, and the run holds the batch's calls, failures and events |
| ProductSyncService.SyncRun.SendSummary | services/productSyncService.js:83-87 | one summary of the successes and failures is mailed, and the run goes on either way |
| ProductSyncService.SyncRun.CloseAll | services/productSyncService.js:137-148 | the count line, one mail, one "all" history entry, the end marker, then the response ends |
| ProductSyncService.SyncRun.CloseRange | services/productSyncService.js:182-200 | the count line, one mail, one "dates" entry, then `FINAL:` with the failure count only when the response is open |
| ProductSyncService.SyncRun.Stop | services/productSyncService.js:130-134 | the cancellation lines, then the response ends |
| ProductSyncService.SyncRun.TakePage | services/productSyncService.js:116-123 | a page's batch counts from the failure count and runs to the new total |
| ProductSyncService.SyncRun.ReadPage | services/productSyncService.js:115-128 | `totalCount` grows by the page's size, `processedCount` is reset to the failure count, and the cursor advances |
| ProductSyncService.SyncRun.NextPage | services/productSyncService.js:114-135 | one round: a request with the current cursor, then either the loop goes on or it leaves with its outcome |
| ProductSyncService.SyncRun.TakeAnswer | services/productSyncService.js:115-134 | an answered round runs the page and stops on a disconnect or an ended response, or when no next page is announced |
| ProductSyncService.SyncRun.FetchPages | services/productSyncService.js:111-135 | the loop reads the answers up to the last page, a cancellation or a throw; it makes one request per round with the cursor chain and leaves the walk's calls, failures and events |
| ProductSyncService.RunSkus | services/productSyncService.js:53-89 | a SKU run: every SKU looked up, the batch's effect, the completion line, one mail, one "sku" history entry, response left open |
| ProductSyncService.SyncBySkus | services/productSyncService.js:44-90 | the same, over the normalised SKU list, with SKU i's lookup and replies |
| ProductSyncService.RunAllPages | services/productSyncService.js:92-151 | a full run: the start line, the page loop with cancellation, then the close on completion only; cancelled or aborted runs mail nothing and save nothing |
| ProductSyncService.RunRangePages | services/productSyncService.js:153-203 | a date-range run: never cancelled, and closed with the count line, the mail, the "dates" entry and `FINAL:` on completion |
| ProductSyncService.SyncAllProducts | services/productSyncService.js:92-151 | `syncAllProducts` with the products reconciled in listing order |
| ProductSyncService.SyncProductsByDateRange | services/productSyncService.js:153-203 | `syncProductsByDateRange` with the products reconciled in listing order |
| ProductSync.WithRetry | lib/productSync.js:50-60 | at most `attempts + 1` calls, the first success or the last error, and a wait of `baseDelay * (i + 1)` before retry i+1 |
| ProductSync.ProductId | lib/productSync.js:196 | the id is the text after the last '/' |
| ProductSync.GlobalId | lib/productSync.js:197 | the id used starts with `gid://`; an input that already does is used unchanged, and any other gets a product prefix followed by a slash-free id |
| ProductSync.FetchProductAndMF | lib/productSync.js:107-138 | a thrown query is rethrown; the facts are produced exactly when the product exists and has a variant |
| ProductSync.FetchedFields | lib/productSync.js:124-137 | tags from an array or from comma pieces; missing metafields read ""; the sold flag reads "false"; a weight only when its text is neither null nor "" |
| ProductSync.TagTextPieces | lib/productSync.js:126 | a text tag list is its comma pieces trimmed, and the pieces rejoin to the text |
| ProductSync.TrimAll | lib/productSync.js:126 | every piece is trimmed, in place, so no piece starts or ends with white space; `TagTextPieces` proves that the pieces are those of the comma split of the text |
| ProductSync.FirstFiring | lib/productSync.js:211-239 | the reference decision picks a branch from the order whose condition holds, or no action |
| ProductSync.Decide | lib/productSync.js:211-239 | the handler's if-chain picks one of the five branches, and its condition holds |
| ProductSync.DecideIsFirstFiring | lib/productSync.js:211-239 | the handler's if-chain is the first firing branch in the order already-sold, sold, deleted, boxed, none |
| ProductSync.DecideRespectsOrder | lib/productSync.js:211-239 | the branch taken fires, and no earlier branch does |
| ProductSync.InStockLevels | lib/productSync.js:144-145 | exactly the levels with `available > 0`, a missing count read as not positive |
| ProductSync.Adjustments | lib/productSync.js:146-152 | one adjustment per in-stock level |
| ProductSync.FulfilledPositive | lib/productSync.js:153-156 | the success count is positive exactly when one adjustment succeeded |
| ProductSync.Present | lib/productSync.js:27-32 | `filter(Boolean)` keeps exactly the non-empty ids, and never more than it was given |
| ProductSync.PresentAppend | lib/productSync.js:27-32 | the filter works id by id, so it keeps the order of the list |
| ProductSync.PresentKeepsNonEmpty | lib/productSync.js:27-32 | ids that are all non-empty pass unchanged, duplicates included |
| ProductSync.SoldTrace | lib/productSync.js:217-224 | the sold branch starts with the reset and tag requests, and ends marked sold or failed |
| ProductSync.TryTrace | lib/productSync.js:204-242 | the try block starts with the product query and never reports busy |
| ProductSync.SoldProductIsLeftAlone | lib/productSync.js:209-215 | a product whose sold flag is "true" is queried and nothing else |
| ProductSync.ResetAdjustsInStockLevels | lib/productSync.js:140-157 | a list request, then one adjustment per in-stock level by minus its count; the result is true exactly when one of them succeeded |
| ProductSync.SoldBranchShape | lib/productSync.js:217-224 | unpublish happens exactly when inventory or tags changed and a publication exists; a completed sold branch ends by setting the sold flag, changed or not |
| ProductSync.TagAddedOnlyWhenMissing | lib/productSync.js:159-168 | a present tag sends nothing and returns false; otherwise one mutation with the tag appended last |
| ProductSync.SoldBranchKeepsProduct | lib/productSync.js:217-224 | the sold branch never archives |
| ProductSync.ArchiveOnlyWhenRetired | lib/productSync.js:225-236 | the product is archived only on the deleted and boxed branches |
| ProductSync.ProductSyncService.constructor | lib/productSync.js:27-104 | nothing is being processed, no call is made, and the publications are the non-empty ids |
| ProductSync.ProductSyncService.ResetInventory | lib/productSync.js:140-157 | `resetInventory` makes the reset calls and returns the reset result |
| ProductSync.ProductSyncService.UpdateTags | lib/productSync.js:159-168 | `updateTags` makes the tag calls and returns whether the tag was added |
| ProductSync.ProductSyncService.Unpublish | lib/productSync.js:170-178 | no publication: no call and success; otherwise one mutation over all of them |
| ProductSync.ProductSyncService.Sell | lib/productSync.js:217-224 | the sold branch makes exactly the sold trace's calls |
| ProductSync.ProductSyncService.Retire | lib/productSync.js:225-236 | the deleted or boxed branch: the tag, then the archive |
| ProductSync.ProductSyncService.Branch | lib/productSync.js:206-239 | the if-chain makes the calls of the branch `Decide` chooses |
| ProductSync.ProductSyncService.Process | lib/productSync.js:204-242 | the try block: the query, then the chosen branch, every error surfacing as the outcome |
| ProductSync.ProductSyncService.Handle | lib/productSync.js:195-246 | a busy id makes no call; otherwise the handle's trace, and `processing` is restored on every exit |
| ShopifyStatusSync.WithRetry | lib/shopifyStatusSync.js:47-60 | at most `retries + 1` calls, the first success or the last error, and a wait of `delayMs * attempt` before each retry |
| ShopifyStatusSync.MfMap | lib/shopifyStatusSync.js:168-170 | `Object.fromEntries` holds no more keys than there are metafields (what it holds: `MfMapLastWins`) |
| ShopifyStatusSync.MfMapLastWins | lib/shopifyStatusSync.js:168-170 | a key is present exactly when some metafield has it, and holds the last such metafield's value |
| ShopifyStatusSync.AdjustCalls | lib/shopifyStatusSync.js:94-107 | reference definition of the adjustments: one per in-stock level, by minus its count; `AdjustResultMeansAdjusted` proves that the corrected result is true exactly when one was sent and all succeeded |
| ShopifyStatusSync.FirstFailureNone | lib/shopifyStatusSync.js:109 | `Promise.all` over the adjustments succeeds exactly when every one does |
| ShopifyStatusSync.AdjustResultAsWritten | lib/shopifyStatusSync.js:88-111 | the result as written: success only when the level request and every adjustment succeed, and then `true` exactly when some level exists, in stock or not |
| ShopifyStatusSync.AdjustResult | lib/shopifyStatusSync.js:88-111 | the corrected result: success only when the level request and every adjustment succeed, and then `true` exactly when a level was in stock |
| ShopifyStatusSync.AdjustResultMeansAdjusted | lib/shopifyStatusSync.js:88-111 | the corrected result is true exactly when an adjustment was sent, and then all of them succeeded |
| ShopifyStatusSync.AsWrittenOverreports | lib/shopifyStatusSync.js:110 | the result as written throws when the corrected one does, and reports a change whenever the corrected one does |
| ShopifyStatusSync.PhantomInventoryChange | lib/shopifyStatusSync.js:94-110 | one location with nothing available: no adjustment is sent, yet the code as written returns true |
| ShopifyStatusSync.SoldSteps | lib/shopifyStatusSync.js:181-198 | the sold branch for a given inventory result: the level, adjustment and tag requests come first, and the branch ends done or failed |
| ShopifyStatusSync.SoldTrace | lib/shopifyStatusSync.js:181-198 | the sold branch with the corrected inventory result: an unpublish follows an adjustment or the tag mutation |
| ShopifyStatusSync.SoldTraceAsWritten | lib/shopifyStatusSync.js:110-198 | the sold branch as written: every request of the corrected branch, and possibly an unpublish more |
| ShopifyStatusSync.UnpublishFollowsWrite | lib/shopifyStatusSync.js:183-198 | with the corrected result, the product is unpublished only after a request that changed it |
| ShopifyStatusSync.PhantomUnpublish | lib/shopifyStatusSync.js:94-198 | one location with nothing available, a product already tagged 'Sold' and a publication: as written, the product is unpublished with no adjustment and no tag mutation sent; corrected, only the levels are read |
| ShopifyStatusSync.TryTrace | lib/shopifyStatusSync.js:164-203 | the try block starts with the product read, never reports busy, and a product that is not sold gets the two reads only |
| ShopifyStatusSync.NotSoldIsOnlyRead | lib/shopifyStatusSync.js:173-178 | a product that is not sold is read (product, metafields) and nothing is written |
| ShopifyStatusSync.UnpublishOnlyAfterChange | lib/shopifyStatusSync.js:191-198 | for any inventory result, as written or corrected: the unpublish is sent only when that result or the tag step reports a change, and it is one mutation covering every present publication id |
| ShopifyStatusSync.NoUnpublishBeforeChange | lib/shopifyStatusSync.js:183-188 | resetting inventory and tagging never unpublish |
| ShopifyStatusSync.StatusSync.constructor | lib/shopifyStatusSync.js:39 | the `processing` set starts empty |
| ShopifyStatusSync.StatusSync.AdjustInventory | lib/shopifyStatusSync.js:88-111 | the level request and the adjustments, returning the corrected result |
| ShopifyStatusSync.StatusSync.EnsureSoldTag | lib/shopifyStatusSync.js:116-127 | a present tag sends nothing and returns false; otherwise the tags with 'Sold' appended |
| ShopifyStatusSync.StatusSync.BulkUnpublish | lib/shopifyStatusSync.js:132-147 | no request when no publication id is present; otherwise one mutation over the present ones |
| ShopifyStatusSync.StatusSync.Sell | lib/shopifyStatusSync.js:181-198 | the sold branch's calls and outcome are those of the corrected sold trace (see Findings) |
| ShopifyStatusSync.StatusSync.Process | lib/shopifyStatusSync.js:164-203 | the try block: the reads, the sold check, the variant check and the corrected sold branch |
| ShopifyStatusSync.StatusSync.HandleProductSync | lib/shopifyStatusSync.js:152-207 | a busy id makes no request; otherwise the trace of the corrected try block, and `processing` is restored on every exit, the 'No variant' throw included |
| HistoryLogger.MakeEntry | lib/historyLogger.js:7-16 | `total` is the sum of the two counts, the counts are the lists' lengths, and a given timestamp is kept, the default applying only when none is given |
| HistoryLogger.HistoryFile.constructor | lib/historyLogger.js:31-34 | no file yet: the history reads as empty |
| HistoryLogger.HistoryFile.SaveSyncResult | lib/historyLogger.js:7-29 | exactly one entry appended at the end, earlier entries unchanged, every entry's counts consistent |
| HistoryLogger.HistoryFile.GetSyncHistory | lib/historyLogger.js:31-34 | the stored entries, or empty when there is no file |
| Email.ReportIsHeaderAndLines | lib/email.js:17-20 | the text is the header, then one `SKU: … - Reason: …` line per failure, in order (only the header when there is none) |
| Email.SendFailureEmail | lib/email.js:6-31 | reference definition of the mail: the fixed sender, recipient and subject, and the report text; `ReportIsHeaderAndLines` proves what that text holds |
| HubSpotSyncService.ParsePropertyName | services/hubspotSyncService.js:25-29 | a name is accepted exactly when `split('__')` gives at least two pieces and the first two are non-empty, and then namespace and key are those two pieces |
| HubSpotSyncService.FirstSeparator | lib/hubspot.js:31 | in a property name built from an underscore-free namespace, the first `__` is the joining one |
| HubSpotSyncService.ParseInvertsPropertyName | services/hubspotSyncService.js:25 | splitting `ns + "__" + key` gives back (ns, key) when ns has no underscore and key no `__` |
| HubSpotSyncService.AllowedPropertyRoundTrip | lib/hubspot.js:10-31 | every allowed namespace round-trips with any key free of `__` |
| HubSpotSyncService.KeyWithSeparatorIsCut | services/hubspotSyncService.js:25 | a key `a__b` is written back as key `a` |
| HubSpotSyncService.UnderscoreNamespaceShifts | services/hubspotSyncService.js:25 | a namespace ending in `_` comes back without it, and the key gains it |
| HubSpotSyncService.SyncProductPropertyChange | services/hubspotSyncService.js:9-38 | 404 returns silently, other lookup errors propagate, a missing `shopify_id` or an invalid name writes nothing, and otherwise the upsert gets exactly (gid, namespace, key, value), with upsert and SKU errors swallowed |
| DeleteContacts.PagesOf | delete-all-contacts.js:19-23 | reference definition of the pages read: the first answers, in order; `ListAllContactIds` proves that the ids are those pages' ids and that listing stops at the first page without `after` |
| DeleteContacts.Cursors | delete-all-contacts.js:18-22 | the first request has no cursor, each later one uses the cursor the page before it named |
| DeleteContacts.ListAllContactIds | delete-all-contacts.js:16-25 | at least one page is requested; the ids are the pages' ids in page order, and listing stops at the first page without `after` |
| DeleteContacts.IdsOfAppend | delete-all-contacts.js:21 | the ids of consecutive pages are concatenated in page order |
| DeleteContacts.IdsOfLength | delete-all-contacts.js:21 | each page's ids sit at the place the page was read |
| DeleteContacts.Chunk | delete-all-contacts.js:51-55 | the `reduce` puts the id at index idx into chunk `floor(idx / 100)`, giving `ceil(n / 100)` chunks |
| DeleteContacts.ChunksRejoin | delete-all-contacts.js:51-55 | the chunks, concatenated, are the id list |
| DeleteContacts.ChunkSizes | delete-all-contacts.js:9-55 | every chunk holds 1 to 100 ids and all but the last hold exactly 100 |
| DeleteContacts.ArchiveAll | delete-all-contacts.js:31-61 | a dry run sends nothing; otherwise one request per chunk in order; `processed` sums the archived chunks' lengths |
| DeleteContacts.AllArchivedCountsAll | delete-all-contacts.js:59 | when every archive succeeds, or in a dry run, `processed` equals the number of ids |
| DeleteContacts.ArchivedMonotone | delete-all-contacts.js:59 | `processed` only grows |
| DeleteContacts.ArchivedBound | delete-all-contacts.js:59 | `processed` never exceeds what archiving everything would count |
| DeleteContacts.DeleteAllContacts | delete-all-contacts.js:41-69 | a failed listing archives nothing and reports its error; otherwise the requests rejoin to the ids and are at most 100 each, the error reported is the first archive failure in batch order, there is no error exactly when every archive succeeds, and then every id is counted |
| DeleteContacts.FirstArchiveFailureNone | delete-all-contacts.js:49-67 | `Promise.all` over the archives rejects exactly when one of them fails |
| DeleteContacts.FirstArchiveFailureIsFirst | delete-all-contacts.js:49-67 | a reported archive error is that of a failed batch, and every batch before it succeeded |
| SyncResultPanel.FilteredLogs | frontend/src/components/SyncResultPanel.js:6 | exactly the lines not starting with the progress prefix are kept |
| SyncResultPanel.FilteredLogsAppend | frontend/src/components/SyncResultPanel.js:6 | the filter keeps the log's order |
| SyncResultPanel.FirstSkuFrom | frontend/src/components/SyncResultPanel.js:11 | the leftmost index where `SKU: ` (any case) and a SKU character occur |
| SyncResultPanel.SkuRun | frontend/src/components/SyncResultPanel.js:11 | the greedy `[^\s)]+`: the longest prefix of characters that are not white space or `)` |
| SyncResultPanel.SkuIsLeftmostCapture | frontend/src/components/SyncResultPanel.js:11-13 | a line has a SKU exactly when the pattern matches, and the SKU is then the maximal non-empty run after the leftmost match |
| SyncResultPanel.Status | frontend/src/components/SyncResultPanel.js:14-16 | "Failed" exactly when a failure marker occurs, "Success" when only a success marker does, "" otherwise |
| SyncResultPanel.RowOf | frontend/src/components/SyncResultPanel.js:11-18 | a line gives a row exactly when it names a SKU, and the row has three fields |
| SyncResultPanel.ValuesAreThePresentEntries | frontend/src/components/SyncResultPanel.js:10-19 | the rows pushed are exactly those of the lines that give one |
| SyncResultPanel.RowsAreSkuLines | frontend/src/components/SyncResultPanel.js:10-19 | a row is exported exactly when it is one SKU line's row, and every SKU line has its row |
| SyncResultPanel.EscapeReadsBack | frontend/src/components/SyncResultPanel.js:21 | a field with its quotes doubled, then a closing quote, reads back as the field |
| SyncResultPanel.RecordReadsBack | frontend/src/components/SyncResultPanel.js:21 | a row's quoted fields joined by ',' read back as the row |
| SyncResultPanel.CsvRoundTrip | frontend/src/components/SyncResultPanel.js:20-22 | rows joined by '\n' read back as the rows, following section 2 of RFC 4180 |
| SyncResultPanel.ExportReadsBack | frontend/src/components/SyncResultPanel.js:9-22 | the header and the exported rows read back from the export text |
| SyncResultPanel.ExportRows | frontend/src/components/SyncResultPanel.js:9-19 | the loop builds the header and then the rows of the SKU lines, in order |
| SyncResultPanel.HandleExport | frontend/src/components/SyncResultPanel.js:8-22 | the rows of the filtered log and their CSV text, which reads back as the rows |

## Left out

- External services are oracles whose replies are parameters:
  - the store's GraphQL and REST clients (lib/shopify.js, `ShopifyClient`, `shopifyRequest`);
  - the HubSpot client;
  - nodemailer;
  - the history file system.
- lib/shopify.js is not part of this model.
- The store replies in the two handlers are what a call settles to after the store client's own retries. The `withRetry` loops are modelled and proved separately (`ProductSync.WithRetry`, `ShopifyStatusSync.WithRetry`).
- Concurrency is not modelled: p-limit, `Promise.all` and `Promise.allSettled` interleaving, and parallel archive workers. Tasks run one after another in list order. A concurrent interleaving can reorder log lines and failures; the model fixes one order.
- Sleeps are recorded as the list of waits, not slept.
- Page sources are finite lists of answers. `SourceExhausted` and `ScriptEnded` describe running out of answers, where the code would await another page.
- `ProductSyncService.RunAllPages`: the disconnect is a parameter, `disconnected(j)` meaning the client had gone by the end of page j. The `close` event handler is not modelled as an event.
- `ProductSyncService.Frame`: a `res.write` that throws is not modelled. The code catches and logs it, so no event is written and nothing else changes.
- Console and pino logging and the emoji in console-only messages are not modelled. Nor are environment validation, `process.exit` and dotenv.
- middleware/rateLimiter.js and the Express routes are not modelled.
- Floating point: `Number(rawWeight)` is taken as given, either a real or NaN (`ProductSync.Number`). The text is not parsed.
- JSON: `JSON.stringify` texts of error objects are given as fields (`Js.ErrorObject.json`). JSON parsing of the history file is not modelled: the file is its parsed array.
- Regular expressions are written out by hand for the simple matches used: `\s`, `/SKU: ([^\s)]+)/i` and the status words with ASCII case folding.
- `SyncResultPanel.HandleExport`: the emoji-stripping `cleanLine` regex is the parameter `clean`. Its UTF-16 surrogate behaviour without the `u` flag is not modelled, and strings are sequences of code points. The Blob/DOM download and the progress bar are left out.
- The SSE event format is written out as `data: `, the payload and a blank line, following section 9.2 of the WHATWG HTML Living Standard. The browser side is not modelled.
- Clock: the history timestamp default is the parameter `now`.
- `HubSpot.Reconcile`: the properties of the product fetch are a datatype with the fields the mapping reads. Optional chaining on a missing variant, image or metafield list reads as absent.
- `ProductSync.FetchProductAndMF`: a product without a variant throws a generic TypeError value (`ReadError`). The exact message text is not modelled.
- ShopifyStatusSync.StatusSync.AdjustInventory: returns the corrected result (see Findings). The code's result is `ShopifyStatusSync.AdjustResultAsWritten`.
- ShopifyStatusSync.StatusSync.Sell: runs the corrected sold branch. The code as written also unpublishes when only out-of-stock levels exist and the tag was already there; that branch is `ShopifyStatusSync.SoldTraceAsWritten`, and `ShopifyStatusSync.PhantomUnpublish` exhibits the difference.
- ShopifyStatusSync.StatusSync.Process: its sold branch is the corrected one, as for `Sell`.
- ShopifyStatusSync.StatusSync.HandleProductSync: its try block is the corrected one, as for `Sell`.
- ShopifyStatusSync.TryTrace: its sold branch is `SoldTrace`, the corrected one.
- Error objects thrown by the handlers are passed through as values: rethrowing is the `Failed` outcome.
- `DeleteContacts.DeleteAllContacts`: the error printed is the first archive error in batch order. The code reports whichever rejection `Promise.all` sees first.
- One-off scripts are not modelled: update-articles.cjs, register-webhooks.js, create-hubspot-properties.js, sync-products.js and "static scripts/".
- The frontend pages and streaming clients are not modelled.

## Findings

| source | as written | input that shows it | evidently intended | confidence | as-written member | corrected member |
|---|---|---|---|---|---|---|
| lib/shopifyStatusSync.js:110 | `tasks.some(task => task instanceof Promise)` is true for every task, because `Promise.resolve()` of an out-of-stock level is a Promise too; so `adjustInventory` reports a change whenever any level exists | one inventory level with `available: 0`: no adjustment is sent, the result is `true`, and the product is unpublished although nothing changed (when its tag was already there) | report a change exactly when an adjustment was sent | not executed | ShopifyStatusSync.PhantomUnpublish | ShopifyStatusSync.AdjustResultMeansAdjusted |

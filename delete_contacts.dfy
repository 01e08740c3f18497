/** The contact purge script (delete-all-contacts.js): list every CRM
    contact id page by page, cut the list into batches of at most
    `PageSize`, and archive each batch (or only count it in a dry run).

    The CRM is an oracle: the page requests are answered in turn by a finite
    script, and `archive(k)` is what the k-th batch's archive settles to.
    The three concurrent archive workers are run one batch after another. */
module DeleteContacts {
  import opened Js

  /** Contacts per page and per archive request. */
  const PageSize: nat := 100

  /** One answer of `getPage`: the page's contact ids and its
      `paging.next.after` cursor (None when absent). */
  datatype ContactPage = ContactPage(ids: seq<string>, after: Option<string>)

  // ---------------------------------------------------------------------
  // listAllContactIds

  /** The ids of the pages, in page order. */
  function IdsOf(pages: seq<ContactPage>): seq<string> {
    if pages == [] then [] else IdsOf(pages[..|pages| - 1]) + pages[|pages| - 1].ids
  }

  /** The first `n` answers were pages that each named a next cursor. */
  predicate Continued(script: seq<Result<ContactPage>>, n: nat) {
    n <= |script| && forall j :: 0 <= j < n ==> script[j].Ok? && Truthy(script[j].value.after)
  }

  function PagesOf(script: seq<Result<ContactPage>>, n: nat): (pages: seq<ContactPage>)
    requires n <= |script| && forall j :: 0 <= j < n ==> script[j].Ok?
    ensures |pages| == n && forall j :: 0 <= j < n ==> pages[j] == script[j].value
  {
    seq(n, j requires 0 <= j < n => script[j].value)
  }

  /** The cursors of the first `n` requests: none for the first, then the
      cursor each page named. */
  function Cursors(script: seq<Result<ContactPage>>, n: nat): (cursors: seq<Option<string>>)
    requires 1 <= n && Continued(script, n - 1)
    ensures |cursors| == n && cursors[0] == None
    ensures forall j :: 0 <= j < n - 1 ==> cursors[j + 1] == script[j].value.after
  {
    [None] + seq(n - 1, j requires 0 <= j < n - 1 => script[j].value.after)
  }

  lemma CursorsStep(script: seq<Result<ContactPage>>, n: nat)
    requires 1 <= n && Continued(script, n)
    ensures Cursors(script, n + 1) == Cursors(script, n) + [script[n - 1].value.after]
  {
  }

  datatype Listing = Listed(ids: seq<string>) | ListFailed(error: Thrown) | ScriptEnded

  /** `listAllContactIds()`: request pages, starting without a cursor and
      then with the cursor the last page named, until a page names none;
      the ids come out in page order. `read` is the number of requests. */
  method ListAllContactIds(script: seq<Result<ContactPage>>)
    returns (outcome: Listing, read: nat, requests: seq<Option<string>>)
    ensures outcome.Listed? ==>
      && 1 <= read <= |script| && Continued(script, read - 1)
      && script[read - 1].Ok? && !Truthy(script[read - 1].value.after)
      && outcome.ids == IdsOf(PagesOf(script, read))
    ensures outcome.ListFailed? ==>
      read < |script| && Continued(script, read) && script[read] == Threw(outcome.error)
    ensures outcome.ScriptEnded? ==> read == |script| && Continued(script, read)
    ensures outcome.ListFailed? ==> requests == Cursors(script, read + 1)
    ensures outcome.Listed? ==> requests == Cursors(script, read)
    ensures outcome.ScriptEnded? ==> read > 0 ==> requests == Cursors(script, read)
  {
    var ids: seq<string> := [];
    var after: Option<string> := None;
    requests := [];
    read := 0;
    while true
      invariant Continued(script, read)
      invariant ids == IdsOf(PagesOf(script, read))
      invariant read == 0 ==> requests == [] && after == None
      invariant read > 0 ==> requests == Cursors(script, read) && after == script[read - 1].value.after
      decreases |script| - read
    {
      if read == |script| {
        return ScriptEnded, read, requests;
      }
      requests := requests + [after];
      assert requests == Cursors(script, read + 1) by {
        if read > 0 {
          CursorsStep(script, read);
        }
      }
      var page := script[read];
      if page.Threw? {
        return ListFailed(page.error), read, requests;
      }
      assert PagesOf(script, read + 1)[..read] == PagesOf(script, read);
      ids := ids + page.value.ids;
      after := page.value.after;
      read := read + 1;
      if !Truthy(after) {
        return Listed(ids), read, requests;
      }
    }
  }

  /** The listed ids are the pages' ids one page after another. */
  lemma {:induction false} IdsOfAppend(a: seq<ContactPage>, b: seq<ContactPage>)
    ensures IdsOf(a + b) == IdsOf(a) + IdsOf(b)
    decreases |b|
  {
    if b != [] {
      var init := b[..|b| - 1];
      assert (a + b)[..|a + b| - 1] == a + init;
      IdsOfAppend(a, init);
    } else {
      assert a + b == a;
    }
  }

  /** Each page contributes its ids at the place it was read. */
  lemma {:induction false} IdsOfLength(pages: seq<ContactPage>, k: int)
    requires 0 <= k < |pages|
    ensures IdsOf(pages) == IdsOf(pages[..k]) + pages[k].ids + IdsOf(pages[k + 1..])
  {
    assert pages == pages[..k] + ([pages[k]] + pages[k + 1..]);
    IdsOfAppend(pages[..k], [pages[k]] + pages[k + 1..]);
    IdsOfAppend([pages[k]], pages[k + 1..]);
    assert IdsOf([pages[k]]) == IdsOf([]) + pages[k].ids by {
      assert [pages[k]][..0] == [];
    }
  }

  // ---------------------------------------------------------------------
  // The chunking reduce

  function Min(a: int, b: int): int {
    if a <= b then a else b
  }

  /** `ceil(n / PageSize)`. */
  function ChunkCount(n: nat): nat {
    (n + PageSize - 1) / PageSize
  }

  /** The k-th batch: the ids whose index `idx` has `floor(idx / PageSize) == k`. */
  predicate ChunkedAs(ids: seq<string>, chunks: seq<seq<string>>) {
    && |chunks| == ChunkCount(|ids|)
    && forall k :: 0 <= k < |chunks| ==> k * PageSize <= |ids| && chunks[k] == ids[k * PageSize .. Min((k + 1) * PageSize, |ids|)]
  }

  /** `ids.reduce((chunks, id, idx) => ..., [])`: push each id onto the
      batch of index `floor(idx / PageSize)`, opening it if needed. */
  method Chunk(ids: seq<string>) returns (chunks: seq<seq<string>>)
    ensures ChunkedAs(ids, chunks)
  {
    chunks := [];
    for idx := 0 to |ids|
      invariant ChunkedAs(ids[..idx], chunks)
    {
      var i := idx / PageSize;
      if i < |chunks| {
        ChunkExtend(ids, idx, chunks);
        chunks := chunks[i := chunks[i] + [ids[idx]]];
      } else {
        ChunkOpen(ids, idx, chunks);
        chunks := chunks + [[ids[idx]]];
      }
    }
    assert ids[..|ids|] == ids;
  }

  /** An id whose batch is already open joins the end of that batch. */
  lemma ChunkExtend(ids: seq<string>, idx: nat, chunks: seq<seq<string>>)
    requires idx < |ids| && ChunkedAs(ids[..idx], chunks) && idx / PageSize < |chunks|
    ensures var i := idx / PageSize; ChunkedAs(ids[..idx + 1], chunks[i := chunks[i] + [ids[idx]]])
  {
    var i := idx / PageSize;
    var s := ids[..idx];
    var t := ids[..idx + 1];
    var next := chunks[i := chunks[i] + [ids[idx]]];
    assert i * PageSize <= idx < (i + 1) * PageSize;
    assert idx % PageSize != 0;
    assert i == |chunks| - 1;
    assert |next| == ChunkCount(|t|);
    forall k | 0 <= k < |next|
      ensures k * PageSize <= |t| && next[k] == t[k * PageSize .. Min((k + 1) * PageSize, |t|)]
    {
      if k < i {
        assert (k + 1) * PageSize <= i * PageSize;
        assert s[k * PageSize .. (k + 1) * PageSize] == t[k * PageSize .. (k + 1) * PageSize];
      } else {
        assert s[i * PageSize .. idx] + [ids[idx]] == t[i * PageSize .. idx + 1];
      }
    }
  }

  /** An id at a multiple of `PageSize` opens a new batch. */
  lemma ChunkOpen(ids: seq<string>, idx: nat, chunks: seq<seq<string>>)
    requires idx < |ids| && ChunkedAs(ids[..idx], chunks) && idx / PageSize >= |chunks|
    ensures ChunkedAs(ids[..idx + 1], chunks + [[ids[idx]]])
  {
    var s := ids[..idx];
    var t := ids[..idx + 1];
    var next := chunks + [[ids[idx]]];
    var i := idx / PageSize;
    assert idx % PageSize == 0 && i == |chunks|;
    assert |next| == ChunkCount(|t|);
    forall k | 0 <= k < |next|
      ensures k * PageSize <= |t| && next[k] == t[k * PageSize .. Min((k + 1) * PageSize, |t|)]
    {
      if k < i {
        var lo, hi := k * PageSize, (k + 1) * PageSize;
        assert hi <= i * PageSize == idx == |s|;
        assert Min(hi, |s|) == hi && next[k] == chunks[k] == s[lo..hi];
        assert s[lo..hi] == ids[lo..hi] == t[lo..hi];
      } else {
        assert t[idx .. idx + 1] == [ids[idx]];
      }
    }
  }

  /** Concatenating the batches of a flat list. */
  function Flat(chunks: seq<seq<string>>): seq<string> {
    if chunks == [] then [] else Flat(chunks[..|chunks| - 1]) + chunks[|chunks| - 1]
  }

  lemma {:induction false} FlatPrefix(ids: seq<string>, chunks: seq<seq<string>>, m: nat)
    requires ChunkedAs(ids, chunks) && m <= |chunks|
    ensures Flat(chunks[..m]) == ids[..Min(m * PageSize, |ids|)]
  {
    if m > 0 {
      FlatPrefix(ids, chunks, m - 1);
      assert chunks[..m][..m - 1] == chunks[..m - 1];
      assert (m - 1) * PageSize <= |ids|;
    }
  }

  /** The batches give back the list, in order: nothing lost, nothing
      repeated. */
  lemma ChunksRejoin(ids: seq<string>, chunks: seq<seq<string>>)
    requires ChunkedAs(ids, chunks)
    ensures Flat(chunks) == ids
  {
    FlatPrefix(ids, chunks, |chunks|);
    assert chunks[..|chunks|] == chunks;
  }

  /** Every batch is non-empty and holds at most `PageSize` ids, and all
      but the last hold exactly `PageSize`. */
  lemma ChunkSizes(ids: seq<string>, chunks: seq<seq<string>>)
    requires ChunkedAs(ids, chunks)
    ensures forall k :: 0 <= k < |chunks| ==> 1 <= |chunks[k]| <= PageSize
    ensures forall k :: 0 <= k < |chunks| - 1 ==> |chunks[k]| == PageSize
  {
    forall k | 0 <= k < |chunks|
      ensures 1 <= |chunks[k]| <= PageSize
      ensures k < |chunks| - 1 ==> |chunks[k]| == PageSize
    {
      assert k * PageSize < |ids|;
      if k < |chunks| - 1 {
        assert (k + 1) * PageSize < |ids|;
      }
    }
  }

  // ---------------------------------------------------------------------
  // Archiving

  /** The total size of the batches whose archive succeeded (all of them in
      a dry run). */
  function Archived(chunks: seq<seq<string>>, dry: bool, archive: nat -> Result<()>): nat {
    if chunks == [] then 0
    else
      var k := |chunks| - 1;
      Archived(chunks[..k], dry, archive) + (if dry || archive(k).Ok? then |chunks[k]| else 0)
  }

  /** The first archive failure, by batch order. */
  function FirstArchiveFailure(n: nat, archive: nat -> Result<()>): Option<Thrown> {
    if n == 0 then None
    else
      var earlier := FirstArchiveFailure(n - 1, archive);
      if earlier.Some? then earlier else if archive(n - 1).Threw? then Some(archive(n - 1).error) else None
  }

  /** `Promise.all` over the archives rejects exactly when one of them does. */
  lemma {:induction false} FirstArchiveFailureNone(n: nat, archive: nat -> Result<()>)
    ensures FirstArchiveFailure(n, archive).None? <==> forall k :: 0 <= k < n ==> archive(k).Ok?
  {
    if n > 0 {
      FirstArchiveFailureNone(n - 1, archive);
    }
  }

  /** The error reported is that of the first batch whose archive failed. */
  lemma {:induction false} FirstArchiveFailureIsFirst(n: nat, archive: nat -> Result<()>)
    requires FirstArchiveFailure(n, archive).Some?
    ensures exists k ::
              && 0 <= k < n
              && archive(k) == Threw(FirstArchiveFailure(n, archive).value)
              && (forall j :: 0 <= j < k ==> archive(j).Ok?)
  {
    var earlier := FirstArchiveFailure(n - 1, archive);
    FirstArchiveFailureNone(n - 1, archive);
    if earlier.Some? {
      FirstArchiveFailureIsFirst(n - 1, archive);
    } else {
      assert archive(n - 1) == Threw(FirstArchiveFailure(n, archive).value);
    }
  }

  /** The archive of every batch succeeding counts every id. */
  lemma {:induction false} AllArchivedCountsAll(chunks: seq<seq<string>>, dry: bool, archive: nat -> Result<()>)
    requires dry || forall k :: 0 <= k < |chunks| ==> archive(k).Ok?
    ensures Archived(chunks, dry, archive) == |Flat(chunks)|
  {
    if chunks != [] {
      AllArchivedCountsAll(chunks[..|chunks| - 1], dry, archive);
    }
  }

  /** `archiveBatch` for every batch, then `processed += chunk.length` for
      every batch whose archive succeeded. A dry run sends nothing. The
      requests are the batches, one `{id}` input per id. */
  method ArchiveAll(chunks: seq<seq<string>>, dry: bool, archive: nat -> Result<()>)
    returns (requests: seq<seq<string>>, processed: nat, failure: Option<Thrown>)
    ensures dry ==> requests == []
    ensures !dry ==> requests == chunks
    ensures processed == Archived(chunks, dry, archive)
    ensures failure == (if dry then None else FirstArchiveFailure(|chunks|, archive))
  {
    requests := [];
    processed := 0;
    failure := None;
    for k := 0 to |chunks|
      invariant requests == (if dry then [] else chunks[..k])
      invariant processed == Archived(chunks[..k], dry, archive)
      invariant failure == (if dry then None else FirstArchiveFailure(k, archive))
    {
      assert chunks[..k + 1][..k] == chunks[..k];
      if !dry {
        requests := requests + [chunks[k]];
        if archive(k).Threw? {
          if failure.None? {
            failure := Some(archive(k).error);
          }
          continue;
        }
      }
      processed := processed + |chunks[k]|;
    }
    assert chunks[..|chunks|] == chunks;
  }

  /** The processed counter only grows. */
  lemma {:induction false} ArchivedMonotone(chunks: seq<seq<string>>, m: nat, dry: bool, archive: nat -> Result<()>)
    requires m <= |chunks|
    ensures Archived(chunks[..m], dry, archive) <= Archived(chunks, dry, archive)
    decreases |chunks| - m
  {
    if m < |chunks| {
      ArchivedMonotone(chunks, m + 1, dry, archive);
      assert chunks[..m + 1][..m] == chunks[..m];
    } else {
      assert chunks[..m] == chunks;
    }
  }

  /** One run of the script: the listing, the page requests, the archive
      requests, the final `processed` count and the error reported. */
  datatype Purge = Purge(
    listing: Listing,
    pageRequests: seq<Option<string>>,
    archiveRequests: seq<seq<string>>,
    processed: nat,
    error: Option<Thrown>)

  /** The script: list, chunk, archive; a listing error is caught and
      reported, as is the first archive error. */
  method DeleteAllContacts(script: seq<Result<ContactPage>>, dry: bool, archive: nat -> Result<()>)
    returns (run: Purge)
    ensures !run.listing.Listed? ==> run.archiveRequests == [] && run.processed == 0
    ensures run.listing.ListFailed? ==> run.error == Some(run.listing.error)
    ensures dry ==> run.archiveRequests == []
    ensures run.listing.Listed? ==>
      && run.processed <= |run.listing.ids|
      && (!dry ==> Flat(run.archiveRequests) == run.listing.ids)
      && (forall k :: 0 <= k < |run.archiveRequests| ==> 1 <= |run.archiveRequests[k]| <= PageSize)
      && ((dry || forall k :: 0 <= k < |run.archiveRequests| ==> archive(k).Ok?) ==> run.processed == |run.listing.ids|)
    ensures run.listing.Listed? ==> run.error == FirstArchiveFailure(|run.archiveRequests|, archive)
    ensures run.listing.Listed? ==>
      (run.error.None? <==> forall k :: 0 <= k < |run.archiveRequests| ==> archive(k).Ok?)
  {
    var listing, read, requests := ListAllContactIds(script);
    if !listing.Listed? {
      var e := if listing.ListFailed? then Some(listing.error) else None;
      return Purge(listing, requests, [], 0, e);
    }
    var ids := listing.ids;
    var chunks := Chunk(ids);
    var sent, processed, failure := ArchiveAll(chunks, dry, archive);
    ChunksRejoin(ids, chunks);
    ChunkSizes(ids, chunks);
    AllArchivedCountsAll(chunks, true, archive);
    ArchivedBound(chunks, dry, archive);
    FirstArchiveFailureNone(|sent|, archive);
    if dry || forall k :: 0 <= k < |chunks| ==> archive(k).Ok? {
      AllArchivedCountsAll(chunks, dry, archive);
    }
    run := Purge(listing, requests, sent, processed, failure);
  }

  /** What succeeds is at most everything. */
  lemma {:induction false} ArchivedBound(chunks: seq<seq<string>>, dry: bool, archive: nat -> Result<()>)
    ensures Archived(chunks, dry, archive) <= Archived(chunks, true, archive)
  {
    if chunks != [] {
      ArchivedBound(chunks[..|chunks| - 1], dry, archive);
    }
  }
}

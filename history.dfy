/** The sync history file (lib/historyLogger.js): one JSON array of run
    entries, appended to after each run. The file is modelled as a field
    holding the parsed array, or None while the file does not exist; JSON
    encoding and the directory creation are not modelled. */
module HistoryLogger {
  import opened Js
  import opened HubSpot

  /** One saved run. `kind` is the entry's `type` ("all", "sku" or "dates"). */
  datatype HistoryEntry = HistoryEntry(
    kind: string,
    timestamp: string,
    total: nat,
    successCount: nat,
    failureCount: nat,
    successes: seq<Success>,
    failures: seq<Failure>)

  /** The counts of an entry agree with its lists. */
  predicate Consistent(e: HistoryEntry) {
    && e.successCount == |e.successes|
    && e.failureCount == |e.failures|
    && e.total == e.successCount + e.failureCount
  }

  /** The entry `saveSyncResult` builds; an absent timestamp defaults to `now`. */
  function MakeEntry(kind: string, timestamp: Option<string>, now: string,
                     successes: seq<Success>, failures: seq<Failure>): (e: HistoryEntry)
    ensures Consistent(e)
    ensures e.kind == kind && e.successes == successes && e.failures == failures
    ensures e.timestamp == (if timestamp.Some? then timestamp.value else now)
  {
    HistoryEntry(kind, if timestamp.Some? then timestamp.value else now,
      |successes| + |failures|, |successes|, |failures|, successes, failures)
  }

  /** The history file. */
  class HistoryFile {
    /** The parsed array, or None while the file does not exist. */
    var content: Option<seq<HistoryEntry>>

    /** The array a reader sees: the stored one, or empty when there is none. */
    function Entries(): seq<HistoryEntry>
      reads this
    {
      if content.Some? then content.value else []
    }

    /** Every stored entry's counts agree with its lists. */
    predicate Valid()
      reads this
    {
      forall i :: 0 <= i < |Entries()| ==> Consistent(Entries()[i])
    }

    /** A history with no file yet. */
    constructor ()
      ensures content == None && Entries() == [] && Valid()
    {
      content := None;
    }

    /** `saveSyncResult`: read the array (or start an empty one), append the
        new entry and write the array back. */
    method SaveSyncResult(kind: string, timestamp: Option<string>, now: string,
                          successes: seq<Success>, failures: seq<Failure>)
      requires Valid()
      modifies this
      ensures content == Some(old(Entries()) + [MakeEntry(kind, timestamp, now, successes, failures)])
      ensures Valid()
    {
      var data: seq<HistoryEntry> := [];
      if content.Some? {
        data := content.value;
      }
      data := data + [MakeEntry(kind, timestamp, now, successes, failures)];
      content := Some(data);
    }

    /** `getSyncHistory`: the stored array, or empty when there is no file. */
    method GetSyncHistory() returns (entries: seq<HistoryEntry>)
      ensures entries == Entries()
      ensures content.None? ==> entries == []
    {
      if content.None? {
        return [];
      }
      entries := content.value;
    }
  }
}

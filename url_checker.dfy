/** The URL checker page: `saveToHistory` (stamp if missing, put in front, keep 50,
    write back) and the request gating of `analyzeUrl`. */
module UrlChecker {
  import opened Seqs
  import opened ScanTypes
  import opened LocalStorage

  const MaxHistory: nat := 50

  const ConnectionFailedMessage := "Connection failed. Ensure backend is running."

  /** `!newEntry.timestamp`: a missing or empty timestamp counts as absent. */
  predicate NeedsTimestamp(e: ScanResult)
  {
    e.timestamp.None? || e.timestamp.value == ""
  }

  /** The entry after step 2 of `saveToHistory`. */
  function WithTimestamp(e: ScanResult, now: string): (r: ScanResult)
    ensures NeedsTimestamp(e) ==> r.timestamp == Some(now)
    ensures !NeedsTimestamp(e) ==> r == e
    ensures r.(timestamp := e.timestamp) == e
  {
    if NeedsTimestamp(e) then e.(timestamp := Some(now)) else e
  }

  /** `[newEntry, ...history]` cut to 50: the new entry first, then the previous
      history in its order, of which only the oldest (tail) entries may drop. */
  function Prepended(h: seq<ScanResult>, e: ScanResult): (r: seq<ScanResult>)
    ensures |r| == Min(|h| + 1, MaxHistory)
    ensures r[0] == e
    ensures r[1..] == h[..|r| - 1]
  {
    Take([e] + h, MaxHistory)
  }

  /** The slot after `saveToHistory(entry)`: unchanged when the stored text does
      not parse, otherwise the list with the stamped entry in front. */
  function SavedSlot(slot: Slot, entry: ScanResult, now: string): (r: Slot)
    ensures slot.Unparseable? ==> r == slot
    ensures !slot.Unparseable? ==> r.Stored? && |r.history| > 0 && r.history[0] == WithTimestamp(entry, now)
    ensures slot.Absent? ==> r == Stored([WithTimestamp(entry, now)])
    ensures slot.Stored? ==> |r.history| == Min(|slot.history| + 1, MaxHistory)
    ensures slot.Stored? ==> r.history[1..] == slot.history[..|r.history| - 1]
  {
    match ReadHistory(slot)
    case None => slot
    case Some(h) => Stored(Prepended(h, WithTimestamp(entry, now)))
  }

  /** The entry object after `saveToHistory` has run on it: the parse happens
      before the stamp, so a parse failure leaves it as it was. */
  function SavedEntry(slot: Slot, entry: ScanResult, now: string): ScanResult
  {
    if slot.Unparseable? then entry else WithTimestamp(entry, now)
  }

  /** Saving each of `es` in turn (already stamped), first element first. */
  function AppendAll(h: seq<ScanResult>, es: seq<ScanResult>): seq<ScanResult>
    decreases |es|
  {
    if es == [] then h else AppendAll(Prepended(h, es[0]), es[1..])
  }

  /** From a history within the cap, any run of saves leaves the first 50 of
      (new entries newest first, then the old history). */
  lemma {:induction false} AppendAllKeepsNewest(h: seq<ScanResult>, es: seq<ScanResult>)
    requires |h| <= MaxHistory
    ensures AppendAll(h, es) == Take(Reverse(es) + h, MaxHistory)
    decreases |es|
  {
    if es == [] {
      assert Reverse(es) + h == h;
    } else {
      var e, rest := es[0], es[1..];
      AppendAllKeepsNewest(Prepended(h, e), rest);
      TakeAfterTake(Reverse(rest), [e] + h, MaxHistory);
      ReverseAppend([e], rest);
      assert es == [e] + rest;
      assert Reverse([e]) == [e];
      assert Reverse(rest) + ([e] + h) == Reverse(es) + h;
    }
  }

  /** After N saves into an empty store it holds exactly the last min(N, 50)
      saved entries, newest first. */
  lemma AppendAllFromEmpty(es: seq<ScanResult>)
    ensures |AppendAll([], es)| == Min(|es|, MaxHistory)
    ensures forall k :: 0 <= k < |AppendAll([], es)| ==> AppendAll([], es)[k] == es[|es| - 1 - k]
  {
    AppendAllKeepsNewest([], es);
    assert Reverse(es) + [] == Reverse(es);
  }

  /** 51 saves: the store holds 50 entries and the first saved one has been evicted. */
  lemma FiftyOneSaves(es: seq<ScanResult>)
    requires |es| == 51
    ensures AppendAll([], es) == Reverse(es[1..])
  {
    AppendAllFromEmpty(es);
    var r := AppendAll([], es);
    assert |r| == |Reverse(es[1..])|;
    forall k | 0 <= k < |r| ensures r[k] == Reverse(es[1..])[k] {
      assert es[1..][|es[1..]| - 1 - k] == es[|es| - 1 - k];
    }
  }

  /** A request's outcome as the page sees it: the response data, or any failure axios reports. */
  datatype Response = Succeeded(data: ScanResult) | Failed

  /** The component state of the checker page. */
  class UrlCheckerPage {
    const storage: Store
    var url: string
    var result: Option<ScanResult>
    var loading: bool
    var error: string

    constructor(storage: Store)
      ensures this.storage == storage
      ensures url == "" && result == None && !loading && error == ""
    {
      this.storage := storage;
      url := "";
      result := None;
      loading := false;
      error := "";
    }

    /** The input field's `setUrl`. */
    method SetUrl(u: string)
      modifies this
      ensures url == u
      ensures result == old(result) && loading == old(loading) && error == old(error)
    {
      url := u;
    }

    /** `saveToHistory(newEntry)`: returns the entry as the call leaves it. */
    method SaveToHistory(entry: ScanResult, now: string) returns (saved: ScanResult)
      modifies storage
      ensures saved == SavedEntry(old(storage.scanHistory), entry, now)
      ensures storage.scanHistory == SavedSlot(old(storage.scanHistory), entry, now)
      ensures old(storage.scanHistory).Unparseable? ==> saved == entry && storage.scanHistory == old(storage.scanHistory)
    {
      var existing := ReadHistory(storage.scanHistory);
      if existing.None? {
        // JSON.parse threw: the catch block only logs.
        return entry;
      }
      saved := entry;
      if NeedsTimestamp(saved) {
        saved := saved.(timestamp := Some(now));
      }
      var updated := [saved] + existing.value;
      if |updated| > MaxHistory {
        updated := updated[..MaxHistory];
      }
      storage.scanHistory := Stored(updated);
    }

    /** `analyzeUrl` with the request's outcome given: an empty URL returns at once;
        a failure sets the message, leaves the result empty and writes nothing; a
        success shows the data (stamped by the save, which mutates the same object)
        and saves it. Loading ends false either way. */
    method AnalyzeUrl(response: Response, now: string)
      modifies this, storage
      ensures url == old(url)
      ensures old(url) == "" ==>
                result == old(result) && loading == old(loading) && error == old(error) &&
                storage.scanHistory == old(storage.scanHistory)
      ensures old(url) != "" && response.Failed? ==>
                result == None && error == ConnectionFailedMessage && !loading &&
                storage.scanHistory == old(storage.scanHistory)
      ensures old(url) != "" && response.Succeeded? ==>
                result == Some(SavedEntry(old(storage.scanHistory), response.data, now)) &&
                error == "" && !loading &&
                storage.scanHistory == SavedSlot(old(storage.scanHistory), response.data, now)
    {
      if url == "" {
        return;
      }
      loading := true;
      error := "";
      result := None;
      match response {
        case Failed =>
          error := ConnectionFailedMessage;
        case Succeeded(data) =>
          result := Some(data);
          var saved := SaveToHistory(data, now);
          result := Some(saved);
      }
      loading := false;
    }
  }
}

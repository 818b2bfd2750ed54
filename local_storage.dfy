/** The browser's `localStorage` entry "scanHistory", shared by the checker and the dashboard. */
module LocalStorage {
  import opened ScanTypes

  /** What `getItem` followed by `JSON.parse` yields: nothing stored (or an empty
      string), text that does not parse as a list, or a list of results. */
  datatype Slot = Absent | Unparseable | Stored(history: seq<ScanResult>)

  /** `existingData ? JSON.parse(existingData) : []`: a missing entry reads as the
      empty list; unparseable text is a failure (`None`), which the callers catch. */
  function ReadHistory(slot: Slot): (r: Option<seq<ScanResult>>)
    ensures slot.Absent? ==> r == Some([])
    ensures slot.Unparseable? <==> r.None?
    ensures slot.Stored? ==> r == Some(slot.history)
  {
    match slot
    case Absent => Some([])
    case Unparseable => None
    case Stored(h) => Some(h)
  }

  /** The storage object holding the one entry. */
  class Store {
    var scanHistory: Slot

    constructor(initial: Slot)
      ensures scanHistory == initial
    {
      scanHistory := initial;
    }
  }
}

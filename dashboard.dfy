/** The dashboard page: loading the stored history, the confirm-gated clear, and
    the statistics and views derived from the history. */
module Dashboard {
  import opened Seqs
  import opened ScanTypes
  import opened LocalStorage
  import UrlChecker

  const RecentLimit: nat := 10

  // ---------------------------------------------------------------------------
  // Statistics
  // ---------------------------------------------------------------------------

  /** `history.filter(h => h.is_safe)`: every safe entry as often as it occurs,
      no unsafe one. */
  function SafeEntries(h: seq<ScanResult>): (r: seq<ScanResult>)
    ensures |r| <= |h|
    ensures forall e :: e in r <==> e in h && e.isSafe
    ensures forall e :: multiset(r)[e] == if e.isSafe then multiset(h)[e] else 0
  {
    if h == [] then []
    else
      var rest := SafeEntries(h[1..]);
      assert h == [h[0]] + h[1..];
      if h[0].isSafe then [h[0]] + rest else rest
  }

  /** The entries the verdict marks unsafe, each as often as it occurs; kept as
      an independent count. */
  function UnsafeEntries(h: seq<ScanResult>): (r: seq<ScanResult>)
    ensures forall e :: e in r <==> e in h && !e.isSafe
    ensures forall e :: multiset(r)[e] == if e.isSafe then 0 else multiset(h)[e]
  {
    if h == [] then []
    else
      var rest := UnsafeEntries(h[1..]);
      assert h == [h[0]] + h[1..];
      if !h[0].isSafe then [h[0]] + rest else rest
  }

  function TotalScans(h: seq<ScanResult>): nat { |h| }

  /** `safeScans`: never more than the total, 0 exactly when nothing is safe. */
  function SafeScans(h: seq<ScanResult>): (n: nat)
    ensures n <= TotalScans(h)
    ensures n == 0 <==> forall k :: 0 <= k < |h| ==> !h[k].isSafe
  {
    var r := SafeEntries(h);
    assert r != [] ==> r[0] in r;
    |r|
  }

  /** The safe count adds up over a concatenation, and one entry counts 1
      exactly when it is safe: so it is the number of safe positions. */
  lemma {:induction false} SafeScansAppend(a: seq<ScanResult>, b: seq<ScanResult>)
    ensures SafeScans(a + b) == SafeScans(a) + SafeScans(b)
    ensures |a| == 1 ==> SafeScans(a) == if a[0].isSafe then 1 else 0
  {
    SafeEntriesAppend(a, b);
    if |a| == 1 {
      assert a[1..] == [];
    }
  }

  lemma {:induction false} SafeEntriesAppend(a: seq<ScanResult>, b: seq<ScanResult>)
    ensures SafeEntries(a + b) == SafeEntries(a) + SafeEntries(b)
  {
    if a == [] {
      assert a + b == b;
    } else {
      assert (a + b)[1..] == a[1..] + b;
      SafeEntriesAppend(a[1..], b);
    }
  }

  /** `maliciousScans = totalScans - safeScans`, derived rather than recounted. */
  function MaliciousScans(h: seq<ScanResult>): (n: nat)
    ensures SafeScans(h) + n == TotalScans(h)
  {
    TotalScans(h) - SafeScans(h)
  }

  /** The derived malicious count agrees with counting the unsafe entries. */
  lemma {:induction false} MaliciousCountsUnsafe(h: seq<ScanResult>)
    ensures MaliciousScans(h) == |UnsafeEntries(h)|
  {
    if h != [] {
      MaliciousCountsUnsafe(h[1..]);
    }
  }

  /** `curr.confidence || 0`. */
  function ConfidenceOf(e: ScanResult): real
  {
    match e.confidence
    case Some(c) => c
    case None => 0.0
  }

  /** `history.reduce((acc, curr) => acc + (curr.confidence || 0), 0)`, left to right. */
  function ConfidenceSum(h: seq<ScanResult>): real
  {
    if h == [] then 0.0 else ConfidenceSum(h[..|h| - 1]) + ConfidenceOf(h[|h| - 1])
  }

  /** `avgConfidence` before `toFixed(1)`: 0 for an empty history, otherwise the
      mean confidence as a percentage. */
  function AvgConfidence(h: seq<ScanResult>): (a: real)
    ensures |h| == 0 ==> a == 0.0
    ensures |h| > 0 ==> a * (|h| as real) == ConfidenceSum(h) * 100.0
  {
    if TotalScans(h) > 0 then ConfidenceSum(h) / (TotalScans(h) as real) * 100.0 else 0.0
  }

  /** The sum adds up over a concatenation, and one entry contributes its
      confidence (0 when it has none). */
  lemma {:induction false} ConfidenceSumAppend(a: seq<ScanResult>, b: seq<ScanResult>)
    ensures ConfidenceSum(a + b) == ConfidenceSum(a) + ConfidenceSum(b)
    ensures ConfidenceSum([]) == 0.0
    ensures |a| == 1 ==> ConfidenceSum(a) == ConfidenceOf(a[0])
    decreases |b|
  {
    if |a| == 1 {
      assert a[..0] == [];
    }
    if b == [] {
      assert a + b == a;
    } else {
      var b' := b[..|b| - 1];
      assert (a + b)[..|a + b| - 1] == a + b';
      ConfidenceSumAppend(a, b');
    }
  }

  predicate ConfidencesInRange(h: seq<ScanResult>)
  {
    forall k :: 0 <= k < |h| ==> 0.0 <= ConfidenceOf(h[k]) <= 1.0
  }

  lemma {:induction false} ConfidenceSumBounds(h: seq<ScanResult>)
    requires ConfidencesInRange(h)
    ensures 0.0 <= ConfidenceSum(h) <= |h| as real
  {
    if h != [] {
      ConfidenceSumBounds(h[..|h| - 1]);
    }
  }

  /** With confidences in [0, 1] the average is a percentage in [0, 100]. */
  lemma AvgConfidenceBounds(h: seq<ScanResult>)
    requires ConfidencesInRange(h)
    ensures 0.0 <= AvgConfidence(h) <= 100.0
  {
    ConfidenceSumBounds(h);
    if |h| > 0 {
      var n := |h| as real;
      assert ConfidenceSum(h) / n <= 1.0;
    }
  }

  /** An empty history averages 0; a single entry averages its own confidence (as a percentage). */
  lemma AvgConfidenceBaseCases(e: ScanResult)
    ensures AvgConfidence([]) == 0.0
    ensures AvgConfidence([e]) == ConfidenceOf(e) * 100.0
  {
    assert [e][..0] == [];
  }

  /** Saving A (safe, confidence 0.9) and then B (unsafe, 0.6) stores [B, A]: one
      of each, averaging 75 (percent). */
  lemma TwoEntryScenario(a: ScanResult, b: ScanResult)
    requires a.isSafe && a.confidence == Some(0.9)
    requires !b.isSafe && b.confidence == Some(0.6)
    ensures UrlChecker.AppendAll([], [a, b]) == [b, a]
    ensures TotalScans([b, a]) == 2 && SafeScans([b, a]) == 1 && MaliciousScans([b, a]) == 1
    ensures AvgConfidence([b, a]) == 75.0
  {
    var h := [b, a];
    UrlChecker.AppendAllFromEmpty([a, b]);
    assert h[..1] == [b] && [b][..0] == [];
    assert ConfidenceSum([b]) == 0.6;
    assert ConfidenceSum(h) == 1.5;
    assert SafeEntries(h) == [a] by {
      assert h[1..] == [a];
      assert [a][1..] == [];
    }
  }

  datatype PieSlice = PieSlice(name: string, value: int)

  /** `pieData`: the safe and malicious counts, which together make the total. */
  function PieData(h: seq<ScanResult>): (r: seq<PieSlice>)
    ensures |r| == 2 && r[0].name == "Safe" && r[1].name == "Malicious"
    ensures r[0].value == SafeScans(h) && r[1].value == |UnsafeEntries(h)|
    ensures r[0].value + r[1].value == TotalScans(h)
  {
    MaliciousCountsUnsafe(h);
    [PieSlice("Safe", SafeScans(h)), PieSlice("Malicious", MaliciousScans(h))]
  }

  /** `history.slice().reverse().slice(0, 10)`: the last ten stored entries,
      last one first. */
  function RecentActivity(h: seq<ScanResult>): (r: seq<ScanResult>)
    ensures |r| == Min(|h|, RecentLimit)
    ensures forall k :: 0 <= k < |r| ==> r[k] == h[|h| - 1 - k]
  {
    Take(Reverse(h), RecentLimit)
  }

  /** The stored history is newest first, so the view lists the OLDEST stored
      entries: after 11 saves into an empty store it shows the first ten saved,
      oldest first, and never the newest one. */
  lemma RecentActivityShowsOldest(es: seq<ScanResult>)
    requires |es| == 11
    ensures RecentActivity(UrlChecker.AppendAll([], es)) == es[..RecentLimit]
  {
    UrlChecker.AppendAllFromEmpty(es);
    var h := UrlChecker.AppendAll([], es);
    var r := RecentActivity(h);
    forall k | 0 <= k < |r| ensures r[k] == es[k] {
      assert r[k] == h[|h| - 1 - k];
    }
  }

  /** The view as evidently intended: the first ten entries of the newest-first history. */
  function NewestActivity(h: seq<ScanResult>): (r: seq<ScanResult>)
    ensures |r| == Min(|h|, RecentLimit)
    ensures forall k :: 0 <= k < |r| ==> r[k] == h[k]
  {
    Take(h, RecentLimit)
  }

  /** After any run of saves into an empty store, the intended view lists the
      latest min(N, 10) saved entries, newest first. */
  lemma NewestActivityShowsLatest(es: seq<ScanResult>)
    ensures |NewestActivity(UrlChecker.AppendAll([], es))| == Min(|es|, RecentLimit)
    ensures forall k :: 0 <= k < Min(|es|, RecentLimit) ==>
              NewestActivity(UrlChecker.AppendAll([], es))[k] == es[|es| - 1 - k]
  {
    UrlChecker.AppendAllFromEmpty(es);
  }

  // ---------------------------------------------------------------------------
  // Component state
  // ---------------------------------------------------------------------------

  class DashboardPage {
    const storage: Store
    var history: seq<ScanResult>
    var loading: bool

    constructor(storage: Store)
      ensures this.storage == storage
      ensures history == [] && loading
    {
      this.storage := storage;
      history := [];
      loading := true;
    }

    /** The mount effect: a stored list replaces the history; a missing entry or
        a parse error leaves it as it was; loading ends in every case. */
    method LoadHistory()
      modifies this
      ensures !loading
      ensures storage.scanHistory.Stored? ==> history == storage.scanHistory.history
      ensures !storage.scanHistory.Stored? ==> history == old(history)
    {
      match storage.scanHistory {
        case Stored(h) =>
          history := h;
        case Absent =>
        case Unparseable =>
      }
      loading := false;
    }

    /** `clearHistory`: when the user confirms, the stored entry is removed and the
        history emptied; when they decline, nothing changes. */
    method ClearHistory(confirmed: bool)
      modifies this, storage
      ensures loading == old(loading)
      ensures confirmed ==> history == [] && storage.scanHistory == Absent
      ensures !confirmed ==> history == old(history) && storage.scanHistory == old(storage.scanHistory)
    {
      if confirmed {
        storage.scanHistory := Absent;
        history := [];
      }
    }
  }

  /** Mounting over a missing or unreadable entry shows an empty, loaded dashboard. */
  method MountOverNothing(storage: Store) returns (page: DashboardPage)
    requires !storage.scanHistory.Stored?
    ensures page.history == [] && !page.loading
    ensures TotalScans(page.history) == 0 && AvgConfidence(page.history) == 0.0
  {
    page := new DashboardPage(storage);
    page.LoadHistory();
  }
}

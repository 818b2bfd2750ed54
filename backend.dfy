/** The prediction service: its in-memory history (append at the end, cap 100 by
    dropping index 0, timestamp always overwritten), the clear operation and the
    verdict rules of both prediction branches. */
module Backend {
  import opened Seqs
  import opened ScanTypes
  import opened UrlUtils

  const HistoryCap: nat := 100

  /** The ML branch relabels a non-benign label as benign below this confidence. */
  const LowConfidenceThreshold: real := 0.45

  // ---------------------------------------------------------------------------
  // History
  // ---------------------------------------------------------------------------

  /** `add_to_history` on the list value: append, then `pop(0)` once if the list
      grew beyond the cap. The result is the old list plus the entry, minus at
      most its first (oldest) element. */
  function Recorded(h: seq<ScanResult>, e: ScanResult): (r: seq<ScanResult>)
    ensures |r| == if |h| >= HistoryCap then |h| else |h| + 1
    ensures r == (h + [e])[|h| + 1 - |r|..]
    ensures |h| <= HistoryCap ==> |r| <= HistoryCap
  {
    var appended := h + [e];
    if |appended| > HistoryCap then appended[1..] else appended
  }

  /** Recording each of `es` in turn, oldest first. */
  function RecordAll(h: seq<ScanResult>, es: seq<ScanResult>): seq<ScanResult>
    decreases |es|
  {
    if es == [] then h else RecordAll(Recorded(h, es[0]), es[1..])
  }

  /** Starting within the cap, the history after any run of additions is the
      last (at most 100) entries of the old history followed by the new ones,
      oldest first. */
  lemma {:induction false} RecordAllKeepsLatest(h: seq<ScanResult>, es: seq<ScanResult>)
    requires |h| <= HistoryCap
    ensures RecordAll(h, es) == Last(h + es, HistoryCap)
    decreases |es|
  {
    if es != [] {
      var e, rest := es[0], es[1..];
      var h1 := Recorded(h, e);
      calc {
        RecordAll(h, es);
        RecordAll(h1, rest);
        { RecordAllKeepsLatest(h1, rest); }
        Last(h1 + rest, HistoryCap);
        { RecordedIsLast(h, e); }
        Last(Last(h + [e], HistoryCap) + rest, HistoryCap);
        { LastAfterLast(h + [e], rest, HistoryCap); }
        Last(h + [e] + rest, HistoryCap);
        { assert h + [e] + rest == h + es; }
        Last(h + es, HistoryCap);
      }
    } else {
      assert h + es == h;
    }
  }

  /** Within the cap, one addition keeps the last 100 of the old list and the entry. */
  lemma RecordedIsLast(h: seq<ScanResult>, e: ScanResult)
    requires |h| <= HistoryCap
    ensures Recorded(h, e) == Last(h + [e], HistoryCap)
  {
  }

  /** From an empty history, N additions leave exactly the last min(N, 100) entries, oldest first. */
  lemma RecordAllFromEmpty(es: seq<ScanResult>)
    ensures RecordAll([], es) == Last(es, HistoryCap)
    ensures |RecordAll([], es)| == Min(|es|, HistoryCap)
  {
    RecordAllKeepsLatest([], es);
    assert [] + es == es;
  }

  // ---------------------------------------------------------------------------
  // Verdict rules
  // ---------------------------------------------------------------------------

  datatype Verdict = Verdict(prediction: string, isSafe: bool)

  /** Heuristic branch: `is_safe = risk_level == "SAFE"`, `prediction` "benign" or "phishing". */
  function HeuristicVerdict(level: RiskLevel): (v: Verdict)
    ensures v.isSafe <==> level == Safe
    ensures v.prediction == Benign <==> v.isSafe
    ensures v.prediction in {Benign, "phishing"}
  {
    var isSafe := level == Safe;
    Verdict(if isSafe then Benign else "phishing", isSafe)
  }

  /** ML branch: a non-benign label below the confidence threshold is relabelled benign. */
  function MlLabel(predLabel: string, confidence: real): (l: string)
    ensures l == Benign <==> predLabel == Benign || confidence < LowConfidenceThreshold
    ensures l != Benign ==> l == predLabel
  {
    if predLabel != Benign && confidence < LowConfidenceThreshold then Benign else predLabel
  }

  function MlVerdict(predLabel: string, confidence: real): (v: Verdict)
    ensures v.isSafe <==> v.prediction == Benign
    ensures !v.isSafe <==> predLabel != Benign && confidence >= LowConfidenceThreshold
    ensures !v.isSafe ==> v.prediction == predLabel
  {
    var l := MlLabel(predLabel, confidence);
    Verdict(l, l == Benign)
  }

  /** The ML branch's `reason`: the low-confidence text exactly when the label was
      relabelled, carrying the confidence; the model's own reason otherwise. */
  function MlReason(predLabel: string, confidence: real): (r: Reason)
    ensures r.LowModelConfidence? <==> MlLabel(predLabel, confidence) != predLabel
    ensures r.LowModelConfidence? ==> r.confidence == confidence
    ensures !r.LowModelConfidence? ==> r == ModelPrediction
  {
    if predLabel != Benign && confidence < LowConfidenceThreshold then LowModelConfidence(confidence)
    else ModelPrediction
  }

  /** A confident non-benign verdict stays unsafe at every higher confidence. */
  lemma MlVerdictMonotone(predLabel: string, c1: real, c2: real)
    requires c1 <= c2
    requires !MlVerdict(predLabel, c1).isSafe
    ensures !MlVerdict(predLabel, c2).isSafe && MlVerdict(predLabel, c2) == MlVerdict(predLabel, c1)
  {
  }

  // ---------------------------------------------------------------------------
  // Prediction
  // ---------------------------------------------------------------------------

  /** What the opaque model does for the URL: raise, or give a label and the
      class list with its probabilities (`label_encoder.classes_`, `predict_proba`). */
  datatype MlOutcome =
    | Raised(message: string)
    | Predicted(predLabel: string, classes: seq<string>, probs: seq<real>)

  /** The two `HTTPException`s `predict_url` raises; both carry status 500. */
  datatype HttpError = ModelNotLoaded | PredictionError(message: string)

  /** The exception's `detail`: a fixed text, or the prefix followed by the
      text of the exception the ML branch caught. */
  function Detail(e: HttpError): (d: string)
    ensures e.ModelNotLoaded? ==> d == "Model not loaded"
    ensures e.PredictionError? ==>
              |e.message| < |d| && d[|d| - |e.message|..] == e.message && d[..|d| - |e.message|] == "Prediction Error: "
  {
    match e
    case ModelNotLoaded => "Model not loaded"
    case PredictionError(m) => "Prediction Error: " + m
  }

  /** Python's `max(probs)`. */
  function MaxOf(probs: seq<real>): (m: real)
    requires |probs| > 0
    ensures m in probs
    ensures forall k :: 0 <= k < |probs| ==> probs[k] <= m
  {
    if |probs| == 1 then probs[0]
    else
      var rest := MaxOf(probs[1..]);
      assert forall k :: 1 <= k < |probs| ==> probs[k] == probs[1..][k - 1];
      if probs[0] >= rest then probs[0] else rest
  }

  /** `{label: float(prob) for label, prob in zip(classes, probs)}`: pairs up to the
      shorter list, a repeated label keeping its last probability. */
  function ZipToMap(classes: seq<string>, probs: seq<real>): (m: map<string, real>)
    ensures m.Keys == set k | 0 <= k < Min(|classes|, |probs|) :: classes[k]
    ensures forall l :: l in m ==> m[l] in probs
    ensures forall k :: 0 <= k < Min(|classes|, |probs|) && LastOccurrence(classes, k, Min(|classes|, |probs|)) ==>
              m[classes[k]] == probs[k]
    decreases |classes|
  {
    var n := Min(|classes|, |probs|);
    if n == 0 then map[]
    else
      var prev := ZipToMap(classes[..n - 1], probs[..n - 1]);
      assert forall k :: 0 <= k < n - 1 ==> classes[..n - 1][k] == classes[k];
      assert forall l :: l in prev ==> prev[l] in probs;
      var m := prev[classes[n - 1] := probs[n - 1]];
      forall k | 0 <= k < n && LastOccurrence(classes, k, n)
        ensures m[classes[k]] == probs[k]
      {
        if k < n - 1 {
          assert classes[k] != classes[n - 1];
          assert LastOccurrence(classes[..n - 1], k, n - 1);
          assert probs[..n - 1][k] == probs[k];
        }
      }
      m
  }

  /** Index `k` holds the last occurrence of its class among the first `n`. */
  predicate LastOccurrence(classes: seq<string>, k: nat, n: nat)
    requires k < n <= |classes|
  {
    forall j :: k < j < n ==> classes[j] != classes[k]
  }

  /** The `max()` message for an empty probability list. */
  const EmptyMaxMessage := "max() arg is an empty sequence"

  /** The body of `predict_url` after the model check, before the history
      stamps the entry: the heuristic verdict when a rule fires, the model's
      verdict otherwise, or the error the ML branch reports. */
  function Predict(url: string, ml: MlOutcome): (r: Result<ScanResult, HttpError>)
    ensures r.Ok? ==> r.value.url == url && (r.value.isSafe <==> r.value.prediction == Benign)
    ensures AnalyzeUrlSecurity(url).Some? ==>
              r.Ok? && r.value.isSafe == (AnalyzeUrlSecurity(url).value.riskLevel == Safe) &&
              r.value.prediction == HeuristicVerdict(AnalyzeUrlSecurity(url).value.riskLevel).prediction &&
              r.value.confidence == Some(AnalyzeUrlSecurity(url).value.confidence) &&
              r.value.reason == Some(AnalyzeUrlSecurity(url).value.reason) &&
              r.value.detectionMethod == "Heuristic Rule" && r.value.probabilities.None?
    ensures AnalyzeUrlSecurity(url).None? && ml.Raised? ==> r == Err(PredictionError(ml.message))
    ensures AnalyzeUrlSecurity(url).None? && ml.Predicted? && |ml.probs| == 0 ==>
              r == Err(PredictionError(EmptyMaxMessage))
    ensures AnalyzeUrlSecurity(url).None? && ml.Predicted? && |ml.probs| > 0 ==>
              r.Ok? && r.value.detectionMethod == "Machine Learning" &&
              r.value.confidence == Some(MaxOf(ml.probs)) &&
              r.value.prediction == MlLabel(ml.predLabel, MaxOf(ml.probs)) &&
              (!r.value.isSafe <==> ml.predLabel != Benign && MaxOf(ml.probs) >= LowConfidenceThreshold) &&
              r.value.reason == Some(MlReason(ml.predLabel, MaxOf(ml.probs))) &&
              r.value.probabilities == Some(ZipToMap(ml.classes, ml.probs))
    ensures r.Ok? ==> r.value.timestamp.None?
  {
    match AnalyzeUrlSecurity(url)
    case Some(analysis) =>
      var v := HeuristicVerdict(analysis.riskLevel);
      Ok(ScanResult(url, v.prediction, Some(analysis.confidence), v.isSafe,
                    Some(analysis.reason), "Heuristic Rule", None, None))
    case None =>
      match ml
      case Raised(message) => Err(PredictionError(message))
      case Predicted(predLabel, classes, probs) =>
        if |probs| == 0 then Err(PredictionError(EmptyMaxMessage))
        else
          var confidence := MaxOf(probs);
          var v := MlVerdict(predLabel, confidence);
          Ok(ScanResult(url, v.prediction, Some(confidence), v.isSafe,
                        Some(MlReason(predLabel, confidence)), "Machine Learning",
                        Some(ZipToMap(classes, probs)), None))
  }

  /** `datetime.now().isoformat()` written into the entry, whatever it held. */
  function Stamped(e: ScanResult, now: string): (r: ScanResult)
    ensures r.timestamp == Some(now)
    ensures r.(timestamp := e.timestamp) == e
  {
    e.(timestamp := Some(now))
  }

  // ---------------------------------------------------------------------------
  // The service state
  // ---------------------------------------------------------------------------

  class ScanServer {
    /** `scan_history`, oldest first. */
    var scanHistory: seq<ScanResult>
    /** Whether `model_data` was filled at start-up. */
    var modelLoaded: bool

    /** The list never exceeds the cap when only this class changes it. */
    ghost predicate Valid()
      reads this
    {
      |scanHistory| <= HistoryCap
    }

    constructor(modelLoaded: bool)
      ensures Valid()
      ensures this.scanHistory == [] && this.modelLoaded == modelLoaded
    {
      scanHistory := [];
      this.modelLoaded := modelLoaded;
    }

    /** `add_to_history`: the entry, stamped with `now` (an existing timestamp is
        overwritten), goes to the end; beyond the cap only index 0 is dropped. */
    method AddToHistory(entry: ScanResult, now: string) returns (stamped: ScanResult)
      modifies this
      ensures stamped == Stamped(entry, now) && stamped.timestamp == Some(now)
      ensures scanHistory == Recorded(old(scanHistory), stamped)
      ensures scanHistory[|scanHistory| - 1] == stamped
      ensures old(Valid()) ==> Valid()
      ensures modelLoaded == old(modelLoaded)
    {
      stamped := Stamped(entry, now);
      scanHistory := scanHistory + [stamped];
      if |scanHistory| > HistoryCap {
        scanHistory := scanHistory[1..];
      }
    }

    /** `GET /history`. */
    method GetHistory() returns (h: seq<ScanResult>)
      ensures h == scanHistory
    {
      h := scanHistory;
    }

    /** `DELETE /history`: empty for any prior state. */
    method ClearHistory()
      modifies this
      ensures scanHistory == [] && Valid()
      ensures modelLoaded == old(modelLoaded)
    {
      scanHistory := [];
    }

    /** `POST /predict`. Without a model: error 500 and no history change. With one:
        each successful verdict is recorded exactly once, stamped, and returned
        as recorded; a failed ML branch records nothing. */
    method PredictUrl(url: string, ml: MlOutcome, now: string) returns (res: Result<ScanResult, HttpError>)
      modifies this
      ensures modelLoaded == old(modelLoaded)
      ensures !modelLoaded ==>
                res == Err(ModelNotLoaded) && Detail(res.error) == "Model not loaded" &&
                scanHistory == old(scanHistory)
      ensures modelLoaded && Predict(url, ml).Err? ==>
                res == Predict(url, ml) && scanHistory == old(scanHistory)
      ensures modelLoaded && Predict(url, ml).Ok? ==>
                res == Ok(Stamped(Predict(url, ml).value, now)) &&
                scanHistory == Recorded(old(scanHistory), res.value)
      ensures old(Valid()) ==> Valid()
    {
      if !modelLoaded {
        return Err(ModelNotLoaded);
      }
      var outcome := Predict(url, ml);
      match outcome
      case Err(e) =>
        res := Err(e);
      case Ok(result) =>
        var recorded := AddToHistory(result, now);
        res := Ok(recorded);
    }
  }
}

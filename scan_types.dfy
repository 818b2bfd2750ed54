/** The shape of one scan outcome, as the backend builds it and the browser stores it. */
module ScanTypes {

  datatype Option<T> = None | Some(value: T)

  datatype Result<T, E> = Ok(value: T) | Err(error: E)

  /** The `reason` field. The heuristic reasons are fixed texts; the low-confidence
      reason embeds the model confidence as a formatted percentage. */
  datatype Reason =
    | Whitelisted            // " Whitelisted domain"
    | SuspiciousTldKeywords  // " Suspicious TLD + keywords"
    | IpAddressUrl           // " IP address URL"
    | LowModelConfidence(confidence: real)  // "Low Risk (Model Confidence ...% too low)"
    | ModelPrediction        // "ML Model Prediction"

  /** One scan result (`detectionMethod` is the JSON field `method`). Fields the JSON
      payload may lack are `Option`s. */
  datatype ScanResult = ScanResult(
    url: string,
    prediction: string,
    confidence: Option<real>,
    isSafe: bool,
    reason: Option<Reason>,
    detectionMethod: string,
    probabilities: Option<map<string, real>>,
    timestamp: Option<string>)

  const Benign := "benign"
}

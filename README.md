# Phishing URL scanner — verified model of its history and rules

The system classifies URLs as benign or malicious. A FastAPI service
(`backend/main.py`) applies a cascade of heuristic rules (`backend/utils.py`).
When no rule fires, it consults a trained model. It records each verdict in a
bounded in-memory history. A React front end (`frontend/src/URLChecker.jsx`)
submits URLs and keeps its own newest-first history of 50 entries in the
browser's `localStorage`. The dashboard (`frontend/src/Dashboard.jsx`) reads
that history back. It shows counts, the average confidence and a recent-activity
list, and can clear the history after a confirmation.

Modules:

- `Seqs`: prefix, suffix and reversal of sequences.
- `ScanTypes`: the scan-result record, `Option` and `Result`.
- `PyStrings`: the Python string built-ins the rules rely on, on ASCII:
  `lower`, `in`, `count`, `split` and `join`.
- `UrlUtils` (`backend/utils.py`) covers:
  - URL normalisation, which is the regex substitutions written out as functions;
  - domain extraction;
  - the TLD, shortener and keyword substring tests;
  - the IP-address regex as a backtracking matcher, proved equal to "some
    substring is a dotted quad";
  - the rule cascade;
  - the integer features.
- `Backend` (`backend/main.py`) covers:
  - the verdict rules of both prediction branches;
  - the class `ScanServer`, which holds the history list, the model-loaded flag,
    `add_to_history`, `GET/DELETE /history` and `POST /predict`.
- `LocalStorage`: the single `scanHistory` entry. It is absent, holds text that
  does not parse, or holds a list.
- `UrlChecker` (`URLChecker.jsx`): the class `UrlCheckerPage`, with
  `saveToHistory` and `analyzeUrl`, over a shared `Store`.
- `Dashboard` (`Dashboard.jsx`): the class `DashboardPage`, with the load
  effect and `clearHistory`, plus the statistics as functions of the history.

The model gets the outside world as parameters:

- The clock is a `now` string.
- The trained model is an `MlOutcome`: it either raises, or returns a label,
  the class list and the probabilities.
- The HTTP response seen by the page is a `Response`.
- The user's answer to `confirm` is a `bool`.

Facts about the code that a reader may not expect:

- The dashboard's average confidence is the mean confidence times 100
  (`Dashboard.jsx:61`).
- The recent-activity list reverses the stored list before it takes ten entries
  (`Dashboard.jsx:168`); see "## Findings".
- The ML branch relabels a non-benign label when its confidence is below 0.45
  (`main.py:136`).

## Model

| member | source | states |
|---|---|---|
| PyStrings.Lower | backend/utils.py:47 | `lower()` keeps the length, maps each ASCII capital to its lower-case letter (code + 32) and changes no other character |
| PyStrings.Contains | backend/utils.py:41 | the `in` test on strings holds exactly when the token occurs at some index |
| PyStrings.CountChar | backend/utils.py:81-88 | `str.count` of one character is that character's multiplicity |
| PyStrings.Split | backend/utils.py:56-57 | `split` gives at least one part and no part contains the separator |
| PyStrings.Join | backend/utils.py:58 | no contract; see PyStrings.JoinSplit and PyStrings.SplitJoin |
| PyStrings.JoinSplit | backend/utils.py:57-58 | joining the parts of a split with the same separator gives back the string |
| PyStrings.SplitJoin | backend/utils.py:57-58 | splitting a join of separator-free parts gives back the parts |
| PyStrings.SplitCount | backend/utils.py:57 | a split has one more part than the string has separators |
| UrlUtils.CountWhere | backend/utils.py:89 | a character-class count is at most the length; it is 0 iff no character matches and the length iff all do |
| UrlUtils.CountWhereAppend | backend/utils.py:89 | the count over a concatenation is the sum of the counts of the parts |
| UrlUtils.CountWhereOne | backend/utils.py:89 | one character counts 1 if it is in the class and 0 otherwise; with CountWhereAppend this fixes every count |
| UrlUtils.CharClassesPartition | backend/utils.py:80-91 | the digit, letter and special-character counts add up to the URL length |
| UrlUtils.CountSpecialChars | backend/utils.py:21-22 | the number of `[^a-zA-Z0-9]` matches is the length minus the digit and letter counts; it is 0 iff every character is a letter or a digit |
| UrlUtils.SpecialCharsAppend | backend/utils.py:21-22 | the special-character count adds up over a concatenation, and is 0 for the empty string |
| UrlUtils.StripScheme | backend/utils.py:48 | no contract; see the StripScheme and Scheme lemmas below |
| UrlUtils.StripWww | backend/utils.py:49 | no contract; see UrlUtils.WwwRemovedOnce |
| UrlUtils.StripTrailingSlash | backend/utils.py:50-51 | no contract; see UrlUtils.OneTrailingSlashRemoved |
| UrlUtils.StripSchemeDeletes | backend/utils.py:48 | the scheme substitution never lengthens the string and never introduces an upper-case letter |
| UrlUtils.StripSchemeSkipsPlain | backend/utils.py:48 | a stretch without `h` passes the substitution unchanged |
| UrlUtils.StripSchemeKeepsFirst | backend/utils.py:48 | where no `https?://` starts, the first character is kept |
| UrlUtils.SchemeHttpDeleted | backend/utils.py:48 | a leading `http://` is deleted |
| UrlUtils.SchemeHttpsDeleted | backend/utils.py:48 | a leading `https://` is deleted |
| UrlUtils.SchemeDeletedMidString | backend/utils.py:48 | an `https://` in the middle of the URL is deleted too, because the pattern is not anchored |
| UrlUtils.SchemeDeletionIsSinglePass | backend/utils.py:48 | the substitution is one pass: `hthttp://tp://` becomes `http://` |
| UrlUtils.PreprocessUrl | backend/utils.py:46-52 | the normalised URL is no longer than the input and has no upper-case letter |
| UrlUtils.LowerKeeps | backend/utils.py:47 | a string without upper-case letters is its own `lower()` |
| UrlUtils.PlainPreprocess | backend/utils.py:46-52 | a lower-case URL without `h` is changed only by the `www.` and slash steps |
| UrlUtils.WwwRemovedOnce | backend/utils.py:49 | for every tail, `www.` + tail normalises to the tail lower-cased, scheme-stripped and slash-trimmed: the anchored `^www\.` is removed once only |
| UrlUtils.OneTrailingSlashRemoved | backend/utils.py:50-51 | exactly one trailing slash is dropped |
| UrlUtils.SchemePrefixDropped | backend/utils.py:46-52 | a leading `http://` does not change the normalised URL |
| UrlUtils.LastTwoLabels | backend/utils.py:57-58 | a host without a dot is kept whole; otherwise the result is a whole-label suffix of the host with exactly one dot |
| UrlUtils.Host | backend/utils.py:56 | the host is the longest prefix without `/`: it is followed by `/` or by the end |
| UrlUtils.ExtractDomain | backend/utils.py:54-58 | the domain has no `/` and at most one dot, and is the last two labels of the text before the first `/` |
| UrlUtils.WhatsappEntryUnreachable | backend/utils.py:8-13 | no URL's extracted domain can equal the two-dot whitelist entry `web.whatsapp.com` |
| UrlUtils.QueryDomainIsWhitelisted | backend/utils.py:54-67 | for any plain host, `http://<host>?.paypal.com` extracts to `paypal.com` and the cascade answers SAFE with confidence 0.99 |
| UrlUtils.ExtractDomainCorrected | backend/utils.py:54-58 | corrected extraction: the whole authority when it has no dot, otherwise a whole-label suffix of it with exactly one dot; never a `/`, `?` or `#` |
| UrlUtils.CorrectedAgreesWithoutQuery | backend/utils.py:56 | without `?` or `#`, the corrected extraction equals the one as written |
| UrlUtils.CorrectedIgnoresQueryDomain | backend/utils.py:56 | with the correction, the spoofing URL's domain is the host's own last two labels |
| UrlUtils.ContainedCount | backend/utils.py:68 | the keyword count never exceeds the number of keywords |
| UrlUtils.AtLeastOneContained | backend/utils.py:68 | the count is positive iff some keyword occurs |
| UrlUtils.AtLeastTwoContained | backend/utils.py:68 | the count is at least two iff two different keywords of the list occur |
| UrlUtils.HasSuspiciousTld | backend/utils.py:40-41 | the result is 0 or 1, and 1 iff a listed TLD occurs anywhere in the lower-cased URL |
| UrlUtils.TldWithKeywords | backend/utils.py:68 | no contract; see UrlUtils.AtLeastTwoContained and UrlUtils.AnalyzeUrlSecurity |
| UrlUtils.HasShorteningService | backend/utils.py:43-44 | the result is 0 or 1, and 1 iff a listed shortener occurs anywhere in the lower-cased URL |
| UrlUtils.TldTestIsSubstring | backend/utils.py:40-41 | `https://www.mlflow.org` is flagged, because the test is a substring test |
| UrlUtils.OctetsFrom | backend/utils.py:36-37 | no contract; see UrlUtils.OctetsFromSpec |
| UrlUtils.SearchIp | backend/utils.py:36-37 | no contract; see UrlUtils.SearchIpSpec |
| UrlUtils.OctetsFromSpec | backend/utils.py:36-37 | the backtracking matcher accepts at an index iff some text from there splits into the required number of octets |
| UrlUtils.SearchIpSpec | backend/utils.py:36-37 | the search from an index succeeds iff a dotted quad starts at or after it |
| UrlUtils.HavingIpAddress | backend/utils.py:35-38 | the result is 0 or 1, and 1 iff some substring of the URL is a dotted quad of octets 0-255 |
| UrlUtils.UnanchoredIpMatch | backend/utils.py:35-38 | `http://999.1.1.1/` counts as an IP URL, because `99.1.1.1` matches |
| UrlUtils.IsWhitelisted | backend/utils.py:65-66 | no contract; see UrlUtils.AnalyzeUrlSecurity |
| UrlUtils.AnalyzeUrlSecurity | backend/utils.py:60-72 | four iffs, one per outcome: whitelist, then TLD plus two keywords, then IP, then None, in that priority, with the source's levels and confidences |
| UrlUtils.SafeOnlyWhenWhitelisted | backend/utils.py:65-67 | only the whitelist rule yields SAFE |
| UrlUtils.GetUrlFeatures | backend/utils.py:74-97 | every count is the character's multiplicity or class count; digits, letters and specials sum to the length; the IP, TLD and shortener flags are the specified tests; `is_https` is 1 iff "https" occurs after lower-casing; all flags are 0 or 1 |
| Backend.Recorded | backend/main.py:66-73 | the new list is the old one plus the entry, with at most its oldest element dropped; the length grows until 100 and then stays |
| Backend.RecordAllKeepsLatest | backend/main.py:70-73 | from a list within the cap, any run of additions leaves the last 100 of old and new entries, oldest first |
| Backend.RecordAllFromEmpty | backend/main.py:70-73 | N additions to an empty list leave exactly the last min(N, 100) entries |
| Backend.HeuristicVerdict | backend/main.py:99-104 | safe iff the risk level is SAFE, and the prediction is "benign" iff safe, otherwise "phishing" |
| Backend.MlLabel | backend/main.py:136-140 | the label becomes benign iff it was benign or the confidence is below 0.45; otherwise it is kept |
| Backend.MlVerdict | backend/main.py:136-146 | unsafe iff the label is non-benign with confidence at least 0.45; safe iff the prediction is "benign" |
| Backend.MlReason | backend/main.py:136-140 | the low-confidence reason, carrying the confidence, exactly when the label was relabelled; otherwise the model-prediction reason |
| Backend.MlVerdictMonotone | backend/main.py:136 | an unsafe ML verdict stays the same verdict at any higher confidence |
| Backend.MaxOf | backend/main.py:130 | the confidence is one of the probabilities and at least every one of them |
| Backend.ZipToMap | backend/main.py:149-152 | the keys are the classes paired by `zip`; each class maps to the probability at its last position among the pairs |
| Backend.Predict | backend/main.py:90-158 | a firing rule gives its verdict ("benign" or "phishing"), confidence and reason, with no probabilities; otherwise the model's exception, or an empty probability list, is a prediction error; else the label after the 0.45 rule, max(probs), its reason and the zipped probabilities; no timestamp yet |
| Backend.Detail | backend/main.py:94-158 | the detail is "Model not loaded", or "Prediction Error: " followed by the exception text |
| Backend.Stamped | backend/main.py:69 | the timestamp becomes `now` whatever it was; no other field changes |
| Backend.ScanServer.constructor | backend/main.py:30-32 | the service starts with an empty history |
| Backend.ScanServer.AddToHistory | backend/main.py:66-73 | the entry is stamped with `now` (overwriting), appended last, and only index 0 is dropped beyond 100 |
| Backend.ScanServer.GetHistory | backend/main.py:80-82 | returns the history as stored |
| Backend.ScanServer.ClearHistory | backend/main.py:84-88 | the history is empty afterwards, whatever it was, so clearing twice is clearing once |
| Backend.ScanServer.PredictUrl | backend/main.py:90-158 | with no model: error "Model not loaded" and no change; an error records nothing; a verdict is recorded once, stamped, and returned as recorded; the cap is kept |
| LocalStorage.ReadHistory | frontend/src/URLChecker.jsx:16-17 | a missing entry reads as the empty list, unparseable text as a failure, a stored list as itself |
| UrlChecker.NeedsTimestamp | frontend/src/URLChecker.jsx:20 | no contract; see UrlChecker.WithTimestamp |
| UrlChecker.WithTimestamp | frontend/src/URLChecker.jsx:20-22 | a missing or empty timestamp is set to `now`; any other entry is unchanged; no other field changes |
| UrlChecker.Prepended | frontend/src/URLChecker.jsx:25-30 | the new entry is first, followed by the old list in order, cut to 50 from the tail |
| UrlChecker.SavedSlot | frontend/src/URLChecker.jsx:13-38 | unparseable storage is left alone; otherwise the stamped entry heads a list of min(n+1, 50) entries, followed by the old list in order |
| UrlChecker.AppendAllKeepsNewest | frontend/src/URLChecker.jsx:25-30 | any run of saves leaves the first 50 of (new entries newest first, then the old list) |
| UrlChecker.AppendAllFromEmpty | frontend/src/URLChecker.jsx:25-30 | N saves into empty storage leave the last min(N, 50) saved entries, newest first |
| UrlChecker.FiftyOneSaves | frontend/src/URLChecker.jsx:28-30 | after 51 saves the first saved entry is gone and the other 50 remain, newest first |
| UrlChecker.UrlCheckerPage.constructor | frontend/src/URLChecker.jsx:7-10 | the initial state is an empty URL, no result, not loading, no error |
| UrlChecker.UrlCheckerPage.SetUrl | frontend/src/URLChecker.jsx:7 | only the URL changes |
| UrlChecker.UrlCheckerPage.SaveToHistory | frontend/src/URLChecker.jsx:13-38 | the storage becomes the saved slot; the entry is stamped in place unless the stored text does not parse |
| UrlChecker.UrlCheckerPage.AnalyzeUrl | frontend/src/URLChecker.jsx:40-65 | an empty URL changes nothing; a failure sets the message and writes nothing; a success shows the stamped data and saves it; loading ends false |
| Dashboard.SafeEntries | frontend/src/Dashboard.jsx:58 | the filter keeps every safe entry as often as it occurs, and no unsafe one |
| Dashboard.UnsafeEntries | frontend/src/Dashboard.jsx:59 | an independent list of every unsafe entry as often as it occurs |
| Dashboard.TotalScans | frontend/src/Dashboard.jsx:57 | no contract; the length of the history |
| Dashboard.SafeScans | frontend/src/Dashboard.jsx:58 | the safe count is at most the total, and 0 iff no entry is safe |
| Dashboard.SafeScansAppend | frontend/src/Dashboard.jsx:58 | the safe count adds up over a concatenation, and one entry counts 1 iff it is safe: it is the number of safe positions |
| Dashboard.SafeEntriesAppend | frontend/src/Dashboard.jsx:58 | filtering a concatenation is concatenating the filtered parts |
| Dashboard.MaliciousScans | frontend/src/Dashboard.jsx:59 | the safe and malicious counts sum to the total |
| Dashboard.MaliciousCountsUnsafe | frontend/src/Dashboard.jsx:57-59 | the derived malicious count equals the number of unsafe entries |
| Dashboard.ConfidenceOf | frontend/src/Dashboard.jsx:61 | no contract; a missing confidence counts as 0 |
| Dashboard.ConfidenceSum | frontend/src/Dashboard.jsx:61 | no contract; see Dashboard.ConfidenceSumAppend |
| Dashboard.ConfidenceSumAppend | frontend/src/Dashboard.jsx:61 | the sum adds up over a concatenation, is 0 for no entries, and one entry contributes its confidence |
| Dashboard.AvgConfidence | frontend/src/Dashboard.jsx:60-62 | 0 for an empty history; otherwise average times count equals 100 times the sum |
| Dashboard.ConfidenceSumBounds | frontend/src/Dashboard.jsx:61 | with confidences in [0, 1], the sum lies between 0 and the number of entries |
| Dashboard.AvgConfidenceBounds | frontend/src/Dashboard.jsx:60-62 | the average confidence is a percentage in [0, 100] |
| Dashboard.AvgConfidenceBaseCases | frontend/src/Dashboard.jsx:60-62 | an empty history averages 0; one entry averages 100 times its confidence |
| Dashboard.TwoEntryScenario | frontend/src/Dashboard.jsx:57-62 | saving A (safe, 0.9) then B (unsafe, 0.6) stores [B, A], with 2 total, 1 safe, 1 malicious and an average of 75 |
| Dashboard.PieData | frontend/src/Dashboard.jsx:64-67 | two slices, "Safe" and "Malicious", holding the safe and unsafe counts, which sum to the total |
| Dashboard.RecentActivity | frontend/src/Dashboard.jsx:168 | at most 10 entries: the last ones stored, last first |
| Dashboard.RecentActivityShowsOldest | frontend/src/Dashboard.jsx:168 | after 11 saves the list shows the first ten saved, oldest first, and not the newest |
| Dashboard.NewestActivity | frontend/src/Dashboard.jsx:168 | corrected list: the first 10 entries of the newest-first history |
| Dashboard.NewestActivityShowsLatest | frontend/src/Dashboard.jsx:168 | with the correction, the list shows the latest min(N, 10) saves, newest first |
| Dashboard.DashboardPage.constructor | frontend/src/Dashboard.jsx:31-32 | starts with an empty history, loading |
| Dashboard.DashboardPage.LoadHistory | frontend/src/Dashboard.jsx:35-46 | a stored list replaces the history; a missing or unparseable entry leaves it; loading ends in every case |
| Dashboard.DashboardPage.ClearHistory | frontend/src/Dashboard.jsx:49-54 | once confirmed, the storage entry is removed and the history emptied; once declined, nothing changes |
| Dashboard.MountOverNothing | frontend/src/Dashboard.jsx:35-46 | mounting over a missing or unreadable entry shows an empty dashboard: 0 scans, average 0 |

## Left out

- Floating-point features: `calculate_entropy` and `digit_ratio` of `get_url_features`, and the rounding of `toFixed(1)`. Confidences and averages are exact reals.
- Unicode: `lower()`, `isdigit()` and `\d` are modelled on ASCII. Python's Unicode case mapping and Unicode digits are not modelled.
- The trained model, the TF-IDF vectoriser, pickle loading and the feature matrix are not modelled. The model's result is the parameter `MlOutcome`. Any exception raised while building features is folded into its `Raised` case.
- Backend.Predict: the reason is a `Reason` value. The text of the f-string, which formats the confidence to one decimal, is not modelled. The message for an empty probability list is a fixed string, not Python's exact wording.
- The transport is not modelled: HTTP, CORS, the JSON encoding of `HTTPException` (only its status and detail are kept), and the API base URL taken from the environment.
- I/O is not modelled: `console.error`, the clock (a `now` parameter), `window.confirm` (a `bool` parameter) and axios (a `Response` parameter; every rejection is one `Failed` case).
- `localStorage` is one `Slot`. Stored text that parses but is not a list, and a quota failure of `setItem`, are not modelled.
- React's asynchronous state updates and rendering are not modelled. The setters of one handler take effect in order; the loading screen and the chart data are not modelled.
- Concurrency is not modelled: two tabs racing on the same storage entry, or two requests in flight.
- The browser-extension popup and `App.jsx` routing are not part of this model.

## Findings

| source | as written | input that shows it | evidently intended | confidence | as-written member | corrected member |
|---|---|---|---|---|---|---|
| frontend/src/Dashboard.jsx:168 | the stored history is already newest first, and the view reverses it before taking ten, so "Recent Activity" lists the oldest ten, oldest first | save entries e1…e11 into empty storage: the list shows e1…e10 and never e11, the scan just made | the first ten stored entries, newest first | high (proved; not executed) | Dashboard.RecentActivityShowsOldest | Dashboard.NewestActivityShowsLatest |
| backend/utils.py:56 | the host ends only at the first `/`, so labels after `?` or `#` count as the domain | `http://evil.tk?.paypal.com` extracts to `paypal.com` and is whitelisted SAFE at 0.99 before any other rule runs | the domain of the authority, which ends at `/`, `?` or `#` | high (proved; not executed) | UrlUtils.QueryDomainIsWhitelisted | UrlUtils.CorrectedIgnoresQueryDomain |

The dashboard and the rule cascade models keep the definitions as written,
because they model the code. The corrected ones stand beside them:

- `Dashboard.NewestActivity` is the corrected list.
- `UrlUtils.ExtractDomainCorrected` and `UrlUtils.IsWhitelistedCorrected` are
  the corrected extraction and whitelist test.
- `UrlUtils.CorrectedAgreesWithoutQuery` proves that the corrected extraction
  equals the one as written on every URL without `?` or `#`.

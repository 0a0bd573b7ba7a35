# GreenFlow core in Dafny

This project models the computational core of GreenFlow, a real-time environmental
analytics service. Sensors and feeds send CO₂, AQI, temperature, traffic and text
events. GreenFlow scores them, detects anomalies, raises alerts, forecasts CO₂,
recommends actions and answers what-if simulations. The model covers:

- the streaming anomaly detector: per-sensor sliding windows, a z-score test, a
  Tukey IQR fence, a per-key cooldown and a bounded newest-first history
  (`AnomalyDetector` class over the pure step functions of module `Anomaly`;
  the window statistics are in `WindowStats`);
- the alert engine: threshold rules with four bands, anomaly-derived alerts, a
  per-city cooldown per alert type and a bounded history (`AlertEngine` class
  over `FireStep`/`FireAll`);
- the what-if simulation engine: baseline resolution, clipped levers with
  diminishing returns, CO₂ and AQI reductions, the re-scored risk, the alert
  level and the structured impact summary;
- the environmental risk score, its four levels with advice, and the 100-entry
  risk history (`RiskHistory` class);
- the RAG engine's chunker (a loop), the document id and the read-only guard on
  live database queries;
- the text feature extractor (tokens, stop words, frequency count, ranking by
  frequency) and the numeric carbon heuristic;
- the feature service's keyword relevance, anomaly flag, confidence and source
  classification, and the streaming pipeline's source classification and
  keyword score;
- the analytics pipeline's risk score, safety bands, congestion score, alert
  filter and row assessment;
- the simulated background worker's per-iteration computation;
- the CO₂ forecasting helpers (forecast fallback, trend, confidence);
- the rule-based recommendation engine;
- settings validation and the CORS origin list;
- the request counters and rate of the metrics route, and the component
  checks, readiness and overall status of the health routes.

Floating-point values are modelled as `real`. Python's `x or y` truthiness is
written out: `0.0`, `""` and `None` fall through to the default. Wall-clock
time is the parameter `now`, and random draws are parameters. Mathematical
functions that cannot be defined exactly over `real` are parameters too: the
exponential (`exp`, constrained by `ExpLaws`), the square root (`sqrt`,
constrained by `SqrtLaws`), the least-squares fit (`fitted`) and the SHA-256
hex digest (`hexdigest`). The anomaly detector's z-test avoids the square root
by comparing squares; `Anomaly.ExceedsAgrees` proves that this agrees with
comparing `|value − mean| / std` whenever `std` is a square root of the variance.

## Model

| member | source | states |
|---|---|---|
| WindowStats.MeanVar | greenflow/features/anomaly_detector.py:69-75 | fewer than two values give (first or 0, 0); otherwise the mean times n is the sum, and the variance times n − 1 is the sum of squared deviations from that mean (the sample variance), never negative |
| WindowStats.ConstantWindowHasNoSpread | greenflow/features/anomaly_detector.py:69-75 | a window of identical readings has that reading as mean and zero variance |
| WindowStats.Median | greenflow/features/anomaly_detector.py:90-95 | 0.0 for an empty list; the middle element for odd length and the mean of the two middle elements for even length; for a sorted list it lies between the first and last element |
| WindowStats.MedianSplitsHalves | greenflow/features/anomaly_detector.py:90-95 | in a sorted list every element of the lower half is at most the median and every element of the upper half at least it |
| WindowStats.Sort | greenflow/features/anomaly_detector.py:80 | the result is sorted and a permutation of the input |
| WindowStats.Insert | greenflow/features/anomaly_detector.py:80 | inserting into a sorted list keeps it sorted and adds exactly the new element |
| WindowStats.Percentiles | greenflow/features/anomaly_detector.py:78-87 | Q1 is the median of the lower half of the sorted readings and Q3 the median of the upper half, the middle value left out for an odd count; (0, 0) for fewer than two readings, otherwise min ≤ Q1 ≤ Q3 ≤ max |
| WindowStats.SortedQuartiles | greenflow/features/anomaly_detector.py:80-87 | on a sorted list the results are the medians of `s[:n//2]` and `s[(n+1)//2:]`; for two or more values they are ordered and lie within the list's range |
| WindowStats.QuartilesWithinRange | greenflow/features/anomaly_detector.py:80-87 | on a sorted list of two or more values, min ≤ median of the lower half ≤ median of the upper half ≤ max |
| WindowStats.SumSqDevNonneg | greenflow/features/anomaly_detector.py:74 | the sum of squared deviations is never negative |
| Anomaly.ExceedsAgrees | greenflow/features/anomaly_detector.py:185-187 | the squared test agrees with `|value − μ| / std > t` whenever std is the square root of the variance |
| Anomaly.StdGuardAgrees | greenflow/features/anomaly_detector.py:185 | `std > 1e-10` holds exactly when the variance exceeds 1e-20 |
| Anomaly.ExceedsMonotone | greenflow/features/anomaly_detector.py:187 | a deviation flagged at a higher threshold is flagged at every lower one |
| Anomaly.SeverityOfScore | greenflow/features/anomaly_detector.py:225-234 | no score is LOW; otherwise the severity reaches MEDIUM, HIGH, CRITICAL exactly when the score is above 3, 4, 5 |
| Anomaly.ClassifySeverity | greenflow/features/anomaly_detector.py:225-234 | the same bands on the squared form: the severity reaches MEDIUM, HIGH, CRITICAL exactly when the deviation exceeds 3, 4, 5 standard deviations |
| Anomaly.ClassifySeverityAgrees | greenflow/features/anomaly_detector.py:225-234 | the severity on squares equals the severity of the actual z-score bands (>5 CRITICAL, >4 HIGH, >3 MEDIUM, else LOW) |
| Anomaly.SeverityMonotone | greenflow/features/anomaly_detector.py:225-234 | a larger deviation never gets a lower severity |
| Anomaly.SevereImpliesFlagged | greenflow/features/anomaly_detector.py:225-234 | any severity above LOW implies the z-test at the default 2.8 threshold fired |
| Anomaly.Judge | greenflow/features/anomaly_detector.py:181-196 | a z-score exists exactly when the variance exceeds the epsilon, the z flag is that score exceeding the threshold, and the IQR flag needs twenty earlier values and a value outside the fences |
| Anomaly.Assess | greenflow/features/anomaly_detector.py:178-198 | no assessment exactly when the window is below the minimum size; otherwise the judgement of the value against the window's `MeanVar` mean and sample variance and its `Percentiles` quartiles |
| Anomaly.TypicalValueNotFlagged | greenflow/features/anomaly_detector.py:182-198 | a value equal to the mean and inside [Q1, Q3] is never anomalous |
| Anomaly.FlatStatsFlagAnyChange | greenflow/features/anomaly_detector.py:185-196 | with zero spread there is no z-score, and with 20+ readings the IQR fence flags exactly the values that differ |
| Anomaly.ConstantWindowFlagsAnyChange | greenflow/features/anomaly_detector.py:173-198 | over a long enough constant window, any different value is anomalous and the same value is not |
| Anomaly.MedianConstant | greenflow/features/anomaly_detector.py:90-95 | the median of identical values is that value |
| Anomaly.PercentilesConstant | greenflow/features/anomaly_detector.py:78-87 | identical values have Q1 = Q3 = the value |
| Anomaly.SortConstant | greenflow/features/anomaly_detector.py:80 | sorting identical values leaves them identical |
| Anomaly.StoredZ | greenflow/features/anomaly_detector.py:216 | the event keeps the z-score exactly when it exists and is non-zero |
| Anomaly.Decide | greenflow/features/anomaly_detector.py:203-222 | an emitted event carries the sensor, the field, the value and the current time |
| Anomaly.DecideEvent | greenflow/features/anomaly_detector.py:209-221 | an emitted event records the window's mean and variance, the IQR flag, the z-score as stored (none when zero) and the severity `_classify_severity` gives the z-score |
| Anomaly.DecideIff | greenflow/features/anomaly_detector.py:178-207 | an event is emitted exactly when the window is large enough, the value is anomalous and the cooldown has elapsed |
| Anomaly.EventNamesItsMethod | greenflow/features/anomaly_detector.py:237-247 | with the default or a stricter z threshold, every event's message names at least one detection method |
| Anomaly.PutWindow | greenflow/features/anomaly_detector.py:174-176 | replacing one (sensor, field) window leaves every other window unchanged |
| Anomaly.CheckStep | greenflow/features/anomaly_detector.py:173-222 | the event is `Decide` on the window as it was before the value was appended; windows never grow beyond the configured size; the last-alert time of the (sensor, field) becomes `now` exactly when an event is emitted, and no other cooldown entry changes |
| Anomaly.CheckStepWindows | greenflow/features/anomaly_detector.py:174-176 | a check appends the value to its own window (dropping the oldest when full) and touches no other window |
| Anomaly.NoRepeatWithinCooldown | greenflow/features/anomaly_detector.py:203-207 | after an event, the same sensor and field emit nothing until the cooldown has passed |
| Anomaly.IngestStep | greenflow/features/anomaly_detector.py:146-158 | at most one event per reading; windows stay within size |
| Anomaly.IngestStepHead | greenflow/features/anomaly_detector.py:147-153 | a non-finite reading is skipped; a finite one is checked and its event comes first |
| Anomaly.IngestWindows | greenflow/features/anomaly_detector.py:147-150 | ingesting appends each finite reading to its field's window of this sensor only |
| Anomaly.IngestEventsFromReadings | greenflow/features/anomaly_detector.py:147-152 | every event comes from one of the sensor's finite readings, stamped with the current time |
| Anomaly.RecordAll | greenflow/features/anomaly_detector.py:129 | the history never exceeds 500 events |
| Anomaly.RecordAllSnoc | greenflow/features/anomaly_detector.py:153 | recording one more event pushes it at the front of the bounded history |
| Anomaly.RecordAllNewestFirst | greenflow/features/anomaly_detector.py:153 | the history is the new events newest first, then the old history, cut at 500 |
| Anomaly.LatestEventFirst | greenflow/features/anomaly_detector.py:153 | after ingesting, the most recent event heads the history |
| Anomaly.AnomalyDetector.constructor | greenflow/features/anomaly_detector.py:108-130 | starts with no windows, no cooldowns and an empty history |
| Anomaly.AnomalyDetector.Check | greenflow/features/anomaly_detector.py:173-222 | updates the windows and cooldowns exactly as `CheckStep` and leaves the history alone |
| Anomaly.AnomalyDetector.IngestReading | greenflow/features/anomaly_detector.py:147-153 | one reading: the step of `IngestOne`, and the event, if any, pushed on the history |
| Anomaly.AnomalyDetector.Ingest | greenflow/features/anomaly_detector.py:133-158 | returns the events of `IngestStep` and records them newest first in the history |
| Anomaly.AnomalyDetector.GetRecent | greenflow/features/anomaly_detector.py:160-162 | Python's `history[:limit]`: a prefix of length `limit` capped at the history's length, or `len + limit` (at least 0) for a negative limit |
| Anomaly.AnomalyDetector.GetWindowStats | greenflow/features/anomaly_detector.py:164-169 | one entry per sensor and field, giving that window's length, which never exceeds the window size |
| Alerts.ClassifyThreshold | greenflow/features/alert_engine.py:190-199 | a missing, NaN or −inf reading raises nothing and +inf is CRITICAL; for an ordered rule a finite reading raises an alert exactly when it reaches the LOW bound |
| Alerts.ClassifyBands | greenflow/features/alert_engine.py:190-199 | for an ordered rule, each band is the half-open interval between its thresholds and below LOW there is no alert |
| Alerts.ClassifyMonotone | greenflow/features/alert_engine.py:190-199 | a higher reading never gets a lower severity |
| Alerts.DefaultRulesWellOrdered | greenflow/features/alert_engine.py:42-48 | every default rule has LOW < MEDIUM < HIGH < CRITICAL, so it is well ordered and each band is non-empty |
| Alerts.DefaultCo2Bands | greenflow/features/alert_engine.py:43 | CO₂ is HIGH on [800, 950) ppm and raises nothing below 600 ppm |
| Alerts.CityLabel | greenflow/features/alert_engine.py:165 | the cooldown key's city part is never empty (`_` when the city is missing) |
| Alerts.CooldownKeyInjective | greenflow/features/alert_engine.py:165 | for colon-free city names, equal cooldown keys mean the same city label and alert type |
| Alerts.RuleAlert | greenflow/features/alert_engine.py:108-117 | a rule raises at most one candidate, exactly when its field has a reading that reaches one of its bands, and that candidate is raised by the rule |
| Alerts.ThresholdCandidates | greenflow/features/alert_engine.py:107-120 | at most one candidate per rule |
| Alerts.ThresholdCandidatesAppend | greenflow/features/alert_engine.py:107-120 | the rules are visited in order: the candidates of two consecutive rule lists are those of the first followed by those of the second |
| Alerts.ThresholdCandidatesSnoc | greenflow/features/alert_engine.py:107-120 | one more rule appends exactly the alert it raises, if any |
| Alerts.ThresholdCandidatesComplete | greenflow/features/alert_engine.py:107-120 | every rule whose field has a reading that reaches a band contributes its candidate, with its type, severity and message |
| Alerts.ThresholdCandidatesSound | greenflow/features/alert_engine.py:107-120 | every threshold candidate is raised by some rule whose field has a reading in that rule's band |
| Alerts.AnomalyCandidates | greenflow/features/alert_engine.py:123-129 | one candidate per anomaly event, typed `ANOMALY_<FIELD>` with the event's severity and message |
| Alerts.EffectiveRules | greenflow/features/alert_engine.py:87 | a missing or empty rule list falls back to the defaults, so the rules are never empty |
| Alerts.FireStep | greenflow/features/alert_engine.py:161-187 | fires exactly when the cooldown for (city, type) has elapsed; then the record is pushed first in the history, the counter goes up by one and the key's cooldown is set to now |
| Alerts.FireAll | greenflow/features/alert_engine.py:104-131 | never fires more than the candidates; the total grows by the number fired |
| Alerts.FireAllUnfold | greenflow/features/alert_engine.py:104-131 | evaluation processes the candidates in order, one `_maybe_fire` at a time |
| Alerts.FireAllStamps | greenflow/features/alert_engine.py:171-176 | every fired record carries the evaluation's city and time |
| Alerts.FireAllFresh | greenflow/features/alert_engine.py:167-168 | every fired key was out of cooldown before the evaluation |
| Alerts.FireAllKeysDistinct | greenflow/features/alert_engine.py:165-170 | one evaluation fires each (city, type) key at most once |
| Alerts.FireAllSetsCooldowns | greenflow/features/alert_engine.py:170 | every fired key's cooldown is set to now |
| Alerts.FireAllOncePerKey | greenflow/features/alert_engine.py:161-187 | the four facts above together |
| Alerts.FireAllKeepsCooldowns | greenflow/features/alert_engine.py:170 | no cooldown key is dropped, and every changed key is set to now |
| Alerts.FireAllFromCandidates | greenflow/features/alert_engine.py:118-129 | every fired record is the record of one of the candidates |
| Alerts.FiresAfterCooldown | greenflow/features/alert_engine.py:167-168 | a key last fired at `earlier` fires again exactly from `earlier + 300` |
| Alerts.AlertEngine.constructor | greenflow/features/alert_engine.py:86-90 | uses the given rules or the defaults, with no cooldowns, an empty history and zero fired |
| Alerts.AlertEngine.MaybeFire | greenflow/features/alert_engine.py:161-187 | the state change and result are those of `FireStep` |
| Alerts.AlertEngine.FireEach | greenflow/features/alert_engine.py:118-129 | the state change and results are those of `FireAll` |
| Alerts.AlertEngine.Evaluate | greenflow/features/alert_engine.py:94-131 | fires the threshold candidates, then the anomaly candidates, as `FireAll` does |
| Alerts.AlertEngine.GetRecent | greenflow/features/alert_engine.py:151-153 | Python's `history[:limit]` of the newest-first history: a prefix of length `limit` capped at the history's length, or `len + limit` (at least 0) for a negative limit |
| Simulation.DiminishingRange | greenflow/features/simulation_engine.py:63-72 | the effective fraction lies in [0, 1) and is positive for a positive lever |
| Simulation.DiminishingMonotone | greenflow/features/simulation_engine.py:63-72 | a larger lever never gives a smaller effect |
| Simulation.Diminishing | greenflow/features/simulation_engine.py:63-72 | no intervention has no effect, and under the laws of exp the effect stays below 1 |
| Simulation.ResolveBaselines | greenflow/features/simulation_engine.py:153-156 | each baseline is the explicit override if truthy, else the live value if truthy, else the class default, and never zero |
| Simulation.Lever | greenflow/features/simulation_engine.py:159-161 | percentages are clipped to [0, 100] and scaled to [0, 1] |
| Simulation.LeverMonotone | greenflow/features/simulation_engine.py:159-161 | a larger percentage never gives a smaller fraction |
| Simulation.LeverEffects | greenflow/features/simulation_engine.py:159-166 | a lever at zero or below has no effect; under the laws of exp every effect stays below 1 |
| Simulation.Co2Savings | greenflow/features/simulation_engine.py:173-180 | a lever with no effect saves nothing |
| Simulation.LeverEffectsRange | greenflow/features/simulation_engine.py:164-166 | every effective fraction lies in [0, 1) |
| Simulation.SavingsBounded | greenflow/features/simulation_engine.py:173-180 | the total CO₂ saved is between 0 and 90 % of the baseline (shares 0.27 + 0.33 and the 30 % ventilation cap) |
| Simulation.IdleLeverSavesNothing | greenflow/features/simulation_engine.py:164-178 | a lever at or below 0 % saves nothing from its source |
| Simulation.NewCo2 | greenflow/features/simulation_engine.py:181 | the new CO₂ never falls below the 300 ppm floor |
| Simulation.NewAqi | greenflow/features/simulation_engine.py:184-189 | the new AQI never falls below the floor of 10 |
| Simulation.Normalise | greenflow/features/simulation_engine.py:192-196 | normalised readings lie in [0, 1] |
| Simulation.NormaliseMonotone | greenflow/features/simulation_engine.py:192-196 | normalisation is monotone |
| Simulation.SimRiskScore | greenflow/features/simulation_engine.py:192-203 | the new risk lies in [0, 100] |
| Simulation.SimRiskMonotone | greenflow/features/simulation_engine.py:192-203 | lower CO₂ and AQI never raise the risk |
| Simulation.ClassifyAlert | greenflow/features/simulation_engine.py:239-247 | the level is at least MODERATE, HIGH, CRITICAL exactly when the risk reaches 30, 55, 75 |
| Simulation.ClassifyAlertMonotone | greenflow/features/simulation_engine.py:239-247 | a higher risk never gives a lower alert level |
| Simulation.HeadlineFor | greenflow/features/simulation_engine.py:261-268 | no intervention exactly when the reduction is not positive; significant from 15 %, meaningful from 5 % below 15 %; the headline carries the percentage |
| Simulation.BuildSummary | greenflow/features/simulation_engine.py:250-304 | the summary carries the headline, the breakdown and the alert sentence, the CO₂ figures, and the risk direction (improved exactly when the risk fell) with a non-negative number of points |
| Simulation.Breakdown | greenflow/features/simulation_engine.py:272-279 | the summary lists a source line exactly for each lever above 0 %, at most three |
| Simulation.Project | greenflow/features/simulation_engine.py:152-189 | the projection uses the resolved baselines, the lever effects and their savings, and respects both floors |
| Simulation.Report | greenflow/features/simulation_engine.py:205-235 | the result carries the projection's CO₂ and savings, the re-scored risk with its alert level and the risk reduction |
| Simulation.Simulate | greenflow/features/simulation_engine.py:136-235 | the new CO₂ respects the floor, the new risk lies in [0, 100] and the alert level is that of the new risk |
| Simulation.NoInterventionKeepsBaseline | greenflow/features/simulation_engine.py:136-235 | with no lever pulled nothing is saved and the CO₂ stays at the baseline (raised to the floor) |
| Simulation.NoLeverNoSaving | greenflow/features/simulation_engine.py:164-181 | with no lever pulled the savings are all zero |
| Simulation.NoSavingReport | greenflow/features/simulation_engine.py:261-266 | nothing saved gives zero reduction and the "no intervention" headline |
| Simulation.NoLeverNoBreakdown | greenflow/features/simulation_engine.py:272-279 | with no lever pulled the summary lists no source |
| Simulation.ProjectionBounds | greenflow/features/simulation_engine.py:173-189 | the new CO₂ is at most the baseline (or the floor), at least 10 % of it, and the reduction is at most 90 % |
| Simulation.LeverEffectsMonotone | greenflow/features/simulation_engine.py:159-166 | pulling every lever at least as far never weakens an effect |
| Simulation.SavingsMonotone | greenflow/features/simulation_engine.py:173-180 | stronger effects never save less CO₂ |
| Simulation.AqiMonotone | greenflow/features/simulation_engine.py:184-189 | stronger effects never give a higher AQI |
| Simulation.MoreInterventionNeverWorse | greenflow/features/simulation_engine.py:136-235 | more intervention never raises the new CO₂ or the new risk |
| Risk.ComputeRiskScore | greenflow/features/risk_engine.py:33-60 | the score lies in [0, 100] |
| Risk.RiskScoreMonotone | greenflow/features/risk_engine.py:33-60 | raising any input never lowers the score |
| Risk.CalmConditionsScoreZero | greenflow/features/risk_engine.py:33-60 | baseline CO₂ and temperature, no carbon and no traffic score 0 |
| Risk.ExtremeConditionsScoreHundred | greenflow/features/risk_engine.py:33-60 | every input at its maximum scores 100 |
| Risk.LevelOf | greenflow/features/risk_engine.py:66-77 | SAFE up to 30, MODERATE up to 60, HIGH up to 80, CRITICAL above, each boundary in the lower level |
| Risk.LevelMonotone | greenflow/features/risk_engine.py:66-77 | a higher score never gives a lower level |
| Risk.ClassifyRisk | greenflow/features/risk_engine.py:62-89 | keeps the score, takes the level's advice first and adds the heat note exactly above 40 °C and the CO₂ note exactly above 800 ppm, in that order |
| Risk.RiskHistory.constructor | greenflow/features/risk_engine.py:97 | starts empty |
| Risk.RiskHistory.Record | greenflow/features/risk_engine.py:99-103 | appends the assessment and drops the oldest beyond 100 entries |
| Risk.RiskHistory.GetLatest | greenflow/features/risk_engine.py:105-113 | the last recorded assessment, or the initialising placeholder when none was recorded |
| Rag.Piece | greenflow/rag/engine.py:48-49 | a chunk is the text from `start`, at most `max_chars` long |
| Rag.NumChunks | greenflow/rag/engine.py:46-51 | no windows exactly for empty text |
| Rag.Chunks | greenflow/rag/engine.py:38-52 | short text is one chunk; longer text has one chunk per step of `max_chars − overlap`; the result is empty exactly for empty text that does not fit (a negative `max_chars`) |
| Rag.Windows | greenflow/rag/engine.py:47-51 | the k-th chunk starts at k × step |
| Rag.ChunkText | greenflow/rag/engine.py:38-52 | the chunking loop returns exactly `Chunks` |
| Rag.ChunkCountBounds | greenflow/rag/engine.py:46-51 | the number of chunks is the least n with n × step ≥ length |
| Rag.CountUnique | greenflow/rag/engine.py:46-51 | that count is the only one with this property |
| Rag.ShortTextOneChunk | greenflow/rag/engine.py:43-44 | text of at most `max_chars` is a single chunk |
| Rag.LongTextChunkCount | greenflow/rag/engine.py:46-51 | longer text gives at least two chunks and just enough of them to reach the end |
| Rag.Coverage | greenflow/rag/engine.py:46-51 | every character of the text lies in some chunk |
| Rag.LastChunkReachesEnd | greenflow/rag/engine.py:46-51 | the last chunk runs to the end of the text |
| Rag.ConsecutiveOverlap | greenflow/rag/engine.py:46-51 | a full chunk's last `overlap` characters begin the next chunk |
| Rag.NeighbourChunks | greenflow/rag/engine.py:46-51 | consecutive chunks start one step apart inside the text |
| Rag.OverlapOfPieces | greenflow/rag/engine.py:48-50 | two pieces one step apart share `overlap` characters |
| Rag.DocId | greenflow/rag/engine.py:30-35 | the id is a prefix of the hex digest, at most 16 characters long, and exactly 16 when the digest is long enough |
| Rag.DocIdLength | greenflow/rag/engine.py:30-35 | with a 64-character SHA-256 hex digest the id has 16 characters |
| Rag.MentionsWrite | greenflow/rag/engine.py:207 | only a query of four characters or more can contain a write keyword |
| Rag.KeywordNeedsRoom | greenflow/rag/engine.py:207 | every write keyword is at least four letters long |
| Rag.LiveDbAction | greenflow/rag/engine.py:204-221 | the query is refused exactly when its upper-cased text contains DROP, DELETE, UPDATE, INSERT or ALTER; otherwise it is run unchanged |
| Rag.GuardIgnoresCase | greenflow/rag/engine.py:207 | lower-casing the query does not change whether it is refused |
| Rag.RefusedIffOccurs | greenflow/rag/engine.py:207 | refusal means a write keyword occurs at some position of the upper-cased query |
| Extractor.Tokens | greenflow/features/extractor.py:41 | every token is a run of at least three ASCII letters |
| Extractor.TokensAreLowerWords | greenflow/features/extractor.py:41 | every token is a lower-case ASCII word of at least three letters |
| Extractor.Occurrences | greenflow/features/extractor.py:43-45 | a word is counted at least once exactly when it is a token |
| Extractor.Vocabulary | greenflow/features/extractor.py:43-45 | the counted words are the distinct tokens that are not stop words |
| Extractor.FrequenciesCount | greenflow/features/extractor.py:42-45 | the frequency map has exactly the non-stop-word tokens as keys, each mapped to its number of occurrences |
| Extractor.VocabularyInFirstOccurrenceOrder | greenflow/features/extractor.py:43-45 | the map's keys come in the order of their first occurrence |
| Extractor.SortByCount | greenflow/features/extractor.py:47 | the ranking is a permutation of the keys |
| Extractor.SortNonIncreasing | greenflow/features/extractor.py:47 | the ranking is ordered by non-increasing count |
| Extractor.SortStable | greenflow/features/extractor.py:47 | words with equal counts keep their first-occurrence order (the sort is stable) |
| Extractor.CountTokens | greenflow/features/extractor.py:42-45 | the counting loop returns the frequency map and its key order |
| Extractor.ExtractKeywords | greenflow/features/extractor.py:32-47 | returns the top `top_n` words of the stable frequency ranking |
| Extractor.TopWords | greenflow/features/extractor.py:47 | the keywords are a prefix of the ranking, at most `top_n` of them |
| Extractor.Keywords | greenflow/features/extractor.py:32-47 | the keywords of a text are a prefix of the ranking of its tokens, at most `top_n` of them |
| Extractor.RankingIsVocabulary | greenflow/features/extractor.py:47 | the ranking holds each counted word exactly once |
| Extractor.TopWordsAreVocabulary | greenflow/features/extractor.py:47 | at most `top_n` keywords, distinct, each a non-stop-word token |
| Extractor.KeywordsAreWords | greenflow/features/extractor.py:32-47 | every keyword is a lower-case word of the text of three or more letters and not a stop word |
| Extractor.TopWordsMostFrequentFirst | greenflow/features/extractor.py:47 | keywords come in non-increasing order of frequency |
| Extractor.OmittedNotMoreFrequent | greenflow/features/extractor.py:47 | no word left out is more frequent than a word kept |
| Extractor.TopWordsTiesInFirstOccurrenceOrder | greenflow/features/extractor.py:47 | among keywords of equal frequency the order is that of first occurrence |
| Extractor.TopWordsComplete | greenflow/features/extractor.py:47 | when `top_n` covers the vocabulary, every non-stop-word token is a keyword |
| Extractor.FirstFailure | greenflow/features/extractor.py:68 | no failure exactly when every present key holds a number; otherwise the exception of the first present key, in key order, that does not |
| Extractor.ExtractNumericFeatures | greenflow/features/extractor.py:54-68 | succeeds exactly when every known key present holds a number, else raises ValueError or TypeError; the result maps all seven known keys, to the value or to None when absent |
| Extractor.CarbonHeuristic | greenflow/features/extractor.py:71-90 | the score lies in [0, 100] |
| Extractor.CalculateCarbonScore | greenflow/features/extractor.py:71-90 | the step-by-step score equals the heuristic of the CO₂ and energy readings |
| Extractor.NoReadingsScoreFifty | greenflow/features/extractor.py:76-86 | with no truthy CO₂ or energy reading the score is the baseline 50 |
| Extractor.LowCo2LowersScore | greenflow/features/extractor.py:79-81 | a CO₂ reading below 400 ppm (without energy) scores under 50 |
| Extractor.CapsReachHundred | greenflow/features/extractor.py:79-89 | CO₂ ≥ 1000 ppm and energy ≥ 4 kWh reach both caps and score 100 |
| Extractor.CarbonMonotone | greenflow/features/extractor.py:71-90 | higher non-zero readings never lower the score |
| Extractor.EmptyPayloadScoresFifty | greenflow/features/extractor.py:54-90 | a payload without any known key converts and scores 50 |
| FeatureService.KeywordHits | greenflow/services/feature_service.py:59-62 | at most twelve hits, and none exactly when no keyword occurs in the lower-cased text |
| FeatureService.RelevanceScore | greenflow/services/feature_service.py:65 | the score lies in [0, 1], is 0 exactly without hits and saturates exactly from four hits |
| FeatureService.Confidence | greenflow/services/feature_service.py:78 | the confidence lies in [0.5, 0.99], is 0.5 without hits and saturates exactly from ten hits |
| FeatureService.ClassifySource | greenflow/services/feature_service.py:82-91 | kafka, then webhook/api, then simul/worker, else sensor, each matched in the lower-cased identifier |
| FeatureService.SourceOrUnknown | greenflow/services/feature_service.py:71 | a missing or empty source becomes "unknown" |
| FeatureService.Extract | greenflow/services/feature_service.py:48-79 | the hits are the keyword count, the score is `RelevanceScore` of the hits (in [0, 1]) and the confidence `Confidence` of the hits (in [0.5, 0.99]); the anomaly flag is set exactly when the score exceeds 0.8, which is exactly from three hits; the source type is the classified `source or "unknown"` |
| FeatureService.UnrelatedTextScoresZero | greenflow/services/feature_service.py:59-79 | text without keywords scores 0, is not flagged and has confidence 0.5 |
| FeatureService.MoreHitsNeverLower | greenflow/services/feature_service.py:65-78 | more hits never lower the score or the confidence |
| FeatureService.ExtractIgnoresCase | greenflow/services/feature_service.py:59 | the features do not depend on the case of the text |
| FeatureService.ClassifySourceIgnoresCase | greenflow/services/feature_service.py:84 | the source type does not depend on the case of the identifier |
| FeatureService.MissingSourceIsSensor | greenflow/services/feature_service.py:71-91 | a missing source is classified as a sensor |
| FeatureService.EmissionTextIsFlagged | greenflow/services/feature_service.py:62-68 | text mentioning co2, carbon and emission is flagged |
| Streaming.ClassifyStreamSource | greenflow/pipeline/streaming.py:52-61 | sensor, then api, then upload/file, else webhook, matched in the lower-cased identifier |
| Streaming.CarbonRelevance | greenflow/pipeline/streaming.py:65-77 | the score lies in [0, 1] and is the number of keywords found over ten |
| Streaming.ScoreZeroIffNoKeyword | greenflow/pipeline/streaming.py:75-77 | the score is zero exactly when no keyword occurs |
| Streaming.CarbonRelevanceIgnoresCase | greenflow/pipeline/streaming.py:75 | the score does not depend on the case of the text |
| Streaming.ClassifyStreamSourceIgnoresCase | greenflow/pipeline/streaming.py:54 | the classification does not depend on the case of the identifier |
| Analytics.RiskScore | greenflow/analytics_pipeline.py:74-82 | the score lies in [0, 100] |
| Analytics.RiskScoreMonotone | greenflow/analytics_pipeline.py:74-82 | raising any reading never lowers the score |
| Analytics.RiskScoreUnclipped | greenflow/analytics_pipeline.py:74-82 | below the clip the score is AQI × 0.6 + traffic × 0.03 + humidity × 0.1 |
| Analytics.CleanAirScoresZero | greenflow/analytics_pipeline.py:74-82 | no AQI, traffic or humidity scores 0 |
| Analytics.SevereAqiSaturates | greenflow/analytics_pipeline.py:74-82 | an AQI of 500/3 or more saturates the score at 100 |
| Analytics.CategorizeSafety | greenflow/analytics_pipeline.py:85-89 | CRITICAL above 80, WARNING above 60, MODERATE above 40, SAFE otherwise, each band exactly |
| Analytics.SafetyMonotone | greenflow/analytics_pipeline.py:85-89 | a higher score never gives a lower band |
| Analytics.BoundariesBelongBelow | greenflow/analytics_pipeline.py:85-89 | 80, 60 and 40 belong to the lower band |
| Analytics.Congestion | greenflow/analytics_pipeline.py:92-95 | congestion lies in [0, 100], is 100 at standstill, 0 from 80 km/h, and 100 − 1.25 × speed between |
| Analytics.CongestionNonIncreasing | greenflow/analytics_pipeline.py:92-95 | faster traffic is never more congested |
| Analytics.CongestionStrictlyDecreasing | greenflow/analytics_pipeline.py:92-95 | between 0 and 80 km/h faster traffic is strictly less congested |
| Analytics.Alerts | greenflow/analytics_pipeline.py:154-157 | the alerts are exactly the rows scoring above 80, each CRITICAL |
| Analytics.AlertIffCritical | greenflow/analytics_pipeline.py:154-157 | a row raises an alert exactly when its safety level is CRITICAL |
| Analytics.AlertsOfConcat | greenflow/analytics_pipeline.py:154-157 | the filter distributes over concatenated streams |
| Analytics.TrafficImpact | greenflow/analytics_pipeline.py:160-165 | full impact exactly below 30 km/h, none otherwise |
| Analytics.RowAssessment | greenflow/analytics_pipeline.py:160-166 | the assessed score is the risk engine's `ComputeRiskScore` with the traffic impact of the speed, in [0, 100]; the assessment is `ClassifyRisk` of that score, so its level is the risk engine's level of it |
| Analytics.GetRiskAssessment | greenflow/analytics_pipeline.py:160-168 | returns the row's assessment and records it, so the history's latest assessment is this one |
| Analytics.SlowTrafficRaisesRisk | greenflow/analytics_pipeline.py:160-168 | slow traffic never lowers the assessed score or level |
| Worker.IsSpike | greenflow/simulated_background_worker.py:67 | a spike happens exactly at positive multiples of ten |
| Worker.PredictedCo2 | greenflow/simulated_background_worker.py:95 | +5 ppm when increasing, −5 when decreasing, +0.5 when stable |
| Worker.ForecastOrderedByTrend | greenflow/simulated_background_worker.py:95 | decreasing < current < stable < increasing, all within 5 ppm |
| Worker.AlertFor | greenflow/simulated_background_worker.py:111-119 | an alert exactly for WARNING or CRITICAL, unresolved, with that severity, HIGH_POLLUTION exactly when AQI exceeds 150 |
| Worker.Simulate | greenflow/simulated_background_worker.py:74-119 | the score is the pipeline's `RiskScore` of the drawn AQI, vehicle count and humidity, in [0, 100]; the safety level is its band; an alert (`AlertFor`) is raised exactly above 60, unresolved, with the safety level as severity and typed HIGH_POLLUTION exactly when the AQI exceeds 150 |
| Worker.SpikeAlwaysCritical | greenflow/simulated_background_worker.py:66-119 | every spike draw scores 100, is CRITICAL and alerts, as HIGH_POLLUTION unless the AQI is exactly 150 |
| Worker.OrdinaryDrawRange | greenflow/simulated_background_worker.py:68-119 | an ordinary draw scores between 34 and 97.5, and any alert it raises is GENERAL_RISK |
| Prediction.LinearForecast | greenflow/features/prediction_engine.py:25-42 | fewer than two timestamps forecast the last value (0 for none); otherwise the fitted line's value |
| Prediction.SingleReadingForecastsItself | greenflow/features/prediction_engine.py:30-31 | a single reading forecasts itself |
| Prediction.TrendOfChange | greenflow/features/prediction_engine.py:56-60 | increasing exactly above +2 % of the denominator, decreasing exactly below −2 %, stable for no change |
| Prediction.ComputeTrend | greenflow/features/prediction_engine.py:45-60 | fewer than five timestamps are stable; otherwise the change of the second half's mean against the first's |
| Prediction.ConstantWindowIsStable | greenflow/features/prediction_engine.py:45-60 | a window that never changes is stable |
| Prediction.TrendMeansTwoPercent | greenflow/features/prediction_engine.py:52-60 | with a positive first mean, increasing means the second half averages more than 2 % higher, decreasing more than 2 % lower |
| Prediction.MeanOfConstant | greenflow/features/prediction_engine.py:53-54 | the mean of identical readings is that reading |
| Prediction.PopulationVariance | greenflow/features/prediction_engine.py:71 | the population variance is never negative |
| Prediction.ConfidenceOf | greenflow/features/prediction_engine.py:75-76 | the confidence lies in [0.1, 1]; no spread gives 1, a spread of 90 % of the mean or more gives 0.1 |
| Prediction.MoreSpreadLessConfidence | greenflow/features/prediction_engine.py:75-76 | more spread around the same positive mean never raises the confidence |
| Prediction.ComputeConfidence | greenflow/features/prediction_engine.py:63-77 | fewer than three values give 0.5; otherwise the result is `ConfidenceOf` the population standard deviation and the mean; the confidence always lies in [0.1, 1] |
| Prediction.SteadyWindowFullConfidence | greenflow/features/prediction_engine.py:63-77 | three or more identical non-negative readings give full confidence |
| Recommendation.ActionLevelOf | greenflow/features/recommendation_engine.py:22-49 | emergency exactly for CRITICAL, warning exactly for HIGH, advisory otherwise |
| Recommendation.SelectActions | greenflow/features/recommendation_engine.py:54-70 | each action is selected exactly when its rule's condition holds; at most four, never the maintain sentence |
| Recommendation.SelectedInRuleOrder | greenflow/features/recommendation_engine.py:54-70 | selected actions come in the order the rules are written |
| Recommendation.Generate | greenflow/features/recommendation_engine.py:33-79 | missing keys take their defaults; the level follows the risk; an empty selection becomes the single maintain sentence |
| Recommendation.EmptyContextMaintains | greenflow/features/recommendation_engine.py:44-79 | an empty context gives an advisory to maintain the protocols |
| Recommendation.MaintainIffNothingFires | greenflow/features/recommendation_engine.py:55-77 | "maintain" is recommended exactly when no rule fires, and then alone |
| Recommendation.CriticalFullResponse | greenflow/features/recommendation_engine.py:55-77 | CRITICAL gives an emergency level, diversion first, the policy suggestion and the emergency alert last |
| Recommendation.NoRepeatedActions | greenflow/features/recommendation_engine.py:54-77 | no action is recommended twice, and at most four are |
| Config.StripNonEmpty | greenflow/config.py:108 | at most one result per piece, each non-empty and without surrounding whitespace |
| Config.StripEach | greenflow/config.py:108 | the i-th result is the i-th piece stripped |
| Config.NonEmptyFrom | greenflow/config.py:108 | the increasing positions of exactly the non-empty stripped pieces |
| Config.StripNonEmptyExact | greenflow/config.py:108 | the result is exactly the stripped pieces that are not empty, in their original order, and every piece that strips to something is kept |
| Config.CorsOrigins | greenflow/config.py:105-108 | every origin is stripped, non-empty and free of commas |
| Config.CorsOriginsExact | greenflow/config.py:105-108 | the origins are exactly the comma-separated pieces of the setting, stripped, with the empty ones dropped, in order |
| Config.StripNonEmptyOfClean | greenflow/config.py:108 | pieces that are already clean are kept unchanged |
| Config.CorsOriginsRoundTrip | greenflow/config.py:105-108 | joining clean origins with commas and parsing them gives them back |
| Config.DefaultOrigins | greenflow/config.py:95-108 | the default setting parses into the four development origins |
| Config.IsProduction | greenflow/config.py:110-112 | production exactly when the lower-cased environment is "production" |
| Config.ValidateLogLevel | greenflow/config.py:114-120 | accepted exactly when the upper-cased level is one of the five, and then normalised to upper case |
| Config.ValidateAppEnv | greenflow/config.py:122-128 | accepted exactly when the lower-cased environment is one of the three, and then normalised to lower case |
| Config.LogLevelNormalised | greenflow/config.py:114-120 | validation is idempotent and ignores case |
| Config.AppEnvNormalised | greenflow/config.py:122-128 | validation is idempotent and ignores case |
| Config.ProductionIsValidEnv | greenflow/config.py:110-128 | the production check agrees with validating to "production" |
| Config.DefaultsValid | greenflow/config.py:31-89 | the default environment development and the default log level INFO both validate, and the default environment is not production |
| Health.CheckDisk | greenflow/api/routes/health.py:84-93 | ok exactly below 85 % use, degraded otherwise, never failed |
| Health.CheckMemory | greenflow/api/routes/health.py:96-105 | ok exactly below 1500 MiB resident, degraded otherwise, never failed |
| Health.CheckDb | greenflow/api/routes/health.py:64-81 | ok exactly when the ping succeeds, failed otherwise |
| Health.CheckAnomalyEngine | greenflow/api/routes/health.py:108-121 | ok exactly when the detector answers, failed otherwise |
| Health.WithStatus | greenflow/api/routes/health.py:179-180 | the components with that status, and only those |
| Health.OverallOf | greenflow/api/routes/health.py:179-182 | critical exactly when a component failed, healthy exactly when all are ok, degraded otherwise |
| Health.Ready | greenflow/api/routes/health.py:152 | ready exactly when the database is ok and the disk has not failed |
| Health.ReadyCode | greenflow/api/routes/health.py:153 | 200 exactly when ready, else 503 |
| Health.ReadyIffDatabaseAnswers | greenflow/api/routes/health.py:64-153 | since the disk never fails, readiness is exactly the database answering |
| Health.DeepComponents | greenflow/api/routes/health.py:172-177 | the deep check reports four components |
| Health.DeepOverall | greenflow/api/routes/health.py:167-182 | critical exactly when the database or the detector fails; healthy exactly when every check is ok |
| Health.NotCriticalMeansReady | greenflow/api/routes/health.py:152-182 | a non-critical deep status implies readiness |
| Metrics.MapSumRemove | greenflow/api/routes/metrics.py:45 | the per-route total splits into one route's count plus the others' |
| Metrics.MapSumIncrement | greenflow/api/routes/metrics.py:45 | counting one request on a route raises the per-route total by one |
| Metrics.CountBelowSum | greenflow/api/routes/metrics.py:45 | no route counts more than all routes together |
| Metrics.RequestStats.constructor | greenflow/api/routes/metrics.py:36-41 | starts with zero requests, zero errors and no routes |
| Metrics.RequestStats.IncrementRequests | greenflow/api/routes/metrics.py:43-47 | one more request in total and on its route, one more error when it failed; errors never exceed the total and the routes sum to the total |
| Metrics.RequestStats.RouteCount | greenflow/api/routes/metrics.py:45 | a seen route's count is its `per_route` entry, an unseen route counts 0, and no count exceeds the total |
| Metrics.RequestsPerMinute | greenflow/api/routes/metrics.py:168-173 | zero uptime gives the total itself; otherwise rate × minutes up is the total |
| Common.Lower | greenflow/services/feature_service.py:59 | ASCII lower-casing keeps the length and maps each character |
| Common.LowerOfUpper | greenflow/config.py:112 | lower-casing after upper-casing is lower-casing |
| Common.JoinSplit | greenflow/config.py:108 | joining the pieces of a split gives back the string |
| Common.SplitAt | greenflow/config.py:108 | splitting at the first separator gives its left piece and the split of the rest |
| Common.Strip | greenflow/config.py:108 | the stripped string neither starts nor ends with whitespace |
| Common.StripFramed | greenflow/config.py:108 | the stripped string is a slice of the original with only whitespace before and after it, so nothing else is removed |
| Common.StripUnpadded | greenflow/config.py:108 | stripping a string without surrounding whitespace leaves it unchanged |
| Common.PyPrefix | greenflow/features/alert_engine.py:153 | Python's `s[:n]` for any `n`, negative included |
| Common.PushBounded | greenflow/features/anomaly_detector.py:123-125 | appending to a bounded deque keeps its last `cap` elements |
| Common.PrependBounded | greenflow/features/alert_engine.py:177 | pushing on the left of a bounded deque keeps its first `cap` elements |
| Common.AppendTrimNewestLast | greenflow/features/risk_engine.py:101-103 | appending and dropping the oldest beyond the cap keeps the newest entries of the whole log |
| Common.PrependNewestFirst | greenflow/features/alert_engine.py:177 | pushing on the left of the bounded history keeps the newest entries of the whole log, newest first |

## Left out

- Rounding and number formatting (`round`, `f"{x:.2f}"`) are not modelled: results are the unrounded values. In particular `Simulation.Simulate` classifies the unrounded new risk, while the source rounds it to two decimals first, so a risk just below a band edge (29.996, say) can fall in the next band in the source but not in the model.
- Anomaly.AnomalyDetector.GetRecent and Alerts.AlertEngine.GetRecent: the Python default `limit=50` is not modelled; every caller passes the limit explicitly.
- Messages and summaries built with f-strings are structured values (datatypes and sentence constructors), not rendered text.
- Logging, database persistence (`_persist`, the worker's session writes), the SSE stream and the HTTP framing are not modelled.
- The least-squares fit of `linear_regression_predict` is the parameter `fitted`; only its fallback for short windows is modelled.
- The square root, the exponential and the SHA-256 digest are parameters, constrained only by the laws the proofs use.
- Wall-clock time is the parameter `now`; the worker's random draws are parameters, and its loop and sleep are left out.
- The health probes' I/O (database ping, disk usage, process memory, detector call) are inputs; the metrics report's process, disk and database counts are left out.
- Case mapping is ASCII-only, and whitespace for `strip` is a fixed set of ASCII and common Unicode spaces.
- `float()` conversion of a payload value is modelled as a number, a string it cannot parse (`ValueError`) or a value of another type such as `None` (`TypeError`); which strings parse as numbers is not modelled.
- Anomaly.AnomalyDetector.Ingest: the whole batch shares one `now`, whereas the source reads `time.time()` again in each `_check`; the batch is treated as instantaneous.
- Alerts.AlertEngine.Evaluate: the whole batch shares one `now`, whereas the source reads `time.time()` again in each `_maybe_fire`; the batch is treated as instantaneous.
- Analytics.GetRiskAssessment: returns the assessment itself rather than its `json.dumps` string.
- The `clean_text` URL/e-mail regular expressions and `build_features` are not modelled; `decode_payload` (JSON parsing) is not modelled.
- The RAG engine's embedding store, retrieval, agent loop and language-model calls, and the recommendation engine's language-model explanation (a parameter), are not modelled.
- The Pathway windowing, `asof_join` and the pipeline wiring of `build_pipeline` are not modelled; only the per-row functions are.
- Rag.Chunks: requires the text to fit in `max_chars`, or `max_chars > overlap`, or the text to be empty. Only non-empty text longer than `max_chars` with `max_chars <= overlap` is excluded; there the source never advances and loops forever. The one call site uses 1500 and 200, which meet the requirement.
- FeatureService.RelevanceScore: the divisor `max(12 × 0.3, 1)` is written as the literal 3.6.
- Anomaly.CheckStep: the event stores the squared z-score and the variance rather than their square roots.
- Anomaly.EventNamesItsMethod: proved only for a z threshold of at least 2.8; with a lower configured threshold an event flagged by the z-test alone may name no method.
- Prediction.ComputeTrend: a zero denominator follows IEEE arithmetic (infinity of the numerator's sign, NaN for zero), and fewer than two values count as stable, matching the NaN comparison.
- Metrics.RequestsPerMinute: the rate is stated by its product with the minutes of uptime rather than as a rounded quotient.

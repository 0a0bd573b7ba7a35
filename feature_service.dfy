/**
 * The feature service: a keyword-relevance score for event text, an anomaly
 * flag and a confidence derived from it, and the classification of the
 * event's source identifier.
 *
 * The score's divisor is max(12 × 0.3, 1) = 3.6, written as a literal; the
 * four-decimal rounding of the score is not modelled.
 */
module FeatureService {
  import opened Common

  /** The environmental keywords, matched as substrings of the lower-cased text. */
  const KEYWORDS: seq<string> := [
    "co2", "carbon", "emission", "aqi", "pollution", "pm2.5",
    "greenhouse", "methane", "ozone", "nox", "voc", "smog"
  ]

  datatype SourceType = Kafka | Webhook | Simulated | Sensor

  function SourceName(t: SourceType): string
  {
    match t
    case Kafka => "kafka"
    case Webhook => "webhook"
    case Simulated => "simulated"
    case Sensor => "sensor"
  }

  datatype FeatureResult = FeatureResult(
    carbonScore: real,
    sourceType: SourceType,
    keywordHits: nat,
    anomalyFlag: bool,
    confidence: real)

  /** The number of keywords occurring in the lower-cased text. */
  function KeywordHits(text: string): (n: nat)
    ensures n <= |KEYWORDS|
    ensures n == 0 <==> forall i :: 0 <= i < |KEYWORDS| ==> !Contains(Lower(text), KEYWORDS[i])
  {
    CountContained(KEYWORDS, Lower(text))
  }

  /** hits / 3.6, capped at 1: four or more keywords saturate the score. */
  function RelevanceScore(hits: nat): (r: real)
    ensures 0.0 <= r <= 1.0
    ensures r == 0.0 <==> hits == 0
    ensures r == 1.0 <==> hits >= 4
  {
    Min(hits as real / 3.6, 1.0)
  }

  /** 0.5 plus 0.05 per keyword, capped at 0.99. */
  function Confidence(hits: nat): (r: real)
    ensures 0.5 <= r <= 0.99
    ensures hits == 0 ==> r == 0.5
    ensures r == 0.99 <==> hits >= 10
  {
    Min(0.5 + hits as real * 0.05, 0.99)
  }

  /** `_classify_source`: the first matching rule, on the lower-cased identifier, wins. */
  function ClassifySource(source: string): (r: SourceType)
    ensures var s := Lower(source);
            && (r == Kafka <==> Contains(s, "kafka"))
            && (r == Webhook <==> !Contains(s, "kafka") && (Contains(s, "webhook") || Contains(s, "api")))
            && (r == Simulated <==> !Contains(s, "kafka") && !Contains(s, "webhook") && !Contains(s, "api")
                                    && (Contains(s, "simul") || Contains(s, "worker")))
  {
    var s := Lower(source);
    if Contains(s, "kafka") then Kafka
    else if Contains(s, "webhook") || Contains(s, "api") then Webhook
    else if Contains(s, "simul") || Contains(s, "worker") then Simulated
    else Sensor
  }

  /** `source or "unknown"`: a missing or empty identifier becomes "unknown". */
  function SourceOrUnknown(source: Option<string>): (r: string)
    ensures source.Some? && source.value != "" ==> r == source.value
    ensures source.None? || source.value == "" ==> r == "unknown"
  {
    if source.Some? && source.value != "" then source.value else "unknown"
  }

  /** `FeatureService.extract`. */
  function Extract(text: string, source: Option<string>): (r: FeatureResult)
    ensures r.keywordHits == KeywordHits(text) && r.keywordHits <= 12
    ensures r.carbonScore == RelevanceScore(r.keywordHits) && r.confidence == Confidence(r.keywordHits)
    ensures 0.0 <= r.carbonScore <= 1.0
    ensures r.anomalyFlag <==> r.carbonScore > 0.8
    ensures r.anomalyFlag <==> r.keywordHits >= 3
    ensures 0.5 <= r.confidence <= 0.99
    ensures r.sourceType == ClassifySource(SourceOrUnknown(source))
  {
    var hits := KeywordHits(text);
    var score := RelevanceScore(hits);
    FeatureResult(score, ClassifySource(SourceOrUnknown(source)), hits, score > 0.8, Confidence(hits))
  }

  /** Text without any keyword scores zero, is not flagged and has the base confidence. */
  lemma UnrelatedTextScoresZero(text: string, source: Option<string>)
    requires forall i :: 0 <= i < |KEYWORDS| ==> !Contains(Lower(text), KEYWORDS[i])
    ensures var r := Extract(text, source);
            r.keywordHits == 0 && r.carbonScore == 0.0 && !r.anomalyFlag && r.confidence == 0.5
  {
  }

  /** More keyword hits never lower the score or the confidence. */
  lemma MoreHitsNeverLower(a: nat, b: nat)
    requires a <= b
    ensures RelevanceScore(a) <= RelevanceScore(b) && Confidence(a) <= Confidence(b)
  {
  }

  /** The features do not depend on the case of the text. */
  lemma ExtractIgnoresCase(text: string, source: Option<string>)
    ensures Extract(Upper(text), source) == Extract(text, source)
    ensures Extract(Lower(text), source) == Extract(text, source)
  {
    LowerOfUpper(text);
    LowerIdempotent(text);
  }

  /** The source classification does not depend on the case of the identifier. */
  lemma ClassifySourceIgnoresCase(source: string)
    ensures ClassifySource(Upper(source)) == ClassifySource(source)
  {
    LowerOfUpper(source);
  }

  /** A missing source is classified as a sensor, since "unknown" matches no rule. */
  lemma MissingSourceIsSensor()
    ensures ClassifySource(SourceOrUnknown(None)) == Sensor
  {
    LowerOfLowercase("unknown");
    UnknownIsNotKafkaOrWebhook();
    UnknownIsNotSimulated();
  }

  lemma UnknownIsNotKafkaOrWebhook()
    ensures !Contains("unknown", "kafka") && !Contains("unknown", "webhook") && !Contains("unknown", "api")
  {
    NoLeadingPair("unknown", "kafka");
    NoLeadingPair("unknown", "webhook");
    NoLeadingPair("unknown", "api");
  }

  lemma UnknownIsNotSimulated()
    ensures !Contains("unknown", "simul") && !Contains("unknown", "worker")
  {
    NoLeadingPair("unknown", "simul");
    NoLeadingPair("unknown", "worker");
  }

  /** `a` immediately followed by `b` somewhere in `s`. */
  predicate HasPair(s: string, a: char, b: char)
    decreases |s|
  {
    |s| >= 2 && ((s[0] == a && s[1] == b) || HasPair(s[1..], a, b))
  }

  /** A word whose first two letters never appear side by side in the text is not contained in it. */
  lemma {:induction false} NoLeadingPair(s: string, w: string)
    requires |w| >= 2 && !HasPair(s, w[0], w[1])
    ensures !Contains(s, w)
    decreases |s|
  {
    if |s| > 0 {
      if |s| >= 2 {
        NoLeadingPair(s[1..], w);
      } else {
        assert !Contains(s[1..], w);
      }
      assert !StartsWith(s, w) by {
        if |w| <= |s| {
          assert s[..|w|][0] == s[0] && s[..|w|][1] == s[1];
        }
      }
    }
  }

  /** Text naming CO₂, carbon and emissions hits at least three keywords and is flagged. */
  lemma EmissionTextIsFlagged(text: string, source: Option<string>)
    requires Contains(Lower(text), "co2") && Contains(Lower(text), "carbon") && Contains(Lower(text), "emission")
    ensures var r := Extract(text, source);
            r.keywordHits >= 3 && r.carbonScore > 0.3 && r.anomalyFlag
  {
    var s := Lower(text);
    var k1 := KEYWORDS[1..];
    var k2 := k1[1..];
    assert KEYWORDS[0] == "co2" && k1[0] == "carbon" && k2[0] == "emission";
    assert CountContained(k2, s) >= 1;
    assert CountContained(k1, s) >= 2;
  }
}

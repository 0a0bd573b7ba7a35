/**
 * The per-row functions of the streaming pipeline: the classification of an
 * event's source and the placeholder carbon-relevance score, the share of
 * ten sustainability keywords found in the lower-cased text.
 */
module Streaming {
  import opened Common

  const CARBON_KEYWORDS: seq<string> := [
    "carbon", "emission", "co2", "renewable", "solar",
    "wind", "methane", "greenhouse", "deforestation", "biodiversity"
  ]

  datatype StreamSource = IoTSensor | ExternalApi | FileUpload | WebhookSource

  function StreamSourceName(t: StreamSource): string
  {
    match t
    case IoTSensor => "IoT_Sensor"
    case ExternalApi => "External_API"
    case FileUpload => "File_Upload"
    case WebhookSource => "Webhook"
  }

  /** `classify_source`: the first matching rule, on the lower-cased identifier, wins; anything else is a webhook. */
  function ClassifyStreamSource(source: string): (r: StreamSource)
    ensures var s := Lower(source);
            && (r == IoTSensor <==> Contains(s, "sensor"))
            && (r == ExternalApi <==> !Contains(s, "sensor") && Contains(s, "api"))
            && (r == FileUpload <==> !Contains(s, "sensor") && !Contains(s, "api")
                                     && (Contains(s, "upload") || Contains(s, "file")))
  {
    var s := Lower(source);
    if Contains(s, "sensor") then IoTSensor
    else if Contains(s, "api") then ExternalApi
    else if Contains(s, "upload") || Contains(s, "file") then FileUpload
    else WebhookSource
  }

  /** `compute_carbon_score`: keyword hits over max(10, 1), capped at 1. */
  function CarbonRelevance(text: string): (r: real)
    ensures 0.0 <= r <= 1.0
    ensures r == CountContained(CARBON_KEYWORDS, Lower(text)) as real / 10.0
  {
    Min(CountContained(CARBON_KEYWORDS, Lower(text)) as real / 10.0, 1.0)
  }

  /** The score is zero exactly when no keyword occurs. */
  lemma ScoreZeroIffNoKeyword(text: string)
    ensures CarbonRelevance(text) == 0.0 <==> forall i :: 0 <= i < |CARBON_KEYWORDS| ==> !Contains(Lower(text), CARBON_KEYWORDS[i])
  {
  }

  /** Changing the case of the text never changes the score. */
  lemma CarbonRelevanceIgnoresCase(text: string)
    ensures CarbonRelevance(Upper(text)) == CarbonRelevance(text)
    ensures CarbonRelevance(Lower(text)) == CarbonRelevance(text)
  {
    LowerOfUpper(text);
    LowerIdempotent(text);
  }

  /** The source classification does not depend on the case of the identifier. */
  lemma ClassifyStreamSourceIgnoresCase(source: string)
    ensures ClassifyStreamSource(Upper(source)) == ClassifyStreamSource(source)
  {
    LowerOfUpper(source);
  }
}

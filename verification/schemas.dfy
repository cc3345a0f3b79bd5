/**
 * The request and response records of the service.  Every numeric field bound that the
 * record declares is carried by a subset type, so a value of the record type always
 * respects its bounds; the `Validate*` functions model record construction from raw
 * numbers, which fails with a validation error when a bound or a required field is missing.
 */
module Schemas {
  import opened Wrappers

  /** A real in [0, 1]. */
  type Unit = r: real | 0.0 <= r <= 1.0
  /** A real in [-1, 1]. */
  type Signed = r: real | -1.0 <= r <= 1.0
  type NonNegative = r: real | 0.0 <= r
  type Positive = r: real | 0.0 < r witness 1.0

  ghost predicate InUnit(r: real) { 0.0 <= r <= 1.0 }

  datatype FacialMetrics = FacialMetrics(engagement: Unit, positivity: Unit, microexpressions: Option<seq<string>>)

  datatype VoiceMetrics = VoiceMetrics(
    loudness: Unit,
    pitchVariance: Unit,
    speechRateWpm: Positive,
    fillerRatio: Unit,
    energy: Unit)

  /** Both times are non-negative; nothing relates `endTime` to `startTime`. */
  datatype TranscriptSegment = TranscriptSegment(text: string, startTime: NonNegative, endTime: NonNegative, confidence: Unit)

  datatype BrowserSignalPayload = BrowserSignalPayload(
    sessionId: Option<string>,
    facial: FacialMetrics,
    voice: VoiceMetrics,
    transcript: seq<TranscriptSegment>,
    sentimentScore: Option<Signed>,
    speechConfidence: Option<Unit>,
    latencyMs: Option<NonNegative>)

  datatype CoachingScore = CoachingScore(confidence: Unit, anxiety: Unit)

  datatype CoachingResponse = CoachingResponse(
    sessionId: string,
    state: string,
    scores: CoachingScore,
    subtitle: string,
    tip: string,
    ttsText: string,
    transcriptHighlights: seq<string>,
    latencyMs: Option<real>)

  datatype SessionCreateResponse = SessionCreateResponse(sessionId: string, state: string, tip: string, subtitle: string, ttsText: string)

  datatype FacialAnalysis = FacialAnalysis(
    engagement: Unit,
    positivity: Unit,
    anxietyHint: Unit,
    confidence: Unit,
    emotions: map<string, real>)

  datatype TranscriptAnalysis = TranscriptAnalysis(
    fullText: string,
    fillerRatio: Unit,
    fillerHits: int,
    mumbleScore: Unit,
    segments: seq<TranscriptSegment>)

  datatype CoachingAdvice = CoachingAdvice(tip: string, confidenceScore: Unit, anxietyScore: Unit, recommendations: seq<string>)

  datatype AnalysisResponse = AnalysisResponse(
    fileKey: string,
    status: string,
    facialAnalysis: Option<FacialAnalysis>,
    transcriptAnalysis: Option<TranscriptAnalysis>,
    coachingAdvice: Option<CoachingAdvice>)

  /** A record could not be built; `field` names the first offending field. */
  datatype ValidationError = ValidationError(field: string)

  /** Building a `CoachingScore` from two raw numbers. */
  function ValidateCoachingScore(confidence: real, anxiety: real): (r: Result<CoachingScore, ValidationError>)
    ensures r.Ok? <==> InUnit(confidence) && InUnit(anxiety)
    ensures r.Ok? ==> r.value.confidence == confidence && r.value.anxiety == anxiety
  {
    if !(0.0 <= confidence <= 1.0) then Err(ValidationError("confidence"))
    else if !(0.0 <= anxiety <= 1.0) then Err(ValidationError("anxiety"))
    else Ok(CoachingScore(confidence, anxiety))
  }

  /**
   * Building a `FacialAnalysis`.  `confidence` is a required field without a default:
   * leaving it out (`None`) is a validation error whatever the other fields hold.
   * `emotions` has a default (the empty map), so it is always supplied here.
   */
  function ValidateFacialAnalysis(engagement: real, positivity: real, anxietyHint: real,
                                  confidence: Option<real>, emotions: map<string, real>)
    : (r: Result<FacialAnalysis, ValidationError>)
    ensures r.Ok? <==> confidence.Some? && InUnit(engagement) && InUnit(positivity)
                       && InUnit(anxietyHint) && InUnit(confidence.value)
    ensures confidence.None? ==> r == Err(ValidationError("confidence"))
    ensures r.Ok? ==> r.value == FacialAnalysis(engagement, positivity, anxietyHint, confidence.value, emotions)
  {
    if confidence.None? then Err(ValidationError("confidence"))
    else if !(0.0 <= engagement <= 1.0) then Err(ValidationError("engagement"))
    else if !(0.0 <= positivity <= 1.0) then Err(ValidationError("positivity"))
    else if !(0.0 <= anxietyHint <= 1.0) then Err(ValidationError("anxiety_hint"))
    else if !(0.0 <= confidence.value <= 1.0) then Err(ValidationError("confidence"))
    else Ok(FacialAnalysis(engagement, positivity, anxietyHint, confidence.value, emotions))
  }

  /** Building a `TranscriptSegment`: only each field's own bound is checked. */
  function ValidateSegment(text: string, startTime: real, endTime: real, confidence: real)
    : (r: Result<TranscriptSegment, ValidationError>)
    ensures r.Ok? <==> 0.0 <= startTime && 0.0 <= endTime && InUnit(confidence)
    ensures r.Ok? ==> r.value.startTime == startTime && r.value.endTime == endTime
  {
    if !(0.0 <= startTime) then Err(ValidationError("start_time"))
    else if !(0.0 <= endTime) then Err(ValidationError("end_time"))
    else if !(0.0 <= confidence <= 1.0) then Err(ValidationError("confidence"))
    else Ok(TranscriptSegment(text, startTime, endTime, confidence))
  }

  /** A segment that ends before it starts is accepted. */
  lemma SegmentMayEndBeforeStart()
    ensures ValidateSegment("", 2.0, 1.0, 0.5).Ok?
  {
  }
}

/**
 * The one-shot analysis handler: a media upload is checked, stored, sent to the face
 * detection and transcription jobs, and the results are turned into a facial analysis, a
 * transcript analysis and coaching advice.  Storage, the jobs, the transcript download, the
 * random id and the language model are parameters.
 *
 * The handler as written builds its facial result without the required `confidence` field,
 * so a successful face analysis always ends in a server error; `FacialBuild` selects between
 * that construction and the corrected one.
 */
module AnalysisRouter {
  import opened Wrappers
  import opened Schemas
  import opened Web
  import AwsProviders
  import MediaJobs
  import Text

  /** The parts of the uploaded file the handler looks at; the bytes themselves are not modelled. */
  datatype Upload = Upload(contentType: Option<string>, filename: Option<string>)

  /** The facts the advice prompt is rendered from. */
  datatype AdvicePrompt = AdvicePrompt(confidence: real, anxiety: real, fillerRatio: real, excerpt: string)

  /** Everything outside the handler. */
  datatype Providers = Providers(
    storage: MediaJobs.StorageEnv,
    uploadId: string,
    faceJob: MediaJobs.FaceJobEnv,
    transcribeJob: MediaJobs.TranscribeEnv,
    fetchTranscript: string -> string,
    llm: AdvicePrompt -> LlmReply,
    fillerWords: seq<string>)

  // ---------------------------------------------------------------- request checks

  /** A present content type starting with "video/" or "audio/". */
  predicate AcceptedContentType(contentType: Option<string>) {
    contentType.Some? && ("video/" <= contentType.value || "audio/" <= contentType.value)
  }

  const DefaultFilename: string := "interview.webm"

  /** `file.filename or "interview.webm"`. */
  function UploadName(filename: Option<string>): (name: string)
    ensures name != ""
    ensures filename.Some? && filename.value != "" ==> name == filename.value
    ensures filename.None? || filename.value == "" ==> name == DefaultFilename
  {
    if filename.Some? && filename.value != "" then filename.value else DefaultFilename
  }

  /** A nameless upload is stored under the "webm" extension. */
  lemma NamelessUploadIsWebm(id: string)
    ensures MediaJobs.UploadExtension(UploadName(None)) == "webm"
  {
    var name := UploadName(None);
    assert name == "interview.webm";
    assert name == "interview" + "." + "webm";
    MediaJobs.AfterLastDotOfSuffix("interview", "webm");
  }

  /** Both jobs are started without an extension, so with their default "mov". */
  const JobExtension: string := "mov"

  /** The default extension passes the face-detection gate and is transcribed as "mp4". */
  lemma JobExtensionPassesGates()
    ensures !MediaJobs.RejectedByFaceDetection(JobExtension)
    ensures MediaJobs.MediaFormat(JobExtension) == "mp4"
  {
    assert Text.Lower("mov") == "mov";
  }

  // ---------------------------------------------------------------- facial result

  datatype FacialBuild = AsWritten | Corrected

  /**
   * The `FacialAnalysis` record built from the face job's metrics.  As written, `confidence`
   * is not passed, and the record cannot be built; corrected, the job's confidence is passed.
   * Neither passes the per-emotion averages, so `emotions` keeps its empty default.
   */
  function BuildFacial(how: FacialBuild, m: AwsProviders.VideoFacialMetrics): (r: Result<FacialAnalysis, ValidationError>)
    ensures how.AsWritten? ==> r == Err(ValidationError("confidence"))
    ensures how.Corrected? ==>
              (r.Ok? <==> InUnit(m.engagement) && InUnit(m.positivity) && InUnit(m.anxietyHint) && InUnit(m.confidence))
    ensures r.Ok? ==> r.value == FacialAnalysis(m.engagement, m.positivity, m.anxietyHint, m.confidence, map[])
  {
    var confidence := if how.Corrected? then Some(m.confidence) else None;
    ValidateFacialAnalysis(m.engagement, m.positivity, m.anxietyHint, confidence, map[])
  }

  /** `facial_result`: nothing without face data, else the built record or its validation error. */
  function FacialResult(how: FacialBuild, data: Option<AwsProviders.VideoFacialMetrics>)
    : (r: Result<Option<FacialAnalysis>, ValidationError>)
    ensures data.None? ==> r == Ok(None)
    ensures data.Some? ==> (r.Ok? <==> BuildFacial(how, data.value).Ok?)
    ensures r.Ok? && data.Some? ==> r.value == Some(BuildFacial(how, data.value).value)
  {
    match data
    case None => Ok(None)
    case Some(m) =>
      match BuildFacial(how, m)
      case Err(e) => Err(e)
      case Ok(facial) => Ok(Some(facial))
  }

  // ---------------------------------------------------------------- transcript and advice

  /** The transcript analysis of a downloaded text: the local heuristic, with no segments. */
  function BuildTranscript(fullText: string, fillers: seq<string>): (t: TranscriptAnalysis)
    ensures t.fullText == fullText && t.segments == []
    ensures var stats := AwsProviders.AnalyzeTranscriptLocally(fullText, fillers);
            t.fillerRatio == stats.fillerRatio && t.fillerHits == stats.fillerHits && t.mumbleScore == stats.mumbleScore
  {
    var stats := AwsProviders.AnalyzeTranscriptLocally(fullText, fillers);
    TranscriptAnalysis(fullText, stats.fillerRatio, stats.fillerHits, stats.mumbleScore, [])
  }

  const ExcerptLength: nat := 500

  /** `full_text[:500]`. */
  function Excerpt(s: string): (r: string)
    ensures |r| == MinNat(ExcerptLength, |s|) && r <= s
  {
    if |s| <= ExcerptLength then s else s[..ExcerptLength]
  }

  /** The advice confidence falls with the mumble score, from 1 down to one half. */
  function AdviceConfidence(t: TranscriptAnalysis): (c: Unit)
    ensures 0.5 <= c <= 1.0
    ensures c == 1.0 <==> t.mumbleScore == 0.0
    ensures c == 0.5 <==> t.mumbleScore == 1.0
  {
    1.0 - t.mumbleScore * 0.5
  }

  /** The advice anxiety: the face's hint when a facial result exists, else one half. */
  function AdviceAnxiety(facial: Option<FacialAnalysis>): Unit {
    if facial.Some? then facial.value.anxietyHint else 0.5
  }

  function PromptFor(facial: Option<FacialAnalysis>, t: TranscriptAnalysis): AdvicePrompt {
    AdvicePrompt(AdviceConfidence(t), AdviceAnxiety(facial), t.fillerRatio, Excerpt(t.fullText))
  }

  const FillerThreshold: real := 0.1
  const EngagementThreshold: real := 0.6
  const MumbleThreshold: real := 0.5

  /** One recommendation per aspect: filler words, engagement, clarity, in that order. */
  function Recommendations(facial: Option<FacialAnalysis>, t: TranscriptAnalysis): (r: seq<string>)
    ensures |r| == 3
    ensures r[0] == (if t.fillerRatio > FillerThreshold then "Reduce filler words" else "Good control of filler words")
    ensures r[1] == (if facial.Some? && facial.value.engagement < EngagementThreshold
                     then "Maintain eye contact" else "Good engagement")
    ensures r[2] == (if t.mumbleScore > MumbleThreshold then "Speak more clearly" else "Clear speech")
  {
    [ if t.fillerRatio > FillerThreshold then "Reduce filler words" else "Good control of filler words",
      if facial.Some? && facial.value.engagement < EngagementThreshold then "Maintain eye contact" else "Good engagement",
      if t.mumbleScore > MumbleThreshold then "Speak more clearly" else "Clear speech" ]
  }

  const PracticeTip: string := "Practice makes perfect! Keep working on your interview skills."
  const FallbackTip: string := "Keep practicing your interview skills!"
  const FallbackRecommendations: seq<string> := ["Review your performance and try again"]

  /**
   * The coaching advice: the model's tip (the practice tip when it is empty) with the three
   * recommendations, or, when the model raises, the fallback tip with the single fallback
   * recommendation.  The scores are the same either way.
   */
  function Advise(llm: AdvicePrompt -> LlmReply, facial: Option<FacialAnalysis>, t: TranscriptAnalysis)
    : (a: CoachingAdvice)
    ensures a.tip != ""
    ensures a.confidenceScore == AdviceConfidence(t) && a.anxietyScore == AdviceAnxiety(facial)
    ensures llm(PromptFor(facial, t)).LlmRaised? ==>
              a.tip == FallbackTip && a.recommendations == FallbackRecommendations
    ensures llm(PromptFor(facial, t)).LlmText? ==>
              && a.recommendations == Recommendations(facial, t)
              && a.tip == (if llm(PromptFor(facial, t)).text == "" then PracticeTip else llm(PromptFor(facial, t)).text)
  {
    match llm(PromptFor(facial, t))
    case LlmRaised => CoachingAdvice(FallbackTip, AdviceConfidence(t), AdviceAnxiety(facial), FallbackRecommendations)
    case LlmText(tip) =>
      CoachingAdvice(if tip == "" then PracticeTip else tip, AdviceConfidence(t), AdviceAnxiety(facial),
                     Recommendations(facial, t))
  }

  /** Without a facial result, eye contact is never recommended and the anxiety is one half. */
  lemma NoFaceMeansNeutralEngagement(llm: AdvicePrompt -> LlmReply, t: TranscriptAnalysis)
    ensures Advise(llm, None, t).anxietyScore == 0.5
    ensures "Maintain eye contact" !in Advise(llm, None, t).recommendations
  {
    var a := Advise(llm, None, t);
    if llm(PromptFor(None, t)).LlmText? {
      assert a.recommendations == Recommendations(None, t);
      assert a.recommendations[1] == "Good engagement";
    }
  }

  /** The transcript and advice halves of the response. */
  datatype SpeechResult = SpeechResult(transcript: Option<TranscriptAnalysis>, advice: Option<CoachingAdvice>)

  /** Only a COMPLETED transcription is downloaded, analysed and advised on. */
  function SpeechStage(p: Providers, facial: Option<FacialAnalysis>, data: Option<MediaJobs.TranscriptionResult>)
    : (r: SpeechResult)
    ensures r.transcript.Some? <==> data.Some? && data.value.status == MediaJobs.TranscriptionSuccess
    ensures r.advice.Some? <==> r.transcript.Some?
    ensures r.transcript.Some? ==>
              && r.transcript.value == BuildTranscript(p.fetchTranscript(data.value.transcriptUri), p.fillerWords)
              && r.advice.value == Advise(p.llm, facial, r.transcript.value)
  {
    if data.Some? && data.value.status == MediaJobs.TranscriptionSuccess then
      var t := BuildTranscript(p.fetchTranscript(data.value.transcriptUri), p.fillerWords);
      SpeechResult(Some(t), Some(Advise(p.llm, facial, t)))
    else SpeechResult(None, None)
  }

  // ---------------------------------------------------------------- the handler

  const InvalidFileType: HttpError := HttpError(BadRequest, "Invalid file type")
  const UploadFailure: HttpError := HttpError(InternalServerError, "Failed to upload file")
  const AnalysisFailure: HttpError := HttpError(InternalServerError, "Analysis failed")

  /** The face job's metrics for this request. */
  function FacialData(p: Providers): Option<AwsProviders.VideoFacialMetrics> {
    MediaJobs.AnalyzeVideoWithRekognition(p.faceJob, JobExtension)
  }

  /** The transcription job's outcome for this request; an exception is `Err`. */
  function TranscriptData(p: Providers): Result<Option<MediaJobs.TranscriptionResult>, MediaJobs.ServiceError> {
    MediaJobs.TranscribeAudioFromS3(p.transcribeJob, JobExtension)
  }

  /** The upload succeeds. */
  predicate Stored(p: Providers) {
    p.storage.bucketConfigured && p.storage.clientAvailable && p.storage.putSucceeds
  }

  /**
   * The response of `analyze_interview` once the face job has produced `facialData` and the
   * transcription job `transcriptData`, with the facial record built as `how` says: a bad
   * content type is a 400 before anything is stored, a failed upload a 500, and any
   * exception while analysing (a raising transcription job, a facial record that fails
   * validation) a 500.
   */
  function Respond(how: FacialBuild, p: Providers, upload: Upload, facialData: Option<AwsProviders.VideoFacialMetrics>,
                   transcriptData: Result<Option<MediaJobs.TranscriptionResult>, MediaJobs.ServiceError>)
    : (r: Result<AnalysisResponse, HttpError>)
    ensures (r.Err? && r.error.statusCode == BadRequest) <==> !AcceptedContentType(upload.contentType)
    ensures AcceptedContentType(upload.contentType) && !Stored(p) ==> r == Err(UploadFailure)
    ensures r.Ok? <==> AcceptedContentType(upload.contentType) && Stored(p) && transcriptData.Ok?
                       && FacialResult(how, facialData).Ok?
    ensures r.Ok? ==>
              && r.value.fileKey == MediaJobs.UploadKey(p.uploadId, UploadName(upload.filename))
              && r.value.status == "completed"
              && r.value.facialAnalysis == FacialResult(how, facialData).value
              && (r.value.transcriptAnalysis.Some? <==>
                    transcriptData.value.Some? && transcriptData.value.value.status == MediaJobs.TranscriptionSuccess)
              && (r.value.coachingAdvice.Some? <==> r.value.transcriptAnalysis.Some?)
    ensures r.Ok? && r.value.coachingAdvice.Some? ==>
              && 0.5 <= r.value.coachingAdvice.value.confidenceScore <= 1.0
              && r.value.coachingAdvice.value.anxietyScore == AdviceAnxiety(r.value.facialAnalysis)
  {
    if !AcceptedContentType(upload.contentType) then Err(InvalidFileType)
    else
      match MediaJobs.UploadFileToS3(p.storage, UploadName(upload.filename), p.uploadId)
      case Err(_) => Err(UploadFailure)
      case Ok(key) =>
        match transcriptData
        case Err(_) => Err(AnalysisFailure)
        case Ok(transcript) =>
          match FacialResult(how, facialData)
          case Err(_) => Err(AnalysisFailure)
          case Ok(facial) =>
            var speech := SpeechStage(p, facial, transcript);
            Ok(AnalysisResponse(key, "completed", facial, speech.transcript, speech.advice))
  }

  /** `analyze_interview`: both jobs run on the stored upload and their outcomes are answered. */
  function Analyze(how: FacialBuild, p: Providers, upload: Upload): (r: Result<AnalysisResponse, HttpError>)
    ensures r == Respond(how, p, upload, FacialData(p), TranscriptData(p))
    ensures r.Ok? ==> r.value.fileKey == MediaJobs.UploadKey(p.uploadId, UploadName(upload.filename))
    ensures r.Ok? ==> (r.value.coachingAdvice.Some? <==> TranscriptData(p).value.Some?)
  {
    Respond(how, p, upload, FacialData(p), TranscriptData(p))
  }

  /** The handler as written. */
  function AnalyzeInterview(p: Providers, upload: Upload): (r: Result<AnalysisResponse, HttpError>)
    ensures r.Ok? ==> r.value.facialAnalysis.None?
    ensures AcceptedContentType(upload.contentType) && Stored(p) && FacialData(p).Some? ==> r == Err(AnalysisFailure)
    ensures r.Ok? && r.value.coachingAdvice.Some? ==> r.value.coachingAdvice.value.anxietyScore == 0.5
  {
    Analyze(AsWritten, p, upload)
  }

  /** The handler with the facial confidence passed through. */
  function AnalyzeInterviewCorrected(p: Providers, upload: Upload): (r: Result<AnalysisResponse, HttpError>)
    ensures r.Ok? ==> (r.value.facialAnalysis.Some? <==> FacialData(p).Some?)
    ensures r.Ok? && FacialData(p).Some? ==>
              var m := FacialData(p).value;
              var f := r.value.facialAnalysis.value;
              && f.engagement == m.engagement && f.positivity == m.positivity
              && f.anxietyHint == m.anxietyHint && f.confidence == m.confidence && f.emotions == map[]
    ensures r.Ok? && r.value.coachingAdvice.Some? && FacialData(p).Some? ==>
              r.value.coachingAdvice.value.anxietyScore == FacialData(p).value.anxietyHint
  {
    Analyze(Corrected, p, upload)
  }

  /**
   * A face job with non-negative emotion confidences yields metrics every `FacialAnalysis`
   * bound accepts.
   */
  lemma FaceMetricsInRange(env: MediaJobs.FaceJobEnv)
    requires var outcome := MediaJobs.PollJob(env.observe, MediaJobs.FaceJobSuccess).outcome;
             outcome.Succeeded? ==> AwsProviders.NonNegativeConfidences(AwsProviders.CollectEmotions(outcome.payload))
    ensures var m := MediaJobs.AnalyzeVideoWithRekognition(env, JobExtension);
            m.Some? ==> InUnit(m.value.engagement) && InUnit(m.value.positivity)
                        && InUnit(m.value.anxietyHint) && InUnit(m.value.confidence)
  {
  }

  /**
   * As written, every request whose upload is accepted and stored and whose face job
   * produces metrics fails with a server error, whatever the transcription does.
   */
  lemma FacialResultAlwaysFails(p: Providers, upload: Upload, m: AwsProviders.VideoFacialMetrics,
                                transcriptData: Result<Option<MediaJobs.TranscriptionResult>, MediaJobs.ServiceError>)
    requires AcceptedContentType(upload.contentType) && Stored(p)
    ensures Respond(AsWritten, p, upload, Some(m), transcriptData) == Err(AnalysisFailure)
    ensures Respond(AsWritten, p, upload, Some(m), transcriptData).error.statusCode == InternalServerError
  {
  }

  /**
   * Corrected, the same request succeeds with the face job's metrics in its facial
   * analysis, provided the transcription does not raise and the metrics lie within the
   * record's bounds (which `FaceMetricsInRange` guarantees for non-negative confidences).
   */
  lemma CorrectedKeepsFacialResult(p: Providers, upload: Upload, m: AwsProviders.VideoFacialMetrics,
                                   transcriptData: Result<Option<MediaJobs.TranscriptionResult>, MediaJobs.ServiceError>)
    requires AcceptedContentType(upload.contentType) && Stored(p)
    requires transcriptData.Ok?
    requires InUnit(m.engagement) && InUnit(m.positivity) && InUnit(m.anxietyHint) && InUnit(m.confidence)
    ensures Respond(Corrected, p, upload, Some(m), transcriptData).Ok?
    ensures Respond(Corrected, p, upload, Some(m), transcriptData).value.facialAnalysis.Some?
    ensures Respond(Corrected, p, upload, Some(m), transcriptData).value.facialAnalysis.value.confidence == m.confidence
  {
  }
}

# Interview-prep coaching backend — a Dafny model

This project models the decision logic of an interview-practice backend. The backend turns
what the browser measures during a mock interview into live coaching, and it turns an
uploaded recording into a one-shot analysis. The modelled core is:

- **Rule engine** (`StateMachine`). An ordered list of threshold rules classifies a
  confidence/anxiety score pair. The first rule whose thresholds all hold wins; otherwise the
  default rule is used.
- **Scorer and filler extractor** (`Analytics`). Browser signals become a clamped weighted
  confidence/anxiety pair. Transcript lines that contain a filler word become up to five
  highlights.
- **Local transcript heuristic and emotion reducers** (`AwsProviders`). These compute filler
  hits, the filler ratio, the long-pause count and the mumble score. They also cover
  `_emotion_score`, the still-image face reducer and the video emotion aggregation.
- **Media jobs** (`MediaJobs`). This covers the upload key, the face-detection format gate,
  the transcription format table, the bounded poll loop with its back-off, and the two
  provider jobs that use it.
- **Session ledger** (`SessionStore`). A map from session id to creation time and last
  response.
- **Live-coaching handlers** (`CoachingRouter`). `create_session`, `ingest_signals` and the
  optional enrichment of the rule engine's verdict.
- **Analysis handler** (`AnalysisRouter`). This is `analyze_interview`: the content-type gate,
  upload errors, result gating, advice scores, recommendations and language-model fallbacks.
- **Schemas** (`Schemas`). The record bounds, written as subset types (`Unit` = [0, 1],
  `Signed` = [-1, 1], `NonNegative`, `Positive`). Record construction that can fail is written
  as `Validate*` functions returning `Result`.

`Wrappers` holds `Option`/`Result`. `Text` holds the Python string built-ins the code relies on:
`lower`, `split`, `strip`, `in`, `count`, `join` and `split('.')[-1]`. `Web` holds the HTTP
error and the language-model reply.

Every external service is a parameter: storage, face detection, transcription, the transcript
download, the language model, the random ids, the clock and the settings. A provider job's
status requests are a function from the attempt number to what that request returned. So
every property holds for all possible provider behaviour.

`analyze_transcript_locally` and `_emotion_score` appear identically in
`app/services/aws_providers.py` and `src/interview_prep_backend/services/aws_providers.py`
(lines 67-82 and 103-107 there). Each is modelled once, in `AwsProviders`.

The test suite imports an analytics module that is not part of this model.
`src/interview_prep_backend/services/analytics.py` is modelled in its place, on the assumption
that the tested module behaves the same.

Under the code's weights the balanced payload of `tests/test_analytics.py` (lines 30-35)
scores 0.28 + 0.12 + 0.18 + 0.07 + 0.08 = 0.73. `Analytics.BalancedPayloadScores` proves
confidence 0.73 and anxiety 0.135.

## Model

| member | source | states |
|---|---|---|
| Text.Lower | src/interview_prep_backend/services/analytics.py:38 | lower-casing keeps the length and maps each character on its own |
| Text.LowerIdempotent | src/interview_prep_backend/services/aws_providers.py:382 | lower-casing an already lower-cased string changes nothing |
| Text.Words | app/services/aws_providers.py:68 | `split()` yields non-empty words without whitespace, never more words than characters; `Text.WordsSplit` pins the words themselves |
| Text.WordsSplit | app/services/aws_providers.py:68 | for every text, the k-th word of `split()` is the k-th maximal run of non-whitespace characters (bounded by whitespace or the ends, with k word starts before it), there is one word per word start, and the words joined are exactly the non-whitespace characters in order |
| Text.BlankHasNoWords | app/services/aws_providers.py:68-69 | a text of whitespace only has no words |
| Text.Strip | app/services/aws_providers.py:71 | `strip(",.?!")` returns the slice of the word left after cutting only stripped characters from both ends, whose first and last characters are not stripped characters: the longest such slice |
| Text.StripKeepsNoSpace | app/services/aws_providers.py:71 | stripping a whitespace-free word leaves it whitespace-free |
| Text.ContainsIffOccurs | src/interview_prep_backend/services/analytics.py:42 | the substring test holds exactly when the pattern occurs at some index |
| Text.Contains | src/interview_prep_backend/services/analytics.py:42 | definition: `sub in s`, true when `sub` is a prefix of some suffix of `s`; `ContainsIffOccurs` characterises it by occurrence index |
| Text.CountOccurrencesBound | app/services/aws_providers.py:74 | the non-overlapping count times the pattern length never exceeds the text length |
| Text.CountOccurrences | app/services/aws_providers.py:74 | definition: `str.count`, scanning left to right and skipping past each occurrence, so occurrences never overlap; `PausesDoNotOverlap` and `CountOccurrencesBound` are its partners |
| Text.AfterLastDot | src/interview_prep_backend/services/aws_providers.py:161 | the result is the suffix after the last '.', the whole string when there is no '.' |
| Schemas.ValidateCoachingScore | src/interview_prep_backend/schemas.py:49-51 | a score is built exactly when both values lie in [0, 1], and it holds them unchanged |
| Schemas.ValidateFacialAnalysis | src/interview_prep_backend/schemas.py:85-93 | a facial record is built exactly when confidence is supplied and all four values lie in [0, 1]; a missing confidence is always an error |
| Schemas.ValidateSegment | src/interview_prep_backend/schemas.py:20-24 | a segment is built exactly when both times are non-negative and the confidence lies in [0, 1] |
| Schemas.SegmentMayEndBeforeStart | src/interview_prep_backend/schemas.py:20-24 | nothing requires a segment to end after it starts |
| Analytics.Clamp | src/interview_prep_backend/services/analytics.py:60-61 | the result lies in [lo, hi]; values inside are kept and values outside go to the nearer bound |
| Analytics.SentimentPenalty | src/interview_prep_backend/services/analytics.py:48-57 | the penalty is one of 0, 0.05, 0.1, 0.15, and 0.05 when no sentiment is given |
| Analytics.SentimentPenaltyNonIncreasing | src/interview_prep_backend/services/analytics.py:48-57 | a higher sentiment score never gives a higher penalty |
| Analytics.ComputeScores | src/interview_prep_backend/services/analytics.py:9-33 | on bounded payloads the confidence is at least 0.01 and the anxiety at most 0.765, both in [0, 1] |
| Analytics.ClampNeverBinds | src/interview_prep_backend/services/analytics.py:15-31 | on bounded payloads both clamps leave the weighted sums unchanged |
| Analytics.MissingSpeechConfidenceIsDefault | src/interview_prep_backend/services/analytics.py:13 | a missing speech confidence scores exactly like a reported 0.7 |
| Analytics.ConfidenceMonotone | src/interview_prep_backend/services/analytics.py:15-22 | confidence does not fall when positivity, engagement, energy or speech confidence rise, or when the filler ratio falls |
| Analytics.AnxietyMonotone | src/interview_prep_backend/services/analytics.py:24-31 | anxiety does not fall when filler ratio, pitch variance or sentiment penalty rise, or when engagement or energy fall |
| Analytics.BalancedPayloadScores | tests/test_analytics.py:30-35 | the test suite's balanced payload scores confidence 0.73 and anxiety 0.135, so confidence exceeds anxiety |
| Analytics.MatchIndices | src/interview_prep_backend/services/analytics.py:40-44 | reference: the increasing list of exactly the indices of lines containing a filler after lower-casing |
| Analytics.HasFiller | src/interview_prep_backend/services/analytics.py:41-42 | definition: some configured filler occurs in the line |
| Analytics.MatchingLines | src/interview_prep_backend/services/analytics.py:38-44 | the collected lines are the lower-cased lines at those indices, in input order |
| Analytics.ExtractFillerSegments | src/interview_prep_backend/services/analytics.py:36-45 | the result is the first min(5, k) of the k matching lower-cased lines |
| Analytics.ExtractedLinesHoldFillers | src/interview_prep_backend/services/analytics.py:41-43 | every highlight contains some filler word |
| Analytics.AllMatchingIndices | src/interview_prep_backend/services/analytics.py:40-44 | when every line matches, the matching indices are 0, 1, 2, … in order |
| Analytics.AllMatchingKeepsFirstFive | src/interview_prep_backend/services/analytics.py:45 | when every line matches, the highlights are the first five lower-cased lines: truncation, not sampling |
| Analytics.ThreeLinesTwoHighlights | tests/test_analytics.py:38-41 | the test suite's three lines give exactly the two highlights "um i think" and "like overall it was good" |
| StateMachine.DefaultIndex | app/services/state_machine.py:41 | the default is the first rule flagged default, else the last rule |
| StateMachine.NewMachine | app/services/state_machine.py:39-41 | an empty rule list cannot build a machine; otherwise the default rule is the one `DefaultIndex` picks |
| StateMachine.Compare | app/services/state_machine.py:72-86 | an unknown operator is an error; a known one gives the comparison it names |
| StateMachine.ParseOperator | app/services/state_machine.py:74-86 | definition: the symbol and word spellings of the six operators map to the same operator, and every other spelling to none |
| StateMachine.Holds | app/services/state_machine.py:75-85 | definition: the comparison each operator names, `==` and `!=` within the 1e-6 tolerance |
| StateMachine.AliasesAgree | app/services/state_machine.py:74-85 | each symbolic operator and its word alias give the same answer |
| StateMachine.EqualityWithinTolerance | app/services/state_machine.py:82-85 | equality holds exactly within 1e-6, and "!=" is its exact complement |
| StateMachine.MetricValue | app/services/state_machine.py:65 | only "confidence" and "anxiety" name a score; any other metric is treated as absent (see Left out) |
| StateMachine.RuleMatches | app/services/state_machine.py:63-70 | a rule matches exactly when every threshold holds; it fails exactly when an unknown operator is reached before any threshold fails |
| StateMachine.EmptyThresholdsMatch | app/services/state_machine.py:63-70 | a rule without thresholds always matches |
| StateMachine.UnknownMetricNeverMatches | app/services/state_machine.py:65-67 | a threshold on an absent metric makes its rule not match when evaluation reaches it |
| StateMachine.SelectIndex | app/services/state_machine.py:57-61 | the selected rule is the first matching one from the given position, else the default |
| StateMachine.SelectRule | app/services/state_machine.py:57-61 | the selected rule is always one of the listed rules or the default |
| StateMachine.FirstMatchWins | app/services/state_machine.py:58-60 | if rule k matches and no earlier rule matches or fails, rule k is selected |
| StateMachine.NoMatchSelectsDefault | app/services/state_machine.py:61 | if no rule matches and none fails, the default is selected |
| StateMachine.EmptyRuleShadowsLater | app/services/state_machine.py:63-70 | a rule without thresholds shadows every later rule |
| StateMachine.Evaluate | app/services/state_machine.py:43-55 | the state and texts come from the selected rule; the scores and latency pass through and there are no highlights |
| StateMachine.HighAnxietySelectsAnxious | tests/test_state_machine.py:5-42 | anxiety 0.65 selects "Anxious"/"Slow down" ahead of the default; anxiety 0.3 falls through to the default |
| StateMachine.SingleDefaultRuleAlwaysSelected | tests/test_state_machine.py:45-70 | a machine with only the default rule always answers "Default"/"Stay steady" |
| SessionStore.Create | app/services/session_store.py:14-20 | the new entry has the given time and no response; other entries are unchanged |
| SessionStore.SetLastResponse | app/services/session_store.py:22-25 | an unknown id is a KeyError; otherwise only that entry's response changes, and its creation time is kept |
| SessionStore.GetLastResponse | app/services/session_store.py:27-31 | an unknown id reads as None; a known one reads its last response |
| SessionStore.CreateFresh | app/services/session_store.py:14-20 | a fresh id grows the store by one and reads back None |
| SessionStore.GetAfterSet | app/services/session_store.py:25-31 | what is set is what is read back |
| SessionStore.SetLeavesOthers | app/services/session_store.py:25 | setting one session leaves every other session as it was |
| SessionStore.LastWriteWins | app/services/session_store.py:25 | of two writes to one session the second wins |
| SessionStore.Replay | app/services/session_store.py:14-25 | after any sequence of creates and sets, the ids present are the old ones plus the created ones |
| SessionStore.CreatedIdsIff | app/services/session_store.py:14-20 | an id is created by a sequence exactly when some operation in it creates that id |
| SessionStore.HasIffCreated | app/services/session_store.py:33-34 | starting from an empty store, `has(id)` holds exactly when id was created |
| SessionStore.Has | app/services/session_store.py:33-34 | definition: the id is a key of the store; `HasIffCreated` ties it to the ids created |
| AwsProviders.FillerHits | app/services/aws_providers.py:71 | the hit count never exceeds the number of words; `FillerHitsCountsPositions` pins it to the filler positions |
| AwsProviders.IsFillerWord | app/services/aws_providers.py:71 | definition: the word with `,.?!` stripped from both ends is one of the configured fillers |
| AwsProviders.FillerPositions | app/services/aws_providers.py:71 | reference: the set of word positions whose stripped word is a configured filler |
| AwsProviders.FillerHitsAppend | app/services/aws_providers.py:71 | counting two word lists one after the other adds their hit counts |
| AwsProviders.FillerHitsCountsPositions | app/services/aws_providers.py:71 | for every word list, the hit count is exactly the number of positions whose stripped word is a configured filler |
| AwsProviders.FillerRatio | app/services/aws_providers.py:69-72 | the ratio is hits over words, 0 when there are no words, and always in [0, 1] |
| AwsProviders.MumbleScore | app/services/aws_providers.py:75 | the mumble score is at most 1, and non-negative for a non-negative ratio |
| AwsProviders.AnalyzeTranscriptLocally | app/services/aws_providers.py:64-79 | the hits are exactly the number of words of the lower-cased text whose stripped form is a configured filler; the ratio is hits over words (0 without words); ratio and mumble lie in [0, 1]; mumble counts the "..." runs |
| AwsProviders.RatioBounds | app/services/aws_providers.py:72 | a part over a larger positive whole lies in [0, 1] |
| AwsProviders.EmptyTextScoresZero | app/services/aws_providers.py:68-75 | the empty text scores no hits, ratio 0 and mumble 0 |
| AwsProviders.MumbleScoreMonotone | app/services/aws_providers.py:75 | mumble does not fall when the ratio or the pause count rises |
| AwsProviders.PausesDoNotOverlap | app/services/aws_providers.py:74 | four dots are one long pause and six dots are two |
| AwsProviders.SpacedFillerNeverCounts | app/services/aws_providers.py:71 | a filler containing whitespace never equals a stripped word |
| AwsProviders.MultiWordFillerIgnored | app/services/aws_providers.py:68-72 | adding a multi-word filler such as "you know" changes nothing in the analysis |
| AwsProviders.EmotionScore | app/services/aws_providers.py:102-106 | the confidence of the first entry of the wanted type, 0 when there is none |
| AwsProviders.DetectFaceSentiment | app/services/aws_providers.py:46-63 | a result exists exactly when faces were returned; every value is at most 1; with non-negative confidences engagement is at least 0.3 and the others non-negative |
| AwsProviders.SumOfKind | src/interview_prep_backend/services/aws_providers.py:274-281 | reference: the total confidence of one type's entries, non-negative for non-negative confidences |
| AwsProviders.SumScoresIsSumOfKind | src/interview_prep_backend/services/aws_providers.py:274-281 | summing `_emotion_score([e], type)` over all entries equals that total |
| AwsProviders.Average | src/interview_prep_backend/services/aws_providers.py:284-291 | each average is one type's total over the number of entries of all types |
| AwsProviders.AveragesOf | src/interview_prep_backend/services/aws_providers.py:274-291 | the eight averages agree with the reference and are non-negative for non-negative confidences |
| AwsProviders.Composite | src/interview_prep_backend/services/aws_providers.py:293-307 | positivity and confidence lie in [0, 1]; engagement and anxiety are at most 1, with engagement at least 0.3 and anxiety non-negative for non-negative averages |
| AwsProviders.AggregateFaceDetections | src/interview_prep_backend/services/aws_providers.py:255-307 | no faces, or faces without emotions, give None; otherwise exactly `Composite` of the reference per-type averages over all collected entries, within the composite bounds |
| MediaJobs.UploadExtension | src/interview_prep_backend/services/aws_providers.py:161 | the extension has no '.', is the text after the name's last '.', and is "webm" when there is none |
| MediaJobs.UploadKeyKeepsExtension | src/interview_prep_backend/services/aws_providers.py:161-162 | the extension is recovered from the key `interviews/<id>.<ext>` |
| MediaJobs.UploadKey | src/interview_prep_backend/services/aws_providers.py:161-162 | definition: `interviews/<id>.<extension>`; `UploadKeyKeepsExtension` recovers the extension from it |
| MediaJobs.AfterLastDotOfSuffix | src/interview_prep_backend/services/aws_providers.py:161 | the text after the last '.' of `prefix + "." + ext` is `ext` whenever `ext` has no '.' |
| MediaJobs.UploadFileToS3 | src/interview_prep_backend/services/aws_providers.py:143-172 | the upload succeeds exactly when bucket, client and put all succeed, and then returns the key for the id and name |
| MediaJobs.MediaFormat | src/interview_prep_backend/services/aws_providers.py:372-382 | the format is a table target, and "mp4" for extensions the table lacks |
| MediaJobs.RejectedByFaceDetection | src/interview_prep_backend/services/aws_providers.py:207-208 | definition: the lower-cased extension is one of webm, ogg, flac, wav and mp3; `WebmNeverAnalyzed` and `JobExtensionPassesGates` use it |
| MediaJobs.MediaFormatIgnoresCase | src/interview_prep_backend/services/aws_providers.py:382 | the lookup gives the same format for any letter case |
| MediaJobs.MediaFormatFixesTargets | src/interview_prep_backend/services/aws_providers.py:372-381 | every target maps to itself, and "mov" is sent as "mp4" |
| MediaJobs.PollFrom | src/interview_prep_backend/services/aws_providers.py:243-346 | at most 60 polls; every poll before the deciding one was pending; success returns the payload, FAILED and exceptions end the loop, and the loop times out only after 60 pending polls; each sleep is 6 once an IN_PROGRESS poll at attempt 15 or later has been seen, else 4 |
| MediaJobs.PollSchedule | src/interview_prep_backend/services/aws_providers.py:338-343 | sleeps are 4 or 6 seconds, 4 for the first fifteen, and never shorten once lengthened |
| MediaJobs.AnalyzeVideoWithRekognition | src/interview_prep_backend/services/aws_providers.py:194-352 | a refused extension or a missing configuration gives None; a result exists only for a succeeded job and is its emotion aggregation |
| MediaJobs.WebmNeverAnalyzed | src/interview_prep_backend/services/aws_providers.py:207-212 | every extension that lower-cases to "webm" gives None before any job starts |
| MediaJobs.TranscribeAudioFromS3 | src/interview_prep_backend/services/aws_providers.py:355-442 | missing configuration gives None; a raising start or status call propagates; a result exists exactly for a completed job and carries its transcript URI |
| CoachingRouter.LastLines | app/routers/interview.py:65 | the last min(3, n) lines, in order |
| CoachingRouter.RecentTranscript | app/routers/interview.py:65 | definition: the last three lines joined by single spaces, empty without lines; `OlderLinesIgnored` is its partner |
| Text.Join | app/routers/interview.py:65 | definition: `sep.join(parts)`, the parts with `sep` between neighbours and none at the ends |
| CoachingRouter.OlderLinesIgnored | app/routers/interview.py:65 | lines before the last three never reach the prompt |
| CoachingRouter.BatchMumble | app/routers/interview.py:81-82 | the batch's mumble score lies in [0, 1] |
| CoachingRouter.MaybeEnrich | app/routers/interview.py:60-86 | disabled, the verdict is unchanged; a non-empty model reply replaces tip and spoken text; anxiety becomes max(anxiety, mumble) for a non-empty batch and never falls; nothing else changes |
| CoachingRouter.CalmBatchKeepsScores | app/routers/interview.py:80-84 | a batch without filler words and without "..." leaves the scores unchanged |
| CoachingRouter.EnrichmentSettles | app/routers/interview.py:71-84 | with a failing model, enriching an enriched verdict again changes nothing |
| CoachingRouter.CreateSession | app/routers/interview.py:27-39 | the session is recorded first; the baseline (0.55, 0.45) verdict is stored and returned, and a failing rule set leaves the session without a response |
| CoachingRouter.SegmentTexts | app/routers/interview.py:48 | one text per segment, in order |
| CoachingRouter.IngestSignals | app/routers/interview.py:42-57 | an unknown session is a 404 with the store untouched; otherwise the returned response is the one stored, carries the filler highlights, keeps the computed confidence and never lowers the anxiety |
| CoachingRouter.CreatedSessionAcceptsSignals | app/routers/interview.py:44-45 | a session just created never gets a 404 |
| CoachingRouter.DisabledIngestIsRuleVerdict | app/routers/interview.py:50-56 | with external services off, the stored response is the rule verdict with the highlights attached |
| AnalysisRouter.UploadName | src/interview_prep_backend/routers/interview.py:55 | a non-empty file name is kept; a missing or empty file name becomes "interview.webm" |
| AnalysisRouter.AcceptedContentType | src/interview_prep_backend/routers/interview.py:42-46 | definition: the content type is present and starts with "video/" or "audio/"; `Respond` answers 400 exactly when it fails |
| AnalysisRouter.NamelessUploadIsWebm | src/interview_prep_backend/routers/interview.py:55 | a nameless upload is stored under the "webm" extension |
| AnalysisRouter.JobExtensionPassesGates | src/interview_prep_backend/routers/interview.py:69-70 | both jobs start with the default "mov", which passes the face gate and is transcribed as "mp4" |
| AnalysisRouter.BuildFacial | src/interview_prep_backend/routers/interview.py:79-83 | as written the facial record is never built; corrected it is built exactly when all four metrics lie in [0, 1] |
| AnalysisRouter.FacialResult | src/interview_prep_backend/routers/interview.py:78-83 | no face data gives no facial result; otherwise the built record or its validation error |
| AnalysisRouter.BuildTranscript | src/interview_prep_backend/routers/interview.py:90-97 | the transcript analysis carries the local heuristic's ratio, hits and mumble, with no segments |
| AnalysisRouter.Excerpt | src/interview_prep_backend/routers/interview.py:108 | the first min(500, n) characters |
| AnalysisRouter.AdviceConfidence | src/interview_prep_backend/routers/interview.py:100 | confidence lies in [0.5, 1]; it is 1 exactly for mumble 0 and 0.5 exactly for mumble 1 |
| AnalysisRouter.AdviceAnxiety | src/interview_prep_backend/routers/interview.py:101 | definition: the facial anxiety hint, or 0.5 without a facial result; `NoFaceMeansNeutralEngagement` is its partner |
| AnalysisRouter.Recommendations | src/interview_prep_backend/routers/interview.py:118-122 | exactly three recommendations: filler words, then engagement, then clarity |
| AnalysisRouter.Advise | src/interview_prep_backend/routers/interview.py:112-131 | the tip is never empty; an empty reply gives the practice tip; a raising model gives the fallback tip and one recommendation; the scores are the same either way |
| AnalysisRouter.NoFaceMeansNeutralEngagement | src/interview_prep_backend/routers/interview.py:101 | without a facial result the anxiety is 0.5 and eye contact is never recommended |
| AnalysisRouter.SpeechStage | src/interview_prep_backend/routers/interview.py:86-131 | transcript analysis and advice exist exactly when the transcription completed |
| AnalysisRouter.Respond | src/interview_prep_backend/routers/interview.py:41-148 | a bad content type is exactly the 400 case; a failed upload is a 500; success needs a stored upload, a non-raising transcription and a valid facial result; a transcript and advice exist exactly for a COMPLETED transcription; advice confidence lies in [0.5, 1] |
| AnalysisRouter.Analyze | src/interview_prep_backend/routers/interview.py:24-148 | the response to the jobs' own outcomes; advice exists exactly when the transcription job returned a result |
| AnalysisRouter.AnalyzeInterview | src/interview_prep_backend/routers/interview.py:78-83 | as written: never a facial result, and any face data turns the request into a 500 |
| AnalysisRouter.AnalyzeInterviewCorrected | src/interview_prep_backend/routers/interview.py:78-83 | corrected: a facial result exactly when there is face data, carrying the job's four metrics |
| AnalysisRouter.FaceMetricsInRange | src/interview_prep_backend/services/aws_providers.py:298-307 | non-negative emotion confidences yield metrics that every facial bound accepts |
| AnalysisRouter.FacialResultAlwaysFails | src/interview_prep_backend/routers/interview.py:78-83 | as written, any accepted and stored upload with face metrics ends in a 500, whatever the transcription returned |
| AnalysisRouter.CorrectedKeepsFacialResult | src/interview_prep_backend/routers/interview.py:78-83 | corrected, the same request succeeds and carries the face job's confidence, given a non-raising transcription and in-range metrics |

## Left out

- Network clients for the language model, storage, face detection and transcription (boto3, httpx), the asyncio executor and the sleeps themselves. Each call is a parameter; the poll loop records the sleep lengths instead of sleeping.
- `fetch_transcript_text`: a download that never raises (it falls back to a fixed text), so it is a function from URI to text.
- Configuration loading. `enable_external_apis` and the filler words are parameters; `Analytics.DefaultFillerWords` records the defaults. The alert thresholds are never read by the modelled code.
- `load_state_machine`: reading the JSON rule file; the rule list is an input.
- `uuid4`, `time.time`, `processing_time_ms`, logging, and `round(…, 2)` on the emotion averages. Ids and the clock are parameters; timing, logging and rounding are dropped.
- Prompt wording: the `:.2f` and `:.2%` renderings are replaced by the values they render (`CoachingPrompt`, `AdvicePrompt`).
- Framework and deployment wiring (application setup, CORS, the serverless entry point) and the manual upload script.
- The "parallel" job awaits run one after the other, so there is no concurrency to model.
- Floating point. Scores are Dafny `real`. The equality operators use `_compare`'s 1e-6 tolerance, but IEEE rounding is not modelled.
- Lower-casing covers ASCII letters only; `split()` uses Python's whitespace set.
- `start_transcription_job` and `generate_presigned_upload_url` are plain provider calls with no decision logic.
- `KeyError`-style crashes on missing keys of a provider reply (`result['JobStatus']`, the transcript URI) are not modelled; a status request either raises or returns a status with its payload.
- MediaJobs.UploadFileToS3: the upload id is a parameter, so "a new key each call" rests on the caller drawing a fresh id.
- SessionStore.Create: overwrites when given an id already present; freshness of the drawn id is the caller's premise, as stated in `SessionStore.CreateFresh`.
- StateMachine.MetricValue: metric names that are not score fields are treated as absent, so the rule does not match. `getattr` on the pydantic score object returns the value of any other attribute it has (`model_config`, `copy`, …), and `_compare` then raises `TypeError`, so `evaluate` raises. The attribute set of the score object is not modelled.
- Analytics.ComputeScores: the clamps are proved never to bind on payloads within their declared bounds; payloads outside the bounds cannot be built.

## Findings

| source | as written | input that shows it | evidently intended | confidence | as-written member | corrected member |
|---|---|---|---|---|---|---|
| src/interview_prep_backend/routers/interview.py:79-83 | the facial result is built from engagement, positivity and anxiety_hint only, but `FacialAnalysis.confidence` is required (src/interview_prep_backend/schemas.py:89), so validation raises and the outer handler answers 500 | any accepted upload whose face-detection job succeeds with at least one emotion entry | pass the aggregated `confidence` so the facial result is returned | not executed | AnalysisRouter.FacialResultAlwaysFails | AnalysisRouter.CorrectedKeepsFacialResult |

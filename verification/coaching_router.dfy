/**
 * The live-coaching handlers: creating a session, ingesting one batch of browser signals,
 * and the optional enrichment of the rule engine's verdict by the language model and the
 * local transcript heuristic.  Settings, the fresh session id, the clock and the language
 * model are parameters.
 */
module CoachingRouter {
  import opened Wrappers
  import opened Schemas
  import opened Web
  import Text
  import Analytics
  import AwsProviders
  import StateMachine
  import SessionStore

  /** The two settings the handlers read. */
  datatype Settings = Settings(enableExternalApis: bool, fillerWords: seq<string>)

  /** The facts the coaching prompt is rendered from. */
  datatype CoachingPrompt = CoachingPrompt(confidence: real, anxiety: real, recentTranscript: string)

  /** A handler's outcome together with the store as the request leaves it. */
  datatype Reply<T> = Reply(result: Result<T, HttpError>, store: SessionStore.Store)

  const RecentLineCount: nat := 3

  /** `speech_texts[-3:]`. */
  function LastLines(texts: seq<string>): (r: seq<string>)
    ensures |r| == MinNat(RecentLineCount, |texts|)
    ensures r == texts[|texts| - |r|..]
  {
    if |texts| <= RecentLineCount then texts else texts[|texts| - RecentLineCount..]
  }

  /** The transcript excerpt of the prompt: the last three lines joined by single spaces. */
  function RecentTranscript(texts: seq<string>): string {
    Text.Join(" ", LastLines(texts))
  }

  /** Lines older than the last three never reach the prompt. */
  lemma OlderLinesIgnored(older: seq<string>, recent: seq<string>)
    requires |recent| == RecentLineCount
    ensures RecentTranscript(older + recent) == Text.Join(" ", recent)
  {
    var all := older + recent;
    assert all[|all| - RecentLineCount..] == recent;
  }

  function PromptFor(response: CoachingResponse, texts: seq<string>): CoachingPrompt {
    CoachingPrompt(response.scores.confidence, response.scores.anxiety, RecentTranscript(texts))
  }

  /** The language model produced a tip that replaces the rule's one. */
  predicate ReplacesTip(reply: LlmReply) {
    reply.LlmText? && reply.text != ""
  }

  /** The mumble score of the whole batch, the joined lines scored by the local heuristic. */
  function BatchMumble(texts: seq<string>, fillers: seq<string>): (r: real)
    ensures 0.0 <= r <= 1.0
  {
    AwsProviders.AnalyzeTranscriptLocally(Text.Join(" ", texts), fillers).mumbleScore
  }

  /**
   * `_maybe_enrich_with_external`.  Disabled, the verdict is returned as it is.  Enabled, a
   * non-empty model reply becomes both tip and spoken text (a raising or empty reply keeps
   * them), and a non-empty batch raises the anxiety to the batch's mumble score when that is
   * higher.  Nothing else changes.
   */
  function MaybeEnrich(settings: Settings, llm: CoachingPrompt -> LlmReply, response: CoachingResponse,
                       texts: seq<string>): (r: CoachingResponse)
    ensures !settings.enableExternalApis ==> r == response
    ensures r.sessionId == response.sessionId && r.state == response.state && r.subtitle == response.subtitle
            && r.transcriptHighlights == response.transcriptHighlights && r.latencyMs == response.latencyMs
    ensures r.scores.confidence == response.scores.confidence
    ensures response.scores.anxiety <= r.scores.anxiety
    ensures texts == [] ==> r.scores == response.scores
    ensures settings.enableExternalApis && texts != [] ==>
              r.scores.anxiety == Max(response.scores.anxiety, BatchMumble(texts, settings.fillerWords))
    ensures settings.enableExternalApis && ReplacesTip(llm(PromptFor(response, texts))) ==>
              r.tip == llm(PromptFor(response, texts)).text && r.ttsText == r.tip
    ensures !(settings.enableExternalApis && ReplacesTip(llm(PromptFor(response, texts)))) ==>
              r.tip == response.tip && r.ttsText == response.ttsText
  {
    if !settings.enableExternalApis then response
    else
      var reply := llm(PromptFor(response, texts));
      var withTip := if ReplacesTip(reply) then response.(tip := reply.text, ttsText := reply.text) else response;
      if texts == [] then withTip
      else
        var anxiety := Max(withTip.scores.anxiety, BatchMumble(texts, settings.fillerWords));
        withTip.(scores := withTip.scores.(anxiety := anxiety))
  }

  /** A batch without filler words and without "..." leaves the scores as the rules set them. */
  lemma CalmBatchKeepsScores(settings: Settings, llm: CoachingPrompt -> LlmReply, response: CoachingResponse,
                             texts: seq<string>)
    requires AwsProviders.AnalyzeTranscriptLocally(Text.Join(" ", texts), settings.fillerWords).fillerHits == 0
    requires Text.CountOccurrences(Text.Join(" ", texts), AwsProviders.PauseMarker) == 0
    ensures MaybeEnrich(settings, llm, response, texts).scores == response.scores
  {
    var joined := Text.Join(" ", texts);
    var stats := AwsProviders.AnalyzeTranscriptLocally(joined, settings.fillerWords);
    CalmStatsScoreZero(stats, |Text.Words(Text.Lower(joined))|, Text.CountOccurrences(joined, AwsProviders.PauseMarker));
  }

  /** No hits give a zero ratio, and with no pauses a zero mumble score. */
  lemma CalmStatsScoreZero(stats: AwsProviders.TranscriptStats, words: nat, pauses: nat)
    requires stats.fillerHits == 0 && pauses == 0
    requires words == 0 ==> stats.fillerRatio == 0.0
    requires words > 0 ==> stats.fillerRatio == (stats.fillerHits as real) / (words as real)
    requires stats.mumbleScore == AwsProviders.MumbleScore(stats.fillerRatio, pauses)
    ensures stats.mumbleScore == 0.0
  {
  }

  /** Enriching twice with a model that keeps failing changes nothing the second time. */
  lemma EnrichmentSettles(settings: Settings, response: CoachingResponse, texts: seq<string>)
    ensures var once := MaybeEnrich(settings, _ => LlmRaised, response, texts);
            MaybeEnrich(settings, _ => LlmRaised, once, texts) == once
  {
    var once := MaybeEnrich(settings, _ => LlmRaised, response, texts);
    var twice := MaybeEnrich(settings, _ => LlmRaised, once, texts);
    assert twice.scores == once.scores;
  }

  // ---------------------------------------------------------------- handlers

  /** The score every new session is first evaluated at. */
  const Baseline: CoachingScore := CoachingScore(0.55, 0.45)

  /** An exception of the rule engine is not handled and surfaces as a server error. */
  const EngineFailure: HttpError := HttpError(InternalServerError, "Internal Server Error")

  /**
   * `create_session`: the session is recorded first, then the baseline is evaluated and the
   * verdict stored; a failing rule set leaves the session recorded without a response.
   */
  function CreateSession(machine: StateMachine.Machine, store: SessionStore.Store, id: string, now: real)
    : (r: Reply<SessionCreateResponse>)
    ensures r.store.Keys == store.Keys + {id}
    ensures forall k :: k in store && k != id ==> r.store[k] == store[k]
    ensures r.store[id].createdAt == now
    ensures r.result.Err? <==> StateMachine.SelectRule(machine, Baseline).Err?
    ensures r.result.Err? ==> r.result.error == EngineFailure && r.store[id].lastResponse.None?
    ensures r.result.Ok? ==>
              var verdict := StateMachine.Evaluate(machine, id, Baseline, None).value;
              && r.store[id].lastResponse == Some(verdict)
              && r.result.value == SessionCreateResponse(id, verdict.state, verdict.tip, verdict.subtitle, verdict.ttsText)
  {
    var created := SessionStore.Create(store, id, now);
    match StateMachine.Evaluate(machine, id, Baseline, None)
    case Err(_) => Reply(Err(EngineFailure), created)
    case Ok(verdict) =>
      Reply(Ok(SessionCreateResponse(id, verdict.state, verdict.tip, verdict.subtitle, verdict.ttsText)),
            SessionStore.SetLastResponse(created, id, verdict).value)
  }

  /** The text of every transcript segment, in order. */
  function SegmentTexts(transcript: seq<TranscriptSegment>): (r: seq<string>)
    ensures |r| == |transcript|
    ensures forall i :: 0 <= i < |r| ==> r[i] == transcript[i].text
  {
    seq(|transcript|, i requires 0 <= i < |transcript| => transcript[i].text)
  }

  /**
   * `ingest_signals`: an unknown session is a 404 and nothing is stored; otherwise the
   * payload is scored, classified, given its filler highlights, enriched, stored as the
   * session's last response and returned.
   */
  function IngestSignals(settings: Settings, machine: StateMachine.Machine, llm: CoachingPrompt -> LlmReply,
                         store: SessionStore.Store, sessionId: string, payload: BrowserSignalPayload)
    : (r: Reply<CoachingResponse>)
    ensures r.result.Err? ==> r.store == store
    ensures (r.result.Err? && r.result.error.statusCode == NotFound) <==> !SessionStore.Has(store, sessionId)
    ensures r.result.Ok? ==>
              && SessionStore.GetLastResponse(r.store, sessionId) == Some(r.result.value)
              && r.store.Keys == store.Keys
              && (forall k :: k in store && k != sessionId ==> r.store[k] == store[k])
              && r.store[sessionId].createdAt == store[sessionId].createdAt
    ensures r.result.Ok? ==>
              var scores := Analytics.ComputeScores(payload);
              && r.result.value.sessionId == sessionId
              && StateMachine.SelectRule(machine, scores).Ok?
              && r.result.value.state == StateMachine.SelectRule(machine, scores).value.name
              && r.result.value.transcriptHighlights
                 == Analytics.ExtractFillerSegments(SegmentTexts(payload.transcript), settings.fillerWords)
              && r.result.value.latencyMs == payload.latencyMs
              && r.result.value.scores.confidence == scores.confidence
              && scores.anxiety <= r.result.value.scores.anxiety
  {
    if !SessionStore.Has(store, sessionId) then Reply(Err(HttpError(NotFound, "Session not found")), store)
    else
      var scores := Analytics.ComputeScores(payload);
      var texts := SegmentTexts(payload.transcript);
      match StateMachine.Evaluate(machine, sessionId, scores, payload.latencyMs)
      case Err(_) => Reply(Err(EngineFailure), store)
      case Ok(verdict) =>
        var highlights := Analytics.ExtractFillerSegments(texts, settings.fillerWords);
        var updated := MaybeEnrich(settings, llm, verdict.(transcriptHighlights := highlights), texts);
        Reply(Ok(updated), SessionStore.SetLastResponse(store, sessionId, updated).value)
  }

  /** A session just created accepts signals: ingest never answers 404 for it. */
  lemma CreatedSessionAcceptsSignals(settings: Settings, machine: StateMachine.Machine, llm: CoachingPrompt -> LlmReply,
                                     store: SessionStore.Store, id: string, now: real, payload: BrowserSignalPayload)
    ensures var created := CreateSession(machine, store, id, now).store;
            var r := IngestSignals(settings, machine, llm, created, id, payload).result;
            !(r.Err? && r.error.statusCode == NotFound)
  {
  }

  /** With the external services off, the stored verdict is the rule engine's, with highlights attached. */
  lemma DisabledIngestIsRuleVerdict(settings: Settings, machine: StateMachine.Machine, llm: CoachingPrompt -> LlmReply,
                                    store: SessionStore.Store, sessionId: string, payload: BrowserSignalPayload)
    requires !settings.enableExternalApis
    requires SessionStore.Has(store, sessionId)
    requires StateMachine.SelectRule(machine, Analytics.ComputeScores(payload)).Ok?
    ensures var r := IngestSignals(settings, machine, llm, store, sessionId, payload).result;
            var verdict := StateMachine.Evaluate(machine, sessionId, Analytics.ComputeScores(payload), payload.latencyMs).value;
            r.Ok? && r.value == verdict.(transcriptHighlights := Analytics.ExtractFillerSegments(
                                           SegmentTexts(payload.transcript), settings.fillerWords))
  {
  }
}

/**
 * The scorer (browser signals to a confidence/anxiety pair) and the filler extractor
 * (transcript lines to at most five highlighted lines).
 */
module Analytics {
  import opened Wrappers
  import opened Schemas
  import Text

  /** Speech confidence assumed when the payload carries none. */
  const DefaultSpeechConfidence: Unit := 0.7
  /** The extractor keeps at most this many lines. */
  const MaxHighlights: nat := 5
  /** The configured filler words when the environment does not override them. */
  const DefaultFillerWords: seq<string> := ["um", "uh", "like", "you know", "actually", "basically", "literally"]

  /** `max(lo, min(v, hi))`. */
  function Clamp(v: real, lo: real, hi: real): (r: real)
    ensures lo <= r
    ensures lo <= hi ==> r <= hi
    ensures lo <= v <= hi ==> r == v
    ensures v < lo ==> r == lo
    ensures lo <= hi < v ==> r == hi
  {
    Max(lo, Min(v, hi))
  }

  /** Anxiety contribution of the sentiment score: a non-increasing step function. */
  function SentimentPenalty(score: Option<real>): (r: real)
    ensures r in {0.0, 0.05, 0.1, 0.15}
    ensures score.None? ==> r == 0.05
  {
    match score
    case None => 0.05
    case Some(s) =>
      if s >= 0.2 then 0.0
      else if s >= 0.0 then 0.05
      else if s >= -0.4 then 0.1
      else 0.15
  }

  function SpeechConfidence(p: BrowserSignalPayload): Unit {
    p.speechConfidence.GetOr(DefaultSpeechConfidence)
  }

  /** The unclamped weighted sum behind the confidence score. */
  function RawConfidence(p: BrowserSignalPayload): real {
    p.facial.positivity * 0.4
    + p.facial.engagement * 0.2
    + (1.0 - p.voice.fillerRatio) * 0.2
    + Min(p.voice.energy + 0.1, 1.0) * 0.1
    + SpeechConfidence(p) * 0.1
  }

  /** The unclamped weighted sum behind the anxiety score. */
  function RawAnxiety(p: BrowserSignalPayload): real {
    p.voice.fillerRatio * 0.35
    + (1.0 - p.facial.engagement) * 0.25
    + Max(p.voice.pitchVariance - 0.5, 0.0) * 0.2
    + Max(0.5 - p.voice.energy, 0.0) * 0.1
    + SentimentPenalty(p.sentimentScore) * 0.1
  }

  /**
   * `compute_scores`: both weighted sums clamped to [0, 1].  On payloads within their
   * declared bounds confidence never falls below 0.01 and anxiety never exceeds 0.765.
   */
  function ComputeScores(p: BrowserSignalPayload): (r: CoachingScore)
    ensures 0.01 <= r.confidence
    ensures r.anxiety <= 0.765
  {
    CoachingScore(Clamp(RawConfidence(p), 0.0, 1.0), Clamp(RawAnxiety(p), 0.0, 1.0))
  }

  /** Within the payload bounds neither clamp ever changes the weighted sum. */
  lemma ClampNeverBinds(p: BrowserSignalPayload)
    ensures ComputeScores(p).confidence == RawConfidence(p)
    ensures ComputeScores(p).anxiety == RawAnxiety(p)
  {
  }

  /** A missing speech confidence scores exactly like a reported 0.7. */
  lemma MissingSpeechConfidenceIsDefault(p: BrowserSignalPayload)
    requires p.speechConfidence.None?
    ensures ComputeScores(p) == ComputeScores(p.(speechConfidence := Some(0.7)))
  {
  }

  /** A higher sentiment score never yields a higher penalty. */
  lemma SentimentPenaltyNonIncreasing(a: real, b: real)
    requires a <= b
    ensures SentimentPenalty(Some(b)) <= SentimentPenalty(Some(a))
  {
  }

  /**
   * Confidence is non-decreasing in positivity, engagement, energy and speech confidence
   * and non-increasing in the filler ratio.
   */
  lemma ConfidenceMonotone(p: BrowserSignalPayload, q: BrowserSignalPayload)
    requires p.facial.positivity <= q.facial.positivity
    requires p.facial.engagement <= q.facial.engagement
    requires p.voice.energy <= q.voice.energy
    requires SpeechConfidence(p) <= SpeechConfidence(q)
    requires q.voice.fillerRatio <= p.voice.fillerRatio
    ensures ComputeScores(p).confidence <= ComputeScores(q).confidence
  {
  }

  /**
   * Anxiety is non-decreasing in the filler ratio, the pitch variance and the sentiment
   * penalty, and non-increasing in engagement and energy.
   */
  lemma AnxietyMonotone(p: BrowserSignalPayload, q: BrowserSignalPayload)
    requires p.voice.fillerRatio <= q.voice.fillerRatio
    requires p.voice.pitchVariance <= q.voice.pitchVariance
    requires q.facial.engagement <= p.facial.engagement
    requires q.voice.energy <= p.voice.energy
    requires SentimentPenalty(p.sentimentScore) <= SentimentPenalty(q.sentimentScore)
    ensures ComputeScores(p).anxiety <= ComputeScores(q).anxiety
  {
  }

  /** The balanced payload of the test suite. */
  const BalancedPayload: BrowserSignalPayload := BrowserSignalPayload(
    None,
    FacialMetrics(0.6, 0.7, None),
    VoiceMetrics(0.5, 0.4, 120.0, 0.1, 0.6),
    [TranscriptSegment("I actually delivered the feature", 0.0, 4.0, 0.9)],
    Some(0.2),
    Some(0.8),
    None)

  /** The balanced payload scores 0.28+0.12+0.18+0.07+0.08 = 0.73 against 0.135. */
  lemma BalancedPayloadScores()
    ensures ComputeScores(BalancedPayload) == CoachingScore(0.73, 0.135)
    ensures ComputeScores(BalancedPayload).confidence > ComputeScores(BalancedPayload).anxiety
  {
  }

  // ---------------------------------------------------------------- filler extraction

  /** Some configured filler occurs as a substring of `segment`. */
  predicate HasFiller(segment: string, fillers: seq<string>) {
    exists j :: 0 <= j < |fillers| && Text.Contains(segment, fillers[j])
  }

  /**
   * Reference definition: the positions of the transcript lines whose lower-cased form
   * holds a filler, in increasing order, each position once.
   */
  ghost function MatchIndices(transcript: seq<string>, fillers: seq<string>): (idx: seq<nat>)
    ensures forall k :: 0 <= k < |idx| ==> idx[k] < |transcript| && HasFiller(Text.Lower(transcript[idx[k]]), fillers)
    ensures forall k, l :: 0 <= k < l < |idx| ==> idx[k] < idx[l]
    ensures forall i :: 0 <= i < |transcript| && HasFiller(Text.Lower(transcript[i]), fillers) ==> i in idx
    decreases |transcript|
  {
    if transcript == [] then []
    else
      var init := transcript[..|transcript| - 1];
      var prev := MatchIndices(init, fillers);
      assert forall k :: 0 <= k < |prev| ==> transcript[prev[k]] == init[prev[k]];
      if HasFiller(Text.Lower(transcript[|transcript| - 1]), fillers) then prev + [|transcript| - 1] else prev
  }

  /** Every matching line, lower-cased, in transcript order. */
  function MatchingLines(transcript: seq<string>, fillers: seq<string>): (r: seq<string>)
    ensures |r| == |MatchIndices(transcript, fillers)|
    ensures forall k :: 0 <= k < |r| ==> r[k] == Text.Lower(transcript[MatchIndices(transcript, fillers)[k]])
    decreases |transcript|
  {
    if transcript == [] then []
    else
      var init := transcript[..|transcript| - 1];
      var line := Text.Lower(transcript[|transcript| - 1]);
      var prev := MatchingLines(init, fillers);
      assert forall k :: 0 <= k < |prev| ==> transcript[MatchIndices(init, fillers)[k]] == init[MatchIndices(init, fillers)[k]];
      if HasFiller(line, fillers) then prev + [line] else prev
  }

  /**
   * `extract_filler_segments`: the first `min(5, k)` of the `k` matching lines, lower-cased,
   * in transcript order.
   */
  function ExtractFillerSegments(transcript: seq<string>, fillers: seq<string>): (r: seq<string>)
    ensures |r| == MinNat(MaxHighlights, |MatchIndices(transcript, fillers)|)
    ensures forall k :: 0 <= k < |r| ==> r[k] == Text.Lower(transcript[MatchIndices(transcript, fillers)[k]])
  {
    var all := MatchingLines(transcript, fillers);
    all[..MinNat(MaxHighlights, |all|)]
  }

  /** Every extracted line is the lower-cased form of an input line holding a filler. */
  lemma ExtractedLinesHoldFillers(transcript: seq<string>, fillers: seq<string>, k: nat)
    requires k < |ExtractFillerSegments(transcript, fillers)|
    ensures exists i :: 0 <= i < |transcript|
                        && ExtractFillerSegments(transcript, fillers)[k] == Text.Lower(transcript[i])
                        && HasFiller(Text.Lower(transcript[i]), fillers)
  {
    var i := MatchIndices(transcript, fillers)[k];
    assert ExtractFillerSegments(transcript, fillers)[k] == Text.Lower(transcript[i]);
  }

  /** When every line holds a filler the result is the first five lines, lower-cased, in order. */
  lemma AllMatchingKeepsFirstFive(transcript: seq<string>, fillers: seq<string>)
    requires forall i :: 0 <= i < |transcript| ==> HasFiller(Text.Lower(transcript[i]), fillers)
    ensures |ExtractFillerSegments(transcript, fillers)| == MinNat(MaxHighlights, |transcript|)
    ensures forall k :: 0 <= k < |ExtractFillerSegments(transcript, fillers)| ==>
              ExtractFillerSegments(transcript, fillers)[k] == Text.Lower(transcript[k])
  {
    AllMatchingIndices(transcript, fillers);
  }

  lemma {:induction false} AllMatchingIndices(transcript: seq<string>, fillers: seq<string>)
    requires forall i :: 0 <= i < |transcript| ==> HasFiller(Text.Lower(transcript[i]), fillers)
    ensures |MatchIndices(transcript, fillers)| == |transcript|
    ensures forall k :: 0 <= k < |transcript| ==> MatchIndices(transcript, fillers)[k] == k
    decreases |transcript|
  {
    if transcript != [] {
      var init := transcript[..|transcript| - 1];
      assert forall i :: 0 <= i < |init| ==> init[i] == transcript[i];
      AllMatchingIndices(init, fillers);
    }
  }

  /** The test suite's three lines with the default fillers give two highlights. */
  lemma ThreeLinesTwoHighlights()
    ensures ExtractFillerSegments(["Um I think", "We shipped it", "Like overall it was good"], DefaultFillerWords)
            == ["um i think", "like overall it was good"]
  {
    var t: seq<string> := ["Um I think", "We shipped it", "Like overall it was good"];
    SampleMatchingLines();
    assert MatchingLines(t, DefaultFillerWords) == ["um i think", "like overall it was good"];
  }

  lemma SampleMatchingLines()
    ensures MatchingLines(["Um I think", "We shipped it", "Like overall it was good"], DefaultFillerWords)
            == ["um i think", "like overall it was good"]
  {
    var t: seq<string> := ["Um I think", "We shipped it", "Like overall it was good"];
    SampleFirstTwo();
    assert t[..2] == ["Um I think", "We shipped it"];
    LowerSample();
    FillerSample();
  }

  lemma SampleFirstTwo()
    ensures MatchingLines(["Um I think", "We shipped it"], DefaultFillerWords) == ["um i think"]
  {
    var t: seq<string> := ["Um I think", "We shipped it"];
    SampleFirst();
    assert t[..1] == ["Um I think"];
    LowerSample();
    FillerSample();
  }

  lemma SampleFirst()
    ensures MatchingLines(["Um I think"], DefaultFillerWords) == ["um i think"]
  {
    var t: seq<string> := ["Um I think"];
    assert t[..0] == [];
    LowerSample();
    FillerSample();
  }

  lemma LowerSample()
    ensures Text.Lower("Um I think") == "um i think"
    ensures Text.Lower("We shipped it") == "we shipped it"
    ensures Text.Lower("Like overall it was good") == "like overall it was good"
  {
  }

  lemma FillerSample()
    ensures HasFiller("um i think", DefaultFillerWords)
    ensures !HasFiller("we shipped it", DefaultFillerWords)
    ensures HasFiller("like overall it was good", DefaultFillerWords)
  {
    PrefixContained("um", "um i think");
    assert DefaultFillerWords[0] == "um";
    PrefixContained("like", "like overall it was good");
    assert DefaultFillerWords[2] == "like";
    forall j | 0 <= j < |DefaultFillerWords|
      ensures !Text.Contains("we shipped it", DefaultFillerWords[j])
    {
      Text.NotContainsWhenHeadAbsent("we shipped it", DefaultFillerWords[j]);
    }
  }

  lemma PrefixContained(p: string, s: string)
    requires p <= s
    ensures Text.Contains(s, p)
  {
  }
}

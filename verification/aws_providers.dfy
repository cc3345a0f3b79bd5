/**
 * The local transcript heuristic and the reducers that turn face-detection emotion
 * confidences into bounded facial metrics.  The provider calls themselves are not modelled:
 * their responses are the inputs.
 */
module AwsProviders {
  import opened Wrappers
  import Text

  /** Characters stripped from both ends of a word before it is compared with the fillers. */
  const WordPunctuation: set<char> := {',', '.', '?', '!'}
  /** The marker counted as one long pause. */
  const PauseMarker: string := "..."

  // ---------------------------------------------------------------- analyze_transcript_locally

  /** A word counts when, stripped of surrounding punctuation, it equals a configured filler. */
  predicate IsFillerWord(word: string, fillers: seq<string>) {
    Text.Strip(word, WordPunctuation) in fillers
  }

  function FillerHits(words: seq<string>, fillers: seq<string>): (n: nat)
    ensures n <= |words|
    decreases |words|
  {
    if words == [] then 0
    else (if IsFillerWord(words[0], fillers) then 1 else 0) + FillerHits(words[1..], fillers)
  }

  /** Reference for the hit count: the positions of the words that are fillers once stripped. */
  ghost function FillerPositions(words: seq<string>, fillers: seq<string>): set<int> {
    set k | 0 <= k < |words| && IsFillerWord(words[k], fillers)
  }

  /** Counting the hits of two word lists one after the other adds their counts. */
  lemma {:induction false} FillerHitsAppend(a: seq<string>, b: seq<string>, fillers: seq<string>)
    ensures FillerHits(a + b, fillers) == FillerHits(a, fillers) + FillerHits(b, fillers)
    decreases |a|
  {
    if a != [] {
      assert (a + b)[0] == a[0];
      assert (a + b)[1..] == a[1..] + b;
      FillerHitsAppend(a[1..], b, fillers);
    } else {
      assert a + b == b;
    }
  }

  /** The hit count is the number of positions whose stripped word is a configured filler. */
  lemma {:induction false} FillerHitsCountsPositions(words: seq<string>, fillers: seq<string>)
    ensures FillerHits(words, fillers) == |FillerPositions(words, fillers)|
    decreases |words|
  {
    if words != [] {
      var init, last := words[..|words| - 1], words[|words| - 1];
      assert words == init + [last];
      FillerHitsAppend(init, [last], fillers);
      FillerHitsCountsPositions(init, fillers);
      PositionsOfSnoc(words, init, last, fillers);
    }
  }

  /** The positions of `init + [last]` are those of `init`, plus `|init|` when `last` is a filler. */
  lemma PositionsOfSnoc(words: seq<string>, init: seq<string>, last: string, fillers: seq<string>)
    requires words == init + [last]
    ensures |FillerPositions(words, fillers)|
      == |FillerPositions(init, fillers)| + (if IsFillerWord(last, fillers) then 1 else 0)
  {
    PositionsSplit(words, init, last, fillers);
    assert |init| !in FillerPositions(init, fillers);
  }

  lemma PositionsSplit(words: seq<string>, init: seq<string>, last: string, fillers: seq<string>)
    requires words == init + [last]
    ensures FillerPositions(words, fillers)
      == FillerPositions(init, fillers) + (if IsFillerWord(last, fillers) then {|init|} else {})
  {
    var tail: set<int> := if IsFillerWord(last, fillers) then {|init|} else {};
    PositionsShrink(words, init, last, fillers, tail);
    PositionsGrow(words, init, last, fillers, tail);
  }

  lemma PositionsShrink(words: seq<string>, init: seq<string>, last: string, fillers: seq<string>, tail: set<int>)
    requires words == init + [last]
    requires IsFillerWord(last, fillers) ==> tail == {|init|}
    requires !IsFillerWord(last, fillers) ==> tail == {}
    ensures FillerPositions(words, fillers) <= FillerPositions(init, fillers) + tail
  {
    forall k | k in FillerPositions(words, fillers)
      ensures k in FillerPositions(init, fillers) + tail
    {
      if k < |init| { assert words[k] == init[k]; }
    }
  }

  lemma PositionsGrow(words: seq<string>, init: seq<string>, last: string, fillers: seq<string>, tail: set<int>)
    requires words == init + [last]
    requires IsFillerWord(last, fillers) ==> tail == {|init|}
    requires !IsFillerWord(last, fillers) ==> tail == {}
    ensures FillerPositions(init, fillers) + tail <= FillerPositions(words, fillers)
  {
    forall k | k in FillerPositions(init, fillers) + tail
      ensures k in FillerPositions(words, fillers)
    {
      if k < |init| { assert words[k] == init[k]; }
    }
  }

  /** `min(1, 0.5·ratio + 0.05·pauses)`. */
  function MumbleScore(fillerRatio: real, longPauses: nat): (r: real)
    ensures r <= 1.0
    ensures 0.0 <= fillerRatio ==> 0.0 <= r
  {
    Min(1.0, fillerRatio * 0.5 + (longPauses as real) * 0.05)
  }

  datatype TranscriptStats = TranscriptStats(fillerRatio: real, fillerHits: nat, mumbleScore: real)

  /** `hits / max(words, 1)`. */
  function FillerRatio(hits: nat, wordCount: nat): (r: real)
    requires hits <= wordCount
    ensures 0.0 <= r <= 1.0
    ensures wordCount == 0 ==> r == 0.0
    ensures wordCount > 0 ==> r == (hits as real) / (wordCount as real)
  {
    var total := if wordCount > 1 then wordCount else 1;
    RatioBounds(hits as real, total as real);
    (hits as real) / (total as real)
  }

  /**
   * `analyze_transcript_locally`: words are the whitespace-separated runs of the lower-cased
   * text; the ratio divides the filler hits by the word count (at least one); pauses are the
   * non-overlapping "..." in the text.
   */
  function AnalyzeTranscriptLocally(text: string, fillers: seq<string>): (r: TranscriptStats)
    ensures r.fillerHits == |FillerPositions(Text.Words(Text.Lower(text)), fillers)|
    ensures r.fillerHits <= |Text.Words(Text.Lower(text))|
    ensures 0.0 <= r.fillerRatio <= 1.0
    ensures 0.0 <= r.mumbleScore <= 1.0
    ensures |Text.Words(Text.Lower(text))| == 0 ==> r.fillerRatio == 0.0
    ensures |Text.Words(Text.Lower(text))| > 0 ==> r.fillerRatio == (r.fillerHits as real) / (|Text.Words(Text.Lower(text))| as real)
    ensures r.mumbleScore == MumbleScore(r.fillerRatio, Text.CountOccurrences(text, PauseMarker))
  {
    var words := Text.Words(Text.Lower(text));
    var hits := FillerHits(words, fillers);
    FillerHitsCountsPositions(words, fillers);
    var ratio := FillerRatio(hits, |words|);
    TranscriptStats(ratio, hits, MumbleScore(ratio, Text.CountOccurrences(text, PauseMarker)))
  }

  lemma RatioBounds(part: real, whole: real)
    requires 0.0 <= part <= whole && 0.0 < whole
    ensures 0.0 <= part / whole <= 1.0
  {
  }

  /** Empty (or blank) text scores zero everywhere. */
  lemma EmptyTextScoresZero(fillers: seq<string>)
    ensures AnalyzeTranscriptLocally("", fillers) == TranscriptStats(0.0, 0, 0.0)
  {
  }

  /** The mumble score is non-decreasing in both the filler ratio and the pause count. */
  lemma MumbleScoreMonotone(r1: real, r2: real, p1: nat, p2: nat)
    requires r1 <= r2 && p1 <= p2
    ensures MumbleScore(r1, p1) <= MumbleScore(r2, p2)
  {
  }

  /** Pauses do not overlap: four dots are one pause and six dots are two. */
  lemma PausesDoNotOverlap()
    ensures Text.CountOccurrences("....", PauseMarker) == 1
    ensures Text.CountOccurrences("......", PauseMarker) == 2
  {
    assert "...." [3..] == ".";
    assert "......"[3..] == "...";
    assert "..."[3..] == "";
  }

  /** A filler holding whitespace can never equal a stripped word. */
  lemma {:induction false} SpacedFillerNeverCounts(words: seq<string>, fillers: seq<string>, f: string)
    requires forall k :: 0 <= k < |words| ==> Text.NoSpace(words[k])
    requires exists i :: 0 <= i < |f| && Text.IsSpace(f[i])
    ensures FillerHits(words, fillers + [f]) == FillerHits(words, fillers)
    decreases |words|
  {
    if words != [] {
      Text.StripKeepsNoSpace(words[0], WordPunctuation);
      assert Text.Strip(words[0], WordPunctuation) != f;
      assert IsFillerWord(words[0], fillers + [f]) == IsFillerWord(words[0], fillers);
      SpacedFillerNeverCounts(words[1..], fillers, f);
    }
  }

  /** So configuring a multi-word filler such as "you know" changes nothing in the analysis. */
  lemma MultiWordFillerIgnored(text: string, fillers: seq<string>, f: string)
    requires exists i :: 0 <= i < |f| && Text.IsSpace(f[i])
    ensures AnalyzeTranscriptLocally(text, fillers + [f]) == AnalyzeTranscriptLocally(text, fillers)
  {
    SpacedFillerNeverCounts(Text.Words(Text.Lower(text)), fillers, f);
  }

  // ---------------------------------------------------------------- emotions

  /** One emotion entry; either key may be missing. */
  datatype Emotion = Emotion(kind: Option<string>, confidence: Option<real>)

  function ConfidenceOf(e: Emotion): real {
    e.confidence.GetOr(0.0)
  }

  ghost predicate NonNegativeConfidences(emotions: seq<Emotion>) {
    forall i :: 0 <= i < |emotions| ==> 0.0 <= ConfidenceOf(emotions[i])
  }

  /** `_emotion_score`: the confidence of the first entry of the given type, or 0. */
  function EmotionScore(emotions: seq<Emotion>, wanted: string): (r: real)
    ensures (forall i :: 0 <= i < |emotions| ==> emotions[i].kind != Some(wanted)) ==> r == 0.0
    ensures forall k :: 0 <= k < |emotions| && emotions[k].kind == Some(wanted)
                        && (forall j :: 0 <= j < k ==> emotions[j].kind != Some(wanted))
                        ==> r == ConfidenceOf(emotions[k])
    ensures NonNegativeConfidences(emotions) ==> 0.0 <= r
    decreases |emotions|
  {
    if emotions == [] then 0.0
    else if emotions[0].kind == Some(wanted) then ConfidenceOf(emotions[0])
    else
      var r := EmotionScore(emotions[1..], wanted);
      assert forall k :: 1 <= k < |emotions| ==> emotions[k] == emotions[1..][k - 1];
      r
  }

  // ---------------------------------------------------------------- detect_face_sentiment

  /** One face of a still-image detection; `Emotions` may be missing. */
  datatype FaceDetail = FaceDetail(emotions: Option<seq<Emotion>>)

  datatype FaceSentiment = FaceSentiment(engagement: real, positivity: real, anxietyHint: real)

  /**
   * `detect_face_sentiment` from the provider's face list (`None` when no client could be
   * built): only the first face is read.
   */
  function DetectFaceSentiment(details: Option<seq<FaceDetail>>): (r: Option<FaceSentiment>)
    ensures r.Some? <==> details.Some? && details.value != []
    ensures r.Some? ==> r.value.engagement <= 1.0 && r.value.positivity <= 1.0 && r.value.anxietyHint <= 1.0
    ensures r.Some? && NonNegativeConfidences(details.value[0].emotions.GetOr([])) ==>
              0.3 <= r.value.engagement && 0.0 <= r.value.positivity && 0.0 <= r.value.anxietyHint
  {
    if details.None? || details.value == [] then None
    else
      var emotions := details.value[0].emotions.GetOr([]);
      var happiness := EmotionScore(emotions, "HAPPY");
      var calm := EmotionScore(emotions, "CALM");
      var nervous := EmotionScore(emotions, "FEAR") + EmotionScore(emotions, "CONFUSED");
      Some(FaceSentiment(Min(1.0, (happiness + calm) / 200.0 + 0.3), Min(1.0, happiness / 100.0), Min(1.0, nervous / 100.0)))
  }

  // ---------------------------------------------------------------- video emotion aggregation

  datatype FaceRecord = FaceRecord(emotions: Option<seq<Emotion>>)
  /** One entry of a video face-detection result; `Face` may be missing. */
  datatype FaceDetection = FaceDetection(face: Option<FaceRecord>)

  /** Every emotion entry of every face that has both `Face` and `Emotions`, in order. */
  function CollectEmotions(faces: seq<FaceDetection>): seq<Emotion>
    decreases |faces|
  {
    if faces == [] then []
    else
      var own := if faces[0].face.Some? && faces[0].face.value.emotions.Some? then faces[0].face.value.emotions.value else [];
      own + CollectEmotions(faces[1..])
  }

  /** `analyze_video_with_rekognition`'s per-entry sum: `sum(_emotion_score([e], wanted) for e in all)`. */
  function SumScores(all: seq<Emotion>, wanted: string): real
    decreases |all|
  {
    if all == [] then 0.0 else EmotionScore([all[0]], wanted) + SumScores(all[1..], wanted)
  }

  /** Reference: the total confidence of the entries whose type is `wanted`. */
  function SumOfKind(all: seq<Emotion>, wanted: string): (r: real)
    ensures NonNegativeConfidences(all) ==> 0.0 <= r
    decreases |all|
  {
    if all == [] then 0.0
    else (if all[0].kind == Some(wanted) then ConfidenceOf(all[0]) else 0.0) + SumOfKind(all[1..], wanted)
  }

  lemma {:induction false} SumScoresIsSumOfKind(all: seq<Emotion>, wanted: string)
    ensures SumScores(all, wanted) == SumOfKind(all, wanted)
    decreases |all|
  {
    if all != [] {
      SumScoresIsSumOfKind(all[1..], wanted);
    }
  }

  datatype EmotionAverages = EmotionAverages(
    happy: real, calm: real, fear: real, confused: real,
    sad: real, angry: real, surprised: real, disgusted: real)

  /** Reference: each type's total confidence over the number of entries of all types. */
  function ReferenceAverages(all: seq<Emotion>): EmotionAverages
    requires all != []
  {
    var n := |all| as real;
    EmotionAverages(
      SumOfKind(all, "HAPPY") / n, SumOfKind(all, "CALM") / n, SumOfKind(all, "FEAR") / n,
      SumOfKind(all, "CONFUSED") / n, SumOfKind(all, "SAD") / n, SumOfKind(all, "ANGRY") / n,
      SumOfKind(all, "SURPRISED") / n, SumOfKind(all, "DISGUSTED") / n)
  }

  datatype VideoFacialMetrics = VideoFacialMetrics(
    engagement: real, positivity: real, anxietyHint: real, confidence: real, emotions: EmotionAverages)

  /** The composite metrics computed from the averages. */
  function Composite(a: EmotionAverages): (m: VideoFacialMetrics)
    ensures m.emotions == a
    ensures m.engagement <= 1.0 && m.anxietyHint <= 1.0
    ensures 0.0 <= m.positivity <= 1.0 && 0.0 <= m.confidence <= 1.0
    ensures 0.0 <= a.happy && 0.0 <= a.calm && 0.0 <= a.surprised ==> 0.3 <= m.engagement
    ensures 0.0 <= a.fear && 0.0 <= a.confused && 0.0 <= a.sad && 0.0 <= a.angry && 0.0 <= a.disgusted
            ==> 0.0 <= m.anxietyHint
  {
    var nervous := a.fear + a.confused;
    var negative := a.sad + a.angry + a.disgusted;
    VideoFacialMetrics(
      Min(1.0, (a.happy + a.calm + a.surprised * 0.5) / 200.0 + 0.3),
      Min(1.0, Max(0.0, (a.happy - negative * 0.5) / 100.0)),
      Min(1.0, (nervous + negative * 0.3) / 100.0),
      Min(1.0, Max(0.0, (a.calm + a.happy * 0.5 - nervous * 0.5) / 100.0)),
      a)
  }

  /** `analyze_video_with_rekognition`'s average of one type: its per-entry sum over the number of entries. */
  function Average(all: seq<Emotion>, wanted: string): (r: real)
    requires all != []
    ensures r == SumOfKind(all, wanted) / (|all| as real)
    ensures NonNegativeConfidences(all) ==> 0.0 <= r
  {
    SumScoresIsSumOfKind(all, wanted);
    QuotientNonNegative(SumOfKind(all, wanted), |all| as real);
    SumScores(all, wanted) / (|all| as real)
  }

  lemma QuotientNonNegative(a: real, b: real)
    requires 0.0 < b
    ensures 0.0 <= a ==> 0.0 <= a / b
  {
  }

  function AveragesOf(all: seq<Emotion>): (a: EmotionAverages)
    requires all != []
    ensures a == ReferenceAverages(all)
    ensures NonNegativeConfidences(all) ==>
              0.0 <= a.happy && 0.0 <= a.calm && 0.0 <= a.fear && 0.0 <= a.confused
              && 0.0 <= a.sad && 0.0 <= a.angry && 0.0 <= a.surprised && 0.0 <= a.disgusted
  {
    EmotionAverages(
      Average(all, "HAPPY"), Average(all, "CALM"), Average(all, "FEAR"), Average(all, "CONFUSED"),
      Average(all, "SAD"), Average(all, "ANGRY"), Average(all, "SURPRISED"), Average(all, "DISGUSTED"))
  }

  /**
   * The reducer inside `analyze_video_with_rekognition` for a succeeded job: no faces or no
   * emotion entries yield `None`; otherwise the per-type averages and the composite metrics.
   */
  function AggregateFaceDetections(faces: seq<FaceDetection>): (r: Option<VideoFacialMetrics>)
    ensures r.None? <==> CollectEmotions(faces) == []
    ensures faces == [] ==> r.None?
    ensures r.Some? ==> r.value == Composite(ReferenceAverages(CollectEmotions(faces)))
    ensures r.Some? ==> r.value.engagement <= 1.0 && r.value.anxietyHint <= 1.0
                        && 0.0 <= r.value.positivity <= 1.0 && 0.0 <= r.value.confidence <= 1.0
    ensures r.Some? && NonNegativeConfidences(CollectEmotions(faces)) ==>
              0.3 <= r.value.engagement && 0.0 <= r.value.anxietyHint
  {
    if faces == [] then None
    else
      var all := CollectEmotions(faces);
      if all == [] then None else Some(Composite(AveragesOf(all)))
  }
}

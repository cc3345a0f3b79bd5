/**
 * The decision logic around the storage upload and the two long-running provider jobs of the
 * extended analysis: the upload key, the video format gate, the transcription format table
 * and the bounded poll loop.  Every provider call is an oracle: configuration flags, a
 * fresh id, and a per-attempt observation of the job status.
 */
module MediaJobs {
  import opened Wrappers
  import Text
  import AwsProviders

  datatype ServiceError =
    | BucketNotConfigured
    | ClientUnavailable
    | ProviderRaised     // a provider call raised and nothing caught it

  // ---------------------------------------------------------------- upload key

  /** The extension used when the file name has no '.'. */
  const DefaultUploadExtension: string := "webm"

  /** `name.split('.')[-1] if '.' in name else 'webm'`. */
  function UploadExtension(filename: string): (ext: string)
    ensures '.' !in ext
    ensures '.' !in filename ==> ext == DefaultUploadExtension
    ensures '.' in filename ==> |ext| < |filename| && filename == filename[..|filename| - |ext| - 1] + "." + ext
  {
    if '.' in filename then
      var ext := Text.AfterLastDot(filename);
      assert filename == filename[..|filename| - |ext| - 1] + "." + ext;
      ext
    else DefaultUploadExtension
  }

  /** `interviews/<id>.<ext>`. */
  function UploadKey(id: string, filename: string): string {
    "interviews/" + id + "." + UploadExtension(filename)
  }

  /** The extension is recovered from the key: the text after its last '.'. */
  lemma UploadKeyKeepsExtension(id: string, filename: string)
    ensures Text.AfterLastDot(UploadKey(id, filename)) == UploadExtension(filename)
  {
    AfterLastDotOfSuffix("interviews/" + id, UploadExtension(filename));
  }

  lemma {:induction false} AfterLastDotOfSuffix(prefix: string, ext: string)
    requires '.' !in ext
    ensures Text.AfterLastDot(prefix + "." + ext) == ext
    decreases |ext|
  {
    var s := prefix + "." + ext;
    if ext != [] {
      var init := ext[..|ext| - 1];
      assert s[..|s| - 1] == prefix + "." + init;
      assert s[|s| - 1] == ext[|ext| - 1];
      AfterLastDotOfSuffix(prefix, init);
      assert init + [ext[|ext| - 1]] == ext;
    }
  }

  /** Storage configuration and the outcome of the `put_object` call. */
  datatype StorageEnv = StorageEnv(bucketConfigured: bool, clientAvailable: bool, putSucceeds: bool)

  /** `upload_file_to_s3` with the random id supplied. */
  function UploadFileToS3(env: StorageEnv, filename: string, id: string): (r: Result<string, ServiceError>)
    ensures r.Ok? <==> env.bucketConfigured && env.clientAvailable && env.putSucceeds
    ensures !env.bucketConfigured ==> r == Err(BucketNotConfigured)
    ensures r.Ok? ==> r.value == UploadKey(id, filename)
  {
    if !env.bucketConfigured then Err(BucketNotConfigured)
    else if !env.clientAvailable then Err(ClientUnavailable)
    else if !env.putSucceeds then Err(ProviderRaised)
    else Ok(UploadKey(id, filename))
  }

  // ---------------------------------------------------------------- formats

  /** Extensions the face-detection job refuses. */
  const UnsupportedVideoFormats: seq<string> := ["webm", "ogg", "flac", "wav", "mp3"]

  /** Case-insensitive membership in the refused list. */
  predicate RejectedByFaceDetection(extension: string) {
    Text.Lower(extension) in UnsupportedVideoFormats
  }

  const TranscribeFormats: map<string, string> := map[
    "mp3" := "mp3", "mp4" := "mp4", "mov" := "mp4", "wav" := "wav",
    "flac" := "flac", "webm" := "webm", "amr" := "amr", "ogg" := "ogg"]

  /** The media format sent to the transcription job: the table entry of the lower-cased extension, else "mp4". */
  function MediaFormat(extension: string): (r: string)
    ensures r in {"mp3", "mp4", "wav", "flac", "webm", "amr", "ogg"}
    ensures Text.Lower(extension) !in TranscribeFormats ==> r == "mp4"
  {
    var key := Text.Lower(extension);
    if key in TranscribeFormats then TranscribeFormats[key] else "mp4"
  }

  /** The lookup ignores letter case. */
  lemma MediaFormatIgnoresCase(extension: string)
    ensures MediaFormat(extension) == MediaFormat(Text.Lower(extension))
  {
    Text.LowerIdempotent(extension);
  }

  /** Every format the table produces maps to itself, and "mov" is sent as "mp4". */
  lemma MediaFormatFixesTargets()
    ensures forall f :: f in TranscribeFormats.Values ==> MediaFormat(f) == f
    ensures MediaFormat("mov") == "mp4"
  {
    forall f | f in TranscribeFormats.Values
      ensures MediaFormat(f) == f
    {
      assert f in {"mp3", "mp4", "wav", "flac", "webm", "amr", "ogg"};
      assert Text.Lower(f) == f;
    }
    assert Text.Lower("mov") == "mov";
  }

  // ---------------------------------------------------------------- poll loop

  const MaxAttempts: nat := 60
  const InitialInterval: nat := 4
  const SlowInterval: nat := 6
  /** From this attempt on, an IN_PROGRESS status slows the loop down. */
  const SlowdownAttempt: nat := 15
  const FailedStatus: string := "FAILED"
  const InProgressStatus: string := "IN_PROGRESS"

  /** What one status request returned: a status with the job's payload, or an exception. */
  datatype Observation<T> = Observed(status: string, payload: T) | Raised

  datatype PollOutcome<T> = Succeeded(payload: T) | JobFailed | TimedOut | Errored

  /** The outcome, the number of status requests made and the sleeps between them. */
  datatype PollRun<T> = PollRun(outcome: PollOutcome<T>, polls: nat, sleeps: seq<nat>)

  /** An observation that lets the loop go on. */
  ghost predicate Pending<T>(o: Observation<T>, success: string) {
    o.Observed? && o.status != success && o.status != FailedStatus
  }

  /** The observation that ends the loop with `outcome`. */
  ghost predicate Decides<T>(o: Observation<T>, success: string, outcome: PollOutcome<T>) {
    match outcome
    case Succeeded(p) => o == Observed(success, p)
    case JobFailed => o.Observed? && o.status != success && o.status == FailedStatus
    case Errored => o.Raised?
    case TimedOut => false
  }

  /** Attempt `j` slows the loop down. */
  ghost predicate SlowsAt<T>(observe: nat -> Observation<T>, success: string, j: nat) {
    SlowdownAttempt <= j && Pending(observe(j), success) && observe(j).status == InProgressStatus
  }

  ghost predicate SlowedBetween<T>(observe: nat -> Observation<T>, success: string, lo: nat, hi: nat) {
    exists j: nat :: lo <= j <= hi && SlowsAt(observe, success, j)
  }

  /**
   * What the loop promises about a run `r` from `attempt` with sleep `interval`: at most
   * `MaxAttempts` polls in all; a timeout exactly when every remaining poll is pending; any
   * other outcome after pending polls and then the poll that decides it; one sleep after
   * each pending poll, six seconds once an IN_PROGRESS poll at attempt 15 or later has been
   * seen and `interval` before.
   */
  ghost predicate PollFacts<T>(observe: nat -> Observation<T>, success: string, attempt: nat, interval: nat, r: PollRun<T>) {
    && attempt + r.polls <= MaxAttempts
    && (r.outcome.TimedOut? <==> (attempt + r.polls == MaxAttempts
                                  && forall j :: attempt <= j < MaxAttempts ==> Pending(observe(j), success)))
    && (!r.outcome.TimedOut? ==>
          && 1 <= r.polls
          && (forall j :: attempt <= j < attempt + r.polls - 1 ==> Pending(observe(j), success))
          && Decides(observe(attempt + r.polls - 1), success, r.outcome))
    && |r.sleeps| == (if r.outcome.TimedOut? then r.polls else r.polls - 1)
    && (forall i :: 0 <= i < |r.sleeps| ==>
          r.sleeps[i] == if SlowedBetween(observe, success, attempt, attempt + i) then SlowInterval else interval)
  }

  /**
   * The loop from `attempt` on with the current sleep `interval`: a success status returns
   * its payload, FAILED ends it, an exception propagates, any other status sleeps and polls
   * again, at most `MaxAttempts` polls in all.
   */
  function PollFrom<T>(observe: nat -> Observation<T>, success: string, attempt: nat, interval: nat): (r: PollRun<T>)
    requires attempt <= MaxAttempts
    ensures PollFacts(observe, success, attempt, interval, r)
    decreases MaxAttempts - attempt
  {
    if attempt == MaxAttempts then PollRun(TimedOut, 0, [])
    else
      match observe(attempt)
      case Raised => PollRun(Errored, 1, [])
      case Observed(status, payload) =>
        if status == success then PollRun(Succeeded(payload), 1, [])
        else if status == FailedStatus then PollRun(JobFailed, 1, [])
        else
          var next := if status == InProgressStatus && attempt >= SlowdownAttempt then SlowInterval else interval;
          assert Pending(observe(attempt), success);
          assert next == if SlowsAt(observe, success, attempt) then SlowInterval else interval;
          var rest := PollFrom(observe, success, attempt + 1, next);
          var r := PollRun(rest.outcome, rest.polls + 1, [next] + rest.sleeps);
          PollCons(observe, success, attempt, interval, next, rest, r);
          r
  }

  /** A pending poll at `attempt` followed by the rest of the loop. */
  lemma PollCons<T>(observe: nat -> Observation<T>, success: string, attempt: nat, interval: nat, next: nat,
                    rest: PollRun<T>, r: PollRun<T>)
    requires attempt < MaxAttempts && Pending(observe(attempt), success)
    requires next == if SlowsAt(observe, success, attempt) then SlowInterval else interval
    requires PollFacts(observe, success, attempt + 1, next, rest)
    requires r == PollRun(rest.outcome, rest.polls + 1, [next] + rest.sleeps)
    ensures PollFacts(observe, success, attempt, interval, r)
  {
    PollStep(observe, success, attempt, interval, next, rest);
    PollOutcomeStep(observe, success, attempt, rest.outcome, rest.polls);
  }

  /** A pending poll at `attempt` in front of the rest of the loop leaves its outcome in place. */
  lemma PollOutcomeStep<T>(observe: nat -> Observation<T>, success: string, attempt: nat, outcome: PollOutcome<T>, polls: nat)
    requires attempt < MaxAttempts && Pending(observe(attempt), success)
    requires attempt + 1 + polls <= MaxAttempts
    requires outcome.TimedOut? <==> (attempt + 1 + polls == MaxAttempts
                                     && forall j :: attempt + 1 <= j < MaxAttempts ==> Pending(observe(j), success))
    requires !outcome.TimedOut? ==>
               && 1 <= polls
               && (forall j :: attempt + 1 <= j < attempt + 1 + polls - 1 ==> Pending(observe(j), success))
               && Decides(observe(attempt + 1 + polls - 1), success, outcome)
    ensures outcome.TimedOut? <==> (attempt + (polls + 1) == MaxAttempts
                                    && forall j :: attempt <= j < MaxAttempts ==> Pending(observe(j), success))
    ensures !outcome.TimedOut? ==>
              && (forall j :: attempt <= j < attempt + (polls + 1) - 1 ==> Pending(observe(j), success))
              && Decides(observe(attempt + (polls + 1) - 1), success, outcome)
  {
  }

  /** How one pending poll at `attempt` shifts the slow-down condition. */
  lemma PollStep<T>(observe: nat -> Observation<T>, success: string, attempt: nat, interval: nat, next: nat, rest: PollRun<T>)
    requires Pending(observe(attempt), success)
    requires next == if SlowsAt(observe, success, attempt) then SlowInterval else interval
    requires forall i :: 0 <= i < |rest.sleeps| ==>
               rest.sleeps[i] == if SlowedBetween(observe, success, attempt + 1, attempt + 1 + i) then SlowInterval else next
    ensures forall i :: 0 <= i < |[next] + rest.sleeps| ==>
              ([next] + rest.sleeps)[i] == if SlowedBetween(observe, success, attempt, attempt + i) then SlowInterval else interval
  {
    var all := [next] + rest.sleeps;
    forall i | 0 <= i < |all|
      ensures all[i] == if SlowedBetween(observe, success, attempt, attempt + i) then SlowInterval else interval
    {
      if i == 0 {
        if SlowsAt(observe, success, attempt) {
          assert SlowedBetween(observe, success, attempt, attempt);
        }
      } else {
        assert all[i] == rest.sleeps[i - 1];
        if SlowedBetween(observe, success, attempt + 1, attempt + i) {
          var j: nat :| attempt + 1 <= j <= attempt + i && SlowsAt(observe, success, j);
          assert SlowedBetween(observe, success, attempt, attempt + i);
        }
        if SlowedBetween(observe, success, attempt, attempt + i) && !SlowsAt(observe, success, attempt) {
          var j: nat :| attempt <= j <= attempt + i && SlowsAt(observe, success, j);
          assert SlowedBetween(observe, success, attempt + 1, attempt + i);
        }
      }
    }
  }

  /** The loop as both jobs run it: from attempt 0 with a four-second interval. */
  function PollJob<T>(observe: nat -> Observation<T>, success: string): PollRun<T> {
    PollFrom(observe, success, 0, InitialInterval)
  }

  /**
   * The sleep is four seconds until an IN_PROGRESS poll at attempt 15 or later and six
   * seconds from then on; at most 60 polls are made.
   */
  lemma PollSchedule<T>(observe: nat -> Observation<T>, success: string)
    ensures PollJob(observe, success).polls <= MaxAttempts
    ensures forall i :: 0 <= i < |PollJob(observe, success).sleeps| ==>
              PollJob(observe, success).sleeps[i] in {InitialInterval, SlowInterval}
    ensures forall i :: 0 <= i < |PollJob(observe, success).sleeps| && i < SlowdownAttempt ==>
              PollJob(observe, success).sleeps[i] == InitialInterval
    ensures forall i, i' :: 0 <= i <= i' < |PollJob(observe, success).sleeps| ==>
              PollJob(observe, success).sleeps[i] <= PollJob(observe, success).sleeps[i']
  {
    var run := PollJob(observe, success);
    forall i, i' | 0 <= i <= i' < |run.sleeps|
      ensures run.sleeps[i] <= run.sleeps[i']
    {
      if SlowedBetween(observe, success, 0, i) {
        var j: nat :| 0 <= j <= i && SlowsAt(observe, success, j);
        assert SlowedBetween(observe, success, 0, i');
      }
    }
  }

  // ---------------------------------------------------------------- face detection job

  /** Configuration, the job start, and the per-attempt status of a face-detection job. */
  datatype FaceJobEnv = FaceJobEnv(
    bucketConfigured: bool,
    clientAvailable: bool,
    startSucceeds: bool,
    observe: nat -> Observation<seq<AwsProviders.FaceDetection>>)

  const FaceJobSuccess: string := "SUCCEEDED"

  /**
   * `analyze_video_with_rekognition`: every failure, including an exception anywhere in
   * the job, yields `None`; a succeeded job is reduced by the emotion aggregation.
   */
  function AnalyzeVideoWithRekognition(env: FaceJobEnv, extension: string): (r: Option<AwsProviders.VideoFacialMetrics>)
    ensures RejectedByFaceDetection(extension) ==> r.None?
    ensures !env.bucketConfigured || !env.clientAvailable || !env.startSucceeds ==> r.None?
    ensures r.Some? ==> PollJob(env.observe, FaceJobSuccess).outcome.Succeeded?
                        && r == AwsProviders.AggregateFaceDetections(PollJob(env.observe, FaceJobSuccess).outcome.payload)
    ensures env.bucketConfigured && !RejectedByFaceDetection(extension) && env.clientAvailable && env.startSucceeds
            && PollJob(env.observe, FaceJobSuccess).outcome.Succeeded?
            ==> r == AwsProviders.AggregateFaceDetections(PollJob(env.observe, FaceJobSuccess).outcome.payload)
  {
    if !env.bucketConfigured then None
    else if RejectedByFaceDetection(extension) then None
    else if !env.clientAvailable then None
    else if !env.startSucceeds then None
    else
      match PollJob(env.observe, FaceJobSuccess).outcome
      case Succeeded(faces) => AwsProviders.AggregateFaceDetections(faces)
      case _ => None
  }

  /** A refused extension, in any letter case, stops before the job starts. */
  lemma WebmNeverAnalyzed(env: FaceJobEnv, ext: string)
    requires Text.Lower(ext) == "webm"
    ensures AnalyzeVideoWithRekognition(env, ext).None?
  {
  }

  // ---------------------------------------------------------------- transcription job

  datatype TranscriptionResult = TranscriptionResult(status: string, transcriptUri: string)

  /**
   * Configuration, the job start (which sees the media format) and the per-attempt status of a
   * transcription job; the payload of a status is the transcript URI.
   */
  datatype TranscribeEnv = TranscribeEnv(
    bucketConfigured: bool,
    clientAvailable: bool,
    startSucceeds: string -> bool,
    observe: nat -> Observation<string>)

  const TranscriptionSuccess: string := "COMPLETED"

  /**
   * `transcribe_audio_from_s3`: missing configuration yields `None`; nothing here catches
   * exceptions, so a raising start or status call propagates.
   */
  function TranscribeAudioFromS3(env: TranscribeEnv, extension: string): (r: Result<Option<TranscriptionResult>, ServiceError>)
    ensures !env.bucketConfigured || !env.clientAvailable ==> r == Ok(None)
    ensures r.Err? <==> (env.bucketConfigured && env.clientAvailable
                         && (!env.startSucceeds(MediaFormat(extension)) || PollJob(env.observe, TranscriptionSuccess).outcome.Errored?))
    ensures (r.Ok? && r.value.Some?) <==> (env.bucketConfigured && env.clientAvailable && env.startSucceeds(MediaFormat(extension))
                                         && PollJob(env.observe, TranscriptionSuccess).outcome.Succeeded?)
    ensures r.Ok? && r.value.Some? ==> r.value.value == TranscriptionResult(TranscriptionSuccess, PollJob(env.observe, TranscriptionSuccess).outcome.payload)
  {
    if !env.bucketConfigured then Ok(None)
    else if !env.clientAvailable then Ok(None)
    else if !env.startSucceeds(MediaFormat(extension)) then Err(ProviderRaised)
    else
      match PollJob(env.observe, TranscriptionSuccess).outcome
      case Succeeded(uri) => Ok(Some(TranscriptionResult(TranscriptionSuccess, uri)))
      case JobFailed => Ok(None)
      case TimedOut => Ok(None)
      case Errored => Err(ProviderRaised)
  }
}

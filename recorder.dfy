/** Match recording and video loading (src/contexts/VideoContext.tsx).

    The recorder keeps the non-empty chunks it receives; when it stops, the
    chunks become one blob that is uploaded (at most three attempts, waiting
    1000·k ms after the k-th failure) and linked to the match, and the buffer
    and current match are reset whatever happened. Loading the filler video
    retries after each failure while fewer than three retries were made. Media
    objects are left out: a chunk is its size, and each upload or load attempt
    succeeds or fails as an oracle sequence says. */
module Recorder {
  import opened Common

  /** `MAX_RETRIES`: the number of upload attempts, and of load retries. */
  const MaxRetries := 3
  const LoadRetryDelayMs := 2000
  const UploadedMsg := "Recording uploaded successfully"
  const UploadFailedMsg := "Failed to upload recording"
  const SavedMsg := "Recording saved successfully"
  const SaveFailedMsg := "Failed to save recording"
  const EmptyMsg := "Recording failed: empty video or missing match ID"

  datatype Toast = Success(message: string) | Failure(message: string)

  /** `MediaRecorder.state`. */
  datatype RecorderState = Inactive | Recording | Paused

  /** Whether attempt `i` succeeds; attempts past the end of the oracle fail. */
  predicate Succeeds(outcomes: seq<bool>, i: nat)
  {
    i < |outcomes| && outcomes[i]
  }

  /** The first successful attempt among the first `limit`, if any. */
  function FirstSuccess(outcomes: seq<bool>, from: nat, limit: nat): (r: Option<nat>)
    ensures r.Some? ==> from <= r.value < limit && Succeeds(outcomes, r.value)
    ensures r.Some? ==> forall j :: from <= j < r.value ==> !Succeeds(outcomes, j)
    ensures r.None? ==> forall j :: from <= j < limit ==> !Succeeds(outcomes, j)
    decreases limit - from
  {
    if from >= limit then None
    else if Succeeds(outcomes, from) then Some(from)
    else FirstSuccess(outcomes, from + 1, limit)
  }

  /** The waits after the first `n` failed attempts: 1000, 2000, ... */
  function Waits(n: nat): (r: seq<nat>)
    ensures |r| == n && forall k :: 0 <= k < n ==> r[k] == 1000 * (k + 1)
  {
    seq(n, k requires 0 <= k < n => 1000 * (k + 1))
  }

  /** The storage path `<userId>/<uuid>.webm`. */
  function RecordingPath(userId: string, fileId: string): string
  {
    userId + "/" + fileId + ".webm"
  }

  /** `uploadRecording(blob)`: `publicBase` stands for the bucket's public URL prefix. */
  method UploadRecording(userId: Option<string>, fileId: string, publicBase: string, outcomes: seq<bool>)
    returns (url: Option<string>, attempts: nat, waits: seq<nat>, toasts: seq<Toast>)
    ensures attempts <= MaxRetries
    ensures userId.None? ==> url.None? && attempts == 0 && waits == [] && toasts == []
    ensures userId.Some? ==> match FirstSuccess(outcomes, 0, MaxRetries)
      case Some(i) =>
        && url == Some(publicBase + RecordingPath(userId.value, fileId)) && attempts == i + 1
        && waits == Waits(i) && toasts == [Success(UploadedMsg)]
      case None =>
        url.None? && attempts == MaxRetries && waits == Waits(MaxRetries - 1) && toasts == [Failure(UploadFailedMsg)]
  {
    if userId.None? {
      return None, 0, [], [];
    }
    var fileName := RecordingPath(userId.value, fileId);
    var attempt := 0;
    waits := [];
    while attempt < MaxRetries
      invariant 0 <= attempt <= MaxRetries
      invariant waits == Waits(if attempt < MaxRetries then attempt else MaxRetries - 1)
      invariant FirstSuccess(outcomes, 0, MaxRetries) == FirstSuccess(outcomes, attempt, MaxRetries)
      decreases MaxRetries - attempt
    {
      if Succeeds(outcomes, attempt) {
        return Some(publicBase + fileName), attempt + 1, waits, [Success(UploadedMsg)];
      }
      attempt := attempt + 1;
      if attempt < MaxRetries {
        waits := waits + [1000 * attempt];
      }
    }
    return None, attempt, waits, [Failure(UploadFailedMsg)];
  }

  /** The result of `loadVideo(url, retryCount)`: the attempt whose stream is returned (or
      none), how many attempts were made and how long the retries waited in total. */
  datatype LoadResult = LoadResult(stream: Option<nat>, attempts: nat, waitedMs: nat)

  /** `loadVideo`: an attempt that fails (error, timeout or refused playback) is retried
      after 2000 ms while `retryCount < MAX_RETRIES`; after that the result is null. */
  function LoadVideo(outcomes: seq<bool>, retryCount: nat): (r: LoadResult)
    requires retryCount <= MaxRetries
    ensures 1 <= r.attempts <= MaxRetries + 1 - retryCount
    ensures r.waitedMs == LoadRetryDelayMs * (r.attempts - 1)
    ensures r.stream == FirstSuccess(outcomes, retryCount, MaxRetries + 1)
    ensures r.stream.Some? ==> r.stream.value == retryCount + r.attempts - 1
    ensures r.stream.None? ==> r.attempts == MaxRetries + 1 - retryCount
    decreases MaxRetries - retryCount
  {
    if Succeeds(outcomes, retryCount) then LoadResult(Some(retryCount), 1, 0)
    else if retryCount < MaxRetries then
      var next := LoadVideo(outcomes, retryCount + 1);
      LoadResult(next.stream, next.attempts + 1, next.waitedMs + LoadRetryDelayMs)
    else LoadResult(None, 1, 0)
  }

  /** From a first call, loading makes at most four attempts and gives up only after four failures. */
  lemma LoadAtMostFour(outcomes: seq<bool>)
    ensures LoadVideo(outcomes, 0).attempts <= 4
    ensures LoadVideo(outcomes, 0).stream.None? <==> forall j :: 0 <= j < 4 ==> !Succeeds(outcomes, j)
  {
  }

  /** The byte size of a blob made of chunks. */
  function Total(chunks: seq<nat>): nat
  {
    if chunks == [] then 0 else chunks[0] + Total(chunks[1..])
  }

  /** A buffer of non-empty chunks makes a non-empty blob exactly when it has a chunk. */
  lemma {:induction false} TotalPositive(chunks: seq<nat>)
    requires forall i :: 0 <= i < |chunks| ==> chunks[i] > 0
    ensures Total(chunks) > 0 <==> chunks != []
  {
    if chunks != [] {
      assert chunks[0] > 0;
    }
  }

  lemma {:induction false} TotalAppend(chunks: seq<nat>, c: nat)
    ensures Total(chunks + [c]) == Total(chunks) + c
    decreases |chunks|
  {
    if chunks == [] {
      assert [c][1..] == [];
    } else {
      assert (chunks + [c])[1..] == chunks[1..] + [c];
      TotalAppend(chunks[1..], c);
    }
  }

  class RecordingSession {
    /** `chunksRef`: the sizes of the kept chunks. */
    var chunks: seq<nat>
    /** `currentMatchIdRef`. */
    var currentMatchId: Option<string>
    var isRecording: bool
    /** `animationFrameRef`: the pending compositing frame. */
    var animationFrame: Option<nat>
    /** `mediaRecorderRef`: absent before the first recording. */
    var recorder: Option<RecorderState>
    /** Whether `stop()` was called and the recorder's `onstop` is still due. */
    var stopPending: bool
    var audioContextOpen: bool
    /** The `video_url` column of `matches`, by match id. */
    var videoUrls: map<string, Option<string>>
    var toasts: seq<Toast>

    ghost predicate Valid()
      reads this
    {
      forall i :: 0 <= i < |chunks| ==> chunks[i] > 0
    }

    constructor (matches: map<string, Option<string>>)
      ensures Valid()
      ensures chunks == [] && currentMatchId.None? && !isRecording && animationFrame.None? && recorder.None?
      ensures !stopPending && !audioContextOpen && videoUrls == matches && toasts == []
    {
      chunks, currentMatchId, isRecording, animationFrame, recorder := [], None, false, None, None;
      stopPending, audioContextOpen, videoUrls, toasts := false, false, matches, [];
    }

    /** `ondataavailable`: only a chunk with data is kept. */
    method OnDataAvailable(size: nat)
      requires Valid()
      modifies this
      ensures Valid()
      ensures chunks == (if size > 0 then old(chunks) + [size] else old(chunks))
      ensures Total(chunks) == Total(old(chunks)) + size
      ensures currentMatchId == old(currentMatchId) && isRecording == old(isRecording) && recorder == old(recorder)
      ensures toasts == old(toasts) && videoUrls == old(videoUrls)
    {
      TotalAppend(chunks, size);
      if size > 0 {
        chunks := chunks + [size];
      }
    }

    /** `onstop`: upload a non-empty blob of a known match, link it, and reset the buffer in every case. */
    method OnStop(userId: Option<string>, fileId: string, publicBase: string, outcomes: seq<bool>, updateFails: bool)
      requires Valid()
      modifies this
      ensures Valid()
      ensures chunks == [] && currentMatchId.None? && !audioContextOpen && !stopPending
      ensures isRecording == old(isRecording) && recorder == old(recorder) && animationFrame == old(animationFrame)
      ensures old(chunks) == [] || old(currentMatchId).None? || old(currentMatchId).value == "" ==>
                videoUrls == old(videoUrls) && toasts == old(toasts) + [Failure(EmptyMsg)]
      ensures old(chunks) != [] && old(currentMatchId).Some? && old(currentMatchId).value != "" ==>
        var id := old(currentMatchId).value;
        var up := FirstSuccess(outcomes, 0, MaxRetries);
        && (userId.None? ==> videoUrls == old(videoUrls) && toasts == old(toasts) + [Failure(UploadFailedMsg)])
        && (userId.Some? && up.None? ==>
              videoUrls == old(videoUrls) && toasts == old(toasts) + [Failure(UploadFailedMsg), Failure(UploadFailedMsg)])
        && (userId.Some? && up.Some? && (updateFails || id !in old(videoUrls)) ==>
              videoUrls == old(videoUrls) && toasts == old(toasts) + [Success(UploadedMsg), Failure(SaveFailedMsg)])
        && (userId.Some? && up.Some? && !updateFails && id in old(videoUrls) ==>
              && videoUrls == old(videoUrls)[id := Some(publicBase + RecordingPath(userId.value, fileId))]
              && toasts == old(toasts) + [Success(UploadedMsg), Success(SavedMsg)])
    {
      TotalPositive(chunks);
      var matchId := currentMatchId;
      if Total(chunks) > 0 && matchId.Some? && matchId.value != "" {
        Save(matchId.value, userId, fileId, publicBase, outcomes, updateFails);
      } else {
        toasts := toasts + [Failure(EmptyMsg)];
      }
      chunks := [];
      currentMatchId := None;
      audioContextOpen := false;
      stopPending := false;
    }

    /** The upload and the `video_url` update for match `id`. */
    method Save(id: string, userId: Option<string>, fileId: string, publicBase: string, outcomes: seq<bool>, updateFails: bool)
      modifies this`videoUrls, this`toasts
      ensures var up := FirstSuccess(outcomes, 0, MaxRetries);
        && (userId.None? ==> videoUrls == old(videoUrls) && toasts == old(toasts) + [Failure(UploadFailedMsg)])
        && (userId.Some? && up.None? ==>
              videoUrls == old(videoUrls) && toasts == old(toasts) + [Failure(UploadFailedMsg), Failure(UploadFailedMsg)])
        && (userId.Some? && up.Some? && (updateFails || id !in old(videoUrls)) ==>
              videoUrls == old(videoUrls) && toasts == old(toasts) + [Success(UploadedMsg), Failure(SaveFailedMsg)])
        && (userId.Some? && up.Some? && !updateFails && id in old(videoUrls) ==>
              && videoUrls == old(videoUrls)[id := Some(publicBase + RecordingPath(userId.value, fileId))]
              && toasts == old(toasts) + [Success(UploadedMsg), Success(SavedMsg)])
    {
      var url, _, _, uploadToasts := UploadRecording(userId, fileId, publicBase, outcomes);
      toasts := toasts + uploadToasts;
      if url.Some? {
        if updateFails || id !in videoUrls {
          toasts := toasts + [Failure(SaveFailedMsg)];
        } else {
          videoUrls := videoUrls[id := url];
          toasts := toasts + [Success(SavedMsg)];
        }
      } else {
        toasts := toasts + [Failure(UploadFailedMsg)];
      }
    }

    /** `stopRecording()`: a no-op unless recording; otherwise cancel the frame,
        stop a recorder that is not inactive, and clear the flag. */
    method StopRecording()
      requires Valid()
      modifies this
      ensures Valid()
      ensures !old(isRecording) ==> isRecording == old(isRecording) && animationFrame == old(animationFrame)
                                    && recorder == old(recorder) && stopPending == old(stopPending)
      ensures old(isRecording) ==> !isRecording && animationFrame.None?
      ensures old(isRecording) && old(recorder).Some? && old(recorder).value != Inactive ==> recorder == Some(Inactive) && stopPending
      ensures old(isRecording) && (old(recorder).None? || old(recorder).value == Inactive) ==>
                recorder == old(recorder) && stopPending == old(stopPending)
      ensures chunks == old(chunks) && currentMatchId == old(currentMatchId) && toasts == old(toasts) && videoUrls == old(videoUrls)
    {
      if !isRecording {
        return;
      }
      animationFrame := None;
      if recorder.Some? && recorder.value != Inactive {
        recorder := Some(Inactive);
        stopPending := true;
      }
      isRecording := false;
    }
  }
}

/**
 * `fetch_transcript_for_video`: up to `max_retries + 1` attempts, each of
 * which extracts the video id and asks the transcript service for the
 * caption fragments; a fixed two-second sleep follows every failed attempt
 * but the last, and the first success returns at once. The service is an
 * oracle indexed by video id and attempt number, and the sleeps are recorded
 * instead of slept.
 */
module Transcript {
  import opened Wrappers
  import Text
  import VideoId

  /** One entry of the trending list, as the pipeline passes it on. */
  datatype VideoData = VideoData(link: string, title: string)

  /** What one call of the transcript service does: return caption texts or raise. */
  datatype FetchOutcome = Fetched(fragments: seq<string>) | FetchRaised(message: string)

  /** The transcript service, answering for a video id at a given attempt number. */
  type TranscriptApi = (string, nat) -> FetchOutcome

  /** The two dictionary shapes the function returns. */
  datatype TranscriptRecord =
    | Succeeded(title: string, videoUrl: string, videoId: string, transcript: string)
    | Failed(title: string, videoUrl: string, videoId: string, error: string)
  {
    /** The "status" entry. */
    function Status(): string
    {
      if Succeeded? then "Success" else "Failed"
    }
  }

  /** What one pass through the `try` block gives: an id and a transcript, or the raised message. */
  datatype AttemptResult = Got(videoId: string, transcript: string) | Threw(message: string)

  const DefaultMaxRetries: nat := 3
  const RetryDelaySeconds: nat := 2
  const UnknownVideoId := "unknown"
  const AllFailedPrefix := "All attempts failed. Last error: "

  /**
   * `" ".join(texts).replace('\n', ' ')`: the same length as the joined
   * text, with every newline turned into a space and every other character
   * kept, so no newline is left.
   */
  function JoinTranscript(fragments: seq<string>): (t: string)
    ensures |t| == |Text.Join(" ", fragments)|
    ensures forall i :: 0 <= i < |t| ==>
              t[i] == (if Text.Join(" ", fragments)[i] == '\n' then ' ' else Text.Join(" ", fragments)[i])
    ensures '\n' !in t
  {
    Text.ReplaceChar(Text.Join(" ", fragments), '\n', ' ')
  }

  /**
   * The body of the `try` at attempt `attempt`, given what `extract_video_id`
   * gives for the URL (the same at every attempt): the ValueError, or the
   * service's answer for the id. It gets through exactly when the id was
   * extracted and the service returned captions, and then carries that id
   * and a newline-free transcript.
   */
  function TryOnce(extracted: Result<string, string>, api: TranscriptApi, attempt: nat): (r: AttemptResult)
    ensures r.Got? <==> extracted.Success? && api(extracted.value, attempt).Fetched?
    ensures r.Got? ==> r.videoId == extracted.value && r.transcript == JoinTranscript(api(extracted.value, attempt).fragments)
    ensures extracted.Failure? ==> r == Threw(extracted.error)
    ensures extracted.Success? && api(extracted.value, attempt).FetchRaised? ==> r == Threw(api(extracted.value, attempt).message)
  {
    match extracted
    case Failure(e) => Threw(e)
    case Success(id) =>
      match api(id, attempt)
      case Fetched(fragments) => Got(id, JoinTranscript(fragments))
      case FetchRaised(m) => Threw(m)
  }

  /** The first attempt number in `from..last` whose `try` body does not raise. */
  function FirstSuccess(extracted: Result<string, string>, api: TranscriptApi, from: nat, last: nat): (r: Option<nat>)
    ensures r.Some? ==> from <= r.value <= last && TryOnce(extracted, api, r.value).Got?
    ensures forall a :: from <= a <= last && (r.None? || a < r.value) ==> TryOnce(extracted, api, a).Threw?
    decreases last + 1 - from
  {
    if from > last then None
    else if TryOnce(extracted, api, from).Got? then Some(from)
    else FirstSuccess(extracted, api, from + 1, last)
  }

  /**
   * The record `fetch_transcript_for_video` returns, attempt by attempt: title
   * and URL copied, and on failure the id "unknown" and an error starting
   * "All attempts failed. Last error: ". `TranscriptRecordShape` says when
   * each shape occurs.
   */
  function TranscriptFor(video: VideoData, maxRetries: nat, api: TranscriptApi): (r: TranscriptRecord)
    ensures r.title == video.title && r.videoUrl == video.link
    ensures r.Failed? ==> r.videoId == UnknownVideoId && AllFailedPrefix <= r.error
  {
    var extracted := VideoId.ExtractVideoId(video.link);
    match FirstSuccess(extracted, api, 0, maxRetries)
    case Some(a) =>
      var got := TryOnce(extracted, api, a);
      Succeeded(video.title, video.link, got.videoId, got.transcript)
    case None =>
      Failed(video.title, video.link, UnknownVideoId, AllFailedPrefix + TryOnce(extracted, api, maxRetries).message)
  }

  /**
   * The two record shapes. The record succeeds iff some attempt up to
   * `maxRetries` succeeds, and then carries the extracted, non-empty id and
   * a newline-free transcript; otherwise its id is "unknown" and its error
   * names the last attempt's exception. Title and URL are copied in both.
   */
  lemma {:induction false} TranscriptRecordShape(video: VideoData, maxRetries: nat, api: TranscriptApi)
    ensures var r := TranscriptFor(video, maxRetries, api);
      && r.title == video.title && r.videoUrl == video.link
      && (r.Succeeded? <==> exists a :: 0 <= a <= maxRetries && TryOnce(VideoId.ExtractVideoId(video.link), api, a).Got?)
      && (r.Succeeded? ==> VideoId.ExtractVideoId(video.link) == Success(r.videoId) && |r.videoId| > 0)
      && (r.Succeeded? ==> '\n' !in r.transcript)
      && (r.Succeeded? ==>
            exists a :: 0 <= a <= maxRetries && FirstSuccess(VideoId.ExtractVideoId(video.link), api, 0, maxRetries) == Some(a)
                        && r.transcript == JoinTranscript(api(r.videoId, a).fragments))
      && (r.Failed? ==> r.videoId == UnknownVideoId)
      && (r.Failed? ==>
            r.error == AllFailedPrefix + TryOnce(VideoId.ExtractVideoId(video.link), api, maxRetries).message)
  {
    var extracted := VideoId.ExtractVideoId(video.link);
    match FirstSuccess(extracted, api, 0, maxRetries)
    case Some(a) =>
    case None =>
      assert TryOnce(extracted, api, maxRetries).Threw?;
  }

  /**
   * An unparseable URL raises on every attempt, so the record is the Failed
   * shape carrying the ValueError's message, after all attempts.
   */
  lemma {:induction false} BadUrlFails(video: VideoData, maxRetries: nat, api: TranscriptApi)
    requires VideoId.ExtractVideoId(video.link).Failure?
    ensures TranscriptFor(video, maxRetries, api)
         == Failed(video.title, video.link, UnknownVideoId, AllFailedPrefix + VideoId.InvalidUrlMessage + video.link)
    ensures AttemptCount(video.link, maxRetries, api) == maxRetries + 1
  {
    assert FirstSuccess(VideoId.ExtractVideoId(video.link), api, 0, maxRetries).None?;
  }

  /** How many attempts the loop makes: up to the first success, or all `maxRetries + 1`. */
  function AttemptCount(url: string, maxRetries: nat, api: TranscriptApi): (n: nat)
    ensures 1 <= n <= maxRetries + 1
  {
    match FirstSuccess(VideoId.ExtractVideoId(url), api, 0, maxRetries)
    case Some(a) => a + 1
    case None => maxRetries + 1
  }

  /** `n` sleeps of the fixed retry delay. */
  function Delays(n: nat): (d: seq<nat>)
    ensures |d| == n
    ensures forall i :: 0 <= i < n ==> d[i] == RetryDelaySeconds
  {
    if n == 0 then [] else Delays(n - 1) + [RetryDelaySeconds]
  }

  /**
   * The retry loop. It returns the record `TranscriptFor` describes, makes
   * `AttemptCount` attempts and sleeps once between consecutive attempts,
   * never after the last.
   */
  method FetchTranscriptForVideo(video: VideoData, maxRetries: nat, api: TranscriptApi)
    returns (record: TranscriptRecord, attempts: nat, sleeps: seq<nat>)
    ensures record == TranscriptFor(video, maxRetries, api)
    ensures attempts == AttemptCount(video.link, maxRetries, api)
    ensures sleeps == Delays(attempts - 1)
  {
    var url, title := video.link, video.title;
    ghost var idOrError := VideoId.ExtractVideoId(url);
    var lastError := "None";
    sleeps := [];
    for attempt := 0 to maxRetries + 1
      invariant forall a :: 0 <= a < attempt ==> TryOnce(idOrError, api, a).Threw?
      invariant attempt > 0 ==> lastError == TryOnce(idOrError, api, attempt - 1).message
      invariant sleeps == Delays(if attempt <= maxRetries then attempt else maxRetries)
    {
      var extracted := VideoId.ExtractVideoId(url);
      if extracted.Success? {
        var fetched := api(extracted.value, attempt);
        if fetched.Fetched? {
          var transcriptText := JoinTranscript(fetched.fragments);
          record := Succeeded(title, url, extracted.value, transcriptText);
          attempts := attempt + 1;
          assert TryOnce(idOrError, api, attempt) == Got(extracted.value, transcriptText);
          SucceedsAt(video, maxRetries, api, attempt);
          return;
        }
        lastError := fetched.message;
      } else {
        lastError := extracted.error;
      }
      if attempt < maxRetries {
        sleeps := sleeps + [RetryDelaySeconds];
      }
    }
    record := Failed(title, url, UnknownVideoId, AllFailedPrefix + lastError);
    attempts := maxRetries + 1;
    FailsThroughout(video, maxRetries, api);
  }

  /** The loop returning at attempt `a`, after `a` failures, agrees with the specification. */
  lemma SucceedsAt(video: VideoData, maxRetries: nat, api: TranscriptApi, a: nat)
    requires a <= maxRetries
    requires forall b :: 0 <= b < a ==> TryOnce(VideoId.ExtractVideoId(video.link), api, b).Threw?
    requires TryOnce(VideoId.ExtractVideoId(video.link), api, a).Got?
    ensures var got := TryOnce(VideoId.ExtractVideoId(video.link), api, a);
            TranscriptFor(video, maxRetries, api) == Succeeded(video.title, video.link, got.videoId, got.transcript)
    ensures AttemptCount(video.link, maxRetries, api) == a + 1
  {
    assert FirstSuccess(VideoId.ExtractVideoId(video.link), api, 0, maxRetries) == Some(a);
  }

  /** The loop running out of attempts agrees with the specification. */
  lemma FailsThroughout(video: VideoData, maxRetries: nat, api: TranscriptApi)
    requires forall b :: 0 <= b <= maxRetries ==> TryOnce(VideoId.ExtractVideoId(video.link), api, b).Threw?
    ensures TranscriptFor(video, maxRetries, api)
         == Failed(video.title, video.link, UnknownVideoId,
                   AllFailedPrefix + TryOnce(VideoId.ExtractVideoId(video.link), api, maxRetries).message)
    ensures AttemptCount(video.link, maxRetries, api) == maxRetries + 1
  {
    assert FirstSuccess(VideoId.ExtractVideoId(video.link), api, 0, maxRetries).None?;
  }

  /** With the default `max_retries=3` a video is tried at most four times and slept on at most three times. */
  lemma DefaultRetryBound(url: string, api: TranscriptApi)
    ensures AttemptCount(url, DefaultMaxRetries, api) <= 4
    ensures |Delays(AttemptCount(url, DefaultMaxRetries, api) - 1)| <= 3
  {
  }
}

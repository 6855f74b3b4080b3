/**
 * The YouTube pipeline: keep the trending entries that have both a link and
 * a title, fetch each one's transcript, ask the model about each result
 * (transcript prompt or title-only prompt), and pair every result with its
 * analysis, in input order. The trending request is a parameter; the thread
 * pool and the semaphore are sequential maps here, since `asyncio.gather`
 * returns results in input order.
 */
module YoutubeAnalyzer {
  import opened Wrappers
  import Text
  import opened Analysis
  import opened Transcript

  /**
   * The prompt `analyze_transcript_with_openai` sends: the transcript prompt,
   * with at most the first 15000 characters, iff the status is "Success" and
   * the transcript is non-empty; the title-only prompt otherwise.
   */
  function TranscriptPromptFor(t: TranscriptRecord): (p: Prompt)
    ensures p.TranscriptPrompt? || p.TitleOnlyPrompt?
    ensures p.title == t.title
    ensures p.TranscriptPrompt? <==> t.Status() == "Success" && t.transcript != ""
    ensures p.TranscriptPrompt? ==>
              && |p.content| == (if |t.transcript| <= MaxContentLength then |t.transcript| else MaxContentLength)
              && p.content == t.transcript[..|p.content|]
  {
    if t.Status() == "Success" && t.transcript != "" then
      TranscriptPrompt(t.title, Text.Take(t.transcript, MaxContentLength))
    else
      TitleOnlyPrompt(t.title)
  }

  /**
   * `analyze_transcript_with_openai`: the model's answer to that prompt, or
   * the sentinel when the call raises; it never raises itself.
   */
  function AnalyzeTranscript(t: TranscriptRecord, llm: Llm): (a: Analysis)
    ensures llm(TranscriptPromptFor(t)).Raised? ==> a == Sentinel
    ensures llm(TranscriptPromptFor(t)).Answered? ==> a == llm(TranscriptPromptFor(t)).analysis
  {
    Ask(llm, TranscriptPromptFor(t))
  }

  /** One element of `data['trending']`; a missing key is None. */
  datatype TrendingEntry = TrendingEntry(link: Option<string>, title: Option<string>)

  /** The trends request: it raised, or it returned the `trending` list (a missing key is the empty list). */
  datatype TrendingResponse = RequestFailed(message: string) | Trending(entries: seq<TrendingEntry>)

  /** A transcript result with `llm_analysis` added. */
  datatype ReportItem = ReportItem(result: TranscriptRecord, llmAnalysis: Analysis)

  /** What `run_youtube_analysis_pipeline` returns: None, [], or `{"final_report": [...]}`. */
  datatype PipelineResult = NoResult | EmptyList | FinalReport(finalReport: seq<ReportItem>)

  predicate IsProcessable(e: TrendingEntry)
  {
    Text.IsTruthy(e.link) && Text.IsTruthy(e.title)
  }

  function VideoOf(e: TrendingEntry): VideoData
    requires IsProcessable(e)
  {
    VideoData(e.link.value, e.title.value)
  }

  /**
   * `videos_to_process`: every entry with a truthy link and title, and no
   * other, as a video.
   */
  function SelectVideos(entries: seq<TrendingEntry>): (videos: seq<VideoData>)
    ensures |videos| <= |entries|
    ensures forall e :: e in entries && IsProcessable(e) ==> VideoOf(e) in videos
    ensures forall v :: v in videos ==> exists e :: e in entries && IsProcessable(e) && v == VideoOf(e)
  {
    if entries == [] then []
    else
      var init, e := entries[..|entries| - 1], entries[|entries| - 1];
      assert entries == init + [e];
      SelectVideos(init) + (if IsProcessable(e) then [VideoOf(e)] else [])
  }

  /** Selection keeps the entries' order: selecting from a concatenation concatenates the selections. */
  lemma {:induction false} SelectVideosAppend(a: seq<TrendingEntry>, b: seq<TrendingEntry>)
    ensures SelectVideos(a + b) == SelectVideos(a) + SelectVideos(b)
    decreases |b|
  {
    if b == [] {
      assert a + b == a;
    } else {
      var init, e := b[..|b| - 1], b[|b| - 1];
      assert (a + b)[..|a + b| - 1] == a + init;
      assert (a + b)[|a + b| - 1] == e;
      SelectVideosAppend(a, init);
    }
  }

  /**
   * The transcript stage: one `fetch_transcript_for_video` per video with the
   * default three retries, results in input order.
   */
  method FetchTranscripts(videos: seq<VideoData>, api: TranscriptApi) returns (results: seq<TranscriptRecord>)
    ensures |results| == |videos|
    ensures forall i :: 0 <= i < |videos| ==> results[i] == TranscriptFor(videos[i], DefaultMaxRetries, api)
  {
    ghost var expected := seq(|videos|, j requires 0 <= j < |videos| => TranscriptFor(videos[j], DefaultMaxRetries, api));
    results := [];
    for i := 0 to |videos|
      invariant results == expected[..i]
    {
      var record, _, _ := FetchTranscriptForVideo(videos[i], DefaultMaxRetries, api);
      assert expected[i] == record;
      assert expected[..i + 1] == expected[..i] + [expected[i]];
      results := results + [record];
    }
    assert expected[..|videos|] == expected;
  }

  /** The `final_report_data` loop: entry i is result i with `llm_analysis = analyses[i]`. */
  method AssembleReport(results: seq<TranscriptRecord>, analyses: seq<Analysis>) returns (report: seq<ReportItem>)
    requires |analyses| == |results|
    ensures |report| == |results|
    ensures forall i :: 0 <= i < |results| ==> report[i].result == results[i] && report[i].llmAnalysis == analyses[i]
  {
    report := [];
    for i := 0 to |results|
      invariant |report| == i
      invariant forall j :: 0 <= j < i ==> report[j].result == results[j] && report[j].llmAnalysis == analyses[j]
    {
      var combined := ReportItem(results[i], analyses[i]);
      report := report + [combined];
    }
  }

  /** `report` holds, for every video in order, its transcript result and the analysis of that result. */
  predicate IsReportFor(report: seq<ReportItem>, videos: seq<VideoData>, api: TranscriptApi, llm: Llm)
  {
    && |report| == |videos|
    && forall i :: 0 <= i < |videos| ==>
         && report[i].result == TranscriptFor(videos[i], DefaultMaxRetries, api)
         && report[i].llmAnalysis == AnalyzeTranscript(report[i].result, llm)
  }

  /** Both stages and the final loop, shared by the two YouTube pipelines. */
  method BuildReport(videos: seq<VideoData>, api: TranscriptApi, llm: Llm) returns (report: seq<ReportItem>)
    ensures IsReportFor(report, videos, api, llm)
  {
    var results := FetchTranscripts(videos, api);
    var analyses := seq(|results|, i requires 0 <= i < |results| => AnalyzeTranscript(results[i], llm));
    report := AssembleReport(results, analyses);
  }

  /**
   * `run_youtube_analysis_pipeline`: None when the request raises, [] when
   * no entry has both a link and a title (in particular when `trending` is
   * missing or empty), and otherwise one report entry per selected video.
   */
  method RunYoutubeAnalysisPipeline(response: TrendingResponse, api: TranscriptApi, llm: Llm)
    returns (out: PipelineResult)
    ensures response.RequestFailed? ==> out == NoResult
    ensures response.Trending? && SelectVideos(response.entries) == [] ==> out == EmptyList
    ensures response.Trending? && SelectVideos(response.entries) != [] ==>
              out.FinalReport? && IsReportFor(out.finalReport, SelectVideos(response.entries), api, llm)
  {
    if response.RequestFailed? {
      return NoResult;
    }
    if response.entries == [] {
      return EmptyList;
    }
    var videos := SelectVideos(response.entries);
    if videos == [] {
      return EmptyList;
    }
    var report := BuildReport(videos, api, llm);
    return FinalReport(report);
  }

  /**
   * A report entry depends on its own video only: equal videos at any two
   * positions of any two runs against the same services get equal entries,
   * so one failing video cannot disturb another's entry.
   */
  lemma EntriesAreIndependent(r1: seq<ReportItem>, v1: seq<VideoData>, r2: seq<ReportItem>, v2: seq<VideoData>,
                              api: TranscriptApi, llm: Llm, i: nat, j: nat)
    requires IsReportFor(r1, v1, api, llm) && IsReportFor(r2, v2, api, llm)
    requires i < |v1| && j < |v2| && v1[i] == v2[j]
    ensures r1[i] == r2[j]
  {
  }

  /** An entry whose transcript failed is analysed from its title alone and still gets an analysis. */
  lemma FailedEntryUsesTitle(report: seq<ReportItem>, videos: seq<VideoData>, api: TranscriptApi, llm: Llm, i: nat)
    requires IsReportFor(report, videos, api, llm) && i < |videos|
    requires report[i].result.Failed?
    ensures report[i].llmAnalysis == Ask(llm, TitleOnlyPrompt(videos[i].title))
  {
  }
}

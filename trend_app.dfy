/**
 * The Streamlit app's own pipelines. The Google one saves its queries to a
 * text file, one per line, and reads them back before scraping; a response
 * without trends leaves the file as an earlier run wrote it. Both pipelines
 * return None where the library versions return [] or stop early, and the
 * report view shows a Google entry only when its analysis did not fail.
 * The query file is a value passed in and returned (None when it does not
 * exist); the JSON report files are the returned reports.
 */
module TrendApp {
  import opened Wrappers
  import Text
  import opened Analysis
  import opened TrendQueries
  import opened GoogleAnalyzer
  import YoutubeAnalyzer
  import Transcript

  /** The three `os.getenv` results; a missing variable is None. */
  datatype ApiKeys = ApiKeys(searchApi: Option<string>, firecrawl: Option<string>, openAi: Option<string>)

  /**
   * What the file holds after `f.write(query_line + '\n')` for every query in
   * turn: empty exactly when there is no query, and otherwise ending with a
   * newline.
   */
  function QueryFileText(queries: seq<string>): (t: string)
    ensures |t| == 0 <==> |queries| == 0
    ensures |queries| > 0 ==> t[|t| - 1] == '\n'
  {
    if queries == [] then "" else queries[0] + "\n" + QueryFileText(queries[1..])
  }

  /** The file holds the queries joined by newlines, plus a final newline. */
  lemma {:induction false} QueryFileTextIsJoin(queries: seq<string>)
    requires |queries| > 0
    ensures QueryFileText(queries) == Text.Join("\n", queries) + "\n"
  {
    if |queries| > 1 {
      QueryFileTextIsJoin(queries[1..]);
    }
  }

  /** The write loop of `generate_and_save_queries`. */
  method WriteQueryFile(queries: seq<string>) returns (text: string)
    ensures text == QueryFileText(queries)
  {
    text := "";
    for i := 0 to |queries|
      invariant text + QueryFileText(queries[i..]) == QueryFileText(queries)
    {
      assert queries[i..][1..] == queries[i + 1..];
      assert QueryFileText(queries[i..]) == queries[i] + "\n" + QueryFileText(queries[i + 1..]);
      text := text + (queries[i] + "\n");
    }
  }

  /**
   * `generate_and_save_queries`: without trends it returns before opening
   * the file, which keeps what it held; otherwise the file holds the built
   * queries, one per line.
   */
  method GenerateAndSaveQueries(data: TrendsData, file: Option<string>) returns (file': Option<string>)
    ensures !data.HasTrends() ==> file' == file
    ensures data.HasTrends() ==> file' == Some(QueryFileText(QueriesFor(data)))
  {
    if !data.HasTrends() {
      return file;
    }
    var allQueries := GenerateTrendQueries(data);
    var text := WriteQueryFile(allQueries);
    file' := Some(text);
  }

  /** Non-empty and with no character of `cs` at either end, as `strip` leaves a non-blank line. */
  predicate IsStripped(q: string, cs: set<char>)
  {
    q != [] && q[0] !in cs && q[|q| - 1] !in cs
  }

  /** A line that reads back as itself: stripped, and without a line break. */
  predicate IsCleanLine(q: string, cs: set<char>)
  {
    IsStripped(q, cs) && Text.HasNoLineBreak(q)
  }

  /**
   * `[line.strip() for line in lines if line.strip()]`, with `cs` the
   * characters `strip` removes: the non-blank lines, stripped, in order.
   */
  function StripLines(lines: seq<string>, cs: set<char>): (qs: seq<string>)
    ensures |qs| <= |lines|
    ensures forall i :: 0 <= i < |qs| ==> IsStripped(qs[i], cs)
  {
    if lines == [] then []
    else
      var s := Text.Strip(lines[0], cs);
      var rest := StripLines(lines[1..], cs);
      if s != [] then
        AllStrippedCons(s, rest, cs);
        [s] + rest
      else rest
  }

  /** A stripped line in front of stripped lines. */
  lemma AllStrippedCons(s: string, rest: seq<string>, cs: set<char>)
    requires IsStripped(s, cs)
    requires forall i :: 0 <= i < |rest| ==> IsStripped(rest[i], cs)
    ensures forall i :: 0 <= i < |[s] + rest| ==> IsStripped(([s] + rest)[i], cs)
  {
  }

  /** Every line that is not blank is read back stripped. */
  lemma {:induction false} StripLinesKeepsNonBlank(lines: seq<string>, cs: set<char>, i: nat)
    requires i < |lines| && Text.Strip(lines[i], cs) != []
    ensures Text.Strip(lines[i], cs) in StripLines(lines, cs)
  {
    if i > 0 {
      assert lines[1..][i - 1] == lines[i];
      StripLinesKeepsNonBlank(lines[1..], cs, i - 1);
    }
  }

  /** Every query read back is the strip of one of the lines. */
  lemma {:induction false} StripLinesFromLines(lines: seq<string>, cs: set<char>, q: string)
    requires q in StripLines(lines, cs)
    ensures exists i :: 0 <= i < |lines| && q == Text.Strip(lines[i], cs)
  {
    var head := Text.Strip(lines[0], cs);
    if q != head {
      var rest := lines[1..];
      assert q in StripLines(rest, cs);
      StripLinesFromLines(rest, cs, q);
      var j :| 0 <= j < |rest| && q == Text.Strip(rest[j], cs);
      assert rest[j] == lines[j + 1];
    }
  }

  /** Every line that is not blank is read back stripped, and every query read back is such a line. */
  lemma StripLinesMembers(lines: seq<string>, cs: set<char>)
    ensures forall i :: 0 <= i < |lines| && Text.Strip(lines[i], cs) != [] ==> Text.Strip(lines[i], cs) in StripLines(lines, cs)
    ensures forall q :: q in StripLines(lines, cs) ==> exists i :: 0 <= i < |lines| && q == Text.Strip(lines[i], cs)
  {
    forall i | 0 <= i < |lines| && Text.Strip(lines[i], cs) != []
      ensures Text.Strip(lines[i], cs) in StripLines(lines, cs)
    {
      StripLinesKeepsNonBlank(lines, cs, i);
    }
    forall q | q in StripLines(lines, cs)
      ensures exists i :: 0 <= i < |lines| && q == Text.Strip(lines[i], cs)
    {
      StripLinesFromLines(lines, cs, q);
    }
  }

  /** The reader keeps the lines' order: the queries of a concatenation are concatenated. */
  lemma {:induction false} StripLinesAppend(a: seq<string>, b: seq<string>, cs: set<char>)
    ensures StripLines(a + b, cs) == StripLines(a, cs) + StripLines(b, cs)
  {
    if a == [] {
      assert a + b == b;
    } else {
      assert (a + b)[0] == a[0] && (a + b)[1..] == a[1..] + b;
      StripLinesAppend(a[1..], b, cs);
    }
  }

  /** Stripping a line adds no line break. */
  lemma {:induction false} StripLinesKeepsLines(lines: seq<string>, cs: set<char>)
    requires forall i :: 0 <= i < |lines| ==> Text.HasNoLineBreak(lines[i])
    ensures forall i :: 0 <= i < |StripLines(lines, cs)| ==> IsCleanLine(StripLines(lines, cs)[i], cs)
  {
    if lines != [] {
      Text.StripAvoids(lines[0], cs, '\n');
      Text.StripAvoids(lines[0], cs, '\r');
      StripLinesKeepsLines(lines[1..], cs);
    }
  }

  /** The queries read back from the file's contents: every one a clean line. */
  function ReadQueries(contents: string): (qs: seq<string>)
    ensures forall i :: 0 <= i < |qs| ==> IsCleanLine(qs[i], Text.Whitespace)
  {
    var lines := Text.LineSegments(contents);
    StripLinesKeepsLines(lines, Text.Whitespace);
    StripLines(lines, Text.Whitespace)
  }

  /**
   * Whatever the file holds, every line between two breaks that is not blank
   * is read back stripped, and every query read back is such a line.
   */
  lemma ReadQueriesMembers(contents: string)
    ensures var lines := Text.LineSegments(contents);
            forall i :: 0 <= i < |lines| && Text.Strip(lines[i], Text.Whitespace) != [] ==>
              Text.Strip(lines[i], Text.Whitespace) in ReadQueries(contents)
    ensures var lines := Text.LineSegments(contents);
            forall q :: q in ReadQueries(contents) ==>
              exists i :: 0 <= i < |lines| && q == Text.Strip(lines[i], Text.Whitespace)
  {
    var lines := Text.LineSegments(contents);
    assert ReadQueries(contents) == StripLines(lines, Text.Whitespace);
    StripLinesMembers(lines, Text.Whitespace);
  }

  /** A file made of lines joined by newlines is read back line by line, in order. */
  lemma ReadQueriesOfLines(lines: seq<string>)
    requires |lines| > 0
    requires forall i :: 0 <= i < |lines| ==> Text.HasNoLineBreak(lines[i])
    ensures ReadQueries(Text.Join("\n", lines)) == StripLines(lines, Text.Whitespace)
  {
    Text.LineSegmentsOfJoin(lines);
  }

  /** A stripped line in front is read back as itself in front. */
  lemma StripLinesCons(q: string, lines: seq<string>, cs: set<char>)
    requires IsStripped(q, cs)
    ensures StripLines([q] + lines, cs) == [q] + StripLines(lines, cs)
  {
    assert ([q] + lines)[0] == q && ([q] + lines)[1..] == lines;
    assert Text.Strip(q, cs) == q;
  }

  /** Clean lines written one per line come back from the strip-and-drop-blank reader unchanged. */
  lemma {:induction false} StripLinesRoundTrip(queries: seq<string>, cs: set<char>)
    requires forall i :: 0 <= i < |queries| ==> IsCleanLine(queries[i], cs)
    ensures StripLines(Text.LineSegments(QueryFileText(queries)), cs) == queries
  {
    if queries == [] {
      assert Text.LineSegments("") == [""];
    } else {
      var q, rest := queries[0], queries[1..];
      assert forall i :: 0 <= i < |rest| ==> rest[i] == queries[i + 1];
      StripLinesRoundTrip(rest, cs);
      assert QueryFileText(queries) == q + "\n" + QueryFileText(rest);
      Text.LineSegmentsOfLine(q, QueryFileText(rest));
      StripLinesCons(q, Text.LineSegments(QueryFileText(rest)), cs);
      assert [q] + rest == queries;
    }
  }

  /** Write/read round trip: clean queries written one per line are read back unchanged. */
  lemma ReadWriteRoundTrip(queries: seq<string>)
    requires forall i :: 0 <= i < |queries| ==> IsCleanLine(queries[i], Text.Whitespace)
    ensures ReadQueries(QueryFileText(queries)) == queries
  {
    StripLinesRoundTrip(queries, Text.Whitespace);
  }

  /** No keyword of any trend holds a line break. */
  predicate KeywordsAreSingleLine(data: TrendsData)
  {
    data.trends.Some? ==>
      forall t, k :: t in data.trends.value && k in t.keywords ==> Text.HasNoLineBreak(k)
  }

  /** A built query is a clean line when its keywords hold no line break. */
  lemma BuiltQueryIsCleanLine(keywords: seq<string>)
    requires forall k :: k in keywords ==> Text.HasNoLineBreak(k)
    ensures IsCleanLine(BuildQuery(keywords), Text.Whitespace)
  {
    var top := Text.Take(keywords, MaxKeywords);
    assert forall i :: 0 <= i < |top| ==> top[i] in keywords;
    Text.JoinAvoids(KeywordSeparator, top, '\n');
    Text.JoinAvoids(KeywordSeparator, top, '\r');
    var part := KeywordPart(keywords);
    var q := BuildQuery(keywords);
    assert q == QueryPrefix + part + QuerySuffix;
    assert '\n' !in q && '\r' !in q;
    assert q[0] == 'q' && q[|q| - 1] == Quote;
  }

  /**
   * With single-line keywords the saved file gives the scraper exactly the
   * queries `generate_trend_queries` builds, in the same order.
   */
  lemma {:induction false} SavedQueriesReadBack(data: TrendsData)
    requires KeywordsAreSingleLine(data)
    ensures ReadQueries(QueryFileText(QueriesFor(data))) == QueriesFor(data)
  {
    var qs := QueriesFor(data);
    if data.HasTrends() {
      QueriesOfMembers(data.trends.value);
      forall i | 0 <= i < |qs|
        ensures IsCleanLine(qs[i], Text.Whitespace)
      {
        assert qs[i] in QueriesOf(data.trends.value);
        var t :| t in data.trends.value && t.keywords != [] && qs[i] == BuildQuery(t.keywords);
        BuiltQueryIsCleanLine(t.keywords);
      }
    }
    ReadWriteRoundTrip(qs);
  }

  /** What `run_google_analysis_pipeline` in the app comes to. */
  datatype GoogleAppResult =
    | Stopped                                      // it returned None
    | ScrapeFailed                                 // a query without '=' raised IndexError out of `gather`
    | ReportSaved(report: seq<GoogleReportItem>)   // the report was written and its file name returned

  /**
   * The app's Google pipeline. It stops with None when a key is missing,
   * when the trends response is empty, when the query file cannot be read,
   * when it holds no query and when no scrape survives; otherwise it saves
   * one report entry per surviving scrape of the queries read back.
   */
  method RunGoogleApp(keys: ApiKeys, trendsData: TrendsData, queryFile: Option<string>, search: SearchApi, llm: Llm)
    returns (out: GoogleAppResult, queryFile': Option<string>)
    ensures !(Text.IsTruthy(keys.searchApi) && Text.IsTruthy(keys.firecrawl) && Text.IsTruthy(keys.openAi)) || !trendsData.Truthy() ==>
              out == Stopped && queryFile' == queryFile
    ensures Text.IsTruthy(keys.searchApi) && Text.IsTruthy(keys.firecrawl) && Text.IsTruthy(keys.openAi) && trendsData.Truthy() ==>
              && queryFile' == (if trendsData.HasTrends() then Some(QueryFileText(QueriesFor(trendsData))) else queryFile)
              && (queryFile'.None? ==> out == Stopped)
              && (queryFile'.Some? ==>
                    var outcomes := ScrapeOutcomes(ReadQueries(queryFile'.value), search);
                    && (outcomes == [] ==> out == Stopped)
                    && (AnyRaised(outcomes) ==> out == ScrapeFailed)
                    && (outcomes != [] && !AnyRaised(outcomes) && Surviving(outcomes) == [] ==> out == Stopped)
                    && (!AnyRaised(outcomes) && Surviving(outcomes) != [] ==>
                          out.ReportSaved? && GoogleAnalyzer.IsReportFor(out.report, Surviving(outcomes), llm)))
  {
    queryFile' := queryFile;
    if !(Text.IsTruthy(keys.searchApi) && Text.IsTruthy(keys.firecrawl) && Text.IsTruthy(keys.openAi)) {
      return Stopped, queryFile';
    }
    if !trendsData.Truthy() {
      return Stopped, queryFile';
    }
    queryFile' := GenerateAndSaveQueries(trendsData, queryFile);
    if queryFile'.None? {
      return Stopped, queryFile';
    }
    var allQueries := ReadQueries(queryFile'.value);
    if allQueries == [] {
      return Stopped, queryFile';
    }
    var outcomes := ScrapeOutcomes(allQueries, search);
    if AnyRaised(outcomes) {
      return ScrapeFailed, queryFile';
    }
    var scraped := Surviving(outcomes);
    if scraped == [] {
      return Stopped, queryFile';
    }
    var report := GoogleAnalyzer.BuildReport(scraped, llm);
    return ReportSaved(report), queryFile';
  }

  /**
   * A response with trends and single-line keywords is scraped exactly as
   * the library pipeline scrapes it, and never raises.
   */
  lemma FreshTrendsScrapeBuiltQueries(data: TrendsData, search: SearchApi)
    requires data.HasTrends() && KeywordsAreSingleLine(data)
    ensures ScrapeOutcomes(ReadQueries(QueryFileText(QueriesFor(data))), search) == ScrapeOutcomes(QueriesFor(data), search)
    ensures !AnyRaised(ScrapeOutcomes(ReadQueries(QueryFileText(QueriesFor(data))), search))
  {
    SavedQueriesReadBack(data);
    BuiltQueriesNeverRaise(data, search);
  }

  /**
   * The app's YouTube pipeline: None when a key is missing, when the request
   * raises, when `trending` is missing or empty and when no entry has both a
   * link and a title; otherwise the saved report, one entry per video.
   */
  method RunYoutubeApp(keys: ApiKeys, response: YoutubeAnalyzer.TrendingResponse,
                       api: Transcript.TranscriptApi, llm: Llm)
    returns (out: Option<seq<YoutubeAnalyzer.ReportItem>>)
    ensures !(Text.IsTruthy(keys.searchApi) && Text.IsTruthy(keys.openAi)) || response.RequestFailed? ==> out == None
    ensures response.Trending? && YoutubeAnalyzer.SelectVideos(response.entries) == [] ==> out == None
    ensures Text.IsTruthy(keys.searchApi) && Text.IsTruthy(keys.openAi) && response.Trending?
            && YoutubeAnalyzer.SelectVideos(response.entries) != [] ==>
              out.Some? && YoutubeAnalyzer.IsReportFor(out.value, YoutubeAnalyzer.SelectVideos(response.entries), api, llm)
  {
    if !(Text.IsTruthy(keys.searchApi) && Text.IsTruthy(keys.openAi)) {
      return None;
    }
    if response.RequestFailed? {
      return None;
    }
    if response.entries == [] {
      return None;
    }
    var videos := YoutubeAnalyzer.SelectVideos(response.entries);
    if videos == [] {
      return None;
    }
    var report := YoutubeAnalyzer.BuildReport(videos, api, llm);
    return Some(report);
  }

  /** Whether the Google view shows an entry: its analysis is not the failure record. */
  predicate IsShown(item: GoogleReportItem)
  {
    item.llmAnalysis.context != SentinelContext
  }

  /** The entries the Google view draws, in report order. */
  function GoogleDisplayed(report: seq<GoogleReportItem>): (shown: seq<GoogleReportItem>)
    ensures |shown| <= |report|
    ensures forall it :: it in shown <==> it in report && IsShown(it)
  {
    if report == [] then []
    else
      var init, it := report[..|report| - 1], report[|report| - 1];
      assert report == init + [it];
      GoogleDisplayed(init) + (if IsShown(it) then [it] else [])
  }

  /** The view keeps the report's order: the view of a concatenation is the concatenation of the views. */
  lemma {:induction false} GoogleDisplayedAppend(a: seq<GoogleReportItem>, b: seq<GoogleReportItem>)
    ensures GoogleDisplayed(a + b) == GoogleDisplayed(a) + GoogleDisplayed(b)
    decreases |b|
  {
    if b == [] {
      assert a + b == a;
    } else {
      var init, it := b[..|b| - 1], b[|b| - 1];
      assert (a + b)[..|a + b| - 1] == a + init;
      assert (a + b)[|a + b| - 1] == it;
      GoogleDisplayedAppend(a, init);
    }
  }

  /**
   * For a model that never answers with the sentinel's context, the Google
   * view shows an entry exactly when the model call for its page succeeded.
   */
  lemma GoogleViewHidesExactlyFailures(report: seq<GoogleReportItem>, items: seq<ScrapedItem>, llm: Llm)
    requires GoogleAnalyzer.IsReportFor(report, items, llm)
    requires NeverAnswersSentinelContext(llm)
    ensures forall i :: 0 <= i < |items| ==>
              (report[i] in GoogleDisplayed(report) <==> llm(ScrapePromptFor(items[i])).Answered?)
  {
    forall i | 0 <= i < |items|
      ensures report[i] in GoogleDisplayed(report) <==> llm(ScrapePromptFor(items[i])).Answered?
    {
      FailedAnalysesAreSentinels(report, items, llm, i);
    }
  }

  /** The entries the YouTube view draws: every one, failed transcripts and sentinel analyses included. */
  function YoutubeDisplayed(report: seq<YoutubeAnalyzer.ReportItem>): (shown: seq<YoutubeAnalyzer.ReportItem>)
    ensures |shown| == |report|
    ensures forall i :: 0 <= i < |report| ==> shown[i] == report[i]
  {
    report
  }
}

/**
 * The Google pipeline: build the queries from the trends response, search
 * and scrape each one, drop the searches that yielded nothing, ask the model
 * about each scraped page, and pair every page with its analysis, in order.
 * The search service and the model are oracles; the semaphores and
 * `asyncio.gather` are sequential maps, since `gather` keeps input order.
 */
module GoogleAnalyzer {
  import opened Wrappers
  import Text
  import opened Analysis
  import opened TrendQueries

  /** One element of the search response's `data` list; a missing `markdown` key is None. */
  datatype PageRecord = PageRecord(markdown: Option<string>)

  /** The search call: the response's `data` list (empty when missing), or the exception it raised. */
  datatype SearchOutcome = SearchResults(data: seq<PageRecord>) | SearchRaised(message: string)

  /** The search-and-scrape service, answering for a search text. */
  type SearchApi = string -> SearchOutcome

  /** The `{"trend_query", "scraped_content"}` dictionary a successful scrape yields. */
  datatype ScrapedItem = ScrapedItem(trendQuery: string, scrapedContent: string)

  /**
   * What one `search_and_scrape_task` comes to: an item, None, or the
   * IndexError that `query.split("=")[1]` raises outside the `try`.
   */
  datatype ScrapeOutcome = Scraped(item: ScrapedItem) | NotScraped | SplitRaised

  /** `results and results.get('data') and results['data'][0].get('markdown')`. */
  predicate HasContent(o: SearchOutcome)
  {
    o.SearchResults? && o.data != [] && o.data[0].markdown.Some? && o.data[0].markdown.value != ""
  }

  /**
   * `search_and_scrape_task`: the search text is the parsed query; an item
   * exactly when the first record has non-empty markdown, holding that
   * markdown, and None in every other case, a raised search included.
   */
  function ScrapeTask(query: string, search: SearchApi): (r: ScrapeOutcome)
    ensures r.SplitRaised? <==> '=' !in query
    ensures r.Scraped? <==> ParseQuery(query).Some? && HasContent(search(ParseQuery(query).value))
    ensures r.Scraped? ==>
              && r.item.trendQuery == ParseQuery(query).value
              && r.item.scrapedContent == search(r.item.trendQuery).data[0].markdown.value
              && r.item.scrapedContent != ""
  {
    match ParseQuery(query)
    case None => SplitRaised
    case Some(actualQuery) =>
      var results := search(actualQuery);
      if HasContent(results) then Scraped(ScrapedItem(actualQuery, results.data[0].markdown.value))
      else NotScraped
  }

  /** `await asyncio.gather(*scrape_tasks)`: one outcome per query, in order. */
  function ScrapeOutcomes(queries: seq<string>, search: SearchApi): (outcomes: seq<ScrapeOutcome>)
    ensures |outcomes| == |queries|
    ensures forall i :: 0 <= i < |queries| ==> outcomes[i] == ScrapeTask(queries[i], search)
  {
    seq(|queries|, i requires 0 <= i < |queries| => ScrapeTask(queries[i], search))
  }

  /** Whether some task raised, in which case `gather` raises too. */
  predicate AnyRaised(outcomes: seq<ScrapeOutcome>)
  {
    exists i :: 0 <= i < |outcomes| && outcomes[i].SplitRaised?
  }

  /** `[res for res in scraped_results if res]`: the items, in order. */
  function Surviving(outcomes: seq<ScrapeOutcome>): (items: seq<ScrapedItem>)
    ensures |items| <= |outcomes|
    ensures forall o :: o in outcomes && o.Scraped? ==> o.item in items
    ensures forall it :: it in items ==> Scraped(it) in outcomes
  {
    if outcomes == [] then []
    else
      var init, o := outcomes[..|outcomes| - 1], outcomes[|outcomes| - 1];
      assert outcomes == init + [o];
      Surviving(init) + (if o.Scraped? then [o.item] else [])
  }

  /** The filter keeps the scrapes' order: filtering a concatenation concatenates the filtered parts. */
  lemma {:induction false} SurvivingAppend(a: seq<ScrapeOutcome>, b: seq<ScrapeOutcome>)
    ensures Surviving(a + b) == Surviving(a) + Surviving(b)
    decreases |b|
  {
    if b == [] {
      assert a + b == a;
    } else {
      var init, o := b[..|b| - 1], b[|b| - 1];
      assert (a + b)[..|a + b| - 1] == a + init;
      assert (a + b)[|a + b| - 1] == o;
      SurvivingAppend(a, init);
    }
  }

  /** Queries built by `generate_trend_queries` never make a scrape task raise. */
  lemma BuiltQueriesNeverRaise(data: TrendsData, search: SearchApi)
    ensures !AnyRaised(ScrapeOutcomes(QueriesFor(data), search))
  {
    BuiltQueriesParse(data);
  }

  /**
   * The prompt of `analyze_scraped_content`: the query and at most the first
   * 15000 characters of the page.
   */
  function ScrapePromptFor(item: ScrapedItem): (p: Prompt)
    ensures p.ScrapePrompt? && p.trendQuery == item.trendQuery
    ensures |p.content| == (if |item.scrapedContent| <= MaxContentLength then |item.scrapedContent| else MaxContentLength)
    ensures p.content == item.scrapedContent[..|p.content|]
  {
    ScrapePrompt(item.trendQuery, Text.Take(item.scrapedContent, MaxContentLength))
  }

  /** `analyze_scraped_content`: the model's answer, or the sentinel when the call raises. */
  function AnalyzeScraped(item: ScrapedItem, llm: Llm): (a: Analysis)
    ensures llm(ScrapePromptFor(item)).Raised? ==> a == Sentinel
    ensures llm(ScrapePromptFor(item)).Answered? ==> a == llm(ScrapePromptFor(item)).analysis
  {
    Ask(llm, ScrapePromptFor(item))
  }

  /** One entry of `final_report`. */
  datatype GoogleReportItem = GoogleReportItem(trendQuery: string, scrapedContent: string, llmAnalysis: Analysis)

  /** The `final_report` loop: entry i is scrape i with `llm_analysis = analyses[i]`. */
  method AssembleReport(items: seq<ScrapedItem>, analyses: seq<Analysis>) returns (report: seq<GoogleReportItem>)
    requires |analyses| == |items|
    ensures |report| == |items|
    ensures forall i :: 0 <= i < |items| ==>
              report[i] == GoogleReportItem(items[i].trendQuery, items[i].scrapedContent, analyses[i])
  {
    report := [];
    for i := 0 to |items|
      invariant |report| == i
      invariant forall j :: 0 <= j < i ==>
                  report[j] == GoogleReportItem(items[j].trendQuery, items[j].scrapedContent, analyses[j])
    {
      var item := items[i];
      var reportItem := GoogleReportItem(item.trendQuery, item.scrapedContent, analyses[i]);
      report := report + [reportItem];
    }
  }

  /** `report` holds, for every scraped item in order, its query, its page and the analysis of that page. */
  predicate IsReportFor(report: seq<GoogleReportItem>, items: seq<ScrapedItem>, llm: Llm)
  {
    && |report| == |items|
    && forall i :: 0 <= i < |items| ==>
         report[i] == GoogleReportItem(items[i].trendQuery, items[i].scrapedContent, AnalyzeScraped(items[i], llm))
  }

  /** The analysis stage and the final loop, shared by the two Google pipelines. */
  method BuildReport(items: seq<ScrapedItem>, llm: Llm) returns (report: seq<GoogleReportItem>)
    ensures IsReportFor(report, items, llm)
  {
    var analyses := seq(|items|, i requires 0 <= i < |items| => AnalyzeScraped(items[i], llm));
    report := AssembleReport(items, analyses);
  }

  /**
   * `run_google_analysis_pipeline`, from the fetched trends on: [] when the
   * response is empty, when no query is built or when no scrape survives,
   * and otherwise one entry per surviving scrape.
   */
  method RunGoogleAnalysisPipeline(trendsData: TrendsData, search: SearchApi, llm: Llm)
    returns (report: seq<GoogleReportItem>)
    ensures !trendsData.Truthy() || QueriesFor(trendsData) == [] ==> report == []
    ensures IsReportFor(report, Surviving(ScrapeOutcomes(QueriesFor(trendsData), search)), llm)
  {
    if !trendsData.Truthy() {
      return [];
    }
    var queries := GenerateTrendQueries(trendsData);
    if queries == [] {
      return [];
    }
    var outcomes := ScrapeOutcomes(queries, search);
    var scraped := Surviving(outcomes);
    if scraped == [] {
      return [];
    }
    report := BuildReport(scraped, llm);
  }

  /**
   * A report entry is the sentinel exactly when the model call for its page
   * raised, for a model that never answers with the sentinel's context.
   */
  lemma FailedAnalysesAreSentinels(report: seq<GoogleReportItem>, items: seq<ScrapedItem>, llm: Llm, i: nat)
    requires IsReportFor(report, items, llm) && i < |items|
    requires NeverAnswersSentinelContext(llm)
    ensures report[i].llmAnalysis.context == SentinelContext <==> llm(ScrapePromptFor(items[i])).Raised?
    ensures llm(ScrapePromptFor(items[i])).Raised? ==> report[i].llmAnalysis == Sentinel
  {
    SentinelMarksFailure(llm, ScrapePromptFor(items[i]));
  }
}

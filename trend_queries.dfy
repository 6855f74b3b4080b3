/**
 * The search queries built from a Google Trends "trending now" response:
 * one query per trend that has keywords, made of its first five keywords
 * joined by " OR " and wrapped as `query='...'`, and the inverse step that
 * recovers the search text from such a query before scraping.
 */
module TrendQueries {
  import opened Wrappers
  import Text

  /** One element of `trends_data["trends"]`; a missing `keywords` key is the empty list. */
  datatype Trend = Trend(keywords: seq<string>)

  /**
   * The JSON object `fetch_google_trends` returns, reduced to what is read
   * of it: the `trends` list (None when the key is absent) and how many
   * other keys it has. A failed request gives the empty object.
   */
  datatype TrendsData = TrendsData(trends: Option<seq<Trend>>, otherKeys: nat)
  {
    /** Python truthiness of the dictionary: it has at least one key. */
    predicate Truthy()
    {
      trends.Some? || otherKeys > 0
    }

    /** `"trends" in trends_data and trends_data["trends"]`. */
    predicate HasTrends()
    {
      trends.Some? && trends.value != []
    }
  }

  /** What `fetch_google_trends` returns after a failed request. */
  const EmptyResponse := TrendsData(None, 0)

  const MaxKeywords: nat := 5
  const KeywordSeparator := " OR "
  const QueryPrefix := "query='"
  const QuerySuffix := "'"
  const Quote := '\''

  /** `' OR '.join(keywords[:5])`: empty without keywords, otherwise starting with the first keyword. */
  function KeywordPart(keywords: seq<string>): (r: string)
    ensures keywords == [] ==> r == ""
    ensures keywords != [] ==> keywords[0] <= r
  {
    Text.Join(KeywordSeparator, Text.Take(keywords, MaxKeywords))
  }

  /**
   * `f"query='{keyword_part}'"` for the trend's keywords: `query='` and the
   * first keyword, and a closing quote at the end.
   */
  function BuildQuery(keywords: seq<string>): (q: string)
    ensures QueryPrefix <= q && q[|q| - 1] == Quote
    ensures keywords != [] ==> QueryPrefix + keywords[0] <= q
  {
    QueryPrefix + KeywordPart(keywords) + QuerySuffix
  }

  /** Only the first five keywords of a trend reach its query. */
  lemma {:induction false} BuildQueryUsesFirstFive(keywords: seq<string>, extra: seq<string>)
    requires |keywords| >= MaxKeywords
    ensures BuildQuery(keywords + extra) == BuildQuery(keywords[..MaxKeywords])
  {
    assert (keywords + extra)[..MaxKeywords] == keywords[..MaxKeywords];
  }

  /**
   * `query.split("=")[1].strip("'")`: the text between the first and the
   * second '=', without leading and trailing quotes. None where the split
   * has no second field and Python raises IndexError.
   */
  function ParseQuery(q: string): (r: Option<string>)
    ensures r.None? <==> '=' !in q
    ensures r.Some? ==> '=' !in r.value
    ensures r.Some? ==> r.value == [] || (r.value[0] != Quote && r.value[|r.value| - 1] != Quote)
  {
    match Text.SecondField(q, '=')
    case None => None
    case Some(field) =>
      var stripped := Text.Strip(field, {Quote});
      Text.StripAvoids(field, {Quote}, '=');
      assert stripped == [] || (stripped[0] !in {Quote} && stripped[|stripped| - 1] !in {Quote});
      Some(stripped)
  }

  /** The first '=' of a built query is the prefix's, and after it comes the quoted part. */
  lemma {:induction false} AfterPrefix(part: string)
    ensures var q := QueryPrefix + part + QuerySuffix;
            Text.IndexOf(q, '=') == Some(5) && q[6..] == [Quote] + part + [Quote]
  {
    var q := QueryPrefix + part + QuerySuffix;
    assert q[..5] == "query" && q[5] == '=';
    Text.IndexOfIs(q, '=', 5);
  }

  /** The text after the prefix's '=' when the query part itself has no '='. */
  lemma {:induction false} SecondFieldOfQuery(part: string)
    requires '=' !in part
    ensures Text.SecondField(QueryPrefix + part + QuerySuffix, '=') == Some([Quote] + part + [Quote])
  {
    AfterPrefix(part);
    assert '=' !in [Quote] + part + [Quote];
  }

  /** The text after the prefix's '=' up to the part's own first '='. */
  lemma {:induction false} SecondFieldCutAtEquals(part: string)
    requires '=' in part
    ensures Text.SecondField(QueryPrefix + part + QuerySuffix, '=') == Some([Quote] + part[..Text.IndexOf(part, '=').value])
  {
    AfterPrefix(part);
    var e := Text.IndexOf(part, '=').value;
    var rest := [Quote] + part + [Quote];
    assert rest[..e + 1] == [Quote] + part[..e];
    assert rest[e + 1] == '=';
    Text.IndexOfIs(rest, '=', e + 1);
  }

  /**
   * Round trip: a keyword part without '=' that neither starts nor ends with
   * a quote is exactly what the scraper searches for.
   */
  lemma {:induction false} ParseBuildRoundTrip(keywords: seq<string>)
    requires '=' !in KeywordPart(keywords)
    requires var j := KeywordPart(keywords); j == [] || (j[0] != Quote && j[|j| - 1] != Quote)
    ensures ParseQuery(BuildQuery(keywords)) == Some(KeywordPart(keywords))
  {
    var j := KeywordPart(keywords);
    SecondFieldOfQuery(j);
    Text.StripWrapped(j, Quote);
  }

  /**
   * A keyword holding '=' cuts the search text short: the scraper searches
   * for the keyword part only up to its first '='.
   */
  lemma {:induction false} ParseStopsAtEquals(keywords: seq<string>)
    requires '=' in KeywordPart(keywords)
    ensures var j := KeywordPart(keywords);
            ParseQuery(BuildQuery(keywords)) == Some(Text.Strip([Quote] + j[..Text.IndexOf(j, '=').value], {Quote}))
  {
    SecondFieldCutAtEquals(KeywordPart(keywords));
  }

  /** The queries of `trends`, one per trend with keywords, in order. */
  function QueriesOf(trends: seq<Trend>): (qs: seq<string>)
    ensures |qs| <= |trends|
  {
    if trends == [] then []
    else
      var init, t := trends[..|trends| - 1], trends[|trends| - 1];
      QueriesOf(init) + (if t.keywords != [] then [BuildQuery(t.keywords)] else [])
  }

  /**
   * Every trend with keywords contributes its query, and every query comes
   * from such a trend.
   */
  lemma {:induction false} QueriesOfMembers(trends: seq<Trend>)
    ensures forall t :: t in trends && t.keywords != [] ==> BuildQuery(t.keywords) in QueriesOf(trends)
    ensures forall q :: q in QueriesOf(trends) ==>
              exists t :: t in trends && t.keywords != [] && q == BuildQuery(t.keywords)
  {
    if trends != [] {
      var init, t := trends[..|trends| - 1], trends[|trends| - 1];
      assert trends == init + [t];
      QueriesOfMembers(init);
    }
  }

  /** The builder keeps the trends' order: the queries of a concatenation are concatenated. */
  lemma {:induction false} QueriesOfAppend(a: seq<Trend>, b: seq<Trend>)
    ensures QueriesOf(a + b) == QueriesOf(a) + QueriesOf(b)
    decreases |b|
  {
    if b == [] {
      assert a + b == a;
    } else {
      var init, t := b[..|b| - 1], b[|b| - 1];
      assert (a + b)[..|a + b| - 1] == a + init;
      assert (a + b)[|a + b| - 1] == t;
      var last := if t.keywords != [] then [BuildQuery(t.keywords)] else [];
      assert QueriesOf(a + b) == QueriesOf(a + init) + last;
      assert QueriesOf(b) == QueriesOf(init) + last;
      QueriesOfAppend(a, init);
    }
  }

  /** The number of trends that have keywords. */
  function WithKeywords(trends: seq<Trend>): nat
  {
    if trends == [] then 0
    else WithKeywords(trends[..|trends| - 1]) + (if trends[|trends| - 1].keywords != [] then 1 else 0)
  }

  /** Exactly one query per trend with keywords. */
  lemma {:induction false} QueriesOfCount(trends: seq<Trend>)
    ensures |QueriesOf(trends)| == WithKeywords(trends)
  {
    if trends != [] {
      QueriesOfCount(trends[..|trends| - 1]);
    }
  }

  /** `generate_trend_queries(trends_data)` as a value: no queries without trends. */
  function QueriesFor(data: TrendsData): (qs: seq<string>)
    ensures !data.HasTrends() ==> qs == []
    ensures data.HasTrends() ==> qs == QueriesOf(data.trends.value)
  {
    if data.HasTrends() then QueriesOf(data.trends.value) else []
  }

  /** A built query holds the '=' of its prefix. */
  lemma BuiltQueryHasEquals(keywords: seq<string>)
    ensures '=' in BuildQuery(keywords)
  {
    var part := KeywordPart(keywords);
    assert BuildQuery(keywords) == QueryPrefix + part + QuerySuffix;
    assert BuildQuery(keywords)[5] == '=';
  }

  /** Every built query holds the '=' the scraper splits on, so parsing it never raises. */
  lemma {:induction false} BuiltQueriesParse(data: TrendsData)
    ensures forall q :: q in QueriesFor(data) ==> ParseQuery(q).Some?
  {
    if data.HasTrends() {
      var trends := data.trends.value;
      QueriesOfMembers(trends);
      forall q | q in QueriesOf(trends)
        ensures '=' in q
      {
        var t :| t in trends && t.keywords != [] && q == BuildQuery(t.keywords);
        BuiltQueryHasEquals(t.keywords);
      }
    }
  }

  /** The loop of `generate_trend_queries`, appending one query per trend with keywords. */
  method GenerateTrendQueries(data: TrendsData) returns (queries: seq<string>)
    ensures queries == QueriesFor(data)
  {
    if !data.HasTrends() {
      return [];
    }
    var trends := data.trends.value;
    queries := [];
    for i := 0 to |trends|
      invariant queries == QueriesOf(trends[..i])
    {
      assert trends[..i + 1] == trends[..i] + [trends[i]];
      QueriesOfAppend(trends[..i], [trends[i]]);
      var keywords := trends[i].keywords;
      if keywords == [] {
        continue;
      }
      var top5 := Text.Take(keywords, MaxKeywords);
      var keywordPart := Text.Join(KeywordSeparator, top5);
      queries := queries + [QueryPrefix + keywordPart + QuerySuffix];
    }
    assert trends[..|trends|] == trends;
  }
}

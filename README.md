# Trend analyzer pipelines, modelled in Dafny

The repository fetches trending items (Google Trends "trending now" topics,
YouTube trending videos), retrieves content for each item (a scraped web page
for a Google trend, a caption transcript for a video), asks a language model
for a structured analysis (`context`, `summary`, `category`) of each item, and
assembles a report. This project models the core of that work in
`Streamlit/youtube_analyzer.py`, `Streamlit/google_analyzer.py` and the
Streamlit app `Streamlit/test.py`:

- `video_id.dfy` (module `VideoId`): `extract_video_id`. Each of the three
  regular expressions is a marker followed by a greedy capture of characters
  outside a stop set. `re.search` is modelled as the leftmost match, and the
  patterns are tried in their fixed order.
- `transcript.dfy` (module `Transcript`): `fetch_transcript_for_video`. The
  retry loop is an imperative `for` loop. The transcript service is an oracle
  answering for a video id and an attempt number, and the two-second sleeps
  are recorded in an out-parameter. A specification function gives the record
  the loop returns and how many attempts it makes.
- `analysis.dfy` (module `Analysis`): the analysis record, the sentinel record
  returned on any failure, the 15000-character limit, and the model call as an
  oracle from prompts to outcomes.
- `youtube_analyzer.dfy` (module `YoutubeAnalyzer`): prompt selection, entry
  selection and the YouTube pipeline.
- `trend_queries.dfy` (module `TrendQueries`): `generate_trend_queries` and
  the `query.split("=")[1].strip("'")` parsing step that inverts it.
- `google_analyzer.dfy` (module `GoogleAnalyzer`): scraping, filtering,
  analysis and the Google pipeline.
- `trend_app.dfy` (module `TrendApp`): the app's variants of the two
  pipelines. The Google variant saves its queries to a text file and reads
  them back; both variants return None instead of `[]`. The module also
  models which report entries the app displays.
- `text.dfy` and `wrappers.dfy`: the Python string operations the code relies
  on (`join`, `replace`, slicing, `split(sep)[1]`, `strip`, reading lines,
  truthiness of a string or None), plus `Option` and `Result`. `Text.IndexOf`
  is a helper that locates the separator for `split`; the code itself calls
  no `find`.

`Streamlit/test.py` repeats `extract_video_id` (lines 152-158),
`fetch_transcript_for_video` (160-175), `search_and_scrape_task` (53-64),
`analyze_with_openai` (66-98) and `analyze_transcript_with_openai` (177-207).
These copies match the library versions line for line; the only difference
is that `analyze_scraped_content` is named `analyze_with_openai` in the app.
They are modelled by the same members as the library versions.

The two `asyncio.gather` stages and the thread pool return their results in
input order. Each stage is therefore a sequential map over its input.

The code retries with a fixed two-second delay and has no exponential
backoff. A failed trends request is not fatal: `fetch_google_trends` returns
`{}`, and the pipelines then return `[]` or None. In the app's Google
pipeline, a query read back from the file without an `=` makes
`split("=")[1]` raise outside the `try`; that exception escapes `gather` and
the pipeline, and the model records it as `ScrapeFailed`.

## Model

| member | source | states |
|---|---|---|
| `VideoId.FindMatch` | Streamlit/youtube_analyzer.py:14 | `re.search` finds the leftmost position where the marker is followed by a non-stop character, and None exactly when no position matches |
| `VideoId.RunEnd` | Streamlit/youtube_analyzer.py:12 | the greedy `[^...]+` run ends at the first stop character or at the end of the URL |
| `VideoId.Capture` | Streamlit/youtube_analyzer.py:16 | `group(1)` of the leftmost match is the maximal stop-free run right after the marker |
| `VideoId.SearchPatterns` | Streamlit/youtube_analyzer.py:13-16 | the pattern loop from pattern `k` on; it carries no contract of its own, and `SearchPatternsMeaning` states what it returns |
| `VideoId.SearchPatternsMeaning` | Streamlit/youtube_analyzer.py:13-16 | the pattern loop finds nothing iff no remaining pattern matches anywhere; otherwise it returns the leftmost capture of the first pattern that matches |
| `VideoId.ExtractVideoId` | Streamlit/youtube_analyzer.py:11-17 | a returned id is non-empty and holds no `&`; the error is "Invalid or unsupported YouTube URL format: " followed by the URL |
| `VideoId.ExtractVideoIdMeaning` | Streamlit/youtube_analyzer.py:11-17 | extraction fails exactly when none of the three patterns matches; otherwise the id is the capture of the first pattern, in priority order, that matches |
| `VideoId.CaptureIsNonEmpty` | Streamlit/youtube_analyzer.py:12 | every pattern's capture is non-empty and free of `&` |
| `VideoId.VideoIdIsUnique` | Streamlit/youtube_analyzer.py:12-16 | the URL determines the id: two ids satisfying the first-pattern, leftmost-match, maximal-run description are equal |
| `VideoId.ShortFormIdHasNoQuery` | Streamlit/youtube_analyzer.py:12 | when `watch?v=` does not match, the `youtu.be/` or `embed/` id holds no `?` either |
| `Text.Join` | Streamlit/youtube_analyzer.py:28 | `sep.join(parts)` is empty for no parts and otherwise starts with the first part; `LineSegmentsOfJoin` recovers every part from a newline join |
| `Text.JoinAvoids` | Streamlit/google_analyzer.py:35 | a character in neither the separator nor any part is not in the joined text |
| `Text.ReplaceChar` | Streamlit/youtube_analyzer.py:28 | `replace` keeps the length and changes exactly the target characters |
| `Text.Take` | Streamlit/youtube_analyzer.py:45 | `s[:n]` is the prefix of length min(len(s), n) |
| `Text.IndexOf` | Streamlit/google_analyzer.py:41 | None iff the character is absent; otherwise the position of its first occurrence |
| `Text.SecondField` | Streamlit/google_analyzer.py:41 | `split(sep)[1]` is None (IndexError) iff `sep` is absent; otherwise the separator-free text from just after the first `sep` up to the next `sep` or the end |
| `Text.Strip` | Streamlit/google_analyzer.py:41 | `strip(chars)` never grows the string, leaves neither end in the set, returns a string already clean unchanged and an all-stripped one as empty |
| `Text.StripIsMiddle` | Streamlit/google_analyzer.py:41 | `strip(chars)` returns the slice of the string with only stripped characters before and after it; with `Strip`'s clean ends, exactly the maximal leading and trailing runs are removed |
| `Text.StripWrapped` | Streamlit/google_analyzer.py:41 | stripping a quote off quote + x + quote gives back x when x neither starts nor ends with a quote |
| `Text.LineSegments` | Streamlit/test.py:117 | there is at least one segment and no segment holds a line break; `JoinLineSegments` and `LineSegmentsOfJoin` state that the segments are the text between the breaks |
| `Text.LineSegmentsOfPlain` | Streamlit/test.py:117 | a text without line breaks is a single line |
| `Text.LineSegmentsOfJoin` | Streamlit/test.py:117 | lines without breaks joined by newlines split back into exactly those lines, in order |
| `Text.JoinLineSegments` | Streamlit/test.py:117 | the segments are the text between the breaks: joined by newlines they give back the text with every `\r` read as `\n` |
| `Text.LineSegmentsOfLine` | Streamlit/test.py:48 | a line written with its `\n` comes back as one line in front of the rest |
| `Transcript.JoinTranscript` | Streamlit/youtube_analyzer.py:28 | the transcript has the length of `" ".join(...)`, and each position holds a space where the joined text has a newline and the joined character otherwise, so it holds no newline |
| `Transcript.TryOnce` | Streamlit/youtube_analyzer.py:26-29 | one pass through the `try` gets through exactly when the id is extracted and the service returns captions, carrying that id and the joined transcript of the fragments the service returned; an unparseable URL raises its ValueError and a raising service raises its own message |
| `Transcript.TranscriptFor` | Streamlit/youtube_analyzer.py:24-34 | the returned record copies title and URL, and a failed one has id "unknown" and an error starting "All attempts failed. Last error: " |
| `Transcript.FirstSuccess` | Streamlit/youtube_analyzer.py:24-29 | the loop returns at the first attempt whose `try` body does not raise, and every earlier attempt raised |
| `Transcript.AttemptCount` | Streamlit/youtube_analyzer.py:24-33 | the loop makes at least one and at most `max_retries + 1` attempts |
| `Transcript.Delays` | Streamlit/youtube_analyzer.py:32-33 | the recorded sleeps are all of two seconds |
| `Transcript.FetchTranscriptForVideo` | Streamlit/youtube_analyzer.py:19-34 | the retry loop returns the specified record, makes `AttemptCount` attempts and sleeps once between consecutive attempts, never after the last |
| `Transcript.TranscriptRecordShape` | Streamlit/youtube_analyzer.py:25-34 | Success iff some attempt up to `max_retries` succeeds, with the extracted non-empty id and a newline-free transcript that is the join of the first successful attempt's fragments; otherwise Failed with id "unknown" and "All attempts failed. Last error: " plus the last attempt's message; title and URL are always copied |
| `Transcript.BadUrlFails` | Streamlit/youtube_analyzer.py:25-34 | an unparseable URL gives the Failed record carrying the ValueError text, after all `max_retries + 1` attempts, and never raises |
| `Transcript.DefaultRetryBound` | Streamlit/youtube_analyzer.py:19-33 | with the default `max_retries=3`, at most four attempts and three sleeps |
| `Analysis.Ask` | Streamlit/youtube_analyzer.py:61-66 | the model's parsed answer when the call returns, and the sentinel record when it raises |
| `Analysis.SentinelMarksFailure` | Streamlit/youtube_analyzer.py:61-66 | for a model that never answers with the sentinel's context, an analysis carries that context exactly when the call raised, and is then the whole sentinel |
| `YoutubeAnalyzer.TranscriptPromptFor` | Streamlit/youtube_analyzer.py:38-52 | the transcript prompt iff status is "Success" and the transcript is non-empty, carrying its first min(len, 15000) characters; the title-only prompt otherwise |
| `YoutubeAnalyzer.AnalyzeTranscript` | Streamlit/youtube_analyzer.py:36-66 | the model's answer for that prompt, or the sentinel when the call raises |
| `YoutubeAnalyzer.SelectVideos` | Streamlit/youtube_analyzer.py:84 | every entry with truthy link and title, and only such entries, becomes a video |
| `YoutubeAnalyzer.SelectVideosAppend` | Streamlit/youtube_analyzer.py:84 | selection keeps the entries' order |
| `YoutubeAnalyzer.FetchTranscripts` | Streamlit/youtube_analyzer.py:89-92 | one default-retry transcript record per video, in input order |
| `YoutubeAnalyzer.AssembleReport` | Streamlit/youtube_analyzer.py:100-104 | report entry i is transcript result i with `llm_analysis` set to analysis i, same length |
| `YoutubeAnalyzer.BuildReport` | Streamlit/youtube_analyzer.py:89-104 | for every video in order, its transcript record and the analysis of that record |
| `YoutubeAnalyzer.RunYoutubeAnalysisPipeline` | Streamlit/youtube_analyzer.py:68-107 | None when the request raises, `[]` when no entry has both link and title (missing or empty `trending` included), otherwise `{"final_report": ...}` with one entry per selected video |
| `YoutubeAnalyzer.EntriesAreIndependent` | Streamlit/youtube_analyzer.py:89-104 | an entry depends only on its own video, so one failing video does not disturb another's entry |
| `YoutubeAnalyzer.FailedEntryUsesTitle` | Streamlit/youtube_analyzer.py:46-52 | an entry whose transcript failed is analysed from its title alone |
| `TrendQueries.KeywordPart` | Streamlit/google_analyzer.py:34-35 | `' OR '.join(keywords[:5])` is empty without keywords and otherwise starts with the first keyword |
| `TrendQueries.BuildQuery` | Streamlit/google_analyzer.py:34-36 | a query starts with `query='` followed by the first keyword and ends with a quote; `ParseBuildRoundTrip` recovers the keyword part from it |
| `TrendQueries.BuildQueryUsesFirstFive` | Streamlit/google_analyzer.py:34-36 | keywords after the fifth do not affect the query |
| `TrendQueries.ParseQuery` | Streamlit/google_analyzer.py:41 | parsing raises iff the query has no `=`; a parsed text holds no `=` and neither starts nor ends with a quote |
| `TrendQueries.ParseBuildRoundTrip` | Streamlit/google_analyzer.py:34-41 | when the joined keywords hold no `=` and neither start nor end with a quote, parsing the built query gives back exactly the joined keywords |
| `TrendQueries.ParseStopsAtEquals` | Streamlit/google_analyzer.py:36-41 | a keyword holding `=` cuts the search text at the first `=` of the joined keywords |
| `TrendQueries.QueriesOf` | Streamlit/google_analyzer.py:30-36 | no more queries than trends |
| `TrendQueries.QueriesOfMembers` | Streamlit/google_analyzer.py:30-36 | every trend with keywords contributes its query, and every query comes from such a trend |
| `TrendQueries.QueriesOfAppend` | Streamlit/google_analyzer.py:30-36 | the queries keep the trends' order |
| `TrendQueries.QueriesOfCount` | Streamlit/google_analyzer.py:30-36 | exactly one query per trend with a non-empty keyword list |
| `TrendQueries.QueriesFor` | Streamlit/google_analyzer.py:25-38 | no queries when `trends` is missing or empty, otherwise the queries of the trends |
| `TrendQueries.BuiltQueriesParse` | Streamlit/google_analyzer.py:36-41 | every built query holds the `=` the scraper splits on |
| `TrendQueries.GenerateTrendQueries` | Streamlit/google_analyzer.py:25-38 | the append loop returns exactly the specified queries |
| `GoogleAnalyzer.ScrapeTask` | Streamlit/google_analyzer.py:40-51 | IndexError iff the query has no `=`; an item iff the first data record of the search for the parsed query has non-empty markdown, carrying the parsed query and that markdown; None in every other case, a raised search included |
| `GoogleAnalyzer.ScrapeOutcomes` | Streamlit/google_analyzer.py:100-101 | one scrape outcome per query, in order |
| `GoogleAnalyzer.Surviving` | Streamlit/google_analyzer.py:102 | the filter keeps every scraped item and nothing else |
| `GoogleAnalyzer.SurvivingAppend` | Streamlit/google_analyzer.py:102 | the filter keeps the scrapes' order |
| `GoogleAnalyzer.BuiltQueriesNeverRaise` | Streamlit/google_analyzer.py:93-101 | queries from `generate_trend_queries` never make a scrape task raise |
| `GoogleAnalyzer.ScrapePromptFor` | Streamlit/google_analyzer.py:69-75 | the prompt carries the query and the first min(len, 15000) characters of the page |
| `GoogleAnalyzer.AnalyzeScraped` | Streamlit/google_analyzer.py:53-85 | the model's answer, or the sentinel when the call raises |
| `GoogleAnalyzer.AssembleReport` | Streamlit/google_analyzer.py:113-120 | entry i carries scrape i's query and content and analysis i, same length |
| `GoogleAnalyzer.BuildReport` | Streamlit/google_analyzer.py:108-120 | for every surviving scrape in order, its query, its content and the analysis of that scrape |
| `GoogleAnalyzer.RunGoogleAnalysisPipeline` | Streamlit/google_analyzer.py:87-123 | `[]` when the trends response is empty or no query is built; otherwise the report over the surviving scrapes of the built queries, which is `[]` when none survives |
| `GoogleAnalyzer.FailedAnalysesAreSentinels` | Streamlit/google_analyzer.py:83-85 | an entry is the sentinel exactly when its model call raised, for a model that never answers with the sentinel's context |
| `TrendApp.QueryFileText` | Streamlit/test.py:46-48 | the file written is empty exactly when there is no query and otherwise ends with a newline |
| `TrendApp.QueryFileTextIsJoin` | Streamlit/test.py:46-48 | the file holds the queries joined by newlines, followed by a final newline |
| `TrendApp.WriteQueryFile` | Streamlit/test.py:46-48 | the write loop produces every query followed by a newline, in order |
| `TrendApp.GenerateAndSaveQueries` | Streamlit/test.py:32-51 | without trends the query file is left as it was; otherwise it holds the built queries, one per line |
| `TrendApp.StripLines` | Streamlit/test.py:117 | every line read back is non-empty and stripped at both ends, and there are no more of them than lines; membership both ways is in `StripLinesMembers` and order in `StripLinesAppend` |
| `TrendApp.ReadQueries` | Streamlit/test.py:116-117 | every query read back is a non-empty, stripped, single line; `ReadQueriesMembers` and `ReadQueriesOfLines` state which lines come back and in which order |
| `TrendApp.StripLinesMembers` | Streamlit/test.py:117 | every line whose strip is not empty is read back stripped, and every query read back is the strip of some line |
| `TrendApp.StripLinesAppend` | Streamlit/test.py:117 | the reader keeps the lines' order: reading a concatenation gives the concatenated readings |
| `TrendApp.ReadQueriesMembers` | Streamlit/test.py:116-117 | whatever the file holds, every non-blank line comes back stripped and every query read back is such a line |
| `TrendApp.ReadQueriesOfLines` | Streamlit/test.py:116-117 | a file of lines joined by newlines is read back line by line, in order |
| `TrendApp.StripLinesRoundTrip` | Streamlit/test.py:47-48 | clean lines written one per line come back unchanged from the strip-and-drop-blank reader |
| `TrendApp.ReadWriteRoundTrip` | Streamlit/test.py:117 | writing non-empty, single-line, unpadded queries and reading them back gives the same list |
| `TrendApp.BuiltQueryIsCleanLine` | Streamlit/test.py:41-43 | a built query is such a clean line when its keywords hold no line break |
| `TrendApp.SavedQueriesReadBack` | Streamlit/test.py:113-117 | with single-line keywords, the queries read back are exactly the built queries, in order |
| `TrendApp.RunGoogleApp` | Streamlit/test.py:100-148 | None when a key is missing, the trends response is empty, the file is missing, no query is read or no scrape survives; IndexError when a read query has no `=`; otherwise the report over the surviving scrapes of the queries read back; the query file as the save step leaves it |
| `TrendApp.FreshTrendsScrapeBuiltQueries` | Streamlit/test.py:113-130 | for a response with trends and single-line keywords, the app scrapes exactly the built queries and no scrape raises |
| `TrendApp.RunYoutubeApp` | Streamlit/test.py:209-254 | None when a key is missing, the request raises, `trending` is missing or empty, or no entry has both link and title; otherwise one report entry per selected video |
| `TrendApp.GoogleDisplayed` | Streamlit/test.py:312-314 | the Google view draws exactly the entries whose analysis context is not "Error during analysis."; `GoogleDisplayedAppend` states that it keeps report order |
| `TrendApp.GoogleDisplayedAppend` | Streamlit/test.py:312-314 | the view keeps report order and multiplicity: the view of a concatenation is the concatenation of the views |
| `TrendApp.GoogleViewHidesExactlyFailures` | Streamlit/test.py:313-314 | for a model that never answers with the sentinel's context, an entry is drawn exactly when its model call succeeded |
| `TrendApp.YoutubeDisplayed` | Streamlit/test.py:331-334 | the YouTube view draws every entry, in order, failed transcripts and sentinel analyses included |

## Left out

- The HTTP requests to the trends service (`fetch_google_trends` and the trending request) are not modelled. Their outcome is a parameter: a `TrendsData` value, with `{}` after a failed request, or a `TrendingResponse`.
- The transcript service, the search-and-scrape service and the model are foreign calls. Each is an oracle. The `languages` argument and the model name are not modelled.
- Semaphores, `asyncio.gather` and the thread pool are modelled as sequential maps. Their output order is the input order.
- `time.sleep` is recorded as a list of delays instead of being slept.
- Prompt wording and the function schema are not modelled. A prompt is its kind plus the title, query and content it carries.
- A model answer that parses as JSON but lacks one of the three fields is not modelled. Every answer is a three-field record, so the truthiness half of the display test always holds.
- The JSON report files, the scrape dump, the Streamlit widgets and the download button are not modelled. A saved report is the returned report value.
- An `IOError` while writing the query file is not modelled.
- File encoding is not modelled. Python's text-mode newline translation is modelled only as far as the strip-and-drop-blank reader can observe it.
- The `"Scraped content not available."` fallback is not modelled, because every scraped item has the key.
- `Transcript.FetchTranscriptForVideo`: `max_retries` is a natural number. A negative value, which makes Python try nothing and report "Last error: None", is not modelled.
- `TrendQueries.QueriesOf`: its own contract states only the length bound. Membership, order and the exact count are in `QueriesOfMembers`, `QueriesOfAppend` and `QueriesOfCount`.
- `Text.LineSegments`: its own contract states only that no segment holds a break. That the segments are the text between the breaks is in `JoinLineSegments` and `LineSegmentsOfJoin`.
- `TrendApp.StripLines`: its own contract states only that the lines read back are stripped and no more than the lines. Membership both ways is in `StripLinesMembers` and order in `StripLinesAppend`.
- `TrendApp.ReadQueries`: its own contract states only that every query read back is a clean line. Which lines come back, and in which order, is in `ReadQueriesMembers` and `ReadQueriesOfLines`.
- `TrendApp.GoogleDisplayed`: its own contract states membership only. Order and multiplicity are in `GoogleDisplayedAppend`.
- Values of unexpected types in the trend and trending JSON are not modelled: keywords, links and titles are strings or absent.
- `app.py`, the standalone trend scripts and the TikTok, Twitter and Pinterest fetchers are not part of this model.

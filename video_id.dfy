/**
 * `extract_video_id`: the id of a YouTube video from its URL. Three regular
 * expressions are tried in a fixed order, each a literal marker followed by a
 * capture of one or more characters from a negated class; the first that
 * `re.search` matches anywhere gives the id, and a URL that none matches
 * raises ValueError.
 */
module VideoId {
  import opened Wrappers

  /** The regular expression `<marker>([^<stops>]+)`. */
  datatype Pattern = Pattern(marker: string, stops: set<char>)

  /** `watch\?v=([^&]+)`, `youtu\.be/([^?&]+)` and `embed/([^?&]+)`, in the order they are tried. */
  const Patterns: seq<Pattern> := [
    Pattern("watch?v=", {'&'}),
    Pattern("youtu.be/", {'?', '&'}),
    Pattern("embed/", {'?', '&'})
  ]

  /** The text of the ValueError, followed by the URL. */
  const InvalidUrlMessage := "Invalid or unsupported YouTube URL format: "

  /** The pattern matches at position `i`: the marker, then at least one character outside `stops`. */
  predicate MatchesAt(url: string, p: Pattern, i: nat)
  {
    && i + |p.marker| < |url|
    && url[i..i + |p.marker|] == p.marker
    && url[i + |p.marker|] !in p.stops
  }

  /** `re.search(p, url)` is not None. */
  ghost predicate HasMatch(url: string, p: Pattern)
  {
    exists i: nat :: MatchesAt(url, p, i)
  }

  /** The leftmost position at or after `from` where the pattern matches, as `re.search` scans. */
  function FindMatch(url: string, p: Pattern, from: nat): (r: Option<nat>)
    requires from <= |url|
    ensures r.Some? ==> from <= r.value && MatchesAt(url, p, r.value)
    ensures r.Some? ==> forall j: nat :: from <= j < r.value ==> !MatchesAt(url, p, j)
    ensures r.None? ==> forall j: nat :: from <= j ==> !MatchesAt(url, p, j)
    decreases |url| - from
  {
    if from == |url| then None
    else if MatchesAt(url, p, from) then Some(from)
    else FindMatch(url, p, from + 1)
  }

  /** Where the greedy run of characters outside `stops` that begins at `start` ends. */
  function RunEnd(s: string, start: nat, stops: set<char>): (end: nat)
    requires start <= |s|
    ensures start <= end <= |s|
    ensures forall k :: start <= k < end ==> s[k] !in stops
    ensures end == |s| || s[end] in stops
    decreases |s| - start
  {
    if start == |s| || s[start] in stops then start else RunEnd(s, start + 1, stops)
  }

  /**
   * `id` is group 1 of the match at `i`, and `i` is the leftmost match: the
   * text right after the marker, free of stop characters and followed by a
   * stop character or the end of the URL.
   */
  ghost predicate IsLeftmostCapture(url: string, p: Pattern, i: nat, id: string)
  {
    && MatchesAt(url, p, i)
    && (forall j: nat :: j < i ==> !MatchesAt(url, p, j))
    && i + |p.marker| + |id| <= |url|
    && url[i + |p.marker|..i + |p.marker| + |id|] == id
    && (forall c :: c in id ==> c !in p.stops)
    && (i + |p.marker| + |id| == |url| || url[i + |p.marker| + |id|] in p.stops)
  }

  /** `id` is the capture of the first pattern, in priority order, that matches anywhere in `url`. */
  ghost predicate IsVideoIdOf(url: string, id: string)
  {
    exists k: nat, i: nat ::
      && k < |Patterns|
      && (forall j :: 0 <= j < k ==> !HasMatch(url, Patterns[j]))
      && IsLeftmostCapture(url, Patterns[k], i, id)
  }

  /** `match.group(1)` for the match at `i`. */
  function Capture(url: string, p: Pattern, i: nat): (id: string)
    requires MatchesAt(url, p, i)
    requires forall j: nat :: j < i ==> !MatchesAt(url, p, j)
    ensures IsLeftmostCapture(url, p, i, id)
  {
    var start := i + |p.marker|;
    url[start..RunEnd(url, start, p.stops)]
  }

  /** The loop over `patterns`, from the k-th on, returning the first capture found. */
  function SearchPatterns(url: string, k: nat): Option<string>
    requires k <= |Patterns|
    decreases |Patterns| - k
  {
    if k == |Patterns| then None
    else
      match FindMatch(url, Patterns[k], 0)
      case Some(i) => Some(Capture(url, Patterns[k], i))
      case None => SearchPatterns(url, k + 1)
  }

  /**
   * The loop finds nothing iff no pattern from the k-th on matches, and
   * otherwise finds the leftmost capture of the first one that does.
   */
  lemma {:induction false} SearchPatternsMeaning(url: string, k: nat)
    requires k <= |Patterns|
    ensures SearchPatterns(url, k).None? <==> forall j :: k <= j < |Patterns| ==> !HasMatch(url, Patterns[j])
    ensures SearchPatterns(url, k).Some? ==>
              exists k': nat, i: nat ::
                && k <= k' < |Patterns|
                && (forall j :: k <= j < k' ==> !HasMatch(url, Patterns[j]))
                && IsLeftmostCapture(url, Patterns[k'], i, SearchPatterns(url, k).value)
    decreases |Patterns| - k
  {
    if k < |Patterns| {
      match FindMatch(url, Patterns[k], 0)
      case Some(i) =>
        assert IsLeftmostCapture(url, Patterns[k], i, Capture(url, Patterns[k], i));
      case None =>
        assert !HasMatch(url, Patterns[k]);
        SearchPatternsMeaning(url, k + 1);
    }
  }

  /**
   * `extract_video_id(url)`: the id, or the ValueError's message. A returned
   * id is never empty and never holds '&'; `ExtractVideoIdMeaning` says which
   * id it is.
   */
  function ExtractVideoId(url: string): (r: Result<string, string>)
    ensures r.Failure? ==> r.error == InvalidUrlMessage + url
    ensures r.Success? ==> |r.value| > 0 && '&' !in r.value
  {
    match SearchPatterns(url, 0)
    case Some(id) =>
      SearchPatternsMeaning(url, 0);
      CaptureIsNonEmpty(url, id);
      Success(id)
    case None => Failure(InvalidUrlMessage + url)
  }

  /**
   * `extract_video_id` fails exactly when no pattern matches anywhere, and
   * otherwise returns the capture of the first pattern that does.
   */
  lemma ExtractVideoIdMeaning(url: string)
    ensures ExtractVideoId(url).Failure? <==> forall k :: 0 <= k < |Patterns| ==> !HasMatch(url, Patterns[k])
    ensures ExtractVideoId(url).Success? ==> IsVideoIdOf(url, ExtractVideoId(url).value)
  {
    SearchPatternsMeaning(url, 0);
  }

  /** Every pattern's capture is non-empty and free of '&'. */
  lemma CaptureIsNonEmpty(url: string, id: string)
    requires IsVideoIdOf(url, id)
    ensures |id| > 0 && '&' !in id
  {
    var k: nat, i: nat :| k < |Patterns| && IsLeftmostCapture(url, Patterns[k], i, id);
    assert '&' in Patterns[k].stops;
  }

  /** A maximal run of non-stop characters that starts at a given position is unique. */
  lemma {:induction false} MaximalRunIsUnique(url: string, p: Pattern, i: nat, a: string, b: string)
    requires IsLeftmostCapture(url, p, i, a) && IsLeftmostCapture(url, p, i, b)
    ensures a == b
  {
    assert |a| == |b|;
  }

  /** The first matching pattern, its leftmost match and the maximal run determine the id. */
  lemma {:induction false} VideoIdIsUnique(url: string, a: string, b: string)
    requires IsVideoIdOf(url, a) && IsVideoIdOf(url, b)
    ensures a == b
  {
    var ka: nat, ia: nat :|
      && ka < |Patterns|
      && (forall j :: 0 <= j < ka ==> !HasMatch(url, Patterns[j]))
      && IsLeftmostCapture(url, Patterns[ka], ia, a);
    var kb: nat, ib: nat :|
      && kb < |Patterns|
      && (forall j :: 0 <= j < kb ==> !HasMatch(url, Patterns[j]))
      && IsLeftmostCapture(url, Patterns[kb], ib, b);
    assert ka == kb;
    assert ia == ib;
    MaximalRunIsUnique(url, Patterns[ka], ia, a, b);
  }

  /** Ids from the `youtu.be/` and `embed/` forms (no `watch?v=` match) hold no '?' either. */
  lemma {:induction false} ShortFormIdHasNoQuery(url: string)
    requires ExtractVideoId(url).Success?
    requires !HasMatch(url, Patterns[0])
    ensures '?' !in ExtractVideoId(url).value
  {
    var id := ExtractVideoId(url).value;
    ExtractVideoIdMeaning(url);
    var k: nat, i: nat :|
      && k < |Patterns|
      && (forall j :: 0 <= j < k ==> !HasMatch(url, Patterns[j]))
      && IsLeftmostCapture(url, Patterns[k], i, id);
    assert '?' in Patterns[k].stops;
  }
}

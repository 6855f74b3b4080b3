/**
 * The few Python string operations the analyzers rely on, as functions on
 * `seq<char>`: `sep.join`, `str.replace` on one character, slicing a prefix,
 * `str.split(sep)[1]`, `str.strip` and iterating over the lines of a text file.
 */
module Text {
  import opened Wrappers

  /** Python truthiness of a value that is a string or None: present and non-empty. */
  predicate IsTruthy(s: Option<string>)
  {
    s.Some? && s.value != ""
  }

  /**
   * `sep.join(parts)`: the parts with `sep` between consecutive ones. The
   * text starts with the first part; `LineSegmentsOfJoin` recovers every
   * part when `sep` is a newline.
   */
  function Join(sep: string, parts: seq<string>): (r: string)
    ensures |parts| == 0 ==> r == ""
    ensures |parts| > 0 ==> parts[0] <= r
  {
    if |parts| == 0 then ""
    else if |parts| == 1 then parts[0]
    else parts[0] + sep + Join(sep, parts[1..])
  }

  /** A character found in neither the separator nor any part is not in the joined string. */
  lemma {:induction false} JoinAvoids(sep: string, parts: seq<string>, c: char)
    requires c !in sep
    requires forall i :: 0 <= i < |parts| ==> c !in parts[i]
    ensures c !in Join(sep, parts)
  {
    if |parts| > 1 {
      JoinAvoids(sep, parts[1..], c);
    }
  }

  /** `s.replace(target, replacement)` for single characters. */
  function ReplaceChar(s: string, target: char, replacement: char): (r: string)
    ensures |r| == |s|
    ensures forall i :: 0 <= i < |s| ==> r[i] == if s[i] == target then replacement else s[i]
  {
    if s == [] then []
    else [if s[0] == target then replacement else s[0]] + ReplaceChar(s[1..], target, replacement)
  }

  /** `s[:n]`: the first `n` elements, or all of `s` when it is shorter. */
  function Take<T>(s: seq<T>, n: nat): (r: seq<T>)
    ensures |r| == if |s| <= n then |s| else n
    ensures r == s[..|r|]
  {
    if |s| <= n then s else s[..n]
  }

  /** `s.find(c)`, with None for Python's -1. */
  function IndexOf(s: string, c: char): (r: Option<nat>)
    ensures r.None? <==> c !in s
    ensures r.Some? ==> r.value < |s| && s[r.value] == c && c !in s[..r.value]
  {
    if s == [] then None
    else if s[0] == c then Some(0)
    else
      match IndexOf(s[1..], c)
      case None => None
      case Some(i) =>
        assert s[..i + 1] == [s[0]] + s[1..][..i];
        Some(i + 1)
  }

  /** The first occurrence is the one with none before it. */
  lemma IndexOfIs(s: string, c: char, k: nat)
    requires k < |s| && s[k] == c && c !in s[..k]
    ensures IndexOf(s, c) == Some(k)
  {
  }

  /**
   * `s.split(sep)[1]`: the text between the first and the second `sep`, or
   * up to the end when there is no second one. None where Python raises
   * IndexError, i.e. when `sep` does not occur.
   */
  function SecondField(s: string, sep: char): (r: Option<string>)
    ensures r.None? <==> sep !in s
    ensures r.Some? ==> sep !in r.value
    ensures r.Some? ==>
              var start := IndexOf(s, sep).value + 1;
              && start + |r.value| <= |s|
              && r.value == s[start..start + |r.value|]
              && (start + |r.value| == |s| || s[start + |r.value|] == sep)
  {
    match IndexOf(s, sep)
    case None => None
    case Some(i) =>
      var rest := s[i + 1..];
      match IndexOf(rest, sep)
      case None => Some(rest)
      case Some(j) => Some(rest[..j])
  }

  /** `s` without its leading characters that belong to `cs`. */
  function DropLeading(s: string, cs: set<char>): (r: string)
    ensures |r| <= |s| && r == s[|s| - |r|..]
    ensures forall i :: 0 <= i < |s| - |r| ==> s[i] in cs
    ensures r == [] || r[0] !in cs
  {
    if s != [] && s[0] in cs then DropLeading(s[1..], cs) else s
  }

  /** `s` without its trailing characters that belong to `cs`. */
  function DropTrailing(s: string, cs: set<char>): (r: string)
    ensures |r| <= |s| && r == s[..|r|]
    ensures forall i :: |r| <= i < |s| ==> s[i] in cs
    ensures r == [] || r[|r| - 1] !in cs
  {
    if s != [] && s[|s| - 1] in cs then DropTrailing(s[..|s| - 1], cs) else s
  }

  /**
   * `s.strip(chars)` with `cs` the set of `chars`: the result neither starts
   * nor ends with a character of `cs`, and a string that already did not is
   * returned unchanged. `StripIsMiddle` says which characters remain.
   */
  function Strip(s: string, cs: set<char>): (r: string)
    ensures |r| <= |s|
    ensures r == [] || (r[0] !in cs && r[|r| - 1] !in cs)
    ensures (s == [] || (s[0] !in cs && s[|s| - 1] !in cs)) ==> r == s
    ensures (forall i :: 0 <= i < |s| ==> s[i] in cs) ==> r == []
  {
    DropTrailing(DropLeading(s, cs), cs)
  }

  /** `r` is the slice of `s` at `k`, with only characters of `cs` before and after it. */
  predicate IsMiddleOf(r: string, s: string, cs: set<char>, k: nat)
  {
    && k + |r| <= |s|
    && r == s[k..k + |r|]
    && (forall i :: 0 <= i < k ==> s[i] in cs)
    && (forall i :: k + |r| <= i < |s| ==> s[i] in cs)
  }

  /**
   * `strip` removes exactly the leading and the trailing run of characters of
   * `cs`: the result is a slice of `s` with only such characters around it,
   * and since it neither starts nor ends with one, the runs are the maximal ones.
   */
  lemma StripIsMiddle(s: string, cs: set<char>)
    ensures exists k :: IsMiddleOf(Strip(s, cs), s, cs, k)
  {
    var l := DropLeading(s, cs);
    var r := DropTrailing(l, cs);
    assert Strip(s, cs) == r;
    assert s[|s| - |l|..][..|r|] == s[|s| - |l|..|s| - |l| + |r|];
    assert IsMiddleOf(r, s, cs, |s| - |l|);
  }

  /** Stripping adds no character: one absent from `s` is absent from the result. */
  lemma {:induction false} StripAvoids(s: string, cs: set<char>, c: char)
    requires c !in s
    ensures c !in Strip(s, cs)
  {
    var l := DropLeading(s, cs);
    assert l == s[|s| - |l|..];
    assert c !in l;
    var t := DropTrailing(l, cs);
    assert t == l[..|t|];
  }

  /** A leading character of `cs` is dropped. */
  lemma DropLeadingCons(c: char, t: string, cs: set<char>)
    requires c in cs
    ensures DropLeading([c] + t, cs) == DropLeading(t, cs)
  {
    assert ([c] + t)[1..] == t;
  }

  /** A trailing character of `cs` is dropped. */
  lemma DropTrailingSnoc(t: string, c: char, cs: set<char>)
    requires c in cs
    ensures DropTrailing(t + [c], cs) == DropTrailing(t, cs)
  {
    assert (t + [c])[..|t|] == t;
  }

  /** Stripping `c` off `c + x + c` gives back `x` when `x` neither starts nor ends with `c`. */
  lemma {:induction false} StripWrapped(x: string, c: char)
    requires x == [] || (x[0] != c && x[|x| - 1] != c)
    ensures Strip([c] + x + [c], {c}) == x
  {
    var tail := x + [c];
    assert [c] + x + [c] == [c] + tail;
    DropLeadingCons(c, tail, {c});
    if x == [] {
      DropLeadingCons(c, [], {c});
    } else {
      assert DropLeading(tail, {c}) == tail;
      DropTrailingSnoc(x, c, {c});
    }
  }

  /** The characters for which Python's `str.isspace()` holds, which `str.strip()` removes. */
  const Whitespace: set<char> :=
    {' ', '\t', '\n', '\r', '\U{0B}', '\U{0C}', '\U{1C}', '\U{1D}', '\U{1E}', '\U{1F}',
     '\U{85}', '\U{A0}', '\U{1680}', '\U{2000}', '\U{2001}', '\U{2002}', '\U{2003}',
     '\U{2004}', '\U{2005}', '\U{2006}', '\U{2007}', '\U{2008}', '\U{2009}', '\U{200A}',
     '\U{2028}', '\U{2029}', '\U{202F}', '\U{205F}', '\U{3000}'}

  /** The characters that end a line when Python reads a file in text mode. */
  predicate IsLineBreak(c: char)
  {
    c == '\n' || c == '\r'
  }

  predicate HasNoLineBreak(s: string)
  {
    forall i :: 0 <= i < |s| ==> !IsLineBreak(s[i])
  }

  /**
   * The text between consecutive line breaks of `s`, splitting at every "\n"
   * and every "\r". Python's text mode turns "\r\n" and a lone "\r" into
   * "\n" and yields each line with its "\n". A segment is such a line without
   * its line ending, with two differences: "\r\n" gives an extra empty
   * segment, and text that is empty or ends with a break gives an empty last
   * segment. Stripping a line removes its "\n" and dropping blank lines
   * removes the empty segments, so a reader doing both sees the same queries.
   */
  function LineSegments(s: string): (ls: seq<string>)
    ensures |ls| >= 1
    ensures forall i :: 0 <= i < |ls| ==> HasNoLineBreak(ls[i])
  {
    if s == [] then [""]
    else if IsLineBreak(s[0]) then [""] + LineSegments(s[1..])
    else
      var rest := LineSegments(s[1..]);
      [[s[0]] + rest[0]] + rest[1..]
  }

  /** A line written with its "\n" comes back as one segment. */
  lemma {:induction false} LineSegmentsOfLine(line: string, rest: string)
    requires HasNoLineBreak(line)
    ensures LineSegments(line + "\n" + rest) == [line] + LineSegments(rest)
  {
    var s := line + "\n" + rest;
    if line == [] {
      assert s == "\n" + rest;
      assert s[1..] == rest;
    } else {
      assert s[0] == line[0] && !IsLineBreak(s[0]);
      assert s[1..] == line[1..] + "\n" + rest;
      LineSegmentsOfLine(line[1..], rest);
      assert [line[0]] + line[1..] == line;
    }
  }

  /** A text without line breaks is one segment. */
  lemma {:induction false} LineSegmentsOfPlain(line: string)
    requires HasNoLineBreak(line)
    ensures LineSegments(line) == [line]
  {
    if line != [] {
      LineSegmentsOfPlain(line[1..]);
      assert [line[0]] + line[1..] == line;
    }
  }

  /** Lines joined by "\n" split back into the same lines, in order. */
  lemma {:induction false} LineSegmentsOfJoin(lines: seq<string>)
    requires |lines| > 0
    requires forall i :: 0 <= i < |lines| ==> HasNoLineBreak(lines[i])
    ensures LineSegments(Join("\n", lines)) == lines
  {
    if |lines| == 1 {
      LineSegmentsOfPlain(lines[0]);
    } else {
      var first, rest := lines[0], lines[1..];
      assert forall i :: 0 <= i < |rest| ==> rest[i] == lines[i + 1];
      LineSegmentsOfJoin(rest);
      var tail := Join("\n", rest);
      assert Join("\n", lines) == first + "\n" + tail;
      LineSegmentsOfLine(first, tail);
      assert [first] + rest == lines;
    }
  }

  /** Prepending a character to the first part prepends it to the joined text. */
  lemma JoinConsFirst(sep: string, c: char, parts: seq<string>)
    requires |parts| > 0
    ensures Join(sep, [[c] + parts[0]] + parts[1..]) == [c] + Join(sep, parts)
  {
    var ps := [[c] + parts[0]] + parts[1..];
    assert ps[1..] == parts[1..];
  }

  /** Reading a leading character of `s` as the text after it is read. */
  lemma ReplaceCharCons(s: string, target: char, replacement: char)
    requires s != []
    ensures ReplaceChar(s, target, replacement)
         == [if s[0] == target then replacement else s[0]] + ReplaceChar(s[1..], target, replacement)
  {
  }

  /** A leading break adds an empty segment, which joining turns back into "\n". */
  lemma JoinLineSegmentsBreak(s: string)
    requires s != [] && IsLineBreak(s[0])
    requires Join("\n", LineSegments(s[1..])) == ReplaceChar(s[1..], '\r', '\n')
    ensures Join("\n", LineSegments(s)) == ReplaceChar(s, '\r', '\n')
  {
    var rest := LineSegments(s[1..]);
    var segments := [""] + rest;
    assert LineSegments(s) == segments;
    assert |segments| > 1 && segments[0] == "" && segments[1..] == rest;
    assert Join("\n", segments) == "\n" + Join("\n", rest);
    ReplaceCharCons(s, '\r', '\n');
    assert (if s[0] == '\r' then '\n' else s[0]) == '\n';
  }

  /** Any other leading character goes to the front of the first segment. */
  lemma JoinLineSegmentsChar(s: string)
    requires s != [] && !IsLineBreak(s[0])
    requires Join("\n", LineSegments(s[1..])) == ReplaceChar(s[1..], '\r', '\n')
    ensures Join("\n", LineSegments(s)) == ReplaceChar(s, '\r', '\n')
  {
    var rest := LineSegments(s[1..]);
    assert LineSegments(s) == [[s[0]] + rest[0]] + rest[1..];
    JoinConsFirst("\n", s[0], rest);
    ReplaceCharCons(s, '\r', '\n');
  }

  /**
   * The segments are exactly the text between the breaks: joining them with
   * "\n" gives back `s` with every "\r" read as "\n".
   */
  lemma {:induction false} JoinLineSegments(s: string)
    ensures Join("\n", LineSegments(s)) == ReplaceChar(s, '\r', '\n')
  {
    if s != [] {
      JoinLineSegments(s[1..]);
      if IsLineBreak(s[0]) {
        JoinLineSegmentsBreak(s);
      } else {
        JoinLineSegmentsChar(s);
      }
    }
  }
}

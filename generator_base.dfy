/**
 * GeneratorBase: the shared helpers of the section generators of the newer
 * pipeline: word counting and the range check, citation extraction by the
 * IEEE and APA patterns, the numbered-list parse of the key-point reply and
 * its fallback, the length adjustment request and its fallback, and the
 * covered-points part of the base prompt.
 *
 * The LLM's answers are inputs; `None` stands for a call that raised.
 */
module GeneratorBase {
  import opened Wrappers
  import opened Text
  import opened Seqs

  // ---------------------------------------------------------------- word count

  /** `_validate_word_count`: the count of whitespace-separated tokens, and whether it lies in the range. */
  function ValidateWordCount(content: string, minWords: int, maxWords: int): (r: (bool, int))
    ensures r.1 == |Words(content)| && r.1 >= 0
    ensures r.0 <==> minWords <= r.1 <= maxWords
  {
    var count := WordCount(content);
    (minWords <= count <= maxWords, count)
  }

  /** Words joined by single spaces are counted one each, so the check is on the number of words. */
  lemma ValidateJoined(ws: seq<string>, minWords: int, maxWords: int)
    requires forall i :: 0 <= i < |ws| ==> IsWord(ws[i])
    ensures ValidateWordCount(Join(" ", ws), minWords, maxWords) == (minWords <= |ws| <= maxWords, |ws|)
  {
    WordsOfJoin(ws);
  }

  // ---------------------------------------------------------------- scanning

  /** The end of the run of characters satisfying `p` that starts at `k`. */
  function RunEnd(s: string, k: nat, p: char -> bool): (e: nat)
    requires k <= |s|
    ensures k <= e <= |s|
    ensures forall j :: k <= j < e ==> p(s[j])
    ensures e < |s| ==> !p(s[e])
    decreases |s| - k
  {
    if k < |s| && p(s[k]) then RunEnd(s, k + 1, p) else k
  }

  predicate NotNewline(c: char) { c != '\n' }

  // ---------------------------------------------------------------- citations

  /** The two citation patterns. */
  datatype Pattern =
    | Ieee  // \[\d+\]
    | Apa   // \([A-Z][a-z]+,?\s+\d{4}\)

  /** `\d{4}\)` at `w`. */
  predicate YearClose(s: string, w: nat)
  {
    w + 4 < |s| && IsDigit(s[w]) && IsDigit(s[w + 1]) && IsDigit(s[w + 2]) && IsDigit(s[w + 3]) && s[w + 4] == ')'
  }

  /**
   * The end of the pattern's match at `i`, if it matches there. Neither
   * pattern can backtrack into a different match: each run is followed by a
   * character the run cannot hold.
   */
  function MatchEnd(p: Pattern, s: string, i: nat): (r: Option<nat>)
    ensures r.Some? ==> i < r.value <= |s|
  {
    match p
    case Ieee =>
      if i < |s| && s[i] == '[' then
        var j := RunEnd(s, i + 1, IsDigit);
        if j > i + 1 && j < |s| && s[j] == ']' then Some(j + 1) else None
      else None
    case Apa =>
      if i + 1 < |s| && s[i] == '(' && IsUpper(s[i + 1]) then
        var l := RunEnd(s, i + 2, IsLowerLetter);
        var c := if l < |s| && s[l] == ',' then l + 1 else l;
        var w := RunEnd(s, c, IsSpace);
        if l > i + 2 && w > c && YearClose(s, w) then Some(w + 5) else None
      else None
  }

  /** The character that opens a match. */
  function Opener(p: Pattern): char
  {
    match p
    case Ieee => '['
    case Apa => '('
  }

  /** Inside a match there is no opener, so no other match starts there. */
  lemma NoOpenerInside(p: Pattern, s: string, i: nat, k: nat)
    requires MatchEnd(p, s, i).Some? && i < k < MatchEnd(p, s, i).value
    ensures s[i] == Opener(p) && s[k] != Opener(p)
    ensures MatchEnd(p, s, k).None?
  {
    match p
    case Ieee => NoOpenerInsideIeee(s, i, k);
    case Apa => NoOpenerInsideApa(s, i, k);
  }

  lemma NoOpenerInsideIeee(s: string, i: nat, k: nat)
    requires MatchEnd(Ieee, s, i).Some? && i < k < MatchEnd(Ieee, s, i).value
    ensures s[k] != '['
  {
    var j := RunEnd(s, i + 1, IsDigit);
    if k < j {
      assert IsDigit(s[k]);
    }
  }

  lemma NoOpenerInsideApa(s: string, i: nat, k: nat)
    requires MatchEnd(Apa, s, i).Some? && i < k < MatchEnd(Apa, s, i).value
    ensures s[k] != '('
  {
    var l := RunEnd(s, i + 2, IsLowerLetter);
    var c := if l < |s| && s[l] == ',' then l + 1 else l;
    var w := RunEnd(s, c, IsSpace);
    if k == i + 1 {
    } else if k < l {
      assert IsLowerLetter(s[k]);
    } else if k < c {
    } else if k < w {
      assert IsSpace(s[k]);
    } else {
      assert k <= w + 4;
    }
  }

  /** `re.findall(pattern, s)` from `i`: each search resumes after the previous match. */
  function Scan(p: Pattern, s: string, i: nat): seq<string>
    decreases |s| - i
  {
    if i >= |s| then []
    else
      match MatchEnd(p, s, i)
      case Some(e) => [s[i..e]] + Scan(p, s, e)
      case None => Scan(p, s, i + 1)
  }

  /** A match of the pattern sits at `a`, spelled `x`. */
  predicate MatchAt(p: Pattern, s: string, a: nat, x: string)
  {
    MatchEnd(p, s, a).Some? && x == s[a..MatchEnd(p, s, a).value]
  }

  /** Every scanned string is a match at some position from `i` on. */
  lemma {:induction false} ScanSound(p: Pattern, s: string, i: nat, x: string) returns (a: nat)
    requires x in Scan(p, s, i)
    ensures i <= a && MatchAt(p, s, a, x)
    decreases |s| - i
  {
    match MatchEnd(p, s, i)
    case Some(e) =>
      if x == s[i..e] {
        a := i;
      } else {
        a := ScanSound(p, s, e, x);
      }
    case None =>
      a := ScanSound(p, s, i + 1, x);
  }

  /** Every match at a position from `i` on is scanned: no match is skipped. */
  lemma {:induction false} ScanComplete(p: Pattern, s: string, i: nat, a: nat, x: string)
    requires i <= a && MatchAt(p, s, a, x)
    ensures x in Scan(p, s, i)
    decreases |s| - i
  {
    match MatchEnd(p, s, i)
    case Some(e) =>
      if a != i {
        if a < e {
          NoOpenerInside(p, s, i, a);
        }
        ScanComplete(p, s, e, a, x);
      }
    case None =>
      ScanComplete(p, s, i + 1, a, x);
  }

  /** `_extract_citations`: the distinct matches of both patterns (a set; the list's order is the set's). */
  function ExtractCitations(content: string): set<string>
  {
    (set x | x in Scan(Ieee, content, 0)) + (set x | x in Scan(Apa, content, 0))
  }

  /** A string is extracted iff it is a match of one of the two patterns somewhere in the content. */
  lemma ExtractCitationsSpec(content: string, x: string)
    ensures x in ExtractCitations(content) ==>
      exists a: nat :: MatchAt(Ieee, content, a, x) || MatchAt(Apa, content, a, x)
    ensures forall a: nat :: MatchAt(Ieee, content, a, x) || MatchAt(Apa, content, a, x) ==> x in ExtractCitations(content)
  {
    if x in Scan(Ieee, content, 0) {
      var a := ScanSound(Ieee, content, 0, x);
    } else if x in Scan(Apa, content, 0) {
      var a := ScanSound(Apa, content, 0, x);
    }
    forall a: nat | MatchAt(Ieee, content, a, x) || MatchAt(Apa, content, a, x)
      ensures x in ExtractCitations(content)
    {
      if MatchAt(Ieee, content, a, x) {
        ScanComplete(Ieee, content, 0, a, x);
      } else {
        ScanComplete(Apa, content, 0, a, x);
      }
    }
  }

  /** The two citation styles as written in text. */
  lemma CitationExamples()
    ensures MatchAt(Ieee, "[12]", 0, "[12]")
    ensures MatchAt(Apa, "(Smith, 2020)", 0, "(Smith, 2020)")
    ensures MatchEnd(Ieee, "[]", 0).None? && MatchEnd(Apa, "(smith 2020)", 0).None?
  {
    var s := "(Smith, 2020)";
    assert RunEnd(s, 2, IsLowerLetter) == 6 by {
      assert IsLowerLetter(s[2]) && IsLowerLetter(s[3]) && IsLowerLetter(s[4]) && IsLowerLetter(s[5]);
      assert RunEnd(s, 6, IsLowerLetter) == 6;
    }
    assert RunEnd(s, 7, IsSpace) == 8 by {
      assert RunEnd(s, 8, IsSpace) == 8;
    }
    var t := "[12]";
    assert RunEnd(t, 1, IsDigit) == 3 by {
      assert RunEnd(t, 3, IsDigit) == 3;
    }
  }

  // ---------------------------------------------------------------- key points

  /**
   * The match of `\d+\.\s+(.+)` at the start of `s`: the group's start and
   * end. `\s+` may cross line breaks and `.+` runs to the end of its line.
   * When `\s+` runs to the end of the text, the regex can only match by
   * giving back whitespace, which yields a blank group that the caller
   * drops; that case is treated as no match. The pattern has no anchor and
   * looks at nothing before its start, so matching at a position of a text
   * is matching at the start of its suffix.
   */
  function PointAt(s: string): (r: Option<(nat, nat)>)
    ensures r.Some? ==> 0 < r.value.0 < r.value.1 <= |s|
  {
    if 0 < |s| && IsDigit(s[0]) then
      var j := RunEnd(s, 0, IsDigit);
      if j < |s| && s[j] == '.' then
        var w := RunEnd(s, j + 1, IsSpace);
        if j + 1 < w < |s| then Some((w, RunEnd(s, w, NotNewline))) else None
      else None
    else None
  }

  /** The groups `re.findall` returns: each search resumes after the previous match. */
  function Groups(s: string): seq<string>
    decreases |s|
  {
    if s == [] then []
    else
      match PointAt(s)
      case Some(g) => [s[g.0..g.1]] + Groups(s[g.1..])
      case None => Groups(s[1..])
  }

  predicate NonEmpty(p: string) { p != "" }

  /** The parse of a reply: the stripped groups that are not blank. */
  function PointsFromReply(reply: string): (ps: seq<string>)
    ensures forall k :: 0 <= k < |ps| ==> ps[k] != ""
  {
    Filter(Map(Groups(reply), Strip), NonEmpty)
  }

  /** `p.split('.')[0]`. */
  function FirstSentence(p: string): string
  {
    SplitOn(p, ".")[0]
  }

  predicate NotBlank(p: string) { Strip(p) != "" }

  /** The fallback: the first sentence of each non-blank paragraph among the first five. */
  function FallbackPoints(content: string): seq<string>
  {
    Map(Filter(TakePy(SplitOn(content, "\n\n"), 5), NotBlank), FirstSentence)
  }

  /** `_extract_key_points`: the parsed reply, or the fallback when the call raised. */
  function ExtractKeyPoints(content: string, reply: Option<string>): seq<string>
  {
    match reply
    case Some(r) => PointsFromReply(r)
    case None => FallbackPoints(content)
  }

  /** The first piece of a split is a prefix of the text and holds no separator. */
  lemma FirstPiece(s: string, sep: string)
    requires |sep| > 0
    ensures var f := SplitOn(s, sep)[0]; |f| <= |s| && f == s[..|f|] && !Contains(f, sep)
  {
    SplitPiecesFree(s, sep);
    match IndexOf(s, sep)
    case None =>
    case Some(i) =>
  }

  /** Each element of a filtered, mapped sequence is the image of a kept element. */
  lemma {:induction false} MapFilterOrigin<T, U>(xs: seq<T>, keep: T -> bool, f: T -> U, k: nat) returns (j: nat)
    requires k < |Filter(xs, keep)|
    ensures j < |xs| && keep(xs[j]) && Map(Filter(xs, keep), f)[k] == f(xs[j])
    decreases |xs|
  {
    var n := |xs| - 1;
    var before := Filter(xs[..n], keep);
    if k < |before| {
      j := MapFilterOrigin(xs[..n], keep, f, k);
      assert Filter(xs, keep)[k] == before[k];
    } else {
      j := n;
    }
  }

  /** `content.split('\n\n')`. */
  function Paragraphs(content: string): seq<string>
  {
    SplitOn(content, "\n\n")
  }

  /** The fallback gives at most five points. */
  lemma FallbackBound(content: string)
    ensures |FallbackPoints(content)| <= 5
  {
  }

  /**
   * Each fallback point is the text of a non-blank paragraph, among the
   * first five, up to its first full stop.
   */
  lemma FallbackOrigin(content: string, k: nat) returns (j: nat)
    requires k < |FallbackPoints(content)|
    ensures j < 5 && j < |Paragraphs(content)| && NotBlank(Paragraphs(content)[j])
    ensures var r := FallbackPoints(content)[k];
      && !Contains(r, ".") && |r| <= |Paragraphs(content)[j]| && r == Paragraphs(content)[j][..|r|]
  {
    var first := TakePy(Paragraphs(content), 5);
    j := MapFilterOrigin(first, NotBlank, FirstSentence, k);
    FirstPiece(first[j], ".");
  }

  /** A point that survives the parse unchanged: non-empty, on one line, with no whitespace at either end. */
  predicate PlainPoint(p: string)
  {
    p != [] && !IsSpace(p[0]) && !IsSpace(p[|p| - 1]) && forall k :: 0 <= k < |p| ==> p[k] != '\n'
  }

  /** The line `"<n>. <point>"` of a numbered list. */
  function Item(n: nat, p: string): string
  {
    NatToString(n) + ". " + p
  }

  /** The numbered list, one item per line, numbered from `n`. */
  function NumberedLines(points: seq<string>, n: nat): (ls: seq<string>)
    ensures |ls| == |points|
    decreases |points|
  {
    if points == [] then [] else [Item(n, points[0])] + NumberedLines(points[1..], n + 1)
  }

  /** An item is one match whose group is the point, running to the end of its line. */
  lemma ItemMatch(n: nat, p: string, rest: string)
    requires PlainPoint(p)
    requires rest == [] || rest[0] == '\n'
    ensures var line := Item(n, p);
      PointAt(line + rest) == Some((|line| - |p|, |line|))
  {
    var num := NatToString(n);
    var line := Item(n, p);
    var s := line + rest;
    var d := |num|;
    assert s[..d] == num;
    assert s[d] == '.' && s[d + 1] == ' ';
    assert forall j :: 0 <= j < d ==> s[j] == num[j];
    assert RunEnd(s, 0, IsDigit) == d by {
      RunAll(s, 0, d, IsDigit);
    }
    assert s[d + 2] == p[0];
    assert RunEnd(s, d + 1, IsSpace) == d + 2 by {
      RunAll(s, d + 1, d + 2, IsSpace);
    }
    assert RunEnd(s, d + 2, NotNewline) == |line| by {
      forall j | d + 2 <= j < |line| ensures NotNewline(s[j]) {
        assert s[j] == p[j - d - 2];
      }
      RunAll(s, d + 2, |line|, NotNewline);
    }
  }

  /** A run of characters satisfying `p` from `k` to `e`, followed by one that does not, ends at `e`. */
  lemma {:induction false} RunAll(s: string, k: nat, e: nat, p: char -> bool)
    requires k <= e <= |s|
    requires forall j :: k <= j < e ==> p(s[j])
    requires e < |s| ==> !p(s[e])
    ensures RunEnd(s, k, p) == e
    decreases e - k
  {
    if k < e {
      RunAll(s, k + 1, e, p);
    }
  }

  /** The scan of a text that opens with an item: the point, then the scan after its line. */
  lemma GroupsOfItem(n: nat, p: string, rest: string)
    requires PlainPoint(p)
    requires rest == [] || rest[0] == '\n'
    ensures Groups(Item(n, p) + rest) == [p] + Groups(rest)
  {
    var line := Item(n, p);
    var s := line + rest;
    ItemMatch(n, p, rest);
    assert s[|line| - |p|..|line|] == p;
    assert s[|line|..] == rest;
  }

  /** The groups of a numbered list written one item per line are its points. */
  lemma {:induction false} GroupsOfNumbered(points: seq<string>, n: nat)
    requires forall k :: 0 <= k < |points| ==> PlainPoint(points[k])
    ensures Groups(Join("\n", NumberedLines(points, n))) == points
    decreases |points|
  {
    if points != [] {
      var p := points[0];
      var line := Item(n, p);
      var tail := NumberedLines(points[1..], n + 1);
      var rest := Join("\n", tail);
      if points[1..] == [] {
        assert Join("\n", NumberedLines(points, n)) == line + "";
        GroupsOfItem(n, p, "");
        assert points == [p];
      } else {
        JoinCons("\n", line, tail);
        assert Join("\n", NumberedLines(points, n)) == line + ("\n" + rest);
        GroupsOfItem(n, p, "\n" + rest);
        assert ("\n" + rest)[1..] == rest;
        assert Groups("\n" + rest) == Groups(rest);
        GroupsOfNumbered(points[1..], n + 1);
        assert points == [p] + points[1..];
      }
    }
  }

  /** Mapping by a function that fixes every element and keeping what it keeps changes nothing. */
  lemma {:induction false} MapFilterFixed<T>(xs: seq<T>, f: T -> T, keep: T -> bool)
    requires forall k :: 0 <= k < |xs| ==> f(xs[k]) == xs[k] && keep(xs[k])
    ensures Filter(Map(xs, f), keep) == xs
    decreases |xs|
  {
    if xs != [] {
      var n := |xs| - 1;
      MapFilterFixed(xs[..n], f, keep);
      assert Map(xs, f)[..n] == Map(xs[..n], f);
      assert xs[..n] + [xs[n]] == xs;
    }
  }

  /** Stripping and dropping blanks keeps points that are already plain. */
  lemma CleanPlain(points: seq<string>)
    requires forall k :: 0 <= k < |points| ==> PlainPoint(points[k])
    ensures Filter(Map(points, Strip), NonEmpty) == points
  {
    forall k | 0 <= k < |points| ensures Strip(points[k]) == points[k] && NonEmpty(points[k]) {
      StripUnchanged(points[k]);
    }
    MapFilterFixed(points, Strip, NonEmpty);
  }

  /** A reply that numbers the points one per line parses back to exactly those points. */
  lemma NumberedRoundTrip(points: seq<string>)
    requires forall k :: 0 <= k < |points| ==> PlainPoint(points[k])
    ensures PointsFromReply(Join("\n", NumberedLines(points, 1))) == points
  {
    GroupsOfNumbered(points, 1);
    CleanPlain(points);
  }

  // ---------------------------------------------------------------- length adjustment

  /** Whether the request asks to lengthen or to shorten. */
  datatype Adjustment = Expand | Condense

  /** What the adjustment prompt is built from, and its token cap. */
  datatype AdjustRequest = AdjustRequest(kind: Adjustment, sectionName: string, targetMin: int, targetMax: int,
                                         currentCount: int, content: string, maxTokens: int)

  /** The request `_adjust_content_length` sends. */
  function AdjustRequestFor(content: string, targetMin: int, targetMax: int, sectionName: string): AdjustRequest
  {
    var count := WordCount(content);
    AdjustRequest(if count < targetMin then Expand else Condense, sectionName, targetMin, targetMax,
                  count, content, targetMax * 2)
  }

  /** `_adjust_content_length`: the model's rewrite, or the content unchanged when the call raised. */
  function AdjustContentLength(content: string, targetMin: int, targetMax: int, sectionName: string,
                               generate: AdjustRequest -> Option<string>): string
  {
    match generate(AdjustRequestFor(content, targetMin, targetMax, sectionName))
    case Some(adjusted) => adjusted
    case None => content
  }

  /**
   * The request expands exactly when the content is below the minimum and
   * condenses otherwise (also when already in range), caps tokens at twice
   * the maximum, and a failed call leaves the content as it was.
   */
  lemma AdjustSpec(content: string, targetMin: int, targetMax: int, sectionName: string,
                   generate: AdjustRequest -> Option<string>)
    ensures var q := AdjustRequestFor(content, targetMin, targetMax, sectionName);
      && (q.kind == Expand <==> WordCount(content) < targetMin)
      && q.currentCount == WordCount(content) && q.content == content && q.maxTokens == 2 * targetMax
      && (generate(q).None? ==> AdjustContentLength(content, targetMin, targetMax, sectionName, generate) == content)
      && (generate(q).Some? ==> AdjustContentLength(content, targetMin, targetMax, sectionName, generate) == generate(q).value)
  {
  }

  // ---------------------------------------------------------------- base prompt

  /** The at most ten covered points the base prompt lists. */
  function CoveredPoints(covered: seq<string>): seq<string>
  {
    TakePy(covered, 10)
  }

  /** The covered-points text: the listed points joined as bullets, or `None yet`. */
  function CoveredText(covered: seq<string>): string
  {
    if covered != [] then Join("\n- ", CoveredPoints(covered)) else "None yet"
  }

  /**
   * At most ten points are listed, the first ten in order (all when there
   * are at most ten); with none the text is `None yet`, otherwise it opens
   * with the first point.
   */
  lemma CoveredSpec(covered: seq<string>)
    ensures |CoveredPoints(covered)| <= 10
    ensures CoveredPoints(covered) == covered[..|CoveredPoints(covered)|]
    ensures |covered| <= 10 ==> CoveredPoints(covered) == covered
    ensures |covered| > 10 ==> CoveredPoints(covered) == covered[..10]
    ensures covered == [] ==> CoveredText(covered) == "None yet"
    ensures covered != [] ==> StartsWith(CoveredText(covered), covered[0])
  {
    if covered != [] {
      JoinStarts("\n- ", CoveredPoints(covered));
    }
  }

  /** A join opens with its first part. */
  lemma JoinStarts(sep: string, ps: seq<string>)
    requires ps != []
    ensures StartsWith(Join(sep, ps), ps[0])
  {
    if |ps| > 1 {
      assert Join(sep, ps) == ps[0] + (sep + Join(sep, ps[1..]));
    }
  }

  /** The writing settings the base prompt uses, with their defaults. */
  datatype PromptSettings = PromptSettings(tone: string, citationStyle: string, minWords: int, maxWords: int, covered: string)

  /** `_build_base_prompt`'s settings: tone and style from the configuration or their defaults, the covered points from the context. */
  function BaseSettings(writing: map<string, string>, citation: map<string, string>, minWords: int, maxWords: int,
                        keyPointsCovered: Option<seq<string>>): PromptSettings
  {
    PromptSettings(
      if "tone" in writing then writing["tone"] else "formal-academic",
      if "style" in citation then citation["style"] else "IEEE",
      minWords, maxWords,
      CoveredText(if keyPointsCovered.Some? then keyPointsCovered.value else []))
  }
}

/**
 * PerplexityProvider: turns the text of a Perplexity chat reply into search
 * results. The text is cut into `---`-separated blocks; each non-blank block is
 * scanned for `Title:`, `Authors:`, `Year:`, `ID:` and `Summary:` fields (labels
 * in any ASCII case), and a block with both a title and an `arxiv:`/`doi:` id
 * becomes a paper. A paper whose id starts with lower-case `arxiv:` or `doi:`
 * becomes a SearchResult with the matching resolver url; any other id is dropped.
 */
module Perplexity {
  import opened Wrappers
  import opened Text
  import opened OrderedMaps
  import opened Models

  /** The fields found in one block; `None` is a key absent from the paper dict. */
  datatype ParsedPaper = ParsedPaper(
    title: Option<string>,
    authors: Option<seq<string>>,
    year: Option<int>,
    id: Option<string>,
    summary: Option<string>)

  /** The five field patterns of `_parse_papers_from_text`. */
  datatype Field = TitleField | AuthorsField | YearField | IdField | SummaryField

  // ---------------------------------------------------------------- scanning

  /** The lower-case text `t` occurs at `i`, ignoring ASCII case. */
  predicate TextAt(s: string, i: nat, t: string)
  {
    i + |t| <= |s| && forall k :: 0 <= k < |t| ==> LowerChar(s[i + k]) == t[k]
  }

  /** The end of the whitespace run that starts at `p` (`\s*`, greedy). */
  function SkipSpace(s: string, p: nat): (q: nat)
    requires p <= |s|
    ensures p <= q <= |s|
    ensures q < |s| ==> !IsSpace(s[q])
    decreases |s| - p
  {
    if p < |s| && IsSpace(s[p]) then SkipSpace(s, p + 1) else p
  }

  /** The end of the non-whitespace run that starts at `p` (`\S*`, greedy). */
  function SkipNonSpace(s: string, p: nat): (q: nat)
    requires p <= |s|
    ensures p <= q <= |s|
    ensures q < |s| ==> IsSpace(s[q])
    decreases |s| - p
  {
    if p < |s| && !IsSpace(s[p]) then SkipNonSpace(s, p + 1) else p
  }

  lemma {:induction false} SkipNonSpaceSpec(s: string, p: nat)
    requires p <= |s|
    ensures forall k :: p <= k < SkipNonSpace(s, p) ==> !IsSpace(s[k])
    decreases |s| - p
  {
    if p < |s| && !IsSpace(s[p]) {
      SkipNonSpaceSpec(s, p + 1);
    }
  }

  /** The first newline at or after `p`, or the end (`.+` without DOTALL stops there). */
  function LineEnd(s: string, p: nat): (e: nat)
    requires p <= |s|
    ensures p <= e <= |s|
    ensures e < |s| ==> s[e] == '\n'
    decreases |s| - p
  {
    if p < |s| && s[p] != '\n' then LineEnd(s, p + 1) else p
  }

  /**
   * Backtracking of `\s*` when the run reaches the end of the text: the last
   * position in `[p, q)` where `.` can match, that is, that is not a newline.
   */
  function LastNonNewline(s: string, p: nat, q: nat): (k: Option<nat>)
    requires p <= q <= |s|
    ensures k.Some? ==> p <= k.value < q && s[k.value] != '\n'
    decreases q - p
  {
    if p == q then None
    else if s[q - 1] != '\n' then Some(q - 1)
    else LastNonNewline(s, p, q - 1)
  }

  /** `\s*(.+)` after a label ending at `p`: the rest of the line after the whitespace. */
  function LineGroupAt(s: string, p: nat): (g: Option<string>)
    requires p <= |s|
  {
    var q := SkipSpace(s, p);
    if q < |s| then Some(s[q..LineEnd(s, q)])
    else match LastNonNewline(s, p, q)
      case None => None
      case Some(k) => Some(s[k..LineEnd(s, k)])
  }

  /** `\s*(\d{4})`: a digit cannot start inside the whitespace, so `\s*` never backtracks. */
  function YearGroupAt(s: string, p: nat): (g: Option<string>)
    requires p <= |s|
  {
    var q := SkipSpace(s, p);
    if q + 4 <= |s| && IsDigits(s[q..q + 4]) then Some(s[q..q + 4]) else None
  }

  /** `(arxiv:\S+|doi:\S+)` at `q`, the alternatives in order. */
  function IdAt(s: string, q: nat): (g: Option<string>)
    requires q <= |s|
  {
    if TextAt(s, q, "arxiv:") && q + 6 < |s| && !IsSpace(s[q + 6]) then Some(s[q..SkipNonSpace(s, q + 6)])
    else if TextAt(s, q, "doi:") && q + 4 < |s| && !IsSpace(s[q + 4]) then Some(s[q..SkipNonSpace(s, q + 4)])
    else None
  }

  /** `\s*(.+)` with DOTALL: the rest of the text; at the end `\s*` gives back one character. */
  function SummaryGroupAt(s: string, p: nat): (g: Option<string>)
    requires p <= |s|
  {
    var q := SkipSpace(s, p);
    if q < |s| then Some(s[q..]) else if p < q then Some(s[q - 1..]) else None
  }

  /** The group captured by the pattern of `f` when the match starts at `i`. */
  function MatchAt(s: string, i: nat, f: Field): (g: Option<string>)
  {
    match f
    case TitleField => if TextAt(s, i, "title:") then LineGroupAt(s, i + 6) else None
    case AuthorsField => if TextAt(s, i, "authors:") then LineGroupAt(s, i + 8) else None
    case YearField => if TextAt(s, i, "year:") then YearGroupAt(s, i + 5) else None
    case IdField => if TextAt(s, i, "id:") then IdAt(s, SkipSpace(s, i + 3)) else None
    case SummaryField => if TextAt(s, i, "summary:") then SummaryGroupAt(s, i + 8) else None
  }

  /** The group the pattern of `f` captures at each start position `0..|s|`, or `None`. */
  function Matches(s: string, f: Field): (ms: seq<Option<string>>)
  {
    seq(|s| + 1, j requires 0 <= j <= |s| => MatchAt(s, j, f))
  }

  /** The first position from `i` on whose entry is a match, with its group. */
  function FirstSome(ms: seq<Option<string>>, i: nat): (r: Option<(nat, string)>)
    requires i <= |ms|
    ensures r.Some? ==> i <= r.value.0 < |ms| && ms[r.value.0] == Some(r.value.1)
    decreases |ms| - i
  {
    if i == |ms| then None
    else match ms[i]
      case Some(g) => Some((i, g))
      case None => FirstSome(ms, i + 1)
  }

  /** `FirstSome` skips only non-matches, and finds none exactly when there is none. */
  lemma {:induction false} FirstSomeSpec(ms: seq<Option<string>>, i: nat)
    requires i <= |ms|
    ensures var r := FirstSome(ms, i);
      && (r.Some? ==> forall j :: i <= j < r.value.0 ==> ms[j].None?)
      && (r.None? ==> forall j :: i <= j < |ms| ==> ms[j].None?)
    decreases |ms| - i
  {
    if i < |ms| && ms[i].None? {
      FirstSomeSpec(ms, i + 1);
    }
  }

  /** `re.search` for the pattern of `f`, trying the start positions from `i` on. */
  function SearchFrom(s: string, i: nat, f: Field): (r: Option<(nat, string)>)
    requires i <= |s|
    ensures r.Some? ==> i <= r.value.0 <= |s| && MatchAt(s, r.value.0, f) == Some(r.value.1)
  {
    FirstSome(Matches(s, f), i)
  }

  /** The search finds the leftmost match, and finds none exactly when no position matches. */
  lemma SearchFromSpec(s: string, i: nat, f: Field)
    requires i <= |s|
    ensures var r := SearchFrom(s, i, f);
      && (r.Some? ==> forall j :: i <= j < r.value.0 ==> MatchAt(s, j, f).None?)
      && (r.None? ==> forall j :: i <= j <= |s| ==> MatchAt(s, j, f).None?)
  {
    var ms := Matches(s, f);
    FirstSomeSpec(ms, i);
    forall j | 0 <= j <= |s|
      ensures MatchAt(s, j, f) == ms[j]
    {
    }
  }

  /** The captured group of the first match of `f` in `s`. */
  function Group(s: string, f: Field): Option<string>
  {
    match SearchFrom(s, 0, f)
    case Some(m) => Some(m.1)
    case None => None
  }

  // ---------------------------------------------------------------- one block

  /** `[a.strip() for a in text.split(',')]`. */
  function StripAll(pieces: seq<string>): (r: seq<string>)
    ensures |r| == |pieces|
    ensures forall k :: 0 <= k < |r| ==> r[k] == Strip(pieces[k])
  {
    seq(|pieces|, k requires 0 <= k < |pieces| => Strip(pieces[k]))
  }

  function Authors(group: string): seq<string>
  {
    StripAll(SplitOn(Strip(group), ","))
  }

  /** The paper dict built from one stripped block. */
  function ParseBlock(block: string): ParsedPaper
  {
    var title := Group(block, TitleField);
    var authors := Group(block, AuthorsField);
    var year := Group(block, YearField);
    var id := Group(block, IdField);
    var summary := Group(block, SummaryField);
    ParsedPaper(
      if title.Some? then Some(Strip(title.value)) else None,
      if authors.Some? then Some(Authors(authors.value)) else None,
      if year.Some? && IsDigits(year.value) then Some(DigitsValue(year.value) as int) else None,
      if id.Some? then Some(Strip(id.value)) else None,
      if summary.Some? then Some(Strip(summary.value)) else None)
  }

  /** `'title' in paper and 'id' in paper`. */
  predicate Kept(p: ParsedPaper)
  {
    p.title.Some? && p.id.Some?
  }

  /** What one `---` segment contributes to the paper list. */
  function SegmentPapers(segment: string): seq<ParsedPaper>
  {
    var block := Strip(segment);
    if block == "" then []
    else
      var p := ParseBlock(block);
      if Kept(p) then [p] else []
  }

  /** The papers parsed from a list of segments, in segment order. */
  function ParseSegments(segments: seq<string>): (papers: seq<ParsedPaper>)
    ensures |papers| <= |segments|
  {
    if segments == [] then []
    else ParseSegments(segments[..|segments| - 1]) + SegmentPapers(segments[|segments| - 1])
  }

  /** `_parse_papers_from_text`. */
  method ParsePapersFromText(text: string) returns (papers: seq<ParsedPaper>)
    ensures papers == ParseSegments(SplitOn(text, "---"))
  {
    var sections := SplitOn(text, "---");
    papers := [];
    var i := 0;
    while i < |sections|
      invariant 0 <= i <= |sections|
      invariant papers == ParseSegments(sections[..i])
    {
      var found := ParseSegment(sections[i]);
      ParseSegmentsStep(sections, i);
      papers := papers + found;
      i := i + 1;
    }
    assert sections[..i] == sections;
  }

  lemma ParseSegmentsStep(segments: seq<string>, i: nat)
    requires i < |segments|
    ensures ParseSegments(segments[..i + 1]) == ParseSegments(segments[..i]) + SegmentPapers(segments[i])
  {
    assert segments[..i + 1][..i] == segments[..i];
  }

  /** One iteration of the segment loop: strip, skip a blank block, keep a paper with title and id. */
  method ParseSegment(segment: string) returns (found: seq<ParsedPaper>)
    ensures found == SegmentPapers(segment)
  {
    found := [];
    var section := Strip(segment);
    if section != "" {
      var paper := ParseBlock(section);
      if Kept(paper) {
        found := [paper];
      }
    }
  }

  // ---------------------------------------------------------------- properties of the parser

  /** Blank segments contribute nothing, so text made only of blanks and separators gives no paper. */
  lemma {:induction false} BlankSegmentsSkipped(segments: seq<string>)
    requires forall k :: 0 <= k < |segments| ==> Strip(segments[k]) == ""
    ensures ParseSegments(segments) == []
  {
    if segments != [] {
      BlankSegmentsSkipped(segments[..|segments| - 1]);
    }
  }

  /** An id group, whatever its case, starts with `arxiv:` or `doi:` and has no whitespace. */
  lemma IdGroupShape(s: string, q: nat)
    requires q <= |s| && IdAt(s, q).Some?
    ensures var g := IdAt(s, q).value;
      && (TextAt(g, 0, "arxiv:") || TextAt(g, 0, "doi:"))
      && IsWord(g) && Strip(g) == g
  {
    var g := IdAt(s, q).value;
    var n := if TextAt(s, q, "arxiv:") && q + 6 < |s| && !IsSpace(s[q + 6]) then 6 else 4;
    assert g == s[q..SkipNonSpace(s, q + n)];
    assert TextAt(g, 0, "arxiv:") || TextAt(g, 0, "doi:") by {
      assert forall k :: 0 <= k < n ==> g[k] == s[q + k];
    }
    assert IsWord(g) by {
      SkipNonSpaceSpec(s, q + n);
      var t := if n == 6 then "arxiv:" else "doi:";
      assert TextAt(s, q, t);
      forall k | 0 <= k < |g| ensures !IsSpace(g[k]) {
        assert g[k] == s[q + k];
        if k < n {
          assert LowerChar(s[q + k]) == t[k];
        }
      }
    }
    StripUnchanged(g);
  }

  /** Every kept paper has a title and an id that starts with `arxiv:` or `doi:` in some case. */
  lemma KeptPaperShape(block: string)
    requires Kept(ParseBlock(block))
    ensures var id := ParseBlock(block).id.value;
      TextAt(id, 0, "arxiv:") || TextAt(id, 0, "doi:")
  {
    var m := SearchFrom(block, 0, IdField).value;
    var i := m.0;
    var q := SkipSpace(block, i + 3);
    assert IdAt(block, q) == Some(m.1);
    IdGroupShape(block, q);
  }

  /** Every paper of the list has a title and an `arxiv:`/`doi:` id. */
  lemma {:induction false} ParsedPapersShape(segments: seq<string>)
    ensures forall k :: 0 <= k < |ParseSegments(segments)| ==>
      var p := ParseSegments(segments)[k];
      Kept(p) && (TextAt(p.id.value, 0, "arxiv:") || TextAt(p.id.value, 0, "doi:"))
  {
    if segments != [] {
      var init, last := segments[..|segments| - 1], segments[|segments| - 1];
      ParsedPapersShape(init);
      var block := Strip(last);
      if block != "" && Kept(ParseBlock(block)) {
        KeptPaperShape(block);
      }
    }
  }

  /**
   * A year is set only from exactly four digits that follow a `Year:` label and
   * optional whitespace, at the first place where that pattern occurs; it is
   * unset iff the pattern occurs nowhere.
   */
  lemma YearFromFourDigits(block: string)
    ensures ParseBlock(block).year.Some? ==> exists i :: (
      0 <= i <= |block| && TextAt(block, i, "year:") &&
      var q := SkipSpace(block, i + 5);
      q + 4 <= |block| && IsDigits(block[q..q + 4]) &&
      ParseBlock(block).year.value == DigitsValue(block[q..q + 4]) as int)
    ensures ParseBlock(block).year.None? <==> forall i :: 0 <= i <= |block| ==> MatchAt(block, i, YearField).None?
    ensures ParseBlock(block).year.Some? ==> 0 <= ParseBlock(block).year.value <= 9999
  {
    var y := Group(block, YearField);
    YearGroupNone(block);
    if y.Some? {
      var i := YearGroupWitness(block);
      var g := y.value;
      FourDigitsBound(g);
      assert ParseBlock(block).year == Some(DigitsValue(g) as int);
    }
  }

  /** The year pattern is found nowhere exactly when the year group is absent. */
  lemma YearGroupNone(block: string)
    ensures Group(block, YearField).None? <==> forall i :: 0 <= i <= |block| ==> MatchAt(block, i, YearField).None?
  {
    SearchFromSpec(block, 0, YearField);
  }

  /** A year group is four digits after a `Year:` label found at `i`. */
  lemma YearGroupWitness(block: string) returns (i: nat)
    requires Group(block, YearField).Some?
    ensures i <= |block| && TextAt(block, i, "year:")
    ensures var q := SkipSpace(block, i + 5);
      q + 4 <= |block| && IsDigits(block[q..q + 4]) && Group(block, YearField).value == block[q..q + 4]
  {
    i := SearchFrom(block, 0, YearField).value.0;
  }

  lemma FourDigitsBound(g: string)
    requires |g| == 4 && IsDigits(g)
    ensures DigitsValue(g) <= 9999
  {
    var g3, g2, g1 := g[..3], g[..2], g[..1];
    assert g3[..2] == g2 && g2[..1] == g1 && g1[..0] == [];
    assert DigitsValue(g1) <= 9;
    assert DigitsValue(g2) <= 99;
    assert DigitsValue(g3) <= 999;
  }

  /** Authors are the comma-separated pieces of the field, each stripped, none holding a comma. */
  lemma AuthorsShape(group: string)
    ensures |Authors(group)| == |SplitOn(Strip(group), ",")|
    ensures forall k :: 0 <= k < |Authors(group)| ==>
      Strip(Authors(group)[k]) == Authors(group)[k] && !Contains(Authors(group)[k], ",")
  {
    var pieces := SplitOn(Strip(group), ",");
    SplitPiecesFree(Strip(group), ",");
    forall k | 0 <= k < |pieces|
      ensures Strip(Strip(pieces[k])) == Strip(pieces[k]) && !Contains(Strip(pieces[k]), ",")
    {
      StripShape(pieces[k]);
      StripUnchanged(Strip(pieces[k]));
      StripInside(pieces[k], ",");
    }
  }

  /** Stripping cannot create an occurrence of a text. */
  lemma StripInside(s: string, t: string)
    requires !Contains(s, t)
    ensures !Contains(Strip(s), t)
  {
    var a := StripIsSlice(s);
    if Contains(Strip(s), t) {
      ContainsInSlice(s, a, a + |Strip(s)|, t);
    }
  }

  // ---------------------------------------------------------------- conversion

  const ArxivPrefix: string := "https://arxiv.org/abs/"
  const DoiPrefix: string := "https://doi.org/"

  /** `_paper_to_search_result`: `None` for an id that is not lower-case `arxiv:` or `doi:`. */
  function ToSearchResult(paper: ParsedPaper): (r: Option<SearchResult>)
    ensures var id := if paper.id.Some? then paper.id.value else "";
      && (r.Some? <==> StartsWith(id, "arxiv:") || StartsWith(id, "doi:"))
      && (r.Some? ==> r.value.sourceId == id && r.value.citations == [])
  {
    var id := if paper.id.Some? then paper.id.value else "";
    var url :=
      if StartsWith(id, "arxiv:") then Some(ArxivPrefix + ReplaceAll(id, "arxiv:", ""))
      else if StartsWith(id, "doi:") then Some(DoiPrefix + ReplaceAll(id, "doi:", ""))
      else None;
    if url.None? then None
    else Some(SearchResult(
      id,
      if paper.title.Some? then paper.title.value else "Unknown",
      if paper.summary.Some? then paper.summary.value else "",
      paper.authors,
      paper.year,
      url,
      [],
      [("provider", MText("perplexity")), ("raw_id", MText(id))]))
  }

  /** A converted result records the provider `perplexity` and the raw id in its metadata. */
  lemma ConvertedMetadata(paper: ParsedPaper)
    requires ToSearchResult(paper).Some?
    ensures MetaGet(ToSearchResult(paper).value.metadata, "provider") == MText("perplexity")
    ensures MetaGet(ToSearchResult(paper).value.metadata, "raw_id") == MText(paper.id.value)
  {
    var m := ToSearchResult(paper).value.metadata;
    assert m == [("provider", MText("perplexity")), ("raw_id", MText(paper.id.value))];
    assert "raw_id" != "provider" by {
      assert "raw_id"[0] != "provider"[0];
    }
    assert m[1..] == [("raw_id", MText(paper.id.value))];
    assert Get(m, "provider") == Some(MText("perplexity"));
    assert Get(m[1..], "raw_id") == Some(MText(paper.id.value));
    assert Get(m, "raw_id") == Get(m[1..], "raw_id");
  }

  /** Removing a prefix that occurs only at the start leaves the rest of the id. */
  lemma ReplaceLeadingPrefix(tag: string, x: string)
    requires |tag| > 0 && !Contains(x, tag)
    ensures ReplaceAll(tag + x, tag, "") == x
  {
    var s := tag + x;
    assert StartsWith(s[0..], tag) by {
      assert s[0..][..|tag|] == tag;
    }
    assert IndexOf(s, tag) == Some(0);
    assert s[|tag|..] == x && s[..0] == "";
    ReplaceAbsentSplit(x, tag);
    assert SplitOn(s, tag) == SplitAt(s, tag, 0) == [""] + [x];
    JoinCons("", "", [x]);
  }

  lemma ReplaceAbsentSplit(x: string, tag: string)
    requires |tag| > 0 && !Contains(x, tag)
    ensures SplitOn(x, tag) == [x]
  {
    IndexOfSpec(x, tag);
  }

  /** `arxiv:X` becomes `https://arxiv.org/abs/X` and `doi:X` becomes `https://doi.org/X`. */
  lemma ResolverUrls(paper: ParsedPaper, x: string)
    ensures paper.id == Some("arxiv:" + x) && !Contains(x, "arxiv:") ==>
      ToSearchResult(paper) == Some(SearchResult("arxiv:" + x,
        if paper.title.Some? then paper.title.value else "Unknown",
        if paper.summary.Some? then paper.summary.value else "",
        paper.authors, paper.year, Some(ArxivPrefix + x), [],
        [("provider", MText("perplexity")), ("raw_id", MText("arxiv:" + x))]))
    ensures paper.id == Some("doi:" + x) && !Contains(x, "doi:") ==>
      ToSearchResult(paper).Some? && ToSearchResult(paper).value.url == Some(DoiPrefix + x)
  {
    if paper.id == Some("arxiv:" + x) && !Contains(x, "arxiv:") {
      ReplaceLeadingPrefix("arxiv:", x);
      assert StartsWith("arxiv:" + x, "arxiv:");
    }
    if paper.id == Some("doi:" + x) && !Contains(x, "doi:") {
      ReplaceLeadingPrefix("doi:", x);
      assert StartsWith("doi:" + x, "doi:");
      assert !StartsWith("doi:" + x, "arxiv:") by {
        assert ("doi:" + x)[0] == 'd';
      }
    }
  }

  /** An upper-case `ARXIV:` id passes the case-insensitive parser and is then dropped. */
  lemma UpperCaseArxivDropped()
    ensures MatchAt("ID: ARXIV:1", 0, IdField) == Some("ARXIV:1")
    ensures ToSearchResult(ParsedPaper(Some("T"), None, None, Some("ARXIV:1"), None)).None?
  {
    UpperIdLabel();
    UpperIdGroup();
    var id := "ARXIV:1";
    assert ParsedPaper(Some("T"), None, None, Some(id), None).id.value == id;
    assert !StartsWith(id, "arxiv:") by { assert id[0] == 'A' != 'a'; }
    assert !StartsWith(id, "doi:") by { assert id[0] == 'A' != 'd'; }
  }

  lemma UpperIdLabel()
    ensures TextAt("ID: ARXIV:1", 0, "id:") && SkipSpace("ID: ARXIV:1", 3) == 4
  {
    assert Lower("ID: ARXIV:1"[0..3]) == "id:";
    assert SkipSpace("ID: ARXIV:1", 4) == 4;
  }

  lemma UpperIdGroup()
    ensures IdAt("ID: ARXIV:1", 4) == Some("ARXIV:1")
  {
    var s := "ID: ARXIV:1";
    assert Lower(s[4..10]) == "arxiv:";
    assert SkipNonSpace(s, 11) == 11;
    assert SkipNonSpace(s, 10) == 11;
    assert s[4..11] == "ARXIV:1";
  }

  /** The conversion loop of `_parse_response`: converted papers in order, the rest dropped. */
  function Converted(papers: seq<ParsedPaper>): (results: seq<SearchResult>)
    ensures |results| <= |papers|
  {
    if papers == [] then []
    else
      var init := Converted(papers[..|papers| - 1]);
      match ToSearchResult(papers[|papers| - 1])
      case Some(r) => init + [r]
      case None => init
  }

  /** Every converted result has an `arxiv:`/`doi:` source id, no citations and provider `perplexity`. */
  lemma {:induction false} ConvertedShape(papers: seq<ParsedPaper>)
    ensures forall k :: 0 <= k < |Converted(papers)| ==>
      var r := Converted(papers)[k];
      && (StartsWith(r.sourceId, "arxiv:") || StartsWith(r.sourceId, "doi:"))
      && r.citations == [] && MetaGet(r.metadata, "provider") == MText("perplexity")
  {
    if papers != [] {
      ConvertedShape(papers[..|papers| - 1]);
    }
  }

  /** `_parse_response`: the papers of the reply text converted in order. */
  method ParseResponse(content: string) returns (results: seq<SearchResult>)
    ensures results == Converted(ParseSegments(SplitOn(content, "---")))
  {
    var papers := ParsePapersFromText(content);
    results := ConvertAll(papers);
  }

  /** The conversion loop of `_parse_response`. */
  method ConvertAll(papers: seq<ParsedPaper>) returns (results: seq<SearchResult>)
    ensures results == Converted(papers)
  {
    results := [];
    var i := 0;
    while i < |papers|
      invariant 0 <= i <= |papers|
      invariant results == Converted(papers[..i])
    {
      assert papers[..i + 1][..i] == papers[..i];
      var result := ToSearchResult(papers[i]);
      if result.Some? {
        results := results + [result.value];
      }
      i := i + 1;
    }
    assert papers[..i] == papers;
  }

  /**
   * `search`: `reply` is the message content of the API reply, or `None` when
   * the call raised or the reply has no `choices[0].message.content`; both give `[]`.
   */
  method Search(reply: Option<string>) returns (results: seq<SearchResult>)
    ensures reply.None? ==> results == []
    ensures reply.Some? ==> results == Converted(ParseSegments(SplitOn(reply.value, "---")))
  {
    if reply.None? {
      return [];
    }
    results := ParseResponse(reply.value);
  }
}

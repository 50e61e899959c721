/**
 * SummaryLedger: the first-generation `ContextManager`, a ledger of section
 * summaries. Each written section is summarised from the LLM's reply (a
 * `SUMMARY:` line and the `FINDINGS:` list) plus its most frequent long
 * words; later sections read a window of the preceding summaries.
 *
 * The LLM's reply is the `response` input.
 */
module SummaryLedger {
  import opened Wrappers
  import opened Text
  import opened Models
  import opened Seqs
  import opened Sorting
  import Uniq

  const SummaryTag: string := "SUMMARY:"
  const FindingsTag: string := "FINDINGS:"
  const SourcesMarker: string := "(sources:"

  /** The characters `lstrip('0123456789. ')` removes from a finding's text. */
  const NumberingChars: set<char> := set c: char | '0' <= c <= '9' || c == '.' || c == ' '

  // ---------------------------------------------------------------- parsing the reply

  /** The walk's state: the summary so far, whether `FINDINGS:` was seen, and the findings so far. */
  datatype ParseState = ParseState(summary: string, inFindings: bool, findings: seq<Finding>)

  /** `line.replace('SUMMARY:', '').strip()`. */
  function SummaryText(line: string): string
  {
    Strip(ReplaceAll(line, SummaryTag, ""))
  }

  /** The finding of a line holding `(sources:`: its numbered text and its comma-separated source ids. */
  function FindingOf(line: string, sectionId: int): (f: Finding)
    ensures f.sectionId == sectionId
  {
    var parts := SplitOn(line, SourcesMarker);
    var text := StripLeftOf(Strip(parts[0]), NumberingChars);
    var sourceStr := StripRightOf(if |parts| > 1 then parts[1] else "", {')'});
    Finding(text, Map(SplitOn(sourceStr, ","), Strip), sectionId)
  }

  /** What one line of the reply is, checked in the order the walk checks it. */
  datatype LineKind = SummaryLine(text: string) | FindingsHeader | SourcedLine(finding: Finding) | OtherLine

  /** The kind of a line; a sourced line only counts once `FINDINGS:` has been seen. */
  function Classify(line: string, sectionId: int): (kind: LineKind)
  {
    if StartsWith(line, SummaryTag) then SummaryLine(SummaryText(line))
    else if StartsWith(line, FindingsTag) then FindingsHeader
    else if Strip(line) != "" && Contains(line, SourcesMarker) then SourcedLine(FindingOf(line, sectionId))
    else OtherLine
  }

  /** One line of the reply. */
  function Step(st: ParseState, kind: LineKind): ParseState
  {
    match kind
    case SummaryLine(t) => st.(summary := t)
    case FindingsHeader => st.(inFindings := true)
    case SourcedLine(f) => if st.inFindings then st.(findings := st.findings + [f]) else st
    case OtherLine => st
  }

  /** The walk over the classified lines, left to right. */
  function Walk(kinds: seq<LineKind>): ParseState
    decreases |kinds|
  {
    if kinds == [] then ParseState("", false, [])
    else Step(Walk(kinds[..|kinds| - 1]), kinds[|kinds| - 1])
  }

  /** `Classify` for one section, as a function value. */
  function Classifier(sectionId: int): string -> LineKind
  {
    line => Classify(line, sectionId)
  }

  /** The kinds of the lines, in order. */
  function Kinds(lines: seq<string>, sectionId: int): seq<LineKind>
  {
    Map(lines, Classifier(sectionId))
  }

  /** One more line, one more kind. */
  lemma KindsStep(lines: seq<string>, i: nat, sectionId: int)
    requires i < |lines|
    ensures Kinds(lines[..i + 1], sectionId) == Kinds(lines[..i], sectionId) + [Classifier(sectionId)(lines[i])]
  {
    assert lines[..i + 1] == lines[..i] + [lines[i]];
    MapSnoc(lines[..i], lines[i], Classifier(sectionId));
  }

  /** The walk over the reply's lines. */
  function ParseLines(lines: seq<string>, sectionId: int): ParseState
  {
    Walk(Kinds(lines, sectionId))
  }

  /** `response.strip().split('\n')`. */
  function ResponseLines(response: string): seq<string>
  {
    SplitOn(Strip(response), "\n")
  }

  /** The summary is the text of the last summary line, or empty when there is none. */
  lemma {:induction false} SummaryFromLast(kinds: seq<LineKind>)
    ensures (forall k :: 0 <= k < |kinds| ==> !kinds[k].SummaryLine?) ==> Walk(kinds).summary == ""
    ensures forall k :: (0 <= k < |kinds| && kinds[k].SummaryLine?
      && (forall j :: k < j < |kinds| ==> !kinds[j].SummaryLine?)) ==>
      Walk(kinds).summary == kinds[k].text
    decreases |kinds|
  {
    if kinds != [] {
      var init := kinds[..|kinds| - 1];
      SummaryFromLast(init);
      forall k | 0 <= k < |init| ensures init[k] == kinds[k] { }
    }
  }

  /**
   * Findings come only from sourced lines after a `FINDINGS:` header: `idx`
   * gives each finding's line, in increasing order, and `flag` a header
   * before all of them.
   */
  lemma {:induction false} FindingsOrigin(kinds: seq<LineKind>) returns (flag: nat, idx: seq<nat>)
    ensures var fs := Walk(kinds).findings;
      && |idx| == |fs| <= |kinds|
      && (forall k :: 0 <= k < |idx| ==> idx[k] < |kinds| && kinds[idx[k]] == SourcedLine(fs[k]))
      && (forall k, l :: 0 <= k < l < |idx| ==> idx[k] < idx[l])
      && (|idx| > 0 ==> flag < idx[0] && kinds[flag] == FindingsHeader)
    ensures Walk(kinds).inFindings ==> flag < |kinds| && kinds[flag] == FindingsHeader
    ensures !Walk(kinds).inFindings ==> Walk(kinds).findings == []
    decreases |kinds|
  {
    if kinds == [] {
      return 0, [];
    }
    var n := |kinds| - 1;
    var init := kinds[..n];
    var f0, idx0 := FindingsOrigin(init);
    assert forall k :: 0 <= k < n ==> init[k] == kinds[k];
    flag := f0;
    idx := idx0;
    match kinds[n]
    case FindingsHeader =>
      if !Walk(init).inFindings {
        flag := n;
      }
    case SourcedLine(f) =>
      if Walk(init).inFindings {
        idx := idx0 + [n];
      }
    case _ =>
  }

  /** Summary lines are exactly those starting with `SUMMARY:`, and carry its text. */
  lemma ClassifySummary(line: string, sectionId: int)
    ensures Classify(line, sectionId).SummaryLine? <==> StartsWith(line, SummaryTag)
    ensures Classify(line, sectionId).SummaryLine? ==> Classify(line, sectionId).text == SummaryText(line)
  {
  }

  /** A header line starts with `FINDINGS:`. */
  lemma ClassifyHeader(line: string, sectionId: int)
    ensures Classify(line, sectionId) == FindingsHeader ==> StartsWith(line, FindingsTag)
  {
  }

  /** A sourced line is non-blank, holds `(sources:` and carries its finding, of this section. */
  lemma ClassifySourced(line: string, sectionId: int)
    ensures var kind := Classify(line, sectionId);
      kind.SourcedLine? ==> (Contains(line, SourcesMarker) && Strip(line) != ""
        && kind.finding == FindingOf(line, sectionId) && kind.finding.sectionId == sectionId)
  {
  }

  /**
   * On the reply's lines: the summary is that of the last `SUMMARY:` line (or
   * empty), and each finding, of this section, comes from a line holding
   * `(sources:` that follows a `FINDINGS:` line, in line order.
   */
  lemma ParseLinesSpec(lines: seq<string>, sectionId: int) returns (flag: nat, idx: seq<nat>)
    ensures var st := ParseLines(lines, sectionId);
      && ((forall k :: 0 <= k < |lines| ==> !StartsWith(lines[k], SummaryTag)) ==> st.summary == "")
      && (forall k :: (0 <= k < |lines| && StartsWith(lines[k], SummaryTag)
            && (forall j :: k < j < |lines| ==> !StartsWith(lines[j], SummaryTag))) ==>
            st.summary == SummaryText(lines[k]))
    ensures var fs := ParseLines(lines, sectionId).findings;
      && |idx| == |fs| <= |lines|
      && (forall k :: 0 <= k < |idx| ==> (idx[k] < |lines| && fs[k] == FindingOf(lines[idx[k]], sectionId)
            && fs[k].sectionId == sectionId && Contains(lines[idx[k]], SourcesMarker)))
      && (forall k, l :: 0 <= k < l < |idx| ==> idx[k] < idx[l])
      && (|idx| > 0 ==> flag < idx[0] && StartsWith(lines[flag], FindingsTag))
  {
    var kinds := Kinds(lines, sectionId);
    forall k | 0 <= k < |lines|
      ensures kinds[k] == Classify(lines[k], sectionId)
      ensures kinds[k].SummaryLine? <==> StartsWith(lines[k], SummaryTag)
      ensures kinds[k].SummaryLine? ==> kinds[k].text == SummaryText(lines[k])
      ensures kinds[k] == FindingsHeader ==> StartsWith(lines[k], FindingsTag)
    {
      ClassifySummary(lines[k], sectionId);
      ClassifyHeader(lines[k], sectionId);
    }
    SummaryFromLast(kinds);
    flag, idx := FindingsOrigin(kinds);
    var fs := Walk(kinds).findings;
    forall k | 0 <= k < |idx|
      ensures fs[k] == FindingOf(lines[idx[k]], sectionId) && fs[k].sectionId == sectionId
      ensures Contains(lines[idx[k]], SourcesMarker)
    {
      ClassifySourced(lines[idx[k]], sectionId);
    }
  }

  // ---------------------------------------------------------------- key terms

  const Stopwords: set<string> := {"the", "and", "for", "with", "this", "that", "from", "are", "was", "were"}

  /** `[w for w in words if len(w) > 4 and w not in stopwords]`. */
  function Meaningful(words: seq<string>): (m: seq<string>)
  {
    Filter(words, w => |w| > 4 && w !in Stopwords)
  }

  /** `Counter(m).most_common(n)`: distinct elements by decreasing count, ties in first-seen order, at most `n`. */
  function MostCommon<T(==)>(m: seq<T>, n: int): seq<T>
  {
    TakePy(SortBy(Uniq.KeepFirst(m, x => x), (a, b) => multiset(m)[a] > multiset(m)[b]), n)
  }

  /** `_extract_key_terms`. */
  function KeyTerms(words: seq<string>): seq<string>
  {
    MostCommon(Meaningful(words), 10)
  }

  /** Keep-first deduplication by identity: each element of `m` once. */
  lemma FirstOccurrences<T>(m: seq<T>)
    ensures Distinct(Uniq.KeepFirst(m, x => x))
    ensures forall x :: x in Uniq.KeepFirst(m, x => x) <==> x in m
  {
    var id := (x: T) => x;
    var d := Uniq.KeepFirst(m, id);
    Uniq.KeepFirstKeys(m, id);
    Uniq.KeepFirstElements(m, id);
    forall i, j | 0 <= i < j < |d| ensures d[i] != d[j] {
      assert id(d[i]) != id(d[j]);
    }
    forall x | x in m ensures x in d {
      var i :| 0 <= i < |m| && m[i] == x;
      assert id(m[i]) in Uniq.KeysOf(m, id);
      var j :| 0 <= j < |d| && id(d[j]) == id(m[i]);
    }
  }

  /**
   * At most `n` distinct elements of `m`, by non-increasing count; an element
   * of `m` left out occurs no more often than any element kept.
   */
  lemma MostCommonSpec<T(!new)>(m: seq<T>, n: nat)
    ensures var r := MostCommon(m, n);
      && |r| <= n
      && Distinct(r)
      && (forall i :: 0 <= i < |r| ==> r[i] in m)
      && (forall i, j :: 0 <= i < j < |r| ==> multiset(m)[r[i]] >= multiset(m)[r[j]])
      && (forall w :: w in m && w !in r ==> forall i :: 0 <= i < |r| ==> multiset(m)[w] <= multiset(m)[r[i]])
  {
    var above := (a: T, b: T) => multiset(m)[a] > multiset(m)[b];
    var d := Uniq.KeepFirst(m, x => x);
    var sorted := SortBy(d, above);
    var r := MostCommon(m, n);
    assert r == sorted[..|r|];
    FirstOccurrences(m);
    SortPermutes(d, above);
    SortDistinct(d, above);
    SortSorted(d, above);
    forall x | x in m ensures x in sorted {
      assert x in multiset(d);
    }
    forall i | 0 <= i < |r| ensures r[i] in m {
      assert r[i] in multiset(d);
    }
    forall w | w in m && w !in r
      ensures forall i :: 0 <= i < |r| ==> multiset(m)[w] <= multiset(m)[r[i]]
    {
      var j :| 0 <= j < |sorted| && sorted[j] == w;
      assert j >= |r|;
    }
  }

  /** What the filter keeps. */
  lemma MeaningfulSpec(words: seq<string>)
    ensures forall w :: w in Meaningful(words) ==> |w| > 4 && w !in Stopwords && w in words
  {
    FilterSubMultiset(words, w => |w| > 4 && w !in Stopwords);
    forall w | w in Meaningful(words) ensures w in words {
      assert w in multiset(Meaningful(words));
    }
  }

  /**
   * At most ten distinct words, each longer than four characters and not a
   * stop-word, by decreasing count; a word left out occurs no more often
   * than any word kept.
   */
  lemma KeyTermsSpec(words: seq<string>)
    ensures var m, r := Meaningful(words), KeyTerms(words);
      && |r| <= 10
      && Distinct(r)
      && (forall i :: 0 <= i < |r| ==> |r[i]| > 4 && r[i] !in Stopwords && r[i] in words)
      && (forall i, j :: 0 <= i < j < |r| ==> multiset(m)[r[i]] >= multiset(m)[r[j]])
      && (forall w :: w in m && w !in r ==> forall i :: 0 <= i < |r| ==> multiset(m)[w] <= multiset(m)[r[i]])
  {
    MostCommonSpec(Meaningful(words), 10);
    MeaningfulSpec(words);
  }

  // ---------------------------------------------------------------- the summary

  /** The summary `summarize_section` builds from the section and the LLM's reply. */
  function Summarize(sectionId: int, title: string, content: string, response: string): SectionSummary
  {
    var st := ParseLines(ResponseLines(response), sectionId);
    SectionSummary(sectionId, title, st.summary, TakePy(st.findings, 5),
                   TakePy(KeyTerms(Words(Lower(content))), 10))
  }

  /** A summary keeps at most five findings, all of its own section, and at most ten key terms. */
  lemma SummaryBounds(sectionId: int, title: string, content: string, response: string)
    ensures var s := Summarize(sectionId, title, content, response);
      && s.sectionId == sectionId && s.sectionTitle == title
      && |s.keyFindings| <= 5 && |s.keyTerms| <= 10
      && (forall k :: 0 <= k < |s.keyFindings| ==> s.keyFindings[k].sectionId == sectionId)
  {
    var flag, idx := ParseLinesSpec(ResponseLines(response), sectionId);
    KeyTermsSpec(Words(Lower(content)));
  }

  // ---------------------------------------------------------------- reading the ledger

  /** `summaries[max(0, id - window) : id]`, with Python's slice rules. */
  function Window(summaries: seq<SectionSummary>, currentId: int, windowSize: int): seq<SectionSummary>
  {
    SlicePy(summaries, if currentId - windowSize > 0 then currentId - windowSize else 0, currentId)
  }

  /**
   * For a non-negative id and window, the window is the summaries at list
   * positions from `id - window` (at least 0) up to `id`, so at most `window` of them.
   */
  lemma WindowSpec(summaries: seq<SectionSummary>, currentId: int, windowSize: int)
    requires currentId >= 0 && windowSize >= 0
    ensures var lo := if currentId - windowSize > 0 then currentId - windowSize else 0;
      var hi := if currentId < |summaries| then currentId else |summaries|;
      && |Window(summaries, currentId, windowSize)| <= windowSize
      && Window(summaries, currentId, windowSize) == (if lo < hi then summaries[lo..hi] else [])
  {
  }

  /** The rendering of one summary. */
  function Rendered(s: SectionSummary): string
  {
    "\n## " + s.sectionTitle + " (Summary)\n" + s.summary + "\n\nKey findings:\n"
      + Join("\n", Map(s.keyFindings, (f: Finding) => "- " + f.text)) + "\n"
  }

  /** `get_context_for_section`: nothing for the first section, else the window's renderings joined by line breaks. */
  function Context(summaries: seq<SectionSummary>, currentId: int, windowSize: int): string
  {
    if currentId == 0 then "" else Join("\n", Map(Window(summaries, currentId, windowSize), Rendered))
  }

  /** No context for the first section, and none when the window is empty. */
  lemma ContextEmpty(summaries: seq<SectionSummary>, currentId: int, windowSize: int)
    ensures currentId == 0 ==> Context(summaries, currentId, windowSize) == ""
    ensures Window(summaries, currentId, windowSize) == [] ==> Context(summaries, currentId, windowSize) == ""
  {
  }

  /** Past the first section, every summary of the window appears, rendered, in the context. */
  lemma ContextHoldsWindow(summaries: seq<SectionSummary>, currentId: int, windowSize: int, k: nat)
    requires currentId != 0 && k < |Window(summaries, currentId, windowSize)|
    ensures Contains(Context(summaries, currentId, windowSize), Rendered(Window(summaries, currentId, windowSize)[k]))
  {
    JoinHoldsPart("\n", Map(Window(summaries, currentId, windowSize), Rendered), k);
  }

  /** Each part occurs in the joined text. */
  lemma {:induction false} JoinHoldsPart(sep: string, parts: seq<string>, k: nat)
    requires k < |parts|
    ensures Contains(Join(sep, parts), parts[k])
    decreases k
  {
    if k == 0 {
      assert Join(sep, parts)[..|parts[0]|] == parts[0];
      ContainsAt(Join(sep, parts), parts[0], 0);
    } else {
      var rest := parts[1..];
      JoinHoldsPart(sep, rest, k - 1);
      var head := parts[0] + sep;
      assert Join(sep, parts) == head + Join(sep, rest);
      var i := ContainsWitness(Join(sep, rest), rest[k - 1]);
      var whole := head + Join(sep, rest);
      assert whole[|head| + i..|head| + i + |parts[k]|] == parts[k];
      ContainsAt(whole, parts[k], |head| + i);
    }
  }

  /** `extract_findings_for_refinement`: the findings of the first summary of that section, else none. */
  function FirstFindings(summaries: seq<SectionSummary>, sectionId: int): seq<Finding>
    decreases |summaries|
  {
    if summaries == [] then []
    else if summaries[0].sectionId == sectionId then summaries[0].keyFindings
    else FirstFindings(summaries[1..], sectionId)
  }

  /** With no summary of that section there are no findings. */
  lemma {:induction false} FirstFindingsNone(summaries: seq<SectionSummary>, sectionId: int)
    requires forall k :: 0 <= k < |summaries| ==> summaries[k].sectionId != sectionId
    ensures FirstFindings(summaries, sectionId) == []
    decreases |summaries|
  {
    if summaries != [] {
      assert summaries[0].sectionId != sectionId;
      var rest := summaries[1..];
      forall k | 0 <= k < |rest| ensures rest[k].sectionId != sectionId {
        assert rest[k] == summaries[k + 1];
      }
      FirstFindingsNone(rest, sectionId);
    }
  }

  /** The findings are those of the earliest summary of that section. */
  lemma {:induction false} FirstFindingsEarliest(summaries: seq<SectionSummary>, sectionId: int, k: nat)
    requires k < |summaries| && summaries[k].sectionId == sectionId
    requires forall j :: 0 <= j < k ==> summaries[j].sectionId != sectionId
    ensures FirstFindings(summaries, sectionId) == summaries[k].keyFindings
    decreases k
  {
    if k > 0 {
      assert summaries[0].sectionId != sectionId;
      var rest := summaries[1..];
      forall j | 0 <= j < k - 1 ensures rest[j].sectionId != sectionId {
        assert rest[j] == summaries[j + 1];
      }
      assert rest[k - 1] == summaries[k];
      FirstFindingsEarliest(rest, sectionId, k - 1);
    }
  }

  // ---------------------------------------------------------------- the ledger object

  /** One step of the walk, in the terms of the line itself. */
  lemma StepOfLine(st: ParseState, line: string, sectionId: int)
    ensures Step(st, Classifier(sectionId)(line)) ==
      if StartsWith(line, SummaryTag) then st.(summary := SummaryText(line))
      else if StartsWith(line, FindingsTag) then st.(inFindings := true)
      else if st.inFindings && Strip(line) != "" && Contains(line, SourcesMarker) then
        st.(findings := st.findings + [FindingOf(line, sectionId)])
      else st
  {
  }

  /** The reply walk of `summarize_section`, with the `in_findings` flag. */
  method ParseResponse(lines: seq<string>, sectionId: int) returns (st: ParseState)
    ensures st == ParseLines(lines, sectionId)
  {
    var summaryText := "";
    var findings: seq<Finding> := [];
    var inFindings := false;
    var i := 0;
    while i < |lines|
      invariant 0 <= i <= |lines|
      invariant ParseState(summaryText, inFindings, findings) == ParseLines(lines[..i], sectionId)
    {
      KindsStep(lines, i, sectionId);
      var line := lines[i];
      StepOfLine(ParseState(summaryText, inFindings, findings), line, sectionId);
      if StartsWith(line, SummaryTag) {
        summaryText := Strip(ReplaceAll(line, SummaryTag, ""));
      } else if StartsWith(line, FindingsTag) {
        inFindings := true;
      } else if inFindings && Strip(line) != "" && Contains(line, SourcesMarker) {
        findings := findings + [FindingOf(line, sectionId)];
      }
      i := i + 1;
    }
    assert lines[..i] == lines;
    st := ParseState(summaryText, inFindings, findings);
  }

  class ContextManager {
    var summaries: seq<SectionSummary>

    constructor()
      ensures summaries == []
    {
      summaries := [];
    }

    /** `summarize_section`: appends exactly one summary and returns it. */
    method SummarizeSection(sectionId: int, title: string, content: string, response: string)
      returns (summary: SectionSummary)
      modifies this
      ensures summary == Summarize(sectionId, title, content, response)
      ensures summaries == old(summaries) + [summary]
    {
      var st := ParseResponse(ResponseLines(response), sectionId);
      var keyTerms := KeyTerms(Words(Lower(content)));
      summary := SectionSummary(sectionId, title, st.summary, TakePy(st.findings, 5), TakePy(keyTerms, 10));
      summaries := summaries + [summary];
    }

    /** `get_context_for_section`: renders the window of earlier summaries, one part each. */
    method ContextForSection(currentId: int, windowSize: int) returns (context: string)
      ensures context == Context(summaries, currentId, windowSize)
    {
      if currentId == 0 {
        return "";
      }
      var relevant := Window(summaries, currentId, windowSize);
      var parts: seq<string> := [];
      for i := 0 to |relevant|
        invariant parts == Map(relevant[..i], Rendered)
      {
        assert relevant[..i + 1] == relevant[..i] + [relevant[i]];
        MapSnoc(relevant[..i], relevant[i], Rendered);
        parts := parts + [Rendered(relevant[i])];
      }
      assert relevant[..|relevant|] == relevant;
      context := Join("\n", parts);
    }

    /** `extract_findings_for_refinement`: scans the ledger for the first summary of the section. */
    method FindingsForRefinement(sectionId: int) returns (findings: seq<Finding>)
      ensures findings == FirstFindings(summaries, sectionId)
    {
      var i := 0;
      while i < |summaries|
        invariant 0 <= i <= |summaries|
        invariant forall j :: 0 <= j < i ==> summaries[j].sectionId != sectionId
      {
        if summaries[i].sectionId == sectionId {
          FirstFindingsEarliest(summaries, sectionId, i);
          return summaries[i].keyFindings;
        }
        i := i + 1;
      }
      FirstFindingsNone(summaries, sectionId);
      return [];
    }
  }
}

/**
 * The paper searcher of the `src/` pipeline: a primary (Perplexity) search with
 * an arXiv fallback, title deduplication, a cap on the number of papers, and the
 * query builder.
 */
module Searcher {
  import opened Wrappers
  import opened Text
  import opened Seqs
  import opened Uniq

  datatype Paper = Paper(
    title: string,
    authors: seq<string>,
    summary: string,
    year: Option<int>,
    url: string,
    source: string)

  /** What a searcher's call produced: its papers, or an exception. */
  datatype SearchOutcome = Returned(papers: seq<Paper>) | Raised

  /** The key `_deduplicate` compares: `title.lower().strip()`. */
  function NormalizedTitle(p: Paper): string
  {
    Strip(Lower(p.title))
  }

  /**
   * `_deduplicate`: walks the papers with a set of seen titles and keeps each
   * paper whose normalised title is new, so the first paper per title survives.
   */
  method Deduplicate(papers: seq<Paper>) returns (unique: seq<Paper>)
    ensures unique == KeepFirst(papers, NormalizedTitle)
    ensures KeysOf(unique, NormalizedTitle) == KeysOf(papers, NormalizedTitle)
    ensures forall i, j :: 0 <= i < j < |unique| ==> NormalizedTitle(unique[i]) != NormalizedTitle(unique[j])
  {
    var seen: set<string> := {};
    unique := [];
    var i := 0;
    while i < |papers|
      invariant 0 <= i <= |papers|
      invariant unique == KeepFirst(papers[..i], NormalizedTitle)
      invariant seen == KeysOf(unique, NormalizedTitle)
    {
      var title := NormalizedTitle(papers[i]);
      assert papers[..i + 1] == papers[..i] + [papers[i]];
      KeepFirstSnoc(papers[..i], papers[i], NormalizedTitle);
      if title !in seen {
        KeysOfAppend(unique, papers[i], NormalizedTitle);
        seen := seen + {title};
        unique := unique + [papers[i]];
      }
      i := i + 1;
    }
    assert papers[..i] == papers;
    KeepFirstKeys(papers, NormalizedTitle);
  }

  class ResearchSearcher {
    /** Whether a primary searcher was configured (provider `perplexity`). */
    const hasPrimary: bool
    /** The configured default cap, 20 when the configuration gives none. */
    const maxResults: int

    constructor (provider: string, configuredMax: Option<int>)
      ensures hasPrimary == (provider == "perplexity")
      ensures maxResults == if configuredMax.Some? then configuredMax.value else 20
    {
      hasPrimary := provider == "perplexity";
      maxResults := if configuredMax.Some? then configuredMax.value else 20;
    }

    /** `max_results or self.max_results`: a missing or zero request takes the default. */
    function Limit(requested: Option<int>): (limit: int)
      ensures requested.Some? && requested.value != 0 ==> limit == requested.value
      ensures requested.None? || requested.value == 0 ==> limit == maxResults
    {
      if requested.Some? && requested.value != 0 then requested.value else maxResults
    }

    /** The primary's papers as `search` sees them: none if it raised or is not configured. */
    function PrimaryPapers(outcome: SearchOutcome): (got: seq<Paper>)
      ensures !hasPrimary || outcome.Raised? ==> got == []
      ensures hasPrimary && outcome.Returned? ==> got == outcome.papers
    {
      if hasPrimary && outcome.Returned? then outcome.papers else []
    }

    /**
     * `search`: the primary's papers, then the fallback's papers exactly when the
     * primary gave fewer than half the limit, deduplicated by title and cut to the
     * limit. The primary's exception is caught; the fallback's is not, so a
     * raising fallback makes `search` raise. Python's `//` floors, as Dafny's `/`
     * does for a positive divisor.
     */
    method Search(query: string, requested: Option<int>,
                  primary: (string, int) -> SearchOutcome,
                  fallback: (string, int) -> SearchOutcome)
      returns (result: SearchOutcome, usedFallback: bool)
      ensures usedFallback <==> |PrimaryPapers(primary(query, Limit(requested)))| < Limit(requested) / 2
      ensures result.Raised? <==> usedFallback && fallback(query, Limit(requested)).Raised?
      ensures result.Returned? ==>
        result.papers == TakePy(KeepFirst(Candidates(query, requested, primary, fallback).papers, NormalizedTitle), Limit(requested))
      ensures result.Returned? ==> forall p :: p in result.papers ==> p in Candidates(query, requested, primary, fallback).papers
      ensures result.Returned? && Limit(requested) >= 0 ==> |result.papers| <= Limit(requested)
      ensures result.Returned? ==>
        forall i, j :: 0 <= i < j < |result.papers| ==> NormalizedTitle(result.papers[i]) != NormalizedTitle(result.papers[j])
    {
      var limit := Limit(requested);
      var papers := [];
      if hasPrimary {
        var outcome := primary(query, limit);
        if outcome.Returned? {
          papers := outcome.papers;
        }
      }
      usedFallback := |papers| < limit / 2;
      if usedFallback {
        var fallbackOutcome := fallback(query, limit);
        if fallbackOutcome.Raised? {
          return Raised, usedFallback;
        }
        papers := papers + fallbackOutcome.papers;
      }
      assert papers == Candidates(query, requested, primary, fallback).papers;
      ghost var all := papers;
      papers := Deduplicate(papers);
      KeepFirstElements(all, NormalizedTitle);
      result := Returned(TakePy(papers, limit));
    }

    /**
     * The papers `search` deduplicates: the primary's, then the fallback's when
     * it was called; the exception when the called fallback raised.
     */
    function Candidates(query: string, requested: Option<int>,
                        primary: (string, int) -> SearchOutcome,
                        fallback: (string, int) -> SearchOutcome): (all: SearchOutcome)
      ensures var got := PrimaryPapers(primary(query, Limit(requested)));
        var called := |got| < Limit(requested) / 2;
        && (all.Raised? <==> called && fallback(query, Limit(requested)).Raised?)
        && (all.Returned? ==> |got| <= |all.papers| && all.papers[..|got|] == got)
        && (all.Returned? && called ==> all.papers[|got|..] == fallback(query, Limit(requested)).papers)
        && (!called ==> all == Returned(got))
    {
      var limit := Limit(requested);
      var got := PrimaryPapers(primary(query, limit));
      if |got| < limit / 2 then
        match fallback(query, limit)
        case Raised => Raised
        case Returned(more) => Returned(got + more)
      else Returned(got)
    }
  }

  // ---------------------------------------------------------------- query building

  const MaxQueryLength: nat := 250

  /** `' '.join(problem_statement.split()[:50])`. */
  function ProblemSnippet(problem: string): string
  {
    Join(" ", TakePy(Words(problem), 50))
  }

  /** The snippet is exactly the first 50 words of the problem statement, read back. */
  lemma SnippetWords(problem: string)
    ensures Words(ProblemSnippet(problem)) == TakePy(Words(problem), 50)
    ensures ProblemSnippet(problem) == "" <==> Words(problem) == []
  {
    var ws := TakePy(Words(problem), 50);
    assert forall i :: 0 <= i < |ws| ==> ws[i] == Words(problem)[i];
    WordsOfJoin(ws);
    if ws != [] {
      JoinLength(" ", ws);
    }
  }

  /** The query's parts: the snippet if any, the domain, then at most 7 keywords. */
  function QueryParts(domain: string, keywords: seq<string>, problem: string): (parts: seq<string>)
    ensures |parts| == (if ProblemSnippet(problem) != "" then 2 else 1) + |TakePy(keywords, 7)|
    ensures ProblemSnippet(problem) != "" ==> parts[0] == ProblemSnippet(problem) && parts[1] == domain
    ensures ProblemSnippet(problem) == "" ==> parts[0] == domain
    ensures |parts| <= 9 && parts[|parts| - |TakePy(keywords, 7)|..] == TakePy(keywords, 7)
  {
    var snippet := ProblemSnippet(problem);
    var parts := [domain] + TakePy(keywords, 7);
    if snippet != "" then [snippet] + parts else parts
  }

  /**
   * `build_search_query`: the parts joined by spaces; a query over 250 characters
   * is cut to 250 and then back to its last space when that space is not at
   * index 0. The result is a prefix of the full query.
   */
  method BuildSearchQuery(domain: string, keywords: seq<string>, problem: string) returns (query: string)
    ensures var full := Join(" ", QueryParts(domain, keywords, problem));
      && |query| <= MaxQueryLength
      && StartsWith(full, query)
      && (|full| <= MaxQueryLength ==> query == full)
      && (|full| > MaxQueryLength ==>
            (|query| == MaxQueryLength && forall j :: 0 < j < MaxQueryLength ==> full[j] != ' ')
            || (0 < |query| < MaxQueryLength && full[|query|] == ' '
                && forall j :: |query| < j < MaxQueryLength ==> full[j] != ' '))
  {
    var snippet := ProblemSnippet(problem);
    var queryParts := [domain] + TakePy(keywords, 7);
    if snippet != "" {
      queryParts := [snippet] + queryParts;
    }
    assert queryParts == QueryParts(domain, keywords, problem);
    query := Join(" ", queryParts);
    ghost var full := query;
    if |query| > MaxQueryLength {
      var head := query[..MaxQueryLength];
      var lastSpace := LastIndexOfChar(head, ' ');
      assert forall j :: lastSpace < j < MaxQueryLength ==> full[j] == head[j] != ' ';
      if lastSpace > 0 {
        query := head[..lastSpace];
        assert full[|query|] == head[lastSpace] == ' ';
      } else {
        query := head;
      }
    }
  }
}

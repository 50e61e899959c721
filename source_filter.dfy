/**
 * Keyword-overlap relevance filtering of registered sources against a section
 * objective: score each source, keep those at or above a threshold, sort by
 * score (highest first, ties in input order), and keep the first `top_k`.
 */
module SourceFilter {
  import opened Text
  import opened Seqs
  import opened Sorting
  import opened ResearchAgent

  const StopWords: set<string> := {"which", "their", "about", "should"}
  const DefaultMinScore: real := 0.15
  const DefaultTopK: int := 5

  /** `_extract_keywords`: the lower-cased whitespace tokens longer than 4 characters that are not stop words. */
  function ExtractKeywords(text: string): set<string>
  {
    set w | w in Words(Lower(text)) && |w| > 4 && w !in StopWords
  }

  /** Keywords are lower-case already, so extracting them from lower-cased text changes nothing. */
  lemma ExtractKeywordsOfLower(text: string)
    ensures ExtractKeywords(Lower(text)) == ExtractKeywords(text)
  {
    LowerIdempotent(text);
  }

  /** Every keyword is a token of the lower-cased text, longer than 4 characters and not a stop word. */
  lemma KeywordsShape(text: string)
    ensures forall w :: w in ExtractKeywords(text) ==> |w| > 4 && w !in StopWords && w in Words(Lower(text)) && IsWord(w)
  {
  }

  lemma RatioBounds(x: real, n: real)
    requires 0.0 <= x <= n && n > 0.0
    ensures 0.0 <= x / n <= 1.0
  {
  }

  lemma {:induction false} IntersectionBound(a: set<string>, b: set<string>)
    ensures |a * b| <= |a|
    decreases |a|
  {
    if a != {} {
      var x :| x in a;
      IntersectionBound(a - {x}, b);
      if x in b {
        assert a * b == (a - {x}) * b + {x};
      } else {
        assert a * b == (a - {x}) * b;
      }
    }
  }

  /**
   * `_calculate_relevance`: 0 without objective keywords, else the weighted
   * overlap (title 0.6, abstract 0.4) over the number of objective keywords,
   * capped at 1.
   */
  function CalculateRelevance(source: SourceRecord, objectiveKeywords: set<string>): (score: real)
    ensures 0.0 <= score <= 1.0
    ensures objectiveKeywords == {} ==> score == 0.0
  {
    var abstractKeywords := ExtractKeywords(Lower(source.abstract_));
    var titleKeywords := ExtractKeywords(Lower(source.title));
    var titleOverlap := |objectiveKeywords * titleKeywords|;
    var abstractOverlap := |objectiveKeywords * abstractKeywords|;
    if objectiveKeywords == {} then 0.0
    else WeightedOverlap(titleOverlap, abstractOverlap, |objectiveKeywords|)
  }

  /** `min((title * 0.6 + abstract * 0.4) / n, 1.0)`. */
  function WeightedOverlap(titleOverlap: nat, abstractOverlap: nat, n: nat): (score: real)
    requires n > 0
    ensures 0.0 <= score <= 1.0
    ensures titleOverlap <= n && abstractOverlap <= n ==>
      score == (titleOverlap as real * 0.6 + abstractOverlap as real * 0.4) / n as real
  {
    var weighted := titleOverlap as real * 0.6 + abstractOverlap as real * 0.4;
    var score := weighted / n as real;
    assert score >= 0.0 by {
      RatioBounds(0.0, n as real);
      assert weighted / n as real >= 0.0 / n as real;
    }
    assert titleOverlap <= n && abstractOverlap <= n ==> score <= 1.0 by {
      if titleOverlap <= n && abstractOverlap <= n {
        RatioBounds(weighted, n as real);
      }
    }
    if score < 1.0 then score else 1.0
  }

  /** The cap never bites: each overlap is at most the number of objective keywords. */
  lemma RelevanceUncapped(source: SourceRecord, objectiveKeywords: set<string>)
    requires objectiveKeywords != {}
    ensures CalculateRelevance(source, objectiveKeywords) ==
      ((|objectiveKeywords * ExtractKeywords(source.title)| as real * 0.6
        + |objectiveKeywords * ExtractKeywords(source.abstract_)| as real * 0.4)
       / |objectiveKeywords| as real)
  {
    ExtractKeywordsOfLower(source.title);
    ExtractKeywordsOfLower(source.abstract_);
    IntersectionBound(objectiveKeywords, ExtractKeywords(source.title));
    IntersectionBound(objectiveKeywords, ExtractKeywords(source.abstract_));
  }

  /** `scored.sort(key=score, reverse=True)`: `a` goes before `b` when it scored strictly higher. */
  function ByScore(kws: set<string>): (above: (SourceRecord, SourceRecord) -> bool)
    ensures forall a, b :: above(a, b) == (CalculateRelevance(a, kws) > CalculateRelevance(b, kws))
  {
    (a, b) => CalculateRelevance(a, kws) > CalculateRelevance(b, kws)
  }

  /** The sources scoring at least `minScore`, in input order. */
  function Scored(sources: seq<SourceRecord>, kws: set<string>, minScore: real): (kept: seq<SourceRecord>)
  {
    Filter(sources, s => CalculateRelevance(s, kws) >= minScore)
  }

  /** What `filter_by_relevance` returns. */
  function FilterSpec(sources: seq<SourceRecord>, objective: string, minScore: real, topK: int): seq<SourceRecord>
  {
    var kws := ExtractKeywords(objective);
    TakePy(SortBy(Scored(sources, kws, minScore), ByScore(kws)), topK)
  }

  /**
   * The scoring loop of `filter_by_relevance`: appends each source that reaches
   * the threshold (the score travels with the source as CalculateRelevance of it).
   */
  method ScoreSources(sources: seq<SourceRecord>, kws: set<string>, minScore: real) returns (scored: seq<SourceRecord>)
    ensures scored == Scored(sources, kws, minScore)
  {
    scored := [];
    var i := 0;
    while i < |sources|
      invariant 0 <= i <= |sources|
      invariant scored == Scored(sources[..i], kws, minScore)
    {
      var score := CalculateRelevance(sources[i], kws);
      assert sources[..i + 1][..i] == sources[..i];
      if score >= minScore {
        scored := scored + [sources[i]];
      }
      i := i + 1;
    }
    assert sources[..i] == sources;
  }

  /**
   * `filter_by_relevance`: every returned source scored at least `minScore`,
   * there are at most `topK` of them, scores never increase along the result,
   * and the result is a sub-multiset of the input.
   */
  method FilterByRelevance(sources: seq<SourceRecord>, objective: string, minScore: real, topK: int)
    returns (result: seq<SourceRecord>)
    ensures result == FilterSpec(sources, objective, minScore, topK)
    ensures topK >= 0 ==> |result| <= topK
    ensures forall i :: 0 <= i < |result| ==> CalculateRelevance(result[i], ExtractKeywords(objective)) >= minScore
    ensures forall i, j :: 0 <= i < j < |result| ==>
      CalculateRelevance(result[i], ExtractKeywords(objective)) >= CalculateRelevance(result[j], ExtractKeywords(objective))
    ensures multiset(result) <= multiset(sources)
  {
    var kws := ExtractKeywords(objective);
    var scored := ScoreSources(sources, kws, minScore);
    var sorted := SortBy(scored, ByScore(kws));
    result := TakePy(sorted, topK);
    assert multiset(result) <= multiset(sources) by {
      SortedSubMultiset(sources, kws, minScore, topK);
    }
    assert forall i :: 0 <= i < |result| ==> CalculateRelevance(result[i], kws) >= minScore by {
      SortedSubMultiset(sources, kws, minScore, topK);
      AllReachThreshold(scored, result, kws, minScore);
    }
    assert forall i, j :: 0 <= i < j < |result| ==> CalculateRelevance(result[i], kws) >= CalculateRelevance(result[j], kws) by {
      ByScoreOrder(kws);
      SortSorted(scored, ByScore(kws));
      PrefixNonIncreasing(sorted, result, kws);
    }
  }

  lemma ByScoreOrder(kws: set<string>)
    ensures Irreflexive(ByScore(kws)) && Transitive(ByScore(kws))
  {
  }

  lemma PrefixNonIncreasing(sorted: seq<SourceRecord>, r: seq<SourceRecord>, kws: set<string>)
    requires Sorted(sorted, ByScore(kws)) && |r| <= |sorted| && r == sorted[..|r|]
    ensures forall i, j :: 0 <= i < j < |r| ==> CalculateRelevance(r[i], kws) >= CalculateRelevance(r[j], kws)
  {
    forall i, j | 0 <= i < j < |r| ensures CalculateRelevance(r[i], kws) >= CalculateRelevance(r[j], kws) {
      assert r[i] == sorted[i] && r[j] == sorted[j];
      assert !ByScore(kws)(sorted[j], sorted[i]);
    }
  }

  lemma SortedSubMultiset(sources: seq<SourceRecord>, kws: set<string>, minScore: real, topK: int)
    ensures var scored := Scored(sources, kws, minScore);
      var r := TakePy(SortBy(scored, ByScore(kws)), topK);
      multiset(r) <= multiset(scored) <= multiset(sources)
  {
    var scored := Scored(sources, kws, minScore);
    var sorted := SortBy(scored, ByScore(kws));
    var r := TakePy(sorted, topK);
    SortPermutes(scored, ByScore(kws));
    ScoredSubMultiset(sources, kws, minScore);
    PrefixSubMultiset(sorted, |r|);
  }

  /** The relevance filter only drops sources. */
  lemma ScoredSubMultiset(sources: seq<SourceRecord>, kws: set<string>, minScore: real)
    ensures multiset(Scored(sources, kws, minScore)) <= multiset(sources)
  {
    FilterSubMultiset(sources, s => CalculateRelevance(s, kws) >= minScore);
  }

  lemma AllReachThreshold(scored: seq<SourceRecord>, r: seq<SourceRecord>, kws: set<string>, minScore: real)
    requires forall i :: 0 <= i < |scored| ==> CalculateRelevance(scored[i], kws) >= minScore
    requires multiset(r) <= multiset(scored)
    ensures forall i :: 0 <= i < |r| ==> CalculateRelevance(r[i], kws) >= minScore
  {
    forall i | 0 <= i < |r| ensures CalculateRelevance(r[i], kws) >= minScore {
      assert r[i] in multiset(r);
      assert r[i] in multiset(scored);
      var k :| 0 <= k < |scored| && scored[k] == r[i];
    }
  }

  /** Sources with equal scores come out in the order they went in (the sort is stable). */
  lemma FilterTiesInInputOrder(sources: seq<SourceRecord>, objective: string, minScore: real, v: real)
    ensures var kws := ExtractKeywords(objective); var scored := Scored(sources, kws, minScore);
      Filter(SortBy(scored, ByScore(kws)), s => CalculateRelevance(s, kws) == v)
      == Filter(scored, s => CalculateRelevance(s, kws) == v)
  {
    var kws := ExtractKeywords(objective);
    ByScoreOrder(kws);
    SortStable(Scored(sources, kws, minScore), ByScore(kws), s => CalculateRelevance(s, kws) == v);
  }

  /** An objective without keywords scores every source 0, so a positive threshold keeps nothing. */
  lemma NoKeywordsNoSources(sources: seq<SourceRecord>, objective: string, minScore: real, topK: int)
    requires ExtractKeywords(objective) == {} && minScore > 0.0
    ensures FilterSpec(sources, objective, minScore, topK) == []
  {
    var kws := ExtractKeywords(objective);
    FilterNone(sources, s => CalculateRelevance(s, kws) >= minScore);
  }
}

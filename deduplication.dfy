/**
 * PaperDeduplicator: clusters search results that describe the same paper
 * (same arXiv id, same DOI, or same year and near-identical titles) and merges
 * each cluster into one record. Each cluster is opened by the lowest index not
 * yet absorbed, and every later record is tested against that head only.
 */
module Deduplication {
  import opened Wrappers
  import opened Text
  import opened Seqs
  import opened Sorting
  import opened Uniq
  import opened OrderedMaps
  import opened Models

  /** The default `title_similarity_threshold`. */
  const DefaultThreshold: real := 0.85

  /**
   * A deduplicator: its title-similarity threshold, and the SequenceMatcher
   * ratio of two normalised titles, which the model takes as given.
   */
  datatype Deduplicator = Deduplicator(threshold: real, ratio: (string, string) -> real)

  // ---------------------------------------------------------------- identifiers

  /** The arXiv id: the part after `arxiv:` in the source id, else `metadata['arxiv_id']`. */
  function ArxivId(r: SearchResult): (id: MetaValue)
    ensures StartsWith(r.sourceId, "arxiv:") ==> id.MText? && "arxiv:" + id.text == r.sourceId
    ensures !StartsWith(r.sourceId, "arxiv:") ==> id == MetaGet(r.metadata, "arxiv_id")
  {
    if StartsWith(r.sourceId, "arxiv:") then
      assert r.sourceId == r.sourceId[..6] + r.sourceId[6..];
      MText(r.sourceId[6..])
    else MetaGet(r.metadata, "arxiv_id")
  }

  /** The identifier of the first citation whose type is `doi`, or `None`. */
  function FirstDoiCitation(cs: seq<CitationReference>): MetaValue
    decreases |cs|
  {
    if cs == [] then MNull
    else if cs[0].identifierType == "doi" then MText(cs[0].identifier)
    else FirstDoiCitation(cs[1..])
  }

  /** FirstDoiCitation is `None` iff no citation has type `doi`, and otherwise the first such one. */
  lemma {:induction false} FirstDoiCitationSpec(cs: seq<CitationReference>)
    ensures FirstDoiCitation(cs) == MNull <==> forall k :: 0 <= k < |cs| ==> cs[k].identifierType != "doi"
    ensures FirstDoiCitation(cs) != MNull ==> exists k :: (0 <= k < |cs| && cs[k].identifierType == "doi"
      && FirstDoiCitation(cs) == MText(cs[k].identifier)
      && forall l :: 0 <= l < k ==> cs[l].identifierType != "doi")
    decreases |cs|
  {
    if cs != [] && cs[0].identifierType != "doi" {
      var t := cs[1..];
      FirstDoiCitationSpec(t);
      assert forall k :: 1 <= k < |cs| ==> cs[k] == t[k - 1];
      if FirstDoiCitation(t) != MNull {
        var k :| 0 <= k < |t| && t[k].identifierType == "doi"
          && FirstDoiCitation(t) == MText(t[k].identifier)
          && forall l :: 0 <= l < k ==> t[l].identifierType != "doi";
        assert cs[k + 1] == t[k];
      }
    }
  }

  /** The DOI: a truthy `metadata['doi']`, else the first `doi` citation. */
  function Doi(r: SearchResult): MetaValue
  {
    var d := MetaGet(r.metadata, "doi");
    if Truthy(d) then d else FirstDoiCitation(r.citations)
  }

  /** Titles are compared lower-cased with whitespace runs collapsed to one space. */
  function NormalizeTitle(t: string): string
  {
    Join(" ", Words(Lower(t)))
  }

  predicate SameArxiv(a: SearchResult, b: SearchResult)
  {
    Truthy(ArxivId(a)) && Truthy(ArxivId(b)) && ArxivId(a) == ArxivId(b)
  }

  predicate SameDoi(a: SearchResult, b: SearchResult)
  {
    Truthy(Doi(a)) && Truthy(Doi(b)) && Doi(a) == Doi(b)
  }

  predicate SimilarTitles(d: Deduplicator, a: SearchResult, b: SearchResult)
  {
    YearTruthy(a.year) && YearTruthy(b.year) && a.year == b.year
    && d.ratio(NormalizeTitle(a.title), NormalizeTitle(b.title)) >= d.threshold
  }

  /** `_are_duplicates`: the arXiv rule, then the DOI rule, then the title rule. */
  predicate AreDuplicates(d: Deduplicator, a: SearchResult, b: SearchResult)
  {
    SameArxiv(a, b) || SameDoi(a, b) || SimilarTitles(d, a, b)
  }

  /** `id` is the record's arXiv id: its source id is `arxiv:<id>`, or another source id comes with `metadata['arxiv_id'] == id`. */
  predicate ArxivIdIs(r: SearchResult, id: string)
  {
    r.sourceId == "arxiv:" + id
    || (!StartsWith(r.sourceId, "arxiv:") && MetaGet(r.metadata, "arxiv_id") == MText(id))
  }

  /** Citation `k` is the first citation of type `doi`. */
  predicate FirstDoiAt(cs: seq<CitationReference>, k: int)
  {
    0 <= k < |cs| && cs[k].identifierType == "doi" && forall l :: 0 <= l < k ==> cs[l].identifierType != "doi"
  }

  /** `id` is the record's DOI: `metadata['doi'] == id`, or, with no truthy `metadata['doi']`, the first `doi` citation names it. */
  ghost predicate DoiIs(r: SearchResult, id: string)
  {
    MetaGet(r.metadata, "doi") == MText(id)
    || (!Truthy(MetaGet(r.metadata, "doi")) && exists k :: FirstDoiAt(r.citations, k) && r.citations[k].identifier == id)
  }

  /** Both sources of the arXiv id give it back. */
  lemma ArxivIdOf(r: SearchResult, id: string)
    requires ArxivIdIs(r, id)
    ensures ArxivId(r) == MText(id)
  {
    if r.sourceId == "arxiv:" + id {
      assert StartsWith(r.sourceId, "arxiv:");
      assert ArxivId(r).text == r.sourceId[6..] == id;
    }
  }

  /** Both sources of the DOI give it back. */
  lemma DoiOf(r: SearchResult, id: string)
    requires id != "" && DoiIs(r, id)
    ensures Doi(r) == MText(id)
  {
    if MetaGet(r.metadata, "doi") != MText(id) {
      var k :| FirstDoiAt(r.citations, k) && r.citations[k].identifier == id;
      FirstDoiCitationSpec(r.citations);
      assert FirstDoiCitation(r.citations) != MNull;
      var k' :| 0 <= k' < |r.citations| && r.citations[k'].identifierType == "doi"
        && FirstDoiCitation(r.citations) == MText(r.citations[k'].identifier)
        && forall l :: 0 <= l < k' ==> r.citations[l].identifierType != "doi";
      assert k' == k;
    }
  }

  /** Two records with the same non-empty arXiv id, from either source, are duplicates whatever their titles and years. */
  lemma ArxivRule(d: Deduplicator, a: SearchResult, b: SearchResult, id: string)
    requires id != "" && ArxivIdIs(a, id) && ArxivIdIs(b, id)
    ensures AreDuplicates(d, a, b)
  {
    ArxivIdOf(a, id);
    ArxivIdOf(b, id);
  }

  /** Two records with the same non-empty DOI, from `metadata['doi']` or from their first `doi` citation, are duplicates. */
  lemma DoiRule(d: Deduplicator, a: SearchResult, b: SearchResult, id: string)
    requires id != "" && DoiIs(a, id) && DoiIs(b, id)
    ensures AreDuplicates(d, a, b)
  {
    DoiOf(a, id);
    DoiOf(b, id);
  }

  /**
   * Without a shared arXiv id or DOI, duplicates must have the same truthy year
   * and normalised titles whose similarity reaches the threshold.
   */
  lemma TitleRule(d: Deduplicator, a: SearchResult, b: SearchResult)
    requires !SameArxiv(a, b) && !SameDoi(a, b)
    ensures AreDuplicates(d, a, b) <==>
      a.year.Some? && b.year.Some? && a.year.value == b.year.value != 0
      && d.ratio(NormalizeTitle(a.title), NormalizeTitle(b.title)) >= d.threshold
  {
  }

  // ---------------------------------------------------------------- clustering

  /** The duplicate test as a relation; the clustering below is stated for any relation. */
  function DupOf(d: Deduplicator): (SearchResult, SearchResult) -> bool
  {
    (a: SearchResult, b: SearchResult) => AreDuplicates(d, a, b)
  }

  function Elems(js: seq<int>): set<int>
  {
    set k | k in js
  }

  /**
   * The indices in [from, |rs|), outside `merged`, that the head `rs[i]`
   * absorbs, in increasing order.
   */
  function Absorbed(dup: (SearchResult, SearchResult) -> bool, rs: seq<SearchResult>, i: nat, from: nat, merged: set<int>): seq<int>
    requires i < |rs|
    decreases |rs| - from
  {
    if from >= |rs| then []
    else if from !in merged && dup(rs[i], rs[from]) then [from] + Absorbed(dup, rs, i, from + 1, merged)
    else Absorbed(dup, rs, i, from + 1, merged)
  }

  /**
   * The head absorbs exactly the later, not yet absorbed indices that it is a
   * duplicate of, in increasing order.
   */
  lemma {:induction false} AbsorbedShape(dup: (SearchResult, SearchResult) -> bool, rs: seq<SearchResult>, i: nat, from: nat, merged: set<int>)
    requires i < |rs|
    ensures var js := Absorbed(dup, rs, i, from, merged);
      && (forall k :: 0 <= k < |js| ==> from <= js[k] < |rs| && js[k] !in merged && dup(rs[i], rs[js[k]]))
      && (forall k, l :: 0 <= k < l < |js| ==> js[k] < js[l])
      && (forall j :: from <= j < |rs| && j !in merged && dup(rs[i], rs[j]) ==> j in js)
    decreases |rs| - from
  {
    if from < |rs| {
      AbsorbedShape(dup, rs, i, from + 1, merged);
    }
  }

  /** The clusters opened at indices `i..`, given the indices already absorbed. */
  function ClustersFrom(dup: (SearchResult, SearchResult) -> bool, rs: seq<SearchResult>, i: nat, merged: set<int>): seq<seq<int>>
    decreases |rs| - i
  {
    if i >= |rs| then []
    else if i in merged then ClustersFrom(dup, rs, i + 1, merged)
    else
      var js := Absorbed(dup, rs, i, i + 1, merged);
      [[i] + js] + ClustersFrom(dup, rs, i + 1, merged + Elems(js))
  }

  /** Non-empty clusters of indices in [0, n). */
  predicate ValidClusters(cs: seq<seq<int>>, n: nat)
  {
    (forall a :: 0 <= a < |cs| ==> |cs[a]| > 0)
    && forall a, b :: 0 <= a < |cs| && 0 <= b < |cs[a]| ==> 0 <= cs[a][b] < n
  }

  lemma {:induction false} ClustersFromValid(dup: (SearchResult, SearchResult) -> bool, rs: seq<SearchResult>, i: nat, merged: set<int>)
    ensures ValidClusters(ClustersFrom(dup, rs, i, merged), |rs|)
    decreases |rs| - i
  {
    if i < |rs| {
      if i in merged {
        ClustersFromValid(dup, rs, i + 1, merged);
      } else {
        var js := Absorbed(dup, rs, i, i + 1, merged);
        AbsorbedShape(dup, rs, i, i + 1, merged);
        var rest := ClustersFrom(dup, rs, i + 1, merged + Elems(js));
        ClustersFromValid(dup, rs, i + 1, merged + Elems(js));
        var cs := [[i] + js] + rest;
        forall a, b | 0 <= a < |cs| && 0 <= b < |cs[a]|
          ensures 0 <= cs[a][b] < |rs|
        {
          if a == 0 {
            assert b > 0 ==> cs[a][b] == js[b - 1];
          } else {
            assert cs[a] == rest[a - 1];
          }
        }
      }
    }
  }

  /** The clusters, as index lists, each headed by its lowest index. */
  function Clusters(dup: (SearchResult, SearchResult) -> bool, rs: seq<SearchResult>): (cs: seq<seq<int>>)
    ensures ValidClusters(cs, |rs|)
  {
    ClustersFromValid(dup, rs, 0, {});
    ClustersFrom(dup, rs, 0, {})
  }

  lemma {:induction false} MembersLength(rs: seq<SearchResult>, c: seq<int>)
    requires forall k :: 0 <= k < |c| ==> 0 <= c[k] < |rs|
    ensures |Members(rs, c)| == |c|
    decreases |c|
  {
    if c != [] {
      MembersLength(rs, c[..|c| - 1]);
    }
  }

  /** The records at the indices of a cluster (indices out of range are skipped). */
  function Members(rs: seq<SearchResult>, c: seq<int>): seq<SearchResult>
    decreases |c|
  {
    if c == [] then []
    else Members(rs, c[..|c| - 1]) + (if 0 <= c[|c| - 1] < |rs| then [rs[c[|c| - 1]]] else [])
  }

  /** One merged record per cluster, in cluster order. */
  function MergeAll(rs: seq<SearchResult>, cs: seq<seq<int>>): (out: seq<SearchResult>)
    requires ValidClusters(cs, |rs|)
    ensures |out| == |cs|
    decreases |cs|
  {
    if cs == [] then []
    else
      MembersLength(rs, cs[0]);
      assert forall a :: 1 <= a < |cs| ==> cs[1..][a - 1] == cs[a];
      [Merged(Members(rs, cs[0]))] + MergeAll(rs, cs[1..])
  }

  /** What `deduplicate` returns: one merged record per cluster, in order of cluster heads. */
  function DeduplicateSpec(d: Deduplicator, rs: seq<SearchResult>): seq<SearchResult>
  {
    MergeAll(rs, Clusters(DupOf(d), rs))
  }

  /** A strictly increasing index list holds each index at most once. */
  lemma {:induction false} IncreasingCount(js: seq<int>, k: int)
    requires forall a, b :: 0 <= a < b < |js| ==> js[a] < js[b]
    ensures multiset(js)[k] == if k in js then 1 else 0
    decreases |js|
  {
    if js != [] {
      var t := js[1..];
      IncreasingCount(t, k);
      assert js == [js[0]] + t;
      assert js[0] !in t;
    }
  }

  lemma CountStep(i: nat, js: seq<int>, f: seq<int>, merged: set<int>, k: int, n: nat)
    requires i < n && i !in merged
    requires forall a, b :: 0 <= a < b < |js| ==> js[a] < js[b]
    requires forall a :: 0 <= a < |js| ==> i < js[a] < n && js[a] !in merged
    requires multiset(f)[k] == if i + 1 <= k < n && k !in merged + Elems(js) then 1 else 0
    ensures multiset([i] + js + f)[k] == if i <= k < n && k !in merged then 1 else 0
  {
    IncreasingCount(js, k);
    var head: seq<int> := [i];
    assert multiset(head + js + f) == multiset(head) + multiset(js) + multiset(f);
    assert multiset(head)[k] == if k == i then 1 else 0;
  }

  lemma {:induction false} ClustersFromPartition(dup: (SearchResult, SearchResult) -> bool, rs: seq<SearchResult>, i: nat, merged: set<int>, k: int)
    ensures multiset(Flatten<int>(ClustersFrom(dup, rs, i, merged)))[k] == if i <= k < |rs| && k !in merged then 1 else 0
    decreases |rs| - i
  {
    if i < |rs| {
      if i in merged {
        ClustersFromPartition(dup, rs, i + 1, merged, k);
      } else {
        var js := Absorbed(dup, rs, i, i + 1, merged);
        AbsorbedShape(dup, rs, i, i + 1, merged);
        var rest := ClustersFrom(dup, rs, i + 1, merged + Elems(js));
        ClustersFromPartition(dup, rs, i + 1, merged + Elems(js), k);
        FlattenCons<int>([i] + js, rest);
        var f := Flatten<int>(rest);
        assert multiset(f)[k] == if i + 1 <= k < |rs| && k !in merged + Elems(js) then 1 else 0;
        CountStep(i, js, f, merged, k, |rs|);
      }
    }
  }

  /**
   * Every input index lands in exactly one cluster: it opens a cluster only if
   * no earlier cluster absorbed it.
   */
  lemma ClustersPartition(dup: (SearchResult, SearchResult) -> bool, rs: seq<SearchResult>, k: int)
    ensures multiset(Flatten<int>(Clusters(dup, rs)))[k] == if 0 <= k < |rs| then 1 else 0
  {
    ClustersFromPartition(dup, rs, 0, {}, k);
  }

  /** Every member after the head comes later in the input and is a duplicate of the head. */
  predicate HeadsTested(dup: (SearchResult, SearchResult) -> bool, rs: seq<SearchResult>, cs: seq<seq<int>>)
  {
    forall a, b :: 0 <= a < |cs| && 0 < b < |cs[a]| ==>
      0 <= cs[a][0] < cs[a][b] < |rs| && dup(rs[cs[a][0]], rs[cs[a][b]])
  }

  lemma {:induction false} ClustersFromHeads(dup: (SearchResult, SearchResult) -> bool, rs: seq<SearchResult>, i: nat, merged: set<int>)
    ensures HeadsTested(dup, rs, ClustersFrom(dup, rs, i, merged))
    decreases |rs| - i
  {
    if i < |rs| {
      if i in merged {
        ClustersFromHeads(dup, rs, i + 1, merged);
      } else {
        var js := Absorbed(dup, rs, i, i + 1, merged);
        AbsorbedShape(dup, rs, i, i + 1, merged);
        ClustersFromValid(dup, rs, i + 1, merged + Elems(js));
        var rest := ClustersFrom(dup, rs, i + 1, merged + Elems(js));
        ClustersFromHeads(dup, rs, i + 1, merged + Elems(js));
        var cs := [[i] + js] + rest;
        forall a, b | 0 <= a < |cs| && 0 < b < |cs[a]|
          ensures 0 <= cs[a][0] < cs[a][b] < |rs| && dup(rs[cs[a][0]], rs[cs[a][b]])
        {
          if a == 0 {
            assert cs[a][0] == i && cs[a][b] == js[b - 1];
          } else {
            assert cs[a] == rest[a - 1];
          }
        }
      }
    }
  }

  /**
   * Each absorbed record comes after its cluster head and was tested as a
   * duplicate of that head (not of the other members).
   */
  lemma ClustersHeads(dup: (SearchResult, SearchResult) -> bool, rs: seq<SearchResult>)
    ensures HeadsTested(dup, rs, Clusters(dup, rs))
  {
    ClustersFromHeads(dup, rs, 0, {});
  }

  lemma {:induction false} ClustersFromCount(dup: (SearchResult, SearchResult) -> bool, rs: seq<SearchResult>, i: nat, merged: set<int>)
    requires i <= |rs|
    ensures |ClustersFrom(dup, rs, i, merged)| <= |rs| - i
    decreases |rs| - i
  {
    if i < |rs| {
      if i in merged {
        assert ClustersFrom(dup, rs, i, merged) == ClustersFrom(dup, rs, i + 1, merged);
        ClustersFromCount(dup, rs, i + 1, merged);
      } else {
        ClustersFromCount(dup, rs, i + 1, merged + Elems(Absorbed(dup, rs, i, i + 1, merged)));
      }
    }
  }

  /** An empty input gives an empty output, and the output is never longer than the input. */
  lemma DeduplicateLength(d: Deduplicator, rs: seq<SearchResult>)
    ensures rs == [] ==> DeduplicateSpec(d, rs) == []
    ensures |DeduplicateSpec(d, rs)| <= |rs|
  {
    ClustersFromCount(DupOf(d), rs, 0, {});
  }

  // ---------------------------------------------------------------- merging

  /** A truthy `metadata['pdf_path']`: the first component of the merge sort key. */
  predicate HasPdf(r: SearchResult)
  {
    Truthy(MetaGet(r.metadata, "pdf_path"))
  }

  /**
   * `a` sorts strictly before `b` under the key (has pdf_path, content length,
   * citation count) with `reverse=True`.
   */
  predicate RanksAbove(a: SearchResult, b: SearchResult)
  {
    (HasPdf(a) && !HasPdf(b))
    || (HasPdf(a) == HasPdf(b) &&
        (|a.content| > |b.content| || (|a.content| == |b.content| && |a.citations| > |b.citations|)))
  }

  /** A lexicographic key order is a strict weak order. */
  lemma RanksAboveOrder()
    ensures StrictWeakOrder(RanksAbove)
  {
    forall a, b, c | RanksAbove(a, c)
      ensures RanksAbove(a, b) || RanksAbove(b, c)
    {
    }
  }

  function IdentifierOf(c: CitationReference): string { c.identifier }

  function CitationLists(rs: seq<SearchResult>): (ls: seq<seq<CitationReference>>)
    ensures |ls| == |rs| && forall k :: 0 <= k < |rs| ==> ls[k] == rs[k].citations
  {
    seq(|rs|, k requires 0 <= k < |rs| => rs[k].citations)
  }

  function SourceIds(rs: seq<SearchResult>): (ids: seq<string>)
    ensures |ids| == |rs| && forall k :: 0 <= k < |rs| ==> ids[k] == rs[k].sourceId
  {
    seq(|rs|, k requires 0 <= k < |rs| => rs[k].sourceId)
  }

  /** The authors of every member that has a truthy author list, in member order. */
  function AllAuthors(rs: seq<SearchResult>): seq<string>
    decreases |rs|
  {
    if rs == [] then []
    else
      var last := rs[|rs| - 1];
      AllAuthors(rs[..|rs| - 1]) + (if AuthorsTruthy(last.authors) then last.authors.value else [])
  }

  /** `_merge_authors`: the case-insensitive union keeping the first spelling, or `None` if empty. */
  function MergeAuthors(rs: seq<SearchResult>): Option<seq<string>>
  {
    var u := KeepFirst(AllAuthors(rs), Lower);
    if u == [] then None else Some(u)
  }

  /** `_find_year`: the first truthy year among the members. */
  function FindYear(rs: seq<SearchResult>): Option<int>
    decreases |rs|
  {
    if rs == [] then None
    else if YearTruthy(rs[0].year) then rs[0].year
    else FindYear(rs[1..])
  }

  /** FindYear is `None` iff no member has a truthy year, and otherwise the first truthy one. */
  lemma {:induction false} FindYearSpec(rs: seq<SearchResult>)
    ensures FindYear(rs).None? <==> forall k :: 0 <= k < |rs| ==> !YearTruthy(rs[k].year)
    ensures FindYear(rs).Some? ==> exists k :: (0 <= k < |rs| && YearTruthy(rs[k].year)
      && FindYear(rs) == rs[k].year && forall l :: 0 <= l < k ==> !YearTruthy(rs[l].year))
    decreases |rs|
  {
    if rs != [] && !YearTruthy(rs[0].year) {
      var t := rs[1..];
      FindYearSpec(t);
      assert forall k :: 1 <= k < |rs| ==> rs[k] == t[k - 1];
      if FindYear(t).Some? {
        var k :| 0 <= k < |t| && YearTruthy(t[k].year) && FindYear(t) == t[k].year
          && forall l :: 0 <= l < k ==> !YearTruthy(t[l].year);
        assert rs[k + 1] == t[k];
      }
    }
  }

  /** `_find_url`: the first truthy url among the members. */
  function FindUrl(rs: seq<SearchResult>): Option<string>
    decreases |rs|
  {
    if rs == [] then None
    else if TextTruthy(rs[0].url) then rs[0].url
    else FindUrl(rs[1..])
  }

  /** FindUrl is `None` iff no member has a truthy url, and otherwise the first truthy one. */
  lemma {:induction false} FindUrlSpec(rs: seq<SearchResult>)
    ensures FindUrl(rs).None? <==> forall k :: 0 <= k < |rs| ==> !TextTruthy(rs[k].url)
    ensures FindUrl(rs).Some? ==> exists k :: (0 <= k < |rs| && TextTruthy(rs[k].url)
      && FindUrl(rs) == rs[k].url && forall l :: 0 <= l < k ==> !TextTruthy(rs[l].url))
    decreases |rs|
  {
    if rs != [] && !TextTruthy(rs[0].url) {
      var t := rs[1..];
      FindUrlSpec(t);
      assert forall k :: 1 <= k < |rs| ==> rs[k] == t[k - 1];
      if FindUrl(t).Some? {
        var k :| 0 <= k < |t| && TextTruthy(t[k].url) && FindUrl(t) == t[k].url
          && forall l :: 0 <= l < k ==> !TextTruthy(t[l].url);
        assert rs[k + 1] == t[k];
      }
    }
  }

  /** What `_merge_results` returns for a non-empty cluster, in cluster order. */
  function Merged(dups: seq<SearchResult>): SearchResult
    requires |dups| > 0
  {
    if |dups| == 1 then dups[0]
    else
      var sorted := SortBy(dups, RanksAbove);
      var best := sorted[0];
      SearchResult(
        best.sourceId, best.title, best.content,
        if AuthorsTruthy(best.authors) then best.authors else MergeAuthors(dups),
        if YearTruthy(best.year) then best.year else FindYear(dups),
        if TextTruthy(best.url) then best.url else FindUrl(dups),
        KeepFirst(Flatten(CitationLists(sorted)), IdentifierOf),
        Put(best.metadata, "merged_from_sources", MList(SourceIds(dups))))
  }

  /**
   * For two or more members the representative is the first member with the
   * largest (has pdf_path, content length, citation count) key; its source id,
   * title and content are kept, and its metadata gains `merged_from_sources`
   * listing every member's source id in cluster order.
   */
  lemma MergedRepresentative(dups: seq<SearchResult>)
    requires |dups| > 1
    ensures var b, r := BestIndex(dups, RanksAbove), Merged(dups);
      && (forall j :: 0 <= j < |dups| ==> !RanksAbove(dups[j], dups[b]))
      && (forall j :: 0 <= j < b ==> RanksAbove(dups[b], dups[j]))
      && r.sourceId == dups[b].sourceId && r.title == dups[b].title && r.content == dups[b].content
      && Get(r.metadata, "merged_from_sources") == Some(MList(SourceIds(dups)))
      && (forall k :: k != "merged_from_sources" ==> Get(r.metadata, k) == Get(dups[b].metadata, k))
  {
    var b := BestIndex(dups, RanksAbove);
    assert (forall j :: 0 <= j < |dups| ==> !RanksAbove(dups[j], dups[b]))
      && (forall j :: 0 <= j < b ==> RanksAbove(dups[b], dups[j])) by {
      RanksAboveOrder();
      BestIndexIsFirstMaximal(dups, RanksAbove);
    }
    var best, key, v := dups[b], "merged_from_sources", MList(SourceIds(dups));
    assert Merged(dups).metadata == Put(best.metadata, key, v) by {
      SortHead(dups, RanksAbove);
    }
    GetPut(best.metadata, key, v, key);
    forall k | k != key
      ensures Get(Put(best.metadata, key, v), k) == Get(best.metadata, k)
    {
      GetPut(best.metadata, key, v, k);
    }
    SortHead(dups, RanksAbove);
  }

  /** The identifiers cited by some member. */
  function AllIdentifiers(rs: seq<SearchResult>): set<string>
  {
    set k, c | 0 <= k < |rs| && c in rs[k].citations :: c.identifier
  }

  lemma {:induction false} FlattenIdentifiers(rs: seq<SearchResult>)
    ensures KeysOf(Flatten(CitationLists(rs)), IdentifierOf) == AllIdentifiers(rs)
    decreases |rs|
  {
    if rs != [] {
      var n := |rs| - 1;
      var p := rs[..n];
      FlattenIdentifiers(p);
      assert CitationLists(rs)[..n] == CitationLists(p);
      KeysOfConcat(Flatten(CitationLists(p)), rs[n].citations, IdentifierOf);
      AllIdentifiersSnoc(p, rs[n]);
      assert p + [rs[n]] == rs;
    }
  }

  lemma AllIdentifiersSnoc(p: seq<SearchResult>, r: SearchResult)
    ensures AllIdentifiers(p + [r]) == AllIdentifiers(p) + KeysOf(r.citations, IdentifierOf)
  {
    var rs := p + [r];
    forall x | x in AllIdentifiers(rs)
      ensures x in AllIdentifiers(p) + KeysOf(r.citations, IdentifierOf)
    {
      var k, c :| 0 <= k < |rs| && c in rs[k].citations && c.identifier == x;
      if k == |p| {
        var i :| 0 <= i < |r.citations| && r.citations[i] == c;
        assert IdentifierOf(r.citations[i]) == x;
      } else {
        assert rs[k] == p[k];
      }
    }
    forall x | x in AllIdentifiers(p) + KeysOf(r.citations, IdentifierOf)
      ensures x in AllIdentifiers(rs)
    {
      if x in AllIdentifiers(p) {
        var k, c :| 0 <= k < |p| && c in p[k].citations && c.identifier == x;
        assert rs[k] == p[k];
      } else {
        var i :| 0 <= i < |r.citations| && IdentifierOf(r.citations[i]) == x;
        assert rs[|p|] == r;
      }
    }
  }

  lemma PermutationIdentifiers(a: seq<SearchResult>, b: seq<SearchResult>)
    requires multiset(a) == multiset(b)
    ensures AllIdentifiers(a) == AllIdentifiers(b)
  {
    forall x | x in AllIdentifiers(a) ensures x in AllIdentifiers(b) {
      var k, c :| 0 <= k < |a| && c in a[k].citations && c.identifier == x;
      assert a[k] in multiset(b);
      var k' :| 0 <= k' < |b| && b[k'] == a[k];
    }
    forall x | x in AllIdentifiers(b) ensures x in AllIdentifiers(a) {
      var k, c :| 0 <= k < |b| && c in b[k].citations && c.identifier == x;
      assert b[k] in multiset(a);
      var k' :| 0 <= k' < |a| && a[k'] == b[k];
    }
  }

  /**
   * The merged citations hold every identifier any member cites, each exactly
   * once.
   */
  lemma MergedCitations(dups: seq<SearchResult>)
    requires |dups| > 1
    ensures var cs := Merged(dups).citations;
      && KeysOf(cs, IdentifierOf) == AllIdentifiers(dups)
      && forall i, j :: 0 <= i < j < |cs| ==> cs[i].identifier != cs[j].identifier
  {
    var sorted := SortBy(dups, RanksAbove);
    SortPermutes(dups, RanksAbove);
    PermutationIdentifiers(sorted, dups);
    FlattenIdentifiers(sorted);
    KeepFirstKeys(Flatten(CitationLists(sorted)), IdentifierOf);
  }

  /**
   * Missing authors on the representative are the case-insensitive union over
   * the members, first spelling kept; `None` when no member has authors.
   */
  lemma MergeAuthorsSpec(rs: seq<SearchResult>)
    ensures MergeAuthors(rs).None? <==> AllAuthors(rs) == []
    ensures MergeAuthors(rs).Some? ==>
      var u := MergeAuthors(rs).value;
      && KeysOf(u, Lower) == KeysOf(AllAuthors(rs), Lower)
      && forall i, j :: 0 <= i < j < |u| ==> Lower(u[i]) != Lower(u[j])
  {
    var all := AllAuthors(rs);
    KeepFirstKeys(all, Lower);
    if all != [] {
      assert Lower(all[0]) in KeysOf(all, Lower);
    }
  }

  // ---------------------------------------------------------------- the imperative operations

  /**
   * The citation loop of `_merge_results`: walk the members in sorted order and
   * keep each citation whose identifier has not been seen.
   */
  method UnionCitations(sorted: seq<SearchResult>) returns (allCitations: seq<CitationReference>)
    ensures allCitations == KeepFirst(Flatten(CitationLists(sorted)), IdentifierOf)
  {
    var lists := CitationLists(sorted);
    allCitations := [];
    var seen: set<string> := {};
    var k := 0;
    while k < |sorted|
      invariant 0 <= k <= |sorted|
      invariant allCitations == KeepFirst(Flatten(lists[..k]), IdentifierOf)
      invariant seen == KeysOf(allCitations, IdentifierOf)
    {
      ghost var prefix := Flatten(lists[..k]);
      allCitations, seen := AddCitations(allCitations, seen, prefix, sorted[k].citations);
      assert Flatten(lists[..k + 1]) == prefix + sorted[k].citations by {
        assert lists[..k + 1][..k] == lists[..k];
      }
      k := k + 1;
    }
    assert lists[..k] == lists;
  }

  /** The inner citation loop: one member's citations, against the identifiers seen so far. */
  method AddCitations(acc: seq<CitationReference>, seen0: set<string>, ghost prefix: seq<CitationReference>, cits: seq<CitationReference>)
    returns (allCitations: seq<CitationReference>, seen: set<string>)
    requires acc == KeepFirst(prefix, IdentifierOf) && seen0 == KeysOf(acc, IdentifierOf)
    ensures allCitations == KeepFirst(prefix + cits, IdentifierOf)
    ensures seen == KeysOf(allCitations, IdentifierOf)
  {
    allCitations, seen := acc, seen0;
    var m := 0;
    assert prefix + cits[..0] == prefix;
    while m < |cits|
      invariant 0 <= m <= |cits|
      invariant allCitations == KeepFirst(prefix + cits[..m], IdentifierOf)
      invariant seen == KeysOf(allCitations, IdentifierOf)
    {
      var c := cits[m];
      assert KeepFirst(prefix + cits[..m + 1], IdentifierOf) ==
        if c.identifier in seen then allCitations else allCitations + [c] by {
        assert prefix + cits[..m + 1] == (prefix + cits[..m]) + [c];
        KeepFirstSnoc(prefix + cits[..m], c, IdentifierOf);
      }
      if c.identifier !in seen {
        KeysOfAppend(allCitations, c, IdentifierOf);
        allCitations := allCitations + [c];
        seen := seen + {c.identifier};
      }
      m := m + 1;
    }
    assert cits[..m] == cits;
  }

  /** `_merge_results`: a singleton is returned as is; otherwise the best-ranked member absorbs the rest. */
  method MergeResults(dups: seq<SearchResult>) returns (r: SearchResult)
    requires |dups| > 0
    ensures r == Merged(dups)
  {
    if |dups| == 1 {
      return dups[0];
    }
    var sorted := SortBy(dups, RanksAbove);
    var best := sorted[0];
    var allCitations := UnionCitations(sorted);
    var merged := Put(best.metadata, "merged_from_sources", MList(SourceIds(dups)));
    r := SearchResult(
      best.sourceId, best.title, best.content,
      if AuthorsTruthy(best.authors) then best.authors else MergeAuthors(dups),
      if YearTruthy(best.year) then best.year else FindYear(dups),
      if TextTruthy(best.url) then best.url else FindUrl(dups),
      allCitations,
      merged);
  }

  lemma MembersSnoc(rs: seq<SearchResult>, c: seq<int>, x: int)
    requires 0 <= x < |rs|
    ensures Members(rs, c + [x]) == Members(rs, c) + [rs[x]]
  {
    assert (c + [x])[..|c|] == c;
  }

  /**
   * The inner loop of `deduplicate`: the head `results[i]` collects every later
   * record not yet absorbed that it is a duplicate of, and marks it absorbed.
   */
  method AbsorbInto(dup: (SearchResult, SearchResult) -> bool, results: seq<SearchResult>, i: nat, merged0: set<int>)
    returns (duplicates: seq<SearchResult>, merged: set<int>)
    requires i < |results|
    ensures duplicates == Members(results, [i] + Absorbed(dup, results, i, i + 1, merged0))
    ensures merged == merged0 + Elems(Absorbed(dup, results, i, i + 1, merged0))
  {
    ghost var members: seq<int> := [];
    merged := merged0;
    duplicates := [results[i]];
    var j := i + 1;
    while j < |results|
      invariant i + 1 <= j <= |results|
      invariant forall k :: 0 <= k < |members| ==> i < members[k] < j
      invariant members + Absorbed(dup, results, i, j, merged0) == Absorbed(dup, results, i, i + 1, merged0)
      invariant merged == merged0 + Elems(members)
      invariant duplicates == Members(results, [i] + members)
    {
      assert (j in merged) == (j in merged0) by {
        assert j !in Elems(members);
      }
      if j !in merged && dup(results[i], results[j]) {
        assert (members + [j]) + Absorbed(dup, results, i, j + 1, merged0) == Absorbed(dup, results, i, i + 1, merged0)
          && Members(results, [i] + (members + [j])) == duplicates + [results[j]] by {
          AbsorbedStep(dup, results, i, j, merged0);
          AbsorbStep(results, i, members, j, Absorbed(dup, results, i, j + 1, merged0));
        }
        duplicates := duplicates + [results[j]];
        merged := merged + {j};
        members := members + [j];
      } else {
        assert members + Absorbed(dup, results, i, j + 1, merged0) == Absorbed(dup, results, i, i + 1, merged0) by {
          AbsorbedStep(dup, results, i, j, merged0);
          assert [] + Absorbed(dup, results, i, j + 1, merged0) == Absorbed(dup, results, i, j + 1, merged0);
        }
      }
      j := j + 1;
    }
    assert members + [] == members;
  }

  /** One step of Absorbed: index `j` is taken iff it is free and a duplicate of the head. */
  lemma AbsorbedStep(dup: (SearchResult, SearchResult) -> bool, rs: seq<SearchResult>, i: nat, j: nat, merged: set<int>)
    requires i < |rs| && j < |rs|
    ensures Absorbed(dup, rs, i, j, merged) ==
      (if j !in merged && dup(rs[i], rs[j]) then [j] else []) + Absorbed(dup, rs, i, j + 1, merged)
  {
    var rest := Absorbed(dup, rs, i, j + 1, merged);
    assert [] + rest == rest;
  }

  /** Appending an absorbed index to the members found so far. */
  lemma AbsorbStep(rs: seq<SearchResult>, i: nat, members: seq<int>, j: nat, rest: seq<int>)
    requires i < |rs| && j < |rs|
    requires forall k :: 0 <= k < |members| ==> i < members[k] < j
    ensures (members + [j]) + rest == members + ([j] + rest)
    ensures Members(rs, [i] + (members + [j])) == Members(rs, [i] + members) + [rs[j]]
  {
    AbsorbMembers(rs, i, members, j);
    assert (members + [j]) + rest == members + ([j] + rest);
  }

  /** The cluster headed by `i` grows by the record at `j`. */
  lemma AbsorbMembers(rs: seq<SearchResult>, i: nat, members: seq<int>, j: nat)
    requires j < |rs|
    ensures Members(rs, [i] + (members + [j])) == Members(rs, [i] + members) + [rs[j]]
  {
    MembersSnoc(rs, [i] + members, j);
    assert [i] + (members + [j]) == ([i] + members) + [j];
  }

  /** Opening the cluster headed by a free index `i`. */
  lemma MergeAllOpen(dup: (SearchResult, SearchResult) -> bool, rs: seq<SearchResult>, i: nat, merged: set<int>)
    requires i < |rs| && i !in merged
    ensures ValidClusters(ClustersFrom(dup, rs, i, merged), |rs|)
    ensures ValidClusters(ClustersFrom(dup, rs, i + 1, merged + Elems(Absorbed(dup, rs, i, i + 1, merged))), |rs|)
    ensures |Members(rs, [i] + Absorbed(dup, rs, i, i + 1, merged))| > 0
    ensures MergeAll(rs, ClustersFrom(dup, rs, i, merged)) ==
      [Merged(Members(rs, [i] + Absorbed(dup, rs, i, i + 1, merged)))]
      + MergeAll(rs, ClustersFrom(dup, rs, i + 1, merged + Elems(Absorbed(dup, rs, i, i + 1, merged))))
  {
    var js := Absorbed(dup, rs, i, i + 1, merged);
    var rest := ClustersFrom(dup, rs, i + 1, merged + Elems(js));
    ClustersFromValid(dup, rs, i, merged);
    ClustersFromValid(dup, rs, i + 1, merged + Elems(js));
    AbsorbedShape(dup, rs, i, i + 1, merged);
    MembersLength(rs, [i] + js);
    assert ([[i] + js] + rest)[1..] == rest;
  }

  /** The records the outer loop still has to emit, from index `i` on, given the absorbed indices. */
  function Remaining(dup: (SearchResult, SearchResult) -> bool, rs: seq<SearchResult>, i: nat, merged: set<int>): seq<SearchResult>
  {
    ClustersFromValid(dup, rs, i, merged);
    MergeAll(rs, ClustersFrom(dup, rs, i, merged))
  }

  /**
   * One pass of the outer loop at a free index: absorb the duplicates, merge
   * them, and append the merged record.
   */
  method OpenCluster(dup: (SearchResult, SearchResult) -> bool, results: seq<SearchResult>, i: nat, merged0: set<int>, unique0: seq<SearchResult>)
    returns (unique: seq<SearchResult>, merged: set<int>)
    requires i < |results| && i !in merged0
    ensures merged == merged0 + Elems(Absorbed(dup, results, i, i + 1, merged0))
    ensures unique + Remaining(dup, results, i + 1, merged) == unique0 + Remaining(dup, results, i, merged0)
  {
    MergeAllOpen(dup, results, i, merged0);
    var duplicates;
    duplicates, merged := AbsorbInto(dup, results, i, merged0);
    var result := MergeResults(duplicates);
    unique := unique0 + [result];
    ghost var tail := Remaining(dup, results, i + 1, merged);
    assert unique + tail == unique0 + ([result] + tail);
  }

  /** An absorbed index opens no cluster. */
  lemma ClustersFromSkip(dup: (SearchResult, SearchResult) -> bool, rs: seq<SearchResult>, i: nat, merged: set<int>)
    requires i < |rs| && i in merged
    ensures ClustersFrom(dup, rs, i, merged) == ClustersFrom(dup, rs, i + 1, merged)
    ensures ValidClusters(ClustersFrom(dup, rs, i + 1, merged), |rs|)
  {
    ClustersFromValid(dup, rs, i + 1, merged);
  }

  /** The two loops of `deduplicate`, for the duplicate test `dup`. */
  method DeduplicateBy(dup: (SearchResult, SearchResult) -> bool, results: seq<SearchResult>) returns (unique: seq<SearchResult>)
    ensures unique == MergeAll(results, Clusters(dup, results))
  {
    var merged: set<int> := {};
    unique := [];
    var i: nat := 0;
    while i < |results|
      invariant 0 <= i <= |results|
      invariant unique + Remaining(dup, results, i, merged) == MergeAll(results, Clusters(dup, results))
    {
      if i !in merged {
        unique, merged := OpenCluster(dup, results, i, merged, unique);
      } else {
        assert Remaining(dup, results, i, merged) == Remaining(dup, results, i + 1, merged) by {
          ClustersFromSkip(dup, results, i, merged);
        }
      }
      i := i + 1;
    }
    assert Remaining(dup, results, i, merged) == [];
    assert unique + [] == unique;
  }

  /** `deduplicate`: an empty input gives an empty list; otherwise the loops run with `_are_duplicates`. */
  method Deduplicate(d: Deduplicator, results: seq<SearchResult>) returns (unique: seq<SearchResult>)
    ensures unique == DeduplicateSpec(d, results)
  {
    if |results| == 0 {
      return [];
    }
    unique := DeduplicateBy(DupOf(d), results);
  }
}

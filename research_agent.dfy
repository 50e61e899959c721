/**
 * The research agent of the `agents/` pipeline: the per-section search query,
 * the provider fallback chain, the acceptance test for sources, and the source
 * registry (`sources_db`) that later citation checks consult.
 */
module ResearchAgent {
  import opened Wrappers
  import opened Text
  import opened Seqs
  import opened Models
  import Deduplication

  const MaxQueryLength: nat := 200
  const MinAbstractLength: nat := 50

  /** The words `_build_search_query` appends after the topic, chosen from the lower-cased section title. */
  function QuerySuffix(sectionTitle: string): (suffix: seq<string>)
    ensures Contains(Lower(sectionTitle), "method") ==> suffix == ["methods"]
    ensures !Contains(Lower(sectionTitle), "method") && (Contains(Lower(sectionTitle), "literature") || Contains(Lower(sectionTitle), "review")) ==> suffix == ["survey review"]
    ensures !Contains(Lower(sectionTitle), "method") && !Contains(Lower(sectionTitle), "literature") && !Contains(Lower(sectionTitle), "review") ==> suffix == []
  {
    var lower := Lower(sectionTitle);
    MethodologyMentionsMethod(lower);
    if Contains(lower, "methodology") || Contains(lower, "method") then ["methods"]
    else if Contains(lower, "literature") || Contains(lower, "review") then ["survey review"]
    else []
  }

  /** A title containing `methodology` also contains `method`, so the first test reduces to the second. */
  lemma MethodologyMentionsMethod(s: string)
    ensures Contains(s, "methodology") ==> Contains(s, "method")
  {
    if Contains(s, "methodology") {
      var i := ContainsWitness(s, "methodology");
      assert s[i..i + 6] == s[i..i + 11][..6] == "methodology"[..6] == "method";
      ContainsAt(s, "method", i);
    }
  }

  /**
   * `_build_search_query`: the topic followed by the suffix words, joined by a
   * space and cut to 200 characters; it starts with (a prefix of) the topic.
   */
  function BuildSearchQuery(topic: string, sectionTitle: string, sectionObjective: string): (query: string)
    ensures |query| <= MaxQueryLength
    ensures query == TakePy(topic + (if QuerySuffix(sectionTitle) == [] then "" else " " + QuerySuffix(sectionTitle)[0]), MaxQueryLength)
    ensures StartsWith(query, TakePy(topic, MaxQueryLength))
  {
    var queryParts := [topic] + QuerySuffix(sectionTitle);
    var query := Join(" ", queryParts);
    assert query == topic + (if QuerySuffix(sectionTitle) == [] then "" else " " + QuerySuffix(sectionTitle)[0]) by {
      if QuerySuffix(sectionTitle) != [] {
        assert queryParts[1..] == QuerySuffix(sectionTitle) && |QuerySuffix(sectionTitle)| == 1;
        assert Join(" ", queryParts[1..]) == QuerySuffix(sectionTitle)[0];
        assert topic + " " + QuerySuffix(sectionTitle)[0] == topic + (" " + QuerySuffix(sectionTitle)[0]);
      }
    }
    if |query| > MaxQueryLength then query[..MaxQueryLength] else query
  }

  /** `_validate_source`: the checks run in order and the first that fails rejects the source. */
  function ValidateSource(r: SearchResult): (ok: bool)
    ensures ok <==> AuthorsTruthy(r.authors) && StartsWith(r.sourceId, "arxiv:")
                    && |Strip(r.content)| >= MinAbstractLength && YearTruthy(r.year) && TextTruthy(r.url)
  {
    if !AuthorsTruthy(r.authors) then false
    else if !StartsWith(r.sourceId, "arxiv:") then false
    else if r.content == "" || |Strip(r.content)| < MinAbstractLength then false
    else if !YearTruthy(r.year) then false
    else if !TextTruthy(r.url) then false
    else true
  }

  /** The dictionary `_store_source` records for a source. */
  datatype SourceRecord = SourceRecord(
    sourceId: string,
    title: string,
    authors: Option<seq<string>>,
    year: Option<int>,
    url: Option<string>,
    abstract_: string,
    metadata: Metadata,
    validationStatus: string,
    validationReason: string)

  function RecordOf(r: SearchResult): SourceRecord
  {
    SourceRecord(r.sourceId, r.title, r.authors, r.year, r.url, r.content, r.metadata,
                 "validated", "Passed all acceptance criteria")
  }

  /** The registry after `_store_source(r)`: an id already present keeps its entry. */
  function Stored(db: map<string, SourceRecord>, r: SearchResult): map<string, SourceRecord>
  {
    if r.sourceId in db then db else db[r.sourceId := RecordOf(r)]
  }

  /** Storing is idempotent, adds at most the one key, and never changes an existing entry. */
  lemma StoredProperties(db: map<string, SourceRecord>, r: SearchResult)
    ensures Stored(Stored(db, r), r) == Stored(db, r)
    ensures Stored(db, r).Keys == db.Keys + {r.sourceId}
    ensures forall k :: k in db ==> Stored(db, r)[k] == db[k]
    ensures r.sourceId !in db ==> Stored(db, r)[r.sourceId] == RecordOf(r)
  {
  }

  /** The registry after storing each of `rs` in turn. */
  function StoreAll(db: map<string, SourceRecord>, rs: seq<SearchResult>): map<string, SourceRecord>
    decreases |rs|
  {
    if rs == [] then db else StoreAll(Stored(db, rs[0]), rs[1..])
  }

  /** After storing a list, every id of the list is registered and earlier entries are untouched. */
  lemma {:induction false} StoreAllProperties(db: map<string, SourceRecord>, rs: seq<SearchResult>)
    ensures forall i :: 0 <= i < |rs| ==> rs[i].sourceId in StoreAll(db, rs)
    ensures forall k :: k in db ==> k in StoreAll(db, rs) && StoreAll(db, rs)[k] == db[k]
    ensures StoreAll(db, rs).Keys == db.Keys + IdSet(rs)
    decreases |rs|
  {
    if rs != [] {
      var db1 := Stored(db, rs[0]);
      StoredProperties(db, rs[0]);
      StoreAllProperties(db1, rs[1..]);
      IdSetCons(rs);
      forall i | 0 <= i < |rs| ensures rs[i].sourceId in StoreAll(db, rs) {
        if i > 0 {
          assert rs[i] == rs[1..][i - 1];
        }
      }
    }
  }

  /** The set of ids of a list of results. */
  function IdSet(rs: seq<SearchResult>): set<string>
  {
    set i | 0 <= i < |rs| :: rs[i].sourceId
  }

  lemma IdSetCons(rs: seq<SearchResult>)
    requires rs != []
    ensures IdSet(rs) == {rs[0].sourceId} + IdSet(rs[1..])
  {
    forall x | x in IdSet(rs) ensures x in {rs[0].sourceId} + IdSet(rs[1..]) {
      var i :| 0 <= i < |rs| && rs[i].sourceId == x;
      if i > 0 {
        assert rs[1..][i - 1] == rs[i];
      }
    }
    forall x | x in IdSet(rs[1..]) ensures x in IdSet(rs) {
      var i :| 0 <= i < |rs[1..]| && rs[1..][i].sourceId == x;
      assert rs[i + 1] == rs[1..][i];
    }
  }

  /** What one provider's `search` call produced: a list of results, or an exception. */
  datatype ProviderReply = Results(results: seq<SearchResult>) | Raised

  /** The results of the first provider that returned a non-empty list, or `[]`. */
  function FirstNonEmpty(replies: seq<ProviderReply>): (raw: seq<SearchResult>)
    decreases |replies|
  {
    if replies == [] then []
    else if replies[0].Results? && replies[0].results != [] then replies[0].results
    else FirstNonEmpty(replies[1..])
  }

  /**
   * FirstNonEmpty is empty exactly when no provider returned results; otherwise it
   * is the reply of a provider every earlier one of which raised or returned nothing.
   */
  lemma {:induction false} FirstNonEmptySpec(replies: seq<ProviderReply>)
    ensures FirstNonEmpty(replies) == [] <==> forall k :: 0 <= k < |replies| ==> replies[k].Raised? || replies[k].results == []
    ensures FirstNonEmpty(replies) != [] ==>
      exists k :: (0 <= k < |replies| && replies[k] == Results(FirstNonEmpty(replies))
                   && forall j :: 0 <= j < k ==> replies[j].Raised? || replies[j].results == [])
    decreases |replies|
  {
    if replies != [] && !(replies[0].Results? && replies[0].results != []) {
      FirstNonEmptySpec(replies[1..]);
      assert forall k :: 1 <= k < |replies| ==> replies[k] == replies[1..][k - 1];
      if FirstNonEmpty(replies) != [] {
        var k :| 0 <= k < |replies[1..]| && replies[1..][k] == Results(FirstNonEmpty(replies))
              && forall j :: 0 <= j < k ==> replies[1..][j].Raised? || replies[1..][j].results == [];
        assert replies[k + 1] == Results(FirstNonEmpty(replies));
      }
    }
  }

  /** The ids of a list of results. */
  function Ids(rs: seq<SearchResult>): (ids: seq<string>)
    ensures |ids| == |rs| && forall i :: 0 <= i < |rs| ==> ids[i] == rs[i].sourceId
  {
    seq(|rs|, i requires 0 <= i < |rs| => rs[i].sourceId)
  }

  class ResearchAgent {
    const maxPapers: int
    var sourcesDb: map<string, SourceRecord>

    constructor (maxPapersPerSection: int)
      ensures maxPapers == maxPapersPerSection && sourcesDb == map[]
    {
      maxPapers := maxPapersPerSection;
      sourcesDb := map[];
    }

    /** `_store_source`: registers `r` under its id unless that id is already present. */
    method StoreSource(r: SearchResult) returns (sourceId: string)
      modifies this
      ensures sourceId == r.sourceId && sourceId in sourcesDb
      ensures sourcesDb == Stored(old(sourcesDb), r)
    {
      sourceId := r.sourceId;
      if sourceId in sourcesDb {
        return;
      }
      sourcesDb := sourcesDb[sourceId := RecordOf(r)];
    }

    /** The provider loop of `research_section`: stops at the first provider with results. */
    method SearchProviders(query: string, providers: seq<(string, int) -> ProviderReply>) returns (raw: seq<SearchResult>)
      ensures raw == FirstNonEmpty(Replies(providers, query))
    {
      raw := [];
      var i := 0;
      while i < |providers|
        invariant 0 <= i <= |providers|
        invariant FirstNonEmpty(Replies(providers, query)) == FirstNonEmpty(Replies(providers[i..], query))
      {
        var reply := providers[i](query, maxPapers);
        assert Replies(providers[i..], query) == [reply] + Replies(providers[i + 1..], query);
        if reply.Results? && reply.results != [] {
          raw := reply.results;
          return;
        }
        assert Replies(providers[i..], query)[1..] == Replies(providers[i + 1..], query);
        i := i + 1;
      }
    }

    /** Each provider's reply to the section query, in provider order. */
    function Replies(providers: seq<(string, int) -> ProviderReply>, query: string): (replies: seq<ProviderReply>)
      ensures |replies| == |providers| && forall i :: 0 <= i < |providers| ==> replies[i] == providers[i](query, maxPapers)
    {
      seq(|providers|, i requires 0 <= i < |providers| => providers[i](query, maxPapers))
    }

    /** The store loop of `research_section`: registers each validated source and collects its id. */
    method StoreSources(validated: seq<SearchResult>) returns (ids: seq<string>)
      modifies this
      ensures ids == Ids(validated)
      ensures sourcesDb == StoreAll(old(sourcesDb), validated)
    {
      ids := [];
      var i := 0;
      while i < |validated|
        invariant 0 <= i <= |validated|
        invariant ids == Ids(validated[..i])
        invariant StoreAll(old(sourcesDb), validated) == StoreAll(sourcesDb, validated[i..])
      {
        var id := StoreSource(validated[i]);
        assert validated[i..][1..] == validated[i + 1..];
        assert Ids(validated[..i + 1]) == Ids(validated[..i]) + [id];
        ids := ids + [id];
        i := i + 1;
      }
      assert validated[..i] == validated;
    }

    /**
     * `research_section` without its wall-clock cut-offs: the first non-empty
     * provider reply, deduplicated, filtered by ValidateSource, each survivor stored;
     * the ids are returned in order and every one is then registered.
     */
    method ResearchSection(topic: string, sectionTitle: string, sectionObjective: string,
                           providers: seq<(string, int) -> ProviderReply>, d: Deduplication.Deduplicator)
      returns (sourceIds: seq<string>)
      modifies this
      ensures var raw := FirstNonEmpty(Replies(providers, BuildSearchQuery(topic, sectionTitle, sectionObjective)));
        var validated := Filter(Deduplication.DeduplicateSpec(d, raw), ValidateSource);
        sourceIds == Ids(validated) && sourcesDb == StoreAll(old(sourcesDb), validated)
      ensures forall i :: 0 <= i < |sourceIds| ==> sourceIds[i] in sourcesDb
      ensures forall k :: k in old(sourcesDb) ==> k in sourcesDb && sourcesDb[k] == old(sourcesDb)[k]
    {
      var query := BuildSearchQuery(topic, sectionTitle, sectionObjective);
      var raw := SearchProviders(query, providers);
      if raw == [] {
        assert Deduplication.DeduplicateSpec(d, raw) == [] by {
          Deduplication.DeduplicateLength(d, raw);
        }
        return [];
      }
      var unique := Deduplication.Deduplicate(d, raw);
      var validated := ValidatedOnly(unique);
      sourceIds := StoreSources(validated);
      StoreAllProperties(old(sourcesDb), validated);
    }

    /** The validation loop of `research_section`: keeps the sources ValidateSource accepts, in order. */
    method ValidatedOnly(unique: seq<SearchResult>) returns (validated: seq<SearchResult>)
      ensures validated == Filter(unique, ValidateSource)
    {
      validated := [];
      var i := 0;
      while i < |unique|
        invariant 0 <= i <= |unique|
        invariant validated == Filter(unique[..i], ValidateSource)
      {
        assert unique[..i + 1][..i] == unique[..i];
        if ValidateSource(unique[i]) {
          validated := validated + [unique[i]];
        }
        i := i + 1;
      }
      assert unique[..i] == unique;
    }

    /** `get_all_sources`: the registry as a value, so later changes to either side are not shared. */
    method GetAllSources() returns (all: map<string, SourceRecord>)
      ensures all == sourcesDb
    {
      all := sourcesDb;
    }
  }
}

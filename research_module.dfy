/**
 * ResearchModule: searches for papers on a topic, extracts claims from each
 * result and stores them, counting what happened in a statistics dictionary.
 * A paper whose extraction raises is counted as failed and skipped; a claim
 * whose `add` raises is not counted as stored; an exception from the search
 * itself propagates. The search, the extractor and the store are inputs.
 */
module ResearchModule {
  import opened Wrappers
  import opened Models

  /** The dictionary `execute` returns. */
  datatype Stats = Stats(
    papersFound: nat,
    papersProcessed: nat,
    papersFailed: nat,
    claimsExtracted: nat,
    claimsStored: nat)

  // ---------------------------------------------------------------- storing claims

  /** The number of claims whose `add` does not raise; `adds(c)` says whether adding `c` succeeds. */
  function StoredCount(claims: seq<Claim>, adds: Claim -> bool): (n: nat)
    ensures n <= |claims|
  {
    if claims == [] then 0
    else StoredCount(claims[..|claims| - 1], adds) + (if adds(claims[|claims| - 1]) then 1 else 0)
  }

  /** Every claim is counted when every add succeeds, and none when every add raises. */
  lemma {:induction false} StoredCountExtremes(claims: seq<Claim>, adds: Claim -> bool)
    ensures (forall k :: 0 <= k < |claims| ==> adds(claims[k])) ==> StoredCount(claims, adds) == |claims|
    ensures (forall k :: 0 <= k < |claims| ==> !adds(claims[k])) ==> StoredCount(claims, adds) == 0
  {
    if claims != [] {
      var init := claims[..|claims| - 1];
      StoredCountExtremes(init, adds);
      assert forall k :: 0 <= k < |init| ==> init[k] == claims[k];
    }
  }

  /** `_store_claims`: never raises; counts the adds that succeed. */
  method StoreClaims(claims: seq<Claim>, adds: Claim -> bool) returns (stored: nat)
    ensures stored == StoredCount(claims, adds)
    ensures stored <= |claims|
  {
    stored := 0;
    var i := 0;
    while i < |claims|
      invariant 0 <= i <= |claims|
      invariant stored == StoredCount(claims[..i], adds)
    {
      assert claims[..i + 1][..i] == claims[..i];
      if adds(claims[i]) {
        stored := stored + 1;
      }
      i := i + 1;
    }
    assert claims[..i] == claims;
  }

  // ---------------------------------------------------------------- the paper loop

  /**
   * One paper: `extract(r)` is the extracted claims, or `None` when extraction
   * raised; a raising extraction only counts a failure.
   */
  function PaperStep(st: Stats, r: SearchResult, extract: SearchResult -> Option<seq<Claim>>, adds: Claim -> bool): (st': Stats)
    ensures st'.papersFound == st.papersFound
    ensures st'.papersProcessed + st'.papersFailed == st.papersProcessed + st.papersFailed + 1
    ensures st'.claimsStored - st.claimsStored <= st'.claimsExtracted - st.claimsExtracted
  {
    match extract(r)
    case None => st.(papersFailed := st.papersFailed + 1)
    case Some(claims) =>
      st.(claimsExtracted := st.claimsExtracted + |claims|,
          claimsStored := st.claimsStored + StoredCount(claims, adds),
          papersProcessed := st.papersProcessed + 1)
  }

  /** The counters after the loop over `results`, starting from `st`. */
  function Tally(st: Stats, results: seq<SearchResult>, extract: SearchResult -> Option<seq<Claim>>, adds: Claim -> bool): (st': Stats)
    ensures st'.papersFound == st.papersFound
    ensures st'.papersProcessed + st'.papersFailed == st.papersProcessed + st.papersFailed + |results|
    ensures st'.claimsStored - st.claimsStored <= st'.claimsExtracted - st.claimsExtracted
  {
    if results == [] then st
    else PaperStep(Tally(st, results[..|results| - 1], extract, adds), results[|results| - 1], extract, adds)
  }

  /** Failed papers are exactly those whose extraction raised. */
  lemma {:induction false} TallyFailures(st: Stats, results: seq<SearchResult>, extract: SearchResult -> Option<seq<Claim>>, adds: Claim -> bool)
    ensures (forall k :: 0 <= k < |results| ==> extract(results[k]).Some?) ==>
      Tally(st, results, extract, adds).papersFailed == st.papersFailed
    ensures (forall k :: 0 <= k < |results| ==> extract(results[k]).None?) ==>
      Tally(st, results, extract, adds) == st.(papersFailed := st.papersFailed + |results|)
  {
    if results != [] {
      var init := results[..|results| - 1];
      TallyFailures(st, init, extract, adds);
      assert forall k :: 0 <= k < |init| ==> init[k] == results[k];
    }
  }

  /** The counters `execute` starts from once the search returned `n` results. */
  function InitialStats(n: nat): Stats
  {
    Stats(n, 0, 0, 0, 0)
  }

  /**
   * `execute`: `search` is the search results, or `None` when the search
   * raised, which `execute` re-raises (`None` here). On a normal return
   * papers_found is the number of results, each paper is processed or failed,
   * and no more claims are stored than extracted.
   */
  method Execute(search: Option<seq<SearchResult>>, extract: SearchResult -> Option<seq<Claim>>, adds: Claim -> bool)
    returns (r: Option<Stats>)
    ensures r.None? <==> search.None?
    ensures r.Some? ==> r.value == Tally(InitialStats(|search.value|), search.value, extract, adds)
    ensures r.Some? ==> r.value.papersFound == |search.value|
    ensures r.Some? ==> r.value.papersProcessed + r.value.papersFailed == r.value.papersFound
    ensures r.Some? ==> r.value.claimsStored <= r.value.claimsExtracted
  {
    if search.None? {
      return None;
    }
    var results := search.value;
    var stats := InitialStats(|results|);
    var i := 0;
    while i < |results|
      invariant 0 <= i <= |results|
      invariant stats == Tally(InitialStats(|results|), results[..i], extract, adds)
    {
      assert results[..i + 1][..i] == results[..i];
      stats := ProcessPaper(stats, results[i], extract, adds);
      i := i + 1;
    }
    assert results[..i] == results;
    r := Some(stats);
  }

  /** The body of the paper loop: extract, count, store, count; a raising extraction counts a failure. */
  method ProcessPaper(stats0: Stats, result: SearchResult, extract: SearchResult -> Option<seq<Claim>>, adds: Claim -> bool)
    returns (stats: Stats)
    ensures stats == PaperStep(stats0, result, extract, adds)
  {
    stats := stats0;
    var claims := extract(result);
    if claims.None? {
      stats := stats.(papersFailed := stats.papersFailed + 1);
      return;
    }
    stats := stats.(claimsExtracted := stats.claimsExtracted + |claims.value|);
    var stored := StoreClaims(claims.value, adds);
    stats := stats.(claimsStored := stats.claimsStored + stored);
    stats := stats.(papersProcessed := stats.papersProcessed + 1);
  }
}

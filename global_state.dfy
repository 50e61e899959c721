/**
 * GlobalStates: the state shared by the writing loop, a dataclass updated in
 * place. Its dicts are insertion-ordered pair sequences.
 */
module GlobalStates {
  import opened Wrappers
  import opened Text
  import opened Models
  import opened OrderedMaps

  /** `f'[Section {current_section_id}] {decision}'`. */
  function DecisionEntry(sectionId: int, decision: string): (e: string)
    ensures |e| > |decision| && e[|e| - |decision|..] == decision
  {
    "[Section " + IntToString(sectionId) + "] " + decision
  }

  /** The prefix an entry gets for a section. */
  function DecisionPrefix(sectionId: int): string
  {
    "[Section " + IntToString(sectionId) + "] "
  }

  /** An entry is the section's prefix followed by the decision, so the decision can be read back and different decisions give different entries. */
  lemma DecisionEntrySpec(sectionId: int, decision: string, other: string)
    ensures DecisionEntry(sectionId, decision) == DecisionPrefix(sectionId) + decision
    ensures DecisionEntry(sectionId, decision)[|DecisionPrefix(sectionId)|..] == decision
    ensures DecisionEntry(sectionId, decision) == DecisionEntry(sectionId, other) ==> decision == other
  {
    var p := DecisionPrefix(sectionId);
    assert DecisionEntry(sectionId, decision) == p + decision;
    assert (p + decision)[|p|..] == decision;
    assert (p + other)[|p|..] == other;
  }

  /** `retry_counts.get(section_id, 0)`. */
  function RetryCountIn(counts: seq<(int, int)>, sectionId: int): int
    decreases |counts|
  {
    if counts == [] then 0
    else if counts[0].0 == sectionId then counts[0].1
    else RetryCountIn(counts[1..], sectionId)
  }

  /** The count is the stored value, or 0 for an id not stored. */
  lemma {:induction false} RetryCountIsGet(counts: seq<(int, int)>, sectionId: int)
    ensures RetryCountIn(counts, sectionId) == match Get(counts, sectionId) case Some(c) => c case None => 0
    decreases |counts|
  {
    if counts != [] && counts[0].0 != sectionId {
      RetryCountIsGet(counts[1..], sectionId);
    }
  }

  /** The counts after `record_retry` for each id in turn. */
  function RecordAll(counts: seq<(int, int)>, ids: seq<int>): seq<(int, int)>
    decreases |ids|
  {
    if ids == [] then counts
    else
      var n := |ids| - 1;
      var before := RecordAll(counts, ids[..n]);
      Put(before, ids[n], RetryCountIn(before, ids[n]) + 1)
  }

  /** Recording one id is one `d[id] = d.get(id, 0) + 1`. */
  lemma RecordOne(counts: seq<(int, int)>, sectionId: int)
    ensures RecordAll(counts, [sectionId]) == Put(counts, sectionId, RetryCountIn(counts, sectionId) + 1)
  {
    assert [sectionId][..0] == [];
  }

  /** Each section's retry count grows by exactly the number of times its id was recorded. */
  lemma RecordAllCounts(counts: seq<(int, int)>, ids: seq<int>, sectionId: int)
    ensures RetryCountIn(RecordAll(counts, ids), sectionId) == RetryCountIn(counts, sectionId) + multiset(ids)[sectionId]
  {
    RecordAllOccurrences(counts, ids, sectionId);
    OccurrencesCount(ids, sectionId);
  }

  /** How many times `x` occurs in `ids`, counted from the end. */
  function Occurrences(ids: seq<int>, x: int): nat
    decreases |ids|
  {
    if ids == [] then 0
    else Occurrences(ids[..|ids| - 1], x) + (if ids[|ids| - 1] == x then 1 else 0)
  }

  /** Recording adds, for each section, the number of its occurrences. */
  lemma {:induction false} RecordAllOccurrences(counts: seq<(int, int)>, ids: seq<int>, sectionId: int)
    ensures RetryCountIn(RecordAll(counts, ids), sectionId) == RetryCountIn(counts, sectionId) + Occurrences(ids, sectionId)
    decreases |ids|
  {
    if ids != [] {
      var init, last := ids[..|ids| - 1], ids[|ids| - 1];
      var before := RecordAll(counts, init);
      RecordAllOccurrences(counts, init, sectionId);
      RetryCountPut(before, last, RetryCountIn(before, last) + 1, sectionId);
    }
  }

  /** After `d[k] = v`, the count of `k` is `v` and every other count is unchanged. */
  lemma {:induction false} RetryCountPut(m: seq<(int, int)>, k: int, v: int, k': int)
    ensures RetryCountIn(Put(m, k, v), k') == if k' == k then v else RetryCountIn(m, k')
    decreases |m|
  {
    if m != [] && m[0].0 != k {
      RetryCountPut(m[1..], k, v, k');
    }
  }

  /** Counting from the end agrees with the multiset count. */
  lemma {:induction false} OccurrencesCount(ids: seq<int>, x: int)
    ensures Occurrences(ids, x) == multiset(ids)[x]
    decreases |ids|
  {
    if ids != [] {
      var n := |ids| - 1;
      OccurrencesCount(ids[..n], x);
      assert ids == ids[..n] + [ids[n]];
      assert multiset(ids) == multiset(ids[..n]) + multiset{ids[n]};
    }
  }

  /** A section never recorded keeps a zero count. */
  lemma NeverRetried(ids: seq<int>, sectionId: int)
    requires sectionId !in ids
    ensures RetryCountIn(RecordAll([], ids), sectionId) == 0
  {
    RecordAllCounts([], ids, sectionId);
  }

  class GlobalState {
    var thesis: string
    var keyTerms: seq<(string, string)>
    var sectionSummaries: seq<SectionSummary>
    var decisionsMade: seq<string>
    var currentSectionId: int
    var totalTokensUsed: int
    var costUsd: real
    var retryCounts: seq<(int, int)>

    /** The dicts hold each key once. */
    ghost predicate Valid()
      reads this
    {
      DistinctKeys(keyTerms) && DistinctKeys(retryCounts)
    }

    /** `GlobalState(thesis=...)` with every other field at its default. */
    constructor(thesis: string)
      ensures Valid()
      ensures this.thesis == thesis && keyTerms == [] && sectionSummaries == [] && decisionsMade == []
      ensures currentSectionId == 0 && totalTokensUsed == 0 && costUsd == 0.0 && retryCounts == []
    {
      this.thesis := thesis;
      keyTerms := [];
      sectionSummaries := [];
      decisionsMade := [];
      currentSectionId := 0;
      totalTokensUsed := 0;
      costUsd := 0.0;
      retryCounts := [];
    }

    /** `get_retry_count`. */
    function GetRetryCount(sectionId: int): int
      reads this
    {
      RetryCountIn(retryCounts, sectionId)
    }

    /** `record_retry`: increments this section's count, starting from 0, and no other. */
    method RecordRetry(sectionId: int)
      requires Valid()
      modifies this
      ensures Valid()
      ensures retryCounts == RecordAll(old(retryCounts), [sectionId])
      ensures GetRetryCount(sectionId) == old(GetRetryCount(sectionId)) + 1
      ensures forall other :: other != sectionId ==> GetRetryCount(other) == old(GetRetryCount(other))
      ensures thesis == old(thesis) && keyTerms == old(keyTerms) && sectionSummaries == old(sectionSummaries)
      ensures decisionsMade == old(decisionsMade) && currentSectionId == old(currentSectionId)
      ensures totalTokensUsed == old(totalTokensUsed) && costUsd == old(costUsd)
    {
      var next := RetryCountIn(retryCounts, sectionId) + 1;
      PutDistinct(retryCounts, sectionId, next);
      forall other ensures RetryCountIn(Put(retryCounts, sectionId, next), other)
        == if other == sectionId then next else RetryCountIn(retryCounts, other)
      {
        RetryCountPut(retryCounts, sectionId, next, other);
      }
      RecordOne(retryCounts, sectionId);
      retryCounts := Put(retryCounts, sectionId, next);
    }

    /** `add_decision`: appends one entry tagged with the current section; earlier entries stay as they were. */
    method AddDecision(decision: string)
      modifies this
      ensures decisionsMade == old(decisionsMade) + [DecisionEntry(currentSectionId, decision)]
      ensures decisionsMade[..|old(decisionsMade)|] == old(decisionsMade)
      ensures thesis == old(thesis) && keyTerms == old(keyTerms) && sectionSummaries == old(sectionSummaries)
      ensures retryCounts == old(retryCounts) && currentSectionId == old(currentSectionId)
      ensures totalTokensUsed == old(totalTokensUsed) && costUsd == old(costUsd)
    {
      decisionsMade := decisionsMade + [DecisionEntry(currentSectionId, decision)];
    }
  }
}

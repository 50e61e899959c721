/**
 * ContextAssembly: `ContextAssembler.assemble`, which gathers claims for each
 * question, keeps the first claim per id, picks the earlier summaries the
 * vector index ranks closest, and packs them with the global state's thesis
 * and glossary into a DraftingContext.
 *
 * The claim store's search is the `search` input; the vector index's answer
 * (the positions of the nearest summaries, -1 for an empty slot) is the
 * `hits` input.
 */
module ContextAssembly {
  import opened Wrappers
  import opened Models
  import opened Seqs
  import opened Uniq
  import GlobalStates

  /** The number of claims asked for per question. */
  const TopK: int := 5

  /** The number of summaries asked of the index, at most. */
  const MaxSummaries: nat := 3

  datatype DraftingContext = DraftingContext(
    thesis: string,
    relevantSummaries: seq<SectionSummary>,
    previousSectionText: Option<string>,
    relevantClaims: seq<Claim>,
    keyTerms: seq<(string, string)>,
    questions: seq<string>,
    sectionId: int,
    sectionTitle: string)

  function ClaimIdOf(c: Claim): string { c.claimId }

  function SectionIdOf(s: SectionSummary): int { s.sectionId }

  /** One question's search, with the fixed `top_k`. */
  function TopHits(search: (string, int) -> seq<Claim>): string -> seq<Claim>
  {
    q => search(q, TopK)
  }

  /** All claims retrieved, question by question, in retrieval order. */
  function Retrieved(questions: seq<string>, search: (string, int) -> seq<Claim>): seq<Claim>
  {
    Flatten(Map(questions, TopHits(search)))
  }

  /**
   * The relevant claims keep, in retrieval order, exactly the first claim
   * retrieved under each claim id: no id twice, no id lost, nothing that was
   * not retrieved.
   */
  lemma RelevantClaimsSpec(retrieved: seq<Claim>)
    ensures var r := KeepFirst(retrieved, ClaimIdOf);
      && KeysOf(r, ClaimIdOf) == KeysOf(retrieved, ClaimIdOf)
      && (forall i, j :: 0 <= i < j < |r| ==> r[i].claimId != r[j].claimId)
      && (forall c :: c in r ==> c in retrieved)
      && |r| == |FirstIndices(retrieved, ClaimIdOf)|
      && (forall i :: 0 <= i < |r| ==>
            (FirstIndices(retrieved, ClaimIdOf)[i] < |retrieved| && r[i] == retrieved[FirstIndices(retrieved, ClaimIdOf)[i]]))
  {
    KeepFirstKeys(retrieved, ClaimIdOf);
    KeepFirstElements(retrieved, ClaimIdOf);
    KeepFirstSpec(retrieved, ClaimIdOf);
  }

  // ---------------------------------------------------------------- relevant summaries

  /** What the index may answer for `count` summaries: positions below `count`, or -1. */
  predicate ValidHits(hits: seq<int>, count: nat)
  {
    forall j :: 0 <= j < |hits| ==> -1 <= hits[j] < count
  }

  /** The summaries the hits point to, in hit order, skipping -1. */
  function HitSummaries(summaries: seq<SectionSummary>, hits: seq<int>): (r: seq<SectionSummary>)
    requires ValidHits(hits, |summaries|)
    ensures |r| <= |hits|
    decreases |hits|
  {
    if hits == [] then []
    else
      var n := |hits| - 1;
      HitSummaries(summaries, hits[..n]) + (if hits[n] == -1 then [] else [summaries[hits[n]]])
  }

  /** Every hit summary is one the hits point to, and every hit other than -1 is there. */
  lemma {:induction false} HitSummariesSpec(summaries: seq<SectionSummary>, hits: seq<int>)
    requires ValidHits(hits, |summaries|)
    ensures forall s :: s in HitSummaries(summaries, hits) ==>
      exists j :: 0 <= j < |hits| && hits[j] != -1 && s == summaries[hits[j]]
    ensures forall j :: 0 <= j < |hits| && hits[j] != -1 ==> summaries[hits[j]] in HitSummaries(summaries, hits)
    decreases |hits|
  {
    if hits != [] {
      var n := |hits| - 1;
      HitSummariesSpec(summaries, hits[..n]);
      forall j | 0 <= j < n ensures hits[..n][j] == hits[j] {
      }
    }
  }

  /** `_find_relevant_summaries`: nothing without summaries, else the hit summaries, first per section id. */
  function RelevantSummaries(summaries: seq<SectionSummary>, hits: seq<int>): seq<SectionSummary>
    requires ValidHits(hits, |summaries|)
  {
    if summaries == [] then [] else KeepFirst(HitSummaries(summaries, hits), SectionIdOf)
  }

  /**
   * No summaries give none; otherwise, with the index asked for min(3, n)
   * neighbours, at most that many come back, with distinct section ids, each
   * one a summary some hit points to, and every section a hit points to is
   * represented.
   */
  lemma RelevantSummariesSpec(summaries: seq<SectionSummary>, hits: seq<int>)
    requires ValidHits(hits, |summaries|)
    requires |hits| <= if |summaries| < MaxSummaries then |summaries| else MaxSummaries
    ensures summaries == [] ==> RelevantSummaries(summaries, hits) == []
    ensures var r := RelevantSummaries(summaries, hits);
      && |r| <= MaxSummaries && |r| <= |summaries|
      && (forall i, j :: 0 <= i < j < |r| ==> r[i].sectionId != r[j].sectionId)
      && (forall s :: s in r ==> exists j :: 0 <= j < |hits| && hits[j] != -1 && s == summaries[hits[j]])
      && (forall j :: 0 <= j < |hits| && hits[j] != -1 ==> summaries[hits[j]].sectionId in KeysOf(r, SectionIdOf))
  {
    if summaries != [] {
      var h := HitSummaries(summaries, hits);
      HitSummariesSpec(summaries, hits);
      KeepFirstKeys(h, SectionIdOf);
      KeepFirstElements(h, SectionIdOf);
      forall j | 0 <= j < |hits| && hits[j] != -1
        ensures summaries[hits[j]].sectionId in KeysOf(h, SectionIdOf)
      {
        var s := summaries[hits[j]];
        var k :| 0 <= k < |h| && h[k] == s;
        assert SectionIdOf(h[k]) == s.sectionId;
      }
    }
  }

  // ---------------------------------------------------------------- the context

  /** The DraftingContext `assemble` returns. */
  function Assembled(sectionId: int, sectionTitle: string, questions: seq<string>, thesis: string,
                     keyTerms: seq<(string, string)>, summaries: seq<SectionSummary>,
                     previous: Option<string>, search: (string, int) -> seq<Claim>, hits: seq<int>): DraftingContext
    requires ValidHits(hits, |summaries|)
  {
    DraftingContext(thesis, RelevantSummaries(summaries, hits), previous,
                    KeepFirst(Retrieved(questions, search), ClaimIdOf), keyTerms, questions, sectionId, sectionTitle)
  }

  /**
   * The thesis and the glossary come from the global state; the questions,
   * the section and the previous text pass through; the claims and
   * summaries are the filtered retrievals.
   */
  lemma AssembledSpec(sectionId: int, sectionTitle: string, questions: seq<string>, thesis: string,
                      keyTerms: seq<(string, string)>, summaries: seq<SectionSummary>,
                      previous: Option<string>, search: (string, int) -> seq<Claim>, hits: seq<int>)
    requires ValidHits(hits, |summaries|)
    ensures var c := Assembled(sectionId, sectionTitle, questions, thesis, keyTerms, summaries, previous, search, hits);
      && c.thesis == thesis && c.keyTerms == keyTerms && c.questions == questions
      && c.sectionId == sectionId && c.sectionTitle == sectionTitle && c.previousSectionText == previous
      && (forall i, j :: 0 <= i < j < |c.relevantClaims| ==> c.relevantClaims[i].claimId != c.relevantClaims[j].claimId)
      && KeysOf(c.relevantClaims, ClaimIdOf) == KeysOf(Retrieved(questions, search), ClaimIdOf)
      && (forall i, j :: 0 <= i < j < |c.relevantSummaries| ==>
            c.relevantSummaries[i].sectionId != c.relevantSummaries[j].sectionId)
  {
    RelevantClaimsSpec(Retrieved(questions, search));
    if summaries != [] {
      KeepFirstKeys(HitSummaries(summaries, hits), SectionIdOf);
    }
  }

  // ---------------------------------------------------------------- the methods

  /** The retrieval loop: extends the list with each question's hits. */
  method CollectClaims(questions: seq<string>, search: (string, int) -> seq<Claim>) returns (all: seq<Claim>)
    ensures all == Retrieved(questions, search)
  {
    all := [];
    for i := 0 to |questions|
      invariant all == Flatten(Map(questions[..i], TopHits(search)))
    {
      assert questions[..i + 1] == questions[..i] + [questions[i]];
      MapSnoc(questions[..i], questions[i], TopHits(search));
      assert Map(questions[..i + 1], TopHits(search))[..i] == Map(questions[..i], TopHits(search));
      all := all + search(questions[i], TopK);
    }
    assert questions[..|questions|] == questions;
  }

  /** The `seen_claim_ids` loop. */
  method DedupClaims(all: seq<Claim>) returns (unique: seq<Claim>)
    ensures unique == KeepFirst(all, ClaimIdOf)
  {
    var seen: set<string> := {};
    unique := [];
    for i := 0 to |all|
      invariant unique == KeepFirst(all[..i], ClaimIdOf)
      invariant seen == KeysOf(unique, ClaimIdOf)
    {
      assert all[..i + 1] == all[..i] + [all[i]];
      KeepFirstSnoc(all[..i], all[i], ClaimIdOf);
      if all[i].claimId !in seen {
        KeysOfAppend(unique, all[i], ClaimIdOf);
        unique := unique + [all[i]];
        seen := seen + {all[i].claimId};
      }
    }
    assert all[..|all|] == all;
  }

  /** The hit loop of `_find_relevant_summaries`, with its `seen_ids` set. */
  method FindRelevantSummaries(summaries: seq<SectionSummary>, hits: seq<int>) returns (relevant: seq<SectionSummary>)
    requires ValidHits(hits, |summaries|)
    ensures relevant == RelevantSummaries(summaries, hits)
  {
    if summaries == [] {
      return [];
    }
    relevant := [];
    var seen: set<int> := {};
    for i := 0 to |hits|
      invariant relevant == KeepFirst(HitSummaries(summaries, hits[..i]), SectionIdOf)
      invariant seen == KeysOf(relevant, SectionIdOf)
    {
      var before := HitSummaries(summaries, hits[..i]);
      assert hits[..i + 1][..i] == hits[..i];
      if hits[i] != -1 {
        var s := summaries[hits[i]];
        assert HitSummaries(summaries, hits[..i + 1]) == before + [s];
        KeepFirstSnoc(before, s, SectionIdOf);
        if s.sectionId !in seen {
          KeysOfAppend(relevant, s, SectionIdOf);
          relevant := relevant + [s];
          seen := seen + {s.sectionId};
        }
      } else {
        assert HitSummaries(summaries, hits[..i + 1]) == before;
      }
    }
    assert hits[..|hits|] == hits;
  }

  /** `assemble`: reads the global state, changes nothing. */
  method Assemble(sectionId: int, sectionTitle: string, questions: seq<string>, gs: GlobalStates.GlobalState,
                  previous: Option<string>, search: (string, int) -> seq<Claim>, hits: seq<int>)
    returns (context: DraftingContext)
    requires ValidHits(hits, |gs.sectionSummaries|)
    ensures context == Assembled(sectionId, sectionTitle, questions, gs.thesis, gs.keyTerms, gs.sectionSummaries,
                                 previous, search, hits)
  {
    var all := CollectClaims(questions, search);
    var unique := DedupClaims(all);
    var relevant := FindRelevantSummaries(gs.sectionSummaries, hits);
    context := DraftingContext(gs.thesis, relevant, previous, unique, gs.keyTerms, questions, sectionId, sectionTitle);
  }
}

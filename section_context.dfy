/**
 * SectionContexts: the section/citation/term accumulator of the newer
 * pipeline. Each written section is stored by name (a dict, so re-adding a
 * name replaces its entry in place), its name is appended to the completion
 * order, and its citations and defined terms are appended to running lists.
 *
 * Saving to and loading from the state file are left out; see README.
 */
module SectionContexts {
  import opened Wrappers
  import opened Text
  import opened Seqs
  import opened OrderedMaps
  import Sorting

  /** A diagram entry, an opaque JSON object. */
  datatype Diagram = Diagram(fields: map<string, string>)

  /** The `SectionContext` dataclass. */
  datatype SectionContext = SectionContext(
    name: string,
    content: string,
    keyPoints: seq<string>,
    citations: seq<string>,
    wordCount: int,
    termsDefined: Option<seq<string>>,
    diagrams: Option<seq<Diagram>>)

  /**
   * The dict `from_dict` receives. The required fields are present; for the
   * two optional ones the outer `None` is a missing key and `Some(None)` a
   * JSON null.
   */
  datatype SectionRecord = SectionRecord(
    name: string,
    content: string,
    keyPoints: seq<string>,
    citations: seq<string>,
    wordCount: int,
    termsDefined: Option<Option<seq<string>>>,
    diagrams: Option<Option<seq<Diagram>>>)

  /** `SectionContext.from_dict`: a missing `diagrams` (and a missing `terms_defined`, by its default) becomes None. */
  function FromDict(data: SectionRecord): (c: SectionContext)
    ensures data.diagrams.None? ==> c.diagrams.None?
    ensures data.termsDefined.None? ==> c.termsDefined.None?
  {
    SectionContext(data.name, data.content, data.keyPoints, data.citations, data.wordCount,
                   if data.termsDefined.Some? then data.termsDefined.value else None,
                   if data.diagrams.Some? then data.diagrams.value else None)
  }

  /** `to_dict`: every field present. */
  function ToDict(c: SectionContext): SectionRecord
  {
    SectionRecord(c.name, c.content, c.keyPoints, c.citations, c.wordCount, Some(c.termsDefined), Some(c.diagrams))
  }

  /** What `to_dict` writes, `from_dict` reads back. */
  lemma DictRoundTrip(c: SectionContext)
    ensures FromDict(ToDict(c)) == c
  {
  }

  /** The `sections` dict, in insertion order. */
  type Sections = seq<(string, SectionContext)>

  // ---------------------------------------------------------------- key points

  /** `_get_all_key_points`: the key points of the stored sections, in dict order. */
  function KeyPoints(sections: Sections): seq<string>
    decreases |sections|
  {
    if sections == [] then [] else KeyPoints(sections[..|sections| - 1]) + sections[|sections| - 1].1.keyPoints
  }

  /** Every stored key point is there, as many times as it occurs in the sections. */
  lemma {:induction false} KeyPointsSpec(sections: Sections, k: nat, p: string)
    requires k < |sections| && p in sections[k].1.keyPoints
    ensures p in KeyPoints(sections)
    decreases |sections|
  {
    var n := |sections| - 1;
    if k < n {
      KeyPointsSpec(sections[..n], k, p);
    }
  }

  /** Each key point comes from a stored section. */
  lemma {:induction false} KeyPointsOrigin(sections: Sections, p: string) returns (k: nat)
    requires p in KeyPoints(sections)
    ensures k < |sections| && p in sections[k].1.keyPoints
    decreases |sections|
  {
    var n := |sections| - 1;
    if p in sections[n].1.keyPoints {
      k := n;
    } else {
      k := KeyPointsOrigin(sections[..n], p);
    }
  }

  // ---------------------------------------------------------------- dependencies

  /** The `dependent_sections` dict: one entry per stored dependency, mapping it to its name. */
  function Dependents(sections: Sections, deps: seq<string>): seq<(string, string)>
    decreases |deps|
  {
    if deps == [] then []
    else
      var d := deps[|deps| - 1];
      var init := Dependents(sections, deps[..|deps| - 1]);
      if d in Keys(sections) then Put(init, d, d) else init
  }

  /** Exactly the dependencies already stored appear, each once, each mapped to its own name. */
  lemma {:induction false} DependentsSpec(sections: Sections, deps: seq<string>)
    ensures forall n :: n in Keys(Dependents(sections, deps)) <==> n in deps && n in Keys(sections)
    ensures DistinctKeys(Dependents(sections, deps))
    ensures forall i :: 0 <= i < |Dependents(sections, deps)| ==>
      Dependents(sections, deps)[i].1 == Dependents(sections, deps)[i].0
    decreases |deps|
  {
    if deps != [] {
      var init := deps[..|deps| - 1];
      var d := deps[|deps| - 1];
      var before := Dependents(sections, init);
      DependentsSpec(sections, init);
      assert deps == init + [d];
      if d in Keys(sections) {
        PutDistinct(before, d, d);
        PutKeys(before, d, d);
        PutSelfNamed(before, d);
      }
    }
  }

  /** Putting a name under itself keeps every entry mapped to its own name. */
  lemma {:induction false} PutSelfNamed(m: seq<(string, string)>, d: string)
    requires forall i :: 0 <= i < |m| ==> m[i].1 == m[i].0
    ensures forall i :: 0 <= i < |Put(m, d, d)| ==> Put(m, d, d)[i].1 == Put(m, d, d)[i].0
    decreases |m|
  {
    if m != [] && m[0].0 != d {
      PutSelfNamed(m[1..], d);
      assert Put(m, d, d) == [m[0]] + Put(m[1..], d, d);
    }
  }

  /** What `get_context_for_section` returns. */
  datatype ContextView = ContextView(
    sectionName: string,
    previouslyCompleted: seq<string>,
    dependentSections: seq<(string, string)>,
    allCitationsUsed: seq<string>,
    allTermsDefined: seq<string>,
    keyPointsCovered: seq<string>)

  /** The view of the accumulated state for one section. */
  function ContextFor(sections: Sections, order: seq<string>, citations: seq<string>, terms: seq<string>,
                      sectionName: string, deps: seq<string>): ContextView
  {
    ContextView(sectionName, order, Dependents(sections, deps), citations, terms, TakePy(KeyPoints(sections), 30))
  }

  /** The view copies the order and the running lists, and keeps at most the first 30 key points. */
  lemma ContextForSpec(sections: Sections, order: seq<string>, citations: seq<string>, terms: seq<string>,
                       sectionName: string, deps: seq<string>)
    ensures var v := ContextFor(sections, order, citations, terms, sectionName, deps);
      && v.sectionName == sectionName && v.previouslyCompleted == order
      && v.allCitationsUsed == citations && v.allTermsDefined == terms
      && |v.keyPointsCovered| <= 30
      && v.keyPointsCovered == KeyPoints(sections)[..|v.keyPointsCovered|]
      && (|KeyPoints(sections)| <= 30 ==> v.keyPointsCovered == KeyPoints(sections))
  {
  }

  // ---------------------------------------------------------------- queries

  /** `has_term`: membership after lower-casing both sides. */
  function TermKnown(terms: seq<string>, term: string): bool
  {
    Lower(term) in Map(terms, Lower)
  }

  /** A term is known iff some defined term equals it up to letter case; spellings that lower-case alike are known together. */
  lemma TermKnownSpec(terms: seq<string>, term: string, other: string)
    ensures TermKnown(terms, term) <==> exists i :: 0 <= i < |terms| && Lower(terms[i]) == Lower(term)
    ensures term in terms ==> TermKnown(terms, term)
    ensures Lower(term) == Lower(other) ==> TermKnown(terms, term) == TermKnown(terms, other)
  {
    var lowered := Map(terms, Lower);
    if TermKnown(terms, term) {
      var i :| 0 <= i < |lowered| && lowered[i] == Lower(term);
      assert Lower(terms[i]) == Lower(term);
    }
    if term in terms {
      var i :| 0 <= i < |terms| && terms[i] == term;
      assert lowered[i] == Lower(term);
    }
  }

  /** `len(set(xs))`. */
  function DistinctCount(xs: seq<string>): nat
  {
    |set i | 0 <= i < |xs| :: xs[i]|
  }

  /** The distinct count never exceeds the length, and equals it exactly when there are no repeats. */
  lemma {:induction false} DistinctCountSpec(xs: seq<string>)
    ensures DistinctCount(xs) <= |xs|
    ensures DistinctCount(xs) == |xs| <==> Sorting.Distinct(xs)
    decreases |xs|
  {
    if xs != [] {
      var n := |xs| - 1;
      var init := xs[..n];
      DistinctCountSpec(init);
      var s0 := set i | 0 <= i < n :: init[i];
      var s1 := set i | 0 <= i < |xs| :: xs[i];
      assert s1 == s0 + {xs[n]} by {
        forall x | x in s1 ensures x in s0 + {xs[n]} {
          var i :| 0 <= i < |xs| && xs[i] == x;
          if i < n {
            assert init[i] == x;
          }
        }
        forall x | x in s0 ensures x in s1 {
          var i :| 0 <= i < n && init[i] == x;
          assert xs[i] == x;
        }
      }
      if xs[n] in s0 {
        assert !Sorting.Distinct(xs) by {
          var i :| 0 <= i < n && init[i] == xs[n];
          assert xs[i] == xs[n];
        }
      } else {
        assert Sorting.Distinct(xs) <==> Sorting.Distinct(init) by {
          if Sorting.Distinct(init) {
            forall i, j | 0 <= i < j < |xs| ensures xs[i] != xs[j] {
              if j == n {
                assert init[i] in s0;
              } else {
                assert init[i] != init[j];
              }
            }
          }
          if Sorting.Distinct(xs) {
            forall i, j | 0 <= i < j < n ensures init[i] != init[j] {
              assert xs[i] != xs[j];
            }
          }
        }
      }
    }
  }

  /** `sum(s.word_count for s in self.sections.values())`. */
  function TotalWords(sections: Sections): int
    decreases |sections|
  {
    if sections == [] then 0 else sections[0].1.wordCount + TotalWords(sections[1..])
  }

  /** The word count of the section stored under a name, or 0. */
  function StoredWords(sections: Sections, name: string): int
  {
    match Get(sections, name)
    case Some(c) => c.wordCount
    case None => 0
  }

  /** Storing a section replaces the word count stored under its name: the total moves by the difference. */
  lemma {:induction false} TotalWordsPut(sections: Sections, name: string, c: SectionContext)
    requires DistinctKeys(sections)
    ensures TotalWords(Put(sections, name, c)) == TotalWords(sections) - StoredWords(sections, name) + c.wordCount
    decreases |sections|
  {
    if sections != [] {
      var rest := sections[1..];
      assert DistinctKeys(rest) by {
        forall i, j | 0 <= i < j < |rest| ensures rest[i].0 != rest[j].0 {
          assert sections[i + 1].0 != sections[j + 1].0;
        }
      }
      if sections[0].0 == name {
        assert name !in Keys(rest) by {
          forall i | 0 <= i < |rest| ensures Keys(rest)[i] != name {
            assert sections[i + 1].0 != sections[0].0;
          }
        }
        assert Get(rest, name).None?;
      } else {
        TotalWordsPut(rest, name, c);
        assert Put(sections, name, c) == [sections[0]] + Put(rest, name, c);
        assert StoredWords(sections, name) == StoredWords(rest, name);
      }
    }
  }

  /** What `get_summary` returns. */
  datatype SummaryView = SummaryView(
    totalSections: nat,
    completedSections: seq<string>,
    totalWords: int,
    totalCitations: nat,
    sectionsByContent: seq<(string, (seq<string>, int))>)

  /** The summary of the accumulated state. */
  function SummaryOf(sections: Sections, order: seq<string>, citations: seq<string>): SummaryView
  {
    SummaryView(|sections|, order, TotalWords(sections), DistinctCount(citations),
                Map(sections, (e: (string, SectionContext)) => (e.0, (e.1.keyPoints, e.1.wordCount))))
  }

  /** Distinct names stored, all of them in the order, are at most as many as the order's entries. */
  lemma {:induction false} StoredAtMostOrdered(sections: Sections, order: seq<string>)
    requires DistinctKeys(sections)
    requires forall n :: n in Keys(sections) ==> n in order
    ensures |sections| <= |order|
  {
    var ks := Keys(sections);
    assert Sorting.Distinct(ks) by {
      forall i, j | 0 <= i < j < |ks| ensures ks[i] != ks[j] {
        assert sections[i].0 != sections[j].0;
      }
    }
    DistinctCountSpec(ks);
    DistinctCountSpec(order);
    var sk := set i | 0 <= i < |ks| :: ks[i];
    var so := set i | 0 <= i < |order| :: order[i];
    assert sk <= so by {
      forall x | x in sk ensures x in so {
        var i :| 0 <= i < |ks| && ks[i] == x;
        assert x in order;
      }
    }
    assert |sk| <= |so| by {
      SubsetCard(sk, so);
    }
  }

  lemma SubsetCard(a: set<string>, b: set<string>)
    requires a <= b
    ensures |a| <= |b|
  {
    assert b == a + (b - a);
  }

  /**
   * With the class invariant, the summary counts no more sections than
   * completions and no more distinct citations than citations, its names and
   * completion order match, and its per-section entries follow the dict.
   */
  lemma SummarySpec(sections: Sections, order: seq<string>, citations: seq<string>)
    requires DistinctKeys(sections)
    requires forall n :: n in Keys(sections) <==> n in order
    ensures var s := SummaryOf(sections, order, citations);
      && s.totalSections <= |s.completedSections|
      && s.totalCitations <= |citations|
      && (s.totalCitations == |citations| <==> Sorting.Distinct(citations))
      && |s.sectionsByContent| == s.totalSections
      && (forall i :: 0 <= i < |sections| ==>
            (s.sectionsByContent[i].0 == sections[i].0
             && s.sectionsByContent[i].1 == (sections[i].1.keyPoints, sections[i].1.wordCount)))
  {
    StoredAtMostOrdered(sections, order);
    DistinctCountSpec(citations);
  }

  // ---------------------------------------------------------------- the accumulator

  /** `n` is stored exactly when it is in the completion order. */
  ghost predicate Agree(keys: seq<string>, order: seq<string>, n: string)
  {
    n in keys <==> n in order
  }

  class ContextManager {
    var sections: Sections
    var sectionOrder: seq<string>
    var allCitations: seq<string>
    var allTermsDefined: seq<string>

    /** Names are stored once, and exactly the names in the completion order are stored. */
    ghost predicate Valid()
      reads this
    {
      DistinctKeys(sections) && forall n :: Agree(Keys(sections), sectionOrder, n)
    }

    constructor()
      ensures Valid()
      ensures sections == [] && sectionOrder == [] && allCitations == [] && allTermsDefined == []
    {
      sections := [];
      sectionOrder := [];
      allCitations := [];
      allTermsDefined := [];
    }

    /**
     * `add_section`: stores the section under its name (replacing an earlier
     * one in place), appends the name even when already present, and appends
     * its citations and its defined terms, if any.
     */
    method AddSection(sc: SectionContext)
      requires Valid()
      modifies this
      ensures Valid()
      ensures sections == Put(old(sections), sc.name, sc)
      ensures sectionOrder == old(sectionOrder) + [sc.name]
      ensures allCitations == old(allCitations) + sc.citations
      ensures allTermsDefined == old(allTermsDefined) + (if sc.termsDefined.Some? then sc.termsDefined.value else [])
      ensures Get(sections, sc.name) == Some(sc)
      ensures forall n :: n != sc.name ==> Get(sections, n) == Get(old(sections), n)
      ensures TotalWords(sections) == TotalWords(old(sections)) - StoredWords(old(sections), sc.name) + sc.wordCount
    {
      PutDistinct(sections, sc.name, sc);
      PutKeys(sections, sc.name, sc);
      TotalWordsPut(sections, sc.name, sc);
      forall n ensures Agree(Keys(Put(sections, sc.name, sc)), sectionOrder + [sc.name], n) {
        assert Agree(Keys(sections), sectionOrder, n);
      }
      forall n ensures Get(Put(sections, sc.name, sc), n) == if n == sc.name then Some(sc) else Get(sections, n) {
        GetPut(sections, sc.name, sc, n);
      }
      sections := Put(sections, sc.name, sc);
      sectionOrder := sectionOrder + [sc.name];
      allCitations := allCitations + sc.citations;
      if sc.termsDefined.Some? && sc.termsDefined.value != [] {
        allTermsDefined := allTermsDefined + sc.termsDefined.value;
      }
    }

    /** `get_section`. */
    function GetSection(name: string): Option<SectionContext>
      reads this
    {
      Get(sections, name)
    }

    /** `get_context_for_section`: the dependency loop, then the view. */
    method GetContextForSection(sectionName: string, deps: seq<string>) returns (view: ContextView)
      ensures view == ContextFor(sections, sectionOrder, allCitations, allTermsDefined, sectionName, deps)
    {
      var dependent: seq<(string, string)> := [];
      for i := 0 to |deps|
        invariant dependent == Dependents(sections, deps[..i])
      {
        assert deps[..i + 1][..i] == deps[..i];
        if deps[i] in Keys(sections) {
          dependent := Put(dependent, deps[i], deps[i]);
        }
      }
      assert deps[..|deps|] == deps;
      var points := AllKeyPoints();
      view := ContextView(sectionName, sectionOrder, dependent, allCitations, allTermsDefined, TakePy(points, 30));
    }

    /** `_get_all_key_points`: extends a list with each stored section's key points. */
    method AllKeyPoints() returns (points: seq<string>)
      ensures points == KeyPoints(sections)
    {
      points := [];
      for i := 0 to |sections|
        invariant points == KeyPoints(sections[..i])
      {
        assert sections[..i + 1][..i] == sections[..i];
        points := points + sections[i].1.keyPoints;
      }
      assert sections[..|sections|] == sections;
    }

    /** `has_citation`: exact membership. */
    function HasCitation(citation: string): bool
      reads this
    {
      citation in allCitations
    }

    /** `has_term`. */
    function HasTerm(term: string): bool
      reads this
    {
      TermKnown(allTermsDefined, term)
    }

    /** `get_summary`. */
    function GetSummary(): SummaryView
      reads this
    {
      SummaryOf(sections, sectionOrder, allCitations)
    }

    /** `clear`: empties the dict and the three lists. */
    method Clear()
      modifies this
      ensures Valid()
      ensures sections == [] && sectionOrder == [] && allCitations == [] && allTermsDefined == []
    {
      sections := [];
      allCitations := [];
      allTermsDefined := [];
      sectionOrder := [];
    }
  }
}

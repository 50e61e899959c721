/**
 * TemplateProfile: `models/template_profile.py`. A template profile gives
 * each section title of a paper template its processing rules (section type,
 * citation and word-count targets, whether code or diagrams are needed, and
 * the research strategy). Two profiles exist, `generic_academic` and
 * `cs_project`; a template is recognised as a CS project by its titles.
 */
module TemplateProfile {
  import opened Wrappers
  import opened Text
  import opened OrderedMaps
  import opened Seqs

  datatype SectionType =
    | ResearchLiterature
    | TechnicalAnalysis
    | Implementation
    | Methodology
    | Discussion
    | IntroConclusion

  datatype SectionProfile = SectionProfile(
    sectionType: SectionType,
    minCitations: int,
    minWordCount: int,
    maxWordCount: int,
    requiresCode: bool,
    requiresDiagrams: bool,
    researchStrategy: string)

  /** A profile's section table keeps the order it was written in. */
  datatype Profile = Profile(
    name: string,
    discipline: string,
    defaultCitationCount: int,
    sections: seq<(string, SectionProfile)>)

  /** A section profile with the dataclass defaults: no code, no diagrams, global research. */
  function Rules(t: SectionType, citations: int, minWords: int, maxWords: int): SectionProfile
  {
    SectionProfile(t, citations, minWords, maxWords, false, false, "global")
  }

  // ---------------------------------------------------------------- the two tables

  function GenericAcademic(): Profile
  {
    Profile("generic_academic", "general", 5, [
      ("Introduction", Rules(IntroConclusion, 3, 800, 1500)),
      ("Literature Review", Rules(ResearchLiterature, 10, 1500, 2500).(researchStrategy := "targeted")),
      ("Research Methodology", Rules(Methodology, 5, 1000, 2000)),
      ("Key Findings", Rules(Discussion, 7, 1500, 2500)),
      ("Discussion", Rules(Discussion, 5, 1000, 2000)),
      ("Conclusion and Recommendations", Rules(IntroConclusion, 2, 600, 1200))
    ])
  }

  function CsProject(): Profile
  {
    Profile("cs_project", "computer_science", 3, [
      ("Introduction", Rules(IntroConclusion, 2, 500, 800)),
      ("Background to the Study", Rules(ResearchLiterature, 5, 800, 1500)),
      ("Statement of the Problem", Rules(IntroConclusion, 2, 400, 800)),
      ("Objective of the Study", Rules(IntroConclusion, 1, 300, 600)),
      ("Significance of the Study", Rules(IntroConclusion, 2, 400, 800)),
      ("Scope of the Study", Rules(IntroConclusion, 0, 300, 600)),
      ("Literature Review", Rules(ResearchLiterature, 8, 1500, 2500).(researchStrategy := "targeted")),
      ("Existing Approaches to the Problem", Rules(ResearchLiterature, 6, 1000, 2000)),
      ("Researcher's Specific Approach", Rules(Methodology, 3, 600, 1200)),
      ("System Analysis", Rules(TechnicalAnalysis, 3, 800, 1500).(requiresDiagrams := true)),
      ("System Design", Rules(TechnicalAnalysis, 2, 1000, 2000).(requiresDiagrams := true)),
      ("System Implementation", Rules(Implementation, 1, 800, 1500).(requiresCode := true)),
      ("System Test-Run", Rules(Implementation, 0, 600, 1200).(requiresCode := true)),
      ("Summary", Rules(IntroConclusion, 0, 400, 800)),
      ("Conclusion", Rules(IntroConclusion, 1, 400, 800)),
      ("Recommendations", Rules(IntroConclusion, 0, 300, 600))
    ])
  }

  /** The rules every table entry keeps: a word range that is not empty, no negative citation target, a known strategy. */
  predicate GoodRules(r: SectionProfile)
  {
    0 <= r.minCitations && r.minWordCount < r.maxWordCount
    && (r.researchStrategy == "global" || r.researchStrategy == "targeted")
  }

  predicate GoodTable(sections: seq<(string, SectionProfile)>)
  {
    DistinctKeys(sections) && forall i :: 0 <= i < |sections| ==> GoodRules(sections[i].1)
  }

  predicate GoodProfile(p: Profile)
  {
    GoodTable(p.sections) && 0 <= p.defaultCitationCount
  }

  /** The generic table keeps the rules, with distinct titles. */
  lemma GenericAcademicIsGood()
    ensures GoodProfile(GenericAcademic())
  {
    var ks := Keys(GenericAcademic().sections);
    assert ks == ["Introduction", "Literature Review", "Research Methodology", "Key Findings",
      "Discussion", "Conclusion and Recommendations"];
  }

  /** The CS table's titles, in table order. */
  const CsTitles: seq<string> := ["Introduction", "Background to the Study", "Statement of the Problem",
    "Objective of the Study", "Significance of the Study", "Scope of the Study", "Literature Review",
    "Existing Approaches to the Problem", "Researcher's Specific Approach", "System Analysis",
    "System Design", "System Implementation", "System Test-Run", "Summary", "Conclusion",
    "Recommendations"]

  /** The CS table's keys are exactly `CsTitles`. */
  lemma CsTitlesListed()
    ensures Keys(CsProject().sections) == CsTitles
  {
  }

  /** Sixteen different titles; three of them share a length and differ at their eighth character. */
  lemma CsTitlesNoRepeat()
    ensures forall i, j :: 0 <= i < j < |CsTitles| ==> CsTitles[i] != CsTitles[j]
  {
    assert CsTitles[9][7] == 'A' && CsTitles[12][7] == 'T' && CsTitles[15][7] == 'n';
  }

  /** The CS table's titles are distinct. */
  lemma CsTitlesDistinct()
    ensures DistinctKeys(CsProject().sections)
  {
    var m := CsProject().sections;
    CsTitlesListed();
    CsTitlesNoRepeat();
    forall i, j | 0 <= i < j < |m| ensures m[i].0 != m[j].0 {
      assert m[i].0 == CsTitles[i] && m[j].0 == CsTitles[j];
    }
  }

  /** The CS table keeps the rules, with distinct titles. */
  lemma CsProjectIsGood()
    ensures GoodProfile(CsProject())
  {
    CsTitlesDistinct();
    CsRulesGood(0, |CsProject().sections|);
  }

  /** The entries from `lo` to `hi` keep the rules. */
  lemma CsRulesGood(lo: nat, hi: nat)
    requires lo <= hi <= |CsProject().sections|
    ensures forall i :: lo <= i < hi ==> GoodRules(CsProject().sections[i].1)
  {
  }

  /** Only the literature reviews search in a targeted way; everything else is global. */
  lemma OnlyLiteratureReviewTargeted()
    ensures forall i :: 0 <= i < |GenericAcademic().sections| ==>
      (GenericAcademic().sections[i].1.researchStrategy == "targeted" <==> GenericAcademic().sections[i].0 == "Literature Review")
    ensures forall i :: 0 <= i < |CsProject().sections| ==>
      (CsProject().sections[i].1.researchStrategy == "targeted" <==> CsProject().sections[i].0 == "Literature Review")
  {
  }

  // ---------------------------------------------------------------- get_section_profile

  /** The fuzzy test: one of the lower-cased title and the lower-cased key contains the other. */
  predicate Fuzzy(key: string, lowerTitle: string)
  {
    Contains(lowerTitle, Lower(key)) || Contains(Lower(key), lowerTitle)
  }

  /** The first entry, in table order, that matches fuzzily. */
  function FirstFuzzy(sections: seq<(string, SectionProfile)>, lowerTitle: string): (r: Option<nat>)
    ensures r.Some? ==> r.value < |sections| && Fuzzy(sections[r.value].0, lowerTitle)
    ensures r.Some? ==> forall j :: 0 <= j < r.value ==> !Fuzzy(sections[j].0, lowerTitle)
    ensures r.None? ==> forall j :: 0 <= j < |sections| ==> !Fuzzy(sections[j].0, lowerTitle)
    decreases |sections|
  {
    if sections == [] then None
    else if Fuzzy(sections[0].0, lowerTitle) then Some(0)
    else
      match FirstFuzzy(sections[1..], lowerTitle)
      case Some(i) => Some(i + 1)
      case None => None
  }

  /** The profile used when nothing matches. */
  function Fallback(p: Profile): SectionProfile
  {
    Rules(Discussion, p.defaultCitationCount, 800, 1500)
  }

  /** `get_section_profile`: the exact title, else the first fuzzy match, else the fallback. */
  function SectionProfileOf(p: Profile, title: string): (r: SectionProfile)
    ensures title in Keys(p.sections) ==> Some(r) == Get(p.sections, title)
    ensures title !in Keys(p.sections) && FirstFuzzy(p.sections, Lower(title)).None? ==>
      r.sectionType == Discussion && r.minCitations == p.defaultCitationCount
      && r.minWordCount == 800 && r.maxWordCount == 1500
      && !r.requiresCode && !r.requiresDiagrams && r.researchStrategy == "global"
  {
    match Get(p.sections, title)
    case Some(r) => r
    case None =>
      match FirstFuzzy(p.sections, Lower(title))
      case Some(i) => p.sections[i].1
      case None => Fallback(p)
  }

  /** A title that is not a key takes the first entry in table order whose key it contains or is contained in. */
  lemma FuzzyIsFirstMatch(p: Profile, title: string)
    requires title !in Keys(p.sections)
    ensures (exists i :: 0 <= i < |p.sections| && Fuzzy(p.sections[i].0, Lower(title))) ==>
      exists i :: 0 <= i < |p.sections| && Fuzzy(p.sections[i].0, Lower(title))
        && SectionProfileOf(p, title) == p.sections[i].1
        && forall j :: 0 <= j < i ==> !Fuzzy(p.sections[j].0, Lower(title))
  {
    match FirstFuzzy(p.sections, Lower(title))
    case Some(i) =>
    case None =>
  }

  /** An empty title is contained in every key, so it takes the table's first entry. */
  lemma EmptyTitleTakesFirst(p: Profile)
    requires p.sections != [] && "" !in Keys(p.sections)
    ensures SectionProfileOf(p, "") == p.sections[0].1
  {
    ContainsEmpty(Lower(p.sections[0].0));
  }

  /** Whatever the title, a good profile hands out rules that keep the table's invariants. */
  lemma SectionProfileIsGood(p: Profile, title: string)
    requires GoodProfile(p)
    ensures GoodRules(SectionProfileOf(p, title))
  {
    match Get(p.sections, title)
    case Some(r) =>
      GetFirst(p.sections, title);
    case None =>
  }

  // ---------------------------------------------------------------- detect_profile and get_profile

  const CsKeywords: seq<string> := [
    "system implementation", "system design", "system analysis", "test-run", "program documentation", "user manual"]

  /** Some lower-cased title contains the keyword. */
  predicate Mentioned(lowered: seq<string>, keyword: string)
  {
    exists i :: 0 <= i < |lowered| && Contains(lowered[i], keyword)
  }

  /** The number of keywords mentioned by some title. */
  function Score(lowered: seq<string>, keywords: seq<string>): (n: nat)
    ensures n <= |keywords|
    decreases |keywords|
  {
    if keywords == [] then 0
    else Score(lowered, keywords[..|keywords| - 1]) + (if Mentioned(lowered, keywords[|keywords| - 1]) then 1 else 0)
  }

  /** The score counts exactly the mentioned keywords. */
  lemma {:induction false} ScoreCounts(lowered: seq<string>, keywords: seq<string>)
    ensures Score(lowered, keywords) == |Filter(keywords, k => Mentioned(lowered, k))|
    decreases |keywords|
  {
    if keywords != [] {
      ScoreCounts(lowered, keywords[..|keywords| - 1]);
      assert keywords[..|keywords| - 1] + [keywords[|keywords| - 1]] == keywords;
    }
  }

  function CsScore(template: seq<string>): (n: nat)
    ensures n <= 6
  {
    Score(Map(template, Lower), CsKeywords)
  }

  /** `detect_profile`: the topic is not consulted. */
  function DetectProfile(template: seq<string>, topic: string): (p: Profile)
    ensures p == CsProject() <==> CsScore(template) >= 3
    ensures p != CsProject() ==> p == GenericAcademic()
  {
    if CsScore(template) >= 3 then CsProject() else GenericAcademic()
  }

  /** More titles never lower the score. */
  lemma {:induction false} ScoreGrows(lowered: seq<string>, extra: seq<string>, keywords: seq<string>)
    ensures Score(lowered, keywords) <= Score(lowered + extra, keywords)
    decreases |keywords|
  {
    if keywords != [] {
      ScoreGrows(lowered, extra, keywords[..|keywords| - 1]);
      var k := keywords[|keywords| - 1];
      if Mentioned(lowered, k) {
        var i :| 0 <= i < |lowered| && Contains(lowered[i], k);
        assert (lowered + extra)[i] == lowered[i];
      }
    }
  }

  /** A template recognised as a CS project stays one when sections are added. */
  lemma DetectionSurvivesMoreSections(template: seq<string>, extra: seq<string>, topic: string)
    requires DetectProfile(template, topic) == CsProject()
    ensures DetectProfile(template + extra, topic) == CsProject()
  {
    assert Map(template + extra, Lower) == Map(template, Lower) + Map(extra, Lower);
    ScoreGrows(Map(template, Lower), Map(extra, Lower), CsKeywords);
  }

  /** Detection ignores case: lower-casing the titles first changes nothing. */
  lemma DetectionIgnoresCase(template: seq<string>, topic: string)
    ensures DetectProfile(Map(template, Lower), topic) == DetectProfile(template, topic)
  {
    forall i | 0 <= i < |template|
      ensures Lower(Lower(template[i])) == Lower(template[i])
    {
      LowerIdempotent(template[i]);
    }
    assert Map(Map(template, Lower), Lower) == Map(template, Lower);
  }

  /** The profiles the manager holds, by name. */
  function Profiles(): seq<(string, Profile)>
  {
    [("generic_academic", GenericAcademic()), ("cs_project", CsProject())]
  }

  /** `get_profile`: the named profile, or `generic_academic` for an unknown name. */
  function GetProfile(name: string): (p: Profile)
    ensures name == "cs_project" ==> p == CsProject()
    ensures name != "cs_project" ==> p == GenericAcademic()
  {
    match Get(Profiles(), name)
    case Some(p) => p
    case None => GenericAcademic()
  }

  /** Looking a profile up by its own name gives it back, and every detected profile is one the manager holds. */
  lemma ProfileByName(template: seq<string>, topic: string)
    ensures GetProfile(GenericAcademic().name) == GenericAcademic()
    ensures GetProfile(CsProject().name) == CsProject()
    ensures GetProfile(DetectProfile(template, topic).name) == DetectProfile(template, topic)
  {
  }
}

/**
 * ExportEngine: the pure and list-building parts of `agents/export_engine.py`.
 * Written sections are grouped under the chapters of a profile by substring
 * matching of their titles; the reference list is built from the sources,
 * sorted by first author; section titles come from the file names.
 */
module ExportEngine {
  import opened Wrappers
  import opened Text
  import opened Seqs
  import opened Sorting

  // ---------------------------------------------------------------- chapters

  /** A chapter and the lower-cased section names it gathers. */
  datatype Chapter = Chapter(number: int, title: string, sections: seq<string>)

  /** `ChapterDefinition.__init__`: the section names are stored lower-cased. */
  function MakeChapter(number: int, title: string, sections: seq<string>): Chapter
  {
    Chapter(number, title, Map(sections, Lower))
  }

  /** One of the two texts contains the other. */
  predicate Overlaps(key: string, t: string)
  {
    Contains(t, key) || Contains(key, t)
  }

  /** `matches_section`: some section name of the chapter overlaps the lower-cased title. */
  predicate Matches(chapter: Chapter, title: string)
  {
    exists i :: 0 <= i < |chapter.sections| && Overlaps(chapter.sections[i], Lower(title))
  }

  /** The empty title is contained in every name, so it matches every chapter that has one. */
  lemma EmptyTitleMatches(chapter: Chapter)
    requires chapter.sections != []
    ensures Matches(chapter, "")
  {
    assert Lower("") == "";
    ContainsEmpty(chapter.sections[0]);
  }

  function EngineeringChapters(): seq<Chapter>
  {
    [ MakeChapter(1, "Introduction", [
        "introduction", "background to the study", "statement of the problem", "objective of the study",
        "significance", "scope of the study", "limitations", "organization of the study", "definition of terms"]),
      MakeChapter(2, "Literature Review", ["existing approach", "effort to counter", "specific approach"]),
      MakeChapter(3, "System Analysis and Design", [
        "system analysis", "method of data collection", "problem of the current system",
        "objective of the new system", "menu specification", "overview of the system flowchart",
        "procedural flowchart", "system design"]),
      MakeChapter(4, "System Implementation and Documentation", [
        "system implementation", "system requirement", "hardware requirement", "software requirement",
        "test-run", "program documentation", "user manual", "system maintenance"]),
      MakeChapter(5, "Summary, Conclusion and Recommendation", ["summary", "conclusion", "recommendation"]) ]
  }

  function ManagementChapters(): seq<Chapter>
  {
    [ MakeChapter(1, "Introduction", [
        "introduction", "background to the study", "statement of the problem", "objective of the study",
        "significance", "scope of the study", "limitations", "organization of the study", "definition of terms"]),
      MakeChapter(2, "Literature Review", [
        "introduction", "theoretical framework", "conceptual framework", "empirical studies", "appraisal"]),
      MakeChapter(3, "Methodology", [
        "research design", "population of the study", "sample and sampling", "instrument for data collection",
        "validity of the instrument", "reliability of the instrument", "procedure for data collection",
        "method of data analysis"]),
      MakeChapter(4, "Results", ["answers to research questions", "testing of hypotheses", "summary of the findings"]),
      MakeChapter(5, "Discussion, Conclusion and Recommendation", [
        "discussion of the findings", "implications of the study", "conclusion", "recommendation"]) ]
  }

  /** `_get_chapter_definitions`: engineering chapters for the `engineering` profile, management chapters otherwise. */
  function ChapterDefinitions(profileName: string): seq<Chapter>
  {
    if profileName == "engineering" then EngineeringChapters() else ManagementChapters()
  }

  /** Chapters are numbered one to five, in the order they are defined. */
  predicate NumberedInOrder(chapters: seq<Chapter>)
  {
    forall j :: 0 <= j < |chapters| ==> chapters[j].number == j + 1
  }

  lemma DefinitionsNumberedInOrder(profileName: string)
    ensures |ChapterDefinitions(profileName)| == 5
    ensures NumberedInOrder(ChapterDefinitions(profileName))
  {
    if profileName == "engineering" {
      var cs := EngineeringChapters();
      assert cs[0].number == 1 && cs[1].number == 2 && cs[2].number == 3 && cs[3].number == 4 && cs[4].number == 5;
    } else {
      var cs := ManagementChapters();
      assert cs[0].number == 1 && cs[1].number == 2 && cs[2].number == 3 && cs[3].number == 4 && cs[4].number == 5;
    }
  }

  /** A section titled `Introduction` matches the first two management chapters. */
  lemma IntroductionInTwoChapters()
    ensures Matches(ManagementChapters()[0], "Introduction")
    ensures Matches(ManagementChapters()[1], "Introduction")
  {
    var t := Lower("Introduction");
    assert t == "introduction";
    assert ManagementChapters()[0].sections[0] == Lower("introduction") == t;
    assert ManagementChapters()[1].sections[0] == Lower("introduction") == t;
    ContainsSelf(t);
  }

  // ---------------------------------------------------------------- grouping

  datatype Section = Section(title: string, content: string)

  datatype Group = Group(number: int, title: string, sections: seq<Section>)

  /** The sections a chapter gathers, in input order. */
  function Matching(chapter: Chapter, sections: seq<Section>): seq<Section>
  {
    Filter(sections, Gathers(chapter))
  }

  /** The test of the list comprehension that gathers a chapter's sections. */
  function Gathers(chapter: Chapter): Section -> bool
  {
    (s: Section) => Matches(chapter, s.title)
  }

  predicate MatchesAny(chapters: seq<Chapter>, title: string)
  {
    exists j :: 0 <= j < |chapters| && Matches(chapters[j], title)
  }

  /** The sections no chapter gathers, in input order. */
  function Unmatched(chapters: seq<Chapter>, sections: seq<Section>): seq<Section>
  {
    Filter(sections, Leftover(chapters))
  }

  /** The test of the list comprehension that collects the unmatched sections. */
  function Leftover(chapters: seq<Chapter>): Section -> bool
  {
    (s: Section) => !MatchesAny(chapters, s.title)
  }

  /** The chapter groups: one per chapter that gathers something, in chapter order. */
  function ChapterGroups(chapters: seq<Chapter>, sections: seq<Section>): seq<Group>
    decreases |chapters|
  {
    if chapters == [] then []
    else
      var c := chapters[|chapters| - 1];
      var m := Matching(c, sections);
      ChapterGroups(chapters[..|chapters| - 1], sections) + (if m != [] then [Group(c.number, c.title, m)] else [])
  }

  /** The group of the sections no chapter gathers, if there are any. */
  function AdditionalGroup(chapters: seq<Chapter>, sections: seq<Section>): seq<Group>
  {
    var u := Unmatched(chapters, sections);
    if u != [] then [Group(|chapters| + 1, "Additional Sections", u)] else []
  }

  /** `_group_sections_by_chapter`. */
  function Grouped(chapters: seq<Chapter>, sections: seq<Section>): seq<Group>
  {
    ChapterGroups(chapters, sections) + AdditionalGroup(chapters, sections)
  }

  /** `_group_sections_by_chapter`: one pass over the chapters, then the leftovers. */
  method GroupSections(chapters: seq<Chapter>, sections: seq<Section>) returns (grouped: seq<Group>)
    ensures grouped == Grouped(chapters, sections)
  {
    grouped := [];
    var i := 0;
    while i < |chapters|
      invariant 0 <= i <= |chapters|
      invariant grouped == ChapterGroups(chapters[..i], sections)
    {
      assert chapters[..i + 1][..i] == chapters[..i];
      var chapter := chapters[i];
      var chapterSections := Matching(chapter, sections);
      if chapterSections != [] {
        grouped := grouped + [Group(chapter.number, chapter.title, chapterSections)];
      }
      i := i + 1;
    }
    assert chapters[..i] == chapters;
    var unmatched := Unmatched(chapters, sections);
    if unmatched != [] {
      grouped := grouped + [Group(|chapters| + 1, "Additional Sections", unmatched)];
    }
  }

  /** The group a chapter gets. */
  function GroupOf(c: Chapter, sections: seq<Section>): Group
  {
    Group(c.number, c.title, Matching(c, sections))
  }

  /**
   * Every chapter group is the group of some chapter, listed in chapter order
   * (the index of its chapter is `idx[k]`, strictly increasing), and every
   * chapter that gathers a section has its group.
   */
  lemma {:induction false} ChapterGroupsSpec(chapters: seq<Chapter>, sections: seq<Section>) returns (idx: seq<nat>)
    ensures |idx| == |ChapterGroups(chapters, sections)|
    ensures forall k :: 0 <= k < |idx| ==>
      (idx[k] < |chapters|
       && ChapterGroups(chapters, sections)[k] == GroupOf(chapters[idx[k]], sections)
       && Matching(chapters[idx[k]], sections) != [])
    ensures forall k, l :: 0 <= k < l < |idx| ==> idx[k] < idx[l]
    ensures forall j :: 0 <= j < |chapters| && Matching(chapters[j], sections) != [] ==> j in idx
    decreases |chapters|
  {
    if chapters == [] {
      idx := [];
    } else {
      var n := |chapters| - 1;
      var init := chapters[..n];
      var before := ChapterGroupsSpec(init, sections);
      var prev := ChapterGroups(init, sections);
      var cg := ChapterGroups(chapters, sections);
      if Matching(chapters[n], sections) != [] {
        assert cg == prev + [GroupOf(chapters[n], sections)];
        idx := before + [n];
      } else {
        assert cg == prev;
        idx := before;
      }
      forall k | 0 <= k < |before|
        ensures idx[k] == before[k] < n && cg[k] == prev[k] && chapters[before[k]] == init[before[k]]
      {
      }
      forall j | 0 <= j < |chapters| && Matching(chapters[j], sections) != []
        ensures j in idx
      {
        if j < n {
          assert init[j] == chapters[j];
          assert j in before;
        }
      }
    }
  }

  /** A chapter group holds exactly the sections whose titles match its chapter. */
  lemma GroupHolds(c: Chapter, sections: seq<Section>, s: Section)
    ensures s in GroupOf(c, sections).sections <==> s in sections && Matches(c, s.title)
  {
    FilterHas(sections, Gathers(c), s);
  }

  /** The additional group is there exactly when some section matches no chapter, and holds exactly those sections. */
  lemma AdditionalGroupSpec(chapters: seq<Chapter>, sections: seq<Section>, s: Section)
    ensures s in Unmatched(chapters, sections) <==> s in sections && !MatchesAny(chapters, s.title)
    ensures AdditionalGroup(chapters, sections) != [] <==>
      exists i :: 0 <= i < |sections| && !MatchesAny(chapters, sections[i].title)
  {
    FilterHas(sections, Leftover(chapters), s);
    var u := Unmatched(chapters, sections);
    if u != [] {
      FilterHas(sections, Leftover(chapters), u[0]);
      var i :| 0 <= i < |sections| && sections[i] == u[0];
      assert !MatchesAny(chapters, sections[i].title);
    }
    if exists i :: 0 <= i < |sections| && !MatchesAny(chapters, sections[i].title) {
      var i :| 0 <= i < |sections| && !MatchesAny(chapters, sections[i].title);
      FilterHas(sections, Leftover(chapters), sections[i]);
    }
  }

  /** Every section appears in some group. */
  lemma EverySectionPlaced(chapters: seq<Chapter>, sections: seq<Section>, s: Section)
    requires s in sections
    ensures exists k :: 0 <= k < |Grouped(chapters, sections)| && s in Grouped(chapters, sections)[k].sections
  {
    var g := Grouped(chapters, sections);
    var cg := ChapterGroups(chapters, sections);
    var idx := ChapterGroupsSpec(chapters, sections);
    if MatchesAny(chapters, s.title) {
      var j :| 0 <= j < |chapters| && Matches(chapters[j], s.title);
      GroupHolds(chapters[j], sections, s);
      var k :| 0 <= k < |idx| && idx[k] == j;
      assert g[k] == cg[k];
    } else {
      AdditionalGroupSpec(chapters, sections, s);
      assert g[|g| - 1] == Group(|chapters| + 1, "Additional Sections", Unmatched(chapters, sections));
    }
  }

  /** No group is empty. */
  lemma GroupsNotEmpty(chapters: seq<Chapter>, sections: seq<Section>)
    ensures forall k :: 0 <= k < |Grouped(chapters, sections)| ==> Grouped(chapters, sections)[k].sections != []
  {
    var idx := ChapterGroupsSpec(chapters, sections);
  }

  /** With chapters numbered in order, group numbers strictly increase, the additional group last. */
  lemma GroupNumbersIncrease(chapters: seq<Chapter>, sections: seq<Section>)
    requires NumberedInOrder(chapters)
    ensures forall k, l :: 0 <= k < l < |Grouped(chapters, sections)| ==>
      Grouped(chapters, sections)[k].number < Grouped(chapters, sections)[l].number
  {
    var g := Grouped(chapters, sections);
    var cg := ChapterGroups(chapters, sections);
    var idx := ChapterGroupsSpec(chapters, sections);
    forall k, l | 0 <= k < l < |g|
      ensures g[k].number < g[l].number
    {
      assert g[k] == cg[k];
      if l < |cg| {
        assert g[l] == cg[l];
      }
    }
  }

  /** A section can sit under several chapters: `Introduction` is grouped under management chapters one and two. */
  lemma IntroductionGroupedTwice(sections: seq<Section>, s: Section)
    requires s in sections && s.title == "Introduction"
    ensures var g := Grouped(ManagementChapters(), sections);
      exists k, l :: 0 <= k < l < |g| && s in g[k].sections && s in g[l].sections
  {
    var chapters := ManagementChapters();
    var cg := ChapterGroups(chapters, sections);
    var g := Grouped(chapters, sections);
    IntroductionInTwoChapters();
    GroupHolds(chapters[0], sections, s);
    GroupHolds(chapters[1], sections, s);
    var idx := ChapterGroupsSpec(chapters, sections);
    var k :| 0 <= k < |idx| && idx[k] == 0;
    var l :| 0 <= l < |idx| && idx[l] == 1;
    assert k < l;
    assert g[k] == cg[k] && g[l] == cg[l];
  }

  // ---------------------------------------------------------------- chapter numbers

  const NumberWords: seq<string> := ["", "ONE", "TWO", "THREE", "FOUR", "FIVE", "SIX", "SEVEN", "EIGHT", "NINE", "TEN"]

  /** `_number_to_word`: a word up to ten, the digits from eleven on. */
  function NumberToWord(n: nat): (r: string)
    ensures n == 0 <==> r == ""
    ensures n > 10 ==> IsDigits(r) && DigitsValue(r) == n
  {
    if n < |NumberWords| then NumberWords[n]
    else
      NatToStringRoundTrip(n);
      NatToString(n)
  }

  /** Different chapter numbers get different words. */
  lemma NumberWordsDistinct(a: nat, b: nat)
    requires a != b
    ensures NumberToWord(a) != NumberToWord(b)
  {
    if a > 10 && b > 10 {
    } else if a > 10 || b > 10 {
      var small := if a > 10 then b else a;
      var large := if a > 10 then a else b;
      assert IsDigit(NumberToWord(large)[0]);
      assert small > 0 ==> !IsDigit(NumberToWord(small)[0]);
    } else {
      assert NumberWords[3][1] == 'H' && NumberWords[7][1] == 'E' && NumberWords[8][1] == 'I';
      assert NumberWords[4][1] == 'O' && NumberWords[5][1] == 'I' && NumberWords[9][1] == 'I';
      assert NumberWords[5][0] == 'F' && NumberWords[9][0] == 'N';
      assert NumberWords[1][0] == 'O' && NumberWords[2][0] == 'T' && NumberWords[6][0] == 'S' && NumberWords[10][1] == 'E';
    }
  }

  // ---------------------------------------------------------------- references

  /** A source record of the sources database; missing keys are `None`. */
  datatype SourceRecord = SourceRecord(
    authors: Option<seq<string>>,
    year: Option<string>,
    title: Option<string>,
    url: Option<string>)

  /** The sort key `x[1].get('authors', [''])[0]` raises IndexError on an empty author list. */
  datatype ReferenceError = EmptyAuthorList

  function OrElse<T>(o: Option<T>, default: T): T
  {
    if o.Some? then o.value else default
  }

  /** The sort key: the first author, or the empty string without an author list. */
  function FirstAuthor(s: SourceRecord): string
  {
    if s.authors.Some? && s.authors.value != [] then s.authors.value[0] else ""
  }

  /** Python's string order: code point by code point, a proper prefix first. */
  predicate StrLess(a: string, b: string)
    decreases |a|
  {
    b != [] && (a == [] || a[0] < b[0] || (a[0] == b[0] && StrLess(a[1..], b[1..])))
  }

  lemma {:induction false} StrLessIrreflexive(a: string)
    ensures !StrLess(a, a)
    decreases |a|
  {
    if a != [] {
      StrLessIrreflexive(a[1..]);
    }
  }

  lemma {:induction false} StrLessTransitive(a: string, b: string, c: string)
    requires StrLess(a, b) && StrLess(b, c)
    ensures StrLess(a, c)
    decreases |a|
  {
    if a != [] && a[0] == b[0] && b[0] == c[0] {
      StrLessTransitive(a[1..], b[1..], c[1..]);
    }
  }

  /** `sorted(..., key=first author)`: an entry goes before another when its first author is smaller. */
  predicate ByFirstAuthor(x: (string, SourceRecord), y: (string, SourceRecord))
  {
    StrLess(FirstAuthor(x.1), FirstAuthor(y.1))
  }

  const NoReferences := "\n## REFERENCES\n\nNo references cited.\n"

  const ReferencesHeading := "\\newpage\n\n## REFERENCES\n\n"

  /** One reference: bold authors, the year, the title in italics, and the url only when it is not empty. */
  function Entry(s: SourceRecord): string
  {
    var url := OrElse(s.url, "");
    var ref := "**" + Join(", ", OrElse(s.authors, ["Unknown"])) + "** (" + OrElse(s.year, "n.d.") + "). *"
      + OrElse(s.title, "Untitled") + "*.";
    (if url != "" then ref + " Retrieved from " + url else ref) + "\n\n"
  }

  function EntryOf(x: (string, SourceRecord)): string
  {
    Entry(x.1)
  }

  predicate HasEmptyAuthorList(db: seq<(string, SourceRecord)>)
  {
    exists i :: 0 <= i < |db| && db[i].1.authors == Some([])
  }

  /** `_build_references` over the database's items in insertion order. */
  function References(db: seq<(string, SourceRecord)>): Result<string, ReferenceError>
  {
    if db == [] then Ok(NoReferences)
    else if HasEmptyAuthorList(db) then Err(EmptyAuthorList)
    else Ok(ReferencesHeading + Flatten(Map(SortBy(db, ByFirstAuthor), EntryOf)))
  }

  /** `_build_references`: the keys are computed first, then one entry is appended per sorted source. */
  method BuildReferences(db: seq<(string, SourceRecord)>) returns (r: Result<string, ReferenceError>)
    ensures r == References(db)
  {
    if |db| == 0 {
      return Ok(NoReferences);
    }
    var i := 0;
    while i < |db|
      invariant 0 <= i <= |db|
      invariant forall j :: 0 <= j < i ==> db[j].1.authors != Some([])
    {
      if db[i].1.authors == Some([]) {
        return Err(EmptyAuthorList);
      }
      i := i + 1;
    }
    var sorted := SortBy(db, ByFirstAuthor);
    var refs: seq<string> := [ReferencesHeading];
    var k := 0;
    while k < |sorted|
      invariant 0 <= k <= |sorted|
      invariant refs == [ReferencesHeading] + Map(sorted[..k], EntryOf)
    {
      var source := sorted[k].1;
      var url := OrElse(source.url, "");
      var ref := "**" + Join(", ", OrElse(source.authors, ["Unknown"])) + "** (" + OrElse(source.year, "n.d.") + "). *"
        + OrElse(source.title, "Untitled") + "*.";
      if url != "" {
        ref := ref + " Retrieved from " + url;
      }
      MapSnoc(sorted[..k], sorted[k], EntryOf);
      assert sorted[..k + 1] == sorted[..k] + [sorted[k]];
      refs := refs + [ref + "\n\n"];
      k := k + 1;
    }
    assert sorted[..k] == sorted;
    FlattenCons(ReferencesHeading, Map(sorted, EntryOf));
    r := Ok(Flatten(refs));
  }

  /** The empty database, and only it, gives the "No references cited." block; an empty author list raises. */
  lemma ReferencesCases(db: seq<(string, SourceRecord)>)
    ensures References(db) == Ok(NoReferences) <==> db == []
    ensures References(db).Err? <==> db != [] && HasEmptyAuthorList(db)
    ensures References(db).Ok? && db != [] ==> StartsWith(References(db).value, ReferencesHeading)
  {
    if db != [] && !HasEmptyAuthorList(db) {
      var r := References(db).value;
      assert r[0] == '\\' && NoReferences[0] == '\n';
      assert r[..|ReferencesHeading|] == ReferencesHeading;
    }
  }

  lemma ByFirstAuthorOrders()
    ensures Irreflexive(ByFirstAuthor) && Transitive(ByFirstAuthor)
  {
    forall x: (string, SourceRecord)
      ensures !ByFirstAuthor(x, x)
    {
      StrLessIrreflexive(FirstAuthor(x.1));
    }
    forall x: (string, SourceRecord), y: (string, SourceRecord), z: (string, SourceRecord) |
      ByFirstAuthor(x, y) && ByFirstAuthor(y, z)
      ensures ByFirstAuthor(x, z)
    {
      StrLessTransitive(FirstAuthor(x.1), FirstAuthor(y.1), FirstAuthor(z.1));
    }
  }

  /**
   * The references list every source once, ordered by first author, and sources
   * with the same first author keep the database's order.
   */
  lemma ReferenceOrder(db: seq<(string, SourceRecord)>, author: string, same: ((string, SourceRecord)) -> bool)
    requires forall x :: same(x) <==> FirstAuthor(x.1) == author
    ensures multiset(SortBy(db, ByFirstAuthor)) == multiset(db)
    ensures Sorted(SortBy(db, ByFirstAuthor), ByFirstAuthor)
    ensures Filter(SortBy(db, ByFirstAuthor), same) == Filter(db, same)
  {
    ByFirstAuthorOrders();
    SortPermutes(db, ByFirstAuthor);
    SortSorted(db, ByFirstAuthor);
    SortStable(db, ByFirstAuthor, same);
  }

  /** An entry ends with its url exactly when the url is not empty. */
  lemma EntryUrl(s: SourceRecord)
    ensures OrElse(s.url, "") != "" ==> EndsWith(Entry(s), " Retrieved from " + s.url.value + "\n\n")
    ensures OrElse(s.url, "") == "" ==> EndsWith(Entry(s), "*.\n\n")
  {
    var url := OrElse(s.url, "");
    var ref := "**" + Join(", ", OrElse(s.authors, ["Unknown"])) + "** (" + OrElse(s.year, "n.d.") + "). *"
      + OrElse(s.title, "Untitled") + "*.";
    if url != "" {
      var tail := " Retrieved from " + url + "\n\n";
      assert Entry(s) == ref + tail;
      assert (ref + tail)[|ref|..] == tail;
    } else {
      var pre := "**" + Join(", ", OrElse(s.authors, ["Unknown"])) + "** (" + OrElse(s.year, "n.d.") + "). *"
        + OrElse(s.title, "Untitled");
      assert Entry(s) == pre + "*." + "\n\n";
      assert (pre + "*." + "\n\n")[|pre|..] == "*.\n\n";
    }
  }

  // ---------------------------------------------------------------- section titles and bodies

  /** `str.title()` on ASCII text: a letter after a letter is lower-cased, any other letter upper-cased. */
  function TitleCase(s: string): (r: string)
    ensures |r| == |s|
  {
    seq(|s|, i requires 0 <= i < |s| =>
      if !IsLetter(s[i]) then s[i] else if i > 0 && IsLetter(s[i - 1]) then LowerChar(s[i]) else UpperChar(s[i]))
  }

  lemma LetterCaseKept(c: char)
    ensures IsLetter(LowerChar(c)) == IsLetter(c) && IsLetter(UpperChar(c)) == IsLetter(c)
    ensures LowerChar(UpperChar(c)) == LowerChar(c) && LowerChar(LowerChar(c)) == LowerChar(c)
    ensures UpperChar(LowerChar(c)) == UpperChar(c) && UpperChar(UpperChar(c)) == UpperChar(c)
  {
  }

  /** Title-casing changes only the case of letters, and doing it twice changes nothing more. */
  lemma TitleCaseSpec(s: string)
    ensures Lower(TitleCase(s)) == Lower(s)
    ensures TitleCase(TitleCase(s)) == TitleCase(s)
  {
    var t := TitleCase(s);
    forall i | 0 <= i < |s|
      ensures LowerChar(t[i]) == LowerChar(s[i]) && IsLetter(t[i]) == IsLetter(s[i])
    {
      LetterCaseKept(s[i]);
    }
    forall i | 0 <= i < |s|
      ensures TitleCase(t)[i] == t[i]
    {
      LetterCaseKept(s[i]);
    }
  }

  /** The title of a section file: the stem after its first `_`, underscores as spaces, title-cased; no `_` raises. */
  function SectionTitle(stem: string): (r: Option<string>)
    ensures r.Some? <==> '_' in stem
  {
    var i := IndexOfChar(stem, '_');
    if i < 0 then None else Some(TitleCase(ReplaceChar(stem[i + 1..], '_', ' ')))
  }

  /** A section title keeps everything after the first `_` up to case, with spaces for underscores. */
  lemma SectionTitleShape(stem: string)
    requires '_' in stem
    ensures var i := IndexOfChar(stem, '_');
      && |SectionTitle(stem).value| == |stem| - i - 1
      && Lower(SectionTitle(stem).value) == Lower(ReplaceChar(stem[i + 1..], '_', ' '))
      && forall k :: 0 <= k < |SectionTitle(stem).value| ==> SectionTitle(stem).value[k] != '_'
  {
    var i := IndexOfChar(stem, '_');
    var u := ReplaceChar(stem[i + 1..], '_', ' ');
    TitleCaseSpec(u);
    forall k | 0 <= k < |u|
      ensures TitleCase(u)[k] != '_'
    {
      LetterCaseKept(u[k]);
    }
  }

  /** A body starting with `#` loses its first line and is stripped; any other body is kept. */
  function SectionBody(content: string): string
  {
    if StartsWith(content, "#") then Strip(Join("\n", SplitOn(content, "\n")[1..])) else content
  }

  lemma {:induction false} FirstNewline(h: string, rest: string)
    requires forall j :: 0 <= j < |h| ==> h[j] != '\n'
    ensures IndexOf(h + "\n" + rest, "\n") == Some(|h|)
    decreases |h|
  {
    var s := h + "\n" + rest;
    if h == [] {
      assert s[..1] == "\n";
    } else {
      FirstNewline(h[1..], rest);
      assert s[1..] == h[1..] + "\n" + rest;
      assert s[0] != '\n';
    }
  }

  lemma {:induction false} NoNewline(h: string)
    requires forall j :: 0 <= j < |h| ==> h[j] != '\n'
    ensures IndexOf(h, "\n") == None
    decreases |h|
  {
    if h != [] {
      NoNewline(h[1..]);
      assert h[0] != '\n';
    }
  }

  /** The heading line of a body is dropped, and the rest stripped; a body that is only a heading becomes empty. */
  lemma HeadingDropped(h: string, rest: string)
    requires StartsWith(h, "#") && forall j :: 0 <= j < |h| ==> h[j] != '\n'
    ensures SectionBody(h + "\n" + rest) == Strip(rest)
    ensures SectionBody(h) == ""
  {
    var s := h + "\n" + rest;
    FirstNewline(h, rest);
    assert s[..|h|] == h;
    assert s[|h| + 1..] == rest;
    assert SplitOn(s, "\n") == [h] + SplitOn(rest, "\n");
    assert StartsWith(s, "#") by {
      assert s[..1] == h[..1];
    }
    assert ([h] + SplitOn(rest, "\n"))[1..] == SplitOn(rest, "\n");
    SplitJoin(rest, "\n");
    NoNewline(h);
    assert SplitOn(h, "\n")[1..] == [];
    StripUnchanged("");
  }
}

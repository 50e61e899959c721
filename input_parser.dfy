/**
 * InputParser: `src/parsers/input_parser.py`, which reads a markdown project
 * description. Lines of the form `# Name` open a section; the lines under a
 * section are its body. The `Project Configuration` section holds
 * `key: value` metadata lines. The optional term extraction by a language
 * model is the `termsReply` input: `None` without a client, `Some(None)` when
 * the call raised, `Some(Some(reply))` otherwise.
 */
module InputParser {
  import opened Wrappers
  import opened Text
  import opened OrderedMaps
  import opened Seqs

  datatype ProjectInput = ProjectInput(
    title: string,
    author: string,
    domain: string,
    keywords: seq<string>,
    problemStatement: string,
    solution: string,
    approachJustification: string,
    systemArchitecture: string,
    dependencies: string,
    implementationHighlights: string,
    testResults: string,
    rawContent: string,
    extractedTerms: seq<string>)

  /** A metadata value: the `keywords` list, or the text of any other key. */
  datatype MetaValue = Str(s: string) | StrList(items: seq<string>)

  // ---------------------------------------------------------------- sections

  /** A line that opens a section. */
  predicate IsHeader(line: string) { StartsWith(line, "# ") }

  /** The name a header line gives its section. */
  function HeaderName(line: string): string
    requires IsHeader(line)
  {
    Strip(line[2..])
  }

  /**
   * The loop state of `_extract_sections`: the sections so far, the open
   * section's name and its lines. An empty name is falsy in the source, so
   * it stands for "no open section", exactly like `None`.
   */
  datatype Scan = Scan(sections: seq<(string, string)>, current: string, lines: seq<string>)

  const Start := Scan([], "", [])

  /** The body stored for a section: its lines joined by newlines and stripped. */
  function Body(lines: seq<string>): string
  {
    Strip(Join("\n", lines))
  }

  /** Storing the open section, if there is one. */
  function Close(sc: Scan): seq<(string, string)>
  {
    if sc.current != "" then Put(sc.sections, sc.current, Body(sc.lines)) else sc.sections
  }

  /** One turn of the loop of `_extract_sections`. */
  function ScanLine(sc: Scan, line: string): Scan
  {
    if IsHeader(line) then Scan(Close(sc), HeaderName(line), [])
    else if sc.current != "" then sc.(lines := sc.lines + [line])
    else sc
  }

  /** The loop over `lines`, from `sc`. */
  function ScanFrom(sc: Scan, lines: seq<string>): Scan
    decreases |lines|
  {
    if lines == [] then sc else ScanLine(ScanFrom(sc, lines[..|lines| - 1]), lines[|lines| - 1])
  }

  /** The sections of a list of lines. */
  function SectionsOfLines(lines: seq<string>): seq<(string, string)>
  {
    Close(ScanFrom(Start, lines))
  }

  /** `_extract_sections`. */
  function Sections(content: string): seq<(string, string)>
  {
    SectionsOfLines(SplitOn(content, "\n"))
  }

  /** Scanning two runs of lines is scanning the first, then the second. */
  lemma {:induction false} ScanAppend(sc: Scan, a: seq<string>, b: seq<string>)
    ensures ScanFrom(sc, a + b) == ScanFrom(ScanFrom(sc, a), b)
    decreases |b|
  {
    if b == [] {
      assert a + b == a;
    } else {
      assert (a + b)[..|a + b| - 1] == a + b[..|b| - 1];
      assert (a + b)[|a + b| - 1] == b[|b| - 1];
      ScanAppend(sc, a, b[..|b| - 1]);
    }
  }

  /** Lines before the first header change nothing. */
  lemma {:induction false} PreambleIgnored(pre: seq<string>)
    requires forall k :: 0 <= k < |pre| ==> !IsHeader(pre[k])
    ensures ScanFrom(Start, pre) == Start
    decreases |pre|
  {
    if pre != [] {
      PreambleIgnored(pre[..|pre| - 1]);
    }
  }

  /** So the sections of a text are those of the text from its first header on. */
  lemma SectionsSkipPreamble(pre: seq<string>, rest: seq<string>)
    requires forall k :: 0 <= k < |pre| ==> !IsHeader(pre[k])
    ensures SectionsOfLines(pre + rest) == SectionsOfLines(rest)
  {
    PreambleIgnored(pre);
    ScanAppend(Start, pre, rest);
  }

  /** Body lines only accumulate under the open section. */
  lemma {:induction false} BodyLinesAccumulate(sc: Scan, body: seq<string>)
    requires sc.current != ""
    requires forall k :: 0 <= k < |body| ==> !IsHeader(body[k])
    ensures ScanFrom(sc, body) == sc.(lines := sc.lines + body)
    decreases |body|
  {
    if body != [] {
      BodyLinesAccumulate(sc, body[..|body| - 1]);
      assert sc.lines + body[..|body| - 1] + [body[|body| - 1]] == sc.lines + body;
    }
  }

  /**
   * The last header decides: whatever came before, a header with a non-empty
   * name followed only by body lines stores exactly that body under its name,
   * so a repeated header keeps its last body.
   */
  lemma LastBodyWins(pre: seq<string>, header: string, body: seq<string>)
    requires IsHeader(header) && HeaderName(header) != ""
    requires forall k :: 0 <= k < |body| ==> !IsHeader(body[k])
    ensures Get(SectionsOfLines(pre + [header] + body), HeaderName(header)) == Some(Body(body))
  {
    var name := HeaderName(header);
    var p := ScanFrom(Start, pre);
    var open := Scan(Close(p), name, []);
    assert (pre + [header])[..|pre + [header]| - 1] == pre;
    assert ScanFrom(Start, pre + [header]) == open;
    ScanAppend(Start, pre + [header], body);
    BodyLinesAccumulate(open, body);
    assert [] + body == body;
    var last := ScanFrom(Start, pre + [header] + body);
    assert last == Scan(Close(p), name, body);
    assert SectionsOfLines(pre + [header] + body) == Put(Close(p), name, Body(body));
    GetPut(Close(p), name, Body(body), name);
  }

  /** A `## ` line is body text, not a header. */
  lemma SubheaderIsBody(line: string)
    requires StartsWith(line, "##")
    ensures !IsHeader(line)
  {
    assert line[1] == '#';
  }

  /** The names a run of lines opens, in order. */
  function Headers(lines: seq<string>): seq<string>
    decreases |lines|
  {
    if lines == [] then []
    else
      var last := lines[|lines| - 1];
      Headers(lines[..|lines| - 1]) + (if IsHeader(last) then [HeaderName(last)] else [])
  }

  /** The open section, if any, is the last header. */
  lemma {:induction false} CurrentIsLastHeader(lines: seq<string>)
    ensures var sc := ScanFrom(Start, lines);
      sc.current == (if Headers(lines) == [] then "" else Headers(lines)[|Headers(lines)| - 1])
    decreases |lines|
  {
    if lines != [] {
      CurrentIsLastHeader(lines[..|lines| - 1]);
    }
  }

  /** Every stored section is named by a non-empty header, and every non-empty header name is stored. */
  lemma SectionNames(lines: seq<string>)
    ensures forall n :: n in Keys(SectionsOfLines(lines)) <==> n in Headers(lines) && n != ""
  {
    StoredKeys(lines);
    CloseKeys(ScanFrom(Start, lines));
  }

  /** The keys stored by the scan, and the open section, are among the non-empty header names. */
  lemma {:induction false} StoredKeys(lines: seq<string>)
    ensures var sc := ScanFrom(Start, lines);
      forall n :: n in Keys(sc.sections) || (n == sc.current && n != "") <==> n in Headers(lines) && n != ""
    decreases |lines|
  {
    if lines != [] {
      var init, last := lines[..|lines| - 1], lines[|lines| - 1];
      StoredKeys(init);
      var p := ScanFrom(Start, init);
      assert ScanFrom(Start, lines) == ScanLine(p, last);
      assert Headers(lines) == Headers(init) + (if IsHeader(last) then [HeaderName(last)] else []);
      if IsHeader(last) {
        CloseKeys(p);
      }
    }
  }

  /** Closing adds the open section's name, if any, to the stored names. */
  lemma CloseKeys(sc: Scan)
    ensures forall n :: n in Keys(Close(sc)) <==> n in Keys(sc.sections) || (n == sc.current && n != "")
  {
    if sc.current != "" {
      PutKeys(sc.sections, sc.current, Body(sc.lines));
    }
  }

  /** One line of `_extract_sections`: a header stores the open section and opens its own; other lines join the open section. */
  method SectionLine(sections: seq<(string, string)>, current: string, currentContent: seq<string>, line: string)
    returns (sections': seq<(string, string)>, current': string, currentContent': seq<string>)
    ensures Scan(sections', current', currentContent') == ScanLine(Scan(sections, current, currentContent), line)
  {
    sections', current', currentContent' := sections, current, currentContent;
    if StartsWith(line, "# ") {
      if current != "" {
        sections' := Put(sections, current, Strip(Join("\n", currentContent)));
      }
      current' := Strip(line[2..]);
      currentContent' := [];
    } else if current != "" {
      currentContent' := currentContent + [line];
    }
  }

  /** `_extract_sections`: one pass over the lines, keeping the open section and its lines. */
  method ExtractSections(content: string) returns (sections: seq<(string, string)>)
    ensures sections == Sections(content)
  {
    var lines := SplitOn(content, "\n");
    sections := [];
    var current := "";
    var currentContent: seq<string> := [];
    var i := 0;
    while i < |lines|
      invariant 0 <= i <= |lines|
      invariant ScanFrom(Start, lines[..i]) == Scan(sections, current, currentContent)
    {
      assert lines[..i + 1][..i] == lines[..i];
      sections, current, currentContent := SectionLine(sections, current, currentContent, lines[i]);
      i := i + 1;
    }
    assert lines[..i] == lines;
    if current != "" {
      sections := Put(sections, current, Strip(Join("\n", currentContent)));
    }
  }

  // ---------------------------------------------------------------- metadata

  /** The `keywords` value: the comma-separated pieces, stripped. */
  function KeywordList(value: string): seq<string>
  {
    Map(SplitOn(value, ","), Strip)
  }

  /** The key a metadata line sets: the text before its first colon, stripped and lower-cased. */
  function LineKey(line: string): string
    requires IndexOfChar(line, ':') >= 0
  {
    Lower(Strip(line[..IndexOfChar(line, ':')]))
  }

  /** The value a metadata line sets: the stripped text after its first colon, split into a list for `keywords`. */
  function LineValue(line: string): MetaValue
    requires IndexOfChar(line, ':') >= 0
  {
    var value := Strip(line[IndexOfChar(line, ':') + 1..]);
    if LineKey(line) == "keywords" then StrList(KeywordList(value)) else Str(value)
  }

  /** One turn of the loop of `_extract_metadata`: a line with a colon sets its key; later lines win. */
  function MetaLine(md: seq<(string, MetaValue)>, line: string): seq<(string, MetaValue)>
  {
    if IndexOfChar(line, ':') < 0 then md else Put(md, LineKey(line), LineValue(line))
  }

  /** The loop of `_extract_metadata` over `lines`. */
  function MetaLines(lines: seq<string>): seq<(string, MetaValue)>
    decreases |lines|
  {
    if lines == [] then [] else MetaLine(MetaLines(lines[..|lines| - 1]), lines[|lines| - 1])
  }

  /** `_extract_metadata`. */
  function Metadata(config: string): seq<(string, MetaValue)>
  {
    MetaLines(SplitOn(config, "\n"))
  }

  /** The last line with a colon decides its key; a line without a colon changes nothing. */
  lemma MetaLineEffect(md: seq<(string, MetaValue)>, line: string, key: string)
    ensures IndexOfChar(line, ':') < 0 ==> MetaLine(md, line) == md
    ensures IndexOfChar(line, ':') >= 0 && key != LineKey(line) ==> Get(MetaLine(md, line), key) == Get(md, key)
    ensures IndexOfChar(line, ':') >= 0 && key == LineKey(line) ==> Get(MetaLine(md, line), key) == Some(LineValue(line))
  {
    if IndexOfChar(line, ':') >= 0 {
      GetPut(md, LineKey(line), LineValue(line), key);
    }
  }

  /** Only the `keywords` key holds a list; every other key holds text. */
  lemma {:induction false} MetadataShape(lines: seq<string>)
    ensures forall k :: 0 <= k < |MetaLines(lines)| ==>
      (MetaLines(lines)[k].1.StrList? <==> MetaLines(lines)[k].0 == "keywords")
    decreases |lines|
  {
    if lines != [] {
      var md := MetaLines(lines[..|lines| - 1]);
      MetadataShape(lines[..|lines| - 1]);
      var line := lines[|lines| - 1];
      if IndexOfChar(line, ':') >= 0 {
        PutShape(md, LineKey(line), LineValue(line));
      }
    }
  }

  lemma {:induction false} PutShape(md: seq<(string, MetaValue)>, key: string, v: MetaValue)
    requires forall k :: 0 <= k < |md| ==> (md[k].1.StrList? <==> md[k].0 == "keywords")
    requires v.StrList? <==> key == "keywords"
    ensures forall k :: 0 <= k < |Put(md, key, v)| ==> (Put(md, key, v)[k].1.StrList? <==> Put(md, key, v)[k].0 == "keywords")
    decreases |md|
  {
    if md != [] && md[0].0 != key {
      PutShape(md[1..], key, v);
    }
  }

  /** The keyword pieces, before stripping, join back to the value with commas. */
  lemma KeywordsRoundTrip(value: string)
    ensures |KeywordList(value)| == |SplitOn(value, ",")|
    ensures Join(",", SplitOn(value, ",")) == value
    ensures forall k :: 0 <= k < |KeywordList(value)| ==> KeywordList(value)[k] == Strip(SplitOn(value, ",")[k])
  {
    SplitJoin(value, ",");
  }

  /** One line of `_extract_metadata`: a line with a colon sets its key. */
  method MetadataLine(md: seq<(string, MetaValue)>, line: string) returns (md': seq<(string, MetaValue)>)
    ensures md' == MetaLine(md, line)
  {
    md' := md;
    var colon := IndexOfChar(line, ':');
    if colon >= 0 {
      var key := Lower(Strip(line[..colon]));
      var value := Strip(line[colon + 1..]);
      if key == "keywords" {
        md' := Put(md, key, StrList(KeywordList(value)));
      } else {
        md' := Put(md, key, Str(value));
      }
    }
  }

  /** `_extract_metadata`: one pass over the lines, filling the dict. */
  method ExtractMetadata(config: string) returns (md: seq<(string, MetaValue)>)
    ensures md == Metadata(config)
  {
    var lines := SplitOn(config, "\n");
    md := [];
    var i := 0;
    while i < |lines|
      invariant 0 <= i <= |lines|
      invariant md == MetaLines(lines[..i])
    {
      assert lines[..i + 1][..i] == lines[..i];
      md := MetadataLine(md, lines[i]);
      i := i + 1;
    }
    assert lines[..i] == lines;
  }

  // ---------------------------------------------------------------- parse_content

  /** `d.get(key, default)` on the sections. */
  function SectionOr(sections: seq<(string, string)>, name: string): string
  {
    match Get(sections, name)
    case Some(body) => body
    case None => ""
  }

  /** `metadata.get(key, default)` for a text key. */
  function TextOr(md: seq<(string, MetaValue)>, key: string, default: string): string
  {
    var v := Get(md, key);
    if v.Some? && v.value.Str? then v.value.s else default
  }

  /** `metadata.get('keywords', [])`. */
  function KeywordsOf(md: seq<(string, MetaValue)>): seq<string>
  {
    var v := Get(md, "keywords");
    if v.Some? && v.value.StrList? then v.value.items else []
  }

  /** `_extract_terms_with_llm`, given the reply: comma-separated terms, stripped; nothing when the call raised. */
  function ExtractedTerms(termsReply: Option<Option<string>>): (terms: seq<string>)
    ensures termsReply.Some? && termsReply.value.Some? ==>
      (|terms| == |SplitOn(termsReply.value.value, ",")| &&
       forall k :: 0 <= k < |terms| ==> terms[k] == Strip(SplitOn(termsReply.value.value, ",")[k]))
    ensures !(termsReply.Some? && termsReply.value.Some?) ==> terms == []
  {
    match termsReply
    case None => []
    case Some(None) => []
    case Some(Some(reply)) => Map(SplitOn(reply, ","), Strip)
  }

  /** `parse_content`. */
  function ParseContent(content: string, termsReply: Option<Option<string>>): (p: ProjectInput)
    ensures p.rawContent == content
  {
    var sections := Sections(content);
    var md := Metadata(SectionOr(sections, "Project Configuration"));
    ProjectInput(
      TextOr(md, "title", "Untitled Project"),
      TextOr(md, "author", "Anonymous"),
      TextOr(md, "domain", "General"),
      KeywordsOf(md),
      SectionOr(sections, "Problem Statement"),
      SectionOr(sections, "Your Solution"),
      SectionOr(sections, "Why This Approach"),
      SectionOr(sections, "System Architecture"),
      SectionOr(sections, "Dependencies"),
      SectionOr(sections, "Implementation Highlights"),
      SectionOr(sections, "Test Results"),
      content,
      ExtractedTerms(termsReply))
  }

  /** A text key that is present is read as text: the default is never taken for it. */
  lemma TextKeysAreText(config: string, key: string)
    requires key != "keywords" && key in Keys(Metadata(config))
    ensures Get(Metadata(config), key).value.Str?
  {
    var md := Metadata(config);
    MetadataShape(SplitOn(config, "\n"));
    var k :| 0 <= k < |md| && md[k].0 == key;
    GetFirst(md, key);
  }

  /** Without a configuration section the metadata is empty. */
  lemma NoConfigurationNoMetadata()
    ensures Metadata("") == []
  {
    assert SplitOn("", "\n") == [""];
    assert IndexOfChar("", ':') == -1;
    assert [""][..0] == [];
  }

  /** Missing metadata and sections take their defaults. */
  lemma ParseDefaults(content: string, termsReply: Option<Option<string>>)
    requires "Project Configuration" !in Keys(Sections(content))
    ensures var p := ParseContent(content, termsReply);
      && p.title == "Untitled Project" && p.author == "Anonymous" && p.domain == "General" && p.keywords == []
  {
    NoConfigurationNoMetadata();
  }

  /** A section that is absent reads as the empty string. */
  lemma MissingSectionEmpty(content: string, termsReply: Option<Option<string>>)
    requires "Problem Statement" !in Keys(Sections(content))
    ensures ParseContent(content, termsReply).problemStatement == ""
  {
  }

  // ---------------------------------------------------------------- get_context_for_section

  /** `raw_content[:1000]`. */
  function Head(raw: string): string
  {
    if |raw| <= 1000 then raw else raw[..1000]
  }

  /** `get_context_for_section`: four section types have a context block; any other gets the start of the raw text. */
  function ContextFor(p: ProjectInput, sectionType: string): string
  {
    if sectionType == "research" then
      "\nDOMAIN: " + p.domain + "\nKEYWORDS: " + Join(", ", p.keywords) + "\nPROBLEM: " + p.problemStatement + "\n"
    else if sectionType == "interactive" then
      "\nPROBLEM: " + p.problemStatement + "\nSOLUTION: " + p.solution
        + "\nJUSTIFICATION: " + p.approachJustification + "\n"
    else if sectionType == "evidence" then
      "\nARCHITECTURE: " + p.systemArchitecture + "\nIMPLEMENTATION: " + p.implementationHighlights
        + "\nTEST RESULTS: " + p.testResults + "\nDEPENDENCIES: " + p.dependencies + "\n"
    else if sectionType == "automated" then
      "\nTITLE: " + p.title + "\nDOMAIN: " + p.domain + "\nARCHITECTURE: " + p.systemArchitecture
        + "\nDEPENDENCIES: " + p.dependencies + "\nTERMS: " + Join(", ", p.extractedTerms) + "\n"
    else Head(p.rawContent)
  }

  /** A text placed between two others occurs in the whole. */
  lemma Middle(a: string, t: string, b: string)
    ensures Contains(a + t + b, t)
  {
    assert (a + t + b)[|a|..|a| + |t|] == t;
    ContainsAt(a + t + b, t, |a|);
  }

  /** Each context block carries the last field it is written from. */
  lemma ContextCarriesFields(p: ProjectInput)
    ensures Contains(ContextFor(p, "research"), p.problemStatement)
    ensures Contains(ContextFor(p, "interactive"), p.approachJustification)
    ensures Contains(ContextFor(p, "evidence"), p.dependencies)
    ensures Contains(ContextFor(p, "automated"), Join(", ", p.extractedTerms))
  {
    Middle("\nDOMAIN: " + p.domain + "\nKEYWORDS: " + Join(", ", p.keywords) + "\nPROBLEM: ", p.problemStatement, "\n");
    Middle("\nPROBLEM: " + p.problemStatement + "\nSOLUTION: " + p.solution + "\nJUSTIFICATION: ",
      p.approachJustification, "\n");
    Middle("\nARCHITECTURE: " + p.systemArchitecture + "\nIMPLEMENTATION: " + p.implementationHighlights
      + "\nTEST RESULTS: " + p.testResults + "\nDEPENDENCIES: ", p.dependencies, "\n");
    Middle("\nTITLE: " + p.title + "\nDOMAIN: " + p.domain + "\nARCHITECTURE: " + p.systemArchitecture
      + "\nDEPENDENCIES: " + p.dependencies + "\nTERMS: ", Join(", ", p.extractedTerms), "\n");
  }

  /** Any other section type gets at most the first 1000 characters of the raw text, as a prefix of it. */
  lemma ContextFallback(p: ProjectInput, sectionType: string)
    requires sectionType !in ["research", "interactive", "evidence", "automated"]
    ensures |ContextFor(p, sectionType)| <= 1000
    ensures StartsWith(p.rawContent, ContextFor(p, sectionType))
    ensures |p.rawContent| <= 1000 ==> ContextFor(p, sectionType) == p.rawContent
  {
  }
}

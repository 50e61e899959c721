/**
 * LedgerUpdate: `LedgerUpdater.update`, which asks the LLM for a summary and
 * for findings/terms, then appends one SectionSummary to the global state and
 * merges the parsed terms into its glossary.
 *
 * The LLM client is a value that answers a request (the prompt reduced to
 * what it is built from, and the token cap); the JSON decoder is the
 * `decode` input.
 */
module LedgerUpdate {
  import opened Wrappers
  import opened Text
  import opened Models
  import opened Seqs
  import opened OrderedMaps
  import ClaimExtractor
  import GlobalStates

  /** What a prompt is built from. */
  datatype Prompt = SummaryPrompt(title: string, content: string) | ExtractionPrompt(content: string)

  /** One call: the prompt and its token cap. */
  datatype Request = Request(prompt: Prompt, maxTokens: int)

  /** The client: the Anthropic-style interface, the OpenAI-style interface, or neither. */
  datatype LlmClient =
    | MessagesApi(answer: Request -> string)
    | ChatCompletionsApi(answer: Request -> string)
    | NoInterface

  /** `_call_llm`: the messages interface if present, else chat completions, else the empty string. */
  function CallLlm(client: LlmClient, request: Request): (r: string)
    ensures client.NoInterface? ==> r == ""
    ensures !client.NoInterface? ==> r == client.answer(request)
  {
    match client
    case MessagesApi(answer) => answer(request)
    case ChatCompletionsApi(answer) => answer(request)
    case NoInterface => ""
  }

  /** One entry of `key_findings`: `text` may be missing (a KeyError), `source_ids` defaults to `[]`. */
  datatype RawFinding = RawFinding(text: Option<string>, sourceIds: Option<seq<string>>)

  /**
   * The `key_terms` value: an object (its pairs, keys distinct when they come
   * from the decoder), or any other JSON value, given by the leading elements
   * `dict.update` accepts from it as key/value pairs before it stops (none for
   * a falsy value, a number, a boolean or a string; the pair-shaped leading
   * elements of a list).
   */
  datatype KeyTerms = TermsObject(pairs: seq<(string, string)>) | TermsNotObject(accepted: seq<(string, string)>)

  /**
   * The decoded extraction reply: a JSON object with optional `key_findings`
   * and `key_terms`, or anything the decoder or the field accesses reject.
   */
  datatype Extraction =
    | Extracted(keyFindings: Option<seq<RawFinding>>, keyTerms: Option<KeyTerms>)
    | Malformed

  /**
   * The findings and terms `update` keeps after its `try` block (both empty
   * when anything in it fails), and whether `new_terms` is not a dict, so
   * that the merge or the summary after the block raises.
   */
  datatype Parsed = Parsed(findings: seq<Finding>, terms: seq<(string, string)>, termsRaise: bool)

  /** Every raw finding has its `text`. */
  predicate AllHaveText(raw: seq<RawFinding>)
  {
    forall i :: 0 <= i < |raw| ==> raw[i].text.Some?
  }

  /** `Finding(text=f["text"], source_ids=f.get("source_ids", []), section_id=...)`. */
  function FindingFrom(f: RawFinding, sectionId: int): Finding
    requires f.text.Some?
  {
    Finding(f.text.value, if f.sourceIds.Some? then f.sourceIds.value else [], sectionId)
  }

  /** The findings list comprehension (all entries have text). */
  function FindingsFrom(raw: seq<RawFinding>, sectionId: int): (fs: seq<Finding>)
    requires AllHaveText(raw)
    ensures |fs| == |raw|
    ensures forall i :: 0 <= i < |raw| ==> fs[i] == FindingFrom(raw[i], sectionId)
  {
    seq(|raw|, i requires 0 <= i < |raw| => FindingFrom(raw[i], sectionId))
  }

  /** The `try` block: the comprehension raises on a finding without text, before the terms are read. */
  function ParseExtraction(e: Extraction, sectionId: int): Parsed
  {
    match e
    case Malformed => Parsed([], [], false)
    case Extracted(kf, kt) =>
      var raw := if kf.Some? then kf.value else [];
      if !AllHaveText(raw) then Parsed([], [], false)
      else
        var findings := FindingsFrom(raw, sectionId);
        match kt
        case None => Parsed(findings, [], false)
        case Some(TermsObject(pairs)) => Parsed(findings, pairs, false)
        case Some(TermsNotObject(accepted)) => Parsed(findings, accepted, true)
  }

  /**
   * Every kept finding carries the section's id and its own text and
   * sources; a malformed reply, or one finding without text, loses all
   * findings and all terms; a well-formed reply keeps every finding and
   * its terms, and a `key_terms` value that is not an object makes the rest
   * of `update` raise after merging the pairs accepted from it.
   */
  lemma ParseExtractionSpec(e: Extraction, sectionId: int)
    ensures var p := ParseExtraction(e, sectionId);
      && (forall i :: 0 <= i < |p.findings| ==> p.findings[i].sectionId == sectionId)
      && (e.Malformed? ==> p == Parsed([], [], false))
      && (e.Extracted? && e.keyFindings.Some? && !AllHaveText(e.keyFindings.value) ==> p == Parsed([], [], false))
      && (e.Extracted? && (e.keyFindings.None? || AllHaveText(e.keyFindings.value)) ==>
            (&& |p.findings| == (if e.keyFindings.Some? then |e.keyFindings.value| else 0)
             && (forall i :: 0 <= i < |p.findings| ==>
                   (p.findings[i].text == e.keyFindings.value[i].text.value
                    && (e.keyFindings.value[i].sourceIds.Some? ==> p.findings[i].sourceIds == e.keyFindings.value[i].sourceIds.value)
                    && (e.keyFindings.value[i].sourceIds.None? ==> p.findings[i].sourceIds == [])))
             && (e.keyTerms.None? ==> p.terms == [] && !p.termsRaise)
             && (e.keyTerms.Some? && e.keyTerms.value.TermsObject? ==> p.terms == e.keyTerms.value.pairs && !p.termsRaise)
             && (e.keyTerms.Some? && e.keyTerms.value.TermsNotObject? ==> p.terms == e.keyTerms.value.accepted && p.termsRaise)))
  {
  }

  /** The fallback text for an empty summary reply. */
  const SummaryFailed: string := "Summary generation failed."

  /** The SectionSummary `update` builds. */
  function LedgerSummary(section: Section, summaryText: string, parsed: Parsed): SectionSummary
  {
    SectionSummary(section.sectionId, section.title,
                   if summaryText != "" then summaryText else SummaryFailed,
                   parsed.findings, Keys(parsed.terms))
  }

  /**
   * The summary names the section, keeps a non-empty reply as its text and
   * otherwise says the generation failed, so its text is never empty; its
   * key terms are the parsed term names, in order.
   */
  lemma LedgerSummarySpec(section: Section, summaryText: string, parsed: Parsed)
    ensures var s := LedgerSummary(section, summaryText, parsed);
      && s.sectionId == section.sectionId && s.sectionTitle == section.title
      && (summaryText != "" ==> s.summary == summaryText)
      && (summaryText == "" ==> s.summary == SummaryFailed)
      && s.summary != ""
      && s.keyFindings == parsed.findings
      && |s.keyTerms| == |parsed.terms|
      && (forall i :: 0 <= i < |parsed.terms| ==> s.keyTerms[i] == parsed.terms[i].0)
  {
  }

  /** The summary request. */
  function SummaryRequest(section: Section): Request
  {
    Request(SummaryPrompt(section.title, section.content), 500)
  }

  /** The extraction request. */
  function ExtractionRequest(section: Section): Request
  {
    Request(ExtractionPrompt(section.content), 1000)
  }

  /**
   * The parsed findings and terms for a section, given the client and the
   * reply decoder: `json.loads(self._clean_json(reply))`, which
   * `CleaningDecoder` builds from the JSON decoding alone.
   */
  function ParsedFor(section: Section, client: LlmClient, decode: string -> Extraction): Parsed
  {
    ParseExtraction(decode(CallLlm(client, ExtractionRequest(section))), section.sectionId)
  }

  /** `_clean_json` (the same clean-up as `ClaimExtractor.StripFences`), then the JSON decoding `loads`. */
  function CleaningDecoder(loads: string -> Extraction): string -> Extraction
  {
    reply => loads(ClaimExtractor.StripFences(reply))
  }

  /** A reply fenced as a JSON code block is decoded as its payload. */
  lemma FencedReplyParsed(section: Section, client: LlmClient, loads: string -> Extraction, payload: string)
    requires payload != [] && !IsSpace(payload[0]) && !IsSpace(payload[|payload| - 1])
    requires CallLlm(client, ExtractionRequest(section)) == ClaimExtractor.Fenced(payload)
    ensures ParsedFor(section, client, CleaningDecoder(loads)) == ParseExtraction(loads(payload), section.sectionId)
  {
    ClaimExtractor.StripFencesOfFenced(payload);
  }

  /** Without a client interface both replies are empty: the summary says generation failed. */
  lemma NoInterfaceSummary(section: Section, decode: string -> Extraction)
    ensures LedgerSummary(section, CallLlm(NoInterface, SummaryRequest(section)),
                          ParsedFor(section, NoInterface, decode)).summary == SummaryFailed
  {
  }

  /**
   * Merging terms with distinct names: each parsed name gets its parsed
   * definition, every other name keeps its definition.
   */
  lemma MergeTermsSpec(glossary: seq<(string, string)>, terms: seq<(string, string)>, name: string)
    requires DistinctKeys(terms)
    ensures Get(UpdateAll(glossary, terms), name) == if name in Keys(terms) then Get(terms, name) else Get(glossary, name)
    ensures terms == [] ==> UpdateAll(glossary, terms) == glossary
  {
    GetUpdateAll(glossary, terms, name);
  }

  /** One more assignment extends the merge by one pair. */
  lemma UpdateAllSnoc(glossary: seq<(string, string)>, terms: seq<(string, string)>, i: nat)
    requires i < |terms|
    ensures UpdateAll(glossary, terms[..i + 1]) == Put(UpdateAll(glossary, terms[..i]), terms[i].0, terms[i].1)
  {
    assert terms[..i + 1][..i] == terms[..i];
  }

  /** `dict.update`: the glossary with the terms assigned one at a time. */
  method MergeTerms(glossary: seq<(string, string)>, terms: seq<(string, string)>) returns (merged: seq<(string, string)>)
    ensures merged == UpdateAll(glossary, terms)
  {
    merged := glossary;
    for i := 0 to |terms|
      invariant merged == UpdateAll(glossary, terms[..i])
    {
      UpdateAllSnoc(glossary, terms, i);
      merged := Put(merged, terms[i].0, terms[i].1);
    }
    assert terms[..|terms|] == terms;
  }

  /** Merging into a dict keeps its keys distinct. */
  lemma {:induction false} UpdateAllDistinct(glossary: seq<(string, string)>, terms: seq<(string, string)>)
    requires DistinctKeys(glossary)
    ensures DistinctKeys(UpdateAll(glossary, terms))
    decreases |terms|
  {
    if terms != [] {
      var n := |terms| - 1;
      UpdateAllDistinct(glossary, terms[..n]);
      PutDistinct(UpdateAll(glossary, terms[..n]), terms[n].0, terms[n].1);
    }
  }

  /**
   * `update`: the parsed terms merged (only when there are some); then, when
   * `key_terms` was not an object, the call raises with nothing appended
   * (`None`), else one summary is appended and returned; nothing else changes.
   * `parsed` names what the `try` block kept, to state the rest by.
   */
  method Update(section: Section, gs: GlobalStates.GlobalState, client: LlmClient, decode: string -> Extraction)
    returns (summary: Option<SectionSummary>, ghost parsed: Parsed)
    requires gs.Valid()
    modifies gs
    ensures parsed == ParsedFor(section, client, decode)
    ensures gs.Valid()
    ensures summary.None? <==> parsed.termsRaise
    ensures summary.Some? ==> summary.value == LedgerSummary(section, CallLlm(client, SummaryRequest(section)), parsed)
    ensures summary.Some? ==> gs.sectionSummaries == old(gs.sectionSummaries) + [summary.value]
    ensures summary.None? ==> gs.sectionSummaries == old(gs.sectionSummaries)
    ensures gs.keyTerms == UpdateAll(old(gs.keyTerms), parsed.terms)
    ensures gs.thesis == old(gs.thesis) && gs.decisionsMade == old(gs.decisionsMade)
    ensures gs.currentSectionId == old(gs.currentSectionId) && gs.retryCounts == old(gs.retryCounts)
    ensures gs.totalTokensUsed == old(gs.totalTokensUsed) && gs.costUsd == old(gs.costUsd)
  {
    var summaryText := CallLlm(client, SummaryRequest(section));
    var p := ParsedFor(section, client, decode);
    parsed := p;
    summary := FinishUpdate(section, gs, summaryText, p);
  }

  /**
   * The code after the `try` block: the merge, then the summary, which is
   * built and appended only when `new_terms` is a dict.
   */
  method FinishUpdate(section: Section, gs: GlobalStates.GlobalState, summaryText: string, parsed: Parsed)
    returns (summary: Option<SectionSummary>)
    requires gs.Valid()
    modifies gs
    ensures gs.Valid()
    ensures summary.None? <==> parsed.termsRaise
    ensures summary.Some? ==> summary.value == LedgerSummary(section, summaryText, parsed)
    ensures summary.Some? ==> gs.sectionSummaries == old(gs.sectionSummaries) + [summary.value]
    ensures summary.None? ==> gs.sectionSummaries == old(gs.sectionSummaries)
    ensures gs.keyTerms == UpdateAll(old(gs.keyTerms), parsed.terms)
    ensures gs.thesis == old(gs.thesis) && gs.decisionsMade == old(gs.decisionsMade)
    ensures gs.currentSectionId == old(gs.currentSectionId) && gs.retryCounts == old(gs.retryCounts)
    ensures gs.totalTokensUsed == old(gs.totalTokensUsed) && gs.costUsd == old(gs.costUsd)
  {
    MergeInto(gs, parsed.terms);
    if parsed.termsRaise {
      return None;
    }
    var built := LedgerSummary(section, summaryText, parsed);
    gs.sectionSummaries := gs.sectionSummaries + [built];
    summary := Some(built);
  }

  /** `if new_terms: global_state.key_terms.update(new_terms)`: the glossary alone changes, and stays a dict. */
  method MergeInto(gs: GlobalStates.GlobalState, terms: seq<(string, string)>)
    requires gs.Valid()
    modifies gs
    ensures gs.Valid()
    ensures gs.keyTerms == UpdateAll(old(gs.keyTerms), terms)
    ensures gs.sectionSummaries == old(gs.sectionSummaries)
    ensures gs.thesis == old(gs.thesis) && gs.decisionsMade == old(gs.decisionsMade)
    ensures gs.currentSectionId == old(gs.currentSectionId) && gs.retryCounts == old(gs.retryCounts)
    ensures gs.totalTokensUsed == old(gs.totalTokensUsed) && gs.costUsd == old(gs.costUsd)
  {
    if terms != [] {
      var merged := MergeTerms(gs.keyTerms, terms);
      UpdateAllDistinct(gs.keyTerms, terms);
      gs.keyTerms := merged;
    }
  }
}

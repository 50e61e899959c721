/**
 * The records the pipeline passes around: search results and their citation
 * references, research questions, claims, drafted sections and their citations,
 * section summaries and findings, and validation issues and results.
 */
module Models {
  import opened Wrappers
  import opened OrderedMaps

  // ---------------------------------------------------------------- metadata dictionaries

  /** A value stored in a metadata dictionary: a string, a list of strings, or `None`. */
  datatype MetaValue = MText(text: string) | MList(items: seq<string>) | MNull

  /** Python truthiness of a metadata value. */
  predicate Truthy(v: MetaValue)
  {
    match v
    case MText(t) => t != ""
    case MList(items) => items != []
    case MNull => false
  }

  /** A metadata dictionary, in insertion order. */
  type Metadata = seq<(string, MetaValue)>

  /** `metadata.get(key)`, with `None` for a missing key. */
  function MetaGet(m: Metadata, key: string): MetaValue
  {
    match Get(m, key)
    case Some(v) => v
    case None => MNull
  }

  // ---------------------------------------------------------------- research records

  datatype CitationReference = CitationReference(identifier: string, identifierType: string)

  datatype SearchResult = SearchResult(
    sourceId: string,
    title: string,
    content: string,
    authors: Option<seq<string>>,
    year: Option<int>,
    url: Option<string>,
    citations: seq<CitationReference>,
    metadata: Metadata)

  /** Python truthiness of the optional fields of a SearchResult. */
  predicate AuthorsTruthy(a: Option<seq<string>>) { a.Some? && a.value != [] }
  predicate YearTruthy(y: Option<int>) { y.Some? && y.value != 0 }
  predicate TextTruthy(u: Option<string>) { u.Some? && u.value != "" }

  /** A research question; its target sections come from a Python set, so their order is not kept. */
  datatype Question = Question(questionId: string, text: string, targetSections: set<int>)

  /** A research plan: the topic, its questions, and when it was completed (an ISO timestamp). */
  datatype ResearchPlan = ResearchPlan(topic: string, questions: seq<Question>, totalSources: int, completedAt: string)

  // ---------------------------------------------------------------- paper records

  datatype EvidenceType = EmpiricalFinding | StatisticalResult | TheoreticalClaim | Methodological | Background

  /** `EvidenceType(value)`: the enum member whose value is `value`, if any. */
  function EvidenceTypeFromValue(value: string): Option<EvidenceType>
  {
    if value == "empirical_finding" then Some(EmpiricalFinding)
    else if value == "statistical_result" then Some(StatisticalResult)
    else if value == "theoretical_claim" then Some(TheoreticalClaim)
    else if value == "methodological" then Some(Methodological)
    else if value == "background" then Some(Background)
    else None
  }

  /** The value of an `EvidenceType` member. */
  function EvidenceTypeValue(e: EvidenceType): string
  {
    match e
    case EmpiricalFinding => "empirical_finding"
    case StatisticalResult => "statistical_result"
    case TheoreticalClaim => "theoretical_claim"
    case Methodological => "methodological"
    case Background => "background"
  }

  /** Looking a member up by its value gives it back, and only a member's value finds a member. */
  lemma EvidenceTypeRoundTrip(e: EvidenceType, v: string)
    ensures EvidenceTypeFromValue(EvidenceTypeValue(e)) == Some(e)
    ensures EvidenceTypeFromValue(v) == Some(e) ==> v == EvidenceTypeValue(e)
  {
    assert "empirical_finding"[0] == 'e' && "statistical_result"[0] == 's' && "theoretical_claim"[0] == 't';
    assert "methodological"[0] == 'm' && "background"[0] == 'b';
  }

  datatype Claim = Claim(
    claimId: string,
    sourceId: string,
    statement: string,
    context: Option<string>,
    evidenceType: EvidenceType,
    tags: seq<string>,
    pageNumber: Option<int>,
    sectionInSource: Option<string>,
    confidence: real)

  datatype SectionStatus = Draft | Validated | Approved | Failed

  datatype Citation = Citation(claimId: string, quotedText: string, locationInSection: int)

  datatype Section = Section(
    sectionId: int,
    title: string,
    content: string,
    citations: seq<Citation>,
    wordCount: int,
    status: SectionStatus)

  datatype Finding = Finding(text: string, sourceIds: seq<string>, sectionId: int)

  datatype SectionSummary = SectionSummary(
    sectionId: int,
    sectionTitle: string,
    summary: string,
    keyFindings: seq<Finding>,
    keyTerms: seq<string>)

  // ---------------------------------------------------------------- validation records

  datatype IssueType =
    | CitationMissing
    | CitationInvalid
    | CitationQuoteMismatch
    | WordCountIssue
    | QuestionNotAnswered
    | StyleMismatch
    | TerminologyInconsistent

  datatype Severity = Critical | Warning | Info

  datatype ValidationIssue = ValidationIssue(
    issueType: IssueType,
    severity: Severity,
    message: string,
    suggestion: Option<string>,
    location: Option<string>)

  datatype ValidationResult = ValidationResult(
    sectionId: int,
    passed: bool,
    issues: seq<ValidationIssue>,
    attempt: int)

  /** `any(i.severity == Severity.CRITICAL for i in issues)`. */
  predicate HasCritical(issues: seq<ValidationIssue>)
  {
    exists i :: 0 <= i < |issues| && issues[i].severity == Critical
  }
}

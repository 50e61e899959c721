/**
 * The content/style validator of the newer pipeline, from the LLM's reply on:
 * the reply is cleaned of code fences, decoded, and its question-coverage and
 * style entries become validation issues. The LLM call and `json.loads` are
 * inputs: the reply (absent when the call raised) and a decoder.
 */
module ContentCheck {
  import opened Wrappers
  import opened Text
  import opened Models
  import opened Seqs
  import ClaimExtractor

  /** One entry of `question_coverage`; `None` is a missing key. */
  datatype CoverageEntry = CoverageEntry(question: Option<string>, addressed: Option<string>)

  /** One entry of `style_issues`; `None` is a missing key. */
  datatype StyleEntry = StyleEntry(
    issueType: Option<string>,
    severity: Option<string>,
    message: Option<string>,
    suggestion: Option<string>)

  /**
   * The `style_issues` value as the style loop walks it: the object entries
   * before the first entry that is not an object, and whether the walk then
   * raises (at that entry, or at once when the value is not iterable) or ends.
   * A missing key is the empty list.
   */
  datatype StyleList = StyleList(entries: seq<StyleEntry>, raises: bool)

  /** The decoded object; a missing coverage key is an empty list. */
  datatype Evaluation = Evaluation(questionCoverage: seq<CoverageEntry>, styleIssues: StyleList)

  /**
   * What decoding the cleaned reply gives: not JSON at all, JSON on which the
   * walk fails before any issue is recorded (a top level that is not an
   * object, a coverage value or entry of the wrong shape), or the evaluation.
   */
  datatype Decoded = NotJson | Malformed | Parsed(evaluation: Evaluation)

  /** `d.get(key, default)` for a string-valued key. */
  function GetOr(o: Option<string>, default: string): string
  {
    if o.Some? then o.value else default
  }

  // ---------------------------------------------------------------- fixed issues

  const QuestionsMissedPrefix := "The following questions were not fully addressed: "
  const AnswerAllSuggestion := "Review the section and ensure all assigned questions are thoroughly answered."
  const DecodeErrorMessage :=
    "LLM failed to return a valid JSON response for content validation. Cannot assess style and question coverage."
  const DecodeErrorSuggestion := "Check LLM output and prompt for formatting issues."
  const UnexpectedErrorMessage := "An unexpected error occurred during LLM content validation."
  const UnexpectedErrorSuggestion := "Review validation module and LLM client for issues."

  function QuestionIssue(missing: seq<string>): ValidationIssue
  {
    ValidationIssue(
      QuestionNotAnswered, Critical,
      QuestionsMissedPrefix + Join("; ", missing),
      Some(AnswerAllSuggestion),
      Some(""))
  }

  function DecodeErrorIssue(): ValidationIssue
  {
    ValidationIssue(
      StyleMismatch, Critical,
      DecodeErrorMessage,
      Some(DecodeErrorSuggestion),
      Some(""))
  }

  function UnexpectedErrorIssue(): ValidationIssue
  {
    ValidationIssue(
      StyleMismatch, Critical,
      UnexpectedErrorMessage,
      Some(UnexpectedErrorSuggestion),
      Some(""))
  }

  // ---------------------------------------------------------------- question coverage

  /** An entry whose `addressed` is one of the two not-fully-addressed verdicts. */
  predicate Missed(e: CoverageEntry)
  {
    e.addressed == Some("PARTIALLY_ADDRESSED") || e.addressed == Some("NOT_ADDRESSED")
  }

  predicate AnyMissed(cov: seq<CoverageEntry>)
  {
    exists k :: 0 <= k < |cov| && Missed(cov[k])
  }

  /**
   * The questions of the missed entries, in order; `None` when a missed entry
   * has no `question` key, where `qc_result["question"]` raises.
   */
  function MissedQuestions(cov: seq<CoverageEntry>): (r: Option<seq<string>>)
    ensures r.Some? ==> |r.value| <= |cov|
  {
    if cov == [] then Some([])
    else
      var last := cov[|cov| - 1];
      match MissedQuestions(cov[..|cov| - 1])
      case None => None
      case Some(qs) =>
        if !Missed(last) then Some(qs)
        else if last.question.None? then None
        else Some(qs + [last.question.value])
  }

  /** The question a coverage entry contributes to the missed list, if it is missed and has one. */
  function MissedQuestionOf(e: CoverageEntry): Option<string>
  {
    if Missed(e) && e.question.Some? then Some(e.question.value) else None
  }

  /**
   * Without a raise, the missed list is the questions of the missed entries in
   * entry order, empty iff no entry is missed; the walk raises iff some missed
   * entry has no question.
   */
  lemma {:induction false} MissedQuestionsSpec(cov: seq<CoverageEntry>)
    ensures MissedQuestions(cov).Some? ==> MissedQuestions(cov).value == FilterMap(cov, MissedQuestionOf)
    ensures MissedQuestions(cov).Some? ==>
      (MissedQuestions(cov).value == [] <==> forall k :: 0 <= k < |cov| ==> !Missed(cov[k]))
    ensures MissedQuestions(cov).Some? ==>
      forall k :: 0 <= k < |cov| && Missed(cov[k]) ==>
        cov[k].question.Some? && cov[k].question.value in MissedQuestions(cov).value
    ensures MissedQuestions(cov).None? <==>
      exists k :: 0 <= k < |cov| && Missed(cov[k]) && cov[k].question.None?
  {
    if cov != [] {
      var init := cov[..|cov| - 1];
      MissedQuestionsSpec(init);
      assert forall k :: 0 <= k < |init| ==> init[k] == cov[k];
    }
  }

  // ---------------------------------------------------------------- style entries

  /** The lower-case value of each issue type, as the enum defines it. */
  function IssueTypeValue(t: IssueType): string
  {
    match t
    case CitationMissing => "citation_missing"
    case CitationInvalid => "citation_invalid"
    case CitationQuoteMismatch => "citation_quote_mismatch"
    case WordCountIssue => "word_count"
    case QuestionNotAnswered => "question_not_answered"
    case StyleMismatch => "style_mismatch"
    case TerminologyInconsistent => "terminology_inconsistent"
  }

  /** The upper-case member name of each issue type, the spelling the prompt asks the LLM for. */
  function IssueTypeName(t: IssueType): string
  {
    match t
    case CitationMissing => "CITATION_MISSING"
    case CitationInvalid => "CITATION_INVALID"
    case CitationQuoteMismatch => "CITATION_QUOTE_MISMATCH"
    case WordCountIssue => "WORD_COUNT"
    case QuestionNotAnswered => "QUESTION_NOT_ANSWERED"
    case StyleMismatch => "STYLE_MISMATCH"
    case TerminologyInconsistent => "TERMINOLOGY_INCONSISTENT"
  }

  function SeverityValue(s: Severity): string
  {
    match s
    case Critical => "critical"
    case Warning => "warning"
    case Info => "info"
  }

  function SeverityName(s: Severity): string
  {
    match s
    case Critical => "CRITICAL"
    case Warning => "WARNING"
    case Info => "INFO"
  }

  const IssueTypes: seq<IssueType> :=
    [CitationMissing, CitationInvalid, CitationQuoteMismatch, WordCountIssue,
     QuestionNotAnswered, StyleMismatch, TerminologyInconsistent]

  const Severities: seq<Severity> := [Critical, Warning, Info]

  /** The first member of `table`, from index `k` on, that `spell` writes as `text`. */
  function Find<T>(table: seq<T>, spell: T -> string, text: string, k: nat): (r: Option<T>)
    ensures r.Some? ==> r.value in table && spell(r.value) == text
    decreases |table| - k
  {
    if k >= |table| then None
    else if spell(table[k]) == text then Some(table[k])
    else Find(table, spell, text, k + 1)
  }

  /** A search finds every member whose spelling no other member shares, and nothing when no member is spelt so. */
  lemma {:induction false} FindSpec<T>(table: seq<T>, spell: T -> string, text: string, k: nat)
    ensures (forall j :: k <= j < |table| ==> spell(table[j]) != text) ==> Find(table, spell, text, k) == None
    ensures forall j :: (k <= j < |table| && spell(table[j]) == text
      && (forall i :: k <= i < |table| && spell(table[i]) == text ==> table[i] == table[j])) ==>
      Find(table, spell, text, k) == Some(table[j])
    decreases |table| - k
  {
    if k < |table| {
      FindSpec(table, spell, text, k + 1);
    }
  }

  /** `IssueType(value)`: lookup by the enum's value. */
  function IssueTypeFromValue(text: string): Option<IssueType>
  {
    Find(IssueTypes, IssueTypeValue, text, 0)
  }

  /** `IssueType[name]`: lookup by the member name. */
  function IssueTypeFromName(text: string): Option<IssueType>
  {
    Find(IssueTypes, IssueTypeName, text, 0)
  }

  /** `Severity(value)`. */
  function SeverityFromValue(text: string): Option<Severity>
  {
    Find(Severities, SeverityValue, text, 0)
  }

  /** `Severity[name]`. */
  function SeverityFromName(text: string): Option<Severity>
  {
    Find(Severities, SeverityName, text, 0)
  }

  /** The position of each issue type in the table. */
  function IssueTypeIndex(t: IssueType): (k: nat)
    ensures k < |IssueTypes| && IssueTypes[k] == t
  {
    match t
    case CitationMissing => 0
    case CitationInvalid => 1
    case CitationQuoteMismatch => 2
    case WordCountIssue => 3
    case QuestionNotAnswered => 4
    case StyleMismatch => 5
    case TerminologyInconsistent => 6
  }

  /** The position of each severity in the table. */
  function SeverityIndex(s: Severity): (k: nat)
    ensures k < |Severities| && Severities[k] == s
  {
    match s
    case Critical => 0
    case Warning => 1
    case Info => 2
  }

  lemma IssueTypeValueInjective(a: IssueType, b: IssueType)
    ensures IssueTypeValue(a) == IssueTypeValue(b) ==> a == b
  {
  }

  lemma IssueTypeNameInjective(a: IssueType, b: IssueType)
    ensures IssueTypeName(a) == IssueTypeName(b) ==> a == b
  {
  }

  /** `IssueType(value)` finds each issue type by its value. */
  lemma IssueTypeValueLookup(t: IssueType)
    ensures IssueTypeFromValue(IssueTypeValue(t)) == Some(t)
  {
    forall a, b | IssueTypeValue(a) == IssueTypeValue(b) ensures a == b {
      IssueTypeValueInjective(a, b);
    }
    FindSpec(IssueTypes, IssueTypeValue, IssueTypeValue(t), 0);
    assert IssueTypes[IssueTypeIndex(t)] == t;
  }

  /** `IssueType[name]` finds each issue type by its name. */
  lemma IssueTypeNameLookup(t: IssueType)
    ensures IssueTypeFromName(IssueTypeName(t)) == Some(t)
  {
    forall a, b | IssueTypeName(a) == IssueTypeName(b) ensures a == b {
      IssueTypeNameInjective(a, b);
    }
    FindSpec(IssueTypes, IssueTypeName, IssueTypeName(t), 0);
    assert IssueTypes[IssueTypeIndex(t)] == t;
  }

  lemma SeverityValueInjective(a: Severity, b: Severity)
    ensures SeverityValue(a) == SeverityValue(b) ==> a == b
  {
  }

  lemma SeverityNameInjective(a: Severity, b: Severity)
    ensures SeverityName(a) == SeverityName(b) ==> a == b
  {
  }

  /** `Severity(value)` finds each severity by its value. */
  lemma SeverityValueLookup(s: Severity)
    ensures SeverityFromValue(SeverityValue(s)) == Some(s)
  {
    forall a, b | SeverityValue(a) == SeverityValue(b) ensures a == b {
      SeverityValueInjective(a, b);
    }
    FindSpec(Severities, SeverityValue, SeverityValue(s), 0);
    assert Severities[SeverityIndex(s)] == s;
  }

  /** `Severity[name]` finds each severity by its name. */
  lemma SeverityNameLookup(s: Severity)
    ensures SeverityFromName(SeverityName(s)) == Some(s)
  {
    forall a, b | SeverityName(a) == SeverityName(b) ensures a == b {
      SeverityNameInjective(a, b);
    }
    FindSpec(Severities, SeverityName, SeverityName(s), 0);
    assert Severities[SeverityIndex(s)] == s;
  }

  /** No text starting with a capital letter is an issue-type or severity value. */
  lemma CapitalIsNoValue(text: string)
    requires |text| > 0 && IsUpper(text[0])
    ensures IssueTypeFromValue(text) == None
    ensures SeverityFromValue(text) == None
  {
    forall t: IssueType ensures IssueTypeValue(t) != text {
      assert !IsUpper(IssueTypeValue(t)[0]);
    }
    forall s: Severity ensures SeverityValue(s) != text {
      assert !IsUpper(SeverityValue(s)[0]);
    }
    FindSpec(IssueTypes, IssueTypeValue, text, 0);
    FindSpec(Severities, SeverityValue, text, 0);
  }

  /** Names are upper-case. */
  lemma NamesAreCapital(t: IssueType, s: Severity)
    ensures |IssueTypeName(t)| > 0 && IsUpper(IssueTypeName(t)[0])
    ensures |SeverityName(s)| > 0 && IsUpper(SeverityName(s)[0])
  {
  }

  /** The generic issue an entry with an unknown type or severity becomes. */
  function GenericStyleIssue(e: StyleEntry): ValidationIssue
  {
    ValidationIssue(
      StyleMismatch, Warning,
      "Generic style issue: " + GetOr(e.message, "Unparseable LLM style issue."),
      e.suggestion, Some(""))
  }

  /**
   * The style-entry mapping as written: `IssueType(...)` and `Severity(...)`
   * look up enum VALUES, so the upper-case names the prompt asks for, and the
   * code's own default "STYLE_MISMATCH", are never found.
   */
  function StyleIssueAsWritten(e: StyleEntry): ValidationIssue
  {
    var t := IssueTypeFromValue(GetOr(e.issueType, "STYLE_MISMATCH"));
    var s := SeverityFromValue(GetOr(e.severity, "WARNING"));
    if t.Some? && s.Some? then
      ValidationIssue(t.value, s.value, GetOr(e.message, "Style issue detected."), e.suggestion, Some(""))
    else GenericStyleIssue(e)
  }

  /**
   * As written, an entry in the requested upper-case format, or one with no
   * type or severity at all, is always demoted to a generic STYLE_MISMATCH
   * WARNING, so the LLM can never report a CRITICAL style problem.
   */
  lemma AsWrittenNamesFallBack(t: Option<IssueType>, s: Option<Severity>, message: Option<string>, suggestion: Option<string>)
    ensures var e := StyleEntry(
        if t.Some? then Some(IssueTypeName(t.value)) else None,
        if s.Some? then Some(SeverityName(s.value)) else None,
        message, suggestion);
      StyleIssueAsWritten(e) == GenericStyleIssue(e)
  {
    if t.Some? {
      NamesAreCapital(t.value, Warning);
      CapitalIsNoValue(IssueTypeName(t.value));
    } else {
      CapitalIsNoValue("STYLE_MISMATCH");
    }
  }

  /** Corrected lookup: by value, as written, and otherwise by member name. */
  function IssueTypeLookup(text: string): Option<IssueType>
  {
    if IssueTypeFromValue(text).Some? then IssueTypeFromValue(text) else IssueTypeFromName(text)
  }

  /** Corrected lookup: by value, as written, and otherwise by member name. */
  function SeverityLookup(text: string): Option<Severity>
  {
    if SeverityFromValue(text).Some? then SeverityFromValue(text) else SeverityFromName(text)
  }

  /** The mapping with the lookups accepting both the values and the names. */
  function StyleIssue(e: StyleEntry): ValidationIssue
  {
    var t := IssueTypeLookup(GetOr(e.issueType, "STYLE_MISMATCH"));
    var s := SeverityLookup(GetOr(e.severity, "WARNING"));
    if t.Some? && s.Some? then
      ValidationIssue(t.value, s.value, GetOr(e.message, "Style issue detected."), e.suggestion, Some(""))
    else GenericStyleIssue(e)
  }

  /**
   * Corrected, an entry naming its type and severity in the requested format
   * keeps them and its message; an entry with neither is a STYLE_MISMATCH WARNING.
   */
  lemma StyleIssueKeepsNames(t: IssueType, s: Severity, message: string, suggestion: Option<string>)
    ensures StyleIssue(StyleEntry(Some(IssueTypeName(t)), Some(SeverityName(s)), Some(message), suggestion))
      == ValidationIssue(t, s, message, suggestion, Some(""))
    ensures StyleIssue(StyleEntry(Some(IssueTypeValue(t)), Some(SeverityValue(s)), Some(message), suggestion))
      == ValidationIssue(t, s, message, suggestion, Some(""))
    ensures StyleIssue(StyleEntry(None, None, Some(message), suggestion))
      == ValidationIssue(StyleMismatch, Warning, message, suggestion, Some(""))
  {
    IssueTypeValueLookup(t);
    IssueTypeNameLookup(t);
    SeverityValueLookup(s);
    SeverityNameLookup(s);
    NamesAreCapital(t, s);
    CapitalIsNoValue(IssueTypeName(t));
    CapitalIsNoValue(SeverityName(s));
    IssueTypeNameLookup(StyleMismatch);
    SeverityNameLookup(Warning);
    NamesAreCapital(StyleMismatch, Warning);
    CapitalIsNoValue(IssueTypeName(StyleMismatch));
    CapitalIsNoValue(SeverityName(Warning));
  }

  // ---------------------------------------------------------------- the whole mapping

  /** One issue per style entry, in entry order. */
  function StyleIssues(es: seq<StyleEntry>): seq<ValidationIssue>
  {
    Map(es, StyleIssue)
  }

  /** The question issue, present iff some question was missed. */
  function QuestionPart(missing: seq<string>): seq<ValidationIssue>
  {
    if missing == [] then [] else [QuestionIssue(missing)]
  }

  /**
   * The issues `validate` returns for `reply` (absent when the LLM call
   * raised), with `decode` standing for `json.loads` of the cleaned reply.
   */
  function ContentIssues(reply: Option<string>, decode: string -> Decoded): seq<ValidationIssue>
  {
    if reply.None? then [UnexpectedErrorIssue()]
    else
      match decode(ClaimExtractor.StripFences(reply.value))
      case NotJson => [DecodeErrorIssue()]
      case Malformed => [UnexpectedErrorIssue()]
      case Parsed(ev) => ParsedIssues(ev)
  }

  /** The issues of the style loop: one per object entry, then the unexpected-error issue if the walk raises. */
  function StylePart(sl: StyleList): seq<ValidationIssue>
  {
    StyleIssues(sl.entries) + if sl.raises then [UnexpectedErrorIssue()] else []
  }

  /** The issues of a decoded evaluation. */
  function ParsedIssues(ev: Evaluation): seq<ValidationIssue>
  {
    match MissedQuestions(ev.questionCoverage)
    case None => [UnexpectedErrorIssue()]
    case Some(missing) =>
      QuestionPart(missing) + StylePart(ev.styleIssues)
  }

  /**
   * A failure of the call, of decoding, or of the walk before any issue is
   * recorded, gives exactly one STYLE_MISMATCH CRITICAL issue.
   */
  lemma FailureGivesOneCritical(reply: Option<string>, decode: string -> Decoded)
    requires reply.None? || !decode(ClaimExtractor.StripFences(reply.value)).Parsed?
      || MissedQuestions(decode(ClaimExtractor.StripFences(reply.value)).evaluation.questionCoverage).None?
    ensures |ContentIssues(reply, decode)| == 1
    ensures ContentIssues(reply, decode)[0].issueType == StyleMismatch
    ensures ContentIssues(reply, decode)[0].severity == Critical
  {
  }

  /**
   * On success there is one issue per style entry, in entry order (`Map`'s
   * contract), after a
   * single QUESTION_NOT_ANSWERED CRITICAL issue that is present iff some
   * coverage entry is partially or not addressed.
   */
  lemma SuccessShape(ev: Evaluation)
    requires MissedQuestions(ev.questionCoverage).Some? && !ev.styleIssues.raises
    ensures var issues := ParsedIssues(ev);
      var q := if AnyMissed(ev.questionCoverage) then 1 else 0;
      && |issues| == q + |ev.styleIssues.entries|
      && (q == 1 ==> issues[0].issueType == QuestionNotAnswered && issues[0].severity == Critical)
      && issues[q..] == StyleIssues(ev.styleIssues.entries)
  {
    var missing := MissedQuestions(ev.questionCoverage).value;
    QuestionPartShape(ev.questionCoverage);
    assert StylePart(ev.styleIssues) == StyleIssues(ev.styleIssues.entries);
    ConcatParts(QuestionPart(missing), StyleIssues(ev.styleIssues.entries));
  }

  /**
   * When the style walk raises part-way, the question issue and the style
   * issues recorded so far are kept, and the unexpected-error issue follows them.
   */
  lemma PartialFailureShape(ev: Evaluation)
    requires MissedQuestions(ev.questionCoverage).Some? && ev.styleIssues.raises
    ensures var issues := ParsedIssues(ev);
      var q := if AnyMissed(ev.questionCoverage) then 1 else 0;
      && |issues| == q + |ev.styleIssues.entries| + 1
      && (q == 1 ==> issues[0].issueType == QuestionNotAnswered && issues[0].severity == Critical)
      && issues[q..|issues| - 1] == StyleIssues(ev.styleIssues.entries)
      && issues[|issues| - 1] == UnexpectedErrorIssue()
  {
    var missing := MissedQuestions(ev.questionCoverage).value;
    var head := QuestionPart(missing);
    var style := StyleIssues(ev.styleIssues.entries);
    QuestionPartShape(ev.questionCoverage);
    RaisingParts(ev);
    ConcatThree(head, style, UnexpectedErrorIssue());
    var issues := ParsedIssues(ev);
    assert issues == head + (style + [UnexpectedErrorIssue()]);
    assert |head| == if AnyMissed(ev.questionCoverage) then 1 else 0;
  }

  lemma RaisingParts(ev: Evaluation)
    requires MissedQuestions(ev.questionCoverage).Some? && ev.styleIssues.raises
    ensures ParsedIssues(ev) ==
      QuestionPart(MissedQuestions(ev.questionCoverage).value) + (StyleIssues(ev.styleIssues.entries) + [UnexpectedErrorIssue()])
  {
  }

  /** Splitting `head + (mid + [last])` back into its parts. */
  lemma ConcatThree<T>(head: seq<T>, mid: seq<T>, last: T)
    ensures var all := head + (mid + [last]);
      && |all| == |head| + |mid| + 1
      && all[|head|..|all| - 1] == mid
      && all[|all| - 1] == last
      && (|head| > 0 ==> all[0] == head[0])
  {
    var all := head + (mid + [last]);
    assert all[|head|..|all| - 1] == mid;
  }

  /** The question part is one QUESTION_NOT_ANSWERED CRITICAL issue iff some question was missed. */
  lemma QuestionPartShape(cov: seq<CoverageEntry>)
    requires MissedQuestions(cov).Some?
    ensures var head := QuestionPart(MissedQuestions(cov).value);
      && |head| == (if AnyMissed(cov) then 1 else 0)
      && (AnyMissed(cov) ==> head[0].issueType == QuestionNotAnswered && head[0].severity == Critical)
  {
    MissedQuestionsSpec(cov);
    var missing := MissedQuestions(cov).value;
    if AnyMissed(cov) {
      var k :| 0 <= k < |cov| && Missed(cov[k]);
      assert cov[k].question.value in missing;
      assert QuestionPart(missing) == [QuestionIssue(missing)];
    } else {
      assert missing == [];
    }
  }

  /** Splitting a concatenation back into its parts. */
  lemma ConcatParts<T>(head: seq<T>, tail: seq<T>)
    ensures |head + tail| == |head| + |tail|
    ensures (head + tail)[|head|..] == tail
    ensures |head| > 0 ==> (head + tail)[0] == head[0]
  {
    assert (head + tail)[|head|..] == tail;
  }

  // ---------------------------------------------------------------- the method

  /** The coverage loop: collects the missed questions, or `None` where a missed entry has no question. */
  method CollectMissed(cov: seq<CoverageEntry>) returns (missing: Option<seq<string>>)
    ensures missing == MissedQuestions(cov)
  {
    var qs := [];
    var i := 0;
    while i < |cov|
      invariant 0 <= i <= |cov|
      invariant MissedQuestions(cov[..i]) == Some(qs)
    {
      assert cov[..i + 1][..i] == cov[..i];
      var entry := cov[i];
      if Missed(entry) {
        if entry.question.None? {
          MissedPrefixRaises(cov, i + 1);
          return None;
        }
        qs := qs + [entry.question.value];
      }
      i := i + 1;
    }
    assert cov[..i] == cov;
    missing := Some(qs);
  }

  /** Once a prefix raises, the whole list raises. */
  lemma {:induction false} MissedPrefixRaises(cov: seq<CoverageEntry>, n: nat)
    requires n <= |cov| && MissedQuestions(cov[..n]).None?
    ensures MissedQuestions(cov).None?
    decreases |cov| - n
  {
    if n < |cov| {
      assert cov[..n + 1][..n] == cov[..n];
      MissedPrefixRaises(cov, n + 1);
    } else {
      assert cov[..n] == cov;
    }
  }

  /** `ContentValidator.validate` after the LLM call. */
  method Validate(reply: Option<string>, decode: string -> Decoded) returns (issues: seq<ValidationIssue>)
    ensures issues == ContentIssues(reply, decode)
  {
    if reply.None? {
      return [UnexpectedErrorIssue()];
    }
    var cleaned := ClaimExtractor.StripFences(reply.value);
    var decoded := decode(cleaned);
    if decoded.NotJson? {
      return [DecodeErrorIssue()];
    } else if decoded.Malformed? {
      return [UnexpectedErrorIssue()];
    }
    issues := MapEvaluation(decoded.evaluation);
  }

  /** The body of the `try` once the reply decoded: the coverage loop, then the style loop. */
  method MapEvaluation(ev: Evaluation) returns (issues: seq<ValidationIssue>)
    ensures issues == ParsedIssues(ev)
  {
    var missing := CollectMissed(ev.questionCoverage);
    if missing.None? {
      return [UnexpectedErrorIssue()];
    }
    var head := QuestionPart(missing.value);
    issues := AppendStyleIssues(head, ev.styleIssues);
  }

  /**
   * The style loop: one issue appended per object entry; when the walk
   * raises, the outer handler appends the unexpected-error issue to what the
   * loop appended so far.
   */
  method AppendStyleIssues(head: seq<ValidationIssue>, sl: StyleList) returns (issues: seq<ValidationIssue>)
    ensures issues == head + StylePart(sl)
  {
    issues := AppendEntries(head, sl.entries);
    if sl.raises {
      ghost var style := StyleIssues(sl.entries);
      issues := issues + [UnexpectedErrorIssue()];
      assert issues == head + (style + [UnexpectedErrorIssue()]);
    }
  }

  /** The loop over the object entries: one issue appended per entry. */
  method AppendEntries(head: seq<ValidationIssue>, es: seq<StyleEntry>) returns (issues: seq<ValidationIssue>)
    ensures issues == head + StyleIssues(es)
  {
    issues := head;
    var i := 0;
    while i < |es|
      invariant 0 <= i <= |es|
      invariant issues == head + StyleIssues(es[..i])
    {
      StyleIssuesStep(es, i);
      issues := issues + [StyleIssue(es[i])];
      i := i + 1;
    }
    assert es[..i] == es;
  }

  /** One more entry of the prefix adds its issue at the end. */
  lemma StyleIssuesStep(es: seq<StyleEntry>, i: nat)
    requires i < |es|
    ensures StyleIssues(es[..i + 1]) == StyleIssues(es[..i]) + [StyleIssue(es[i])]
  {
    assert es[..i + 1] == es[..i] + [es[i]];
    MapSnoc(es[..i], es[i], StyleIssue);
  }
}

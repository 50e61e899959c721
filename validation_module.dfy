/**
 * `ValidationModule.validate_section`: the citation gate, then (unless a
 * citation issue is CRITICAL) the LLM content/style evaluation and the word
 * count range; the section passes iff no issue is CRITICAL.
 *
 * The claim store is the `lookup` function, and the content validator's LLM
 * reply and JSON decoder are the `reply` and `decode` inputs of
 * `ContentCheck.ContentIssues`.
 */
module ValidationModule {
  import opened Wrappers
  import opened Text
  import opened Models
  import CitationCheck
  import ContentCheck

  /** The target range, fixed in the code. */
  const MinWords: int := 1000
  const MaxWords: int := 1500

  /** The WORD_COUNT warning for a section of `wc` words. */
  function WordCountWarning(wc: int): ValidationIssue
  {
    ValidationIssue(
      WordCountIssue, Warning,
      "Section word count (" + IntToString(wc) + ") is outside the target range (1000-1500).",
      Some("Adjust section length to be between 1000 and 1500 words."),
      Some(""))
  }

  /** The word-count step: one warning when `wc` lies outside [MinWords, MaxWords]. */
  function WordCountPart(wc: int): seq<ValidationIssue>
  {
    if MinWords <= wc <= MaxWords then [] else [WordCountWarning(wc)]
  }

  /**
   * The result built from the citation issues and the issues the content
   * validator would report: the early exit when a citation issue is
   * CRITICAL, else all issues in order and `passed` iff none is CRITICAL.
   */
  function Outcome(sectionId: int, attempt: int, citationIssues: seq<ValidationIssue>,
                   contentIssues: seq<ValidationIssue>, wc: int): ValidationResult
  {
    if HasCritical(citationIssues) then
      ValidationResult(sectionId, false, citationIssues, attempt)
    else
      var issues := citationIssues + contentIssues + WordCountPart(wc);
      ValidationResult(sectionId, !HasCritical(issues), issues, attempt)
  }

  /** The result `validate_section` returns (its timestamped id left out). */
  function SectionResult(section: Section, attempt: int, lookup: string -> Option<Claim>,
                         reply: Option<string>, decode: string -> ContentCheck.Decoded): ValidationResult
  {
    Outcome(section.sectionId, attempt, CitationCheck.CitationIssues(section.citations, lookup),
            ContentCheck.ContentIssues(reply, decode), section.wordCount)
  }

  /** Every citation issue is CRITICAL, so the early exit is taken iff some citation raised an issue. */
  lemma EarlyExitIffCitationIssue(cs: seq<Citation>, lookup: string -> Option<Claim>)
    ensures HasCritical(CitationCheck.CitationIssues(cs, lookup)) <==>
      exists j :: 0 <= j < |cs| && CitationCheck.CitationIssue(cs[j], lookup).Some?
  {
    var idx := CitationCheck.CitationIssuesOrigin(cs, lookup);
    CitationCheck.CitationIssuesEmpty(cs, lookup);
    if CitationCheck.CitationIssues(cs, lookup) != [] {
      assert CitationCheck.CitationIssues(cs, lookup)[0].severity == Critical;
    }
  }

  /**
   * With a CRITICAL citation issue the section fails with exactly the
   * citation issues, whatever the content validator would have reported: it
   * is never consulted.
   */
  lemma EarlyExit(sectionId: int, attempt: int, citationIssues: seq<ValidationIssue>,
                  contentIssues: seq<ValidationIssue>, contentIssues': seq<ValidationIssue>, wc: int, wc': int)
    requires HasCritical(citationIssues)
    ensures var r := Outcome(sectionId, attempt, citationIssues, contentIssues, wc);
      && !r.passed
      && r.issues == citationIssues
      && r == Outcome(sectionId, attempt, citationIssues, contentIssues', wc')
  {
  }

  /** Without the early exit: citation issues, then content/style issues, then at most one WORD_COUNT warning, in that order. */
  lemma IssueOrder(sectionId: int, attempt: int, citationIssues: seq<ValidationIssue>,
                   contentIssues: seq<ValidationIssue>, wc: int)
    requires !HasCritical(citationIssues)
    ensures var r := Outcome(sectionId, attempt, citationIssues, contentIssues, wc);
      var c := citationIssues;
      var s := contentIssues;
      var outside := !(MinWords <= wc <= MaxWords);
      && |r.issues| == |c| + |s| + (if outside then 1 else 0)
      && r.issues[..|c|] == c
      && r.issues[|c|..|c| + |s|] == s
      && (outside ==> r.issues[|r.issues| - 1].issueType == WordCountIssue
                      && r.issues[|r.issues| - 1].severity == Warning)
  {
    ThreeParts(citationIssues, contentIssues, WordCountPart(wc));
  }

  /** Reading the three parts back out of a concatenation. */
  lemma ThreeParts<T>(a: seq<T>, b: seq<T>, c: seq<T>)
    ensures |a + b + c| == |a| + |b| + |c|
    ensures (a + b + c)[..|a|] == a
    ensures (a + b + c)[|a|..|a| + |b|] == b
    ensures |c| > 0 ==> (a + b + c)[|a + b + c| - 1] == c[|c| - 1]
  {
    assert (a + b + c)[..|a|] == a;
    assert (a + b + c)[|a|..|a| + |b|] == b;
  }

  /** The section passes iff none of its issues is CRITICAL, on both paths. */
  lemma PassedIffNoCritical(sectionId: int, attempt: int, citationIssues: seq<ValidationIssue>,
                            contentIssues: seq<ValidationIssue>, wc: int)
    ensures var r := Outcome(sectionId, attempt, citationIssues, contentIssues, wc);
      r.passed <==> forall i :: 0 <= i < |r.issues| ==> r.issues[i].severity != Critical
  {
  }

  /** The WORD_COUNT warning never fails a section on its own: the verdict is the same for every word count. */
  lemma WordCountNeverFails(sectionId: int, attempt: int, citationIssues: seq<ValidationIssue>,
                            contentIssues: seq<ValidationIssue>, wc: int, wc': int)
    ensures Outcome(sectionId, attempt, citationIssues, contentIssues, wc).passed
      == Outcome(sectionId, attempt, citationIssues, contentIssues, wc').passed
  {
    if !HasCritical(citationIssues) {
      NoCriticalAppended(citationIssues + contentIssues, WordCountPart(wc));
      NoCriticalAppended(citationIssues + contentIssues, WordCountPart(wc'));
    }
  }

  /** Appending issues none of which is CRITICAL leaves the verdict unchanged. */
  lemma NoCriticalAppended(issues: seq<ValidationIssue>, more: seq<ValidationIssue>)
    requires forall i :: 0 <= i < |more| ==> more[i].severity != Critical
    ensures HasCritical(issues + more) == HasCritical(issues)
  {
    forall i | 0 <= i < |issues|
      ensures (issues + more)[i] == issues[i]
    {
    }
    if HasCritical(issues + more) {
      var i :| 0 <= i < |issues + more| && (issues + more)[i].severity == Critical;
      assert i < |issues|;
    }
  }

  /** The result names the validated section and the attempt, on both paths. */
  lemma ResultIdentity(sectionId: int, attempt: int, citationIssues: seq<ValidationIssue>,
                       contentIssues: seq<ValidationIssue>, wc: int)
    ensures Outcome(sectionId, attempt, citationIssues, contentIssues, wc).sectionId == sectionId
    ensures Outcome(sectionId, attempt, citationIssues, contentIssues, wc).attempt == attempt
  {
  }

  // ---------------------------------------------------------------- the method

  /** `any(issue.severity == Severity.CRITICAL for issue in issues)`, scanning until the first CRITICAL issue. */
  method AnyCritical(issues: seq<ValidationIssue>) returns (found: bool)
    ensures found == HasCritical(issues)
  {
    var i := 0;
    while i < |issues|
      invariant 0 <= i <= |issues|
      invariant forall k :: 0 <= k < i ==> issues[k].severity != Critical
    {
      if issues[i].severity == Critical {
        return true;
      }
      i := i + 1;
    }
    return false;
  }

  /** `validate_section`: the citation gate with its early return, then the content validator and the rest. */
  method ValidateSection(section: Section, attempt: int, lookup: string -> Option<Claim>,
                         reply: Option<string>, decode: string -> ContentCheck.Decoded)
    returns (r: ValidationResult)
    ensures r == SectionResult(section, attempt, lookup, reply, decode)
  {
    var citationIssues := CitationCheck.Validate(section, lookup);
    var critical := AnyCritical(citationIssues);
    if critical {
      return ValidationResult(section.sectionId, false, citationIssues, attempt);
    }
    var contentIssues := ContentCheck.Validate(reply, decode);
    r := Complete(section.sectionId, attempt, citationIssues, contentIssues, section.wordCount);
  }

  /** After the citation gate: extends the issue list step by step, then derives `passed`. */
  method Complete(sectionId: int, attempt: int, citationIssues: seq<ValidationIssue>,
                  contentIssues: seq<ValidationIssue>, wc: int) returns (r: ValidationResult)
    requires !HasCritical(citationIssues)
    ensures r == Outcome(sectionId, attempt, citationIssues, contentIssues, wc)
  {
    var issues := citationIssues;
    issues := issues + contentIssues;
    if !(MinWords <= wc <= MaxWords) {
      issues := issues + [WordCountWarning(wc)];
    }
    var failed := AnyCritical(issues);
    r := ValidationResult(sectionId, !failed, issues, attempt);
  }
}

/**
 * The claim/quote gate of the newer pipeline: every parsed citation must name
 * a claim in the claim store, and its quote, once normalised, must occur in
 * the claim's normalised statement. Normalisation lower-cases, deletes
 * everything but letters, digits and whitespace, collapses whitespace runs to
 * one space and trims. The claim store is a lookup function.
 */
module CitationCheck {
  import opened Wrappers
  import opened Text
  import opened Models
  import opened Seqs

  // ---------------------------------------------------------------- normalisation

  /** The characters the class `[^a-z0-9\s]` does not delete. */
  predicate Kept(c: char) { IsLowerLetter(c) || IsDigit(c) || IsSpace(c) }

  /** `re.sub(r"[^a-z0-9\s]", "", s)`: the kept characters of `s`, in order. */
  function DropPunctuation(s: string): (r: string)
    ensures |r| <= |s|
    ensures forall i :: 0 <= i < |r| ==> Kept(r[i])
    decreases |s|
  {
    if s == [] then []
    else (if Kept(s[0]) then [s[0]] else []) + DropPunctuation(s[1..])
  }

  /**
   * `re.sub(r"\s+", " ", s)`: each maximal whitespace run becomes a single
   * space, so the only whitespace left is `' '` and no two of it are adjacent.
   */
  function CollapseSpaces(s: string): (r: string)
    ensures |r| <= |s|
    ensures r == [] <==> s == []
    ensures r != [] ==> (IsSpace(r[0]) <==> IsSpace(s[0]))
    ensures forall i :: 0 <= i < |r| && IsSpace(r[i]) ==> r[i] == ' '
    ensures forall i :: 0 <= i < |r| - 1 ==> !(IsSpace(r[i]) && IsSpace(r[i + 1]))
    ensures (forall i :: 0 <= i < |s| ==> Kept(s[i])) ==> (forall i :: 0 <= i < |r| ==> Kept(r[i]))
    decreases |s|
  {
    if s == [] then []
    else if IsSpace(s[0]) && |s| > 1 && IsSpace(s[1]) then CollapseSpaces(s[1..])
    else if IsSpace(s[0]) then " " + CollapseSpaces(s[1..])
    else [s[0]] + CollapseSpaces(s[1..])
  }

  /** `_normalize_text`. */
  function Normalize(text: string): string
  {
    Strip(CollapseSpaces(DropPunctuation(Lower(text))))
  }

  /** Text `_normalize_text` can return: letters, digits and single inner spaces. */
  predicate IsNormalized(s: string)
  {
    (forall i :: 0 <= i < |s| ==> IsLowerLetter(s[i]) || IsDigit(s[i]) || s[i] == ' ')
    && (forall i :: 0 <= i < |s| - 1 ==> !(s[i] == ' ' && s[i + 1] == ' '))
    && (s == [] || (s[0] != ' ' && s[|s| - 1] != ' '))
  }

  /** A slice of text of kept characters whose whitespace is single spaces. */
  lemma SliceOfCollapsed(c: string, s: string, a: nat)
    requires forall i :: 0 <= i < |c| ==> Kept(c[i])
    requires forall i :: 0 <= i < |c| && IsSpace(c[i]) ==> c[i] == ' '
    requires forall i :: 0 <= i < |c| - 1 ==> !(IsSpace(c[i]) && IsSpace(c[i + 1]))
    requires a + |s| <= |c| && s == c[a..a + |s|]
    ensures forall i :: 0 <= i < |s| ==> IsLowerLetter(s[i]) || IsDigit(s[i]) || s[i] == ' '
    ensures forall i :: 0 <= i < |s| - 1 ==> !(s[i] == ' ' && s[i + 1] == ' ')
  {
    forall i | 0 <= i < |s|
      ensures IsLowerLetter(s[i]) || IsDigit(s[i]) || s[i] == ' '
    {
      assert s[i] == c[a + i];
    }
    forall i | 0 <= i < |s| - 1
      ensures !(s[i] == ' ' && s[i + 1] == ' ')
    {
      assert s[i] == c[a + i] && s[i + 1] == c[a + i + 1];
    }
  }

  /** Trimming text of kept characters whose whitespace is single spaces gives the normal shape. */
  lemma StripOfCollapsed(c: string)
    requires forall i :: 0 <= i < |c| ==> Kept(c[i])
    requires forall i :: 0 <= i < |c| && IsSpace(c[i]) ==> c[i] == ' '
    requires forall i :: 0 <= i < |c| - 1 ==> !(IsSpace(c[i]) && IsSpace(c[i + 1]))
    ensures IsNormalized(Strip(c))
  {
    var a := StripIsSlice(c);
    StripShape(c);
    SliceOfCollapsed(c, Strip(c), a);
  }

  /** Every normalised text has the normal shape. */
  lemma NormalizeShape(text: string)
    ensures IsNormalized(Normalize(text))
  {
    StripOfCollapsed(CollapseSpaces(DropPunctuation(Lower(text))));
  }

  /** Deleting from text that has only kept characters changes nothing. */
  lemma {:induction false} DropPunctuationOfKept(s: string)
    requires forall i :: 0 <= i < |s| ==> Kept(s[i])
    ensures DropPunctuation(s) == s
    decreases |s|
  {
    if s != [] {
      DropPunctuationOfKept(s[1..]);
      assert s == [s[0]] + s[1..];
    }
  }

  /** Collapsing text whose whitespace is already single spaces changes nothing. */
  lemma {:induction false} CollapseSpacesOfSingle(s: string)
    requires forall i :: 0 <= i < |s| && IsSpace(s[i]) ==> s[i] == ' '
    requires forall i :: 0 <= i < |s| - 1 ==> !(IsSpace(s[i]) && IsSpace(s[i + 1]))
    ensures CollapseSpaces(s) == s
    decreases |s|
  {
    if s != [] {
      CollapseSpacesOfSingle(s[1..]);
      assert s == [s[0]] + s[1..];
    }
  }

  /** Normalised text is its own normal form. */
  lemma NormalizeOfNormalized(s: string)
    requires IsNormalized(s)
    ensures Normalize(s) == s
  {
    assert Lower(s) == s;
    DropPunctuationOfKept(s);
    CollapseSpacesOfSingle(s);
    StripUnchanged(s);
  }

  /** Normalising twice gives the same result as normalising once. */
  lemma NormalizeIdempotent(text: string)
    ensures Normalize(Normalize(text)) == Normalize(text)
  {
    NormalizeShape(text);
    NormalizeOfNormalized(Normalize(text));
  }

  // ---------------------------------------------------------------- words are kept

  /** Splitting after a non-space character glued in front of `y`. */
  lemma WordsConsChar(c: char, y: string)
    requires !IsSpace(c)
    ensures y == [] || IsSpace(y[0]) ==> Words([c] + y) == [[c]] + Words(y)
    ensures y != [] && !IsSpace(y[0]) ==> Words([c] + y) == [[c] + Words(y)[0]] + Words(y)[1..]
  {
    var s := [c] + y;
    assert s[1..] == y;
    var n := TokenLength(s);
    if y != [] && !IsSpace(y[0]) {
      var m := TokenLength(y);
      assert s[..n] == [c] + y[..m];
      assert s[n..] == y[m..];
    } else {
      assert s[..n] == [c];
    }
  }

  /** Collapsing whitespace runs keeps the words. */
  lemma {:induction false} CollapseSpacesWords(s: string)
    ensures Words(CollapseSpaces(s)) == Words(s)
    decreases |s|
  {
    if s == [] {
    } else if IsSpace(s[0]) && |s| > 1 && IsSpace(s[1]) {
      CollapseSpacesWords(s[1..]);
    } else if IsSpace(s[0]) {
      CollapseSpacesWords(s[1..]);
      var y := CollapseSpaces(s[1..]);
      assert (" " + y)[1..] == y;
    } else {
      var t := s[1..];
      var y := CollapseSpaces(t);
      CollapseSpacesWords(t);
      assert s == [s[0]] + t;
      assert CollapseSpaces(s) == [s[0]] + y;
      assert y == [] <==> t == [];
      if t != [] {
        assert IsSpace(y[0]) <==> IsSpace(t[0]);
      }
      WordsConsChar(s[0], y);
      WordsConsChar(s[0], t);
    }
  }

  /** Leading whitespace carries no words. */
  lemma {:induction false} WordsLeadingBlank(a: string, m: string)
    requires forall i :: 0 <= i < |a| ==> IsSpace(a[i])
    ensures Words(a + m) == Words(m)
    decreases |a|
  {
    if a != [] {
      assert (a + m)[1..] == a[1..] + m;
      WordsLeadingBlank(a[1..], m);
    } else {
      assert a + m == m;
    }
  }

  /** A token ends where whitespace follows, whatever comes after that. */
  lemma {:induction false} TokenLengthBeforeBlank(m: string, b: string)
    requires b == [] || IsSpace(b[0])
    ensures TokenLength(m + b) == TokenLength(m)
    decreases |m|
  {
    if m == [] {
      assert m + b == b;
    } else if !IsSpace(m[0]) {
      assert (m + b)[1..] == m[1..] + b;
      TokenLengthBeforeBlank(m[1..], b);
    }
  }

  /** Trailing whitespace carries no words. */
  lemma {:induction false} WordsTrailingBlank(m: string, b: string)
    requires forall i :: 0 <= i < |b| ==> IsSpace(b[i])
    ensures Words(m + b) == Words(m)
    decreases |m|
  {
    if m == [] {
      assert m + b == b;
      WordsOfBlank(b);
    } else if IsSpace(m[0]) {
      assert (m + b)[1..] == m[1..] + b;
      WordsTrailingBlank(m[1..], b);
    } else {
      TokenLengthBeforeBlank(m, b);
      var n := TokenLength(m);
      assert (m + b)[..n] == m[..n];
      assert (m + b)[n..] == m[n..] + b;
      WordsTrailingBlank(m[n..], b);
    }
  }

  /** Text is its `lstrip()` with whitespace before it. */
  lemma StripLeftParts(x: string) returns (front: string)
    ensures x == front + StripLeftOf(x, Whitespace)
    ensures forall i :: 0 <= i < |front| ==> IsSpace(front[i])
  {
    front := x[..|x| - |StripLeftOf(x, Whitespace)|];
  }

  /** Text is its `rstrip()` with whitespace after it. */
  lemma StripRightParts(l: string) returns (back: string)
    ensures l == StripRightOf(l, Whitespace) + back
    ensures forall i :: 0 <= i < |back| ==> IsSpace(back[i])
  {
    back := l[|StripRightOf(l, Whitespace)|..];
  }

  /** Text is its `strip()` with whitespace before and after it. */
  lemma StripParts(x: string) returns (front: string, back: string)
    ensures x == front + (Strip(x) + back)
    ensures forall i :: 0 <= i < |front| ==> IsSpace(front[i])
    ensures forall i :: 0 <= i < |back| ==> IsSpace(back[i])
  {
    StripIsStripOf(x);
    var l := StripLeftOf(x, Whitespace);
    front := StripLeftParts(x);
    back := StripRightParts(l);
  }

  /** `strip()` keeps the words. */
  lemma StripWords(x: string)
    ensures Words(Strip(x)) == Words(x)
  {
    var front, back := StripParts(x);
    WordsLeadingBlank(front, Strip(x) + back);
    WordsTrailingBlank(Strip(x), back);
  }

  /**
   * Normalisation keeps the words of the letters-digits-whitespace text; with
   * `NormalizeShape` this says the result is those words joined by single spaces.
   */
  lemma NormalizeWords(text: string)
    ensures Words(Normalize(text)) == Words(DropPunctuation(Lower(text)))
  {
    var d := DropPunctuation(Lower(text));
    CollapseSpacesWords(d);
    StripWords(CollapseSpaces(d));
  }

  // ---------------------------------------------------------------- case and punctuation

  lemma {:induction false} DropPunctuationAppend(a: string, b: string)
    ensures DropPunctuation(a + b) == DropPunctuation(a) + DropPunctuation(b)
    decreases |a|
  {
    if a == [] {
      assert a + b == b;
    } else {
      assert (a + b)[1..] == a[1..] + b;
      DropPunctuationAppend(a[1..], b);
    }
  }

  /** A punctuation character anywhere in the text does not change its normal form. */
  lemma NormalizeIgnoresPunctuation(a: string, p: char, b: string)
    requires !Kept(LowerChar(p))
    ensures Normalize(a + [p] + b) == Normalize(a + b)
  {
    var la, lp, lb := Lower(a), [LowerChar(p)], Lower(b);
    assert Lower(a + [p] + b) == la + lp + lb;
    assert Lower(a + b) == la + lb;
    assert DropPunctuation(lp) == [] by {
      assert lp[1..] == [];
    }
    DropPunctuationAppend(la + lp, lb);
    DropPunctuationAppend(la, lp);
    DropPunctuationAppend(la, lb);
    assert DropPunctuation(la + lp + lb) == DropPunctuation(la + lb);
  }

  /** Texts equal up to letter case have the same normal form. */
  lemma NormalizeIgnoresCase(a: string, b: string)
    requires |a| == |b|
    requires forall i :: 0 <= i < |a| ==> LowerChar(a[i]) == LowerChar(b[i])
    ensures Normalize(a) == Normalize(b)
  {
    assert Lower(a) == Lower(b);
  }

  // ---------------------------------------------------------------- the citation loop

  const MissingSuggestion := "Ensure all cited Claim IDs exist in the ClaimStore."
  const MismatchMiddle := "' does not exactly match original claim statement for ID '"
  const MismatchSuggestionPrefix :=
    "Ensure quoted text is an exact snippet or very close paraphrase of the original claim: '"

  function MissingIssue(c: Citation): ValidationIssue
  {
    ValidationIssue(
      CitationMissing, Critical,
      "Claim ID '" + c.claimId + "' not found in ClaimStore.",
      Some(MissingSuggestion),
      Some("Char: " + IntToString(c.locationInSection)))
  }

  function MismatchIssue(c: Citation, statement: string): ValidationIssue
  {
    ValidationIssue(
      CitationQuoteMismatch, Critical,
      "Quoted text '" + c.quotedText + MismatchMiddle
        + c.claimId + "'.Expected (normalized): '" + Normalize(statement)
        + "', Got (normalized): '" + Normalize(c.quotedText) + "'",
      Some(MismatchSuggestionPrefix + statement + "'"),
      Some("Char: " + IntToString(c.locationInSection)))
  }

  /**
   * The issue one citation raises, if any: an unknown claim id is a missing
   * citation and skips the quote check; a known claim whose normalised
   * statement does not contain the normalised quote is a quote mismatch.
   */
  function CitationIssue(c: Citation, lookup: string -> Option<Claim>): (r: Option<ValidationIssue>)
    ensures r.Some? ==> r.value.severity == Critical
    ensures (r.Some? && r.value.issueType == CitationMissing) <==> lookup(c.claimId).None?
    ensures (r.Some? && r.value.issueType == CitationQuoteMismatch) <==>
      (lookup(c.claimId).Some?
       && !Contains(Normalize(lookup(c.claimId).value.statement), Normalize(c.quotedText)))
    ensures r.Some? ==> r.value.location == Some("Char: " + IntToString(c.locationInSection))
  {
    match lookup(c.claimId)
    case None => Some(MissingIssue(c))
    case Some(claim) =>
      if Contains(Normalize(claim.statement), Normalize(c.quotedText)) then None
      else Some(MismatchIssue(c, claim.statement))
  }

  /** A known claim quoted with the same normal form as its statement raises nothing. */
  lemma SameNormalFormPasses(c: Citation, lookup: string -> Option<Claim>)
    requires lookup(c.claimId).Some?
    requires Normalize(c.quotedText) == Normalize(lookup(c.claimId).value.statement)
    ensures CitationIssue(c, lookup) == None
  {
    ContainsSelf(Normalize(c.quotedText));
  }

  /** The issues of the first loop of `validate`, citation by citation. */
  function CitationIssues(cs: seq<Citation>, lookup: string -> Option<Claim>): seq<ValidationIssue>
  {
    FilterMap(cs, c => CitationIssue(c, lookup))
  }

  /**
   * At most one issue per citation, in citation order: the issues are exactly
   * those of the citations that raise one, by increasing position, and each is CRITICAL.
   */
  lemma CitationIssuesOrigin(cs: seq<Citation>, lookup: string -> Option<Claim>) returns (idx: seq<nat>)
    ensures |idx| == |CitationIssues(cs, lookup)| <= |cs|
    ensures forall k :: 0 <= k < |idx| ==>
      idx[k] < |cs| && CitationIssue(cs[idx[k]], lookup) == Some(CitationIssues(cs, lookup)[k])
    ensures forall k, l :: 0 <= k < l < |idx| ==> idx[k] < idx[l]
    ensures forall j :: 0 <= j < |cs| && CitationIssue(cs[j], lookup).Some? ==> j in idx
    ensures forall k :: 0 <= k < |idx| ==> CitationIssues(cs, lookup)[k].severity == Critical
  {
    idx := FilterMapOrigin(cs, c => CitationIssue(c, lookup));
  }

  /** The first loop raises no issue iff every citation names a known claim and its quote matches. */
  lemma CitationIssuesEmpty(cs: seq<Citation>, lookup: string -> Option<Claim>)
    ensures CitationIssues(cs, lookup) == [] <==> forall j :: 0 <= j < |cs| ==> CitationIssue(cs[j], lookup).None?
  {
    FilterMapEmpty(cs, c => CitationIssue(c, lookup));
  }

  /** `validate`, first loop: one lookup per citation, then the quote check for known claims. */
  method Validate(section: Section, lookup: string -> Option<Claim>) returns (issues: seq<ValidationIssue>)
    ensures issues == CitationIssues(section.citations, lookup)
  {
    var cs := section.citations;
    issues := [];
    var i := 0;
    while i < |cs|
      invariant 0 <= i <= |cs|
      invariant issues == CitationIssues(cs[..i], lookup)
    {
      assert cs[..i + 1][..i] == cs[..i];
      var citation := cs[i];
      var claim := lookup(citation.claimId);
      if claim.None? {
        issues := issues + [MissingIssue(citation)];
      } else {
        var quote := Normalize(citation.quotedText);
        var statement := Normalize(claim.value.statement);
        if !Contains(statement, quote) {
          issues := issues + [MismatchIssue(citation, claim.value.statement)];
        }
      }
      i := i + 1;
    }
    assert cs[..i] == cs;
  }
}

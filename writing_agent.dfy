/**
 * WritingAgent (the first-generation writer): what happens to the LLM's text
 * after generation. The token budget handed to the LLM, the project-type
 * gate, the word count and citation list reported for the section, and the
 * post-write pass that deletes placeholder citations such as `[1]` or
 * `[source01]` while leaving every citation of a known source alone.
 *
 * The LLM is the `generate` input (text for a token budget), and the
 * proposal rewording is the `rewrite` input.
 */
module WritingAgent {
  import opened Wrappers
  import opened Text
  import CitationPattern

  // ---------------------------------------------------------------- generation

  /** `int(target_words * 1.5)`: three halves of the target, truncated toward zero. */
  function TokenBudget(targetWords: int): (b: int)
  {
    if targetWords >= 0 then (3 * targetWords) / 2 else -((-3 * targetWords) / 2)
  }

  /** The budget is 1.5 times the target, cut toward zero, and the default 1500 words give 2250 tokens. */
  lemma TokenBudgetSpec(targetWords: int)
    ensures targetWords >= 0 ==> 0 <= 3 * targetWords - 2 * TokenBudget(targetWords) <= 1
    ensures targetWords < 0 ==> 0 <= 2 * TokenBudget(targetWords) - 3 * targetWords <= 1
    ensures TokenBudget(-targetWords) == -TokenBudget(targetWords)
    ensures TokenBudget(1500) == 2250
  {
  }

  /** `constraints.get('max_section_word_count', 1500)`. */
  function TargetWords(maxWords: Option<int>): int
  {
    if maxWords.Some? then maxWords.value else 1500
  }

  /** `_adjust_claims_for_project_type`: only a proposal is reworded. */
  function AdjustClaims(content: string, projectType: string, rewrite: string -> string): (r: string)
  {
    if projectType == "proposal" then rewrite(content) else content
  }

  /** Every project type other than `proposal` leaves the text exactly as generated. */
  lemma AdjustClaimsGate(content: string, projectType: string, rewrite: string -> string)
    ensures projectType != "proposal" ==> AdjustClaims(content, projectType, rewrite) == content
    ensures projectType == "proposal" ==> AdjustClaims(content, projectType, rewrite) == rewrite(content)
  {
  }

  /** The text after `_generate_content` (stripped) and the project-type gate. */
  function Drafted(projectType: string, maxWords: Option<int>, generate: int -> string,
                   rewrite: string -> string): string
  {
    AdjustClaims(Strip(generate(TokenBudget(TargetWords(maxWords)))), projectType, rewrite)
  }

  // ---------------------------------------------------------------- bracketed tokens

  /** A match of `\[([^\]]+)\]` at `i`: the token and the index after the closing bracket. */
  function BracketAt(s: string, i: nat): (r: Option<(string, nat)>)
    ensures r.Some? ==> i < r.value.1 <= |s|
  {
    if i < |s| && s[i] == '[' then
      match CitationPattern.CharFrom(s, i + 1, ']')
      case Some(j) => if j > i + 1 then Some((s[i + 1..j], j + 1)) else None
      case None => None
    else None
  }

  /** `re.findall(r'\[([^\]]+)\]', s[i:])`: the bracketed tokens, left to right, without overlaps. */
  function BracketTokens(s: string, i: nat): (ts: seq<string>)
    decreases |s| - i
  {
    if i >= |s| then []
    else
      match BracketAt(s, i)
      case Some(m) => [m.0] + BracketTokens(s, m.1)
      case None => BracketTokens(s, i + 1)
  }

  /** Each token is non-empty, holds no `]`, and occurs in the text between brackets. */
  lemma {:induction false} BracketTokensSpec(s: string, i: nat)
    ensures forall k :: 0 <= k < |BracketTokens(s, i)| ==>
      && |BracketTokens(s, i)[k]| > 0
      && ']' !in BracketTokens(s, i)[k]
      && Contains(s, "[" + BracketTokens(s, i)[k] + "]")
    decreases |s| - i
  {
    if i < |s| {
      match BracketAt(s, i)
      case Some(m) =>
        BracketTokensSpec(s, m.1);
        BracketAtSpec(s, i);
      case None =>
        BracketTokensSpec(s, i + 1);
    }
  }

  /** A match at `i` is the text between the bracket at `i` and the next `]`. */
  lemma BracketAtSpec(s: string, i: nat)
    requires BracketAt(s, i).Some?
    ensures var t := BracketAt(s, i).value.0;
      && |t| > 0 && ']' !in t
      && Contains(s, "[" + t + "]")
  {
    var j := CitationPattern.CharFrom(s, i + 1, ']').value;
    var t := s[i + 1..j];
    assert forall c | c in t :: c != ']' by {
      forall k | 0 <= k < |t| ensures t[k] != ']' {
        assert t[k] == s[i + 1 + k];
      }
    }
    assert s[i..j + 1] == "[" + t + "]";
    ContainsAt(s, "[" + t + "]", i);
  }

  // ---------------------------------------------------------------- validity and placeholders

  /** A cleaned token names a known source, or starts with `<id>:` (an `[id: "quote"]` citation). */
  predicate IsValidCitation(clean: string, validIds: set<string>)
  {
    clean in validIds || exists vid :: vid in validIds && StartsWith(clean, vid + ":")
  }

  /** Only ASCII digits, possibly none (`\d*`). */
  predicate AllDigits(s: string)
  {
    forall k :: 0 <= k < |s| ==> IsDigit(s[k])
  }

  /** `^<p>_?\d*$` on lower-cased text. */
  predicate NumberedAfter(l: string, p: string)
  {
    && StartsWith(l, p)
    && (AllDigits(l[|p|..]) || (|l| > |p| && l[|p|] == '_' && AllDigits(l[|p| + 1..])))
  }

  /** The five placeholder patterns, matched case-insensitively against the cleaned token. */
  predicate IsPlaceholder(clean: string)
  {
    var l := Lower(clean);
    NumberedAfter(l, "source") || IsDigits(l) || NumberedAfter(l, "ref") || l == "citation" || l == "arxiv"
  }

  /** A token the post-write pass deletes: not a known citation, and shaped like a placeholder. */
  predicate Removed(token: string, validIds: set<string>)
  {
    var clean := Strip(token);
    !IsValidCitation(clean, validIds) && IsPlaceholder(clean)
  }

  /** Lower-case text is its own `lower()`. */
  lemma LowerOfLower(s: string)
    requires forall k :: 0 <= k < |s| ==> !IsUpper(s[k])
    ensures Lower(s) == s
  {
  }

  /** `[1]` and `[source01]` are placeholders. */
  lemma PlaceholderExamples()
    ensures IsPlaceholder("1") && IsPlaceholder("source01")
  {
    LowerOfLower("1");
    assert IsDigits("1");
    var l := "source01";
    LowerOfLower(l);
    assert StartsWith(l, "source") && l[6..] == "01";
  }

  /** `[source_id]`, which the prompt names as a placeholder, does not match `^source_?\d*$` and is kept. */
  lemma SourceIdIsNoPlaceholder()
    ensures !IsPlaceholder("source_id")
  {
    var l := "source_id";
    LowerOfLower(l);
    assert l[6..] == "_id" && !IsDigit(l[6]);
    assert l[7..] == "id" && !IsDigit(l[7]);
    assert !StartsWith(l, "ref") by { assert l[..3][0] == 's'; }
    assert !IsDigits(l) by { assert !IsDigit(l[0]); }
  }

  // ---------------------------------------------------------------- the post-write pass

  /** The bracket form `[token]` that `content.replace` deletes. */
  function Bracketed(token: string): (b: string)
    ensures |b| == |token| + 2
  {
    "[" + token + "]"
  }

  /** Deleting, for each token in order that `removed` selects, every `[token]` from the text. */
  function DeleteEach(content: string, tokens: seq<string>, removed: string -> bool): string
    decreases |tokens|
  {
    if tokens == [] then content
    else
      var before := DeleteEach(content, tokens[..|tokens| - 1], removed);
      var t := tokens[|tokens| - 1];
      if removed(t) then ReplaceAll(before, Bracketed(t), "") else before
  }

  /** The pass over `tokens` in order: each placeholder token has every `[token]` deleted from the text. */
  function RemovePlaceholders(content: string, tokens: seq<string>, validIds: set<string>): string
  {
    DeleteEach(content, tokens, t => Removed(t, validIds))
  }

  /** `_validate_citations_post_write`: the text with its placeholder citations deleted. */
  function CleanCitations(content: string, validIds: set<string>): string
  {
    RemovePlaceholders(content, BracketTokens(content, 0), validIds)
  }

  /** Deleting a substring never lengthens the text, and shortens it when the substring occurs. */
  lemma {:induction false} DeleteShrinks(s: string, t: string)
    requires |t| > 0
    ensures |ReplaceAll(s, t, "")| <= |s|
    ensures Contains(s, t) ==> |ReplaceAll(s, t, "")| < |s|
    decreases |s|
  {
    IndexOfSpec(s, t);
    match IndexOf(s, t)
    case None =>
    case Some(i) =>
      var rest := s[i + |t|..];
      assert SplitOn(s, t) == [s[..i]] + SplitOn(rest, t);
      JoinCons("", s[..i], SplitOn(rest, t));
      DeleteShrinks(rest, t);
  }

  /** The pass never lengthens the text. */
  lemma {:induction false} DeleteEachShrinks(content: string, tokens: seq<string>, removed: string -> bool)
    ensures |DeleteEach(content, tokens, removed)| <= |content|
    decreases |tokens|
  {
    if tokens != [] {
      var init := tokens[..|tokens| - 1];
      DeleteEachShrinks(content, init, removed);
      DeleteShrinks(DeleteEach(content, init, removed), Bracketed(tokens[|tokens| - 1]));
    }
  }

  /** With no token to remove, the pass returns the text unchanged. */
  lemma {:induction false} NothingDeleted(content: string, tokens: seq<string>, removed: string -> bool)
    requires forall k :: 0 <= k < |tokens| ==> !removed(tokens[k])
    ensures DeleteEach(content, tokens, removed) == content
    decreases |tokens|
  {
    if tokens != [] {
      NothingDeleted(content, tokens[..|tokens| - 1], removed);
    }
  }

  /** A token to remove whose bracket form occurs in the original text makes the result strictly shorter. */
  lemma {:induction false} SomethingDeleted(content: string, tokens: seq<string>, removed: string -> bool, k: nat)
    requires k < |tokens| && removed(tokens[k])
    requires forall m :: 0 <= m < |tokens| ==> Contains(content, Bracketed(tokens[m]))
    ensures |DeleteEach(content, tokens, removed)| < |content|
    decreases |tokens|
  {
    var n := |tokens| - 1;
    var init := tokens[..n];
    var before := DeleteEach(content, init, removed);
    DeleteShrinks(before, Bracketed(tokens[n]));
    if k < n {
      SomethingDeleted(content, init, removed, k);
    } else if forall m :: 0 <= m < n ==> !removed(init[m]) {
      NothingDeleted(content, init, removed);
    } else {
      var m :| 0 <= m < n && removed(init[m]);
      SomethingDeleted(content, init, removed, m);
    }
  }

  /**
   * The pass changes the text iff some bracketed token is an unknown
   * placeholder; in particular a text whose citations all name known sources
   * comes back unchanged, and the result is never longer.
   */
  lemma CleanCitationsUnchangedIff(content: string, validIds: set<string>)
    ensures |CleanCitations(content, validIds)| <= |content|
    ensures CleanCitations(content, validIds) == content <==>
      forall k :: 0 <= k < |BracketTokens(content, 0)| ==> !Removed(BracketTokens(content, 0)[k], validIds)
  {
    BracketTokensSpec(content, 0);
    CleanTokensUnchangedIff(content, BracketTokens(content, 0), validIds);
  }

  /** CleanCitationsUnchangedIff over any tokens whose bracket forms occur in the text. */
  lemma CleanTokensUnchangedIff(content: string, tokens: seq<string>, validIds: set<string>)
    requires forall m :: 0 <= m < |tokens| ==> Contains(content, "[" + tokens[m] + "]")
    ensures |RemovePlaceholders(content, tokens, validIds)| <= |content|
    ensures RemovePlaceholders(content, tokens, validIds) == content <==>
      forall k :: 0 <= k < |tokens| ==> !Removed(tokens[k], validIds)
  {
    DeleteEachUnchangedIff(content, tokens, t => Removed(t, validIds));
  }

  /** Over tokens whose bracket forms occur in the text, the pass changes it iff it selects some token. */
  lemma DeleteEachUnchangedIff(content: string, tokens: seq<string>, removed: string -> bool)
    requires forall m :: 0 <= m < |tokens| ==> Contains(content, "[" + tokens[m] + "]")
    ensures |DeleteEach(content, tokens, removed)| <= |content|
    ensures DeleteEach(content, tokens, removed) == content <==> forall k :: 0 <= k < |tokens| ==> !removed(tokens[k])
  {
    DeleteEachShrinks(content, tokens, removed);
    if forall k :: 0 <= k < |tokens| ==> !removed(tokens[k]) {
      NothingDeleted(content, tokens, removed);
    } else {
      var k :| 0 <= k < |tokens| && removed(tokens[k]);
      SomethingDeleted(content, tokens, removed, k);
    }
  }

  /** Citations of known sources are never deleted: a token naming a source is not removed. */
  lemma ValidNeverRemoved(token: string, validIds: set<string>)
    requires Strip(token) in validIds || exists vid :: vid in validIds && StartsWith(Strip(token), vid + ":")
    ensures !Removed(token, validIds)
  {
  }

  // ---------------------------------------------------------------- the methods

  /** The inner `for vid in valid_ids` loop: does the cleaned token start with some `<id>:`? */
  method StartsWithSomeId(clean: string, validIds: set<string>) returns (found: bool)
    ensures found <==> exists vid :: vid in validIds && StartsWith(clean, vid + ":")
  {
    var pending := validIds;
    while pending != {}
      invariant pending <= validIds
      invariant forall vid :: vid in validIds - pending ==> !StartsWith(clean, vid + ":")
      decreases |pending|
    {
      var vid :| vid in pending;
      if StartsWith(clean, vid + ":") {
        return true;
      }
      pending := pending - {vid};
    }
    return false;
  }

  /** `_validate_citations_post_write`: one pass over the bracketed tokens, deleting placeholders. */
  method ValidateCitationsPostWrite(content: string, validIds: set<string>) returns (cleaned: string)
    ensures cleaned == CleanCitations(content, validIds)
  {
    var tokens := BracketTokens(content, 0);
    cleaned := content;
    var i := 0;
    while i < |tokens|
      invariant 0 <= i <= |tokens|
      invariant cleaned == RemovePlaceholders(content, tokens[..i], validIds)
    {
      assert tokens[..i + 1][..i] == tokens[..i];
      var citation := tokens[i];
      var clean := Strip(citation);
      var valid := clean in validIds;
      if !valid {
        valid := StartsWithSomeId(clean, validIds);
      }
      if !valid && IsPlaceholder(clean) {
        cleaned := ReplaceAll(cleaned, "[" + citation + "]", "");
      }
      i := i + 1;
    }
    assert tokens[..i] == tokens;
  }

  /** `list(set(re.findall(...)))`: each cited source id once, in an unspecified order. */
  method ExtractCitations(text: string) returns (ids: seq<string>)
    ensures forall id :: id in ids <==> id in CitationPattern.CitationSet(text)
    ensures forall a, b :: 0 <= a < b < |ids| ==> ids[a] != ids[b]
  {
    var pending := CitationPattern.CitationSet(text);
    ids := [];
    while pending != {}
      invariant pending <= CitationPattern.CitationSet(text)
      invariant forall id :: id in ids <==> id in CitationPattern.CitationSet(text) - pending
      invariant forall a, b :: 0 <= a < b < |ids| ==> ids[a] != ids[b]
      decreases |pending|
    {
      var id :| id in pending;
      assert id !in ids;
      ids := ids + [id];
      pending := pending - {id};
    }
  }

  /** What `write_section` returns (its elapsed time left out). */
  datatype WriteResult = WriteResult(content: string, wordCount: nat, citationsUsed: seq<string>)

  /**
   * `write_section` after the prompt: generate within the budget, strip,
   * apply the project-type gate, count words and citations, and only then
   * delete placeholder citations.
   */
  method WriteSection(projectType: string, maxWords: Option<int>, generate: int -> string,
                      rewrite: string -> string, validIds: set<string>) returns (r: WriteResult)
    ensures var drafted := Drafted(projectType, maxWords, generate, rewrite);
      && r.content == CleanCitations(drafted, validIds)
      && r.wordCount == WordCount(drafted)
      && (forall id :: id in r.citationsUsed <==> id in CitationPattern.CitationSet(drafted))
  {
    var budget := TokenBudget(TargetWords(maxWords));
    var content := Strip(generate(budget));
    content := AdjustClaims(content, projectType, rewrite);
    var wordCount := WordCount(content);
    var citationsUsed := ExtractCitations(content);
    content := ValidateCitationsPostWrite(content, validIds);
    r := WriteResult(content, wordCount, citationsUsed);
  }
}

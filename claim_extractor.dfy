/**
 * ClaimExtractor: asks the model for a JSON list of claims about one search
 * result, strips code fences from the reply, and turns each entry with a
 * statement into a Claim numbered `<source_id>_claim_NNN` with tags taken from
 * the statement's longer words. The model's reply and the JSON decoder are
 * inputs; anything that raises yields no claims.
 */
module ClaimExtractor {
  import opened Wrappers
  import opened Text
  import opened Seqs
  import opened Uniq
  import opened Models

  // ---------------------------------------------------------------- tags

  /** The characters `_extract_tags` strips from both ends of a word. */
  const TagPunctuation: set<char> := {'.', ',', '!', '?', ';', ':', '(', ')', '[', ']', '{', '}'}

  /** Tags are compared as themselves. */
  const TagKey: string -> string := t => t

  /** `[w.strip('.,!?;:()[]{}') for w in words if len(w) > 4]`: the length is checked before stripping. */
  function CandidateTags(words: seq<string>): (tags: seq<string>)
    ensures |tags| <= |words|
  {
    if words == [] then []
    else
      var init := CandidateTags(words[..|words| - 1]);
      var w := words[|words| - 1];
      if |w| > 4 then init + [StripOf(w, TagPunctuation)] else init
  }

  /** Every candidate tag is a word longer than four characters with its punctuation stripped. */
  lemma {:induction false} CandidateTagsOrigin(words: seq<string>)
    ensures forall t :: t in CandidateTags(words) ==>
      exists k :: 0 <= k < |words| && |words[k]| > 4 && t == StripOf(words[k], TagPunctuation)
  {
    if words != [] {
      var init := words[..|words| - 1];
      CandidateTagsOrigin(init);
      forall t | t in CandidateTags(words)
        ensures exists k :: 0 <= k < |words| && |words[k]| > 4 && t == StripOf(words[k], TagPunctuation)
      {
        if t in CandidateTags(init) {
          var k :| 0 <= k < |init| && |init[k]| > 4 && t == StripOf(init[k], TagPunctuation);
          assert words[k] == init[k];
        } else {
          assert t == StripOf(words[|words| - 1], TagPunctuation);
        }
      }
    }
  }

  /** Extending the word list adds at most the stripped last word. */
  lemma CandidateTagsSnoc(words: seq<string>, w: string)
    ensures CandidateTags(words + [w]) == CandidateTags(words) + (if |w| > 4 then [StripOf(w, TagPunctuation)] else [])
  {
    assert (words + [w])[..|words|] == words;
  }

  lemma BracketsStripped()
    ensures StripOf("(data)", TagPunctuation) == "data"
  {
    StripLeftOfPadded("(", "data)", TagPunctuation);
    assert "(" + "data)" == "(data)";
    StripRightOfPadded("data", ")", TagPunctuation);
    assert "data" + ")" == "data)";
  }

  /** A four-letter word is dropped while the same letters in brackets pass the length check. */
  lemma LengthCheckedBeforeStripping()
    ensures CandidateTags(["data", "(data)"]) == ["data"]
  {
    CandidateTagsSnoc([], "data");
    assert [] + ["data"] == ["data"];
    CandidateTagsSnoc(["data"], "(data)");
    assert ["data"] + ["(data)"] == ["data", "(data)"];
    BracketsStripped();
  }

  /** `_extract_tags`: the candidate tags of the lower-cased words, first occurrences only, at most ten. */
  function Tags(statement: string): seq<string>
  {
    TakePy(KeepFirst(CandidateTags(Words(Lower(statement))), TagKey), 10)
  }

  /** At most ten tags, no tag twice, each the stripped form of a long word of the lower-cased statement. */
  lemma TagsShape(statement: string)
    ensures |Tags(statement)| <= 10
    ensures forall i, j :: 0 <= i < j < |Tags(statement)| ==> Tags(statement)[i] != Tags(statement)[j]
    ensures forall t :: t in Tags(statement) ==>
      exists w :: w in Words(Lower(statement)) && |w| > 4 && t == StripOf(w, TagPunctuation)
  {
    var words := Words(Lower(statement));
    var cands := CandidateTags(words);
    var unique := KeepFirst(cands, TagKey);
    var tags := Tags(statement);
    KeepFirstKeys(cands, TagKey);
    KeepFirstElements(cands, TagKey);
    CandidateTagsOrigin(words);
    assert tags == unique[..|tags|];
    forall i, j | 0 <= i < j < |tags| ensures tags[i] != tags[j] {
      assert tags[i] == unique[i] && tags[j] == unique[j];
      assert TagKey(unique[i]) != TagKey(unique[j]);
    }
    forall t | t in tags
      ensures exists w :: w in words && |w| > 4 && t == StripOf(w, TagPunctuation)
    {
      assert t in unique;
      var k :| 0 <= k < |words| && |words[k]| > 4 && t == StripOf(words[k], TagPunctuation);
      assert words[k] in words;
    }
  }

  /** `_extract_tags` with its `seen` loop. */
  method ExtractTags(statement: string) returns (tags: seq<string>)
    ensures tags == Tags(statement)
  {
    var candidates := CandidateTags(Words(Lower(statement)));
    var seen: set<string> := {};
    var unique: seq<string> := [];
    var i := 0;
    while i < |candidates|
      invariant 0 <= i <= |candidates|
      invariant unique == KeepFirst(candidates[..i], TagKey)
      invariant seen == KeysOf(unique, TagKey)
    {
      var tag := candidates[i];
      assert candidates[..i + 1] == candidates[..i] + [tag];
      KeepFirstSnoc(candidates[..i], tag, TagKey);
      if tag !in seen {
        KeysOfAppend(unique, tag, TagKey);
        unique := unique + [tag];
        seen := seen + {tag};
      }
      i := i + 1;
    }
    assert candidates[..i] == candidates;
    tags := TakePy(unique, 10);
  }

  // ---------------------------------------------------------------- the reply

  /** The fence removal between the two strips: a leading ```` ```json ````, then ```` ``` ````, then a trailing ```` ``` ````. */
  function Unfenced(s0: string): string
  {
    var s1 := if StartsWith(s0, "```json") then s0[7..] else s0;
    var s2 := if StartsWith(s1, "```") then s1[3..] else s1;
    if EndsWith(s2, "```") then s2[..|s2| - 3] else s2
  }

  /** `_parse_llm_response`'s clean-up: strip, remove the fences, strip again. */
  function StripFences(response: string): string
  {
    Strip(Unfenced(Strip(response)))
  }

  /** The cleaned reply has no whitespace at either end. */
  lemma StripFencesStripped(response: string)
    ensures Strip(StripFences(response)) == StripFences(response)
  {
    StripIdempotent(Unfenced(Strip(response)));
  }

  /** The fenced block the prompt's models usually send. */
  function Fenced(payload: string): string
  {
    "```json\n" + payload + "\n```"
  }

  lemma FencedIsStripped(payload: string)
    ensures Strip(Fenced(payload)) == Fenced(payload)
  {
    var f := Fenced(payload);
    assert f[0] == '`' && f[|f| - 1] == '`';
    StripUnchanged(f);
  }

  lemma UnfencedOfFenced(payload: string)
    ensures Unfenced(Fenced(payload)) == "\n" + payload + "\n"
  {
    var f := Fenced(payload);
    assert f[..7] == "```json";
    var s1 := f[7..];
    assert s1 == "\n" + payload + "\n```";
    assert !StartsWith(s1, "```") by {
      assert s1[0] == '\n';
    }
    assert s1[|s1| - 3..] == "```";
    assert s1[..|s1| - 3] == "\n" + payload + "\n";
  }

  lemma NewlinePadded(payload: string)
    requires payload != [] && !IsSpace(payload[0]) && !IsSpace(payload[|payload| - 1])
    ensures Strip("\n" + payload + "\n") == payload
  {
    StripPadded("\n", payload, "\n");
  }

  lemma StripFencesSteps(response: string, s0: string, u: string, x: string)
    requires Strip(response) == s0 && Unfenced(s0) == u && Strip(u) == x
    ensures StripFences(response) == x
  {
  }

  /** Clean-up recovers a fenced payload whose ends are not whitespace. */
  lemma StripFencesOfFenced(payload: string)
    requires payload != [] && !IsSpace(payload[0]) && !IsSpace(payload[|payload| - 1])
    ensures StripFences(Fenced(payload)) == payload
  {
    FencedIsStripped(payload);
    UnfencedOfFenced(payload);
    NewlinePadded(payload);
    StripFencesSteps(Fenced(payload), Fenced(payload), "\n" + payload + "\n", payload);
  }

  lemma UnfencedNoFence(s0: string)
    requires !StartsWith(s0, "```") && !EndsWith(s0, "```")
    ensures Unfenced(s0) == s0
  {
    StartsWithLonger(s0, "```", "json");
    assert "```" + "json" == "```json";
  }

  /** A reply with no fence at either end is only stripped. */
  lemma StripFencesUnfenced(response: string)
    requires !StartsWith(Strip(response), "```") && !EndsWith(Strip(response), "```")
    ensures StripFences(response) == Strip(response)
  {
    var s0 := Strip(response);
    UnfencedNoFence(s0);
    StripIdempotent(response);
    StripFencesSteps(response, s0, s0, s0);
  }

  /** The decoded reply as far as `_parse_llm_response` looks at it: the `claims` key. */
  datatype ClaimsField = ClaimsMissing | ClaimsNotList | ClaimsList(entries: seq<RawClaim>)

  /**
   * One entry of `claims`; `None` is a missing key or a `null`. An entry that
   * is not an object, or whose statement is not a string, behaves as one
   * without a statement.
   */
  datatype RawClaim = RawClaim(
    statement: Option<string>,
    evidenceType: Option<string>,
    context: Option<string>,
    pageNumber: Option<int>,
    section: Option<string>)

  /**
   * `_parse_llm_response`: the claim entries of the cleaned reply; a reply that
   * does not decode, lacks `claims` or has a non-list `claims` gives none.
   */
  function ParseLlmResponse(response: string, decode: string -> Option<ClaimsField>): (entries: seq<RawClaim>)
    ensures entries != [] ==> decode(StripFences(response)) == Some(ClaimsList(entries))
    ensures decode(StripFences(response)) in {None, Some(ClaimsMissing), Some(ClaimsNotList)} ==> entries == []
    ensures forall es :: decode(StripFences(response)) == Some(ClaimsList(es)) ==> entries == es
  {
    match decode(StripFences(response))
    case Some(ClaimsList(es)) => es
    case _ => []
  }

  // ---------------------------------------------------------------- claims

  /** `f'{source_id}_claim_{idx:03d}'`. */
  function ClaimId(sourceId: string, idx: nat): string
  {
    sourceId + "_claim_" + ZeroPad(idx, 3)
  }

  /** Claim ids of one source differ for different indices. */
  lemma ClaimIdInjective(sourceId: string, i: nat, j: nat)
    ensures i != j ==> ClaimId(sourceId, i) != ClaimId(sourceId, j)
  {
    ZeroPadShape(i, 3);
    ZeroPadShape(j, 3);
    var n := |sourceId + "_claim_"|;
    assert ClaimId(sourceId, i)[n..] == ZeroPad(i, 3);
    assert ClaimId(sourceId, j)[n..] == ZeroPad(j, 3);
  }

  /** The first claim of `arxiv:2301.12345` is `arxiv:2301.12345_claim_000`. */
  lemma FirstClaimId()
    ensures ClaimId("arxiv:2301.12345", 0) == "arxiv:2301.12345_claim_000"
  {
    assert NatToString(0) == "0";
    assert Repeat('0', 2) == "00" by {
      assert Repeat('0', 0) == "";
      assert Repeat('0', 1) == "0";
    }
  }

  /** The evidence type of an entry: its value's member; a missing or unknown value gives BACKGROUND. */
  function EvidenceOf(value: Option<string>): (e: EvidenceType)
    ensures value.None? ==> e == Background
    ensures value.Some? && EvidenceTypeFromValue(value.value).None? ==> e == Background
  {
    var v := if value.Some? then value.value else "background";
    match EvidenceTypeFromValue(v)
    case Some(t) => t
    case None => Background
  }

  /** Every member's value maps back to that member. */
  lemma EvidenceOfValue(e: EvidenceType)
    ensures EvidenceOf(Some(EvidenceTypeValue(e))) == e
  {
    EvidenceTypeRoundTrip(e, EvidenceTypeValue(e));
  }

  /** The claim built from entry `idx`, or `None` when the entry has no statement (the KeyError path). */
  function ClaimAt(idx: nat, entry: RawClaim, sourceId: string): (c: Option<Claim>)
    ensures c.Some? <==> entry.statement.Some?
    ensures c.Some? ==> (c.value.claimId == ClaimId(sourceId, idx) && c.value.sourceId == sourceId
      && c.value.statement == entry.statement.value && c.value.confidence == 1.0)
  {
    match entry.statement
    case None => None
    case Some(statement) =>
      Some(Claim(ClaimId(sourceId, idx), sourceId, statement, entry.context, EvidenceOf(entry.evidenceType),
        Tags(statement), entry.pageNumber, entry.section, 1.0))
  }

  /** The indices of the entries that have a statement, in order. */
  function StatementIndices(entries: seq<RawClaim>): (ks: seq<nat>)
    ensures |ks| <= |entries|
    ensures forall i :: 0 <= i < |ks| ==> ks[i] < |entries| && entries[ks[i]].statement.Some?
    ensures forall i, j :: 0 <= i < j < |ks| ==> ks[i] < ks[j]
  {
    if entries == [] then []
    else
      var n := |entries| - 1;
      var init := StatementIndices(entries[..n]);
      if entries[n].statement.Some? then init + [n] else init
  }

  /** `_convert_to_claims`: one claim per entry with a statement, numbered by its position among all entries. */
  function ConvertedClaims(entries: seq<RawClaim>, sourceId: string): (claims: seq<Claim>)
  {
    if entries == [] then []
    else
      var n := |entries| - 1;
      var init := ConvertedClaims(entries[..n], sourceId);
      match ClaimAt(n, entries[n], sourceId)
      case Some(c) => init + [c]
      case None => init
  }

  /**
   * The claims are those of the entries with a statement, in order: the `i`-th
   * claim comes from entry `StatementIndices(entries)[i]`, so skipped entries
   * still use up an index and no two claims share an id.
   */
  lemma {:induction false} ConvertedClaimsSpec(entries: seq<RawClaim>, sourceId: string)
    ensures var claims, ks := ConvertedClaims(entries, sourceId), StatementIndices(entries);
      && |claims| == |ks|
      && (forall i :: 0 <= i < |ks| ==> Some(claims[i]) == ClaimAt(ks[i], entries[ks[i]], sourceId))
  {
    if entries != [] {
      var n := |entries| - 1;
      var p := entries[..n];
      ConvertedClaimsSpec(p, sourceId);
      var ks0 := StatementIndices(p);
      forall i | 0 <= i < |ks0| ensures entries[ks0[i]] == p[ks0[i]] {
      }
    }
  }

  /** Every claim carries the result's source id and confidence 1.0, and the ids are pairwise distinct. */
  lemma ConvertedClaimsShape(entries: seq<RawClaim>, sourceId: string)
    ensures var claims := ConvertedClaims(entries, sourceId);
      && (forall i :: 0 <= i < |claims| ==> claims[i].sourceId == sourceId && claims[i].confidence == 1.0)
      && (forall i, j :: 0 <= i < j < |claims| ==> claims[i].claimId != claims[j].claimId)
  {
    ConvertedClaimsSpec(entries, sourceId);
    var claims, ks := ConvertedClaims(entries, sourceId), StatementIndices(entries);
    forall i, j | 0 <= i < j < |claims| ensures claims[i].claimId != claims[j].claimId {
      ClaimIdInjective(sourceId, ks[i], ks[j]);
    }
  }

  /** The loop of `_convert_to_claims`. */
  method ConvertToClaims(entries: seq<RawClaim>, sourceId: string) returns (claims: seq<Claim>)
    ensures claims == ConvertedClaims(entries, sourceId)
  {
    claims := [];
    var idx := 0;
    while idx < |entries|
      invariant 0 <= idx <= |entries|
      invariant claims == ConvertedClaims(entries[..idx], sourceId)
    {
      assert entries[..idx + 1][..idx] == entries[..idx];
      var c := ConvertEntry(idx, entries[idx], sourceId);
      if c.Some? {
        claims := claims + [c.value];
      }
      idx := idx + 1;
    }
    assert entries[..idx] == entries;
  }

  /** The body of the loop of `_convert_to_claims`: `None` where the entry has no statement. */
  method ConvertEntry(idx: nat, entry: RawClaim, sourceId: string) returns (c: Option<Claim>)
    ensures c == ClaimAt(idx, entry, sourceId)
  {
    if entry.statement.None? {
      return None;
    }
    var tags := ExtractTags(entry.statement.value);
    c := Some(Claim(ClaimId(sourceId, idx), sourceId, entry.statement.value, entry.context,
      EvidenceOf(entry.evidenceType), tags, entry.pageNumber, entry.section, 1.0));
  }

  /**
   * `extract_from_search_result`: `reply` is the model's text, or `None` when
   * the call raised, which gives no claims.
   */
  method ExtractFromSearchResult(result: SearchResult, reply: Option<string>, decode: string -> Option<ClaimsField>)
    returns (claims: seq<Claim>)
    ensures reply.None? ==> claims == []
    ensures reply.Some? ==> claims == ConvertedClaims(ParseLlmResponse(reply.value, decode), result.sourceId)
  {
    if reply.None? {
      return [];
    }
    var entries := ParseLlmResponse(reply.value, decode);
    claims := ConvertToClaims(entries, result.sourceId);
  }
}

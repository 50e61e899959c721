/**
 * RegistryGate: the citation validator that checks a drafted section against
 * the source registry. Every distinct cited id missing from the registry is a
 * critical issue; too few distinct citations and a word count more than 10%
 * away from the target are warnings; the section passes when nothing is
 * critical. For the missing ids it also collects gap topics: long words of the
 * sentences that cite them.
 */
module RegistryGate {
  import opened Wrappers
  import opened Text
  import opened Seqs
  import opened Models
  import opened CitationPattern

  // ---------------------------------------------------------------- sentences citing an id

  /** The sentence terminators of `[^.!?]` and `[.!?]`. */
  predicate IsTerminator(c: char) { c == '.' || c == '!' || c == '?' }

  /** The first terminator at or after `k`. */
  function TerminatorFrom(s: string, k: nat): (r: Option<nat>)
    ensures r.Some? ==> k <= r.value < |s| && IsTerminator(s[r.value])
    ensures r.Some? ==> forall j :: k <= j < r.value ==> !IsTerminator(s[j])
    ensures r.None? ==> forall j :: k <= j < |s| ==> !IsTerminator(s[j])
    decreases |s| - k
  {
    if k >= |s| then None
    else if IsTerminator(s[k]) then Some(k)
    else TerminatorFrom(s, k + 1)
  }

  /**
   * The escaped id at `j`: its first character is matched by `first`, the
   * rest literally (every character `re.escape` escapes stands for itself).
   */
  predicate KeyAt(s: string, j: nat, first: char -> bool, rest: string)
  {
    j < |s| && first(s[j]) && StartsWith(s[j + 1..], rest)
  }

  /** The end of `X[^.!?]*[.!?]` when the id `X` sits at `j`: just after the first terminator behind it. */
  function TailEnd(s: string, j: nat, first: char -> bool, rest: string): (r: Option<nat>)
    ensures r.Some? ==> KeyAt(s, j, first, rest) && j + 1 + |rest| < r.value <= |s|
    ensures r.Some? ==> IsTerminator(s[r.value - 1])
    ensures KeyAt(s, j, first, rest) && TerminatorFrom(s, j + 1 + |rest|).Some? ==> r.Some?
  {
    if KeyAt(s, j, first, rest) then
      match TerminatorFrom(s, j + 1 + |rest|)
      case Some(t) => Some(t + 1)
      case None => None
    else None
  }

  /** The greedy `[^.!?]*` in front of the id: the latest id position in `[i, hi]` whose tail matches. */
  function GreedyEnd(s: string, i: nat, hi: nat, first: char -> bool, rest: string): (r: Option<nat>)
    requires i <= hi
    ensures r.Some? ==> i < r.value <= |s|
    decreases hi - i
  {
    match TailEnd(s, hi, first, rest)
    case Some(m) => Some(m)
    case None => if hi == i then None else GreedyEnd(s, i, hi - 1, first, rest)
  }

  /** The end of the match of `[^.!?]*X[^.!?]*[.!?]` starting at `i`, if any. */
  function SentenceAt(s: string, i: nat, first: char -> bool, rest: string): (r: Option<nat>)
    ensures r.Some? ==> i < r.value <= |s|
  {
    var hi := match TerminatorFrom(s, i) case Some(t) => t case None => |s|;
    if i <= hi then GreedyEnd(s, i, hi, first, rest) else None
  }

  /** `re.findall` of the sentence pattern on `s[i:]`. */
  function Sentences(s: string, i: nat, first: char -> bool, rest: string): (ms: seq<string>)
    decreases |s| - i
  {
    if i >= |s| then []
    else
      match SentenceAt(s, i, first, rest)
      case Some(m) => [s[i..m]] + Sentences(s, m, first, rest)
      case None => Sentences(s, i + 1, first, rest)
  }

  /**
   * How the sentence pattern reads the id's first character as written: the
   * pattern puts a backslash in front of the escaped id, so `arxiv:…` starts
   * with the escape `\a` (the bell character) and `doi:…` with `\d` (a digit).
   * Every missing id starts with one of these two prefixes.
   */
  function AsWrittenFirst(lead: char): char -> bool
  {
    if lead == 'a' then c => c == '\U{0007}'
    else if lead == 'd' then c => IsDigit(c)
    else c => c == lead
  }

  /** The first character of the id, matched literally. */
  function LiteralFirst(lead: char): char -> bool
  {
    c => c == lead
  }

  /** The sentences citing `id`, with the pattern as written. */
  function AsWrittenSentences(content: string, id: string): seq<string>
    requires id != []
  {
    Sentences(content, 0, AsWrittenFirst(id[0]), id[1..])
  }

  /** The sentences citing `id`, with the id matched literally. */
  function CitingSentences(content: string, id: string): seq<string>
    requires id != []
  {
    Sentences(content, 0, LiteralFirst(id[0]), id[1..])
  }

  // ---------------------------------------------------------------- the finding

  /** Without a bell character in the text, the pattern as written finds no sentence for an arXiv id. */
  lemma {:induction false} AsWrittenMissesArxiv(content: string, id: string, i: nat)
    requires StartsWith(id, ArxivPrefix)
    requires forall j :: 0 <= j < |content| ==> content[j] != '\U{0007}'
    ensures Sentences(content, i, AsWrittenFirst(id[0]), id[1..]) == []
    decreases |content| - i
  {
    assert id[0] == ArxivPrefix[0] == 'a';
    if i < |content| {
      NoKeyNoSentence(content, i, AsWrittenFirst(id[0]), id[1..]);
      AsWrittenMissesArxiv(content, id, i + 1);
    }
  }

  /** When no position holds a character `first` accepts, no sentence matches at `i`. */
  lemma NoKeyNoSentence(s: string, i: nat, first: char -> bool, rest: string)
    requires forall j :: 0 <= j < |s| ==> !first(s[j])
    ensures SentenceAt(s, i, first, rest).None?
  {
    var hi := match TerminatorFrom(s, i) case Some(t) => t case None => |s|;
    if i <= hi {
      NoKeyNoGreedy(s, i, hi, first, rest);
    }
  }

  lemma {:induction false} NoKeyNoGreedy(s: string, i: nat, hi: nat, first: char -> bool, rest: string)
    requires i <= hi
    requires forall j :: 0 <= j < |s| ==> !first(s[j])
    ensures GreedyEnd(s, i, hi, first, rest).None?
    decreases hi - i
  {
    if hi > i {
      NoKeyNoGreedy(s, i, hi - 1, first, rest);
    }
  }

  /** The greedy search succeeds whenever some id position in `[i, hi]` has a matching tail. */
  lemma {:induction false} GreedyFinds(s: string, i: nat, hi: nat, j: nat, first: char -> bool, rest: string)
    requires i <= j <= hi
    requires TailEnd(s, j, first, rest).Some?
    ensures GreedyEnd(s, i, hi, first, rest).Some?
    decreases hi - i
  {
    if TailEnd(s, hi, first, rest).None? {
      assert j < hi;
      GreedyFinds(s, i, hi - 1, j, first, rest);
    }
  }

  /**
   * With the id matched literally, a sentence `lead + id + tail + "."` whose
   * lead and tail have no terminator is found, starting at its first character.
   */
  lemma CitingSentenceFound(lead: string, id: string, tail: string)
    requires id != []
    requires forall j :: 0 <= j < |lead| ==> !IsTerminator(lead[j])
    requires forall j :: 0 <= j < |tail| ==> !IsTerminator(tail[j])
    ensures CitingSentences(lead + id + tail + ".", id) != []
  {
    var s := lead + id + tail + ".";
    var first, rest := LiteralFirst(id[0]), id[1..];
    var j := |lead|;
    assert s[j + 1..][..|rest|] == rest;
    assert KeyAt(s, j, first, rest);
    assert s[|s| - 1] == '.';
    var t := TerminatorFrom(s, j + 1 + |rest|);
    assert t.Some?;
    var hi := match TerminatorFrom(s, 0) case Some(t0) => t0 case None => |s|;
    assert hi >= j by {
      assert forall k :: 0 <= k < j ==> s[k] == lead[k];
    }
    GreedyFinds(s, 0, hi, j, first, rest);
    assert SentenceAt(s, 0, first, rest).Some?;
  }

  /** The finding at one glance: an arXiv id cited in a plain sentence is missed as written and found when matched literally. */
  lemma GapSentenceMissed(lead: string, id: string, tail: string)
    requires StartsWith(id, ArxivPrefix)
    requires forall j :: 0 <= j < |lead| ==> !IsTerminator(lead[j]) && lead[j] != '\U{0007}'
    requires forall j :: 0 <= j < |tail| ==> !IsTerminator(tail[j]) && tail[j] != '\U{0007}'
    requires forall j :: 0 <= j < |id| ==> id[j] != '\U{0007}'
    ensures AsWrittenSentences(lead + id + tail + ".", id) == []
    ensures CitingSentences(lead + id + tail + ".", id) != []
  {
    var s := lead + id + tail + ".";
    forall j | 0 <= j < |s| ensures s[j] != '\U{0007}' {
      if j < |lead| {
        assert s[j] == lead[j];
      } else if j < |lead| + |id| {
        assert s[j] == id[j - |lead|];
      } else if j < |lead| + |id| + |tail| {
        assert s[j] == tail[j - |lead| - |id|];
      }
    }
    AsWrittenMissesArxiv(s, id, 0);
    CitingSentenceFound(lead, id, tail);
  }

  // ---------------------------------------------------------------- gap topics

  const TopicStopWords: set<string> := {"which", "their", "about"}

  /** A topic word: longer than four characters and not a stop word. */
  predicate IsTopicWord(w: string) { |w| > 4 && w !in TopicStopWords }

  /** The first three topic words of one matched sentence. */
  function SentenceTopics(sentence: string): (ts: seq<string>)
    ensures |ts| <= 3
    ensures forall k :: 0 <= k < |ts| ==> IsTopicWord(ts[k]) && ts[k] in Words(Lower(sentence))
  {
    var words := Words(Lower(sentence));
    var keywords := Filter(words, IsTopicWord);
    var ts := TakePy(keywords, 3);
    FilterSubMultiset(words, IsTopicWord);
    assert forall k :: 0 <= k < |ts| ==> ts[k] == keywords[k] && keywords[k] in multiset(words);
    ts
  }

  /** The topics of a list of matched sentences, in order. */
  function TopicsOfSentences(sentences: seq<string>): (ts: seq<string>)
    ensures |ts| <= 3 * |sentences|
    ensures forall k :: 0 <= k < |ts| ==> IsTopicWord(ts[k])
  {
    if sentences == [] then []
    else TopicsOfSentences(sentences[..|sentences| - 1]) + SentenceTopics(sentences[|sentences| - 1])
  }

  /** The `topics` list `_extract_topics_from_context` builds before deduplicating, with the sentences citing each id. */
  function TopicCandidates(content: string, missing: seq<string>): (ts: seq<string>)
    requires forall k :: 0 <= k < |missing| ==> missing[k] != []
    ensures forall k :: 0 <= k < |ts| ==> IsTopicWord(ts[k])
  {
    if missing == [] then []
    else
      TopicCandidates(content, missing[..|missing| - 1])
        + TopicsOfSentences(CitingSentences(content, missing[|missing| - 1]))
  }

  /** The same list with the sentence pattern as written. */
  function AsWrittenTopicCandidates(content: string, missing: seq<string>): (ts: seq<string>)
    requires forall k :: 0 <= k < |missing| ==> missing[k] != []
  {
    if missing == [] then []
    else
      AsWrittenTopicCandidates(content, missing[..|missing| - 1])
        + TopicsOfSentences(AsWrittenSentences(content, missing[|missing| - 1]))
  }

  /** As written, arXiv ids never contribute a topic to a text without a bell character. */
  lemma {:induction false} AsWrittenNoArxivTopics(content: string, missing: seq<string>)
    requires forall k :: 0 <= k < |missing| ==> |missing[k]| > 0 && StartsWith(missing[k], ArxivPrefix)
    requires forall j :: 0 <= j < |content| ==> content[j] != '\U{0007}'
    ensures AsWrittenTopicCandidates(content, missing) == []
  {
    if missing != [] {
      var n := |missing| - 1;
      AsWrittenNoArxivTopics(content, missing[..n]);
      AsWrittenMissesArxiv(content, missing[n], 0);
    }
  }

  /** `list(set(topics))[:5]`: at most five distinct topics, all of them when there are fewer than five. */
  predicate TopicChoice(chosen: seq<string>, candidates: seq<string>)
  {
    && |chosen| <= 5
    && (forall i, j :: 0 <= i < j < |chosen| ==> chosen[i] != chosen[j])
    && (forall k :: 0 <= k < |chosen| ==> chosen[k] in candidates)
    && (|chosen| < 5 ==> forall k :: 0 <= k < |candidates| ==> candidates[k] in chosen)
  }

  /**
   * `list(set(topics))[:5]`: the set's iteration order is Python's hash
   * order, so each step takes any topic not yet taken.
   */
  method PickTopics(candidates: seq<string>) returns (chosen: seq<string>)
    ensures TopicChoice(chosen, candidates)
  {
    var pool := set k | 0 <= k < |candidates| :: candidates[k];
    chosen := [];
    while pool != {} && |chosen| < 5
      invariant |chosen| <= 5
      invariant forall i, j :: 0 <= i < j < |chosen| ==> chosen[i] != chosen[j]
      invariant forall k :: 0 <= k < |chosen| ==> chosen[k] in candidates && chosen[k] !in pool
      invariant forall t :: t in pool ==> t in candidates
      invariant forall k :: 0 <= k < |candidates| ==> candidates[k] in pool || candidates[k] in chosen
      decreases |pool|
    {
      var t :| t in pool;
      chosen := chosen + [t];
      pool := pool - {t};
    }
  }

  /** `_extract_topics_from_context` with the sentence pattern matching the id literally. */
  method ExtractTopicsFromContext(content: string, missing: seq<string>) returns (topics: seq<string>)
    requires forall k :: 0 <= k < |missing| ==> missing[k] != []
    ensures TopicChoice(topics, TopicCandidates(content, missing))
  {
    var candidates: seq<string> := [];
    var i := 0;
    while i < |missing|
      invariant 0 <= i <= |missing|
      invariant candidates == TopicCandidates(content, missing[..i])
    {
      assert missing[..i + 1][..i] == missing[..i];
      var matches := CitingSentences(content, missing[i]);
      var k := 0;
      var found: seq<string> := [];
      while k < |matches|
        invariant 0 <= k <= |matches|
        invariant found == TopicsOfSentences(matches[..k])
      {
        assert matches[..k + 1][..k] == matches[..k];
        found := found + SentenceTopics(matches[k]);
        k := k + 1;
      }
      assert matches[..k] == matches;
      candidates := candidates + found;
      i := i + 1;
    }
    assert missing[..i] == missing;
    topics := PickTopics(candidates);
  }

  // ---------------------------------------------------------------- the gate

  /** The result of `validate_section`, without its time-stamped id. */
  datatype GateResult = GateResult(
    sectionId: int,
    passed: bool,
    issues: seq<ValidationIssue>,
    attempt: int,
    missingTopics: seq<string>)

  function InvalidIssue(id: string): (v: ValidationIssue)
    ensures v.issueType == CitationInvalid && v.severity == Critical
  {
    ValidationIssue(CitationInvalid, Critical, "Citation " + id + " not found in sources",
      Some("Remove citation or add source to database"), None)
  }

  function CountIssue(count: int, minCitations: int): (v: ValidationIssue)
    ensures v.issueType == CitationMissing && v.severity == Warning
  {
    ValidationIssue(CitationMissing, Warning,
      "Only " + IntToString(count) + " citations, need " + IntToString(minCitations),
      Some("Add " + IntToString(minCitations - count) + " more citations"), None)
  }

  function LengthIssue(wordCount: int, maxWords: int): (v: ValidationIssue)
    ensures v.issueType == WordCountIssue && v.severity == Warning
  {
    ValidationIssue(WordCountIssue, Warning,
      "Word count " + IntToString(wordCount) + " outside ±10% of " + IntToString(maxWords),
      Some("Adjust length to ~" + IntToString(maxWords) + " words"), None)
  }

  /** One CITATION_INVALID issue per id, in order. */
  function InvalidIssues(order: seq<string>): (issues: seq<ValidationIssue>)
    ensures |issues| == |order| && forall k :: 0 <= k < |order| ==> issues[k] == InvalidIssue(order[k])
  {
    seq(|order|, k requires 0 <= k < |order| => InvalidIssue(order[k]))
  }

  /** `abs(word_count - max_words) > max_words * 0.1`, multiplied out by ten. */
  predicate LengthOff(wordCount: int, maxWords: int)
  {
    10 * (if wordCount >= maxWords then wordCount - maxWords else maxWords - wordCount) > maxWords
  }

  /** With the default target of 2000 words, the warning fires outside 1800..2200. */
  lemma LengthOffDefault(wordCount: int)
    ensures LengthOff(wordCount, 2000) <==> wordCount < 1800 || wordCount > 2200
  {
  }

  /** `order` lists the elements of `s`, each once. */
  predicate Enumerates(order: seq<string>, s: set<string>)
  {
    && (forall i, j :: 0 <= i < j < |order| ==> order[i] != order[j])
    && (forall k :: 0 <= k < |order| ==> order[k] in s)
    && (forall x :: x in s ==> x in order)
  }

  /** The cited ids the registry does not hold. */
  function MissingIds(content: string, registry: set<string>): set<string>
  {
    CitationSet(content) - registry
  }

  /** The issues in the order `validate_section` appends them, the missing ids met in `order`. */
  function GateIssues(content: string, registry: set<string>, minCitations: int, maxWords: int, order: seq<string>)
    : (issues: seq<ValidationIssue>)
  {
    var count := |CitationSet(content)|;
    var wordCount := |Words(content)|;
    InvalidIssues(order)
      + (if count < minCitations then [CountIssue(count, minCitations)] else [])
      + (if LengthOff(wordCount, maxWords) then [LengthIssue(wordCount, maxWords)] else [])
  }

  /**
   * One CITATION_INVALID CRITICAL issue per missing id and no other critical
   * issue: the first `|order|` issues name the missing ids, then at most one
   * count warning and at most one length warning follow.
   */
  lemma GateIssuesShape(content: string, registry: set<string>, minCitations: int, maxWords: int, order: seq<string>)
    ensures var issues := GateIssues(content, registry, minCitations, maxWords, order);
      && |issues| == |order|
          + (if |CitationSet(content)| < minCitations then 1 else 0)
          + (if LengthOff(|Words(content)|, maxWords) then 1 else 0)
      && (forall k :: 0 <= k < |order| ==> issues[k] == InvalidIssue(order[k]))
      && (forall k :: |order| <= k < |issues| ==> issues[k].severity == Warning && issues[k].issueType != CitationInvalid)
      && (HasCritical(issues) <==> order != [])
  {
    var issues := GateIssues(content, registry, minCitations, maxWords, order);
    if order != [] {
      assert issues[0].severity == Critical;
    }
  }

  /** The gate's verdict given the order in which the missing ids were met, and the topics chosen. */
  function Gate(sectionId: int, content: string, registry: set<string>, minCitations: int, maxWords: int,
                order: seq<string>, topics: seq<string>): GateResult
  {
    var issues := GateIssues(content, registry, minCitations, maxWords, order);
    GateResult(sectionId, !HasCritical(issues), issues, 1, if order == [] then [] else topics)
  }

  /** A section passes exactly when every cited id is in the registry; the warnings never fail it. */
  lemma GatePassesIffRegistered(sectionId: int, content: string, registry: set<string>, minCitations: int, maxWords: int,
                                order: seq<string>, topics: seq<string>)
    requires Enumerates(order, MissingIds(content, registry))
    ensures Gate(sectionId, content, registry, minCitations, maxWords, order, topics).passed
      <==> CitationSet(content) <= registry
  {
    GateIssuesShape(content, registry, minCitations, maxWords, order);
    if order != [] {
      assert order[0] in MissingIds(content, registry);
    }
    forall x | x in CitationSet(content) && x !in registry ensures x in order {
      assert x in MissingIds(content, registry);
    }
  }

  /** `_validate_section`'s loop over the distinct citations, met in hash order: any id not yet met comes next. */
  method MissingInSetOrder(content: string, registry: set<string>) returns (issues: seq<ValidationIssue>, order: seq<string>)
    ensures Enumerates(order, MissingIds(content, registry))
    ensures issues == InvalidIssues(order)
  {
    var pool := CitationSet(content);
    issues, order := [], [];
    while pool != {}
      invariant pool <= CitationSet(content)
      invariant forall i, j :: 0 <= i < j < |order| ==> order[i] != order[j]
      invariant forall k :: 0 <= k < |order| ==> order[k] in MissingIds(content, registry) && order[k] !in pool
      invariant forall x :: x in MissingIds(content, registry) ==> x in pool || x in order
      invariant issues == InvalidIssues(order)
      decreases |pool|
    {
      var citation :| citation in pool;
      if citation !in registry {
        issues := issues + [InvalidIssue(citation)];
        order := order + [citation];
      }
      pool := pool - {citation};
    }
  }

  /**
   * `validate_section`: `registry` is the key set of `sources_db`. Also gives
   * the missing ids in the order the loop met them.
   */
  method ValidateSection(registry: set<string>, sectionId: int, content: string, minCitations: int, maxWords: int)
    returns (r: GateResult, order: seq<string>)
    ensures Enumerates(order, MissingIds(content, registry))
    ensures r == Gate(sectionId, content, registry, minCitations, maxWords, order, r.missingTopics)
    ensures order != [] ==> TopicChoice(r.missingTopics, TopicCandidates(content, order))
    ensures r.passed <==> CitationSet(content) <= registry
  {
    var issues;
    issues, order := MissingInSetOrder(content, registry);
    assert forall k :: 0 <= k < |order| ==> order[k] != [] by {
      assert forall k :: 0 <= k < |order| ==> IsCitationId(order[k]);
    }
    var topics := ExtractTopicsFromContext(content, order);
    ghost var invalid := issues;
    var count := |CitationSet(content)|;
    ghost var countPart := if count < minCitations then [CountIssue(count, minCitations)] else [];
    if count < minCitations {
      issues := issues + [CountIssue(count, minCitations)];
    } else {
      assert issues == invalid + countPart;
    }
    var wordCount := |Words(content)|;
    ghost var lengthPart := if LengthOff(wordCount, maxWords) then [LengthIssue(wordCount, maxWords)] else [];
    if LengthOff(wordCount, maxWords) {
      issues := issues + [LengthIssue(wordCount, maxWords)];
    } else {
      assert issues == invalid + countPart + lengthPart;
    }
    r := GateResult(sectionId, !HasCritical(issues), issues, 1, if order == [] then [] else topics);
    GatePassesIffRegistered(sectionId, content, registry, minCitations, maxWords, order, r.missingTopics);
  }
}

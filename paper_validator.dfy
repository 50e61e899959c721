/**
 * Citation validation of the `src/` pipeline: each paper is checked for
 * existence, scored for relevance by a language model, and classified as
 * accepted, flagged or rejected against two thresholds; results are cached by
 * the paper's url (or title), and a batch mode scores papers ten at a time.
 */
module PaperValidator {
  import opened Wrappers
  import opened Text
  import opened Searcher
  import opened Seqs

  datatype Status = Accepted | Flagged | Rejected

  /** The reason text of a result; the score is rendered with two decimals in the source. */
  datatype Reason = PaperNotFound | HighRelevance(score: real) | ModerateRelevance(score: real) | LowRelevance(score: real)

  datatype ValidationResult = ValidationResult(found: bool, relevanceScore: real, status: Status, reason: Reason)

  /** The result for a paper judged not to exist. */
  const NotFound: ValidationResult := ValidationResult(false, 0.0, Rejected, PaperNotFound)

  /** The threshold rule shared by `validate` and `validate_batch`. */
  function Classify(score: real, minRelevance: real, autoAccept: real): (r: ValidationResult)
    ensures r.found && r.relevanceScore == score
    ensures r.status == Accepted <==> score >= autoAccept
    ensures r.status == Flagged <==> minRelevance <= score < autoAccept
    ensures r.status == Rejected <==> score < autoAccept && score < minRelevance
  {
    if score >= autoAccept then ValidationResult(true, score, Accepted, HighRelevance(score))
    else if score >= minRelevance then ValidationResult(true, score, Flagged, ModerateRelevance(score))
    else ValidationResult(true, score, Rejected, LowRelevance(score))
  }

  /** The result for a paper whose existence check gave `found` and whose relevance is `score`. */
  function Outcome(found: bool, score: real, minRelevance: real, autoAccept: real): ValidationResult
  {
    if found then Classify(score, minRelevance, autoAccept) else NotFound
  }

  /** A result as either code path produces it: not found, or classified by its own score. */
  predicate WellFormed(r: ValidationResult, minRelevance: real, autoAccept: real)
  {
    r == NotFound || (r.found && r == Classify(r.relevanceScore, minRelevance, autoAccept))
  }

  /** `paper.url or paper.title`. */
  function CacheKey(p: Paper): string
  {
    if p.url != "" then p.url else p.title
  }

  // ---------------------------------------------------------------- existence

  /**
   * `_validate_existence`: an `arxiv.org` url exists without a request; `doi.org`
   * and other `http` urls ask `headOk` (a HEAD request answering 200, false on a
   * request error); anything else exists iff title and abstract are non-empty.
   */
  function ValidateExistence(p: Paper, headOk: string -> bool): (found: bool)
  {
    if Contains(Lower(p.url), "arxiv.org") then true
    else if Contains(p.url, "doi.org") then headOk(p.url)
    else if StartsWith(p.url, "http") then headOk(p.url)
    else p.title != "" && p.summary != ""
  }

  /** The branches that need no network: arXiv urls, and urls that are neither DOI nor http. */
  lemma ExistenceWithoutNetwork(p: Paper, headOk: string -> bool, other: string -> bool)
    ensures Contains(Lower(p.url), "arxiv.org") ==> ValidateExistence(p, headOk)
    ensures !Contains(Lower(p.url), "arxiv.org") && !Contains(p.url, "doi.org") && !StartsWith(p.url, "http") ==>
      (ValidateExistence(p, headOk) <==> p.title != "" && p.summary != "")
    ensures !Contains(Lower(p.url), "arxiv.org") && !Contains(p.url, "doi.org") && !StartsWith(p.url, "http") ==>
      ValidateExistence(p, headOk) == ValidateExistence(p, other)
  {
  }

  // ---------------------------------------------------------------- relevance score

  /** Length of the run of digits starting at `p`. */
  function DigitRun(s: string, p: nat): (n: nat)
    requires p <= |s|
    ensures p + n <= |s|
    ensures forall k :: p <= k < p + n ==> IsDigit(s[k])
    ensures p + n < |s| ==> !IsDigit(s[p + n])
    decreases |s| - p
  {
    if p < |s| && IsDigit(s[p]) then 1 + DigitRun(s, p + 1) else 0
  }

  /**
   * The length of the match of `0?\.\d+|[01]\.?\d*` at position `p`, trying the
   * alternatives in order as Python's `re` does, or None.
   */
  function MatchAt(s: string, p: nat): (m: Option<nat>)
    requires p <= |s|
    ensures m.Some? ==> 0 < m.value && p + m.value <= |s|
  {
    if p + 2 < |s| && s[p] == '0' && s[p + 1] == '.' && IsDigit(s[p + 2]) then Some(2 + DigitRun(s, p + 2))
    else if p + 1 < |s| && s[p] == '.' && IsDigit(s[p + 1]) then Some(1 + DigitRun(s, p + 1))
    else if p < |s| && (s[p] == '0' || s[p] == '1') then
      if p + 1 < |s| && s[p + 1] == '.' then Some(2 + DigitRun(s, p + 2)) else Some(1 + DigitRun(s, p + 1))
    else None
  }

  /** `re.search`: the leftmost position with a match, and the match. */
  function Search(s: string, p: nat): (m: Option<(nat, nat)>)
    requires p <= |s|
    ensures m.Some? ==> p <= m.value.0 <= |s| && MatchAt(s, m.value.0) == Some(m.value.1)
    ensures m.Some? ==> forall q :: p <= q < m.value.0 ==> MatchAt(s, q).None?
    ensures m.None? ==> forall q :: p <= q <= |s| ==> MatchAt(s, q).None?
    decreases |s| - p
  {
    match MatchAt(s, p)
    case Some(n) => Some((p, n))
    case None => if p == |s| then None else Search(s, p + 1)
  }

  function Pow10(n: nat): (r: nat)
    ensures r >= 1
  {
    if n == 0 then 1 else 10 * Pow10(n - 1)
  }

  /** `float(t)` for a matched text: digits, optionally a point and more digits. */
  function DecimalValue(t: string): real
    requires forall k :: 0 <= k < |t| ==> IsDigit(t[k]) || t[k] == '.'
  {
    var dot := LastIndexOfChar(t, '.');
    if dot < 0 then DigitsValue(t) as real
    else
      var whole := t[..dot];
      var frac := t[dot + 1..];
      if forall k :: 0 <= k < |whole| ==> IsDigit(whole[k]) then
        DigitsValue(whole) as real + DigitsValue(frac) as real / Pow10(|frac|) as real
      else 0.0
  }

  /** `max(0.0, min(1.0, x))`. */
  function Clamp(x: real): (r: real)
    ensures 0.0 <= r <= 1.0
    ensures 0.0 <= x <= 1.0 ==> r == x
  {
    if x > 1.0 then 1.0 else if x < 0.0 then 0.0 else x
  }

  lemma MatchedText(s: string, p: nat, n: nat)
    requires p <= |s| && MatchAt(s, p) == Some(n)
    ensures forall k :: p <= k < p + n ==> IsDigit(s[k]) || s[k] == '.'
  {
  }

  /**
   * `_validate_relevance` given the model's reply (None when the call raised):
   * the first number in the stripped reply, clamped to [0, 1], else 0.5.
   */
  function RelevanceScore(reply: Option<string>): (score: real)
    ensures 0.0 <= score <= 1.0
  {
    if reply.None? then 0.5
    else
      var s := Strip(reply.value);
      match Search(s, 0)
      case None => 0.5
      case Some((p, n)) =>
        MatchedText(s, p, n);
        Clamp(DecimalValue(s[p..p + n]))
  }

  /** A reply without any digit cannot match the pattern, so it scores the 0.5 fallback. */
  lemma NoDigitsScoresHalf(reply: string)
    requires forall k :: 0 <= k < |reply| ==> !IsDigit(reply[k])
    ensures RelevanceScore(Some(reply)) == 0.5
  {
    var s := Strip(reply);
    var a := StripIsSlice(reply);
    assert forall k :: 0 <= k < |s| ==> !IsDigit(s[k]) by {
      forall k | 0 <= k < |s| ensures !IsDigit(s[k]) {
        assert s[k] == reply[a + k];
      }
    }
    assert forall q :: 0 <= q <= |s| ==> MatchAt(s, q).None?;
    assert Search(s, 0).None?;
  }

  /** A reply whose stripped text starts with a match scores that match's value, clamped. */
  lemma RelevanceOfLeadingMatch(reply: string, n: nat)
    requires |Strip(reply)| > 0 && MatchAt(Strip(reply), 0) == Some(n)
    ensures forall k :: 0 <= k < n ==> IsDigit(Strip(reply)[k]) || Strip(reply)[k] == '.'
    ensures RelevanceScore(Some(reply)) == Clamp(DecimalValue(Strip(reply)[..n]))
  {
    var s := Strip(reply);
    MatchedText(s, 0, n);
    assert Search(s, 0) == Some((0, n));
    assert s[0..n] == s[..n];
  }

  /** A reply that is exactly a score in [0, 1] reads as that score: "0.85" gives 0.85. */
  lemma RelevanceOfPlainScore()
    ensures RelevanceScore(Some("0.85")) == 0.85
  {
    PlainScoreText();
    PlainScoreMatch();
    PlainScoreValue();
    RelevanceOfLeadingMatch("0.85", 4);
  }

  lemma PlainScoreText()
    ensures Strip("0.85") == "0.85"
  {
    var a := "0.85";
    assert !IsSpace(a[0]) && !IsSpace(a[3]);
    StripUnchanged(a);
  }

  lemma PlainScoreMatch()
    ensures MatchAt("0.85", 0) == Some(4)
  {
    var a := "0.85";
    assert DigitRun(a, 4) == 0;
    assert DigitRun(a, 2) == 2;
  }

  lemma PlainScoreValue()
    ensures DecimalValue("0.85"[..4]) == 0.85
  {
    var a := "0.85";
    assert a[..4] == a;
    assert LastIndexOfChar(a, '.') == 1;
    assert a[..1] == "0" && a[2..] == "85";
    assert DigitsValue("85") == 85;
  }

  /** A score above 1 is clamped: "1.5" gives 1.0. */
  lemma RelevanceClamped()
    ensures RelevanceScore(Some("1.5")) == 1.0
  {
    ClampedText();
    ClampedMatch();
    ClampedValue();
    RelevanceOfLeadingMatch("1.5", 3);
  }

  lemma ClampedText()
    ensures Strip("1.5") == "1.5"
  {
    var c := "1.5";
    assert !IsSpace(c[0]) && !IsSpace(c[2]);
    StripUnchanged(c);
  }

  lemma ClampedMatch()
    ensures MatchAt("1.5", 0) == Some(3)
  {
    var c := "1.5";
    assert DigitRun(c, 3) == 0;
    assert DigitRun(c, 2) == 1;
  }

  lemma ClampedValue()
    ensures DecimalValue("1.5"[..3]) == 1.5
  {
    var c := "1.5";
    assert c[..3] == c;
    assert LastIndexOfChar(c, '.') == 1;
    assert c[..1] == "1" && c[2..] == "5";
  }

  // ---------------------------------------------------------------- batch scores

  /**
   * One value of the decoded batch reply as `float()` takes it: a number (or a
   * numeric string, or a boolean), a string `float()` rejects with a
   * ValueError, or a `null`, list or object, on which it raises a TypeError.
   */
  datatype ScoreValue = Number(x: real) | NotNumeric | NotScalar

  /**
   * The batch call as `_validate_relevance_batch` sees it: the model call
   * raised; the reply does not decode; it decodes to an object; to a list or
   * string, given by the keys `key in scores` finds in it (list elements,
   * substrings), which cannot be indexed by a key; or to a number, boolean or
   * `null`, on which `in` itself raises a TypeError.
   */
  datatype BatchReply =
    | CallFailed
    | Undecodable
    | ScoreObject(scores: map<string, ScoreValue>)
    | KeyContainer(members: set<string>)
    | NoContainer

  /** What the loop does with one paper's key: a clamped score, a missing score, a caught or an uncaught error. */
  datatype Lookup = Score(x: real) | Missing | Caught | Uncaught

  function PaperKey(i: nat): string
  {
    "paper_" + NatToString(i)
  }

  /** `if key in scores: score = float(scores[key])` for one key of a decoded reply. */
  function LookupOf(reply: BatchReply, key: string): (l: Lookup)
    ensures l.Score? ==> 0.0 <= l.x <= 1.0
  {
    match reply
    case ScoreObject(m) =>
      if key !in m then Missing
      else (match m[key]
            case Number(x) => Score(Clamp(x))
            case NotNumeric => Caught
            case NotScalar => Uncaught)
    case KeyContainer(ms) => if key in ms then Uncaught else Missing
    case _ => Uncaught
  }

  /** The lookups of the chunk's keys `paper_1`, `paper_2`, ..., in order. */
  function Lookups(chunk: seq<Paper>, reply: BatchReply): (ls: seq<Lookup>)
    ensures |ls| == |chunk|
  {
    seq(|chunk|, i requires 0 <= i < |chunk| => LookupOf(reply, PaperKey(i + 1)))
  }

  /** Which lookups raise. */
  function Raising(ls: seq<Lookup>): (bs: seq<bool>)
    ensures |bs| == |ls| && forall i :: 0 <= i < |ls| ==> bs[i] == (ls[i].Caught? || ls[i].Uncaught?)
  {
    seq(|ls|, i requires 0 <= i < |ls| => ls[i].Caught? || ls[i].Uncaught?)
  }

  /**
   * `_validate_relevance_batch`: `None` when it raises an error its `except`
   * does not catch (a failed call, or a TypeError at the first raising key);
   * an empty map on a decode error or a ValueError at the first raising key;
   * else, for each paper in order, its key maps to the clamped `paper_<i>`
   * score (1-based) or None when that score is missing, later papers
   * overwriting earlier ones.
   */
  function BatchScores(chunk: seq<Paper>, reply: BatchReply): (scores: Option<map<string, Option<real>>>)
  {
    if reply.CallFailed? then None
    else if reply.Undecodable? then Some(map[])
    else
      var ls := Lookups(chunk, reply);
      match FirstTrue(Raising(ls), 0)
      case Some(i) => if ls[i].Uncaught? then None else Some(map[])
      case None => Some(ScoresFrom(chunk, ls))
  }

  /**
   * The batch call raises exactly when the model call failed or the first key
   * whose lookup raises raises an uncaught TypeError; it gives an empty map
   * when the reply does not decode or that first error is a ValueError; and
   * without raising keys it gives the scores of the lookups.
   */
  lemma BatchScoresSpec(chunk: seq<Paper>, reply: BatchReply)
    requires !reply.CallFailed? && !reply.Undecodable?
    ensures var ls := Lookups(chunk, reply);
      && (BatchScores(chunk, reply).None? <==>
          exists i :: 0 <= i < |ls| && ls[i].Uncaught? && forall k :: 0 <= k < i ==> ls[k].Score? || ls[k].Missing?)
      && ((forall i :: 0 <= i < |ls| ==> ls[i].Score? || ls[i].Missing?) ==>
          BatchScores(chunk, reply) == Some(ScoresFrom(chunk, ls)))
  {
    var ls := Lookups(chunk, reply);
    var bs := Raising(ls);
    FirstTrueSpec(bs, 0);
    match FirstTrue(bs, 0)
    case Some(i) =>
      if !ls[i].Uncaught? {
        forall j | 0 <= j < |ls| && ls[j].Uncaught?
          ensures exists k :: 0 <= k < j && !(ls[k].Score? || ls[k].Missing?)
        {
          assert bs[j] && j != i;
          assert i < j && !(ls[i].Score? || ls[i].Missing?);
        }
      }
    case None =>
      forall j | 0 <= j < |ls|
        ensures ls[j].Score? || ls[j].Missing?
      {
        assert !bs[j];
      }
  }

  /** A reply listing a number under every key of the chunk gives the clamped numbers. */
  lemma AllScoresPresent(chunk: seq<Paper>, m: map<string, ScoreValue>)
    requires forall i :: 1 <= i <= |chunk| ==> PaperKey(i) in m && m[PaperKey(i)].Number?
    ensures BatchScores(chunk, ScoreObject(m)) == Some(ScoresFrom(chunk, Lookups(chunk, ScoreObject(m))))
  {
    AllLookupsScore(chunk, m);
    BatchScoresSpec(chunk, ScoreObject(m));
  }

  lemma AllLookupsScore(chunk: seq<Paper>, m: map<string, ScoreValue>)
    requires forall i :: 1 <= i <= |chunk| ==> PaperKey(i) in m && m[PaperKey(i)].Number?
    ensures forall i :: 0 <= i < |chunk| ==> Lookups(chunk, ScoreObject(m))[i].Score?
  {
    var ls := Lookups(chunk, ScoreObject(m));
    forall i | 0 <= i < |ls| ensures ls[i].Score? {
      var key := PaperKey(i + 1);
      assert key in m && m[key].Number?;
      assert ls[i] == LookupOf(ScoreObject(m), key);
    }
  }

  /** Each paper's key holds the score of the last lookup under that key, or None when that lookup found no score. */
  function ScoresFrom(chunk: seq<Paper>, ls: seq<Lookup>): (r: map<string, Option<real>>)
    requires |ls| == |chunk|
    ensures r.Keys == set p | p in chunk :: CacheKey(p)
    decreases |chunk|
  {
    if chunk == [] then map[]
    else
      var n := |chunk|;
      var prev := ScoresFrom(chunk[..n - 1], ls[..n - 1]);
      assert forall p :: p in chunk <==> p in chunk[..n - 1] || p == chunk[n - 1];
      prev[CacheKey(chunk[n - 1]) := if ls[n - 1].Score? then Some(ls[n - 1].x) else None]
  }

  /** The score `validate_batch` uses: the batch score when present, else an individual rescoring. */
  function ScoreFor(scores: map<string, Option<real>>, p: Paper, individual: Paper -> Option<string>): (score: real)
    ensures CacheKey(p) in scores && scores[CacheKey(p)].Some? ==> score == scores[CacheKey(p)].value
    ensures !(CacheKey(p) in scores && scores[CacheKey(p)].Some?) ==> score == RelevanceScore(individual(p))
  {
    if CacheKey(p) in scores && scores[CacheKey(p)].Some? then scores[CacheKey(p)].value
    else RelevanceScore(individual(p))
  }

  /** Batch scores lie in [0, 1], so every score validate_batch uses does. */
  lemma {:induction false} ScoresFromBounded(chunk: seq<Paper>, ls: seq<Lookup>)
    requires |ls| == |chunk| && forall i :: 0 <= i < |ls| && ls[i].Score? ==> 0.0 <= ls[i].x <= 1.0
    ensures forall k :: k in ScoresFrom(chunk, ls) && ScoresFrom(chunk, ls)[k].Some? ==>
      0.0 <= ScoresFrom(chunk, ls)[k].value <= 1.0
    decreases |chunk|
  {
    if chunk != [] {
      ScoresFromBounded(chunk[..|chunk| - 1], ls[..|chunk| - 1]);
    }
  }

  /** The entry of a key is decided by the last paper of the chunk holding it. */
  lemma {:induction false} ScoresFromLast(chunk: seq<Paper>, ls: seq<Lookup>, j: nat)
    requires |ls| == |chunk| && LastWithKey(chunk, j)
    ensures ScoresFrom(chunk, ls)[CacheKey(chunk[j])] == if ls[j].Score? then Some(ls[j].x) else None
    decreases |chunk|
  {
    var n := |chunk|;
    var pre := chunk[..n - 1];
    var prev := ScoresFrom(pre, ls[..n - 1]);
    assert ScoresFrom(chunk, ls) == prev[CacheKey(chunk[n - 1]) := if ls[n - 1].Score? then Some(ls[n - 1].x) else None];
    if j < n - 1 {
      assert CacheKey(chunk[n - 1]) != CacheKey(chunk[j]);
      assert LastWithKey(pre, j) by {
        forall k | j < k < n - 1 ensures CacheKey(pre[k]) != CacheKey(pre[j]) {
          assert pre[k] == chunk[k];
        }
      }
      ScoresFromLast(pre, ls[..n - 1], j);
      assert ls[..n - 1][j] == ls[j];
    }
  }

  const BatchSize: nat := 10

  /** The batch (of ten) that holds paper `j`. */
  function ChunkOf(papers: seq<Paper>, j: nat): seq<Paper>
    requires j < |papers|
  {
    var start := j / BatchSize * BatchSize;
    papers[start..if start + BatchSize < |papers| then start + BatchSize else |papers|]
  }

  /** The last paper (by index) with a given key decides that key's entry in the batch result. */
  predicate LastWithKey(papers: seq<Paper>, j: int)
  {
    0 <= j < |papers| && forall k :: j < k < |papers| ==> CacheKey(papers[k]) != CacheKey(papers[j])
  }

  function KeySet(papers: seq<Paper>): set<string>
  {
    set p | p in papers :: CacheKey(p)
  }

  /** The batch call for the chunk holding paper `j` raises an error `_validate_relevance_batch` does not catch. */
  predicate ChunkRaises(papers: seq<Paper>, j: nat, batchReply: seq<Paper> -> BatchReply)
    requires j < |papers|
  {
    BatchScores(ChunkOf(papers, j), batchReply(ChunkOf(papers, j))).None?
  }

  lemma NextChunkStart(start: nat)
    requires start % BatchSize == 0
    ensures (start + BatchSize) % BatchSize == 0
  {
  }

  /** Papers of one batch share its chunk. */
  lemma SameChunk(papers: seq<Paper>, start: nat, j: nat)
    requires start % BatchSize == 0 && start <= j < |papers| && j < start + BatchSize
    ensures ChunkOf(papers, j) == ChunkOf(papers, start)
  {
    assert j / BatchSize * BatchSize == start;
    assert start / BatchSize * BatchSize == start;
  }

  /**
   * The state validate_batch keeps after the papers before `n`, where `expected[j]`
   * is the outcome the j-th paper gets.
   */
  ghost predicate BatchInvariant(papers: seq<Paper>, n: nat, results: map<string, ValidationResult>,
                                 cache: map<string, ValidationResult>, oldCache: map<string, ValidationResult>,
                                 expected: seq<ValidationResult>)
    requires n <= |papers| == |expected|
  {
    KeysRecorded(papers[..n], results, expected) && CacheAgrees(results, cache, oldCache)
  }

  /** Every key of `done` is recorded, with the expected outcome of the last paper holding it. */
  ghost predicate KeysRecorded(done: seq<Paper>, results: map<string, ValidationResult>, expected: seq<ValidationResult>)
    requires |done| <= |expected|
  {
    && results.Keys == KeySet(done)
    && (forall j :: LastWithKey(done, j) ==> results[CacheKey(done[j])] == expected[j])
  }

  /** Existing results are cached unchanged, and only existing results entered the cache. */
  ghost predicate CacheAgrees(results: map<string, ValidationResult>, cache: map<string, ValidationResult>,
                              oldCache: map<string, ValidationResult>)
  {
    && (forall k :: k in results && results[k].found ==> k in cache && cache[k] == results[k])
    && (forall k :: k in cache && (k !in oldCache || cache[k] != oldCache[k]) ==> k in results && cache[k].found)
  }

  /** Recording one result keeps the cache in agreement with the batch results. */
  lemma CacheStep(results0: map<string, ValidationResult>, cache0: map<string, ValidationResult>,
                  oldCache: map<string, ValidationResult>, key: string, r: ValidationResult)
    requires CacheAgrees(results0, cache0, oldCache)
    ensures r.found ==> CacheAgrees(results0[key := r], cache0[key := r], oldCache)
    ensures !r.found ==> CacheAgrees(results0[key := r], cache0, oldCache)
  {
  }

  lemma BatchStep(papers: seq<Paper>, i: nat)
    requires i < |papers|
    ensures KeySet(papers[..i + 1]) == KeySet(papers[..i]) + {CacheKey(papers[i])}
    ensures forall j :: LastWithKey(papers[..i + 1], j) ==> j == i || (LastWithKey(papers[..i], j) && CacheKey(papers[j]) != CacheKey(papers[i]))
  {
    var p1 := papers[..i + 1];
    assert p1 == papers[..i] + [papers[i]];
    forall j | LastWithKey(p1, j) && j != i
      ensures LastWithKey(papers[..i], j) && CacheKey(papers[j]) != CacheKey(papers[i])
    {
      assert p1[i] == papers[i] && p1[j] == papers[j];
      forall k | j < k < i ensures CacheKey(papers[..i][k]) != CacheKey(papers[..i][j]) {
        assert p1[k] == papers[k];
      }
    }
  }

  /** Recording paper `i`'s expected result keeps the invariant, one paper further on. */
  lemma InvariantStep(papers: seq<Paper>, i: nat, results0: map<string, ValidationResult>,
                      cache0: map<string, ValidationResult>, oldCache: map<string, ValidationResult>,
                      expected: seq<ValidationResult>)
    requires i < |papers| == |expected|
    requires BatchInvariant(papers, i, results0, cache0, oldCache, expected)
    ensures var key := CacheKey(papers[i]);
      BatchInvariant(papers, i + 1, results0[key := expected[i]],
                     if expected[i].found then cache0[key := expected[i]] else cache0, oldCache, expected)
  {
    CacheStep(results0, cache0, oldCache, CacheKey(papers[i]), expected[i]);
    KeysStep(papers, i, results0, expected);
  }

  lemma KeysStep(papers: seq<Paper>, i: nat, results0: map<string, ValidationResult>, expected: seq<ValidationResult>)
    requires i < |papers| == |expected|
    requires KeysRecorded(papers[..i], results0, expected)
    ensures KeysRecorded(papers[..i + 1], results0[CacheKey(papers[i]) := expected[i]], expected)
  {
    var results := results0[CacheKey(papers[i]) := expected[i]];
    BatchStep(papers, i);
    forall j | LastWithKey(papers[..i + 1], j)
      ensures results[CacheKey(papers[..i + 1][j])] == expected[j]
    {
      assert papers[..i + 1][j] == papers[j];
      if j != i {
        assert papers[..i][j] == papers[j];
      }
    }
  }

  class CitationValidator {
    const minRelevance: real
    const autoAccept: real
    var cache: map<string, ValidationResult>

    constructor (minRelevanceScore: real, autoAcceptScore: real)
      ensures minRelevance == minRelevanceScore && autoAccept == autoAcceptScore && cache == map[]
    {
      minRelevance := minRelevanceScore;
      autoAccept := autoAcceptScore;
      cache := map[];
    }

    /**
     * `validate`: a cached key returns its cached result and changes nothing;
     * otherwise the result is NotFound for a missing paper, else the threshold
     * classification of its score, and it is cached under the key.
     */
    method Validate(paper: Paper, headOk: string -> bool, reply: Option<string>) returns (result: ValidationResult)
      modifies this
      ensures old(CacheKey(paper) in cache) ==> result == old(cache[CacheKey(paper)]) && cache == old(cache)
      ensures !old(CacheKey(paper) in cache) ==>
        result == Outcome(ValidateExistence(paper, headOk), RelevanceScore(reply), minRelevance, autoAccept)
        && cache == old(cache)[CacheKey(paper) := result]
    {
      var key := CacheKey(paper);
      if key in cache {
        return cache[key];
      }
      var found := ValidateExistence(paper, headOk);
      if !found {
        result := NotFound;
        cache := cache[key := result];
        return;
      }
      var relevance := RelevanceScore(reply);
      result := Classify(relevance, minRelevance, autoAccept);
      cache := cache[key := result];
    }

    /** The result `validate` computes for an uncached paper is well formed and its score lies in [0, 1]. */
    lemma OutcomeWellFormed(found: bool, reply: Option<string>)
      ensures WellFormed(Outcome(found, RelevanceScore(reply), minRelevance, autoAccept), minRelevance, autoAccept)
      ensures 0.0 <= Outcome(found, RelevanceScore(reply), minRelevance, autoAccept).relevanceScore <= 1.0
    {
    }

    /** What validate_batch records for a paper given its batch's scores. */
    function PaperOutcome(p: Paper, scores: map<string, Option<real>>, individual: Paper -> Option<string>,
                          headOk: string -> bool): ValidationResult
    {
      Outcome(ValidateExistence(p, headOk), ScoreFor(scores, p, individual), minRelevance, autoAccept)
    }

    /** What validate_batch records for paper `j` when its batch call returns. */
    function BatchOutcome(papers: seq<Paper>, j: nat, batchReply: seq<Paper> -> BatchReply,
                          individual: Paper -> Option<string>, headOk: string -> bool): ValidationResult
      requires j < |papers| && !ChunkRaises(papers, j, batchReply)
    {
      var chunk := ChunkOf(papers, j);
      Outcome(ValidateExistence(papers[j], headOk),
              ScoreFor(BatchScores(chunk, batchReply(chunk)).value, papers[j], individual),
              minRelevance, autoAccept)
    }

    /**
     * The inner loop of `validate_batch` for one batch `papers[start..stop]`:
     * when the batch call raises, nothing is recorded and the error leaves the
     * loop; otherwise every paper of the batch is recorded.
     */
    method ValidateChunk(papers: seq<Paper>, start: nat, stop: nat, results0: map<string, ValidationResult>,
                         ghost oldCache: map<string, ValidationResult>, ghost expected: seq<ValidationResult>,
                         batchReply: seq<Paper> -> BatchReply, individual: Paper -> Option<string>,
                         headOk: string -> bool)
      returns (results: map<string, ValidationResult>, raised: bool)
      requires start % BatchSize == 0 && start < stop <= |papers| == |expected|
      requires stop == if start + BatchSize < |papers| then start + BatchSize else |papers|
      requires forall j :: start <= j < stop && !ChunkRaises(papers, j, batchReply) ==>
        expected[j] == BatchOutcome(papers, j, batchReply, individual, headOk)
      requires BatchInvariant(papers, start, results0, cache, oldCache, expected)
      modifies this
      ensures raised == ChunkRaises(papers, start, batchReply)
      ensures raised ==> results == results0 && cache == old(cache)
      ensures !raised ==> BatchInvariant(papers, stop, results, cache, oldCache, expected)
    {
      var batch := papers[start..stop];
      assert ChunkOf(papers, start) == batch;
      var outcome := BatchScores(batch, batchReply(batch));
      results := results0;
      if outcome.None? {
        return results, true;
      }
      raised := false;
      var scores := outcome.value;
      forall j | start <= j < stop
        ensures expected[j] == PaperOutcome(papers[j], scores, individual, headOk)
      {
        SameChunk(papers, start, j);
      }
      results := RecordPapers(papers, start, stop, scores, results, oldCache, expected, individual, headOk);
    }

    /** The papers of one batch whose call returned `scores`, recorded in order. */
    method RecordPapers(papers: seq<Paper>, start: nat, stop: nat, scores: map<string, Option<real>>,
                        results0: map<string, ValidationResult>, ghost oldCache: map<string, ValidationResult>,
                        ghost expected: seq<ValidationResult>,
                        individual: Paper -> Option<string>, headOk: string -> bool)
      returns (results: map<string, ValidationResult>)
      requires start <= stop <= |papers| == |expected|
      requires forall j {:trigger PaperOutcome(papers[j], scores, individual, headOk)} :: start <= j < stop ==>
        expected[j] == PaperOutcome(papers[j], scores, individual, headOk)
      requires BatchInvariant(papers, start, results0, cache, oldCache, expected)
      modifies this
      ensures BatchInvariant(papers, stop, results, cache, oldCache, expected)
    {
      results := results0;
      var i := start;
      while i < stop
        invariant start <= i <= stop
        invariant BatchInvariant(papers, i, results, cache, oldCache, expected)
      {
        assert expected[i] == PaperOutcome(papers[i], scores, individual, headOk);
        results := RecordPaper(papers, i, scores, results, oldCache, expected, individual, headOk);
        i := i + 1;
      }
    }

    /** One paper of the inner loop: its result goes into the batch result, and into the cache if it exists. */
    method RecordPaper(papers: seq<Paper>, i: nat, scores: map<string, Option<real>>,
                       results0: map<string, ValidationResult>, ghost oldCache: map<string, ValidationResult>,
                       ghost expected: seq<ValidationResult>,
                       individual: Paper -> Option<string>, headOk: string -> bool)
      returns (results: map<string, ValidationResult>)
      requires i < |papers| == |expected|
      requires expected[i] == PaperOutcome(papers[i], scores, individual, headOk)
      requires BatchInvariant(papers, i, results0, cache, oldCache, expected)
      modifies this
      ensures BatchInvariant(papers, i + 1, results, cache, oldCache, expected)
    {
      var paper := papers[i];
      var key := CacheKey(paper);
      var score := ScoreFor(scores, paper, individual);
      var found := ValidateExistence(paper, headOk);
      ghost var cache0 := cache;
      if !found {
        results := results0[key := NotFound];
      } else {
        var result := Classify(score, minRelevance, autoAccept);
        cache := cache[key := result];
        results := results0[key := result];
      }
      InvariantStep(papers, i, results0, cache0, oldCache, expected);
    }

    /**
     * `validate_batch`: batches of ten are processed in order until a batch
     * call raises, which ends the call with that error (`raised`, at paper
     * `stopped`); for the papers before it there is an entry for every key,
     * each key holding the outcome of the last paper with that key (batch score
     * when present, else an individual rescoring); existing papers are cached
     * with the same result, papers judged missing are not, and only existing
     * results enter the cache.
     */
    method ValidateBatch(papers: seq<Paper>, batchReply: seq<Paper> -> BatchReply,
                         individual: Paper -> Option<string>, headOk: string -> bool)
      returns (results: map<string, ValidationResult>, raised: bool, ghost stopped: nat)
      modifies this
      ensures stopped <= |papers| && (raised <==> stopped < |papers|)
      ensures raised ==> stopped % BatchSize == 0
      ensures raised ==> ChunkRaises(papers, stopped, batchReply)
      ensures forall j :: 0 <= j < stopped ==> !ChunkRaises(papers, j, batchReply)
      ensures results.Keys == KeySet(papers[..stopped])
      ensures forall j :: LastWithKey(papers[..stopped], j) ==>
        results[CacheKey(papers[j])] == BatchOutcome(papers, j, batchReply, individual, headOk)
      ensures forall k :: k in results && results[k].found ==> k in cache && cache[k] == results[k]
      ensures forall k :: k in cache && (k !in old(cache) || cache[k] != old(cache)[k]) ==> k in results && cache[k].found
    {
      results := map[];
      raised := false;
      ghost var oldCache := cache;
      ghost var expected := seq(|papers|, j requires 0 <= j < |papers| =>
        if ChunkRaises(papers, j, batchReply) then NotFound else BatchOutcome(papers, j, batchReply, individual, headOk));
      var i := 0;
      assert papers[..0] == [];
      assert KeySet(papers[..0]) == {};
      while i < |papers|
        invariant 0 <= i <= |papers| && (i < |papers| ==> i % BatchSize == 0)
        invariant BatchInvariant(papers, i, results, cache, oldCache, expected)
        invariant forall j :: 0 <= j < i ==> !ChunkRaises(papers, j, batchReply)
        invariant oldCache == old(cache)
      {
        var stop := if i + BatchSize < |papers| then i + BatchSize else |papers|;
        var chunkRaised;
        results, chunkRaised := ValidateChunk(papers, i, stop, results, oldCache, expected, batchReply, individual, headOk);
        if chunkRaised {
          raised := true;
          break;
        }
        forall j | i <= j < stop ensures !ChunkRaises(papers, j, batchReply) {
          SameChunk(papers, i, j);
        }
        NextChunkStart(i);
        i := stop;
      }
      stopped := i;
      forall j | LastWithKey(papers[..stopped], j)
        ensures results[CacheKey(papers[j])] == BatchOutcome(papers, j, batchReply, individual, headOk)
      {
        assert papers[..stopped][j] == papers[j];
      }
    }

    /** Every batch result is well formed, so its status always agrees with the thresholds. */
    lemma BatchOutcomeWellFormed(papers: seq<Paper>, j: nat, batchReply: seq<Paper> -> BatchReply,
                                 individual: Paper -> Option<string>, headOk: string -> bool)
      requires j < |papers| && !ChunkRaises(papers, j, batchReply)
      ensures WellFormed(BatchOutcome(papers, j, batchReply, individual, headOk), minRelevance, autoAccept)
      ensures 0.0 <= BatchOutcome(papers, j, batchReply, individual, headOk).relevanceScore <= 1.0
    {
      var chunk := ChunkOf(papers, j);
      var reply := batchReply(chunk);
      var ls := Lookups(chunk, reply);
      ScoresFromBounded(chunk, ls);
    }
  }
}

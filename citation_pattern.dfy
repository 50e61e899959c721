/**
 * CitationPattern: a scanner for the source-id citation pattern
 * `\[(arxiv:\S+?|doi:\S+?)(?::\s*"[^"]*")?\]` shared by the registry gate and
 * the writing agent, with `re.findall`'s left-to-right, non-overlapping
 * search. The id is the shortest non-blank run after the prefix that is
 * followed either by `]` or by `: "quote"]`.
 */
module CitationPattern {
  import opened Wrappers
  import opened Text

  const ArxivPrefix: string := "arxiv:"
  const DoiPrefix: string := "doi:"

  /** The first index at or after `k` holding `c`. */
  function CharFrom(s: string, k: nat, c: char): (r: Option<nat>)
    ensures r.Some? ==> k <= r.value < |s| && s[r.value] == c
    ensures r.Some? ==> forall j :: k <= j < r.value ==> s[j] != c
    ensures r.None? ==> forall j :: k <= j < |s| ==> s[j] != c
    decreases |s| - k
  {
    if k >= |s| then None
    else if s[k] == c then Some(k)
    else CharFrom(s, k + 1, c)
  }

  /** The end of the whitespace run starting at `k` (`\s*`, greedy). */
  function SpaceRunEnd(s: string, k: nat): (w: nat)
    ensures k <= |s| ==> k <= w <= |s|
    ensures forall j :: k <= j < w && j < |s| ==> IsSpace(s[j])
    ensures w < |s| ==> !IsSpace(s[w])
    decreases |s| - k
  {
    if k >= |s| then k
    else if IsSpace(s[k]) then SpaceRunEnd(s, k + 1)
    else k
  }

  /**
   * The end of `(?::\s*"[^"]*")?\]` matched at `e`: the optional quote group,
   * then `]`. Neither `\s*` nor `[^"]*` can give anything back, so the group
   * matches in at most one way.
   */
  function CloseAt(s: string, e: nat): (r: Option<nat>)
    ensures r.Some? ==> e < r.value <= |s| && s[r.value - 1] == ']'
    ensures e < |s| && s[e] == ']' ==> r == Some(e + 1)
    ensures e < |s| && s[e] != ']' && s[e] != ':' ==> r.None?
    ensures e >= |s| ==> r.None?
  {
    var group :=
      if e < |s| && s[e] == ':' then
        var w := SpaceRunEnd(s, e + 1);
        if w < |s| && s[w] == '"' then
          match CharFrom(s, w + 1, '"')
          case Some(t) => if t + 1 < |s| && s[t + 1] == ']' then Some(t + 2) else None
          case None => None
        else None
      else None;
    if group.Some? then group
    else if e < |s| && s[e] == ']' then Some(e + 1)
    else None
  }

  /**
   * `\S+?` followed by the closing part: the first end `e` (the run so far
   * ending at `e - 1`) after which `CloseAt` succeeds, as long as the run
   * stays non-blank. Gives the id's end and the match's end.
   */
  function LazyEnd(s: string, e: nat): (r: Option<(nat, nat)>)
    requires 0 < e <= |s|
    ensures r.Some? ==> e <= r.value.0 < r.value.1 <= |s|
    ensures r.Some? ==> forall j :: e - 1 <= j < r.value.0 ==> !IsSpace(s[j])
    decreases |s| - e
  {
    if IsSpace(s[e - 1]) then None
    else
      match CloseAt(s, e)
      case Some(m) => Some((e, m))
      case None => if e < |s| then LazyEnd(s, e + 1) else None
  }

  /** The id captured by a match of the alternative with `prefix` whose id starts at `p`. */
  function PrefixedAt(s: string, p: nat, prefix: string): (r: Option<(nat, nat)>)
    requires |prefix| > 0
    ensures r.Some? ==> p + |prefix| < r.value.0 < r.value.1 <= |s| && s[p..p + |prefix|] == prefix
    ensures r.Some? ==> forall j :: p + |prefix| <= j < r.value.0 ==> !IsSpace(s[j])
  {
    if p <= |s| && StartsWith(s[p..], prefix) && p + |prefix| < |s| then
      assert s[p..][..|prefix|] == s[p..p + |prefix|];
      LazyEnd(s, p + |prefix| + 1)
    else None
  }

  /** The first alternative that matches with its id starting at `p`: `arxiv:` is tried before `doi:`. */
  function AlternativeAt(s: string, p: nat): (r: Option<(nat, nat)>)
    ensures r.Some? ==> p < r.value.0 < r.value.1 <= |s| && IsCitationId(s[p..r.value.0])
  {
    var a := PrefixedAt(s, p, ArxivPrefix);
    if a.Some? then
      PrefixedId(s, p, ArxivPrefix, a.value.0);
      a
    else
      var d := PrefixedAt(s, p, DoiPrefix);
      if d.Some? then
        PrefixedId(s, p, DoiPrefix, d.value.0);
        d
      else None
  }

  /** A prefix followed by a non-blank run is a citation id. */
  lemma PrefixedId(s: string, p: nat, prefix: string, e: nat)
    requires prefix == ArxivPrefix || prefix == DoiPrefix
    requires p + |prefix| < e <= |s| && s[p..p + |prefix|] == prefix
    requires forall j :: p + |prefix| <= j < e ==> !IsSpace(s[j])
    ensures IsCitationId(s[p..e])
  {
    var id := s[p..e];
    assert id[..|prefix|] == prefix;
    assert forall j :: 0 <= j < |prefix| ==> !IsSpace(prefix[j]);
    forall j | 0 <= j < |id| ensures !IsSpace(id[j]) {
      if j < |prefix| {
        assert id[j] == prefix[j];
      } else {
        assert id[j] == s[p + j];
      }
    }
  }

  /** The match starting at `i`, if any: the captured id and the end of the match. */
  function MatchAt(s: string, i: nat): (r: Option<(string, nat)>)
    ensures r.Some? ==> i < |s| && s[i] == '[' && i < r.value.1 <= |s|
    ensures r.Some? ==> i + 1 + |r.value.0| < r.value.1 && s[i + 1..i + 1 + |r.value.0|] == r.value.0
    ensures r.Some? ==> IsCitationId(r.value.0)
  {
    if i < |s| && s[i] == '[' then
      match AlternativeAt(s, i + 1)
      case Some(em) => Some((s[i + 1..em.0], em.1))
      case None => None
    else None
  }

  /** What a captured id looks like: a prefix, then at least one more character, and no whitespace. */
  predicate IsCitationId(id: string)
  {
    && (StartsWith(id, ArxivPrefix) || StartsWith(id, DoiPrefix))
    && |id| > 4
    && forall j :: 0 <= j < |id| ==> !IsSpace(id[j])
  }

  /** `re.findall(pattern, s[i:])`: the captured ids, left to right, without overlaps. */
  function FindCitations(s: string, i: nat): (ids: seq<string>)
    ensures forall k :: 0 <= k < |ids| ==> IsCitationId(ids[k])
    decreases |s| - i
  {
    if i >= |s| then []
    else
      match MatchAt(s, i)
      case Some(m) => [m.0] + FindCitations(s, m.1)
      case None => FindCitations(s, i + 1)
  }

  /** The citations of a text, as the set `set(re.findall(...))`. */
  function CitationSet(s: string): (ids: set<string>)
    ensures forall id :: id in ids ==> IsCitationId(id)
  {
    set k | 0 <= k < |FindCitations(s, 0)| :: FindCitations(s, 0)[k]
  }

  // ---------------------------------------------------------------- what the scanner finds

  /** An id whose tail has no `]` and no `:` ends at the first `]` or `: "…"]` after it. */
  lemma {:induction false} LazyEndReaches(s: string, e: nat, f: nat, m: nat)
    requires 0 < e <= f < |s|
    requires forall j :: e - 1 <= j < f ==> !IsSpace(s[j])
    requires forall j :: e <= j < f ==> s[j] != ']' && s[j] != ':'
    requires CloseAt(s, f) == Some(m)
    ensures LazyEnd(s, e) == Some((f, m))
    decreases f - e
  {
    if e < f {
      assert CloseAt(s, e).None?;
      LazyEndReaches(s, e + 1, f, m);
    }
  }

  /** The part of an id after its prefix as the writing prompt asks for it: not empty, no blanks, `]` or `:`. */
  predicate PlainTail(t: string)
  {
    |t| > 0 && forall j :: 0 <= j < |t| ==> !IsSpace(t[j]) && t[j] != ']' && t[j] != ':'
  }

  /** A prefix followed by a plain tail. */
  predicate PlainId(id: string)
  {
    || (StartsWith(id, ArxivPrefix) && PlainTail(id[|ArxivPrefix|..]))
    || (StartsWith(id, DoiPrefix) && PlainTail(id[|DoiPrefix|..]))
  }

  /** A plain id with `prefix`, opened by `[` at `i` and followed by a closing part, is matched with that id captured. */
  lemma MatchOfPrefixedId(s: string, i: nat, id: string, prefix: string, close: nat, m: nat)
    requires prefix == ArxivPrefix || prefix == DoiPrefix
    requires StartsWith(id, prefix) && PlainTail(id[|prefix|..])
    requires i + 1 + |id| == close && close < |s|
    requires s[i] == '[' && s[i + 1..close] == id
    requires CloseAt(s, close) == Some(m)
    ensures PrefixedAt(s, i + 1, prefix) == Some((close, m))
  {
    var p := i + 1;
    var n := |prefix|;
    assert forall j :: p + n <= j < close ==> s[j] == id[|prefix|..][j - p - n];
    assert id[..n] == s[p..close][..n] == s[p..p + n];
    assert s[p..][..n] == s[p..p + n];
    LazyEndReaches(s, p + n + 1, close, m);
  }

  /** A plain id opened by `[` at `i` and followed by a closing part is matched with that id captured. */
  lemma MatchOfPlainId(s: string, i: nat, id: string, close: nat, m: nat)
    requires PlainId(id)
    requires i + 1 + |id| == close && close < |s|
    requires s[i] == '[' && s[i + 1..close] == id
    requires CloseAt(s, close) == Some(m)
    ensures MatchAt(s, i) == Some((id, m))
  {
    var p := i + 1;
    if StartsWith(id, ArxivPrefix) && PlainTail(id[|ArxivPrefix|..]) {
      MatchOfPrefixedId(s, i, id, ArxivPrefix, close, m);
    } else {
      MatchOfPrefixedId(s, i, id, DoiPrefix, close, m);
      assert s[p] == id[0] == 'd';
      assert !StartsWith(s[p..], ArxivPrefix) by {
        assert s[p..][0] == 'd';
      }
    }
  }

  /** `[id]` alone yields exactly that id. */
  lemma FindPlainCitation(id: string)
    requires PlainId(id)
    ensures FindCitations("[" + id + "]", 0) == [id]
  {
    var s := "[" + id + "]";
    assert s[1..1 + |id|] == id;
    assert CloseAt(s, 1 + |id|) == Some(|s|);
    MatchOfPlainId(s, 0, id, 1 + |id|, |s|);
  }

  /** `: "quote"]` at `close`, with any blanks before the opening quote, closes the match after the `]`. */
  lemma CloseAtQuote(s: string, close: nat, w: nat, t: nat)
    requires close < w < t && t + 1 < |s|
    requires s[close] == ':' && s[w] == '"' && s[t] == '"' && s[t + 1] == ']'
    requires forall j :: close < j < w ==> IsSpace(s[j])
    requires forall j :: w < j < t ==> s[j] != '"'
    ensures CloseAt(s, close) == Some(t + 2)
  {
    SpaceRunEndReaches(s, close + 1, w);
    CharFromReaches(s, w + 1, t, '"');
  }

  /** `SpaceRunEnd` stops at the first non-blank. */
  lemma {:induction false} SpaceRunEndReaches(s: string, k: nat, w: nat)
    requires k <= w < |s| && !IsSpace(s[w])
    requires forall j :: k <= j < w ==> IsSpace(s[j])
    ensures SpaceRunEnd(s, k) == w
    decreases w - k
  {
    if k < w {
      SpaceRunEndReaches(s, k + 1, w);
    }
  }

  /** Where the parts of `[id: "quote"]` sit. */
  lemma QuotedLayout(id: string, quote: string, s: string)
    requires forall j :: 0 <= j < |quote| ==> quote[j] != '"'
    requires s == "[" + id + ": \"" + quote + "\"]"
    ensures |s| == |id| + |quote| + 6 && s[0] == '[' && s[1..1 + |id|] == id
    ensures s[1 + |id|] == ':' && s[2 + |id|] == ' ' && s[3 + |id|] == '"'
    ensures s[4 + |id| + |quote|] == '"' && s[5 + |id| + |quote|] == ']'
    ensures forall j :: 3 + |id| < j < 4 + |id| + |quote| ==> s[j] != '"'
  {
    assert forall j :: 3 + |id| < j < 4 + |id| + |quote| ==> s[j] == quote[j - 4 - |id|];
  }

  /** The quoted form `[id: "quote"]` the writing prompt asks for. */
  function QuotedCitation(id: string, quote: string): string
  {
    "[" + id + ": \"" + quote + "\"]"
  }

  lemma QuotedCloses(id: string, quote: string)
    requires forall j :: 0 <= j < |quote| ==> quote[j] != '"'
    ensures CloseAt(QuotedCitation(id, quote), 1 + |id|) == Some(|QuotedCitation(id, quote)|)
  {
    var s := QuotedCitation(id, quote);
    var close := 1 + |id|;
    QuotedLayout(id, quote, s);
    assert IsSpace(' ');
    CloseAtQuote(s, close, close + 2, close + 3 + |quote|);
  }

  lemma QuotedMatches(id: string, quote: string)
    requires PlainId(id)
    requires forall j :: 0 <= j < |quote| ==> quote[j] != '"'
    ensures MatchAt(QuotedCitation(id, quote), 0) == Some((id, |QuotedCitation(id, quote)|))
  {
    var s := QuotedCitation(id, quote);
    QuotedLayout(id, quote, s);
    QuotedCloses(id, quote);
    MatchOfPlainId(s, 0, id, 1 + |id|, |s|);
  }

  /** `[id: "quote"]` yields the id without the quote. */
  lemma FindQuotedCitation(id: string, quote: string)
    requires PlainId(id)
    requires forall j :: 0 <= j < |quote| ==> quote[j] != '"'
    ensures FindCitations(QuotedCitation(id, quote), 0) == [id]
  {
    QuotedMatches(id, quote);
    FindWhole(QuotedCitation(id, quote), id);
  }

  /** A match that spans the whole text is its only citation. */
  lemma FindWhole(s: string, id: string)
    requires MatchAt(s, 0) == Some((id, |s|))
    ensures FindCitations(s, 0) == [id]
  {
  }

  /** `CharFrom` finds the first occurrence. */
  lemma {:induction false} CharFromReaches(s: string, k: nat, t: nat, c: char)
    requires k <= t < |s| && s[t] == c
    requires forall j :: k <= j < t ==> s[j] != c
    ensures CharFrom(s, k, c) == Some(t)
    decreases t - k
  {
    if k < t {
      CharFromReaches(s, k + 1, t, c);
    }
  }
}

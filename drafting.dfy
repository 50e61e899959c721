/**
 * Drafting: `SectionParser.parse`, which turns drafted text into a Section
 * whose citations are the matches of `\[(.*?):\s*"(.*?)"\]`, found left to
 * right without overlaps. Both groups are lazy and stop at a line break
 * (`.` does not match one); `\s*` may cross line breaks.
 */
module Drafting {
  import opened Wrappers
  import opened Text
  import opened Models
  import opened Seqs
  import CitationPattern

  /** One regex match: the raw groups and the span `[start, end)` of the match. */
  datatype Match = Match(claim: string, quote: string, start: nat, end: nat)

  /** The lazy `(.*?)"\]` from `k`: the first `"]` before any line break, as the index of its `"`. */
  function QuoteEnd(s: string, k: nat): (r: Option<nat>)
    ensures r.Some? ==> k <= r.value && r.value + 1 < |s| && s[r.value] == '"' && s[r.value + 1] == ']'
    ensures r.Some? ==> forall j :: k <= j < r.value ==> s[j] != '\n'
    decreases |s| - k
  {
    if k >= |s| then None
    else if s[k] == '"' && k + 1 < |s| && s[k + 1] == ']' then Some(k)
    else if s[k] == '\n' then None
    else QuoteEnd(s, k + 1)
  }

  /** `:\s*"(.*?)"\]` at `a`: the colon, the quote's start and the index of the closing `"`. */
  function ClaimTail(s: string, a: nat): (r: Option<(nat, nat, nat)>)
    requires a < |s|
    ensures r.Some? ==> r.value.0 == a < r.value.1 <= r.value.2 && r.value.2 + 1 < |s|
    ensures r.Some? ==> s[a] == ':' && s[r.value.1 - 1] == '"' && s[r.value.2] == '"' && s[r.value.2 + 1] == ']'
  {
    if s[a] == ':' then
      var w := CitationPattern.SpaceRunEnd(s, a + 1);
      if w < |s| && s[w] == '"' then
        match QuoteEnd(s, w + 1)
        case Some(b) => Some((a, w + 1, b))
        case None => None
      else None
    else None
  }

  /**
   * The lazy `(.*?)` of the claim from `a`, followed by `:\s*"` and the quote:
   * the first colon (before any line break) after which the rest matches.
   * Gives the colon, the quote's start and the index of the closing `"`.
   */
  function ClaimEnd(s: string, a: nat): (r: Option<(nat, nat, nat)>)
    ensures r.Some? ==> a <= r.value.0 < r.value.1 <= r.value.2 && r.value.2 + 1 < |s|
    ensures r.Some? ==> s[r.value.0] == ':' && s[r.value.1 - 1] == '"'
    ensures r.Some? ==> s[r.value.2] == '"' && s[r.value.2 + 1] == ']'
    ensures r.Some? ==> forall j :: a <= j < r.value.0 ==> s[j] != '\n'
    decreases |s| - a
  {
    if a >= |s| then None
    else
      var tail := ClaimTail(s, a);
      if tail.Some? then tail
      else if s[a] == '\n' then None
      else ClaimEnd(s, a + 1)
  }

  /** The match starting at `i`, if any. */
  function MatchAt(s: string, i: nat): (r: Option<Match>)
    ensures r.Some? ==> r.value.start == i < r.value.end <= |s| && s[i] == '['
  {
    if i < |s| && s[i] == '[' then
      match ClaimEnd(s, i + 1)
      case Some(e) => Some(Match(s[i + 1..e.0], s[e.1..e.2], i, e.2 + 2))
      case None => None
    else None
  }

  /** `re.finditer(pattern, s)` from `i`: the matches, left to right, each search resuming after the previous match. */
  function Matches(s: string, i: nat): (ms: seq<Match>)
    decreases |s| - i
  {
    if i >= |s| then []
    else
      match MatchAt(s, i)
      case Some(m) => [m] + Matches(s, m.end)
      case None => Matches(s, i + 1)
  }

  /** Matches start at or after `i`, at a `[`, in strictly increasing order, and do not overlap. */
  lemma {:induction false} MatchesOrdered(s: string, i: nat)
    ensures forall k :: 0 <= k < |Matches(s, i)| ==>
      i <= Matches(s, i)[k].start < Matches(s, i)[k].end <= |s| && s[Matches(s, i)[k].start] == '['
    ensures forall k :: 0 <= k < |Matches(s, i)| - 1 ==> Matches(s, i)[k].end <= Matches(s, i)[k + 1].start
    decreases |s| - i
  {
    if i < |s| {
      match MatchAt(s, i)
      case Some(m) => MatchesOrdered(s, m.end);
      case None => MatchesOrdered(s, i + 1);
    }
  }

  /** The citation of one match: both groups stripped, located at the match's start. */
  function CitationOf(m: Match): Citation
  {
    Citation(Strip(m.claim), Strip(m.quote), m.start)
  }

  /** The citations `parse` records, in match order. */
  function ParsedCitations(text: string): seq<Citation>
  {
    Map(Matches(text, 0), CitationOf)
  }

  /** The Section `parse` returns (its creation time left out). */
  function ParsedSection(text: string, sectionId: int): Section
  {
    Section(sectionId, "", text, ParsedCitations(text), WordCount(text), Draft)
  }

  /**
   * Each citation's location is the start of its match, a `[` of the text,
   * and locations strictly increase.
   */
  lemma LocationsIncrease(text: string)
    ensures var cs := ParsedCitations(text);
      && (forall k :: 0 <= k < |cs| ==> 0 <= cs[k].locationInSection < |text| && text[cs[k].locationInSection] == '[')
      && (forall k, l :: 0 <= k < l < |cs| ==> cs[k].locationInSection < cs[l].locationInSection)
  {
    var ms := Matches(text, 0);
    MatchesOrdered(text, 0);
    StartsIncrease(ms);
    var cs := ParsedCitations(text);
    forall k | 0 <= k < |cs|
      ensures cs[k].locationInSection == ms[k].start
    {
    }
  }

  /** Non-overlapping matches in order have strictly increasing starts. */
  lemma StartsIncrease(ms: seq<Match>)
    requires forall j :: 0 <= j < |ms| ==> ms[j].start < ms[j].end
    requires forall j :: 0 <= j < |ms| - 1 ==> ms[j].end <= ms[j + 1].start
    ensures forall k, l :: 0 <= k < l < |ms| ==> ms[k].start < ms[l].start
  {
    forall k, l | 0 <= k < l < |ms| ensures ms[k].start < ms[l].start {
      Increasing(ms, k, l);
    }
  }

  /** Non-overlapping matches in order have strictly increasing starts. */
  lemma {:induction false} Increasing(ms: seq<Match>, k: nat, l: nat)
    requires k < l < |ms|
    requires forall j :: 0 <= j < |ms| ==> ms[j].start < ms[j].end
    requires forall j :: 0 <= j < |ms| - 1 ==> ms[j].end <= ms[j + 1].start
    ensures ms[k].start < ms[l].start
    decreases l - k
  {
    if k + 1 < l {
      Increasing(ms, k + 1, l);
    }
  }

  /** The section keeps the text as its content, has no title yet, is a draft, and counts the text's words. */
  lemma ParsedSectionShape(text: string, sectionId: int)
    ensures var sec := ParsedSection(text, sectionId);
      && sec.sectionId == sectionId && sec.content == text && sec.title == ""
      && sec.status == Draft && sec.wordCount == |Words(text)|
      && |sec.citations| <= |text|
  {
    FewMatches(text, 0);
  }

  /** Each match consumes at least one character, so there are at most as many matches as characters. */
  lemma {:induction false} FewMatches(s: string, i: nat)
    ensures |Matches(s, i)| <= |s| - i || (i > |s| && Matches(s, i) == [])
    decreases |s| - i
  {
    if i < |s| {
      match MatchAt(s, i)
      case Some(m) => FewMatches(s, m.end);
      case None => FewMatches(s, i + 1);
    }
  }

  // ---------------------------------------------------------------- a citation written out

  /** A claim id with no colon and no line break. */
  predicate PlainClaimId(id: string)
  {
    forall j :: 0 <= j < |id| ==> id[j] != ':' && id[j] != '\n'
  }

  /** A quote with no double quote and no line break. */
  predicate PlainQuote(q: string)
  {
    forall j :: 0 <= j < |q| ==> q[j] != '"' && q[j] != '\n'
  }

  /** The citation `[id: "quote"]` written out. */
  function Written(id: string, quote: string): string
  {
    "[" + id + ": \"" + quote + "\"]"
  }

  /** The quote scan stops at the `"]` that closes a plain quote. */
  lemma {:induction false} QuoteEndOfPlain(s: string, k: nat, b: nat)
    requires k <= b && b + 1 < |s| && s[b] == '"' && s[b + 1] == ']'
    requires forall j :: k <= j < b ==> s[j] != '"' && s[j] != '\n'
    ensures QuoteEnd(s, k) == Some(b)
    decreases b - k
  {
    if k < b {
      QuoteEndOfPlain(s, k + 1, b);
    }
  }

  /** The claim scan stops at the colon that ends a plain id. */
  lemma {:induction false} ClaimEndOfPlain(s: string, a: nat, c: nat, b: nat)
    requires a <= c && c + 2 < |s| && s[c] == ':' && s[c + 1] == ' ' && s[c + 2] == '"'
    requires forall j :: a <= j < c ==> s[j] != ':' && s[j] != '\n'
    requires QuoteEnd(s, c + 3) == Some(b)
    ensures ClaimEnd(s, a) == Some((c, c + 3, b))
    decreases c - a
  {
    if a < c {
      assert ClaimTail(s, a) == None;
      ClaimEndOfPlain(s, a + 1, c, b);
    } else {
      assert CitationPattern.SpaceRunEnd(s, c + 2) == c + 2;
      assert CitationPattern.SpaceRunEnd(s, c + 1) == c + 2;
      assert ClaimTail(s, c) == Some((c, c + 3, b));
    }
  }

  /** Parsing a written-out citation gives back its id and quote, stripped, at offset 0. */
  lemma WrittenRoundTrip(id: string, quote: string)
    requires PlainClaimId(id) && PlainQuote(quote)
    ensures ParsedCitations(Written(id, quote)) == [Citation(Strip(id), Strip(quote), 0)]
  {
    var s := Written(id, quote);
    var c := 1 + |id|;
    var b := c + 3 + |quote|;
    assert |s| == b + 2;
    assert s[0] == '[' && s[c] == ':' && s[c + 1] == ' ' && s[c + 2] == '"';
    assert s[b] == '"' && s[b + 1] == ']';
    assert s[1..c] == id && s[c + 3..b] == quote;
    forall j | 1 <= j < c ensures s[j] != ':' && s[j] != '\n' {
      assert s[j] == id[j - 1];
    }
    forall j | c + 3 <= j < b ensures s[j] != '"' && s[j] != '\n' {
      assert s[j] == quote[j - c - 3];
    }
    QuoteEndOfPlain(s, c + 3, b);
    ClaimEndOfPlain(s, 1, c, b);
    var m := Match(id, quote, 0, |s|);
    assert MatchAt(s, 0) == Some(m);
    assert Matches(s, |s|) == [];
    assert Matches(s, 0) == [m];
  }

  // ---------------------------------------------------------------- the method

  /** `SectionParser.parse`: one Citation appended per match. */
  method Parse(text: string, sectionId: int) returns (section: Section)
    ensures section == ParsedSection(text, sectionId)
  {
    var matches := Matches(text, 0);
    var citations: seq<Citation> := [];
    var i := 0;
    while i < |matches|
      invariant 0 <= i <= |matches|
      invariant citations == Map(matches[..i], CitationOf)
    {
      assert matches[..i + 1] == matches[..i] + [matches[i]];
      MapSnoc(matches[..i], matches[i], CitationOf);
      var m := matches[i];
      citations := citations + [Citation(Strip(m.claim), Strip(m.quote), m.start)];
      i := i + 1;
    }
    assert matches[..i] == matches;
    section := Section(sectionId, "", text, citations, |Words(text)|, Draft);
  }
}

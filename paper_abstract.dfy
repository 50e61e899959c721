/**
 * PaperAbstract: `_generate_abstract` of `export.py`. The abstract is taken
 * from the introduction file (`00_*.md`), whose text is passed in: its first
 * three sentences, at most 250 words, always ending with a period.
 */
module PaperAbstract {
  import opened Wrappers
  import opened Text
  import opened Seqs
  import ExportEngine

  /** `sentences[:3]`. */
  function FirstThree(sentences: seq<string>): (r: seq<string>)
    ensures |r| <= 3 && |r| <= |sentences| && r == sentences[..|r|]
    ensures |sentences| >= 3 ==> |r| == 3
  {
    if |sentences| <= 3 then sentences else sentences[..3]
  }

  predicate NotBlank(s: string) { Strip(s) != "" }

  /** The sentences kept: the first three pieces of the one-line text that are not blank, stripped. */
  function KeptSentences(content: string): seq<string>
  {
    Map(Filter(FirstThree(SplitOn(ReplaceChar(content, '\n', ' '), ". ")), NotBlank), Strip)
  }

  /** The abstract before the word limit: the kept sentences joined with `. `, a period added if missing. */
  function Sentences(content: string): (r: string)
    ensures EndsWith(r, ".")
  {
    var text := Join(". ", KeptSentences(content));
    if EndsWith(text, ".") then text else text + "."
  }

  /** The word limit: more than 250 words are cut to the first 250, followed by `...`. */
  function Limit(text: string): (r: string)
    requires EndsWith(text, ".")
    ensures EndsWith(r, ".")
  {
    var words := Words(text);
    if |words| > 250 then Join(" ", words[..250]) + "..." else text
  }

  /** `_generate_abstract`, given the introduction file's text if there is one. */
  function GenerateAbstract(intro: Option<string>, topic: string): string
  {
    match intro
    case None => "This research examines " + topic + "."
    case Some(content) => Limit(Sentences(ExportEngine.SectionBody(content)))
  }

  /** Without an introduction file the abstract names the topic. */
  lemma NoIntroduction(topic: string)
    ensures GenerateAbstract(None, topic) == "This research examines " + topic + "."
  {
  }

  /** The abstract always ends with a period. */
  lemma AbstractEndsWithPeriod(intro: Option<string>, topic: string)
    ensures EndsWith(GenerateAbstract(intro, topic), ".")
  {
    if intro.None? {
      var r := GenerateAbstract(intro, topic);
      assert r[|r| - 1..] == ".";
    }
  }

  /** A heading line is dropped before the sentences are taken. */
  lemma AbstractSkipsHeading(h: string, rest: string, topic: string)
    requires StartsWith(h, "#") && forall j :: 0 <= j < |h| ==> h[j] != '\n'
    ensures GenerateAbstract(Some(h + "\n" + rest), topic) == Limit(Sentences(Strip(rest)))
  {
    ExportEngine.HeadingDropped(h, rest);
  }

  /** A piece without `. ` that is not blank strips to a non-empty, already stripped text without `. `. */
  lemma StrippedPiece(piece: string)
    requires NotBlank(piece) && !Contains(piece, ". ")
    ensures Strip(piece) != "" && Strip(Strip(piece)) == Strip(piece) && !Contains(Strip(piece), ". ")
  {
    StripIdempotent(piece);
    StrippedFree(piece);
  }

  /** Stripping a text free of `. ` leaves it free of `. `. */
  lemma StrippedFree(piece: string)
    requires !Contains(piece, ". ")
    ensures !Contains(Strip(piece), ". ")
  {
    var i := StripIsSlice(piece);
    SliceFree(piece, i, i + |Strip(piece)|, ". ");
  }

  /** At most three sentences are kept, none blank or padded, none holding `. `. */
  lemma KeptSentencesShape(content: string)
    ensures |KeptSentences(content)| <= 3
    ensures forall k :: 0 <= k < |KeptSentences(content)| ==>
      (KeptSentences(content)[k] != "" && KeptSentences(content)[k] == Strip(KeptSentences(content)[k]))
    ensures forall k :: 0 <= k < |KeptSentences(content)| ==> !Contains(KeptSentences(content)[k], ". ")
  {
    var pieces := SplitOn(ReplaceChar(content, '\n', ' '), ". ");
    var first := FirstThree(pieces);
    var kept := Filter(first, NotBlank);
    assert KeptSentences(content) == Map(kept, Strip);
    SplitPiecesFree(ReplaceChar(content, '\n', ' '), ". ");
    forall k | 0 <= k < |kept|
      ensures !Contains(Strip(kept[k]), ". ") && Strip(kept[k]) != "" && Strip(Strip(kept[k])) == Strip(kept[k])
    {
      FilterHas(first, NotBlank, kept[k]);
      var j :| 0 <= j < |first| && first[j] == kept[k];
      assert first[j] == pieces[j];
      StrippedPiece(kept[k]);
    }
  }

  /** An abstract of at most 250 words is kept whole; a longer one keeps exactly its first 250 words before the `...`. */
  lemma LimitSpec(text: string)
    requires EndsWith(text, ".")
    ensures WordCount(text) <= 250 ==> Limit(text) == text
    ensures WordCount(text) > 250 ==>
      (EndsWith(Limit(text), "...") && Words(Limit(text)[..|Limit(text)| - 3]) == Words(text)[..250])
  {
    var words := Words(text);
    if |words| > 250 {
      var body := Join(" ", words[..250]);
      var r := body + "...";
      assert r[..|r| - 3] == body;
      assert r[|r| - 3..] == "...";
      WordsOfJoin(words[..250]);
    }
  }
}

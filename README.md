# schorlarly pipeline core in Dafny

schorlarly writes academic papers section by section. A research stage finds
sources (search providers, deduplication, relevance filtering, validation),
a claim stage extracts claims from them, a writing stage drafts each section
with citations, a validation stage checks citations, word counts and
coverage, context ledgers carry summaries and terms from one section to the
next, and state managers let a run resume after an interruption. The
repository holds two generations of this pipeline: `agents/` + `models/` +
`orchestrator.py`, and `src/`.

This project models the deterministic logic around the language-model,
search and file-system calls. Every such call is an input of the model: a
reply string, an oracle function, or an abstract path-to-content map.
Python dicts whose order matters are sequences of pairs; Python `set(...)`
results are Dafny sets; relevance weights and thresholds are `real`; each
regular expression the code uses is a hand-written scanner for that one
pattern.

Modules (one file each, named after the source they model):

- `wrappers`, `text`, `seqs`, `sorting`, `uniq`, `ordered_maps`: shared
  definitions (Option/Result, string helpers such as Python's `split()`,
  `strip()`, `lower()`, `in`, stable `sorted`, first-occurrence dedup,
  insertion-ordered dicts).
- `models`: the records of `src/models/paper.py`, `src/models/validation.py`
  and `models/research.py`.
- one module per core source file, listed with its members below.

## Model

| member | source | states |
|---|---|---|
| Deduplication.ArxivId | src/modules/research/deduplication.py:108-112 | the arXiv id is the text after an `arxiv:` source-id prefix, else `metadata['arxiv_id']` |
| Deduplication.FirstDoiCitationSpec | src/modules/research/deduplication.py:119-123 | the DOI fallback is the identifier of the first citation of type `doi`, and is None iff no citation has that type |
| Deduplication.ArxivIdOf | src/modules/research/deduplication.py:108-112 | a source id `arxiv:<id>`, or another source id with `metadata['arxiv_id'] == id`, gives the arXiv id `id` |
| Deduplication.ArxivRule | src/modules/research/deduplication.py:46-50 | two records with the same non-empty arXiv id, taken from the source id or from the `arxiv_id` metadata, are duplicates whatever their titles |
| Deduplication.DoiOf | src/modules/research/deduplication.py:114-123 | `metadata['doi'] == id`, or a falsy `metadata['doi']` with a first `doi` citation naming `id`, gives the DOI `id` |
| Deduplication.DoiRule | src/modules/research/deduplication.py:52-56 | two records with the same non-empty DOI, taken from the `doi` metadata or from the first `doi` citation, are duplicates |
| Deduplication.TitleRule | src/modules/research/deduplication.py:58-67 | without an id match, records are duplicates iff both years are set and equal and the ratio of the titles, lower-cased and whitespace-collapsed by `_normalize_title` (lines 125-129), reaches the threshold |
| Deduplication.ClustersFromValid | src/modules/research/deduplication.py:18-33 | every cluster is a non-empty list of increasing valid indices |
| Deduplication.ClustersPartition | src/modules/research/deduplication.py:18-33 | every input index lands in exactly one cluster |
| Deduplication.ClustersHeads | src/modules/research/deduplication.py:25-33 | each cluster member after the head was tested as a duplicate of the head, the cluster's lowest index (clustering is not transitive) |
| Deduplication.ClustersFromCount | src/modules/research/deduplication.py:21-36 | there are never more clusters than remaining records |
| Deduplication.DeduplicateLength | src/modules/research/deduplication.py:13-43 | an empty input gives `[]` and the output is never longer than the input |
| Deduplication.RanksAboveOrder | src/modules/research/deduplication.py:73-81 | the (has pdf_path, content length, citation count) key, descending, is a strict weak order |
| Deduplication.FindYearSpec | src/modules/research/deduplication.py:146-150 | the year fallback is the first truthy year of the cluster, None iff there is none |
| Deduplication.FindUrlSpec | src/modules/research/deduplication.py:152-156 | the url fallback is the first truthy url of the cluster, None iff there is none |
| Deduplication.MergedRepresentative | src/modules/research/deduplication.py:69-106 | the representative is the first member with the largest sort key; its source id, title and content are kept; metadata gains `merged_from_sources` listing every member's source id in cluster order and is otherwise the representative's |
| Deduplication.MergedCitations | src/modules/research/deduplication.py:85-92 | merged citations cover every member's identifiers, each exactly once |
| Deduplication.MergeAuthorsSpec | src/modules/research/deduplication.py:131-144 | merged authors are the case-insensitive union of all members' authors, first spelling kept, None iff no member has authors |
| Deduplication.UnionCitations | src/modules/research/deduplication.py:85-92 | the citation loop keeps the first citation per identifier in sorted-member order |
| Deduplication.MergeResults | src/modules/research/deduplication.py:69-106 | `_merge_results` computes the merged record of the cluster |
| Deduplication.AbsorbInto | src/modules/research/deduplication.py:25-33 | the inner loop collects exactly the later unmerged records that are duplicates of the head and marks them merged |
| Deduplication.DeduplicateBy | src/modules/research/deduplication.py:18-43 | the outer loop returns one merged record per cluster, in cluster order |
| Deduplication.Deduplicate | src/modules/research/deduplication.py:12-43 | `deduplicate` equals the clustering-and-merge specification |
| Searcher.Deduplicate | src/research/searcher.py:134-144 | `_deduplicate` keeps the first paper per lower-cased, stripped title, in input order; the set of normalised titles is unchanged and surviving titles are pairwise distinct |
| Searcher.ResearchSearcher.constructor | src/research/searcher.py:105-112 | the primary searcher exists iff the provider is `perplexity`; `max_results` defaults to 20 |
| Searcher.ResearchSearcher.Limit | src/research/searcher.py:115 | a requested limit of None or 0 is replaced by the configured default |
| Searcher.ResearchSearcher.PrimaryPapers | src/research/searcher.py:116-124 | an exception from the primary search, or a missing primary, counts as zero papers |
| Searcher.ResearchSearcher.Candidates | src/research/searcher.py:116-129 | the candidates are the primary's papers followed by the fallback's, which are present only when the fallback was called; the exception when the called fallback raised |
| Searcher.ResearchSearcher.Search | src/research/searcher.py:114-132 | the fallback is called iff the primary produced fewer than `max_results // 2` papers; `search` raises iff the fallback was called and raised (the primary's exception is caught); otherwise the result is the title-deduplicated candidates cut to `max_results`, at most `max_results` long, with distinct titles, every paper a candidate |
| Searcher.SnippetWords | src/research/searcher.py:149 | the problem snippet holds exactly the first 50 words of the problem statement, and is empty iff the statement has no words |
| Searcher.QueryParts | src/research/searcher.py:152-156 | the query parts are the snippet (if any), the domain, then at most 7 keywords |
| Searcher.BuildSearchQuery | src/research/searcher.py:146-170 | the query is a prefix of the joined parts, at most 250 characters; an untruncated query is the whole join; a truncated one is cut back to its last space when that space is at index > 0, otherwise it is the 250-character cut |
| ResearchAgent.QuerySuffix | agents/research_agent.py:121-130 | `methods` for titles containing `method`, else `survey review` for `literature`/`review`, else nothing |
| ResearchAgent.MethodologyMentionsMethod | agents/research_agent.py:121-124 | a `methodology` title takes the `method` branch |
| ResearchAgent.BuildSearchQuery | agents/research_agent.py:115-135 | the query is the topic plus the suffix, cut to 200 characters; it always starts with the (cut) topic |
| ResearchAgent.ValidateSource | agents/research_agent.py:137-158 | a source is accepted iff authors are non-empty, the id starts with `arxiv:`, the stripped content has at least 50 characters, and year and url are truthy |
| ResearchAgent.StoredProperties | agents/research_agent.py:160-180 | storing is idempotent, adds exactly the source id as a key, never overwrites an existing entry, and stores the record of a new source |
| ResearchAgent.StoreAllProperties | agents/research_agent.py:104-113 | storing a list through `_store_source` (lines 160-180) registers every id, keeps every earlier entry, and adds exactly the list's ids |
| ResearchAgent.FirstNonEmptySpec | agents/research_agent.py:65-82 | the results used are empty iff every provider raised or returned nothing; otherwise they are the reply of the first provider that returned a non-empty list |
| ResearchAgent.ResearchAgent.constructor | agents/research_agent.py:15-31 | the agent starts with an empty sources_db |
| ResearchAgent.ResearchAgent.StoreSource | agents/research_agent.py:160-180 | `_store_source` returns the source id, which is then a key, and updates sources_db as specified by `Stored` |
| ResearchAgent.ResearchAgent.SearchProviders | agents/research_agent.py:65-82 | the provider loop returns the first non-empty reply, skipping providers that raise |
| ResearchAgent.ResearchAgent.Replies | agents/research_agent.py:65-70 | each provider is asked with the query and the per-section paper limit |
| ResearchAgent.ResearchAgent.StoreSources | agents/research_agent.py:104-111 | the store loop returns the ids in order and stores every validated source |
| ResearchAgent.ResearchAgent.ValidatedOnly | agents/research_agent.py:96-103 | the validation loop keeps exactly the sources `_validate_source` accepts, in order |
| ResearchAgent.ResearchAgent.ResearchSection | agents/research_agent.py:51-113 | the returned ids are those of the validated, deduplicated, non-empty provider results; every returned id is a key of sources_db; earlier entries are unchanged |
| ResearchAgent.ResearchAgent.GetAllSources | agents/research_agent.py:185-186 | `get_all_sources` returns the contents of sources_db |
| SourceFilter.KeywordsShape | agents/source_filter.py:29-34 | every keyword is a lower-cased whitespace token longer than 4 characters and not a stop word |
| SourceFilter.ExtractKeywordsOfLower | agents/source_filter.py:29-34 | keyword extraction ignores case |
| SourceFilter.CalculateRelevance | agents/source_filter.py:36-53 | the relevance is 0 when the objective has no keywords and always lies in [0, 1] |
| SourceFilter.WeightedOverlap | agents/source_filter.py:50-53 | with overlaps at most the keyword count, the score is exactly (0.6 title overlap + 0.4 abstract overlap) / keyword count, within [0, 1] |
| SourceFilter.RelevanceUncapped | agents/source_filter.py:45-53 | the `min(1, ...)` cap never changes the score, since each overlap is at most the keyword count |
| SourceFilter.FilterByRelevance | agents/source_filter.py:13-27 | the result has at most top_k sources, each scoring at least min_score, in non-increasing score order, and is a sub-multiset of the input |
| SourceFilter.ScoreSources | agents/source_filter.py:19-24 | the scoring loop keeps exactly the sources scoring at least min_score, in input order |
| SourceFilter.FilterTiesInInputOrder | agents/source_filter.py:26-27 | sources with equal scores keep their input order (the sort is stable) |
| SourceFilter.NoKeywordsNoSources | agents/source_filter.py:19-49 | an objective without keywords and min_score > 0 gives an empty result; there is no fallback |
| PaperValidator.Classify | src/research/validator.py:45-53 | in `validate` and again in `validate_batch` (lines 141-149), status is `accepted` iff score >= auto_accept, `flagged` iff min_relevance <= score < auto_accept, else `rejected` |
| PaperValidator.ExistenceWithoutNetwork | src/research/validator.py:61-84 | urls containing `arxiv.org` (any case) exist without a network call; non-http urls exist iff title and abstract are non-empty |
| PaperValidator.MatchAt | src/research/validator.py:105 | the scanner for `0?\.\d+|[01]\.?\d*` at one position, trying the alternatives in order |
| PaperValidator.Search | src/research/validator.py:105 | `re.search` finds the leftmost match |
| PaperValidator.Clamp | src/research/validator.py:108 | clamping, here and at line 214, lands in [0, 1] and leaves values inside it unchanged |
| PaperValidator.RelevanceScore | src/research/validator.py:101-114 | the score lies in [0, 1]; an error or a reply without a match gives 0.5 |
| PaperValidator.NoDigitsScoresHalf | src/research/validator.py:105-111 | a reply with no digit gives 0.5 |
| PaperValidator.RelevanceOfLeadingMatch | src/research/validator.py:103-108 | a reply whose stripped text starts with a match scores that match's value, clamped |
| PaperValidator.RelevanceOfPlainScore | src/research/validator.py:103-108 | the reply `0.85` scores 0.85 |
| PaperValidator.RelevanceClamped | src/research/validator.py:103-108 | the reply `1.5` scores 1.0 |
| PaperValidator.LookupOf | src/research/validator.py:210-216 | one key of the decoded reply: absent gives a missing score; a number is clamped into [0, 1]; a string `float` rejects is a caught ValueError; `null`, a list or an object under the key, a key found in a list or string reply, or a reply on which `in` fails is an uncaught TypeError |
| PaperValidator.BatchScoresSpec | src/research/validator.py:198-221 | the batch call raises exactly when the first failing key fails with an uncaught TypeError (or the model call itself raised); a caught error at the first failing key, or an undecodable reply, gives an empty map; with no failing key the scores are those of the lookups |
| PaperValidator.AllScoresPresent | src/research/validator.py:209-214 | a reply with a number under every `paper_<i>` key gives the clamped scores of all papers |
| PaperValidator.ScoresFrom | src/research/validator.py:209-219 | the batch scores have exactly the keys (url, else title) of the chunk's papers |
| PaperValidator.ScoresFromLast | src/research/validator.py:211-219 | a key's entry is the score (or None) of the last paper in the chunk with that key, later papers overwriting earlier ones |
| PaperValidator.ScoresFromBounded | src/research/validator.py:213-214 | every parsed batch score is clamped to [0, 1] |
| PaperValidator.ScoreFor | src/research/validator.py:127-131 | a present batch score is used as is; a missing or None one is replaced by an individual rescoring |
| PaperValidator.CitationValidator.constructor | src/research/validator.py:24-28 | the validator starts with an empty cache and the configured thresholds |
| PaperValidator.CitationValidator.Validate | src/research/validator.py:30-59 | a cached key returns the cached result without recomputing; otherwise the result is the classification (or not-found rejection, score 0.0) and it is cached under url-else-title |
| PaperValidator.CitationValidator.OutcomeWellFormed | src/research/validator.py:37-56 | every result of `validate` has a status that agrees with its score and the thresholds, and a score in [0, 1] |
| PaperValidator.CitationValidator.ValidateBatch | src/research/validator.py:116-161 | chunks of 10 are processed in order until one's batch call raises, which ends the call (`raised`, at that chunk's first paper); no earlier chunk raised; for the papers before it there is an entry for every key, holding the outcome of the last paper with that key; existing papers are cached with the same result; papers judged missing enter only the result; only existing results enter the cache |
| PaperValidator.CitationValidator.ValidateChunk | src/research/validator.py:120-154 | one batch of at most 10 papers is scored together; if that call raises nothing is recorded and the cache is unchanged, else every paper of the batch is recorded |
| PaperValidator.CitationValidator.RecordPapers | src/research/validator.py:126-154 | the papers of a batch whose call returned are recorded in order, keeping the batch invariant |
| PaperValidator.CitationValidator.RecordPaper | src/research/validator.py:126-154 | one paper's result enters the batch result, and the cache only if the paper exists |
| PaperValidator.CitationValidator.BatchOutcomeWellFormed | src/research/validator.py:126-151 | for a batch whose call returned, every batch result has a status that agrees with its score, and a score in [0, 1] |
| Perplexity.SkipNonSpaceSpec | agents/perplexity_provider.py:139 | the `\S+` run of an id holds no whitespace |
| Perplexity.FirstSomeSpec | agents/perplexity_provider.py:126-143 | the scan over start positions stops at the first match and finds none only when no position matches |
| Perplexity.SearchFrom | agents/perplexity_provider.py:126-143 | `re.search` returns a position at which the field's pattern matches, with that match's group |
| Perplexity.SearchFromSpec | agents/perplexity_provider.py:126-143 | the match found is the leftmost one, and there is none exactly when the pattern matches nowhere |
| Perplexity.ParseSegments | agents/perplexity_provider.py:117-150 | a text never yields more papers than it has `---` segments |
| Perplexity.ParsePapersFromText | agents/perplexity_provider.py:114-150 | the loop over the `---` segments yields, in order, the papers of the non-blank segments that have a title and an id |
| Perplexity.ParseSegmentsStep | agents/perplexity_provider.py:119-148 | one more segment appends exactly that segment's papers |
| Perplexity.ParseSegment | agents/perplexity_provider.py:120-148 | a stripped blank segment is skipped; otherwise its fields are read and it is kept only with both title and id |
| Perplexity.BlankSegmentsSkipped | agents/perplexity_provider.py:120-122 | a text made only of blank segments yields no paper |
| Perplexity.IdGroupShape | agents/perplexity_provider.py:139-141 | an id group starts with `arxiv:` or `doi:` in some letter case, holds no whitespace and is unchanged by strip |
| Perplexity.KeptPaperShape | agents/perplexity_provider.py:139-148 | a kept paper's id starts with `arxiv:` or `doi:` in some letter case |
| Perplexity.ParsedPapersShape | agents/perplexity_provider.py:114-150 | every parsed paper has a title and an `arxiv:`/`doi:` id |
| Perplexity.YearFromFourDigits | agents/perplexity_provider.py:135-137 | a year is set only from four digits after a `Year:` label, so it lies in [0, 9999]; it is unset exactly when the pattern occurs nowhere |
| Perplexity.YearGroupNone | agents/perplexity_provider.py:135-136 | the year group is absent exactly when the year pattern matches at no position |
| Perplexity.YearGroupWitness | agents/perplexity_provider.py:135-137 | a year group is the four digits after a `Year:` label and optional whitespace |
| Perplexity.FourDigitsBound | agents/perplexity_provider.py:137 | four digits read as a number at most 9999 |
| Perplexity.AuthorsShape | agents/perplexity_provider.py:130-133 | there is one author per comma-separated piece, each stripped and free of commas |
| Perplexity.StripInside | agents/perplexity_provider.py:133 | stripping a piece cannot make a comma appear in it |
| Perplexity.ToSearchResult | agents/perplexity_provider.py:152-178 | a result exists exactly when the id (default empty) starts with lower-case `arxiv:` or `doi:`; it has that id as source id and no citations |
| Perplexity.ConvertedMetadata | agents/perplexity_provider.py:174-177 | a result's metadata records provider `perplexity` and the raw id |
| Perplexity.ReplaceLeadingPrefix | agents/perplexity_provider.py:158-161 | removing every occurrence of a prefix that occurs only at the start leaves the rest of the id |
| Perplexity.ResolverUrls | agents/perplexity_provider.py:156-178 | `arxiv:X` gives url `https://arxiv.org/abs/X` with title default `Unknown` and summary default empty; `doi:X` gives url `https://doi.org/X` |
| Perplexity.UpperCaseArxivDropped | agents/perplexity_provider.py:139-164 | the id `ARXIV:1` passes the case-insensitive parser and is then dropped by the case-sensitive conversion |
| Perplexity.Converted | agents/perplexity_provider.py:101-105 | conversion never yields more results than papers |
| Perplexity.ConvertedShape | agents/perplexity_provider.py:101-177 | every result has an `arxiv:`/`doi:` source id, no citations and provider `perplexity` |
| Perplexity.ConvertAll | agents/perplexity_provider.py:101-107 | the loop keeps the converted papers in order and drops the rest |
| Perplexity.ParseResponse | agents/perplexity_provider.py:95-107 | the reply's content is parsed into papers and converted in order |
| Perplexity.Search | agents/perplexity_provider.py:18-30 | a failed call gives no results; otherwise the results of parsing the reply |
| QuestionGenerator.PromptBounds | src/modules/research/question_generator.py:41-46 | the contextual bound is max(0, n // 3) and the analytical bound min(n - 1, 2n // 3); for n >= 1 they satisfy 0 <= early <= late <= n - 1, for n >= 4 all three id ranges are non-empty, and for 1 to 3 sections the synthesis range is empty |
| QuestionGenerator.ExtractJsonShape | src/modules/research/question_generator.py:83-84 | the JSON text is the whole reply, or the piece from the first `{` to the last `}` |
| QuestionGenerator.ExtractJsonIdempotent | src/modules/research/question_generator.py:83-84 | extracting the JSON from an extracted text changes nothing |
| QuestionGenerator.FindTitle | src/modules/research/question_generator.py:106 | a found index names a template title equal to the target, ignoring case |
| QuestionGenerator.FindTitleSpec | src/modules/research/question_generator.py:106-108 | the found title is the first equal one, and the lookup fails exactly when no title is equal |
| QuestionGenerator.NormalizeTarget | src/modules/research/question_generator.py:100-110 | a normalised id is never negative, an id outside the template can only come from an all-digit string, and other JSON values give nothing |
| QuestionGenerator.IntTargetKept | src/modules/research/question_generator.py:101-103 | an integer target is kept, unchanged, exactly when 0 <= t < len(template) |
| QuestionGenerator.StringTargetResolves | src/modules/research/question_generator.py:104-107 | a string target resolves to the first title equal to it ignoring case |
| QuestionGenerator.DigitStringUnchecked | src/modules/research/question_generator.py:108-110 | an all-digit string equal to no title, ignoring case, gives its numeric value as id, with no range check against the template length |
| QuestionGenerator.NormalizedTargets | src/modules/research/question_generator.py:99-110 | a question never has more normalised ids than raw targets |
| QuestionGenerator.NormalizedTargetsMembers | src/modules/research/question_generator.py:99-110 | an id is in the list exactly when some target of the question yields it |
| QuestionGenerator.NormalizeTargets | src/modules/research/question_generator.py:99-110 | the loop appends the id of each target that yields one, in order |
| QuestionGenerator.QuestionIdShape | src/modules/research/question_generator.py:114 | ids are `RQ-` and at least two digits reading back as the 1-based position, so distinct positions get distinct ids |
| QuestionGenerator.FirstQuestionId | src/modules/research/question_generator.py:114 | the first question is `RQ-01` |
| QuestionGenerator.BuildQuestion | src/modules/research/question_generator.py:95-118 | the `i`-th question gets id `QuestionId(i)` and only non-negative target ids, without duplicates |
| QuestionGenerator.QuestionsOf | src/modules/research/question_generator.py:93-118 | there is one question per kept entry |
| QuestionGenerator.KeptEntries | src/modules/research/question_generator.py:87-91 | a missing `questions` key walks no entry; a list or string walks its first expected_count elements; a value without a length, or an object other than `{}` with a non-negative count, raises |
| QuestionGenerator.ParseQuestions | src/modules/research/question_generator.py:81-120 | the reply is `NotJson` exactly when its JSON does not decode; a decoded non-object raises; parsed questions are at most expected_count (for expected_count >= 0), the `i`-th numbered `RQ-` i+1 |
| QuestionGenerator.ParseQuestionsKeepsPrefix | src/modules/research/question_generator.py:87-118 | for a `questions` list, parsing raises exactly when one of the first expected_count entries is no object or has a `target_sections` that cannot be walked; otherwise the questions are built from those entries, in order |
| QuestionGenerator.ParseQuestionsOddShapes | src/modules/research/question_generator.py:87-91 | a missing `questions` key gives no questions; a `questions` value without a length, or a non-empty object, raises |
| QuestionGenerator.ParseJsonToQuestions | src/modules/research/question_generator.py:81-120 | the method computes the parse outcome of the reply |
| QuestionGenerator.ConvertQuestions | src/modules/research/question_generator.py:93-118 | the loop raises exactly when some entry cannot be converted, and otherwise builds one numbered question per entry, in order |
| QuestionGenerator.ConvertQuestion | src/modules/research/question_generator.py:95-118 | one entry's text defaults to empty and its targets are normalised and deduplicated |
| QuestionGenerator.Endings | src/modules/research/question_generator.py:19 | there is one flag per allowed attempt, none when max_retries <= 0 |
| QuestionGenerator.FirstEnd | src/modules/research/question_generator.py:19-31 | the attempt that ends the loop is below max_retries and approves or raises an error the `except` does not catch |
| QuestionGenerator.FirstEndSpec | src/modules/research/question_generator.py:19-31 | it is the first attempt that approves in `approve_questions` (lines 131-135) or raises; every earlier attempt had undecodable JSON or was sent back; there is none exactly when no attempt below max_retries approves or raises |
| QuestionGenerator.ManualQuestions | src/modules/research/question_generator.py:158-167 | the manual questions keep the entered texts and are numbered from `RQ-01` |
| QuestionGenerator.GeneratePlan | src/modules/research/question_generator.py:14-39 | at most max_retries attempts; the loop stops at the first approval, with the parsed or edited questions, or at the first reply raising an AttributeError or TypeError, which escapes; otherwise it makes every attempt and falls back to manual entry; the plan has no sources |
| ResearchModule.StoredCount | src/modules/research.py:78-89 | the stored count never exceeds the number of claims |
| ResearchModule.StoredCountExtremes | src/modules/research.py:78-89 | every claim is counted when every add succeeds, none when every add raises |
| ResearchModule.StoreClaims | src/modules/research.py:78-89 | `_store_claims` never raises and returns the number of successful adds, between 0 and len(claims) |
| ResearchModule.PaperStep | src/modules/research.py:42-60 | each paper adds exactly one to processed or failed and stores no more claims than it extracts |
| ResearchModule.Tally | src/modules/research.py:37-60 | after the loop, processed + failed grew by the number of papers and stored grew no more than extracted |
| ResearchModule.TallyFailures | src/modules/research.py:42-60 | with no raising extraction nothing fails; when every extraction raises, only papers_failed grows, by the number of papers |
| ResearchModule.ProcessPaper | src/modules/research.py:42-60 | one paper's try block updates the counters as described |
| ResearchModule.Execute | src/modules/research.py:19-76 | counters start at 0; a raising search is re-raised; otherwise papers_found is the number of results, processed + failed = found and claims_stored <= claims_extracted |
| ClaimExtractor.CandidateTags | src/modules/claim_extractor.py:171 | there are no more candidate tags than words |
| ClaimExtractor.CandidateTagsOrigin | src/modules/claim_extractor.py:171 | every candidate tag is a word longer than four characters with the punctuation `.,!?;:()[]{}` stripped from both ends |
| ClaimExtractor.CandidateTagsSnoc | src/modules/claim_extractor.py:171 | one more word adds its stripped form exactly when it is longer than four characters |
| ClaimExtractor.LengthCheckedBeforeStripping | src/modules/claim_extractor.py:171 | the length is checked before stripping: `data` gives no tag while `(data)` gives the tag `data` |
| ClaimExtractor.TagsShape | src/modules/claim_extractor.py:169-180 | at most ten tags, no tag twice, each the stripped form of a long word of the lower-cased statement |
| ClaimExtractor.ExtractTags | src/modules/claim_extractor.py:169-180 | the `seen` loop keeps the first occurrence of each candidate, in order, and the first ten are returned |
| ClaimExtractor.StripFencesStripped | src/modules/claim_extractor.py:103-111 | the cleaned reply has no whitespace at either end; `_clean_json` of src/modules/validation/content.py (lines 157-165) is the same cleaning and is modelled by the same function |
| ClaimExtractor.StripFencesOfFenced | src/modules/claim_extractor.py:103-111 | a reply fenced as ```` ```json ```` ... ```` ``` ```` gives back the payload |
| ClaimExtractor.StripFencesUnfenced | src/modules/claim_extractor.py:103-111 | a reply without fences is only stripped |
| ClaimExtractor.ParseLlmResponse | src/modules/claim_extractor.py:113-129 | a decoded `claims` list gives exactly its entries, and non-empty entries come only from one; undecodable JSON, a missing `claims` or a non-list `claims` give none |
| ClaimExtractor.ClaimIdInjective | src/modules/claim_extractor.py:136 | different indices give different claim ids for the same source |
| ClaimExtractor.FirstClaimId | src/modules/claim_extractor.py:136 | the index is zero-padded to three digits: entry 0 of `arxiv:2301.12345` is `arxiv:2301.12345_claim_000` |
| ClaimExtractor.EvidenceOf | src/modules/claim_extractor.py:138-143 | a missing, null or unknown evidence type becomes BACKGROUND |
| ClaimExtractor.EvidenceOfValue | src/modules/claim_extractor.py:138-143 | every member's value maps back to that member |
| ClaimExtractor.ClaimAt | src/modules/claim_extractor.py:135-162 | an entry without a statement is skipped (the KeyError path); otherwise the claim has the numbered id, the result's source id, the statement and confidence 1.0 |
| ClaimExtractor.StatementIndices | src/modules/claim_extractor.py:134-162 | the indices of the entries with a statement, strictly increasing and in range |
| ClaimExtractor.ConvertedClaimsSpec | src/modules/claim_extractor.py:131-167 | the i-th claim is built from the i-th entry that has a statement, numbered by that entry's position among all entries |
| ClaimExtractor.ConvertedClaimsShape | src/modules/claim_extractor.py:131-167 | every claim has the result's source id and confidence 1.0, and no two claims share an id |
| ClaimExtractor.ConvertEntry | src/modules/claim_extractor.py:135-162 | one iteration builds the claim of an entry, or skips it when the statement is missing |
| ClaimExtractor.ConvertToClaims | src/modules/claim_extractor.py:131-167 | the loop returns exactly the converted claims |
| ClaimExtractor.ExtractFromSearchResult | src/modules/claim_extractor.py:12-29 | a raising model call gives no claims; otherwise the claims are those converted from the parsed reply |
| CitationPattern.CharFrom | agents/validation_agent.py:11 | the first position of the character from a start, and none before it |
| CitationPattern.CloseAt | agents/validation_agent.py:11 | the closing part is `]` or `: "quote"]`; a character other than `]` or `:` cannot start it |
| CitationPattern.MatchAt | agents/validation_agent.py:11 | a match starts with `[`, and its captured id follows the bracket and starts with `arxiv:` or `doi:`, with at least one more character and no blanks |
| CitationPattern.FindCitations | agents/validation_agent.py:19 | every id `re.findall` returns has that shape |
| CitationPattern.CitationSet | agents/validation_agent.py:19-20 | the distinct ids found, all of that shape |
| CitationPattern.MatchOfPlainId | agents/validation_agent.py:11 | a plain id after `[` and before a closing part is captured whole |
| CitationPattern.FindPlainCitation | agents/validation_agent.py:11-19 | `[id]` yields exactly `id` |
| CitationPattern.FindQuotedCitation | agents/validation_agent.py:11-19 | `[id: "quote"]` yields exactly `id`, without the quote |
| RegistryGate.TerminatorFrom | agents/validation_agent.py:80 | the first `.`, `!` or `?` from a position, and none before it |
| RegistryGate.TailEnd | agents/validation_agent.py:80 | `X[^.!?]*[.!?]` ends just after the first terminator behind the id |
| RegistryGate.GreedyFinds | agents/validation_agent.py:80 | the greedy search in front of the id succeeds whenever some id position has a terminated tail |
| RegistryGate.AsWrittenMissesArxiv | agents/validation_agent.py:80-81 | as written, the pattern finds no sentence for an arXiv id in a text without a bell character |
| RegistryGate.CitingSentenceFound | agents/validation_agent.py:80-81 | with the id matched literally, a terminated sentence citing it is found |
| RegistryGate.GapSentenceMissed | agents/validation_agent.py:80-81 | the same plain sentence is missed as written and found when matched literally |
| RegistryGate.SentenceTopics | agents/validation_agent.py:84-87 | at most three words per sentence, each a lower-cased word of it longer than four characters and not `which`, `their` or `about` |
| RegistryGate.TopicsOfSentences | agents/validation_agent.py:82-87 | at most three topic words per matched sentence |
| RegistryGate.TopicCandidates | agents/validation_agent.py:78-87 | every candidate is a topic word |
| RegistryGate.AsWrittenNoArxivTopics | agents/validation_agent.py:78-88 | as written, missing arXiv ids contribute no topic at all |
| RegistryGate.PickTopics | agents/validation_agent.py:88 | at most five distinct candidates, and all of them when there are fewer than five |
| RegistryGate.ExtractTopicsFromContext | agents/validation_agent.py:75-88 | the topics are a choice of at most five distinct candidates of the sentences citing the missing ids |
| RegistryGate.InvalidIssue | agents/validation_agent.py:26-34 | a missing id is a CITATION_INVALID CRITICAL issue |
| RegistryGate.CountIssue | agents/validation_agent.py:42-50 | too few citations is a CITATION_MISSING WARNING |
| RegistryGate.LengthIssue | agents/validation_agent.py:55-63 | an off-target length is a WORD_COUNT WARNING |
| RegistryGate.InvalidIssues | agents/validation_agent.py:24-35 | one issue per missing id, in the order met |
| RegistryGate.LengthOffDefault | agents/validation_agent.py:53-54 | with the default max_words 2000 (line 14) the length warning fires exactly below 1800 or above 2200 words |
| RegistryGate.GateIssuesShape | agents/validation_agent.py:22-63 | one CITATION_INVALID CRITICAL issue per missing id, then at most one count warning and one length warning, and a critical issue exactly when some id is missing |
| RegistryGate.GatePassesIffRegistered | agents/validation_agent.py:65-68 | a section passes exactly when every cited id is in the registry; count and length warnings never fail it |
| RegistryGate.MissingInSetOrder | agents/validation_agent.py:23-35 | the loop over the distinct citations meets each missing id once and appends its issue |
| RegistryGate.ValidateSection | agents/validation_agent.py:13-73 | the result is the gate's verdict for the order the ids were met in, passes exactly when all ids are registered, and has topics only when some id is missing |
| CitationCheck.DropPunctuation | src/modules/validation/citation.py:76 | what is left is lower-case letters, digits and whitespace only, and no longer than the input |
| CitationCheck.CollapseSpaces | src/modules/validation/citation.py:77 | whitespace runs become one space: no two blanks in a row, empty only for empty input |
| CitationCheck.NormalizeShape | src/modules/validation/citation.py:74-78 | normalised text is lower-case letters, digits and single inner spaces, with no space at either end |
| CitationCheck.NormalizeIdempotent | src/modules/validation/citation.py:74-78 | normalising twice is normalising once |
| CitationCheck.NormalizeOfNormalized | src/modules/validation/citation.py:74-78 | already normalised text is a fixed point |
| CitationCheck.NormalizeWords | src/modules/validation/citation.py:74-78 | the words of the normalised text are those of the lower-cased text with punctuation removed |
| CitationCheck.CollapseSpacesWords | src/modules/validation/citation.py:77 | collapsing whitespace runs keeps the words |
| CitationCheck.StripWords | src/modules/validation/citation.py:77 | stripping keeps the words |
| CitationCheck.NormalizeIgnoresPunctuation | src/modules/validation/citation.py:74-78 | removing one punctuation character anywhere does not change the normal form |
| CitationCheck.NormalizeIgnoresCase | src/modules/validation/citation.py:74-78 | texts that differ only in letter case have the same normal form |
| CitationCheck.CitationIssue | src/modules/validation/citation.py:18-50 | a CITATION_MISSING issue exactly when the claim is unknown, a CITATION_QUOTE_MISMATCH exactly when the normalised quote is not inside the normalised statement; both CRITICAL, located at the citation |
| CitationCheck.SameNormalFormPasses | src/modules/validation/citation.py:33-36 | a quote with the statement's normal form raises nothing |
| CitationCheck.CitationIssuesOrigin | src/modules/validation/citation.py:18-50 | one issue per offending citation, in citation order, every offending citation reported, all CRITICAL |
| CitationCheck.CitationIssuesEmpty | src/modules/validation/citation.py:18-50 | no issues exactly when every citation resolves and matches |
| CitationCheck.Validate | src/modules/validation/citation.py:15-50 | the loop collects exactly the citation issues |
| ContentCheck.MissedQuestions | src/modules/validation/content.py:58-65 | never more missed questions than coverage entries |
| ContentCheck.MissedQuestionsSpec | src/modules/validation/content.py:58-65 | the walk raises iff some partially or not addressed entry has no `question`, and otherwise yields exactly the questions of those entries in entry order, empty iff no entry is missed |
| ContentCheck.MissedPrefixRaises | src/modules/validation/content.py:60-65 | once an entry raises, the whole walk raises |
| ContentCheck.CollectMissed | src/modules/validation/content.py:58-65 | the loop gives the missed questions, or the failure |
| ContentCheck.FindSpec | src/modules/validation/content.py:84-87 | an enum lookup finds the member with that spelling when it is unique, and nothing when none has it |
| ContentCheck.IssueTypeValueLookup | src/modules/validation/content.py:84-86 | `IssueType(v)` gives back the member whose value is `v` |
| ContentCheck.IssueTypeNameLookup | src/modules/validation/content.py:84-86 | a lookup by name gives back the member with that name |
| ContentCheck.SeverityValueLookup | src/modules/validation/content.py:87 | `Severity(v)` gives back the member whose value is `v` |
| ContentCheck.SeverityNameLookup | src/modules/validation/content.py:87 | a lookup by name gives back the member with that name |
| ContentCheck.IssueTypeValueInjective | src/modules/validation/content.py:84-86 | no two issue types share a value |
| ContentCheck.SeverityNameInjective | src/modules/validation/content.py:87 | no two severities share a name |
| ContentCheck.CapitalIsNoValue | src/modules/validation/content.py:84-87 | a spelling starting with a capital is no member's value |
| ContentCheck.NamesAreCapital | src/modules/validation/content.py:84-87 | every member's name starts with a capital |
| ContentCheck.AsWrittenNamesFallBack | src/modules/validation/content.py:82-106 | as written, a style entry spelled with member names (or with the defaults) always becomes the generic STYLE_MISMATCH WARNING |
| ContentCheck.StyleIssueKeepsNames | src/modules/validation/content.py:82-92 | with lookup by name or value, an entry keeps its issue type and severity, and an entry with neither gets STYLE_MISMATCH WARNING |
| ContentCheck.FailureGivesOneCritical | src/modules/validation/content.py:108-128 | a failed call, undecodable JSON, a walk error before any issue is recorded (top level or coverage of the wrong shape) or a question-less missed entry gives exactly one STYLE_MISMATCH CRITICAL issue |
| ContentCheck.PartialFailureShape | src/modules/validation/content.py:57-128 | when the style walk raises part-way (an entry that is not an object, a value that is not iterable), the question issue and the style issues recorded before it are kept and the unexpected-error issue follows them |
| ContentCheck.SuccessShape | src/modules/validation/content.py:57-106 | a decoded evaluation whose style walk completes gives one QUESTION_NOT_ANSWERED CRITICAL issue when some question was missed, followed by one issue per style entry in order |
| ContentCheck.Validate | src/modules/validation/content.py:52-130 | the method returns exactly the content issues |
| ContentCheck.MapEvaluation | src/modules/validation/content.py:57-106 | the issues of a decoded evaluation |
| ContentCheck.AppendStyleIssues | src/modules/validation/content.py:79-128 | the style loop appends one issue per object entry, in order, and the unexpected-error issue after them when the walk raises |
| ContentCheck.AppendEntries | src/modules/validation/content.py:80-106 | one issue appended per object entry, in entry order |
| ValidationModule.EarlyExitIffCitationIssue | src/modules/validation/validation.py:31-35 | the early exit is taken exactly when some citation raised an issue, since every citation issue is CRITICAL |
| ValidationModule.EarlyExit | src/modules/validation/validation.py:35-46 | with a CRITICAL citation issue the section fails with exactly the citation issues, whatever the content validator or the word count would have said |
| ValidationModule.IssueOrder | src/modules/validation/validation.py:28-63 | otherwise the issues are the citation issues, then the content and style issues, then one WORD_COUNT WARNING exactly when the count is outside 1000-1500 |
| ValidationModule.PassedIffNoCritical | src/modules/validation/validation.py:39-66 | the section passes exactly when none of its issues is CRITICAL, on both paths |
| ValidationModule.WordCountNeverFails | src/modules/validation/validation.py:53-66 | the word count never changes the verdict |
| ValidationModule.NoCriticalAppended | src/modules/validation/validation.py:54-66 | appending non-CRITICAL issues keeps the verdict |
| ValidationModule.ResultIdentity | src/modules/validation/validation.py:39-75 | the result names the validated section and the attempt |
| ValidationModule.AnyCritical | src/modules/validation/validation.py:35-66 | the scan reports exactly whether some issue is CRITICAL |
| ValidationModule.ValidateSection | src/modules/validation/validation.py:21-75 | the method returns the section's validation result |
| ValidationModule.Complete | src/modules/validation/validation.py:48-75 | after the gate, the method builds the combined result |
| WritingAgent.TokenBudgetSpec | agents/writing_agent.py:274-276 | the token budget is one and a half times the target, truncated toward zero, so 1500 words give 2250 tokens |
| WritingAgent.AdjustClaimsGate | agents/writing_agent.py:75-96 | only a proposal is reworded; any other project type keeps its text |
| WritingAgent.BracketAtSpec | agents/writing_agent.py:296 | a bracket match is a non-empty text without `]` that occurs between brackets |
| WritingAgent.BracketTokensSpec | agents/writing_agent.py:296 | every bracket token found is non-empty, has no `]`, and occurs bracketed in the text |
| WritingAgent.PlaceholderExamples | agents/writing_agent.py:298-326 | `1` and `source01` are placeholders |
| WritingAgent.SourceIdIsNoPlaceholder | agents/writing_agent.py:299-326 | `source_id` matches none of the placeholder patterns |
| WritingAgent.ValidNeverRemoved | agents/writing_agent.py:310-323 | a token naming a valid id, bare or followed by `:`, is never removed |
| WritingAgent.DeleteShrinks | agents/writing_agent.py:331 | deleting a bracketed token never lengthens the text, and shortens it when it occurs |
| WritingAgent.DeleteEachUnchangedIff | agents/writing_agent.py:309-333 | the pass leaves the text unchanged exactly when no token is to be removed |
| WritingAgent.CleanCitationsUnchangedIff | agents/writing_agent.py:291-338 | the cleaned text is never longer, and equals the input exactly when no bracket token is an invalid placeholder |
| WritingAgent.StartsWithSomeId | agents/writing_agent.py:316-320 | the search reports exactly whether the token starts with some valid id and `:` |
| WritingAgent.ValidateCitationsPostWrite | agents/writing_agent.py:291-338 | the loop removes exactly the placeholder tokens that are not valid ids |
| WritingAgent.ExtractCitations | agents/writing_agent.py:284-289 | the result holds each cited id once, and exactly the ids the citation pattern finds |
| WritingAgent.WriteSection | agents/writing_agent.py:17-73 | the result's text is the cleaned draft, while the word count and citation list are taken from the draft before cleaning |
| Drafting.QuoteEnd | src/modules/writing/drafting.py:40 | the lazy quote group ends at the first `"]`, with no line break before it |
| Drafting.ClaimEnd | src/modules/writing/drafting.py:40 | the claim group ends at a colon followed by blanks, `"`, and a quote closed by `"]`, with no line break in the claim |
| Drafting.MatchAt | src/modules/writing/drafting.py:40-41 | a match starts at a `[` and lies inside the text |
| Drafting.MatchesOrdered | src/modules/writing/drafting.py:41-44 | the matches lie in the text, start at `[`, come left to right and do not overlap |
| Drafting.LocationsIncrease | src/modules/writing/drafting.py:44-53 | each citation's location is a `[` of the text, and locations strictly increase |
| Drafting.ParsedSectionShape | src/modules/writing/drafting.py:55-65 | the section keeps the text, has no title, is a draft, counts the text's words, and has no more citations than characters |
| Drafting.WrittenRoundTrip | src/modules/writing/drafting.py:40-53 | parsing a written-out `[id: "quote"]` gives back the id and quote, stripped, at offset 0 |
| Drafting.Parse | src/modules/writing/drafting.py:39-65 | the method builds the parsed section |
| SummaryLedger.FindingOf | agents/context_manager.py:45-48 | a finding carries the section's id |
| SummaryLedger.SummaryFromLast | agents/context_manager.py:39-41 | the summary is the text of the last summary line, or empty when there is none |
| SummaryLedger.FindingsOrigin | agents/context_manager.py:38-48 | findings come from sourced lines after a `FINDINGS:` header, in line order |
| SummaryLedger.ClassifySummary | agents/context_manager.py:40-41 | a line is a summary line exactly when it starts with `SUMMARY:`, and its text is the rest, stripped |
| SummaryLedger.ClassifyHeader | agents/context_manager.py:42-43 | a header line starts with `FINDINGS:` |
| SummaryLedger.ClassifySourced | agents/context_manager.py:44-48 | a finding's line is non-blank and holds `(sources:` |
| SummaryLedger.ParseLinesSpec | agents/context_manager.py:34-48 | on the reply's lines: the summary is that of the last `SUMMARY:` line or empty, and each finding, of this section, comes from a line holding `(sources:` that follows a `FINDINGS:` line, in line order |
| SummaryLedger.StepOfLine | agents/context_manager.py:39-48 | one step of the walk is the source's three-way test on the line |
| SummaryLedger.ParseResponse | agents/context_manager.py:34-48 | the loop computes the walk over the lines |
| SummaryLedger.MostCommonSpec | agents/context_manager.py:97-98 | at most n distinct elements by non-increasing count, and an element left out occurs no more often than any kept |
| SummaryLedger.MeaningfulSpec | agents/context_manager.py:94-95 | kept words are longer than four characters and not stop-words |
| SummaryLedger.KeyTermsSpec | agents/context_manager.py:91-98 | at most ten distinct key terms, each a word of the text longer than four characters and not a stop-word, by decreasing count; a word left out is no more frequent than any kept |
| SummaryLedger.SummaryBounds | agents/context_manager.py:54-60 | a summary names its section and title, keeps at most five findings, all of its section, and at most ten key terms |
| SummaryLedger.WindowSpec | agents/context_manager.py:71 | for a non-negative id and window, the window is the summaries from position id-window (at least 0) up to id, at most `window` of them |
| SummaryLedger.ContextEmpty | agents/context_manager.py:67-83 | no context for the first section or an empty window |
| SummaryLedger.ContextHoldsWindow | agents/context_manager.py:71-83 | every summary of the window appears, rendered, in the context |
| SummaryLedger.FirstFindingsNone | agents/context_manager.py:85-89 | no summary of the section gives no findings |
| SummaryLedger.FirstFindingsEarliest | agents/context_manager.py:85-89 | the findings are those of the earliest summary of the section |
| SummaryLedger.ContextManager.SummarizeSection | agents/context_manager.py:11-63 | appends exactly one summary, the one built from the reply and the content, and returns it |
| SummaryLedger.ContextManager.ContextForSection | agents/context_manager.py:65-83 | the loop renders the window into the context |
| SummaryLedger.ContextManager.FindingsForRefinement | agents/context_manager.py:85-89 | the scan returns the earliest summary's findings, or none |
| SectionContexts.FromDict | src/core/context_manager.py:20-24 | a record without `diagrams` (or without `terms_defined`) gives a context where that field is None |
| SectionContexts.DictRoundTrip | src/core/context_manager.py:17-24 | reading back what `to_dict` wrote gives the same context |
| SectionContexts.KeyPointsSpec | src/core/context_manager.py:64-68 | every key point of every stored section is in the collected list |
| SectionContexts.KeyPointsOrigin | src/core/context_manager.py:64-68 | every collected key point comes from some stored section |
| SectionContexts.DependentsSpec | src/core/context_manager.py:50-53 | exactly the dependencies already stored appear, once each, each mapped to its own name |
| SectionContexts.ContextForSpec | src/core/context_manager.py:55-62 | the view copies the completion order, citations and terms, and keeps a prefix of at most 30 key points (all of them when there are at most 30) |
| SectionContexts.TermKnownSpec | src/core/context_manager.py:73-74 | a term is known iff some defined term equals it up to letter case; spellings that lower-case alike are known together |
| SectionContexts.DistinctCountSpec | src/core/context_manager.py:81 | the distinct citation count is at most the number of citations, and equal to it iff no citation repeats |
| SectionContexts.TotalWordsPut | src/core/context_manager.py:35-44 | storing a section under a name changes the word total by the new count minus the count it replaces |
| SectionContexts.StoredAtMostOrdered | src/core/context_manager.py:35-37 | distinct stored names that all appear in the completion order are at most as many as its entries |
| SectionContexts.SummarySpec | src/core/context_manager.py:76-86 | the summary counts no more sections than completions and no more distinct citations than citations, and lists each stored section's key points and word count in dict order |
| SectionContexts.ContextManager.constructor | src/core/context_manager.py:28-33 | starts empty and consistent |
| SectionContexts.ContextManager.AddSection | src/core/context_manager.py:35-41 | stores the section under its name (replacing in place, other names untouched), appends the name, the citations and the terms if any, keeps names and order consistent, and moves the word total by the difference |
| SectionContexts.ContextManager.GetContextForSection | src/core/context_manager.py:49-62 | the dependency loop and the key-point collection build exactly the specified view |
| SectionContexts.ContextManager.AllKeyPoints | src/core/context_manager.py:64-68 | the loop collects the key points of the stored sections in dict order |
| SectionContexts.ContextManager.Clear | src/core/context_manager.py:115-119 | empties the dict and the three lists |
| GlobalStates.DecisionEntrySpec | models/state.py:23-24 | an entry is `[Section <id>] ` followed by the decision, which can be read back, so different decisions give different entries |
| GlobalStates.RecordAllCounts | models/state.py:17-21 | after recording a sequence of retries, each section's count has grown by exactly the number of times its id was recorded |
| GlobalStates.NeverRetried | models/state.py:20-21 | a section never recorded has count 0 |
| GlobalStates.RetryCountIsGet | models/state.py:20-21 | a section's count is the stored value, or 0 when its id is not stored (`retry_counts.get(section_id, 0)`) |
| GlobalStates.GlobalState.constructor | models/state.py:6-15 | a state with only the thesis set and every other field at its default |
| GlobalStates.GlobalState.RecordRetry | models/state.py:17-18 | increments this section's count (from 0 when absent) and no other count, and changes no other field |
| GlobalStates.GlobalState.AddDecision | models/state.py:23-24 | appends exactly one entry tagged with the current section; earlier decisions and the other fields stay as they were |
| LedgerUpdate.CallLlm | src/modules/writing/ledger_update.py:81-101 | the reply of whichever interface the client has, and the empty string when it has neither |
| LedgerUpdate.ParseExtractionSpec | src/modules/writing/ledger_update.py:49-64 | every kept finding carries the section id, its text and its sources (default empty); a malformed reply or a finding without text loses all findings and all terms; an object `key_terms` gives its pairs, any other value the pairs `dict.update` accepts from it and marks the rest of `update` as raising |
| LedgerUpdate.LedgerSummarySpec | src/modules/writing/ledger_update.py:70-76 | the summary names the section, keeps a non-empty reply, otherwise reads `Summary generation failed.`, and lists the parsed term names in order |
| LedgerUpdate.NoInterfaceSummary | src/modules/writing/ledger_update.py:70-101 | without a client interface the summary is the failure text |
| LedgerUpdate.MergeTermsSpec | src/modules/writing/ledger_update.py:66-67 | after merging, each parsed term has its parsed definition and every other term keeps its own; merging nothing changes nothing |
| LedgerUpdate.UpdateAllDistinct | src/modules/writing/ledger_update.py:66-67 | merging keeps the glossary a dict (each term once) |
| LedgerUpdate.MergeTerms | src/modules/writing/ledger_update.py:67 | the loop assigns the terms one at a time, giving the specified merge |
| LedgerUpdate.Update | src/modules/writing/ledger_update.py:12-79 | merges the parsed terms into the glossary and keeps it a dict; when `key_terms` was not an object it raises with no summary appended (`None`), otherwise it appends and returns exactly the built summary; no other field changes |
| LedgerUpdate.FinishUpdate | src/modules/writing/ledger_update.py:66-79 | the merge always happens; the summary is built and appended only when `new_terms` is a dict, and the glossary stays a dict |
| LedgerUpdate.MergeInto | src/modules/writing/ledger_update.py:66-67 | only the glossary changes: it becomes the old glossary with the terms assigned one at a time, still a dict |
| LedgerUpdate.FencedReplyParsed | src/modules/writing/ledger_update.py:103-111 | a reply fenced as a JSON code block is cleaned down to its payload before it is decoded |
| ContextAssembly.RelevantClaimsSpec | src/modules/writing/context_assembly.py:40-45 | the kept claims are exactly the first claim retrieved under each id, in retrieval order: no id twice, none lost, nothing not retrieved |
| ContextAssembly.HitSummariesSpec | src/modules/writing/context_assembly.py:87-92 | the summaries taken are those the non-(-1) hits point to, each such hit contributing |
| ContextAssembly.RelevantSummariesSpec | src/modules/writing/context_assembly.py:63-94 | no prior summaries give none; otherwise at most min(3, n) come back, with distinct section ids, each pointed to by a hit, and every section a hit points to is represented |
| ContextAssembly.AssembledSpec | src/modules/writing/context_assembly.py:52-61 | thesis and glossary come from the global state, questions, section and previous text pass through, and claims and summaries are distinct by id |
| ContextAssembly.CollectClaims | src/modules/writing/context_assembly.py:36-38 | the loop concatenates each question's top-5 search results in question order |
| ContextAssembly.DedupClaims | src/modules/writing/context_assembly.py:40-45 | the seen-set loop computes the keep-first deduplication by claim id |
| ContextAssembly.FindRelevantSummaries | src/modules/writing/context_assembly.py:66-94 | the hit loop with its seen-set computes the specified relevant summaries |
| ContextAssembly.Assemble | src/modules/writing/context_assembly.py:27-61 | builds exactly the specified drafting context from the global state without changing it |
| GeneratorBase.ValidateWordCount | src/generators/base.py:79-85 | the count is the number of whitespace-separated tokens, and the flag holds iff it lies in [min, max] |
| GeneratorBase.ValidateJoined | src/generators/base.py:79-85 | words joined by single spaces are counted one each |
| Text.WordsOfJoinBy | src/generators/base.py:79-80 | words joined by any one whitespace character, the separators `\x1c` to `\x1f` included, split back into exactly those words |
| Text.UnitSeparatorSplits | src/generators/base.py:79-80 | `"a\x1fb"` counts as two words |
| GeneratorBase.NoOpenerInside | src/generators/base.py:70-71 | no `[` (IEEE) or `(` (APA) occurs inside a match, so no match starts inside another |
| GeneratorBase.ScanSound | src/generators/base.py:74-75 | everything the scan returns is a match of the pattern at some position |
| GeneratorBase.ScanComplete | src/generators/base.py:74-75 | every match of the pattern anywhere in the text is returned by the scan |
| GeneratorBase.ExtractCitationsSpec | src/generators/base.py:69-77 | a string is extracted iff it matches `\[\d+\]` or `\([A-Z][a-z]+,?\s+\d{4}\)` somewhere in the content |
| GeneratorBase.CitationExamples | src/generators/base.py:70-71 | `[12]` and `(Smith, 2020)` match; `[]` and a lower-case author do not |
| GeneratorBase.FallbackBound | src/generators/base.py:66-67 | the fallback gives at most five points |
| GeneratorBase.FallbackOrigin | src/generators/base.py:66-67 | each fallback point is a non-blank paragraph among the first five, cut before its first full stop |
| GeneratorBase.NumberedRoundTrip | src/generators/base.py:62-63 | a reply listing plain points as `1. …`, `2. …`, one per line, parses back to exactly those points |
| GeneratorBase.AdjustSpec | src/generators/base.py:87-112 | the request expands iff the count is below the minimum (condenses otherwise), caps tokens at twice the maximum, and a failed call returns the content unchanged |
| GeneratorBase.CoveredSpec | src/generators/base.py:32-33 | at most the first ten covered points are listed, all of them when there are at most ten; none gives `None yet` |
| CheckpointStore.SavedSpec | agents/state_manager.py:36-57 | after saving, the checkpoint holds the section, the completed list and `can_resume` true; no temp file remains; the cache is replaced only for a non-empty dict; state and plan are untouched |
| CheckpointStore.SaveAtomic | agents/state_manager.py:46-57 | at every step of a save, the checkpoint and the cache are each either the old document or the complete new one; until the rename a crash loads the prior checkpoint unchanged (the new one exists only as the temp file), from the rename on the checkpoint is the new one, and the prior cache stays in place until its own rename |
| CheckpointStore.LoadSpec | agents/state_manager.py:18-34 | loading succeeds iff checkpoint, state and plan exist, returns them as stored with `{}` for a missing cache, and otherwise names a missing file |
| CheckpointStore.SaveResumable | agents/state_manager.py:15-16 | after a save, resuming is possible iff the state and the plan exist |
| CheckpointStore.SaveLoadRoundTrip | agents/state_manager.py:18-57 | loading after a save returns the saved checkpoint and cache with the state and plan unchanged |
| CheckpointStore.ClearedSpec | agents/state_manager.py:59-63 | clearing removes the checkpoint and the cache, keeps every other file, and makes resuming impossible |
| CheckpointStore.CacheKeysDistinct | agents/state_manager.py:53-57 | distinct section ids become distinct JSON keys in the cache |
| CheckpointStore.CacheKeyRoundTrip | agents/state_manager.py:53-57 | a cached key of a non-negative section id reads back as that id |
| CheckpointStore.StateManager.CanResume | agents/state_manager.py:15-16 | true iff state.json, plan.json and checkpoint.json all exist |
| CheckpointStore.StateManager.LoadCheckpoint | agents/state_manager.py:18-34 | returns what the load function specifies |
| CheckpointStore.StateManager.SaveCheckpoint | agents/state_manager.py:36-57 | the directory becomes the saved directory, through the temp write and rename steps |
| CheckpointStore.StateManager.ClearCheckpoint | agents/state_manager.py:59-63 | the directory loses exactly its checkpoint and its cache |
| StatusMachine.StatusOf | src/core/state_manager.py:51-53 | a stored string names a status iff it is that status's enum value |
| StatusMachine.InitAllSpec | src/core/state_manager.py:34-38 | initialising keeps every recorded status and entry position, adds each new name as PENDING, and adds nothing else |
| StatusMachine.InitAllDistinct | src/core/state_manager.py:34-38 | each section stays recorded once |
| StatusMachine.StatusIn | src/core/state_manager.py:51-53 | an unrecorded section reads as PENDING, a recorded one as its stored status |
| StatusMachine.FirstPendingSpec | src/core/state_manager.py:55-59 | the next pending section is PENDING with no PENDING entry before it; none iff no section is PENDING |
| StatusMachine.CountsPartition | src/core/state_manager.py:61-64 | the four status counts add up to the number of sections |
| StatusMachine.ProgressSpec | src/core/state_manager.py:61-73 | remaining is the PENDING plus IN_PROGRESS count, never negative; the percentage is 0 with no sections, within [0, 100], and 100 iff all sections are completed |
| StatusMachine.AllCompletedCount | src/core/state_manager.py:75-76 | the table is complete iff the completed count equals the total, so an empty table is complete |
| StatusMachine.SetStatusSpec | src/core/state_manager.py:40-41 | setting a status changes that section's status only |
| StatusMachine.CompleteLast | src/core/state_manager.py:44-47 | completing the last unfinished section leaves the table complete and no next pending section |
| StatusMachine.StateManager.constructor | src/core/state_manager.py:16-32 | a manager without a state file starts empty, created now, with no current section |
| StatusMachine.StateManager.InitializeSections | src/core/state_manager.py:34-38 | the table becomes the initialised table; the metadata is unchanged |
| StatusMachine.StateManager.NextPending | src/core/state_manager.py:55-59 | the loop returns the first PENDING section |
| StatusMachine.StateManager.SetSectionStatus | src/core/state_manager.py:40-49 | the table gets the new status; IN_PROGRESS makes the section current, COMPLETED moves current to the first pending section, other statuses leave it unchanged |
| StatusMachine.StateManager.Reset | src/core/state_manager.py:96-100 | the table is emptied, current is None and the update time is set |
| ConfigLoader.ReplaceEnv | src/core/config_loader.py:52-71 | a value that is neither a dict nor a list comes back unchanged |
| ConfigLoader.ErrorIsUnsetVariable | src/core/config_loader.py:59-61 | the only failure names an environment variable that is unset or empty |
| ConfigLoader.DictEntry | src/core/config_loader.py:56-65 | in a successful pass, an `_env` key with a string value becomes `key.replace('_env', '')` mapped to the variable's non-empty value; any other entry keeps its key with its value transformed recursively (unless a later entry writes the same key) |
| ConfigLoader.EntriesKeep | src/core/config_loader.py:55-66 | a successful pass transforms every entry, and a key no later entry writes keeps its value |
| ConfigLoader.ListElementwise | src/core/config_loader.py:67-68 | a list is transformed element by element, keeping its length and order |
| ConfigLoader.PlainUnchanged | src/core/config_loader.py:52-71 | settings without any `_env` entry come back unchanged |
| ConfigLoader.FindSection | src/core/config_loader.py:79-83 | a section found has the requested name and is one of the template's sections |
| ConfigLoader.FindSectionSpec | src/core/config_loader.py:79-83 | the first section with the name is returned; the error happens iff no section has it |
| ConfigLoader.LoadedSpec | src/core/config_loader.py:21-50 | loading needs the settings file, every variable and the active template file (default `final_year_project`), and keeps the injected settings and that template's sections |
| ConfigLoader.ConfigSlot.GetConfig | src/core/config_loader.py:102-109 | the first successful call builds and keeps a new loader; later calls return that same object |
| ConfigLoader.GetConfigTwice | src/core/config_loader.py:102-109 | two calls in a row return the same object once the first succeeds |
| Pipeline.RunGenerated | src/core/orchestrator.py:34-40 | a section is generated only if it is in the template, was not completed and did not raise |
| Pipeline.RunFailed | src/core/orchestrator.py:39-44 | the section that raises is in the template, ends FAILED, and is not counted as generated |
| Pipeline.RunUntouched | src/core/orchestrator.py:34-44 | a section neither generated nor failed keeps its status entry |
| Pipeline.RunGeneratedCompleted | src/core/orchestrator.py:50-76 | every generated section ends COMPLETED |
| Pipeline.RunSkipsGenerated | src/core/orchestrator.py:35-37 | a COMPLETED section is never generated or failed again |
| Pipeline.RunCompletesAll | src/core/orchestrator.py:34-44 | after a run without failure every template section is COMPLETED |
| Pipeline.RunKeys | src/core/orchestrator.py:34-44 | the table keeps distinct names, and holds only names it had or template names |
| Pipeline.RunFinalizes | src/core/orchestrator.py:46-48 | after a run without failure over a table of template sections, `is_complete` holds and the paper is finalised |
| Pipeline.FreshRunFinalizes | src/core/orchestrator.py:26-48 | a fresh orchestrator whose generator never raises finalises the paper |
| Pipeline.NoFailure | src/core/orchestrator.py:39-44 | a run in which no section raises has no failure |
| Pipeline.RunTurn | src/core/orchestrator.py:34-44 | one loop turn: skip a completed section, stop at a raising one, otherwise generate it and go on |
| Pipeline.RecordedGet | src/core/context_manager.py:35-37 | after recording, every generated section holds its placeholder context and every other keeps its entry |
| Pipeline.Orchestrator.constructor | src/core/orchestrator.py:13-28 | a fresh orchestrator has every template section PENDING and an empty context store |
| Pipeline.Orchestrator.GenerateSection | src/core/orchestrator.py:50-77 | the section goes IN_PROGRESS and becomes the current section; if the generator raises, nothing else changes; otherwise its placeholder context is stored (adding no citation and no term), its name appended to the order, and it becomes COMPLETED, the current section moving to the first pending one |
| Pipeline.Orchestrator.AttemptSection | src/core/orchestrator.py:39-44 | a raising section is marked FAILED and nothing is recorded for it |
| Pipeline.Orchestrator.Visit | src/core/orchestrator.py:35-44 | a completed section is skipped; any other is attempted |
| Pipeline.Orchestrator.GeneratePaper | src/core/orchestrator.py:32-48 | the status table, the completion order and the context store end as the run over the template says, with the citation and term lists unchanged; the current section is the one that raised, else the first pending one after the last completion, else unchanged; the result is the re-raised section or whether the paper was finalised |
| Pipeline.Orchestrator.Resume | src/core/orchestrator.py:99-101 | resuming is the same run as `generate_paper` |
| Pipeline.Orchestrator.Reset | src/core/orchestrator.py:103-107 | both the status table and the context store are emptied |
| InputValidator.RequiredFields | agents/input_validator.py:32-36 | no error exactly when both `topic` and `template` are present; a missing topic is reported first |
| InputValidator.TopicAccepted | agents/input_validator.py:38-49 | a topic is accepted exactly when it is a string with at least ten characters after stripping |
| InputValidator.TopicStripped | agents/input_validator.py:42-49 | the accepted topic is the stripped text: stripping it again changes nothing and it is no longer than the input |
| InputValidator.TopicBlank | agents/input_validator.py:42-44 | an all-whitespace topic is reported as empty, not as too short |
| InputValidator.CheckEachSpec | agents/input_validator.py:61-72 | the entry loop succeeds exactly when every entry passes, and then returns one checked value per entry, in order |
| InputValidator.CheckEachFirstError | agents/input_validator.py:62-68 | a failing entry loop reports the first failing entry; all earlier ones pass |
| InputValidator.CheckEachStops | agents/input_validator.py:62-68 | once an entry fails, later entries do not change the outcome |
| InputValidator.TemplateSpec | agents/input_validator.py:51-72 | a template is accepted exactly when it is a list of 1 to 40 entries that all pass; the result is the stripped, non-blank entries in order |
| InputValidator.TemplateShape | agents/input_validator.py:55-72 | an accepted template has 1 to 40 non-blank names |
| InputValidator.TemplateAboveStatedMaximum | agents/input_validator.py:58-59 | a template of 21 to 40 good entries is accepted, although the error text names 20 as the maximum |
| InputValidator.ValidateTemplate | agents/input_validator.py:51-72 | the loop that appends stripped entries computes the template check |
| InputValidator.ConstraintsAccepted | agents/input_validator.py:74-89 | the constraints pass exactly when every key is a default key and every value is a positive integer (a bool counts as an integer) |
| InputValidator.ConstraintsKeys | agents/input_validator.py:75-87 | an accepted result has exactly the default keys, in their order |
| InputValidator.ConstraintsValues | agents/input_validator.py:75-87 | each key holds the given value, or its default from `config/defaults.py` when not given |
| InputValidator.ConstraintsGood | agents/input_validator.py:75-89 | every value in an accepted result is a positive integer under a default key |
| InputValidator.ConstraintsStop | agents/input_validator.py:77-85 | once an entry fails, later entries do not change the outcome |
| InputValidator.ValidateConstraints | agents/input_validator.py:74-89 | the loop that updates a copy of the defaults computes the constraint check |
| InputValidator.StyleOf | agents/input_validator.py:91-119 | an accepted style has a tone, citation format and complexity from their allowed lists |
| InputValidator.StyleSpec | agents/input_validator.py:91-119 | each style field is the given value when present and the default otherwise; additional instructions are copied unchecked |
| InputValidator.StyleErrors | agents/input_validator.py:94-114 | a style mapping fails exactly when a present tone, format or complexity is outside its list, and a bad tone is the error reported |
| InputValidator.EmptyStyleIsDefault | config/defaults.py:8-13 | an absent style gives the default style |
| InputValidator.ValidateStyle | agents/input_validator.py:91-119 | the field-by-field updates of a copied default compute the style check |
| InputValidator.AssembleParts | agents/input_validator.py:17-30 | a successful validation is made of successful field checks |
| InputValidator.ValidateParts | agents/input_validator.py:17-30 | a successful validation has both required fields, and its four parts are the results of the topic, template, constraint and style checks |
| InputValidator.ValidatedShape | agents/input_validator.py:25-30 | a validated configuration has a topic of at least ten characters, 1 to 40 non-blank sections, the three constraint keys with positive integers and allowed style values |
| InputValidator.Validate | agents/input_validator.py:17-30 | the method computes the validation, including its first error |
| PlanRunner.InitialState | orchestrator.py:73-83 | a fresh run state holds the configuration, is on section 0, and has no completed or failed sections and no thesis |
| PlanRunner.FirstRule | orchestrator.py:105-121 | a rule table answers exactly when some rule has a keyword in the title, and then with the objective of such a rule |
| PlanRunner.FirstRuleStep | orchestrator.py:108-121 | the rules are tried in order: the first matching one decides |
| PlanRunner.ObjectiveByRules | orchestrator.py:105-121 | the objective is that of the first keyword rule (introduction; literature or review; methodology or method; result or finding; discussion; conclusion) found in the lower-cased title, else the generic objective naming the title |
| PlanRunner.CreatePlan | orchestrator.py:85-103 | the plan has the topic, one pending section per template title with id equal to its position and its objective, and a total equal to the template length |
| PlanRunner.LastPending | orchestrator.py:49-65 | the section made current by a run is never one already completed |
| PlanRunner.WalkSpec | orchestrator.py:49-65 | a run never changes the completed or failed sections, the configuration or the thesis; the current section becomes the last one not completed, and is unchanged when all are completed |
| PlanRunner.LastPendingIsLast | orchestrator.py:49-55 | there is no pending section exactly when all are completed; otherwise every section after the last pending one is completed |
| PlanRunner.WalkAgain | orchestrator.py:49-65 | running the plan a second time gives the same state apart from the save time |
| PlanRunner.FreshRunReachesLast | orchestrator.py:20-65 | after `initialize`, a run processes every section and leaves the last one current |
| PlanRunner.Orchestrator.constructor | orchestrator.py:11-18 | the orchestrator starts with whatever state and plan files its directory already holds |
| PlanRunner.Orchestrator.Initialize | orchestrator.py:20-34 | a rejected input raises before anything is saved; an accepted one saves the fresh state and the plan of the validated configuration |
| PlanRunner.Orchestrator.Run | orchestrator.py:36-65 | a missing state file raises; otherwise the state after the loop is the run over the plan, and the plan is unchanged |
| InputParser.ScanAppend | src/parsers/input_parser.py:80-89 | the line loop of `_extract_sections` over two runs of lines is the loop over the first run, continued over the second |
| InputParser.PreambleIgnored | src/parsers/input_parser.py:87-89 | lines before the first `# ` header belong to no section and change nothing |
| InputParser.SectionsSkipPreamble | src/parsers/input_parser.py:75-94 | the sections of a text equal the sections of the text from its first header on |
| InputParser.BodyLinesAccumulate | src/parsers/input_parser.py:87-89 | under an open section, non-header lines are appended to its lines in order |
| InputParser.LastBodyWins | src/parsers/input_parser.py:75-94 | a header with a non-empty name followed only by body lines stores, under that name, the body lines joined by newlines and stripped, whatever came before, so a repeated header keeps its last body |
| InputParser.SubheaderIsBody | src/parsers/input_parser.py:81 | a `##` line does not open a section |
| InputParser.CurrentIsLastHeader | src/parsers/input_parser.py:81-86 | the open section is the name of the last header seen, or none before any header |
| InputParser.SectionNames | src/parsers/input_parser.py:75-94 | a name is a key of the sections exactly when some header gives it and it is not empty |
| InputParser.StoredKeys | src/parsers/input_parser.py:80-89 | during the loop, the stored keys and the open section are exactly the non-empty header names seen |
| InputParser.SectionLine | src/parsers/input_parser.py:81-89 | one line of the loop: a header stores the open section and opens its own; another line joins the open section |
| InputParser.ExtractSections | src/parsers/input_parser.py:75-94 | the loop's result is the section map of the split lines, the last open section stored at the end |
| InputParser.MetaLineEffect | src/parsers/input_parser.py:99-108 | a line without a colon changes nothing; a line with one sets only the key before its first colon, stripped and lower-cased, to the stripped value after it |
| InputParser.MetadataShape | src/parsers/input_parser.py:105-108 | only the `keywords` key holds a list; every other key holds text |
| InputParser.PutShape | src/parsers/input_parser.py:105-108 | setting a key keeps "only `keywords` holds a list" when the new value agrees with it |
| InputParser.KeywordsRoundTrip | src/parsers/input_parser.py:105-106 | there is one keyword per comma-separated piece, each the piece stripped, and the pieces join back to the value |
| InputParser.MetadataLine | src/parsers/input_parser.py:100-108 | one line of the metadata loop sets the key the line names, or nothing |
| InputParser.ExtractMetadata | src/parsers/input_parser.py:96-110 | the loop's result is the metadata of the split lines |
| InputParser.ParseContent | src/parsers/input_parser.py:45-73 | the parsed input keeps the whole text as its raw content |
| InputParser.TextKeysAreText | src/parsers/input_parser.py:52-54 | a present title, author or domain is read as text, never replaced by the default |
| InputParser.NoConfigurationNoMetadata | src/parsers/input_parser.py:48 | without a `Project Configuration` section the metadata is empty |
| InputParser.ParseDefaults | src/parsers/input_parser.py:48-55 | without a configuration section the title, author, domain and keywords take their defaults |
| InputParser.MissingSectionEmpty | src/parsers/input_parser.py:56 | an absent `Problem Statement` section reads as the empty string |
| InputParser.ContextFallback | src/parsers/input_parser.py:145-172 | a section type without a context block gets the raw text cut to its first 1000 characters, a prefix of it |
| InputParser.ExtractedTerms | src/parsers/input_parser.py:134-143 | with a client and a reply, one term per comma-separated piece of the reply, stripped; without a client, or when the call raises, no terms |
| InputParser.ContextCarriesFields | src/parsers/input_parser.py:146-170 | the research, interactive, evidence and automated blocks carry the problem statement, the justification, the dependencies and the extracted terms |
| TemplateProfile.GenericAcademicIsGood | models/template_profile.py:38-69 | the generic table has distinct titles, non-negative citation targets, a word range with minimum below maximum, and a known research strategy |
| TemplateProfile.CsTitlesDistinct | models/template_profile.py:78-158 | the sixteen CS titles are distinct |
| TemplateProfile.CsProjectIsGood | models/template_profile.py:71-159 | the CS table has distinct titles, non-negative citation targets, a word range with minimum below maximum, and a known research strategy |
| TemplateProfile.OnlyLiteratureReviewTargeted | models/template_profile.py:26 | in both tables the research strategy is `targeted` exactly for `Literature Review`, `global` by default otherwise |
| TemplateProfile.FirstFuzzy | models/template_profile.py:168-171 | the index found is the first in table order whose key contains, or is contained in, the lower-cased title; none is found only when no key matches |
| TemplateProfile.SectionProfileOf | models/template_profile.py:161-179 | a title that is a key gets that key's rules; a title with no exact and no fuzzy match gets a discussion profile with the template's default citation count and 800 to 1500 words |
| TemplateProfile.FuzzyIsFirstMatch | models/template_profile.py:167-171 | a title that is not a key but matches some key gets the rules of the first matching key in table order |
| TemplateProfile.EmptyTitleTakesFirst | models/template_profile.py:168-171 | an empty title, being contained in every key, gets the first entry of the table |
| TemplateProfile.SectionProfileIsGood | models/template_profile.py:161-179 | whatever the title, a well-formed profile hands out rules that keep the table invariants |
| TemplateProfile.Score | models/template_profile.py:205 | the score is at most the number of keywords |
| TemplateProfile.ScoreCounts | models/template_profile.py:205 | the score is the number of keywords that some lower-cased title contains |
| TemplateProfile.DetectProfile | models/template_profile.py:191-211 | the CS profile is chosen exactly when at least three CS keywords occur in the titles; otherwise the generic profile |
| TemplateProfile.ScoreGrows | models/template_profile.py:205 | adding titles never lowers the score |
| TemplateProfile.DetectionSurvivesMoreSections | models/template_profile.py:191-211 | a template detected as a CS project stays one when sections are added |
| TemplateProfile.DetectionIgnoresCase | models/template_profile.py:193 | lower-casing the titles beforehand does not change the detected profile |
| TemplateProfile.GetProfile | models/template_profile.py:213-215 | `cs_project` gives the CS profile; any other name gives the generic one |
| TemplateProfile.ProfileByName | models/template_profile.py:185-215 | each profile is found again by its own name, including every detected profile |
| ExportEngine.EmptyTitleMatches | agents/export_engine.py:14-16 | an empty title is contained in every section name, so it matches every chapter that has one |
| ExportEngine.DefinitionsNumberedInOrder | agents/export_engine.py:26-123 | both profiles define five chapters, numbered one to five in the order listed |
| ExportEngine.IntroductionInTwoChapters | agents/export_engine.py:80-100 | a section titled `Introduction` matches both the first and the second management chapter |
| ExportEngine.GroupSections | agents/export_engine.py:174-185 | the loop over the chapters, followed by the leftovers, builds exactly the grouping |
| ExportEngine.ChapterGroupsSpec | agents/export_engine.py:176-179 | each chapter group is the group of a chapter that gathers something, listed in chapter order, and every chapter that gathers a section has its group |
| ExportEngine.GroupHolds | agents/export_engine.py:177 | a chapter's group holds exactly the sections whose titles match the chapter |
| ExportEngine.AdditionalGroupSpec | agents/export_engine.py:181-183 | the `Additional Sections` group exists exactly when some section matches no chapter, and holds exactly those sections |
| ExportEngine.EverySectionPlaced | agents/export_engine.py:174-185 | every section appears in at least one group |
| ExportEngine.GroupsNotEmpty | agents/export_engine.py:178-183 | no group is empty: chapters without matches are omitted |
| ExportEngine.GroupNumbersIncrease | agents/export_engine.py:174-185 | with chapters numbered in order, group numbers strictly increase and the additional group, numbered one past the chapters, comes last |
| ExportEngine.IntroductionGroupedTwice | agents/export_engine.py:81-100 | under the management chapters an `Introduction` section appears in two different groups |
| ExportEngine.NumberToWord | agents/export_engine.py:338-340 | zero gives the empty word and only zero does; from eleven on the result is the decimal digits of the number |
| ExportEngine.NumberWordsDistinct | agents/export_engine.py:338-340 | different chapter numbers get different words |
| ExportEngine.StrLessIrreflexive | agents/export_engine.py:244 | no text sorts before itself |
| ExportEngine.StrLessTransitive | agents/export_engine.py:244 | the text order used by the sort is transitive |
| ExportEngine.ByFirstAuthorOrders | agents/export_engine.py:244 | ordering sources by first author is irreflexive and transitive |
| ExportEngine.BuildReferences | agents/export_engine.py:238-256 | the method computes the references text of the database, or the error its sort key raises |
| ExportEngine.ReferencesCases | agents/export_engine.py:238-244 | exactly the empty database gives the `No references cited.` block; an empty author list raises; otherwise the text starts with the references heading |
| ExportEngine.ReferenceOrder | agents/export_engine.py:244 | the entries are a permutation of the sources, sorted by first author, and sources with the same first author keep the database's order |
| ExportEngine.EntryUrl | agents/export_engine.py:245-254 | an entry ends with `Retrieved from` and its url when the url is not empty, and with the italic title otherwise |
| ExportEngine.TitleCaseSpec | agents/export_engine.py:154 | title-casing changes only the case of letters, and applying it twice changes nothing more |
| Text.ReplaceChar | agents/export_engine.py:154 | replacing one character by another keeps the length and every other character, and leaves none of the replaced character; it is also the `replace('\n', ' ')` of export.py:101 |
| ExportEngine.SectionTitle | agents/export_engine.py:154 | a title exists exactly when the file stem has an underscore; without one the split raises |
| ExportEngine.SectionTitleShape | agents/export_engine.py:154 | the title is the stem after its first underscore, with spaces for underscores, up to the case of letters |
| ExportEngine.HeadingDropped | agents/export_engine.py:155-157 | a body starting with `#` loses its first line and the rest is stripped; a body that is only that line becomes empty |
| PaperAbstract.FirstThree | export.py:102 | at most the first three pieces, in order |
| PaperAbstract.Sentences | export.py:101-105 | the joined sentences always end with a period |
| PaperAbstract.Limit | export.py:107-110 | the word limit keeps the final period |
| PaperAbstract.NoIntroduction | export.py:88-91 | without an introduction file the abstract is `This research examines` and the topic, with a period |
| PaperAbstract.AbstractEndsWithPeriod | export.py:104-112 | the abstract always ends with a period |
| PaperAbstract.AbstractSkipsHeading | export.py:95-98 | a first line starting with `#` is dropped and the rest stripped before the sentences are taken |
| PaperAbstract.StrippedPiece | export.py:102 | a non-blank piece strips to a non-empty stripped text that still holds no `. ` |
| PaperAbstract.KeptSentencesShape | export.py:100-102 | at most three sentences are kept, each non-empty, stripped, and free of `. ` |
| PaperAbstract.LimitSpec | export.py:107-110 | an abstract of at most 250 words is kept whole; a longer one keeps exactly its first 250 words, followed by `...` |

## Left out
- Language-model calls (`src/llm/client.py`, `src/utils/llm_client.py`, `DraftingEngine.draft`, the `_call_llm` helpers): foreign API calls; their replies are inputs of the model, and prompt texts are not modelled.
- Prompt assembly (`WritingAgent._build_writing_prompt`, `src/modules/writing/prompt_builder.py`, the section generators other than `src/generators/base.py`, `agents/editor_agent.py`): free-text templating around language-model calls.
- Network search, arXiv and embedding providers and the faiss vector stores (`src/storage/claim.py`, `src/storage/embedding.py`): foreign calls; search hits and provider replies are inputs.
- JSON save/load (`src/core/context_manager.py:88-113`, `src/core/state_manager.py:78-94`, `orchestrator.py:123-138`, `src/storage/state_store.py`, `src/storage/section.py`): serialisation I/O; saved state is modelled as optional decoded values, and agents/state_manager.py files as a path-to-content map.
- Rendering (`src/export/word_exporter.py`, `src/export/diagram_renderer.py`, the pandoc conversions of `agents/export_engine.py`, its datetime title page, `_build_abstract`, the markdown assembly and the file writes of `export.py` `export_paper`): document output with no logic to state.
- Interactive and command-line code (`input()` prompts, `main.py`, `run.py`, `src/api/*`), logging and the settings modules: user I/O.
- Wall-clock behaviour (the timeout cut-offs in agents/research_agent.py, `generation_time`, timestamps, `created_at`, `validation_id`, `last_updated`): the clock is an input (`now`) or left out.
- Regular expressions are hand-written scanners, one per pattern; `IGNORECASE`, `\d`, `\s`, `lower()`, `title()`, `split()` and `strip()` are ASCII only: whitespace is the ASCII set Python uses (tab to carriage return, the separators `\x1c` to `\x1f`, and the space), while non-ASCII whitespace such as `\x85` or `\xa0` is not whitespace here; no Unicode case folding.
- Floating point: relevance weights, thresholds, `cost_usd` and the progress percentage are `real` (no IEEE rounding); the percentage is an exact `real` quotient; its bounds and the 100% case are proved.
- src/modules/validation/citation.py:55-70: the second loop calls `group(1)` on a pattern without groups, which raises on any match; that loop is not modelled.
- src/modules/validation/content.py: every malformed JSON shape of the reply is folded into one `Malformed` outcome.
- LedgerUpdate.Update: the reply decoder is the `decode` parameter (`CleaningDecoder` builds `json.loads` after `_clean_json` from a JSON decoding `loads`); a malformed reply, or a `key_findings` entry without `text`, is folded into `Malformed` or a finding without text, and the exception raised when `key_terms` is not an object is the `None` result.
- WritingAgent.AdjustClaims: the nine case-insensitive whole-word replacements of agents/writing_agent.py:90-92 are the `rewrite` input; post-write warnings are only logged and are not modelled.
- agents/context_manager.py: `sources_used` is unused by the source; `Counter` ties keep first-seen order; the prompt and its call become the `response` input.
- src/core/context_manager.py: `from_dict` mutating its argument and the state-file save and unlink are not modelled.
- src/generators/base.py: `list(set(...))` order is modelled as a set; the backtracking of `\s+` and the temperature are not modelled.
- src/core/state_manager.py: the load branch of `__init__`; unknown statuses arise only through `StatusOf`.
- src/core/config_loader.py: `load_dotenv` and YAML parsing (files are decoded values), floats and non-string keys, the typed `SectionConfig`, and the getters not used by the pipeline; a non-string `active_template` or a non-mapping settings file is an error.
- src/core/orchestrator.py: section generation is a placeholder in the source and is modelled by a `raises` oracle; the `state_dir` and context-file loads in `__init__`; the `word_count` lookup in a log line.
- InputValidator: error message texts are not modelled, floats are not integers, a non-dict style or constraints value is folded into a type error.
- PlanRunner: `_log_plan`, the `state_dir` mkdir and logging are left out; `run` takes the file contents as already decoded.
- InputParser: the file read of `parse_file` and logging are left out; the language-model reply of `_extract_terms_with_llm` is the `termsReply` input.
- TemplateProfile.DetectProfile: the `topic` argument is unused by the source and is not modelled; `TemplateProfileManager` is modelled by the functions `Profiles` and `GetProfile`.
- ExportEngine.NumberToWord: takes a natural number; Python's negative indexing for negative chapter numbers is not modelled, since chapter numbers are positive.
- ExportEngine: a source's year is taken as already-rendered text; the section files' glob and sort are an input sequence.
- PaperAbstract.GenerateAbstract: the glob for `00_*.md` becomes the `intro` input, the first match only.
- ContentCheck.Validate: builds its style issues with the corrected lookup of the second "## Findings" row (`StyleIssue`, lookup by name or value), not with the program's lookup by value; the program turns a style entry spelled with member names into a generic STYLE_MISMATCH WARNING (`ContentCheck.AsWrittenNamesFallBack`), and this member does not promise that list.
- ContentCheck.MapEvaluation: maps style entries through the corrected `StyleIssue`, not through the program's by-value lookup and its STYLE_MISMATCH WARNING fallback; the as-written mapping is `StyleIssueAsWritten`.
- ContentCheck.AppendStyleIssues: appends the corrected `StyleIssue` of each entry, not the as-written fallback issue of src/modules/validation/content.py:84-106.
- ContentCheck.SuccessShape: pins each style entry's issue to the corrected `StyleIssue` (lookup by name or value), not to the program's by-value lookup of src/modules/validation/content.py:84-87 and its STYLE_MISMATCH WARNING fallback; the as-written mapping is `StyleIssueAsWritten`.
- ContentCheck.PartialFailureShape: the style issues kept before the unexpected-error issue are the corrected `StyleIssue`s, not the as-written fallback issues of src/modules/validation/content.py:84-106.
- ContentCheck.AppendEntries: appends the corrected `StyleIssue` of each entry, not the as-written fallback issue of src/modules/validation/content.py:84-106.
- PaperValidator.CitationValidator.ValidateBatch: the batch reply is the `batchReply` input, already decoded into a `BatchReply` value; the `strip()`, the code-fence removal `re.sub(r'^```json?\s*|\s*```$', '', ..., flags=re.MULTILINE)` and the `json.loads` of src/research/validator.py:202-207 are folded into that input and are not modelled.
- ResearchAgent.ResearchAgent.ResearchSection: agents/research_agent.py:10 imports `PaperDeduplicator` from a `search` module that is not part of this model; it is identified with the deduplicator of src/modules/research/deduplication.py (`Deduplication.Deduplicate`).
- ValidationModule.ValidateSection: inherits the corrected content mapping, so a section whose only CRITICAL issue is a style entry spelled with member names fails here, while the program downgrades that entry to a WARNING and passes the section.
- ValidationModule.Complete: the content issues it combines are the corrected ones, as for ValidationModule.ValidateSection.
- RegistryGate.TopicCandidates: takes its sentences from `CitingSentences`, the corrected literal match of the id of the first "## Findings" row, not from the program's pattern, which finds no sentence for any arXiv id (`RegistryGate.AsWrittenNoArxivTopics`).
- RegistryGate.ExtractTopicsFromContext: its topics come from the corrected pattern; the program's `missing_topics` is empty whenever the missing ids are arXiv ids, and this member does not promise that.
- RegistryGate.ValidateSection: reports the gap topics of the corrected pattern; for missing arXiv ids the program reports none. Its issues and its verdict do not depend on the pattern and are as the program computes them.

## Findings
| source | as written | input that shows it | evidently intended | confidence | as-written member | corrected member |
|---|---|---|---|---|---|---|
| agents/validation_agent.py:80 | the pattern writes a backslash before the escaped id, so its first letter becomes the escape `\a` (bell) or `\d` (digit) | a text "Transformers improve translation [arxiv:2301.00001]." whose id is missing from the registry | the sentence citing the id is matched and its long words become gap topics | high, not executed | RegistryGate.AsWrittenNoArxivTopics | RegistryGate.CitingSentenceFound |
| src/modules/validation/content.py:84-87 | `IssueType(...)` and `Severity(...)` look members up by their lower-case values, while the prompt asks for upper-case names and the default is itself a name | a style entry {"issue_type": "TERMINOLOGY_INCONSISTENT", "severity": "CRITICAL"} becomes a STYLE_MISMATCH WARNING | the entry keeps its issue type and severity | high, not executed | ContentCheck.AsWrittenNamesFallBack | ContentCheck.StyleIssueKeepsNames |

# Insurance policy Q&A pipeline — a verified Dafny model

This project models the deterministic core of an insurance-policy question
answering service. A question is classified into a query category and a
use case. Policy text retrieved for it is split into sentence clauses. Each
clause is labelled exclusions, limits, conditions, coverage or other by a
first-match keyword cascade, and the labelled clauses are gathered into a
structured view of at most five clauses per category. A verdict and a
confidence are derived from that view. An answer template chosen by the
query category then formats the clauses.

The service has two such pipelines:

- `RagService` de-duplicates clauses and enriches its answer with the
  classification.
- `PolicyReasoningEngine` keeps duplicates, ranks clauses by similarity to
  the question, drops weakly similar ones and blends similarity into the
  confidence.

Both share one clause classifier and one verdict table (`ClauseRules`).
Around them sit:

- the maximal-marginal-relevance re-ranker over retrieved documents
  (`VectorService`);
- the per-session bounded conversation history (`MemoryService`);
- the policy summary formatter (`PolicyFormatter`).

Modules, one per source file of the core:

| module | models |
|---|---|
| `QueryClassifier` | `app/services/query_classifier.py`: enums, both keyword tables, `classify_query`, `get_query_focus_areas` |
| `AnswerGenerator` | `app/services/answer_generator.py`: every answer template, the category dispatch, the enrichment with query metadata |
| `RagService` | `app/services/rag_service.py`: clause extraction, question type, structured map, confidence, `answer_question` after retrieval |
| `PolicyReasoningEngine` | `app/services/policy_reasoning_engine.py`: extraction without de-duplication, ranking, thresholded map, verdict, blended confidence, `answer_question` after retrieval |
| `ClauseRules` | the sentence split, length filter, `_classify_clause`, the structured map and `_derive_verdict` shared by the two pipelines |
| `VectorService` | `hybrid_rerank` of `app/services/vector_service.py` |
| `MemoryService` | `app/services/memory_service.py`: the store as a class with a map field |
| `PolicyFormatter` | `app/domain/policy_formatter.py` |
| `Text`, `Seqs`, `Decimal` | the Python string, list and `round` operations the code relies on |

Code that loops and appends in the source is modelled as methods with loop
invariants, each proved equal to a specification function. Lemmas then
prove what the source promises about those functions. Pure expressions in
the source are functions.

## Model

| member | source | states |
|---|---|---|
| `Text.Lower` | app/services/rag_service.py:69 | lower-casing keeps the length and maps each character independently (ASCII letters to lower case, all else unchanged) |
| `Text.Contains` | app/services/rag_service.py:71-76 | Python's `p in s`: true exactly when `p` occurs in `s` at some index |
| `Text.Strip` | app/services/rag_service.py:33 | the result has no leading or trailing whitespace and is the slice of the input left after removing only whitespace before and after it |
| `Text.StripStripped` | app/services/rag_service.py:33 | stripping an already-stripped string changes nothing, so `strip` is idempotent |
| `Text.Ellipsize` | app/services/answer_generator.py:23-24 | the display text is at most `n + 3` long; a short text is kept, a long one becomes its first `n` characters plus "..." |
| `Text.CountChar` | app/services/answer_generator.py:46 | the count is zero exactly when the character is absent, and never more than the length |
| `Text.CountCharMultiplicity` | app/services/answer_generator.py:46 | the count is the number of occurrences of the character, its multiplicity in the string |
| `Text.Words` | app/services/answer_generator.py:22 | every word `str.split()` yields is non-empty and whitespace-free |
| `Text.WordsAreRuns` | app/services/answer_generator.py:22 | the words are the maximal whitespace-free runs in order: the input is the words interleaved with whitespace-only gaps, and the gaps between two words are non-empty |
| `Text.NormalizeSingleSpaced` | app/services/answer_generator.py:22 | `' '.join(clause.split())` leaves no leading, trailing or repeated whitespace; every whitespace character left is a single plain space between two non-whitespace characters |
| `Text.DecimalDigits` | app/services/answer_generator.py:78 | `str(n)` is a non-empty string of decimal digits that starts with '0' only for 0 |
| `Text.DecimalRoundTrip` | app/services/answer_generator.py:78 | the digits read back as the number: `int(str(n)) == n` |
| `Text.ReplaceChar` | app/domain/policy_formatter.py:8 | `replace` keeps the length and substitutes exactly the matching characters |
| `Seqs.Take` | app/services/rag_service.py:240 | `s[:n]` is the prefix of length `min(n, |s|)` |
| `Seqs.Dedup` | app/services/rag_service.py:243-253 | first-occurrence de-duplication has no repeats, has the same elements and is no longer |
| `Seqs.DedupOrder` | app/services/rag_service.py:243-253 | kept elements appear in the order of their first occurrence in the input |
| `Seqs.DedupIdempotent` | app/services/rag_service.py:36-38 | de-duplicating twice is de-duplicating once |
| `Decimal.RoundClose` | app/services/policy_reasoning_engine.py:177 | rounding to `d` digits moves a value by at most half a unit in the last place |
| `Decimal.RoundMonotone` | app/services/policy_reasoning_engine.py:177 | rounding preserves order |
| `Decimal.RoundExact` | app/services/rag_service.py:168 | a value that already has `d` digits is unchanged by rounding to `d` digits |
| `ClauseRules.SplitSentences` | app/services/rag_service.py:30 | at least one piece; every piece but the last ends in `.`, `!` or `?`; no piece after the first starts with whitespace; no piece contains a terminal followed by whitespace; and the pieces interleaved with non-empty whitespace runs rebuild the document |
| `ClauseRules.PiecesStripped` | app/services/rag_service.py:32-33 | every stripped sentence piece has no surrounding whitespace |
| `ClauseRules.FragmentsSnoc` | app/services/rag_service.py:29-33 | the fragments of one more document are the old fragments followed by that document's pieces, in order |
| `ClauseRules.AdmissibleMembers` | app/services/rag_service.py:34 | a piece survives the filter exactly when its length is in [40, 1200] |
| `ClauseRules.ClassifyPriority` | app/services/rag_service.py:67-104 | each of the five labels is returned exactly when its phrase list matches the lowered clause and no higher-priority list does (exclusions > limits > conditions > coverage > other) |
| `ClauseRules.ClassifyCascade` | app/services/rag_service.py:67-104 | the table-driven classifier equals the source's if-chain of `any(x in text ...)` tests |
| `ClauseRules.ExclusionPhraseWins` | app/services/rag_service.py:71-77 | any exclusion phrase in the lowered clause gives "exclusions", whatever else it contains |
| `ClauseRules.PercentIsLimit` | app/services/rag_service.py:79-87 | a clause with "%" and no exclusion phrase is "limits" |
| `ClauseRules.NotCoveredBeatsWePay` | app/services/rag_service.py:71-102 | a clause containing "not covered" and "we will pay" is "exclusions" |
| `ClauseRules.UpToBeatsWePay` | app/services/rag_service.py:79-102 | a lower-case clause containing "up to" and no exclusion phrase is "limits", even if it says "we will pay" |
| `ClauseRules.ClassifyIgnoresCase` | app/services/rag_service.py:69 | the label of a clause equals the label of its lower-cased form |
| `ClauseRules.OfCategoryMembers` | app/services/rag_service.py:120-124 | a category's list holds exactly the input clauses with that label |
| `ClauseRules.BucketsSnoc` | app/services/rag_service.py:120-124 | filing one more clause appends it to its own label's list and to no other |
| `ClauseRules.ListOfIsTake` | app/services/rag_service.py:126-128 | each list of the structured map is the first at most 5 clauses of that label, in input order |
| `ClauseRules.ViewOfProperties` | app/services/rag_service.py:111-130 | every list holds at most 5 entries, each an input clause of that list's label; "other" clauses are in no list |
| `ClauseRules.ViewNonEmpty` | app/services/rag_service.py:111-130 | a category's list is non-empty exactly when some input clause has that label |
| `ClauseRules.VerdictTable` | app/services/rag_service.py:137-152 | both directions of the verdict table: summary → informational; coverage with limits → limited; coverage with conditions, no limits → conditional; coverage alone → covered; exclusions without coverage → excluded; otherwise not_specified |
| `ClauseRules.VerdictDependsOnEmptiness` | app/services/rag_service.py:137-152 | two views whose lists are empty in the same places get the same verdict |
| `ClauseRules.StructuralWeight` | app/services/rag_service.py:161-166 | the weight 3·coverage + 2·(limits + conditions + exclusions) is zero exactly when all four lists are empty |
| `RagService.ExtractClauses` | app/services/rag_service.py:24-40 | the nested document/sentence loop with its `seen` set computes the de-duplicated admissible fragments |
| `RagService.ScanDocument` | app/services/rag_service.py:30-38 | the inner loop over one document's sentences extends the result exactly as de-duplicating the extended fragment list would |
| `RagService.ExtractedClauseProperties` | app/services/rag_service.py:24-40 | clauses are distinct and stripped, have length in [40, 1200], and are exactly the admissible sentence fragments of the documents |
| `RagService.DetectQuestionType` | app/services/rag_service.py:47-60 | "summary" exactly when one of the five phrases occurs in the lowered question, otherwise "specific" |
| `RagService.QuestionTypeIgnoresCase` | app/services/rag_service.py:49 | the question type does not depend on letter case |
| `RagService.BuildStructuredMap` | app/services/rag_service.py:111-130 | the append-then-trim loop over the four-key dictionary builds the view whose properties `ClauseRules` proves |
| `RagService.CalculateConfidence` | app/services/rag_service.py:159-168 | confidence is min(weight, 10)/10, lies in [0, 1] and is 0 exactly when all four lists are empty |
| `RagService.UniqueSources` | app/services/rag_service.py:243-253 | the `seen`-set loop yields the (source, page) pairs de-duplicated in first-occurrence order |
| `RagService.SourcesProperties` | app/services/rag_service.py:243-253 | sources are distinct and are exactly the (source, page) pairs of the metadata |
| `RagService.AnalysisOf` | app/services/rag_service.py:218-234 | the structured answer is given the same verdict that the analysis reports; the summary view is present exactly for summary questions |
| `RagService.AnswerQuestion` | app/services/rag_service.py:175-294 | the answer after retrieval is the one determined by the question's classification and the retrieved documents |
| `RagService.AnswerClassified` | app/services/rag_service.py:193-292 | the empty-documents branch and the enriched full answer agree with their specification |
| `RagService.AnswerRetrieved` | app/services/rag_service.py:212-284 | the response assembled step by step equals the full-response specification |
| `RagService.Analyse` | app/services/rag_service.py:221-234 | the verdict, structured answer and optional summary are those of the specification |
| `RagService.NoDocumentsAnswer` | app/services/rag_service.py:193-209 | with no documents: not enriched, verdict "not_specified", confidence 0.0, no evidence, no sources, classification confidence reported |
| `RagService.AnswerIsEnriched` | app/services/rag_service.py:287-292 | with documents, the full response is returned wrapped in the query-metadata enrichment |
| `RagService.FullResponseProperties` | app/services/rag_service.py:237-253 | evidence is the first at most 3 extracted clauses, each of admissible length; sources are distinct and cover every metadata entry |
| `RagService.FullResponseTrace` | app/services/rag_service.py:256-284 | the trace counts every extracted clause; confidence is in [0, 1]; mode is "summary" exactly when the question is a summary question |
| `RagService.EvidenceProperties` | app/services/rag_service.py:240 | evidence is a prefix of at most 3 of the extracted clauses |
| `PolicyReasoningEngine.ExtractClauses` | app/services/policy_reasoning_engine.py:34-46 | the nested loop appends every admissible fragment, duplicates included |
| `PolicyReasoningEngine.ScanDocument` | app/services/policy_reasoning_engine.py:39-44 | the inner loop over one document's sentences appends exactly its admissible pieces |
| `PolicyReasoningEngine.AdmissibleAppend` | app/services/policy_reasoning_engine.py:40-44 | filtering distributes over concatenation of piece lists |
| `PolicyReasoningEngine.ExtractionConcatenates` | app/services/policy_reasoning_engine.py:34-46 | extraction of concatenated document lists is the concatenation, so a repeated document repeats its clauses |
| `PolicyReasoningEngine.AllClausesProperties` | app/services/policy_reasoning_engine.py:34-46 | every clause is stripped with length in [40, 1200]; they are exactly the admissible fragments; de-duplicating them gives the other pipeline's clauses |
| `PolicyReasoningEngine.ScoreAll` | app/services/policy_reasoning_engine.py:57-62 | each clause is paired with its own similarity, in order |
| `PolicyReasoningEngine.SortByScore` | app/services/policy_reasoning_engine.py:64 | sorting is a permutation of the scored clauses |
| `PolicyReasoningEngine.SortSorted` | app/services/policy_reasoning_engine.py:64 | sorting yields non-increasing scores |
| `PolicyReasoningEngine.SortStable` | app/services/policy_reasoning_engine.py:64 | for every score, the entries with that score keep their input order |
| `PolicyReasoningEngine.RankClauses` | app/services/policy_reasoning_engine.py:53-66 | the scoring loop, in-place sort and `[:25]` compute the ranked specification |
| `PolicyReasoningEngine.RankedProperties` | app/services/policy_reasoning_engine.py:53-66 | the ranking has length min(25, n), is sorted by non-increasing similarity, is a sub-multiset of the scored clauses, and keeps input order among equal scores |
| `PolicyReasoningEngine.RankedAreBest` | app/services/policy_reasoning_engine.py:64-66 | a clause left out of the top 25 scores no higher than any kept one |
| `PolicyReasoningEngine.TopIsMaximum` | app/services/policy_reasoning_engine.py:215 | the top similarity is 0 with no clauses, otherwise the maximum similarity of some clause |
| `PolicyReasoningEngine.RelevantMembers` | app/services/policy_reasoning_engine.py:127-129 | a clause passes exactly when some entry has it with similarity at least 0.45 |
| `PolicyReasoningEngine.BuildStructuredMap` | app/services/policy_reasoning_engine.py:117-140 | the loop that skips weak clauses and files the rest builds the view of the relevant clauses |
| `PolicyReasoningEngine.StructuredMapProperties` | app/services/policy_reasoning_engine.py:117-140 | at most 5 clauses per category, each of that label and scoring at least 0.45 |
| `PolicyReasoningEngine.StructuredMapNonEmpty` | app/services/policy_reasoning_engine.py:117-140 | a category's list is non-empty exactly when some clause scoring at least 0.45 has that label |
| `PolicyReasoningEngine.ListSources` | app/services/policy_reasoning_engine.py:117-140 | every clause of a category's list has that label and comes from an entry scoring at least 0.45 |
| `PolicyReasoningEngine.RelevantHas` | app/services/policy_reasoning_engine.py:126-129 | a clause of a label survives the 0.45 cut exactly when some entry of that label scores at least 0.45 |
| `PolicyReasoningEngine.EngineVerdict` | app/services/policy_reasoning_engine.py:147-159 | the engine's verdict is the shared table's verdict for a specific question and is never "informational" |
| `PolicyReasoningEngine.BlendedScore` | app/services/policy_reasoning_engine.py:166-175 | the blend is at most 1, non-negative when the top similarity is, and equals 0.4·top for an empty map |
| `PolicyReasoningEngine.BlendedConfidence` | app/services/policy_reasoning_engine.py:166-177 | the reported confidence is at most 1, non-negative when the top similarity is, and within 0.005 of the blend |
| `PolicyReasoningEngine.ConfidenceMonotone` | app/services/policy_reasoning_engine.py:166-177 | a higher top similarity never lowers the confidence |
| `PolicyReasoningEngine.Evidence` | app/services/policy_reasoning_engine.py:227 | evidence is the clauses of the top at most 3 ranked entries, in rank order |
| `PolicyReasoningEngine.AnswerQuestion` | app/services/policy_reasoning_engine.py:184-262 | the answer after retrieval equals its specification for the empty and the non-empty case |
| `PolicyReasoningEngine.AnswerRanked` | app/services/policy_reasoning_engine.py:215-262 | the response assembled from the ranked clauses equals the ranked-response specification |
| `PolicyReasoningEngine.NoDocumentsAnswer` | app/services/policy_reasoning_engine.py:198-207 | with no documents: verdict "not_specified", confidence 0.0, no evidence, no sources |
| `PolicyReasoningEngine.RankedResponseProperties` | app/services/policy_reasoning_engine.py:215-262 | verdict is never informational; confidence at most 1 and non-negative for non-negative similarities; trace counts at most 5; evidence is the top at most 3 ranked clauses |
| `QueryClassifier.DictDisplayOfDistinct` | app/services/query_classifier.py:83-207 | a dictionary literal without repeated keys is its list of pairs |
| `QueryClassifier.DictInsertExisting` | app/services/query_classifier.py:175-206 | re-assigning an existing key replaces its value in place and keeps the key's position |
| `QueryClassifier.QueryKeywordsIsDictDisplay` | app/services/query_classifier.py:83-207 | the category table is what Python builds from the literal: the later CLAIM_PROCESS list at the earlier key's position |
| `QueryClassifier.QueryKeywordsDistinct` | app/services/query_classifier.py:83-207 | the effective category table has no repeated key |
| `QueryClassifier.UseCaseKeywordsDistinct` | app/services/query_classifier.py:210-251 | the use-case table has no repeated key |
| `QueryClassifier.HitCount` | app/services/query_classifier.py:269-283 | the score is at most the length of the keyword list |
| `QueryClassifier.HitCountPositions` | app/services/query_classifier.py:269-283 | the score is the number of positions of the keyword list whose keyword hits; a repeated keyword counts at each position |
| `QueryClassifier.TableScores` | app/services/query_classifier.py:268-285 | each table entry's score is its keyword-hit count |
| `QueryClassifier.FirstMaxIndex` | app/services/query_classifier.py:288-295 | `max` over the dictionary returns the first index of a maximal score |
| `QueryClassifier.ScoreConfidence` | app/services/query_classifier.py:301-302 | confidence is min(score/3, 1): in [0, 1], 1 exactly from score 3, 0 exactly for score 0 |
| `QueryClassifier.Classify` | app/services/query_classifier.py:254-304 | with no hits the category is COVERAGE_CHECK with confidence 0 and the use case FAMILY; otherwise each is the first entry of maximal score, and confidence follows from that score |
| `QueryClassifier.ClassifyIgnoresCase` | app/services/query_classifier.py:264 | classifying the lower-cased question gives the same result |
| `QueryClassifier.ScoreTable` | app/services/query_classifier.py:268-285 | the scoring loop records, in table order, exactly the entries with a positive score |
| `QueryClassifier.FirstMaxItem` | app/services/query_classifier.py:289-295 | the scan returns the first item of maximal score |
| `QueryClassifier.ItemMaxIsTableMax` | app/services/query_classifier.py:288-295 | the first maximum among positive entries is the first maximum of the whole table |
| `QueryClassifier.NoItemsMeansAllZero` | app/services/query_classifier.py:288-298 | an empty score dictionary means every entry scored zero |
| `QueryClassifier.ClassifyQuery` | app/services/query_classifier.py:254-304 | the loops, `max` calls and defaults compute `Classify` |
| `QueryClassifier.LiteralUnlessIsStar` | app/services/query_classifier.py:269-273 | a keyword not starting with "is.*" hits exactly when it occurs literally |
| `QueryClassifier.DoesStarCoverIsLiteral` | app/services/query_classifier.py:269-273 | "does.*cover" is not a pattern: the query "does it cover" does not hit it |
| `QueryClassifier.ClaimAloneMissesClaimProcess` | app/services/query_classifier.py:175-206 | CLAIM_PROCESS sits at its first position with the later list, so "claim" alone scores it 0 although the earlier list would have matched |
| `QueryClassifier.HitCountNone` | app/services/query_classifier.py:269-275 | without any hit a list scores 0 |
| `QueryClassifier.HitCountSome` | app/services/query_classifier.py:269-275 | one hit gives a positive score |
| `QueryClassifier.HitCountPrefix` | app/services/query_classifier.py:269-275 | the score of a list is at least the score of any prefix of it |
| `QueryClassifier.AuditCountsTwice` | app/services/query_classifier.py:243-245 | "audit" listed twice makes any question containing it score at least 2 for AUDITOR |
| `QueryClassifier.GetQueryFocusAreas` | app/services/query_classifier.py:307-367 | focus areas are distinct, are exactly the union of the category and use-case lists, and are empty when neither is listed |
| `AnswerGenerator.Display` | app/services/answer_generator.py:19-24 | a displayed clause is at most its width plus 3 long |
| `AnswerGenerator.SliceAndDots` | app/services/answer_generator.py:23-24 | `text[:n] + ("..." if len(text) > n else "")` is the shared truncation |
| `AnswerGenerator.CollectDistinct` | app/services/answer_generator.py:86-91 | the normalise-truncate-dedup loop over the first `n` clauses computes its specification |
| `AnswerGenerator.CleanedDistinctProperties` | app/services/answer_generator.py:86-91 | the result is distinct, no longer than `n` or the input, each entry at most width + 3, and holds exactly the displayed forms of the first `n` clauses |
| `AnswerGenerator.FormatCoverageAnswer` | app/services/answer_generator.py:16-33 | the coverage template's result equals its specification |
| `AnswerGenerator.CoverageAnswerProperties` | app/services/answer_generator.py:16-33 | at most 5 key points, each the normalised clause or its first 120 characters plus "..."; `is_covered` exactly for "covered"; "Yes", "Likely No", "Unclear" by verdict; next step by verdict |
| `AnswerGenerator.LimitEntries` | app/services/answer_generator.py:54-72 | the k-th entry is the entry of the k-th clause that has a percentage, one or two amounts, or a duration; there are exactly as many entries as such clauses |
| `AnswerGenerator.FigureClausesMembers` | app/services/answer_generator.py:60 | a clause is among those given an entry exactly when it has a limit figure |
| `AnswerGenerator.LimitEntriesFrom` | app/services/answer_generator.py:54-72 | every entry comes from a clause with a figure and has a description of at most 153 characters |
| `AnswerGenerator.FormatLimitsAnswer` | app/services/answer_generator.py:36-79 | the limits template's result equals its specification |
| `AnswerGenerator.CollectLimitClauses` | app/services/answer_generator.py:41-49 | the de-duplicating loop keeps the normalised clauses of at least 30 characters with at most 8 commas |
| `AnswerGenerator.LimitClauseStep` | app/services/answer_generator.py:41-49 | one pass of that loop skips a clause that is short, already kept or has more than 8 commas, and otherwise appends it |
| `AnswerGenerator.CollectLimitEntries` | app/services/answer_generator.py:54-72 | the extraction loop builds exactly the breakdown specification |
| `AnswerGenerator.LimitsAnswerProperties` | app/services/answer_generator.py:36-79 | unique clauses are distinct, each normalised with length ≥ 30 and ≤ 8 commas; total = their number; breakdown at most min(15, total) entries of at most 153 characters; the message reports the total and the number of entries |
| `AnswerGenerator.LimitsMessageReports` | app/services/answer_generator.py:78 | the limits message determines both counts it reports |
| `AnswerGenerator.FinancialMessageReports` | app/services/answer_generator.py:176 | the financial message determines the count and the financial type it reports |
| `AnswerGenerator.FormatExclusionsAnswer` | app/services/answer_generator.py:82-99 | the exclusions template's result equals its specification |
| `AnswerGenerator.FormatConditionsAnswer` | app/services/answer_generator.py:139-141 | the conditions template's result equals its specification |
| `AnswerGenerator.ListAnswersProperties` | app/services/answer_generator.py:82-99 | exclusions: at most 8 distinct entries of at most 143 characters, count = length; conditions: at most 10 distinct entries of at most 143 characters, count = length |
| `AnswerGenerator.TierPartition` | app/services/answer_generator.py:120-127 | every text lands in exactly one of the four buckets |
| `AnswerGenerator.TierMembership` | app/services/answer_generator.py:120-127 | a bucket holds exactly the texts whose first matching keyword group is that bucket's |
| `AnswerGenerator.SortIntoTiers` | app/services/answer_generator.py:120-127 | the bucketing loop yields the four tier lists |
| `AnswerGenerator.FormatRequirementsAnswer` | app/services/answer_generator.py:102-136 | the requirements template's result equals its specification |
| `AnswerGenerator.CollectDisplayed` | app/services/answer_generator.py:120-124 | the loop's displayed texts are each clause truncated to 130 characters |
| `AnswerGenerator.RequirementsTotal` | app/services/answer_generator.py:102-136 | `total_items` = min(12, number of clauses); the documents bucket holds exactly the texts matching a documents keyword |
| `AnswerGenerator.IdMeansDocument` | app/services/answer_generator.py:114-122 | a text mentioning "id" is a document requirement, whatever else it mentions |
| `AnswerGenerator.FormatObligationsAnswer` | app/services/answer_generator.py:180-204 | the obligations template's result equals its specification |
| `AnswerGenerator.ObligationsTotal` | app/services/answer_generator.py:189-203 | every clause is in one bucket, so the total is the number of clauses |
| `AnswerGenerator.InformIsDisclosure` | app/services/answer_generator.py:189-198 | a clause mentioning "inform" is a disclosure obligation however else it reads |
| `AnswerGenerator.Mentioning` | app/services/answer_generator.py:223-227 | the bucket is no larger than the clause list |
| `AnswerGenerator.MentioningMembers` | app/services/answer_generator.py:223-227 | a clause is in the bucket exactly when it is an input clause whose lower-cased text contains one of the bucket's words |
| `AnswerGenerator.RiskBuckets` | app/services/answer_generator.py:209-233 | each of the four buckets holds exactly the clauses mentioning one of its own words, independently of the other buckets, and the total is the sum of the bucket sizes |
| `AnswerGenerator.FormatRiskAnalysis` | app/services/answer_generator.py:207-233 | the risk template's result equals its specification |
| `AnswerGenerator.NotCoveredCountsTwice` | app/services/answer_generator.py:216-232 | a clause with "not covered" is both high and low risk, so one clause gives a total of at least 2 |
| `AnswerGenerator.RiskTotalBound` | app/services/answer_generator.py:223-232 | the total is at most four times the number of clauses |
| `AnswerGenerator.FinancialItems` | app/services/answer_generator.py:152-170 | one detail per kept text, built from that text |
| `AnswerGenerator.FormatFinancialAnswer` | app/services/answer_generator.py:144-177 | the financial template's result equals its specification |
| `AnswerGenerator.FinancialAnswerProperties` | app/services/answer_generator.py:144-177 | kept texts are distinct normalised clauses among the first 12 with length ≥ 20; at most 12 details, each of at most 163 characters; `total_items` = number of details; `answer_type` = the financial type; the message reports the number of details and the type |
| `AnswerGenerator.GenerateStructuredAnswer` | app/services/answer_generator.py:255-311 | the dispatch returns the template its category selects |
| `AnswerGenerator.RouteTable` | app/services/answer_generator.py:274-311 | both directions, per template: CoverageCheck → coverage; LIMITS and SUB_LIMITS → limits; the four financial categories → financial; GAPS → risk analysis; unlisted categories → the default |
| `AnswerGenerator.DispatchFinancial` | app/services/answer_generator.py:289-291 | a financial category gets a financial answer whose type is the category's value |
| `AnswerGenerator.DispatchDefault` | app/services/answer_generator.py:305-311 | an unlisted category gets the default answer with `clause_count` = number of clauses |
| `AnswerGenerator.DispatchAmbiguity` | app/services/answer_generator.py:245-252 | an ambiguity question gets the ambiguity alert, which lists all clauses and counts them |
| `AnswerGenerator.EnrichProperties` | app/services/answer_generator.py:314-353 | the response is kept unchanged; metadata records the category and use-case values and confidence rounded to 2 places |
| `AnswerGenerator.GuidanceOnlyForMapped` | app/services/answer_generator.py:341-351 | an important note is added exactly for the six mapped categories |
| `VectorService.HybridRerank` | app/services/vector_service.py:60-109 | min(top_k, n) distinct picks; docs, metadata and relevance scores taken from the same index; each pick is the lowest-index maximum of the MMR score among unpicked indices |
| `VectorService.BestCandidate` | app/services/vector_service.py:79-101 | the chosen candidate has a maximal MMR score and every earlier candidate scores strictly less, as the stable descending sort and `[0]` give |
| `VectorService.PickIsBest` | app/services/vector_service.py:99-107 | the chosen candidate is the unique best unpicked index |
| `VectorService.ExtendMmrSteps` | app/services/vector_service.py:77-107 | appending the best unpicked index keeps every pick a greedy MMR step |
| `VectorService.BestUnpickedUnique` | app/services/vector_service.py:99-101 | the best unpicked index is unique |
| `VectorService.MmrPicksUnique` | app/services/vector_service.py:77-107 | two pick sequences made of greedy MMR steps agree on their common prefix |
| `VectorService.FirstPickMostRelevant` | app/services/vector_service.py:84-95 | with nothing selected and λ > 0 the first pick is the lowest index of maximal relevance |
| `VectorService.PureRelevanceIsSorted` | app/services/vector_service.py:95-101 | with λ = 1 the picked relevances are non-increasing |
| `VectorService.DiversityBounds` | app/services/vector_service.py:86-93 | diversity is 0 with nothing selected and otherwise the largest similarity to any index whose text is among the selected texts |
| `VectorService.SimilaritiesToSelectedMembers` | app/services/vector_service.py:88-92 | the list holds exactly the similarities of the indices whose text is selected, duplicates and the candidate itself included |
| `VectorService.MaxOf` | app/services/vector_service.py:93 | `max` returns an element at least as large as all others |
| `VectorService.RemoveAtAscending` | app/services/vector_service.py:107 | removing the pick keeps the candidate list ascending and drops exactly that index |
| `VectorService.ScoresAfter` | app/services/vector_service.py:79-97 | each candidate's score is its MMR score against the selected texts |
| `MemoryService.LastN` | app/services/memory_service.py:22-23 | the trimmed history has length min(n, k) |
| `MemoryService.LastNIsSuffix` | app/services/memory_service.py:22-23 | the trimmed history is a suffix whose last element is the newest |
| `MemoryService.LastNSnoc` | app/services/memory_service.py:15-23 | trimming after every append equals trimming the whole log once |
| `MemoryService.AddKeepsConsistent` | app/services/memory_service.py:15-23 | after an append, every session's history is still the last 6 messages added to it |
| `MemoryService.OtherSession` | app/services/memory_service.py:15-23 | an append leaves every other session's history unchanged |
| `MemoryService.LookupKeepsConsistent` | app/services/memory_service.py:6-12 | creating an empty entry for an unseen session keeps the store consistent |
| `MemoryService.MemoryStore.constructor` | app/services/memory_service.py:6 | the store starts empty |
| `MemoryService.MemoryStore.GetHistory` | app/services/memory_service.py:11-12 | returns the last at most 6 messages of the session (empty for an unseen one) and inserts the key as `defaultdict` does |
| `MemoryService.MemoryStore.AddMessage` | app/services/memory_service.py:15-23 | the history becomes the last at most 6 messages added, ends with the new message, has length in [1, 6], and no other session changes |
| `PolicyFormatter.Clean` | app/domain/policy_formatter.py:7-8 | a cleaned clause has no newline and no surrounding whitespace |
| `PolicyFormatter.CleanIdempotent` | app/domain/policy_formatter.py:7-8 | cleaning twice is cleaning once |
| `PolicyFormatter.Get` | app/domain/policy_formatter.py:17-26 | `structured.get(key, [])`: the stored list, or empty for a missing key |
| `PolicyFormatter.CleanAll` | app/domain/policy_formatter.py:17-27 | same length and order, each entry cleaned |
| `PolicyFormatter.CleanEach` | app/domain/policy_formatter.py:17-18 | the appending loop cleans every clause in order |
| `PolicyFormatter.FormatPolicySummary` | app/domain/policy_formatter.py:1-29 | the four summary lists are the cleaned coverage, limits, conditions and exclusions lists |
| `PolicyFormatter.SummaryProperties` | app/domain/policy_formatter.py:10-27 | every output string is clean and each list is as long as its source category (empty when missing) |

## Left out

- The model does not include retrieval, embeddings, the vector store, PDF parsing, the web endpoints, the frontend or the fraud model. Documents, metadata, relevance, pairwise similarity and clause-to-question similarity are inputs.
- `add_document`, `search_documents` and the numpy cosine similarity in `app/services/vector_service.py` and `app/services/policy_reasoning_engine.py` are not modelled. They are storage calls and floating-point arithmetic.
- Session ids come from `uuid.uuid4()`, so they are an input.
- Floating point is not modelled. Similarities and confidences are mathematical reals.
- Text.Lower: lower-cases ASCII letters only, because full Unicode case mapping is out of scope.
- Decimal.RoundTo: rounds halves up on exact reals. Python's `round` rounds halves to even on binary floats, so results can differ at an exact half.
- The rag confidence min(w, 10)/10 already has one decimal, so `round(.., 2)` is the identity there (`Decimal.RoundExact`).
- The regular expressions in the limits and financial templates are left abstract. They extract percentages, amounts and durations, and are modelled as functions passed in (`AnswerGenerator.Extractors`).
- The sentence split `re.split(r'(?<=[.!?])\s+')` is modelled concretely: a cut at each maximal whitespace run that follows `.`, `!` or `?`.
- AnswerGenerator.FormatConditionsAnswer: app/services/answer_generator.py:139-141 is garbled as written. Its body is one line with escaped quotes and literal `\n`, so the module does not parse. The model follows the evident intent: the first 10 clauses, normalised, truncated at 140 characters plus "...", and de-duplicated.
- AnswerGenerator.CoverageAnswerProperties: does not state that a key point "ends in ... exactly when the clause exceeded 120 characters". That is false as written, because a short clause may itself end in "...". The contract states the exact formula instead.
- AnswerGenerator.EnrichProperties: models `enrich_response_with_context` on values. It returns a new `Enriched` record instead of mutating the response dictionary in place.
- RagService.AnswerIsEnriched: states only that the full response is wrapped. The metadata it carries is stated once, in `AnswerGenerator.EnrichProperties`.
- RagService.AnswerQuestion: `classify_query` runs first, so the answer is specified over a classification, and `AnswerQuestion` ties that classification to `QueryClassifier.Classify`.
- Metadata is reduced to its `source` and `page` fields plus an uninterpreted remainder.
- The structured dictionaries (`_build_structured_map`) are a record with four lists. Their four fixed keys are therefore guaranteed by the type.
- The two pipelines share one `_classify_clause`, which is textually identical in both source files. The engine's `_derive_verdict` (app/services/policy_reasoning_engine.py:147-159) is the shared verdict table of app/services/rag_service.py:137-152 without the summary branch; `PolicyReasoningEngine.EngineVerdict` is proved equal to `DeriveVerdict(v, Specific)`.
- QueryClassifier.GetQueryFocusAreas: returns the areas in first-seen order. Python's `list(set(..))` order is unspecified, so the contract states only distinctness and the set of elements.
- The category table literal is split into keys and keyword lists joined by `Seqs.Zip`. Python's duplicate-key dictionary construction is modelled explicitly (`QueryClassifier.DictDisplay`).
- Python's stable `list.sort` is modelled as a stable insertion sort (`PolicyReasoningEngine.SortByScore`).
- PolicyReasoningEngine.RankedProperties: states stability as "equal scores keep input order" in full only when all clauses fit in the top 25. With truncation it states sortedness, the sub-multiset property and `RankedAreBest`.
- VectorService.HybridRerank: the stable `sort(reverse=True)` followed by `[0]` is modelled as a scan for the first maximum, the choice that sort makes.
- The lack of locking around the module-level session store is not modelled. The store is used sequentially.
- MemoryService.MemoryStore.GetHistory: returns the history as a value. The source returns the stored list object itself, so a caller's list would keep growing with later `add_message` appends until a trim rebinds the entry. That aliasing is not modelled; no caller in the repository relies on it.
- `QueryClassifier.UseCaseValue`, `CategoryValue` and the answer-type strings are data, not properties, so they have no rows.

# GeminiRagAssistant: a verified model of the retrieval-augmented answering core

This project models, in Dafny, how GeminiRagAssistant answers a question about an
uploaded document. The pieces are:

- **Document ingestion** (`DocumentProcessor`, `Embedding`). The extracted text is cleaned with `' '.join(text.split())`. It is cut into sentence-aligned, overlapping chunks. Each chunk is embedded in order, and the chunks and embeddings are kept per user in a process-wide dictionary.
- **Retrieval** (`Retrieval`). The query's similarity to every chunk is computed, and `np.argsort(...)[-top_k:][::-1]` picks the best `top_k` chunks.
- **Self-RAG** (`GeminiIntegration`). The model rates each chunk from 0 to 10. Chunks whose normalised score reaches 0.6 are kept, or the best single chunk when none passes. The model then judges whether the kept context suffices, and up to three chunks are added back when it does not.
- **Agentic RAG** (`AgenticRag`). The `RAGAgent` class reformulates the query and retrieves. It then loops for at most three rounds: analyse the context, stop at quality 8 or more, otherwise reorder the chunks, ask for follow-up queries and append at most three new chunks. Finally it synthesises the context and asks for the answer. It records everything in two append-only histories.
- **The web handler** (`App`). It covers `allowed_file` and the `/query` handler: request validation, loading the user's document, mode dispatch, the "sources" list and the metrics of both modes.

Every call to the hosted model or to the embedding service is an oracle input: a `Reply` that is either the (parsed) reply or the text of the exception the call raised. Where a call happens once per chunk or once per round, the oracle is a sequence or a function indexed by the call's position. Retrieval inside the agent is the caller's function, applied to a query.

Shared Python semantics live in `Wrappers` (`Option`, `Reply`, `[:k]`), `PyText` (`isspace`, `strip`, `split()`, `split(sep)`, `'sep'.join`, `rsplit('.', 1)`, lower-casing) and `PyList` (`[c for c in xs if c not in ys]`).

Behaviour of the code worth knowing:

- `np.argsort` on equal similarities: numpy's default argsort does not promise an order for equal similarities. The properties of the selection hold for every argsort (`Retrieval.TopOfArgsort`). The concrete `Argsort` is the stable one, so equal similarities come out latest position first.
- Follow-up queries are requested in every round that does not stop, even when the analysis lists nothing missing.
- With `overlap == 0`, Python's `current_chunk[-0:]` is the whole chunk, so the next chunk repeats all of it (`DocumentProcessor.ChunksOverlap`).
- The fallback analysis numbers its "most relevant" chunks from 0 while `prioritize_chunks` subtracts 1. The reordering is still the identity (`AgenticRag.PrioritizeFallbackIdentity`).
- In `generate_response`, the fallback to the first two chunks when filtering keeps nothing cannot run. The filter always keeps at least one chunk of a non-empty list (`GeminiIntegration.Filtered`).
- A long text whose first sentence does not fit starts with an empty chunk, and that chunk is embedded like the others (`DocumentProcessor.FirstChunkEmpty`).
- Agent mode reports `filtered_out` as the initial chunk count minus the agent's final count. That count includes chunks from other retrievals, so the value can be negative. In Self-RAG mode it lies between 0 and the number of initial chunks (`App.SelfQuery`).

The agent's loop is specified by three mutually recursive functions, `AgenticRag.ChunksFrom`, `ChunksOfRound` and `ChunksAfterRefining`: the chunks the loop ends with from a given round on. The loop's methods are proved to compute them.

## Model

| member | source | states |
|---|---|---|
| Wrappers.Take | utils/agentic_rag.py:169 | `xs[:k]` is the prefix of length min(k, len(xs)) |
| PyText.TrimLeftSpec | utils/agentic_rag.py:50 | `str.lstrip()`: a suffix that does not start with whitespace, and everything cut is whitespace |
| PyText.TrimRightSpec | utils/agentic_rag.py:50 | `str.rstrip()`: a prefix that does not end with whitespace, and everything cut is whitespace |
| PyText.StripSpec | utils/agentic_rag.py:50 | `str.strip()`: a slice of the input that neither starts nor ends with whitespace, and everything cut at either end is whitespace |
| PyText.Words | utils/document_processor.py:54 | `str.split()`: every piece is a non-empty run of non-whitespace; `WordsCover`, `WordsOfWord` and `WordsSplitAt` fix the pieces |
| PyText.WordsOfWord | utils/document_processor.py:54 | a single word splits into itself |
| PyText.WordsSplitAt | utils/document_processor.py:54 | `split()` breaks at every whitespace character: the words of `a + c + b`, for whitespace `c`, are the words of `a` followed by those of `b` |
| PyText.WordsCover | utils/document_processor.py:54 | `str.split()` loses only whitespace: its pieces, written one after the other, are exactly the non-whitespace characters of the text, in order |
| PyText.JoinWith | utils/document_processor.py:54 | `sep.join(parts)`; it has no contract of its own, and the round trips with `split` are `SplitOnCharJoin`, `SplitSentencesJoin` and `DocumentProcessor.WordsOfJoin` |
| PyText.SplitOnChar | utils/agentic_rag.py:160 | `str.split('\n')`: at least one piece, and no piece contains the separator |
| PyText.SplitOnCharJoin | utils/agentic_rag.py:160 | joining the pieces of `split(c)` with `c` gives back the text |
| PyText.SplitSentences | utils/document_processor.py:129 | `text.split('. ')`: at least one piece |
| PyText.SplitSentencesPieces | utils/document_processor.py:129 | no piece of `split('. ')` contains ". ", and the first piece is a prefix of the text |
| PyText.SplitSentencesJoin | utils/document_processor.py:129 | joining the sentences with `'. '` gives back the text |
| PyText.AfterLastDot | app.py:29 | `rsplit('.', 1)[1]`: the dot-free suffix that follows the last '.' |
| PyText.AsciiLower | app.py:29 | `str.lower()` on the extension: same length, each ASCII capital replaced by its lower-case letter and every other character kept |
| PyList.NotKept | utils/gemini_integration.py:217 | a chunk is in the result iff it is in the chunks and not kept; the result is no longer than the chunks |
| PyList.NotKeptOrder | utils/gemini_integration.py:217 | two chunks that are not kept keep their relative order |
| PyList.NotKeptBound | app.py:183-185 | kept positions plus the chunks that are not kept number at most the chunks |
| DocumentProcessor.NormalizeWhitespace | utils/document_processor.py:54 | `' '.join(text.split())`; it has no contract of its own, and its properties are `NormalizeWhitespaceSpec` |
| DocumentProcessor.NormalizeWhitespaceSpec | utils/document_processor.py:54 | the clean-up keeps the words, leaves only single spaces between them and none at the ends, and is idempotent |
| DocumentProcessor.WordsOfJoin | utils/document_processor.py:54 | `split()` undoes `' '.join` on a list of words |
| DocumentProcessor.WithPeriod | utils/document_processor.py:133-135 | the sentence ends with '.'; one '.' is added exactly when it did not already end with one |
| DocumentProcessor.Pieces | utils/document_processor.py:129-135 | one piece per sentence, each the sentence with its '.' |
| DocumentProcessor.OverlapTail | utils/document_processor.py:142-143 | `current_chunk[-overlap:]`: a suffix of the chunk, `overlap` characters long, and the whole chunk when `overlap == 0` |
| DocumentProcessor.StepSpec | utils/document_processor.py:137-150 | one turn of the loop (`Step`): the closed chunks stay, at most one more is closed and it is the chunk being built, and the chunk being built ends with the sentence |
| DocumentProcessor.FinishSpec | utils/document_processor.py:132-156 | the rest of the loop and the closing append (`Finish`): the chunks closed so far stay a prefix, and at most one chunk per sentence is added, plus the last one |
| DocumentProcessor.Chunks | utils/document_processor.py:123-156 | `chunk_text` as a function; it has no contract of its own: `ChunkText` computes it, and `ChunksShape`, `FirstChunkEmpty`, `ChunksOverlap`, `ChunksCover` and `ChunkLengthBound` state its properties |
| DocumentProcessor.ChunkText | utils/document_processor.py:111-156 | the loop computes exactly `Chunks` |
| DocumentProcessor.ChunksShape | utils/document_processor.py:123-156 | never an empty list; a text that fits is its own only chunk; otherwise every non-empty chunk ends with '.' and only the first can be empty |
| DocumentProcessor.FirstChunkEmpty | utils/document_processor.py:138-139 | the first chunk of a long text is empty exactly when its first sentence alone does not fit |
| DocumentProcessor.ChunksOverlap | utils/document_processor.py:141-145 | each chunk starts with the previous chunk's last `overlap` characters and a space when that chunk is longer than `overlap`, and with a sentence otherwise |
| DocumentProcessor.ChunksCover | utils/document_processor.py:128-156 | no sentence is lost: every sentence of a long text, with its '.', occurs whole in some chunk |
| DocumentProcessor.ChunkLengthBound | utils/document_processor.py:138-150 | with overlap >= 1, no chunk exceeds a bound that covers `chunk_size` and `overlap + 1 +` every sentence |
| Embedding.EmbeddingStore.SaveEmbeddings | utils/embedding.py:55-72 | the user's entry is replaced as a whole and no other entry changes |
| Embedding.EmbeddingStore.LoadEmbeddings | utils/embedding.py:74-94 | the saved pair for a known user, and (None, None) otherwise |
| Embedding.SaveThenLoad | utils/embedding.py:55-94 | a load after a save returns what was saved, and a save is invisible to another user's load |
| Embedding.CreateEmbeddings | utils/embedding.py:18-53 | succeeds iff every chunk's embedding call succeeds; then one embedding per chunk in order, otherwise the first failure with no partial result |
| Retrieval.Insert | utils/retrieval.py:60 | insertion adds one position and keeps the others |
| Retrieval.InsertAscending | utils/retrieval.py:60 | insertion keeps the positions distinct and in non-decreasing similarity |
| Retrieval.ArgsortPrefixSorted | utils/retrieval.py:60 | the insertion sort of the first n positions is sorted and has no repeats |
| Retrieval.Argsort | utils/retrieval.py:60 | `np.argsort`: every position exactly once, in non-decreasing similarity |
| Retrieval.ArgsortPrefixStable | utils/retrieval.py:60 | the concrete argsort keeps equal similarities in ascending position |
| Retrieval.NegSliceStart | utils/retrieval.py:60 | where `[-k:]` starts: never past the end |
| Retrieval.TopIndices | utils/retrieval.py:60 | `np.argsort(similarities)[-top_k:][::-1]`; it has no contract of its own, and its properties are `TopOfArgsort` and `TopIndicesStable` |
| Retrieval.TopOfArgsort | utils/retrieval.py:60 | for every argsort: min(top_k, n) distinct positions (all n for top_k == 0), best first, and none left out is more similar than one returned |
| Retrieval.TopIndicesStable | utils/retrieval.py:60 | with the stable argsort, equal similarities come out latest position first |
| Retrieval.RetrieveContext | utils/retrieval.py:30-69 | `retrieve_context`; it has no contract of its own, and its properties are `RetrieveSelects`, `RetrieveContextSpec` and `RetrieveEmptyCorpus` |
| Retrieval.RetrieveSelects | utils/retrieval.py:60-65 | for a non-empty corpus with one similarity per chunk, the reply is the chunks at the selected positions, in that order |
| Retrieval.RetrieveContextSpec | utils/retrieval.py:30-69 | retrieve_context returns the chunks at those positions; equal similarities come out latest position first |
| Retrieval.RetrieveEmptyCorpus | utils/retrieval.py:44-46 | an empty corpus gives no chunks, whatever the embedding call would do |
| GeminiIntegration.EvaluateRelevance | utils/gemini_integration.py:13-56 | `self_rag_evaluate_relevance`; it has no contract of its own, and its properties are `EvaluateRelevanceSpec` and `EvaluateRelevanceMonotone` |
| GeminiIntegration.EvaluateRelevanceSpec | utils/gemini_integration.py:13-56 | a score in [0, 1]: rating/10 clamped, and 0.5 when the call fails or the reply is not a number |
| GeminiIntegration.EvaluateRelevanceMonotone | utils/gemini_integration.py:46-49 | a higher rating never gives a lower score |
| GeminiIntegration.Scores | utils/gemini_integration.py:78-80 | one relevance score per chunk, in order |
| GeminiIntegration.PassingIndices | utils/gemini_integration.py:78-83 | the positions of the chunks the loop appends: ascending, each once, all in range |
| GeminiIntegration.PassingIndicesSpec | utils/gemini_integration.py:78-83 | a position is listed iff its score reaches the threshold, so none is listed iff no score does |
| GeminiIntegration.FirstMaxIndex | utils/gemini_integration.py:86-90 | the head of the stable descending sort: a highest score, with no earlier score as high |
| GeminiIntegration.Filtered | utils/gemini_integration.py:58-93 | empty iff the input is, never longer than the input, and only input chunks |
| GeminiIntegration.FilteredSpec | utils/gemini_integration.py:78-90 | exactly the passing chunks in order when some pass, otherwise one best-scoring chunk |
| GeminiIntegration.FilteredByPassing | utils/gemini_integration.py:78-90 | the chunks at the passing positions are the filter's result when there are any; otherwise the result is the earliest best chunk |
| GeminiIntegration.FilterContext | utils/gemini_integration.py:58-93 | the loop over chunks computes `Filtered` |
| GeminiIntegration.EarliestBest | utils/gemini_integration.py:86-90 | the loop finds the earliest maximum |
| GeminiIntegration.SelfRagAnalysis | utils/gemini_integration.py:130-179 | sufficient iff the stripped context has 20 or more characters and the JSON reply says `is_sufficient: true`; for a JSON object the missing information is its `missing_information` text, or "" when absent; the fixed message of each failure |
| GeminiIntegration.ShortContextSkipsModel | utils/gemini_integration.py:143-144 | a short context is judged without the model's reply |
| GeminiIntegration.AddBack | app.py:183-185 | the kept chunks stay a prefix; nothing is added when the context is sufficient or nothing was filtered out; otherwise the first min(3, n) chunks that are not kept, in input order |
| GeminiIntegration.FilteredAddBackBound | app.py:176-185 | filtering and then adding back never yields more chunks than came in |
| GeminiIntegration.ResponseContext | utils/gemini_integration.py:202-219 | the context of the answer prompt is never empty for a non-empty input |
| GeminiIntegration.GenerateResponse | utils/gemini_integration.py:181-249 | the fixed message for no chunks; otherwise the context is `ResponseContext`, and the reply is the answer text or the error prefix plus the exception |
| AgenticRag.SearchQuery | utils/agentic_rag.py:48-63 | the query searched for: the original query when the reformulation call fails, and otherwise the reply stripped (`Strip`, fixed by `StripSpec`), which is stripped and no longer than the reply |
| AgenticRag.QualityOf | utils/agentic_rag.py:305 | `analysis.get("overall_quality", 0)` of the analysis the round works with, parsed or fallback |
| AgenticRag.Stops | utils/agentic_rag.py:309 | the stop test, quality 8 or more; it has no contract of its own, and `AnalysesRunSpec` and `RAGAgent.Round` state what it decides |
| AgenticRag.NonEmptyStrippedSpec | utils/agentic_rag.py:160 | the kept queries are exactly the stripped lines that are not empty, each stripped, and no more of them than lines |
| AgenticRag.FollowUpLinesSpec | utils/agentic_rag.py:158-160 | the follow-up queries are exactly the non-blank lines of the stripped reply, stripped; each is non-empty and stripped |
| AgenticRag.NonEmptyStrippedAppend | utils/agentic_rag.py:160 | the kept queries keep the order of the lines and their repeats: one line gives its stripped text when that is not empty, and two blocks of lines give the first block's queries followed by the second's |
| AgenticRag.FirstPass | utils/agentic_rag.py:196-198 | the first loop of `prioritize_chunks`; it has no contract of its own, and its properties are `FirstPassSpec` and `FirstPassOrder` |
| AgenticRag.FirstPassSpec | utils/agentic_rag.py:196-198 | the first loop keeps exactly the in-range most-relevant positions, each once |
| AgenticRag.FirstPassOrder | utils/agentic_rag.py:196-198 | the first loop keeps them in the order of their first occurrence in the analysis's list |
| AgenticRag.SecondPass | utils/agentic_rag.py:201-203 | the second loop; it has no contract of its own, and its properties are `SecondPassSpec` |
| AgenticRag.SecondPassSpec | utils/agentic_rag.py:201-203 | the first pass stays a prefix, followed by the other positions not marked irrelevant, ascending |
| AgenticRag.PrioritizedIndices | utils/agentic_rag.py:186-206 | both loops; it has no contract of its own, and its properties are `PrioritizedSpec` |
| AgenticRag.PrioritizedSpec | utils/agentic_rag.py:186-206 | a position is kept iff it is in range and most relevant or not irrelevant; no repeats; never more chunks than before |
| AgenticRag.RelevantAndIrrelevantKept | utils/agentic_rag.py:196-203 | a chunk listed both as most relevant and as irrelevant is kept |
| AgenticRag.PrioritizeFallbackIdentity | utils/agentic_rag.py:116-122 | with the fallback analysis the reordering is the identity |
| AgenticRag.Prioritized | utils/agentic_rag.py:206-216 | the reordered chunks are never more than the chunks |
| AgenticRag.Additional | utils/agentic_rag.py:320-323 | succeeds iff every follow-up retrieval does; no new chunk is one already held |
| AgenticRag.NewPerQuery | utils/agentic_rag.py:320-323 | one block per follow-up query: the chunks it retrieved that are not already held, in order |
| AgenticRag.AdditionalBlocks | utils/agentic_rag.py:320-323 | when every retrieval succeeds, the new chunks are exactly the blocks of `NewPerQuery` laid end to end in query order, repeats across queries kept |
| AgenticRag.AdditionalIncludes | utils/agentic_rag.py:320-323 | every chunk a follow-up query retrieves that is not already held is among the new chunks |
| AgenticRag.AdditionalFound | utils/agentic_rag.py:320-323 | every new chunk was found by some follow-up query |
| AgenticRag.FailureSticks | utils/agentic_rag.py:321-322 | the first failing retrieval decides the outcome |
| AgenticRag.RetrieveAdditional | utils/agentic_rag.py:320-323 | the loop computes `Additional` |
| AgenticRag.Extended | utils/agentic_rag.py:326-328 | the kept chunks stay a prefix, followed by the first min(3, n) new chunks in the order found; some are added whenever some were found |
| AgenticRag.AnalysesRunSpec | utils/agentic_rag.py:300-311 | at most max_iterations analyses, at least one; the loop stops exactly after the first of quality 8 or more |
| AgenticRag.RefinedFromSpec | utils/agentic_rag.py:300-328 | from round k on, every analysed round refines except a last one that reached the stop quality |
| AgenticRag.RoundsRefinedSpec | utils/agentic_rag.py:300-328 | the rounds that refine are the analyses run, less the last one when it reached the stop quality |
| AgenticRag.ReportedQualitySpec | utils/agentic_rag.py:351-363 | the reported quality is that of the latest analysis that parsed, or 5 |
| AgenticRag.LatestFollowUpsSnoc | utils/agentic_rag.py:370-374 | recording an action changes the latest follow-up queries only when it records some |
| AgenticRag.FollowUpsFromSpec | utils/agentic_rag.py:158-169 | the reported follow-up queries are non-empty and stripped, whichever round they come from |
| AgenticRag.RoundStep | utils/agentic_rag.py:300-328 | one step of `ChunksFrom`: a round at the stop quality ends the loop with the chunks unchanged; otherwise the round's retrieval failure ends it, or the next round starts from the refined chunks |
| AgenticRag.RefinedGrowth | utils/agentic_rag.py:314-328 | a refining round keeps at most the chunks it had and adds at most three |
| AgenticRag.ChunksFromBound | utils/agentic_rag.py:300-328 | the chunks the loop ends with number at most the initial chunks plus three per refining round |
| AgenticRag.ChunksAfterRefiningBound | utils/agentic_rag.py:313-328 | the same bound from a round that refines on |
| AgenticRag.RAGAgent.constructor | utils/agentic_rag.py:20-25 | empty histories and max_iterations == 3 |
| AgenticRag.RAGAgent.FormulateSearchQuery | utils/agentic_rag.py:48-63 | the stripped reformulation, recorded in the action history, or the original query on failure, with nothing recorded |
| AgenticRag.RAGAgent.AnalyzeRetrievedContext | utils/agentic_rag.py:96-122 | a parsed analysis is returned and recorded; otherwise the fallback analysis, with nothing recorded |
| AgenticRag.RAGAgent.GenerateFollowUpQueries | utils/agentic_rag.py:158-172 | at most three queries are returned, all of them are recorded and become the latest recorded, and none on failure |
| AgenticRag.RAGAgent.PrioritizeChunks | utils/agentic_rag.py:186-216 | the chunks at the prioritized positions, with the counts recorded |
| AgenticRag.RAGAgent.SynthesizeContext | utils/agentic_rag.py:221-270 | "" for no chunks; the stripped synthesis, recorded; or the chunks joined by blank lines on failure |
| AgenticRag.RAGAgent.RefineRound | utils/agentic_rag.py:313-328 | the reordered chunks are `Prioritized`; the result is exactly `Refined`: the reordered chunks as a prefix, then at most three chunks not among them, or the retrieval failure; the round's actions are appended exactly |
| AgenticRag.RAGAgent.Round | utils/agentic_rag.py:300-328 | one analysis is recorded when it parsed; the round stops iff the quality is 8 or more, and then the chunks and the actions are unchanged; a refining round appends exactly its actions; `ChunksFrom` steps from this round to the next |
| AgenticRag.RAGAgent.RunRounds | utils/agentic_rag.py:300-328 | the loop ends with exactly the chunks `ChunksFrom` gives, or its retrieval failure; the reflections are those of the analyses run; the latest follow-ups are those of the last refining round |
| AgenticRag.RAGAgent.ExecuteAgenticRag | utils/agentic_rag.py:272-380 | raises exactly when the first retrieval or a follow-up retrieval fails; the iterations, follow-up queries, quality and final chunk count (`|ChunksFrom|`) as the code computes them; the error metadata when the answer call fails |
| App.AllowedFile | app.py:28-29 | only names with a '.' are allowed |
| App.AllowedFileExtension | app.py:28-29 | a name is judged by its last extension, lower-cased, alone |
| App.UsesAgent | app.py:90-102 | the modes "agent" and "agentic" run the agent; any other mode, and a missing one, Self-RAG; it has no contract of its own, and `App.HandleQuery` states the dispatch |
| App.Snippet | app.py:139 | the chunk itself up to 150 characters; otherwise its first 150 characters and "..." |
| App.BuildSources | app.py:132-142 | one source per initial chunk in order, numbered from 1 |
| App.LatestAnalysis | app.py:124-129 | there is an analysis to read back iff the reflection history is not empty |
| App.LatestAnalysisSpec | app.py:124-129 | the analysis read back from the agent is the latest one that parsed |
| App.RelevanceFlags | app.py:132-142 | a source is relevant iff the latest analysis does not list its number as irrelevant |
| App.SelfKept | app.py:176-185 | the chunks Self-RAG uses are input chunks, and there is at least one for a non-empty input |
| App.AgentQuery | app.py:102-165 | a failed run is a server error, and a run whose retrievals all succeed answers; sources are relevant unless flagged by the latest analysis; the used chunks are those `ChunksFrom` gives, the iterations the parsed analyses, and the metrics of an error run |
| App.SelfQuery | app.py:167-217 | sources are relevant iff kept; the counts, sufficiency and missing information; 0 <= filtered_out < the initial count |
| App.HandleQuery | app.py:79-221 | the 400 and 500 replies for a missing query, session, document or failed retrieval; otherwise the mode picks the pipeline |

## Left out

- The file readers (PDF, DOCX, TXT with its Latin-1 retry), uploads, the Flask session, logging and the JSON encoding of replies are not modelled: they are I/O.
- The prompt texts are not modelled, and neither is `generate_self_query`, which nothing in the core calls.
- `cosine_similarity` and all floating-point arithmetic are not modelled. Retrieval takes the similarities as an oracle input, and scores are unbounded reals, so no NaN.
- The embedding vectors are opaque values. The numpy array conversion is not modelled.
- Parsing is not modelled:
  - `float(text)` is a parsed `Option<real>`;
  - the fenced-JSON extraction and `json.loads` give a parsed `Option<Analysis>` or a `SufficiencyJson`.
- JSON values of unexpected types are not modelled. This covers an analysis that is not an object, a non-integer quality or chunk number, and the `except` branch of `prioritize_chunks` it reaches. The model's analysis fields have the types the prompt asks for.
- The `response.parts` fallback of `generate_response` when `response.text` is missing is not modelled.
- Model calls are not modelled as nondeterministic. Each call is one oracle reply; retrieval is a function of the query.
- AgenticRag.RAGAgent.ExecuteAgenticRag: the action history it leaves is stated only through its latest follow-up queries; the exact entries of each round are stated by `RAGAgent.Round` and `RAGAgent.RefineRound`.
- AgenticRag.RAGAgent.RunRounds: the action history is stated only through its latest follow-up queries, and the reflections and follow-ups only for runs that do not raise.
- AgenticRag.RAGAgent.Round: the chunks a refining round passes on are tied to the loop only through `ChunksFrom`; that they are exactly `Refined` is stated by `RAGAgent.RefineRound`.
- App.HandleQuery: it states which branch answers, and leaves the contents of each answer to `App.AgentQuery` and `App.SelfQuery`.
- Concurrency on the shared store is not modelled: requests are handled one at a time.

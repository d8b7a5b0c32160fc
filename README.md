# Allama RAG — a Dafny model of the retrieval-and-answer core

Allama RAG answers questions about recorded Islamic lectures. It works in stages:

- Video transcripts are cut into chunks.
- The chunks are embedded into a FAISS index.
- A query retrieves the nearest chunks.
- The neighbouring chunks are assembled into a context.
- A language model (GPT-2, Phi-2, mT5 or an injected generator) answers from that context.
- The chat front end validates the model's reply, falls back to extractive answers, and formats the sources.

This project models the deterministic parts of that pipeline. Every model, tokenizer, embedder, index and retriever is a function-typed parameter. The modelled parts are:

- **`Preprocess`**: `build_chunks_from_segments` and `make_chunk`. Greedy word-count chunking with `MAX_WORDS = 200`, zero-padded chunk ids, and start/end/link tracking. The `UnboundLocalError` raised when the first kept segment alone is longer than 200 words is a result value.
- **`VectorStore`** (class `VectorStore`):
  - `_split_long_text`;
  - per-file entry extraction over a small JSON value type (`Json`);
  - the `build_index` loop;
  - `load_index`;
  - the id-filtering `search`.
- **`Search`** (class `FaissSearcher`): result assembly from the index's ranked `(score, id)` answer. This includes Python's negative list indexing and the `IndexError`, plus the dimension assertion in the constructor.
- **`ContextAssembly`**: `build_context` in `api/main.py`, which has a `used` set, a character cap and an early return. Also the blank-context branch and the Urdu prompt of `answer_question`.
- **`Gpt2Reasoner`**:
  - the token budget;
  - the greedy `_trim_to_budget` with its `add_block` helper and prefix-only fallback;
  - the `"Answer:"` post-processing of `generate`;
  - `build_answer`'s prompt and its list caps.
- **`EvidenceBuilder`**: the evidence/score/reference loop of `build_evidence_answer` and its two early returns.
- **`Phi2Reasoner`**: the score-to-mode thresholds and the prompt template.
- **`ChatModel`**:
  - `answer`;
  - context cleaning, including the two timestamp regexes as a small matcher;
  - the LLM-output validator, where the 25 % uniqueness test becomes `4 * unique > total`;
  - the extractive fallback chain;
  - prompts, source lists and answer styling per language.
- **`Config`**: `${VAR}` placeholder resolution and the recursive `walk` of `load_settings`.
- **`Retry`**: the `retry` decorator's wrapper loop. The calls' outcomes are a function of the attempt number. The warnings and sleeps are recorded events.

Shared modules:

| module | contents |
|---|---|
| `Text` | Python string operations: `isspace`, `strip`, `split`, `join`, `find`, `rfind`, `str(n)`, `f"{n:04d}"` |
| `Seqs` | sequence helpers |
| `Records` | the chunk and hit records |
| `Wrappers` | `Option` |

Loops in the source are methods with loop invariants. Each method is proved equal to a specification function, and the properties the code promises are lemmas about those functions.

## Model

| member | source | states |
|---|---|---|
| Preprocess.BuildChunksFromSegments | src/preprocess/preprocess.py:26-88 | The chunking loop, its final flush and the empty-segments early return compute exactly `ChunksOf(video)`. |
| Preprocess.ScanSegments | src/preprocess/preprocess.py:40-72 | The segment loop keeps its variables (`buffer`, `word_count`, `chunk_index`, start/end, closed chunks) in step with the greedy grouping of the kept segments. It raises the unbound-variable error exactly when that grouping closes an empty group. |
| Preprocess.ScanOne | src/preprocess/preprocess.py:40-72 | One turn of the loop advances the tracked state by one segment, and an error once raised stays raised. |
| Preprocess.VisitSegment | src/preprocess/preprocess.py:41-45 | A segment whose stripped `text_roman` is empty is skipped. Any other segment goes on to the fit/flush step. |
| Preprocess.AddSegment | src/preprocess/preprocess.py:47-72 | A segment joins the buffer iff `word_count + words <= 200`. Otherwise the buffer is closed into a chunk carrying this segment's `play_url`, and the segment opens the next buffer. The error is raised exactly when there is no end to close with. |
| Preprocess.PieceOf | src/preprocess/preprocess.py:44-45 | A kept piece is its segment with the stripped `text_roman` and that text's word count. |
| Preprocess.ChunksOf | src/preprocess/preprocess.py:29-31 | No segments gives no chunks. The first chunk's `start_sec`/`start_hhmmss` come from `segments[0]`, and the last chunk's `play_url` from `segments[-1]`. |
| Preprocess.ChunksFrom | src/preprocess/preprocess.py:37-38 | Over the kept pieces, the first chunk starts where the video's first segment does (even when that segment was skipped), and the last carries the last segment's link. |
| Preprocess.Closed | src/preprocess/preprocess.py:67-72 | One chunk per closed group. |
| Preprocess.KeptCounted | src/preprocess/preprocess.py:41-45 | Every kept piece is a segment of the video with its stripped text and a correct word count. |
| Preprocess.WordSumIsWords | src/preprocess/preprocess.py:48-49 | The running `word_count` equals the number of words of the space-joined buffer. |
| Preprocess.GroupedOk | src/preprocess/preprocess.py:47-68 | The greedy grouping of any piece list satisfies the grouping invariant. |
| Preprocess.GroupsShape | src/preprocess/preprocess.py:47-86 | Without an empty group, every group is non-empty and the groups concatenated in order are the kept pieces. |
| Preprocess.GroupsOf | src/preprocess/preprocess.py:47-86 | The groups behind the chunks are the closed groups plus the open buffer when it is not empty. None is empty, and read in order they are the kept pieces. |
| Preprocess.UnboundStays | src/preprocess/preprocess.py:52-58 | Once an empty group has been closed (the error), more segments do not undo it. |
| Preprocess.GroupedGreedy | src/preprocess/preprocess.py:47-51 | The groups read in order are the kept pieces. Each group of two or more pieces has at most 200 words. Each group was closed only because the next group's first piece did not fit. |
| Preprocess.UnboundIff | src/preprocess/preprocess.py:47-58 | The source raises exactly when the first segment with text has more than 200 words. |
| Preprocess.ChunkIds | src/preprocess/preprocess.py:66 | Chunk `k` has `chunk_index == k` and `chunk_id == video_id + "_" + f"{k:04d}"`, and the ids of one video are pairwise distinct. Cites also make_chunk at lines 91-113. |
| Preprocess.IdsDiffer | src/preprocess/preprocess.py:102 | Different chunk numbers give different ids. |
| Preprocess.ChunksKeepText | src/preprocess/preprocess.py:48-86 | No text is lost or reordered: the chunks' `text_roman` joined with spaces equals the kept segments' stripped texts joined with spaces. |
| Preprocess.ChunkWordBound | src/preprocess/preprocess.py:47-51 | Every chunk has at most 200 words, unless its text is the stripped text of a single segment. |
| Preprocess.GroupWordBound | src/preprocess/preprocess.py:47-51 | A group's joined text has at most 200 words, unless the group is a single piece. |
| Preprocess.ChunksFromEnds | src/preprocess/preprocess.py:37-38 | The chunks depend on the segments only through the kept pieces and the first and last segments. |
| Preprocess.BlankSegmentIgnored | src/preprocess/preprocess.py:41-43 | Inserting a segment with blank `text_roman` between the first and last segments leaves the chunks unchanged. |
| Preprocess.KeptBlank | src/preprocess/preprocess.py:41-43 | A blank segment contributes no kept piece. |
| Preprocess.FinalChunks | src/preprocess/preprocess.py:74-86 | After the loop, a non-empty buffer becomes the last chunk with `segments[-1]`'s `play_url`, and an empty buffer adds nothing. |
| Preprocess.UnboundScanned | src/preprocess/preprocess.py:52-58 | Once the first pieces have raised the error, so does every longer run. |
| Preprocess.FlushedStay | src/preprocess/preprocess.py:47-51 | A piece that joins the buffer leaves the closed chunks as they were. |
| Preprocess.FlushedChunks | src/preprocess/preprocess.py:52-72 | A piece that does not fit adds exactly one chunk for the closed buffer, with the closing segment's `play_url`. |
| Text.Pad4 | src/preprocess/preprocess.py:102 | `f"{n:04d}"` has at least four digits and reads back as `n`. |
| Text.Decimal | src/chat/chat_model.py:212-218 | `str(n)` is non-empty, all digits, with no leading zero. |
| Text.DecimalRoundTrip | src/chat/chat_model.py:212-218 | The decimal numeral reads back as the number. |
| Text.Strip | src/chat/chat_model.py:70 | `strip()` gives a stripped string no longer than its input, and it is empty iff the input is blank. |
| Text.StripIsSlice | src/chat/chat_model.py:170 | `strip()` returns a contiguous piece of its input. |
| Text.SplitOnJoin | src/chat/chat_model.py:165 | Joining `s.split(c)` with `c` gives back `s`. |
| Text.JoinSplitOn | src/chat/chat_model.py:220 | Splitting `c.join(xs)` on `c` gives back `xs` when no piece contains `c`. |
| Text.WordsOfJoin | src/preprocess/preprocess.py:48-49 | `" ".join(xs).split()` has as many words as the pieces together. |
| Text.Find | src/chat/chat_model.py:239-241 | `find` returns the first occurrence, or -1 exactly when there is none. |
| Text.RFind | src/chat/chat_model.py:187 | `rfind` returns the last occurrence of the character, or -1 exactly when it is absent. |
| Text.Take | src/chat/chat_model.py:56 | `s[:n]` is the prefix of length `min(n, len(s))`. |
| Records.ChunkText | src/api/main.py:97 | `text or text_roman` is non-empty iff one of them is truthy, and is `text` when that is truthy. |
| Records.PyIndex | src/retrieval/search.py:85 | Python list indexing: non-negative positions, negative positions counted from the end, and an `IndexError` exactly outside `-len .. len-1`. |
| VectorStore.SplitLongText | src/storage/vector_store.py:18-47 | The normalise/split/merge method computes exactly `SplitLong(raw)`. |
| VectorStore.CollectChunks | src/storage/vector_store.py:25-34 | The piece loop yields the non-empty stripped `.`-subpieces of each non-empty `۔`-piece, or the piece itself, in order. |
| VectorStore.AddPiece | src/storage/vector_store.py:26-34 | One piece appends its chunks, and nothing when it strips to empty. |
| VectorStore.MergeChunks | src/storage/vector_store.py:36-46 | The merge loop with the final flush computes the merged list. |
| VectorStore.MergeOne | src/storage/vector_store.py:39-44 | A chunk is added to the buffer when `len(buf) + len(c) < 200`. Otherwise a non-empty buffer is flushed and the chunk starts a new one. |
| VectorStore.ReplaceChar | src/storage/vector_store.py:25 | `replace` of one character changes exactly those positions. |
| VectorStore.NonEmpty | src/storage/vector_store.py:30 | Keeps exactly the non-empty strings. |
| VectorStore.PieceChunksClean | src/storage/vector_store.py:26-34 | Every chunk of a piece is non-empty, stripped and free of `۔`. |
| VectorStore.MergeRunFacts | src/storage/vector_store.py:36-46 | The merge loop keeps its invariant: merged texts are clean, and the merged output plus buffer read with spaces is the input read with spaces. |
| VectorStore.SplitLongFacts | src/storage/vector_store.py:19-47 | A non-string gives `[]`. Every output is non-empty, stripped and free of `۔`. An output is either one of the pieces or at most 200 characters. The output joined with spaces equals the pieces joined with spaces. |
| VectorStore.FromSegments | src/storage/vector_store.py:64-71 | A `segments` list always decides the file's entries. |
| VectorStore.FromSegmentsClean | src/storage/vector_store.py:66-71 | Every entry taken from segments is stripped and non-empty. |
| VectorStore.FromTranscriptsClean | src/storage/vector_store.py:74-75 | Every entry taken from `Transcripts` is stripped and non-empty. |
| VectorStore.ExtractClean | src/storage/vector_store.py:64-83 | Every extracted entry is stripped and non-empty, whichever key supplied it. |
| VectorStore.SegmentsFirst | src/storage/vector_store.py:65 | A `segments` list takes precedence: adding any other key changes nothing. |
| VectorStore.TranscriptsBeforeRoman | src/storage/vector_store.py:74-78 | Without `segments`, a `Transcripts` list takes precedence over `transcript_roman`. |
| VectorStore.RomanPreferred | src/storage/vector_store.py:67 | A truthy `text_roman` is used whatever `text` holds. |
| VectorStore.AtIds | src/storage/vector_store.py:129 | At most one text per id, and every result is a stored text. |
| VectorStore.AtValidIds | src/storage/vector_store.py:129 | When every id is a valid position, the result is `texts[id]` for each id, in id order. |
| VectorStore.AtIdsOne | src/storage/vector_store.py:129 | One id gives its text when `0 <= i < len(texts)`, and nothing otherwise (a `-1` pad included). |
| VectorStore.AtIdsConcat | src/storage/vector_store.py:129 | The filter works id by id: the result for `a + b` is the result for `a` followed by the result for `b`. |
| VectorStore.AtIdsMixed | src/storage/vector_store.py:129 | With any mix of valid and invalid ids, the result is one text per valid id, `texts[i]` for the valid ids in their order. |
| VectorStore.AtIdsNoTexts | src/storage/vector_store.py:129 | With no stored texts every search result is empty. |
| VectorStore.Outcomes | src/storage/vector_store.py:53-60 | One outcome per file. |
| VectorStore.BuildRunCrashed | src/storage/vector_store.py:65-70 | An exception during extraction ends the loop: later files change nothing. |
| VectorStore.BuildRunClean | src/storage/vector_store.py:96 | Every text `build_index` appends is stripped and non-empty. |
| VectorStore.IndexFile | src/storage/vector_store.py:53-97 | One file: a crash ends the loop, a skipped file or one with no entries or a failed embedding adds nothing, and otherwise its entries are appended and it counts as embedded. |
| VectorStore.IndexFiles | src/storage/vector_store.py:53-97 | The file loop computes exactly `BuildRun` over the files' outcomes. |
| VectorStore.VectorStore.constructor | src/storage/vector_store.py:12-16 | A new store has no index and no texts. |
| VectorStore.VectorStore.LoadIndex | src/storage/vector_store.py:116-121 | Only the index changes, and only when the file exists. The texts are untouched. |
| VectorStore.VectorStore.BuildIndex | src/storage/vector_store.py:49-106 | The entries of every embedded file are appended to `texts`. The index is rebuilt only when some file was embedded and no exception escaped. A file may hold any JSON value at the top level. |
| VectorStore.NonObjectEntries | src/storage/vector_store.py:65-80 | A top-level value that is not an object never yields entries. A string or list without any of the three keys (substring or element test) is skipped. A string or list with one of them, or a number, boolean or `null`, raises `TypeError`. |
| VectorStore.ScalarFileEndsBuild | src/storage/vector_store.py:65 | A file holding a number, boolean or `null` ends `build_index` with an exception. Only the texts of the files before it stay appended. |
| VectorStore.VectorStore.Search | src/storage/vector_store.py:123-129 | `[]` without an index. Otherwise, for the ids the index returns, `texts[i]` for each `i` with `0 <= i < len(texts)`, in the index's order. `-1` pads and other invalid ids are dropped. |
| VectorStore.SearchAfterLoad | src/storage/vector_store.py:15-16 | A fresh store that loads an index still answers every query with `[]`, since `load_index` never sets the texts (lines 116-129). |
| Search.FaissSearcher.constructor | src/retrieval/search.py:62-72 | The searcher holds the index dimension, the chunk list and the index/embedding lookup. |
| Search.Open | src/retrieval/search.py:73 | Construction fails exactly when the index dimension differs from the embedding dimension. |
| Search.FaissSearcher.Search | src/retrieval/search.py:75-90 | Ids equal to -1 are skipped. An `IndexError` arises exactly when some other id is outside Python's list range. Otherwise the results follow rank order, every non-`-1` rank gives one, and each is a copy of `chunks[id]` with that rank's score and id. The query is prefixed with `"query: "`. |
| ContextAssembly.BuildContext | src/api/main.py:88-105 | The nested loop with its early return computes exactly `Context(results, chunks, window, max_chars)`. |
| ContextAssembly.VisitWindow | src/api/main.py:94-104 | The inner loop leaves `used`, `collected` and `total` equal to the specification state after its positions, and stops exactly when the cap is reached. |
| ContextAssembly.VisitOne | src/api/main.py:95-104 | One position: out of range, already used, or without text is skipped. Otherwise it is marked used, its stripped text collected and its length added. It stops when the total reaches the cap. |
| ContextAssembly.Range | src/api/main.py:94 | `range(lo, hi)` has `max(0, hi - lo)` elements. |
| ContextAssembly.RangeSplit | src/api/main.py:94 | A range cut at a middle point is the two ranges in order. |
| ContextAssembly.CandidatesAppend | src/api/main.py:90-94 | The visiting order of two hit lists is the two visiting orders in turn. |
| ContextAssembly.RunDone | src/api/main.py:103-104 | Once the cap is reached, further positions change nothing (the early return). |
| ContextAssembly.EarlyExit | src/api/main.py:103-104 | Returning at a position inside a hit's window gives the same state as finishing the whole visiting order. |
| ContextAssembly.RunPickedValid | src/api/main.py:95-100 | Each picked position is a visited, in-range chunk with text, and none is picked twice. |
| ContextAssembly.RunTotals | src/api/main.py:102-104 | `total` is the summed unstripped length of the picked texts. Every proper prefix of the picks stays under the cap. The run stopped iff the total reached the cap. |
| ContextAssembly.RunComplete | src/api/main.py:95-101 | When the cap was never reached, every visited chunk with text was picked. |
| ContextAssembly.PickedWithinWindows | src/api/main.py:94-100 | Every included position holds a chunk with text and lies within `window` of some indexed hit, and no position is included twice. |
| ContextAssembly.CandidateFromHit | src/api/main.py:91-94 | Every visited position is within `window` of some hit with an `"index"`. |
| ContextAssembly.CapRespected | src/api/main.py:102-104 | The texts before the last included one sum to less than `max_chars`. An early return means the total reached it. Otherwise the total is under the cap and every visited chunk with text was included. |
| ContextAssembly.PickedInOrder | src/api/main.py:90-101 | Included positions appear in visiting order: hit order, then ascending within each window. |
| ContextAssembly.UnindexedHitSkipped | src/api/main.py:91-93 | A hit without an `"index"` contributes nothing. |
| ContextAssembly.NeighbouringCandidates | src/api/main.py:94 | Hits 10 and 11 with `window = 1` visit 9, 10, 11, 10, 11, 12. |
| ContextAssembly.FirstVisits | src/api/main.py:95 | The distinct visited positions, in order of first visit. |
| ContextAssembly.RunBelowCap | src/api/main.py:95-102 | When every visited position holds text and the texts stay under the cap, the context is every visited position once, in order of first visit. |
| ContextAssembly.NeighbouringHits | src/api/main.py:90-101 | Hits 10 and 11 with `window = 1`, over 20 chunks with short texts, include exactly 9, 10, 11, 12 in that order. |
| ContextAssembly.UrduPrompt | src/api/main.py:121-132 | The stripped Urdu prompt opens with its fixed instruction lines, the context follows at once, and it ends with the question and the answer label. |
| ContextAssembly.AnswerQuestion | src/api/main.py:107-138 | With `window = 2` and `max_chars = 900`, a blank context returns the fixed "No relevant lecture content was found." message. Otherwise the result is the generator's reply to the Urdu prompt. |
| Gpt2Reasoner.MaxPositions | src/reasoning/gpt2_reasoner.py:19 | `n_positions` when the config has it, else 1024. |
| Gpt2Reasoner.Budget | src/reasoning/gpt2_reasoner.py:26-27 | `budget + max_new_tokens + 32 == max_positions`. |
| Gpt2Reasoner.Process | src/reasoning/gpt2_reasoner.py:44-46 | A processed block is at most 1500 characters and a prefix of the stripped block, and equals it when that is short enough. |
| Gpt2Reasoner.Greedy | src/reasoning/gpt2_reasoner.py:54-65 | One fill loop keeps no more blocks than it is given. |
| Gpt2Reasoner.GreedyWithinBudget | src/reasoning/gpt2_reasoner.py:48-51 | A fill loop keeps a prefix of the blocks. `current` grows by exactly their token lengths and never passes `budget`. A loop that kept fewer than all stopped at a block that did not fit. |
| Gpt2Reasoner.GreedyKeepsLongestFit | src/reasoning/gpt2_reasoner.py:54-58 | No longer prefix of the blocks would have fit: the loop keeps the longest prefix that fits. |
| Gpt2Reasoner.GreedyKeepsAllThatFits | src/reasoning/gpt2_reasoner.py:54-65 | When all blocks together fit, all are kept. |
| Gpt2Reasoner.AddBlock | src/reasoning/gpt2_reasoner.py:41-51 | `ok` iff `current + tok <= budget`. If ok, the processed block is returned and the count advances by its tokens. Otherwise `""` is returned and the count is unchanged. |
| Gpt2Reasoner.FillStep | src/reasoning/gpt2_reasoner.py:41-51 | `add_block` stated over the processed blocks and their token lengths. |
| Gpt2Reasoner.FillLoop | src/reasoning/gpt2_reasoner.py:54-65 | The `for`/`break` loop keeps exactly the greedy prefix of the processed blocks and leaves `current` at the greedy count. |
| Gpt2Reasoner.TrimToBudget | src/reasoning/gpt2_reasoner.py:24-76 | `_trim_to_budget` computes exactly the specification `Trimmed`: the hard trim (in its corrected form, see Findings), meta then evidence loops, assembly and the prefix-only fallback. |
| Gpt2Reasoner.LastTokens | src/reasoning/gpt2_reasoner.py:33-34 | The corrected hard trim keeps the last `budget` tokens (all of them when fewer), and none for a budget that is not positive. |
| Gpt2Reasoner.PySliceFrom | src/reasoning/gpt2_reasoner.py:34 | Python's `s[i:]` for any integer `i`, including negative `i` counted from the end. |
| Gpt2Reasoner.TailAsWrittenKeepsAll | src/reasoning/gpt2_reasoner.py:34 | As written, `enc[-budget:]` with `budget == 0` keeps every token. |
| Gpt2Reasoner.TailAsWrittenNegative | src/reasoning/gpt2_reasoner.py:34 | As written, `enc[-budget:]` with a negative budget drops the first `-budget` tokens and keeps all the others, so a longer prompt is kept nearly whole. |
| Gpt2Reasoner.LastTokensAgree | src/reasoning/gpt2_reasoner.py:34 | For a positive budget the as-written slice and the corrected trim agree. |
| Gpt2Reasoner.TrimmedFits | src/reasoning/gpt2_reasoner.py:70-76 | When the prefix fits the budget, the returned prompt's token length is at most `budget`. |
| Gpt2Reasoner.TrimmedKeepsPrefixes | src/reasoning/gpt2_reasoner.py:54-76 | Kept meta lines and kept evidence are prefixes of the processed inputs, and with the prefix they fit the budget. Either they are exactly the lists in the returned prompt, or both are empty and the prompt is the prefix. |
| Gpt2Reasoner.EvidenceAfterMetaStops | src/reasoning/gpt2_reasoner.py:60-65 | The evidence loop still runs after the meta loop stops: a meta line that does not fit is dropped while a short excerpt is kept. |
| Gpt2Reasoner.AnswerTail | src/reasoning/gpt2_reasoner.py:97-100 | The result is stripped, and is the whole stripped text when there is no `"Answer:"`. |
| Gpt2Reasoner.AnswerAfterLabel | src/reasoning/gpt2_reasoner.py:98-99 | An output echoing a colon-free prompt then `"Answer:"` yields just the stripped reply. |
| Gpt2Reasoner.Instructions | src/reasoning/gpt2_reasoner.py:103-118 | The stripped template opens with the role lines, the question follows, and it ends with `"Answer:"`. |
| Gpt2Reasoner.AnswerPrefix | src/reasoning/gpt2_reasoner.py:120-121 | A non-empty disclaimer and a blank line go ahead of the instructions. Otherwise the prefix is the instructions alone. Either way it ends with `"Answer:"`. |
| Gpt2Reasoner.BuildAnswer | src/reasoning/gpt2_reasoner.py:102-124 | At most 30 evidence texts and 30 meta lines reach the trimmer. The answer is the post-processed generation for the trimmed prompt. |
| EvidenceBuilder.ReferenceOf | src/reasoning/evidence_builder.py:40-44 | A reference has the title or `"Unknown"`, `start–end` with missing times as `""`, and the link or `""`. |
| EvidenceBuilder.UsableHits | src/reasoning/evidence_builder.py:30-35 | Keeps no more results than given. |
| EvidenceBuilder.UsableHitsMembers | src/reasoning/evidence_builder.py:34-35 | Exactly the results with non-blank text are kept. |
| EvidenceBuilder.AddEvidence | src/reasoning/evidence_builder.py:30-44 | A blank result changes nothing. Otherwise one text, one score and one reference are appended together, the text unstripped. |
| EvidenceBuilder.CollectEvidence | src/reasoning/evidence_builder.py:29-44 | The three lists stay parallel: entry `k` of each comes from the `k`-th usable result, in result order. |
| EvidenceBuilder.MaxScore | src/reasoning/evidence_builder.py:49 | `max(scores)` is one of the scores and no score exceeds it. |
| EvidenceBuilder.BuildEvidenceAnswer | src/reasoning/evidence_builder.py:9-59 | No results gives `"No evidence found."` and no references. No usable result gives `"No usable evidence found."` and no references. Otherwise one reference per usable result, and the reasoner gets the usable texts and their maximum score. |
| Phi2Reasoner.ModeFor | src/reasoning/phi2_reasoner.py:11-16 | `LECTURE_FOUND` iff score ≥ 0.6; `WEAK_LECTURE` iff 0.4 ≤ score < 0.6; `NO_LECTURE` iff score < 0.4. |
| Phi2Reasoner.ModeMonotone | src/reasoning/phi2_reasoner.py:11-16 | A higher score never selects a weaker mode. |
| Phi2Reasoner.BuildPrompt | src/reasoning/phi2_reasoner.py:18-33 | The prompt opens with the `MODE: <mode>` header for the score and ends with the question then the evidence. |
| Phi2Reasoner.ReadModeHeader | src/reasoning/phi2_reasoner.py:21 | A `MODE:` header reads back as its mode, whatever follows. |
| Phi2Reasoner.ModeLineRoundTrip | src/reasoning/phi2_reasoner.py:18-33 | The mode line read back from the prompt is exactly the mode the score selects. |
| Config.PlaceholderKey | src/core/config.py:18-19 | `value[2:-1]` is the key `K` with `value == "${" + K + "}"`. |
| Config.Resolve | src/core/config.py:17-21 | `resolve` returns its argument unchanged or a string. |
| Config.ResolvePlaceholder | src/core/config.py:18-20 | `${KEY}` resolves to `env[KEY]`, or `""` when unset. |
| Config.Walk | src/core/config.py:23-26 | Objects map to objects with the same keys, and anything else maps to a non-object. |
| Config.WalkFields | src/core/config.py:25 | Every dict key is preserved, in order. |
| Config.MemberResolvedTwice | src/core/config.py:25 | A member `${X}` with `X` bound to `${Y}` ends up as `env[Y]`. |
| Config.TopLevelResolvedOnce | src/core/config.py:26 | The same chain at the top level is resolved only once. |
| Config.ListMemberUnchanged | src/core/config.py:24-26 | Lists are not descended into: a list member comes back unchanged. |
| Config.NestedObjectWalked | src/core/config.py:24-25 | A nested object is walked recursively under the same key. |
| Config.ScalarMemberUnchanged | src/core/config.py:21 | A member that is not a `${...}` string is kept as is. |
| Retry.Attempt | src/utils/retry.py:8-17 | The wrapper's loop produces exactly the specified ending and the specified sequence of calls, warnings and sleeps. This includes the `ValueError` of `time.sleep` for a negative delay, raised right after the first failure's warning. |
| Retry.AtMostTimesCalls | src/utils/retry.py:10-11 | `fn` is called at most `times` times. |
| Retry.FirstSuccessReturned | src/utils/retry.py:12 | The first successful call's value is returned. The events are three per earlier failure, then that call, and nothing after it. When earlier attempts failed, this needs a delay `time.sleep` accepts. |
| Retry.AllFailRaisesLast | src/utils/retry.py:13-17 | When every attempt fails and the delay is not negative, the last attempt's exception is raised. Each attempt is a call, one warning numbered `attempt+1/times` and one sleep. |
| Retry.NegativeDelayStops | src/utils/retry.py:13-16 | With a negative delay, a failure logs its warning and then ends the wrapper with `time.sleep`'s `ValueError`. No sleep and no further call follow. |
| Retry.NegativeDelayCallsOnce | src/utils/retry.py:10-17 | With a negative delay, `fn` is called at most once, and the wrapper never re-raises `fn`'s own exception. |
| Retry.NoAttemptsRaisesNone | src/utils/retry.py:9-17 | With `times <= 0` nothing is called and `raise None` is reached. |
| ChatModel.Answer | src/chat/chat_model.py:22-60 | No sources or a blank context gives the language's no-result message and no sources. Otherwise the sources are the first five retrieved, and the answer is the formatted answer followed by the source list. |
| ChatModel.AnsweredShape | src/chat/chat_model.py:47-60 | An answered query opens with a styled opening, and its sources are a non-empty prefix of at most five retrieved sources. |
| ChatModel.NoResultMessage | src/chat/chat_model.py:15-20 | The `ur`, `hi` and `roman` messages for those tags, and the English one for any other tag. |
| ChatModel.Remove | src/chat/chat_model.py:66-67 | `re.sub(p, '', s)` never lengthens the text and keeps only characters of the input. |
| ChatModel.RemoveNothing | src/chat/chat_model.py:66-67 | Text in which the pattern never matches is returned unchanged. |
| ChatModel.CollapseNewlines | src/chat/chat_model.py:69 | The result has no two consecutive newlines and keeps the first character. |
| ChatModel.SliceKeepsSingleNewlines | src/chat/chat_model.py:70 | Stripping cannot create `"\n\n"`. |
| ChatModel.CleanContext | src/chat/chat_model.py:62-70 | The cleaned context has no leading or trailing whitespace and no two consecutive newlines. |
| ChatModel.BuildPrompt | src/chat/chat_model.py:127-161 | The language's heading, then the first 1500 characters of the context, then the question label and query, then the language's closing line. |
| ChatModel.FourParts | src/chat/chat_model.py:133-159 | Each part of a four-part template sits at its offset. |
| ChatModel.LlmAnswer | src/chat/chat_model.py:100-125 | A non-empty validated answer is stripped and passes the repetition test `4 * unique > total`. |
| ChatModel.LlmAnswerAccepts | src/chat/chat_model.py:108-121 | An answer is returned iff the stripped output is longer than 15 characters and what remains after the labels passes the repetition test, and it is then that remainder. |
| ChatModel.VariedIsNotEmpty | src/chat/chat_model.py:118-120 | Text that passes the repetition test is not empty. |
| ChatModel.RemoveLabels | src/chat/chat_model.py:113-115 | The label loop removes `Answer:`, `Jawab:`, `Response:`, `A:`, `Q:` case-insensitively in that order, stripping after each. |
| ChatModel.LlmGenerate | src/chat/chat_model.py:100-125 | `_llm_generate` returns exactly the validated answer for the generator's output on the built prompt. |
| ChatModel.Meaningful | src/chat/chat_model.py:168-176 | At most as many lines as given. |
| ChatModel.MeaningfulMembers | src/chat/chat_model.py:172-176 | Exactly the qualifying lines are kept (at least 30 characters, not opening with `[`, not closing with `]`). None is kept iff no line qualifies. |
| ChatModel.CollectMeaningful | src/chat/chat_model.py:168-176 | The line loop collects the qualifying stripped lines in order. |
| ChatModel.SentenceCut | src/chat/chat_model.py:185-188 | The cut is a prefix of the text. With no separator present it is the whole text. Otherwise it ends on a separator. |
| ChatModel.SentenceCutRule | src/chat/chat_model.py:185-188 | The first separator in the list that occurs in the text decides the cut. The cut ends on that separator, and the separator does not occur after the cut, so the cut is at its last occurrence. |
| ChatModel.SentenceCutFacts | src/chat/chat_model.py:185-188 | The same rule for the separators `۔ . ! ?`, and the whole text when none occurs. |
| ChatModel.CutAtSentence | src/chat/chat_model.py:185-188 | The separator loop with `break` cuts at the last occurrence of the first separator in the order `۔ . ! ?` that occurs. |
| ChatModel.ExtractedBounds | src/chat/chat_model.py:163-190 | The extraction has at most 300 characters and is stripped. It is empty iff no line qualifies. Otherwise it is a non-blank prefix of the first three qualifying lines joined by single spaces. |
| ChatModel.CutBounds | src/chat/chat_model.py:182-190 | The cut, cap and strip of the joined lines keep those bounds. |
| ChatModel.KeepLine | src/chat/chat_model.py:170-176 | A line is appended iff it qualifies. |
| ChatModel.ExtractFromContext | src/chat/chat_model.py:163-190 | `_extract_from_context` computes exactly the extraction. |
| ChatModel.FirstMeaningful | src/chat/chat_model.py:192-198 | Never empty, and not blank over stripped lines. |
| ChatModel.FirstMeaningfulIsFirst | src/chat/chat_model.py:194-198 | The result is the first line longer than 30 characters that does not open with `[`, capped at 250 characters, or the placeholder when there is none. |
| ChatModel.FirstMeaningfulLine | src/chat/chat_model.py:192-198 | The early-returning loop computes exactly that line. |
| ChatModel.AnswerFromContext | src/chat/chat_model.py:72-98 | The fallback chain never returns a blank answer. |
| ChatModel.AnswerGrounded | src/chat/chat_model.py:80-98 | The answer is either the validated LLM reply of more than 20 characters, or a prefix of more than 10 characters of the first three qualifying lines, or a capped substantive line, or the placeholder. |
| ChatModel.GenerateAnswerFromContext | src/chat/chat_model.py:72-98 | `_generate_answer_from_context` computes exactly the fallback chain. |
| ChatModel.SourceLine | src/chat/chat_model.py:212-218 | Source line `n` is two spaces, then the decimal `n`, then `. [🎬 ` with the language's link label (`ur`, `hi`, else English) and `]`, then `(url)`. The length leaves nothing else in between. It has no newline when the URL has none. |
| ChatModel.SourceLines | src/chat/chat_model.py:212-218 | One line per source. |
| ChatModel.SourceLinesAt | src/chat/chat_model.py:212-218 | Line `k` belongs to source `k`, numbered `k + 1`. |
| ChatModel.VideoSourcesLines | src/chat/chat_model.py:200-220 | Split on newlines, the block is two empty lines, the language's title, then one numbered line per source in input order, provided no source contains a newline. |
| ChatModel.FormatVideoSources | src/chat/chat_model.py:200-220 | The line loop computes exactly the sources block. |
| ChatModel.Marked | src/chat/chat_model.py:234-236 | A non-empty result opens with a styled opening. Empty or already styled text is unchanged. Any other text gets the book emoji and a space in front. |
| ChatModel.BoldFirst | src/chat/chat_model.py:238-244 | Text with no separator is unchanged. The separator is `۔` if present, else `। `, else `. `. When its first occurrence is before position 180, the text before it is wrapped in `**`. Otherwise the text is unchanged. |
| ChatModel.FormatAnswer | src/chat/chat_model.py:222-246 | Empty text gives the language's placeholder. Blank text gives `""`. Otherwise the stripped, marked text has its first sentence bolded exactly when `BoldFirst`'s rule applies. Non-blank text always gives a result with a styled opening. |

## Left out

- Model runtimes are parameters or left out. These are GPT-2, Phi-2 and mT5 generation, tokenizers, sentence-transformer embeddings and FAISS index search. The searcher's answer is a ranked list of `(score, id)` pairs, and a generator is a string function.
- Language detection and the retriever's `get_context` are parameters of `ChatModel.Answer`. The retriever is taken to return the `context`/`sources` dictionary that `chat_model.py` reads.
- `preprocess_all`, `save_index`, pickle and JSON file reading, YAML and `.env` loading are not modelled. They are file I/O. Transcript files and settings are values of the `Json` type.
- Logging, `print` and `time.sleep` are not modelled, except in `Retry`, where the warning and the sleep are recorded as events.
- Scores are reals, compared and copied only. The float conversions are not modelled.
- UI, HTTP and CLI entry points, scripts and tests are not part of this model. Neither are the commented-out prototypes at the top of `api/main.py` and `retrieval/search.py`.
- `VectorStore.VectorStore.BuildIndex`: the embedding matrix and the FAISS index are one abstract `build` of the texts. Vector shapes and concatenation are not modelled.
- `EvidenceBuilder.BuildEvidenceAnswer`: the searcher and reasoner are abstract. As written, the module imports a `VectorSearcher` that `search.py` does not define. It also calls `build_answer` with keyword arguments that `GPT2Reasoner.build_answer` does not accept. The model gives the reasoner the arguments the call site passes.
- `EvidenceBuilder.ReferenceOf`: a key bound to `None` is treated like a missing key, so such a title becomes `"Unknown"` rather than `None`. A `None` text, on which the source's `.strip()` would raise, reads as `""`.
- `ChatModel.CleanContext`: the regex class `\d` covers ASCII, Arabic-Indic, Extended Arabic-Indic and Devanagari digits, not every Unicode decimal digit.
- `ChatModel.Answer`: the `GoogleTranslator` import and the `load_model` default for the model are not modelled. A generator is always supplied.
- `Gpt2Reasoner.BuildAnswer`: the tokenizer's own truncation in `generate` (`max_length = max_positions - max_new_tokens - 4`) is part of the abstract `complete`.
- `ContextAssembly.AnswerQuestion`: the `MT5Reasoner` and `FaissSearcher` construction are replaced by the search results and a generator passed in.
- `Retry.Attempt`: `fn`'s arguments are folded into the per-attempt outcome function `call`. `time.sleep`'s own failures are modelled only for a negative delay. A NaN delay is not modelled, because delays are reals.
- `Preprocess.Segment`, `Preprocess.Video`: typed records, so every key `build_chunks_from_segments` and `make_chunk` index is present, and `text_roman` is always a string. Four errors are therefore not modelled:
  - the `KeyError` raised by `segments[0]["start_sec"]`, `seg["end_sec"]`, `seg["end_hhmmss"]` or `video["video_id"]` when that key is missing;
  - the `AttributeError` of `.strip()` on a `text_roman` bound to `None`;
  - the errors from values of the wrong type.
  The only error the model keeps is the `UnboundLocalError`.
- `ChatModel.Remove`: its contract states that the text never grows and holds only characters of the input. `RemoveNothing` adds that text without a match is unchanged. That the result is exactly the text between matches, in order, is defined by the function itself and not stated as a separate ensures.

## Findings

| source | as written | input that shows it | evidently intended | confidence | as-written member | corrected member |
|---|---|---|---|---|---|---|
| src/reasoning/gpt2_reasoner.py:34 | the hard trim keeps `enc[-budget:]` | `budget == 0` (for example `max_new_tokens = max_positions - 32`) with a non-empty prefix: `enc[-0:]` is `enc[0:]`, so every token is kept and the prompt is not trimmed at all. A negative budget (`max_positions = 1024`, `max_new_tokens = 1000`, budget `-8`) makes it `enc[8:]`: every token but the first 8 is kept. Nothing in the repository reaches either input: the only caller (src/reasoning/evidence_builder.py:53) leaves `max_new_tokens` at its default of 200, so with 1024 positions the budget is 792 | keep the last `budget` tokens and none when the budget is not positive | not executed | Gpt2Reasoner.TailAsWrittenKeepsAll, Gpt2Reasoner.TailAsWrittenNegative | Gpt2Reasoner.LastTokens |

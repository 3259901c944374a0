# RAFT dataset utilities, modelled in Dafny

This project models the core of `raft_utils.py` from the RAFT end-to-end recipe. That recipe turns a
document collection into a fine-tuning dataset. Each record pairs a question with a chain-of-thought
answer and with a shuffled set of documents: the oracle chunk, or a stand-in for it, plus distractor
chunks. The model covers the pure text processing and the bookkeeping around the foreign calls:

- `strip_str` (module `Strip`): cuts a model response line down to the span that runs from its first
  letter to one character past its last letter.
- `clean_documents` (module `Normalizer`): drops boilerplate and blank lines, strips the remaining
  lines and joins them with spaces.
- `get_chunks` (module `Chunker`): the empty-text error and the `ceil(len(text) / chunk_size)` chunk
  count that is handed to the semantic splitter.
- `generate_questions` (module `Questions`): one prompt per chunk, and the cleaning and truncation of
  each response into at most `questions_per_chunk` questions. The result is zipped with the chunks.
- `generate_COT` (module `Cot`): flattens (chunk, questions) pairs into one prompt per question, in
  chunk-major order, and zips the answers back by position.
- `add_chunk_to_dataset` (module `Assembly`): builds one record per (chunk, question, answer)
  triple and appends it to the dataset. This covers the chunk lookup, distractor sampling, the oracle
  decision, the shuffle, the placeholders, the instruction text and the `seed_task_<n>` ids.

`Text` holds the string machinery: Python's `str.split`, `str.strip`, `str.join`, `isalpha` and
`isspace`, and the decimal rendering of integers. `Common` holds `Option`, `Result`, `Min` and
Python's `zip`.

Code the model cannot see is passed in as a parameter:

- the semantic splitter is a function `(text, number_of_chunks) -> chunks`;
- the prompt templates are functions of their fields;
- the LLM's `batch` is a function from prompts to answer texts;
- the random module is replaced by one explicit `Draw` per triple. `ValidDraw` restricts a draw to
  what `random.sample`, `random.uniform(0, 1) < p` and CPython's `random.shuffle`, a Fisher-Yates
  shuffle that swaps from the end, could produce.

Each loop in the source becomes a `method` proved against a specification function. The properties
the source promises are lemmas about those functions.

Where the specification and the code disagree, the model follows the code. The one exception is
the truncation bug under "## Findings": the question pipeline uses the corrected truncation.
`generate_questions` logs an error and returns an empty list when the batch call returns no answers
(`raft_utils.py:132-134`); it does not stop the program. `get_chunks` raises on empty text, and
`chunks.index` raises when a triple's chunk is not among the chunks. Both become `Err` results.

## Model

| member | source | states |
|---|---|---|
| Common.Zip | recipes/use_cases/end2end-recipes/raft/raft_utils.py:168-169 | `zip` stops at the shorter list and pairs the elements position by position |
| Text.Split | recipes/use_cases/end2end-recipes/raft/raft_utils.py:44 | `split("\n")` yields at least one piece, and no piece contains the separator |
| Text.JoinSplit | recipes/use_cases/end2end-recipes/raft/raft_utils.py:44 | joining the pieces of a split with the same separator gives back the original text |
| Text.JoinAvoids | recipes/use_cases/end2end-recipes/raft/raft_utils.py:50 | a character absent from every part and from the separator is absent from the join |
| Text.JoinNonEmpty | recipes/use_cases/end2end-recipes/raft/raft_utils.py:50 | joining non-empty parts gives the empty string only when there are no parts |
| Text.TrimStartSpec | recipes/use_cases/end2end-recipes/raft/raft_utils.py:45 | stripping on the left removes exactly a whitespace prefix, and the result does not start with whitespace |
| Text.TrimEndSpec | recipes/use_cases/end2end-recipes/raft/raft_utils.py:45 | stripping on the right removes exactly a whitespace suffix, and the result does not end with whitespace |
| Text.TrimSlice | recipes/use_cases/end2end-recipes/raft/raft_utils.py:45-46 | `strip()` returns a slice surrounded only by whitespace, with no whitespace at either end; it is empty exactly when the line is all whitespace, which is the `len(line.split()) == 0` test |
| Text.TrimAvoids | recipes/use_cases/end2end-recipes/raft/raft_utils.py:45 | stripping never introduces a character |
| Text.NatToString | recipes/use_cases/end2end-recipes/raft/raft_utils.py:195 | the decimal rendering of a row count is a non-empty string of digits |
| Text.ParseNatToString | recipes/use_cases/end2end-recipes/raft/raft_utils.py:195 | reading the decimal rendering back yields the same number |
| Text.NatToStringInjective | recipes/use_cases/end2end-recipes/raft/raft_utils.py:195 | different numbers render differently |
| Strip.FirstLetter | recipes/use_cases/end2end-recipes/raft/raft_utils.py:26-30 | finds the position of the first letter, or reports that the string has no letter |
| Strip.LastLetter | recipes/use_cases/end2end-recipes/raft/raft_utils.py:26-32 | finds the position of the last letter, or reports that the string has no letter |
| Strip.StripStrSpec | recipes/use_cases/end2end-recipes/raft/raft_utils.py:20-34 | a string with no letter comes back unchanged; with one letter, the result runs from it to the end; otherwise it runs from the first letter to one character past the last letter, capped at the string's end |
| Strip.FirstLetterIs | recipes/use_cases/end2end-recipes/raft/raft_utils.py:26-30 | any index holding the first letter is the one `FirstLetter` returns |
| Strip.LastLetterIs | recipes/use_cases/end2end-recipes/raft/raft_utils.py:26-32 | any index holding the last letter is the one `LastLetter` returns |
| Strip.StripOneLetter | recipes/use_cases/end2end-recipes/raft/raft_utils.py:24-34 | when the first and last letter are the same, the result runs from that letter to the end, since `r` stays at `len(s) - 1` |
| Strip.StripSpan | recipes/use_cases/end2end-recipes/raft/raft_utils.py:24-34 | with distinct first and last letters, the result runs from the first to one character past the last, capped at the string's end |
| Strip.StripKeepsLetters | recipes/use_cases/end2end-recipes/raft/raft_utils.py:20-34 | the result contains a letter exactly when the input does |
| Strip.NumberedQuestionFirstLetter | recipes/use_cases/end2end-recipes/raft/raft_utils.py:26-30 | in `"1. What is Raft?\n"` the first letter is at index 3 |
| Strip.NumberedQuestionLastLetter | recipes/use_cases/end2end-recipes/raft/raft_utils.py:26-32 | in `"1. What is Raft?\n"` the last letter is at index 14 |
| Strip.StripNumberedQuestion | recipes/use_cases/end2end-recipes/raft/raft_utils.py:20-34 | `"1. What is Raft?\n"` becomes `"What is Raft?"`: the numbering and the newline go, and the question mark stays |
| Strip.Strip | recipes/use_cases/end2end-recipes/raft/raft_utils.py:24-34 | the scanning loop with `l`, `r` and `beg_found` returns the specified span |
| Strip.StripFromBounds | recipes/use_cases/end2end-recipes/raft/raft_utils.py:33-34 | once the scan has found the first and last letters, the slice `s[l:min(r + 2, len(s))]` is that span |
| Normalizer.KeptLines | recipes/use_cases/end2end-recipes/raft/raft_utils.py:46-49 | every surviving line is non-empty, is not on the denylist and is not all whitespace |
| Normalizer.KeptLinesMembership | recipes/use_cases/end2end-recipes/raft/raft_utils.py:44-49 | a line survives exactly when some stripped input line equals it and passes the filter |
| Normalizer.KeptLineSource | recipes/use_cases/end2end-recipes/raft/raft_utils.py:46-49 | every survivor is a stripped input line that passes the filter |
| Normalizer.KeptLineFromSource | recipes/use_cases/end2end-recipes/raft/raft_utils.py:46-49 | every stripped input line that passes the filter survives |
| Normalizer.KeptLinesAvoid | recipes/use_cases/end2end-recipes/raft/raft_utils.py:43-49 | filtering never introduces a character |
| Normalizer.CleanDocuments | recipes/use_cases/end2end-recipes/raft/raft_utils.py:35-51 | the loop returns the surviving stripped lines, in input order, joined by single spaces |
| Normalizer.CleanedHasNoNewline | recipes/use_cases/end2end-recipes/raft/raft_utils.py:44-51 | the cleaned text is one line |
| Normalizer.CleanedEmpty | recipes/use_cases/end2end-recipes/raft/raft_utils.py:43-51 | the cleaned text is empty exactly when no line survives, and in particular for empty input |
| Chunker.CeilDivBounds | recipes/use_cases/end2end-recipes/raft/raft_utils.py:103 | for positive sizes the chunk count is the least number of chunks of that size covering the text, and at least 1 |
| Chunker.NegativeCeilBounds | recipes/use_cases/end2end-recipes/raft/raft_utils.py:103 | for negative sizes the count is the ceiling of the negative quotient |
| Chunker.NumChunks | recipes/use_cases/end2end-recipes/raft/raft_utils.py:100-103 | empty text is an error, a zero chunk size is a division error, and otherwise the count is `ceil(len / size)` by its defining bounds |
| Chunker.GetChunks | recipes/use_cases/end2end-recipes/raft/raft_utils.py:99-109 | fails on empty text and on a zero chunk size, and otherwise returns what the splitter gives for the text and the computed chunk count |
| Questions.TruncateAsWrittenKeepsAllAtZero | recipes/use_cases/end2end-recipes/raft/raft_utils.py:140-143 | as written, `questions_per_chunk == 0` keeps every question |
| Questions.TruncateAsWrittenOverflows | recipes/use_cases/end2end-recipes/raft/raft_utils.py:140-143 | as written, with `questions_per_chunk == 0` one question comes out where at most zero were asked for |
| Questions.KeepLast | recipes/use_cases/end2end-recipes/raft/raft_utils.py:140-143 | keeps the last `min(len, k)` questions: a suffix of the list, never more than `k` |
| Questions.KeepLastAgreesAboveZero | recipes/use_cases/end2end-recipes/raft/raft_utils.py:140-143 | for every `k >= 1` the corrected truncation equals the code as written |
| Questions.WithLetters | recipes/use_cases/end2end-recipes/raft/raft_utils.py:139 | every line kept contains a letter |
| Questions.WithLettersMembership | recipes/use_cases/end2end-recipes/raft/raft_utils.py:139 | a line is kept exactly when it is an input line that contains a letter |
| Questions.CandidateSource | recipes/use_cases/end2end-recipes/raft/raft_utils.py:137-139 | every candidate question is the `strip_str` of a response line that contains a letter |
| Questions.CandidateFromLine | recipes/use_cases/end2end-recipes/raft/raft_utils.py:137-139 | every response line with a letter contributes its `strip_str` to the candidates |
| Questions.CleanResponse | recipes/use_cases/end2end-recipes/raft/raft_utils.py:136-144 | the questions kept for a response are the last `min(count, questions_per_chunk)` candidates, each with a letter (the corrected truncation; see Findings) |
| Questions.PairQuestions | recipes/use_cases/end2end-recipes/raft/raft_utils.py:132-145 | no answers gives an empty list; otherwise chunk `j` is paired with the cleaned questions of answer `j`, up to the shorter list |
| Questions.GenerateQuestions | recipes/use_cases/end2end-recipes/raft/raft_utils.py:120-145 | fails exactly when chunking fails, with the same error; otherwise returns each chunk paired with the cleaned questions from its answer |
| Cot.TotalQuestionsAppend | recipes/use_cases/end2end-recipes/raft/raft_utils.py:151-155 | adding a chunk adds its number of questions to the total |
| Cot.FlattenLength | recipes/use_cases/end2end-recipes/raft/raft_utils.py:151-155 | there is one flattened pair per question over all chunks |
| Cot.FlattenAt | recipes/use_cases/end2end-recipes/raft/raft_utils.py:151-155 | question `j` of chunk `k` sits at the number of questions before chunk `k` plus `j`, so the order is chunk-major and question-minor |
| Cot.FlattenSource | recipes/use_cases/end2end-recipes/raft/raft_utils.py:151-155 | every flattened pair is a chunk together with one of its own questions |
| Cot.CotTriples | recipes/use_cases/end2end-recipes/raft/raft_utils.py:166-169 | triple `m` is flattened pair `m` with answer `m`, up to the shorter list |
| Cot.GenerateCot | recipes/use_cases/end2end-recipes/raft/raft_utils.py:148-170 | the nested loops and the zip loop return the triples for the flattened pairs and their answers, one per question, capped by the number of answers |
| Assembly.IndexOf | recipes/use_cases/end2end-recipes/raft/raft_utils.py:194 | `chunks.index(chunk)` fails exactly when the chunk is absent, and otherwise gives a position holding the chunk |
| Assembly.IndexOfFirst | recipes/use_cases/end2end-recipes/raft/raft_utils.py:194 | the position found is the first occurrence |
| Assembly.RemoveFirstAt | recipes/use_cases/end2end-recipes/raft/raft_utils.py:200 | `list.remove` deletes the first occurrence and nothing else |
| Assembly.PoolAt | recipes/use_cases/end2end-recipes/raft/raft_utils.py:199-200 | the index pool holds every chunk index except the oracle's, in ascending order |
| Assembly.Shuffle | recipes/use_cases/end2end-recipes/raft/raft_utils.py:207 | `random.shuffle` swaps from the end and keeps the number of documents; ShufflePermutes gives the multiset |
| Assembly.ShufflePermutes | recipes/use_cases/end2end-recipes/raft/raft_utils.py:207 | the shuffle only reorders the documents |
| Assembly.DistractorDocs | recipes/use_cases/end2end-recipes/raft/raft_utils.py:201-202 | one distractor document per sampled index |
| Assembly.DistractorDocsAt | recipes/use_cases/end2end-recipes/raft/raft_utils.py:201-202 | distractor `j` is the chunk at the `j`-th sampled pool position |
| Assembly.DistractorIndicesValid | recipes/use_cases/end2end-recipes/raft/raft_utils.py:199-202 | the sampled chunk indices are distinct, in range and never the oracle's index |
| Assembly.CandidateDocs | recipes/use_cases/end2end-recipes/raft/raft_utils.py:198-206 | there are `num_distract + 1` documents before the shuffle; DistractorsFromOtherChunks states what follows position 0 |
| Assembly.CandidateOracle | recipes/use_cases/end2end-recipes/raft/raft_utils.py:198-206 | position 0 before the shuffle holds the oracle chunk when it is kept, and otherwise the chunk at some index other than the oracle's |
| Assembly.WrappedConcat | recipes/use_cases/end2end-recipes/raft/raft_utils.py:220-222 | the wrapped text of two document lists is the concatenation of their wrapped texts |
| Assembly.WrappedAt | recipes/use_cases/end2end-recipes/raft/raft_utils.py:220-222 | each document appears once in the instruction, wrapped in tags, in document order |
| Assembly.SeedTaskIdInjective | recipes/use_cases/end2end-recipes/raft/raft_utils.py:195 | different row counts give different `seed_task_` ids |
| Assembly.BuildRecordErrors | recipes/use_cases/end2end-recipes/raft/raft_utils.py:194-206 | building a record fails on the chunk lookup exactly when the chunk is absent, and on sampling exactly when the chunk is present but `random.sample` cannot draw enough indices |
| Assembly.RecordShape | recipes/use_cases/end2end-recipes/raft/raft_utils.py:184-225 | a built record has the row-count id, type `general`, the question, the oracle chunk and the answer; it has one title list of `num_distract + 1` placeholders and one document list of that length; the documents are a permutation of the candidates, and the instruction wraps them and then appends the question |
| Assembly.DistractorsFromOtherChunks | recipes/use_cases/end2end-recipes/raft/raft_utils.py:198-202 | the documents after position 0 are the `num_distract` distractors, taken from distinct chunk indices other than the oracle's |
| Assembly.OracleKept | recipes/use_cases/end2end-recipes/raft/raft_utils.py:204-207 | when the oracle is kept, its chunk is among the record's documents |
| Assembly.OracleDropped | recipes/use_cases/end2end-recipes/raft/raft_utils.py:204-207 | when the oracle is dropped and the chunks are distinct, the oracle chunk is replaced and is not among the record's documents |
| Assembly.CandidatesAvoidChunk | recipes/use_cases/end2end-recipes/raft/raft_utils.py:198-206 | with distinct chunks and a dropped oracle, no candidate document is the oracle chunk |
| Assembly.AppendDistractors | recipes/use_cases/end2end-recipes/raft/raft_utils.py:201-202 | the sampling loop appends the sampled chunks in draw order |
| Assembly.RenderInstruction | recipes/use_cases/end2end-recipes/raft/raft_utils.py:220-225 | the instruction loop produces the wrapped documents followed by the question |
| Assembly.AssembleRecord | recipes/use_cases/end2end-recipes/raft/raft_utils.py:186-225 | the statements for one triple produce the specified record, or the specified error |
| Assembly.AppendRecord | recipes/use_cases/end2end-recipes/raft/raft_utils.py:228-239 | creating the dataset or adding an item leaves a dataset whose rows are the old rows plus the new record |
| Assembly.SequentialIdsUnique | recipes/use_cases/end2end-recipes/raft/raft_utils.py:195 | rows numbered by their position carry pairwise distinct ids |
| Assembly.SequentialIdsAppend | recipes/use_cases/end2end-recipes/raft/raft_utils.py:195 | rows numbered from the current row count continue the numbering |
| Assembly.TripleChunkKnown | recipes/use_cases/end2end-recipes/raft/raft_utils.py:182-194 | every triple from `generate_COT` names a chunk from the chunk list, so the lookup never fails |
| Assembly.Results | recipes/use_cases/end2end-recipes/raft/raft_utils.py:184-239 | one record attempt per triple |
| Assembly.ResultsAt | recipes/use_cases/end2end-recipes/raft/raft_utils.py:184-239 | attempt `k` builds triple `k` with draw `k` and the row count `base + k` |
| Assembly.CollectAt | recipes/use_cases/end2end-recipes/raft/raft_utils.py:184-240 | the loop succeeds exactly when every attempt succeeds, and then yields their records in order; otherwise it stops at the first failing attempt with that error |
| Assembly.CollectPrefixErr | recipes/use_cases/end2end-recipes/raft/raft_utils.py:184-240 | after the first failure, later triples change nothing |
| Assembly.ResultSampling | recipes/use_cases/end2end-recipes/raft/raft_utils.py:198-206 | for a known chunk, an attempt fails exactly when its sampling fails |
| Assembly.CollectedFailsOnSampling | recipes/use_cases/end2end-recipes/raft/raft_utils.py:184-206 | when every triple's chunk is known, the whole call fails exactly when some triple's sampling fails, and always with the sampling error |
| Assembly.ResultRow | recipes/use_cases/end2end-recipes/raft/raft_utils.py:186-217 | a successful attempt `k` carries id `seed_task_<base + k>` and the triple's question, chunk and answer |
| Assembly.CollectedRows | recipes/use_cases/end2end-recipes/raft/raft_utils.py:184-239 | on success there is one row per triple, in triple order, each with its sequential id and the triple's question, chunk and answer |
| Assembly.CollectedIdsContinue | recipes/use_cases/end2end-recipes/raft/raft_utils.py:195 | appending to a dataset whose ids are `seed_task_0 ..` keeps the ids sequential, and so unique |
| Assembly.AssembleAt | recipes/use_cases/end2end-recipes/raft/raft_utils.py:184-225 | one pass of the loop body builds exactly attempt `k` |
| Assembly.AssembleAll | recipes/use_cases/end2end-recipes/raft/raft_utils.py:184-240 | the loop returns the first error, or a dataset whose rows are the old rows followed by one record per triple |
| Assembly.AddChunkToDataset | recipes/use_cases/end2end-recipes/raft/raft_utils.py:172-240 | the rows added are those built from the `generate_COT` triples of the given pairs, with ids that continue the existing row count |

## Left out

- `read_file_content`, `clean_text` and the HTML handling (BeautifulSoup, sitemap and directory loaders) are file and network I/O and are not modelled. `clean_documents` is modelled on the text they produce.
- The `HuggingFaceEmbeddings` model and `SemanticChunker` are foreign code. They are the `splitter` parameter, which receives the text and the computed chunk count.
- `ChatOpenAI` and `llm.batch` are network calls. They are the `batch` parameter, which maps prompts to answer texts. The `.content` extraction is folded into it.
- The question and chain-of-thought prompt templates are the `questionPrompt` and `cotPrompt` parameters, because `.format` on a user template is opaque. `str(questions_per_chunk)` is folded into `questionPrompt`.
- The `api_config` dictionary is replaced by the parameters taken from it.
- `random.uniform(0, 1) < p` is the draw's `keepOracle` boolean; the probability `p` and floating point are not modelled.
- `random.sample` and `random.shuffle` are modelled by their outcomes: pool positions and swap draws constrained by `ValidDraw`. The generator's state and its distribution are not modelled.
- `Dataset.from_dict` and `add_item` are modelled as a list of rows. The columnar layout, the schema inference and the wrapping of every field in a one-element list on creation are not modelled.
- `not ds` is true for `None` and for an empty dataset. Both cases start a new dataset from the record, so `Dataset` is an optional list of rows.
- Logging calls have no effect on the results and are omitted.
- `Text.IsAlpha` and `Text.IsSpace` cover ASCII letters and ASCII whitespace plus U+001C..U+001F, U+0085 and U+00A0. The rest of Unicode's `isalpha` and `isspace` tables is not modelled.
- Chunker.NumChunks: computes the exact ceiling of the rational quotient, not the floating-point `len(text) / chunk_size` that `ceil` receives. The two can differ only for texts longer than 2^53 characters.
- Questions.CleanResponse: keeps the last `min(count, questions_per_chunk)` candidates, the corrected truncation. It differs from the code only at `questions_per_chunk == 0`, where the code keeps every candidate (see Findings).
- Questions.PairQuestions: pairs each chunk with `CleanResponse`, so it inherits the corrected truncation and differs from the code only at `questions_per_chunk == 0`.
- Questions.GenerateQuestions: returns the `PairQuestions` result, so it also differs from the code only at `questions_per_chunk == 0`. The code as written there is `Questions.TruncateAsWritten`, and `Questions.KeepLastAgreesAboveZero` proves the two agree for every count of 1 or more.
- `questions_per_chunk` is a natural number in the model. `int(...)` of a negative value or of a non-numeric string is not modelled.
- Python exceptions (`TypeError` from `get_chunks`, `ValueError` from `list.index` and `random.sample`) are `Err` results. When one triple fails, `add_chunk_to_dataset` returns the error and no dataset, just as the exception discards the rows already added to the local `ds`.
- `ZeroDivisionError` for `chunk_size == 0` is the `DivisionByZero` error of `get_chunks`. `generate_questions` passes it through.

## Findings

| source | as written | input that shows it | evidently intended | confidence | as-written member | corrected member |
|---|---|---|---|---|---|---|
| recipes/use_cases/end2end-recipes/raft/raft_utils.py:140-143 | `queries[-int(questions_per_chunk):]` with `questions_per_chunk == 0` is `queries[0:]`, so every question is kept | response `"What is Raft?"` with `questions_per_chunk = 0`: one question is kept | keep at most `questions_per_chunk` questions, here none | not executed | Questions.TruncateAsWrittenOverflows | Questions.KeepLast |

# RAG PDF reader — a verified model of its text and list processing

The RAG PDF reader answers questions about policy documents. It extracts and
cleans the text of PDFs, cuts it into overlapping token windows, and tags
each chunk with the clause number it mentions. It embeds the chunks into a
FAISS index, retrieves the nearest chunks for a question (optionally only
those of one clause), assembles a cited context and a chat history, and asks
a chat model for the answer. An HTTP entry point does all of this per request
for a PDF given by URL, keeping a sliding window of the last three exchanges.

This project models the deterministic part of that pipeline in Dafny and
proves what it promises. The embedding model, the FAISS search, the chat
model, the tokenizer, Unicode normalisation, PDF extraction and the download
are function-typed parameters: the proofs hold for every behaviour of those
collaborators.

| file | module | models |
|---|---|---|
| `text.dfy` | `Text` | Python `str.isspace`, `strip`, `lower` (ASCII), `join`, `str(int)` |
| `values.dfy` | `Values` | dict values (`None`/`str`/`int`/`float`), `dict.get`, truthiness, `str(v)`, exceptions as `Outcome` |
| `pdf_processing.dfy` | `PdfProcessing` | `clean_pdf_text` and `chunk_text_by_tokens` (utils/pdf_processing.py) |
| `clause_numbers.dfy` | `ClauseNumbers` | dotted numerals `\d+(?:\.\d+)+` and `re.search` for a pattern with a digit-free optional prefix |
| `generate_embeddings.dfy` | `GenerateEmbeddings` | clause extraction for chunks, `process_single_pdf`, `process_multiple_pdfs_and_create_index` |
| `query_retriever.dfy` | `QueryRetriever` | `retrieve_top_k_chunks` |
| `answer_generator.dfy` | `AnswerGenerator` | `extract_clause_from_query`, `build_context_from_chunks`, the messages of `generate_answer_with_gpt`, `interactive_qa` |
| `rag_pipeline.dfy` | `RagPipeline` | `create_index_from_url` and `process_api_request` |
| `start_api.dfy` | `StartApi` | `load_env_file` and `check_required_env_vars` |

Loops in the source are `method`s with `while` loops, each proved equal to a
specification function. The properties are proved about those functions as
lemmas. The process environment is a class whose methods update its `vars`
map in place. A Python exception is an `Outcome` value (`Ok` or `Raise` with
the exception's class and `str(e)`), so every error path of the core is part
of the model.

## Model

| member | source | states |
|---|---|---|
| Text.Strip | retriever/query_retriever.py:67 | `s.strip()` has no whitespace at either end, and is empty exactly when `s` is all whitespace |
| Text.StripIsInfix | retriever/query_retriever.py:67 | `s.strip()` is the slice of `s` left after removing whitespace-only margins at both ends |
| Text.LowerAscii | llm/answer_generator.py:95 | lowering maps each character by itself, keeping the length |
| Text.Join | app/rag_pipeline.py:85 | joining no parts gives "", joining one part gives that part |
| Text.JoinConcat | app/rag_pipeline.py:85 | joining two non-empty lists of parts puts exactly one separator between their joins |
| PdfProcessing.RemoveHyphenBreaks | utils/pdf_processing.py:43 | deleting "-\n" pairs never lengthens the text |
| PdfProcessing.JoinSingleNewlines | utils/pdf_processing.py:45 | a newline with no newline on either side becomes a space; every other character is kept in place |
| PdfProcessing.CollapseIsSingleSpaced | utils/pdf_processing.py:46 | the only whitespace left is single spaces, never two in a row |
| PdfProcessing.CleanPdfTextIsClean | utils/pdf_processing.py:33-47 | for every input and every normalisation, the only whitespace in the cleaned text is single spaces between non-whitespace characters: no newline, no two in a row, none at either end |
| PdfProcessing.ParagraphStepsUndone | utils/pdf_processing.py:44-46 | the paragraph-preserving substitutions have no effect: cleaning equals hyphen removal, whitespace collapse and strip alone |
| PdfProcessing.CollapseRespectsSpaceSwap | utils/pdf_processing.py:45-46 | replacing whitespace characters by other whitespace characters does not change the collapsed text |
| PdfProcessing.CollapseRun | utils/pdf_processing.py:46 | a whitespace run of any length collapses to at most one space |
| PdfProcessing.SqueezeKeepsCollapse | utils/pdf_processing.py:44-46 | squeezing runs of newlines to two before collapsing changes nothing |
| PdfProcessing.HyphenBreakDeleted | utils/pdf_processing.py:43 | a "-\n" pair is deleted and the text on either side is processed independently |
| PdfProcessing.NoHyphenUnchanged | utils/pdf_processing.py:43 | text without a hyphen passes through the hyphen pass unchanged |
| PdfProcessing.HyphenatedHyphenFreeWords | utils/pdf_processing.py:43 | two hyphen-free words split by "-\n" are joined into one ("co-\noperate" becomes "cooperate") |
| PdfProcessing.HyphenPassIsSinglePass | utils/pdf_processing.py:43 | the pass does not rescan its output: "--\n\n" leaves "-\n" behind |
| PdfProcessing.ChunkTextByTokens | utils/pdf_processing.py:50-70 | the chunks are the decoded windows `tokens[i*(size-overlap) : i*(size-overlap)+size]`, in increasing start order, ceil(N/(size-overlap)) of them; no tokens give no chunks; the one precondition is the missing guard `size > overlap` for non-empty input |
| PdfProcessing.CountBelow | utils/pdf_processing.py:63-68 | window `c` is produced exactly when its start lies before the end of the tokens |
| PdfProcessing.WindowCountExact | utils/pdf_processing.py:63-68 | the loop runs exactly ceil(N/(size-overlap)) times: every window starts before N and the next start does not |
| PdfProcessing.WindowShape | utils/pdf_processing.py:64-65 | window `i` is `tokens[start .. min(start+size, N)]`, non-empty, at most `size` long, and shorter exactly when `start+size` passes N |
| PdfProcessing.WindowsCover | utils/pdf_processing.py:63-68 | every token lies in some window, at its own offset |
| PdfProcessing.ConsecutiveWindowsOverlap | utils/pdf_processing.py:65-68 | a full-length window and the next share exactly `overlap` tokens |
| PdfProcessing.FreshPartsReconstruct | utils/pdf_processing.py:60-68 | concatenating the non-repeated part of every window gives back the token sequence |
| PdfProcessing.DisjointWindowsReconstruct | embeddings/generate_embeddings.py:116-119 | windows with no overlap concatenate to their input |
| PdfProcessing.ShortTrailingWindows | utils/pdf_processing.py:64-65 | more than one trailing window can be short: 5 tokens, size 4, overlap 3 give 5 windows, the last three of lengths 3, 2, 1 |
| ClauseNumbers.DigitRunEnd | embeddings/generate_embeddings.py:43 | `\d+` extends greedily to the end of the digit run |
| ClauseNumbers.GroupsEnd | embeddings/generate_embeddings.py:43 | the greedy `(?:\.\d+)+` repetition stops where no further dot-and-digit group follows, covering only digits and dots each followed by a digit |
| ClauseNumbers.NumeralIsDotted | embeddings/generate_embeddings.py:43 | what the numeral group matches starts and ends with a digit and holds at least one dot, each followed by a digit; a bare "3" is never captured |
| ClauseNumbers.FirstNumeralFrom | embeddings/generate_embeddings.py:59 | the leftmost start at or after `i` where a numeral matches, with none before it |
| ClauseNumbers.FirstDottedNumeral | llm/answer_generator.py:18-20 | the reference capture: None exactly when no numeral starts anywhere, otherwise a dotted numeral |
| ClauseNumbers.FirstNumeralOfPrefix | embeddings/generate_embeddings.py:58-61 | the first numeral of `text[:n]` starts where the first numeral of `text` starts and is a prefix of it |
| ClauseNumbers.NumeralAtInPrefix | embeddings/generate_embeddings.py:58 | a numeral starts at `j` in `text[:n]` exactly when one starts there in `text` and its first group fits before the cut |
| ClauseNumbers.NoEarlierNumeral | embeddings/generate_embeddings.py:58-59 | cutting the text cannot hide an earlier numeral of the whole text |
| ClauseNumbers.FirstCapture | embeddings/generate_embeddings.py:42-43 | of the capture positions tried in backtracking order, the first where the numeral group matches, or None when none does |
| ClauseNumbers.SpaceRunEnd | embeddings/generate_embeddings.py:42 | `\s*` extends greedily over whitespace |
| ClauseNumbers.Countdown | embeddings/generate_embeddings.py:42 | a greedy quantifier gives back characters one at a time, from the longest match down to the shortest: entry `t` is `hi - t` |
| ClauseNumbers.SearchCapturesFirstNumeral | llm/answer_generator.py:30-32 | `re.search` of any pattern whose optional prefix consumes no digit captures the leftmost dotted numeral, greedily extended |
| GenerateEmbeddings.KeywordLength | embeddings/generate_embeddings.py:42 | the optional keyword has length 6 exactly when "clause" matches at `i` in any case, 7 exactly when "section" does, and 0 when neither does |
| GenerateEmbeddings.ClausePatternTriesSound | embeddings/generate_embeddings.py:42 | the keyword and its trailing whitespace contain no digit, and skipping the group is always tried |
| GenerateEmbeddings.ClauseRegexCapturesFirstNumeral | embeddings/generate_embeddings.py:39-47 | the clause regex captures exactly the leftmost dotted numeral; the optional keyword never changes the capture |
| GenerateEmbeddings.ClauseNumberFromHeadOrWhole | embeddings/generate_embeddings.py:50-65 | the first 200 characters are searched first and their numeral wins, even when truncated; only otherwise is the whole chunk searched |
| GenerateEmbeddings.ClauseNumberIsFirstNumeral | embeddings/generate_embeddings.py:50-65 | a chunk gets a clause number exactly when it holds a dotted numeral; the number is dotted and a prefix of the chunk's first numeral |
| GenerateEmbeddings.ShortChunkClauseNumber | embeddings/generate_embeddings.py:56-64 | a chunk of at most 200 characters (the empty one included) gets exactly its first dotted numeral |
| GenerateEmbeddings.HeadingNumeralFoundInFull | embeddings/generate_embeddings.py:58-61 | a first numeral that ends before character 200 is returned whole |
| GenerateEmbeddings.NumeralFitsPrefix | embeddings/generate_embeddings.py:58 | a numeral that ends before the cut is the same numeral in the cut text |
| GenerateEmbeddings.PathName | embeddings/generate_embeddings.py:83 | `Path(p).name` never holds a `/` and is never `.` |
| GenerateEmbeddings.PathNameIsLastComponent | embeddings/generate_embeddings.py:83 | for a path that ends in neither `/` nor a `.` component, `Path(p).name` is the text after the last `/` |
| GenerateEmbeddings.PathNameIgnoresTrailing | embeddings/generate_embeddings.py:83 | a trailing `/` or `/.` does not change `Path(p).name` |
| GenerateEmbeddings.ChunkRecord | embeddings/generate_embeddings.py:81-86 | a record has exactly the keys chunk, source, page and clause_number, and holds the chunk text, the file name and `None` for the page |
| GenerateEmbeddings.ChunkRecordClause | embeddings/generate_embeddings.py:80-85 | a record has a (truthy) clause number exactly when its chunk holds a dotted numeral, and otherwise stores `None` |
| GenerateEmbeddings.BuildRecords | embeddings/generate_embeddings.py:78-87 | given a path object the loop builds the records of the chunks, named after the file; given a plain `str` the first `.name` lookup raises AttributeError, so only an empty chunk list gets through |
| GenerateEmbeddings.ProcessSinglePdf | embeddings/generate_embeddings.py:68-87 | one record per chunk, in chunk order; given a plain `str` path the `.name` lookup raises AttributeError unless the PDF has no chunks |
| GenerateEmbeddings.Records | embeddings/generate_embeddings.py:78-87 | there are as many records as chunks |
| GenerateEmbeddings.RecordsAt | embeddings/generate_embeddings.py:79-86 | record `j` is the record of chunk `j`: the loop keeps chunk order |
| GenerateEmbeddings.RecordHoldsChunk | embeddings/generate_embeddings.py:82 | the `chunk` entry of record `k` of a PDF is that PDF's chunk `k` |
| GenerateEmbeddings.AppendRecords | embeddings/generate_embeddings.py:108-110 | the inner loop appends a PDF's records to the metadata and keeps text `i` equal to the chunk of metadata entry `i` |
| GenerateEmbeddings.CollectChunks | embeddings/generate_embeddings.py:105-110 | the metadata is every PDF's records, file after file, and text `i` is the chunk of metadata entry `i` |
| GenerateEmbeddings.ProcessMultiplePdfsAndCreateIndex | embeddings/generate_embeddings.py:90-131 | RuntimeError exactly when no PDF has a chunk; otherwise texts and metadata are aligned, the batches concatenate to the texts and each holds 1 to 64 of them, and the ids are 0..n-1 |
| GenerateEmbeddings.EmbeddingBatches | embeddings/generate_embeddings.py:116-121 | the batches are the consecutive slices of 64 texts, non-empty, concatenating to the texts in order |
| QueryRetriever.KeptHits | retriever/query_retriever.py:77-92 | the surviving hits are search hits, no more of them than there were hits; a hit survives exactly when its id is valid and, when filtering, its clause matches |
| QueryRetriever.ResultRecord | retriever/query_retriever.py:94-100 | a result copies chunk, source, page and clause_number from the metadata entry (None when absent) and carries the hit's distance unchanged |
| QueryRetriever.RetrieveTopKChunks | retriever/query_retriever.py:46-105 | the loop returns the first `max(k, 1)` survivors: the length test follows the append |
| QueryRetriever.CollectSurvivors | retriever/query_retriever.py:76-105 | the loop over the hits returns the first `max(k, 1)` survivors, since the length test follows the append |
| QueryRetriever.ShouldKeep | retriever/query_retriever.py:78-92 | a hit is skipped for a negative id, for an id past the metadata (the IndexError is swallowed), and under a clause filter for a missing, empty or different stripped clause |
| QueryRetriever.SurvivorsPrefix | retriever/query_retriever.py:76-103 | stopping early returns a prefix of all the survivors |
| QueryRetriever.RetrievedCount | retriever/query_retriever.py:67-103 | a blank query returns []; otherwise at most `max(k, 1)` results and at most the number of hits, exactly `min(max(k,1), survivors)` |
| QueryRetriever.RetrievedAreSurvivors | retriever/query_retriever.py:76-100 | result `i` is the record of the `i`-th surviving hit, whose id is valid and whose clause matches under a filter |
| QueryRetriever.FilteredResultsMatchClause | retriever/query_retriever.py:87-92 | with a clause filter every result has a non-empty clause number equal to the requested one once both are stripped |
| QueryRetriever.KeptHitsConcat | retriever/query_retriever.py:77-92 | the filter keeps search order: the survivors of `a + b` are those of `a` followed by those of `b` |
| QueryRetriever.UnfilteredKeepsValidIds | retriever/query_retriever.py:76-105 | without a clause filter the survivors are exactly the hits with valid ids, in order |
| AnswerGenerator.QueryPatternTriesSound | llm/answer_generator.py:19 | the optional keyword, colon, dot and whitespace of the query pattern contain no digit, and skipping them all is tried |
| AnswerGenerator.QueryClauseIsFirstNumeral | llm/answer_generator.py:23-33 | the clause number of a question is its leftmost dotted numeral (None for the empty question and for one without) |
| AnswerGenerator.UndottedQueryHasNoClause | llm/answer_generator.py:18-20 | a question without a dot, such as "clause 5", names no clause |
| AnswerGenerator.HeaderOfMissingKeys | llm/answer_generator.py:42-45 | missing keys read as "unknown", "N/A" and "" |
| AnswerGenerator.HeaderOfNoneValues | llm/answer_generator.py:42-45 | keys present with `None` show as "None": the defaults apply only to missing keys |
| AnswerGenerator.BuildContextFromChunks | llm/answer_generator.py:36-47 | the loop builds the context function; an empty list gives "" |
| AnswerGenerator.ContextErrorStops | llm/answer_generator.py:41-46 | once a non-string chunk has raised TypeError, later results change nothing |
| AnswerGenerator.ContextFailsOnlyOnNonText | llm/answer_generator.py:46 | building the context raises exactly when some result's chunk is present and not a string |
| AnswerGenerator.ContextConcat | llm/answer_generator.py:41-46 | the context of two result lists in a row is their two contexts in a row |
| AnswerGenerator.ContextSnoc | llm/answer_generator.py:46 | one more result appends its header, chunk and blank line |
| AnswerGenerator.ContextOfOne | llm/answer_generator.py:45-46 | one result gives "[From src \| Page page \| Clause clause]\n" + chunk + "\n\n" |
| AnswerGenerator.ContextNonBlank | llm/answer_generator.py:45-46 | a non-empty result list always gives a non-blank context, so the model is shown it |
| AnswerGenerator.BuildMessages | llm/answer_generator.py:56-66 | the appending loop builds exactly the message list `Messages` |
| AnswerGenerator.MessagesShape | llm/answer_generator.py:56-66 | the system prompt first, the history in order, a CONTEXT message only for non-blank context, the question last; length `|history| + 2` or `+ 3` |
| AnswerGenerator.ContextMessageSent | llm/answer_generator.py:63-64 | the CONTEXT message is sent exactly when the context has non-whitespace text |
| AnswerGenerator.GenerateAnswerWithGpt | llm/answer_generator.py:50-77 | the answer is the model's reply to gpt-4o-mini, those messages, 512 tokens and temperature 0 |
| AnswerGenerator.InteractiveQa | llm/answer_generator.py:80-123 | the loop computes the session function: blank input skipped, "exit"/"quit" in any case stops, each question extends the history |
| AnswerGenerator.AnswerQuestion | llm/answer_generator.py:98-123 | one question retrieves its top 5 chunks, builds the context (whose error propagates), asks the model and appends the question and its answer to the history |
| AnswerGenerator.TurnAppendsQuestionAndAnswer | llm/answer_generator.py:122-123 | a turn keeps the history and appends the question as a user entry, then an assistant entry holding the model's reply to the request built from the history, the question and its context |
| AnswerGenerator.AnswererAppends | llm/answer_generator.py:113-123 | every successful turn of the loop appends exactly two entries |
| AnswerGenerator.SessionRecordsEveryTurn | llm/answer_generator.py:91-123 | the history only grows; unless an error stops it, it records every question before the exit command with its answer, in order, never trimmed |
| AnswerGenerator.InteractiveQaRecordsEveryTurn | llm/answer_generator.py:80-123 | a whole session records every question asked and the model's answer generated from all entries before it |
| AnswerGenerator.TurnsRecordedStep | llm/answer_generator.py:122-123 | a recorded turn followed by recorded turns records the longer list of questions |
| AnswerGenerator.SessionAnswers | llm/answer_generator.py:92-123 | an answered question moves the loop to the next input with the extended history |
| AnswerGenerator.SessionQuitsOnExit | llm/answer_generator.py:95-96 | a session that runs out of input never saw an exit command |
| RagPipeline.CreateIndexFromUrlAsWritten | app/rag_pipeline.py:21-56 | as written: a failed download raises ConnectionError "Failed to download PDF: …"; a PDF without chunks gives no document; any other PDF raises AttributeError |
| RagPipeline.CreateIndexFromUrl | app/rag_pipeline.py:21-56 | with the path passed as a path: the download error, or the document of the PDF's records |
| RagPipeline.IndexedDocumentAligned | app/rag_pipeline.py:40-56 | a downloaded PDF with chunks gives an index of exactly its chunk texts and its records as metadata, aligned entry by entry; one without chunks gives no document |
| RagPipeline.RecordTexts | app/rag_pipeline.py:46 | the `chunk` entries of the records built from a chunk list are that chunk list, entry by entry |
| RagPipeline.RecordTextsAreChunks | app/rag_pipeline.py:46 | `[item["chunk"] for item in chunks]` gives back the PDF's chunks |
| RagPipeline.JoinedChunksOfText | app/rag_pipeline.py:85 | the context joins the chunk texts with a blank line; it raises exactly when a chunk is missing (KeyError) or not a string (TypeError) |
| RagPipeline.ChunkValuesOfText | app/rag_pipeline.py:85 | the chunk list succeeds exactly when every result has a chunk, and then holds them in order |
| RagPipeline.JoinStringsOfText | app/rag_pipeline.py:85 | `"\n\n".join` succeeds exactly when every item is a string, and then equals the join of the strings |
| RagPipeline.JoinEmpty | app/rag_pipeline.py:85-87 | the joined context is empty exactly when there are no chunks or a single empty one |
| RagPipeline.LastN | app/rag_pipeline.py:104-106 | the last `min(n, len)` items, oldest first |
| RagPipeline.TrimAppend | app/rag_pipeline.py:100-106 | trimming after every append keeps the same window as trimming once at the end |
| RagPipeline.Log | app/rag_pipeline.py:100-101 | the full conversation has two entries per answered question |
| RagPipeline.WindowOfLog | app/rag_pipeline.py:78-106 | the history holds the last `min(2i, 6)` entries of the conversation, so never more than 6 |
| RagPipeline.AnswerOne | app/rag_pipeline.py:82-95 | one question: retrieve 3 chunks, join them, and ask the model unless the context is empty |
| RagPipeline.AnswerQuestions | app/rag_pipeline.py:74-106 | the loop computes the replies, each question answered with the window of the answers before it; the trimmed history always equals that window |
| RagPipeline.RepliesStep | app/rag_pipeline.py:81-97 | one more question extends the answers with its reply, or raises |
| RagPipeline.WindowStep | app/rag_pipeline.py:100-106 | appending an exchange and trimming to 6 gives the window of the longer conversation |
| RagPipeline.RepliesErrorStops | app/rag_pipeline.py:81-97 | once a question raises, the request raises that error |
| RagPipeline.Respond | app/rag_pipeline.py:66-72 | an exception from index creation, or no index, answers every question with `str(e)` |
| RagPipeline.ProcessApiRequest | app/rag_pipeline.py:60-109 | the request with the path passed correctly computes the response function |
| RagPipeline.ProcessApiRequestAsWritten | app/rag_pipeline.py:60-109 | the request as written answers every question with the same error text |
| RagPipeline.RepliesAnswerEachQuestion | app/rag_pipeline.py:81-97 | one answer per question, in order, each carrying its own question |
| RagPipeline.RepliesUseWindow | app/rag_pipeline.py:76-106 | answer `i` is the reply to question `i` given the last `min(2i, 6)` entries of the conversation before it |
| RagPipeline.RepliesNeverRaise | app/rag_pipeline.py:82-95 | with metadata that holds every chunk as text, no question raises |
| RagPipeline.RetrievedChunksAreText | app/rag_pipeline.py:82-85 | everything retrieved from such metadata carries its chunk as text |
| RagPipeline.ApiAnswersEveryQuestion | app/rag_pipeline.py:60-109 | the request returns one entry per question, in order, after a failed download, an empty PDF and a good document alike |
| RagPipeline.FailedDocumentFansOut | app/rag_pipeline.py:66-72 | when no document is built, every question gets the error text, and nothing is retrieved |
| RagPipeline.NotFoundExactly | app/rag_pipeline.py:85-95 | the fixed not-found answer is given, without asking the model, exactly when the retrieved texts join to "" |
| RagPipeline.AsWrittenAnswersNothing | app/rag_pipeline.py:37-40 | as written, a downloadable PDF with chunks gives every question "'str' object has no attribute 'name'" although a document could be built |
| StartApi.FirstIndex | app/start_api.py:21 | the index of the first `=`, with none before it |
| StartApi.FirstIndexUnique | app/start_api.py:21 | a position holding `=` with no `=` before it is the first one |
| StartApi.ParseEnvLineSplitsOnFirstEquals | app/start_api.py:19-21 | an assignment is read exactly from a stripped line that is non-empty, not a comment and holds `=`; key, `=` and value give back the line, and the key has no `=` |
| StartApi.EnvLineRoundTrip | app/start_api.py:19-21 | writing `key=value` and parsing it gives the pair back, for a key that is non-empty, has no `=` and does not start with `#` or whitespace, and a value not ending in whitespace |
| StartApi.StripKeepsUnpadded | app/start_api.py:19 | a line with no surrounding whitespace is its own strip |
| StartApi.SpacesAroundEqualsKept | app/start_api.py:19-21 | no per-part trimming: `K = v` sets `K ` to ` v` |
| StartApi.ApplySetsOnlyItsKey | app/start_api.py:20-22 | a line sets only the key it assigns; a skipped line changes nothing |
| StartApi.Environment.constructor | app/start_api.py:12 | the environment starts as given |
| StartApi.Environment.LoadEnvFile | app/start_api.py:12-25 | no file changes nothing; otherwise the lines are applied in order and a refused assignment stops the load |
| StartApi.Environment.CheckRequiredEnvVars | app/start_api.py:27-45 | the unset or empty names among API_KEY and OPENAI_API_KEY, in that order, and success exactly when there are none |
| StartApi.LoadLastWins | app/start_api.py:18-22 | the last assignment of a key wins, and keys the file does not assign are left as they were |
| StartApi.LoadStopsAtRefusedLine | app/start_api.py:18-22 | loading stops at the first refused assignment with every line before it applied |
| StartApi.MissingVarsExact | app/start_api.py:32-34 | a name is reported exactly when it is required and unset or empty |
| StartApi.RequiredVarsCheck | app/start_api.py:29-45 | the check passes exactly when API_KEY and OPENAI_API_KEY both have non-empty values |

## Left out

- PDF text extraction (PyMuPDF/pdfminer, utils/pdf_processing.py:8-30): a parameter `extract`; the text it returns is the input.
- NFKC normalisation (utils/pdf_processing.py:42) and the `cl100k_base` tokenizer (utils/pdf_processing.py:57-58, 66): parameters; chunking is stated over abstract token sequences.
- Embedding, `normalize_L2` and FAISS (index build, `add_with_ids`, `search`): floating-point library code. The index is the sequence of texts it embeds, in id order, and a search is a parameter returning a hit list; ranking and score values are not reasoned about. A score is kept only as the text of its `repr`.
- The chat completion call (llm/answer_generator.py:69-77): a parameter from the request (model, messages, token limit, temperature) to the answer text; network failures of that call are not modelled.
- The download (app/rag_pipeline.py:27-32) and the temporary file: a parameter returning the file or the exception text; the file's name doubles as its content key.
- GenerateEmbeddings.Preprocessing: `extract` is total, so extraction never fails in the model. `fitz.open` (utils/pdf_processing.py:19) raises on a file that is not a PDF. `create_index_from_url` (app/rag_pipeline.py:35-40) reopens the temporary file without flushing its write buffer, so a small download can reach the extractor as an empty file. Neither failure is modelled.
- Saving and loading the index and metadata (`faiss.write_index`, `pickle`, `load_faiss_and_metadata`): file I/O; `interactive_qa` takes the loaded index and metadata as inputs.
- The directory walk of `process_multiple_pdfs_and_create_index` (embeddings/generate_embeddings.py:101-102): the PDF paths are an input, already sorted.
- `print`, `input()` and the progress messages: `interactive_qa` takes its input lines as a sequence, and running out of them stands for EOFError.
- app/api.py, app/test_api.py, embeddings/list_pdfs_in_folder.py, llm/test_openai.py and the server launch (app/start_api.py:47-85) are not part of this model.
- `load_dotenv()` (app/start_api.py:10) and the location of `.env`: the file is an optional list of lines; its existence check is whether the option holds a value.
- Text.IsDigit and Text.IsWordChar: `\d` and `\w` are ASCII only here; Python's match Unicode digits and letters too. With IGNORECASE, the keyword match lowers ASCII only.
- Text.LowerAscii: `str.lower()` is modelled on ASCII letters only; this decides `exit`/`quit` exactly, since no other character lowers to those letters.
- StartApi.SetEnv: the error class `putenv` raises for a NUL or an empty name is platform-dependent; the model uses ValueError for both.
- RagPipeline.ChunkTexts: it reads `item["chunk"]` through `str(v)`, which matches the source for the string chunks `process_single_pdf` always stores.
- There is no guard on `chunk_size > overlap` in the source, so PdfProcessing.ChunkTextByTokens requires it for non-empty input, where the source would loop forever.

## Findings

| source | as written | input that shows it | evidently intended | confidence | as-written member | corrected member |
|---|---|---|---|---|---|---|
| app/rag_pipeline.py:37-40 with embeddings/generate_embeddings.py:83 | `create_index_from_url` passes `temp_file.name`, a `str`, to `process_single_pdf`, which reads `pdf_path.name`; that raises AttributeError for the first chunk, and `process_api_request` answers every question with "'str' object has no attribute 'name'" | a downloaded PDF larger than the temporary file's write buffer, whose cleaned text has at least one token | pass `Path(temp_file.name)`, so the PDF is indexed and the questions are answered | not executed | RagPipeline.AsWrittenAnswersNothing | RagPipeline.ApiAnswersEveryQuestion |

# PTIT chatbot core, modelled in Dafny

This project models three parts of a question-answering chatbot.

- **The FAQ matcher** (`FAQService`). A question is lower-cased and stripped. It is rejected when it has more than twelve words. Otherwise it is embedded and compared by cosine similarity with the stored question vectors. The answer of the first entry with the greatest score comes back when that score reaches 0.80. The question vectors come from a cache file when one exists. Otherwise, unless the table is empty, they are built once by embedding every question, and the cache file is written. An empty table gives no vectors and writes no file.
- **The knowledge-base update** (`check_and_update_database`). The files waiting in `new_docs` are loaded, tagged with their file name and cut into chunks. A file is "already stored" when its basename appears among the files found in `old_docs`. If any are, the user is asked to confirm (typing `0` cancels), and every old chunk of those files is deleted from the vector index. Then the new chunks are added, and the processed files are moved into `old_docs`, replacing any file of the same name there. `initialize_vector_store` opens the persisted index or builds one from a directory. `load_and_process_documents` does the loading, tagging and chunking.
- **The answer dispatch** (`RAGChatbot.get_answer`). A FAQ hit is the reply. Otherwise the retrieval chain is asked and its `result` is stripped. Any exception becomes an error reply carrying the exception text.

The FAQ matcher's embedder and vector norm, the text splitter, the retrieval chain and, in the update run, the directory loader are parameters of the model (function values). The embedder, the loader and the chain each either return a result or raise an exception. `LoadAndProcessDocuments` and `InitializeVectorStore` take the loader's result (`Result<seq<Document>>`) rather than the loader. The knowledge base's embedding calls appear only through their outcome: an `Option<Exception>` that is `None` when embedding the chunks succeeds. The norm and the splitter are total: they always return a value. Lemmas that need the norm to behave like a Euclidean length (never negative, and 0 exactly for a zero vector) say so in their `requires` (`Faq.IsNorm`). An exception is modelled as `Err(Exception(text))`, where `text` is what `str(e)` shows. Directories are maps from a file's path, relative to the directory, to its contents. A document's `source` is its path relative to the directory it was loaded from. The files are:

- `outcomes.dfy`: `Option`, `Exception` and `Result`.
- `text.dfy`: the Python string operations the core relies on: `lower`, `strip`, `split()` and `os.path.basename`.
- `faq_service.dfy`: the FAQ matcher, with `FAQService` as a class.
- `rag_system.dfy`: loading, the vector index, the directories and the update run.
- `rag_chatbot.dfy`: the answer dispatch, with `RAGChatbot` as a class.

Behaviour the model follows from the code:

- `check` does not swallow a failing embedding call. The exception propagates, and `get_answer` turns it into an error reply, so the retrieval chain is not consulted.
- An empty or blank chain result is returned as the empty string. No "no data" text is substituted.
- A vector cache file is served as it is, even when its length differs from the table's. Scoring then runs over the shorter of the two lists, as `zip` does.
- There is no update lock, no audit log, no reload signal and no FAQ rebuild operation.
- The constants are the code's: threshold 0.80, cutoff 12 words, chunks of 1000 characters with an overlap of 200, and 4 retrieved chunks.

## Model

| member | source | states |
|---|---|---|
| PyText.IsSpace | faq_service.py:65-66 | definition: the characters `str.isspace` holds for, which `split()` and `strip()` treat as white space: space, `\t \n \v \f \r`, the separators U+001C-U+001F, U+0085, U+00A0, U+1680, U+2000-U+200A, U+2028, U+2029, U+202F, U+205F and U+3000 |
| PyText.Lower | faq_service.py:65 | same length, each character lowered (A-Z to a-z, every other character unchanged), and space characters stay space characters |
| PyText.Strip | faq_service.py:65 | the slice of the input that starts at its first non-space character, is followed only by white space, and has no space at either end |
| PyText.Split | faq_service.py:66 | `split()` with no argument: every word is non-empty and holds no space, and a blank string has no words |
| PyText.SplitCountsWordStarts | faq_service.py:66 | `split()` gives one word for each position where a word starts: a non-space character at the start of the string or right after a space |
| PyText.SplitStrip | faq_service.py:65-66 | stripping a string does not change how many words it has |
| PyText.SplitLower | faq_service.py:65-66 | lower-casing a string does not change how many words it has |
| PyText.WordCountNormalized | faq_service.py:65-67 | the normalised question has exactly as many words as the question as typed |
| PyText.Basename | rag_system.py:141 | definition of `os.path.basename` on POSIX: the characters after the last `/`, built from the end of the path |
| PyText.BasenameShape | rag_system.py:40 | the basename is the part of the path after its last `/`: a suffix with no `/`, preceded by `/` or starting the path |
| PyText.BasenameOfName | rag_system.py:141-142 | the basename of a name without `/` is the name itself |
| Faq.Dot | faq_service.py:59 | definition of `np.dot` on vectors of equal length: the sum of the products of corresponding entries |
| Faq.Cosine | faq_service.py:53-59 | definition: 0.0 when the product of the norms is 0, the shape-mismatch error for vectors of different lengths, otherwise the dot product over the norm product |
| Faq.CosineZeroVector | faq_service.py:56-58 | with a true norm, a zero vector on either side scores 0.0 and never raises, whatever the other vector's length |
| Faq.CosineRaises | faq_service.py:56-59 | with a true norm, scoring raises exactly when both vectors are non-zero and their lengths differ, and then with the shape-mismatch error |
| Faq.ScoreAll | faq_service.py:74-75 | on success, exactly one score per vector |
| Faq.ScoreAllScores | faq_service.py:74-75 | on success, each vector's score at that vector's position; on failure, the exception of the first vector whose scoring raises |
| Faq.ScoreAllStops | faq_service.py:74-75 | once a prefix of the scan raises, the whole scan raises the same exception |
| Faq.BestOf | faq_service.py:71-78 | the strict `>` scan from 0.0: the score is non-negative; with no index, every score is at most 0; otherwise the index is the first position holding the greatest score, which is positive |
| Faq.Normalize | faq_service.py:65 | definition: `lower()` then `strip()` |
| Faq.Lookup | faq_service.py:71-82 | definition: score the entries both lists have, keep the first best score from 0.0 under strict `>`, and accept it when it reaches 0.80; a raising score is the result |
| Faq.LookupScan | faq_service.py:71-82 | for a scan in which no score raises, there is a hit exactly when some scanned entry scores at least 0.80, and the hit is the answer and score of the first entry with the greatest score |
| Faq.LookupHit | faq_service.py:80-82 | a hit scores at least 0.80 and carries the answer of an entry in both lists |
| Faq.Match | faq_service.py:61-82 | definition of `check`: no hit for an empty table or vector list or for more than twelve words after normalising, else the embedder's exception or the lookup of the embedded question |
| Faq.MatchRejectsLong | faq_service.py:65-67 | a question of more than twelve words, as typed, never matches |
| Faq.MatchShort | faq_service.py:62-69 | with a non-empty table and vectors, a question of at most twelve words is embedded after normalisation and then scanned |
| Faq.MatchZip | faq_service.py:74 | entries past the end of the shorter list never affect the result |
| Faq.LoadFaqData | faq_service.py:24-30 | definition: the table read from the file, or the empty table when the file is missing |
| Faq.Questions | faq_service.py:41 | the table's questions, in table order |
| Faq.EmbedDocuments | faq_service.py:45 | on success, one vector per text, each the embedding of that text; on failure, the error of the first text whose embedding fails |
| Faq.LoadOrCreateVectors | faq_service.py:32-51 | an existing cache is served as it is; an empty table gives no vectors and no file; otherwise the vectors are the question embeddings in order and are written to the cache; an error happens only without a cache and with some failing question |
| Faq.CacheRoundTrip | faq_service.py:36-48 | after a successful start, a later start serves the same vectors with any embedder |
| Faq.FaqService.Open | faq_service.py:19-30 | the service holds the table read (empty when the file is missing) and its loaded vectors; a failing embedder makes construction fail and leaves the cache untouched |
| Faq.FaqService.Check | faq_service.py:61-82 | returns the matcher's result; empty table or vectors give no hit; more than twelve words give no hit |
| Faq.FaqService.ScanTable | faq_service.py:71-78 | the loop keeps `best_score` and `best_answer` equal to the best of the scores seen so far, and returns the lookup result |
| KnowledgeBase.SourceOf | rag_system.py:47 | definition of `metadata.get("source")`: the document's `source`, or None when it has none |
| KnowledgeBase.FileNameOf | rag_system.py:107 | definition: the chunk's `file_name`, or None when it has none |
| KnowledgeBase.Tag | rag_system.py:38-40 | definition: a document with a `source` gets `file_name` set to the source's basename; one without is unchanged |
| KnowledgeBase.Process | rag_system.py:24-51 | definition of `load_and_process_documents`: a failed or empty load gives no chunks and no sources, otherwise the split of the tagged documents and their distinct sources |
| KnowledgeBase.SplitDocuments | rag_system.py:42-46 | every chunk carries the metadata of one of the documents |
| KnowledgeBase.Dedup | rag_system.py:47 | `list(set(...))`: no duplicates, and exactly the same values |
| KnowledgeBase.Sources | rag_system.py:47 | each document's `source`, or None when it has none |
| KnowledgeBase.ProcessTagsChunks | rag_system.py:38-48 | every chunk with a source is tagged with its basename; the source list has no duplicates and holds exactly the documents' sources |
| KnowledgeBase.LoadAndProcessDocuments | rag_system.py:24-51 | the tagging loop, splitting and source list; a failed or empty load gives no chunks and no sources |
| KnowledgeBase.FileNames | rag_system.py:105-108 | every chunk's `file_name` is in the set, and every name in it is some chunk's `file_name` |
| KnowledgeBase.CollectFileNames | rag_system.py:105-108 | the loop collects exactly the chunks' file names |
| KnowledgeBase.MatchesGlob | rag_system.py:112 | definition: the recursive glob `**/*.*` lists a path whose basename holds a dot and none of whose components is hidden |
| KnowledgeBase.OldFiles | rag_system.py:110-113 | definition: the basenames of the files of `old_docs` the glob lists |
| KnowledgeBase.Conflicts | rag_system.py:115 | definition: the stored basenames that are also among the new chunks' file names |
| KnowledgeBase.DotlessNeverConflicts | rag_system.py:110-115 | a name without a dot is never counted as already stored, because the glob `*.*` skips it |
| KnowledgeBase.WithoutFiles | rag_system.py:128-132 | definition of the index after `delete(where={"file_name": ...})` for each name: the chunks not tagged with a deleted name, in their order |
| KnowledgeBase.WithoutFilesMembers | rag_system.py:130-132 | deleting by file name keeps exactly the chunks not tagged with a deleted name |
| KnowledgeBase.WithoutFilesTwice | rag_system.py:128-132 | deleting one set of names after another is deleting their union, so a repeated delete changes nothing |
| KnowledgeBase.WithoutFilesNothing | rag_system.py:117 | deleting no names keeps the index as it is |
| KnowledgeBase.ChunksOfAppend | rag_system.py:136 | the chunks of one file after an append are its old chunks followed by its new ones |
| KnowledgeBase.ChunksOfWithout | rag_system.py:130-132 | after a delete, a deleted file has no chunks and any other file keeps all of its chunks |
| KnowledgeBase.ChunksOfNone | rag_system.py:105-108 | a file name absent from the chunks' names has no chunks among them |
| KnowledgeBase.VectorStore.Delete | rag_system.py:130-132 | `delete(where=...)` removes exactly the chunks with that file name |
| KnowledgeBase.VectorStore.AddDocuments | rag_system.py:136 | the chunks are appended, or nothing changes when embedding them fails |
| KnowledgeBase.DeleteConflicting | rag_system.py:128-132 | the per-chunk delete loop removes exactly the chunks of the conflicting files |
| KnowledgeBase.MoveOne | rag_system.py:141-147 | definition of one move: a None source raises; otherwise the destination is removed, then a missing source raises and a present one is moved under its basename |
| KnowledgeBase.MoveAll | rag_system.py:140-147 | definition of the moving loop: the moves in order, stopped by the first exception |
| KnowledgeBase.MoveAllSucceeds | rag_system.py:140-147 | moving distinct, existing sources succeeds, and exactly those files leave `new_docs` |
| KnowledgeBase.MoveAllFillsOldDocs | rag_system.py:140-147 | after the moves, `old_docs` holds its old files plus the moved basenames, and the files not replaced are unchanged |
| KnowledgeBase.MoveAllLastWins | rag_system.py:141-147 | when sources share a basename, `old_docs` keeps the one moved last |
| KnowledgeBase.MoveAllFails | rag_system.py:140-147 | the moving loop fails only on a None source, a source missing from `new_docs`, or a source already moved |
| KnowledgeBase.MoveAllNeedsSources | rag_system.py:141-147 | a None source, or one missing from `new_docs`, makes the moving loop fail |
| KnowledgeBase.MoveAllKeepsOthers | rag_system.py:147 | a file that is not among the sources stays in `new_docs` |
| KnowledgeBase.MoveAllShrinks | rag_system.py:147 | the moves only take files out of `new_docs` |
| KnowledgeBase.MoveAllStops | rag_system.py:140-153 | after the first exception, the remaining sources change nothing |
| KnowledgeBase.MoveFile | rag_system.py:141-147 | one iteration: remove the destination if it exists, then move the file, or raise |
| KnowledgeBase.MoveToOldDocs | rag_system.py:140-147 | the loop's directories and outcome are those of the moving loop over the processed files |
| KnowledgeBase.Update | rag_system.py:92-153 | definition of `check_and_update_database`: the early returns, the prompt, the deletes, the add and the moves, with any exception ending the run |
| KnowledgeBase.UpdateStopsEarly | rag_system.py:95-125 | a missing or empty `new_docs`, no chunks, or a cancelled prompt leaves the index and both directories unchanged |
| KnowledgeBase.UpdateIndex | rag_system.py:127-136 | after the prompt, the index ends with all the new chunks, keeps every old chunk of a non-conflicting file, and holds nothing else |
| KnowledgeBase.UpdateReplaces | rag_system.py:110-136 | a re-ingested stored file keeps exactly one generation of chunks, the new one |
| KnowledgeBase.UpdateDuplicatesDotless | rag_system.py:110-136 | a file without a dot in its name keeps its old chunks beside the new ones |
| KnowledgeBase.UpdateMovesFiles | rag_system.py:140-147 | a completed run has moved every processed file out of `new_docs` and into `old_docs` under its basename, where the next run's glob finds it when the name is dotted and not hidden |
| KnowledgeBase.CheckAndUpdateDatabase | rag_system.py:92-153 | the index, the directories and the outcome are those of the update run's definition; `old_docs` stays present |
| KnowledgeBase.InitializeVectorStore | rag_system.py:54-89 | an existing store is opened as it is; otherwise a store with the directory's chunks is built (empty when there are none), and an embedding failure ends the process |
| Chatbot.KeyErrorText | rag_chatbot.py:77 | definition of `str(KeyError(key))`: the key in single quotes |
| Chatbot.ErrorReply | rag_chatbot.py:79-80 | definition: `"Lỗi khi truy vấn RAG: "` followed by `str(e)` |
| Chatbot.Reply | rag_chatbot.py:66-80 | definition of the dispatch: a FAQ hit's answer, else the chain's stripped `result`, with every exception turned into an error reply |
| Chatbot.FaqHitAnswers | rag_chatbot.py:70-73 | a FAQ hit's answer is the reply, whatever the chain would say |
| Chatbot.FaqErrorAnswers | rag_chatbot.py:69-80 | an exception from the FAQ check is the error reply, whatever the chain would say |
| Chatbot.EmbedFailureAnswers | rag_chatbot.py:69-80 | a question that reaches the embedder, when embedding it raises, is answered with that exception's error reply without consulting the chain |
| Chatbot.ChainAnswers | rag_chatbot.py:76-80 | without a hit, the reply is the stripped chain result, or an error reply for the chain's exception or for the missing `result` key |
| Chatbot.LongQuestionGoesToChain | rag_chatbot.py:70-76 | a question of more than twelve words is answered by the chain alone |
| Chatbot.RagChatbot.GetAnswer | rag_chatbot.py:66-80 | the reply is the dispatch over the FAQ check's result and the chain |

## Left out

- Floating point: vectors and scores are real numbers. Rounding and NaN are not modelled.
- `PyText.Lower`: only ASCII letters are lowered. Python's `str.lower` also lowers non-ASCII letters, such as Vietnamese capitals.
- `Faq.Cosine`: the shape-mismatch `ValueError` is modelled with a fixed text, not numpy's exact message.
- Malformed JSON, a FAQ entry missing `question` or `answer`, and an unreadable pickle file are not modelled. A table file is either missing or a list of entries.
- Documents are values. The tagging loop's in-place change to shared metadata objects, and any aliasing between documents and chunks, are not modelled.
- The chunk texts come from the splitter parameter. Chunk size 1000 and overlap 200 are that splitter's configuration. The splitter never raises.
- `KnowledgeBase.Dedup`: the order of `list(set(...))` is unspecified in Python. The model keeps each source at its first occurrence.
- Directories are not modelled as entries. An empty sub-directory makes `os.listdir` non-empty, but the model sees only files. `old_docs` is assumed to exist, as the program creates it at start-up.
- `existing` holds each basename once. In the source, that list repeats a basename found in several sub-directories. This changes only the printed count.
- Exceptions raised by `delete`, `os.remove`, or by `shutil.move` for any reason other than a missing source are not modelled.
- The progress messages, the prompt's text and the printed counts are not modelled.
- `exit()` when the API key is missing, and the embedding-client constructor failing, are not modelled. In `InitializeVectorStore`, `Err` means the process exits after printing the error.
- The retriever (`k` = 4), the prompt template and the language model are the chain parameter.
- The web layer and the browser scripts (`app.py`, `static/`) are not part of this model.
- Writing the vector cache (`open` and `pickle.dump`) never fails in the model. A failure there would raise out of `FAQService` after the vectors were built.
- `input()` at the confirmation prompt never raises in the model. The user's reply is a parameter of the update run, so an `EOFError` is not modelled.
- One embedding parameter stands for both `embed_query` and `embed_documents`. The batch call is modelled as embedding each question on its own, failing with the first text that fails.

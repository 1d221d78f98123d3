# Smart FAQ service — verified model of the question and ingestion core

This project models the decision logic of a retrieval-augmented FAQ service
written in Python:

- **`ask_question`** (the `/api/ask` handler): the question is stripped and
  lower-cased into the cache key `faq:<question>`. A live, non-empty cached
  answer is returned at once, tagged with the source `Redis Cache` and
  `cached = true`. Otherwise the RAG core is asked with the stripped question.
  One history row is committed, and the answer is cached for 3600 seconds.
- **`ask_llm`**: the question is embedded and `faq_collection` is searched
  for 3 hits. No hits gives a fixed "not found" message. Otherwise the hits'
  texts are folded into a context in rank order, their `metadata["source"]`
  values are collected into a set, and the language model answers. Any failure
  becomes the diagnostic `"Ошибка при генерации: " + message`.
- **`ingest_docs`**: a missing documents folder is created and reported
  `empty`. An empty load is reported `empty`. The splits then recreate the
  collection, reported as `success` with the chunk count or as `error` with
  the exception text. Load and split errors are outside the `try` and
  propagate.

Files:

- `results.dfy` (module `Results`): `Option`, and `Outcome<T> = Ok | Err(msg)` for calls that may raise.
- `text.dfy` (module `Text`): Python's `str.strip` with its exact whitespace set, and
  `str.lower` restricted to ASCII, Latin-1 and Cyrillic U+0400–U+045F (other characters are left unchanged).
- `rag.dfy` (module `Rag`): `ask_llm` as method `AskLlm` with the
  specification function `Answer`, whose value is an `LlmReply` (answer text
  and source set). `ingest_docs` as method
  `Workspace.IngestDocs` with the specification function `Ingestion`.
- `faq.dfy` (module `Faq`): `ask_question` as method
  `FaqService.AskQuestion` over a cache map and a history sequence, with the
  specification function `Ask`. `HandlerReply` is what the handler returns
  (a response or a raised error); `ReplySpec` is the specified reply it must
  match, with the sources as a set.

External services are parameters. The embedder, the vector search, the
generator, the PDF loader and the text splitter each return `Ok(value)` or
`Err(message)`. The index upload returns `Indexed`, or `IndexFailed(details, left)`
with the exception text and the collection it leaves behind. The history commit outcome and the clock (`now`,
in seconds) are parameters too. "A service is never called" is stated as
independence: the result is the same whatever that service does.

Three behaviours of the code are modelled as written:

- The code caches every answer `ask_llm` returns, including the "not found"
  message and the error diagnostic, not only successful generations.
- The code lets exceptions from loading and splitting propagate, instead of
  reporting them as status `error`.
- On a cache hit the source list is `["Redis Cache"]`.

## Model

| member | source | states |
|---|---|---|
| `Text.Lower` | app/main.py:49 | `lower()` keeps the length and lower-cases each character independently |
| `Text.LowerCharFacts` | app/main.py:49 | lower-casing one character is idempotent and never turns whitespace into non-whitespace or back |
| `Text.TrimLeft` | app/main.py:46 | the result is a suffix of the input; what was dropped is all whitespace; the result does not start with whitespace |
| `Text.TrimRight` | app/main.py:46 | the result is a prefix of the input; what was dropped is all whitespace; the result does not end with whitespace |
| `Text.LowerChar` | app/main.py:49 | lower-casing one character keeps whether it is whitespace, never yields a capital of A–Z, À–Þ (except ×), А–Я or Ѐ–Џ, and returns every other character unchanged |
| `Text.Strip` | app/main.py:46 | `strip()` returns the infix of the input that remains after an all-whitespace prefix and an all-whitespace suffix are removed, and a non-empty result starts and ends with non-whitespace |
| `Text.StripPadded` | app/main.py:46 | whitespace added around a question does not change the stripped question |
| `Text.StripIdempotent` | app/main.py:46 | stripping twice is stripping once |
| `Text.LowerStrip` | app/main.py:46-49 | lower-casing and stripping commute |
| `Text.LowerIdempotent` | app/main.py:49 | lower-casing twice is lower-casing once |
| `Rag.PageText` | app/rag.py:74 | a hit's text is its `page_content`, or the empty string when it has none |
| `Rag.Context` | app/rag.py:69-75 | the context carries at least a blank line per hit |
| `Rag.SourceSet` | app/rag.py:70-80 | the hits yield at most one source each |
| `Rag.Answer` | app/rag.py:50-101 | sources are returned only when embedding, search and generation all succeeded with a non-empty hit list; then the answer is the generated text and the sources are the hits' sources |
| `Rag.ListOf` | app/rag.py:97 | `list(source_names)` holds every element of the set exactly once and nothing else |
| `Rag.AskLlm` | app/rag.py:50-101 | the loop builds the context and source set of the specification: the answer equals `Answer`'s, and the source list is duplicate-free with exactly `Answer`'s sources |
| `Rag.ContextAppend` | app/rag.py:69-75 | the context fold over two runs of hits is the concatenation of the two folds |
| `Rag.ContextLength` | app/rag.py:69-75 | the context's length is the sum over the hits of the text length plus 2 |
| `Rag.ContextOrder` | app/rag.py:72-75 | hit `i`'s text followed by a blank line sits right after the texts of all higher-ranked hits |
| `Rag.SourceSetMembers` | app/rag.py:78-80 | a source is in the set exactly when some hit's metadata carries it |
| `Rag.SourceSetIgnoresUnsourced` | app/rag.py:78-80 | a hit without `source` metadata contributes nothing to the sources |
| `Rag.EmptyRetrieval` | app/rag.py:64-65 | no hits gives the fixed "not found" message and no sources, whatever the generator would do |
| `Rag.RetrievalParameters` | app/rag.py:57-61 | the search is consulted only with collection `faq_collection` and limit 3 |
| `Rag.GeneratorInputs` | app/rag.py:93-96 | the generator is consulted only on the rank-ordered context and the question as given |
| `Rag.FailureDegrades` | app/rag.py:99-101 | a failing embed, search or generate gives `"Ошибка при генерации: " + msg` and no sources |
| `Rag.SuccessfulAnswer` | app/rag.py:96-97 | when every call succeeds, the answer is the generated text and the sources are exactly the hits' sources |
| `Rag.Ingestion` | app/rag.py:22-47 | a `success` status means the folder existed, documents were loaded and split, and the new collection is the splits with `chunks` equal to their number; a propagated exception leaves the collection unchanged |
| `Rag.Workspace.IngestDocs` | app/rag.py:22-47 | the folder exists afterwards, and the returned status and the new collection are those of `Ingestion` |
| `Rag.MissingFolder` | app/rag.py:23-25 | a missing folder gives status `empty`, leaves the collection as it was, and does not depend on the loader, splitter or indexer |
| `Rag.NoDocuments` | app/rag.py:27-31 | zero loaded documents gives status `empty`, leaves the collection, and does not depend on the splitter or indexer |
| `Rag.IndexingSucceeds` | app/rag.py:33-45 | successful indexing gives status `success` with `chunks` equal to the number of splits, and the collection is exactly the splits |
| `Rag.IndexingFails` | app/rag.py:46-47 | an indexing exception gives status `error` with its text |
| `Rag.LoadOrSplitRaises` | app/rag.py:27-34 | a load or split exception propagates, and the collection is unchanged |
| `Rag.CollectionChangesOnlyByIndexing` | app/rag.py:36-47 | the collection changes only when the folder exists, documents were loaded and split, and the index call ran |
| `Rag.ReingestionIsDeterministic` | app/rag.py:38-45 | ingesting the same folder again after a success gives the same status and collection |
| `Faq.CacheKey` | app/main.py:46-49 | the key is `faq:` followed by a lower-case text with no surrounding whitespace |
| `Faq.SetEx` | app/main.py:69 | `setex` stores the value under the key with expiry now + ttl and leaves every other key as it was |
| `Faq.CachedAnswer` | app/main.py:50-52 | a cached answer is found exactly when the key is present, not expired and its value is non-empty, and it is the stored value |
| `Faq.GetAfterSetEx` | app/main.py:50-69 | after `setex` with ttl 3600 at `t`, the key reads back the value before `t + 3600` and nothing from then on; every other key reads as before |
| `Faq.Ask` | app/main.py:44-71 | a hit or a failed commit leaves the stores unchanged; a hit answers with the live cached answer and the source `Redis Cache`; a fresh answer appends one history row for the stripped question and is afterwards the cached answer under the key, unless it is empty |
| `Faq.FaqService.AskQuestion` | app/main.py:44-71 | the new cache and history are those of `Ask`; the reply matches `Ask`'s; a hit replies with the cached answer, `["Redis Cache"]` and `cached = true` |
| `Faq.CacheKeyEquality` | app/main.py:46-49 | two questions share a key if and only if they strip and lower-case to the same text |
| `Faq.PaddingSharesKey` | app/main.py:46-49 | surrounding whitespace does not change the key |
| `Faq.CaseSharesKey` | app/main.py:46-49 | questions that differ only in letter case share a key |
| `Faq.CacheKeyNormalised` | app/main.py:46-49 | normalising an already normalised question gives the same key |
| `Faq.CacheHit` | app/main.py:50-53 | a live non-empty cached answer is returned with `["Redis Cache"]` and `cached = true`; the stores are unchanged; neither the RAG services nor the commit are consulted |
| `Faq.EmptyValueIsMiss` | app/main.py:52 | a stored empty string behaves exactly like an absent key |
| `Faq.CacheMiss` | app/main.py:56-71 | on a miss `ask_llm` gets the stripped question; exactly one history row is appended; its answer, whatever it is, is cached under the key with expiry now + 3600; no other key changes; the reply is `ask_llm`'s with `cached = false` |
| `Faq.CommitFailure` | app/main.py:60-69 | a failing commit escapes before the cache write; cache and history are unchanged |
| `Faq.HistoryAppendOnly` | app/main.py:60-66 | the history only grows, by at most one row, and earlier rows are untouched |
| `Faq.CacheRoundTrip` | app/main.py:46-69 | after a miss at `t` with a non-empty answer, the same question or a case/whitespace variant asked before `t + 3600` is a hit with that answer |
| `Faq.CacheExpiry` | app/main.py:50-69 | from `t + 3600` on, the answer cached at `t` no longer answers |

## Left out

- The embedding model, the Qdrant client, the Gemini model and the prompt template are foreign calls. They are abstract functions returning success or failure. The prompt text is not modelled.
- The text splitter is library code. Splits are an opaque sequence, and only their count is used. Chunk size and overlap are not modelled.
- Folder creation, directory listing and PDF loading are I/O. Folder existence is a boolean field, and the loader is an abstract function. A failure of `os.makedirs` is not modelled.
- The Redis connection, the SQLAlchemy engine and session, and the ORM table are collaborators. They are reduced to a cache map and a history sequence. Redis failures in `get` or `setex` are not modelled; both always succeed. Expired keys stay in the map and are only ignored on read.
- The token estimate `int(len(answer.split()) * 1.3)` is floating-point arithmetic. History rows carry only the question and the answer.
- The HTTP layer, static files, the health endpoint, the lifespan hook, request validation and configuration are boundary code.
- `async`/`await` and logging are dropped. Each call runs sequentially.
- `Faq.FaqService.AskQuestion`: each call happens at a single instant `now`, so the cache read and the cache write see the same clock reading. Time passing during `ask_llm` and the commit is not modelled.
- `Text.Lower`: `lower()` is modelled for ASCII, Latin-1 and Cyrillic U+0400–U+045F only. Python's full Unicode case mapping leaves other characters changed or expanded (for example `İ`), and this model leaves them unchanged.
- `Rag.AskLlm`: does not model exceptions raised inside the hit loop, such as a missing payload or a non-string `page_content`. It also does not bound the number of hits by the limit, because the search service is abstract.
- `Rag.IndexingFails`: the collection left after a failed recreate-and-upload is whatever the index call reports. Qdrant's partial state is not modelled.

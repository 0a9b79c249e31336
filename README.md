# QA-agent backend core in Dafny

This project models the local decision logic of the QA-agent backend. The backend is a small FastAPI service. It answers questions through an OpenAI-compatible chat provider, either DashScope or Kimi, and it has an ingestion script that cuts a web page into chunks for a vector store. The model covers three parts, each proved against its own specification:

- **Ingestion** (`ingest.dfy`, module `Ingest`):
  - the line normalisation of a page's extracted text;
  - `chunk_text`, a sliding window of `size` characters that advances `max(1, size - overlap)` at a time. It is modelled as a method with a loop, proved equal to a recursive specification.
  - the parallel `ids` / texts / metadata lists built by `main`.
- **Routing** (`routing.dfy`, module `Routing`):
  - `should_use_rag` lowers the question and searches for six keyword regular expressions.
  - The regular expressions are run by an explicit matcher. The matcher is proved to answer yes exactly when the regular-expression reading has a match.
- **API** (`api.dfy`, module `Api`):
  - settings from the environment and the startup key check;
  - the CORS origin list and the credentials flag;
  - provider dispatch, the chat messages, and the reading of the provider's reply;
  - the validation and flow of `POST /api/qa/ask`.

Shared helpers live in `text.dfy` (module `Text`). They model Python's `str.strip`, `str.split(',')`, `str.splitlines`, `'\n'.join` and ASCII `str.lower`. `wrappers.dfy` holds `Option` and `Result`.

Python's whitespace (`str.isspace`, and `\s` in `re`) is modelled by its full list of code points, and `str.splitlines` by its full list of line boundaries, with `\r\n` counted as one break. Python slices with negative or out-of-range bounds are modelled exactly. So `chunk_text` takes any integer `size` and `overlap`, as the source does.

The loop yields `ceil(n / step)` chunks, where `n` is the text length and `step` is `max(1, size - overlap)`. For a 900-character text with the defaults (900, 120), that is two chunks, and the second lies inside the first (`Ingest.DefaultWindowOn900`).

## Model

| member | source | states |
|---|---|---|
| Text.StripSound | backend/main.py:49 | The result of `strip` has no whitespace at either end. It is a contiguous piece of the input with only whitespace around it. It is empty exactly when the input is all whitespace. It leaves an already stripped string unchanged. |
| Text.SplitOnSound | backend/main.py:49 | No piece of `split(',')` contains the separator, and joining the pieces with it gives back the input. |
| Text.SplitOnJoin | backend/main.py:49 | Splitting separator-free pieces joined by the separator returns exactly those pieces. |
| Text.SplitOnAppend | backend/main.py:49 | Splitting `a + sep + b` is splitting `a` followed by splitting `b`. |
| Text.SplitLinesSound | backend/import_url_to_vector.py:28 | No line returned by `splitlines` contains a line break. |
| Text.SplitLinesLine | backend/import_url_to_vector.py:28 | A text without a line break is one line, or no line when it is empty. |
| Text.SplitLinesCons | backend/import_url_to_vector.py:28 | A break-free line followed by one line boundary (`\r\n`, or a single break character that is not a `\r` directly before `\n`) and the rest splits into that line followed by the lines of the rest. |
| Text.SplitLinesJoin | backend/import_url_to_vector.py:28-29 | Non-empty break-free lines joined by `\n` split back into exactly those lines. |
| Text.KeepStrippedSound | backend/import_url_to_vector.py:28-29 | The kept pieces are non-empty and stripped, and each is the stripped form of some input piece. |
| Text.KeepStrippedOne | backend/import_url_to_vector.py:28-29 | A single piece is dropped exactly when it is all whitespace, and is otherwise kept as its stripped form. |
| Text.KeepStrippedAppend | backend/main.py:49 | Stripping and dropping blanks distributes over concatenation, so order is kept. |
| Text.KeepStrippedClean | backend/import_url_to_vector.py:28-29 | Pieces that are already non-empty and stripped pass through unchanged. |
| Text.LowerSound | backend/routing.py:23 | Lowering keeps the length, leaves no capital `A`-`Z` in the result, turns each capital into its small letter and leaves every other character as it was. |
| Text.LowerIdempotent | backend/routing.py:23 | Lowering twice is lowering once. |
| Ingest.CleanLines | backend/import_url_to_vector.py:28-29 | Every cleaned line is non-empty, stripped and free of line breaks. |
| Ingest.CleanLinesLine | backend/import_url_to_vector.py:28-29 | A break-free raw text gives no line when it is all whitespace, and otherwise exactly its stripped form. |
| Ingest.CleanLinesCons | backend/import_url_to_vector.py:28-29 | A raw line, one line boundary and the rest clean to that line's stripped form (or nothing when it is blank) followed by the cleaned rest, so every non-blank line is kept, in order. |
| Ingest.NormaliseLines | backend/import_url_to_vector.py:28-29 | Splitting the normalised text into lines gives exactly the cleaned lines in input order, and the text never has two newlines side by side. |
| Ingest.JoinHasNoBlankLine | backend/import_url_to_vector.py:29 | Joining non-empty break-free lines with `\n` never creates a blank line. |
| Ingest.NormaliseIdempotent | backend/import_url_to_vector.py:28-29 | Normalising normalised text changes nothing. |
| Ingest.Step | backend/import_url_to_vector.py:39 | The step is at least 1 and at least `size - overlap`, and it is one of the two. |
| Ingest.PySlice | backend/import_url_to_vector.py:38 | A slice is never longer than the text. For `0 <= lo <= hi` it is the clamped sub-sequence. |
| Ingest.ChunksOf | backend/import_url_to_vector.py:33-40 | The chunks `chunk_text` returns number `ceil(n / step)`, and there are none exactly when the text is empty. |
| Ingest.ChunkText | backend/import_url_to_vector.py:33-40 | The loop returns exactly the chunk sequence `ChunksOf(text, size, overlap)` and terminates on the measure `n - i`, whatever `size` and `overlap` are. |
| Ingest.ChunkCount | backend/import_url_to_vector.py:34-40 | There are `ceil(n / step)` chunks, and none exactly when the text is empty. |
| Ingest.ChunkAt | backend/import_url_to_vector.py:37-39 | Chunk `k` is `text[k*step .. min(k*step+size, n)]`. It is at most `size` long and non-empty when `size >= 1`. |
| Ingest.FirstChunkIsPrefix | backend/import_url_to_vector.py:36-38 | The first chunk of a non-empty text is its prefix of length `min(size, n)`. |
| Ingest.ChunksCover | backend/import_url_to_vector.py:36-39 | With `size >= 1` and `overlap >= 0`, every index of the text lies inside some chunk at the matching offset. |
| Ingest.ChunksOverlap | backend/import_url_to_vector.py:38-39 | When chunk `k` is full length, its last `size - step` characters are the first `size - step` of chunk `k+1`, which is at least that long. |
| Ingest.DefaultWindowOn900 | backend/import_url_to_vector.py:33-40 | With the defaults, a 900-character text gives two chunks: the whole text, then its last 120 characters. |
| Ingest.PlanIngest | backend/import_url_to_vector.py:54-68 | The texts are the chunks of the normalised page text. Ids and metadata have the same length as the texts. Metadata `i` carries the shared source, url, host and path with chunk index `i`. Id `i` is the `i`-th fresh id, so ids are distinct when the id source never repeats. |
| Routing.MatchesAtSound | backend/routing.py:9-14 | A match found at the start of a string covers a prefix that is a full regular-expression match. |
| Routing.MatchesAtComplete | backend/routing.py:9-14 | Any full-match prefix of a pattern whose tail does not start with whitespace is found by the greedy matcher. |
| Routing.SearchSound | backend/routing.py:24 | Whatever the matcher finds, `re.search` would find. |
| Routing.SearchComplete | backend/routing.py:24 | Whatever `re.search` would find at any position, the matcher finds. |
| Routing.SearchIff | backend/routing.py:24 | The matcher and the regular-expression reading agree on every text. |
| Routing.RedundantPatterns | backend/routing.py:9-14 | Dropping `platformai` and `tokenai` changes no answer, since `\s*` matches zero characters. |
| Routing.ShouldUseRag | backend/routing.py:18-24 | `should_use_rag` answers yes exactly when the lowered question (empty for none) mentions a product in the regular-expression reading: `platform`/`token`, any whitespace, then `ai`, or `platform.ai`/`token.ai`. |
| Routing.ShouldUseRagMeaning | backend/routing.py:9-12 | The answer is yes exactly when the lowered question contains `platform`/`token`, any whitespace, then `ai`, or contains `platform.ai`/`token.ai`. |
| Routing.NoQuestionNoRag | backend/routing.py:23 | A missing or empty question is never routed. |
| Routing.CaseInsensitive | backend/routing.py:23 | A question and its lowered form get the same answer. |
| Routing.RagUnanchored | backend/routing.py:24 | A routed question stays routed with any text added before and after it. |
| Routing.NeedsKeyword | backend/routing.py:8-15 | A question that contains neither `platform` nor `token`, in any case, is not routed. |
| Routing.DocumentedVariants | backend/routing.py:7 | All six documented spellings are routed: platformai, platform ai, platform.ai, tokenai, token ai, token.ai. |
| Routing.RoutedExamples | backend/routing.py:18-24 | Mixed-case questions that mention a product among other words are routed. |
| Routing.UnroutedExample | backend/routing.py:18-24 | A question about the weather is not routed. |
| Api.ModelFor | backend/main.py:19-24 | The model is the explicit setting when present. Otherwise it is `kimi-k2-instruct` for Kimi and `qwen2.5-7b-instruct` for every other provider. |
| Api.Startup | backend/main.py:16-39 | Startup fails exactly when the selected provider is DashScope or Kimi and its key is unset or empty, naming that key. On success the settings are those read from the environment, and the selected provider's key is non-empty. |
| Api.ProviderCaseInsensitive | backend/main.py:16 | The provider setting is read case-insensitively. |
| Api.EmptyEnvironment | backend/main.py:16-37 | With nothing set, DashScope is selected and startup fails for want of `DASHSCOPE_API_KEY`. |
| Api.ParseOrigins | backend/main.py:49 | Every origin is non-empty, stripped and free of commas. |
| Api.ParseOriginsPiece | backend/main.py:49 | A comma-free setting gives no origin when it is all whitespace, and otherwise exactly its stripped form. |
| Api.ParseOriginsJoin | backend/main.py:49 | Clean origins joined by commas parse back to exactly themselves, in order. |
| Api.ParseOriginsAppend | backend/main.py:49 | Parsing `a,b` gives the origins of `a` followed by those of `b`. |
| Api.ParseOriginsIdempotent | backend/main.py:49 | Re-joining and re-parsing a parsed origin list changes nothing. |
| Api.ConfigureCors | backend/main.py:44-58 | The origins are the parsed setting. Credentials are on exactly when the lowered setting is `1`, `true` or `yes` and the origins are not exactly `["*"]`. The origin regex is passed on only when it is non-empty. |
| Api.WildcardAlone | backend/main.py:52 | A setting of `*` alone parses to `["*"]`, the case that switches credentials off. |
| Api.WildcardAmongOthers | backend/main.py:52 | A `*` in front of a setting with at least one origin parses to `*` followed by those origins, which is not `["*"]`, so credentials stay on. |
| Api.TwoOrigins | backend/main.py:49 | Two clean origins around a comma parse to exactly those two. |
| Api.DefaultOrigins | backend/main.py:44-49 | With nothing set, the origins are `http://localhost:5173` and `http://localhost:3000`. |
| Api.DefaultCredentials | backend/main.py:46-48 | The default `true`, and `TRUE` or `Yes`, allow credentials, and `false` or empty do not. |
| Api.Dispatch | backend/main.py:88-101 | DashScope and Kimi each get their own base URL plus `/chat/completions` and a bearer header with their own key. Any other provider is a 500 naming it. |
| Api.StartupThenDispatch | backend/main.py:36-99 | After a successful startup with DashScope or Kimi, dispatch succeeds and the bearer header carries a non-empty key. |
| Api.UnknownProviderStarts | backend/main.py:36-101 | An unknown provider, including an empty `PROVIDER`, passes the startup check, and dispatch then fails with a 500 naming it, so every non-blank question ends in that 500. |
| Api.AssembleMessages | backend/main.py:103-106 | The last message is always the user question. There are two messages, the first being the system context, exactly when the context is truthy. Otherwise the question is the only message. |
| Api.Member | backend/main.py:120 | Indexing by key succeeds exactly on a JSON object holding that key, and then yields the value stored under it. |
| Api.First | backend/main.py:120 | Indexing by 0 succeeds exactly on a non-empty array or string, and then yields the array's first item or the string's first character as a one-character string. |
| Api.ChoiceContent | backend/main.py:120 | `data["choices"][0]["message"]["content"]` succeeds exactly when `choices` is a non-empty array whose first item is an object holding a `message` object with `content`, and it yields that content. A string `choices` fails. |
| Api.Interpret | backend/main.py:116-122 | A non-200 reply is an error with that status and the body text. A reply succeeds exactly when it is a 200 whose JSON has `choices[0].message.content`, and it yields that content. Every other 200 reply is a 500. |
| Api.InterpretChatReply | backend/main.py:118-120 | A well-formed chat reply yields exactly the content it carries. |
| Api.MalformedReplies | backend/main.py:118-122 | An object without choices, an empty choice list, and a body that is not JSON each end in a 500. |
| Api.ValidateQuestion | backend/main.py:127-128 | An empty or whitespace-only question is a 400 `question is required`. Any other question passes on stripped and non-empty. |
| Api.ValidateStripped | backend/main.py:127-130 | Validating the stripped question gives the same outcome as validating the question. |
| Api.CallChatCompletion | backend/main.py:88-122 | An unsupported provider sends nothing and fails with the dispatch error. Otherwise exactly one request goes to the provider's endpoint, with its bearer header, the configured model, `stream` false and the assembled messages, and the result is the reading of the reply to it. |
| Api.QaAsk | backend/main.py:88-131 | A blank question is a 400 and nothing is sent upstream. An unsupported provider sends nothing and fails with the dispatch error. Otherwise exactly one request is sent: to the provider's endpoint, with its bearer header and the configured model, stream off, the context unchanged as a system message when it is truthy, and the stripped, non-empty question as the last message. An error reading the reply is passed on unchanged; string content becomes the answer with the request's session id; any other content is a 500. Every answer is the string content of the reply to that one request. |

## Left out

- `backend/vector_store.py` is not part of this model: the embedder is an HTTP call and the store a thin wrapper over chromadb.
- Fetching the page with httpx, stripping tags with BeautifulSoup and `get_text` (backend/import_url_to_vector.py:15-26) are not modelled. The extracted text is an input to `Ingest.PlanIngest`.
- `add_to_vector`'s POST, `print` output and `sys.argv` handling are not modelled.
- `uuid.uuid4()` is not modelled. It is the parameter `newId`, and distinctness of ids is stated only under the hypothesis that it never repeats.
- `urlparse` is not modelled. Host and path are inputs.
- Environment loading (`load_dotenv`, `os.getenv`) is an input record. An unset variable is `None`, and one set to empty is `Some("")`.
- `PORT` (backend/main.py:25) is not modelled. The settings record has no port.
- Api.Startup: a `PORT` that is not an integer makes `int()` raise at import, and that failure is not modelled.
- The `/api/health` route (backend/main.py:77-79) is not modelled. It returns the status `ok` with `MODEL` and `PROVIDER`.
- FastAPI routing, the CORS middleware's own behaviour, async execution and HTTP timeouts are not modelled. The middleware's inputs (`Api.Cors`) are modelled.
- Api.CallChatCompletion and Api.QaAsk: httpx connection and transport failures, which escape as an uncaught exception and so a 500, are not modelled. The `post` parameter is total and always returns a reply.
- pydantic's request parsing is not modelled. A missing or null `question` is rejected with 422 before the handler runs, so the question is a `string`.
- Api.QaAsk: a non-string `content` in the reply is modelled as an uncaught failure (500). It does not model the response model's own coercion rules.
- Api.Interpret: the `Unexpected response: {data}` detail carries the parsed JSON value rather than its Python rendering.
- Api.Startup: the error carries only the missing variable's name, not the full `RuntimeError` message text.
- The `temperature: 0.7` value and JSON floats are not modelled, so `Api.Json` numbers are integers.
- The `Content-Type` header is not modelled; it is constant.
- Text.LowerSound: only ASCII letters are lowered. Python's full Unicode case mapping is not modelled.
- Routes the code does not define, such as `/api/vector/add` and `/api/vector/search`, and retrieval-augmented context assembly, are not modelled.

# open-llm-server request core, modelled in Dafny

This project models the sequential core of a small HTTP service that puts
OpenAI-style endpoints in front of pretrained Hugging Face models:

- the **model registry** (`model_cache` and `get_model_and_tokenizer`): a
  module-level dictionary from model identifier to the `(tokenizer, model)`
  pair loaded for it, filled on first use and never evicted;
- **embedding generation** (`generate_embeddings`): a fresh tokenizer and
  encoder per call, then a loop over the inputs that skips an input whose
  pooled output has no rows, tags each surviving entry with the input's
  position, and falls back to a base 64 encode-then-decode of the raw buffer
  when `tolist()` raises;
- the **embeddings endpoint** (`create_embeddings`): scalar-or-list input
  turned into a list of strings, usage counted as whitespace-separated words,
  every exception (including a missing `input` or `model` key) mapped to
  HTTP 500;
- the **chat completions endpoint** (`create_chat_completion`): request
  defaults, the role-prefixed transcript, the generation cap
  `max_tokens + prompt length`, and exactly `n` choices whose text is the
  decoded sequence with the first `len(transcript)` characters sliced off.

The same code exists twice in the repository: `src/app.py` (lines 38-163) and
the split-up `src/models/ml_models.py`, `src/api/endpoints/chat.py` and
`src/api/endpoints/embeddings.py`. The two copies agree line for line; one
model covers both, and the table cites whichever copy reads best.

The ML runtime is foreign. `from_pretrained` is `MlRuntime.ModelHub`, a class
that knows which artifacts the hub serves and counts fetches (each handle
records the fetch that produced it, so a fresh load is distinguishable from a
cached pair). Tokenisation plus the encoder forward pass, `tokenizer.encode`,
`model.generate` and `tokenizer.decode` are uninterpreted functions in a
`MlRuntime.Runtime` value; each returns a `Result` whose failure stands for
the exception it may raise.

Files: `wrappers.dfy` (Option, Result), `base64.dfy` (RFC 4648 section 4),
`py_values.dfy` (JSON scalars, `str()`, `KeyError` text, HTTP errors),
`ml_runtime.dfy`, `registry.dfy`, `embedding.dfy`, `words.dfy`
(`str.split()` word count), `embeddings_api.dfy`, `chat.dfy`.

Where the repository's tests expect something other than what the code does,
the model follows the code:

- tests/test_chat.py:36 expects 422 for a chat request whose `messages` list
  is empty. `messages: List[dict]` (src/api/endpoints/chat.py:12) accepts an
  empty list, so the request validates with the defaults
  (`Chat.OmittedFieldsDefault`).
- tests/test_embeddings.py:34 expects 422 for an embeddings request without
  `model`. The body is a plain `dict` (src/api/endpoints/embeddings.py:8), so
  the missing key raises `KeyError` inside the `try` and becomes a 500
  (src/api/endpoints/embeddings.py:31-33; `EmbeddingsApi.CreateEmbeddings`).

Two further points of the code that the model keeps as written:

- The choice text slices off `len(transcript)` characters (src/app.py:155).
  The slice checks only the length, so a continuation that repeats the
  transcript keeps it (`Chat.StripTranscript`).
- Usage is counted over the `str()`-normalised list (src/app.py:94-102).

## Model

| member | source | states |
|---|---|---|
| `Base64.Encode` | src/models/ml_models.py:50 | `b64encode` output is 4 characters per started group of 3 bytes |
| `Base64.EncodeAlphabet` | src/models/ml_models.py:50 | every output character is from the RFC 4648 alphabet or is `=`, and `=` appears only in the last two positions |
| `Base64.Decode` | src/models/ml_models.py:51 | strict `b64decode`: a successful decode yields at most 3 bytes per 4 characters |
| `Base64.DecodeEncode` | src/models/ml_models.py:50-51 | the fallback's encode-then-decode gives back exactly the raw buffer, for every byte sequence |
| `PyValues.Str` | src/api/endpoints/embeddings.py:14-16 | `str()` returns a string input unchanged |
| `PyValues.AsHttp` | src/api/endpoints/embeddings.py:31-33 | `except Exception as e: raise HTTPException(500, str(e))`: values pass, every exception becomes a 500 carrying its message |
| `MlRuntime.ModelHub.FromPretrained` | src/models/ml_models.py:14-15 | each `from_pretrained` is one fetch; it returns a handle for the requested identifier and kind, or raises for an artifact the hub does not serve |
| `MlRuntime.ModelHub.FromPretrainedNonString` | src/models/ml_models.py:23 | `from_pretrained` called with a non-string identifier is still one fetch, and it raises the path-type error |
| `Registry.ModelCache.constructor` | src/models/ml_models.py:9 | the cache starts empty with no loads |
| `Registry.ModelCache.GetModelAndTokenizer` | src/models/ml_models.py:11-19 | hit: the cached pair, cache and hub untouched, no load; miss: one load attempt, and on success exactly `name` is added with the freshly fetched pair while every other key keeps its value; on failure nothing is cached; the cache only grows and every entry holds the pair loaded for its own key |
| `Registry.ResolveTwice` | src/app.py:40-48 | after a successful resolution, resolving the same name again is a hit: same pair, no further load; when the first call missed, the two calls together made exactly one load and two hub fetches |
| `Embedding.EmbedFailurePersists` | src/models/ml_models.py:38-40 | an exception in one forward pass aborts the batch: no later input changes the outcome |
| `Embedding.EmbedFailsOnFirstError` | src/models/ml_models.py:29-40 | the batch succeeds iff no forward pass raises; otherwise it carries the first input's exception |
| `Embedding.EmbedIndicesIncrease` | src/models/ml_models.py:28-56 | at most one entry per input; indices lie in `[0, len(inputs))` and strictly increase |
| `Embedding.EmbedEntriesMatchInputs` | src/models/ml_models.py:29-54 | each entry's `index` is the position of the input it was computed from, whose pooled output has rows and whose buffer the entry holds |
| `Embedding.EmbedSkipsOnlyEmpty` | src/models/ml_models.py:42-44 | an input is skipped only when its pooled output has zero rows; every later input with rows still gets its entry |
| `Embedding.EmbedBatch` | src/models/ml_models.py:28-56 | the `for`/`continue` loop with the `tolist()`/base 64 fallback computes exactly the specified entries, with bounded, strictly increasing indices |
| `Embedding.GenerateEmbeddings` | src/app.py:50-85 | every call fetches tokenizer and encoder afresh (the registry is not used), fails if either is unavailable, else runs the batch with those handles |
| `Words.NonSpaceMeansWord` | src/api/endpoints/embeddings.py:21 | a string with any non-whitespace character has at least one word |
| `Words.BlankHasNoWords` | src/api/endpoints/embeddings.py:21 | an all-whitespace string splits into no words |
| `Words.NoWordsIffBlank` | src/app.py:102 | `len(s.split()) == 0` exactly when `s` is all whitespace (Python's `isspace` set) |
| `Words.SingleWord` | src/api/endpoints/embeddings.py:21 | a non-empty run without whitespace is one word |
| `Words.WordCountConcat` | src/api/endpoints/embeddings.py:21 | word counts add up across a whitespace seam: runs are maximal |
| `EmbeddingsApi.NormalizeInput` | src/api/endpoints/embeddings.py:13-16 | a list becomes a same-length, same-order list of `str()` values (strings unchanged); anything else becomes a one-element list |
| `EmbeddingsApi.TotalTokensConcat` | src/api/endpoints/embeddings.py:21 | `total_tokens` is a sum over the inputs: it adds up across a split of the list |
| `EmbeddingsApi.TotalTokensZeroIffBlank` | src/app.py:102 | `total_tokens` is 0 exactly when every normalised input is blank |
| `EmbeddingsApi.CreateEmbeddings` | src/api/endpoints/embeddings.py:8-33 | missing `input`, then missing `model`, raise `KeyError` and give 500 with the key's repr, touching no hub; a `model` that is not a string is still handed to `from_pretrained`, which counts one fetch and raises, giving a 500; a model name that reaches the hub is fetched afresh on every request (one fetch, or two once the tokenizer loads); generation errors give 500 with their message; success gives `"object": "list"` (`objectKind`), the request's model, the generated entries in order, and `total_tokens` of the normalised inputs |
| `Chat.ParseChatRequest` | src/api/endpoints/chat.py:10-17 | `model` and `messages` are required (422 otherwise); `max_tokens` defaults to 150, `n` to 1, `stop` to None |
| `Chat.OmittedFieldsDefault` | src/app.py:116-123 | a body with only `model` and `messages`, even an empty list, validates with the defaults |
| `Chat.RolePrefix` | src/api/endpoints/chat.py:29 | the prefix is `"User: "` iff the role is exactly the string `"user"`; every other role, `"system"` included, gets `"Assistant: "` |
| `Chat.TranscriptAppend` | src/api/endpoints/chat.py:25-30 | the transcript of concatenated message lists is the concatenation of their transcripts, the first exception winning |
| `Chat.SingleTranscript` | src/app.py:131-136 | one message's transcript is its line: prefix, content, newline |
| `Chat.RenderTranscript` | src/api/endpoints/chat.py:25-30 | the `+=` loop yields the in-order concatenation of the lines (`""` for no messages), or the exception of the first malformed message |
| `Chat.SliceFrom` | src/api/endpoints/chat.py:49 | `s[k:]` has `len(s) - k` characters (none when `s` is shorter) and they are those of `s` from `k` on |
| `Chat.StripTranscript` | src/app.py:155 | when the decoded text starts with the transcript, the choice text is the rest and transcript + text is the decoded text; the rest may itself repeat the transcript |
| `Chat.ChoicesFailurePersists` | src/api/endpoints/chat.py:46-50 | once decoding raises, no choices are returned |
| `Chat.ChoicesShape` | src/api/endpoints/chat.py:46-50 | `c` choices come back iff at least `c` sequences exist and all decode; choice `i` has index `i` and text `decode(outputs[i])[len(conversation):]` |
| `Chat.BuildChoices` | src/api/endpoints/chat.py:46-50 | the `range(n)` loop yields exactly `max(n, 0)` choices, indices `0..n-1` in order, as specified |
| `Chat.CompletionChoices` | src/api/endpoints/chat.py:32-50 | a successful completion rendered the transcript, asked `generate` for `n` sampled sequences with `max_length = max_tokens + prompt length`, and returns exactly `n` choices built from them |
| `Chat.CreateChatCompletion` | src/api/endpoints/chat.py:20-57 | resolution through the registry: a hit leaves cache, load count and hub untouched; a miss is one load (one or two fetches) that adds exactly `data.model`, mapped to the freshly fetched pair, when both artifacts load, and leaves the cache as it was otherwise; an unavailable model or any later exception is a 500 with its message and no partial choices; otherwise the specified completion |

## Left out

- The ML runtime itself: loading, tokenisation, the forward pass, `generate` and `decode` are uninterpreted; only their success or failure and their results' shape are used.
- Embedding values: the float32 reinterpretation by `np.frombuffer` and `tolist()` are not modelled; an entry holds the raw byte buffer it is read from. So the `ValueError` that `np.frombuffer(..., dtype=np.float32)` raises on a buffer whose length is not a multiple of 4 (src/models/ml_models.py:52), which would abort the batch with a 500, is not modelled either: the fallback always succeeds.
- Sampling parameters `temperature` and `top_p`, and the pad/EOS token ids passed to `generate`, are foreign and not carried in `GenerationConfig`.
- `stop` is validated and then unused by the code; the model keeps it in the input and ignores it likewise.
- Device placement (`torch.cuda.is_available()`, `.to('cuda')`) has no observable effect on the modelled results.
- The hub credential (`use_auth_token`) is folded into which artifacts `ModelHub` serves.
- MlRuntime.ModelHub.FromPretrained: whether a fetch succeeds is fixed per artifact (identifier and kind) for the hub's whole life, because `published` is constant. A `from_pretrained` that raises on one request (a network or authentication failure) and succeeds on a later one, after which the registry would cache the pair, is not expressed.
- Exception texts raised by foreign code are stand-ins with the same status code: `MlRuntime.Unavailable`, `MlRuntime.NotAModelPath`, `Chat.ConcatError`, `Chat.IndexOutOfRange`, `Chat.FieldRequired`.
- `str()` of a non-string JSON value (number, boolean, null, object, nested list) is carried with the value as its rendered text rather than computed.
- Request validation beyond the presence of `model` and `messages` (pydantic's type coercion and type errors) is not modelled.
- `Base64.Decode` is the strict decoder; Python's lenient treatment of malformed input (discarding non-alphabet characters) is not modelled, since the decoder only ever sees the encoder's output.
- The re-stringification of non-string inputs inside `generate_embeddings` is not modelled: its callers already pass strings.
- Logging calls.
- Concurrency: the unguarded race on `model_cache` between concurrent first requests; the model is sequential.
- The GPU status endpoint (src/app.py:21-36), the metrics endpoint, the process launchers, the llama.cpp `app.py`, configuration, routing, `setup.py`, and the fine-tune endpoint, whose `fine_tune_model` is not defined anywhere in the repository.

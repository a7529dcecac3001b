/**
 * The `POST /v1/embeddings` handler: read `input` and `model` from the body,
 * turn the input into a list of strings, generate the embeddings, count the
 * whitespace-separated words as usage, and map any exception to HTTP 500.
 */
module EmbeddingsApi {
  import opened Wrappers
  import opened PyValues
  import opened MlRuntime
  import opened Words
  import opened Embedding

  /** The `input` field: a JSON list, or any single value. */
  datatype InputValue = Many(items: seq<JsonValue>) | One(item: JsonValue)

  /** The request body (a plain `dict`): each field is present or missing. */
  datatype EmbeddingRequest = EmbeddingRequest(input: Option<InputValue>, model: Option<JsonValue>)

  datatype Usage = Usage(totalTokens: nat)

  /** The response body; `objectKind` is its JSON key `"object"`. */
  datatype EmbeddingsResponse = EmbeddingsResponse(objectKind: string, data: seq<EmbeddingResult>, model: string, usage: Usage)

  /** `[str(x) for x in inputs]` for a list, `[str(inputs)]` for anything else. */
  function NormalizeInput(v: InputValue): (r: seq<string>)
    ensures v.Many? ==> |r| == |v.items| && forall i | 0 <= i < |r| :: r[i] == Str(v.items[i])
    ensures v.Many? ==> forall i | 0 <= i < |r| && v.items[i].SString? :: r[i] == v.items[i].s
    ensures v.One? ==> r == [Str(v.item)]
  {
    match v
    case Many(items) => seq(|items|, i requires 0 <= i < |items| => Str(items[i]))
    case One(item) => [Str(item)]
  }

  /** `sum(len(t.split()) for t in inputs)`. */
  function TotalTokens(inputs: seq<string>): nat
    decreases |inputs|
  {
    if |inputs| == 0 then 0 else WordCount(inputs[0]) + TotalTokens(inputs[1..])
  }

  /** The usage count of a batch is the sum of the counts of its parts. */
  lemma {:induction false} TotalTokensConcat(a: seq<string>, b: seq<string>)
    ensures TotalTokens(a + b) == TotalTokens(a) + TotalTokens(b)
    decreases |a|
  {
    if |a| == 0 {
      assert a + b == b;
    } else {
      TotalTokensConcat(a[1..], b);
      assert (a + b)[1..] == a[1..] + b;
    }
  }

  /** The usage count is zero exactly when every input is blank. */
  lemma {:induction false} TotalTokensZeroIffBlank(inputs: seq<string>)
    ensures TotalTokens(inputs) == 0 <==>
            forall k, i | 0 <= k < |inputs| && 0 <= i < |inputs[k]| :: IsSpace(inputs[k][i])
    decreases |inputs|
  {
    if |inputs| > 0 {
      TotalTokensZeroIffBlank(inputs[1..]);
      NoWordsIffBlank(inputs[0]);
      assert forall k | 1 <= k < |inputs| :: inputs[k] == inputs[1..][k - 1];
    }
  }

  /**
   * `create_embeddings(data)`. A missing `input` or `model` key raises a
   * `KeyError` inside the `try`, which becomes a 500; so does any failure of
   * `generate_embeddings`. On success the response echoes the model and carries
   * the entries in the order `generate_embeddings` produced them.
   */
  method CreateEmbeddings(request: EmbeddingRequest, hub: ModelHub, rt: Runtime)
    returns (r: Result<EmbeddingsResponse, HttpError>)
    modifies hub
    ensures r.Failure? ==> r.error.status == InternalServerError
    ensures request.input.None? ==> r == Failure(HttpError(InternalServerError, KeyErrorText("input"))) && unchanged(hub)
    ensures request.input.Some? && request.model.None? ==>
            r == Failure(HttpError(InternalServerError, KeyErrorText("model"))) && unchanged(hub)
    ensures request.input.Some? && request.model.Some? && request.model.value.SOther? ==>
            r == Failure(HttpError(InternalServerError, NotAModelPath)) && hub.fetches == old(hub.fetches) + 1
    ensures request.input.Some? && request.model.Some? && request.model.value.SString? ==>
            var name := request.model.value.s;
            var inputs := NormalizeInput(request.input.value);
            var tok := ArtifactId(name, Tokenizer);
            var enc := ArtifactId(name, Encoder);
            && hub.fetches == old(hub.fetches) + (if tok in hub.published then 2 else 1)
            && (if tok in hub.published && enc in hub.published then
                  var generated := EmbedPrefix(inputs, rt, Handle(tok, old(hub.fetches)), Handle(enc, old(hub.fetches) + 1), |inputs|);
                  && (r.Success? <==> generated.Success?)
                  && (r.Failure? ==> r.error.detail == generated.error)
                  && (r.Success? ==> r.value == EmbeddingsResponse("list", generated.value, name, Usage(TotalTokens(inputs))))
                else
                  r == Failure(HttpError(InternalServerError, Unavailable(name))))
  {
    if request.input.None? {
      return Failure(HttpError(InternalServerError, KeyErrorText("input")));
    }
    if request.model.None? {
      return Failure(HttpError(InternalServerError, KeyErrorText("model")));
    }
    if request.model.value.SOther? {
      var tokenizer := hub.FromPretrainedNonString(Tokenizer);
      return Failure(HttpError(InternalServerError, tokenizer.error));
    }
    var modelName := request.model.value.s;
    var inputs := NormalizeInput(request.input.value);
    var embeddings := GenerateEmbeddings(inputs, modelName, hub, rt);
    if embeddings.Failure? {
      return Failure(HttpError(InternalServerError, embeddings.error));
    }
    var usage := Usage(TotalTokens(inputs));
    r := Success(EmbeddingsResponse("list", embeddings.value, modelName, usage));
  }
}

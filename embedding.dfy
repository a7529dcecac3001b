/**
 * `generate_embeddings`: load a tokenizer and an encoder (afresh, without the
 * registry), then walk the inputs in order; an input whose pooled output has
 * no rows is skipped, every other one yields an entry tagged with its position
 * in the input list. The embedding values are represented by the raw float32
 * buffer they are read from.
 */
module Embedding {
  import opened Wrappers
  import opened Base64
  import opened MlRuntime

  /** One `{"embedding": ..., "index": i}` entry. */
  datatype EmbeddingResult = EmbeddingResult(embedding: seq<Byte>, index: nat)

  /** The entries, or the first exception, after the first `n` inputs have been processed. */
  function EmbedPrefix(inputs: seq<string>, rt: Runtime, tok: Handle, enc: Handle, n: nat): Result<seq<EmbeddingResult>, string>
    requires n <= |inputs|
  {
    if n == 0 then Success([])
    else
      var acc :- EmbedPrefix(inputs, rt, tok, enc, n - 1);
      var pooled :- rt.forward(tok, enc, inputs[n - 1]);
      if pooled.rows == 0 then Success(acc)
      else Success(acc + [EmbeddingResult(pooled.raw, n - 1)])
  }

  /** Once an input has raised, the batch stays failed with that exception. */
  lemma {:induction false} EmbedFailurePersists(inputs: seq<string>, rt: Runtime, tok: Handle, enc: Handle, n: nat, m: nat)
    requires n <= m <= |inputs|
    requires EmbedPrefix(inputs, rt, tok, enc, n).Failure?
    ensures EmbedPrefix(inputs, rt, tok, enc, m) == EmbedPrefix(inputs, rt, tok, enc, n)
    decreases m
  {
    if m > n {
      EmbedFailurePersists(inputs, rt, tok, enc, n, m - 1);
    }
  }

  /** The batch succeeds exactly when no forward pass raises; otherwise it carries the first exception. */
  lemma {:induction false} EmbedFailsOnFirstError(inputs: seq<string>, rt: Runtime, tok: Handle, enc: Handle, n: nat)
    requires n <= |inputs|
    ensures EmbedPrefix(inputs, rt, tok, enc, n).Success? <==>
            forall i | 0 <= i < n :: rt.forward(tok, enc, inputs[i]).Success?
    ensures EmbedPrefix(inputs, rt, tok, enc, n).Failure? ==>
            exists i | 0 <= i < n :: rt.forward(tok, enc, inputs[i]) == Failure(EmbedPrefix(inputs, rt, tok, enc, n).error)
                                  && forall k | 0 <= k < i :: rt.forward(tok, enc, inputs[k]).Success?
  {
    if n > 0 {
      EmbedFailsOnFirstError(inputs, rt, tok, enc, n - 1);
    }
  }

  /** Indices are positions in the input, strictly increasing, so there are at most `n` entries. */
  lemma {:induction false} EmbedIndicesIncrease(inputs: seq<string>, rt: Runtime, tok: Handle, enc: Handle, n: nat)
    requires n <= |inputs|
    requires EmbedPrefix(inputs, rt, tok, enc, n).Success?
    ensures var es := EmbedPrefix(inputs, rt, tok, enc, n).value;
            && |es| <= n
            && (forall j | 0 <= j < |es| :: es[j].index < n)
            && (forall j, k | 0 <= j < k < |es| :: es[j].index < es[k].index)
  {
    if n > 0 {
      EmbedIndicesIncrease(inputs, rt, tok, enc, n - 1);
    }
  }

  /**
   * Each entry was computed from the input at its `index` (not from its position
   * in the output): that input's pooled output has rows, and the entry holds its buffer.
   */
  lemma {:induction false} EmbedEntriesMatchInputs(inputs: seq<string>, rt: Runtime, tok: Handle, enc: Handle, n: nat)
    requires n <= |inputs|
    requires EmbedPrefix(inputs, rt, tok, enc, n).Success?
    ensures var es := EmbedPrefix(inputs, rt, tok, enc, n).value;
            forall j | 0 <= j < |es| ::
              && es[j].index < n
              && rt.forward(tok, enc, inputs[es[j].index]).Success?
              && rt.forward(tok, enc, inputs[es[j].index]).value.rows > 0
              && rt.forward(tok, enc, inputs[es[j].index]).value.raw == es[j].embedding
  {
    if n > 0 {
      EmbedEntriesMatchInputs(inputs, rt, tok, enc, n - 1);
    }
  }

  /** Only empty outputs are dropped: every input whose pooled output has rows has an entry. */
  lemma {:induction false} EmbedSkipsOnlyEmpty(inputs: seq<string>, rt: Runtime, tok: Handle, enc: Handle, n: nat)
    requires n <= |inputs|
    requires EmbedPrefix(inputs, rt, tok, enc, n).Success?
    ensures var es := EmbedPrefix(inputs, rt, tok, enc, n).value;
            forall i | 0 <= i < n && rt.forward(tok, enc, inputs[i]).Success? && rt.forward(tok, enc, inputs[i]).value.rows > 0 ::
              exists j | 0 <= j < |es| :: es[j].index == i
  {
    if n > 0 {
      EmbedSkipsOnlyEmpty(inputs, rt, tok, enc, n - 1);
      var es := EmbedPrefix(inputs, rt, tok, enc, n).value;
      var prior := EmbedPrefix(inputs, rt, tok, enc, n - 1).value;
      assert es[..|prior|] == prior;
      forall i | 0 <= i < n && rt.forward(tok, enc, inputs[i]).Success? && rt.forward(tok, enc, inputs[i]).value.rows > 0
        ensures exists j | 0 <= j < |es| :: es[j].index == i
      {
        if i < n - 1 {
          var j :| 0 <= j < |prior| && prior[j].index == i;
          assert es[j] == prior[j];
        } else {
          assert es[|prior|].index == i;
        }
      }
    }
  }

  /**
   * The loop of `generate_embeddings` with the loaded handles: a forward pass
   * per input, `continue` on zero rows, and the `tolist()` conversion with its
   * base 64 fallback, which hands back the same buffer.
   */
  method EmbedBatch(inputs: seq<string>, rt: Runtime, tok: Handle, enc: Handle) returns (r: Result<seq<EmbeddingResult>, string>)
    ensures r == EmbedPrefix(inputs, rt, tok, enc, |inputs|)
    ensures r.Success? ==>
            && |r.value| <= |inputs|
            && (forall j | 0 <= j < |r.value| :: r.value[j].index < |inputs|)
            && (forall j, k | 0 <= j < k < |r.value| :: r.value[j].index < r.value[k].index)
  {
    var embeddings: seq<EmbeddingResult> := [];
    for i := 0 to |inputs|
      invariant EmbedPrefix(inputs, rt, tok, enc, i) == Success(embeddings)
    {
      var outputs := rt.forward(tok, enc, inputs[i]);
      if outputs.Failure? {
        EmbedFailurePersists(inputs, rt, tok, enc, i + 1, |inputs|);
        return Failure(outputs.error);
      }
      var pooled := outputs.value;
      if pooled.rows == 0 {
        continue;
      }
      var embedding: seq<Byte>;
      if pooled.listable {
        embedding := pooled.raw;
      } else {
        var encoded := Encode(pooled.raw);
        DecodeEncode(pooled.raw);
        embedding := Decode(encoded).value;
      }
      embeddings := embeddings + [EmbeddingResult(embedding, i)];
    }
    EmbedIndicesIncrease(inputs, rt, tok, enc, |inputs|);
    r := Success(embeddings);
  }

  /**
   * `generate_embeddings(inputs, model_name)`: two fetches from the hub on every
   * call (the registry is not consulted), then the batch loop.
   */
  method GenerateEmbeddings(inputs: seq<string>, modelName: string, hub: ModelHub, rt: Runtime)
    returns (r: Result<seq<EmbeddingResult>, string>)
    modifies hub
    ensures ArtifactId(modelName, Tokenizer) !in hub.published ==>
            r == Failure(Unavailable(modelName)) && hub.fetches == old(hub.fetches) + 1
    ensures ArtifactId(modelName, Tokenizer) in hub.published && ArtifactId(modelName, Encoder) !in hub.published ==>
            r == Failure(Unavailable(modelName)) && hub.fetches == old(hub.fetches) + 2
    ensures ArtifactId(modelName, Tokenizer) in hub.published && ArtifactId(modelName, Encoder) in hub.published ==>
            && hub.fetches == old(hub.fetches) + 2
            && r == EmbedPrefix(inputs, rt, Handle(ArtifactId(modelName, Tokenizer), old(hub.fetches)),
                                Handle(ArtifactId(modelName, Encoder), old(hub.fetches) + 1), |inputs|)
  {
    var tokenizer :- hub.FromPretrained(modelName, Tokenizer);
    var model :- hub.FromPretrained(modelName, Encoder);
    r := EmbedBatch(inputs, rt, tokenizer, model);
  }
}

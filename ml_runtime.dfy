/**
 * The third-party ML runtime, seen only through its interface. Loading from the
 * model hub (`from_pretrained`) is a class whose state is the number of fetches
 * made so far, so that a fresh load is told apart from a cached one; the
 * tokenizer, the encoder forward pass, `generate` and `decode` are uninterpreted
 * functions carried in a `Runtime` value. Every foreign call may raise, so each
 * returns a `Result` whose failure is the exception's message.
 */
module MlRuntime {
  import opened Wrappers
  import opened Base64

  /** The three `Auto*` classes the service loads from: `AutoTokenizer`, `AutoModelForCausalLM`, `AutoModel`. */
  datatype Kind = Tokenizer | CausalLM | Encoder

  /** An artifact on the hub: a model identifier and the kind of object loaded from it. */
  datatype ArtifactId = ArtifactId(name: string, kind: Kind)

  /** An opaque loaded object: what it was loaded from, and which fetch produced it. */
  datatype Handle = Handle(id: ArtifactId, serial: nat)

  /** The `(tokenizer, model)` tuple the registry caches. */
  datatype Pair = Pair(tokenizer: Handle, model: Handle) {
    /** Both halves were loaded for the identifier `name`. */
    predicate LoadedFrom(name: string) {
      tokenizer.id == ArtifactId(name, Tokenizer) && model.id == ArtifactId(name, CausalLM)
    }
  }

  /** The message of the error `from_pretrained` raises for an identifier it cannot fetch. */
  function Unavailable(name: string): string {
    name + " is not a valid model identifier"
  }

  /** The message of the error `from_pretrained` raises for an identifier that is not a string. */
  const NotAModelPath: string := "expected str, bytes or os.PathLike object"

  /** The model hub (with the process's credential): which artifacts it serves, and how many fetches were made. */
  class ModelHub {
    const published: set<ArtifactId>
    var fetches: nat

    constructor (published: set<ArtifactId>)
      ensures this.published == published && fetches == 0
    {
      this.published := published;
      fetches := 0;
    }

    /** `Auto<kind>.from_pretrained(name, ...)`: every call is a fetch; it fails for an artifact the hub does not serve. */
    method FromPretrained(name: string, kind: Kind) returns (r: Result<Handle, string>)
      modifies this
      ensures fetches == old(fetches) + 1
      ensures ArtifactId(name, kind) in published ==> r == Success(Handle(ArtifactId(name, kind), old(fetches)))
      ensures ArtifactId(name, kind) !in published ==> r == Failure(Unavailable(name))
    {
      if ArtifactId(name, kind) in published {
        r := Success(Handle(ArtifactId(name, kind), fetches));
      } else {
        r := Failure(Unavailable(name));
      }
      fetches := fetches + 1;
    }

    /**
     * `Auto<kind>.from_pretrained(value, ...)` for a value that is not a string
     * (a number, a list, ...): the call is made, counted as a fetch, and raises.
     */
    method FromPretrainedNonString(kind: Kind) returns (r: Result<Handle, string>)
      modifies this
      ensures fetches == old(fetches) + 1
      ensures r == Failure(NotAModelPath)
    {
      r := Failure(NotAModelPath);
      fetches := fetches + 1;
    }
  }

  /**
   * The first-position pooled output of the encoder for one text: its number of
   * rows, its raw float32 buffer, and whether `tolist()` converts it (when it does
   * not, the handler takes the base 64 fallback).
   */
  datatype Pooled = Pooled(rows: nat, raw: seq<Byte>, listable: bool)

  /** The arguments the chat handler passes to `generate` (sampling parameters aside). */
  datatype GenerationConfig = GenerationConfig(maxLength: int, numReturnSequences: int, doSample: bool)

  /** The foreign calls, as functions of the loaded handles. */
  datatype Runtime = Runtime(
    /** Tokenize a text and run the encoder forward pass on it. */
    forward: (Handle, Handle, string) -> Result<Pooled, string>,
    /** `tokenizer.encode(text)`: the prompt's token ids. */
    encode: (Handle, string) -> Result<seq<int>, string>,
    /** `model.generate(input_ids, ...)`: the generated sequences of token ids. */
    generate: (Handle, seq<int>, GenerationConfig) -> Result<seq<seq<int>>, string>,
    /** `tokenizer.decode(ids, skip_special_tokens=True)`. */
    decode: (Handle, seq<int>) -> Result<string, string>
  )
}

/**
 * The `POST /v1/chat/completions` handler: validate the body against
 * `ChatCompletionInput`, resolve the model through the registry, render the
 * messages as a transcript, generate `n` sequences capped at `max_tokens`
 * tokens past the prompt, and return each decoded sequence with the first
 * `len(transcript)` characters sliced off.
 */
module Chat {
  import opened Wrappers
  import opened PyValues
  import opened MlRuntime
  import opened Registry

  /** One element of `messages`: a dict from keys to JSON values. */
  type Message = map<string, JsonValue>

  /** `stop: Union[str, List[str], None]`. */
  datatype Stop = NoStop | StopText(s: string) | StopList(items: seq<string>)

  /** The request body before validation: each field present or omitted. */
  datatype ChatRequestBody = ChatRequestBody(
    model: Option<string>,
    messages: Option<seq<Message>>,
    maxTokens: Option<int>,
    n: Option<int>,
    stop: Option<Stop>)

  /** `ChatCompletionInput` after validation (sampling temperature and top-p aside). */
  datatype ChatCompletionInput = ChatCompletionInput(model: string, messages: seq<Message>, maxTokens: int, n: int, stop: Stop)

  datatype Choice = Choice(index: nat, text: string)

  const DefaultMaxTokens: int := 150
  const DefaultN: int := 1
  const FieldRequired: string := "field required"
  /** The `TypeError` raised when a message's content is not a string. */
  const ConcatError: string := "can only concatenate str (not another type) to str"
  /** The `IndexError` raised when fewer than `n` sequences come back. */
  const IndexOutOfRange: string := "index out of range"

  /**
   * Request validation: `model` and `messages` are required (a missing one is
   * a 422, an empty `messages` list is accepted); the other fields default to
   * `max_tokens = 150`, `n = 1`, `stop = None`.
   */
  function ParseChatRequest(body: ChatRequestBody): (r: Result<ChatCompletionInput, HttpError>)
    ensures r.Success? <==> body.model.Some? && body.messages.Some?
    ensures r.Failure? ==> r.error == HttpError(UnprocessableEntity, FieldRequired)
    ensures r.Success? ==> r.value.model == body.model.value && r.value.messages == body.messages.value
    ensures r.Success? ==> r.value.maxTokens == if body.maxTokens.Some? then body.maxTokens.value else 150
    ensures r.Success? ==> r.value.n == if body.n.Some? then body.n.value else 1
    ensures r.Success? ==> r.value.stop == if body.stop.Some? then body.stop.value else NoStop
  {
    if body.model.None? || body.messages.None? then Failure(HttpError(UnprocessableEntity, FieldRequired))
    else
      var maxTokens := match body.maxTokens case Some(m) => m case None => DefaultMaxTokens;
      var n := match body.n case Some(k) => k case None => DefaultN;
      var stop := match body.stop case Some(s) => s case None => NoStop;
      Success(ChatCompletionInput(body.model.value, body.messages.value, maxTokens, n, stop))
  }

  /** A body with only `model` and `messages` (even an empty list) validates, with the defaults filled in. */
  lemma OmittedFieldsDefault(model: string, messages: seq<Message>)
    ensures ParseChatRequest(ChatRequestBody(Some(model), Some(messages), None, None, None))
            == Success(ChatCompletionInput(model, messages, 150, 1, NoStop))
  {
  }

  /** The prefix of a message line: only the role that is exactly the string `"user"` is the user. */
  function RolePrefix(role: JsonValue): (p: string)
    ensures p == "User: " <==> role == SString("user")
    ensures p != "User: " ==> p == "Assistant: "
  {
    if role == SString("user") then "User: " else "Assistant: "
  }

  /** One message's line of the transcript, or the exception that reading it raises. */
  function Line(m: Message): Result<string, string> {
    if "role" !in m then Failure(KeyErrorText("role"))
    else if "content" !in m then Failure(KeyErrorText("content"))
    else match m["content"]
      case SOther(_) => Failure(ConcatError)
      case SString(content) => Success(RolePrefix(m["role"]) + content + "\n")
  }

  /** Concatenate two pieces of text, the first exception winning. */
  function Then(x: Result<string, string>, y: Result<string, string>): Result<string, string> {
    var a :- x;
    var b :- y;
    Success(a + b)
  }

  /** The transcript: the lines of the messages, in order; `""` for no messages. */
  function Transcript(messages: seq<Message>): Result<string, string>
    decreases |messages|
  {
    if |messages| == 0 then Success("")
    else Then(Line(messages[0]), Transcript(messages[1..]))
  }

  /** Concatenation with the first exception winning is associative. */
  lemma ThenAssociative(x: Result<string, string>, y: Result<string, string>, z: Result<string, string>)
    ensures Then(x, Then(y, z)) == Then(Then(x, y), z)
  {
    if x.Success? && y.Success? && z.Success? {
      assert x.value + (y.value + z.value) == (x.value + y.value) + z.value;
    }
  }

  /** The first message and the rest of a concatenation come from its first part when that is non-empty. */
  lemma ConsAppend(a: seq<Message>, b: seq<Message>)
    requires |a| > 0
    ensures (a + b)[0] == a[0] && (a + b)[1..] == a[1..] + b
  {
  }

  /** Rendering a split list of messages is rendering each part and concatenating. */
  lemma {:induction false} TranscriptAppend(a: seq<Message>, b: seq<Message>)
    ensures Transcript(a + b) == Then(Transcript(a), Transcript(b))
    decreases |a|
  {
    if |a| == 0 {
      assert a + b == b;
      if Transcript(b).Success? {
        assert "" + Transcript(b).value == Transcript(b).value;
      }
    } else {
      TranscriptAppend(a[1..], b);
      ConsAppend(a, b);
      assert Transcript(a + b) == Then(Line(a[0]), Transcript(a[1..] + b));
      ThenAssociative(Line(a[0]), Transcript(a[1..]), Transcript(b));
    }
  }

  /** The transcript of one message is its line. */
  lemma SingleTranscript(m: Message)
    ensures Transcript([m]) == Line(m)
  {
    assert [m][1..] == [];
    if Line(m).Success? {
      assert Line(m).value + "" == Line(m).value;
    }
  }

  /** The loop that builds `conversation` with `+=`, message by message. */
  method RenderTranscript(messages: seq<Message>) returns (r: Result<string, string>)
    ensures r == Transcript(messages)
    ensures r.Success? && |messages| == 0 ==> r.value == ""
  {
    var conversation := "";
    for i := 0 to |messages|
      invariant Transcript(messages[..i]) == Success(conversation)
    {
      var message := messages[i];
      TranscriptAppend(messages[..i], messages[i..]);
      TranscriptAppend(messages[..i], [message]);
      assert messages[..i] + messages[i..] == messages;
      assert messages[..i] + [message] == messages[..i + 1];
      assert messages[i..] == [message] + messages[i + 1..];
      TranscriptAppend([message], messages[i + 1..]);
      SingleTranscript(message);
      if "role" !in message {
        return Failure(KeyErrorText("role"));
      }
      var role := message["role"];
      if "content" !in message {
        return Failure(KeyErrorText("content"));
      }
      var content := message["content"];
      var prefix := if role == SString("user") then "User: " else "Assistant: ";
      if content.SOther? {
        return Failure(ConcatError);
      }
      conversation := conversation + (prefix + content.s + "\n");
    }
    assert messages[..|messages|] == messages;
    r := Success(conversation);
  }

  /** Python's `s[k:]`: everything from position `k` on, or `""` when `s` is shorter than `k`. */
  function SliceFrom(s: string, k: nat): (r: string)
    ensures |r| == if k <= |s| then |s| - k else 0
    ensures forall j | 0 <= j < |r| :: r[j] == s[k + j]
  {
    if k <= |s| then s[k..] else ""
  }

  /**
   * Slicing by the transcript's length strips the transcript when the decoded
   * text starts with it; the continuation itself may start with the transcript
   * again, since only the length is checked.
   */
  lemma StripTranscript(conversation: string, continuation: string)
    ensures SliceFrom(conversation + continuation, |conversation|) == continuation
    ensures conversation + SliceFrom(conversation + continuation, |conversation|) == conversation + continuation
  {
    assert (conversation + continuation)[|conversation|..] == continuation;
  }

  /** `range(n)` has `n` elements, none when `n` is negative. */
  function NumChoices(n: int): nat {
    if n < 0 then 0 else n
  }

  /** The first `c` choices built from the generated sequences, or the first exception. */
  function Choices(outputs: seq<seq<int>>, c: nat, conversation: string, tok: Handle, rt: Runtime): Result<seq<Choice>, string>
    decreases c
  {
    if c == 0 then Success([])
    else
      var prior :- Choices(outputs, c - 1, conversation, tok, rt);
      if c - 1 >= |outputs| then Failure(IndexOutOfRange)
      else
        var decoded :- rt.decode(tok, outputs[c - 1]);
        Success(prior + [Choice(c - 1, SliceFrom(decoded, |conversation|))])
  }

  lemma {:induction false} ChoicesFailurePersists(outputs: seq<seq<int>>, c: nat, d: nat, conversation: string, tok: Handle, rt: Runtime)
    requires c <= d
    requires Choices(outputs, c, conversation, tok, rt).Failure?
    ensures Choices(outputs, d, conversation, tok, rt) == Choices(outputs, c, conversation, tok, rt)
    decreases d
  {
    if d > c {
      ChoicesFailurePersists(outputs, c, d - 1, conversation, tok, rt);
    }
  }

  /**
   * `c` choices come back exactly when there are at least `c` sequences and each
   * decodes; choice `i` then has index `i` and the `i`-th decoded text past the
   * transcript's length.
   */
  lemma {:induction false} ChoicesShape(outputs: seq<seq<int>>, c: nat, conversation: string, tok: Handle, rt: Runtime)
    ensures Choices(outputs, c, conversation, tok, rt).Success? <==>
            c <= |outputs| && forall i | 0 <= i < c :: rt.decode(tok, outputs[i]).Success?
    ensures Choices(outputs, c, conversation, tok, rt).Success? ==>
            var cs := Choices(outputs, c, conversation, tok, rt).value;
            && |cs| == c
            && forall i | 0 <= i < c ::
                 cs[i] == Choice(i, SliceFrom(rt.decode(tok, outputs[i]).value, |conversation|))
    decreases c
  {
    if c > 0 {
      ChoicesShape(outputs, c - 1, conversation, tok, rt);
    }
  }

  /** The loop `for i in range(n)` that decodes each sequence and appends its choice. */
  method BuildChoices(outputs: seq<seq<int>>, n: int, conversation: string, tok: Handle, rt: Runtime)
    returns (r: Result<seq<Choice>, string>)
    ensures r == Choices(outputs, NumChoices(n), conversation, tok, rt)
    ensures r.Success? ==> |r.value| == NumChoices(n) && forall i | 0 <= i < |r.value| :: r.value[i].index == i
  {
    var responses: seq<Choice> := [];
    for i := 0 to NumChoices(n)
      invariant Choices(outputs, i, conversation, tok, rt) == Success(responses)
    {
      if i >= |outputs| {
        ChoicesFailurePersists(outputs, i + 1, NumChoices(n), conversation, tok, rt);
        return Failure(IndexOutOfRange);
      }
      var decoded := rt.decode(tok, outputs[i]);
      if decoded.Failure? {
        ChoicesFailurePersists(outputs, i + 1, NumChoices(n), conversation, tok, rt);
        return Failure(decoded.error);
      }
      var responseText := SliceFrom(decoded.value, |conversation|);
      responses := responses + [Choice(i, responseText)];
    }
    ChoicesShape(outputs, NumChoices(n), conversation, tok, rt);
    r := Success(responses);
  }

  /** Everything after resolution, for a resolved `(tokenizer, model)` pair. */
  function Completion(pair: Pair, data: ChatCompletionInput, rt: Runtime): Result<seq<Choice>, string> {
    var conversation :- Transcript(data.messages);
    var inputIds :- rt.encode(pair.tokenizer, conversation);
    var outputs :- rt.generate(pair.model, inputIds, GenerationConfig(data.maxTokens + |inputIds|, data.n, true));
    Choices(outputs, NumChoices(data.n), conversation, pair.tokenizer, rt)
  }

  /**
   * A successful completion: the transcript rendered, the prompt encoded, the
   * runtime asked for `n` sampled sequences of at most `max_tokens` tokens past
   * the prompt, and exactly `n` choices in order, each the decoded sequence past
   * the transcript's length.
   */
  lemma CompletionChoices(pair: Pair, data: ChatCompletionInput, rt: Runtime)
    requires Completion(pair, data, rt).Success?
    ensures Transcript(data.messages).Success?
    ensures var conversation := Transcript(data.messages).value;
            var inputIds := rt.encode(pair.tokenizer, conversation);
            && inputIds.Success?
            && var config := GenerationConfig(data.maxTokens + |inputIds.value|, data.n, true);
               var outputs := rt.generate(pair.model, inputIds.value, config);
               && outputs.Success?
               && var cs := Completion(pair, data, rt).value;
                  && |cs| == NumChoices(data.n)
                  && forall i | 0 <= i < |cs| ::
                       && i < |outputs.value|
                       && rt.decode(pair.tokenizer, outputs.value[i]).Success?
                       && cs[i] == Choice(i, SliceFrom(rt.decode(pair.tokenizer, outputs.value[i]).value, |conversation|))
  {
    var conversation := Transcript(data.messages).value;
    var inputIds := rt.encode(pair.tokenizer, conversation).value;
    var outputs := rt.generate(pair.model, inputIds, GenerationConfig(data.maxTokens + |inputIds|, data.n, true)).value;
    ChoicesShape(outputs, NumChoices(data.n), conversation, pair.tokenizer, rt);
  }

  /**
   * `create_chat_completion(data)`: resolve through the registry, then the
   * completion; any exception along the way is a 500 carrying its message, with
   * no partial choices.
   */
  method CreateChatCompletion(data: ChatCompletionInput, cache: ModelCache, hub: ModelHub, rt: Runtime)
    returns (r: Result<seq<Choice>, HttpError>)
    requires cache.Valid()
    modifies cache, hub
    ensures cache.Valid() && Extends(old(cache.entries), cache.entries)
    ensures data.model in old(cache.entries) ==>
            cache.entries == old(cache.entries) && cache.loads == old(cache.loads) && unchanged(hub)
    ensures data.model !in old(cache.entries) ==>
            var tok := ArtifactId(data.model, Tokenizer);
            var lm := ArtifactId(data.model, CausalLM);
            && cache.loads == old(cache.loads) + 1
            && hub.fetches == old(hub.fetches) + (if tok in hub.published then 2 else 1)
            && (data.model in cache.entries <==> tok in hub.published && lm in hub.published)
            && (data.model in cache.entries ==>
                  cache.entries == old(cache.entries)[data.model := Pair(Handle(tok, old(hub.fetches)), Handle(lm, old(hub.fetches) + 1))])
            && (data.model !in cache.entries ==> cache.entries == old(cache.entries))
    ensures data.model !in cache.entries ==> r == Failure(HttpError(InternalServerError, Unavailable(data.model)))
    ensures data.model in cache.entries ==> r == AsHttp(Completion(cache.entries[data.model], data, rt))
  {
    var resolved := cache.GetModelAndTokenizer(data.model, hub);
    if resolved.Failure? {
      return Failure(HttpError(InternalServerError, resolved.error));
    }
    var pair := resolved.value;
    var conversation := RenderTranscript(data.messages);
    if conversation.Failure? {
      return Failure(HttpError(InternalServerError, conversation.error));
    }
    var inputIds := rt.encode(pair.tokenizer, conversation.value);
    if inputIds.Failure? {
      return Failure(HttpError(InternalServerError, inputIds.error));
    }
    var config := GenerationConfig(data.maxTokens + |inputIds.value|, data.n, true);
    var outputs := rt.generate(pair.model, inputIds.value, config);
    if outputs.Failure? {
      return Failure(HttpError(InternalServerError, outputs.error));
    }
    var responses := BuildChoices(outputs.value, data.n, conversation.value, pair.tokenizer, rt);
    if responses.Failure? {
      return Failure(HttpError(InternalServerError, responses.error));
    }
    r := Success(responses.value);
  }
}

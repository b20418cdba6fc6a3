/** The detector that asks an OpenAI-compatible chat-completions endpoint for a verdict
    (censor/llm.py, `LLMCensor`): the request it sends, how the completion is read as a
    verdict, and how an image input becomes an `image_url` part. */
module Llm {
  import opened Wrappers
  import opened Strings
  import opened CensorTypes
  import opened Crypto
  import opened Retry
  import opened ImageFormat

  const MaxRetries := 3
  const PassToken := "<pass>"
  const BlockToken := "<block>"
  const ImageNote := "This is my image."
  const UnknownImageFormat := "未知的图片格式"
  const UnexpectedInput := "预期外的输入"
  const Base64Prefix := "base64://"

  /** One part of a multi-part message content. */
  datatype Part = TextPart(text: string) | ImageUrlPart(url: string)

  /** A message's `content`: a plain string, or a list of parts. */
  datatype Content = PlainText(text: string) | Parts(parts: seq<Part>)

  datatype ChatMessage = ChatMessage(role: string, content: Content)

  /** The JSON body of a chat-completions request. `model` is `None` when the
      configuration has no `model` key (it is then sent as `null`). */
  datatype ChatPayload = ChatPayload(model: Option<string>, messages: seq<ChatMessage>, stream: bool, temperature: int)

  /** The decoded reply: the text at `choices[0].message.content`, or the message of the
      exception raised while looking it up. */
  datatype Reply = Completion(content: string) | Malformed(error: string)

  datatype Config = Config(model: Option<string>, baseUrl: Option<string>, apiKey: Option<string>)

  /** The outside world of one detector: the primitives, the configuration, the two
      system prompts (their text is not part of this model) and the server's answer to
      each attempt (URL, headers, body). */
  datatype Env = Env(
    p: Primitives, config: Config, textPrompt: string, imagePrompt: string,
    post: (nat, string, seq<(string, string)>, ChatPayload) -> HttpOutcome<Reply>)

  /** `f"{value}"` of a value read with `config.get`. */
  function Formatted(value: Option<string>): string
  {
    value.GetOr("None")
  }

  /** The verdict for a completion: `<pass>` anywhere wins; otherwise `<block>` anywhere
      blocks; anything else, `<review>` included, goes to review. The only reason is
      the completion itself. */
  function Classify(completion: string): (v: Verdict)
    ensures v.reasons == {completion}
    ensures v.risk == Pass <==> Contains(completion, PassToken)
    ensures v.risk == Block <==> !Contains(completion, PassToken) && Contains(completion, BlockToken)
    ensures v.risk == Review <==> !Contains(completion, PassToken) && !Contains(completion, BlockToken)
  {
    var reason := {completion};
    if Contains(completion, PassToken) then Verdict(Pass, reason)
    else if Contains(completion, BlockToken) then Verdict(Block, reason)
    else Verdict(Review, reason)
  }

  /** The request handler after `raise_for_status`: a malformed reply raises and is not
      retried. */
  function HandleReply(o: HttpOutcome<Reply>): Attempt<Verdict>
  {
    match o
    case TransportFailure(m) => ClientError(m)
    case TimedOut => Raised(TimeoutMessage)
    case Received(Malformed(e)) => Raised(e)
    case Received(Completion(c)) => Returned(Classify(c))
  }

  function Endpoint(config: Config): string
  {
    Formatted(config.baseUrl) + "/chat/completions"
  }

  function Headers(config: Config): seq<(string, string)>
  {
    [("Authorization", "Bearer " + Formatted(config.apiKey)), ("Content-Type", "application/json")]
  }

  function UserPrompt(text: string): string
  {
    "\n[Start Audit]\nInput: " + text + "\nOutput:\n"
  }

  /** The body `detect_text` sends. */
  function TextPayload(config: Config, systemPrompt: string, text: string): ChatPayload
  {
    ChatPayload(config.model,
                [ChatMessage("system", PlainText(systemPrompt)), ChatMessage("user", PlainText(UserPrompt(text)))],
                false, 0)
  }

  /** The user message `detect_image` appends for an input, or the error it raises: an
      `http…` input is sent as it is; a `base64://` input has its 9-character prefix
      stripped and must decode to a recognised format; anything else is refused. */
  function ImageUserMessage(p: Primitives, image: string): Result<ChatMessage>
  {
    if StartsWith(image, "http") then
      Ok(ChatMessage("user", Parts([ImageUrlPart(image), TextPart(ImageNote)])))
    else if StartsWith(image, Base64Prefix) then
      var data := image[9..];
      match GetImageFormat(p, data)
      case Err(e) => Err(e)
      case Ok(None) => Err(CensorError(UnknownImageFormat))
      case Ok(Some(format)) => Ok(ChatMessage("user", Parts([ImageUrlPart(DataUrl(format, data)), TextPart(ImageNote)])))
    else Err(CensorError(UnexpectedInput))
  }

  /** The body `detect_image` sends, once the user message is built. */
  function ImagePayload(config: Config, systemPrompt: string, user: ChatMessage): ChatPayload
  {
    ChatPayload(config.model, [ChatMessage("system", Parts([TextPart(systemPrompt)])), user], false, 0)
  }

  function TextOutcomes(env: Env, text: string): nat -> HttpOutcome<Reply>
  {
    (a: nat) => env.post(a, Endpoint(env.config), Headers(env.config), TextPayload(env.config, env.textPrompt, text))
  }

  function TextCalls(outcomes: nat -> HttpOutcome<Reply>): nat -> Attempt<Verdict>
  {
    (a: nat) => HandleReply(outcomes(a))
  }

  /** `detect_text`, decorated with `censor_retry(max_retries=3)`; the whole text goes in
      one request. */
  function DetectText(env: Env, text: string): RetryRun<Verdict>
  {
    Run(MaxRetries, TextCalls(TextOutcomes(env, text)))
  }

  /** What the server answers to each attempt, when the input has a user message. */
  function ImageOutcomes(env: Env, user: ChatMessage): nat -> HttpOutcome<Reply>
  {
    (a: nat) => env.post(a, Endpoint(env.config), Headers(env.config), ImagePayload(env.config, env.imagePrompt, user))
  }

  /** One call of the undecorated `detect_image`: an input without a user message raises
      before any request. */
  function ImageCalls(p: Primitives, image: string, outcomes: nat -> HttpOutcome<Reply>): nat -> Attempt<Verdict>
  {
    (a: nat) =>
      match ImageUserMessage(p, image)
      case Err(e) => Raised(e.message)
      case Ok(_) => HandleReply(outcomes(a))
  }

  /** A placeholder user message, used only to name the (never consulted) server answers
      for an input that has none. */
  const NoMessage := ChatMessage("user", Parts([]))

  /** `detect_image`, decorated with `censor_retry(max_retries=3)`. */
  function DetectImage(env: Env, image: string): RetryRun<Verdict>
  {
    var user := match ImageUserMessage(env.p, image) case Ok(m) => m case Err(_) => NoMessage;
    Run(MaxRetries, ImageCalls(env.p, image, ImageOutcomes(env, user)))
  }

  // ---------------------------------------------------------------------------
  // Properties

  lemma BlockTokenLacksPass()
    ensures !Contains("<block>", PassToken)
  {
    var r := "<block>";
    forall i | 0 <= i <= |r| - |PassToken| ensures !OccursAt(r, PassToken, i) {
      if i == 0 { assert r[1] != PassToken[1]; }
      else { assert r[1] != PassToken[0]; }
    }
  }

  /** `<pass>` anywhere in a completion wins over `<block>`: a completion holding it
      passes, one holding only `<block>` blocks, and appending `<pass>` to any
      completion makes it pass. The completion `<block>` on its own blocks. */
  lemma PassWinsOverBlock(c: string)
    ensures Contains(c, PassToken) ==> Classify(c).risk == Pass
    ensures Contains(c, BlockToken) && !Contains(c, PassToken) ==> Classify(c).risk == Block
    ensures Classify(c + PassToken).risk == Pass
    ensures Classify("<block>").risk == Block
  {
    var s := c + PassToken;
    assert s[|c|..|c| + |PassToken|] == PassToken;
    assert OccursAt(s, PassToken, |c|);
    assert OccursAt("<block>", BlockToken, 0);
    BlockTokenLacksPass();
  }

  lemma ReviewTokenLacksOthers()
    ensures !Contains("<review>", PassToken) && !Contains("<review>", BlockToken)
  {
    var r := "<review>";
    forall i | 0 <= i <= |r| - |PassToken| ensures !OccursAt(r, PassToken, i) {
      if i == 0 { assert r[1] != PassToken[1]; }
      else if i == 1 { assert r[1] != PassToken[0]; }
      else { assert r[2] != PassToken[0]; }
    }
    forall i | 0 <= i <= |r| - |BlockToken| ensures !OccursAt(r, BlockToken, i) {
      if i == 0 { assert r[1] != BlockToken[1]; }
      else { assert r[1] != BlockToken[0]; }
    }
  }

  /** A completion holding neither `<pass>` nor `<block>` goes to review, whatever else
      it says; in particular `<review>` on its own and the empty completion do. */
  lemma ReviewIsTheDefault(c: string)
    ensures !Contains(c, PassToken) && !Contains(c, BlockToken) ==> Classify(c).risk == Review
    ensures Classify("<review>").risk == Review
    ensures Classify("").risk == Review
  {
    ReviewTokenLacksOthers();
  }

  /** The first completion decides the verdict after one request; a malformed reply
      or a timeout fails at once with the retry wrapper's prefix; three transport
      failures exhaust the retries. */
  lemma TextOutcomesDecide(outcomes: nat -> HttpOutcome<Reply>)
    ensures outcomes(0).Received? && outcomes(0).reply.Completion? ==>
      Run(MaxRetries, TextCalls(outcomes)) == RetryRun(Ok(Classify(outcomes(0).reply.content)), 1)
    ensures outcomes(0).Received? && outcomes(0).reply.Malformed? ==>
      Run(MaxRetries, TextCalls(outcomes)) == RetryRun(Err(CensorError(UnknownErrorPrefix + outcomes(0).reply.error)), 1)
    ensures outcomes(0).TimedOut? ==>
      Run(MaxRetries, TextCalls(outcomes)) == RetryRun(Err(CensorError(UnknownErrorPrefix + TimeoutMessage)), 1)
    ensures (forall a :: 0 <= a < MaxRetries ==> outcomes(a).TransportFailure?) ==>
      Run(MaxRetries, TextCalls(outcomes)) == RetryRun(Err(CensorError(ExhaustedMessage(MaxRetries))), MaxRetries)
  {
    RunFromShape(MaxRetries, TextCalls(outcomes), 0);
    if forall a :: 0 <= a < MaxRetries ==> outcomes(a).TransportFailure? {
      RetryExhausts(MaxRetries, TextCalls(outcomes));
    }
  }

  /** Both requests go to `<base_url>/chat/completions` with a bearer token, ask for the
      configured model without streaming at temperature 0, and carry a system message
      followed by a user message; the text request's user message holds the text. */
  lemma RequestShape(config: Config, systemPrompt: string, text: string, user: ChatMessage)
    ensures Endpoint(config) == Formatted(config.baseUrl) + "/chat/completions"
    ensures Headers(config)[0] == ("Authorization", "Bearer " + Formatted(config.apiKey))
    ensures var t := TextPayload(config, systemPrompt, text);
      var i := ImagePayload(config, systemPrompt, user);
      && t.model == i.model == config.model && !t.stream && !i.stream && t.temperature == i.temperature == 0
      && |t.messages| == |i.messages| == 2
      && t.messages[0].role == i.messages[0].role == "system" && t.messages[1].role == "user" && i.messages[1] == user
      && t.messages[1].content.PlainText? && OccursAt(t.messages[1].content.text, text, 22)
  {
    var u := UserPrompt(text);
    assert u[22..22 + |text|] == text;
  }

  /** An `http…` image is sent unchanged, whatever the decoder would make of it; a
      `base64://` image whose data decodes to a known format is sent as the data URL of
      the stripped data; an unknown format, a decoding error, or any other input fails
      before a request. */
  lemma ImageInputDispatch(p: Primitives, image: string)
    ensures StartsWith(image, "http") ==>
      ImageUserMessage(p, image) == Ok(ChatMessage("user", Parts([ImageUrlPart(image), TextPart(ImageNote)])))
    ensures StartsWith(image, Base64Prefix) ==>
      var data := image[9..];
      && Base64Prefix + data == image
      && (GetImageFormat(p, data) == Ok(None) ==> ImageUserMessage(p, image) == Err(CensorError(UnknownImageFormat)))
      && (GetImageFormat(p, data).Err? ==> ImageUserMessage(p, image) == Err(GetImageFormat(p, data).fault))
      && (GetImageFormat(p, data).Ok? && GetImageFormat(p, data).value.Some? ==>
            ImageUserMessage(p, image)
            == Ok(ChatMessage("user", Parts([ImageUrlPart(DataUrl(GetImageFormat(p, data).value.value, data)),
                                             TextPart(ImageNote)]))))
    ensures !StartsWith(image, "http") && !StartsWith(image, Base64Prefix) ==>
      ImageUserMessage(p, image) == Err(CensorError(UnexpectedInput))
  {
    if StartsWith(image, Base64Prefix) {
      assert image[0] == 'b';
      assert image == image[..9] + image[9..];
    }
  }

  /** An image without a user message fails on the first call with the retry wrapper's
      prefix and is not retried; one with a user message is decided by the first
      completion. */
  lemma ImageOutcomesDecide(p: Primitives, image: string, outcomes: nat -> HttpOutcome<Reply>)
    ensures ImageUserMessage(p, image).Err? ==>
      Run(MaxRetries, ImageCalls(p, image, outcomes))
      == RetryRun(Err(CensorError(UnknownErrorPrefix + ImageUserMessage(p, image).fault.message)), 1)
    ensures ImageUserMessage(p, image).Ok? && outcomes(0).Received? && outcomes(0).reply.Completion? ==>
      Run(MaxRetries, ImageCalls(p, image, outcomes)) == RetryRun(Ok(Classify(outcomes(0).reply.content)), 1)
  {
    RunFromShape(MaxRetries, ImageCalls(p, image, outcomes), 0);
  }
}

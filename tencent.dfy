/** The Tencent Cloud content-moderation client (censor/tencent.py): TC3-HMAC-SHA256
    request signing (`TencentAuth`, version 3 of the Tencent Cloud API signature) and the
    detector (`TencentCensor`). */
module Tencent {
  import opened Wrappers
  import opened Strings
  import opened Codec
  import opened CensorTypes
  import opened Crypto
  import opened Retry
  import opened Chunking

  // ---------------------------------------------------------------------------
  // TencentAuth

  const Algorithm := "TC3-HMAC-SHA256"
  const ContentType := "application/json; charset=utf-8"
  const SignedHeaders := "content-type;host;x-tc-action"
  const ApiVersion := "2020-12-29"
  const Region := "ap-guangzhou"

  /** The three signed headers, lower-case names, with the action lower-cased. */
  function CanonicalHeaders(host: string, action: string): string
  {
    "content-type:" + ContentType + "\nhost:" + host + "\nx-tc-action:" + Lower(action) + "\n"
  }

  /** Method, URI `/`, the empty query string, the canonical headers, the signed header
      names and the SHA-256 of the payload, one per line. */
  function CanonicalRequest(p: Primitives, host: string, action: string, payload: string): string
  {
    "POST" + "\n" + "/" + "\n" + "" + "\n" + CanonicalHeaders(host, action) + "\n" + SignedHeaders + "\n"
      + Sha256Hex(p, payload)
  }

  function CredentialScope(date: string, service: string): string
  {
    date + "/" + service + "/tc3_request"
  }

  function StringToSign(p: Primitives, timestamp: int, date: string, service: string, canonicalRequest: string): string
  {
    Algorithm + "\n" + IntToString(timestamp) + "\n" + CredentialScope(date, service) + "\n"
      + Sha256Hex(p, canonicalRequest)
  }

  /** The derived key: HMAC-SHA256 keyed by `"TC3" + secret` over the date, then over the
      service, then over `tc3_request`. */
  function SigningKey(p: Primitives, secretKey: string, date: string, service: string): seq<byte>
  {
    var secretDate := p.hmacSha256(Utf8("TC3" + secretKey), Utf8(date));
    var secretService := p.hmacSha256(secretDate, Utf8(service));
    p.hmacSha256(secretService, Utf8("tc3_request"))
  }

  /** The lower-case hex HMAC-SHA256 of the string to sign under the derived key. */
  function Signature(p: Primitives, secretKey: string, date: string, service: string, stringToSign: string): (r: string)
    ensures forall i :: 0 <= i < |r| ==> '0' <= r[i] <= '9' || 'a' <= r[i] <= 'f'
  {
    Hex(p.hmacSha256(SigningKey(p, secretKey, date, service), Utf8(stringToSign)))
  }

  /** `TC3-HMAC-SHA256 Credential=<id>/<scope>, SignedHeaders=…, Signature=<hex>` */
  function Authorization(secretId: string, date: string, service: string, signature: string): string
  {
    Algorithm + " " + "Credential=" + secretId + "/" + CredentialScope(date, service) + ", "
      + "SignedHeaders=" + SignedHeaders + ", " + "Signature=" + signature
  }

  /** What `_generate_signature` returns. */
  datatype SignatureInfo = SignatureInfo(authorization: string, timestamp: int, version: string, host: string, action: string)

  /** `_generate_signature`. `timestamp` is `int(time.time())` and `date` the UTC date as
      `%Y-%m-%d`, two separate clock readings taken by the caller. */
  function GenerateSignature(p: Primitives, secretId: string, secretKey: string, service: string, host: string,
                             action: string, payload: string, timestamp: int, date: string): (r: SignatureInfo)
    ensures r.timestamp == timestamp && r.version == ApiVersion && r.host == host && r.action == action
  {
    var sts := StringToSign(p, timestamp, date, service, CanonicalRequest(p, host, action, payload));
    SignatureInfo(Authorization(secretId, date, service, Signature(p, secretKey, date, service, sts)),
                  timestamp, ApiVersion, host, action)
  }

  /** The header dictionary `prepare_request_headers` builds from the signature
      information, in insertion order. */
  function HeadersOf(info: SignatureInfo): seq<(string, string)>
  {
    [("Authorization", info.authorization), ("Content-Type", ContentType), ("Host", info.host),
     ("X-TC-Region", Region), ("X-TC-Action", info.action), ("X-TC-Timestamp", IntToString(info.timestamp)),
     ("X-TC-Version", info.version)]
  }

  /** `prepare_request_headers` */
  function PrepareRequestHeaders(p: Primitives, secretId: string, secretKey: string, service: string, host: string,
                                 action: string, payload: string, timestamp: int, date: string): seq<(string, string)>
  {
    HeadersOf(GenerateSignature(p, secretId, secretKey, service, host, action, payload, timestamp, date))
  }

  lemma LowerKeepsNewlineOut(s: string)
    requires '\n' !in s
    ensures '\n' !in Lower(s)
  {
    forall i | 0 <= i < |s| ensures Lower(s)[i] != '\n' {
      assert s[i] != '\n';
    }
  }

  /** Nine newline-free lines joined by newlines split back into themselves. */
  lemma SplitNineLines(a0: string, a1: string, a2: string, a3: string, a4: string, a5: string, a6: string, a7: string,
                       a8: string)
    requires '\n' !in a0 && '\n' !in a1 && '\n' !in a2 && '\n' !in a3 && '\n' !in a4
    requires '\n' !in a5 && '\n' !in a6 && '\n' !in a7 && '\n' !in a8
    ensures Split(a0 + "\n" + a1 + "\n" + a2 + "\n" + a3 + "\n" + a4 + "\n" + a5 + "\n" + a6 + "\n" + a7 + "\n" + a8, '\n')
         == [a0, a1, a2, a3, a4, a5, a6, a7, a8]
  {
    var nl := '\n';
    SplitNoSeparator(a0, nl);
    SplitSnoc(a0, a1, nl);
    SplitSnoc(a0 + [nl] + a1, a2, nl);
    SplitSnoc(a0 + [nl] + a1 + [nl] + a2, a3, nl);
    SplitSnoc(a0 + [nl] + a1 + [nl] + a2 + [nl] + a3, a4, nl);
    SplitSnoc(a0 + [nl] + a1 + [nl] + a2 + [nl] + a3 + [nl] + a4, a5, nl);
    SplitSnoc(a0 + [nl] + a1 + [nl] + a2 + [nl] + a3 + [nl] + a4 + [nl] + a5, a6, nl);
    SplitSnoc(a0 + [nl] + a1 + [nl] + a2 + [nl] + a3 + [nl] + a4 + [nl] + a5 + [nl] + a6, a7, nl);
    SplitSnoc(a0 + [nl] + a1 + [nl] + a2 + [nl] + a3 + [nl] + a4 + [nl] + a5 + [nl] + a6 + [nl] + a7, a8, nl);
  }

  /** The canonical headers end in a newline, so the canonical request lays out as nine
      newline-separated lines. */
  lemma CanonicalRequestLayout(p: Primitives, host: string, action: string, payload: string)
    ensures CanonicalRequest(p, host, action, payload)
         == "POST" + "\n" + "/" + "\n" + "" + "\n" + ("content-type:" + ContentType) + "\n" + ("host:" + host) + "\n"
            + ("x-tc-action:" + Lower(action)) + "\n" + "" + "\n" + SignedHeaders + "\n" + Sha256Hex(p, payload)
  {
    HeaderLinesRegroup("POST" + "\n" + "/" + "\n" + "", ContentType, host, Lower(action));
  }

  lemma HeaderLinesRegroup(l: string, ct: string, host: string, la: string)
    ensures l + "\n" + ("content-type:" + ct + "\nhost:" + host + "\nx-tc-action:" + la + "\n")
         == l + "\n" + ("content-type:" + ct) + "\n" + ("host:" + host) + "\n" + ("x-tc-action:" + la) + "\n" + ""
  {
  }

  lemma CanonicalLinesSplit(p: Primitives, host: string, action: string, payload: string)
    requires '\n' !in host && '\n' !in action
    ensures Split("POST" + "\n" + "/" + "\n" + "" + "\n" + ("content-type:" + ContentType) + "\n" + ("host:" + host) + "\n"
                  + ("x-tc-action:" + Lower(action)) + "\n" + "" + "\n" + SignedHeaders + "\n" + Sha256Hex(p, payload), '\n')
         == ["POST", "/", "", "content-type:" + ContentType, "host:" + host, "x-tc-action:" + Lower(action), "",
             SignedHeaders, Sha256Hex(p, payload)]
  {
    LowerKeepsNewlineOut(action);
    assert '\n' !in "content-type:" + ContentType;
    assert '\n' !in SignedHeaders && '\n' !in "POST" && '\n' !in "/";
    assert '\n' !in Sha256Hex(p, payload);
    SplitNineLines("POST", "/", "", "content-type:" + ContentType, "host:" + host, "x-tc-action:" + Lower(action), "",
                   SignedHeaders, Sha256Hex(p, payload));
  }

  /** The canonical request has nine lines: `POST`, `/`, the empty query string, the
      three `name:value` headers (the action lower-cased), an empty line, the signed
      header names and the payload hash. */
  lemma CanonicalRequestParses(p: Primitives, host: string, action: string, payload: string)
    requires '\n' !in host && '\n' !in action
    ensures Split(CanonicalRequest(p, host, action, payload), '\n')
         == ["POST", "/", "", "content-type:" + ContentType, "host:" + host, "x-tc-action:" + Lower(action), "",
             SignedHeaders, Sha256Hex(p, payload)]
  {
    CanonicalRequestLayout(p, host, action, payload);
    CanonicalLinesSplit(p, host, action, payload);
  }

  /** The credential scope splits on `/` into the date, the service and `tc3_request`,
      and holds no newline or space that the date and service do not bring. */
  lemma CredentialScopeParses(date: string, service: string)
    requires '/' !in date && '/' !in service
    ensures Split(CredentialScope(date, service), '/') == [date, service, "tc3_request"]
    ensures '\n' !in date && '\n' !in service ==> '\n' !in CredentialScope(date, service)
    ensures ' ' !in date && ' ' !in service ==> ' ' !in CredentialScope(date, service)
  {
    assert CredentialScope(date, service) == date + "/" + service + "/" + "tc3_request";
    SplitNoSeparator(date, '/');
    assert '/' !in "tc3_request";
    SplitSnoc(date, service, '/');
    SplitSnoc(date + ['/'] + service, "tc3_request", '/');
  }

  lemma SplitFourLines(a0: string, a1: string, a2: string, a3: string)
    requires '\n' !in a0 && '\n' !in a1 && '\n' !in a2 && '\n' !in a3
    ensures Split(a0 + "\n" + a1 + "\n" + a2 + "\n" + a3, '\n') == [a0, a1, a2, a3]
  {
    var nl := '\n';
    SplitNoSeparator(a0, nl);
    SplitSnoc(a0, a1, nl);
    SplitSnoc(a0 + [nl] + a1, a2, nl);
    SplitSnoc(a0 + [nl] + a1 + [nl] + a2, a3, nl);
  }

  /** The string to sign has four lines: the algorithm, the timestamp, the credential
      scope `date/service/tc3_request`, and the hash of the canonical request. */
  lemma StringToSignParses(p: Primitives, timestamp: int, date: string, service: string, canonicalRequest: string)
    requires '\n' !in date && '\n' !in service && '/' !in date && '/' !in service
    ensures Split(StringToSign(p, timestamp, date, service, canonicalRequest), '\n')
         == [Algorithm, IntToString(timestamp), CredentialScope(date, service), Sha256Hex(p, canonicalRequest)]
  {
    CredentialScopeParses(date, service);
    assert '\n' !in Algorithm;
    assert '\n' !in IntToString(timestamp);
    assert '\n' !in Sha256Hex(p, canonicalRequest);
    SplitFourLines(Algorithm, IntToString(timestamp), CredentialScope(date, service), Sha256Hex(p, canonicalRequest));
  }

  lemma HeadersOfFields(info: SignatureInfo)
    ensures var h := HeadersOf(info);
      && |h| == 7 && h[0] == ("Authorization", info.authorization) && h[1] == ("Content-Type", ContentType)
      && h[2] == ("Host", info.host) && h[3] == ("X-TC-Region", Region) && h[4] == ("X-TC-Action", info.action)
      && h[5] == ("X-TC-Timestamp", IntToString(info.timestamp)) && h[6] == ("X-TC-Version", info.version)
  {
  }

  /** The headers carry the seven keys in order, with the authorization computed for
      this request, the host, the action in its own case and the timestamp that was
      signed. */
  lemma RequestHeadersShape(p: Primitives, secretId: string, secretKey: string, service: string, host: string,
                            action: string, payload: string, timestamp: int, date: string)
    ensures var h := PrepareRequestHeaders(p, secretId, secretKey, service, host, action, payload, timestamp, date);
      && |h| == 7
      && h[0] == ("Authorization", GenerateSignature(p, secretId, secretKey, service, host, action, payload, timestamp, date).authorization)
      && h[1] == ("Content-Type", ContentType) && h[2] == ("Host", host) && h[3] == ("X-TC-Region", Region)
      && h[4] == ("X-TC-Action", action) && h[5] == ("X-TC-Timestamp", IntToString(timestamp))
      && h[6] == ("X-TC-Version", ApiVersion)
  {
    HeadersOfFields(GenerateSignature(p, secretId, secretKey, service, host, action, payload, timestamp, date));
  }

  lemma AuthorizationRegroup(alg: string, id: string, scope: string, sh: string, sig: string)
    ensures alg + " " + "Credential=" + id + "/" + scope + ", " + "SignedHeaders=" + sh + ", " + "Signature=" + sig
         == alg + " " + ("Credential=" + id + "/" + scope + ",") + " " + ("SignedHeaders=" + sh + ",") + " "
            + ("Signature=" + sig)
  {
  }

  lemma SplitFourFields(a0: string, a1: string, a2: string, a3: string)
    requires ' ' !in a0 && ' ' !in a1 && ' ' !in a2 && ' ' !in a3
    ensures Split(a0 + " " + a1 + " " + a2 + " " + a3, ' ') == [a0, a1, a2, a3]
  {
    var sp := ' ';
    SplitNoSeparator(a0, sp);
    SplitSnoc(a0, a1, sp);
    SplitSnoc(a0 + [sp] + a1, a2, sp);
    SplitSnoc(a0 + [sp] + a1 + [sp] + a2, a3, sp);
  }

  /** With no space in the secret id, the date and the service, the Authorization value
      has four space-separated fields: the algorithm, `Credential=<id>/<scope>,`,
      `SignedHeaders=content-type;host;x-tc-action,` and `Signature=<hex>`. */
  lemma AuthorizationParses(secretId: string, date: string, service: string, signature: string)
    requires ' ' !in secretId && ' ' !in date && ' ' !in service && '/' !in date && '/' !in service && ' ' !in signature
    ensures Split(Authorization(secretId, date, service, signature), ' ')
         == [Algorithm, "Credential=" + secretId + "/" + CredentialScope(date, service) + ",",
             "SignedHeaders=" + SignedHeaders + ",", "Signature=" + signature]
  {
    var scope := CredentialScope(date, service);
    CredentialScopeParses(date, service);
    AuthorizationRegroup(Algorithm, secretId, scope, SignedHeaders, signature);
    assert ' ' !in Algorithm && ' ' !in "Credential=" && ' ' !in "SignedHeaders=" + SignedHeaders + ",";
    assert ' ' !in "Signature=" + signature;
    SplitFourFields(Algorithm, "Credential=" + secretId + "/" + scope + ",", "SignedHeaders=" + SignedHeaders + ",",
                    "Signature=" + signature);
  }

  /** The signature in the Authorization header is the lower-case hex HMAC-SHA256, under
      the key derived from the secret, the date and the service, of the string to sign
      for this request; so the header parses as above. */
  lemma SignedAuthorization(p: Primitives, secretId: string, secretKey: string, service: string, host: string,
                            action: string, payload: string, timestamp: int, date: string)
    requires ' ' !in secretId && ' ' !in date && ' ' !in service && '/' !in date && '/' !in service
    ensures var sts := StringToSign(p, timestamp, date, service, CanonicalRequest(p, host, action, payload));
      var signature := Signature(p, secretKey, date, service, sts);
      && GenerateSignature(p, secretId, secretKey, service, host, action, payload, timestamp, date).authorization
         == Authorization(secretId, date, service, signature)
      && Split(Authorization(secretId, date, service, signature), ' ')
         == [Algorithm, "Credential=" + secretId + "/" + CredentialScope(date, service) + ",",
             "SignedHeaders=" + SignedHeaders + ",", "Signature=" + signature]
      && (forall i :: 0 <= i < |signature| ==> '0' <= signature[i] <= '9' || 'a' <= signature[i] <= 'f')
  {
    var sts := StringToSign(p, timestamp, date, service, CanonicalRequest(p, host, action, payload));
    var signature := Signature(p, secretKey, date, service, sts);
    assert ' ' !in signature;
    AuthorizationParses(secretId, date, service, signature);
  }

  // ---------------------------------------------------------------------------
  // TencentCensor

  const TextUrl := "https://tms.tencentcloudapi.com"
  const ImageUrl := "https://ims.tencentcloudapi.com"
  const TextHost := "tms.tencentcloudapi.com"
  const ImageHost := "ims.tencentcloudapi.com"
  const TextLimit := 10000
  const MaxRetries := 3

  /** The `Response` object of a reply. `error` is `Some` when `Error` is present and
      truthy, holding its `Message` if it has one; `keywords` is empty when `Keywords`
      is missing. */
  datatype ResponseBody = ResponseBody(error: Option<Option<string>>, suggestion: Option<string>,
                                       riskLabel: Option<string>, keywords: seq<string>, subLabel: Option<string>)

  /** A decoded reply; `response` is `None` when it has no `Response` key. */
  datatype Reply = Reply(response: Option<ResponseBody>)

  datatype CallId = CallId(slot: nat, attempt: nat)

  /** The outside world of one detector: the primitives, the credentials, the two clock
      readings taken for each request, and the server's answer to each request (URL,
      headers, body). */
  datatype Env = Env(
    p: Primitives, secretId: string, secretKey: string,
    clock: CallId -> int, date: CallId -> string,
    post: (CallId, string, seq<(string, string)>, string) -> HttpOutcome<Reply>)

  /** The provider's suggestion, case-insensitively: `pass` passes, `review` goes to
      review, anything else (a missing suggestion included) blocks. */
  function MapSuggestion(suggestion: Option<string>): (r: RiskLevel)
    ensures r != Fallback
    ensures r == Pass <==> Lower(suggestion.GetOr("")) == "pass"
    ensures r == Review <==> Lower(suggestion.GetOr("")) == "review"
    ensures suggestion.None? ==> r == Block
  {
    var s := Lower(suggestion.GetOr(""));
    if s == "pass" then Pass
    else if s == "review" then Review
    else Block
  }

  /** The label (the empty string when missing) and every keyword. */
  function TextReasons(res: ResponseBody): set<string>
  {
    {res.riskLabel.GetOr("")} + set k | k in res.keywords
  }

  /** The loop of `_check_single_text` that fills `risk_words_set`. */
  method CollectTextReasons(res: ResponseBody) returns (words: set<string>)
    ensures words == TextReasons(res)
  {
    words := {res.riskLabel.GetOr("")};
    for i := 0 to |res.keywords|
      invariant words == {res.riskLabel.GetOr("")} + set k | k in res.keywords[..i]
    {
      assert res.keywords[..i + 1] == res.keywords[..i] + [res.keywords[i]];
      words := words + {res.keywords[i]};
    }
    assert res.keywords[..|res.keywords|] == res.keywords;
  }

  /** The label (the empty string when missing) and the sub-label when it is non-empty. */
  function ImageReasons(res: ResponseBody): set<string>
  {
    {res.riskLabel.GetOr("")} + if res.subLabel.Some? && res.subLabel.value != "" then {res.subLabel.value} else {}
  }

  const RequestErrorPrefix := "内容审核请求异常: "
  /** `str(KeyError("Response"))` */
  const MissingResponse := "'Response'"

  /** The body of a request handler after `raise_for_status`: a reply without `Response`
      raises `KeyError`, one with an `Error` raises `CensorError`; the retry wrapper
      retries neither. */
  function HandleReply(o: HttpOutcome<Reply>, reasons: ResponseBody -> set<string>): Attempt<Verdict>
  {
    match o
    case TransportFailure(m) => ClientError(m)
    case TimedOut => Raised(TimeoutMessage)
    case Received(reply) =>
      match reply.response
      case None => Raised(MissingResponse)
      case Some(res) =>
        if res.error.Some? then Raised(RequestErrorPrefix + res.error.value.GetOr("None"))
        else Returned(Verdict(MapSuggestion(res.suggestion), reasons(res)))
  }

  /** `json.dumps({"Content": base64(text), "BizType": "text_chat"})` */
  function TextPayload(p: Primitives, text: string): string
  {
    p.jsonDumps([("Content", p.b64encode(Utf8(text))), ("BizType", "text_chat")])
  }

  /** What the server answers to each attempt for chunk `slot`. */
  function TextOutcomes(env: Env, slot: nat, content: string): nat -> HttpOutcome<Reply>
  {
    (a: nat) =>
      var id := CallId(slot, a);
      var payload := TextPayload(env.p, content);
      var headers := PrepareRequestHeaders(env.p, env.secretId, env.secretKey, "tms", TextHost, "TextModeration",
                                           payload, env.clock(id), env.date(id));
      env.post(id, TextUrl, headers, payload)
  }

  function TextCalls(outcomes: nat -> HttpOutcome<Reply>): nat -> Attempt<Verdict>
  {
    (a: nat) => HandleReply(outcomes(a), TextReasons)
  }

  /** `_check_single_text`, decorated with `censor_retry(max_retries=3)`. */
  function CheckSingleText(env: Env, slot: nat, content: string): Result<Verdict>
  {
    Run(MaxRetries, TextCalls(TextOutcomes(env, slot, content))).result
  }

  function ChunkCheck(env: Env): (nat, string) -> Result<Verdict>
  {
    (i: nat, c: string) => CheckSingleText(env, i, c)
  }

  /** `detect_text` */
  function DetectText(env: Env, text: string): Result<Verdict>
  {
    ChunkedVerdict(text, TextLimit, ChunkCheck(env))
  }

  const Base64Prefix := "base64://"
  const UnexpectedInput := "预期外的输入"

  /** The request body for an image: the base64 data after the 9-character `base64://`
      prefix as `FileContent`, or the URL as `FileUrl`; `None` for any other input. */
  function ImagePayload(p: Primitives, image: string): Option<string>
  {
    if StartsWith(image, Base64Prefix) then Some(p.jsonDumps([("FileContent", image[9..]), ("BizType", "image_chat")]))
    else if StartsWith(image, "http") then Some(p.jsonDumps([("FileUrl", image), ("BizType", "image_chat")]))
    else None
  }

  /** What the server answers to each attempt for an image request with body `payload`. */
  function ImageOutcomes(env: Env, payload: string): nat -> HttpOutcome<Reply>
  {
    (a: nat) =>
      var id := CallId(0, a);
      var headers := PrepareRequestHeaders(env.p, env.secretId, env.secretKey, "ims", ImageHost, "ImageModeration",
                                           payload, env.clock(id), env.date(id));
      env.post(id, ImageUrl, headers, payload)
  }

  /** One call of the undecorated `detect_image`; the server is consulted only when the
      input has a payload. */
  function ImageCalls(p: Primitives, image: string, outcomes: nat -> HttpOutcome<Reply>): nat -> Attempt<Verdict>
  {
    (a: nat) => if ImagePayload(p, image).None? then Raised(UnexpectedInput) else HandleReply(outcomes(a), ImageReasons)
  }

  /** `detect_image`, decorated with `censor_retry(max_retries=3)`. */
  function DetectImage(env: Env, image: string): RetryRun<Verdict>
  {
    Run(MaxRetries, ImageCalls(env.p, image, ImageOutcomes(env, ImagePayload(env.p, image).GetOr(""))))
  }

  /** A reply whose `Response` has no `Error` decides the verdict by its suggestion, with
      the label and keywords as reasons, after one request; an `Error`, a missing
      `Response` or a timeout fails at once with the message the retry wrapper gives it; three
      transport failures exhaust the retries. */
  lemma CheckSingleTextOutcomes(outcomes: nat -> HttpOutcome<Reply>)
    ensures var o := outcomes(0);
      && (o.Received? && o.reply.response.Some? && o.reply.response.value.error.None? ==>
            var res := o.reply.response.value;
            Run(MaxRetries, TextCalls(outcomes)) == RetryRun(Ok(Verdict(MapSuggestion(res.suggestion), TextReasons(res))), 1))
      && (o.Received? && o.reply.response.Some? && o.reply.response.value.error.Some? ==>
            var msg := o.reply.response.value.error.value.GetOr("None");
            Run(MaxRetries, TextCalls(outcomes)) == RetryRun(Err(CensorError(UnknownErrorPrefix + RequestErrorPrefix + msg)), 1))
      && (o.Received? && o.reply.response.None? ==>
            Run(MaxRetries, TextCalls(outcomes)) == RetryRun(Err(CensorError(UnknownErrorPrefix + MissingResponse)), 1))
    ensures outcomes(0).TimedOut? ==>
      Run(MaxRetries, TextCalls(outcomes)) == RetryRun(Err(CensorError(UnknownErrorPrefix + TimeoutMessage)), 1)
    ensures (forall a :: 0 <= a < MaxRetries ==> outcomes(a).TransportFailure?) ==>
      Run(MaxRetries, TextCalls(outcomes)) == RetryRun(Err(CensorError(ExhaustedMessage(MaxRetries))), MaxRetries)
  {
    RunFromShape(MaxRetries, TextCalls(outcomes), 0);
    if forall a :: 0 <= a < MaxRetries ==> outcomes(a).TransportFailure? {
      RetryExhausts(MaxRetries, TextCalls(outcomes));
    }
  }

  /** The reasons always hold the label, the empty string when it is missing, and
      exactly the keywords besides; an image's reasons add the sub-label only when it is
      non-empty. */
  lemma ReasonsShape(res: ResponseBody)
    ensures res.riskLabel.GetOr("") in TextReasons(res) && res.riskLabel.GetOr("") in ImageReasons(res)
    ensures res.riskLabel.None? ==> "" in TextReasons(res)
    ensures forall w :: w in TextReasons(res) <==> w == res.riskLabel.GetOr("") || w in res.keywords
    ensures forall w :: w in ImageReasons(res) <==>
      w == res.riskLabel.GetOr("") || (res.subLabel.Some? && res.subLabel.value != "" && w == res.subLabel.value)
  {
  }

  /** A non-empty text within 10000 characters is decided by a single request; a
      failure is reported with the detection-failure prefix. */
  lemma ShortTextOutcome(env: Env, text: string)
    requires 0 < |text| <= TextLimit
    ensures var r := CheckSingleText(env, 0, text);
      DetectText(env, text) == if r.Ok? then r else Err(CensorError(DetectFailurePrefix + r.fault.message))
  {
  }

  /** A `base64://` image is sent as `FileContent` holding exactly what follows the
      9-character prefix; an `http…` image is sent as `FileUrl`; no other input has a
      request body. */
  lemma ImagePayloadDispatch(p: Primitives, image: string)
    ensures StartsWith(image, Base64Prefix) ==>
      && Base64Prefix + image[9..] == image
      && ImagePayload(p, image) == Some(p.jsonDumps([("FileContent", image[9..]), ("BizType", "image_chat")]))
    ensures StartsWith(image, "http") ==>
      ImagePayload(p, image) == Some(p.jsonDumps([("FileUrl", image), ("BizType", "image_chat")]))
    ensures ImagePayload(p, image).None? <==> !StartsWith(image, Base64Prefix) && !StartsWith(image, "http")
  {
    if StartsWith(image, Base64Prefix) {
      assert image[..9] == Base64Prefix;
      assert image == image[..9] + image[9..];
    }
    if StartsWith(image, "http") {
      assert image[0] == 'h';
    }
  }

  /** Any image that is neither `base64://…` nor `http…` fails on the first call,
      before any request, and is not retried. */
  lemma UnexpectedImageInput(p: Primitives, image: string, outcomes: nat -> HttpOutcome<Reply>)
    requires !StartsWith(image, Base64Prefix) && !StartsWith(image, "http")
    ensures Run(MaxRetries, ImageCalls(p, image, outcomes)) == RetryRun(Err(CensorError(UnknownErrorPrefix + UnexpectedInput)), 1)
  {
    ImagePayloadDispatch(p, image);
    RunFromShape(MaxRetries, ImageCalls(p, image, outcomes), 0);
  }

  /** For an image with a request body, the first reply decides as for text: the
      suggestion gives the verdict, the label and sub-label the reasons. */
  lemma ImageReplyOutcome(p: Primitives, image: string, outcomes: nat -> HttpOutcome<Reply>)
    requires StartsWith(image, Base64Prefix) || StartsWith(image, "http")
    requires outcomes(0).Received? && outcomes(0).reply.response.Some? && outcomes(0).reply.response.value.error.None?
    ensures var res := outcomes(0).reply.response.value;
      Run(MaxRetries, ImageCalls(p, image, outcomes)) == RetryRun(Ok(Verdict(MapSuggestion(res.suggestion), ImageReasons(res))), 1)
  {
    ImagePayloadDispatch(p, image);
    RunFromShape(MaxRetries, ImageCalls(p, image, outcomes), 0);
  }
}

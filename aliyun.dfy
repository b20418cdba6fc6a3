/** The Alibaba Cloud content-moderation client (censor/aliyun.py): RPC-style request
    signing (`AliyunAuth`) and the detector (`AliyunCensor`). */
module Aliyun {
  import opened Wrappers
  import opened Strings
  import opened Codec
  import opened CensorTypes
  import opened Crypto
  import opened Retry
  import opened Chunking
  import opened Sorting

  // ---------------------------------------------------------------------------
  // AliyunAuth._encode

  /** `quote_plus` on one byte of the UTF-8 encoding: unreserved bytes stay, the space
      becomes `+`, every other byte becomes `%XX`. */
  function QuotePlusByte(b: byte): string
  {
    if Unreserved(b) then [b as char]
    else if b == ' ' as int then "+"
    else PercentTriple(b)
  }

  function QuotePlusBytes(bs: seq<byte>): string
  {
    if bs == [] then [] else QuotePlusByte(bs[0]) + QuotePlusBytes(bs[1..])
  }

  /** `urllib.parse.quote_plus(s)` with its defaults (`safe=""`, UTF-8). */
  function QuotePlus(s: string): string
  {
    QuotePlusBytes(Utf8(s))
  }

  /** `_encode`: `quote_plus`, then `+` to `%20`, `*` to `%2A` and `%7E` to `~`. */
  function Encode(s: string): string
  {
    ReplaceAll(ReplaceAll(ReplaceAll(QuotePlus(s), "+", "%20"), "*", "%2A"), "%7E", "~")
  }

  /** Replacing `+` by `%20` in `quote_plus` output gives the strict percent-encoding. */
  lemma {:induction false} PlusToPercent20(bs: seq<byte>)
    ensures ReplaceAll(QuotePlusBytes(bs), "+", "%20") == PercentEncode(bs)
  {
    if bs != [] {
      var b := bs[0];
      var t := QuotePlusByte(b);
      ReplaceCharAppend(t, QuotePlusBytes(bs[1..]), '+', "%20");
      PlusToPercent20(bs[1..]);
      if Unreserved(b) || b != ' ' as int {
        assert '+' !in t;
        ReplaceCharAbsent(t, '+', "%20");
      } else {
        assert t == "+";
        assert t[..1] == "+" && t[1..] == [];
      }
    }
  }

  /** Every `%` in `s` starts an escape `%XY` of a byte that is not unreserved. */
  predicate EscapesReserved(s: string) {
    forall i :: 0 <= i < |s| && s[i] == '%' ==>
      i + 2 < |s| && IsHexDigit(s[i + 1]) && IsHexDigit(s[i + 2])
      && !Unreserved(HexValue(s[i + 1]) * 16 + HexValue(s[i + 2]))
  }

  lemma EscapesReservedAppend(a: string, b: string)
    requires EscapesReserved(a) && EscapesReserved(b)
    ensures EscapesReserved(a + b)
  {
    var s := a + b;
    forall i | 0 <= i < |s| && s[i] == '%'
      ensures i + 2 < |s| && IsHexDigit(s[i + 1]) && IsHexDigit(s[i + 2])
      ensures !Unreserved(HexValue(s[i + 1]) * 16 + HexValue(s[i + 2]))
    {
      if i >= |a| {
        var j := i - |a|;
        assert b[j] == '%';
        assert s[i + 1] == b[j + 1] && s[i + 2] == b[j + 2];
      } else {
        assert a[i] == '%';
        assert s[i + 1] == a[i + 1] && s[i + 2] == a[i + 2];
      }
    }
  }

  lemma EscapesReservedByte(b: byte)
    ensures EscapesReserved(PercentEncodeByte(b))
  {
    HexValueInverts(b / 16);
    HexValueInverts(b % 16);
  }

  /** In a strict percent-encoding a `%` only ever starts the escape of a reserved byte. */
  lemma {:induction false} EscapesAreReserved(bs: seq<byte>)
    ensures EscapesReserved(PercentEncode(bs))
  {
    if bs != [] {
      EscapesAreReserved(bs[1..]);
      EscapesReservedByte(bs[0]);
      EscapesReservedAppend(PercentEncodeByte(bs[0]), PercentEncode(bs[1..]));
    }
  }

  /** `%7E` never occurs in a strict percent-encoding: `~` is unreserved, so it is never
      escaped. */
  lemma NoEscapedTilde(bs: seq<byte>)
    ensures !Contains(PercentEncode(bs), "%7E")
  {
    var s := PercentEncode(bs);
    EscapesAreReserved(bs);
    assert EscapesReserved(s);
    forall i | 0 <= i <= |s| - 3 ensures !OccursAt(s, "%7E", i) {
      if s[i] == '%' {
        assert s[i..i + 3][1] == s[i + 1] && s[i..i + 3][2] == s[i + 2];
        assert HexValue('7') * 16 + HexValue('E') == 126;
      }
    }
  }

  /** `_encode` is the strict percent-encoding of the UTF-8 bytes: the last two
      replacements never find anything to replace. */
  lemma EncodeIsPercentEncoding(s: string)
    ensures Encode(s) == PercentEncode(Utf8(s))
  {
    var bs := Utf8(s);
    PlusToPercent20(bs);
    var e := PercentEncode(bs);
    PercentEncodeAlphabet(bs);
    assert '*' !in e;
    ReplaceCharAbsent(e, '*', "%2A");
    NoEscapedTilde(bs);
    ReplaceAllAbsent(e, "%7E", "~");
  }

  lemma EncodeRoundTrip(s: string)
    ensures PercentDecode(Encode(s)) == Utf8(s)
  {
    EncodeIsPercentEncoding(s);
    PercentDecodeEncode(Utf8(s));
  }

  lemma EncodeAlphabet(s: string)
    ensures forall c :: c in Encode(s) ==> c == '%' || UnreservedChar(c)
  {
    EncodeIsPercentEncoding(s);
    PercentEncodeAlphabet(Utf8(s));
  }

  lemma UnreservedExcludes(e: string)
    requires forall c :: c in e ==> c == '%' || UnreservedChar(c)
    ensures '+' !in e && '*' !in e && ' ' !in e && '&' !in e && '=' !in e
  {
  }

  /** What `_encode` promises: its output decodes back to the UTF-8 bytes of its input,
      and consists only of unreserved characters and `%`, so it never holds `+`, `*`, a
      space, `&` or `=`. */
  lemma EncodeProperties(s: string)
    ensures PercentDecode(Encode(s)) == Utf8(s)
    ensures forall c :: c in Encode(s) ==> c == '%' || UnreservedChar(c)
    ensures '+' !in Encode(s) && '*' !in Encode(s) && ' ' !in Encode(s)
    ensures '&' !in Encode(s) && '=' !in Encode(s)
  {
    EncodeRoundTrip(s);
    EncodeAlphabet(s);
    UnreservedExcludes(Encode(s));
  }

  lemma EncodeSpace()
    ensures Encode(" ") == "%20"
  {
    EncodeIsPercentEncoding(" ");
    assert Utf8(" ") == [32];
  }

  lemma EncodeStar()
    ensures Encode("*") == "%2A"
  {
    EncodeIsPercentEncoding("*");
    assert Utf8("*") == [42];
  }

  lemma EncodeTilde()
    ensures Encode("~") == "~"
  {
    EncodeIsPercentEncoding("~");
    assert Utf8("~") == [126];
  }

  lemma EncodeSlash()
    ensures Encode("/") == "%2F"
  {
    EncodeIsPercentEncoding("/");
    assert Utf8("/") == [47];
  }

  /** The three replacements at work: ` ` and `*` are escaped, `~` is kept, and `/`
      (the path in the string to sign) is escaped. */
  lemma EncodeExamples()
    ensures Encode(" ") == "%20" && Encode("*") == "%2A" && Encode("~") == "~" && Encode("/") == "%2F"
  {
    EncodeSpace();
    EncodeStar();
    EncodeTilde();
    EncodeSlash();
  }

  // ---------------------------------------------------------------------------
  // AliyunAuth._generate_signature and prepare_request_params

  function EncodedPair(kv: Pair): string
  {
    Encode(kv.0) + "=" + Encode(kv.1)
  }

  /** `"&".join(f"{encode(k)}={encode(v)}" for k, v in sorted(params.items()))` */
  function CanonicalQuery(params: seq<Pair>): string
  {
    var sorted := SortPairs(params);
    Join(seq(|sorted|, i requires 0 <= i < |sorted| => EncodedPair(sorted[i])), '&')
  }

  /** `f"{verb}&{encode('/')}&{encode(canonical_query)}"` */
  function StringToSign(verb: string, params: seq<Pair>): string
  {
    verb + "&" + Encode("/") + "&" + Encode(CanonicalQuery(params))
  }

  /** `base64(HMAC-SHA1(secret + "&", string_to_sign))` */
  function Signature(p: Primitives, keySecret: string, verb: string, params: seq<Pair>): string
  {
    p.b64encode(p.hmacSha1(Utf8(keySecret + "&"), Utf8(StringToSign(verb, params))))
  }

  /** The canonical query holds one `encode(k)=encode(v)` field per parameter, separated
      by `&`, in ascending order of the parameters; every parameter appears as often as
      in the input, and each half of a field decodes to the UTF-8 of its key or value. */
  lemma CanonicalQueryParses(params: seq<Pair>)
    requires |params| > 0
    ensures var fields := Split(CanonicalQuery(params), '&');
      var sorted := SortPairs(params);
      && Sorted(sorted) && multiset(sorted) == multiset(params)
      && |fields| == |params| == |sorted|
      && forall i :: 0 <= i < |fields| ==>
           && Split(fields[i], '=') == [Encode(sorted[i].0), Encode(sorted[i].1)]
           && PercentDecode(Split(fields[i], '=')[0]) == Utf8(sorted[i].0)
           && PercentDecode(Split(fields[i], '=')[1]) == Utf8(sorted[i].1)
  {
    var sorted := SortPairs(params);
    SortPairsCorrect(params);
    var parts := seq(|sorted|, i requires 0 <= i < |sorted| => EncodedPair(sorted[i]));
    forall i | 0 <= i < |parts| ensures '&' !in parts[i] {
      EncodeProperties(sorted[i].0);
      EncodeProperties(sorted[i].1);
    }
    SplitJoin(parts, '&');
    forall i | 0 <= i < |parts|
      ensures Split(parts[i], '=') == [Encode(sorted[i].0), Encode(sorted[i].1)]
      ensures PercentDecode(Encode(sorted[i].0)) == Utf8(sorted[i].0)
      ensures PercentDecode(Encode(sorted[i].1)) == Utf8(sorted[i].1)
    {
      EncodeProperties(sorted[i].0);
      EncodeProperties(sorted[i].1);
      SplitAtSeparator(Encode(sorted[i].0), Encode(sorted[i].1), '=');
      SplitNoSeparator(Encode(sorted[i].1), '=');
    }
  }

  lemma SplitThreeFields(a: string, b: string, c: string, sep: char)
    requires sep !in a && sep !in b && sep !in c
    ensures Split(a + [sep] + b + [sep] + c, sep) == [a, b, c]
  {
    SplitNoSeparator(a, sep);
    SplitSnoc(a, b, sep);
    SplitSnoc(a + [sep] + b, c, sep);
  }

  /** The string to sign has three `&`-separated fields, the method, `%2F` and the
      encoded canonical query, and the last one decodes back to the canonical query. */
  lemma StringToSignParses(verb: string, params: seq<Pair>)
    requires '&' !in verb
    ensures Split(StringToSign(verb, params), '&') == [verb, "%2F", Encode(CanonicalQuery(params))]
    ensures PercentDecode(Encode(CanonicalQuery(params))) == Utf8(CanonicalQuery(params))
  {
    var cq := Encode(CanonicalQuery(params));
    EncodeSlash();
    EncodeProperties(CanonicalQuery(params));
    assert '&' !in "%2F";
    SplitThreeFields(verb, "%2F", cq, '&');
  }

  const ParamKeys: seq<string> := ["Format", "Version", "AccessKeyId", "SignatureMethod", "Timestamp",
    "SignatureVersion", "SignatureNonce", "Action", "Service", "ServiceParameters", "Signature"]

  /** The eleven parameter names are distinct, so they form a dictionary. */
  lemma ParamKeysDistinct()
    ensures forall i, j :: 0 <= i < j < |ParamKeys| ==> ParamKeys[i] != ParamKeys[j]
  {
    forall i, j | 0 <= i < j < |ParamKeys| ensures ParamKeys[i] != ParamKeys[j] {
      if |ParamKeys[i]| == |ParamKeys[j]| {
        assert ParamKeys[i][0] != ParamKeys[j][0];
      }
    }
  }

  /** The ten parameters every request carries, before signing. `timestamp` is the UTC
      clock formatted as `%Y-%m-%dT%H:%M:%SZ` and `nonce` is `str(uuid.uuid4())`, both
      read by the caller. */
  function BaseParams(p: Primitives, keyId: string, action: string, service: string,
                      serviceParams: seq<Pair>, timestamp: string, nonce: string): (r: seq<Pair>)
    ensures |r| == 10
    ensures forall i :: 0 <= i < 10 ==> r[i].0 == ParamKeys[i]
    ensures r[0].1 == "JSON" && r[1].1 == "2022-03-02" && r[3].1 == "HMAC-SHA1" && r[5].1 == "1.0"
    ensures r[2].1 == keyId && r[4].1 == timestamp && r[6].1 == nonce
    ensures r[7].1 == action && r[8].1 == service && r[9].1 == p.jsonDumps(serviceParams)
  {
    var values := ["JSON", "2022-03-02", keyId, "HMAC-SHA1", timestamp, "1.0", nonce, action, service,
                   p.jsonDumps(serviceParams)];
    seq(10, i requires 0 <= i < 10 => (ParamKeys[i], values[i]))
  }

  /** `params["Signature"] = self._generate_signature("POST", params)`: the signature of
      the parameters as they stand, appended under a key they do not already use. */
  function Signed(p: Primitives, keySecret: string, params: seq<Pair>): (r: seq<Pair>)
    ensures |r| == |params| + 1 && r[..|params|] == params
    ensures r[|params|] == ("Signature", Signature(p, keySecret, "POST", params))
  {
    params + [("Signature", Signature(p, keySecret, "POST", params))]
  }

  /** `prepare_request_params`: the eleven keys of `ParamKeys`, in that order, and the
      `Signature` signs the other ten exactly as they are sent. */
  function PrepareRequestParams(p: Primitives, keyId: string, keySecret: string, action: string,
                                service: string, serviceParams: seq<Pair>, timestamp: string,
                                nonce: string): (r: seq<Pair>)
    ensures |r| == |ParamKeys| == 11
    ensures forall i :: 0 <= i < 11 ==> r[i].0 == ParamKeys[i]
    ensures r[..10] == BaseParams(p, keyId, action, service, serviceParams, timestamp, nonce)
    ensures r[10].1 == Signature(p, keySecret, "POST", r[..10])
  {
    Signed(p, keySecret, BaseParams(p, keyId, action, service, serviceParams, timestamp, nonce))
  }

  // ---------------------------------------------------------------------------
  // AliyunCensor

  const Endpoint := "https://green-cip.cn-shanghai.aliyuncs.com"
  const TextLimit := 600
  const MaxRetries := 3

  /** One entry of `Data.Result` in a reply. */
  datatype ResultItem = ResultItem(riskWords: Option<string>, description: Option<string>)

  /** `Data` of a reply when it is a non-empty object; keys it lacks are `None` (`RiskLevel`)
      or the empty list (`Result`). */
  datatype ReplyData = ReplyData(riskLevel: Option<string>, result: seq<ResultItem>)

  /** A decoded reply: `Data` is `None` when missing, `null` or empty; `text` is `str(result)`. */
  datatype Reply = Reply(data: Option<ReplyData>, text: string)

  /** Which request: the chunk (`slot`, 0 for an image) and the retry attempt. */
  datatype CallId = CallId(slot: nat, attempt: nat)

  /** The outside world of one detector: the primitives, the credentials, the clock and
      nonce read for each request, and the server's answer to each signed request. */
  datatype Env = Env(
    p: Primitives, keyId: string, keySecret: string,
    timestamp: CallId -> string, nonce: CallId -> string,
    post: (CallId, string, seq<Pair>) -> HttpOutcome<Reply>)

  /** The provider's risk vocabulary, case-insensitively: `none` and `low` pass, `high`
      blocks, anything else (a missing level included) goes to review. */
  function MapRiskLevel(level: Option<string>): (r: RiskLevel)
    ensures r != Fallback
    ensures r == Pass <==> Lower(level.GetOr("")) == "none" || Lower(level.GetOr("")) == "low"
    ensures r == Block <==> Lower(level.GetOr("")) == "high"
    ensures level.None? ==> r == Review
  {
    var l := Lower(level.GetOr(""));
    if l == "none" then Pass
    else if l == "low" then Pass
    else if l == "high" then Block
    else Review
  }

  /** `[word.strip() for word in words.split(",")]`, as a set. */
  function SplitWords(words: string): set<string>
  {
    set j | 0 <= j < |Split(words, ',')| :: Strip(Split(words, ',')[j])
  }

  /** The risk words one `Result` entry contributes. */
  function ItemRiskWords(item: ResultItem): set<string>
  {
    if item.riskWords.Some? then SplitWords(item.riskWords.value) else {}
  }

  /** The union of `f(x)` over the elements of `xs`, accumulated left to right. */
  function UnionOf<T>(xs: seq<T>, f: T -> set<string>): set<string>
  {
    if xs == [] then {} else UnionOf(xs[..|xs| - 1], f) + f(xs[|xs| - 1])
  }

  lemma {:induction false} UnionOfMembership<T>(xs: seq<T>, f: T -> set<string>, w: string)
    ensures w in UnionOf(xs, f) <==> exists i :: 0 <= i < |xs| && w in f(xs[i])
  {
    if xs != [] {
      var init := xs[..|xs| - 1];
      UnionOfMembership(init, f, w);
      if w in UnionOf(init, f) {
        var i :| 0 <= i < |init| && w in f(init[i]);
        assert init[i] == xs[i];
      }
      if exists i :: 0 <= i < |xs| && w in f(xs[i]) {
        var i :| 0 <= i < |xs| && w in f(xs[i]);
        if i < |init| {
          assert init[i] == xs[i];
        }
      }
    }
  }

  /** The risk words of every `Result` entry that has `RiskWords`. */
  function RiskWordsOf(items: seq<ResultItem>): set<string>
  {
    UnionOf(items, ItemRiskWords)
  }

  /** A word is a risk word exactly when it is a stripped comma-separated piece of some
      entry's `RiskWords`. */
  lemma RiskWordsMembership(items: seq<ResultItem>, w: string)
    ensures w in RiskWordsOf(items) <==> exists i :: 0 <= i < |items| && w in ItemRiskWords(items[i])
  {
    UnionOfMembership(items, ItemRiskWords, w);
  }

  /** The loop of `_check_single_text` that fills `risk_words_set`. */
  method CollectRiskWords(items: seq<ResultItem>) returns (words: set<string>)
    ensures words == RiskWordsOf(items)
  {
    words := {};
    for i := 0 to |items|
      invariant words == RiskWordsOf(items[..i])
    {
      assert items[..i + 1][..i] == items[..i];
      if items[i].riskWords.Some? {
        words := words + SplitWords(items[i].riskWords.value);
      }
      assert words == RiskWordsOf(items[..i]) + ItemRiskWords(items[i]);
    }
    assert items[..|items|] == items;
  }

  /** The truthy `Description`s of the `Result` entries. */
  function Descriptions(items: seq<ResultItem>): set<string>
  {
    set i | 0 <= i < |items| && items[i].description.Some? && items[i].description.value != "" :: items[i].description.value
  }

  const MissingDataPrefix := "内容审核返回数据异常: "

  /** The body of a request handler after `raise_for_status`: a reply without `Data`
      raises `CensorError`, which the retry wrapper does not retry. */
  function HandleReply(o: HttpOutcome<Reply>, reasons: ReplyData -> set<string>): Attempt<Verdict>
  {
    match o
    case TransportFailure(m) => ClientError(m)
    case TimedOut => Raised(TimeoutMessage)
    case Received(reply) =>
      match reply.data
      case None => Raised(MissingDataPrefix + reply.text)
      case Some(d) => Returned(Verdict(MapRiskLevel(d.riskLevel), reasons(d)))
  }

  function TextReasons(d: ReplyData): set<string>
  {
    RiskWordsOf(d.result)
  }

  function ImageReasons(d: ReplyData): set<string>
  {
    Descriptions(d.result)
  }

  /** The signed parameters of a text request. */
  function TextRequest(env: Env, id: CallId, content: string): seq<Pair>
  {
    PrepareRequestParams(env.p, env.keyId, env.keySecret, "TextModerationPlus", "chat_detection_pro",
                         [("content", content)], env.timestamp(id), env.nonce(id))
  }

  /** What the server answers to each attempt for chunk `slot`. */
  function TextOutcomes(env: Env, slot: nat, content: string): nat -> HttpOutcome<Reply>
  {
    (a: nat) => env.post(CallId(slot, a), Endpoint, TextRequest(env, CallId(slot, a), content))
  }

  /** The successive calls of the undecorated `_check_single_text`, given what the server
      answers to each. */
  function TextCalls(outcomes: nat -> HttpOutcome<Reply>): nat -> Attempt<Verdict>
  {
    (a: nat) => HandleReply(outcomes(a), TextReasons)
  }

  /** `_check_single_text`, decorated with `censor_retry(max_retries=3)`, given what the
      server answers to each attempt. */
  function CheckSingleTextWith(outcomes: nat -> HttpOutcome<Reply>): Result<Verdict>
  {
    Run(MaxRetries, TextCalls(outcomes)).result
  }

  function CheckSingleText(env: Env, slot: nat, content: string): Result<Verdict>
  {
    CheckSingleTextWith(TextOutcomes(env, slot, content))
  }

  /** The check of chunk `i`. */
  function ChunkCheck(env: Env): (nat, string) -> Result<Verdict>
  {
    (i: nat, c: string) => CheckSingleText(env, i, c)
  }

  /** `detect_text` */
  function DetectText(env: Env, text: string): Result<Verdict>
  {
    ChunkedVerdict(text, TextLimit, ChunkCheck(env))
  }

  const Base64Unsupported := "Aliyun接口暂不支持base64图片"
  const UnexpectedInput := "预期外的输入"

  /** The signed parameters of an image request. */
  function ImageRequest(env: Env, id: CallId, image: string): seq<Pair>
  {
    PrepareRequestParams(env.p, env.keyId, env.keySecret, "ImageModeration", "baselineCheck",
                         [("imageUrl", image), ("infoType", "customImage,textInImage")],
                         env.timestamp(id), env.nonce(id))
  }

  /** What the server answers to each attempt for an `http…` image. */
  function ImageOutcomes(env: Env, image: string): nat -> HttpOutcome<Reply>
  {
    (a: nat) => env.post(CallId(0, a), Endpoint, ImageRequest(env, CallId(0, a), image))
  }

  /** One call of the undecorated `detect_image`; the server's answer `o` is consulted
      only for an `http…` image. */
  function ImageAttempt(image: string, o: HttpOutcome<Reply>): Attempt<Verdict>
  {
    if StartsWith(image, "base64://") then Returned(Verdict(Review, {Base64Unsupported}))
    else if !StartsWith(image, "http") then Raised(UnexpectedInput)
    else HandleReply(o, ImageReasons)
  }

  function ImageCalls(image: string, outcomes: nat -> HttpOutcome<Reply>): nat -> Attempt<Verdict>
  {
    (a: nat) => ImageAttempt(image, outcomes(a))
  }

  /** `detect_image`, decorated with `censor_retry(max_retries=3)`, given what the server
      answers to each attempt. */
  function DetectImageWith(image: string, outcomes: nat -> HttpOutcome<Reply>): RetryRun<Verdict>
  {
    Run(MaxRetries, ImageCalls(image, outcomes))
  }

  function DetectImage(env: Env, image: string): RetryRun<Verdict>
  {
    DetectImageWith(image, ImageOutcomes(env, image))
  }

  /** A reply with `Data` decides the chunk's verdict by its risk level and risk words
      after one request; a reply without it, or a timeout, fails at once, its message
      prefixed by the retry wrapper; a chunk whose three requests all fail in transport fails with the
      exhaustion message after three requests. */
  lemma CheckSingleTextOutcomes(outcomes: nat -> HttpOutcome<Reply>)
    ensures var o := outcomes(0);
      && (o.Received? && o.reply.data.Some? ==>
            var d := o.reply.data.value;
            Run(MaxRetries, TextCalls(outcomes)) == RetryRun(Ok(Verdict(MapRiskLevel(d.riskLevel), RiskWordsOf(d.result))), 1))
      && (o.Received? && o.reply.data.None? ==>
            Run(MaxRetries, TextCalls(outcomes)) == RetryRun(Err(CensorError(UnknownErrorPrefix + MissingDataPrefix + o.reply.text)), 1))
    ensures outcomes(0).TimedOut? ==>
      Run(MaxRetries, TextCalls(outcomes)) == RetryRun(Err(CensorError(UnknownErrorPrefix + TimeoutMessage)), 1)
    ensures (forall a :: 0 <= a < MaxRetries ==> outcomes(a).TransportFailure?) ==>
      Run(MaxRetries, TextCalls(outcomes)) == RetryRun(Err(CensorError(ExhaustedMessage(MaxRetries))), MaxRetries)
  {
    RunFromShape(MaxRetries, TextCalls(outcomes), 0);
    if forall a :: 0 <= a < MaxRetries ==> outcomes(a).TransportFailure? {
      RetryExhausts(MaxRetries, TextCalls(outcomes));
    }
  }

  /** A text within the limit gets the verdict of its one chunk check, and a failed check
      fails `detect_text` with the message prefixed once more. */
  lemma ShortTextOutcome(env: Env, text: string)
    requires 0 < |text| <= TextLimit
    ensures var r := CheckSingleText(env, 0, text);
      DetectText(env, text) == if r.Ok? then r else Err(CensorError(DetectFailurePrefix + r.fault.message))
  {
  }

  /** A `base64://` image is answered with review and a fixed reason, whatever the server
      would say, so no request is needed; an input that is neither `base64://` nor
      `http…` fails on the first call and is not retried. */
  lemma ImageInputDispatch(image: string, outcomes1: nat -> HttpOutcome<Reply>, outcomes2: nat -> HttpOutcome<Reply>)
    ensures StartsWith(image, "base64://") ==>
      DetectImageWith(image, outcomes1) == DetectImageWith(image, outcomes2)
      == RetryRun(Ok(Verdict(Review, {Base64Unsupported})), 1)
    ensures !StartsWith(image, "base64://") && !StartsWith(image, "http") ==>
      DetectImageWith(image, outcomes1) == RetryRun(Err(CensorError(UnknownErrorPrefix + UnexpectedInput)), 1)
  {
    assert ImageCalls(image, outcomes1)(0) == ImageAttempt(image, outcomes1(0));
    assert ImageCalls(image, outcomes2)(0) == ImageAttempt(image, outcomes2(0));
    if StartsWith(image, "base64://") {
      FirstCallDecides(MaxRetries, ImageCalls(image, outcomes1));
      FirstCallDecides(MaxRetries, ImageCalls(image, outcomes2));
    } else if !StartsWith(image, "http") {
      FirstCallDecides(MaxRetries, ImageCalls(image, outcomes1));
    }
  }

  /** An `http…` image whose first reply has `Data` is judged by its risk level, with the
      non-empty `Description`s as reasons, after one request. */
  lemma ImageReplyOutcome(image: string, outcomes: nat -> HttpOutcome<Reply>)
    requires StartsWith(image, "http")
    requires outcomes(0).Received? && outcomes(0).reply.data.Some?
    ensures var d := outcomes(0).reply.data.value;
      DetectImageWith(image, outcomes) == RetryRun(Ok(Verdict(MapRiskLevel(d.riskLevel), Descriptions(d.result))), 1)
  {
    assert image[0] == 'h';
    RunFromShape(MaxRetries, ImageCalls(image, outcomes), 0);
  }
}

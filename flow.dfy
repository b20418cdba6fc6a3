/** The orchestrator (censor_flow.py, `CensorFlow`): which detectors it creates, how it
    turns a detector's answer or exception into a `CensorResult`, the two-attempt image
    path, and the order of teardown. The detectors themselves appear as the answers
    they give. */
module Flow {
  import opened Wrappers
  import opened Codec
  import opened Strings
  import opened CensorTypes
  import opened Crypto
  import opened ImageFormat
  import Local

  const NoTextDetector := "文本审核器未成功初始化，请检查配置"
  const NoImageDetector := "图片审核未启用或未成功初始化，请检查配置"
  const BlacklistPrefix := "黑名单用户"
  const QqImageHost := "multimedia.nt.qq.com.cn"
  const Base64Scheme := "base64://"

  datatype Provider = AliyunProvider | LlmProvider | TencentProvider | LocalProvider
  {
    /** The configuration value that selects this provider. */
    function Name(): string
    {
      match this
      case AliyunProvider => "Aliyun"
      case LlmProvider => "LLM"
      case TencentProvider => "Tencent"
      case LocalProvider => "Local"
    }
  }

  /** A detector instance; `id` stands for object identity (`is`), and `useLogic` is the
      `use_logic` option a `Local` instance was built with (`None` for the others). */
  datatype Detector = Detector(provider: Provider, id: nat, useLogic: Option<bool>)

  /** `_create_censor(provider, configs)`. `constructs(q)` is false when the
      constructor of provider `q` raises. */
  function CreateCensor(name: string, constructs: Provider -> bool): (r: Option<Provider>)
    ensures r.Some? ==> r.value.Name() == name && constructs(r.value)
    ensures forall q: Provider :: q.Name() == name && constructs(q) ==> r == Some(q)
    ensures name !in {"Aliyun", "LLM", "Tencent", "Local"} ==> r == None
  {
    if name == "" then None
    else if name == "Aliyun" then (if constructs(AliyunProvider) then Some(AliyunProvider) else None)
    else if name == "LLM" then (if constructs(LlmProvider) then Some(LlmProvider) else None)
    else if name == "Tencent" then (if constructs(TencentProvider) then Some(TencentProvider) else None)
    else if name == "Local" then (if constructs(LocalProvider) then Some(LocalProvider) else None)
    else None
  }

  /** The three channels a `CensorFlow` holds. */
  datatype Channels = Channels(text: Option<Detector>, image: Option<Detector>, userid: Detector)

  /** The `use_logic` option of a `Local` text or image detector, and of the user-id
      detector (which is built with no patterns). */
  const LocalUseLogic := true
  const UseridUseLogic := false

  /** The configuration `_create_censor` hands to the provider's constructor, as far
      as the model sees it: only `Local` takes `use_logic`. */
  function Instance(provider: Option<Provider>, id: nat): Option<Detector>
  {
    match provider
    case None => None
    case Some(q) => Some(Detector(q, id, if q == LocalProvider then Some(LocalUseLogic) else None))
  }

  /** `CensorFlow.__init__`: the text detector, an image detector only when image
      review is enabled and a provider is named, and a `Local` user-id detector with
      `use_logic` off. A `Local` text or image detector has `use_logic` on. Each is a
      separate instance. */
  function NewChannels(textProvider: string, imageProvider: string, enableImage: bool, constructs: Provider -> bool): (c: Channels)
    ensures c.text.Some? <==> CreateCensor(textProvider, constructs).Some?
    ensures c.text.Some? ==> c.text.value.provider.Name() == textProvider && constructs(c.text.value.provider)
    ensures c.image.Some? <==> enableImage && imageProvider != "" && CreateCensor(imageProvider, constructs).Some?
    ensures c.image.Some? ==> c.image.value.provider.Name() == imageProvider && constructs(c.image.value.provider)
    ensures c.text.Some? ==> c.text.value.useLogic == (if c.text.value.provider == LocalProvider then Some(true) else None)
    ensures c.image.Some? ==> c.image.value.useLogic == (if c.image.value.provider == LocalProvider then Some(true) else None)
    ensures c.userid.provider == LocalProvider && c.userid.useLogic == Some(false)
    ensures c.text.Some? ==> c.text.value.id != c.userid.id
    ensures c.image.Some? ==> c.image.value.id != c.userid.id && (c.text.Some? ==> c.image != c.text)
  {
    var image := if enableImage && imageProvider != "" then Instance(CreateCensor(imageProvider, constructs), 1) else None;
    Channels(Instance(CreateCensor(textProvider, constructs), 0), image, Detector(LocalProvider, 2, Some(UseridUseLogic)))
  }

  /** `extra` is attached only when it is a non-empty dictionary. */
  predicate Truthy(extra: Option<Extra>)
  {
    extra.Some? && extra.value != map[]
  }

  /** `submit_text`: `detect` is what the text detector answers for a text. A missing
      detector raises; an exception from the detector becomes a Review carrying its
      message. */
  function SubmitText(c: Channels, content: string, source: string, now: int, extra: Option<Extra>,
                      detect: string -> Result<Verdict>): (r: Result<CensorResult>)
    ensures r.Err? <==> c.text.None?
    ensures r.Err? ==> r.fault == Fault(Runtime, NoTextDetector)
    ensures r.Ok? ==> r.value.message == NewMessage(content, source, None, now)
    ensures r.Ok? && detect(content).Ok? ==>
      && r.value.riskLevel == detect(content).value.risk && r.value.reason == detect(content).value.reasons
      && r.value.extra == (if Truthy(extra) then extra else None)
    ensures r.Ok? && detect(content).Err? ==>
      r.value.riskLevel == Review && r.value.reason == {detect(content).fault.message} && r.value.extra == None
  {
    if c.text.None? then Err(Fault(Runtime, NoTextDetector))
    else
      var msg := NewMessage(content, source, None, now);
      match detect(msg.content)
      case Ok(v) => Ok(if Truthy(extra) then CensorResult(msg, v.risk, v.reasons, extra) else NewResult(msg, v.risk, v.reasons))
      case Err(e) => Ok(NewResult(msg, Review, {e.message}))
  }

  /** What the download step leaves behind: the content the result reports and the
      `base64://` fallback input, if any. */
  datatype Preparation = Preparation(shown: string, fallback: Option<string>)

  /** The download step of `submit_image`. Only `http…` content is downloaded; a
      successful download always yields a fallback, unless sniffing its format raised;
      the reported content becomes a data URL only when the format was recognised. */
  function Prepare(p: Primitives, content: string, download: Result<seq<byte>>): Preparation
  {
    if !StartsWith(content, "http") || download.Err? then Preparation(content, None)
    else
      var b64 := p.b64encode(download.value);
      match GetImageFormat(p, b64)
      case Err(_) => Preparation(content, None)
      case Ok(None) => Preparation(content, Some(Base64Scheme + b64))
      case Ok(Some(format)) => Preparation(DataUrl(format, b64), Some(Base64Scheme + b64))
  }

  /** The first attempt's input: QQ image links are switched from `https://` to
      `http://`. */
  function FirstAttemptInput(content: string): string
  {
    if Contains(content, QqImageHost) then ReplaceAll(content, "https://", "http://") else content
  }

  /** `submit_image`: `download` is the outcome of fetching `content` (consulted only
      for `http…` content) and `detect` what the image detector answers for an input.
      `None` is what the source returns when the first attempt fails and there is no
      fallback. */
  method SubmitImage(c: Channels, content: string, source: string, now: int, p: Primitives,
                     download: Result<seq<byte>>, detect: string -> Result<Verdict>)
    returns (r: Result<Option<CensorResult>>)
    ensures r.Err? <==> c.image.None?
    ensures r.Err? ==> r.fault == Fault(Runtime, NoImageDetector)
    ensures r.Ok? ==>
      var prep := Prepare(p, content, download);
      var msg := NewMessage(content, source, None, now).(content := prep.shown);
      var first := detect(FirstAttemptInput(content));
      && (first.Ok? ==> r.value == Some(NewResult(msg, first.value.risk, first.value.reasons)))
      && (first.Err? && prep.fallback.None? ==> r.value == None)
      && (first.Err? && prep.fallback.Some? && detect(prep.fallback.value).Ok? ==>
            r.value == Some(NewResult(msg, detect(prep.fallback.value).value.risk, detect(prep.fallback.value).value.reasons)))
      && (first.Err? && prep.fallback.Some? && detect(prep.fallback.value).Err? ==>
            r.value == Some(NewResult(msg, Review, {detect(prep.fallback.value).fault.message})))
  {
    if c.image.None? {
      return Err(Fault(Runtime, NoImageDetector));
    }
    var msg := NewMessage(content, source, None, now);
    var fallback: Option<string> := None;
    if StartsWith(content, "http") && download.Ok? {
      var b64 := p.b64encode(download.value);
      var format := GetImageFormat(p, b64);
      if format.Ok? {
        if format.value.Some? {
          msg := msg.(content := DataUrl(format.value.value, b64));
        }
        fallback := Some(Base64Scheme + b64);
      }
    }
    var input := content;
    if Contains(content, QqImageHost) {
      input := ReplaceAll(content, "https://", "http://");
    }
    var first := detect(input);
    if first.Ok? {
      return Ok(Some(NewResult(msg, first.value.risk, first.value.reasons)));
    }
    if fallback.None? {
      return Ok(None);
    }
    var second := detect(fallback.value);
    if second.Ok? {
      return Ok(Some(NewResult(msg, second.value.risk, second.value.reasons)));
    }
    r := Ok(Some(NewResult(msg, Review, {second.fault.message})));
  }

  /** `submit_userid`: the risk passes through; found entries collapse into one reason
      with the blacklist prefix, where `render` is `str(reasons)[1:-1]`; an exception
      becomes a Review carrying its message. */
  function SubmitUserid(userid: string, source: string, now: int, detect: string -> Result<Verdict>,
                        render: set<string> -> string): (r: CensorResult)
    ensures r.message == NewMessage(userid, source, None, now) && r.extra == None
    ensures detect(userid).Ok? ==> r.riskLevel == detect(userid).value.risk
    ensures detect(userid).Ok? && detect(userid).value.reasons != {} ==>
      r.reason == {BlacklistPrefix + render(detect(userid).value.reasons)}
    ensures detect(userid).Ok? && detect(userid).value.reasons == {} ==> r.reason == {}
    ensures detect(userid).Err? ==> r.riskLevel == Review && r.reason == {detect(userid).fault.message}
  {
    var msg := NewMessage(userid, source, None, now);
    match detect(msg.content)
    case Ok(v) => NewResult(msg, v.risk, if v.reasons != {} then {BlacklistPrefix + render(v.reasons)} else {})
    case Err(e) => NewResult(msg, Review, {e.message})
  }

  /** The order in which `close` visits the detectors: text, then image unless it is
      the same instance, then user id. */
  function CloseOrder(c: Channels): seq<Detector>
  {
    (if c.text.Some? then [c.text.value] else [])
    + (if c.image.Some? && c.image != c.text then [c.image.value] else [])
    + [c.userid]
  }

  /** `close`: `fails(d)` says that closing `d` raises. The result is the sequence of
      `close` calls made; the first failure ends it, and the exception is swallowed. */
  method Close(c: Channels, fails: Detector -> bool) returns (closed: seq<Detector>)
    ensures 1 <= |closed| && closed <= CloseOrder(c)
    ensures forall i :: 0 <= i < |closed| - 1 ==> !fails(closed[i])
    ensures |closed| < |CloseOrder(c)| ==> fails(closed[|closed| - 1])
  {
    closed := [];
    if c.text.Some? {
      closed := closed + [c.text.value];
      if fails(c.text.value) {
        return;
      }
    }
    if c.image.Some? && c.image != c.text {
      closed := closed + [c.image.value];
      if fails(c.image.value) {
        return;
      }
    }
    closed := closed + [c.userid];
  }

  // ---------------------------------------------------------------------------
  // Properties

  /** Only the four exact names select a provider; the empty name and a lower-case
      variant select none. */
  lemma ProviderNames(constructs: Provider -> bool)
    ensures CreateCensor("", constructs) == None
    ensures CreateCensor("aliyun", constructs) == None && CreateCensor("llm", constructs) == None
    ensures forall q: Provider :: constructs(q) ==> CreateCensor(q.Name(), constructs) == Some(q)
    ensures forall q: Provider :: !constructs(q) ==> CreateCensor(q.Name(), constructs) == None
  {
  }

  /** For channels built by `__init__`, `close` visits every detector once, in the
      order text, image, user id: the identity test never skips the image detector. */
  lemma {:induction false} CloseVisitsEachOnce(textProvider: string, imageProvider: string, enableImage: bool, constructs: Provider -> bool)
    ensures var c := NewChannels(textProvider, imageProvider, enableImage, constructs);
      && CloseOrder(c) == (if c.text.Some? then [c.text.value] else []) + (if c.image.Some? then [c.image.value] else []) + [c.userid]
      && forall i, j :: 0 <= i < j < |CloseOrder(c)| ==> CloseOrder(c)[i] != CloseOrder(c)[j]
  {
    var c := NewChannels(textProvider, imageProvider, enableImage, constructs);
    assert c.image.Some? && c.text.Some? ==> c.image.value.id == 1 && c.text.value.id == 0;
    var o := CloseOrder(c);
    forall i, j | 0 <= i < j < |o| ensures o[i] != o[j] {
      assert forall k :: 0 <= k < |o| ==> o[k].id == (if o[k] == c.userid then 2 else if c.text.Some? && o[k] == c.text.value then 0 else 1);
    }
  }

  /** The fallback is the downloaded bytes' base64 text behind the `base64://` scheme,
      so a detector that strips the nine-character scheme sees exactly that text; the
      reported content is its data URL exactly when the format was recognised. */
  lemma {:induction false} FallbackCarriesDownload(p: Primitives, content: string, data: seq<byte>)
    requires StartsWith(content, "http")
    ensures var prep := Prepare(p, content, Ok(data));
      var b64 := p.b64encode(data);
      && (prep.fallback.Some? <==> GetImageFormat(p, b64).Ok?)
      && (prep.fallback.Some? ==> StartsWith(prep.fallback.value, Base64Scheme) && prep.fallback.value[9..] == b64)
      && (GetImageFormat(p, b64).Ok? && GetImageFormat(p, b64).value.Some? ==>
            prep.shown == DataUrl(GetImageFormat(p, b64).value.value, b64))
      && (GetImageFormat(p, b64) == Ok(None) ==> prep.shown == content)
  {
    var b64 := p.b64encode(data);
    var f := Base64Scheme + b64;
    assert f[..9] == Base64Scheme;
    assert f[9..] == b64;
  }

  /** Content that is not a URL, or whose download failed, has no fallback and is
      reported unchanged. */
  lemma NoDownloadNoFallback(p: Primitives, content: string, download: Result<seq<byte>>)
    requires !StartsWith(content, "http") || download.Err?
    ensures Prepare(p, content, download) == Preparation(content, None)
  {
  }

  /** A QQ image link `https://…` is first submitted as `http://…` with the rest of
      the link unchanged; other content is submitted as it is. */
  lemma {:induction false} QqLinkDowngraded(rest: string)
    requires Contains(rest, QqImageHost) && !Contains(rest, "https://")
    ensures FirstAttemptInput("https://" + rest) == "http://" + rest
  {
    var s := "https://" + rest;
    assert Contains(s, QqImageHost) by {
      var i :| 0 <= i <= |rest| - |QqImageHost| && OccursAt(rest, QqImageHost, i);
      assert s[i + 8..i + 8 + |QqImageHost|] == rest[i..i + |QqImageHost|];
      assert OccursAt(s, QqImageHost, i + 8);
    }
    assert s[..|"https://"|] == "https://";
    assert s[|"https://"|..] == rest;
    ReplaceAllAbsent(rest, "https://", "http://");
  }

  /** The user-id channel is a `Local` detector built with `use_logic` off (the
      option `NewChannels` gives it): a blacklist hit reports Block with the prefixed
      rendering of the hits, no hit reports Pass with no reasons. */
  lemma {:induction false} UseridBlacklistHit(s: Local.LocalState, engine: Local.Engine, userid: string, source: string, now: int,
                                               render: set<string> -> string)
    requires Local.Coherent(s, UseridUseLogic) && s.isBuilt && engine.find(s.matcher, userid).Ok?
    ensures var detect := (u: string) => Local.AfterDetectText(s, UseridUseLogic, engine, {}, u).result;
      var found := engine.find(s.matcher, userid).value;
      var r := SubmitUserid(userid, source, now, detect, render);
      && (found != {} ==> r.riskLevel == Block && r.reason == {BlacklistPrefix + render(found)})
      && (found == {} ==> r.riskLevel == Pass && r.reason == {})
  {
    Local.DetectTextVerdict(s, UseridUseLogic, engine, {}, userid);
  }
}

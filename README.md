# aiocensor detection core in Dafny

This project models the detection layer of the AstrBot content-moderation plugin
`astrbot_plugin_aiocensor` and proves properties of it:

- the risk scale and result types;
- the retry decorator `censor_retry` and the magic-byte sniffer `get_image_format`;
- the Alibaba Cloud and Tencent Cloud moderation clients (request signing, text chunking,
  verdict mapping and aggregation, image input dispatch);
- the LLM detector (chat-completions request and verdict tokens);
- the local keyword detector's lifecycle;
- the `CensorFlow` orchestrator.

The outside world is a set of parameters rather than code:

- The cryptographic and encoding primitives (SHA-256, HMAC, base64, `json.dumps`) are
  uninterpreted functions in `Crypto.Primitives`.
- Each HTTP exchange is an oracle `nat -> HttpOutcome<Reply>` that answers each retry attempt.
- The clock, the date and the nonce are arguments.
- The external Aho-Corasick matcher is an `Engine` with abstract `compile` and `find`.

Modules, one per source file or shared concern:

| module | file | models |
|---|---|---|
| `Wrappers`, `Strings`, `Codec` | wrappers.dfy, strings.dfy, codec.dfy | `Option`; Python string operations (`in`, `replace`, `split`, `join`, `lower`, `strip`, `str(int)`); UTF-8, hex digests and the percent-encoding of section 2.3 of RFC 3986 |
| `CensorTypes` | types.dfy | common/types.py |
| `Crypto` | crypto.dfy | the primitives, and `hexdigest` over them |
| `Retry` | retry.dfy | `censor_retry` (common/utils.py) |
| `ImageFormat` | imageformat.dfy | `get_image_format` (common/utils.py) and the `data:` URL (RFC 2397) built from it |
| `Chunking` | chunking.dfy | `_split_text` and the `detect_text` aggregation shared by both cloud clients |
| `Sorting` | sorting.dfy | `sorted(params.items())` |
| `Aliyun`, `Tencent`, `Llm`, `Local` | aliyun.dfy, tencent.dfy, llm.dfy, local.dfy | the four detectors under censor/ |
| `Flow` | flow.dfy | censor_flow.py |

The code takes the source's own form:
- `LocalCensor` is a class whose methods update its fields. Each method is tied to a
  specification function on a `LocalState` value, and the lifecycle properties are lemmas
  about those functions.
- `_split_text`, the aggregation loop, the risk-word loops, the retry loop,
  `submit_image` and `close` are methods proved against functions or stated outcomes.
- Everything else is functions and lemmas.

## Model

| member | source | states |
|---|---|---|
| CensorTypes.RiskFromValue | common/types.py:7-11 | the lookup by value is defined exactly for -1..2 and returns the member with that value |
| CensorTypes.RiskValueOrder | common/types.py:7-11 | Fallback < Pass < Review < Block by value, distinct members have distinct values, and lookup inverts `.value` |
| CensorTypes.MaxRisk | censor/aliyun.py:228-230 | the kept risk is an upper bound of both by value and is one of the two |
| CensorTypes.NewMessage | common/types.py:25-30 | content and source are kept; a non-zero timestamp is kept; a missing or zero one becomes the clock reading |
| CensorTypes.NewResult | common/types.py:45-48 | `extra` is `None` when not supplied; the other fields are as given |
| CensorTypes.CensorError | common/types.py:118-133 | the error's string form is exactly its message |
| Retry.CensorRetry | common/utils.py:36-47 | the loop's result and call count equal `Run`; it sleeps `base_delay * 2**i` after the i-th failed call, once fewer than it calls |
| Retry.RunFromShape | common/utils.py:37-47 | in every run the calls before the last raised a transport error, and the last call decides: its value, its message behind the unknown-error prefix, or exhaustion |
| Retry.FirstCallDecides | common/utils.py:38-45 | a first call that returns, or raises anything but a transport error, ends the run after one call |
| Retry.RetryCallsBounded | common/utils.py:37 | at most `max_retries` calls, none when `max_retries <= 0` |
| Retry.RetryReturnsFirstSuccess | common/utils.py:38-39 | a success returns the last call's value unchanged, and every earlier call failed in transport |
| Retry.RetryStopsOnOtherError | common/utils.py:44-45 | any other exception ends the loop at that call with `发生未知错误: <message>` |
| Retry.RetryExhausts | common/utils.py:40-47 | when every call fails in transport, exactly `max(max_retries, 0)` calls are made and the exhaustion error names `max_retries` |
| Retry.RetryTransientFaults | common/utils.py:37-43 | `k` transport failures and then a value succeed after `k + 1` calls if the budget allows, and exhaust it otherwise |
| ImageFormat.Format.Name | common/utils.py:56-78 | the format name is one of the nine names the sniffer returns |
| ImageFormat.FormatOf | common/utils.py:56-80 | the result carries its signature, no earlier format in the chain matches, and `None` means no signature matches |
| ImageFormat.GetImageFormat | common/utils.py:54-80 | an error exactly when base64 decoding fails, carrying its fault; a format found is the first in the chain whose signature the decoded bytes carry; `None` means they carry none |
| ImageFormat.PngAndJpegRecognised | common/utils.py:56-59 | the PNG signature gives `png` and `FF D8 FF` gives `jpeg`, whatever follows |
| ImageFormat.RiffIsWebpOrNothing | common/utils.py:64-65 | a RIFF buffer is `webp` exactly when bytes 8 to 11 are `WEBP`, and otherwise nothing |
| ImageFormat.TiffHeadersRecognised | common/utils.py:70-76 | each of the four TIFF headers gives `tiff` |
| ImageFormat.DataUrlParses | censor_flow.py:203-204 | the data URL splits at its comma into the media type and the unchanged base64 data |
| Chunking.ChunksPartition | censor/aliyun.py:140-145 | the chunks concatenate back to the text, are non-empty and at most the limit, all but the last are full, none for empty text, one for a short text |
| Chunking.ChunkAt | censor/aliyun.py:143-144 | chunk `k` exists exactly when `k * size < len`, and it is the slice `[k*size, (k+1)*size)` |
| Chunking.SplitText | censor/tencent.py:199-204 | the append loop produces exactly the chunks |
| Chunking.AggregateIsMaxAndUnion | censor/aliyun.py:225-234 | the aggregate risk is at least Pass and every chunk risk, and is Pass or one of them; the reasons are exactly the union of the chunk reasons |
| Chunking.AggregateOrderIndependent | censor/aliyun.py:228-232 | the aggregate does not depend on the order of the chunk verdicts |
| Chunking.AggregateLoop | censor/tencent.py:282-291 | the accumulator loop computes the aggregate |
| Chunking.WrapDetectFailure | censor/aliyun.py:236-237 | a failure inside `detect_text` is re-raised as a `CensorError` |
| Chunking.ChunkOutcomes | censor/aliyun.py:222 | one check per chunk, in order, on that chunk |
| Chunking.Gather | censor/aliyun.py:223 | success exactly when every chunk succeeded, with their values in order; a failure is some chunk's failure |
| Chunking.DetectChunked | censor/aliyun.py:214-237 | the method body computes the chunked verdict |
| Chunking.EmptyTextPasses | censor/aliyun.py:215-216 | empty text is `(Pass, ∅)` without any check |
| Chunking.ShortTextIsOneChunk | censor/aliyun.py:218-219 | a text within the limit is one chunk, checked once on the whole text; the direct path agrees with split-and-aggregate unless the answer is Fallback |
| Chunking.LongTextAggregates | censor/aliyun.py:221-237 | over the limit, the verdict is `Ok` only when every chunk succeeded, and is then at least Pass and every chunk risk, with a reason exactly when some chunk gave it; otherwise a failing chunk's error, wrapped |
| Chunking.SecondHalfBlocked | censor/aliyun.py:221-234 | a 900-character text whose second 600-character chunk blocks is blocked with that chunk's reasons |
| Sorting.SortPairsCorrect | censor/aliyun.py:62 | the parameters are sorted by key and are a permutation of the input |
| Crypto.Sha256Hex | censor/tencent.py:58 | a hex digest consists of lower-case hex digits |
| Aliyun.PlusToPercent20 | censor/aliyun.py:45-46 | `quote_plus` followed by `+` → `%20` is the strict percent-encoding |
| Aliyun.NoEscapedTilde | censor/aliyun.py:48 | a strict percent-encoding never contains `%7E` |
| Aliyun.EncodeIsPercentEncoding | censor/aliyun.py:34-49 | `_encode` is the RFC 3986 percent-encoding of the UTF-8 bytes |
| Aliyun.EncodeProperties | censor/aliyun.py:34-49 | the output decodes back to the input's UTF-8 bytes and holds only unreserved characters and `%`, so no `+`, `*`, space, `&` or `=` |
| Aliyun.EncodeExamples | censor/aliyun.py:46-48 | space → `%20`, `*` → `%2A`, `~` kept, `/` → `%2F` |
| Aliyun.CanonicalQueryParses | censor/aliyun.py:62-65 | the canonical query has one `k=v` field per parameter in sorted order, each half decoding to the key or value |
| Aliyun.StringToSignParses | censor/aliyun.py:66 | the string to sign has the three fields method, `%2F` and the encoded query, which decodes back |
| Aliyun.ParamKeysDistinct | censor/aliyun.py:91-104 | the eleven parameter names are distinct |
| Aliyun.BaseParams | censor/aliyun.py:91-102 | the ten parameters, their names in order, the fixed values and the caller's values |
| Aliyun.Signed | censor/aliyun.py:104 | the signature of the ten parameters is appended under `Signature`, the rest unchanged |
| Aliyun.PrepareRequestParams | censor/aliyun.py:77-105 | eleven parameters in order; the last signs the first ten exactly as sent |
| Aliyun.MapRiskLevel | censor/aliyun.py:192-199 | `none`/`low` pass and `high` blocks, case-insensitively; anything else, a missing level included, is Review; never Fallback |
| Aliyun.RiskWordsMembership | censor/aliyun.py:178-184 | a word is a risk word exactly when it is a stripped comma-separated piece of some entry's `RiskWords` |
| Aliyun.CollectRiskWords | censor/aliyun.py:178-184 | the loop collects exactly the risk words |
| Aliyun.CheckSingleTextOutcomes | censor/aliyun.py:147-199 | a reply with `Data` decides after one request; one without it, or a timeout, fails at once with the unknown-error prefix; three transport failures exhaust the retries |
| Aliyun.ShortTextOutcome | censor/aliyun.py:218-219 | a text within 600 characters gets its single check's verdict, a failure wrapped once more |
| Aliyun.ImageInputDispatch | censor/aliyun.py:255-259 | a `base64://` image is Review with the fixed reason whatever the server says; another non-`http` input fails on the first call |
| Aliyun.ImageReplyOutcome | censor/aliyun.py:273-291 | an `http` image with `Data` gets the mapped risk and the truthy descriptions after one request |
| Tencent.Signature | censor/tencent.py:87-103 | the signature is a lower-case hex string |
| Tencent.GenerateSignature | censor/tencent.py:112-118 | the signature info carries the given timestamp, host and action and version `2020-12-29` |
| Tencent.CanonicalRequestParses | censor/tencent.py:50-71 | the canonical request is the nine lines method, `/`, empty query, three headers, blank, signed headers, payload hash |
| Tencent.CredentialScopeParses | censor/tencent.py:73 | the scope is `date/service/tc3_request` and adds no newline or space |
| Tencent.StringToSignParses | censor/tencent.py:77-85 | the string to sign is the four lines algorithm, timestamp, scope and the hash of the canonical request |
| Tencent.AuthorizationParses | censor/tencent.py:105-110 | the header has four space-separated fields: algorithm, credential, signed headers, signature |
| Tencent.SignedAuthorization | censor/tencent.py:47-110 | the authorization signs the string to sign built from the same timestamp, date and canonical request |
| Tencent.RequestHeadersShape | censor/tencent.py:150-158 | seven headers in order with their values; `X-TC-Timestamp` is the signed timestamp |
| Tencent.MapSuggestion | censor/tencent.py:250-255 | `pass` and `review` map to themselves, case-insensitively; anything else, a missing suggestion included, blocks |
| Tencent.CollectTextReasons | censor/tencent.py:244-248 | the loop collects exactly the label and the keywords |
| Tencent.ReasonsShape | censor/tencent.py:243-248 | the label (empty when missing) is always a reason; the other reasons are exactly the keywords (text) or the sub-label (image) |
| Tencent.CheckSingleTextOutcomes | censor/tencent.py:206-255 | a response without error decides after one request; an error response, a missing `Response` or a timeout fails at once; three transport failures exhaust the retries |
| Tencent.ShortTextOutcome | censor/tencent.py:275-276 | a text within 10000 characters gets its single check's verdict, a failure wrapped once more |
| Tencent.ImagePayloadDispatch | censor/tencent.py:311-317 | `base64://` sends the stripped data as `FileContent`, `http` sends the URL as `FileUrl`, any other input has no payload |
| Tencent.UnexpectedImageInput | censor/tencent.py:316-317 | any other input fails on the first call and is not retried |
| Tencent.ImageReplyOutcome | censor/tencent.py:329-348 | a response without error gets the mapped suggestion and label/sub-label after one request |
| Llm.Classify | censor/llm.py:113-122 | Pass iff `<pass>` occurs; Block iff not and `<block>` occurs; Review otherwise; the completion is the only reason |
| Llm.PassWinsOverBlock | censor/llm.py:117-120 | for every completion: one holding `<pass>` passes, one holding `<block>` but not `<pass>` blocks, and appending `<pass>` makes any completion pass; `<block>` alone blocks |
| Llm.ReviewIsTheDefault | censor/llm.py:117-122 | every completion holding neither token goes to review, `<review>` and the empty completion among them |
| Llm.TextOutcomesDecide | censor/llm.py:104-122 | the first completion decides after one request; a malformed reply or a timeout fails at once; three transport failures exhaust the retries |
| Llm.RequestShape | censor/llm.py:84-108 | both requests go to `<base_url>/chat/completions` with a bearer token, the configured model, no streaming, temperature 0, system then user message; the text request's user message holds the text |
| Llm.ImageInputDispatch | censor/llm.py:173-203 | `http` is sent unchanged; `base64://` data with a known format is sent as its data URL; an unknown format, a decoding error or any other input fails before a request |
| Llm.ImageOutcomesDecide | censor/llm.py:124-232 | an input without a user message fails on the first call; otherwise the first completion decides |
| Local.LocalCensor.constructor | censor/local.py:24-32 | patterns default to the empty set and `use_logic` to true; not built, not shut down, no pool |
| Local.LocalCensor.Reinitialize | censor/local.py:60-64 | not shut down, not built, a fresh matcher and a fresh pool |
| Local.LocalCensor.Build | censor/local.py:38-58 | the new state and result are those of `AfterBuild`, and the invariant holds |
| Local.LocalCensor.Close | censor/local.py:69-74 | the new state is that of `AfterClose`, and the invariant holds |
| Local.LocalCensor.DetectText | censor/local.py:76-97 | the new state and result are those of `AfterDetectText`, and the invariant holds |
| Local.LocalCensor.DetectImage | censor/local.py:99-103 | raises exactly when shut down; otherwise Review with the not-implemented reason |
| Local.StepsKeepCoherent | censor/local.py:38-74 | every operation keeps the invariant (shut down iff the pool is closed; built implies a live pool and a built matcher) |
| Local.BuildWhenBuiltIsNoop | censor/local.py:43-44 | building a built instance changes nothing, whatever the patterns |
| Local.BuildOutcomes | censor/local.py:40-58 | after a close the instance is re-initialised first; success leaves it built with the given patterns; `ValueError` and other failures give the two error prefixes and leave it unbuilt |
| Local.CloseEffects | censor/local.py:69-74 | closing a live instance shuts it down and unbuilds it; a second close, or one before any build, changes nothing |
| Local.LazyBuildUsesInitialPatterns | censor/local.py:26-78 | an unbuilt instance builds with the construction-time patterns before searching |
| Local.DetectTextVerdict | censor/local.py:82-97 | found patterns give Block with exactly them, none gives `(Pass, ∅)`, a search error is wrapped; the state is unchanged |
| Local.DetectTextNeverClosing | censor/local.py:77-80 | in sequential use `detect_text` never raises the closing error |
| Local.DetectImageOutcome | censor/local.py:99-103 | raises exactly when shut down; otherwise Review with the fixed reason |
| Flow.CreateCensor | censor_flow.py:85-103 | a provider is returned only for its exact name and when its constructor succeeds; any other name gives `None` |
| Flow.ProviderNames | censor_flow.py:89-100 | the empty name and lower-case names select nothing; each exact name selects its provider unless construction fails |
| Flow.NewChannels | censor_flow.py:59-71 | the text detector comes from its provider; an image detector exists exactly when enabled, named and constructed; a `Local` text or image detector has `use_logic` on; the user-id detector is a separate `Local` instance with `use_logic` off |
| Flow.SubmitText | censor_flow.py:145-158 | no detector raises `RuntimeError`; a detector error becomes Review with its message and no extra; a result attaches `extra` only when it is non-empty |
| Flow.SubmitImage | censor_flow.py:175-226 | no detector raises; the first attempt's answer is used; on failure the `base64://` fallback is tried if it exists, and a second failure gives Review; with no fallback the result is `None` |
| Flow.FallbackCarriesDownload | censor_flow.py:200-206 | after a download the fallback exists unless sniffing raised, is `base64://` plus the encoded bytes, and the shown content is the data URL exactly when the format was recognised |
| Flow.NoDownloadNoFallback | censor_flow.py:182-207 | non-URL content or a failed download gives no fallback and unchanged content |
| Flow.QqLinkDowngraded | censor_flow.py:212-213 | a QQ image link `https://…` is first submitted as `http://…` |
| Flow.SubmitUserid | censor_flow.py:243-252 | the risk passes through; hits collapse into one `黑名单用户` reason; no hits give no reasons; an error gives Review |
| Flow.UseridBlacklistHit | censor_flow.py:243-249 | with the local detector, a hit reports Block with the prefixed hits and no hit reports Pass with no reasons |
| Flow.Close | censor_flow.py:259-267 | the closes made are a prefix of text, image (if a different instance), user id; only the last may have failed, and a failure stops the rest |
| Flow.CloseVisitsEachOnce | censor_flow.py:259-265 | for the channels `__init__` builds, every detector is closed once, text then image then user id |

## Left out

- The detector base class (common/interfaces.py) is not a shared abstraction. Each detector
  module exposes `DetectText`/`DetectImage` of the same shape, and the orchestrator sees a
  detector only as the answers it gives.
- Concurrency is not modelled: `asyncio.Semaphore(80)`, `asyncio.Lock` and the
  `ThreadPoolExecutor` (a live/closed flag here).
- The 15-second total timeout of the sessions is an outcome (`TimedOut`), not a clock.
  When it expires, aiohttp raises `asyncio.TimeoutError`, which is not an
  `aiohttp.ClientError`. So the retry wrapper does not retry it: the call fails at
  once with the unknown-error prefix and an empty message.
- Chunking.Gather: when several chunks fail, the source raises the failure that happens
  first in time. The model only promises one of the failures, and the function picks the
  first in chunk order.
- Retry.CensorRetry: the delays are recorded as a list in whole milliseconds instead of
  being slept, because time is not modelled.
- The cryptographic and encoding primitives (SHA-256, HMAC-SHA1, HMAC-SHA256, base64,
  `json.dumps`) are uninterpreted functions. Only their use is modelled.
- The clock, the date, UTC formatting and `uuid4` are arguments. Tencent reads the clock
  twice (timestamp and date); the model takes both as given and does not relate them.
- HTTP sessions, the image download (proxy and TLS settings) and JSON decoding are oracles
  that return decoded replies. A JSON `null` or a non-string value where a string is expected
  is not modelled.
- The string form of a whole reply (`str(result)`) and `str(reasons)[1:-1]` are given as
  values or as a rendering function, because Python's repr is not modelled.
- Flow.SubmitUserid: with no hits the source passes `{}`, an empty dict, as the reasons,
  not an empty set. The model uses the empty set, because `reason` has one type.
- Strings.Lower and Strings.Strip cover ASCII letters and ASCII whitespace only. Python's
  `str.lower` and `str.strip` also cover other Unicode characters.
- The prompt texts of the LLM detector (censor/llm.py:53-88, 139-169) are arguments.
- The `CustomizedLibs` branch in censor/aliyun.py:185-190 is not modelled. It tests for the
  key in the `Result` list rather than in the entry, so it never adds anything.
- The `close` methods of the cloud and LLM detectors only close their HTTP session. They are
  the `fails` outcomes of Flow.Close.
- Local.LocalCensor.Build: after a failed build the matcher is kept as it was. The state of a
  partly built external matcher is unknown. Failures to create the pool or the event loop,
  which the source also reports as a failed build, are not modelled.
- `logger` calls, `admin_check`, `dispose_msg`, the database package, the web UI and
  main.py are not part of this model. Neither are the async context-manager entries, which
  only call `build` or `close`.
- `AuditLogEntry`, `SensitiveWordEntry`, `BlacklistEntry` and `DBError` from
  common/types.py are used only by the database package and are not modelled.

/** The value types every detector and the orchestrator share (common/types.py):
    the ordered risk scale, the message under review, the result envelope, and the
    errors that detectors raise. */
module CensorTypes {
  import opened Wrappers

  /** The risk scale. `Fallback` is a spare value that no detector returns. */
  datatype RiskLevel = Fallback | Pass | Review | Block
  {
    /** The enum member's `.value`. */
    function Value(): int {
      match this
      case Fallback => -1
      case Pass => 0
      case Review => 1
      case Block => 2
    }
  }

  /** `RiskLevel(v)`: the enum lookup by value, `None` where Python raises `ValueError`. */
  function RiskFromValue(v: int): (r: Option<RiskLevel>)
    ensures r.Some? <==> -1 <= v <= 2
    ensures r.Some? ==> r.value.Value() == v
  {
    if v == -1 then Some(Fallback)
    else if v == 0 then Some(Pass)
    else if v == 1 then Some(Review)
    else if v == 2 then Some(Block)
    else None
  }

  /** The values are -1 < 0 < 1 < 2, and distinct members have distinct values, so the
      lookup by value gives back the member. */
  lemma RiskValueOrder(a: RiskLevel, b: RiskLevel)
    ensures Fallback.Value() < Pass.Value() < Review.Value() < Block.Value()
    ensures a.Value() == b.Value() ==> a == b
    ensures RiskFromValue(a.Value()) == Some(a)
  {
  }

  /** The larger of two risks by `.value`. */
  function MaxRisk(a: RiskLevel, b: RiskLevel): (r: RiskLevel)
    ensures r.Value() >= a.Value() && r.Value() >= b.Value()
    ensures r == a || r == b
  {
    if b.Value() > a.Value() then b else a
  }

  /** A message under review. The timestamp is a plain integer once constructed. */
  datatype Message = Message(content: string, source: string, timestamp: int)

  /** `Message(content, source, timestamp)`: `__post_init__` replaces a missing or zero
      timestamp by the clock reading `now` (`int(time.time())`) and keeps any other. */
  function NewMessage(content: string, source: string, timestamp: Option<int>, now: int): (m: Message)
    ensures m.content == content && m.source == source
    ensures timestamp.Some? && timestamp.value != 0 ==> m.timestamp == timestamp.value
    ensures timestamp.None? || timestamp.value == 0 ==> m.timestamp == now
  {
    var ts := if timestamp.Some? && timestamp.value != 0 then timestamp.value else now;
    Message(content, source, ts)
  }

  /** Caller-attached metadata; the values are left uninterpreted. */
  type Extra = map<string, string>

  /** The result envelope. */
  datatype CensorResult = CensorResult(message: Message, riskLevel: RiskLevel, reason: set<string>, extra: Option<Extra>)

  /** `CensorResult(message, risk_level, reason)`, with `extra` left at its default. */
  function NewResult(message: Message, risk: RiskLevel, reason: set<string>): (r: CensorResult)
    ensures r.extra == None
    ensures r.message == message && r.riskLevel == risk && r.reason == reason
  {
    CensorResult(message, risk, reason, None)
  }

  /** What `detect_text` and `detect_image` return: `tuple[RiskLevel, set[str]]`. */
  datatype Verdict = Verdict(risk: RiskLevel, reasons: set<string>)

  /** The exception classes the core tells apart. `Transport` is `aiohttp.ClientError`
      and its subclasses (connection failures, a non-2xx status); `Runtime` is the
      orchestrator's `RuntimeError`; `Other` is any other exception. */
  datatype FaultKind = Censor | Transport | Runtime | Other

  /** A raised exception; `message` is what `str(e)` gives. */
  datatype Fault = Fault(kind: FaultKind, message: string)

  /** `CensorError(message)`; its `str()` is exactly `message`. */
  function CensorError(message: string): (e: Fault)
    ensures e.kind == Censor && e.message == message
  {
    Fault(Censor, message)
  }

  /** The outcome of a call that either returns a value or raises. */
  datatype Result<+T> = Ok(value: T) | Err(fault: Fault)
}

/** The primitives the request builders call but do not define: hashing, HMAC,
    base64 and JSON serialisation. They are passed in as functions, so every
    property proved about the builders holds whatever these functions compute. */
module Crypto {
  import opened Codec
  import opened CensorTypes

  datatype Primitives = Primitives(
    /** `hashlib.sha256(data).digest()` */
    sha256: seq<byte> -> seq<byte>,
    /** `hmac.new(key, msg, hashlib.sha256).digest()` */
    hmacSha256: (seq<byte>, seq<byte>) -> seq<byte>,
    /** `hmac.new(key, msg, hashlib.sha1).digest()` */
    hmacSha1: (seq<byte>, seq<byte>) -> seq<byte>,
    /** `base64.b64encode(data).decode()` */
    b64encode: seq<byte> -> string,
    /** `base64.b64decode(text)`, or the `binascii.Error` it raises */
    b64decode: string -> Result<seq<byte>>,
    /** `json.dumps` of a flat object whose values are strings, in insertion order */
    jsonDumps: seq<(string, string)> -> string
  )

  /** `hashlib.sha256(text.encode("utf-8")).hexdigest()` */
  function Sha256Hex(p: Primitives, text: string): (r: string)
    ensures forall i :: 0 <= i < |r| ==> '0' <= r[i] <= '9' || 'a' <= r[i] <= 'f'
  {
    Hex(p.sha256(Utf8(text)))
  }
}

/** `get_image_format` (common/utils.py): a first-match classifier over the magic bytes
    at the start of a decoded image. */
module ImageFormat {
  import opened Wrappers
  import opened Codec
  import opened CensorTypes
  import opened Crypto
  import opened Strings

  /** The nine formats, in the order in which their signatures are tried. */
  datatype Format = Png | Jpeg | Gif | Bmp | Webp | Ico | Icns | Tiff | Jp2
  {
    /** The name `get_image_format` returns. */
    function Name(): (r: string)
      ensures r in {"png", "jpeg", "gif", "bmp", "webp", "ico", "icns", "tiff", "jp2"}
    {
      match this
      case Png => "png"
      case Jpeg => "jpeg"
      case Gif => "gif"
      case Bmp => "bmp"
      case Webp => "webp"
      case Ico => "ico"
      case Icns => "icns"
      case Tiff => "tiff"
      case Jp2 => "jp2"
    }

    /** Position of the format's test in the if-chain. */
    function Rank(): nat {
      match this
      case Png => 0
      case Jpeg => 1
      case Gif => 2
      case Bmp => 3
      case Webp => 4
      case Ico => 5
      case Icns => 6
      case Tiff => 7
      case Jp2 => 8
    }
  }

  /** `data.startswith(prefix)` */
  predicate HasPrefix(data: seq<byte>, prefix: seq<byte>) {
    |prefix| <= |data| && data[..|prefix|] == prefix
  }

  const PngMagic: seq<byte> := [0x89, 0x50, 0x4E, 0x47, 0x0D, 0x0A, 0x1A, 0x0A]
  const JpegMagic: seq<byte> := [0xFF, 0xD8, 0xFF]
  const Gif87a: seq<byte> := [0x47, 0x49, 0x46, 0x38, 0x37, 0x61]
  const Gif89a: seq<byte> := [0x47, 0x49, 0x46, 0x38, 0x39, 0x61]
  const BmpMagic: seq<byte> := [0x42, 0x4D]
  const Riff: seq<byte> := [0x52, 0x49, 0x46, 0x46]
  const WebpTag: seq<byte> := [0x57, 0x45, 0x42, 0x50]
  const IcoMagic: seq<byte> := [0x00, 0x00, 0x01, 0x00]
  const IcnsMagic: seq<byte> := [0x69, 0x63, 0x6E, 0x73]
  const TiffLittle: seq<byte> := [0x49, 0x49, 0x2A, 0x00]
  const TiffBig: seq<byte> := [0x4D, 0x4D, 0x00, 0x2A]
  const BigTiffLittle: seq<byte> := [0x49, 0x49, 0x2B, 0x00]
  const BigTiffBig: seq<byte> := [0x4D, 0x4D, 0x00, 0x2B]
  const Jp2Magic: seq<byte> := [0x00, 0x00, 0x00, 0x0C, 0x6A, 0x50, 0x20, 0x20, 0x0D, 0x0A, 0x87, 0x0A]

  /** What it means for `data` to carry the signature of format `f`. A WEBP file is a
      RIFF container whose bytes 8 to 11 read `WEBP`. */
  predicate Signature(data: seq<byte>, f: Format) {
    match f
    case Png => HasPrefix(data, PngMagic)
    case Jpeg => HasPrefix(data, JpegMagic)
    case Gif => HasPrefix(data, Gif87a) || HasPrefix(data, Gif89a)
    case Bmp => HasPrefix(data, BmpMagic)
    case Webp => HasPrefix(data, Riff) && |data| >= 12 && data[8..12] == WebpTag
    case Ico => HasPrefix(data, IcoMagic)
    case Icns => HasPrefix(data, IcnsMagic)
    case Tiff =>
      HasPrefix(data, TiffLittle) || HasPrefix(data, TiffBig)
      || HasPrefix(data, BigTiffLittle) || HasPrefix(data, BigTiffBig)
    case Jp2 => HasPrefix(data, Jp2Magic)
  }

  /** The classifier on decoded bytes: the first format whose signature matches, or
      `None` when no signature does. */
  function FormatOf(data: seq<byte>): (r: Option<Format>)
    ensures r.Some? ==> Signature(data, r.value)
    ensures r.Some? ==> forall g: Format :: g.Rank() < r.value.Rank() ==> !Signature(data, g)
    ensures r.None? ==> forall g: Format :: !Signature(data, g)
  {
    if HasPrefix(data, PngMagic) then Some(Png)
    else if HasPrefix(data, JpegMagic) then Some(Jpeg)
    else if HasPrefix(data, Gif87a) || HasPrefix(data, Gif89a) then Some(Gif)
    else if HasPrefix(data, BmpMagic) then Some(Bmp)
    else if HasPrefix(data, Riff) && |data| >= 12 && data[8..12] == WebpTag then Some(Webp)
    else if HasPrefix(data, IcoMagic) then Some(Ico)
    else if HasPrefix(data, IcnsMagic) then Some(Icns)
    else if HasPrefix(data, TiffLittle) || HasPrefix(data, TiffBig)
         || HasPrefix(data, BigTiffLittle) || HasPrefix(data, BigTiffBig) then Some(Tiff)
    else if HasPrefix(data, Jp2Magic) then Some(Jp2)
    else None
  }

  /** `get_image_format(img_b64)`: decode, then classify; a decoding error propagates.
      A format found is the first in the chain whose signature the decoded bytes carry,
      and `None` means they carry none. */
  function GetImageFormat(p: Primitives, imgB64: string): (r: Result<Option<Format>>)
    ensures r.Err? <==> p.b64decode(imgB64).Err?
    ensures r.Err? ==> r.fault == p.b64decode(imgB64).fault
    ensures r.Ok? && r.value.Some? ==>
      && Signature(p.b64decode(imgB64).value, r.value.value)
      && forall g: Format :: g.Rank() < r.value.value.Rank() ==> !Signature(p.b64decode(imgB64).value, g)
    ensures r.Ok? && r.value.None? ==> forall g: Format :: !Signature(p.b64decode(imgB64).value, g)
  {
    match p.b64decode(imgB64)
    case Err(e) => Err(e)
    case Ok(data) => Ok(FormatOf(data))
  }

  /** The PNG signature gives `png` and a buffer starting `FF D8 FF` gives `jpeg`,
      whatever follows. */
  lemma PngAndJpegRecognised(rest: seq<byte>)
    ensures FormatOf(PngMagic + rest) == Some(Png)
    ensures FormatOf(JpegMagic + rest) == Some(Jpeg)
  {
    assert Signature(PngMagic + rest, Png);
    assert (JpegMagic + rest)[..3] == JpegMagic;
    assert (JpegMagic + rest)[0] == 0xFF;
    assert Signature(JpegMagic + rest, Jpeg);
  }

  /** A RIFF buffer is `webp` exactly when bytes 8 to 11 are `WEBP`, and otherwise
      (short buffers included) matches nothing at all. */
  lemma RiffIsWebpOrNothing(data: seq<byte>)
    requires HasPrefix(data, Riff)
    ensures FormatOf(data) == Some(Webp) <==> |data| >= 12 && data[8..12] == WebpTag
    ensures FormatOf(data) != Some(Webp) ==> FormatOf(data) == None
  {
    assert data[..4] == Riff;
    assert data[0] == 0x52;
  }

  /** All four TIFF byte-order headers give `tiff`. */
  lemma TiffHeadersRecognised(header: seq<byte>, rest: seq<byte>)
    requires header in {TiffLittle, TiffBig, BigTiffLittle, BigTiffBig}
    ensures FormatOf(header + rest) == Some(Tiff)
  {
    var data := header + rest;
    assert data[..4] == header;
    assert Signature(data, Tiff);
    assert data[0] == header[0] && data[1] == header[1] && data[2] == header[2];
  }

  /** `data:image/<fmt>;base64,<data>`, a data URL in the sense of RFC 2397. */
  function DataUrl(format: Format, data: string): string
  {
    "data:image/" + format.Name() + ";base64," + data
  }

  /** A data URL splits at its only comma into the media-type header and the base64
      data, so the data can be recovered unchanged (base64 text has no comma). */
  lemma DataUrlParses(format: Format, data: string)
    requires ',' !in data
    ensures Split(DataUrl(format, data), ',') == ["data:image/" + format.Name() + ";base64", data]
  {
    var head := "data:image/" + format.Name() + ";base64";
    assert ',' !in head;
    assert DataUrl(format, data) == head + [','] + data;
    SplitNoSeparator(head, ',');
    SplitSnoc(head, data, ',');
  }
}

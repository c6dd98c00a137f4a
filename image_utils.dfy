/**
 * Image helpers: MIME types by format name, data URIs in the form of section 3 of
 * RFC 2397 (`data:<mime>;base64,<payload>`), and image identifiers. The Base64 codec of
 * section 4 of RFC 4648 is a library call and stays abstract.
 */
module ImageUtils {
  import opened Wrappers
  import opened Strings

  newtype byte = b: int | 0 <= b < 256

  /** `base64.b64encode(...).decode()`. */
  const Base64Encode: seq<byte> -> string

  /** `base64.b64decode`, None where it raises. */
  const Base64Decode: string -> Option<seq<byte>>

  const KnownMimeTypes: seq<string> :=
    ["image/png", "image/jpeg", "image/gif", "image/bmp", "image/webp", "image/tiff", "image/svg+xml"]

  /** `get_mime_type`: a case-insensitive lookup with "image/png" as the default. */
  function GetMimeType(format: string): (r: string)
    ensures r in KnownMimeTypes
    ensures ',' !in r
    ensures Lower(format) == "png" ==> r == "image/png"
    ensures Lower(format) == "jpg" || Lower(format) == "jpeg" ==> r == "image/jpeg"
    ensures Lower(format) == "gif" ==> r == "image/gif"
    ensures Lower(format) == "bmp" ==> r == "image/bmp"
    ensures Lower(format) == "webp" ==> r == "image/webp"
    ensures Lower(format) == "tif" || Lower(format) == "tiff" ==> r == "image/tiff"
    ensures Lower(format) == "svg" ==> r == "image/svg+xml"
    ensures Lower(format) !in ["png", "jpg", "jpeg", "gif", "bmp", "webp", "tiff", "tif", "svg"] ==> r == "image/png"
  {
    MimeOf(Lower(format))
  }

  /** The lookup table of `get_mime_type`, on a lower-cased format name. */
  function MimeOf(f: string): string {
    if f == "png" then "image/png"
    else if f == "jpg" || f == "jpeg" then "image/jpeg"
    else if f == "gif" then "image/gif"
    else if f == "bmp" then "image/bmp"
    else if f == "webp" then "image/webp"
    else if f == "tiff" || f == "tif" then "image/tiff"
    else if f == "svg" then "image/svg+xml"
    else "image/png"
  }

  /** Upper- or lower-case spellings of a format give the same MIME type. */
  lemma GetMimeTypeIgnoresCase(format: string)
    ensures GetMimeType(Lower(format)) == GetMimeType(format)
  {
    LowerIdempotent(format);
    assert Lower(Lower(format)) == Lower(format);
  }

  /** `image_to_base64`: empty data gives "", anything else a base64 data URI. */
  function ImageToBase64(data: seq<byte>, format: string): (r: string)
    ensures |data| == 0 ==> r == ""
    ensures |data| > 0 ==> r == "data:" + GetMimeType(format) + ";base64," + Base64Encode(data)
  {
    if |data| == 0 then "" else "data:" + GetMimeType(format) + ";base64," + Base64Encode(data)
  }

  /** `base64_to_image`: None for "", else the text between the first and second comma (or all of it), decoded. */
  function Base64ToImage(s: string): (r: Option<seq<byte>>)
    ensures s == "" ==> r.None?
    ensures s != "" && ',' !in s ==> r == Base64Decode(s)
  {
    if s == "" then None
    else if ',' in s then Base64Decode(SplitOn(s, ',')[1])
    else Base64Decode(s)
  }

  /**
   * Decoding a data URI made from image bytes gives the bytes back, provided the
   * codec round-trips on them and its output has no comma (the Base64 alphabet has none).
   */
  lemma ImageRoundTrip(data: seq<byte>, format: string)
    requires |data| > 0
    requires ',' !in Base64Encode(data)
    requires Base64Decode(Base64Encode(data)) == Some(data)
    ensures Base64ToImage(ImageToBase64(data, format)) == Some(data)
  {
    var mime := GetMimeType(format);
    var head := "data:" + mime + ";base64";
    var enc := Base64Encode(data);
    assert ImageToBase64(data, format) == head + [','] + enc;
    assert ',' !in "data:" && ',' !in ";base64";
    assert ',' !in head;
    SplitOnPieceThenSep(head, ',', enc);
    SplitOnNoSep(enc, ',');
    assert ',' in head + [','] + enc by {
      assert (head + [','] + enc)[|head|] == ',';
    }
  }

  /**
   * With a comma in the input, only the segment between the first and the second
   * comma is decoded: the header before it and anything after the second comma are ignored.
   */
  lemma {:induction false} Base64ToImageSecondSegment(a: string, b: string, c: string)
    requires ',' !in a && ',' !in b
    ensures Base64ToImage(a + "," + b + "," + c) == Base64Decode(b)
    ensures Base64ToImage(a + "," + b) == Base64Decode(b)
  {
    assert a + "," + b + "," + c == a + [','] + (b + [','] + c);
    assert (a + [','] + (b + [','] + c))[|a|] == ',';
    SplitOnPieceThenSep(a, ',', b + [','] + c);
    SplitOnPieceThenSep(b, ',', c);
    assert a + "," + b == a + [','] + b;
    assert (a + [','] + b)[|a|] == ',';
    SplitOnPieceThenSep(a, ',', b);
    SplitOnNoSep(b, ',');
  }

  predicate IsLowerHex(c: char) {
    IsAsciiDigit(c) || 'a' <= c <= 'f'
  }

  /** `generate_image_id`: "img_" and the first 8 characters of a random UUID's hex form, passed in. */
  function GenerateImageId(uuidHex: string): (r: string)
    requires |uuidHex| == 32 && forall i :: 0 <= i < 32 ==> IsLowerHex(uuidHex[i])
    ensures |r| == 12 && StartsWith(r, "img_")
    ensures forall i :: 4 <= i < 12 ==> IsLowerHex(r[i])
  {
    var r := "img_" + SliceTo(uuidHex, 8);
    assert r[..4] == "img_";
    r
  }
}

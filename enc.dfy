/** The stream-filter front of pdf/src/enc.rs: the StreamFilter variants, their construction
    from a /Filter name and its /DecodeParms dictionary (from_kind_and_params), and the `decode`
    dispatch to the codecs of the Ascii and Flate modules. */
module Enc {
  import opened Bytes
  import opened Error
  import opened Primitives
  import Ascii
  import Flate

  /** DCTDecodeParams: the optional ColorTransform entry. */
  datatype DctParams = DctParams(colorTransform: Option<int>)

  datatype StreamFilter =
    | ASCIIHexDecode
    | ASCII85Decode
    | LZWDecode(lzw: Flate.FlateParams)
    | FlateDecode(flate: Flate.FlateParams)
    | JPXDecode
    | DCTDecode(dct: DctParams)
    | CCITTFaxDecode
    | Crypt

  /** The `#[derive(Object)]` readers of LZWFlateParams and DCTDecodeParams (the derive macro
      is not part of this model). */
  datatype ParamsReaders = ParamsReaders(
    flateFrom: (Primitive, Resolver) -> Result<Flate.FlateParams>,
    dctFrom: (Primitive, Resolver) -> Result<DctParams>)

  /** The filter name each variant is built from. */
  function KindName(f: StreamFilter): string
  {
    match f
    case ASCIIHexDecode => "ASCIIHexDecode"
    case ASCII85Decode => "ASCII85Decode"
    case LZWDecode(_) => "LZWDecode"
    case FlateDecode(_) => "FlateDecode"
    case JPXDecode => "JPXDecode"
    case DCTDecode(_) => "DCTDecode"
    case CCITTFaxDecode => "CCITTFaxDecode"
    case Crypt => "Crypt"
  }

  predicate KnownKind(kind: string)
  {
    kind in {"ASCIIHexDecode", "ASCII85Decode", "LZWDecode", "FlateDecode", "JPXDecode", "DCTDecode", "CCITTFaxDecode", "Crypt"}
  }

  /** A lower-case hexadecimal digit. */
  function HexLower(n: nat): (c: char)
    requires n < 16
    ensures c != '}'
  {
    if n < 10 then ('0' as int + n) as char else ('a' as int + n - 10) as char
  }

  /** The value of a lower-case hexadecimal digit. */
  function HexValue(c: char): (n: nat)
    ensures n < 16
  {
    if '0' <= c <= '9' then c as int - '0' as int
    else if 'a' <= c <= 'f' then c as int - 'a' as int + 10
    else 0
  }

  lemma HexValueLower(n: nat)
    requires n < 16
    ensures HexValue(HexLower(n)) == n
  {
  }

  /** How `{:?}` writes one character of a string: `"` and `\` behind a backslash, tab, CR,
      LF and NUL as `\t`, `\r`, `\n`, `\0`, the other ASCII controls as `\u{..}` in
      lower-case hex, everything else as itself. */
  function EscapeDebug(c: char): string
  {
    if c == '"' then "\\\""
    else if c == '\\' then "\\\\"
    else if c == '\t' then "\\t"
    else if c == '\r' then "\\r"
    else if c == '\n' then "\\n"
    else if c == '\0' then "\\0"
    else if c as int < 0x20 || c as int == 0x7f then
      var n := c as int;
      "\\u{" + (if n < 16 then [HexLower(n)] else [HexLower(n / 16), HexLower(n % 16)]) + "}"
    else [c]
  }

  /** The text between the quotes of `{:?}` of a &str. */
  function DebugStr(s: string): string
  {
    if s == [] then [] else EscapeDebug(s[0]) + DebugStr(s[1..])
  }

  /** Reads the escapes EscapeDebug writes back. */
  function UnescapeDebug(s: string): string
    decreases |s|
  {
    if |s| == 0 then []
    else if s[0] == '\\' && |s| >= 2 then
      if s[1] == 'u' && |s| >= 5 && s[2] == '{' && s[4] == '}' then
        [HexValue(s[3]) as char] + UnescapeDebug(s[5..])
      else if s[1] == 'u' && |s| >= 6 && s[2] == '{' && s[5] == '}' then
        [(16 * HexValue(s[3]) + HexValue(s[4])) as char] + UnescapeDebug(s[6..])
      else
        var c := s[1];
        [if c == 't' then '\t' else if c == 'r' then '\r' else if c == 'n' then '\n' else if c == '0' then '\0' else c]
          + UnescapeDebug(s[2..])
    else [s[0]] + UnescapeDebug(s[1..])
  }

  lemma UnescapeOne(c: char, rest: string)
    ensures UnescapeDebug(EscapeDebug(c) + rest) == [c] + UnescapeDebug(rest)
  {
    var e := EscapeDebug(c);
    var s := e + rest;
    var n := c as int;
    if c in "\"\\\t\r\n\0" {
      assert |e| == 2 && s[2..] == rest;
    } else if n < 0x20 || n == 0x7f {
      if n < 16 {
        assert |e| == 5 && s[5..] == rest && s[3] == HexLower(n);
        HexValueLower(n);
      } else {
        assert |e| == 6 && s[6..] == rest && s[3] == HexLower(n / 16) && s[4] == HexLower(n % 16);
        HexValueLower(n / 16);
        HexValueLower(n % 16);
      }
    } else {
      assert s[1..] == rest;
    }
  }

  /** `{:?}` loses nothing: the escaped name reads back to the name. */
  lemma {:induction false} DebugStrRoundTrip(s: string)
    ensures UnescapeDebug(DebugStr(s)) == s
  {
    if s != [] {
      DebugStrRoundTrip(s[1..]);
      UnescapeOne(s[0], DebugStr(s[1..]));
    }
  }

  /** A name of printable ASCII without `"` or `\` is written as it is. */
  lemma {:induction false} DebugStrPlain(s: string)
    requires forall k :: 0 <= k < |s| ==> 0x20 <= s[k] as int < 0x7f && s[k] != '"' && s[k] != '\\'
    ensures DebugStr(s) == s
  {
    if s != [] {
      DebugStrPlain(s[1..]);
    }
  }

  /** The `bail!` message for an unknown filter name: `{:?}` of a &str quotes and escapes it. */
  function UnrecognizedFilter(kind: string): string
  {
    "Unrecognized filter type \"" + DebugStr(kind) + "\""
  }

  /** StreamFilter::from_kind_and_params. Only the parameterised filters read the params
      dictionary; their reader's error is passed on unchanged. */
  function FromKindAndParams(kind: string, params: Dict, res: Resolver, readers: ParamsReaders): (r: Result<StreamFilter>)
    ensures !KnownKind(kind) ==> r == Err(Other(UnrecognizedFilter(kind)))
    ensures r.Ok? ==> KnownKind(kind) && KindName(r.value) == kind
    ensures kind == "LZWDecode" || kind == "FlateDecode" ==>
      var p := readers.flateFrom(Dictionary(params), res);
      (r.Ok? <==> p.Ok?) && (!p.Ok? ==> r == p.PropagateFailure()) &&
      (p.Ok? ==> r.value.LZWDecode? || r.value.FlateDecode?) &&
      (p.Ok? && r.value.LZWDecode? ==> r.value.lzw == p.value) &&
      (p.Ok? && r.value.FlateDecode? ==> r.value.flate == p.value)
    ensures kind == "DCTDecode" ==>
      var p := readers.dctFrom(Dictionary(params), res);
      (r.Ok? <==> p.Ok?) && (!p.Ok? ==> r == p.PropagateFailure()) && (p.Ok? ==> r == Ok(DCTDecode(p.value)))
    ensures KnownKind(kind) && kind !in {"LZWDecode", "FlateDecode", "DCTDecode"} ==> r.Ok?
  {
    var p := Dictionary(params);
    match kind
    case "ASCIIHexDecode" => Ok(ASCIIHexDecode)
    case "ASCII85Decode" => Ok(ASCII85Decode)
    case "LZWDecode" =>
      var q :- readers.flateFrom(p, res);
      Ok(LZWDecode(q))
    case "FlateDecode" =>
      var q :- readers.flateFrom(p, res);
      Ok(FlateDecode(q))
    case "JPXDecode" => Ok(JPXDecode)
    case "DCTDecode" =>
      var q :- readers.dctFrom(p, res);
      Ok(DCTDecode(q))
    case "CCITTFaxDecode" => Ok(CCITTFaxDecode)
    case "Crypt" => Ok(Crypt)
    case _ => Bail(UnrecognizedFilter(kind))
  }

  /** Every filter is rebuilt from its own name: the parameterless ones exactly, the others
      from whatever their parameter reader yields. */
  lemma KindNameRoundTrip(f: StreamFilter, params: Dict, res: Resolver, readers: ParamsReaders)
    ensures f !in {ASCIIHexDecode, ASCII85Decode, JPXDecode, CCITTFaxDecode, Crypt} || FromKindAndParams(KindName(f), params, res, readers) == Ok(f)
    ensures FromKindAndParams(KindName(f), params, res, readers).Ok? ==> KindName(FromKindAndParams(KindName(f), params, res, readers).value) == KindName(f)
  {
  }

  /** The result of jpeg_decoder: pixels, or the decoder's error message. */
  datatype JpegDecoded = Pixels(bytes: seq<byte>) | JpegFailed(message: string)

  /** The foreign decoders `decode` relies on. */
  datatype Codecs = Codecs(inflater: Flate.Inflater, jpeg: seq<byte> -> JpegDecoded)

  /** dct_decode: the jpeg error becomes PdfError::Jpeg through `?`. */
  function DctDecoded(codecs: Codecs, data: seq<byte>): (r: Result<seq<byte>>)
    ensures codecs.jpeg(data).Pixels? ==> r == Ok(codecs.jpeg(data).bytes)
    ensures codecs.jpeg(data).JpegFailed? ==> r == Err(Jpeg(codecs.jpeg(data).message))
  {
    match codecs.jpeg(data)
    case Pixels(bytes) => Ok(bytes)
    case JpegFailed(message) => Err(Jpeg(message))
  }

  /** Where the crate-local `unimplemented!()` of `decode` is expanded. */
  const DecodeUnimplemented := Location("pdf/src/enc.rs", 212, 14)

  /** The parameters `decode` casts to usize are nonnegative. */
  predicate CastsValid(filter: StreamFilter)
  {
    filter.FlateDecode? ==> filter.flate.nComponents >= 0 && filter.flate.columns >= 0
  }

  /** What `decode` returns for a filter. */
  function Decoded(codecs: Codecs, data: seq<byte>, filter: StreamFilter): Result<seq<byte>>
    requires CastsValid(filter)
  {
    match filter
    case ASCIIHexDecode => Ascii.HexDecoded(data)
    case ASCII85Decode => Ascii.Ascii85Decoded(data)
    case FlateDecode(params) => Flate.FlateDecoded(codecs.inflater, data, params)
    case DCTDecode(_) => DctDecoded(codecs, data)
    case _ => Unimplemented(DecodeUnimplemented)
  }

  /** decode. */
  method Decode(codecs: Codecs, data: seq<byte>, filter: StreamFilter) returns (r: Result<seq<byte>>)
    requires CastsValid(filter)
    ensures r == Decoded(codecs, data, filter)
  {
    match filter {
      case ASCIIHexDecode =>
        r := Ascii.DecodeHex(data);
      case ASCII85Decode =>
        r := Ascii.Decode85(data);
      case FlateDecode(params) =>
        r := Flate.FlateDecode(codecs.inflater, data, params);
      case DCTDecode(_) =>
        r := DctDecoded(codecs, data);
      case _ =>
        r := Unimplemented(DecodeUnimplemented);
    }
  }

  /** LZWDecode, JPXDecode, CCITTFaxDecode and Crypt are reported as an `Other` error naming
      enc.rs line 212, never as a panic, so a caller may skip such a stream. */
  lemma UnsupportedFiltersAreErrors(codecs: Codecs, data: seq<byte>, filter: StreamFilter)
    requires filter.LZWDecode? || filter.JPXDecode? || filter.CCITTFaxDecode? || filter.Crypt?
    ensures Decoded(codecs, data, filter) == Err(Other("Unimplemented @ " + "pdf/src/enc.rs" + ":" + Decimal(212)))
    ensures Decimal(212) == "212"
  {
    assert Decimal(212) == "212" by {
      assert Decimal(21) == "21" by {
        assert Decimal(2) == "2";
      }
    }
  }
}

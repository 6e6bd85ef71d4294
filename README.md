# pdf-rs core, modelled in Dafny

This project models the decoding core of the `pdf` crate (pdf-rs).

- **Stream filters** (`pdf/src/enc.rs`): the ASCIIHex and ASCII85 codecs, FlateDecode with its PNG predictors, and building a `StreamFilter` from a `/Filter` name and its `/DecodeParms`.
- **Errors** (`pdf/src/error.rs`): the `PdfError` values, and the early-return macros `t!`, `try_opt!`, `bail!` and the crate's own `unimplemented!`.
- **Fonts** (`pdf/src/font.rs`): reading a font dictionary, the widths table and the `/W` array of CID fonts, the CIDToGIDMap stream, and the font accessors.
- **Colour spaces** (`pdf/src/object/color.rs`): reading a colour space from a name or an array.
- **The text extractor** (`examples/text/src/main.rs`): the ToUnicode CMap parser, the font cache, and `add_string`.

A Rust `Result` becomes `Result<T>` with three cases: `Ok`, `Err(PdfError)`, and `Panic` for every place where the Rust code aborts (an `unwrap`, a slice out of bounds, a `u16` conversion of the wrong length).

Code the core calls but does not define is passed in as a function-valued parameter:
- the zlib and raw inflaters, and the JPEG decoder;
- the `#[derive(Object)]` readers of parameter dictionaries, fonts and streams;
- `Stream::data`;
- the content lexer;
- the UTF-16BE decoder.

The model proves properties about whatever those parameters return.

Files, with one module each:

| file | module | models |
|---|---|---|
| bytes.dfy | `Bytes` | `u8`/`u16`, wrapping arithmetic, `vec![0; n]`, decimal formatting |
| error.dfy | `Error` | `PdfError`, `is_eof`, `Result`, the macros |
| primitive.dfy | `Primitives` | `Primitive`, references, `Resolve`, the narrowing accessors |
| ascii.dfy | `Ascii` | `decode_nibble`, `decode_hex`, `sym_85`, `word_85`, `substr`, `decode_85` |
| predictor.dfy | `Predictor` | `PredictorType`, `filter_paeth`, `unfilter`, `filter` |
| flate.dfy | `Flate` | `flate_decode` and its row loop |
| enc.dfy | `Enc` | `StreamFilter`, `from_kind_and_params`, `dct_decode`, `decode` |
| font.dfy | `Font` | `Font::from_primitive`, `Widths`, `Font::widths`, the accessors |
| color.dfy | `Color` | `get_index`, `ColorSpace::from_primitive` |
| text.dfy | `Text` | `parse_cmap`, `Cache`, `add_string` |

`pdf/src/primitive.rs` and `pdf/src/object/mod.rs` are not part of this model. `Primitive` and its accessors are written from how the core uses them.

### Where the code departs from the standards it follows

These departures are modelled as the code behaves. Lemmas pin each one down.

- **Hex digits.** `decode_nibble` accepts `g`/`h` and `G`/`H` as the values 16 and 17. ISO 32000-1 section 7.4.2 allows only hexadecimal digits. The shift in `decode_hex` keeps only the low eight bits, so `g0` decodes to `0x00` (`Ascii.HexAcceptsG`).
- **Hex odd trailing byte.** `decode_hex` drops an odd trailing byte silently. It does not pad it with `0`.
- **Hex whitespace.** `decode_hex` skips no whitespace and needs no `>` terminator (`Ascii.HexOddByteIgnored`, `Ascii.HexSpaceIsAnError`).
- **ASCII85 word value.** `word_85` computes `85·(a + b + c + d) + e`, not the base-85 number section 7.4.3 of ISO 32000-1 describes, and it takes the fifth byte `e` raw (no `sym_85`). So every five-character group yields a word whose two high bytes are zero (`Ascii.GroupHighBytesZero`).
- **ASCII85 tail.** The group loop stops only at the end of the input or at five or more bytes that do not make a group (`Ascii.GroupsStop`); fewer than five bytes that are not `z` panic on `word_85`'s slice. From there `decode_85` needs a `~>`: without one it is an Ascii85TailError, a `~>` right after the groups or five or more bytes before it panics, and a tail of one to four symbols yields one byte fewer than it has (`Ascii.Ascii85TailCases`, `Ascii.Ascii85ShortTailCases`). So `ab~>` at the very end of a stream panics, where section 7.4.3 of ISO 32000-1 decodes it to one byte.
- **Sub predictor.** `unfilter`'s Sub loop starts at `bpp`. The first `bpp` bytes of a Sub row are therefore not copied from the input, and keep what the output buffer held. In `flate_decode` that is a zero (`Flate.SubFirstPixelExample`). Section 6.3 of RFC 2083 reconstructs those bytes from the filtered row.
- **W array gaps.** `Font::widths` stores the widths of a W array through `Widths::set`, whose gap padding is off (see Findings). An entry that starts past the end of the filled range, once two or more widths are stored, shifts its widths up by the number of stored values minus one (`Font.WalkGapCounterexample`).
- **Avg filter.** `filter` adds the Avg neighbours with `u8::wrapping_add` before halving. So it is not the inverse of `unfilter`, which averages the 9-bit sum (see Findings).

## Model

| member | source | states |
|---|---|---|
| Bytes.WrapSubThenAdd | pdf/src/enc.rs:277-281 | a wrapping subtraction is undone by the wrapping addition the predictors use |
| Bytes.Zeros | pdf/src/enc.rs:165 | `vec![0; n]` has length n and holds only zeros |
| Bytes.Repeat | pdf/src/font.rs:197-198 | `repeat(b).take(n)` has length n and holds only b |
| Bytes.Decimal | pdf/src/error.rs:218 | the decimal rendering `format!("{}")` gives a line number is never empty |
| Error.Unwrapped | pdf/src/error.rs:130-136 | stripping every Try/TryContext layer leaves an error that is neither |
| Error.IsEof | pdf/src/error.rs:130-136 | is_eof: EOF itself, or anything under Try/TryContext layers that is EOF (its meaning is stated by IsEofIffUnwrappedEof) |
| Error.WrappedTimes | pdf/src/error.rs:178 | n >= 1 nested `t!` wrappings give a Try error |
| Error.IsEofIffUnwrappedEof | pdf/src/error.rs:130-136 | is_eof holds exactly when the error under all Try/TryContext layers is EOF (both directions) |
| Error.IsEofThroughWrapping | pdf/src/error.rs:130-136 | any depth of `t!` wrapping keeps is_eof unchanged |
| Error.IsEofOtherVariants | pdf/src/error.rs:130-136 | every variant other than EOF, Try and TryContext is not EOF: is_eof does not look inside FromPrimitive |
| Error.FromString | pdf/src/error.rs:153-157 | `From<String>` gives Other with that message, which is not EOF |
| Error.TryOpt | pdf/src/error.rs:159-171 | Some yields its value; None yields NoneError carrying file, line and column; never a panic |
| Error.T | pdf/src/error.rs:173-180 | Ok passes its value through; an error is wrapped once in Try around the original, keeping is_eof and the unwrapped error |
| Error.TContext | pdf/src/error.rs:181-189 | like `t!`, but the error becomes TryContext carrying the given context pairs |
| Error.Bail | pdf/src/error.rs:212-216 | `bail!` is an early Other error with the message, never a panic |
| Error.Unimplemented | pdf/src/error.rs:217-219 | the crate's `unimplemented!()` is an Other error "Unimplemented @ file:line", not EOF and not a panic |
| Ascii.DecodeNibble | pdf/src/enc.rs:67-74 | defined exactly on 0-9, a-h and A-H; digits map to 0..9 and letters to 10..17 |
| Ascii.CombineNibbles | pdf/src/enc.rs:80 | for nibbles below 16, `high << 4 \| low` on u8 is high*16 + low |
| Ascii.FirstBadPair | pdf/src/enc.rs:78-87 | the index found is the first pair from k on that does not decode; None means that every pair from k on decodes |
| Ascii.HexDecoded | pdf/src/enc.rs:76-89 | Ok exactly when every whole pair decodes, holding one byte per pair; otherwise HexDecode names the first bad pair's offset and bytes; never a panic |
| Ascii.DecodeHex | pdf/src/enc.rs:76-89 | the loop over pairs returns what HexDecoded specifies |
| Ascii.HexDigit | pdf/src/enc.rs:67-74 | the reference encoder's digit decodes back to its nibble |
| Ascii.HexEncode | pdf/src/enc.rs:76-89 | the reference encoder writes two digits per byte, high nibble first |
| Ascii.HexRoundTrip | pdf/src/enc.rs:76-89 | decode_hex inverts hex encoding for every byte string |
| Ascii.FirstBadPairIgnoresOddByte | pdf/src/enc.rs:78 | an extra trailing byte does not change which pair is found bad |
| Ascii.HexOddByteIgnored | pdf/src/enc.rs:78 | an odd trailing byte never changes the result |
| Ascii.HexSpaceIsAnError | pdf/src/enc.rs:79-86 | a space inside a pair is a HexDecode error at that pair |
| Ascii.HexAcceptsG | pdf/src/enc.rs:67-74 | `g` is the nibble 16, and `g0` decodes to 0x00 |
| Ascii.Sym85 | pdf/src/enc.rs:92-97 | defined exactly on 0x21..0x75, as the byte minus 0x21, below 85 |
| Ascii.BigEndian32 | pdf/src/enc.rs:109 | the split of a u32 into its four big-endian bytes gives four bytes |
| Ascii.Word85 | pdf/src/enc.rs:98-117 | `z` is one zero word; otherwise the word exists exactly when the first four bytes are symbols, five bytes are consumed, and the two high bytes are zero with the low ones holding 85·sum+e |
| Ascii.FindTerminator | pdf/src/enc.rs:119-121 | the position found is the first `~>` from `from` on; None means none exists |
| Ascii.Groups85 | pdf/src/enc.rs:127-130 | the group loop stops within the input |
| Ascii.PrefixedAppend | pdf/src/enc.rs:127-130 | prefixing the group output is associative and has [] as identity |
| Ascii.Tail85 | pdf/src/enc.rs:131-141 | the tail after the group loop (its properties: Ascii85TailCases, Ascii85ShortTailCases) |
| Ascii.Ascii85Decoded | pdf/src/enc.rs:123-142 | the group loop, a panic where word_85's slice fails, then the tail |
| Ascii.Decode85 | pdf/src/enc.rs:123-142 | decode_85 returns what Ascii85Decoded specifies |
| Ascii.GroupHighBytesZero | pdf/src/enc.rs:98-117 | the group output is whole words, each with two zero high bytes |
| Ascii.GroupsStop | pdf/src/enc.rs:127-130 | the group loop stops at the end or at five or more bytes, not starting with `z`, whose first four are not all symbols |
| Ascii.Ascii85TailCases | pdf/src/enc.rs:131-132 | after the groups, no `~>` is an Ascii85TailError; a `~>` right there or five or more bytes on panics |
| Ascii.PaddedTailWord | pdf/src/enc.rs:135-139 | the `u`-padded tail makes a word exactly when its own bytes are symbols |
| Ascii.Ascii85ShortTailCases | pdf/src/enc.rs:131-141 | a tail of 1..4 bytes succeeds exactly when they are all symbols, appending the first tail_len-1 bytes of the padded word; otherwise it is an Ascii85TailError |
| Ascii.Ascii85BareTerminator | pdf/src/enc.rs:98-130 | `~>` right after the last group panics |
| Ascii.Ascii85ShortTail | pdf/src/enc.rs:131-141 | a two-symbol tail decodes to one byte |
| Ascii.Ascii85MissingTerminator | pdf/src/enc.rs:131 | without `~>` the tail is an Ascii85TailError: the empty input, and one whole group |
| Predictor.Tag | pdf/src/enc.rs:220-229 | the discriminants are below 5 |
| Predictor.FromU8 | pdf/src/enc.rs:233-242 | Ok exactly for 0..4, each giving the type with that discriminant; otherwise IncorrectPredictorType(n) |
| Predictor.FromU8Tag | pdf/src/enc.rs:233-242 | from_u8 inverts the discriminant |
| Predictor.FilterPaeth | pdf/src/enc.rs:245-263 | picks a, b or c: the one nearest to a+b-c, with ties broken a, then b |
| Predictor.PaethEdges | pdf/src/enc.rs:245-263 | with no left neighbours it predicts the byte above; with no row above, the left one |
| Predictor.UnfilterPrefix | pdf/src/enc.rs:265-306 | each step keeps the row length |
| Predictor.Unfiltered | pdf/src/enc.rs:265-306 | the reconstructed row has the input's length |
| Predictor.Unfilter | pdf/src/enc.rs:265-306 | the in-place method writes Unfiltered into out[off..off+len] and nothing outside it |
| Predictor.PrefixStable | pdf/src/enc.rs:265-306 | later steps never revisit an index, and indices not yet reached keep the buffer's bytes |
| Predictor.UnfilteredRecon | pdf/src/enc.rs:265-306 | every written byte is the filtered byte plus the predictor (section 6 of RFC 2083), read from the already reconstructed bytes; Sub's first bpp bytes keep the buffer's bytes |
| Predictor.Filtered | pdf/src/enc.rs:309-349 | as long as the row |
| Predictor.Filter | pdf/src/enc.rs:309-349 | the in-place filter leaves exactly Filtered(old row) |
| Predictor.FilterFromEnd | pdf/src/enc.rs:315-342 | the loop from the end down to bpp sets those bytes to Filtered and leaves the first bpp bytes alone |
| Predictor.FilterHead | pdf/src/enc.rs:325-346 | the loop over the first bpp bytes sets them to Filtered and leaves the rest alone |
| Predictor.FilteredCorrected | pdf/src/enc.rs:309-349 | the corrected filter is as long as the row |
| Predictor.RoundTripUpTo | pdf/src/enc.rs:265-349 | unfiltering the corrected filter restores the first n bytes |
| Predictor.FilterRoundTrip | pdf/src/enc.rs:265-349 | unfilter inverts the corrected filter for every type, given bpp >= 1 where a left neighbour is used |
| Predictor.FilterAgreesWithoutOverflow | pdf/src/enc.rs:328 | filter as written equals the corrected one unless an Avg sum reaches 256 |
| Predictor.AsWrittenAgrees | pdf/src/enc.rs:328 | each predictor as written equals the one unfilter adds back unless an Avg sum reaches 256 |
| Predictor.FilterAsWrittenRoundTrip | pdf/src/enc.rs:265-349 | unfilter inverts filter as written when no Avg sum overflows |
| Predictor.FilterAvgCounterexample | pdf/src/enc.rs:328 | bpp 1, previous row [0, 100] and row [200, 200] filter to [200, 178], which unfilters to [200, 72] |
| Flate.Inflate | pdf/src/enc.rs:150-156 | zlib's output when it succeeds; otherwise the raw inflater's output, or its message as an Other error; never a panic |
| Flate.ThenThen | pdf/src/enc.rs:175-192 | prefixing row output is associative and has [] as identity |
| Flate.RowsFrom | pdf/src/enc.rs:175-192 | the row loop from an input offset against the previous output row (its properties: RowsFromStep, RowsFromLength) |
| Flate.Unpredicted | pdf/src/enc.rs:160-193 | the predictor branch: the row loop from offset 0 against a zero row (its properties: UnpredictedLength and the examples) |
| Flate.RowsFromStep | pdf/src/enc.rs:175-192 | one row step: a bad tag byte is its error; a short row panics on the slice; otherwise the unfiltered row is followed by the remaining rows |
| Flate.FullRowsDiv | pdf/src/enc.rs:162 | the number of whole rows is the remaining length divided by columns+1 |
| Flate.LayoutFrom | pdf/src/enc.rs:162-165 | the output size rows·columns matches the row layout from any offset |
| Flate.OutputLayout | pdf/src/enc.rs:162-165 | the buffer of rows·columns zeros fits the row layout of the whole input |
| Flate.WholeRows | pdf/src/enc.rs:162 | division of a whole number of rows is exact |
| Flate.NewOutput | pdf/src/enc.rs:165 | the output buffer is fresh, all zero, and sized to the row layout |
| Flate.FlateDecode | pdf/src/enc.rs:144-197 | flate_decode returns what FlateDecoded specifies: inflate, then the row loop only when `predictor as usize > 10` |
| Flate.DecodeRow | pdf/src/enc.rs:180-186 | one unfilter call appends the unfiltered row after the rows written and leaves the rest of the buffer zero |
| Flate.RowStateNext | pdf/src/enc.rs:175-192 | a decoded row moves the loop state one row on |
| Flate.NextRow | pdf/src/enc.rs:175-192 | one pass of the loop either ends with the specified result or keeps the loop state, advancing the input |
| Flate.UnpredictRows | pdf/src/enc.rs:160-193 | the predictor branch returns what Unpredicted specifies |
| Flate.RowsFromLength | pdf/src/enc.rs:175-192 | a successful loop consumed n whole rows of columns+1 bytes and produced n·columns bytes |
| Flate.UnpredictedLength | pdf/src/enc.rs:160-193 | on success the input is a whole number of rows and the output holds columns bytes per row |
| Flate.SubFirstPixelExample | pdf/src/enc.rs:277-281 | a Sub row [5, 6] with bpp 1 decodes to [0, 6]: the first byte keeps the buffer's zero |
| Flate.PaethRowsExample | pdf/src/enc.rs:160-193 | Colors = Columns = 3 and two Paeth rows [10, 20, 30], [1, 1, 1] decode to [10, 20, 30, 11, 21, 31] |
| Enc.EscapeDebug | pdf/src/enc.rs:62 | one character as `{:?}` of a str writes it: `"` and `\` escaped, tab, CR, LF and NUL by letter, other ASCII controls as `\u{..}` |
| Enc.DebugStr | pdf/src/enc.rs:62 | the text between the quotes of `{:?}`, character by character |
| Enc.DebugStrRoundTrip | pdf/src/enc.rs:62 | the escaped name reads back to the name, so no two names give the same message |
| Enc.DebugStrPlain | pdf/src/enc.rs:62 | a name of printable ASCII without `"` or `\` is written unchanged |
| Enc.FromKindAndParams | pdf/src/enc.rs:47-64 | an unknown name is a bail error quoting it with `{:?}`'s escapes; on success the variant's name is the kind; Flate/LZW and DCT pass their parameter reader's value or error through; the other known names always succeed |
| Enc.KindNameRoundTrip | pdf/src/enc.rs:47-64 | every parameterless filter is rebuilt from its name, and any filter rebuilt from its name has that name |
| Enc.DctDecoded | pdf/src/enc.rs:199-204 | jpeg pixels pass through; a jpeg failure becomes PdfError::Jpeg |
| Enc.Decoded | pdf/src/enc.rs:206-214 | the decoder each filter dispatches to (its properties are those of HexDecoded, Ascii85Decoded, FlateDecoded and DctDecoded) |
| Enc.Decode | pdf/src/enc.rs:206-214 | decode dispatches to the hex, ASCII85, flate and DCT decoders, each as specified |
| Enc.UnsupportedFiltersAreErrors | pdf/src/enc.rs:206-214 | LZW, JPX, CCITTFax and Crypt give "Unimplemented @ pdf/src/enc.rs:212" as an Other error, not a panic |
| Font.Lookup | pdf/src/font.rs:159-168 | Widths::get gives the default below first_char and past the filled range, and the stored value in between |
| Font.SetAsWritten | pdf/src/font.rs:182-213 | Widths::set as written, branch for branch, with the gap padded by `cid - first_char - 1` defaults (its properties: SetAsWrittenUpdates, SetAsWrittenGap) |
| Font.SetCorrected | pdf/src/font.rs:182-213 | Widths::set with the gap padded by `cid - first_char - len` defaults (its property: SetCorrectedUpdates) |
| Font.SetCorrectedUpdates | pdf/src/font.rs:182-213 | the corrected set is a point update of Lookup: cid gets width and every other code is unchanged; afterwards cid lies in the filled range |
| Font.SetAsWrittenUpdates | pdf/src/font.rs:182-213 | with no gap, or at most one value stored, set as written is that same point update, with first_char as the source sets it |
| Font.SetAsWrittenGap | pdf/src/font.rs:204-209 | in the gap case the width lands at index len + (cid - first_char) - 1, and get(cid) still answers the default once two values are stored |
| Font.SetGapCounterexample | pdf/src/font.rs:204-209 | codes 0 and 1 set, then code 5: as written the width lands on code 6 |
| Font.Widths.constructor | pdf/src/font.rs:169-175 | Widths::new holds no values, starts at code 0, and keeps the default |
| Font.Widths.FromTable | pdf/src/font.rs:266-270 | the struct literal holds the given table |
| Font.Widths.Set | pdf/src/font.rs:182-213 | the method leaves SetAsWritten of the old table |
| Font.Widths.SetFixed | pdf/src/font.rs:182-213 | the method leaves SetCorrected of the old table |
| Font.SetByUpdates | pdf/src/font.rs:182-213 | either set is a point update wherever the two agree, and then the next code agrees too |
| Font.SetEachLookup | pdf/src/font.rs:279-284 | `c [w0 w1 ...]` sets exactly codes c+i to wi: through the source's set when c opens no gap on a table of two or more values, through the corrected set always |
| Font.SetEachFails | pdf/src/font.rs:282 | the first non-number in the array stops the walk with its UnexpectedPrimitive error |
| Font.SetRangeLookup | pdf/src/font.rs:285-290 | `c1 c2 w` sets every code of c1..=c2 to w and nothing else, under the same condition on c1 |
| Font.WalkW | pdf/src/font.rs:273-298 | the while-let walk over the W array with `c1`/`c2` cast `as usize`, through either set (its properties: the lemmas below) |
| Font.WalkSingleEntries | pdf/src/font.rs:276-290 | each well-formed entry form sets exactly its codes, under the same condition on its first code |
| Font.WalkMalformedEntries | pdf/src/font.rs:277-295 | a missing width is a NoneError at font.rs:286:37; a missing or wrong second element is the "unexpected primitive in W array" error; a non-integer head is UnexpectedPrimitive |
| Font.WalkNegativeCode | pdf/src/font.rs:277 | a negative code is cast to usize modulo 2^64, so `-1 [w]` sets code 2^64-1 |
| Font.WalkGapCounterexample | pdf/src/font.rs:279-284 | W = [0 [1 2] 5 [3]]: the source's walk leaves code 5 at the default and gives code 6 the width 3; the corrected walk gives code 5 the width 3 |
| Font.CidWidths | pdf/src/font.rs:273-299 | the while-let walk, calling Widths::set as written, gives a fresh Widths whose table is the as-written WalkW of the W array |
| Font.FindStandard | pdf/src/font.rs:109-114 | Some exactly when some entry has the name, and then it holds the first such entry's bytes |
| Font.StandardNameMatch | pdf/src/font.rs:67-87 | "Helvetica" finds the ninth built-in font; with the feature off, nothing is found |
| Font.StandardNamesCaseSensitive | pdf/src/font.rs:111 | "helvetica" matches no built-in name |
| Font.GidPairs | pdf/src/font.rs:128-130 | an even length gives the big-endian u16 pairs; an odd length panics on `c[1]` |
| Font.GidBytes | pdf/src/font.rs:128-130 | the reference writer gives two bytes per glyph id |
| Font.GidRoundTrip | pdf/src/font.rs:128-130 | reading the written bytes back gives the glyph ids |
| Font.CidToGidEntry | pdf/src/font.rs:123-134 | anything other than a Stream or Reference gives no map; a map given is GidPairs of the stream's data |
| Font.FromPrimitive | pdf/src/font.rs:93-150 | Standard data exactly when BaseFont names a standard font, holding its bytes; otherwise data dispatched by subtype; the removed keys are absent from `_other`; a missing Type, BaseFont or (after a valid BaseFont) Subtype is MissingEntry; a dictionary error propagates |
| Font.DescriptorData | pdf/src/font.rs:420-430 | FontFile, else FontFile2, else FontFile3, read as streams; None when all three are absent |
| Font.StandardFont | pdf/src/font.rs:216-221 | Some exactly for Standard data |
| Font.EmbeddedData | pdf/src/font.rs:222-231 | standard and other fonts have no embedded data |
| Font.CidToGidMap | pdf/src/font.rs:238-247 | only a Type0 or CIDFontType2 font reports a map |
| Font.IsCid | pdf/src/font.rs:232-237 | CIDFontType0 and CIDFontType2 fonts are CID fonts, and no other |
| Font.Info | pdf/src/font.rs:251-257 | Some exactly for Type1 and TrueType fonts |
| Font.Type0Delegates | pdf/src/font.rs:222-247 | a Type0 font reports its first descendant's embedded data and glyph map, and is not CID, has no info and is not standard |
| Font.SimpleWidthsLookup | pdf/src/font.rs:261-272 | a simple font's widths are its /Widths from /FirstChar on, 0 elsewhere |
| Font.FontWidths | pdf/src/font.rs:258-302 | Font::widths returns a fresh table equal to WidthTable: Type0 delegates or panics without descendants, simple fonts read /Widths, and CID fonts walk W |
| Font.SimpleFontWidths | pdf/src/font.rs:261-272 | the simple-font arm returns SimpleWidths |
| Font.StandardFontsAreOpaque | pdf/src/font.rs:109-114 | a standard font reports its built-in bytes and no embedded data, glyph map or widths |
| Color.GetIndex | pdf/src/object/color.rs:32-34 | the element, or Bounds carrying the index and the length |
| Color.FromPrimitive | pdf/src/object/color.rs:36-86 | ColorSpace::from_primitive under a recursion bound (its properties: the Color lemmas below) |
| Color.DeviceNames | pdf/src/object/color.rs:41-49 | the three device names give their spaces; any other name is the Unimplemented error at color.rs:46 |
| Color.MalformedArrays | pdf/src/object/color.rs:50-51 | an empty array is a Try-wrapped Bounds(0, 0) at 51:22; a non-name head is a Try-wrapped error; a non-array is a Try-wrapped error at line 50 |
| Color.UnknownFamilyKeepsArray | pdf/src/object/color.rs:83 | an unknown family name gives Other with the whole array |
| Color.IndexedReads | pdf/src/object/color.rs:54-72 | Indexed reads its base from element 1 and its lookup from element 3; element 2 (hival) is never read |
| Color.IndexedLookupCases | pdf/src/object/color.rs:56-70 | a string lookup gives its bytes; a resolver error is returned unwrapped; a Reference resolving to a Reference, or any non-string, non-stream value, is UnexpectedPrimitive; stream errors are Try-wrapped or propagated |
| Color.SeparationAndIccReads | pdf/src/object/color.rs:73-82 | Separation reads name, alternate and tint from elements 1-3; ICCBased reads its stream from element 1 |
| Color.ShortArrays | pdf/src/object/color.rs:73-82 | a short ICCBased or Separation array fails with Bounds, wrapped by the `t!` at that line and column |
| Color.FuelMonotone | pdf/src/object/color.rs:40-85 | once a result is reached without running out of the recursion bound, more bound gives the same result |
| Color.FromArrayMonotone | pdf/src/object/color.rs:50-85 | the same for the array form |
| Text.Scan | examples/text/src/main.rs:29-74 | the token loop of parse_cmap (its properties: ScanControl, ScanShift) |
| Text.BfChar | examples/text/src/main.rs:31-42 | the bfchar loop (its properties: BfCharLaterWins, BfCharSwallowsNextToken) |
| Text.BfRange | examples/text/src/main.rs:43-70 | the bfrange loop (its properties: RangeStringsValues, RangeArrayValues) |
| Text.Code | examples/text/src/main.rs:36 | Ok exactly for two bytes, the big-endian u16; otherwise a panic |
| Text.IncLast | examples/text/src/main.rs:56 | the length and all bytes except the last are kept |
| Text.BumpedStep | examples/text/src/main.rs:53-57 | each iteration's destination string is the original with the last byte advanced once more |
| Text.RangeStringsValues | examples/text/src/main.rs:48-58 | a bfrange with one string maps each code start+i of the range to the string with last byte + i, wrapping; other codes unchanged |
| Text.RangeArrayValues | examples/text/src/main.rs:59-67 | a bfrange with an array maps code start+i to element i, up to the shorter of range and array; other codes unchanged |
| Text.BfCharLaterWins | examples/text/src/main.rs:31-42 | a later bfchar entry for a code replaces an earlier one |
| Text.BfCharSwallowsNextToken | examples/text/src/main.rs:31-42 | both reads precede the match, so the token after `endbfchar` is consumed and a following block keyword is lost |
| Text.ScanControl | examples/text/src/main.rs:29-74 | endcmap stops the scan; tokens outside blocks are skipped; a code string not of two bytes panics |
| Text.ScanShift | examples/text/src/main.rs:29-74 | the scan depends only on the tokens from its position on |
| Text.BfCharShift | examples/text/src/main.rs:31-42 | the same for the bfchar loop |
| Text.BfRangeShift | examples/text/src/main.rs:43-70 | the same for the bfrange loop |
| Text.ParsedShift | examples/text/src/main.rs:32-33 | parsing and advancing depend only on the tokens from the position on |
| Text.ParsedCMap | examples/text/src/main.rs:25-77 | a CMap that is not UTF-8 panics at main.rs:26; otherwise the Scan of its tokens |
| Text.ParseCMap | examples/text/src/main.rs:25-77 | the imperative parse_cmap returns what ParsedCMap specifies |
| Text.InsertRangeStrings | examples/text/src/main.rs:53-57 | the loop returns RangeStrings |
| Text.InsertRangeArray | examples/text/src/main.rs:63-66 | the zipped loop returns RangeArray |
| Text.Windows | examples/text/src/main.rs:108 | the number of 2-byte windows is exact: the last window fits and one more would not, so it is 0 below two bytes and len-1 otherwise |
| Text.AddString | examples/text/src/main.rs:104-126 | appends ShownText of the encoding to `out`, keeping `out` as prefix |
| Text.AppendIdentity | examples/text/src/main.rs:107-113 | appends the mapped text of every overlapping window |
| Text.AppendSimple | examples/text/src/main.rs:115-122 | appends each byte's mapping or the byte as a char |
| Text.IdentityWindowsOverlap | examples/text/src/main.rs:108-113 | in 00 41 42 both 0041 and 4142 are looked up |
| Text.SimpleTextUnmapped | examples/text/src/main.rs:115-122 | with an empty cmap each byte becomes the char of its code |
| Text.IdentityTextFullyMapped | examples/text/src/main.rs:107-113 | when every window maps to one char, the text is those chars in window order |
| Text.Cache.constructor | examples/text/src/main.rs:87-91 | the cache starts empty |
| Text.Cache.GetFont | examples/text/src/main.rs:99-101 | Some exactly for a stored name, holding its entry |
| Text.Cache.AddFont | examples/text/src/main.rs:92-98 | a font is stored under its name, with its cmap, only when it has a ToUnicode stream; a failing `data().unwrap()` panics and stores nothing |

## Left out

- **Foreign decoders.** `inflate_bytes_zlib`, `inflate_bytes` and `jpeg_decoder` are parameters (`Flate.Inflater`, `Enc.Codecs`). The model says what `flate_decode` and `dct_decode` do with their results, not how inflation or JPEG decoding work.
- **Derived readers.** The `#[derive(Object)]` readers of `LZWFlateParams`, `DCTDecodeParams`, `FontType`, `TFont`, `Type0Font`, `CIDFont`, `Encoding`, `Stream` and `Function` are parameters. The derive macro is not part of this model.
- **Stream data and decoding.** `Stream::data`, `Stream::from_stream`, `Stream::decode` and the resolver's object table are parameters as well.
- **The lexer.** `Lexer` and `parse_with_lexer` in `parse_cmap` are modelled as a sequence of tokens: a keyword, which parses as an error, or a primitive value. The byte-level lexer is not part of this model.
- **UTF-16BE decoding.** `utf16be_to_string` is a parameter returning a string, or nothing where `c.unwrap()` panics.
- Floating-point widths (`f32`) are `real`. Rounding is not modelled.
- **Standard fonts.** The font program bytes of `STANDARD_FONTS` are a parameter. Only the names and their order are modelled.
- **Capacity.** `Widths::ensure_capacity` only reserves memory and has no observable effect. It is left out.
- **Untouched functions.** These are left out:
  - `PdfError::trace`;
  - the `Display`/`Error` implementations of `PdfError`;
  - the `From<io::Error>` and `err_from!` conversions other than the jpeg one;
  - `Font::serialize` and `ColorSpace::serialize`, which are `unimplemented!()`;
  - `Font::encoding` and `Font::to_unicode`, plain field reads;
  - the `flags` constants;
  - `FontStretch`, `FontTypeExt` and `FontStream3`, which no modelled code reads.
- **FontDescriptor metrics.** Only the three font-program streams of `FontDescriptor` are modelled; its metric fields are not read by the modelled code.
- **Text extractor I/O.** These are I/O and left out:
  - `main` of the text example: opening the file, iterating the pages and content operations, and printing;
  - the printing of `parse_cmap` and `add_font`. The `from_utf8(data).unwrap()` inside the `println!` of `parse_cmap` is kept: it is the check `utf8` of `Text.CMapReaders`, and `Text.ParseCMap` and `Text.Cache.AddFont` panic where it fails.
- **Sharing.** `Rc` sharing of fonts and colour spaces is modelled by value.
- **Encodings.** The `Encoding` of a font is reduced to its base, Identity-H or another one, which is all `add_string` distinguishes.
- Flate.FlateDecoded: requires nonnegative `Colors` and `Columns`. A negative `i32` cast to `usize` gives an allocation or slice the source cannot perform.
- Font.WalkW: codes are unbounded naturals after the `as usize` cast, so the usize overflow of `c1 + i` and the allocation a code near 2^64 would need are not modelled.
- Font.WArrayMessage: the `{:?}` text of the unexpected element is reduced to its variant name.
- Color.FromPrimitive: carries a recursion bound (`fuel`), because a resolved reference may lead back to an enclosing array. `Color.FuelMonotone` shows the bound changes no result that is reached.
- Color.IndexedLookup: a Reference is resolved once, as `resolve.resolve(r)` does. A second Reference is then reported as an unexpected primitive.
- **Debug overflow panics.** The debug-build overflow panic of the bfrange `+= 1` on the last byte is left out. The `+= 1` is modelled as wrapping, as in a release build.
- Predictor.Filter: requires a previous row at least as long as the row for Up, Avg and Paeth, and bpp <= len for Avg and Paeth; `filter` panics on the out-of-bounds index otherwise, and that panic is not modelled.
- Enc.UnrecognizedFilter: escapes as `{:?}` does for ASCII only; non-ASCII characters that Rust writes as `\u{..}` (non-printable or grapheme-extending ones) are written as themselves.
- Predictor.Unfilter: the source's two loops over the row (the copy of the first `bpp` bytes and the main loop) are one loop over the indices, in the same order and with the same writes.
- Text.Decode16: UTF-16 decoding errors are a parameter's `None`, made a panic. Surrogate handling belongs to that parameter.

## Findings

| source | as written | input that shows it | evidently intended | confidence | as-written member | corrected member |
|---|---|---|---|---|---|---|
| pdf/src/font.rs:204-209 | in the gap case `Widths::set` appends `cid - first_char - 1` defaults after the existing values, so the width lands at index `len + (cid - first_char) - 1` instead of `cid - first_char` | values [1.0, 2.0] from code 0, then `set(5, 3.0)`: `get(5)` is 0.0 and `get(6)` is 3.0 | pad only up to `cid - first_char`, so `get(cid)` returns the width just set | high (not executed) | Font.SetGapCounterexample | Font.SetCorrectedUpdates |
| pdf/src/font.rs:282-288 | `Font::widths` stores the W array's widths through the `Widths::set` above, so its gap case shifts the widths of an entry that starts past the filled range | W = [0 [1 2] 5 [3]]: `get(5)` is the default 0 and `get(6)` is 3.0 | each entry sets exactly its own codes | high (not executed) | Font.WalkGapCounterexample | Font.SetEachLookup |
| pdf/src/enc.rs:328 | `filter` for Avg computes `left.wrapping_add(above) / 2`, so a sum of 256 or more wraps before halving and `unfilter` (which averages the 9-bit sum) does not restore the row | Avg, bpp 1, previous row [0, 100], row [200, 200]: filtered [200, 178], unfiltered back to [200, 72] | subtract `((left as u16 + above as u16) / 2) as u8`, the average `unfilter` adds back | high (not executed) | Predictor.FilterAvgCounterexample | Predictor.FilterRoundTrip |

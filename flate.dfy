/** flate_decode of pdf/src/enc.rs: inflate (zlib, falling back to a raw deflate stream) and,
    for a Predictor above 10, the PNG row predictors of section 7.4.4.4 of ISO 32000-1. The
    inflate crate is not part of this model: it is the `Inflater` parameter. */
module Flate {
  import opened Bytes
  import opened Error
  import opened Predictor

  /** LZWFlateParams: Predictor, Colors, BitsPerComponent, Columns and EarlyChange, all i32. */
  datatype FlateParams = FlateParams(predictor: int, nComponents: int, bitsPerComponent: int, columns: int, earlyChange: int)

  /** The outcome of an inflate call: the bytes, or the crate's error message. */
  datatype Inflated = Inflated(bytes: seq<byte>) | InflateFailed(message: string)

  /** inflate_bytes_zlib and inflate_bytes. */
  datatype Inflater = Inflater(zlib: seq<byte> -> Inflated, raw: seq<byte> -> Inflated)

  /** The inflate step: zlib first; on any zlib error the raw decoder, whose String error
      becomes Other through `From<String>`. */
  function Inflate(z: Inflater, data: seq<byte>): (r: Result<seq<byte>>)
    ensures !r.Panic?
    ensures r.Err? ==> z.zlib(data).InflateFailed? && z.raw(data).InflateFailed? && r.error == FromString(z.raw(data).message)
    ensures z.zlib(data).Inflated? ==> r == Ok(z.zlib(data).bytes)
    ensures z.zlib(data).InflateFailed? && z.raw(data).Inflated? ==> r == Ok(z.raw(data).bytes)
  {
    match z.zlib(data)
    case Inflated(bytes) => Ok(bytes)
    case InflateFailed(_) =>
      match z.raw(data)
      case Inflated(bytes) => Ok(bytes)
      case InflateFailed(message) => Err(FromString(message))
  }

  /** `params.predictor as usize > 10`: the cast turns a negative i32 into a huge usize. */
  predicate PredictorActive(predictor: int)
  {
    predictor > 10 || predictor < 0
  }

  function Then(done: seq<byte>, r: Result<seq<byte>>): Result<seq<byte>>
  {
    match r
    case Ok(v) => Ok(done + v)
    case Err(e) => Err(e)
    case Panic => Panic
  }

  lemma ThenThen(a: seq<byte>, b: seq<byte>, r: Result<seq<byte>>)
    ensures Then(a, Then(b, r)) == Then(a + b, r)
    ensures Then([], r) == r
  {
    if r.Ok? {
      assert a + (b + r.value) == (a + b) + r.value;
      assert [] + r.value == r.value;
    }
  }

  /** The row loop of flate_decode from input offset inOff, with prev the previous output row:
      a tag byte (a bad one is an error), then `columns` filtered bytes (a partial row panics
      on the slice), unfiltered into a zeroed row. Avg and Paeth panic in unfilter when Colors
      exceeds Columns. */
  function RowsFrom(inp: seq<byte>, columns: nat, bpp: nat, inOff: nat, prev: seq<byte>): Result<seq<byte>>
    requires |prev| == columns
    decreases |inp| - inOff
  {
    if inOff >= |inp| then Ok([])
    else
      var t :- FromU8(inp[inOff]);
      if inOff + 1 + columns > |inp| then Panic
      else if (t.Avg? || t.Paeth?) && bpp > columns then Panic
      else
        var row := Unfiltered(t, bpp, prev, inp[inOff + 1..inOff + 1 + columns], Zeros(columns));
        Then(row, RowsFrom(inp, columns, bpp, inOff + 1 + columns, row))
  }

  /** One step of the row loop, case by case. */
  lemma RowsFromStep(inp: seq<byte>, columns: nat, bpp: nat, inOff: nat, prev: seq<byte>)
    requires |prev| == columns && inOff < |inp|
    ensures FromU8(inp[inOff]).Err? ==> RowsFrom(inp, columns, bpp, inOff, prev) == Err(FromU8(inp[inOff]).error)
    ensures FromU8(inp[inOff]).Ok? && inOff + 1 + columns > |inp| ==> RowsFrom(inp, columns, bpp, inOff, prev) == Panic
    ensures FromU8(inp[inOff]).Ok? && inOff + 1 + columns <= |inp| ==>
      var t := FromU8(inp[inOff]).value;
      ((t.Avg? || t.Paeth?) && bpp > columns ==> RowsFrom(inp, columns, bpp, inOff, prev) == Panic) &&
      (!((t.Avg? || t.Paeth?) && bpp > columns) ==>
        var row := Unfiltered(t, bpp, prev, inp[inOff + 1..inOff + 1 + columns], Zeros(columns));
        RowsFrom(inp, columns, bpp, inOff, prev) == Then(row, RowsFrom(inp, columns, bpp, inOff + 1 + columns, row)))
  {
  }

  /** The predictor stage on the inflated bytes; the first row is predicted from a zero row. */
  function Unpredicted(inp: seq<byte>, columns: nat, bpp: nat): Result<seq<byte>>
  {
    RowsFrom(inp, columns, bpp, 0, Zeros(columns))
  }

  /** What flate_decode returns. */
  function FlateDecoded(z: Inflater, data: seq<byte>, params: FlateParams): Result<seq<byte>>
    requires params.nComponents >= 0 && params.columns >= 0
  {
    var decoded :- Inflate(z, data);
    if PredictorActive(params.predictor) then Unpredicted(decoded, params.columns as nat, params.nComponents as nat)
    else Ok(decoded)
  }

  lemma MulMono(a: nat, b: nat, d: nat)
    requires a <= b
    ensures a * d <= b * d
  {
  }

  /** The row layout of flate_decode from (inOff, outOff): while a whole row of input remains,
      its Columns output bytes fit in a buffer of outLen bytes, and the buffer is exactly full
      when the input ends on a row boundary. */
  ghost predicate Layout(len: nat, c: nat, outLen: nat, inOff: nat, outOff: nat)
    decreases len - inOff
  {
    if inOff + c + 1 > len then inOff == len ==> outLen == outOff
    else outOff + c <= outLen && Layout(len, c, outLen, inOff + c + 1, outOff + c)
  }

  /** The number of whole rows of Columns + 1 bytes from inOff on. */
  function FullRows(len: nat, c: nat, inOff: nat): nat
    decreases len - inOff
  {
    if inOff + c + 1 > len then 0 else 1 + FullRows(len, c, inOff + c + 1)
  }

  /** Division by d is determined by any quotient and remainder in range. */
  lemma DivUnique(x: nat, d: nat, q: nat, r: nat)
    requires d > 0 && r < d && x == q * d + r
    ensures x / d == q && x % d == r
  {
    var q2, r2 := x / d, x % d;
    if q2 < q {
      MulMono(q2 + 1, q, d);
    } else if q2 > q {
      MulMono(q + 1, q2, d);
    }
  }

  lemma DivStep(x: nat, d: nat)
    requires d > 0 && x >= d
    ensures (x - d) / d == x / d - 1
  {
    var q, r := x / d, x % d;
    assert (q - 1) * d == q * d - d;
    DivUnique(x - d, d, q - 1, r);
  }

  lemma {:induction false} FullRowsDiv(len: nat, c: nat, inOff: nat)
    requires inOff <= len
    ensures FullRows(len, c, inOff) == (len - inOff) / (c + 1)
    decreases len - inOff
  {
    if inOff + c + 1 <= len {
      DivStep(len - inOff, c + 1);
      FullRowsDiv(len, c, inOff + c + 1);
    }
  }

  lemma {:induction false} LayoutFrom(len: nat, c: nat, inOff: nat, outOff: nat, outLen: nat)
    requires inOff <= len
    requires outLen == outOff + FullRows(len, c, inOff) * c
    ensures Layout(len, c, outLen, inOff, outOff)
    decreases len - inOff
  {
    if inOff + c + 1 <= len {
      var n := FullRows(len, c, inOff);
      assert n * c == c + (n - 1) * c;
      LayoutFrom(len, c, inOff + c + 1, outOff + c, outLen);
    }
  }

  lemma WholeRows(k: nat, c: nat)
    ensures (k * (c + 1)) / (c + 1) == k
    ensures (k * (c + 1)) % (c + 1) == 0
  {
    DivUnique(k * (c + 1), c + 1, k, 0);
  }

  lemma OutputLayout(len: nat, columns: nat)
    ensures Layout(len, columns, len / (columns + 1) * columns, 0, 0)
  {
    FullRowsDiv(len, columns, 0);
    LayoutFrom(len, columns, 0, 0, len / (columns + 1) * columns);
  }

  /** The output buffer: `vec![0; rows * columns]` with rows = len / (columns + 1). */
  method NewOutput(len: nat, columns: nat) returns (out: array<byte>)
    ensures fresh(out)
    ensures forall j :: 0 <= j < out.Length ==> out[j] == 0
    ensures Layout(len, columns, out.Length, 0, 0)
  {
    var rows := len / (columns + 1);
    out := new byte[rows * columns](_ => 0);
    OutputLayout(len, columns);
  }

  /** flate_decode. */
  method FlateDecode(z: Inflater, data: seq<byte>, params: FlateParams) returns (r: Result<seq<byte>>)
    requires params.nComponents >= 0 && params.columns >= 0
    ensures r == FlateDecoded(z, data, params)
  {
    var decoded :- Inflate(z, data);
    if PredictorActive(params.predictor) {
      r := UnpredictRows(decoded, params.columns as nat, params.nComponents as nat);
    } else {
      r := Ok(decoded);
    }
  }

  /** unfilter of one row into the zeroed part of the output buffer at outOff. */
  method DecodeRow(t: PredictorType, bpp: nat, prev: seq<byte>, rowIn: seq<byte>, out: array<byte>, outOff: nat)
    requires |prev| == |rowIn| && outOff + |rowIn| <= out.Length
    requires (t.Avg? || t.Paeth?) ==> bpp <= |rowIn|
    requires forall j :: outOff <= j < out.Length ==> out[j] == 0
    modifies out
    ensures out[..outOff + |rowIn|] == old(out[..outOff]) + Unfiltered(t, bpp, prev, rowIn, Zeros(|rowIn|))
    ensures forall j :: outOff + |rowIn| <= j < out.Length ==> out[j] == 0
  {
    ghost var before := out[..outOff];
    assert out[outOff..outOff + |rowIn|] == Zeros(|rowIn|);
    Unfilter(t, bpp, prev, rowIn, out, outOff);
    assert out[..outOff + |rowIn|] == out[..outOff] + out[outOff..outOff + |rowIn|];
    assert forall j :: outOff + |rowIn| <= j < out.Length ==> out[j] == old(out[j]) by {
      assert out[outOff + |rowIn|..] == old(out[outOff + |rowIn|..]);
      forall j | outOff + |rowIn| <= j < out.Length ensures out[j] == old(out[j]) {
        assert out[j] == out[outOff + |rowIn|..][j - outOff - |rowIn|];
      }
    }
  }

  lemma SliceOfPrefix(s: seq<byte>, a: seq<byte>, b: seq<byte>, n: nat)
    requires n == |a| && n + |b| <= |s| && s[..n + |b|] == a + b
    ensures s[..n + |b|] == a + b && s[n..n + |b|] == b
  {
    forall k | 0 <= k < |b|
      ensures s[n..n + |b|][k] == b[k]
    {
      assert s[n + k] == s[..n + |b|][n + k];
    }
  }

  /** The state of the row loop of flate_decode over the buffer contents buf: the rows so far
      sit in buf[..outOff], the last of them at lastOutOff, the rest of the buffer is still
      zero, and what is left of the input yields the rest of the result r0. */
  ghost predicate RowState(inp: seq<byte>, columns: nat, bpp: nat, buf: seq<byte>, r0: Result<seq<byte>>,
                           inOff: nat, outOff: nat, lastOutOff: nat, lastRow: seq<byte>)
  {
    && inOff <= |inp|
    && Layout(|inp|, columns, |buf|, inOff, outOff)
    && lastOutOff <= outOff <= |buf|
    && |lastRow| == columns
    && (outOff == 0 ==> lastRow == Zeros(columns))
    && (outOff > 0 ==> lastOutOff + columns == outOff && buf[lastOutOff..outOff] == lastRow)
    && (forall j :: outOff <= j < |buf| ==> buf[j] == 0)
    && r0 == Then(buf[..outOff], RowsFrom(inp, columns, bpp, inOff, lastRow))
  }

  /** A row decoded into the buffer moves the loop state one row on. */
  lemma RowStateNext(inp: seq<byte>, columns: nat, bpp: nat, buf: seq<byte>, buf': seq<byte>, r0: Result<seq<byte>>,
                     inOff: nat, outOff: nat, lastOutOff: nat, lastRow: seq<byte>, t: PredictorType)
    requires RowState(inp, columns, bpp, buf, r0, inOff, outOff, lastOutOff, lastRow)
    requires inOff + 1 + columns <= |inp| && FromU8(inp[inOff]) == Ok(t) && !((t.Avg? || t.Paeth?) && bpp > columns)
    requires |buf'| == |buf| && outOff + columns <= |buf|
    requires buf'[..outOff + columns] == buf[..outOff] + Unfiltered(t, bpp, lastRow, inp[inOff + 1..inOff + 1 + columns], Zeros(columns))
    requires forall j :: outOff + columns <= j < |buf'| ==> buf'[j] == 0
    ensures RowState(inp, columns, bpp, buf', r0, inOff + 1 + columns, outOff + columns, outOff,
                     Unfiltered(t, bpp, lastRow, inp[inOff + 1..inOff + 1 + columns], Zeros(columns)))
  {
    var row := Unfiltered(t, bpp, lastRow, inp[inOff + 1..inOff + 1 + columns], Zeros(columns));
    RowsFromStep(inp, columns, bpp, inOff, lastRow);
    ThenThen(buf[..outOff], row, RowsFrom(inp, columns, bpp, inOff + 1 + columns, row));
    SliceOfPrefix(buf', buf[..outOff], row, outOff);
    if outOff + columns == 0 {
      assert row == Zeros(columns);
    }
  }

  /** One pass of the row loop: the tag byte, the row slice and unfilter into the buffer.
      A stop is the value flate_decode returns at that point: the `?` on the tag, or a panic. */
  method NextRow(inp: seq<byte>, columns: nat, bpp: nat, out: array<byte>, ghost r0: Result<seq<byte>>,
                 inOff: nat, outOff: nat, lastOutOff: nat, ghost lastRow: seq<byte>)
    returns (stop: Option<Result<seq<byte>>>, inOff': nat, outOff': nat, lastOutOff': nat, ghost lastRow': seq<byte>)
    requires inOff < |inp| && RowState(inp, columns, bpp, out[..], r0, inOff, outOff, lastOutOff, lastRow)
    modifies out
    ensures stop.Some? ==> stop.value == r0
    ensures stop.None? ==> inOff' > inOff && RowState(inp, columns, bpp, out[..], r0, inOff', outOff', lastOutOff', lastRow')
  {
    var tag := FromU8(inp[inOff]);
    if tag.Err? {
      RowsFromStep(inp, columns, bpp, inOff, lastRow);
      return Some(Err(tag.error)), inOff, outOff, lastOutOff, lastRow;
    }
    var t := tag.value;
    var rowStart := inOff + 1;
    if rowStart + columns > |inp| {
      RowsFromStep(inp, columns, bpp, inOff, lastRow);
      return Some(Panic), inOff, outOff, lastOutOff, lastRow;  // the slice inp[in_off..in_off + columns]
    }
    var rowIn := inp[rowStart..rowStart + columns];
    var prev := if outOff == 0 then Zeros(columns) else out[lastOutOff..outOff];
    assert prev == lastRow;
    if (t.Avg? || t.Paeth?) && bpp > columns {
      RowsFromStep(inp, columns, bpp, inOff, lastRow);
      return Some(Panic), inOff, outOff, lastOutOff, lastRow;  // unfilter's loop over 0..bpp indexes past the row
    }
    ghost var buf := out[..];
    assert Layout(|inp|, columns, |buf|, rowStart + columns, outOff + columns);
    DecodeRow(t, bpp, prev, rowIn, out, outOff);
    RowStateNext(inp, columns, bpp, buf, out[..], r0, inOff, outOff, lastOutOff, lastRow, t);
    stop, inOff', outOff', lastOutOff' := None, rowStart + columns, outOff + columns, outOff;
    lastRow' := Unfiltered(t, bpp, lastRow, inp[inOff + 1..inOff + 1 + columns], Zeros(columns));
  }

  /** The predictor branch of flate_decode, on the inflated bytes inp. */
  method UnpredictRows(inp: seq<byte>, columns: nat, bpp: nat) returns (r: Result<seq<byte>>)
    ensures r == Unpredicted(inp, columns, bpp)
  {
    var out := NewOutput(|inp|, columns);
    var inOff: nat, outOff: nat, lastOutOff: nat := 0, 0, 0;
    ghost var r0 := RowsFrom(inp, columns, bpp, 0, Zeros(columns));
    ghost var lastRow := Zeros(columns);
    ThenThen([], [], r0);
    while inOff < |inp|
      invariant RowState(inp, columns, bpp, out[..], r0, inOff, outOff, lastOutOff, lastRow)
      decreases |inp| - inOff
    {
      var stop;
      stop, inOff, outOff, lastOutOff, lastRow := NextRow(inp, columns, bpp, out, r0, inOff, outOff, lastOutOff, lastRow);
      if stop.Some? {
        return stop.value;
      }
    }
    assert out.Length == outOff;
    assert RowsFrom(inp, columns, bpp, inOff, lastRow) == Ok([]);
    assert out[..outOff] + [] == out[..];
    return Ok(out[..]);
  }

  /** A successful predictor stage consumed n whole rows of Columns + 1 bytes and produced
      Columns bytes for each of them. */
  lemma {:induction false} RowsFromLength(inp: seq<byte>, columns: nat, bpp: nat, inOff: nat, prev: seq<byte>) returns (n: nat)
    requires |prev| == columns && inOff <= |inp|
    requires RowsFrom(inp, columns, bpp, inOff, prev).Ok?
    ensures |inp| - inOff == n * (columns + 1)
    ensures |RowsFrom(inp, columns, bpp, inOff, prev).value| == n * columns
    decreases |inp| - inOff
  {
    if inOff == |inp| {
      return 0;
    }
    RowsFromStep(inp, columns, bpp, inOff, prev);
    var t := FromU8(inp[inOff]).value;
    var row := Unfiltered(t, bpp, prev, inp[inOff + 1..inOff + 1 + columns], Zeros(columns));
    var next := inOff + 1 + columns;
    assert RowsFrom(inp, columns, bpp, inOff, prev) == Then(row, RowsFrom(inp, columns, bpp, next, row));
    var m := RowsFromLength(inp, columns, bpp, next, row);
    n := m + 1;
    MulSucc(m, columns + 1);
    MulSucc(m, columns);
  }

  lemma MulSucc(m: nat, d: nat)
    ensures (m + 1) * d == m * d + d
  {
  }

  /** On success the inflated input is a whole number of rows and the output holds Columns
      bytes per row. */
  lemma UnpredictedLength(inp: seq<byte>, columns: nat, bpp: nat)
    requires Unpredicted(inp, columns, bpp).Ok?
    ensures |inp| % (columns + 1) == 0
    ensures |Unpredicted(inp, columns, bpp).value| == |inp| / (columns + 1) * columns
  {
    var n := RowsFromLength(inp, columns, bpp, 0, Zeros(columns));
    WholeRows(n, columns);
  }

  /** The Sub loop of unfilter starts at bpp, so the first pixel of a Sub row keeps the zero of
      the fresh output buffer instead of its filtered value (PNG would give [5, 11]). */
  lemma SubFirstPixelExample()
    ensures Unpredicted([1, 5, 6], 2, 1) == Ok([0, 6])
  {
    var inp: seq<byte> := [1, 5, 6];
    var z := Zeros(2);
    assert z == [0, 0];
    assert inp[1..3] == [5, 6];
    var in1: seq<byte> := [5, 6];
    assert UnfilterPrefix(Sub, 1, z, in1, z, 1) == [0, 0];
    assert UnfilterPrefix(Sub, 1, z, in1, z, 2) == [0, 6];
    var row: seq<byte> := [0, 6];
    assert RowsFrom(inp, 2, 1, 3, row) == Ok([]);
    RowsFromStep(inp, 2, 1, 0, z);
    assert RowsFrom(inp, 2, 1, 0, z) == Ok(row + []);
    assert row + [] == [0, 6];
  }

  /** Two Paeth rows of three one-byte colours: with Colors = Columns = 3 each pixel is
      predicted from the byte above, so the rows are [10, 20, 30] and that plus one. */
  lemma PaethRowsExample()
    ensures Unpredicted([4, 10, 20, 30, 4, 1, 1, 1], 3, 3) == Ok([10, 20, 30, 11, 21, 31])
  {
    var inp: seq<byte> := [4, 10, 20, 30, 4, 1, 1, 1];
    var z := Zeros(3);
    assert z == [0, 0, 0];
    var in1, in2: seq<byte> := [10, 20, 30], [1, 1, 1];
    assert inp[1..4] == in1 && inp[5..8] == in2;
    var row1 := Unfiltered(Paeth, 3, z, in1, z);
    UnfilteredRecon(Paeth, 3, z, in1, z);
    PaethEdges(0);
    assert row1 == in1 by {
      forall i | 0 <= i < 3 ensures row1[i] == in1[i] {
        assert At(row1, i - 3) == 0 && At(z, i) == 0 && At(z, i - 3) == 0;
      }
    }
    var row2 := Unfiltered(Paeth, 3, row1, in2, z);
    UnfilteredRecon(Paeth, 3, row1, in2, z);
    assert row2 == [11, 21, 31] by {
      forall i | 0 <= i < 3 ensures row2[i] == [11, 21, 31][i] {
        assert At(row2, i - 3) == 0 && At(row1, i) == in1[i] && At(row1, i - 3) == 0;
        PaethEdges(in1[i]);
      }
    }
    assert RowsFrom(inp, 3, 3, 8, row2) == Ok([]);
    RowsFromStep(inp, 3, 3, 4, row1);
    RowsFromStep(inp, 3, 3, 0, z);
    assert RowsFrom(inp, 3, 3, 4, row1) == Ok(row2 + []);
    assert RowsFrom(inp, 3, 3, 0, z) == Ok(row1 + (row2 + []));
    assert row1 + (row2 + []) == [10, 20, 30, 11, 21, 31];
  }
}

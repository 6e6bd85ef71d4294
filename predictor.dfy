/** The PNG predictors of pdf/src/enc.rs (PredictorType, filter_paeth, unfilter, filter), which
    undo and apply the per-row filters of section 6 of the PNG specification (RFC 2083). Each
    in-place routine is proved against a function of the bytes it reads; the functions are then
    related to each other and to the PNG reconstruction equation. */
module Predictor {
  import opened Bytes
  import opened Error

  /** The PNG filter types, with their `#[repr(u8)]` discriminants 0..4. */
  datatype PredictorType = NoFilter | Sub | Up | Avg | Paeth

  function Tag(t: PredictorType): (n: byte)
    ensures n < 5
  {
    match t
    case NoFilter => 0
    case Sub => 1
    case Up => 2
    case Avg => 3
    case Paeth => 4
  }

  /** PredictorType::from_u8. */
  function FromU8(n: byte): (r: Result<PredictorType>)
    ensures r.Ok? <==> n < 5
    ensures r.Ok? ==> Tag(r.value) == n
    ensures !r.Ok? ==> r == Err(IncorrectPredictorType(n))
  {
    match n
    case 0 => Ok(NoFilter)
    case 1 => Ok(Sub)
    case 2 => Ok(Up)
    case 3 => Ok(Avg)
    case 4 => Ok(Paeth)
    case _ => Err(IncorrectPredictorType(n))
  }

  lemma FromU8Tag(t: PredictorType)
    ensures FromU8(Tag(t)) == Ok(t)
  {
  }

  function Abs(x: int): nat
  {
    if x < 0 then -x else x
  }

  /** filter_paeth. The i16 arithmetic cannot overflow (p lies in -255..510), so it is written
      on int. The result is the one of a, b, c nearest to p = a + b - c, ties going to a, then b. */
  function FilterPaeth(a: byte, b: byte, c: byte): (r: byte)
    ensures r == a || r == b || r == c
    ensures var p := a as int + b as int - c as int;
      Abs(p - r as int) <= Abs(p - a as int) && Abs(p - r as int) <= Abs(p - b as int) && Abs(p - r as int) <= Abs(p - c as int)
    ensures var p := a as int + b as int - c as int;
      r != a ==> Abs(p - r as int) < Abs(p - a as int)
    ensures var p := a as int + b as int - c as int;
      r != a && r != b ==> Abs(p - r as int) < Abs(p - b as int)
  {
    var ia, ib, ic := a as int, b as int, c as int;
    var p := ia + ib - ic;
    var pa, pb, pc := Abs(p - ia), Abs(p - ib), Abs(p - ic);
    if pa <= pb && pa <= pc then a
    else if pb <= pc then b
    else c
  }

  /** With no left neighbours Paeth predicts the byte above; with no row above, the left one. */
  lemma PaethEdges(x: byte)
    ensures FilterPaeth(0, x, 0) == x
    ensures FilterPaeth(x, 0, 0) == x
  {
  }

  /** s[j], or 0 outside s: the predictors' neighbour before the row start or above the image. */
  function At(s: seq<byte>, j: int): byte
  {
    if 0 <= j < |s| then s[j] else 0
  }

  /** The predictor value unfilter adds back: a is the byte bpp to the left, b the byte above,
      c the byte above a. Avg halves the 9-bit sum, as `(a as i16 + b as i16) / 2` does. */
  function Predicted(f: PredictorType, a: byte, b: byte, c: byte): byte
  {
    match f
    case NoFilter => 0
    case Sub => a
    case Up => b
    case Avg => ((a as int + b as int) / 2) as byte
    case Paeth => FilterPaeth(a, b, c)
  }

  // ---------------------------------------------------------------------------------------
  // unfilter

  /** The byte unfilter writes at index i, reading the output so far in s. */
  function ReconByte(f: PredictorType, bpp: nat, prev: seq<byte>, inp: seq<byte>, s: seq<byte>, i: nat): byte
    requires i < |inp|
  {
    WrapAdd(inp[i], Predicted(f, At(s, i - bpp), At(prev, i), At(prev, i - bpp)))
  }

  /** Whether unfilter writes index i at all: the Sub loop starts at bpp. */
  predicate Writes(f: PredictorType, bpp: nat, i: nat)
  {
    !(f.Sub? && i < bpp)
  }

  /** The output of unfilter after its first n indices, starting from the output buffer out0. */
  function UnfilterPrefix(f: PredictorType, bpp: nat, prev: seq<byte>, inp: seq<byte>, out0: seq<byte>, n: nat): (s: seq<byte>)
    requires |out0| == |inp| && n <= |inp|
    ensures |s| == |inp|
  {
    if n == 0 then out0
    else
      var s := UnfilterPrefix(f, bpp, prev, inp, out0, n - 1);
      if Writes(f, bpp, n - 1) then s[n - 1 := ReconByte(f, bpp, prev, inp, s, n - 1)] else s
  }

  /** What unfilter leaves in its output buffer. */
  function Unfiltered(f: PredictorType, bpp: nat, prev: seq<byte>, inp: seq<byte>, out0: seq<byte>): (s: seq<byte>)
    requires |out0| == |inp|
    ensures |s| == |inp|
  {
    UnfilterPrefix(f, bpp, prev, inp, out0, |inp|)
  }

  /** unfilter, writing its output into out[off..off + |inp|]. The source's two loops over
      0..bpp and bpp..len visit the indices in increasing order, as this single loop does. */
  method Unfilter(f: PredictorType, bpp: nat, prev: seq<byte>, inp: seq<byte>, out: array<byte>, off: nat)
    requires |prev| == |inp| && off + |inp| <= out.Length
    requires (f.Avg? || f.Paeth?) ==> bpp <= |inp|
    modifies out
    ensures out[..off] == old(out[..off])
    ensures out[off + |inp|..] == old(out[off + |inp|..])
    ensures out[off..off + |inp|] == Unfiltered(f, bpp, prev, inp, old(out[off..off + |inp|]))
  {
    ghost var out0 := out[off..off + |inp|];
    var len := |inp|;
    var i := 0;
    while i < len
      invariant 0 <= i <= len
      invariant out[..off] == old(out[..off])
      invariant out[off + len..] == old(out[off + len..])
      invariant out[off..off + len] == UnfilterPrefix(f, bpp, prev, inp, out0, i)
    {
      ghost var s := out[off..off + len];
      var x: byte;
      match f {
        case NoFilter =>
          x := inp[i];
        case Sub =>
          if i >= bpp {
            x := WrapAdd(inp[i], out[off + i - bpp]);
          }
        case Up =>
          x := WrapAdd(inp[i], prev[i]);
        case Avg =>
          if i < bpp {
            x := WrapAdd(inp[i], prev[i] / 2);
          } else {
            x := WrapAdd(inp[i], ((out[off + i - bpp] as int + prev[i] as int) / 2) as byte);
          }
        case Paeth =>
          if i < bpp {
            x := WrapAdd(inp[i], FilterPaeth(0, prev[i], 0));
          } else {
            x := WrapAdd(inp[i], FilterPaeth(out[off + i - bpp], prev[i], prev[i - bpp]));
          }
      }
      if Writes(f, bpp, i) {
        assert x == ReconByte(f, bpp, prev, inp, s, i) by {
          if i >= bpp {
            assert out[off + i - bpp] == s[i - bpp];
          }
        }
        out[off + i] := x;
        assert out[off..off + len] == s[i := x];
      }
      i := i + 1;
    }
  }

  /** Later steps of unfilter never revisit an index, and indices not yet reached still hold
      the initial buffer. */
  lemma {:induction false} PrefixStable(f: PredictorType, bpp: nat, prev: seq<byte>, inp: seq<byte>, out0: seq<byte>, n: nat, m: nat)
    requires |out0| == |inp| && n <= m <= |inp|
    ensures forall j :: 0 <= j < n ==> UnfilterPrefix(f, bpp, prev, inp, out0, m)[j] == UnfilterPrefix(f, bpp, prev, inp, out0, n)[j]
    ensures forall j :: m <= j < |inp| ==> UnfilterPrefix(f, bpp, prev, inp, out0, m)[j] == out0[j]
    decreases m
  {
    if m > 0 {
      PrefixStable(f, bpp, prev, inp, out0, if n == m then m - 1 else n, m - 1);
    }
  }

  /** The PNG reconstruction equation (section 6 of RFC 2083): every byte unfilter writes is
      the filtered byte plus the predictor of its already reconstructed left neighbour and the
      previous row. Needs bpp >= 1 whenever the left neighbour is read; with bpp = 0 the code
      reads the old output byte instead. Sub leaves the first bpp bytes as they were. */
  lemma UnfilteredRecon(f: PredictorType, bpp: nat, prev: seq<byte>, inp: seq<byte>, out0: seq<byte>)
    requires |out0| == |inp|
    requires bpp >= 1 || f.NoFilter? || f.Up?
    ensures var r := Unfiltered(f, bpp, prev, inp, out0);
      forall i :: 0 <= i < |inp| ==>
        r[i] == if Writes(f, bpp, i) then ReconByte(f, bpp, prev, inp, r, i) else out0[i]
  {
    var r := Unfiltered(f, bpp, prev, inp, out0);
    forall i | 0 <= i < |inp|
      ensures r[i] == if Writes(f, bpp, i) then ReconByte(f, bpp, prev, inp, r, i) else out0[i]
    {
      var s := UnfilterPrefix(f, bpp, prev, inp, out0, i);
      PrefixStable(f, bpp, prev, inp, out0, i + 1, |inp|);
      PrefixStable(f, bpp, prev, inp, out0, i, i);
      PrefixStable(f, bpp, prev, inp, out0, i, |inp|);
      if Writes(f, bpp, i) {
        assert r[i] == ReconByte(f, bpp, prev, inp, s, i);
        if bpp >= 1 && i >= bpp {
          assert At(s, i - bpp) == At(r, i - bpp);
        }
      } else {
        assert s[i] == out0[i];
      }
    }
  }

  // ---------------------------------------------------------------------------------------
  // filter

  /** The predictor value filter subtracts at i >= bpp. Avg adds a and b with wrapping_add
      before halving, unlike unfilter; below bpp it is b / 2 like unfilter's. */
  function AsWrittenPredicted(f: PredictorType, a: byte, b: byte, c: byte): byte
  {
    if f.Avg? then WrapAdd(a, b) / 2 else Predicted(f, a, b, c)
  }

  /** What filter leaves in `current`, given its original bytes raw: each byte minus the
      predictor of the original (still unfiltered) neighbours. */
  function Filtered(f: PredictorType, bpp: nat, previous: seq<byte>, raw: seq<byte>): (r: seq<byte>)
    ensures |r| == |raw|
  {
    seq(|raw|, i requires 0 <= i < |raw| =>
      WrapSub(raw[i], AsWrittenPredicted(f, At(raw, i - bpp), At(previous, i), At(previous, i - bpp))))
  }

  /** filter, in place. The Sub, Avg and Paeth loops run from the end of the row down to bpp so
      that the left neighbour is still unfiltered when it is read. */
  method Filter(f: PredictorType, bpp: nat, previous: seq<byte>, current: array<byte>)
    requires (f.Up? || f.Avg? || f.Paeth?) ==> |previous| >= current.Length
    requires (f.Avg? || f.Paeth?) ==> bpp <= current.Length
    modifies current
    ensures current[..] == Filtered(f, bpp, previous, old(current[..]))
  {
    ghost var raw := current[..];
    ghost var want := Filtered(f, bpp, previous, raw);
    var len := current.Length;
    if f.NoFilter? {
      assert forall j :: 0 <= j < len ==> want[j] == raw[j];
      assert current[..] == want;
      return;
    }
    if f.Up? {
      for i := 0 to len
        invariant forall j :: 0 <= j < i ==> current[j] == want[j]
        invariant forall j :: i <= j < len ==> current[j] == raw[j]
      {
        current[i] := WrapSub(current[i], previous[i]);
      }
      assert current[..] == want;
      return;
    }
    FilterFromEnd(f, bpp, previous, current);
    if f.Avg? || f.Paeth? {
      FilterHead(f, bpp, previous, current, raw);
    } else {
      // Sub leaves the first bpp bytes alone, which is what subtracting the predictor 0 does.
      assert forall j :: 0 <= j < bpp && j < len ==> want[j] == raw[j];
    }
    assert current[..] == want;
  }

  /** The loop of filter from the end of the row down to bpp. */
  method FilterFromEnd(f: PredictorType, bpp: nat, previous: seq<byte>, current: array<byte>)
    requires f.Sub? || f.Avg? || f.Paeth?
    requires (f.Avg? || f.Paeth?) ==> |previous| >= current.Length
    modifies current
    ensures forall j :: 0 <= j < bpp && j < current.Length ==> current[j] == old(current[j])
    ensures forall j :: bpp <= j < current.Length ==> current[j] == Filtered(f, bpp, previous, old(current[..]))[j]
  {
    ghost var raw := current[..];
    ghost var want := Filtered(f, bpp, previous, raw);
    var len := current.Length;
    var i := len;
    while i > bpp
      invariant i == len || bpp <= i <= len
      invariant forall j :: 0 <= j < i ==> current[j] == raw[j]
      invariant forall j :: i <= j < len ==> current[j] == want[j]
    {
      i := i - 1;
      var p: byte;
      match f {
        case Sub =>
          p := current[i - bpp];
        case Avg =>
          p := WrapAdd(current[i - bpp], previous[i]) / 2;
        case Paeth =>
          p := FilterPaeth(current[i - bpp], previous[i], previous[i - bpp]);
      }
      assert p == AsWrittenPredicted(f, At(raw, i - bpp), At(previous, i), At(previous, i - bpp));
      current[i] := WrapSub(current[i], p);
    }
  }

  /** The loop of filter over the first bpp bytes, which have no left neighbour. */
  method FilterHead(f: PredictorType, bpp: nat, previous: seq<byte>, current: array<byte>, ghost raw: seq<byte>)
    requires f.Avg? || f.Paeth?
    requires bpp <= current.Length <= |previous| && |raw| == current.Length
    requires forall j :: 0 <= j < bpp ==> current[j] == raw[j]
    modifies current
    ensures forall j :: 0 <= j < bpp ==> current[j] == Filtered(f, bpp, previous, raw)[j]
    ensures forall j :: bpp <= j < current.Length ==> current[j] == old(current[j])
  {
    ghost var want := Filtered(f, bpp, previous, raw);
    for k := 0 to bpp
      invariant forall j :: 0 <= j < k ==> current[j] == want[j]
      invariant forall j :: k <= j < bpp ==> current[j] == raw[j]
      invariant forall j :: bpp <= j < current.Length ==> current[j] == old(current[j])
    {
      var p := if f.Avg? then previous[k] / 2 else FilterPaeth(0, previous[k], 0);
      assert p == AsWrittenPredicted(f, At(raw, k - bpp), At(previous, k), At(previous, k - bpp));
      current[k] := WrapSub(current[k], p);
    }
  }

  /** The filter that inverts unfilter: Avg subtracts the 9-bit average, as unfilter adds it. */
  function FilteredCorrected(f: PredictorType, bpp: nat, previous: seq<byte>, raw: seq<byte>): (r: seq<byte>)
    ensures |r| == |raw|
  {
    seq(|raw|, i requires 0 <= i < |raw| =>
      WrapSub(raw[i], Predicted(f, At(raw, i - bpp), At(previous, i), At(previous, i - bpp))))
  }

  lemma {:induction false} RoundTripUpTo(f: PredictorType, bpp: nat, prev: seq<byte>, raw: seq<byte>, out0: seq<byte>, n: nat)
    requires bpp >= 1 || f.NoFilter? || f.Up?
    requires |out0| == |raw| && n <= |raw|
    requires f.Sub? ==> forall i :: 0 <= i < bpp && i < |raw| ==> out0[i] == raw[i]
    ensures var r := Unfiltered(f, bpp, prev, FilteredCorrected(f, bpp, prev, raw), out0);
      forall j :: 0 <= j < n ==> r[j] == raw[j]
  {
    if n > 0 {
      RoundTripUpTo(f, bpp, prev, raw, out0, n - 1);
      var x := FilteredCorrected(f, bpp, prev, raw);
      var r := Unfiltered(f, bpp, prev, x, out0);
      UnfilteredRecon(f, bpp, prev, x, out0);
      var j := n - 1;
      if Writes(f, bpp, j) {
        assert Predicted(f, At(r, j - bpp), At(prev, j), At(prev, j - bpp)) == Predicted(f, At(raw, j - bpp), At(prev, j), At(prev, j - bpp));
        WrapSubThenAdd(raw[j], Predicted(f, At(raw, j - bpp), At(prev, j), At(prev, j - bpp)));
      }
    }
  }

  /** Unfiltering undoes the corrected filter for every filter type, given a left distance of at
      least one byte and, for Sub, an output buffer that already holds the first bpp bytes. */
  lemma FilterRoundTrip(f: PredictorType, bpp: nat, prev: seq<byte>, raw: seq<byte>, out0: seq<byte>)
    requires bpp >= 1 || f.NoFilter? || f.Up?
    requires |out0| == |raw|
    requires f.Sub? ==> forall i :: 0 <= i < bpp && i < |raw| ==> out0[i] == raw[i]
    ensures Unfiltered(f, bpp, prev, FilteredCorrected(f, bpp, prev, raw), out0) == raw
  {
    RoundTripUpTo(f, bpp, prev, raw, out0, |raw|);
  }

  /** filter as written agrees with the corrected one except where an Avg sum reaches 256. */
  lemma FilterAgreesWithoutOverflow(f: PredictorType, bpp: nat, previous: seq<byte>, raw: seq<byte>)
    requires f.Avg? ==> forall i :: bpp <= i < |raw| ==> raw[i - bpp] as int + At(previous, i) as int < 256
    ensures Filtered(f, bpp, previous, raw) == FilteredCorrected(f, bpp, previous, raw)
  {
    var w, c := Filtered(f, bpp, previous, raw), FilteredCorrected(f, bpp, previous, raw);
    forall i | 0 <= i < |raw| ensures w[i] == c[i] {
      AsWrittenAgrees(f, At(raw, i - bpp), At(previous, i), At(previous, i - bpp));
    }
  }

  lemma AsWrittenAgrees(f: PredictorType, a: byte, b: byte, c: byte)
    requires f.Avg? ==> a as int + b as int < 256
    ensures AsWrittenPredicted(f, a, b, c) == Predicted(f, a, b, c)
  {
  }

  /** Unfiltering undoes filter as written for NoFilter, Up and Paeth, for Avg as long as no
      left-plus-up sum reaches 256, and for Sub when the output buffer already holds the first
      bpp bytes. */
  lemma FilterAsWrittenRoundTrip(f: PredictorType, bpp: nat, prev: seq<byte>, raw: seq<byte>, out0: seq<byte>)
    requires bpp >= 1 || f.NoFilter? || f.Up?
    requires |out0| == |raw|
    requires f.Sub? ==> forall i :: 0 <= i < bpp && i < |raw| ==> out0[i] == raw[i]
    requires f.Avg? ==> forall i :: bpp <= i < |raw| ==> raw[i - bpp] as int + At(prev, i) as int < 256
    ensures Unfiltered(f, bpp, prev, Filtered(f, bpp, prev, raw), out0) == raw
  {
    FilterAgreesWithoutOverflow(f, bpp, prev, raw);
    FilterRoundTrip(f, bpp, prev, raw, out0);
  }

  /** filter as written does not invert unfilter: Avg with bpp 1, previous row [0, 100] and row
      [200, 200] filters to [200, 178], which unfilters to [200, 72]. */
  lemma FilterAvgCounterexample()
    ensures Filtered(Avg, 1, [0, 100], [200, 200]) == [200, 178]
    ensures Unfiltered(Avg, 1, [0, 100], [200, 178], [0, 0]) == [200, 72]
    ensures FilteredCorrected(Avg, 1, [0, 100], [200, 200]) == [200, 50]
  {
    var w := Filtered(Avg, 1, [0, 100], [200, 200]);
    assert w[0] == 200 && w[1] == 178;
    var c := FilteredCorrected(Avg, 1, [0, 100], [200, 200]);
    assert c[0] == 200 && c[1] == 50;
    var s1 := UnfilterPrefix(Avg, 1, [0, 100], [200, 178], [0, 0], 1);
    assert s1 == [200, 0];
    var s2 := UnfilterPrefix(Avg, 1, [0, 100], [200, 178], [0, 0], 2);
    assert s2 == s1[1 := 72];
  }
}

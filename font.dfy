/** pdf/src/font.rs: the sparse glyph-width table (Widths), the walk over a CID font's W array
    that fills it (section 9.7.4.3 of ISO 32000-1), Font::from_primitive with its choice of a
    built-in standard font and its CIDToGIDMap parse, and the read-only accessors. The
    `#[derive(Object)]` readers of TFont, Type0Font, CIDFont and FontType, Stream::from_primitive
    and Stream::data are not part of this model: they are the `FontReaders` parameter. Widths
    are f32 in the source and only stored and copied; here they are `real`. */
module Font {
  import opened Bytes
  import opened Error
  import opened Primitives

  // ---------------------------------------------------------------------------------------
  // The width table

  /** The state of a Widths value: `values[k]` is the width of code `firstChar + k`. */
  datatype Table = Table(values: seq<real>, defaultWidth: real, firstChar: nat)

  /** Widths::get: never fails; the default below firstChar and past the filled range. */
  function Lookup(t: Table, cid: nat): (w: real)
    ensures cid < t.firstChar ==> w == t.defaultWidth
    ensures t.firstChar + |t.values| <= cid ==> w == t.defaultWidth
    ensures t.firstChar <= cid < t.firstChar + |t.values| ==> w == t.values[cid - t.firstChar]
  {
    if cid < t.firstChar then t.defaultWidth
    else if cid - t.firstChar < |t.values| then t.values[cid - t.firstChar]
    else t.defaultWidth
  }

  /** Widths::set as written. In the gap case (a code more than one past the end) it pads with
      `cid - firstChar - 1` defaults, which counts from firstChar instead of from the end. */
  function SetAsWritten(t: Table, cid: nat, width: real): Table
  {
    var first, len, d := t.firstChar, |t.values|, t.defaultWidth;
    if len == 0 then Table([width], d, cid)
    else if cid == first + len then t.(values := t.values + [width])
    else if cid < first then Table((Repeat(d, first - cid) + t.values)[0 := width], d, cid)
    else if cid - first > len then t.(values := t.values + Repeat(d, cid - first - 1) + [width])
    else t.(values := t.values[cid - first := width])
  }

  /** Widths::set with the gap padded from the end of the filled range. */
  function SetCorrected(t: Table, cid: nat, width: real): Table
  {
    var first, len, d := t.firstChar, |t.values|, t.defaultWidth;
    if len == 0 then Table([width], d, cid)
    else if cid == first + len then t.(values := t.values + [width])
    else if cid < first then Table((Repeat(d, first - cid) + t.values)[0 := width], d, cid)
    else if cid - first > len then t.(values := t.values + Repeat(d, cid - first - len) + [width])
    else t.(values := t.values[cid - first := width])
  }

  /** The corrected set is a point update of the width function `Lookup`. */
  lemma SetCorrectedUpdates(t: Table, cid: nat, width: real)
    ensures Lookup(SetCorrected(t, cid, width), cid) == width
    ensures forall j: nat :: j != cid ==> Lookup(SetCorrected(t, cid, width), j) == Lookup(t, j)
    ensures SetCorrected(t, cid, width).defaultWidth == t.defaultWidth
    ensures SetCorrected(t, cid, width).firstChar == if |t.values| == 0 || cid < t.firstChar then cid else t.firstChar
    ensures var u := SetCorrected(t, cid, width); u.firstChar <= cid < u.firstChar + |u.values|
  {
    var first, len, d := t.firstChar, |t.values|, t.defaultWidth;
    var u := SetCorrected(t, cid, width);
    if len == 0 {
    } else if cid == first + len {
      assert u.values == t.values + [width];
    } else if cid < first {
      var pad := Repeat(d, first - cid) + t.values;
      assert u.values == pad[0 := width];
      forall j: nat | j != cid
        ensures Lookup(u, j) == Lookup(t, j)
      {
        if cid < j < first {
          assert u.values[j - cid] == d;
        } else if first <= j < first + len {
          assert u.values[j - cid] == pad[j - cid] == t.values[j - first];
        }
      }
    } else if cid - first > len {
      var pad := t.values + Repeat(d, cid - first - len);
      assert u.values == pad + [width];
      assert |u.values| == cid - first + 1;
      forall j: nat | j != cid
        ensures Lookup(u, j) == Lookup(t, j)
      {
        if first <= j < first + len {
          assert u.values[j - first] == pad[j - first] == t.values[j - first];
        } else if first + len <= j < cid {
          assert u.values[j - first] == pad[j - first] == d;
        }
      }
    } else {
      assert u.values == t.values[cid - first := width];
    }
  }

  /** Where `set` as written and the corrected one agree: no gap after the filled range, or
      at most one value stored (then `cid - firstChar - 1` is the gap's true length). */
  predicate SetAgrees(t: Table, cid: nat)
  {
    |t.values| <= 1 || cid <= t.firstChar + |t.values|
  }

  /** Where the two agree `set` is a point update too: on an empty table it starts the range
      at cid; an append, an overwrite or a gap keeps firstChar; a prepend moves firstChar down
      to cid, padding with defaults, and every previously set code keeps its width. */
  lemma SetAsWrittenUpdates(t: Table, cid: nat, width: real)
    requires SetAgrees(t, cid)
    ensures SetAsWritten(t, cid, width) == SetCorrected(t, cid, width)
    ensures |t.values| == 0 ==> SetAsWritten(t, cid, width) == Table([width], t.defaultWidth, cid)
    ensures |t.values| > 0 && t.firstChar <= cid ==> SetAsWritten(t, cid, width).firstChar == t.firstChar
    ensures |t.values| > 0 && cid < t.firstChar ==>
      SetAsWritten(t, cid, width).firstChar == cid && |SetAsWritten(t, cid, width).values| == |t.values| + (t.firstChar - cid)
    ensures Lookup(SetAsWritten(t, cid, width), cid) == width
    ensures forall j: nat :: j != cid ==> Lookup(SetAsWritten(t, cid, width), j) == Lookup(t, j)
  {
    SetCorrectedUpdates(t, cid, width);
  }

  /** The gap case as written: the width lands at index `len + (cid - firstChar) - 1`, which
      is `cid - firstChar` only when one value was stored; otherwise `get(cid)` still answers
      the default. */
  lemma SetAsWrittenGap(t: Table, cid: nat, width: real)
    requires |t.values| > 0 && cid > t.firstChar + |t.values|
    ensures var u := SetAsWritten(t, cid, width);
      |u.values| == |t.values| + (cid - t.firstChar) && u.firstChar == t.firstChar &&
      u.values[|t.values| + (cid - t.firstChar) - 1] == width &&
      Lookup(u, t.firstChar + |t.values| + (cid - t.firstChar) - 1) == width &&
      (|t.values| > 1 ==> Lookup(u, cid) == t.defaultWidth)
  {
    var u := SetAsWritten(t, cid, width);
    var pad := t.values + Repeat(t.defaultWidth, cid - t.firstChar - 1);
    assert u.values == pad + [width];
    if |t.values| > 1 {
      assert u.values[cid - t.firstChar] == pad[cid - t.firstChar] == t.defaultWidth;
    }
  }

  /** Widths 1.0 and 2.0 at codes 0 and 1, then width 3.0 for code 5: as written it is stored
      for code 6 and code 5 keeps the default 0.0; the corrected set stores it for code 5. */
  lemma SetGapCounterexample()
    ensures Lookup(SetAsWritten(Table([1.0, 2.0], 0.0, 0), 5, 3.0), 5) == 0.0
    ensures Lookup(SetAsWritten(Table([1.0, 2.0], 0.0, 0), 5, 3.0), 6) == 3.0
    ensures Lookup(SetCorrected(Table([1.0, 2.0], 0.0, 0), 5, 3.0), 5) == 3.0
  {
    SetAsWrittenGap(Table([1.0, 2.0], 0.0, 0), 5, 3.0);
    SetCorrectedUpdates(Table([1.0, 2.0], 0.0, 0), 5, 3.0);
  }

  /** Widths: the table `Font::widths` fills and `get` reads. */
  class Widths {
    var values: seq<real>
    var defaultWidth: real
    var firstChar: nat

    function View(): Table
      reads this
    {
      Table(values, defaultWidth, firstChar)
    }

    /** Widths::new: no values, first code 0. */
    constructor (defaultWidth: real)
      ensures View() == Table([], defaultWidth, 0)
    {
      values := [];
      this.defaultWidth := defaultWidth;
      firstChar := 0;
    }

    /** The struct literal `Font::widths` builds for a simple font. */
    constructor FromTable(t: Table)
      ensures View() == t
    {
      values := t.values;
      defaultWidth := t.defaultWidth;
      firstChar := t.firstChar;
    }

    /** Widths::get. */
    function Get(cid: nat): real
      reads this
    {
      Lookup(View(), cid)
    }

    /** Widths::set as written. */
    method Set(cid: nat, width: real)
      modifies this
      ensures View() == SetAsWritten(old(View()), cid, width)
    {
      if |values| == 0 {
        firstChar := cid;
        values := values + [width];
        return;
      }
      if cid == firstChar + |values| {
        values := values + [width];
        return;
      }
      if cid < firstChar {
        values := Repeat(defaultWidth, firstChar - cid) + values;
        firstChar := cid;
        values := values[0 := width];
        return;
      }
      if cid - firstChar > |values| {
        values := values + Repeat(defaultWidth, cid - firstChar - 1);
        values := values + [width];
        return;
      }
      values := values[cid - firstChar := width];
    }

    /** Widths::set with the gap padded from the end of the filled range. */
    method SetFixed(cid: nat, width: real)
      modifies this
      ensures View() == SetCorrected(old(View()), cid, width)
    {
      if |values| == 0 {
        firstChar := cid;
        values := values + [width];
        return;
      }
      if cid == firstChar + |values| {
        values := values + [width];
        return;
      }
      if cid < firstChar {
        values := Repeat(defaultWidth, firstChar - cid) + values;
        firstChar := cid;
        values := values[0 := width];
        return;
      }
      if cid - firstChar > |values| {
        values := values + Repeat(defaultWidth, cid - firstChar - |values|);
        values := values + [width];
        return;
      }
      values := values[cid - firstChar := width];
    }
  }

  // ---------------------------------------------------------------------------------------
  // The W array walk

  /** Which `set` a walk stores widths with: the source's, or the one with the gap fixed. */
  datatype SetVariant = AsWritten | Corrected

  function SetBy(v: SetVariant, t: Table, cid: nat, width: real): Table
  {
    match v
    case AsWritten => SetAsWritten(t, cid, width)
    case Corrected => SetCorrected(t, cid, width)
  }

  /** Either variant is a point update wherever the two agree; the corrected one everywhere.
      Afterwards cid lies in the filled range, so the next code agrees as well. */
  lemma SetByUpdates(v: SetVariant, t: Table, cid: nat, width: real)
    requires v.Corrected? || SetAgrees(t, cid)
    ensures SetBy(v, t, cid, width) == SetCorrected(t, cid, width)
    ensures Lookup(SetBy(v, t, cid, width), cid) == width
    ensures forall j: nat :: j != cid ==> Lookup(SetBy(v, t, cid, width), j) == Lookup(t, j)
    ensures SetAgrees(SetBy(v, t, cid, width), cid + 1)
  {
    if v.AsWritten? {
      SetAsWrittenUpdates(t, cid, width);
    }
    SetCorrectedUpdates(t, cid, width);
  }

  /** The `try_opt!` that reads the width of a `c1 c2 w` entry. */
  const MissingRangeWidth := Location("pdf/src/font.rs", 286, 37)

  /** The message for a W entry whose second element is neither an Array nor an Integer; the
      Debug text of the element is reduced to its variant name. */
  function WArrayMessage(found: Option<Primitive>): string
  {
    "unexpected primitive in W array: " + match found
      case None => "None"
      case Some(p) => "Some(" + DebugName(p) + ")"
  }

  /** The `c [w0 w1 ...]` form from element i of the array on: code c + i gets wi. */
  function SetEach(v: SetVariant, t: Table, c: nat, items: seq<Primitive>, i: nat): Result<Table>
    requires i <= |items|
    decreases |items| - i
  {
    if i == |items| then Ok(t)
    else
      var x :- AsNumber(items[i]);
      SetEach(v, SetBy(v, t, c + i, x), c, items, i + 1)
  }

  /** The `c1 c2 w` form from code c on: every code up to c2 gets w. */
  function SetRange(v: SetVariant, t: Table, c: nat, c2: int, x: real): Table
    decreases c2 - c
  {
    if c2 < c then t else SetRange(v, SetBy(v, t, c, x), c + 1, c2, x)
  }

  /** The W walk of Font::widths from element pos on, over the table t filled so far; `c1` and
      `c2` are cast `as usize`, the widths are read as f32. */
  function WalkW(v: SetVariant, w: seq<Primitive>, pos: nat, t: Table): Result<Table>
    decreases |w| - pos
  {
    if pos >= |w| then Ok(t)
    else
      var c1 :- AsInteger(w[pos]);
      if pos + 1 == |w| then Err(PdfError.Other(WArrayMessage(None)))
      else match w[pos + 1]
        case Array(items) =>
          var t' :- SetEach(v, t, UsizeOf(c1), items, 0);
          WalkW(v, w, pos + 2, t')
        case Integer(c2) =>
          var p :- TryOpt(if pos + 2 < |w| then Some(w[pos + 2]) else None, MissingRangeWidth);
          var x :- AsNumber(p);
          WalkW(v, w, pos + 3, SetRange(v, t, UsizeOf(c1), UsizeOf(c2), x))
        case p => Err(PdfError.Other(WArrayMessage(Some(p))))
  }

  /** A successful `c [w0 w1 ...]` sets exactly the listed codes; as written this needs the
      first code not to open a gap. */
  lemma {:induction false} SetEachLookup(v: SetVariant, t: Table, c: nat, items: seq<Primitive>, i: nat)
    requires i <= |items|
    requires forall k :: i <= k < |items| ==> AsNumber(items[k]).Ok?
    requires v.Corrected? || SetAgrees(t, c + i)
    ensures SetEach(v, t, c, items, i).Ok?
    ensures forall j: nat :: (Lookup(SetEach(v, t, c, items, i).value, j) ==
      if c + i <= j < c + |items| then AsNumber(items[j - c]).value else Lookup(t, j))
    decreases |items| - i
  {
    if i < |items| {
      var x := AsNumber(items[i]).value;
      SetByUpdates(v, t, c + i, x);
      SetEachLookup(v, SetBy(v, t, c + i, x), c, items, i + 1);
    }
  }

  /** The first element of the array that is not a number stops the walk with its error. */
  lemma {:induction false} SetEachFails(v: SetVariant, t: Table, c: nat, items: seq<Primitive>, i: nat, bad: nat)
    requires i <= bad < |items|
    requires forall k :: i <= k < bad ==> AsNumber(items[k]).Ok?
    requires !AsNumber(items[bad]).Ok?
    ensures SetEach(v, t, c, items, i) == Err(UnexpectedPrimitive("Number", DebugName(items[bad])))
    decreases |items| - i
  {
    if i < bad {
      SetEachFails(v, SetBy(v, t, c + i, AsNumber(items[i]).value), c, items, i + 1, bad);
    }
  }

  /** `c1 c2 w` sets every code of c1..=c2 to w and nothing else, and nothing when c2 < c1; as
      written this needs c1 not to open a gap. */
  lemma {:induction false} SetRangeLookup(v: SetVariant, t: Table, c: nat, c2: int, x: real)
    requires v.Corrected? || c2 < c || SetAgrees(t, c)
    ensures forall j: nat :: Lookup(SetRange(v, t, c, c2, x), j) == if c <= j <= c2 then x else Lookup(t, j)
    decreases c2 - c
  {
    if c <= c2 {
      SetByUpdates(v, t, c, x);
      SetRangeLookup(v, SetBy(v, t, c, x), c + 1, c2, x);
    }
  }

  /** One well-formed W entry of either form, on a table where its first code opens no gap (or
      through the corrected set on any table). */
  lemma WalkSingleEntries(v: SetVariant, t: Table, c: nat, c2: nat, items: seq<Primitive>, x: Primitive)
    requires forall k :: 0 <= k < |items| ==> AsNumber(items[k]).Ok?
    requires AsNumber(x).Ok?
    requires v.Corrected? || SetAgrees(t, c)
    ensures var r := WalkW(v, [Integer(c), Array(items)], 0, t);
      r.Ok? && forall j: nat :: Lookup(r.value, j) == if c <= j < c + |items| then AsNumber(items[j - c]).value else Lookup(t, j)
    ensures var r := WalkW(v, [Integer(c), Integer(c2), x], 0, t);
      r.Ok? && forall j: nat :: Lookup(r.value, j) == if c <= j <= c2 then AsNumber(x).value else Lookup(t, j)
  {
    SetEachLookup(v, t, c, items, 0);
    SetRangeLookup(v, t, c, c2, AsNumber(x).value);
    assert [Integer(c), Integer(c2), x][2] == x;
  }

  /** Each way a W entry can be malformed, whichever set is used. */
  lemma WalkMalformedEntries(v: SetVariant, t: Table, c: int, c2: int, q: Primitive)
    requires !q.Array? && !q.Integer?
    ensures WalkW(v, [Integer(c), Integer(c2)], 0, t) == Err(NoneError("pdf/src/font.rs", 286, 37))
    ensures WalkW(v, [Integer(c)], 0, t) == Err(PdfError.Other("unexpected primitive in W array: None"))
    ensures WalkW(v, [Integer(c), q], 0, t) == Err(PdfError.Other(WArrayMessage(Some(q))))
    ensures WalkW(v, [q], 0, t) == Unexpected("Integer", q)
  {
    assert WArrayMessage(None) == "unexpected primitive in W array: None";
  }

  /** A negative code is cast to usize modulo 2^64, so `-1 [w]` stores w for code 2^64 - 1. */
  lemma WalkNegativeCode(v: SetVariant, t: Table, x: Primitive)
    requires AsNumber(x).Ok?
    requires v.Corrected? || SetAgrees(t, 0x1_0000_0000_0000_0000 - 1)
    ensures var r := WalkW(v, [Integer(-1), Array([x])], 0, t);
      r.Ok? && Lookup(r.value, 0x1_0000_0000_0000_0000 - 1) == AsNumber(x).value
  {
    SetEachLookup(v, t, 0x1_0000_0000_0000_0000 - 1, [x], 0);
  }

  /** W = [0 [1 2] 5 [3]]: as written the width 3 lands on code 6 and code 5 keeps the default;
      the corrected walk gives code 5 the width 3. */
  lemma WalkGapCounterexample()
    ensures var r := WalkW(AsWritten, [Integer(0), Array([Integer(1), Integer(2)]), Integer(5), Array([Integer(3)])],
        0, Table([], 0.0, 0));
      r.Ok? && Lookup(r.value, 5) == 0.0 && Lookup(r.value, 6) == 3.0
    ensures var r := WalkW(Corrected, [Integer(0), Array([Integer(1), Integer(2)]), Integer(5), Array([Integer(3)])],
        0, Table([], 0.0, 0));
      r.Ok? && Lookup(r.value, 5) == 3.0
  {
    var w := [Integer(0), Array([Integer(1), Integer(2)]), Integer(5), Array([Integer(3)])];
    var t1 := Table([1.0, 2.0], 0.0, 0);
    var items := [Integer(1), Integer(2)];
    assert AsNumber(items[0]) == Ok(1.0) && AsNumber(items[1]) == Ok(2.0);
    assert SetBy(AsWritten, Table([1.0], 0.0, 0), 1, 2.0) == t1;
    assert SetEach(AsWritten, Table([], 0.0, 0), 0, items, 0) == SetEach(AsWritten, Table([1.0], 0.0, 0), 0, items, 1);
    assert SetEach(AsWritten, Table([], 0.0, 0), 0, [Integer(1), Integer(2)], 0) == Ok(t1);
    assert SetEach(Corrected, Table([], 0.0, 0), 0, [Integer(1), Integer(2)], 0) == Ok(t1);
    assert WalkW(AsWritten, w, 0, Table([], 0.0, 0)) == WalkW(AsWritten, w, 2, t1);
    assert WalkW(Corrected, w, 0, Table([], 0.0, 0)) == WalkW(Corrected, w, 2, t1);
    assert WalkW(AsWritten, w, 2, t1) == Ok(SetAsWritten(t1, 5, 3.0));
    assert WalkW(Corrected, w, 2, t1) == Ok(SetCorrected(t1, 5, 3.0));
    SetGapCounterexample();
  }

  /** The view of the table a method returned. */
  function ViewOf(r: Result<Widths>): Result<Table>
    reads if r.Ok? then {r.value} else {}
  {
    match r
    case Ok(wd) => Ok(wd.View())
    case Err(e) => Err(e)
    case Panic => Panic
  }

  /** The CIDFontType0/CIDFontType2 arm of Font::widths: the while-let walk over the W array,
      setting widths through `Widths::set` as written. */
  method CidWidths(defaultWidth: real, w: seq<Primitive>) returns (r: Result<Widths>)
    ensures r.Ok? ==> fresh(r.value)
    ensures ViewOf(r) == WalkW(AsWritten, w, 0, Table([], defaultWidth, 0))
  {
    var widths := new Widths(defaultWidth);
    ghost var start := widths.View();
    var pos := 0;
    while pos < |w|
      invariant pos <= |w|
      invariant WalkW(AsWritten, w, 0, start) == WalkW(AsWritten, w, pos, widths.View())
      decreases |w| - pos
    {
      var c1r := AsInteger(w[pos]);
      if c1r.IsFailure() {
        return c1r.PropagateFailure();
      }
      var c1 := UsizeOf(c1r.value);
      if pos + 1 == |w| {
        return Err(PdfError.Other(WArrayMessage(None)));
      }
      match w[pos + 1] {
        case Array(items) =>
          ghost var before := widths.View();
          var i := 0;
          while i < |items|
            invariant i <= |items|
            invariant SetEach(AsWritten, before, c1, items, 0) == SetEach(AsWritten, widths.View(), c1, items, i)
            decreases |items| - i
          {
            var xr := AsNumber(items[i]);
            if xr.IsFailure() {
              return xr.PropagateFailure();
            }
            widths.Set(c1 + i, xr.value);
            i := i + 1;
          }
          pos := pos + 2;
        case Integer(c2i) =>
          if pos + 2 == |w| {
            return Err(NoneError(MissingRangeWidth.file, MissingRangeWidth.line, MissingRangeWidth.column));
          }
          var xr := AsNumber(w[pos + 2]);
          if xr.IsFailure() {
            return xr.PropagateFailure();
          }
          var c2: int := UsizeOf(c2i);
          ghost var before := widths.View();
          var c := c1;
          while c <= c2
            invariant c1 <= c
            invariant SetRange(AsWritten, before, c1, c2, xr.value) == SetRange(AsWritten, widths.View(), c, c2, xr.value)
            decreases c2 - c
          {
            widths.Set(c, xr.value);
            c := c + 1;
          }
          pos := pos + 3;
        case p =>
          return Err(PdfError.Other(WArrayMessage(Some(p))));
      }
    }
    return Ok(widths);
  }

  // ---------------------------------------------------------------------------------------
  // Fonts

  datatype FontType = Type0 | Type1 | MMType1 | Type3 | TrueType | CIDFontType0 | CIDFontType2

  /** The base of a font's /Encoding; only Identity-H is told apart by the code modelled. */
  datatype BaseEncoding = IdentityH | OtherBase(name: string)

  datatype FontEncoding = FontEncoding(base: BaseEncoding)

  /** FontDescriptor: its name and flags and the three embedded font programs; the metrics
      (bounding box, angles, stems and so on) are read and stored only. */
  datatype FontDescriptor = FontDescriptor(fontName: string, flags: nat,
    fontFile: Option<StreamValue>, fontFile2: Option<StreamValue>, fontFile3: Option<StreamValue>)

  /** TFont, the dictionary of a Type1 or TrueType font; /FirstChar, /LastChar are i32. */
  datatype TFont = TFont(name: Option<string>, firstChar: Option<int>, lastChar: Option<int>,
    widths: seq<real>, fontDescriptor: FontDescriptor)

  datatype CIDFont = CIDFont(systemInfo: Dict, fontDescriptor: FontDescriptor, defaultWidth: real,
    widths: seq<Primitive>, other: Dict)

  datatype Type0Font = Type0Font(descendantFonts: seq<Font>, toUnicode: Option<StreamValue>)

  datatype FontData =
    | Type1(t1: TFont)
    | Type0(t0: Type0Font)
    | TrueType(tt: TFont)
    | CIDFontType0(cid0: CIDFont)
    | CIDFontType2(cid2: CIDFont, cidToGid: Option<seq<u16>>)
    | Other(dict: Dict)
    | Standard(builtIn: seq<byte>)

  datatype Font = Font(subtype: FontType, name: string, data: FontData,
    encoding: Option<FontEncoding>, toUnicode: Option<StreamValue>, other: Dict)

  /** The readers Font::from_primitive delegates to. */
  datatype FontReaders = FontReaders(
    fontType: (Primitive, Resolver) -> Result<FontType>,
    encoding: (Primitive, Resolver) -> Result<FontEncoding>,
    stream: (Primitive, Resolver) -> Result<StreamValue>,
    streamData: StreamValue -> Result<seq<byte>>,
    tFont: (Dict, Resolver) -> Result<TFont>,
    type0Font: (Dict, Resolver) -> Result<Type0Font>,
    cidFont: (Dict, Resolver) -> Result<CIDFont>)

  /** The names of STANDARD_FONTS when the crate embeds them; without that feature the table
      is empty. */
  const StandardFontNames: seq<string> := [
    "Courier", "Courier-Bold", "Courier-Oblique", "Courier-BoldOblique",
    "Times-Roman", "Times-Bold", "Times-Italic", "Times-BoldItalic",
    "Helvetica", "Helvetica-Bold", "Helvetica-Oblique", "Helvetica-BoldOblique",
    "Symbol", "ZapfDingbats", "Arial-BoldMT", "ArialMT", "Arial-ItalicMT"]

  /** The first entry of the standard font table whose name is exactly `name`. */
  function FindStandard(table: seq<(string, seq<byte>)>, name: string): (r: Option<seq<byte>>)
    ensures r.Some? <==> exists k :: 0 <= k < |table| && table[k].0 == name
    ensures r.Some? ==> exists k :: (0 <= k < |table| && table[k] == (name, r.value) &&
      forall j :: 0 <= j < k ==> table[j].0 != name)
  {
    if |table| == 0 then None
    else if table[0].0 == name then Some(table[0].1)
    else
      var r := FindStandard(table[1..], name);
      assert forall k :: 1 <= k < |table| ==> table[k] == table[1..][k - 1];
      r
  }

  /** The font table of a build with the standard fonts embedded. */
  function BuiltInTable(payloads: seq<seq<byte>>): seq<(string, seq<byte>)>
    requires |payloads| == |StandardFontNames|
  {
    seq(|StandardFontNames|, k requires 0 <= k < |StandardFontNames| => (StandardFontNames[k], payloads[k]))
  }

  /** The first entry named `name` is the one found. */
  lemma {:induction false} FindStandardAt(table: seq<(string, seq<byte>)>, name: string, k: nat)
    requires k < |table| && table[k].0 == name
    requires forall j :: 0 <= j < k ==> table[j].0 != name
    ensures FindStandard(table, name) == Some(table[k].1)
  {
    if k > 0 {
      FindStandardAt(table[1..], name, k - 1);
    }
  }

  /** "Helvetica" is the ninth entry of the built-in table, and an empty table (a build
      without `embed`) knows no font. */
  lemma StandardNameMatch(payloads: seq<seq<byte>>)
    requires |payloads| == |StandardFontNames|
    ensures FindStandard(BuiltInTable(payloads), "Helvetica") == Some(payloads[8])
    ensures FindStandard([], "Helvetica") == None
  {
    var table := BuiltInTable(payloads);
    forall j | 0 <= j < 8
      ensures table[j].0 != "Helvetica"
    {
      assert table[j].0[0] in "CT";
    }
    FindStandardAt(table, "Helvetica", 8);
  }

  /** The match is case-sensitive: every built-in name starts with a capital. */
  lemma StandardNamesCaseSensitive(payloads: seq<seq<byte>>)
    requires |payloads| == |StandardFontNames|
    ensures FindStandard(BuiltInTable(payloads), "helvetica") == None
  {
    var table := BuiltInTable(payloads);
    forall j | 0 <= j < |table|
      ensures table[j].0 != "helvetica"
    {
      assert table[j].0[0] in "CTHSZA";
    }
  }

  /** The `chunks(2)` map of a CIDToGIDMap stream: big-endian u16 pairs; an odd length panics
      on `c[1]` of the last chunk. */
  function GidPairs(data: seq<byte>): (r: Result<seq<u16>>)
    ensures !r.Err?
    ensures r.Ok? <==> |data| % 2 == 0
    ensures r.Ok? ==> |r.value| == |data| / 2
    ensures r.Ok? ==> forall k :: 0 <= k < |r.value| ==> r.value[k] == Be16(data[2 * k], data[2 * k + 1])
  {
    if |data| == 0 then Ok([])
    else if |data| == 1 then Panic
    else
      var rest :- GidPairs(data[2..]);
      GidPairsCons(data, rest);
      Ok([Be16(data[0], data[1])] + rest)
  }

  lemma GidPairsCons(data: seq<byte>, rest: seq<u16>)
    requires |data| >= 2 && |rest| == (|data| - 2) / 2
    requires forall k :: 0 <= k < |rest| ==> rest[k] == Be16(data[2..][2 * k], data[2..][2 * k + 1])
    ensures forall k :: 0 <= k < |rest| + 1 ==>
      ([Be16(data[0], data[1])] + rest)[k] == Be16(data[2 * k], data[2 * k + 1])
  {
    forall k | 0 <= k < |rest| + 1
      ensures ([Be16(data[0], data[1])] + rest)[k] == Be16(data[2 * k], data[2 * k + 1])
    {
      if k > 0 {
        assert data[2..][2 * (k - 1)] == data[2 * k];
      }
    }
  }

  /** The bytes of a glyph-id map written back out, big-endian. */
  function GidBytes(gids: seq<u16>): (b: seq<byte>)
    ensures |b| == 2 * |gids|
  {
    if |gids| == 0 then []
    else [(gids[0] as int / 256) as byte, (gids[0] as int % 256) as byte] + GidBytes(gids[1..])
  }

  lemma {:induction false} GidRoundTrip(gids: seq<u16>)
    ensures GidPairs(GidBytes(gids)) == Ok(gids)
  {
    if |gids| > 0 {
      GidRoundTrip(gids[1..]);
      var b := GidBytes(gids);
      assert b[2..] == GidBytes(gids[1..]);
      assert Be16(b[0], b[1]) == gids[0];
      assert gids == [gids[0]] + gids[1..];
    }
  }

  /** The CIDToGIDMap entry of a CIDFontType2 font: a Stream or a Reference is read as a
      stream and its data parsed; anything else, or no entry, gives no map. */
  function CidToGidEntry(m: Option<Primitive>, res: Resolver, readers: FontReaders): (r: Result<Option<seq<u16>>>)
    ensures m.None? || !(m.value.Stream? || m.value.Reference?) ==> r == Ok(None)
    ensures r.Ok? && r.value.Some? ==> (m.Some? && readers.stream(m.value, res).Ok? &&
      readers.streamData(readers.stream(m.value, res).value).Ok? &&
      GidPairs(readers.streamData(readers.stream(m.value, res).value).value) == Ok(r.value.value))
  {
    match m
    case Some(p) =>
      if p.Stream? || p.Reference? then
        var s :- readers.stream(p, res);
        var data :- readers.streamData(s);
        var gids :- GidPairs(data);
        Ok(Some(gids))
      else Ok(None)
    case None => Ok(None)
  }

  /** The font data a subtype is read as, when the base font is not a standard one. */
  predicate Dispatched(subtype: FontType, data: FontData)
  {
    match subtype
    case Type0 => data.Type0?
    case Type1 => data.Type1?
    case TrueType => data.TrueType?
    case CIDFontType0 => data.CIDFontType0?
    case CIDFontType2 => data.CIDFontType2?
    case MMType1 => data.Other?
    case Type3 => data.Other?
  }

  /** The /Encoding entry, read when present. */
  function ReadEncoding(m: Option<Primitive>, res: Resolver, readers: FontReaders): Result<Option<FontEncoding>>
  {
    match m
    case Some(p) =>
      var e :- readers.encoding(p, res);
      Ok(Some(e))
    case None => Ok(None)
  }

  /** The /ToUnicode entry, read as a stream when present. */
  function ReadToUnicode(m: Option<Primitive>, res: Resolver, readers: FontReaders): Result<Option<StreamValue>>
  {
    match m
    case Some(p) =>
      var s :- readers.stream(p, res);
      Ok(Some(s))
    case None => Ok(None)
  }

  /** Font::from_primitive. */
  function FromPrimitive(p: Primitive, res: Resolver, standard: seq<(string, seq<byte>)>, readers: FontReaders): (r: Result<Font>)
    ensures r.Ok? ==> (r.value.data.Standard? <==> FindStandard(standard, r.value.name).Some?)
    ensures r.Ok? && r.value.data.Standard? ==> r.value.data.builtIn == FindStandard(standard, r.value.name).value
    ensures r.Ok? && !r.value.data.Standard? ==> Dispatched(r.value.subtype, r.value.data)
    ensures r.Ok? && r.value.data.Other? ==> r.value.data.dict == r.value.other
    ensures r.Ok? ==> "BaseFont" !in r.value.other && "Subtype" !in r.value.other
    ensures r.Ok? ==> "Encoding" !in r.value.other && "ToUnicode" !in r.value.other
    ensures ToDictionary(p, res).Ok? ==>
      var d := ToDictionary(p, res).value;
      ("Type" !in d ==> r == Err(MissingEntry("Font", "Type"))) &&
      (Expect(d, "Font", "Type", "Font", true).Ok? && "BaseFont" !in d ==> r == Err(MissingEntry("Font", "BaseFont"))) &&
      (Expect(d, "Font", "Type", "Font", true).Ok? && "BaseFont" in d && AsName(d["BaseFont"]).Ok? && "Subtype" !in d ==>
        r == Err(MissingEntry("Font", "Subtype")))
    ensures !ToDictionary(p, res).Ok? ==> r == ToDictionary(p, res).PropagateFailure()
  {
    var dict :- ToDictionary(p, res);
    var _ :- Expect(dict, "Font", "Type", "Font", true);
    var (bf, dict1) :- Require(dict, "Font", "BaseFont");
    var baseFont :- AsName(bf);
    var (st, dict2) :- Require(dict1, "Font", "Subtype");
    var subtype :- readers.fontType(st, res);
    var (enc, dict3) := Remove(dict2, "Encoding");
    var encoding :- ReadEncoding(enc, res, readers);
    var (tu, dict4) := Remove(dict3, "ToUnicode");
    var toUnicode :- ReadToUnicode(tu, res, readers);
    var data :- match FindStandard(standard, baseFont)
      case Some(bytes) => Ok(Standard(bytes))
      case None =>
        match subtype
        case Type0 =>
          var t :- readers.type0Font(dict4, res);
          Ok(FontData.Type0(t))
        case Type1 =>
          var t :- readers.tFont(dict4, res);
          Ok(FontData.Type1(t))
        case TrueType =>
          var t :- readers.tFont(dict4, res);
          Ok(FontData.TrueType(t))
        case CIDFontType0 =>
          var c :- readers.cidFont(dict4, res);
          Ok(FontData.CIDFontType0(c))
        case CIDFontType2 =>
          var (m, dict5) := Remove(dict4, "CIDToGIDMap");
          var cidMap :- CidToGidEntry(m, res, readers);
          var c :- readers.cidFont(dict5, res);
          Ok(FontData.CIDFontType2(c, cidMap))
        case _ => Ok(FontData.Other(dict4));
    Ok(Font(subtype, baseFont, data, encoding, toUnicode, dict4))
  }

  // ---------------------------------------------------------------------------------------
  // Accessors

  /** FontDescriptor::data: FontFile, else FontFile2, else FontFile3, each read through
      Stream::data. */
  function DescriptorData(d: FontDescriptor, streamData: StreamValue -> Result<seq<byte>>): (r: Option<Result<seq<byte>>>)
    ensures r.None? <==> d.fontFile.None? && d.fontFile2.None? && d.fontFile3.None?
    ensures d.fontFile.Some? ==> r == Some(streamData(d.fontFile.value))
    ensures d.fontFile.None? && d.fontFile2.Some? ==> r == Some(streamData(d.fontFile2.value))
    ensures d.fontFile.None? && d.fontFile2.None? && d.fontFile3.Some? ==> r == Some(streamData(d.fontFile3.value))
  {
    if d.fontFile.Some? then Some(streamData(d.fontFile.value))
    else if d.fontFile2.Some? then Some(streamData(d.fontFile2.value))
    else if d.fontFile3.Some? then Some(streamData(d.fontFile3.value))
    else None
  }

  /** Font::standard_font. */
  function StandardFont(f: Font): (r: Option<seq<byte>>)
    ensures r.Some? <==> f.data.Standard?
  {
    match f.data
    case Standard(bytes) => Some(bytes)
    case _ => None
  }

  /** Font::embedded_data: a Type0 font answers for its first descendant. */
  function EmbeddedData(f: Font, streamData: StreamValue -> Result<seq<byte>>): (r: Option<Result<seq<byte>>>)
    ensures f.data.Standard? || f.data.Other? ==> r.None?
    decreases f
  {
    match f.data
    case Type0(t) => if |t.descendantFonts| == 0 then None else EmbeddedData(t.descendantFonts[0], streamData)
    case CIDFontType0(c) => DescriptorData(c.fontDescriptor, streamData)
    case CIDFontType2(c, _) => DescriptorData(c.fontDescriptor, streamData)
    case Type1(t) => DescriptorData(t.fontDescriptor, streamData)
    case TrueType(t) => DescriptorData(t.fontDescriptor, streamData)
    case _ => None
  }

  /** Font::is_cid. */
  function IsCid(f: Font): bool
  {
    f.data.CIDFontType0? || f.data.CIDFontType2?
  }

  /** Font::cid_to_gid_map: a Type0 font answers for its first descendant. */
  function CidToGidMap(f: Font): (r: Option<seq<u16>>)
    ensures r.Some? ==> f.data.Type0? || f.data.CIDFontType2?
    decreases f
  {
    match f.data
    case Type0(t) => if |t.descendantFonts| == 0 then None else CidToGidMap(t.descendantFonts[0])
    case CIDFontType2(_, m) => m
    case _ => None
  }

  /** Font::info. */
  function Info(f: Font): (r: Option<TFont>)
    ensures r.Some? <==> f.data.Type1? || f.data.TrueType?
  {
    match f.data
    case Type1(t) => Some(t)
    case TrueType(t) => Some(t)
    case _ => None
  }

  /** A font whose two accessors delegate: what a Type0 font reports is what its first
      descendant reports, and it is never a CID font itself. */
  lemma Type0Delegates(f: Font, streamData: StreamValue -> Result<seq<byte>>)
    requires f.data.Type0? && |f.data.t0.descendantFonts| > 0
    ensures var first := f.data.t0.descendantFonts[0];
      EmbeddedData(f, streamData) == EmbeddedData(first, streamData) && CidToGidMap(f) == CidToGidMap(first)
    ensures !IsCid(f) && Info(f).None? && StandardFont(f).None?
  {
  }

  /** `x as usize` for an i32: a negative value sign-extends into a huge usize. */
  function UsizeOf(i: int): nat
  {
    if i >= 0 then i else i % 0x1_0000_0000_0000_0000
  }

  /** What Font::widths returns, as a table: a Type0 font without descendants panics on the
      index; a simple font with /FirstChar gives its /Widths from that code with default 0. */
  function WidthTable(f: Font): Result<Option<Table>>
    decreases f
  {
    match f.data
    case Type0(t) => if |t.descendantFonts| == 0 then Panic else WidthTable(t.descendantFonts[0])
    case Type1(t) => SimpleWidths(t)
    case TrueType(t) => SimpleWidths(t)
    case CIDFontType0(c) =>
      var table :- WalkW(AsWritten, c.widths, 0, Table([], c.defaultWidth, 0));
      Ok(Some(table))
    case CIDFontType2(c, _) =>
      var table :- WalkW(AsWritten, c.widths, 0, Table([], c.defaultWidth, 0));
      Ok(Some(table))
    case _ => Ok(None)
  }

  function SimpleWidths(t: TFont): Result<Option<Table>>
  {
    match t.firstChar
    case Some(first) => Ok(Some(Table(t.widths, 0.0, UsizeOf(first))))
    case None => Ok(None)
  }

  /** A simple font's widths are its /Widths read from /FirstChar on, 0 elsewhere. */
  lemma SimpleWidthsLookup(t: TFont, first: nat, j: nat)
    requires t.firstChar == Some(first)
    ensures SimpleWidths(t).Ok? && SimpleWidths(t).value.Some?
    ensures Lookup(SimpleWidths(t).value.value, j) ==
      if first <= j < first + |t.widths| then t.widths[j - first] else 0.0
  {
  }

  /** The view of the optional table a method returned. */
  function OptionViewOf(r: Result<Option<Widths>>): Result<Option<Table>>
    reads if r.Ok? && r.value.Some? then {r.value.value} else {}
  {
    match r
    case Ok(o) => if o.Some? then Ok(Some(o.value.View())) else Ok(None)
    case Err(e) => Err(e)
    case Panic => Panic
  }

  /** Font::widths. */
  method FontWidths(f: Font) returns (r: Result<Option<Widths>>)
    ensures r.Ok? && r.value.Some? ==> fresh(r.value.value)
    ensures OptionViewOf(r) == WidthTable(f)
    decreases f
  {
    match f.data {
      case Type0(t) =>
        if |t.descendantFonts| == 0 {
          return Panic;
        }
        r := FontWidths(t.descendantFonts[0]);
      case Type1(t) =>
        r := SimpleFontWidths(t);
      case TrueType(t) =>
        r := SimpleFontWidths(t);
      case CIDFontType0(c) =>
        var w := CidWidths(c.defaultWidth, c.widths);
        r := if w.Ok? then Ok(Some(w.value)) else w.PropagateFailure();
      case CIDFontType2(c, _) =>
        var w := CidWidths(c.defaultWidth, c.widths);
        r := if w.Ok? then Ok(Some(w.value)) else w.PropagateFailure();
      case _ =>
        r := Ok(None);
    }
  }

  method SimpleFontWidths(t: TFont) returns (r: Result<Option<Widths>>)
    ensures r.Ok? && r.value.Some? ==> fresh(r.value.value)
    ensures OptionViewOf(r) == SimpleWidths(t)
  {
    if t.firstChar.Some? {
      var w := new Widths.FromTable(Table(t.widths, 0.0, UsizeOf(t.firstChar.value)));
      r := Ok(Some(w));
    } else {
      r := Ok(None);
    }
  }

  /** A font whose BaseFont names a standard font is read as that font whatever its subtype:
      it reports the built-in bytes, no embedded program, no glyph map and no widths. */
  lemma StandardFontsAreOpaque(p: Primitive, res: Resolver, standard: seq<(string, seq<byte>)>, readers: FontReaders, streamData: StreamValue -> Result<seq<byte>>)
    requires FromPrimitive(p, res, standard, readers).Ok?
    requires FindStandard(standard, FromPrimitive(p, res, standard, readers).value.name).Some?
    ensures var f := FromPrimitive(p, res, standard, readers).value;
      StandardFont(f) == FindStandard(standard, f.name) && EmbeddedData(f, streamData).None? &&
      CidToGidMap(f).None? && !IsCid(f) && WidthTable(f) == Ok(None)
  {
  }
}

/** pdf/src/object/color.rs: get_index and ColorSpace::from_primitive, the positional reading
    of a colour-space name or array (section 8.6 of ISO 32000-1). Stream::from_primitive,
    Stream::from_stream, Stream::decode and Function::from_primitive are not part of this
    model: they are the `ColorReaders` parameter. */
module Color {
  import opened Bytes
  import opened Error
  import opened Primitives

  /** A parsed PDF function, represented by the primitive it was read from. */
  datatype PdfFunction = PdfFunction(source: Primitive)

  datatype ColorSpace =
    | DeviceGray
    | DeviceRGB
    | DeviceCMYK
    | Indexed(base: ColorSpace, lookup: seq<byte>)
    | Separation(name: string, alternate: ColorSpace, tint: PdfFunction)
    | Icc(profile: StreamValue)
    | Other(items: seq<Primitive>)

  /** The readers from_primitive delegates to. */
  datatype ColorReaders = ColorReaders(
    iccStream: (Primitive, Resolver) -> Result<StreamValue>,
    fromStream: (StreamValue, Resolver) -> Result<StreamValue>,
    decode: StreamValue -> Result<seq<byte>>,
    tintFunction: (Primitive, Resolver) -> Result<PdfFunction>)

  /** get_index: the element, or a Bounds error carrying the index and the length. */
  function GetIndex(arr: seq<Primitive>, idx: nat): (r: Result<Primitive>)
    ensures idx < |arr| ==> r == Ok(arr[idx])
    ensures idx >= |arr| ==> r == Err(Bounds(idx, |arr|))
  {
    if idx < |arr| then Ok(arr[idx]) else Err(Bounds(idx, |arr|))
  }

  /** Where each `t!` and the `unimplemented!` of from_primitive are expanded. */
  function At(line: nat, column: nat): Location
  {
    Location("pdf/src/object/color.rs", line, column)
  }

  const UnknownDevice := At(46, 22)

  /** The lookup table entry of an Indexed space (element 3): a Reference is resolved once;
      a String gives its bytes, a Stream its decoded data. */
  function IndexedLookup(e3: Primitive, res: Resolver, readers: ColorReaders): Result<seq<byte>>
  {
    var lookup :- match e3
      case Reference(r) => Resolve(res, r)
      case q => Ok(q);
    match lookup
    case String(bytes) => Ok(bytes)
    case Stream(stream) =>
      var s :- readers.fromStream(stream, res);
      T(readers.decode(s), At(64, 25))
    case q => Err(UnexpectedPrimitive("String or Stream", DebugName(q)))
  }

  /** A colour space given by name: the three device spaces; any other name reaches the
      crate-local `unimplemented!`. */
  function DeviceSpace(name: string): Result<ColorSpace>
  {
    match name
    case "DeviceGray" => Ok(DeviceGray)
    case "DeviceRGB" => Ok(DeviceRGB)
    case "DeviceCMYK" => Ok(DeviceCMYK)
    case _ => Unimplemented(UnknownDevice)
  }

  /** ColorSpace::from_primitive. A resolved reference may lead back to an enclosing array, so
      the recursion through base and alternate spaces is bounded by `fuel`; running out of it
      stands for the stack overflow of the source. */
  function FromPrimitive(p: Primitive, res: Resolver, readers: ColorReaders, fuel: nat): Result<ColorSpace>
    decreases fuel, 2
  {
    if fuel == 0 then Panic
    else if p.Name? then DeviceSpace(p.name)
    else
      var arr :- T(IntoArray(p, res), At(50, 19));
      FromArray(arr, res, readers, fuel)
  }

  /** The array form: the family name in element 0 selects how the rest is read. */
  function FromArray(arr: seq<Primitive>, res: Resolver, readers: ColorReaders, fuel: nat): Result<ColorSpace>
    requires fuel > 0
    decreases fuel, 1
  {
    var head :- T(GetIndex(arr, 0), At(51, 22));
    var typ :- T(AsName(head), At(51, 19));
    match typ
    case "Indexed" => IndexedSpace(arr, res, readers, fuel)
    case "Separation" => SeparationSpace(arr, res, readers, fuel)
    case "ICCBased" =>
      var e1 :- T(GetIndex(arr, 1), At(80, 68));
      var s :- T(readers.iccStream(e1, res), At(80, 42));
      Ok(Icc(s))
    case _ => Ok(ColorSpace.Other(arr))
  }

  /** `[/Indexed base hival lookup]`. */
  function IndexedSpace(arr: seq<Primitive>, res: Resolver, readers: ColorReaders, fuel: nat): Result<ColorSpace>
    requires fuel > 0
    decreases fuel, 0
  {
    var e1 :- T(GetIndex(arr, 1), At(55, 54));
    var base :- T(FromPrimitive(e1, res, readers, fuel - 1), At(55, 28));
    var e3 :- T(GetIndex(arr, 3), At(56, 36));
    var lookup :- IndexedLookup(e3, res, readers);
    Ok(Indexed(base, lookup))
  }

  /** `[/Separation name alternate tint]`. */
  function SeparationSpace(arr: seq<Primitive>, res: Resolver, readers: ColorReaders, fuel: nat): Result<ColorSpace>
    requires fuel > 0
    decreases fuel, 0
  {
    var e1 :- T(GetIndex(arr, 1), At(74, 31));
    var name :- T(AsName(e1), At(74, 28));
    var e2 :- T(GetIndex(arr, 2), At(75, 59));
    var alternate :- T(FromPrimitive(e2, res, readers, fuel - 1), At(75, 33));
    var e3 :- T(GetIndex(arr, 3), At(76, 56));
    var tint :- T(readers.tintFunction(e3, res), At(76, 28));
    Ok(Separation(name, alternate, tint))
  }

  /** The three device names, and any other name as an `Other` error, never a panic. */
  lemma DeviceNames(res: Resolver, readers: ColorReaders, fuel: nat, name: string)
    requires fuel > 0
    ensures FromPrimitive(Name("DeviceGray"), res, readers, fuel) == Ok(DeviceGray)
    ensures FromPrimitive(Name("DeviceRGB"), res, readers, fuel) == Ok(DeviceRGB)
    ensures FromPrimitive(Name("DeviceCMYK"), res, readers, fuel) == Ok(DeviceCMYK)
    ensures name !in {"DeviceGray", "DeviceRGB", "DeviceCMYK"} ==>
      FromPrimitive(Name(name), res, readers, fuel) == Err(PdfError.Other("Unimplemented @ " + "pdf/src/object/color.rs" + ":" + Decimal(46)))
    ensures Decimal(46) == "46"
  {
    assert Decimal(46) == "46" by {
      assert Decimal(4) == "4";
    }
  }

  /** An array without a head fails on get_index wrapped by the inner `t!`; a head that is
      not a name fails wrapped by the outer one; a non-array fails wrapped by the `t!` of
      into_array. */
  lemma MalformedArrays(p: Primitive, arr: seq<Primitive>, res: Resolver, readers: ColorReaders, fuel: nat)
    requires fuel > 0
    ensures FromPrimitive(Array([]), res, readers, fuel) == Err(Try("pdf/src/object/color.rs", 51, 22, Bounds(0, 0)))
    ensures |arr| > 0 && !arr[0].Name? ==>
      FromPrimitive(Array(arr), res, readers, fuel) == Err(Try("pdf/src/object/color.rs", 51, 19, UnexpectedPrimitive("Name", DebugName(arr[0]))))
    ensures !p.Name? && !p.Array? && !p.Reference? ==>
      FromPrimitive(p, res, readers, fuel) == Err(Try("pdf/src/object/color.rs", 50, 19, UnexpectedPrimitive("Array", DebugName(p))))
  {
  }

  /** An array with an unrecognised family name is returned whole. */
  lemma UnknownFamilyKeepsArray(arr: seq<Primitive>, res: Resolver, readers: ColorReaders, fuel: nat)
    requires fuel > 0 && |arr| > 0 && arr[0].Name?
    requires arr[0].name !in {"Indexed", "Separation", "ICCBased"}
    ensures FromPrimitive(Array(arr), res, readers, fuel) == Ok(ColorSpace.Other(arr))
  {
  }

  /** Indexed: the base is element 1 read as a colour space and the lookup is element 3; the
      result does not depend on element 2 (hival), which is never read. */
  lemma IndexedReads(arr: seq<Primitive>, hival: Primitive, res: Resolver, readers: ColorReaders, fuel: nat)
    requires fuel > 0 && |arr| >= 4 && arr[0] == Name("Indexed")
    ensures var r := FromPrimitive(Array(arr), res, readers, fuel);
      var base := FromPrimitive(arr[1], res, readers, fuel - 1);
      var lookup := IndexedLookup(arr[3], res, readers);
      (r.Ok? <==> base.Ok? && lookup.Ok?) &&
      (r.Ok? ==> r.value == Indexed(base.value, lookup.value)) &&
      (base.Err? ==> r == Err(Try("pdf/src/object/color.rs", 55, 28, base.error))) &&
      (base.Ok? && lookup.Err? ==> r == Err(lookup.error))
    ensures FromPrimitive(Array(arr[2 := hival]), res, readers, fuel) == FromPrimitive(Array(arr), res, readers, fuel)
  {
    assert FromPrimitive(Array(arr), res, readers, fuel) == FromArray(arr, res, readers, fuel) == IndexedSpace(arr, res, readers, fuel);
    var changed := arr[2 := hival];
    assert changed[0] == arr[0] && changed[1] == arr[1] && changed[3] == arr[3];
    assert FromPrimitive(Array(changed), res, readers, fuel) == FromArray(changed, res, readers, fuel) == IndexedSpace(changed, res, readers, fuel);
  }

  /** The lookup of an Indexed space: a resolver error comes back unwrapped, a reference that
      resolves to another reference is not followed, and a kind other than String or Stream is
      an UnexpectedPrimitive error. */
  lemma IndexedLookupCases(e3: Primitive, res: Resolver, readers: ColorReaders)
    ensures e3.String? ==> IndexedLookup(e3, res, readers) == Ok(e3.bytes)
    ensures e3.Reference? && Resolve(res, e3.ref).Err? ==> IndexedLookup(e3, res, readers) == Err(Resolve(res, e3.ref).error)
    ensures e3.Reference? && Resolve(res, e3.ref).Ok? && Resolve(res, e3.ref).value.Reference? ==>
      IndexedLookup(e3, res, readers) == Err(UnexpectedPrimitive("String or Stream", "Reference"))
    ensures !e3.String? && !e3.Stream? && !e3.Reference? ==>
      IndexedLookup(e3, res, readers) == Err(UnexpectedPrimitive("String or Stream", DebugName(e3)))
    ensures e3.Stream? && readers.fromStream(e3.stream, res).Err? ==>
      IndexedLookup(e3, res, readers) == Err(readers.fromStream(e3.stream, res).error)
    ensures e3.Stream? && readers.fromStream(e3.stream, res).Ok? && readers.decode(readers.fromStream(e3.stream, res).value).Err? ==>
      IndexedLookup(e3, res, readers).Err? && IndexedLookup(e3, res, readers).error.Try?
  {
  }

  /** Separation reads its name, alternate space and tint function from elements 1, 2 and 3;
      ICCBased reads a stream from element 1. */
  lemma SeparationAndIccReads(arr: seq<Primitive>, res: Resolver, readers: ColorReaders, fuel: nat)
    requires fuel > 0 && |arr| >= 4
    ensures arr[0] == Name("Separation") ==>
      var r := FromPrimitive(Array(arr), res, readers, fuel);
      var alternate := FromPrimitive(arr[2], res, readers, fuel - 1);
      var tint := readers.tintFunction(arr[3], res);
      (r.Ok? <==> arr[1].Name? && alternate.Ok? && tint.Ok?) &&
      (r.Ok? ==> r.value == Separation(arr[1].name, alternate.value, tint.value))
    ensures arr[0] == Name("ICCBased") ==>
      var r := FromPrimitive(Array(arr), res, readers, fuel);
      var s := readers.iccStream(arr[1], res);
      (r.Ok? <==> s.Ok?) && (r.Ok? ==> r.value == Icc(s.value)) &&
      (s.Err? ==> r == Err(Try("pdf/src/object/color.rs", 80, 42, s.error)))
  {
    assert FromPrimitive(Array(arr), res, readers, fuel) == FromArray(arr, res, readers, fuel);
    if arr[0] == Name("Separation") {
      assert FromArray(arr, res, readers, fuel) == SeparationSpace(arr, res, readers, fuel);
    }
  }

  /** Positions past the end of a short array fail with Bounds, wrapped by the `t!` around that
      get_index. */
  lemma ShortArrays(res: Resolver, readers: ColorReaders, fuel: nat)
    requires fuel > 0
    ensures FromPrimitive(Array([Name("ICCBased")]), res, readers, fuel) == Err(Try("pdf/src/object/color.rs", 80, 68, Bounds(1, 1)))
    ensures FromPrimitive(Array([Name("Separation"), Name("Spot")]), res, readers, fuel) == Err(Try("pdf/src/object/color.rs", 75, 59, Bounds(2, 2)))
  {
    var sep := [Name("Separation"), Name("Spot")];
    assert FromPrimitive(Array(sep), res, readers, fuel) == FromArray(sep, res, readers, fuel) == SeparationSpace(sep, res, readers, fuel);
    assert FromPrimitive(Array([Name("ICCBased")]), res, readers, fuel) == FromArray([Name("ICCBased")], res, readers, fuel);
  }

  /** Fuel only bounds the recursion: once a result is reached without running out, more fuel
      gives the same result. */
  lemma {:induction false} FuelMonotone(p: Primitive, res: Resolver, readers: ColorReaders, fuel: nat)
    requires !FromPrimitive(p, res, readers, fuel).Panic?
    ensures FromPrimitive(p, res, readers, fuel + 1) == FromPrimitive(p, res, readers, fuel)
    decreases fuel, 1
  {
    if !p.Name? && IntoArray(p, res).Ok? {
      FromArrayMonotone(IntoArray(p, res).value, res, readers, fuel);
    }
  }

  lemma {:induction false} FromArrayMonotone(arr: seq<Primitive>, res: Resolver, readers: ColorReaders, fuel: nat)
    requires fuel > 0 && !FromArray(arr, res, readers, fuel).Panic?
    ensures FromArray(arr, res, readers, fuel + 1) == FromArray(arr, res, readers, fuel)
    decreases fuel, 0
  {
    if |arr| > 1 && arr[0] == Name("Indexed") && !FromPrimitive(arr[1], res, readers, fuel - 1).Panic? {
      FuelMonotone(arr[1], res, readers, fuel - 1);
    } else if |arr| > 2 && arr[0] == Name("Separation") && !FromPrimitive(arr[2], res, readers, fuel - 1).Panic? {
      FuelMonotone(arr[2], res, readers, fuel - 1);
    }
  }
}

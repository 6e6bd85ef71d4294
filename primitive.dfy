/** The untyped value model every core file consumes: Primitive, indirect references and the
    capability that resolves them, and the narrowing accessors and dictionary helpers the core
    calls. pdf/src/primitive.rs and pdf/src/object/mod.rs are not part of this model: these
    helpers follow the narrowing contract (a wrong kind fails with UnexpectedPrimitive naming
    the expected and the found kind, a missing key with MissingEntry naming type and key). */
module Primitives {
  import opened Bytes
  import opened Error

  /** An indirect reference: object number and generation. */
  datatype PlainRef = PlainRef(id: nat, gen: nat)

  datatype Primitive =
    | Null
    | Boolean(b: bool)
    | Integer(i: int)
    | Number(r: real)
    | String(bytes: seq<byte>)
    | Name(name: string)
    | Array(items: seq<Primitive>)
    | Dictionary(dict: map<string, Primitive>)
    | Stream(stream: StreamValue)
    | Reference(ref: PlainRef)

  type Dict = map<string, Primitive>

  /** A stream object: its parameter dictionary and its raw, still encoded bytes. */
  datatype StreamValue = StreamValue(info: Dict, raw: seq<byte>)

  /** The Resolve capability: `NoResolve` refuses every reference; `Objects` is a loaded
      object table (a partial map) with a set of free object numbers. */
  datatype Resolver =
    | NoResolve
    | Objects(table: map<PlainRef, Primitive>, free: set<nat>)

  function Resolve(res: Resolver, r: PlainRef): Result<Primitive>
  {
    match res
    case NoResolve => Err(PdfError.Reference)
    case Objects(table, free) =>
      if r.id in free then Err(FreeObject(r.id))
      else if r in table then Ok(table[r])
      else Err(NullRef(r.id))
  }

  /** Primitive::get_debug_name. */
  function DebugName(p: Primitive): string
  {
    match p
    case Null => "Null"
    case Boolean(_) => "Boolean"
    case Integer(_) => "Integer"
    case Number(_) => "Number"
    case String(_) => "String"
    case Name(_) => "Name"
    case Array(_) => "Array"
    case Dictionary(_) => "Dictionary"
    case Stream(_) => "Stream"
    case Reference(_) => "Reference"
  }

  function Unexpected<V>(expected: string, p: Primitive): Result<V>
  {
    Err(UnexpectedPrimitive(expected, DebugName(p)))
  }

  function AsInteger(p: Primitive): Result<int>
  {
    if p.Integer? then Ok(p.i) else Unexpected("Integer", p)
  }

  /** An Integer or a Number, as a real (the source's f32 rounding is not modelled). */
  function AsNumber(p: Primitive): Result<real>
  {
    match p
    case Integer(i) => Ok(i as real)
    case Number(r) => Ok(r)
    case _ => Unexpected("Number", p)
  }

  function AsName(p: Primitive): Result<string>
  {
    if p.Name? then Ok(p.name) else Unexpected("Name", p)
  }

  function AsString(p: Primitive): Result<seq<byte>>
  {
    if p.String? then Ok(p.bytes) else Unexpected("String", p)
  }

  /** into_array: an Array, or a Reference resolved once to an Array. */
  function IntoArray(p: Primitive, res: Resolver): Result<seq<Primitive>>
  {
    match p
    case Array(items) => Ok(items)
    case Reference(r) =>
      var q :- Resolve(res, r);
      if q.Array? then Ok(q.items) else Unexpected("Array", q)
    case _ => Unexpected("Array", p)
  }

  /** to_dictionary: a Dictionary, or a Reference resolved once to a Dictionary. */
  function ToDictionary(p: Primitive, res: Resolver): Result<Dict>
  {
    match p
    case Dictionary(d) => Ok(d)
    case Reference(r) =>
      var q :- Resolve(res, r);
      if q.Dictionary? then Ok(q.dict) else Unexpected("Dictionary", q)
    case _ => Unexpected("Dictionary", p)
  }

  /** Dictionary::remove: the value under `key`, if any, and the dictionary without it. */
  function Remove(d: Dict, key: string): (Option<Primitive>, Dict)
  {
    if key in d then (Some(d[key]), d - {key}) else (None, d)
  }

  /** Dictionary::require: removes and returns the value under `key`; MissingEntry otherwise. */
  function Require(d: Dict, typ: string, key: string): Result<(Primitive, Dict)>
  {
    if key in d then Ok((d[key], d - {key})) else Err(MissingEntry(typ, key))
  }

  /** Dictionary::expect: the Name under `key` must be `value`; its absence is an error only
      when `required`. */
  function Expect(d: Dict, typ: string, key: string, value: string, required: bool): Result<Unit>
  {
    if key in d then
      var found :- AsName(d[key]);
      if found == value then Ok(Unit) else Err(KeyValueMismatch(key, value, found))
    else if required then Err(MissingEntry(typ, key))
    else Ok(Unit)
  }
}

/** The error taxonomy of pdf/src/error.rs: the PdfError variants, the crate's Result type
    and the early-return macros `try_opt!`, `t!`, `bail!` and the crate-local `unimplemented!`,
    each written as a function whose result a caller propagates with Dafny's `:-`. */
module Error {
  import opened Bytes

  /** Where a macro was expanded: the values of `file!()`, `line!()` and `column!()`. */
  datatype Location = Location(file: string, line: nat, column: nat)

  /** Rust's Option. */
  datatype Option<+T> = None | Some(value: T)

  /** Rust's `()`. */
  datatype Unit = Unit

  /** PdfError. Boxed foreign causes (`Box<dyn Error>`, `io::Error`, `jpeg_decoder::Error`) are
      represented by their message; unsigned Rust integers of every width by `nat`. */
  datatype PdfError =
    | EOF
    | Parse(parseCause: string)
    | Encoding(encodingCause: string)
    | Bounds(index: nat, len: nat)
    | UnexpectedLexeme(pos: nat, lexeme: string, expected: string)
    | UnknownType(pos: nat, firstLexeme: string, rest: string)
    | UnknownVariant(id: string, name: string)
    | NotFound(word: string)
    | Reference
    | XRefStreamType(foundType: nat)
    | ContentReadPastBoundary
    | HexDecode(pos: nat, high: byte, low: byte)
    | Ascii85TailError
    | IncorrectPredictorType(n: byte)
    | FromPrimitive(typ: string, field: string, source: PdfError)
    | MissingEntry(typ: string, field: string)
    | KeyValueMismatch(key: string, value: string, found: string)
    | WrongDictionaryType(expected: string, found: string)
    | FreeObject(objNr: nat)
    | NullRef(objNr: nat)
    | UnexpectedPrimitive(expected: string, found: string)
    | ObjStmOutOfBounds(index: nat, max: nat)
    | PageOutOfBounds(pageNr: nat, max: nat)
    | PageNotFound(pageNr: nat)
    | UnspecifiedXRefEntry(entry: nat)
    | InvalidPassword
    | Jpeg(jpegCause: string)
    | Io(ioCause: string)
    | Other(msg: string)
    | NoneError(file: string, line: nat, column: nat)
    | Try(file: string, line: nat, column: nat, source: PdfError)
    | TryContext(file: string, line: nat, column: nat, context: seq<(string, string)>, source: PdfError)

  /** `Result<T, PdfError>`, plus `Panic` for a computation that the Rust code aborts (an
      out-of-range slice, a failed `unwrap` or `assert!`): not a value the program ever sees,
      it only marks where the source does not return. `:-` propagates `Err` and `Panic`
      unchanged, as `?` and an unwinding panic do. */
  datatype Result<+T> = Ok(value: T) | Err(error: PdfError) | Panic
  {
    predicate IsFailure()
    {
      !Ok?
    }

    function PropagateFailure<U>(): Result<U>
      requires !Ok?
    {
      if Err? then Err(error) else Panic
    }

    function Extract(): T
      requires Ok?
    {
      value
    }
  }

  /** PdfError::is_eof: true for EOF and for any `Try`/`TryContext` wrapping of it. */
  function IsEof(e: PdfError): bool
  {
    match e
    case EOF => true
    case Try(_, _, _, source) => IsEof(source)
    case TryContext(_, _, _, _, source) => IsEof(source)
    case _ => false
  }

  /** The error that `t!` wrapping layers were put around: strips every `Try` and `TryContext`. */
  function Unwrapped(e: PdfError): (u: PdfError)
    ensures !u.Try? && !u.TryContext?
  {
    if e.Try? || e.TryContext? then Unwrapped(e.source) else e
  }

  /** `n` nested `t!` wrappings of `e`, all at the same place. */
  function WrappedTimes(e: PdfError, at: Location, n: nat): (w: PdfError)
    ensures n > 0 ==> w.Try?
  {
    if n == 0 then e else Try(at.file, at.line, at.column, WrappedTimes(e, at, n - 1))
  }

  /** is_eof looks through exactly the wrappers that `t!` adds and nothing else. */
  lemma {:induction false} IsEofIffUnwrappedEof(e: PdfError)
    ensures IsEof(e) <==> Unwrapped(e) == EOF
  {
    if e.Try? || e.TryContext? {
      IsEofIffUnwrappedEof(e.source);
    }
  }

  /** Any depth of `Try` around EOF still reports EOF. */
  lemma {:induction false} IsEofThroughWrapping(e: PdfError, at: Location, n: nat)
    ensures IsEof(WrappedTimes(e, at, n)) == IsEof(e)
  {
    if n > 0 {
      IsEofThroughWrapping(e, at, n - 1);
    }
  }

  /** Every variant other than EOF, Try and TryContext is not EOF; in particular is_eof does
      not look inside FromPrimitive even though it also carries a source. */
  lemma IsEofOtherVariants(e: PdfError)
    requires !e.EOF? && !e.Try? && !e.TryContext?
    ensures !IsEof(e)
  {
  }

  /** `impl From<String> for PdfError`. */
  function FromString(msg: string): (e: PdfError)
    ensures e.Other? && e.msg == msg
    ensures !IsEof(e)
  {
    Other(msg)
  }

  /** `try_opt!(o)` at `at`: the value of Some, or an early `Err(NoneError)` naming the place. */
  function TryOpt<T>(o: Option<T>, at: Location): (r: Result<T>)
    ensures r.Ok? <==> o.Some?
    ensures r.Ok? ==> r.value == o.value
    ensures r.Err? ==> r.error == NoneError(at.file, at.line, at.column)
    ensures !r.Panic?
  {
    match o
    case Some(v) => Ok(v)
    case None => Err(NoneError(at.file, at.line, at.column))
  }

  /** `t!(r)` at `at`: the Ok value, or an early return of `Try { source: e }`. */
  function T<V>(r: Result<V>, at: Location): (w: Result<V>)
    ensures w.Ok? <==> r.Ok?
    ensures r.Ok? ==> w.value == r.value
    ensures r.Err? ==> w.Err? && w.error.Try? && w.error.source == r.error
    ensures r.Err? ==> Unwrapped(w.error) == Unwrapped(r.error) && IsEof(w.error) == IsEof(r.error)
    ensures r.Panic? ==> w.Panic?
  {
    match r
    case Ok(v) => Ok(v)
    case Err(e) => Err(Try(at.file, at.line, at.column, e))
    case Panic => Panic
  }

  /** `t!(r, c1, c2, ...)` at `at`: like `t!` but the error is a `TryContext` carrying one
      (expression text, Debug rendering) pair per context argument, in argument order. */
  function TContext<V>(r: Result<V>, at: Location, context: seq<(string, string)>): (w: Result<V>)
    ensures w.Ok? <==> r.Ok?
    ensures r.Ok? ==> w.value == r.value
    ensures r.Err? ==> w.Err? && w.error.TryContext? && w.error.source == r.error && w.error.context == context
    ensures r.Err? ==> Unwrapped(w.error) == Unwrapped(r.error) && IsEof(w.error) == IsEof(r.error)
    ensures r.Panic? ==> w.Panic?
  {
    match r
    case Ok(v) => Ok(v)
    case Err(e) => Err(TryContext(at.file, at.line, at.column, context, e))
    case Panic => Panic
  }

  /** `bail!(msg)`: an early `Err(Other { msg })`, never a panic. */
  function Bail<V>(msg: string): (r: Result<V>)
    ensures r.Err? && r.error == FromString(msg)
  {
    Err(Other(msg))
  }

  /** The message of the crate-local `unimplemented!()` at `at`. */
  function UnimplementedMessage(at: Location): string
  {
    "Unimplemented @ " + at.file + ":" + Decimal(at.line)
  }

  /** The crate-local `unimplemented!()`: it expands to `bail!`, so an unsupported case is an
      `Err(Other)` a caller can skip, not a panic. */
  function Unimplemented<V>(at: Location): (r: Result<V>)
    ensures r.Err? && r.error.Other? && r.error.msg == UnimplementedMessage(at)
    ensures !IsEof(r.error)
  {
    Bail(UnimplementedMessage(at))
  }
}

/** examples/text/src/main.rs: the ToUnicode CMap scan (parse_cmap, the bfchar and bfrange
    blocks of section 9.10.3 of ISO 32000-1), the mapping of shown strings to text
    (add_string) and the font cache. The lexer and parse_with_lexer are not part of this
    model: their output is a sequence of tokens. UTF-16BE decoding is the `utf16` parameter,
    which answers None where the source's `unwrap` of a decoded character panics. */
module Text {
  import opened Bytes
  import opened Error
  import opened Primitives
  import Font

  /** The input as the scan sees it: a lexeme that parse_with_lexer rejects (a keyword such
      as `beginbfchar`), or a run of lexemes it reads as one primitive. */
  datatype Token = Keyword(word: string) | Value(p: Primitive)

  type CMap = map<u16, string>

  /** parse_with_lexer at pos: the primitive of a value token; a keyword is an error. */
  function Parsed(tokens: seq<Token>, pos: nat): Option<Primitive>
  {
    if pos < |tokens| && tokens[pos].Value? then Some(tokens[pos].p) else None
  }

  /** Where the lexer stands after parse_with_lexer at pos: a token is consumed even when it
      is rejected; at the end of input nothing is. */
  function After(tokens: seq<Token>, pos: nat): nat
  {
    if pos < |tokens| then pos + 1 else pos
  }

  predicate IsString(o: Option<Primitive>)
  {
    o.Some? && o.value.String?
  }

  /** `u16::from_be_bytes(bytes.try_into().unwrap())`: exactly two bytes, or a panic. */
  function Code(bytes: seq<byte>): (r: Result<u16>)
    ensures r.Ok? <==> |bytes| == 2
    ensures r.Ok? ==> r.value == Be16(bytes[0], bytes[1])
    ensures !r.Err?
  {
    if |bytes| == 2 then Ok(Be16(bytes[0], bytes[1])) else Panic
  }

  /** utf16be_to_string. */
  function Decode16(utf16: seq<byte> -> Option<string>, bytes: seq<byte>): Result<string>
  {
    match utf16(bytes)
    case Some(s) => Ok(s)
    case None => Panic
  }

  /** `*unicode_data.last_mut().unwrap() += 1`: the last byte incremented, wrapping. */
  function IncLast(data: seq<byte>): (r: seq<byte>)
    requires |data| > 0
    ensures |r| == |data| && r[..|data| - 1] == data[..|data| - 1]
  {
    data[..|data| - 1] + [WrapAdd(data[|data| - 1], 1)]
  }

  /** The destination string of code start + i in a bfrange with one string: only the last
      byte moves, by i modulo 256, with no carry into the earlier bytes. */
  function Bumped(data: seq<byte>, i: nat): seq<byte>
    requires |data| > 0
  {
    data[..|data| - 1] + [((data[|data| - 1] as int + i) % 256) as byte]
  }

  // ---------------------------------------------------------------------------------------
  // The scan

  /** The top-level loop of parse_cmap from token pos on: a block keyword starts a block,
      endcmap or the end of input stops, anything else is skipped. */
  function Scan(tokens: seq<Token>, pos: nat, m: CMap, utf16: seq<byte> -> Option<string>): Result<CMap>
    decreases |tokens| - pos, 0
  {
    if pos >= |tokens| then Ok(m)
    else if tokens[pos] == Keyword("beginbfchar") then BfChar(tokens, pos + 1, m, utf16)
    else if tokens[pos] == Keyword("beginbfrange") then BfRange(tokens, pos + 1, m, utf16)
    else if tokens[pos] == Keyword("endcmap") then Ok(m)
    else Scan(tokens, pos + 1, m, utf16)
  }

  /** The `beginbfchar` loop: two primitives are read; a pair of strings is inserted, any
      other pair ends the block, both having been consumed. */
  function BfChar(tokens: seq<Token>, pos: nat, m: CMap, utf16: seq<byte> -> Option<string>): Result<CMap>
    decreases |tokens| - pos, 1
  {
    var a, p1 := Parsed(tokens, pos), After(tokens, pos);
    var b, p2 := Parsed(tokens, p1), After(tokens, p1);
    if IsString(a) && IsString(b) then
      var cid :- Code(a.value.bytes);
      var text :- Decode16(utf16, b.value.bytes);
      BfChar(tokens, p2, m[cid := text], utf16)
    else Scan(tokens, p2, m, utf16)
  }

  /** The `beginbfrange` loop: three primitives are read; two strings and a string, or two
      strings and an array, assign a range; anything else ends the block. */
  function BfRange(tokens: seq<Token>, pos: nat, m: CMap, utf16: seq<byte> -> Option<string>): Result<CMap>
    decreases |tokens| - pos, 1
  {
    var a, p1 := Parsed(tokens, pos), After(tokens, pos);
    var b, p2 := Parsed(tokens, p1), After(tokens, p1);
    var c, p3 := Parsed(tokens, p2), After(tokens, p2);
    if IsString(a) && IsString(b) && IsString(c) then
      var start :- Code(a.value.bytes);
      var end :- Code(b.value.bytes);
      var m' :- RangeStrings(start as nat, end, c.value.bytes, m, utf16);
      BfRange(tokens, p3, m', utf16)
    else if IsString(a) && IsString(b) && c.Some? && c.value.Array? then
      var start :- Code(a.value.bytes);
      var end :- Code(b.value.bytes);
      var m' :- RangeArray(start as nat, end, c.value.items, 0, m, utf16);
      BfRange(tokens, p3, m', utf16)
    else Scan(tokens, p3, m, utf16)
  }

  /** `for cid in start..=end` with one destination string from code cid on: each code gets
      the decoded string, then its last byte is incremented; an empty string panics there. */
  function RangeStrings(cid: nat, end: u16, data: seq<byte>, m: CMap, utf16: seq<byte> -> Option<string>): Result<CMap>
    decreases end as int - cid
  {
    if cid > end as nat then Ok(m)
    else
      var text :- Decode16(utf16, data);
      if |data| == 0 then Panic
      else RangeStrings(cid + 1, end, IncLast(data), m[cid as u16 := text], utf16)
  }

  /** `(start..=end).zip(array)` from element i on: code start + i gets element i, which must
      be a string; the shorter of the two ends the loop. */
  function RangeArray(start: nat, end: u16, items: seq<Primitive>, i: nat, m: CMap, utf16: seq<byte> -> Option<string>): Result<CMap>
    decreases |items| - i
  {
    if start + i > end as nat || i >= |items| then Ok(m)
    else
      var bytes :- if items[i].String? then Ok(items[i].bytes) else Panic;
      var text :- Decode16(utf16, bytes);
      RangeArray(start, end, items, i + 1, m[(start + i) as u16 := text], utf16)
  }

  lemma BumpedStep(data: seq<byte>, i: nat)
    requires |data| > 0
    ensures Bumped(IncLast(data), i) == Bumped(data, i + 1)
    ensures Bumped(data, 0) == data
  {
    assert IncLast(data)[..|data| - 1] == data[..|data| - 1];
    assert data == data[..|data| - 1] + [data[|data| - 1]];
  }

  /** A bfrange with one string gives code cid + i the string whose last byte is the original
      one plus i, modulo 256; every other code keeps its entry. */
  lemma {:induction false} RangeStringsValues(cid: nat, end: u16, data: seq<byte>, m: CMap, utf16: seq<byte> -> Option<string>)
    requires |data| > 0
    requires forall i: nat :: cid + i <= end as nat ==> utf16(Bumped(data, i)).Some?
    ensures RangeStrings(cid, end, data, m, utf16).Ok?
    ensures forall c: u16 :: cid <= c as nat <= end as nat ==>
      c in RangeStrings(cid, end, data, m, utf16).value &&
      RangeStrings(cid, end, data, m, utf16).value[c] == utf16(Bumped(data, c as nat - cid)).value
    ensures forall c: u16 :: !(cid <= c as nat <= end as nat) ==>
      (c in RangeStrings(cid, end, data, m, utf16).value <==> c in m) &&
      (c in m ==> RangeStrings(cid, end, data, m, utf16).value[c] == m[c])
    decreases end as int - cid
  {
    if cid <= end as nat {
      BumpedStep(data, 0);
      var next := IncLast(data);
      forall i: nat | cid + 1 + i <= end as nat
        ensures Bumped(next, i) == Bumped(data, i + 1) && utf16(Bumped(next, i)).Some?
      {
        BumpedStep(data, i);
      }
      var m' := m[cid as u16 := utf16(data).value];
      RangeStringsValues(cid + 1, end, next, m', utf16);
    }
  }

  /** A bfrange with an array gives code start + i element i, for i up to the shorter of the
      range and the array; every other code keeps its entry. */
  lemma {:induction false} RangeArrayValues(start: nat, end: u16, items: seq<Primitive>, i: nat, m: CMap, utf16: seq<byte> -> Option<string>)
    requires forall k :: i <= k < |items| && start + k <= end as nat ==> items[k].String? && utf16(items[k].bytes).Some?
    ensures RangeArray(start, end, items, i, m, utf16).Ok?
    ensures forall c: u16 :: start + i <= c as nat < start + |items| && c as nat <= end as nat ==>
      c in RangeArray(start, end, items, i, m, utf16).value &&
      RangeArray(start, end, items, i, m, utf16).value[c] == utf16(items[c as nat - start].bytes).value
    ensures forall c: u16 :: !(start + i <= c as nat < start + |items| && c as nat <= end as nat) ==>
      (c in RangeArray(start, end, items, i, m, utf16).value <==> c in m) &&
      (c in m ==> RangeArray(start, end, items, i, m, utf16).value[c] == m[c])
    decreases |items| - i
  {
    if !(start + i > end as nat || i >= |items|) {
      var m' := m[(start + i) as u16 := utf16(items[i].bytes).value];
      assert RangeArray(start, end, items, i, m, utf16) == RangeArray(start, end, items, i + 1, m', utf16);
      RangeArrayValues(start, end, items, i + 1, m', utf16);
    }
  }

  /** A later entry for a code replaces an earlier one. */
  lemma BfCharLaterWins(x: seq<byte>, s1: seq<byte>, s2: seq<byte>, utf16: seq<byte> -> Option<string>)
    requires |x| == 2 && utf16(s1).Some? && utf16(s2).Some?
    ensures var tokens := [Keyword("beginbfchar"), Value(String(x)), Value(String(s1)), Value(String(x)), Value(String(s2)), Keyword("endbfchar")];
      Scan(tokens, 0, map[], utf16) == Ok(map[Be16(x[0], x[1]) := utf16(s2).value])
  {
    var tokens := [Keyword("beginbfchar"), Value(String(x)), Value(String(s1)), Value(String(x)), Value(String(s2)), Keyword("endbfchar")];
    var cid := Be16(x[0], x[1]);
    var m1, m2 := map[cid := utf16(s1).value], map[cid := utf16(s1).value][cid := utf16(s2).value];
    assert m2 == map[cid := utf16(s2).value];
    assert Scan(tokens, 0, map[], utf16) == BfChar(tokens, 1, map[], utf16);
    assert BfChar(tokens, 1, map[], utf16) == BfChar(tokens, 3, m1, utf16);
    assert BfChar(tokens, 3, m1, utf16) == BfChar(tokens, 5, m2, utf16);
    assert BfChar(tokens, 5, m2, utf16) == Scan(tokens, 6, m2, utf16);
  }

  /** The two reads of a bfchar step happen before the pair is looked at, so the token after
      `endbfchar` is consumed too: an `endcmap` there does not stop the scan. */
  lemma BfCharSwallowsNextToken(x: seq<byte>, s: seq<byte>, y: seq<byte>, t: seq<byte>, utf16: seq<byte> -> Option<string>)
    requires |x| == 2 && |y| == 2 && utf16(s).Some? && utf16(t).Some?
    ensures var tokens := [Keyword("beginbfchar"), Value(String(x)), Value(String(s)), Keyword("endbfchar"),
        Keyword("endcmap"), Keyword("beginbfchar"), Value(String(y)), Value(String(t))];
      Scan(tokens, 0, map[], utf16) == Ok(map[Be16(x[0], x[1]) := utf16(s).value][Be16(y[0], y[1]) := utf16(t).value])
  {
    var tokens := [Keyword("beginbfchar"), Value(String(x)), Value(String(s)), Keyword("endbfchar"),
        Keyword("endcmap"), Keyword("beginbfchar"), Value(String(y)), Value(String(t))];
    var m1 := map[Be16(x[0], x[1]) := utf16(s).value];
    var m2 := m1[Be16(y[0], y[1]) := utf16(t).value];
    assert Scan(tokens, 0, map[], utf16) == BfChar(tokens, 1, map[], utf16);
    assert BfChar(tokens, 1, map[], utf16) == BfChar(tokens, 3, m1, utf16);
    assert BfChar(tokens, 3, m1, utf16) == Scan(tokens, 5, m1, utf16);
    assert Scan(tokens, 5, m1, utf16) == BfChar(tokens, 6, m1, utf16);
    assert BfChar(tokens, 6, m1, utf16) == BfChar(tokens, 8, m2, utf16);
    assert BfChar(tokens, 8, m2, utf16) == Scan(tokens, 8, m2, utf16);
  }

  /** The scan stops at endcmap, skips tokens outside blocks, and panics on a code string that
      is not two bytes long. */
  lemma ScanControl(tokens: seq<Token>, x: seq<byte>, s: seq<byte>, utf16: seq<byte> -> Option<string>)
    requires |x| != 2
    ensures Scan([Keyword("endcmap")] + tokens, 0, map[], utf16) == Ok(map[])
    ensures Scan([Value(Integer(1)), Keyword("def")] + tokens, 0, map[], utf16) == Scan(tokens, 0, map[], utf16)
    ensures Scan([Keyword("beginbfchar"), Value(String(x)), Value(String(s))], 0, map[], utf16) == Panic
  {
    var t2 := [Value(Integer(1)), Keyword("def")] + tokens;
    assert Scan(t2, 0, map[], utf16) == Scan(t2, 2, map[], utf16);
    ScanShift(tokens, [Value(Integer(1)), Keyword("def")], 0, map[], utf16);
  }

  /** Tokens in front that are already consumed do not change the scan. */
  lemma {:induction false} ScanShift(tokens: seq<Token>, front: seq<Token>, pos: nat, m: CMap, utf16: seq<byte> -> Option<string>)
    ensures Scan(front + tokens, |front| + pos, m, utf16) == Scan(tokens, pos, m, utf16)
    decreases |tokens| - pos, 0
  {
    var all := front + tokens;
    if pos < |tokens| {
      assert all[|front| + pos] == tokens[pos];
      if tokens[pos] == Keyword("beginbfchar") {
        BfCharShift(tokens, front, pos + 1, m, utf16);
      } else if tokens[pos] == Keyword("beginbfrange") {
        BfRangeShift(tokens, front, pos + 1, m, utf16);
      } else if tokens[pos] != Keyword("endcmap") {
        ScanShift(tokens, front, pos + 1, m, utf16);
      }
    }
  }

  lemma {:induction false} BfCharShift(tokens: seq<Token>, front: seq<Token>, pos: nat, m: CMap, utf16: seq<byte> -> Option<string>)
    ensures BfChar(front + tokens, |front| + pos, m, utf16) == BfChar(tokens, pos, m, utf16)
    decreases |tokens| - pos, 1
  {
    var all := front + tokens;
    ParsedShift(tokens, front, pos);
    ParsedShift(tokens, front, After(tokens, pos));
    var p2 := After(tokens, After(tokens, pos));
    var a, b := Parsed(tokens, pos), Parsed(tokens, After(tokens, pos));
    if IsString(a) && IsString(b) {
      if Code(a.value.bytes).Ok? && Decode16(utf16, b.value.bytes).Ok? {
        BfCharShift(tokens, front, p2, m[Code(a.value.bytes).value := Decode16(utf16, b.value.bytes).value], utf16);
      }
    } else {
      ScanShift(tokens, front, p2, m, utf16);
    }
  }

  lemma {:induction false} BfRangeShift(tokens: seq<Token>, front: seq<Token>, pos: nat, m: CMap, utf16: seq<byte> -> Option<string>)
    ensures BfRange(front + tokens, |front| + pos, m, utf16) == BfRange(tokens, pos, m, utf16)
    decreases |tokens| - pos, 1
  {
    var p1 := After(tokens, pos);
    var p2 := After(tokens, p1);
    var p3 := After(tokens, p2);
    ParsedShift(tokens, front, pos);
    ParsedShift(tokens, front, p1);
    ParsedShift(tokens, front, p2);
    var a, b, c := Parsed(tokens, pos), Parsed(tokens, p1), Parsed(tokens, p2);
    var assigns := IsString(a) && IsString(b) && (IsString(c) || (c.Some? && c.value.Array?));
    if assigns && Code(a.value.bytes).Ok? && Code(b.value.bytes).Ok? {
      var start, end := Code(a.value.bytes).value as nat, Code(b.value.bytes).value;
      var r := if IsString(c) then RangeStrings(start, end, c.value.bytes, m, utf16)
        else RangeArray(start, end, c.value.items, 0, m, utf16);
      if r.Ok? {
        BfRangeShift(tokens, front, p3, r.value, utf16);
      }
    } else if !assigns {
      ScanShift(tokens, front, p3, m, utf16);
    }
  }

  lemma ParsedShift(tokens: seq<Token>, front: seq<Token>, pos: nat)
    ensures Parsed(front + tokens, |front| + pos) == Parsed(tokens, pos)
    ensures After(front + tokens, |front| + pos) == |front| + After(tokens, pos)
  {
    if pos < |tokens| {
      assert (front + tokens)[|front| + pos] == tokens[pos];
    }
  }

  // ---------------------------------------------------------------------------------------
  // The imperative scan

  /** What parse_cmap returns: the `from_utf8(data).unwrap()` of its `println!` panics on a
      CMap that is not UTF-8; otherwise the scan of the lexer's tokens. */
  function ParsedCMap(data: seq<byte>, readers: CMapReaders): Result<CMap>
  {
    if readers.utf8(data) then Scan(readers.lex(data), 0, map[], readers.utf16) else Panic
  }

  /** parse_cmap. */
  method ParseCMap(data: seq<byte>, readers: CMapReaders) returns (r: Result<CMap>)
    ensures r == ParsedCMap(data, readers)
  {
    if !readers.utf8(data) {
      return Panic;
    }
    var tokens, utf16 := readers.lex(data), readers.utf16;
    var m: CMap := map[];
    var pos := 0;
    while pos < |tokens|
      invariant pos <= |tokens|
      invariant Scan(tokens, 0, map[], utf16) == Scan(tokens, pos, m, utf16)
      decreases |tokens| - pos
    {
      var token := tokens[pos];
      pos := pos + 1;
      if token == Keyword("beginbfchar") {
        while true
          invariant pos <= |tokens|
          invariant Scan(tokens, 0, map[], utf16) == BfChar(tokens, pos, m, utf16)
          decreases |tokens| - pos
        {
          var a := Parsed(tokens, pos);
          var b := Parsed(tokens, After(tokens, pos));
          var next := After(tokens, After(tokens, pos));
          if IsString(a) && IsString(b) {
            var cid := Code(a.value.bytes);
            if cid.Panic? {
              return Panic;
            }
            var text := Decode16(utf16, b.value.bytes);
            if text.Panic? {
              return Panic;
            }
            m := m[cid.value := text.value];
            pos := next;
          } else {
            pos := next;
            break;
          }
        }
      } else if token == Keyword("beginbfrange") {
        while true
          invariant pos <= |tokens|
          invariant Scan(tokens, 0, map[], utf16) == BfRange(tokens, pos, m, utf16)
          decreases |tokens| - pos
        {
          var p1 := After(tokens, pos);
          var p2 := After(tokens, p1);
          var a, b, c := Parsed(tokens, pos), Parsed(tokens, p1), Parsed(tokens, p2);
          var next := After(tokens, p2);
          if IsString(a) && IsString(b) && (IsString(c) || (c.Some? && c.value.Array?)) {
            var start := Code(a.value.bytes);
            var end := Code(b.value.bytes);
            if start.Panic? || end.Panic? {
              return Panic;
            }
            var m' : Result<CMap>;
            if IsString(c) {
              m' := InsertRangeStrings(start.value, end.value, c.value.bytes, m, utf16);
            } else {
              m' := InsertRangeArray(start.value, end.value, c.value.items, m, utf16);
            }
            if !m'.Ok? {
              return m';
            }
            m := m'.value;
            pos := next;
          } else {
            pos := next;
            break;
          }
        }
      } else if token == Keyword("endcmap") {
        break;
      }
    }
    return Ok(m);
  }

  /** The loop of a bfrange with one destination string. */
  method InsertRangeStrings(start: u16, end: u16, data: seq<byte>, m: CMap, utf16: seq<byte> -> Option<string>) returns (r: Result<CMap>)
    ensures r == RangeStrings(start as nat, end, data, m, utf16)
  {
    var cid: nat := start as nat;
    var unicode := data;
    var acc := m;
    while cid <= end as nat
      invariant RangeStrings(start as nat, end, data, m, utf16) == RangeStrings(cid, end, unicode, acc, utf16)
      decreases end as int - cid
    {
      var text := Decode16(utf16, unicode);
      if text.Panic? {
        return Panic;
      }
      acc := acc[cid as u16 := text.value];
      if |unicode| == 0 {
        return Panic;
      }
      unicode := IncLast(unicode);
      cid := cid + 1;
    }
    return Ok(acc);
  }

  /** The loop of a bfrange with an array of destination strings. */
  method InsertRangeArray(start: u16, end: u16, items: seq<Primitive>, m: CMap, utf16: seq<byte> -> Option<string>) returns (r: Result<CMap>)
    ensures r == RangeArray(start as nat, end, items, 0, m, utf16)
  {
    var i := 0;
    var acc := m;
    while start as nat + i <= end as nat && i < |items|
      invariant i <= |items|
      invariant RangeArray(start as nat, end, items, 0, m, utf16) == RangeArray(start as nat, end, items, i, acc, utf16)
      decreases |items| - i
    {
      if !items[i].String? {
        return Panic;
      }
      var text := Decode16(utf16, items[i].bytes);
      if text.Panic? {
        return Panic;
      }
      acc := acc[(start as nat + i) as u16 := text.value];
      i := i + 1;
    }
    return Ok(acc);
  }

  // ---------------------------------------------------------------------------------------
  // Text of a shown string

  /** The text of the 2-byte window at i under Identity-H: its mapping, or nothing. */
  function WindowText(data: seq<byte>, i: nat, cmap: CMap): string
    requires i + 1 < |data|
  {
    var cp := Be16(data[i], data[i + 1]);
    if cp in cmap then cmap[cp] else ""
  }

  /** The mapped text of the first n windows of `data.windows(2)`. */
  function IdentityText(data: seq<byte>, n: nat, cmap: CMap): string
    requires n <= |data| && (n > 0 ==> n < |data|)
  {
    if n == 0 then "" else IdentityText(data, n - 1, cmap) + WindowText(data, n - 1, cmap)
  }

  /** The number of 2-byte windows: the last one, at n - 1, fits and one at n would not. */
  function Windows(data: seq<byte>): (n: nat)
    ensures n == 0 || n + 1 <= |data|
    ensures n + 2 > |data|
  {
    if |data| < 2 then 0 else |data| - 1
  }

  /** The text of one byte under a simple encoding: its mapping, or the byte as a char. */
  function ByteText(b: byte, cmap: CMap): string
  {
    if b as u16 in cmap then cmap[b as u16] else [(b as int) as char]
  }

  /** The mapped text of the first n bytes. */
  function SimpleText(data: seq<byte>, n: nat, cmap: CMap): string
    requires n <= |data|
  {
    if n == 0 then "" else SimpleText(data, n - 1, cmap) + ByteText(data[n - 1], cmap)
  }

  /** What add_string appends for a font's encoding. */
  function ShownText(data: seq<byte>, encoding: Option<Font.FontEncoding>, cmap: CMap): string
  {
    match encoding
    case None => ""
    case Some(e) =>
      if e.base == Font.IdentityH then IdentityText(data, Windows(data), cmap)
      else SimpleText(data, |data|, cmap)
  }

  datatype FontInfo = FontInfo(font: Font.Font, cmap: CMap)

  /** add_string: appends the text of `data` to `out`. */
  method AddString(data: seq<byte>, out: string, info: FontInfo) returns (out': string)
    ensures out' == out + ShownText(data, info.font.encoding, info.cmap)
  {
    out' := out;
    if info.font.encoding.Some? {
      if info.font.encoding.value.base == Font.IdentityH {
        out' := AppendIdentity(data, out, info.cmap);
      } else {
        out' := AppendSimple(data, out, info.cmap);
      }
    }
  }

  /** The Identity-H arm of add_string: every overlapping 2-byte window is looked up. */
  method AppendIdentity(data: seq<byte>, out: string, cmap: CMap) returns (out': string)
    ensures out' == out + IdentityText(data, Windows(data), cmap)
  {
    out' := out;
    var n := Windows(data);
    var i := 0;
    while i < n
      invariant i <= n
      invariant out' == out + IdentityText(data, i, cmap)
    {
      var cp := Be16(data[i], data[i + 1]);
      var piece := if cp in cmap then cmap[cp] else "";
      assert piece == WindowText(data, i, cmap);
      assert IdentityText(data, i + 1, cmap) == IdentityText(data, i, cmap) + piece;
      Concat3(out, IdentityText(data, i, cmap), piece);
      out' := out' + piece;
      i := i + 1;
    }
  }

  /** Associativity of concatenation, the one step of the loop above the solver misses. */
  lemma Concat3(a: string, b: string, c: string)
    ensures (a + b) + c == a + (b + c)
  {
  }

  /** The arm of add_string for any other encoding: byte by byte. */
  method AppendSimple(data: seq<byte>, out: string, cmap: CMap) returns (out': string)
    ensures out' == out + SimpleText(data, |data|, cmap)
  {
    out' := out;
    var i := 0;
    while i < |data|
      invariant i <= |data|
      invariant out' == out + SimpleText(data, i, cmap)
    {
      var b := data[i];
      if b as u16 in cmap {
        out' := out' + cmap[b as u16];
      } else {
        out' := out' + [(b as int) as char];
      }
      i := i + 1;
    }
  }

  /** Under Identity-H the windows overlap: in 00 41 42 both 0041 and 4142 are looked up,
      and an unmapped window adds nothing. */
  lemma IdentityWindowsOverlap()
    ensures IdentityText([0x00, 0x41, 0x42], 2, map[0x0041 := "A", 0x4142 := "B"]) == "AB"
    ensures IdentityText([0x00, 0x41, 0x42], 2, map[0x4142 := "B"]) == "B"
  {
    assert Be16(0x00, 0x41) == 0x0041 && Be16(0x41, 0x42) == 0x4142;
    assert "" + "A" + "B" == "AB";
  }

  /** With no mapping at all a simple encoding reads each byte as the char of that code. */
  lemma {:induction false} SimpleTextUnmapped(data: seq<byte>, n: nat)
    requires n <= |data|
    ensures SimpleText(data, n, map[]) == seq(n, k requires 0 <= k < n => (data[k] as int) as char)
  {
    if n > 0 {
      SimpleTextUnmapped(data, n - 1);
    }
  }

  /** Every mapped window contributes its whole string, in window order. */
  lemma {:induction false} IdentityTextFullyMapped(data: seq<byte>, n: nat, cmap: CMap)
    requires n <= |data| && (n > 0 ==> n < |data|)
    requires forall i :: 0 <= i < n ==> Be16(data[i], data[i + 1]) in cmap && |cmap[Be16(data[i], data[i + 1])]| == 1
    ensures IdentityText(data, n, cmap) == seq(n, i requires 0 <= i < n => cmap[Be16(data[i], data[i + 1])][0])
  {
    if n > 0 {
      IdentityTextFullyMapped(data, n - 1, cmap);
    }
  }

  // ---------------------------------------------------------------------------------------
  // The font cache

  /** What add_font reads a ToUnicode stream with: Stream::data, the UTF-8 check of
      `std::str::from_utf8`, the lexer and UTF-16BE. */
  datatype CMapReaders = CMapReaders(
    streamData: StreamValue -> Result<seq<byte>>,
    utf8: seq<byte> -> bool,
    lex: seq<byte> -> seq<Token>,
    utf16: seq<byte> -> Option<string>)

  /** The cmap of a ToUnicode stream: `data().unwrap()` panics on an error. */
  function CMapOf(s: StreamValue, readers: CMapReaders): Result<CMap>
  {
    match readers.streamData(s)
    case Ok(data) => ParsedCMap(data, readers)
    case _ => Panic
  }

  class Cache {
    var fonts: map<string, FontInfo>

    /** Cache::new. */
    constructor ()
      ensures fonts == map[]
    {
      fonts := map[];
    }

    /** Cache::get_font. */
    function GetFont(name: string): (r: Option<FontInfo>)
      reads this
      ensures r.Some? <==> name in fonts
      ensures r.Some? ==> r.value == fonts[name]
    {
      if name in fonts then Some(fonts[name]) else None
    }

    /** Cache::add_font: a font is stored, under its name, only with its ToUnicode cmap; a
        font without one is not stored. The result is Panic where the source aborts. */
    method AddFont(name: string, font: Font.Font, readers: CMapReaders) returns (r: Result<Unit>)
      modifies this
      ensures font.toUnicode.None? ==> r == Ok(Unit) && fonts == old(fonts)
      ensures font.toUnicode.Some? && CMapOf(font.toUnicode.value, readers).Ok? ==>
        r == Ok(Unit) && fonts == old(fonts)[name := FontInfo(font, CMapOf(font.toUnicode.value, readers).value)]
      ensures font.toUnicode.Some? && !CMapOf(font.toUnicode.value, readers).Ok? ==> r == Panic && fonts == old(fonts)
    {
      if font.toUnicode.None? {
        return Ok(Unit);
      }
      var data := readers.streamData(font.toUnicode.value);
      if !data.Ok? {
        return Panic;
      }
      var cmap := ParseCMap(data.value, readers);
      if !cmap.Ok? {
        return Panic;
      }
      fonts := fonts[name := FontInfo(font, cmap.value)];
      return Ok(Unit);
    }
  }
}

/** The ASCIIHexDecode and ASCII85Decode filters of pdf/src/enc.rs (decode_nibble, decode_hex,
    sym_85, word_85, substr, decode_85), as the code computes them. Where the code departs
    from sections 7.4.2 and 7.4.3 of ISO 32000-1 the model follows the code: the nibbles g/h,
    the dropped odd byte, the 85*(a+b+c+d)+e word and the panics are all stated below. */
module Ascii {
  import opened Bytes
  import opened Error

  // ---------------------------------------------------------------------------------------
  // ASCIIHexDecode

  /** decode_nibble: 0-9 are 0..9, a-h and A-H are 10..17 (g and h as well), all else is None. */
  function DecodeNibble(c: byte): (r: Option<byte>)
    ensures r.Some? <==> (0x30 <= c <= 0x39 || 0x61 <= c <= 0x68 || 0x41 <= c <= 0x48)
    ensures 0x30 <= c <= 0x39 ==> r == Some(c - 0x30)
    ensures 0x61 <= c <= 0x68 ==> r == Some(c - 0x61 + 10)
    ensures 0x41 <= c <= 0x48 ==> r == Some(c - 0x41 + 10)
    ensures r.Some? ==> r.value < 18
  {
    if 0x30 <= c <= 0x39 then Some(c - 0x30)
    else if 0x61 <= c <= 0x68 then Some(c - 0x61 + 0xa)
    else if 0x41 <= c <= 0x48 then Some(c - 0x41 + 0xa)
    else None
  }

  /** `high << 4 | low` on u8: the shift drops bits above the eighth. */
  function Combine(high: byte, low: byte): byte
  {
    (((high as bv8) << 4) | (low as bv8)) as byte
  }

  lemma CombineNibbles(high: byte, low: byte)
    requires high < 16 && low < 16
    ensures Combine(high, low) as int == high as int * 16 + low as int
  {
    var h, l := high as bv8, low as bv8;
    assert h < 16 && l < 16;
    assert h << 4 == h * 16;
    assert (h * 16) | l == h * 16 + l;
    assert (h * 16 + l) as int == high as int * 16 + low as int;
  }

  ghost predicate PairValid(data: seq<byte>, k: nat)
    requires 2 * k + 1 < |data|
  {
    DecodeNibble(data[2 * k]).Some? && DecodeNibble(data[2 * k + 1]).Some?
  }

  /** The byte decoded from pair k. */
  function PairByte(data: seq<byte>, k: nat): byte
    requires 2 * k + 1 < |data|
    requires PairValid(data, k)
  {
    Combine(DecodeNibble(data[2 * k]).value, DecodeNibble(data[2 * k + 1]).value)
  }

  /** The index of the first pair, from pair k on, that does not decode. */
  function FirstBadPair(data: seq<byte>, k: nat): (r: Option<nat>)
    requires k <= |data| / 2
    ensures r.Some? ==> k <= r.value < |data| / 2 && !PairValid(data, r.value)
    ensures r.Some? ==> forall j :: k <= j < r.value ==> PairValid(data, j)
    ensures r.None? ==> forall j :: k <= j < |data| / 2 ==> PairValid(data, j)
    decreases |data| / 2 - k
  {
    if k == |data| / 2 then None
    else if DecodeNibble(data[2 * k]).None? || DecodeNibble(data[2 * k + 1]).None? then Some(k)
    else FirstBadPair(data, k + 1)
  }

  /** What decode_hex returns: every whole pair decoded, or the first pair that does not
      decode, reported by its byte offset and its two bytes. */
  function HexDecoded(data: seq<byte>): (r: Result<seq<byte>>)
    ensures !r.Panic?
    ensures r.Ok? <==> forall k :: 0 <= k < |data| / 2 ==> PairValid(data, k)
    ensures r.Ok? ==> |r.value| == |data| / 2 && forall k :: 0 <= k < |data| / 2 ==> r.value[k] == PairByte(data, k)
    ensures r.Err? ==> exists i :: 0 <= i < |data| / 2 && (forall j :: 0 <= j < i ==> PairValid(data, j)) &&
                                   !PairValid(data, i) && r.error == HexDecode(2 * i, data[2 * i], data[2 * i + 1])
  {
    match FirstBadPair(data, 0)
    case Some(i) => Err(HexDecode(2 * i, data[2 * i], data[2 * i + 1]))
    case None => Ok(seq(|data| / 2, k requires 0 <= k < |data| / 2 && PairValid(data, k) => PairByte(data, k)))
  }

  /** decode_hex: walks the input two bytes at a time (an odd last byte is never visited). */
  method DecodeHex(data: seq<byte>) returns (r: Result<seq<byte>>)
    ensures r == HexDecoded(data)
  {
    var out: seq<byte> := [];
    var i := 0;
    while i < |data| / 2
      invariant 0 <= i <= |data| / 2
      invariant |out| == i
      invariant forall j :: 0 <= j < i ==> PairValid(data, j) && out[j] == PairByte(data, j)
    {
      var high, low := data[2 * i], data[2 * i + 1];
      var l, h := DecodeNibble(low), DecodeNibble(high);
      if l.Some? && h.Some? {
        out := out + [Combine(h.value, l.value)];
      } else {
        assert !PairValid(data, i);
        assert FirstBadPair(data, 0) == Some(i);
        return Err(HexDecode(i * 2, high, low));
      }
      i := i + 1;
    }
    assert forall j :: 0 <= j < |data| / 2 ==> PairValid(data, j);
    assert FirstBadPair(data, 0).None?;
    assert HexDecoded(data).value == out;
    r := Ok(out);
  }

  /** An upper-case hexadecimal digit, the reference encoding of a nibble. */
  function HexDigit(n: byte): (c: byte)
    requires n < 16
    ensures DecodeNibble(c) == Some(n)
  {
    if n < 10 then 0x30 + n else 0x41 + n - 10
  }

  function HexEncode(b: seq<byte>): (h: seq<byte>)
    ensures |h| == 2 * |b|
    ensures forall k :: 0 <= k < |b| ==> h[2 * k] == HexDigit(b[k] / 16) && h[2 * k + 1] == HexDigit(b[k] % 16)
  {
    if b == [] then [] else [HexDigit(b[0] / 16), HexDigit(b[0] % 16)] + HexEncode(b[1..])
  }

  /** Hex decoding inverts hex encoding. */
  lemma HexRoundTrip(b: seq<byte>)
    ensures HexDecoded(HexEncode(b)) == Ok(b)
  {
    var h := HexEncode(b);
    forall k | 0 <= k < |h| / 2 ensures PairValid(h, k) {
      assert h[2 * k] == HexDigit(b[k] / 16) && h[2 * k + 1] == HexDigit(b[k] % 16);
    }
    assert FirstBadPair(h, 0).None?;
    var r := HexDecoded(h).value;
    assert |r| == |b|;
    forall k | 0 <= k < |b| ensures r[k] == b[k] {
      assert h[2 * k] == HexDigit(b[k] / 16) && h[2 * k + 1] == HexDigit(b[k] % 16);
      assert PairValid(h, k);
      assert r[k] == PairByte(h, k);
      CombineNibbles(b[k] / 16, b[k] % 16);
    }
    assert r == b;
  }

  lemma {:induction false} FirstBadPairIgnoresOddByte(data: seq<byte>, x: byte, k: nat)
    requires |data| % 2 == 0 && k <= |data| / 2
    ensures FirstBadPair(data + [x], k) == FirstBadPair(data, k)
    decreases |data| / 2 - k
  {
    var d := data + [x];
    assert |d| / 2 == |data| / 2;
    if k < |data| / 2 {
      assert d[2 * k] == data[2 * k] && d[2 * k + 1] == data[2 * k + 1];
      FirstBadPairIgnoresOddByte(data, x, k + 1);
    }
  }

  /** An odd trailing byte is silently dropped, whatever it is. */
  lemma HexOddByteIgnored(data: seq<byte>, x: byte)
    requires |data| % 2 == 0
    ensures HexDecoded(data + [x]) == HexDecoded(data)
  {
    FirstBadPairIgnoresOddByte(data, x, 0);
    var d := data + [x];
    if FirstBadPair(data, 0).None? {
      var r1, r2 := HexDecoded(d).value, HexDecoded(data).value;
      forall k | 0 <= k < |data| / 2 ensures r1[k] == r2[k] {
        assert d[2 * k] == data[2 * k] && d[2 * k + 1] == data[2 * k + 1];
        assert r1[k] == PairByte(d, k) && r2[k] == PairByte(data, k);
      }
      assert r1 == r2;
    }
  }

  /** No whitespace is skipped: a space inside a pair is a decode error at that pair. */
  lemma HexSpaceIsAnError()
    ensures HexDecoded([0x41, 0x20, 0x42, 0x43]) == Err(HexDecode(0, 0x41, 0x20))
  {
  }

  /** `g` is accepted as the nibble 16, and `g0` decodes to 0x00 because the shift drops the
      fifth bit. */
  lemma HexAcceptsG()
    ensures DecodeNibble(0x67) == Some(16)
    ensures HexDecoded([0x67, 0x30]) == Ok([0])
  {
    var d: seq<byte> := [0x67, 0x30];
    assert Combine(16, 0) == 0;
    assert FirstBadPair(d, 1) == None;
    assert FirstBadPair(d, 0) == None;
    assert PairByte(d, 0) == 0;
    assert HexDecoded(d).value[0] == PairByte(d, 0);
    assert HexDecoded(d).value == [0];
  }

  // ---------------------------------------------------------------------------------------
  // ASCII85Decode

  const Z: byte := 0x7a       // 'z'
  const U: byte := 0x75       // 'u'
  const Tilde: byte := 0x7e   // '~'
  const Gt: byte := 0x3e      // '>'

  /** sym_85: the digit value of the bytes 0x21..0x75. */
  function Sym85(b: byte): (r: Option<byte>)
    ensures r.Some? <==> 0x21 <= b <= 0x75
    ensures r.Some? ==> r.value as int == b as int - 0x21 && r.value < 85
  {
    if 0x21 <= b <= 0x75 then Some(b - 0x21) else None
  }

  /** When word_85 can be called without the slice `input[1..5]` panicking. */
  predicate Word85Defined(input: seq<byte>)
  {
    |input| == 0 || input[0] == Z || |input| >= 5
  }

  /** The four big-endian bytes of a u32. */
  function BigEndian32(q: nat): (w: seq<byte>)
    requires q < 0x1_0000_0000
    ensures |w| == 4
  {
    [(q / 0x100_0000) as byte, ((q / 0x1_0000) % 256) as byte, ((q / 0x100) % 256) as byte, (q % 256) as byte]
  }

  /** The u32 that word_85 accumulates: the first four symbols are summed, each times 85,
      and the fifth byte is added raw, without sym_85. */
  function Word85Sum(a: byte, b: byte, c: byte, d: byte, e: byte): nat
    requires a < 85 && b < 85 && c < 85 && d < 85
  {
    85 * (a as nat + b as nat + c as nat + d as nat) + e as nat
  }

  /** word_85: `z` is one all-zero word; otherwise five bytes make one word, or None when one
      of the first four is not a symbol. */
  function Word85(input: seq<byte>): (r: Option<(nat, seq<byte>)>)
    requires Word85Defined(input)
    ensures r.Some? ==> |r.value.1| == 4 && 1 <= r.value.0 <= |input|
    ensures |input| > 0 && input[0] == Z ==> r == Some((1, [0, 0, 0, 0]))
    ensures |input| > 0 && input[0] != Z ==>
      (r.Some? <==> forall k :: 0 <= k < 4 ==> Sym85(input[k]).Some?)
    ensures r.Some? && input[0] != Z ==>
      r.value.0 == 5 && r.value.1[0] == 0 && r.value.1[1] == 0 &&
      r.value.1[2] as int * 256 + r.value.1[3] as int ==
        Word85Sum(Sym85(input[0]).value, Sym85(input[1]).value, Sym85(input[2]).value, Sym85(input[3]).value, input[4])
  {
    if |input| == 0 then None
    else if input[0] == Z then Some((1, [0, 0, 0, 0]))
    else match (Sym85(input[0]), Sym85(input[1]), Sym85(input[2]), Sym85(input[3]))
      case (Some(a), Some(b), Some(c), Some(d)) =>
        var q := Word85Sum(a, b, c, d, input[4]);
        assert q < 0x1_0000;
        Some((5, BigEndian32(q)))
      case _ => None
  }

  /** substr(data, b"~>"): the first position, from `from` on, where `~>` starts. */
  function FindTerminator(s: seq<byte>, from: nat): (r: Option<nat>)
    ensures r.Some? ==> from <= r.value && r.value + 2 <= |s| && s[r.value] == Tilde && s[r.value + 1] == Gt
    ensures r.Some? ==> forall j :: from <= j < r.value ==> !(s[j] == Tilde && s[j + 1] == Gt)
    ensures r.None? ==> forall j :: from <= j && j + 2 <= |s| ==> !(s[j] == Tilde && s[j + 1] == Gt)
    decreases |s| - from
  {
    if from + 2 > |s| then None
    else if s[from] == Tilde && s[from + 1] == Gt then Some(from)
    else FindTerminator(s, from + 1)
  }

  /** The output of the group loop and the position it stopped at. */
  datatype GroupScan = GroupScan(out: seq<byte>, pos: nat)

  /** The group loop of decode_85 from `pos`: words while word_85 succeeds; None when
      word_85 is handed a remainder it panics on. */
  function Groups85(data: seq<byte>, pos: nat): (g: Option<GroupScan>)
    requires pos <= |data|
    ensures g.Some? ==> pos <= g.value.pos <= |data|
    decreases |data| - pos
  {
    var rest := data[pos..];
    if !Word85Defined(rest) then None
    else match Word85(rest)
      case None => Some(GroupScan([], pos))
      case Some((advance, word)) =>
        match Groups85(data, pos + advance)
        case None => None
        case Some(g) => Some(GroupScan(word + g.out, g.pos))
  }

  function Prefixed(out: seq<byte>, g: Option<GroupScan>): Option<GroupScan>
  {
    match g
    case None => None
    case Some(s) => Some(GroupScan(out + s.out, s.pos))
  }

  lemma PrefixedAppend(a: seq<byte>, b: seq<byte>, g: Option<GroupScan>)
    ensures Prefixed(a, Prefixed(b, g)) == Prefixed(a + b, g)
    ensures Prefixed([], g) == g
  {
    if g.Some? {
      assert a + (b + g.value.out) == (a + b) + g.value.out;
      assert [] + g.value.out == g.value.out;
    }
  }

  /** The tail of decode_85 after the group loop stopped at g.pos. */
  function Tail85(data: seq<byte>, g: GroupScan): Result<seq<byte>>
    requires g.pos <= |data|
  {
    var rest := data[g.pos..];
    match FindTerminator(rest, 0)
    case None => Err(Ascii85TailError)
    case Some(tailLen) =>
      if tailLen >= 5 then Panic
      else
        var tail := rest[..tailLen] + Repeat(U, 5 - tailLen);
        match Word85(tail)
        case None => Err(Ascii85TailError)
        case Some((_, last)) => if tailLen == 0 then Panic else Ok(g.out + last[..tailLen - 1])
  }

  /** What decode_85 returns. */
  function Ascii85Decoded(data: seq<byte>): Result<seq<byte>>
  {
    match Groups85(data, 0)
    case None => Panic
    case Some(g) => Tail85(data, g)
  }

  /** decode_85. */
  method Decode85(data: seq<byte>) returns (r: Result<seq<byte>>)
    ensures r == Ascii85Decoded(data)
  {
    var out: seq<byte> := [];
    var pos: nat := 0;
    PrefixedAppend([], [], Groups85(data, 0));
    while true
      invariant pos <= |data|
      invariant Groups85(data, 0) == Prefixed(out, Groups85(data, pos))
      decreases |data| - pos
    {
      var rest := data[pos..];
      if !Word85Defined(rest) {
        return Panic;  // the slice input[1..5] of word_85
      }
      var w := Word85(rest);
      if w.None? {
        break;
      }
      assert Groups85(data, pos) == Prefixed(w.value.1, Groups85(data, pos + w.value.0));
      PrefixedAppend(out, w.value.1, Groups85(data, pos + w.value.0));
      out := out + w.value.1;
      pos := pos + w.value.0;
    }
    var g := GroupScan(out, pos);
    assert Groups85(data, pos) == Some(GroupScan([], pos));
    assert out + [] == out;
    assert Groups85(data, 0) == Some(g);
    var rest := data[pos..];
    var found := FindTerminator(rest, 0);
    if found.None? {
      return Err(Ascii85TailError);
    }
    var tailLen := found.value;
    if tailLen >= 5 {
      return Panic;  // assert!(tail_len < 5)
    }
    // The check `data.len() < pos + tail_len` cannot fire: the terminator lies inside data[pos..].
    var tail := rest[..tailLen] + Repeat(U, 5 - tailLen);
    var last := Word85(tail);
    if last.None? {
      return Err(Ascii85TailError);
    }
    if tailLen == 0 {
      return Panic;  // tail_len - 1 underflows
    }
    r := Ok(out + last.value.1[..tailLen - 1]);
  }

  /** Every word of the group loop has zero high bytes: a `z` word is all zero and a five-byte
      word is below 0x1_0000, so bytes 0 and 1 of each four are always 0. */
  lemma {:induction false} GroupHighBytesZero(data: seq<byte>, pos: nat)
    requires pos <= |data|
    requires Groups85(data, pos).Some?
    ensures |Groups85(data, pos).value.out| % 4 == 0
    ensures forall i :: 0 <= i < |Groups85(data, pos).value.out| && i % 4 < 2 ==> Groups85(data, pos).value.out[i] == 0
    decreases |data| - pos
  {
    var rest := data[pos..];
    match Word85(rest)
    case None =>
    case Some((advance, word)) =>
      GroupHighBytesZero(data, pos + advance);
      var tl := Groups85(data, pos + advance).value.out;
      var out := Groups85(data, pos).value.out;
      assert out == word + tl;
      assert word[0] == 0 && word[1] == 0;
      assert |out| == |tl| + 4 && (|tl| + 4) % 4 == |tl| % 4;
      forall i | 0 <= i < |out| && i % 4 < 2 ensures out[i] == 0 {
        if i >= 4 {
          assert (i - 4) % 4 == i % 4;
          assert out[i] == tl[i - 4];
        } else {
          assert out[i] == word[i];
        }
      }
  }

  /** Where the group loop stops: at the end of the input, or at five or more bytes whose
      first is not `z` and whose first four are not all symbols. */
  lemma {:induction false} GroupsStop(data: seq<byte>, pos: nat)
    requires pos <= |data|
    requires Groups85(data, pos).Some?
    ensures var rest := data[Groups85(data, pos).value.pos..];
      |rest| == 0 || (rest[0] != Z && |rest| >= 5 && exists k :: 0 <= k < 4 && Sym85(rest[k]).None?)
    decreases |data| - pos
  {
    match Word85(data[pos..])
    case None =>
    case Some((advance, _)) =>
      GroupsStop(data, pos + advance);
  }

  /** Every byte is an ASCII85 symbol. */
  predicate AllSymbols(s: seq<byte>)
  {
    forall k :: 0 <= k < |s| ==> Sym85(s[k]).Some?
  }

  /** How decode_85 ends once the group loop stopped at g, unless a tail of one to four
      bytes precedes `~>`: no `~>` is an error, a `~>` right there or five or more bytes on
      panics. */
  lemma Ascii85TailCases(data: seq<byte>, g: GroupScan)
    requires Groups85(data, 0) == Some(g)
    ensures FindTerminator(data[g.pos..], 0).None? ==> Ascii85Decoded(data) == Err(Ascii85TailError)
    ensures FindTerminator(data[g.pos..], 0) == Some(0) ==> Ascii85Decoded(data) == Panic
    ensures FindTerminator(data[g.pos..], 0).Some? && FindTerminator(data[g.pos..], 0).value >= 5 ==>
      Ascii85Decoded(data) == Panic
  {
  }

  /** The padded tail makes a word exactly when its own bytes are symbols (`u` is one). */
  lemma PaddedTailWord(head: seq<byte>)
    requires 1 <= |head| < 5 && head[0] != Z
    ensures Word85(head + Repeat(U, 5 - |head|)).Some? <==> AllSymbols(head)
  {
    var tail := head + Repeat(U, 5 - |head|);
    assert forall k :: 0 <= k < 5 ==> tail[k] == if k < |head| then head[k] else U;
    assert tail[0] != Z;
  }

  /** A tail of n = 1..4 bytes before `~>`: decode_85 succeeds exactly when they are all
      symbols, and then appends the first n - 1 bytes of the word they make padded with `u`;
      otherwise it is an error. */
  lemma Ascii85ShortTailCases(data: seq<byte>, g: GroupScan, n: nat)
    requires Groups85(data, 0) == Some(g)
    requires FindTerminator(data[g.pos..], 0) == Some(n) && 1 <= n < 5
    ensures Ascii85Decoded(data).Ok? <==> AllSymbols(data[g.pos..g.pos + n])
    ensures var tail := data[g.pos..g.pos + n] + Repeat(U, 5 - n);
      Ascii85Decoded(data).Ok? ==> Word85(tail).Some? && Ascii85Decoded(data) == Ok(g.out + Word85(tail).value.1[..n - 1])
    ensures !Ascii85Decoded(data).Ok? ==> Ascii85Decoded(data) == Err(Ascii85TailError)
  {
    GroupsStop(data, 0);
    var rest := data[g.pos..];
    assert rest[..n] == data[g.pos..g.pos + n];
    assert rest[0] != Z;
    PaddedTailWord(rest[..n]);
    assert Ascii85Decoded(data) == Tail85(data, g);
  }

  /** A terminator right after the last group is never accepted: `~>` alone panics in word_85,
      and after five more bytes the empty tail underflows `tail_len - 1`. */
  lemma Ascii85BareTerminator()
    ensures Ascii85Decoded([Tilde, Gt]) == Panic
    ensures Ascii85Decoded([Z, Tilde, Gt, 0x0a, 0x0a, 0x0a]) == Panic
  {
    var d := [Z, Tilde, Gt, 0x0a, 0x0a, 0x0a];
    assert d[1..] == [Tilde, Gt, 0x0a, 0x0a, 0x0a];
    assert Groups85(d, 1) == Some(GroupScan([], 1));
    assert FindTerminator(d[1..], 0) == Some(0);
  }

  /** A two-symbol tail decodes to tail_len - 1 = 1 byte once at least five bytes remain. */
  lemma Ascii85ShortTail()
    ensures Ascii85Decoded([0x21, 0x21, Tilde, Gt, 0x0a]) == Ok([0])
  {
    var d := [0x21, 0x21, Tilde, Gt, 0x0a];
    assert Groups85(d, 0) == Some(GroupScan([], 0));
    assert d[0..] == d;
    assert FindTerminator(d, 0) == Some(2) by {
      assert FindTerminator(d, 2) == Some(2);
      assert FindTerminator(d, 1) == Some(2);
    }
    var tail := d[..2] + Repeat(U, 3);
    assert tail == [0x21, 0x21, U, U, U];
    var last := Word85(tail).value.1;
    assert last[0] == 0;
    assert last[..1] == [0];
    assert Word85(tail) == Some((5, last));
    assert Tail85(d, GroupScan([], 0)) == Ok([] + last[..1]);
    assert Ascii85Decoded(d) == Tail85(d, GroupScan([], 0));
    assert [] + last[..1] == [0];
  }

  /** Without a terminator the tail is an error: the empty input, and one whole group. */
  lemma Ascii85MissingTerminator()
    ensures Ascii85Decoded([]) == Err(Ascii85TailError)
    ensures Ascii85Decoded([0x21, 0x21, 0x21, 0x21, 0x21]) == Err(Ascii85TailError)
  {
    var d: seq<byte> := [0x21, 0x21, 0x21, 0x21, 0x21];
    assert d[5..] == [];
    assert Groups85(d, 5) == Some(GroupScan([], 5));
    assert d[0..] == d;
    assert Groups85(d, 0).Some? && Groups85(d, 0).value.pos == 5;
  }
}

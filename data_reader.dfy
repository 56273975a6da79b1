/** The byte cursor (`DataReader`): an immutable byte buffer and a `pointer`
    that every read moves forward. Each read is specified by a function of the
    buffer and the pointer before the read (`...At`), and the `Reader` methods
    are proved to do what those functions say. */
module DataReader {
  import opened Text
  import opened Failures

  // ---------------------------------------------------------------- numbers

  /** The integer kinds of `readNumber`/`readBigNumber` (the float kinds are
      not modelled). */
  datatype NumberType = Uint8 | Int8 | Uint16 | Int16 | Uint32 | Int32 | BigUint64 | BigInt64

  /** `NumSizes`: the byte width of each kind. */
  function Size(t: NumberType): nat
  {
    match t
    case Uint8 => 1
    case Int8 => 1
    case Uint16 => 2
    case Int16 => 2
    case Uint32 => 4
    case Int32 => 4
    case BigUint64 => 8
    case BigInt64 => 8
  }

  predicate IsSigned(t: NumberType)
  {
    t.Int8? || t.Int16? || t.Int32? || t.BigInt64?
  }

  function Pow2(n: nat): (r: nat)
    ensures r >= 1
  {
    if n == 0 then 1 else 2 * Pow2(n - 1)
  }

  function Pow256(n: nat): (r: nat)
    ensures r >= 1
  {
    if n == 0 then 1 else 256 * Pow256(n - 1)
  }

  /** Unsigned value of bytes stored least significant first. */
  function LittleEndian(bs: seq<byte>): (v: nat)
    ensures v < Pow256(|bs|)
  {
    if bs == [] then 0 else bs[0] + 256 * LittleEndian(bs[1..])
  }

  /** Unsigned value of bytes stored most significant first. */
  function BigEndian(bs: seq<byte>): (v: nat)
    ensures v < Pow256(|bs|)
  {
    if bs == [] then 0 else BigEndian(bs[..|bs| - 1]) * 256 + bs[|bs| - 1]
  }

  function Reverse<T>(s: seq<T>): (r: seq<T>)
    ensures |r| == |s|
    ensures forall i :: 0 <= i < |s| ==> r[i] == s[|s| - 1 - i]
  {
    if s == [] then [] else Reverse(s[1..]) + [s[0]]
  }

  /** Reading the reversed bytes most significant first is reading the bytes
      least significant first. */
  lemma {:induction false} BigEndianOfReverse(bs: seq<byte>)
    ensures BigEndian(Reverse(bs)) == LittleEndian(bs)
  {
    if bs != [] {
      var r := Reverse(bs);
      assert r[..|r| - 1] == Reverse(bs[1..]);
      BigEndianOfReverse(bs[1..]);
    }
  }

  /** What a DataView getter returns for the bytes of one number. */
  function DecodeNumber(t: NumberType, bs: seq<byte>, littleEndian: bool): (v: int)
    requires |bs| == Size(t)
    ensures !IsSigned(t) ==> 0 <= v < Pow256(Size(t))
  {
    var u := if littleEndian then LittleEndian(bs) else BigEndian(bs);
    if IsSigned(t) && 2 * u >= Pow256(Size(t)) then u - Pow256(Size(t)) else u
  }

  /** `readNumber`/`readBigNumber` at pointer `p`: the DataView getter fails
      (RangeError) unless all `Size(t)` bytes lie inside the buffer. */
  function NumberAt(data: seq<byte>, p: int, t: NumberType, littleEndian: bool): (r: Result<int>)
    ensures r.Ok? <==> 0 <= p && p + Size(t) <= |data|
    ensures r.Ok? && !IsSigned(t) ==> 0 <= r.value < Pow256(Size(t))
    ensures r.Err? ==> r.error == BufferUnderrun
  {
    if 0 <= p && p + Size(t) <= |data| then Ok(DecodeNumber(t, data[p..p + Size(t)], littleEndian))
    else Err(BufferUnderrun)
  }

  /** A little-endian Uint16 over bytes b0, b1 is b0 + 256 * b1; a Uint32 is
      the weighted sum of its four bytes. */
  lemma LittleEndianWords(data: seq<byte>, p: int)
    requires 0 <= p && p + 4 <= |data|
    ensures var b0: int, b1: int, b2: int, b3: int := data[p], data[p + 1], data[p + 2], data[p + 3];
            && NumberAt(data, p, Uint16, true) == Ok(b0 + 256 * b1)
            && NumberAt(data, p, Uint32, true) == Ok(b0 + 256 * b1 + 65536 * b2 + 16777216 * b3)
  {
    var b0: int, b1: int, b2: int, b3: int := data[p], data[p + 1], data[p + 2], data[p + 3];
    var w := data[p..p + 2];
    assert w[1..][1..] == [];
    assert LittleEndian(w) == b0 + 256 * b1;
    var d := data[p..p + 4];
    assert d[1..][1..][1..][1..] == [];
    assert LittleEndian(d[1..][1..][1..]) == b3;
    assert LittleEndian(d[1..][1..]) == b2 + 256 * b3;
    assert LittleEndian(d[1..]) == b1 + 256 * b2 + 65536 * b3;
  }

  /** Signed kinds read two's complement: the result lies in the signed range
      of the width, and equals the unsigned reading less 256^width when it is
      negative. */
  lemma SignedNumberRange(data: seq<byte>, p: int, t: NumberType, littleEndian: bool)
    requires IsSigned(t) && 0 <= p && p + Size(t) <= |data|
    ensures var v := NumberAt(data, p, t, littleEndian).value;
            var u := NumberAt(data, p, Unsigned(t), littleEndian).value;
            && Pow256(Size(t)) + 2 * v >= 0 && 2 * v < Pow256(Size(t))
            && (if v < 0 then v == u - Pow256(Size(t)) else v == u)
  {
  }

  /** The unsigned kind of the same width. */
  function Unsigned(t: NumberType): (u: NumberType)
    ensures Size(u) == Size(t) && !IsSigned(u)
  {
    match t
    case Int8 => Uint8
    case Int16 => Uint16
    case Int32 => Uint32
    case BigInt64 => BigUint64
    case _ => t
  }

  // ------------------------------------------------------------ ArrayBuffer

  /** An index argument of `ArrayBuffer.prototype.slice`: negative counts
      from the end, and everything is clamped to the buffer. */
  function ClampIndex(i: int, len: nat): (r: nat)
    ensures r <= len
  {
    if i < 0 then (if len + i < 0 then 0 else len + i)
    else if i > len then len else i
  }

  /** `buffer.slice(start, end)`: never fails; out-of-range parts are cut off. */
  function SliceOf(data: seq<byte>, start: int, end: int): (r: seq<byte>)
    ensures 0 <= start <= end <= |data| ==> r == data[start..end]
    ensures |r| <= |data|
  {
    var s := ClampIndex(start, |data|);
    var e := ClampIndex(end, |data|);
    if s < e then data[s..e] else []
  }

  // ---------------------------------------------------- arbitrary widths

  /** The 32-bit pattern that `value <<= 8; value |= b` leaves after each byte
      of `bs` (the JavaScript bit operators work on 32-bit integers). */
  function Acc32(bs: seq<byte>): (u: nat)
    ensures u < 0x1_0000_0000
  {
    if bs == [] then 0 else (Acc32(bs[..|bs| - 1]) * 256) % 0x1_0000_0000 + bs[|bs| - 1]
  }

  /** ToInt32 of a 32-bit pattern. */
  function ToInt32(u: int): (v: int)
    ensures -0x8000_0000 <= v < 0x8000_0000
  {
    var m := u % 0x1_0000_0000;
    if m >= 0x8000_0000 then m - 0x1_0000_0000 else m
  }

  /** `readCustomNumber(bytes, signed)` once the bytes are in most-significant
      first order. `bytes` is the requested count (used by the sign mask) and
      `bs` what the clamped slice produced. The mask `2 << (bytes*8 - 1)` is a
      32-bit shift, so its shift count is taken modulo 32: the mask is bit
      `j` with j = ((8*bytes - 1) mod 32) + 1, or 0 when j is 32. */
  function CustomValue(bs: seq<byte>, bytes: nat, signed: bool): (v: int)
    ensures -0x8000_0000 <= v < 0x8000_0000
  {
    var u := Acc32(bs);
    var j := (8 * bytes - 1) % 32 + 1;
    if signed && j < 32 && Shr(u, j) % 2 == 1 then
      LowBitsBound(u, j);
      Pow2Below32(j);
      -(LowBits(u, j) as int)
    else ToInt32(u)
  }

  /** `u >> j`, that is `u / 2^j`, one bit at a time. */
  function Shr(u: nat, j: nat): nat
  {
    if j == 0 then u else Shr(u / 2, j - 1)
  }

  /** `u & (2^j - 1)`, that is `u % 2^j`: the low `j` bits of `u`. */
  function LowBits(u: nat, j: nat): nat
  {
    if j == 0 then 0 else u % 2 + 2 * LowBits(u / 2, j - 1)
  }

  lemma {:induction false} LowBitsBound(u: nat, j: nat)
    ensures LowBits(u, j) < Pow2(j) && LowBits(u, j) <= u
  {
    if j > 0 {
      LowBitsBound(u / 2, j - 1);
    }
  }

  /** The shift and the mask are the quotient and the remainder by 2^j. */
  lemma {:induction false} ShrIsDiv(u: nat, j: nat)
    ensures Shr(u, j) == u / Pow2(j) && LowBits(u, j) == u % Pow2(j)
  {
    if j > 0 {
      var m := Pow2(j - 1);
      var q := u / 2;
      ShrIsDiv(q, j - 1);
      var k := q / m;
      var r := 2 * (q % m) + u % 2;
      assert u == 2 * q + u % 2;
      assert q == m * k + q % m;
      assert u == (2 * m) * k + r by {
        assert 2 * q == 2 * (m * k) + 2 * (q % m);
        assert 2 * (m * k) == (2 * m) * k;
      }
      DivModUnique(u, 2 * m, k, r);
    }
  }

  lemma DivModUnique(a: int, d: int, k: int, r: int)
    requires 0 < d && a == d * k + r && 0 <= r < d
    ensures a / d == k && a % d == r
  {
    var q, s := a / d, a % d;
    assert d * q + s == d * k + r;
    assert d * (q - k) == r - s by {
      assert d * (q - k) == d * q - d * k;
    }
    if q - k > 0 {
      MulGrows(d, q - k);
    } else if q - k < 0 {
      MulGrows(d, k - q);
    }
  }

  lemma {:induction false} MulGrows(d: nat, x: nat)
    requires x >= 1
    ensures d * x >= d
  {
    if x > 1 {
      MulGrows(d, x - 1);
      assert d * x == d * (x - 1) + d;
    }
  }

  /** A mask below bit 32 is at most 2^31. */
  lemma Pow2Below32(j: nat)
    requires j < 32
    ensures Pow2(j) <= 0x8000_0000
  {
    Pow2Monotone(j, 31);
    Pow2Add(24, 7);
    SmallPowers();
  }

  lemma {:induction false} Pow2Monotone(i: nat, j: nat)
    requires i <= j
    ensures Pow2(i) <= Pow2(j)
    decreases j
  {
    if i < j {
      Pow2Monotone(i, j - 1);
    }
  }

  lemma {:induction false} Acc32IsBigEndianMod(bs: seq<byte>)
    ensures Acc32(bs) == BigEndian(bs) % 0x1_0000_0000
  {
    if bs != [] {
      var init := bs[..|bs| - 1];
      Acc32IsBigEndianMod(init);
      Acc32Step(BigEndian(init), bs[|bs| - 1]);
    }
  }

  /** One step of the 32-bit accumulation agrees with the unbounded one
      modulo 2^32. */
  lemma Acc32Step(x: nat, c: byte)
    ensures ((x % 0x1_0000_0000) * 256) % 0x1_0000_0000 + c == (x * 256 + c) % 0x1_0000_0000
  {
    var r := x % 0x1_0000_0000;
    var q := x / 0x1_0000_0000;
    var s := (r * 256) % 0x1_0000_0000;
    Mod256Split(r);
    assert s <= 0x1_0000_0000 - 256;
    var q2 := (r * 256) / 0x1_0000_0000;
    assert r * 256 == q2 * 0x1_0000_0000 + s;
    assert x * 256 + c == (256 * q + q2) * 0x1_0000_0000 + (s + c);
    ModUnique(x * 256 + c, 256 * q + q2, s + c);
  }

  lemma ModUnique(a: int, k: int, s: int)
    requires a == k * 0x1_0000_0000 + s && 0 <= s < 0x1_0000_0000
    ensures a % 0x1_0000_0000 == s
  {
  }

  lemma Mod256Split(b: nat)
    ensures (b * 256) % 0x1_0000_0000 == (b % 16777216) * 256
  {
    var q := b / 16777216;
    var r := b % 16777216;
    assert b * 256 == q * 0x1_0000_0000 + r * 256;
    ModUnique(b * 256, q, r * 256);
  }

  /** A read of at most three bytes never sets the sign bit the mask tests,
      so `readCustomNumber` returns the plain little-endian value, signed or
      not; four bytes come back as a signed 32-bit integer whatever `signed`
      says (the mask is then 0). */
  lemma CustomNumberSmallWidths(bs: seq<byte>, signed: bool)
    requires 1 <= |bs| <= 4
    ensures |bs| <= 3 ==> CustomValue(Reverse(bs), |bs|, signed) == LittleEndian(bs)
    ensures |bs| == 4 ==> CustomValue(Reverse(bs), 4, signed) == ToInt32(LittleEndian(bs))
  {
    var r := Reverse(bs);
    var le := LittleEndian(bs);
    BigEndianOfReverse(bs);
    Acc32IsBigEndianMod(r);
    Pow256Monotone(|bs|, 4);
    assert Pow256(4) == 0x1_0000_0000 by { SmallPowers(); }
    ModSmall(le);
    assert Acc32(r) == le;
    CustomValueBelowMask(r, |bs|, signed);
  }

  /** For one to three requested bytes the mask is bit 8, 16 or 24, which
      a value of that many bytes never reaches; for four it is 0. */
  lemma CustomValueBelowMask(bs: seq<byte>, bytes: nat, signed: bool)
    requires 1 <= bytes <= 4 && Acc32(bs) < Pow256(bytes)
    ensures bytes <= 3 ==> CustomValue(bs, bytes, signed) == Acc32(bs)
    ensures bytes == 4 ==> CustomValue(bs, bytes, signed) == ToInt32(Acc32(bs))
  {
    if bytes <= 3 {
      var j := 8 * bytes;
      assert (8 * bytes - 1) % 32 + 1 == j;
      assert Pow2(j) == Pow256(bytes) <= 16777216 by {
        SmallPowers();
        if bytes == 1 {} else if bytes == 2 {} else {}
      }
      SignBitClear(Acc32(bs), Pow2(j));
      ShrIsDiv(Acc32(bs), j);
    }
  }

  /** A value below 2^24 has a clear sign bit at its own width and is its
      own Int32 reading. */
  lemma SignBitClear(u: int, p: int)
    requires 0 <= u < p <= 16777216
    ensures (u / p) % 2 == 0 && ToInt32(u) == u
  {
    DivSmall(u, p);
    ModSmall(u);
  }



  lemma SmallPowers()
    ensures Pow2(8) == 256 && Pow2(16) == 65536 && Pow2(24) == 16777216
    ensures Pow256(1) == 256 && Pow256(2) == 65536 && Pow256(3) == 16777216 && Pow256(4) == 0x1_0000_0000
  {
  }

  lemma ModSmall(x: nat)
    requires x < 0x1_0000_0000
    ensures x % 0x1_0000_0000 == x
  {
  }

  lemma DivSmall(v: int, m: int)
    requires 0 <= v < m
    ensures v / m == 0
  {
  }

  lemma {:induction false} Pow2Add(a: nat, b: nat)
    ensures Pow2(a + b) == Pow2(a) * Pow2(b)
  {
    if a > 0 {
      Pow2Add(a - 1, b);
    }
  }

  /** The sign mask of `readBigCustomNumber`: `2n << (bytes*8 - 1)` is bit
      8*bytes; for zero bytes the shift count is -1 and the mask is 1. */
  function BigMask(bytes: nat): nat
  {
    Pow2(BigShift(bytes))
  }

  function BigShift(bytes: nat): nat
  {
    if bytes == 0 then 0 else 8 * bytes
  }

  /** `readBigCustomNumber(bytes, signed)` once the bytes are in
      most-significant-first order (BigInt arithmetic is unbounded). */
  function BigCustomValue(bs: seq<byte>, bytes: nat, signed: bool): (v: int)
    ensures var u: int := BigEndian(bs); -u <= v <= u
    ensures v < 0 ==> signed
  {
    var v := BigEndian(bs);
    var k := BigShift(bytes);
    if signed && Shr(v, k) % 2 == 1 then
      LowBitsBound(v, k);
      -(LowBits(v, k) as int)
    else v
  }

  lemma {:induction false} Pow256IsPow2(n: nat)
    ensures Pow256(n) == Pow2(8 * n)
  {
    if n > 0 {
      Pow256IsPow2(n - 1);
      Pow2Add(8, 8 * (n - 1));
      assert Pow2(8) == 256;
      assert 8 * n == 8 + 8 * (n - 1);
    }
  }

  lemma Pow256Monotone(a: nat, b: nat)
    requires a <= b
    ensures Pow256(a) <= Pow256(b)
    decreases b
  {
    if a < b {
      Pow256Monotone(a, b - 1);
    }
  }

  /** The sign test of `readBigCustomNumber` looks at bit 8*bytes, above every
      bit the bytes can set: a signed read never comes out negative and
      equals the unsigned read. */
  lemma SignedBigCustomIsUnsigned(bs: seq<byte>, bytes: nat)
    requires |bs| <= bytes
    ensures BigCustomValue(bs, bytes, true) == BigCustomValue(bs, bytes, false) == BigEndian(bs)
    ensures BigCustomValue(bs, bytes, true) >= 0
  {
    var v := BigEndian(bs);
    if bytes > 0 {
      Pow256IsPow2(bytes);
      Pow256Monotone(|bs|, bytes);
      DivSmall(v, BigMask(bytes));
      ShrIsDiv(v, BigShift(bytes));
    } else {
      assert bs == [];
    }
  }

  /** The byte 0xFF read as a signed one-byte number: two's complement says
      -1, the code gives 255. */
  lemma SignedBigCustomOfFF()
    ensures BigCustomValue([0xFF], 1, true) == 255
  {
    SignedBigCustomIsUnsigned([0xFF], 1);
    assert [0xFF][..0] == [];
  }

  /** Two's complement reading of most-significant-first bytes: what the
      signed branch evidently intends. The result is the unsigned value or
      that value less 256^n, lies in the signed range of n bytes, and is
      negative exactly when the leading byte has its top bit set. */
  function TwosComplement(bs: seq<byte>): (v: int)
    ensures v == BigEndian(bs) || v == BigEndian(bs) - Pow256(|bs|)
    ensures bs != [] ==> Pow256(|bs|) + 2 * v >= 0 && 2 * v < Pow256(|bs|)
    ensures bs != [] ==> (v < 0 <==> bs[0] >= 128)
  {
    var u := BigEndian(bs);
    if bs == [] then u
    else
      TopByteBound(bs);
      if bs[0] >= 128 then u - Pow256(|bs|) else u
  }

  /** The leading byte of a most-significant-first read decides whether the
      value reaches half the range. */
  lemma {:induction false} TopByteBound(bs: seq<byte>)
    requires bs != []
    ensures 2 * BigEndian(bs) >= Pow256(|bs|) <==> bs[0] >= 128
  {
    if |bs| == 1 {
      assert bs[..0] == [];
    } else {
      var init := bs[..|bs| - 1];
      TopByteBound(init);
      assert init[0] == bs[0];
      var x := BigEndian(init);
      var p := Pow256(|init|);
      assert Pow256(|bs|) == 256 * p;
      assert BigEndian(bs) == x * 256 + bs[|bs| - 1];
      assert p == 256 * Pow256(|init| - 1);
      if 2 * x >= p {
        assert 2 * BigEndian(bs) >= 256 * p;
      } else {
        assert 2 * x <= p - 2;
        assert 2 * BigEndian(bs) < 256 * p;
      }
    }
  }

  // ------------------------------------------------------- terminated text

  /** Index of the first `term` byte at or after `q`, scanning as `getUint8`
      does: `None` when the scan leaves the buffer first (RangeError). */
  function ScanFrom(data: seq<byte>, q: int, term: byte): (z: Option<nat>)
    ensures z.Some? ==> 0 <= q <= z.value < |data| && data[z.value] == term
    ensures z.Some? ==> forall i :: q <= i < z.value ==> data[i] != term
    ensures z.None? && 0 <= q ==> forall i :: q <= i < |data| ==> data[i] != term
    decreases |data| - q
  {
    if q < 0 || q >= |data| then None
    else if data[q] == term then Some(q)
    else ScanFrom(data, q + 1, term)
  }

  /** The text before the first `term` at or after `p`, and the pointer one
      past that terminator; the terminator is not part of the text. */
  function TerminatedAt(data: seq<byte>, p: int, term: byte): (r: Result<(string, int)>)
    ensures r.Ok? ==> var (s, q) := r.value;
              && 0 <= p < q <= |data| && data[q - 1] == term
              && s == Latin1(data[p..q - 1])
              && forall i :: 0 <= i < |s| ==> s[i] as int != term
    ensures r.Err? ==> r.error == BufferUnderrun
    ensures r.Err? && 0 <= p ==> forall i :: p <= i < |data| ==> data[i] != term
  {
    match ScanFrom(data, p, term)
    case None => Err(BufferUnderrun)
    case Some(z) => Ok((Latin1(data[p..z]), z + 1))
  }

  /** `readNullString` at pointer `p`. */
  function NullStringAt(data: seq<byte>, p: int): (r: Result<(string, int)>)
    ensures r.Ok? ==> var (s, q) := r.value;
              && 0 <= p < q <= |data| && data[q - 1] == 0
              && s == Latin1(data[p..q - 1])
              && forall i :: 0 <= i < |s| ==> s[i] as int != 0
    ensures r.Err? ==> r.error == BufferUnderrun
    ensures r.Err? && 0 <= p ==> forall i :: p <= i < |data| ==> data[i] != 0
  {
    TerminatedAt(data, p, 0)
  }

  // ------------------------------------------------------ generic readers

  /** The reader functions that `peek` and the `readArray` family are handed. */
  datatype ReadOp =
    | Number(t: NumberType)
    | CustomNumber(bytes: nat, signed: bool)
    | BigCustomNumber(bytes: nat, signed: bool)
    | Buffer(length: nat)
    | Text(length: nat)
    | NullString

  datatype Item = IntItem(i: int) | BytesItem(bytes: seq<byte>) | TextItem(text: string)

  /** Reversed when the cursor is little-endian, as the custom-number reads do. */
  function InReadOrder(bs: seq<byte>, littleEndian: bool): seq<byte>
  {
    if littleEndian then Reverse(bs) else bs
  }

  /** One read of `op` at pointer `p`: the value and the pointer after it.
      Every read moves the pointer forward by its width; only the reads that
      stop at the end can fail, and they never leave the buffer. */
  function ReadAt(op: ReadOp, data: seq<byte>, p: int, littleEndian: bool): (r: Result<(Item, int)>)
    ensures r.Ok? ==> var q := r.value.1;
            && (op.Number? ==> q == p + Size(op.t))
            && (op.CustomNumber? || op.BigCustomNumber? ==> q == p + op.bytes)
            && (op.Buffer? || op.Text? ==> q == p + op.length)
            && (StopsAtEnd(op) ==> 0 <= p < q <= |data|)
    ensures r.Err? ==> StopsAtEnd(op) && r.error == BufferUnderrun
  {
    match op
    case Number(t) =>
      var v :- NumberAt(data, p, t, littleEndian);
      Ok((IntItem(v), p + Size(t)))
    case CustomNumber(k, signed) =>
      Ok((IntItem(CustomValue(InReadOrder(SliceOf(data, p, p + k), littleEndian), k, signed)), p + k))
    case BigCustomNumber(k, signed) =>
      Ok((IntItem(BigCustomValue(InReadOrder(SliceOf(data, p, p + k), littleEndian), k, signed)), p + k))
    case Buffer(n) => Ok((BytesItem(SliceOf(data, p, p + n)), p + n))
    case Text(n) => Ok((TextItem(Latin1(SliceOf(data, p, p + n))), p + n))
    case NullString =>
      var (s, q) :- NullStringAt(data, p);
      Ok((TextItem(s), q))
  }

  /** Reads that fail rather than run past the end of the buffer, and move
      the pointer forward whenever they succeed. */
  predicate StopsAtEnd(op: ReadOp)
  {
    op.Number? || op.NullString?
  }

  /** Reads that move the pointer on every success (a zero-width read would
      make `readArrayUntilEnd` spin forever). */
  predicate Advances(op: ReadOp)
  {
    match op
    case CustomNumber(k, _) => k > 0
    case BigCustomNumber(k, _) => k > 0
    case Buffer(n) => n > 0
    case Text(n) => n > 0
    case _ => true
  }

  /** The items read so far in front of the outcome of the remaining reads. */
  function Prepend(items: seq<Item>, rest: Result<(seq<Item>, int)>): (r: Result<(seq<Item>, int)>)
    ensures r.Ok? == rest.Ok? && (r.Ok? ==> |r.value.0| == |items| + |rest.value.0|)
  {
    if rest.Ok? then Ok((items + rest.value.0, rest.value.1)) else rest
  }

  /** `readArray(f, count)`: `count` reads in a row. */
  function ReadManyAt(op: ReadOp, data: seq<byte>, p: int, littleEndian: bool, count: nat): (r: Result<(seq<Item>, int)>)
    ensures r.Ok? ==> |r.value.0| == count
    decreases count
  {
    if count == 0 then Ok(([], p))
    else
      var first := ReadAt(op, data, p, littleEndian);
      if first.Err? then Err(first.error)
      else Prepend([first.value.0], ReadManyAt(op, data, first.value.1, littleEndian, count - 1))
  }

  lemma PrependTwice(a: seq<Item>, b: seq<Item>, rest: Result<(seq<Item>, int)>)
    ensures Prepend(a, Prepend(b, rest)) == Prepend(a + b, rest)
  {
    if rest.Ok? {
      assert a + (b + rest.value.0) == (a + b) + rest.value.0;
    }
  }

  lemma PrependNothing(rest: Result<(seq<Item>, int)>)
    ensures Prepend([], rest) == rest
  {
    if rest.Ok? {
      assert [] + rest.value.0 == rest.value.0;
    }
  }

  /** After a successful first read, `count` reads are that item followed by
      `count - 1` reads from where it ended. */
  lemma ReadManyStep(op: ReadOp, data: seq<byte>, p: int, le: bool, n: nat, items: seq<Item>, x: Item, q: int)
    requires n > 0 && ReadAt(op, data, p, le) == Ok((x, q))
    ensures Prepend(items, ReadManyAt(op, data, p, le, n)) == Prepend(items + [x], ReadManyAt(op, data, q, le, n - 1))
  {
    PrependTwice(items, [x], ReadManyAt(op, data, q, le, n - 1));
  }

  lemma ReadManyFails(op: ReadOp, data: seq<byte>, p: int, le: bool, n: nat, items: seq<Item>)
    requires n > 0 && ReadAt(op, data, p, le).Err?
    ensures Prepend(items, ReadManyAt(op, data, p, le, n)).Err?
  {
  }

  /** The `readArrayWhile` predicate: current item, its index, the items so far. */
  type WhileFunc = (Item, nat, seq<Item>) -> bool

  /** `readArrayWhile(f, cond)`: read, append, and go on while `cond` holds of
      the item just read (so at least one read, and the item on which `cond`
      fails is kept). */
  function ReadWhileAt(op: ReadOp, data: seq<byte>, p: int, littleEndian: bool, cond: WhileFunc, acc: seq<Item>)
    : (r: Result<(seq<Item>, int)>)
    requires StopsAtEnd(op)
    ensures r.Ok? ==> |r.value.0| > |acc|
    decreases |data| - p
  {
    var (x, q) :- ReadAt(op, data, p, littleEndian);
    var items := acc + [x];
    if cond(x, |items| - 1, items) then ReadWhileAt(op, data, q, littleEndian, cond, items)
    else Ok((items, q))
  }

  /** A successful `readArrayWhile` keeps the items it started with, and its
      last item is the first one on which `cond` failed. */
  lemma {:induction false} ReadWhileStopsOnFalse(op: ReadOp, data: seq<byte>, p: int, littleEndian: bool, cond: WhileFunc, acc: seq<Item>)
    requires StopsAtEnd(op)
    ensures var r := ReadWhileAt(op, data, p, littleEndian, cond, acc);
            r.Ok? ==> r.value.0[..|acc|] == acc
    ensures var r := ReadWhileAt(op, data, p, littleEndian, cond, acc);
            r.Ok? ==> !cond(r.value.0[|r.value.0| - 1], |r.value.0| - 1, r.value.0)
    decreases |data| - p
  {
    var first := ReadAt(op, data, p, littleEndian);
    if first.Ok? {
      var (x, q) := first.value;
      var items := acc + [x];
      if cond(x, |items| - 1, items) {
        ReadWhileStopsOnFalse(op, data, q, littleEndian, cond, items);
        var r := ReadWhileAt(op, data, q, littleEndian, cond, items);
        if r.Ok? {
          var all := r.value.0;
          assert all[..|acc|] == all[..|items|][..|acc|];
        }
      }
    }
  }

  /** `readArrayUntilEnd(f)`: read until the pointer reaches the end (at least
      once). */
  function ReadUntilEndAt(op: ReadOp, data: seq<byte>, p: int, littleEndian: bool, acc: seq<Item>)
    : (r: Result<(seq<Item>, int)>)
    requires Advances(op)
    ensures r.Ok? ==> |r.value.0| > |acc| && r.value.0[..|acc|] == acc && r.value.1 >= |data|
    decreases |data| - p
  {
    var (x, q) :- ReadAt(op, data, p, littleEndian);
    var items := acc + [x];
    if q < |data| then
      var r := ReadUntilEndAt(op, data, q, littleEndian, items);
      if r.Ok? then
        assert r.value.0[..|acc|] == items[..|acc|];
        r
      else r
    else Ok((items, q))
  }

  // ------------------------------------------------------------- magic

  /** The forms of `assertMagic`'s argument. */
  datatype Magic =
    | MagicText(text: string)
    | MagicBytes(bytes: seq<byte>)
    | MagicNumber(value: int, t: NumberType)

  /** `magic.some((v, i) => v != buffer[i])`: a position past the end of what
      was read compares unequal too. */
  predicate BytesDiffer(expected: seq<byte>, got: seq<byte>)
  {
    exists i :: 0 <= i < |expected| && (i >= |got| || expected[i] != got[i])
  }

  /** `assertMagic(m)` at pointer `p`: the pointer after the read, or the
      failure. The read happens first, so on a mismatch the bytes are still
      consumed. */
  function MagicAt(m: Magic, data: seq<byte>, p: int, littleEndian: bool): (r: Result<int>)
    ensures r.Ok? ==> r.value == p + match m
                                      case MagicText(s) => |s|
                                      case MagicBytes(bs) => |bs|
                                      case MagicNumber(_, t) => Size(t)
    ensures r.Err? ==> r.error == MagicMismatch
                       || (m.MagicNumber? && r.error == BufferUnderrun && !(0 <= p && p + Size(m.t) <= |data|))
  {
    match m
    case MagicText(s) =>
      if Latin1(SliceOf(data, p, p + |s|)) == s then Ok(p + |s|) else Err(MagicMismatch)
    case MagicBytes(bs) =>
      var got := SliceOf(data, p, p + |bs|);
      if BytesDiffer(bs, got) then Err(MagicMismatch)
      else Ok(p + |bs|)
    case MagicNumber(v, t) =>
      var got :- NumberAt(data, p, t, littleEndian);
      if got == v then Ok(p + Size(t)) else Err(MagicMismatch)
  }

  /** A text or byte signature inside the buffer passes exactly when the
      bytes at the pointer are the signature, and consumes its length. */
  lemma MagicMatchesExactly(m: Magic, data: seq<byte>, p: int, littleEndian: bool)
    requires m.MagicText? || m.MagicBytes?
    requires var n := if m.MagicText? then |m.text| else |m.bytes|; 0 <= p && p + n <= |data|
    ensures m.MagicText? ==> (MagicAt(m, data, p, littleEndian).Ok? <==> Latin1(data[p..p + |m.text|]) == m.text)
    ensures m.MagicBytes? ==> (MagicAt(m, data, p, littleEndian).Ok? <==> data[p..p + |m.bytes|] == m.bytes)
    ensures MagicAt(m, data, p, littleEndian).Ok? ==>
              MagicAt(m, data, p, littleEndian).value == p + (if m.MagicText? then |m.text| else |m.bytes|)
  {
    if m.MagicBytes? {
      var got := data[p..p + |m.bytes|];
      if got != m.bytes {
        var i :| 0 <= i < |m.bytes| && got[i] != m.bytes[i];
      }
    }
  }

  // ----------------------------------------------------------- the class

  class Reader {
    const data: seq<byte>
    var pointer: int
    var littleEndian: bool

    /** `new DataReader(data)`: pointer 0, little-endian. */
    constructor (data: seq<byte>)
      ensures this.data == data && pointer == 0 && littleEndian
    {
      this.data := data;
      pointer := 0;
      littleEndian := true;
    }

    /** `eof`: no byte is left to read at the pointer. */
    function Eof(): (r: bool)
      reads this
      ensures r <==> DataLeft() <= 0
    {
      pointer >= |data|
    }

    /** `dataLeft`: how many bytes lie at and after the pointer. */
    function DataLeft(): (n: int)
      reads this
      ensures 0 <= pointer <= |data| ==> n == |data[pointer..]|
      ensures pointer + n == |data|
    {
      |data| - pointer
    }

    /** `readBuffer(length)`: the slice at the pointer; the pointer moves by
        `length` even where the slice was cut short. */
    method ReadBuffer(length: nat) returns (buf: seq<byte>)
      modifies this`pointer
      ensures buf == SliceOf(data, old(pointer), old(pointer) + length)
      ensures pointer == old(pointer) + length
    {
      buf := SliceOf(data, pointer, pointer + length);
      pointer := pointer + length;
    }

    /** `readString(length)`. */
    method ReadString(length: nat) returns (s: string)
      modifies this`pointer
      ensures s == Latin1(SliceOf(data, old(pointer), old(pointer) + length))
      ensures pointer == old(pointer) + length
    {
      var buf := ReadBuffer(length);
      s := Latin1(buf);
    }

    /** `readNumber(type)` / `readBigNumber(type)`: the pointer moves by the
        width only when the read succeeds. */
    method ReadNumber(t: NumberType) returns (r: Result<int>)
      modifies this`pointer
      ensures r == NumberAt(data, old(pointer), t, littleEndian)
      ensures pointer == if r.Ok? then old(pointer) + Size(t) else old(pointer)
    {
      r := NumberAt(data, pointer, t, littleEndian);
      if r.Ok? {
        pointer := pointer + Size(t);
      }
    }

    /** `readCustomNumber(bytes, signed)`: the accumulation loop over 32-bit
        JavaScript integers. */
    method ReadCustomNumber(bytes: nat, signed: bool) returns (v: int)
      modifies this`pointer
      ensures v == CustomValue(InReadOrder(SliceOf(data, old(pointer), old(pointer) + bytes), littleEndian), bytes, signed)
      ensures pointer == old(pointer) + bytes
    {
      var arr := ReadBuffer(bytes);
      if littleEndian {
        arr := Reverse(arr);
      }
      var u: int := 0;
      var i := 0;
      while i < |arr|
        invariant 0 <= i <= |arr|
        invariant u == Acc32(arr[..i])
      {
        assert arr[..i + 1][..i] == arr[..i];
        u := (u * 256) % 0x1_0000_0000 + arr[i];
        i := i + 1;
      }
      assert arr[..|arr|] == arr;
      var j := (8 * bytes - 1) % 32 + 1;
      ShrIsDiv(u, j);
      if signed && j < 32 && (u / Pow2(j)) % 2 == 1 {
        v := -(u % Pow2(j));
      } else {
        v := ToInt32(u);
      }
    }

    /** `readBigCustomNumber(bytes, signed)`: the same loop over BigInts. */
    method ReadBigCustomNumber(bytes: nat, signed: bool) returns (v: int)
      modifies this`pointer
      ensures v == BigCustomValue(InReadOrder(SliceOf(data, old(pointer), old(pointer) + bytes), littleEndian), bytes, signed)
      ensures pointer == old(pointer) + bytes
    {
      var arr := ReadBuffer(bytes);
      if littleEndian {
        arr := Reverse(arr);
      }
      var value: int := 0;
      var i := 0;
      while i < |arr|
        invariant 0 <= i <= |arr|
        invariant value == BigEndian(arr[..i])
      {
        assert arr[..i + 1][..i] == arr[..i];
        value := value * 256 + arr[i];
        i := i + 1;
      }
      assert arr[..|arr|] == arr;
      var mask := BigMask(bytes);
      ShrIsDiv(value, BigShift(bytes));
      if signed && (value / mask) % 2 == 1 {
        value := -(value % mask);
      }
      v := value;
    }

    /** `readNullString()`: scan for the terminator, take the text before it
        and step over it. */
    method ReadNullString() returns (r: Result<string>)
      modifies this`pointer
      ensures var spec := NullStringAt(data, old(pointer));
              && (spec.Ok? ==> r == Ok(spec.value.0) && pointer == spec.value.1)
              && (spec.Err? ==> r == Err(BufferUnderrun) && pointer == old(pointer))
    {
      var peek := pointer;
      while true
        invariant pointer <= peek
        invariant ScanFrom(data, peek, 0) == ScanFrom(data, pointer, 0)
        decreases |data| - peek
      {
        if peek < 0 || peek >= |data| {
          return Err(BufferUnderrun);
        }
        if data[peek] == 0 {
          break;
        }
        peek := peek + 1;
      }
      var s := Latin1(data[pointer..peek]);
      pointer := peek + 1;
      r := Ok(s);
    }

    /** One read of `op`, as `readFunc.call(this)` does. */
    method Read(op: ReadOp) returns (r: Result<Item>)
      modifies this`pointer
      ensures var spec := ReadAt(op, data, old(pointer), littleEndian);
              && (spec.Ok? ==> r == Ok(spec.value.0) && pointer == spec.value.1)
              && (spec.Err? ==> r.Err? && pointer == old(pointer))
    {
      ghost var p := pointer;
      match op
      case Number(t) =>
        var v := ReadNumber(t);
        if v.Err? {
          assert ReadAt(op, data, p, littleEndian) == Err(v.error);
          return Err(v.error);
        }
        r := Ok(IntItem(v.value));
        assert ReadAt(op, data, p, littleEndian) == Ok((IntItem(v.value), pointer));
      case NullString =>
        var s := ReadNullString();
        if s.Err? {
          assert ReadAt(op, data, p, littleEndian) == Err(s.error);
          return Err(s.error);
        }
        r := Ok(TextItem(s.value));
        assert ReadAt(op, data, p, littleEndian) == Ok((TextItem(s.value), pointer));
      case Buffer(n) =>
        var bs := ReadBuffer(n);
        r := Ok(BytesItem(bs));
      case Text(n) =>
        var s := ReadString(n);
        r := Ok(TextItem(s));
      case _ =>
        var v := ReadSizedNumber(op);
        r := Ok(IntItem(v));
    }

    /** The custom-width number reads, which cannot fail: past the end of
        the buffer they work on the shorter slice. */
    method ReadSizedNumber(op: ReadOp) returns (v: int)
      requires op.CustomNumber? || op.BigCustomNumber?
      modifies this`pointer
      ensures ReadAt(op, data, old(pointer), littleEndian) == Ok((IntItem(v), pointer))
    {
      if op.CustomNumber? {
        v := ReadCustomNumber(op.bytes, op.signed);
      } else {
        v := ReadBigCustomNumber(op.bytes, op.signed);
      }
    }

    /** `peek(f, offset)`: read at `pointer + offset` and put the pointer
        back. A failing read leaves the pointer at `pointer + offset`, since
        the exception skips the restore. */
    method Peek(op: ReadOp, offset: int) returns (r: Result<Item>)
      modifies this`pointer
      ensures var spec := ReadAt(op, data, old(pointer) + offset, littleEndian);
              && (spec.Ok? ==> r == Ok(spec.value.0) && pointer == old(pointer))
              && (spec.Err? ==> r.Err? && pointer == old(pointer) + offset)
    {
      var saved := pointer;
      pointer := pointer + offset;
      r := Read(op);
      if r.Err? {
        return;
      }
      pointer := saved;
    }

    /** One read of the `readArray` loop, against what is left of the
        specification. */
    method ReadNext(op: ReadOp, ghost spec: Result<(seq<Item>, int)>, ghost items: seq<Item>, ghost left: nat)
      returns (x: Result<Item>)
      requires left > 0 && spec == Prepend(items, ReadManyAt(op, data, pointer, littleEndian, left))
      modifies this`pointer
      ensures x.Ok? ==> spec == Prepend(items + [x.value], ReadManyAt(op, data, pointer, littleEndian, left - 1))
      ensures x.Err? ==> spec.Err?
    {
      ghost var before := pointer;
      x := Read(op);
      if x.Err? {
        ReadManyFails(op, data, before, littleEndian, left, items);
      } else {
        ReadManyStep(op, data, before, littleEndian, left, items, x.value, pointer);
      }
    }

    /** `readArray(f, count)`. */
    method ReadArray(op: ReadOp, count: nat) returns (r: Result<seq<Item>>)
      modifies this`pointer
      ensures var spec := ReadManyAt(op, data, old(pointer), littleEndian, count);
              && (spec.Ok? ==> r == Ok(spec.value.0) && pointer == spec.value.1)
              && (spec.Err? ==> r.Err?)
    {
      var items: seq<Item> := [];
      var left := count;
      ghost var spec := ReadManyAt(op, data, pointer, littleEndian, count);
      PrependNothing(spec);
      while left > 0
        invariant spec == Prepend(items, ReadManyAt(op, data, pointer, littleEndian, left))
      {
        var x := ReadNext(op, spec, items, left);
        if x.Err? {
          assert spec.Err?;
          return Err(x.error);
        }
        items := items + [x.value];
        left := left - 1;
      }
      assert ReadManyAt(op, data, pointer, littleEndian, 0) == Ok(([], pointer));
      assert items + [] == items;
      assert spec == Ok((items, pointer));
      r := Ok(items);
    }

    /** `readArrayWhile(f, cond)`. */
    method ReadArrayWhile(op: ReadOp, cond: WhileFunc) returns (r: Result<seq<Item>>)
      requires StopsAtEnd(op)
      modifies this`pointer
      ensures var spec := ReadWhileAt(op, data, old(pointer), littleEndian, cond, []);
              && (spec.Ok? ==> r == Ok(spec.value.0) && pointer == spec.value.1)
              && (spec.Err? ==> r.Err?)
    {
      var items: seq<Item> := [];
      ghost var start := pointer;
      while true
        invariant var spec := ReadWhileAt(op, data, start, littleEndian, cond, []);
                  var rest := ReadWhileAt(op, data, pointer, littleEndian, cond, items);
                  spec == rest
        decreases |data| - pointer
      {
        ghost var before := pointer;
        var x := Read(op);
        if x.Err? {
          return Err(x.error);
        }
        items := items + [x.value];
        if !cond(x.value, |items| - 1, items) {
          return Ok(items);
        }
      }
    }

    /** `readArrayUntilEnd(f)`: `readArrayWhile` with the condition `!eof`. */
    method ReadArrayUntilEnd(op: ReadOp) returns (r: Result<seq<Item>>)
      requires Advances(op)
      modifies this`pointer
      ensures var spec := ReadUntilEndAt(op, data, old(pointer), littleEndian, []);
              && (spec.Ok? ==> r == Ok(spec.value.0) && pointer == spec.value.1)
              && (spec.Err? ==> r.Err?)
    {
      var items: seq<Item> := [];
      ghost var start := pointer;
      while true
        invariant var spec := ReadUntilEndAt(op, data, start, littleEndian, []);
                  var rest := ReadUntilEndAt(op, data, pointer, littleEndian, items);
                  spec == rest
        decreases |data| - pointer
      {
        ghost var before := pointer;
        var x := Read(op);
        if x.Err? {
          return Err(x.error);
        }
        items := items + [x.value];
        if Eof() {
          return Ok(items);
        }
      }
    }

    /** `assertMagic(m)`. */
    method AssertMagic(m: Magic) returns (r: Result<()>)
      modifies this`pointer
      ensures var spec := MagicAt(m, data, old(pointer), littleEndian);
              && (r.Ok? <==> spec.Ok?)
              && (spec.Err? ==> r == Err(spec.error))
              && pointer == match m
                            case MagicNumber(_, t) =>
                              if NumberAt(data, old(pointer), t, littleEndian).Ok? then old(pointer) + Size(t) else old(pointer)
                            case MagicText(s) => old(pointer) + |s|
                            case MagicBytes(bs) => old(pointer) + |bs|
    {
      match m
      case MagicText(s) =>
        var got := ReadString(|s|);
        r := if got == s then Ok(()) else Err(MagicMismatch);
      case MagicBytes(bs) =>
        var got := ReadBuffer(|bs|);
        r := if BytesDiffer(bs, got) then Err(MagicMismatch) else Ok(());
      case MagicNumber(v, t) =>
        var got := ReadNumber(t);
        if got.Err? {
          return Err(got.error);
        }
        r := if got.value == v then Ok(()) else Err(MagicMismatch);
    }

    /** `magic(m)`: `assertMagic` with the failure turned into `false`; the
        pointer has moved all the same. */
    method IsMagic(m: Magic) returns (ok: bool)
      modifies this`pointer
      ensures ok <==> MagicAt(m, data, old(pointer), littleEndian).Ok?
      ensures pointer == match m
                         case MagicNumber(_, t) =>
                           if NumberAt(data, old(pointer), t, littleEndian).Ok? then old(pointer) + Size(t) else old(pointer)
                         case MagicText(s) => old(pointer) + |s|
                         case MagicBytes(bs) => old(pointer) + |bs|
    {
      var r := AssertMagic(m);
      ok := r.Ok?;
    }
  }
}

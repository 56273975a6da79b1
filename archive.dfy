/** The RPA-3.0 archive reader. The archive is a header line naming where the
    index lies and the key its numbers are masked with, the file bodies, and
    the index: a compressed pickle of `{path: [(offset ^ key, length ^ key,
    prefix), ...]}`. A file's content is the concatenation of its sections.
    The archive is an in-memory byte sequence, and the DEFLATE decoder is a
    parameter. */
module Archive {
  import opened Text
  import opened Failures
  import DataReader
  import NumberUtils
  import Pickle
  import Depickler
  import Directory

  /** `ARCHIVE_HEADER_SIZE`. */
  const HeaderSize := 34

  /** `ARCHIVE_HEADER_SIGNATURE`. */
  const Signature := "RPA-3.0"

  // ------------------------------------------------------------- parseInt

  /** Leading characters `parseInt` skips. */
  function TrimStart(s: string): (r: string)
    ensures |r| <= |s| && r == s[|s| - |r|..]
    ensures r == [] || !IsWhitespace(r[0])
  {
    if s != [] && IsWhitespace(s[0]) then TrimStart(s[1..]) else s
  }

  /** A digit of radix 16, either case. */
  predicate IsHexDigit(c: char)
  {
    NumberUtils.DigitValue(c) >= 0
  }

  /** How many hexadecimal digits `s` starts with. */
  function HexRun(s: string): (n: nat)
    ensures n <= |s|
    ensures forall i :: 0 <= i < n ==> IsHexDigit(s[i])
    ensures n < |s| ==> !IsHexDigit(s[n])
  {
    if s != [] && IsHexDigit(s[0]) then 1 + HexRun(s[1..]) else 0
  }

  /** `Number.parseInt(s, 16)`: skip leading white space, take one sign, drop
      a `0x`/`0X` prefix, then read the longest run of hexadecimal digits;
      `None` stands for `NaN`, which an empty run gives: a number is read
      only when the text after the white space starts with a sign or a
      digit. */
  function ParseIntHex(s: string): (r: Option<int>)
    ensures r.Some? ==> var t := TrimStart(s); t != [] && (IsHexDigit(t[0]) || t[0] == '-' || t[0] == '+')
  {
    var t := TrimStart(s);
    var sign := if t != [] && t[0] == '-' then -1 else 1;
    var u := if t != [] && (t[0] == '-' || t[0] == '+') then t[1..] else t;
    var v := if |u| >= 2 && u[0] == '0' && (u[1] == 'x' || u[1] == 'X') then u[2..] else u;
    var n := HexRun(v);
    if n == 0 then None else Some(sign * NumberUtils.ParseHex(v[..n]))
  }

  lemma {:induction false} HexRunOfDigits(d: string, rest: string)
    requires forall i :: 0 <= i < |d| ==> IsHexDigit(d[i])
    requires rest == [] || !IsHexDigit(rest[0])
    ensures HexRun(d + rest) == |d|
  {
    if d != [] {
      assert (d + rest)[1..] == d[1..] + rest;
      HexRunOfDigits(d[1..], rest);
    }
  }

  /** A hexadecimal digit is neither white space, a sign nor the `x` of a
      prefix. */
  lemma HexDigitIsPlain(c: char)
    requires IsHexDigit(c)
    ensures !IsWhitespace(c) && c != '-' && c != '+' && c != 'x' && c != 'X'
  {
  }

  /** A run of hexadecimal digits reads as its value, whatever non-digit
      follows it (the newline after the key, say), unless the run is a lone
      `0` that an `x` turns into a prefix. */
  lemma ParseIntHexDigits(d: string, rest: string)
    requires |d| >= 1 && forall i :: 0 <= i < |d| ==> IsHexDigit(d[i])
    requires rest == [] || !IsHexDigit(rest[0])
    requires |d| >= 2 || rest == [] || (rest[0] != 'x' && rest[0] != 'X')
    ensures ParseIntHex(d + rest) == Some(NumberUtils.ParseHex(d))
  {
    var s := d + rest;
    HexDigitIsPlain(d[0]);
    assert s[0] == d[0];
    assert TrimStart(s) == s;
    if |d| >= 2 {
      HexDigitIsPlain(d[1]);
      assert s[1] == d[1];
    } else if rest != [] {
      assert s[1] == rest[0];
    }
    assert !(|s| >= 2 && s[0] == '0' && (s[1] == 'x' || s[1] == 'X'));
    HexRunOfDigits(d, rest);
    assert s[..|d|] == d;
    assert ParseIntHex(s) == Some(1 * NumberUtils.ParseHex(s[..HexRun(s)]));
  }

  /** A field that starts with anything but white space, a sign or a
      hexadecimal digit (or is empty) is `NaN`. */
  lemma ParseIntHexRejects(s: string)
    requires s == [] || (!IsWhitespace(s[0]) && s[0] != '-' && s[0] != '+' && !IsHexDigit(s[0]))
    ensures ParseIntHex(s) == None
  {
  }

  // --------------------------------------------------------------- header

  /** The checks of `readHeader` on the decoded header text: the index
      offset and the key. */
  function ParseHeader(text: string): (r: Result<(int, int)>)
    ensures r.Ok? ==> |text| >= 9 && text[..8] == Signature + " " && text[|text| - 1] == '\n'
    ensures r.Err? ==> r.error in {HeaderNoNewline, HeaderFieldCount, SignatureMismatch, InvalidIndexOffset, InvalidKey}
  {
    if !EndsWith(text, "\n") then Err(HeaderNoNewline)
    else
      var fields := Split(text, ' ');
      if |fields| != 3 then Err(HeaderFieldCount)
      else if fields[0] != Signature then Err(SignatureMismatch)
      else match ParseIntHex(fields[1])
        case None => Err(InvalidIndexOffset)
        case Some(indexOffset) =>
          match ParseIntHex(fields[2])
          case None => Err(InvalidKey)
          case Some(key) =>
            JoinThree(fields, " ");
            Ok((indexOffset, key))
  }

  lemma JoinThree(parts: seq<string>, sep: string)
    requires |parts| == 3
    ensures Join(parts, sep) == parts[0] + sep + (parts[1] + sep + parts[2])
  {
    var tail := parts[1..];
    assert |tail| == 2 && tail[0] == parts[1] && tail[1..] == [parts[2]];
    assert Join(tail, sep) == parts[1] + sep + Join([parts[2]], sep);
  }

  /** The header of an archive whose header window starts at `at`: it is
      accepted only when the window starts with `RPA-3.0 ` and ends with a
      newline byte. */
  function HeaderAt(blob: seq<byte>, at: int): (r: Result<(int, int)>)
    ensures r.Ok? ==> var w := DataReader.SliceOf(blob, at, at + HeaderSize);
                      |w| >= 9 && Latin1(w)[..8] == Signature + " " && w[|w| - 1] == 10
  {
    var w := DataReader.SliceOf(blob, at, at + HeaderSize);
    ParseHeader(Latin1(w))
  }

  /** The header line the archiver writes: the offset in sixteen and the key
      in eight hexadecimal digits. */
  function MakeHeader(indexOffset: nat, key: nat): string
  {
    Signature + " " + NumberUtils.HexDigits(indexOffset, 8) + " " + NumberUtils.HexDigits(key, 4) + "\n"
  }

  /** The digit field of a number that fits `bytes` bytes: exactly two digits
      per byte, all hexadecimal, reading back as the number. */
  lemma HexField(value: nat, bytes: nat)
    requires 1 <= bytes && value < NumberUtils.Pow16(2 * bytes)
    ensures |NumberUtils.HexDigits(value, bytes)| == 2 * bytes
    ensures forall i :: 0 <= i < 2 * bytes ==> IsHexDigit(NumberUtils.HexDigits(value, bytes)[i])
    ensures ' ' !in NumberUtils.HexDigits(value, bytes)
    ensures NumberUtils.ParseHex(NumberUtils.HexDigits(value, bytes)) == value
  {
    NumberUtils.ToString16Length(value, 2 * bytes);
    NumberUtils.HexDigitsFacts(value, bytes);
    var d := NumberUtils.HexDigits(value, bytes);
    forall i | 0 <= i < |d| ensures IsHexDigit(d[i]) && d[i] != ' ' {
      assert NumberUtils.IsUpperHexDigit(d[i]);
    }
  }

  /** A digit field followed by nothing or by the newline reads back as
      its number. */
  lemma HexFieldReads(value: nat, bytes: nat, rest: string)
    requires 1 <= bytes && value < NumberUtils.Pow16(2 * bytes)
    requires rest == [] || rest == "\n"
    ensures var d := NumberUtils.HexDigits(value, bytes);
            |d| == 2 * bytes && ' ' !in d && ParseIntHex(d + rest) == Some(value)
  {
    HexField(value, bytes);
    DigitsRead(NumberUtils.HexDigits(value, bytes), rest);
  }

  lemma DigitsRead(d: string, rest: string)
    requires |d| >= 2 && forall i :: 0 <= i < |d| ==> IsHexDigit(d[i])
    requires rest == [] || rest == "\n"
    ensures ParseIntHex(d + rest) == Some(NumberUtils.ParseHex(d))
  {
    assert rest == [] || !IsHexDigit(rest[0]);
    ParseIntHexDigits(d, rest);
  }

  /** A header line written for an offset below 2^64 and a key below 2^32
      is exactly 34 characters long and reads back as that offset and key. */
  lemma HeaderRoundTrip(indexOffset: nat, key: nat)
    requires indexOffset < NumberUtils.Pow16(16) && key < NumberUtils.Pow16(8)
    ensures |MakeHeader(indexOffset, key)| == HeaderSize
    ensures ParseHeader(MakeHeader(indexOffset, key)) == Ok((indexOffset, key))
  {
    var d1 := NumberUtils.HexDigits(indexOffset, 8);
    var d2 := NumberUtils.HexDigits(key, 4);
    HexFieldReads(indexOffset, 8, []);
    assert d1 + [] == d1;
    HexFieldReads(key, 4, "\n");
    var text := MakeHeader(indexOffset, key);
    assert text == Signature + " " + d1 + " " + d2 + "\n";
    HeaderFields(d1, d2);
    ParseHeaderOfFields(text, d1, d2 + "\n", indexOffset, key);
  }

  /** A newline-terminated text of three space-separated fields, the first
      the signature and the others readable numbers, is an accepted header. */
  lemma ParseHeaderOfFields(text: string, f1: string, f2: string, a: int, b: int)
    requires |text| >= 1 && text[|text| - 1] == '\n'
    requires Split(text, ' ') == [Signature, f1, f2]
    requires ParseIntHex(f1) == Some(a) && ParseIntHex(f2) == Some(b)
    ensures ParseHeader(text) == Ok((a, b))
  {
    assert text[|text| - 1..] == "\n";
    assert EndsWith(text, "\n");
  }

  /** The header line splits into the signature and the two fields, the
      newline staying on the last one. */
  lemma HeaderFields(d1: string, d2: string)
    requires ' ' !in d1 && ' ' !in d2
    ensures Split(Signature + " " + d1 + " " + d2 + "\n", ' ') == [Signature, d1, d2 + "\n"]
  {
    var text := Signature + " " + d1 + " " + d2 + "\n";
    assert text == Signature + [' '] + (d1 + [' '] + (d2 + "\n"));
    SplitNoSeparator(d2 + "\n", ' ');
    SplitAfterPiece(d1, ' ', d2 + "\n");
    SplitAfterPiece(Signature, ' ', d1 + [' '] + (d2 + "\n"));
  }

  /** The same, read from the bytes of an archive. */
  lemma HeaderAtRoundTrip(blob: seq<byte>, at: int, indexOffset: nat, key: nat)
    requires indexOffset < NumberUtils.Pow16(16) && key < NumberUtils.Pow16(8)
    requires 0 <= at && at + HeaderSize <= |blob|
    requires Latin1(blob[at..at + HeaderSize]) == MakeHeader(indexOffset, key)
    ensures HeaderAt(blob, at) == Ok((indexOffset, key))
  {
    HeaderRoundTrip(indexOffset, key);
  }

  // ------------------------------------------------------------- sections

  /** The JavaScript `ToUint32`. */
  function ToUint32(x: int): (u: nat)
    ensures u < 0x1_0000_0000
  {
    x % 0x1_0000_0000
  }

  /** Bitwise exclusive or of the low `n` bits of two naturals. */
  function XorBits(a: nat, b: nat, n: nat): (x: nat)
    ensures x < DataReader.Pow2(n)
  {
    if n == 0 then 0
    else 2 * XorBits(a / 2, b / 2, n - 1) + (if a % 2 == b % 2 then 0 else 1)
  }

  lemma Pow2Of32()
    ensures DataReader.Pow2(32) == 0x1_0000_0000
  {
    DataReader.SmallPowers();
    DataReader.Pow2Add(16, 16);
  }

  /** The JavaScript `a ^ b`: both operands become 32-bit integers and the
      result is signed. */
  function Xor32(a: int, b: int): (v: int)
    ensures -0x8000_0000 <= v < 0x8000_0000
  {
    DataReader.ToInt32(XorBits(ToUint32(a), ToUint32(b), 32))
  }

  lemma Uint32OfInt32(u: nat)
    requires u < 0x1_0000_0000
    ensures ToUint32(DataReader.ToInt32(u)) == u
  {
  }

  /** Exclusive or with the same bits twice is the identity. */
  lemma {:induction false} XorBitsTwice(a: nat, b: nat, n: nat)
    requires a < DataReader.Pow2(n)
    ensures XorBits(XorBits(a, b, n), b, n) == a
  {
    if n > 0 {
      var x := XorBits(a, b, n);
      var high := XorBits(a / 2, b / 2, n - 1);
      var bit := if a % 2 == b % 2 then 0 else 1;
      assert x == 2 * high + bit;
      assert x / 2 == high && x % 2 == bit;
      XorBitsTwice(a / 2, b / 2, n - 1);
      assert XorBits(x, b, n) == 2 * (a / 2) + a % 2;
    }
  }

  /** Masking twice with the same key gives back the operand as a 32-bit
      signed value. */
  lemma Remask(v: int, key: int)
    ensures Xor32(Xor32(v, key), key) == DataReader.ToInt32(ToUint32(v))
  {
    Pow2Of32();
    var a := ToUint32(v);
    var b := ToUint32(key);
    var u := XorBits(a, b, 32);
    Uint32OfInt32(u);
    XorBitsTwice(a, b, 32);
  }

  /** Masking twice with the same key gives back any 32-bit signed value. */
  lemma XorInvolution(v: int, key: int)
    requires -0x8000_0000 <= v < 0x8000_0000
    ensures Xor32(Xor32(v, key), key) == v
  {
    Pow2Of32();
    var a := ToUint32(v);
    var b := ToUint32(key);
    var u := XorBits(a, b, 32);
    Uint32OfInt32(u);
    XorBitsTwice(a, b, 32);
  }

  /** One part of a file: where it lies in the archive and how long it is. */
  datatype Section = Section(offset: int, length: int)

  /** `ArchiveBlob`: a file made of sections of the archive. */
  datatype ArchiveBlob = ArchiveBlob(archive: seq<byte>, sections: seq<Section>)
  {
    /** The `size` getter: the number of bytes the blob holds, when every
        section lies inside the archive. */
    function Size(): (r: int)
      ensures (forall i :: 0 <= i < |sections| ==> InArchive(archive, sections[i])) ==> r == |Bytes()|
    {
      TotalLength(sections)
    }

    /** What `arrayBuffer()` resolves to. */
    function Bytes(): seq<byte>
    {
      Content(archive, sections)
    }
  }

  /** The `reduce` that sums the section lengths. */
  function TotalLength(sections: seq<Section>): int
  {
    if sections == [] then 0 else TotalLength(sections[..|sections| - 1]) + sections[|sections| - 1].length
  }

  /** `archive.slice(offset, offset + length)`. */
  function SectionBytes(archive: seq<byte>, s: Section): seq<byte>
  {
    DataReader.SliceOf(archive, s.offset, s.offset + s.length)
  }

  /** The new `Blob` of the slices, in section order; when every section
      lies inside the archive it holds as many bytes as the lengths add up
      to. */
  function Content(archive: seq<byte>, sections: seq<Section>): (r: seq<byte>)
    ensures (forall i :: 0 <= i < |sections| ==> InArchive(archive, sections[i])) ==> |r| == TotalLength(sections)
  {
    if sections == [] then []
    else
      var init := sections[..|sections| - 1];
      assert forall i :: 0 <= i < |init| ==> init[i] == sections[i];
      Content(archive, init) + SectionBytes(archive, sections[|sections| - 1])
  }

  predicate InArchive(archive: seq<byte>, s: Section)
  {
    0 <= s.offset && 0 <= s.length && s.offset + s.length <= |archive|
  }

  /** The content of two runs of sections is the content of the first
      followed by that of the second. */
  lemma {:induction false} ContentAppend(archive: seq<byte>, a: seq<Section>, b: seq<Section>)
    ensures Content(archive, a + b) == Content(archive, a) + Content(archive, b)
  {
    if b != [] {
      var ab := a + b;
      assert ab[..|ab| - 1] == a + b[..|b| - 1];
      ContentAppend(archive, a, b[..|b| - 1]);
    } else {
      assert a + b == a;
    }
  }

  /** Section `i` of a file lies at its own place in the content, right
      after the sections before it, byte for byte from the archive. */
  lemma {:induction false} ContentSection(archive: seq<byte>, sections: seq<Section>, i: nat)
    requires i < |sections| && InArchive(archive, sections[i])
    ensures var start := |Content(archive, sections[..i])|;
            var s := sections[i];
            && start + s.length <= |Content(archive, sections)|
            && Content(archive, sections)[start..start + s.length] == archive[s.offset..s.offset + s.length]
  {
    assert sections == sections[..i] + [sections[i]] + sections[i + 1..];
    ContentAppend(archive, sections[..i] + [sections[i]], sections[i + 1..]);
    ContentAppend(archive, sections[..i], [sections[i]]);
    assert Content(archive, [sections[i]]) == SectionBytes(archive, sections[i]) by {
      assert [sections[i]][..0] == [];
    }
  }

  // ---------------------------------------------------------- index entries

  /** `v[i]` on a depickled value: arrays and strings by position, plain
      objects by the key `"i"`; class instances, class references, the MARK
      symbol and other primitives have no such property, and `null`/`undefined`
      throw. */
  function Element(h: seq<Pickle.Obj>, v: Pickle.Value, i: nat): (r: Result<Pickle.Value>)
    ensures r.Err? <==> v.Undefined? || v.Null? || (v.Ref? && v.id >= |h|)
    ensures r.Err? ==> (r.error == TypeError <==> v.Undefined? || v.Null?)
    ensures v.Ref? && v.id < |h| && h[v.id].List? ==>
              r == Ok(if i < |h[v.id].items| then h[v.id].items[i] else Pickle.Undefined)
    ensures v.Ref? && v.id < |h| && h[v.id].Instance? ==> r == Ok(Pickle.Undefined)
    ensures v.Int? || v.Bool? || v.Global? || v.Mark? ==> r == Ok(Pickle.Undefined)
  {
    match v
    case Ref(id) =>
      if id >= |h| then Err(NotModelled)
      else (match h[id]
        case List(items) => Ok(if i < |items| then items[i] else Pickle.Undefined)
        case Dict(entries) =>
          Ok(match Pickle.Lookup(entries, NatToString(i)) case Some(x) => x case None => Pickle.Undefined)
        case Instance(_, _, _, _) => Ok(Pickle.Undefined))
    case Undefined => Err(TypeError)
    case Null => Err(TypeError)
    case Int(_) => Ok(Pickle.Undefined)
    case Bool(_) => Ok(Pickle.Undefined)
    case Str(s) => Ok(if i < |s| then Pickle.Str([s[i]]) else Pickle.Undefined)
    case Bytes(bs) => Ok(if i < |bs| then Pickle.Int(bs[i]) else Pickle.Undefined)
    case Global(_, _) => Ok(Pickle.Undefined)
    case Mark => Ok(Pickle.Undefined)
  }

  /** The number an operand of `^` becomes before `ToInt32` (`NaN` becomes 0
      there, so `undefined` counts as 0). */
  function Int32Operand(v: Pickle.Value): (r: Result<int>)
    ensures r.Ok? <==> v.Int? || v.Bool? || v.Null? || v.Undefined?
    ensures v.Int? ==> r == Ok(v.i)
    ensures v.Null? || v.Undefined? ==> r == Ok(0)
    ensures r.Err? ==> r.error == NotModelled
  {
    match v
    case Int(i) => Ok(i)
    case Bool(b) => Ok(if b then 1 else 0)
    case Null => Ok(0)
    case Undefined => Ok(0)
    case _ => Err(NotModelled)
  }

  /** One index triple: `{offset: entry[0] ^ key, length: entry[1] ^ key}`.
      Masking a decoded field with the key again gives back the stored
      operand as a 32-bit integer. */
  function SectionOf(h: seq<Pickle.Obj>, entry: Pickle.Value, key: int): (r: Result<Section>)
    ensures r.Ok? ==> && Element(h, entry, 0).Ok? && Int32Operand(Element(h, entry, 0).value).Ok?
                      && Xor32(r.value.offset, key) == DataReader.ToInt32(ToUint32(Int32Operand(Element(h, entry, 0).value).value))
    ensures r.Ok? ==> && Element(h, entry, 1).Ok? && Int32Operand(Element(h, entry, 1).value).Ok?
                      && Xor32(r.value.length, key) == DataReader.ToInt32(ToUint32(Int32Operand(Element(h, entry, 1).value).value))
    ensures r.Err? ==> r.error == NotModelled || r.error == TypeError
  {
    var a :- Element(h, entry, 0);
    var offset :- Int32Operand(a);
    match Element(h, entry, 1)
    case Err(e) => Err(e)
    case Ok(b) =>
      var length :- Int32Operand(b);
      Remask(offset, key);
      Remask(length, key);
      Ok(Section(Xor32(offset, key), Xor32(length, key)))
  }

  /** The section loop over a file's list of triples. */
  function SectionsOf(h: seq<Pickle.Obj>, entries: seq<Pickle.Value>, key: int): (r: Result<seq<Section>>)
    ensures r.Ok? ==> |r.value| == |entries|
    ensures r.Ok? ==> forall i :: 0 <= i < |entries| ==> SectionOf(h, entries[i], key) == Ok(r.value[i])
  {
    if entries == [] then Ok([])
    else
      var init :- SectionsOf(h, entries[..|entries| - 1], key);
      var last :- SectionOf(h, entries[|entries| - 1], key);
      Ok(init + [last])
  }

  /** The first triple that fails fails the whole loop. */
  lemma {:induction false} SectionsOfFailsOnce(h: seq<Pickle.Obj>, entries: seq<Pickle.Value>, key: int, k: nat)
    requires k <= |entries| && SectionsOf(h, entries[..k], key).Err?
    ensures SectionsOf(h, entries, key) == SectionsOf(h, entries[..k], key)
    decreases |entries| - k
  {
    if k < |entries| {
      assert entries[..k + 1][..k] == entries[..k];
      SectionsOfFailsOnce(h, entries, key, k + 1);
    } else {
      assert entries[..k] == entries;
    }
  }

  /** A triple the archiver wrote for a section (masked offset and length,
      then a prefix) decodes to that section; the third element plays no
      part. */
  lemma SectionRoundTrip(h: seq<Pickle.Obj>, id: nat, offset: int, length: int, prefix: Pickle.Value, key: int)
    requires -0x8000_0000 <= offset < 0x8000_0000 && -0x8000_0000 <= length < 0x8000_0000
    requires id < |h| && h[id] == Pickle.List([Pickle.Int(Xor32(offset, key)), Pickle.Int(Xor32(length, key)), prefix])
    ensures SectionOf(h, Pickle.Ref(id), key) == Ok(Section(offset, length))
  {
    XorInvolution(offset, key);
    XorInvolution(length, key);
    assert Element(h, Pickle.Ref(id), 0) == Ok(Pickle.Int(Xor32(offset, key)));
    assert Element(h, Pickle.Ref(id), 1) == Ok(Pickle.Int(Xor32(length, key)));
  }

  /** One file of the index: its key and the concatenation of its sections. */
  function FileOf(archive: seq<byte>, h: seq<Pickle.Obj>, e: Pickle.Entry, key: int): (r: Result<(string, Directory.Blob)>)
    ensures r.Ok? ==> r.value.0 == e.key
  {
    var triples :- Pickle.Spread(h, e.value);
    var sections :- SectionsOf(h, triples, key);
    Ok((e.key, ArchiveBlob(archive, sections).Bytes()))
  }

  /** The `map` over `Object.entries` of the index: one file per key, in key
      order. */
  function FilesOf(archive: seq<byte>, h: seq<Pickle.Obj>, entries: seq<Pickle.Entry>, key: int): (r: Result<seq<(string, Directory.Blob)>>)
    ensures r.Ok? ==> |r.value| == |entries|
    ensures r.Ok? ==> forall i :: 0 <= i < |entries| ==> r.value[i].0 == entries[i].key
    ensures r.Ok? ==> forall i :: 0 <= i < |entries| ==> FileOf(archive, h, entries[i], key) == Ok(r.value[i])
  {
    if entries == [] then Ok([])
    else
      var init :- FilesOf(archive, h, entries[..|entries| - 1], key);
      var last :- FileOf(archive, h, entries[|entries| - 1], key);
      var files := init + [last];
      assert forall i :: 0 <= i < |entries| - 1 ==> files[i] == init[i] && entries[i] == entries[..|entries| - 1][i];
      Ok(files)
  }

  /** The first file that fails fails the whole `map`. */
  lemma {:induction false} FilesOfFailsOnce(archive: seq<byte>, h: seq<Pickle.Obj>, entries: seq<Pickle.Entry>, key: int, k: nat)
    requires k <= |entries| && FilesOf(archive, h, entries[..k], key).Err?
    ensures FilesOf(archive, h, entries, key) == FilesOf(archive, h, entries[..k], key)
    decreases |entries| - k
  {
    if k < |entries| {
      assert entries[..k + 1][..k] == entries[..k];
      FilesOfFailsOnce(archive, h, entries, key, k + 1);
    } else {
      assert entries[..k] == entries;
    }
  }

  /** `Object.entries(v)` of a depickled value: a dict's keys in order, an
      array's or string's indices, nothing for a number or boolean. */
  function ObjectEntries(h: seq<Pickle.Obj>, v: Pickle.Value): (r: Result<seq<Pickle.Entry>>)
    ensures v.Ref? && v.id < |h| && h[v.id].Dict? ==> r == Ok(h[v.id].entries)
    ensures v.Ref? && v.id < |h| && h[v.id].List? ==>
              r.Ok? && |r.value| == |h[v.id].items|
              && forall i :: 0 <= i < |r.value| ==> r.value[i] == Pickle.Entry(NatToString(i), h[v.id].items[i])
    ensures v.Null? || v.Undefined? ==> r == Err(TypeError)
  {
    match v
    case Ref(id) =>
      if id >= |h| then Err(NotModelled)
      else (match h[id]
        case Dict(entries) => Ok(entries)
        case List(items) => Ok(seq(|items|, i requires 0 <= i < |items| => Pickle.Entry(NatToString(i), items[i])))
        case Instance(_, _, _, _) => Err(NotModelled))
    case Undefined => Err(TypeError)
    case Null => Err(TypeError)
    case Int(_) => Ok([])
    case Bool(_) => Ok([])
    case Str(s) => Ok(seq(|s|, i requires 0 <= i < |s| => Pickle.Entry(NatToString(i), Pickle.Str([s[i]]))))
    case Bytes(bs) => Ok(seq(|bs|, i requires 0 <= i < |bs| => Pickle.Entry(NatToString(i), Pickle.Int(bs[i]))))
    case Global(_, _) => Err(NotModelled)
    case Mark => Err(NotModelled)
  }

  /** `depickled[0]`. */
  function First(stack: seq<Pickle.Value>): Pickle.Value
  {
    if |stack| > 0 then stack[0] else Pickle.Undefined
  }

  // ----------------------------------------------------------- readArchive

  /** What `readArchive` loads as the index: from the index offset to the
      end of the archive. */
  function IndexBytes(blob: seq<byte>, indexOffset: int): seq<byte>
  {
    DataReader.SliceOf(blob, indexOffset, indexOffset + (|blob| - indexOffset))
  }

  /** The files of a decompressed index. */
  function FilesOfIndex(blob: seq<byte>, index: seq<byte>, key: int): Result<seq<(string, Directory.Blob)>>
  {
    var m :- Pickle.Run(index, Pickle.Initial());
    var entries :- ObjectEntries(m.heap, First(m.stack));
    FilesOf(blob, m.heap, entries, key)
  }

  /** The files `readArchive` hands to `fromFileList`, for a header read at
      `at`. */
  function IndexFilesAt(blob: seq<byte>, at: int, inflate: seq<byte> -> Result<seq<byte>>): Result<seq<(string, Directory.Blob)>>
  {
    var header :- HeaderAt(blob, at);
    FilesAtIndex(blob, header.0, header.1, inflate)
  }

  /** The files of the index that starts at `indexOffset`. */
  function FilesAtIndex(blob: seq<byte>, indexOffset: int, key: int, inflate: seq<byte> -> Result<seq<byte>>): Result<seq<(string, Directory.Blob)>>
  {
    var index :- inflate(IndexBytes(blob, indexOffset));
    FilesOfIndex(blob, index, key)
  }

  /** `readArchive()`: a directory tree, or the first failure; a bad
      header fails the archive with the header's own error. */
  function ReadArchiveAt(blob: seq<byte>, at: int, inflate: seq<byte> -> Result<seq<byte>>): (r: Result<Directory.Directory>)
    ensures r.Ok? ==> HeaderAt(blob, at).Ok? && r.value.FolderObject?
    ensures HeaderAt(blob, at).Err? ==> r == Err(HeaderAt(blob, at).error)
  {
    var files :- IndexFilesAt(blob, at, inflate);
    var root :- Directory.BuildTree(files);
    Ok(Directory.FolderObject(root))
  }

  /** When the index names distinct normalised paths, none inside another,
      the archive opens and each path gives its file's content. */
  lemma ArchiveFileRetrievable(blob: seq<byte>, at: int, inflate: seq<byte> -> Result<seq<byte>>, i: nat)
    requires IndexFilesAt(blob, at, inflate).Ok?
    requires var files := IndexFilesAt(blob, at, inflate).value;
             Directory.DistinctPaths(files) && Directory.NoFolderPrefix(files)
             && i < |files| && Directory.Normalised(files[i].0)
    ensures ReadArchiveAt(blob, at, inflate).Ok?
    ensures var files := IndexFilesAt(blob, at, inflate).value;
            Directory.GetFile(ReadArchiveAt(blob, at, inflate).value, files[i].0) == Some(files[i].1)
  {
    Directory.FromFileListRetrievable(IndexFilesAt(blob, at, inflate).value, i);
  }

  /** `ArchiveReader`: a `DataReader` over the window last loaded from the
      archive, the archive itself, the position of the next window and the
      key. */
  class ArchiveReader {
    const blob: seq<byte>
    var blobPointer: int
    var key: int
    var reader: DataReader.Reader

    constructor (blob: seq<byte>)
      ensures this.blob == blob && blobPointer == 0 && key == -1
      ensures fresh(reader) && reader.data == [] && reader.pointer == 0 && reader.littleEndian
    {
      this.blob := blob;
      blobPointer := 0;
      key := -1;
      reader := new DataReader.Reader([]);
    }

    /** `blobEof`: no byte of the archive is left past the window pointer. */
    function BlobEof(): (r: bool)
      reads this
      ensures r <==> BlobDataLeft() <= 0
    {
      blobPointer >= |blob|
    }

    /** `blobDataLeft`: how many archive bytes lie at and after the pointer. */
    function BlobDataLeft(): (n: int)
      reads this
      ensures 0 <= blobPointer <= |blob| ==> n == |blob[blobPointer..]|
      ensures blobPointer + n == |blob|
    {
      |blob| - blobPointer
    }

    /** `getSlice(length, at)`: the bytes `[at, at + length)` of the archive
        (cut to the archive), and the next window starts after them. */
    method GetSlice(length: int, at: int) returns (slice: seq<byte>)
      modifies this`blobPointer
      ensures slice == DataReader.SliceOf(blob, at, at + length)
      ensures 0 <= at && 0 <= length && at + length <= |blob| ==> slice == blob[at..at + length]
      ensures blobPointer == at + length
    {
      blobPointer := at;
      slice := DataReader.SliceOf(blob, blobPointer, blobPointer + length);
      blobPointer := blobPointer + length;
    }

    /** `load(length, at)`: a fresh cursor over the slice. */
    method Load(length: int, at: int)
      modifies this`blobPointer, this`reader
      ensures fresh(reader) && reader.data == DataReader.SliceOf(blob, at, at + length)
      ensures reader.pointer == 0 && reader.littleEndian
      ensures blobPointer == at + length
    {
      var slice := GetSlice(length, at);
      reader := new DataReader.Reader(slice);
    }

    /** `readHeader()`: the index offset; the key is kept. */
    method ReadHeader() returns (r: Result<int>)
      modifies this`blobPointer, this`key, this`reader
      ensures fresh(reader)
      ensures blobPointer == old(blobPointer) + HeaderSize
      ensures var h := HeaderAt(blob, old(blobPointer));
              && (h.Ok? ==> r == Ok(h.value.0) && key == h.value.1)
              && (h.Err? ==> r == Err(h.error) && key == old(key))
    {
      Load(HeaderSize, blobPointer);
      var text := reader.ReadString(reader.DataLeft());
      assert DataReader.SliceOf(reader.data, 0, |reader.data|) == reader.data;
      ghost var h := HeaderAt(blob, old(blobPointer));
      assert h == ParseHeader(text);
      if !EndsWith(text, "\n") {
        return Err(HeaderNoNewline);
      }
      var fields := Split(text, ' ');
      if |fields| != 3 {
        return Err(HeaderFieldCount);
      }
      if fields[0] != Signature {
        return Err(SignatureMismatch);
      }
      var indexOffset := ParseIntHex(fields[1]);
      if indexOffset.None? {
        return Err(InvalidIndexOffset);
      }
      var k := ParseIntHex(fields[2]);
      if k.None? {
        return Err(InvalidKey);
      }
      key := k.value;
      r := Ok(indexOffset.value);
    }

    /** The section loop of `readArchive` for one file. */
    method DecodeSections(h: seq<Pickle.Obj>, entries: seq<Pickle.Value>) returns (r: Result<seq<Section>>)
      ensures r == SectionsOf(h, entries, key)
    {
      var sections: seq<Section> := [];
      var i := 0;
      while i < |entries|
        invariant 0 <= i <= |entries|
        invariant SectionsOf(h, entries[..i], key) == Ok(sections)
      {
        assert entries[..i + 1][..i] == entries[..i];
        var section := SectionOf(h, entries[i], key);
        if section.Err? {
          SectionsOfFailsOnce(h, entries, key, i + 1);
          return Err(section.error);
        }
        sections := sections + [section.value];
        i := i + 1;
      }
      assert entries[..i] == entries;
      r := Ok(sections);
    }

    /** The `map` of `readArchive` over the index entries. */
    method IndexFiles(h: seq<Pickle.Obj>, entries: seq<Pickle.Entry>) returns (r: Result<seq<(string, Directory.Blob)>>)
      ensures r == FilesOf(blob, h, entries, key)
    {
      var files: seq<(string, Directory.Blob)> := [];
      var i := 0;
      while i < |entries|
        invariant 0 <= i <= |entries|
        invariant FilesOf(blob, h, entries[..i], key) == Ok(files)
      {
        assert entries[..i + 1][..i] == entries[..i];
        var triples := Pickle.Spread(h, entries[i].value);
        if triples.Err? {
          FilesOfFailsOnce(blob, h, entries, key, i + 1);
          return Err(triples.error);
        }
        var sections := DecodeSections(h, triples.value);
        if sections.Err? {
          FilesOfFailsOnce(blob, h, entries, key, i + 1);
          return Err(sections.error);
        }
        files := files + [(entries[i].key, ArchiveBlob(blob, sections.value).Bytes())];
        i := i + 1;
      }
      assert entries[..i] == entries;
      r := Ok(files);
    }

    /** `readArchive()`: header, index, depickle, files, folder tree. */
    method ReadArchive(inflate: seq<byte> -> Result<seq<byte>>) returns (r: Result<Directory.Directory>)
      modifies this`blobPointer, this`key, this`reader
      ensures r == ReadArchiveAt(blob, old(blobPointer), inflate)
      ensures HeaderAt(blob, old(blobPointer)).Ok? ==> key == HeaderAt(blob, old(blobPointer)).value.1 && blobPointer == |blob|
    {
      var header := ReadHeader();
      if header.Err? {
        return Err(header.error);
      }
      var files := ReadIndex(header.value, inflate);
      if files.Err? {
        return Err(files.error);
      }
      r := Directory.FromFileList(files.value);
    }

    /** The part of `readArchive` after the header: load from the index
        offset to the end, inflate, depickle, walk the entries. */
    method ReadIndex(indexOffset: int, inflate: seq<byte> -> Result<seq<byte>>) returns (r: Result<seq<(string, Directory.Blob)>>)
      modifies this`blobPointer, this`reader
      ensures r == FilesAtIndex(blob, indexOffset, key, inflate)
      ensures blobPointer == |blob|
    {
      blobPointer := indexOffset;
      Load(BlobDataLeft(), blobPointer);
      var buffer := reader.data;
      assert buffer == IndexBytes(blob, indexOffset);
      var decompressed := inflate(buffer);
      if decompressed.Err? {
        return Err(decompressed.error);
      }
      r := FilesOfDecompressed(decompressed.value);
    }

    /** Depickling the index and walking its entries. */
    method FilesOfDecompressed(index: seq<byte>) returns (r: Result<seq<(string, Directory.Blob)>>)
      ensures r == FilesOfIndex(blob, index, key)
    {
      var depickler := new Depickler.Depickler(index);
      var depickled := depickler.ReadPickle();
      if depickled.Err? {
        return Err(depickled.error);
      }
      var heap := depickler.heap;
      var entries := ObjectEntries(heap, First(depickled.value));
      if entries.Err? {
        return Err(entries.error);
      }
      r := IndexFiles(heap, entries.value);
    }
  }
}

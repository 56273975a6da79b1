/** The compiled-script container (`.rpyc`): the RPC2 slot table and its
    DEFLATE-compressed chunks, with the single-chunk legacy fallback. The
    inflater is a parameter (the DEFLATE codec is not part of this model). */
module Load {
  import opened Text
  import opened Failures
  import DataReader

  /** The ten ASCII bytes that open an RPC2 container. */
  const Rpc2Signature: string := "RENPY RPC2"
  const Rpc2Bytes: seq<byte> := [0x52, 0x45, 0x4E, 0x50, 0x59, 0x20, 0x52, 0x50, 0x43, 0x32]

  // The `Slots` enumeration.
  const Legacy: int := -1
  const End: int := 0
  const BeforeStaticTransforms: int := 1
  const AfterStaticTransforms: int := 2

  /** One row of the slot table. */
  datatype Chunk = Chunk(slot: int, offset: nat, length: nat)

  /** A row together with its inflated payload. */
  datatype DataChunk = DataChunk(slot: int, offset: nat, length: nat, data: seq<byte>)

  type Inflater = seq<byte> -> Result<seq<byte>>

  // ------------------------------------------------------------- signature

  /** The first ten bytes, read as a string, are the signature. */
  predicate IsRpc2(data: seq<byte>)
  {
    Latin1(DataReader.SliceOf(data, 0, |Rpc2Signature|)) == Rpc2Signature
  }

  /** The signature test is a comparison of raw bytes: a shorter file never
      matches. */
  lemma IsRpc2Bytes(data: seq<byte>)
    ensures IsRpc2(data) <==> |data| >= 10 && data[..10] == Rpc2Bytes
  {
    assert |Rpc2Signature| == 10;
    assert forall i :: 0 <= i < 10 ==> Rpc2Signature[i] as int == Rpc2Bytes[i];
    var s := Latin1(DataReader.SliceOf(data, 0, 10));
    if |data| >= 10 {
      assert IsRpc2(data) ==> data[..10] == Rpc2Bytes by {
        if IsRpc2(data) {
          forall i | 0 <= i < 10 ensures data[i] == Rpc2Bytes[i] {
            assert s[i] == Rpc2Signature[i];
          }
        }
      }
      assert data[..10] == Rpc2Bytes ==> IsRpc2(data) by {
        if data[..10] == Rpc2Bytes {
          forall i | 0 <= i < 10 ensures s[i] == Rpc2Signature[i] {
            assert data[..10][i] == Rpc2Bytes[i];
          }
          assert s == Rpc2Signature;
        }
      }
    }
  }

  // ------------------------------------------------------------ slot table

  /** The little-endian uint32 triple at `p`. */
  function EntryAt(data: seq<byte>, p: int): (r: Result<Chunk>)
    ensures r.Ok? <==> 0 <= p && p + 12 <= |data|
    ensures r.Err? ==> r.error == BufferUnderrun
  {
    var slot :- DataReader.NumberAt(data, p, DataReader.Uint32, true);
    var offset :- DataReader.NumberAt(data, p + 4, DataReader.Uint32, true);
    var length :- DataReader.NumberAt(data, p + 8, DataReader.Uint32, true);
    Ok(Chunk(slot, offset, length))
  }

  /** The rows from `p` up to the first one whose slot is 0. */
  function SlotTableAt(data: seq<byte>, p: int): (r: Result<seq<Chunk>>)
    ensures r.Ok? ==> 0 <= p && p + 12 * (|r.value| + 1) <= |data|
    ensures r.Ok? ==> forall c :: c in r.value ==> c.slot != End
    ensures r.Err? ==> r.error == BufferUnderrun
    decreases |data| - p
  {
    var c :- EntryAt(data, p);
    if c.slot == End then Ok([])
    else
      var rest :- SlotTableAt(data, p + 12);
      Ok([c] + rest)
  }

  /** The table keeps the file's order, leaves out the terminating row, and
      stops at the first row with slot 0. */
  lemma {:induction false} SlotTableLayout(data: seq<byte>, p: int)
    ensures var r := SlotTableAt(data, p);
            r.Ok? ==> && (forall i :: 0 <= i < |r.value| ==> EntryAt(data, p + 12 * i) == Ok(r.value[i]) && r.value[i].slot != End)
                      && EntryAt(data, p + 12 * |r.value|).Ok?
                      && EntryAt(data, p + 12 * |r.value|).value.slot == End
    decreases |data| - p
  {
    var r := SlotTableAt(data, p);
    if r.Ok? {
      SlotTableUnfold(data, p);
      var head := EntryAt(data, p).value;
      if head.slot != End {
        var rest := SlotTableAt(data, p + 12);
        SlotTableLayout(data, p + 12);
        ShiftedRows(data, p, head, rest.value);
      }
    }
  }

  /** One row of the table: a row with slot 0 ends it, any other row heads
      the rows after it. */
  lemma SlotTableUnfold(data: seq<byte>, p: int)
    requires SlotTableAt(data, p).Ok?
    ensures EntryAt(data, p).Ok?
    ensures EntryAt(data, p).value.slot == End ==> SlotTableAt(data, p).value == []
    ensures EntryAt(data, p).value.slot != End ==>
              SlotTableAt(data, p + 12).Ok? && SlotTableAt(data, p).value == [EntryAt(data, p).value] + SlotTableAt(data, p + 12).value
  {
  }

  /** The rows after the first sit twelve bytes further on. */
  lemma ShiftedRows(data: seq<byte>, p: int, head: Chunk, rest: seq<Chunk>)
    requires EntryAt(data, p) == Ok(head) && head.slot != End
    requires forall j :: 0 <= j < |rest| ==> EntryAt(data, p + 12 + 12 * j) == Ok(rest[j]) && rest[j].slot != End
    requires EntryAt(data, p + 12 + 12 * |rest|).Ok? && EntryAt(data, p + 12 + 12 * |rest|).value.slot == End
    ensures var rows := [head] + rest;
            && (forall i :: 0 <= i < |rows| ==> EntryAt(data, p + 12 * i) == Ok(rows[i]) && rows[i].slot != End)
            && EntryAt(data, p + 12 * |rows|).Ok?
            && EntryAt(data, p + 12 * |rows|).value.slot == End
  {
    var rows := [head] + rest;
    forall i | 0 <= i < |rows|
      ensures EntryAt(data, p + 12 * i) == Ok(rows[i]) && rows[i].slot != End
    {
      if i > 0 {
        assert rows[i] == rest[i - 1];
        assert p + 12 * i == p + 12 + 12 * (i - 1);
      }
    }
    assert p + 12 * |rows| == p + 12 + 12 * |rest|;
  }

  // --------------------------------------------------- writing the table

  /** `v` as `n` bytes, least significant first. */
  function LeBytes(v: nat, n: nat): (bs: seq<byte>)
    ensures |bs| == n
  {
    if n == 0 then [] else [v % 256] + LeBytes(v / 256, n - 1)
  }

  lemma {:induction false} LeBytesDecode(v: nat, n: nat)
    requires v < DataReader.Pow256(n)
    ensures DataReader.LittleEndian(LeBytes(v, n)) == v
  {
    if n > 0 {
      var bs := LeBytes(v, n);
      assert bs[1..] == LeBytes(v / 256, n - 1);
      LeBytesDecode(v / 256, n - 1);
    }
  }

  predicate Encodable(c: Chunk)
  {
    0 <= c.slot < 0x1_0000_0000 && c.offset < 0x1_0000_0000 && c.length < 0x1_0000_0000
  }

  function RowBytes(c: Chunk): (bs: seq<byte>)
    requires Encodable(c)
    ensures |bs| == 12
  {
    LeBytes(c.slot, 4) + LeBytes(c.offset, 4) + LeBytes(c.length, 4)
  }

  /** The rows of `chunks` followed by an all-zero terminating row. */
  function TableBytes(chunks: seq<Chunk>): seq<byte>
    requires forall i :: 0 <= i < |chunks| ==> Encodable(chunks[i])
  {
    if chunks == [] then RowBytes(Chunk(End, 0, 0))
    else RowBytes(chunks[0]) + TableBytes(chunks[1..])
  }

  lemma Uint32Of(data: seq<byte>, p: int, v: nat)
    requires 0 <= p && p + 4 <= |data| && v < 0x1_0000_0000 && data[p..p + 4] == LeBytes(v, 4)
    ensures DataReader.NumberAt(data, p, DataReader.Uint32, true) == Ok(v)
  {
    DataReader.SmallPowers();
    LeBytesDecode(v, 4);
  }

  lemma EntryOf(data: seq<byte>, p: int, c: Chunk)
    requires Encodable(c) && 0 <= p && p + 12 <= |data| && data[p..p + 12] == RowBytes(c)
    ensures EntryAt(data, p) == Ok(c)
  {
    var row := data[p..p + 12];
    var a, b, d := LeBytes(c.slot, 4), LeBytes(c.offset, 4), LeBytes(c.length, 4);
    assert row == a + b + d;
    forall k | 0 <= k < 4
      ensures data[p + k] == a[k] && data[p + 4 + k] == b[k] && data[p + 8 + k] == d[k]
    {
      assert data[p + k] == row[k] && data[p + 4 + k] == row[4 + k] && data[p + 8 + k] == row[8 + k];
    }
    assert data[p..p + 4] == a;
    assert data[p + 4..p + 8] == b;
    assert data[p + 8..p + 12] == d;
    Uint32Of(data, p, c.slot);
    Uint32Of(data, p + 4, c.offset);
    Uint32Of(data, p + 8, c.length);
  }

  /** Reading back a written table, wherever it sits in the file, gives the
      rows that were written. */
  lemma {:induction false} SlotTableRoundTrip(before: seq<byte>, chunks: seq<Chunk>, after: seq<byte>)
    requires forall i :: 0 <= i < |chunks| ==> Encodable(chunks[i]) && chunks[i].slot != End
    ensures SlotTableAt(before + TableBytes(chunks) + after, |before|) == Ok(chunks)
    decreases |chunks|
  {
    var data := before + TableBytes(chunks) + after;
    var p := |before|;
    if chunks == [] {
      assert data[p..p + 12] == RowBytes(Chunk(End, 0, 0));
      EntryOf(data, p, Chunk(End, 0, 0));
    } else {
      var c := chunks[0];
      var row := RowBytes(c);
      assert data == (before + row) + TableBytes(chunks[1..]) + after;
      assert data[p..p + 12] == row;
      EntryOf(data, p, c);
      SlotTableRoundTrip(before + row, chunks[1..], after);
      assert [c] + chunks[1..] == chunks;
    }
  }

  // ---------------------------------------------------------------- chunks

  /** Each row's bytes `[offset, offset + length)`, inflated, in table order;
      the first failure of the inflater fails the whole load. */
  function InflateChunks(data: seq<byte>, chunks: seq<Chunk>, inflate: Inflater): (r: Result<seq<DataChunk>>)
    ensures r.Ok? ==> |r.value| == |chunks|
  {
    if chunks == [] then Ok([])
    else
      var c := chunks[0];
      var d :- inflate(PayloadOf(data, c));
      var rest :- InflateChunks(data, chunks[1..], inflate);
      Ok([DataChunk(c.slot, c.offset, c.length, d)] + rest)
  }

  function PayloadOf(data: seq<byte>, c: Chunk): seq<byte>
  {
    DataReader.SliceOf(data, c.offset, c.offset + c.length)
  }

  /** Each chunk keeps its row and holds its inflated slice; the load fails
      exactly when some slice does not inflate. */
  lemma {:induction false} InflateChunksShape(data: seq<byte>, chunks: seq<Chunk>, inflate: Inflater)
    ensures var r := InflateChunks(data, chunks, inflate);
            r.Ok? ==> forall i :: 0 <= i < |chunks| ==>
              && r.value[i].slot == chunks[i].slot
              && r.value[i].offset == chunks[i].offset
              && r.value[i].length == chunks[i].length
              && inflate(PayloadOf(data, chunks[i])) == Ok(r.value[i].data)
    ensures InflateChunks(data, chunks, inflate).Err? <==>
              exists i :: 0 <= i < |chunks| && inflate(PayloadOf(data, chunks[i])).Err?
    decreases |chunks|
  {
    if chunks != [] {
      var tail := chunks[1..];
      InflateChunksShape(data, tail, inflate);
      var r := InflateChunks(data, chunks, inflate);
      if r.Ok? {
        var rest := InflateChunks(data, tail, inflate);
        forall i | 0 <= i < |chunks|
          ensures && r.value[i].slot == chunks[i].slot
                  && r.value[i].offset == chunks[i].offset
                  && r.value[i].length == chunks[i].length
                  && inflate(PayloadOf(data, chunks[i])) == Ok(r.value[i].data)
        {
          if i > 0 {
            assert r.value[i] == rest.value[i - 1] && chunks[i] == tail[i - 1];
          }
        }
        forall i | 0 <= i < |chunks| ensures inflate(PayloadOf(data, chunks[i])).Ok? {
          if i > 0 {
            assert chunks[i] == tail[i - 1];
          }
        }
      } else if inflate(PayloadOf(data, chunks[0])).Ok? {
        var i :| 0 <= i < |tail| && inflate(PayloadOf(data, tail[i])).Err?;
        assert chunks[i + 1] == tail[i];
      }
    }
  }

  /** `loadScript`: what a compiled script file holds. */
  function ScriptData(data: seq<byte>, inflate: Inflater): (r: Result<seq<DataChunk>>)
    ensures r.Ok? && !IsRpc2(data) ==> |r.value| == 1 && r.value[0].slot == Legacy && r.value[0].length == |data|
    ensures r.Ok? && IsRpc2(data) ==> forall k :: 0 <= k < |r.value| ==> r.value[k].slot != End
  {
    if !IsRpc2(data) then
      var d :- inflate(data);
      Ok([DataChunk(Legacy, 0, |data|, d)])
    else
      var table :- SlotTableAt(data, |Rpc2Signature|);
      InflateChunksShape(data, table, inflate);
      var r := InflateChunks(data, table, inflate);
      assert r.Ok? ==> forall k :: 0 <= k < |r.value| ==> table[k] in table;
      r
  }

  /** A file without the signature is one legacy chunk: slot -1 at offset 0,
      as long as the whole file, holding the whole file inflated. */
  lemma LegacyScript(data: seq<byte>, inflate: Inflater)
    requires !(|data| >= 10 && data[..10] == Rpc2Bytes)
    ensures inflate(data).Ok? <==> ScriptData(data, inflate).Ok?
    ensures ScriptData(data, inflate).Ok? ==> ScriptData(data, inflate).value == [DataChunk(Legacy, 0, |data|, inflate(data).value)]
  {
    IsRpc2Bytes(data);
  }

  /** A file with the signature holds one chunk per row of its slot table
      (read from byte 10), each keeping its row and holding the inflated
      bytes the row points at. */
  lemma Rpc2Script(data: seq<byte>, inflate: Inflater)
    requires |data| >= 10 && data[..10] == Rpc2Bytes && ScriptData(data, inflate).Ok?
    ensures SlotTableAt(data, 10).Ok?
    ensures var table, r := SlotTableAt(data, 10).value, ScriptData(data, inflate).value;
            && |r| == |table|
            && forall i :: 0 <= i < |r| ==>
                 && table[i].slot != End
                 && r[i].slot == table[i].slot && r[i].offset == table[i].offset && r[i].length == table[i].length
                 && inflate(PayloadOf(data, table[i])) == Ok(r[i].data)
  {
    IsRpc2Bytes(data);
    SlotTableLayout(data, 10);
    InflateChunksShape(data, SlotTableAt(data, 10).value, inflate);
  }

  lemma SignatureThen(table: seq<byte>, payload: seq<byte>)
    ensures IsRpc2(Rpc2Bytes + table + payload)
  {
    var data := Rpc2Bytes + table + payload;
    assert data[..10] == (Rpc2Bytes + table)[..10] == Rpc2Bytes;
    IsRpc2Bytes(data);
  }

  /** A container written as signature, table and payload loads back as the
      rows written, each holding its inflated slice of the file. */
  lemma WrittenScript(chunks: seq<Chunk>, payload: seq<byte>, inflate: Inflater)
    requires forall i :: 0 <= i < |chunks| ==> Encodable(chunks[i]) && chunks[i].slot != End
    ensures var data := Rpc2Bytes + TableBytes(chunks) + payload;
            ScriptData(data, inflate) == InflateChunks(data, chunks, inflate)
  {
    SignatureThen(TableBytes(chunks), payload);
    assert |Rpc2Signature| == 10;
    SlotTableRoundTrip(Rpc2Bytes, chunks, payload);
  }

  // ---------------------------------------------------------------- reader

  function PrependOk<T>(xs: seq<T>, r: Result<seq<T>>): Result<seq<T>>
  {
    if r.Ok? then Ok(xs + r.value) else r
  }

  /** A row is its three numbers read one after the other; the first that
      cannot be read decides the error. */
  lemma EntryReads(data: seq<byte>, p: int)
    ensures var a := DataReader.NumberAt(data, p, DataReader.Uint32, true);
            var b := DataReader.NumberAt(data, p + 4, DataReader.Uint32, true);
            var d := DataReader.NumberAt(data, p + 8, DataReader.Uint32, true);
            && (a.Err? ==> EntryAt(data, p) == Err(a.error))
            && (a.Ok? && b.Err? ==> EntryAt(data, p) == Err(b.error))
            && (a.Ok? && b.Ok? && d.Err? ==> EntryAt(data, p) == Err(d.error))
            && (a.Ok? && b.Ok? && d.Ok? ==> EntryAt(data, p) == Ok(Chunk(a.value, b.value, d.value)))
  {
  }

  lemma SlotTableStep(data: seq<byte>, p: int, chunks: seq<Chunk>, c: Chunk)
    requires EntryAt(data, p) == Ok(c) && c.slot != End
    ensures PrependOk(chunks, SlotTableAt(data, p)) == PrependOk(chunks + [c], SlotTableAt(data, p + 12))
  {
    var rest := SlotTableAt(data, p + 12);
    if rest.Ok? {
      assert chunks + ([c] + rest.value) == (chunks + [c]) + rest.value;
    }
  }

  lemma InflateStep(data: seq<byte>, chunks: seq<Chunk>, i: nat, done: seq<DataChunk>, inflate: Inflater)
    requires i < |chunks|
    ensures var c := chunks[i];
            var d := inflate(PayloadOf(data, c));
            && (d.Err? ==> InflateChunks(data, chunks[i..], inflate) == Err(d.error))
            && (d.Ok? ==> PrependOk(done, InflateChunks(data, chunks[i..], inflate))
                          == PrependOk(done + [DataChunk(c.slot, c.offset, c.length, d.value)], InflateChunks(data, chunks[i + 1..], inflate)))
  {
    var c := chunks[i];
    assert chunks[i..][0] == c;
    assert chunks[i..][1..] == chunks[i + 1..];
    var d := inflate(PayloadOf(data, c));
    var rest := InflateChunks(data, chunks[i + 1..], inflate);
    if d.Ok? && rest.Ok? {
      var x := DataChunk(c.slot, c.offset, c.length, d.value);
      assert done + ([x] + rest.value) == (done + [x]) + rest.value;
    }
  }

  /** One row of the table: slot, offset and length, each a little-endian
      uint32. */
  method ReadRow(reader: DataReader.Reader) returns (r: Result<Chunk>)
    requires reader.littleEndian
    modifies reader`pointer
    ensures r == EntryAt(reader.data, old(reader.pointer))
    ensures r.Ok? ==> reader.pointer == old(reader.pointer) + 12
  {
    ghost var p := reader.pointer;
    EntryReads(reader.data, p);
    var slot := reader.ReadNumber(DataReader.Uint32);
    if slot.Err? {
      return Err(slot.error);
    }
    var offset := reader.ReadNumber(DataReader.Uint32);
    if offset.Err? {
      return Err(offset.error);
    }
    var length := reader.ReadNumber(DataReader.Uint32);
    if length.Err? {
      return Err(length.error);
    }
    r := Ok(Chunk(slot.value, offset.value, length.value));
  }

  /** Reads the slot table from the reader's pointer until a row with slot
      0, leaving the pointer after that row. */
  method ReadSlotTable(reader: DataReader.Reader) returns (r: Result<seq<Chunk>>)
    requires reader.littleEndian && 0 <= reader.pointer
    modifies reader`pointer
    ensures r == SlotTableAt(reader.data, old(reader.pointer))
  {
    var chunks: seq<Chunk> := [];
    ghost var table := SlotTableAt(reader.data, reader.pointer);
    assert table == PrependOk(chunks, table) by {
      if table.Ok? {
        assert [] + table.value == table.value;
      }
    }
    while true
      invariant reader.littleEndian && 0 <= reader.pointer
      invariant table == PrependOk(chunks, SlotTableAt(reader.data, reader.pointer))
      decreases |reader.data| - reader.pointer
    {
      ghost var p := reader.pointer;
      var row := ReadRow(reader);
      if row.Err? {
        assert table == Err(row.error);
        return Err(row.error);
      }
      var c := row.value;
      if c.slot == End {
        assert SlotTableAt(reader.data, p) == Ok([]);
        assert chunks + [] == chunks;
        return Ok(chunks);
      }
      SlotTableStep(reader.data, p, chunks, c);
      chunks := chunks + [c];
    }
  }

  /** `loadScript`: the checksum test always passes, so this is the loading
      of the script data, with the inflater for `Pako.inflate`. */
  method LoadScript(data: seq<byte>, inflate: Inflater) returns (r: Result<seq<DataChunk>>)
    ensures r == ScriptData(data, inflate)
  {
    var reader := new DataReader.Reader(data);
    var header := reader.ReadString(|Rpc2Signature|);
    if header != Rpc2Signature {
      reader.pointer := 0;
      var buffer := reader.ReadBuffer(|data|);
      assert buffer == data[0..|data|] == data;
      assert !IsRpc2(data);
      var decompressed := inflate(buffer);
      if decompressed.Err? {
        return Err(decompressed.error);
      }
      return Ok([DataChunk(Legacy, 0, |data|, decompressed.value)]);
    }
    var table := ReadSlotTable(reader);
    if table.Err? {
      return Err(table.error);
    }
    assert IsRpc2(data);
    r := InflateAll(reader, table.value, inflate);
  }

  /** The `chunks.map`: for each row, move the pointer to its offset, read
      its length and inflate what was read. */
  method InflateAll(reader: DataReader.Reader, chunks: seq<Chunk>, inflate: Inflater) returns (r: Result<seq<DataChunk>>)
    modifies reader`pointer
    ensures r == InflateChunks(reader.data, chunks, inflate)
  {
    var done: seq<DataChunk> := [];
    var i := 0;
    assert InflateChunks(reader.data, chunks, inflate) == PrependOk(done, InflateChunks(reader.data, chunks[i..], inflate)) by {
      assert chunks[0..] == chunks;
      var all := InflateChunks(reader.data, chunks, inflate);
      if all.Ok? {
        assert [] + all.value == all.value;
      }
    }
    while i < |chunks|
      invariant 0 <= i <= |chunks|
      invariant InflateChunks(reader.data, chunks, inflate) == PrependOk(done, InflateChunks(reader.data, chunks[i..], inflate))
    {
      var c := chunks[i];
      reader.pointer := c.offset;
      var buffer := reader.ReadBuffer(c.length);
      assert buffer == PayloadOf(reader.data, c);
      var decompressed := inflate(buffer);
      InflateStep(reader.data, chunks, i, done, inflate);
      if decompressed.Err? {
        return Err(decompressed.error);
      }
      done := done + [DataChunk(c.slot, c.offset, c.length, decompressed.value)];
      i := i + 1;
    }
    assert chunks[i..] == [];
    assert done + [] == done;
    r := Ok(done);
  }
}

/** The semantics of the depickler: a stack machine over Python pickle
    opcodes (protocols 2 to 5). Lists, tuples, dicts and class instances are
    JavaScript objects that several stack slots and memo slots can share, so
    they live in a heap (`seq<Obj>`) and the stack holds references into it.
    `Step` is one `readOperation`, `Run` is `readPickle`; the classes in
    module `Depickler` are proved to follow them. */
module Pickle {
  import opened Text
  import opened Failures
  import DataReader
  import NumberUtils

  // ---------------------------------------------------------------- values

  /** A value on the stack or in the memo. */
  datatype Value =
    | Undefined                               // what `pop`/`last` give on an empty stack
    | Null                                    // NONE
    | Bool(b: bool)
    | Int(i: int)
    | Str(s: string)
    | Bytes(bytes: seq<byte>)                 // a Uint8Array
    | Global(moduleName: string, name: string) // a `DummyModule` made by `findClass`
    | Ref(id: nat)                            // an object in the heap
    | Mark                                    // `Stack.MARK`

  /** One key of a plain object used as a dict. */
  datatype Entry = Entry(key: string, value: Value)

  /** The heap objects: JavaScript arrays (lists and tuples), plain objects
      (dicts, keys in insertion order) and `DummyClass` instances, whose
      `state` is `Undefined` until BUILD sets it. */
  datatype Obj =
    | List(items: seq<Value>)
    | Dict(entries: seq<Entry>)
    | Instance(moduleName: string, name: string, args: seq<Value>, state: Value)

  /** The `Memo` array: the slots that were written and the array's length. */
  datatype MemoTable = MemoTable(slots: map<nat, Value>, length: nat)

  /** Everything `readOperation` reads and writes. */
  datatype Machine = Machine(pointer: int, protocol: int, stack: seq<Value>, memo: MemoTable, heap: seq<Obj>)

  /** A new depickler: pointer 0, protocol UNKNOWN (-1), nothing stacked. */
  function Initial(): Machine
  {
    Machine(0, -1, [], MemoTable(map[], 0), [])
  }

  // ----------------------------------------------------------------- stack

  /** `stack.last`. */
  function LastOf(s: seq<Value>): Value
  {
    if s == [] then Undefined else s[|s| - 1]
  }

  /** `stack.pop()`: the value and the stack left behind. */
  function PopOf(s: seq<Value>): (r: (Value, seq<Value>))
    ensures s != [] ==> s == r.1 + [r.0]
    ensures s == [] ==> r == (Undefined, [])
  {
    if s == [] then (Undefined, []) else (s[|s| - 1], s[..|s| - 1])
  }

  /** Index of the topmost MARK. */
  function LastMark(s: seq<Value>): (k: Option<nat>)
    ensures k.Some? ==> k.value < |s| && s[k.value] == Mark && Mark !in s[k.value + 1..]
    ensures k.None? ==> Mark !in s
  {
    if s == [] then None
    else if s[|s| - 1] == Mark then Some(|s| - 1)
    else
      var k := LastMark(s[..|s| - 1]);
      if k.Some? then
        assert s[k.value + 1..] == s[..|s| - 1][k.value + 1..] + [s[|s| - 1]];
        k
      else
        assert s == s[..|s| - 1] + [s[|s| - 1]];
        k
  }

  /** `popMark()`: the items above the topmost MARK in push order and the
      stack below that MARK. Without a MARK every item is taken. */
  function PopMarkOf(s: seq<Value>): (r: (seq<Value>, seq<Value>))
    ensures Mark !in r.0
    ensures Mark in s ==> s == r.1 + [Mark] + r.0
    ensures Mark !in s ==> r == (s, [])
  {
    match LastMark(s)
    case None => (s, [])
    case Some(k) =>
      assert s == s[..k] + [Mark] + s[k + 1..];
      (s[k + 1..], s[..k])
  }

  // ------------------------------------------------------------------ memo

  /** `memo.get(i)`: a slot never written reads as `undefined`. */
  function MemoGet(m: MemoTable, i: int): (v: Value)
    ensures v != Undefined ==> i >= 0 && i in m.slots && m.slots[i] == v
    ensures i >= 0 && i in m.slots ==> v == m.slots[i]
  {
    if i >= 0 && i in m.slots then m.slots[i] else Undefined
  }

  /** The largest length of a JavaScript array, 2^32 - 1; the array indices
      are the integers below it. */
  const MaxArrayLength: nat := 0xFFFF_FFFF

  /** `memo.set(v, i)`: the array grows to cover `i` when `i` is an array
      index; `memo[2^32 - 1] = v` stores a plain property and keeps the length. */
  function MemoSet(m: MemoTable, v: Value, i: nat): (r: MemoTable)
    ensures i in r.slots && r.slots[i] == v && r.slots.Keys == m.slots.Keys + {i}
    ensures forall j :: j in m.slots && j != i ==> r.slots[j] == m.slots[j]
    ensures m.length <= r.length && (i < MaxArrayLength ==> i < r.length)
    ensures i >= MaxArrayLength ==> r.length == m.length
  {
    MemoTable(m.slots[i := v], if i < MaxArrayLength && i + 1 > m.length then i + 1 else m.length)
  }

  /** `memo.append(v)`: `push`, a store at the current length that fails with
      a RangeError once the array already holds 2^32 - 1 elements. */
  function MemoAppend(m: MemoTable, v: Value): (r: Result<MemoTable>)
    ensures r.Ok? <==> m.length < MaxArrayLength
    ensures r.Err? ==> r.error == ArrayLengthOverflow
    ensures r.Ok? ==> r.value.length == m.length + 1 && m.length in r.value.slots && r.value.slots[m.length] == v
  {
    if m.length >= MaxArrayLength then Err(ArrayLengthOverflow)
    else Ok(MemoSet(m, v, m.length))
  }

  /** A store is read back from its slot and leaves every other slot alone,
      and only an array index grows the length; an append lands in the slot
      that was the length, and fails exactly at the array-length limit. */
  lemma MemoStoreLoad(m: MemoTable, v: Value, i: nat, j: int)
    ensures MemoGet(MemoSet(m, v, i), i) == v
    ensures j != i ==> MemoGet(MemoSet(m, v, i), j) == MemoGet(m, j)
    ensures MemoSet(m, v, i).length == (if i < MaxArrayLength && i >= m.length then i + 1 else m.length)
    ensures MemoAppend(m, v).Ok? <==> m.length < MaxArrayLength
    ensures MemoAppend(m, v).Ok? ==> MemoGet(MemoAppend(m, v).value, m.length) == v && MemoAppend(m, v).value.length == m.length + 1
  {
  }

  /** A store at 2^32 - 1 into an empty memo leaves its length at 0, so the
      next append lands in slot 0 and slot 0 reads back the appended value. */
  lemma MemoNonIndexStore(v: Value, w: Value)
    ensures var t := MemoSet(MemoTable(map[], 0), v, 0xFFFF_FFFF);
            t.length == 0 && MemoGet(t, 0xFFFF_FFFF) == v
            && MemoAppend(t, w).Ok? && MemoGet(MemoAppend(t, w).value, 0) == w
  {
  }

  // ---------------------------------------------------------- dict objects

  /** The value a plain object holds under `key`. */
  function Lookup(entries: seq<Entry>, key: string): (r: Option<Value>)
    ensures r.Some? <==> key in Keys(entries)
    ensures r.Some? ==> Entry(key, r.value) in entries
  {
    if entries == [] then None
    else if entries[0].key == key then Some(entries[0].value)
    else Lookup(entries[1..], key)
  }

  function Keys(entries: seq<Entry>): seq<string>
  {
    if entries == [] then [] else [entries[0].key] + Keys(entries[1..])
  }

  /** `obj[key] = value`: an existing key keeps its place, a new one goes last. */
  function Assign(entries: seq<Entry>, key: string, value: Value): (r: seq<Entry>)
    ensures Keys(r) == if key in Keys(entries) then Keys(entries) else Keys(entries) + [key]
  {
    if entries == [] then [Entry(key, value)]
    else if entries[0].key == key then [Entry(key, value)] + entries[1..]
    else [entries[0]] + Assign(entries[1..], key, value)
  }

  /** After an assignment the key reads back the value and other keys read
      as before. */
  lemma {:induction false} AssignLookup(entries: seq<Entry>, key: string, value: Value, other: string)
    ensures Lookup(Assign(entries, key, value), key) == Some(value)
    ensures other != key ==> Lookup(Assign(entries, key, value), other) == Lookup(entries, other)
  {
    if entries != [] && entries[0].key != key {
      AssignLookup(entries[1..], key, value, other);
    }
  }

  /** The property key a value becomes (`String(v)`) for the primitives; a
      symbol or object key is not modelled. */
  function KeyOf(v: Value): (r: Result<string>)
    ensures r.Ok? <==> v.Str? || v.Int? || v.Bool? || v.Null? || v.Undefined?
    ensures v.Str? ==> r == Ok(v.s)
    ensures r.Err? ==> r.error == NotModelled
  {
    match v
    case Str(s) => Ok(s)
    case Int(i) => Ok(IntToString(i))
    case Bool(b) => Ok(if b then "true" else "false")
    case Null => Ok("null")
    case Undefined => Ok("undefined")
    case _ => Err(NotModelled)
  }

  /** Assign `(items[0], items[1])`, `(items[2], items[3])`, ... in order. */
  function AssignPairs(entries: seq<Entry>, items: seq<Value>): (r: Result<seq<Entry>>)
    requires |items| % 2 == 0
    ensures r.Ok? ==> forall k :: k in Keys(entries) ==> k in Keys(r.value)
    ensures r.Err? ==> r.error == NotModelled
    decreases |items|
  {
    if items == [] then Ok(entries)
    else
      var key :- KeyOf(items[0]);
      AssignPairs(Assign(entries, key, items[1]), items[2..])
  }

  /** One pair assigned by SETITEM: the key reads back the value. */
  lemma AssignOnePair(entries: seq<Entry>, k: Value, v: Value)
    requires KeyOf(k).Ok?
    ensures AssignPairs(entries, [k, v]).Ok?
    ensures Lookup(AssignPairs(entries, [k, v]).value, KeyOf(k).value) == Some(v)
  {
    assert [k, v][2..] == [];
    AssignLookup(entries, KeyOf(k).value, v, KeyOf(k).value);
  }

  // ------------------------------------------------------------------ heap

  predicate IsList(h: seq<Obj>, v: Value)
  {
    v.Ref? && v.id < |h| && h[v.id].List?
  }

  /** `target[k] = v` for each pair; nothing is assigned (and nothing can
      fail) when there are no pairs. Primitive targets throw in strict mode;
      properties of arrays, instances, modules and byte arrays are not
      modelled. */
  function SetItems(h: seq<Obj>, target: Value, items: seq<Value>): (r: Result<seq<Obj>>)
    requires |items| % 2 == 0
    ensures r.Ok? ==> |r.value| == |h|
  {
    if items == [] then Ok(h)
    else match target
      case Ref(id) =>
        if id < |h| && h[id].Dict? then
          var entries :- AssignPairs(h[id].entries, items);
          Ok(h[id := Dict(entries)])
        else Err(NotModelled)
      case Global(_, _) => Err(NotModelled)
      case Bytes(_) => Err(NotModelled)
      case _ => Err(TypeError)
  }

  /** `inst.state = state`. */
  function Build(h: seq<Obj>, target: Value, state: Value): (r: Result<seq<Obj>>)
    ensures r.Ok? ==> |r.value| == |h|
  {
    match target
    case Ref(id) =>
      if id >= |h| then Err(NotModelled)
      else (match h[id]
        case Instance(mn, n, args, _) => Ok(h[id := Instance(mn, n, args, state)])
        case Dict(entries) => Ok(h[id := Dict(Assign(entries, "state", state))])
        case List(_) => Err(NotModelled))
    case Global(_, _) => Err(NotModelled)
    case Bytes(_) => Err(NotModelled)
    case _ => Err(TypeError)
  }

  /** `...args`: arrays give their items, strings their characters, byte
      arrays their bytes; anything else is not iterable. */
  function Spread(h: seq<Obj>, v: Value): (r: Result<seq<Value>>)
    ensures r.Ok? <==> IsList(h, v) || v.Str? || v.Bytes?
    ensures IsList(h, v) ==> r == Ok(h[v.id].items)
    ensures v.Str? ==> |r.value| == |v.s| && forall i :: 0 <= i < |v.s| ==> r.value[i] == Str([v.s[i]])
    ensures v.Bytes? ==> |r.value| == |v.bytes| && forall i :: 0 <= i < |v.bytes| ==> r.value[i] == Int(v.bytes[i] as int)
    ensures r.Err? ==> r.error == TypeError
  {
    match v
    case Ref(id) => if id < |h| && h[id].List? then Ok(h[id].items) else Err(TypeError)
    case Str(s) => Ok(seq(|s|, i requires 0 <= i < |s| => Str([s[i]])))
    case Bytes(bs) => Ok(seq(|bs|, i requires 0 <= i < |bs| => Int(bs[i])))
    case _ => Err(TypeError)
  }

  /** `module.make(...args)`: a new instance in the heap. Only a
      `DummyModule` has `make`. */
  function Make(h: seq<Obj>, cls: Value, args: Value): (r: Result<(seq<Obj>, Value)>)
    ensures r.Ok? ==> cls.Global? && r.value.1 == Ref(|h|)
    ensures r.Ok? ==> Spread(h, args).Ok?
                      && r.value.0 == h + [Instance(cls.moduleName, cls.name, Spread(h, args).value, Undefined)]
  {
    if !cls.Global? then Err(TypeError)
    else
      var argv :- Spread(h, args);
      Ok((h + [Instance(cls.moduleName, cls.name, argv, Undefined)], Ref(|h|)))
  }

  // --------------------------------------------------------------- opcodes

  /** The opcodes `readOperation` handles, the listed ones it does not, and
      the bytes the opcode table does not list. */
  datatype Opcode =
    | OpStop | OpProto | OpFrame | OpEmptyDict | OpMemoize | OpMark
    | OpShortBinUnicode | OpEmptyList | OpBinInt | OpShortBinBytes | OpTuple3
    | OpAppend | OpBinGet | OpSetItems | OpBinInt2 | OpBinPut | OpBinUnicode
    | OpLong1 | OpShortBinString | OpLongBinPut | OpGlobal | OpEmptyTuple
    | OpNewObj | OpNone | OpBinInt1 | OpTuple | OpTuple2 | OpBuild | OpNewFalse
    | OpNewTrue | OpAppends | OpTuple1 | OpLongBinGet | OpSetItem | OpReduce
    | Unimplemented(code: byte)
    | Unknown(code: byte)

  /** The opcodes that read text, bytes or a protocol number after them. */
  predicate ReadsText(op: Opcode)
  {
    || op.OpProto? || op.OpFrame? || op.OpShortBinUnicode? || op.OpBinUnicode?
    || op.OpShortBinString? || op.OpShortBinBytes? || op.OpGlobal?
  }

  /** The opcodes that read an integer or a memo index after them. */
  predicate ReadsNumber(op: Opcode)
  {
    || op.OpBinInt? || op.OpBinInt1? || op.OpBinInt2? || op.OpLong1?
    || op.OpBinGet? || op.OpLongBinGet? || op.OpBinPut? || op.OpLongBinPut?
  }

  /** The opcodes that push a constant or a new empty object. */
  predicate PushesConstant(op: Opcode)
  {
    || op.OpEmptyDict? || op.OpEmptyList? || op.OpEmptyTuple? || op.OpMark?
    || op.OpNone? || op.OpNewTrue? || op.OpNewFalse?
  }

  /** The opcodes that build a tuple from the top of the stack. */
  predicate ShapesStack(op: Opcode)
  {
    op.OpTuple1? || op.OpTuple2? || op.OpTuple3? || op.OpTuple?
  }

  /** Every value of the opcode table. */
  const Listed: set<int> := {
    0x28, 0x2E, 0x30, 0x31, 0x32, 0x46, 0x49, 0x4A, 0x4B, 0x4C, 0x4D, 0x4E,
    0x50, 0x51, 0x52, 0x53, 0x54, 0x55, 0x56, 0x58, 0x61, 0x62, 0x63, 0x64,
    0x7D, 0x65, 0x67, 0x68, 0x69, 0x6A, 0x6C, 0x5D, 0x6F, 0x70, 0x71, 0x72,
    0x73, 0x74, 0x29, 0x75, 0x47,
    0x80, 0x81, 0x82, 0x83, 0x84, 0x85, 0x86, 0x87, 0x88, 0x89, 0x8A, 0x8B,
    0x42, 0x43,
    0x8C, 0x8D, 0x8E, 0x8F, 0x90, 0x91, 0x92, 0x93, 0x94, 0x95,
    0x96, 0x97, 0x98
  }

  /** The byte of each handled opcode. */
  function Code(op: Opcode): byte
  {
    match op
    case OpStop => 0x2E
    case OpProto => 0x80
    case OpFrame => 0x95
    case OpEmptyDict => 0x7D
    case OpMemoize => 0x94
    case OpMark => 0x28
    case OpShortBinUnicode => 0x8C
    case OpEmptyList => 0x5D
    case OpBinInt => 0x4A
    case OpShortBinBytes => 0x43
    case OpTuple3 => 0x87
    case OpAppend => 0x61
    case OpBinGet => 0x68
    case OpSetItems => 0x75
    case OpBinInt2 => 0x4D
    case OpBinPut => 0x71
    case OpBinUnicode => 0x58
    case OpLong1 => 0x8A
    case OpShortBinString => 0x55
    case OpLongBinPut => 0x72
    case OpGlobal => 0x63
    case OpEmptyTuple => 0x29
    case OpNewObj => 0x81
    case OpNone => 0x4E
    case OpBinInt1 => 0x4B
    case OpTuple => 0x74
    case OpTuple2 => 0x86
    case OpBuild => 0x62
    case OpNewFalse => 0x89
    case OpNewTrue => 0x88
    case OpAppends => 0x65
    case OpTuple1 => 0x85
    case OpLongBinGet => 0x6A
    case OpSetItem => 0x73
    case OpReduce => 0x52
    case Unimplemented(b) => b
    case Unknown(b) => b
  }

  /** The `switch` of `readOperation`. */
  function Decode(b: byte): Opcode
  {
    if b == 0x2E then OpStop else if b == 0x80 then OpProto
    else if b == 0x95 then OpFrame else if b == 0x7D then OpEmptyDict
    else if b == 0x94 then OpMemoize else if b == 0x28 then OpMark
    else if b == 0x8C then OpShortBinUnicode else if b == 0x5D then OpEmptyList
    else if b == 0x4A then OpBinInt else if b == 0x43 then OpShortBinBytes
    else if b == 0x87 then OpTuple3 else if b == 0x61 then OpAppend
    else if b == 0x68 then OpBinGet else if b == 0x75 then OpSetItems
    else if b == 0x4D then OpBinInt2 else if b == 0x71 then OpBinPut
    else if b == 0x58 then OpBinUnicode else if b == 0x8A then OpLong1
    else if b == 0x55 then OpShortBinString else if b == 0x72 then OpLongBinPut
    else if b == 0x63 then OpGlobal else if b == 0x29 then OpEmptyTuple
    else if b == 0x81 then OpNewObj else if b == 0x4E then OpNone
    else if b == 0x4B then OpBinInt1 else if b == 0x74 then OpTuple
    else if b == 0x86 then OpTuple2 else if b == 0x62 then OpBuild
    else if b == 0x89 then OpNewFalse else if b == 0x88 then OpNewTrue
    else if b == 0x65 then OpAppends else if b == 0x85 then OpTuple1
    else if b == 0x6A then OpLongBinGet else if b == 0x73 then OpSetItem
    else if b == 0x52 then OpReduce
    else if b in Listed then Unimplemented(b)
    else Unknown(b)
  }

  /** Decoding loses nothing: each byte is the code of what it decodes to,
      a byte is `Unknown` exactly when the table does not list it, and every
      handled opcode is listed. */
  lemma DecodeCode(b: byte)
    ensures Code(Decode(b)) == b
    ensures Decode(b).Unknown? <==> b !in Listed
    ensures !Decode(b).Unknown? && !Decode(b).Unimplemented? ==> Decode(Code(Decode(b))) == Decode(b)
  {
  }

  // -------------------------------------------------------------- operands

  function U8(data: seq<byte>, p: int): (r: Result<int>)
    ensures 0 <= p < |data| ==> r == Ok(data[p] as int)
  {
    if 0 <= p < |data| then
      assert data[p..p + 1] == [data[p]] && [data[p]][1..] == [];
      DataReader.NumberAt(data, p, DataReader.Uint8, true)
    else DataReader.NumberAt(data, p, DataReader.Uint8, true)
  }

  function Push(m: Machine, v: Value): Machine
  {
    m.(stack := m.stack + [v])
  }

  /** A new object in the heap, referenced from the top of the stack. */
  function PushNew(m: Machine, o: Obj): Machine
  {
    m.(heap := m.heap + [o], stack := m.stack + [Ref(|m.heap|)])
  }

  // ------------------------------------------- one function per operation
  // `m.pointer` is already past the opcode byte.

  function ExecProto(data: seq<byte>, m: Machine): (r: Result<Machine>)
    ensures r.Ok? ==> r.value.pointer == m.pointer + 1
  {
    var v :- U8(data, m.pointer);
    if !(0 <= v <= 5) then Err(UnknownProtocol(v))
    else if v < 2 then Err(UnsupportedProtocol(v))
    else Ok(m.(pointer := m.pointer + 1, protocol := v))
  }

  /** FRAME: the 8-byte frame size is read and dropped. */
  function ExecFrame(data: seq<byte>, m: Machine): (r: Result<Machine>)
    ensures r.Ok? ==> r.value.pointer == m.pointer + 8
  {
    var _ :- DataReader.NumberAt(data, m.pointer, DataReader.BigUint64, true);
    Ok(m.(pointer := m.pointer + 8))
  }

  /** A text whose byte count comes first, as a `lengthType` number. */
  function ExecCountedText(data: seq<byte>, m: Machine, lengthType: DataReader.NumberType): (r: Result<Machine>)
    requires !DataReader.IsSigned(lengthType)
    ensures r.Ok? ==> r.value.pointer >= m.pointer
  {
    var n :- DataReader.NumberAt(data, m.pointer, lengthType, true);
    var q := m.pointer + DataReader.Size(lengthType);
    Ok(Push(m.(pointer := q + n), Str(Latin1(DataReader.SliceOf(data, q, q + n)))))
  }

  function ExecShortBinBytes(data: seq<byte>, m: Machine): (r: Result<Machine>)
    ensures r.Ok? ==> r.value.pointer >= m.pointer
  {
    var n :- U8(data, m.pointer);
    var q := m.pointer + 1;
    Ok(Push(m.(pointer := q + n), Bytes(DataReader.SliceOf(data, q, q + n))))
  }

  function ExecInt(data: seq<byte>, m: Machine, t: DataReader.NumberType): (r: Result<Machine>)
    ensures r.Ok? ==> r.value.pointer >= m.pointer
  {
    var v :- DataReader.NumberAt(data, m.pointer, t, true);
    Ok(Push(m.(pointer := m.pointer + DataReader.Size(t)), Int(v)))
  }

  /** LONG1: a one-byte count, then that many bytes read by
      `readCustomNumber(count, true)`. */
  function ExecLong1(data: seq<byte>, m: Machine): (r: Result<Machine>)
    ensures r.Ok? ==> r.value.pointer >= m.pointer
  {
    var n :- U8(data, m.pointer);
    var q := m.pointer + 1;
    var v := DataReader.CustomValue(DataReader.Reverse(DataReader.SliceOf(data, q, q + n)), n, true);
    Ok(Push(m.(pointer := q + n), Int(v)))
  }

  /** GLOBAL: module and name, each read up to a newline. */
  function ExecGlobal(data: seq<byte>, m: Machine): (r: Result<Machine>)
    ensures r.Ok? ==> r.value.pointer >= m.pointer
  {
    var (moduleName, q) :- DataReader.TerminatedAt(data, m.pointer, 0x0A);
    var (name, q') :- DataReader.TerminatedAt(data, q, 0x0A);
    Ok(Push(m.(pointer := q'), Global(moduleName, name)))
  }

  function ExecTuple1(m: Machine): Machine
  {
    var (a, s1) := PopOf(m.stack);
    PushNew(m.(stack := s1), List([a]))
  }

  /** `[pop(), pop()].reverse()`. */
  function ExecTuple2(m: Machine): Machine
  {
    var (b, s1) := PopOf(m.stack);
    var (a, s2) := PopOf(s1);
    PushNew(m.(stack := s2), List([a, b]))
  }

  /** `[pop(), pop(), pop()].reverse()`. */
  function ExecTuple3(m: Machine): Machine
  {
    var (c, s1) := PopOf(m.stack);
    var (b, s2) := PopOf(s1);
    var (a, s3) := PopOf(s2);
    PushNew(m.(stack := s3), List([a, b, c]))
  }

  /** TUPLE: `[...popMark()].reverse()`. */
  function ExecTuple(m: Machine): Machine
  {
    var (items, rest) := PopMarkOf(m.stack);
    PushNew(m.(stack := rest), List(DataReader.Reverse(items)))
  }

  /** APPEND: `last.push(pop())`; only an array has `push`. */
  function ExecAppend(m: Machine): Result<Machine>
  {
    var (v, s1) := PopOf(m.stack);
    var t := LastOf(s1);
    if IsList(m.heap, t) then Ok(m.(stack := s1, heap := m.heap[t.id := List(m.heap[t.id].items + [v])]))
    else Err(TypeError)
  }

  /** APPENDS: `last.push(...popMark())`. */
  function ExecAppends(m: Machine): Result<Machine>
  {
    var (items, rest) := PopMarkOf(m.stack);
    var t := LastOf(rest);
    if IsList(m.heap, t) then Ok(m.(stack := rest, heap := m.heap[t.id := List(m.heap[t.id].items + items)]))
    else Err(TypeError)
  }

  /** BINGET/LONG_BINGET: push the stored value itself; an unset slot fails. */
  function ExecGet(data: seq<byte>, m: Machine, t: DataReader.NumberType): (r: Result<Machine>)
    requires !DataReader.IsSigned(t)
    ensures r.Ok? ==> r.value.pointer >= m.pointer
  {
    var i :- DataReader.NumberAt(data, m.pointer, t, true);
    var v := MemoGet(m.memo, i);
    if v == Undefined then Err(MemoMiss(i))
    else Ok(Push(m.(pointer := m.pointer + DataReader.Size(t)), v))
  }

  /** BINPUT/LONG_BINPUT: store the top at the index read. */
  function ExecPut(data: seq<byte>, m: Machine, t: DataReader.NumberType): (r: Result<Machine>)
    requires !DataReader.IsSigned(t)
    ensures r.Ok? ==> r.value.pointer >= m.pointer
  {
    var i :- DataReader.NumberAt(data, m.pointer, t, true);
    Ok(m.(pointer := m.pointer + DataReader.Size(t), memo := MemoSet(m.memo, LastOf(m.stack), i)))
  }

  /** MEMOIZE: append the top to the memo. */
  function ExecMemoize(m: Machine): Result<Machine>
  {
    var t :- MemoAppend(m.memo, LastOf(m.stack));
    Ok(m.(memo := t))
  }

  /** SETITEMS: the mark-scoped items as key/value pairs into the top. */
  function ExecSetItems(m: Machine): Result<Machine>
  {
    var (items, rest) := PopMarkOf(m.stack);
    if |items| % 2 != 0 then Err(OddSetItems)
    else
      var h :- SetItems(m.heap, LastOf(rest), items);
      Ok(m.(stack := rest, heap := h))
  }

  /** SETITEM: pop the value, then the key. */
  function ExecSetItem(m: Machine): Result<Machine>
  {
    var (v, s1) := PopOf(m.stack);
    var (k, s2) := PopOf(s1);
    var h :- SetItems(m.heap, LastOf(s2), [k, v]);
    Ok(m.(stack := s2, heap := h))
  }

  /** NEWOBJ: pop the arguments, pop the class, push the instance. */
  function ExecNewObj(m: Machine): Result<Machine>
  {
    var (args, s1) := PopOf(m.stack);
    var (cls, s2) := PopOf(s1);
    var (h, r) :- Make(m.heap, cls, args);
    Ok(m.(stack := s2 + [r], heap := h))
  }

  /** REDUCE with a class on top: the class is replaced by the instance.
      Nothing else on the stack can be called. */
  function ExecReduce(m: Machine): Result<Machine>
  {
    var (args, s1) := PopOf(m.stack);
    var f := LastOf(s1);
    if !f.Global? then Err(TypeError)
    else
      var (h, r) :- Make(m.heap, f, args);
      Ok(m.(stack := s1[..|s1| - 1] + [r], heap := h))
  }

  /** BUILD: pop the state and attach it to the object below. */
  function ExecBuild(m: Machine): Result<Machine>
  {
    var (st, s1) := PopOf(m.stack);
    var h :- Build(m.heap, LastOf(s1), st);
    Ok(m.(stack := s1, heap := h))
  }

  /** The body of the `switch`. */
  /** One case of the opcode switch of `readOperation`, after the opcode
      byte; the cases are grouped by what they read and change. */
  function Exec(op: Opcode, data: seq<byte>, m: Machine): (r: Result<Machine>)
    ensures r.Ok? ==> r.value.pointer >= m.pointer
  {
    if ReadsText(op) then ExecText(op, data, m)
    else if ReadsNumber(op) then ExecNumber(op, data, m)
    else if PushesConstant(op) then Ok(ExecConstant(op, m))
    else if ShapesStack(op) then Ok(ExecShape(op, m))
    else ExecObjects(op, m)
  }

  function ExecText(op: Opcode, data: seq<byte>, m: Machine): (r: Result<Machine>)
    requires ReadsText(op)
    ensures r.Ok? ==> r.value.pointer >= m.pointer
  {
    match op
    case OpProto => ExecProto(data, m)
    case OpFrame => ExecFrame(data, m)
    case OpShortBinUnicode => ExecCountedText(data, m, DataReader.Uint8)
    case OpShortBinBytes => ExecShortBinBytes(data, m)
    case OpBinUnicode => ExecCountedText(data, m, DataReader.Uint32)
    case OpShortBinString => ExecCountedText(data, m, DataReader.Uint8)
    case OpGlobal => ExecGlobal(data, m)
  }

  function ExecNumber(op: Opcode, data: seq<byte>, m: Machine): (r: Result<Machine>)
    requires ReadsNumber(op)
    ensures r.Ok? ==> r.value.pointer >= m.pointer
  {
    match op
    case OpBinInt => ExecInt(data, m, DataReader.Int32)
    case OpBinGet => ExecGet(data, m, DataReader.Uint8)
    case OpBinInt2 => ExecInt(data, m, DataReader.Uint16)
    case OpBinPut => ExecPut(data, m, DataReader.Uint8)
    case OpLong1 => ExecLong1(data, m)
    case OpLongBinPut => ExecPut(data, m, DataReader.Uint32)
    case OpBinInt1 => ExecInt(data, m, DataReader.Uint8)
    case OpLongBinGet => ExecGet(data, m, DataReader.Uint32)
  }

  function ExecConstant(op: Opcode, m: Machine): (r: Machine)
    requires PushesConstant(op)
    ensures r.pointer == m.pointer
  {
    match op
    case OpEmptyDict => PushNew(m, Dict([]))
    case OpMark => Push(m, Mark)
    case OpEmptyList => PushNew(m, List([]))
    case OpEmptyTuple => PushNew(m, List([]))
    case OpNone => Push(m, Null)
    case OpNewFalse => Push(m, Bool(false))
    case OpNewTrue => Push(m, Bool(true))
  }

  function ExecShape(op: Opcode, m: Machine): (r: Machine)
    requires ShapesStack(op)
    ensures r.pointer == m.pointer
  {
    match op
    case OpTuple3 => ExecTuple3(m)
    case OpTuple => ExecTuple(m)
    case OpTuple2 => ExecTuple2(m)
    case OpTuple1 => ExecTuple1(m)
  }

  function ExecObjects(op: Opcode, m: Machine): (r: Result<Machine>)
    requires !ReadsText(op) && !ReadsNumber(op) && !PushesConstant(op) && !ShapesStack(op)
    ensures r.Ok? ==> r.value.pointer >= m.pointer
  {
    if op.OpStop? then Ok(m)
    else if op.OpMemoize? then ExecMemoize(m)
    else if op.OpAppend? then ExecAppend(m)
    else if op.OpSetItems? then ExecSetItems(m)
    else if op.OpNewObj? then ExecNewObj(m)
    else if op.OpBuild? then ExecBuild(m)
    else if op.OpAppends? then ExecAppends(m)
    else if op.OpSetItem? then ExecSetItem(m)
    else if op.OpReduce? then ExecReduce(m)
    else if op.Unimplemented? then Err(UnimplementedOpcode(op.code))
    else Err(UnknownOpcode(NumberUtils.Hex(op.code, 1)))
  }


  /** `readOperation()`: the machine after one opcode, and the opcode byte. */
  function Step(data: seq<byte>, m: Machine): (r: Result<(Machine, byte)>)
    ensures r.Ok? ==> 0 <= m.pointer < |data| && r.value.0.pointer > m.pointer && r.value.1 == data[m.pointer]
  {
    if m.pointer >= |data| then Err(UnexpectedEof)
    else
      var b :- U8(data, m.pointer);
      var m' :- Exec(Decode(b), data, m.(pointer := m.pointer + 1));
      Ok((m', b))
  }

  /** STOP moves past its own byte and changes nothing else. */
  lemma StepStop(data: seq<byte>, m: Machine)
    requires Step(data, m).Ok? && Step(data, m).value.1 == Code(OpStop)
    ensures Step(data, m).value.0 == m.(pointer := m.pointer + 1)
  {
    var m1 := m.(pointer := m.pointer + 1);
    assert Decode(Code(OpStop)) == OpStop;
    assert Exec(OpStop, data, m1) == Ok(m1);
  }

  /** `readPickle()`: operations until STOP. A run that succeeds ends right
      after a STOP byte inside the data. */
  function Run(data: seq<byte>, m: Machine): (r: Result<Machine>)
    ensures r.Ok? ==> 0 < r.value.pointer <= |data| && data[r.value.pointer - 1] == Code(OpStop)
    decreases |data| - m.pointer
  {
    var s := Step(data, m);
    if s.Err? then Err(s.error)
    else if s.value.1 == Code(OpStop) then
      StepStop(data, m);
      Ok(s.value.0)
    else Run(data, s.value.0)
  }
}

/** What the individual opcodes promise, stated on `Step`, and the invariant
    that every reference the machine holds resolves in its heap. */
module PickleFacts {
  import opened Text
  import opened Failures
  import opened Pickle
  import DataReader
  import NumberUtils

  // ------------------------------------------------- reading and dispatch

  /** A step is the `case` its opcode byte selects. */
  lemma StepExec(data: seq<byte>, m: Machine)
    requires 0 <= m.pointer < |data|
    ensures var r := Exec(Decode(data[m.pointer]), data, m.(pointer := m.pointer + 1));
            Step(data, m) == if r.Ok? then Ok((r.value, data[m.pointer])) else Err(r.error)
  {
  }

  /** A step on the byte of a handled opcode is that opcode's `case`, run
      with the pointer past the byte. */
  lemma StepOp(data: seq<byte>, m: Machine, op: Opcode)
    requires 0 <= m.pointer < |data| && data[m.pointer] == Code(op) && Decode(Code(op)) == op
    ensures var r := Exec(op, data, m.(pointer := m.pointer + 1));
            Step(data, m) == if r.Ok? then Ok((r.value, Code(op))) else Err(r.error)
  {
    StepExec(data, m);
  }

  /** Reading with no data left fails. */
  lemma StepAtEnd(data: seq<byte>, m: Machine)
    requires m.pointer >= |data|
    ensures Step(data, m) == Err(UnexpectedEof)
  {
  }

  /** A byte the opcode table does not list fails with its hexadecimal
      rendering. */
  lemma StepUnknown(data: seq<byte>, m: Machine)
    requires 0 <= m.pointer < |data|
    ensures data[m.pointer] !in Listed ==> Step(data, m) == Err(UnknownOpcode(NumberUtils.Hex(data[m.pointer], 1)))
  {
    var b := data[m.pointer];
    DecodeCode(b);
    if b !in Listed {
      var op := Decode(b);
      assert op == Unknown(b);
      assert !ReadsText(op) && !ReadsNumber(op) && !PushesConstant(op) && !ShapesStack(op);
      assert Exec(op, data, m.(pointer := m.pointer + 1)) == Err(UnknownOpcode(NumberUtils.Hex(b, 1)));
    }
  }

  /** A listed byte without a `case` fails as unimplemented. */
  lemma StepUnimplemented(data: seq<byte>, m: Machine)
    requires 0 <= m.pointer < |data|
    ensures Decode(data[m.pointer]).Unimplemented? ==> Step(data, m) == Err(UnimplementedOpcode(data[m.pointer]))
  {
    DecodeCode(data[m.pointer]);
  }

  /** STACK_GLOBAL (0x93) is listed but has no `case`. */
  lemma StackGlobalUnimplemented()
    ensures Decode(0x93) == Unimplemented(0x93)
  {
  }

  /** PROTO accepts versions 2 to 5; 0 and 1 are unsupported, other bytes
      unknown. */
  lemma StepProto(data: seq<byte>, m: Machine)
    requires 0 <= m.pointer && m.pointer + 1 < |data| && data[m.pointer] == Code(OpProto)
    ensures var v := data[m.pointer + 1];
            && (2 <= v <= 5 <==> Step(data, m).Ok?)
            && (2 <= v <= 5 ==> Step(data, m).value.0 == m.(pointer := m.pointer + 2, protocol := v))
            && (v < 2 ==> Step(data, m) == Err(UnsupportedProtocol(v)))
            && (v > 5 ==> Step(data, m) == Err(UnknownProtocol(v)))
  {
    assert data[m.pointer + 1..m.pointer + 2] == [data[m.pointer + 1]];
  }

  /** FRAME skips eight bytes and changes nothing else. */
  lemma StepFrame(data: seq<byte>, m: Machine)
    requires 0 <= m.pointer && m.pointer + 9 <= |data| && data[m.pointer] == Code(OpFrame)
    ensures Step(data, m) == Ok((m.(pointer := m.pointer + 9), Code(OpFrame)))
  {
  }

  // ----------------------------------------------------------------- stack

  /** TUPLE2 takes the top two items in push order. */
  lemma StepTuple2(data: seq<byte>, m: Machine)
    requires 0 <= m.pointer < |data| && data[m.pointer] == Code(OpTuple2) && |m.stack| >= 2
    ensures var k := |m.stack| - 2;
            Step(data, m) == Ok((m.(pointer := m.pointer + 1,
                                    stack := m.stack[..k] + [Ref(|m.heap|)],
                                    heap := m.heap + [List(m.stack[k..])]), Code(OpTuple2)))
  {
    var m1 := m.(pointer := m.pointer + 1);
    StepShapeExec(data, m, OpTuple2);
    var s := m.stack;
    assert s[|s| - 2..] == [s[|s| - 2], s[|s| - 1]];
    assert s[..|s| - 1][..|s| - 2] == s[..|s| - 2];
  }

  /** TUPLE3 takes the top three items in push order. */
  lemma StepTuple3(data: seq<byte>, m: Machine)
    requires 0 <= m.pointer < |data| && data[m.pointer] == Code(OpTuple3) && |m.stack| >= 3
    ensures var k := |m.stack| - 3;
            Step(data, m) == Ok((m.(pointer := m.pointer + 1,
                                    stack := m.stack[..k] + [Ref(|m.heap|)],
                                    heap := m.heap + [List(m.stack[k..])]), Code(OpTuple3)))
  {
    var m1 := m.(pointer := m.pointer + 1);
    StepShapeExec(data, m, OpTuple3);
    var s := m.stack;
    assert s[|s| - 3..] == [s[|s| - 3], s[|s| - 2], s[|s| - 1]];
    assert s[..|s| - 1][..|s| - 2][..|s| - 3] == s[..|s| - 3];
  }

  lemma StepShapeExec(data: seq<byte>, m: Machine, op: Opcode)
    requires 0 <= m.pointer < |data| && (op == OpTuple2 || op == OpTuple3) && data[m.pointer] == Code(op)
    ensures Step(data, m) == Ok((ExecShape(op, m.(pointer := m.pointer + 1)), Code(op)))
  {
    if op == OpTuple2 {
      StepOp(data, m, OpTuple2);
    } else {
      StepOp(data, m, OpTuple3);
    }
  }

  /** TUPLE reverses what `popMark` returns: the tuple holds the mark-scoped
      items last-pushed first. */
  lemma StepTuple(data: seq<byte>, m: Machine, rest: seq<Value>, items: seq<Value>)
    requires 0 <= m.pointer < |data| && data[m.pointer] == Code(OpTuple)
    requires m.stack == rest + [Mark] + items && Mark !in items
    ensures Step(data, m) == Ok((m.(pointer := m.pointer + 1,
                                    stack := rest + [Ref(|m.heap|)],
                                    heap := m.heap + [List(DataReader.Reverse(items))]), Code(OpTuple)))
  {
    var m1 := m.(pointer := m.pointer + 1);
    StepOp(data, m, OpTuple);
    assert Exec(OpTuple, data, m1) == Ok(ExecTuple(m1));
    PopMarkUnique(rest, items);
  }

  /** The split `popMark` makes is determined by the topmost MARK. */
  lemma PopMarkUnique(rest: seq<Value>, items: seq<Value>)
    requires Mark !in items
    ensures PopMarkOf(rest + [Mark] + items) == (items, rest)
  {
    var s := rest + [Mark] + items;
    LastMarkAbove(rest, items);
    assert s[|rest| + 1..] == items;
    assert s[..|rest|] == rest;
  }

  lemma {:induction false} LastMarkAbove(rest: seq<Value>, items: seq<Value>)
    requires Mark !in items
    ensures LastMark(rest + [Mark] + items) == Some(|rest|)
  {
    var s := rest + [Mark] + items;
    if items != [] {
      var init := items[..|items| - 1];
      assert s[..|s| - 1] == rest + [Mark] + init;
      assert items[|items| - 1] in items;
      LastMarkAbove(rest, init);
    }
  }

  // ------------------------------------------------------------------ memo

  /** BINPUT i then BINGET i pushes the very value that was on top (the same
      reference, so later changes to the object show through both). */
  lemma StepPutThenGet(data: seq<byte>, m: Machine, i: byte)
    requires 0 <= m.pointer && m.pointer + 4 <= |data|
    requires data[m.pointer..m.pointer + 4] == [Code(OpBinPut), i, Code(OpBinGet), i]
    requires LastOf(m.stack) != Undefined
    ensures Step(data, m).Ok?
    ensures var m1 := Step(data, m).value.0;
            && m1 == m.(pointer := m.pointer + 2, memo := MemoSet(m.memo, LastOf(m.stack), i))
            && Step(data, m1) == Ok((m1.(pointer := m.pointer + 4, stack := m.stack + [LastOf(m.stack)]), Code(OpBinGet)))
  {
    var p := m.pointer;
    assert data[p] == Code(OpBinPut) && data[p + 1] == i && data[p + 2] == Code(OpBinGet) && data[p + 3] == i;
    StepBinPut(data, m);
    var m1 := m.(pointer := p + 2, memo := MemoSet(m.memo, LastOf(m.stack), i));
    StepBinGet(data, m1);
    MemoStoreLoad(m.memo, LastOf(m.stack), i, i);
  }

  /** BINPUT stores the top under its one-byte index. */
  lemma StepBinPut(data: seq<byte>, m: Machine)
    requires 0 <= m.pointer && m.pointer + 2 <= |data| && data[m.pointer] == Code(OpBinPut)
    ensures Step(data, m) == Ok((m.(pointer := m.pointer + 2, memo := MemoSet(m.memo, LastOf(m.stack), data[m.pointer + 1])), Code(OpBinPut)))
  {
    var m1 := m.(pointer := m.pointer + 1);
    StepOp(data, m, OpBinPut);
    assert Exec(OpBinPut, data, m1) == ExecPut(data, m1, DataReader.Uint8);
    assert U8(data, m1.pointer) == Ok(data[m.pointer + 1]);
  }

  /** BINGET pushes what the memo holds under its one-byte index, and fails
      on a slot never written. */
  lemma StepBinGet(data: seq<byte>, m: Machine)
    requires 0 <= m.pointer && m.pointer + 2 <= |data| && data[m.pointer] == Code(OpBinGet)
    ensures var v := MemoGet(m.memo, data[m.pointer + 1]);
            Step(data, m) == if v == Undefined then Err(MemoMiss(data[m.pointer + 1]))
                             else Ok((m.(pointer := m.pointer + 2, stack := m.stack + [v]), Code(OpBinGet)))
  {
    var m1 := m.(pointer := m.pointer + 1);
    StepOp(data, m, OpBinGet);
    assert Exec(OpBinGet, data, m1) == ExecGet(data, m1, DataReader.Uint8);
    assert U8(data, m1.pointer) == Ok(data[m.pointer + 1]);
  }

  /** MEMOIZE appends the top to the memo and leaves the stack alone. */
  lemma StepMemoize(data: seq<byte>, m: Machine)
    requires 0 <= m.pointer < |data| && data[m.pointer] == Code(OpMemoize)
    ensures m.memo.length < MaxArrayLength ==>
              Step(data, m) == Ok((m.(pointer := m.pointer + 1, memo := MemoAppend(m.memo, LastOf(m.stack)).value), Code(OpMemoize)))
    ensures m.memo.length >= MaxArrayLength ==> Step(data, m) == Err(ArrayLengthOverflow)
  {
    var m1 := m.(pointer := m.pointer + 1);
    StepOp(data, m, OpMemoize);
    assert Exec(OpMemoize, data, m1) == ExecMemoize(m1);
  }

  // ------------------------------------------------------------ containers

  /** APPEND adds the popped value to the end of the list below it, which
      stays on top. */
  lemma StepAppend(data: seq<byte>, m: Machine, below: seq<Value>, id: nat, v: Value)
    requires 0 <= m.pointer < |data| && data[m.pointer] == Code(OpAppend)
    requires m.stack == below + [Ref(id), v] && id < |m.heap| && m.heap[id].List?
    ensures Step(data, m) == Ok((m.(pointer := m.pointer + 1,
                                    stack := below + [Ref(id)],
                                    heap := m.heap[id := List(m.heap[id].items + [v])]), Code(OpAppend)))
  {
    var m1 := m.(pointer := m.pointer + 1);
    StepOp(data, m, OpAppend);
    assert Exec(OpAppend, data, m1) == ExecAppend(m1);
    assert m.stack[..|m.stack| - 1] == below + [Ref(id)];
  }

  /** APPENDS extends the list below the MARK by the mark-scoped items in
      push order; the list stays on top. */
  lemma StepAppends(data: seq<byte>, m: Machine, below: seq<Value>, id: nat, items: seq<Value>)
    requires 0 <= m.pointer < |data| && data[m.pointer] == Code(OpAppends)
    requires Mark !in items && m.stack == below + [Ref(id)] + [Mark] + items
    requires id < |m.heap| && m.heap[id].List?
    ensures Step(data, m) == Ok((m.(pointer := m.pointer + 1,
                                    stack := below + [Ref(id)],
                                    heap := m.heap[id := List(m.heap[id].items + items)]), Code(OpAppends)))
  {
    var m1 := m.(pointer := m.pointer + 1);
    StepOp(data, m, OpAppends);
    assert Exec(OpAppends, data, m1) == ExecAppends(m1);
    PopMarkUnique(below + [Ref(id)], items);
  }

  /** SETITEMS with an odd number of mark-scoped items fails. */
  lemma StepSetItemsOdd(data: seq<byte>, m: Machine)
    requires 0 <= m.pointer < |data| && data[m.pointer] == Code(OpSetItems)
    requires |PopMarkOf(m.stack).0| % 2 == 1
    ensures Step(data, m) == Err(OddSetItems)
  {
    var m1 := m.(pointer := m.pointer + 1);
    StepOp(data, m, OpSetItems);
    assert Exec(OpSetItems, data, m1) == ExecSetItems(m1);
  }

  /** SETITEMS into a dict assigns the pairs in order; the dict stays on top. */
  lemma StepSetItemsDict(data: seq<byte>, m: Machine, below: seq<Value>, id: nat, items: seq<Value>)
    requires 0 <= m.pointer < |data| && data[m.pointer] == Code(OpSetItems)
    requires Mark !in items && |items| % 2 == 0 && m.stack == below + [Ref(id)] + [Mark] + items
    requires id < |m.heap| && m.heap[id].Dict?
    requires AssignPairs(m.heap[id].entries, items).Ok?
    ensures Step(data, m) == Ok((m.(pointer := m.pointer + 1,
                                    stack := below + [Ref(id)],
                                    heap := m.heap[id := Dict(AssignPairs(m.heap[id].entries, items).value)]), Code(OpSetItems)))
  {
    StepSetItemsExec(data, m);
    ExecSetItemsDict(m.(pointer := m.pointer + 1), below, id, items);
  }

  lemma StepSetItemsExec(data: seq<byte>, m: Machine)
    requires 0 <= m.pointer < |data| && data[m.pointer] == Code(OpSetItems)
    ensures var r := ExecSetItems(m.(pointer := m.pointer + 1));
            Step(data, m) == if r.Ok? then Ok((r.value, Code(OpSetItems))) else Err(r.error)
  {
    StepOp(data, m, OpSetItems);
  }

  lemma ExecSetItemsDict(m: Machine, below: seq<Value>, id: nat, items: seq<Value>)
    requires Mark !in items && |items| % 2 == 0 && m.stack == below + [Ref(id)] + [Mark] + items
    requires id < |m.heap| && m.heap[id].Dict?
    requires AssignPairs(m.heap[id].entries, items).Ok?
    ensures ExecSetItems(m) == Ok(m.(stack := below + [Ref(id)],
                                     heap := m.heap[id := Dict(AssignPairs(m.heap[id].entries, items).value)]))
  {
    PopMarkUnique(below + [Ref(id)], items);
    assert PopMarkOf(m.stack) == (items, below + [Ref(id)]);
    assert LastOf(below + [Ref(id)]) == Ref(id);
    var e := AssignPairs(m.heap[id].entries, items).value;
    if items == [] {
      assert m.heap[id := Dict(e)] == m.heap;
    }
    assert SetItems(m.heap, Ref(id), items) == Ok(m.heap[id := Dict(e)]);
  }

  /** SETITEM pops the value, then the key, and stores the pair in the dict
      below them. */
  lemma StepSetItem(data: seq<byte>, m: Machine, below: seq<Value>, id: nat, k: Value, v: Value)
    requires 0 <= m.pointer < |data| && data[m.pointer] == Code(OpSetItem)
    requires m.stack == below + [Ref(id), k, v] && id < |m.heap| && m.heap[id].Dict?
    requires KeyOf(k).Ok?
    ensures && Step(data, m).Ok?
            && var m' := Step(data, m).value.0;
            && m'.stack == below + [Ref(id)]
            && id < |m'.heap|
            && m'.heap[id].Dict?
            && Lookup(m'.heap[id].entries, KeyOf(k).value) == Some(v)
  {
    var m1 := m.(pointer := m.pointer + 1);
    StepOp(data, m, OpSetItem);
    assert Exec(OpSetItem, data, m1) == ExecSetItem(m1);
    var s := m.stack;
    assert s[..|s| - 1] == below + [Ref(id), k];
    assert s[..|s| - 1][..|s| - 2] == below + [Ref(id)];
    AssignOnePair(m.heap[id].entries, k, v);
  }

  // ------------------------------------------------------------- instances

  /** NEWOBJ with a class and an argument list on top leaves one new
      instance in their place, holding the list's items as arguments. */
  lemma StepNewObj(data: seq<byte>, m: Machine, below: seq<Value>, moduleName: string, name: string, id: nat)
    requires 0 <= m.pointer < |data| && data[m.pointer] == Code(OpNewObj)
    requires m.stack == below + [Global(moduleName, name), Ref(id)] && id < |m.heap| && m.heap[id].List?
    ensures Step(data, m) == Ok((m.(pointer := m.pointer + 1,
                                    stack := below + [Ref(|m.heap|)],
                                    heap := m.heap + [Instance(moduleName, name, m.heap[id].items, Undefined)]), Code(OpNewObj)))
  {
    var m1 := m.(pointer := m.pointer + 1);
    StepOp(data, m, OpNewObj);
    assert Exec(OpNewObj, data, m1) == ExecNewObj(m1);
    var s := m.stack;
    assert s[..|s| - 1] == below + [Global(moduleName, name)];
    assert s[..|s| - 1][..|s| - 2] == below;
  }

  /** REDUCE with a class below the argument list: the same instance, and
      the stack shrinks by one. */
  lemma StepReduce(data: seq<byte>, m: Machine, below: seq<Value>, moduleName: string, name: string, id: nat)
    requires 0 <= m.pointer < |data| && data[m.pointer] == Code(OpReduce)
    requires m.stack == below + [Global(moduleName, name), Ref(id)] && id < |m.heap| && m.heap[id].List?
    ensures Step(data, m) == Ok((m.(pointer := m.pointer + 1,
                                    stack := below + [Ref(|m.heap|)],
                                    heap := m.heap + [Instance(moduleName, name, m.heap[id].items, Undefined)]), Code(OpReduce)))
  {
    var m1 := m.(pointer := m.pointer + 1);
    StepOp(data, m, OpReduce);
    assert Exec(OpReduce, data, m1) == ExecReduce(m1);
    var s := m.stack;
    assert s[..|s| - 1] == below + [Global(moduleName, name)];
    assert s[..|s| - 1][..|s| - 2] == below;
  }

  /** BUILD attaches the popped state to the instance below, which stays on
      top; its module, name and arguments are kept. */
  lemma StepBuild(data: seq<byte>, m: Machine, below: seq<Value>, id: nat, state: Value)
    requires 0 <= m.pointer < |data| && data[m.pointer] == Code(OpBuild)
    requires m.stack == below + [Ref(id), state] && id < |m.heap| && m.heap[id].Instance?
    ensures Step(data, m) == Ok((m.(pointer := m.pointer + 1,
                                    stack := below + [Ref(id)],
                                    heap := m.heap[id := m.heap[id].(state := state)]), Code(OpBuild)))
  {
    var m1 := m.(pointer := m.pointer + 1);
    StepOp(data, m, OpBuild);
    assert Exec(OpBuild, data, m1) == ExecBuild(m1);
    assert m.stack[..|m.stack| - 1] == below + [Ref(id)];
  }

  // ------------------------------------------------------- closed heaps

  predicate ValueIn(v: Value, n: nat)
  {
    v.Ref? ==> v.id < n
  }

  predicate AllIn(vs: seq<Value>, n: nat)
  {
    forall i :: 0 <= i < |vs| ==> ValueIn(vs[i], n)
  }

  predicate EntriesIn(entries: seq<Entry>, n: nat)
  {
    forall i :: 0 <= i < |entries| ==> ValueIn(entries[i].value, n)
  }

  predicate ObjIn(o: Obj, n: nat)
  {
    match o
    case List(items) => AllIn(items, n)
    case Dict(entries) => EntriesIn(entries, n)
    case Instance(_, _, args, state) => AllIn(args, n) && ValueIn(state, n)
  }

  predicate HeapIn(h: seq<Obj>, n: nat)
  {
    forall i :: 0 <= i < |h| ==> ObjIn(h[i], n)
  }

  /** Every reference on the stack, in the memo and inside the heap's
      objects names an object of the heap. */
  predicate Closed(m: Machine)
  {
    && AllIn(m.stack, |m.heap|)
    && (forall i :: i in m.memo.slots ==> ValueIn(m.memo.slots[i], |m.heap|))
    && HeapIn(m.heap, |m.heap|)
  }

  lemma ObjInGrow(o: Obj, n: nat, n': nat)
    requires ObjIn(o, n) && n <= n'
    ensures ObjIn(o, n')
  {
  }

  lemma HeapGrow(h: seq<Obj>, o: Obj)
    requires HeapIn(h, |h|) && ObjIn(o, |h| + 1)
    ensures HeapIn(h + [o], |h| + 1)
  {
    forall i | 0 <= i < |h| + 1
      ensures ObjIn((h + [o])[i], |h| + 1)
    {
      if i < |h| {
        ObjInGrow(h[i], |h|, |h| + 1);
      }
    }
  }

  lemma {:induction false} AssignIn(entries: seq<Entry>, key: string, v: Value, n: nat)
    requires EntriesIn(entries, n) && ValueIn(v, n)
    ensures EntriesIn(Assign(entries, key, v), n)
  {
    if entries != [] && entries[0].key != key {
      AssignIn(entries[1..], key, v, n);
    }
  }

  lemma {:induction false} AssignPairsIn(entries: seq<Entry>, items: seq<Value>, n: nat)
    requires |items| % 2 == 0 && EntriesIn(entries, n) && AllIn(items, n)
    requires AssignPairs(entries, items).Ok?
    ensures EntriesIn(AssignPairs(entries, items).value, n)
    decreases |items|
  {
    if items != [] {
      var key := KeyOf(items[0]).value;
      AssignIn(entries, key, items[1], n);
      AssignPairsIn(Assign(entries, key, items[1]), items[2..], n);
    }
  }

  lemma PopMarkIn(s: seq<Value>, n: nat)
    requires AllIn(s, n)
    ensures AllIn(PopMarkOf(s).0, n) && AllIn(PopMarkOf(s).1, n)
  {
    var (items, rest) := PopMarkOf(s);
    if Mark in s {
      forall i | 0 <= i < |items| ensures ValueIn(items[i], n) {
        assert items[i] == s[|rest| + 1 + i];
      }
    }
  }

  lemma SetItemsIn(h: seq<Obj>, target: Value, items: seq<Value>)
    requires |items| % 2 == 0 && HeapIn(h, |h|) && AllIn(items, |h|)
    requires SetItems(h, target, items).Ok?
    ensures HeapIn(SetItems(h, target, items).value, |h|)
  {
    if items != [] {
      var id := target.id;
      AssignPairsIn(h[id].entries, items, |h|);
    }
  }

  lemma MakeIn(h: seq<Obj>, cls: Value, args: Value)
    requires HeapIn(h, |h|) && ValueIn(args, |h|)
    requires Make(h, cls, args).Ok?
    ensures HeapIn(Make(h, cls, args).value.0, |h| + 1)
  {
    var argv := Spread(h, args).value;
    assert AllIn(argv, |h|) by {
      if args.Ref? {
        assert ObjIn(h[args.id], |h|);
      }
    }
    HeapGrow(h, Instance(cls.moduleName, cls.name, argv, Undefined));
  }

  lemma PushNewIn(m: Machine, o: Obj)
    requires Closed(m) && ObjIn(o, |m.heap| + 1)
    ensures Closed(PushNew(m, o))
  {
    HeapGrow(m.heap, o);
  }

  /** A memo that only gains values inside the heap stays inside it. */
  lemma MemoSetIn(t: MemoTable, v: Value, i: nat, n: nat)
    requires (forall j :: j in t.slots ==> ValueIn(t.slots[j], n)) && ValueIn(v, n)
    ensures forall j :: j in MemoSet(t, v, i).slots ==> ValueIn(MemoSet(t, v, i).slots[j], n)
  {
  }

  lemma PushIn(m: Machine, v: Value)
    requires Closed(m) && ValueIn(v, |m.heap|)
    ensures Closed(Push(m, v))
  {
  }

  lemma PopIn(s: seq<Value>, n: nat)
    requires AllIn(s, n)
    ensures AllIn(PopOf(s).1, n) && ValueIn(PopOf(s).0, n)
  {
  }

  lemma AllInGrow(vs: seq<Value>, n: nat, n': nat)
    requires AllIn(vs, n) && n <= n'
    ensures AllIn(vs, n')
  {
  }

  lemma HeapUpdateIn(h: seq<Obj>, id: nat, o: Obj)
    requires HeapIn(h, |h|) && id < |h| && ObjIn(o, |h|)
    ensures HeapIn(h[id := o], |h|)
  {
  }

  lemma TuplesIn(m: Machine)
    requires Closed(m)
    ensures Closed(ExecTuple1(m)) && Closed(ExecTuple2(m)) && Closed(ExecTuple3(m)) && Closed(ExecTuple(m))
  {
    var n := |m.heap|;
    var (c, s1) := PopOf(m.stack);
    PopIn(m.stack, n);
    var (b, s2) := PopOf(s1);
    PopIn(s1, n);
    var (a, s3) := PopOf(s2);
    PopIn(s2, n);
    PushNewIn(m.(stack := s1), List([c]));
    PushNewIn(m.(stack := s2), List([b, c]));
    PushNewIn(m.(stack := s3), List([a, b, c]));
    var (items, rest) := PopMarkOf(m.stack);
    PopMarkIn(m.stack, n);
    AllInGrow(items, n, n + 1);
    PushNewIn(m.(stack := rest), List(DataReader.Reverse(items)));
  }

  lemma AppendsIn(m: Machine)
    requires Closed(m)
    ensures ExecAppend(m).Ok? ==> Closed(ExecAppend(m).value)
    ensures ExecAppends(m).Ok? ==> Closed(ExecAppends(m).value)
  {
    var n := |m.heap|;
    PopIn(m.stack, n);
    var (v, s1) := PopOf(m.stack);
    var t := LastOf(s1);
    if IsList(m.heap, t) {
      assert ObjIn(m.heap[t.id], n);
      HeapUpdateIn(m.heap, t.id, List(m.heap[t.id].items + [v]));
    }
    PopMarkIn(m.stack, n);
    var (items, rest) := PopMarkOf(m.stack);
    var t' := LastOf(rest);
    if IsList(m.heap, t') {
      assert ObjIn(m.heap[t'.id], n);
      HeapUpdateIn(m.heap, t'.id, List(m.heap[t'.id].items + items));
    }
  }

  lemma SetItemsStepIn(m: Machine)
    requires Closed(m)
    ensures ExecSetItems(m).Ok? ==> Closed(ExecSetItems(m).value)
    ensures ExecSetItem(m).Ok? ==> Closed(ExecSetItem(m).value)
  {
    var n := |m.heap|;
    PopMarkIn(m.stack, n);
    var (items, rest) := PopMarkOf(m.stack);
    if |items| % 2 == 0 && SetItems(m.heap, LastOf(rest), items).Ok? {
      SetItemsIn(m.heap, LastOf(rest), items);
    }
    PopIn(m.stack, n);
    var (v, s1) := PopOf(m.stack);
    PopIn(s1, n);
    var (k, s2) := PopOf(s1);
    if SetItems(m.heap, LastOf(s2), [k, v]).Ok? {
      SetItemsIn(m.heap, LastOf(s2), [k, v]);
    }
  }

  lemma NewObjIn(m: Machine)
    requires Closed(m)
    ensures ExecNewObj(m).Ok? ==> Closed(ExecNewObj(m).value)
  {
    var n := |m.heap|;
    PopIn(m.stack, n);
    var (args, s1) := PopOf(m.stack);
    PopIn(s1, n);
    var (cls, s2) := PopOf(s1);
    if Make(m.heap, cls, args).Ok? {
      MakeIn(m.heap, cls, args);
      AllInGrow(s2, n, n + 1);
    }
  }

  lemma ReduceIn(m: Machine)
    requires Closed(m)
    ensures ExecReduce(m).Ok? ==> Closed(ExecReduce(m).value)
  {
    var n := |m.heap|;
    PopIn(m.stack, n);
    var (args, s1) := PopOf(m.stack);
    var f := LastOf(s1);
    if f.Global? && Make(m.heap, f, args).Ok? {
      MakeIn(m.heap, f, args);
      AllInGrow(s1[..|s1| - 1], n, n + 1);
    }
  }

  lemma BuildIn(m: Machine)
    requires Closed(m)
    ensures ExecBuild(m).Ok? ==> Closed(ExecBuild(m).value)
  {
    var n := |m.heap|;
    PopIn(m.stack, n);
    var (args, s1) := PopOf(m.stack);
    var t := LastOf(s1);
    if Build(m.heap, t, args).Ok? {
      var id := t.id;
      assert ObjIn(m.heap[id], n);
      if m.heap[id].Dict? {
        AssignIn(m.heap[id].entries, "state", args, n);
      }
      HeapUpdateIn(m.heap, id, Build(m.heap, t, args).value[id]);
    }
  }


  lemma MemoOpsIn(data: seq<byte>, m: Machine, t: DataReader.NumberType)
    requires Closed(m) && !DataReader.IsSigned(t)
    ensures ExecPut(data, m, t).Ok? ==> Closed(ExecPut(data, m, t).value)
    ensures ExecGet(data, m, t).Ok? ==> Closed(ExecGet(data, m, t).value)
    ensures ExecMemoize(m).Ok? ==> Closed(ExecMemoize(m).value)
  {
    var n := |m.heap|;
    PopIn(m.stack, n);
    var r := DataReader.NumberAt(data, m.pointer, t, true);
    if r.Ok? {
      MemoSetIn(m.memo, LastOf(m.stack), r.value, n);
    }
    MemoSetIn(m.memo, LastOf(m.stack), m.memo.length, n);
  }

  /** One operation of the `switch` keeps the machine closed; the heap only
      grows. */
  lemma ExecKeepsClosed(op: Opcode, data: seq<byte>, m: Machine)
    requires Closed(m) && Exec(op, data, m).Ok?
    ensures Closed(Exec(op, data, m).value)
    ensures |Exec(op, data, m).value.heap| >= |m.heap|
  {
    if ReadsText(op) {
      TextOpsKeepClosed(op, data, m);
    } else if ReadsNumber(op) {
      NumberOpsKeepClosed(op, data, m);
    } else if PushesConstant(op) {
      ConstantOpsKeepClosed(op, m);
    } else if ShapesStack(op) {
      ShapeOpsKeepClosed(op, m);
    } else {
      ObjectOpsKeepClosed(op, m);
    }
  }

  lemma TextOpsKeepClosed(op: Opcode, data: seq<byte>, m: Machine)
    requires ReadsText(op) && Closed(m) && ExecText(op, data, m).Ok?
    ensures Closed(ExecText(op, data, m).value)
    ensures |ExecText(op, data, m).value.heap| >= |m.heap|
  {
    var r := ExecText(op, data, m);
    match op {
      case OpShortBinUnicode => PushIn(m.(pointer := r.value.pointer), LastOf(r.value.stack));
      case OpShortBinString => PushIn(m.(pointer := r.value.pointer), LastOf(r.value.stack));
      case OpBinUnicode => PushIn(m.(pointer := r.value.pointer), LastOf(r.value.stack));
      case OpShortBinBytes => PushIn(m.(pointer := r.value.pointer), LastOf(r.value.stack));
      case OpGlobal => PushIn(m.(pointer := r.value.pointer), LastOf(r.value.stack));
      case OpProto =>
      case OpFrame =>
    }
  }

  lemma NumberOpsKeepClosed(op: Opcode, data: seq<byte>, m: Machine)
    requires ReadsNumber(op) && Closed(m) && ExecNumber(op, data, m).Ok?
    ensures Closed(ExecNumber(op, data, m).value)
    ensures |ExecNumber(op, data, m).value.heap| >= |m.heap|
  {
    var r := ExecNumber(op, data, m);
    match op {
      case OpBinPut => MemoOpsIn(data, m, DataReader.Uint8);
      case OpLongBinPut => MemoOpsIn(data, m, DataReader.Uint32);
      case OpBinGet => MemoOpsIn(data, m, DataReader.Uint8);
      case OpLongBinGet => MemoOpsIn(data, m, DataReader.Uint32);
      case OpBinInt => PushIn(m.(pointer := r.value.pointer), LastOf(r.value.stack));
      case OpBinInt1 => PushIn(m.(pointer := r.value.pointer), LastOf(r.value.stack));
      case OpBinInt2 => PushIn(m.(pointer := r.value.pointer), LastOf(r.value.stack));
      case OpLong1 => PushIn(m.(pointer := r.value.pointer), LastOf(r.value.stack));
    }
  }

  lemma ConstantOpsKeepClosed(op: Opcode, m: Machine)
    requires PushesConstant(op) && Closed(m)
    ensures Closed(ExecConstant(op, m))
    ensures |ExecConstant(op, m).heap| >= |m.heap|
  {
    match op {
      case OpEmptyDict => PushNewIn(m, Dict([]));
      case OpEmptyList => PushNewIn(m, List([]));
      case OpEmptyTuple => PushNewIn(m, List([]));
      case OpMark => PushIn(m, Mark);
      case OpNone => PushIn(m, Null);
      case OpNewTrue => PushIn(m, Bool(true));
      case OpNewFalse => PushIn(m, Bool(false));
    }
  }

  lemma ShapeOpsKeepClosed(op: Opcode, m: Machine)
    requires ShapesStack(op) && Closed(m)
    ensures Closed(ExecShape(op, m))
    ensures |ExecShape(op, m).heap| >= |m.heap|
  {
    TuplesIn(m);
  }

  lemma ObjectOpsKeepClosed(op: Opcode, m: Machine)
    requires !ReadsText(op) && !ReadsNumber(op) && !PushesConstant(op) && !ShapesStack(op)
    requires Closed(m) && ExecObjects(op, m).Ok?
    ensures Closed(ExecObjects(op, m).value)
    ensures |ExecObjects(op, m).value.heap| >= |m.heap|
  {
    match op {
      case OpAppend => AppendsIn(m);
      case OpAppends => AppendsIn(m);
      case OpSetItems => SetItemsStepIn(m);
      case OpSetItem => SetItemsStepIn(m);
      case OpNewObj => NewObjIn(m);
      case OpReduce => ReduceIn(m);
      case OpBuild => BuildIn(m);
      case OpMemoize => MemoOpsIn([], m, DataReader.Uint8);
      case OpStop =>
    }
  }

  lemma {:induction false} RunKeepsClosed(data: seq<byte>, m: Machine)
    requires Closed(m) && Run(data, m).Ok?
    ensures Closed(Run(data, m).value)
    decreases |data| - m.pointer
  {
    var (m', b) := Step(data, m).value;
    ExecKeepsClosed(Decode(b), data, m.(pointer := m.pointer + 1));
    if b != Code(OpStop) {
      RunKeepsClosed(data, m');
    }
  }

  lemma InitialClosed()
    ensures Closed(Initial())
  {
  }
}

/** The depickler as the source writes it: a `Stack` and a `Memo` object
    that the `Depickler` updates in place while its byte cursor moves through
    the pickle. Each method is proved to do what the `Pickle` semantics says
    of the machine state it starts from: an operation that succeeds leaves
    exactly the state `Pickle.Exec` / `Pickle.Step` / `Pickle.Run` compute,
    and one that fails fails with their error. */
module Depickler {
  import opened Text
  import opened Failures
  import opened Pickle
  import PickleFacts
  import DataReader
  import NumberUtils

  /** What an operation that changes state in place promises: on success the
      state it leaves, on failure its error. */
  function After(r: Result<()>, m: Machine): Result<Machine>
  {
    if r.Ok? then Ok(m) else Err(r.error)
  }

  /** Assigning the pairs of `items` is assigning the first pair, then the rest. */
  lemma SetItemsFirstPair(h: seq<Obj>, id: nat, items: seq<Value>, key: string)
    requires |items| >= 2 && |items| % 2 == 0
    requires id < |h| && h[id].Dict? && KeyOf(items[0]) == Ok(key)
    ensures var h' := h[id := Dict(Assign(h[id].entries, key, items[1]))];
            SetItems(h, Ref(id), items) == SetItems(h', Ref(id), items[2..])
  {
    EvenTail(items);
    var e := Assign(h[id].entries, key, items[1]);
    var h' := h[id := Dict(e)];
    assert h'[id].entries == e;
    assert AssignPairs(h[id].entries, items) == AssignPairs(e, items[2..]);
    var rest := AssignPairs(e, items[2..]);
    if items[2..] == [] {
      assert h'[id := Dict(e)] == h';
    } else if rest.Ok? {
      assert h'[id := Dict(rest.value)] == h[id := Dict(rest.value)];
    }
  }

  /** A non-empty even run of items holds a first pair and an even rest. */
  lemma EvenTail(items: seq<Value>)
    requires |items| % 2 == 0 && items != []
    ensures |items| >= 2 && |items[2..]| % 2 == 0
  {
  }

  /** A target that is not a dict, or a first key that cannot be read,
      ends the assignment with that error. */
  lemma SetItemsFirstFails(h: seq<Obj>, target: Value, items: seq<Value>)
    requires |items| >= 2 && |items| % 2 == 0
    ensures !(target.Ref? && target.id < |h| && h[target.id].Dict?) ==>
            SetItems(h, target, items) == if target.Ref? || target.Global? || target.Bytes? then Err(NotModelled) else Err(TypeError)
    ensures target.Ref? && target.id < |h| && h[target.id].Dict? && KeyOf(items[0]).Err? ==>
            SetItems(h, target, items) == Err(KeyOf(items[0]).error)
  {
  }

  /** A counted text whose count can be read is the text after the count. */
  lemma CountedTextRead(data: seq<byte>, m: Machine, t: DataReader.NumberType, n: int)
    requires !DataReader.IsSigned(t) && DataReader.NumberAt(data, m.pointer, t, true) == Ok(n)
    ensures var q := m.pointer + DataReader.Size(t);
            ExecCountedText(data, m, t) == Ok(Push(m.(pointer := q + n), Str(Latin1(DataReader.SliceOf(data, q, q + n)))))
  {
  }

  /** LONG1 whose count can be read: the number in the bytes after the count. */
  lemma Long1Read(data: seq<byte>, m: Machine, n: int)
    requires DataReader.NumberAt(data, m.pointer, DataReader.Uint8, true) == Ok(n)
    ensures var q := m.pointer + 1;
            var bs := DataReader.SliceOf(data, q, q + n);
            ExecLong1(data, m) == Ok(Push(m.(pointer := q + n), Int(DataReader.CustomValue(DataReader.InReadOrder(bs, true), n, true))))
  {
    assert U8(data, m.pointer) == Ok(n);
  }

  /** BININT1 pushes the unsigned byte after the opcode; with no byte left
      it fails with an underrun. */
  lemma BinInt1Read(data: seq<byte>, m: Machine)
    requires 0 <= m.pointer
    ensures m.pointer < |data| ==>
              ExecInt(data, m, DataReader.Uint8) == Ok(Push(m.(pointer := m.pointer + 1), Int(data[m.pointer] as int)))
    ensures m.pointer >= |data| ==> ExecInt(data, m, DataReader.Uint8) == Err(BufferUnderrun)
  {
    var p := m.pointer;
    if p < |data| {
      assert data[p..p + 1][1..] == [];
    }
  }

  /** BININT2 pushes the unsigned little-endian 16-bit word after the
      opcode; with fewer than two bytes left it fails with an underrun. */
  lemma BinInt2Read(data: seq<byte>, m: Machine)
    requires 0 <= m.pointer
    ensures m.pointer + 2 <= |data| ==>
              ExecInt(data, m, DataReader.Uint16) == Ok(Push(m.(pointer := m.pointer + 2), Int(data[m.pointer] as int + 256 * data[m.pointer + 1] as int)))
    ensures m.pointer + 2 > |data| ==> ExecInt(data, m, DataReader.Uint16) == Err(BufferUnderrun)
  {
    var p := m.pointer;
    if p + 2 <= |data| {
      var w := data[p..p + 2];
      assert w[1..][1..] == [];
      assert DataReader.LittleEndian(w) == data[p] as int + 256 * data[p + 1] as int;
    }
  }

  /** BININT pushes the little-endian 32-bit word after the opcode read as
      two's complement; with fewer than four bytes left it fails with an
      underrun. */
  lemma BinIntRead(data: seq<byte>, m: Machine)
    requires 0 <= m.pointer
    ensures var p := m.pointer;
            p + 4 <= |data| ==>
              var u := data[p] as int + 256 * data[p + 1] as int + 65536 * data[p + 2] as int + 16777216 * data[p + 3] as int;
              ExecInt(data, m, DataReader.Int32) == Ok(Push(m.(pointer := p + 4), Int(if u >= 0x8000_0000 then u - 0x1_0000_0000 else u)))
    ensures m.pointer + 4 > |data| ==> ExecInt(data, m, DataReader.Int32) == Err(BufferUnderrun)
  {
    var p := m.pointer;
    if p + 4 <= |data| {
      DataReader.LittleEndianWords(data, p);
      DataReader.SignedNumberRange(data, p, DataReader.Int32, true);
    }
  }

  /** The first `term` at or after `p` is the one `ScanFrom` finds. */
  lemma {:induction false} ScanFindsFirst(data: seq<byte>, p: int, i: int, term: byte)
    requires 0 <= p <= i < |data| && data[i] == term
    requires forall k :: p <= k < i ==> data[k] != term
    ensures DataReader.ScanFrom(data, p, term) == Some(i)
    decreases i - p
  {
    if p < i {
      ScanFindsFirst(data, p + 1, i, term);
    }
  }

  /** GLOBAL pushes a class reference whose module and name are the texts
      before the next two newlines, and moves one past the second. */
  lemma GlobalRead(data: seq<byte>, m: Machine, i: int, j: int)
    requires 0 <= m.pointer <= i < j < |data| && data[i] == 0x0A && data[j] == 0x0A
    requires forall k :: m.pointer <= k < j && k != i ==> data[k] != 0x0A
    ensures ExecGlobal(data, m) == Ok(Push(m.(pointer := j + 1), Global(Latin1(data[m.pointer..i]), Latin1(data[i + 1..j]))))
  {
    ScanFindsFirst(data, m.pointer, i, 0x0A);
    ScanFindsFirst(data, i + 1, j, 0x0A);
  }

  /** The operand stack. */
  class Stack {
    var items: seq<Value>

    constructor ()
      ensures items == []
    {
      items := [];
    }

    method Append(v: Value)
      modifies this
      ensures items == old(items) + [v]
    {
      items := items + [v];
    }

    /** `pop()`: the top, or `undefined` from an empty stack. */
    method Pop() returns (v: Value)
      modifies this
      ensures (v, items) == PopOf(old(items))
      ensures old(items) != [] ==> old(items) == items + [v]
    {
      if items == [] {
        v := Undefined;
      } else {
        v := items[|items| - 1];
        items := items[..|items| - 1];
      }
    }

    /** The `last` getter. */
    function Last(): Value
      reads this
    {
      LastOf(items)
    }

    /** The `last` setter. On an empty array the store goes to the property
        `"-1"`, which is not an item, so the items stay as they are. */
    method SetLast(v: Value)
      modifies this
      ensures old(items) != [] ==> items == old(items)[..|old(items)| - 1] + [v]
      ensures old(items) == [] ==> items == []
    {
      if items != [] {
        items := items[|items| - 1 := v];
      }
    }

    /** `popMark()`: pop items, collecting them in their original order,
        down to and including the topmost MARK. */
    method PopMark() returns (popped: seq<Value>)
      modifies this
      ensures (popped, items) == PopMarkOf(old(items))
      ensures Mark !in popped
    {
      popped := [];
      var markIndex := |items| - 1;
      while markIndex >= 0
        invariant -1 <= markIndex < |old(items)|
        invariant items == old(items)[..markIndex + 1]
        invariant popped == old(items)[markIndex + 1..]
        invariant Mark !in popped
        decreases markIndex
      {
        if items[markIndex] == Mark {
          var _ := Pop();
          assert old(items) == items + [Mark] + popped;
          PickleFacts.PopMarkUnique(items, popped);
          return;
        }
        var v := Pop();
        popped := [v] + popped;
        markIndex := markIndex - 1;
      }
      assert popped == old(items);
    }
  }

  /** The memo: an array whose unwritten slots read as `undefined`. */
  class Memo {
    var slots: map<nat, Value>
    var length: nat

    constructor ()
      ensures Table() == MemoTable(map[], 0)
    {
      slots := map[];
      length := 0;
    }

    function Table(): MemoTable
      reads this
    {
      MemoTable(slots, length)
    }

    method Get(index: int) returns (v: Value)
      ensures v == MemoGet(Table(), index)
      ensures v != Undefined ==> 0 <= index && index in slots
    {
      if 0 <= index && index in slots {
        v := slots[index];
      } else {
        v := Undefined;
      }
    }

    /** `set(value, index)`: the array grows to cover the index when it is
        an array index (below 2^32 - 1). */
    method Set(v: Value, index: nat)
      modifies this
      ensures Table() == MemoSet(old(Table()), v, index)
      ensures MemoGet(Table(), index) == v
      ensures forall j :: j != index ==> MemoGet(Table(), j) == MemoGet(old(Table()), j)
      ensures length == (if index < MaxArrayLength && index >= old(length) then index + 1 else old(length))
    {
      slots := slots[index := v];
      if index < MaxArrayLength && index + 1 > length {
        length := index + 1;
      }
    }

    /** `append(value)`: `push` stores at the old length, and the value is
        then `lastMemo`; at 2^32 - 1 elements the store happens but the new
        length is refused with a RangeError. */
    method Append(v: Value) returns (r: Result<()>)
      modifies this
      ensures Table() == MemoSet(old(Table()), v, old(length))
      ensures r.Ok? <==> MemoAppend(old(Table()), v).Ok?
      ensures r.Ok? ==> Table() == MemoAppend(old(Table()), v).value && length == old(length) + 1 && LastMemo() == v
      ensures r.Err? ==> r.error == ArrayLengthOverflow && length == old(length)
    {
      var n := length;
      Set(v, n);
      if n >= MaxArrayLength {
        return Err(ArrayLengthOverflow);
      }
      r := Ok(());
    }

    /** The `lastMemo` getter. */
    function LastMemo(): Value
      reads this
    {
      MemoGet(Table(), length - 1)
    }
  }

  /** `Depickler`: the byte cursor it extends, the protocol it read, its stack
      and memo, and the objects its stack and memo refer to. */
  class Depickler {
    const reader: DataReader.Reader
    var protocol: int
    const stack: Stack
    const memo: Memo
    var heap: seq<Obj>

    /** The machine state `Pickle` speaks of. */
    function State(): Machine
      reads this, reader, stack, memo
    {
      Machine(reader.pointer, protocol, stack.items, memo.Table(), heap)
    }

    /** The depickler reads little-endian throughout. */
    predicate Valid()
      reads this, reader
    {
      reader.littleEndian
    }

    /** `new Depickler(data)`. */
    constructor (data: seq<byte>)
      ensures reader.data == data && Valid() && State() == Initial()
      ensures fresh(reader) && fresh(stack) && fresh(memo)
    {
      reader := new DataReader.Reader(data);
      protocol := -1;
      stack := new Stack();
      memo := new Memo();
      heap := [];
    }

    /** `readUntilNewline()`: the text up to the next `\n`, which is stepped over. */
    method ReadUntilNewline() returns (r: Result<string>)
      modifies reader`pointer
      ensures var spec := DataReader.TerminatedAt(reader.data, old(reader.pointer), 0x0A);
              && (spec.Ok? ==> r == Ok(spec.value.0) && reader.pointer == spec.value.1)
              && (spec.Err? ==> r == Err(BufferUnderrun) && reader.pointer == old(reader.pointer))
    {
      var data := reader.data;
      var peek := reader.pointer;
      while true
        invariant reader.pointer <= peek
        invariant DataReader.ScanFrom(data, peek, 0x0A) == DataReader.ScanFrom(data, reader.pointer, 0x0A)
        decreases |data| - peek
      {
        if peek < 0 || peek >= |data| {
          return Err(BufferUnderrun);
        }
        if data[peek] == 0x0A {
          break;
        }
        peek := peek + 1;
      }
      var s := reader.ReadString(peek - reader.pointer);
      assert DataReader.SliceOf(data, old(reader.pointer), peek) == data[old(reader.pointer)..peek];
      reader.pointer := reader.pointer + 1;
      r := Ok(s);
    }

    /** A new heap object, pushed by reference. */
    method PushNew(o: Obj)
      modifies this`heap, stack
      ensures heap == old(heap) + [o] && stack.items == old(stack.items) + [Ref(|old(heap)|)]
    {
      heap := heap + [o];
      stack.Append(Ref(|heap| - 1));
    }

    // ------------------------------------------------ one method per case

    method DoProto() returns (r: Result<()>)
      requires Valid()
      modifies this, reader`pointer
      ensures After(r, State()) == ExecProto(reader.data, old(State()))
    {
      var v := reader.ReadNumber(DataReader.Uint8);
      if v.Err? {
        return Err(v.error);
      }
      protocol := v.value;
      if !(0 <= protocol <= 5) {
        return Err(UnknownProtocol(protocol));
      }
      if protocol < 2 {
        return Err(UnsupportedProtocol(protocol));
      }
      r := Ok(());
    }

    /** FRAME: the 64-bit frame size is read and ignored. */
    method DoFrame() returns (r: Result<()>)
      requires Valid()
      modifies reader`pointer
      ensures After(r, State()) == ExecFrame(reader.data, old(State()))
    {
      var v := reader.ReadNumber(DataReader.BigUint64);
      r := if v.Ok? then Ok(()) else Err(v.error);
    }

    method DoCountedText(lengthType: DataReader.NumberType) returns (r: Result<()>)
      requires Valid() && !DataReader.IsSigned(lengthType)
      modifies reader`pointer, stack
      ensures After(r, State()) == ExecCountedText(reader.data, old(State()), lengthType)
    {
      ghost var m := State();
      var n := reader.ReadNumber(lengthType);
      if n.Err? {
        return Err(n.error);
      }
      ghost var q := m.pointer + DataReader.Size(lengthType);
      var s := reader.ReadString(n.value);
      stack.Append(Str(s));
      assert State() == Push(m.(pointer := q + n.value), Str(s));
      CountedTextRead(reader.data, m, lengthType, n.value);
      r := Ok(());
    }

    method DoShortBinBytes() returns (r: Result<()>)
      requires Valid()
      modifies reader`pointer, stack
      ensures After(r, State()) == ExecShortBinBytes(reader.data, old(State()))
    {
      var n := reader.ReadNumber(DataReader.Uint8);
      if n.Err? {
        return Err(n.error);
      }
      var buffer := reader.ReadBuffer(n.value);
      stack.Append(Bytes(buffer));
      r := Ok(());
    }

    method DoInt(t: DataReader.NumberType) returns (r: Result<()>)
      requires Valid()
      modifies reader`pointer, stack
      ensures After(r, State()) == ExecInt(reader.data, old(State()), t)
    {
      var v := reader.ReadNumber(t);
      if v.Err? {
        return Err(v.error);
      }
      stack.Append(Int(v.value));
      r := Ok(());
    }

    method DoLong1() returns (r: Result<()>)
      requires Valid()
      modifies reader`pointer, stack
      ensures After(r, State()) == ExecLong1(reader.data, old(State()))
    {
      ghost var m := State();
      var n := reader.ReadNumber(DataReader.Uint8);
      if n.Err? {
        return Err(n.error);
      }
      var v := reader.ReadCustomNumber(n.value, true);
      stack.Append(Int(v));
      assert State() == Push(m.(pointer := m.pointer + 1 + n.value), Int(v));
      Long1Read(reader.data, m, n.value);
      r := Ok(());
    }

    /** GLOBAL: `findClass(module, name)` makes the module value. */
    method DoGlobal() returns (r: Result<()>)
      modifies reader`pointer, stack
      ensures After(r, State()) == ExecGlobal(reader.data, old(State()))
    {
      var moduleName := ReadUntilNewline();
      if moduleName.Err? {
        return Err(moduleName.error);
      }
      var name := ReadUntilNewline();
      if name.Err? {
        return Err(name.error);
      }
      stack.Append(Global(moduleName.value, name.value));
      r := Ok(());
    }

    method DoTuple1()
      modifies this, stack
      ensures State() == ExecTuple1(old(State()))
    {
      var a := stack.Pop();
      PushNew(List([a]));
    }

    method DoTuple2()
      modifies this, stack
      ensures State() == ExecTuple2(old(State()))
    {
      var b := stack.Pop();
      var a := stack.Pop();
      PushNew(List([a, b]));
    }

    method DoTuple3()
      modifies this, stack
      ensures State() == ExecTuple3(old(State()))
    {
      var c := stack.Pop();
      var b := stack.Pop();
      var a := stack.Pop();
      PushNew(List([a, b, c]));
    }

    method DoTuple()
      modifies this, stack
      ensures State() == ExecTuple(old(State()))
    {
      var items := stack.PopMark();
      PushNew(List(DataReader.Reverse(items)));
    }

    /** APPEND: only an array has `push`. */
    method DoAppend() returns (r: Result<()>)
      modifies this, stack
      ensures After(r, State()) == ExecAppend(old(State()))
    {
      var v := stack.Pop();
      var t := stack.Last();
      if !IsList(heap, t) {
        return Err(TypeError);
      }
      heap := heap[t.id := List(heap[t.id].items + [v])];
      r := Ok(());
    }

    method DoAppends() returns (r: Result<()>)
      modifies this, stack
      ensures After(r, State()) == ExecAppends(old(State()))
    {
      var items := stack.PopMark();
      var t := stack.Last();
      if !IsList(heap, t) {
        return Err(TypeError);
      }
      heap := heap[t.id := List(heap[t.id].items + items)];
      r := Ok(());
    }

    method DoGet(t: DataReader.NumberType) returns (r: Result<()>)
      requires Valid() && !DataReader.IsSigned(t)
      modifies reader`pointer, stack
      ensures After(r, State()) == ExecGet(reader.data, old(State()), t)
    {
      var index := reader.ReadNumber(t);
      if index.Err? {
        return Err(index.error);
      }
      var v := memo.Get(index.value);
      if v == Undefined {
        return Err(MemoMiss(index.value));
      }
      stack.Append(v);
      r := Ok(());
    }

    method DoPut(t: DataReader.NumberType) returns (r: Result<()>)
      requires Valid() && !DataReader.IsSigned(t)
      modifies reader`pointer, memo
      ensures After(r, State()) == ExecPut(reader.data, old(State()), t)
    {
      var index := reader.ReadNumber(t);
      if index.Err? {
        return Err(index.error);
      }
      memo.Set(stack.Last(), index.value);
      r := Ok(());
    }

    method DoMemoize() returns (r: Result<()>)
      modifies memo
      ensures After(r, State()) == ExecMemoize(old(State()))
    {
      r := memo.Append(stack.Last());
    }

    /** `target[items[i]] = items[i + 1]` for i = 0, 2, 4, ...; only a plain
        object takes the assignments in this model. */
    method AssignItems(target: Value, items: seq<Value>) returns (r: Result<()>)
      requires |items| % 2 == 0
      modifies this`heap
      ensures r.Ok? ==> SetItems(old(heap), target, items) == Ok(heap)
      ensures r.Err? ==> SetItems(old(heap), target, items) == Err(r.error)
    {
      var i := 0;
      while i < |items|
        invariant 0 <= i <= |items| && |items[i..]| % 2 == 0
        invariant SetItems(heap, target, items[i..]) == SetItems(old(heap), target, items)
        decreases |items| - i
      {
        EvenTail(items[i..]);
        SetItemsFirstFails(heap, target, items[i..]);
        if !(target.Ref? && target.id < |heap| && heap[target.id].Dict?) {
          r := if target.Ref? || target.Global? || target.Bytes? then Err(NotModelled) else Err(TypeError);
          return;
        }
        var key := KeyOf(items[i]);
        if key.Err? {
          assert items[i..][0] == items[i];
          return Err(key.error);
        }
        SetItemsFirstPair(heap, target.id, items[i..], key.value);
        assert target == Ref(target.id) && items[i..][1] == items[i + 1];
        assert items[i..][2..] == items[i + 2..];
        heap := heap[target.id := Dict(Assign(heap[target.id].entries, key.value, items[i + 1]))];
        i := i + 2;
      }
      r := Ok(());
    }

    method DoSetItems() returns (r: Result<()>)
      modifies this, stack
      ensures After(r, State()) == ExecSetItems(old(State()))
    {
      var items := stack.PopMark();
      if |items| % 2 != 0 {
        return Err(OddSetItems);
      }
      r := AssignItems(stack.Last(), items);
    }

    method DoSetItem() returns (r: Result<()>)
      modifies this, stack
      ensures After(r, State()) == ExecSetItem(old(State()))
    {
      var v := stack.Pop();
      var k := stack.Pop();
      r := AssignItems(stack.Last(), [k, v]);
    }

    /** `cls.make(...args)`: a new instance, when `cls` is a module value. */
    method MakeInstance(cls: Value, args: Value) returns (r: Result<Value>)
      modifies this`heap
      ensures r.Ok? ==> Make(old(heap), cls, args) == Ok((heap, r.value))
      ensures r.Err? ==> Make(old(heap), cls, args) == Err(r.error)
    {
      if !cls.Global? {
        return Err(TypeError);
      }
      var argv := Spread(heap, args);
      if argv.Err? {
        return Err(argv.error);
      }
      heap := heap + [Instance(cls.moduleName, cls.name, argv.value, Undefined)];
      r := Ok(Ref(|heap| - 1));
    }

    method DoNewObj() returns (r: Result<()>)
      modifies this, stack
      ensures After(r, State()) == ExecNewObj(old(State()))
    {
      var args := stack.Pop();
      var cls := stack.Pop();
      var made := MakeInstance(cls, args);
      if made.Err? {
        return Err(made.error);
      }
      stack.Append(made.value);
      r := Ok(());
    }

    /** REDUCE: the callable below the arguments is replaced by its result. */
    method DoReduce() returns (r: Result<()>)
      modifies this, stack
      ensures After(r, State()) == ExecReduce(old(State()))
    {
      var args := stack.Pop();
      var f := stack.Last();
      if !f.Global? {
        return Err(TypeError);
      }
      var made := MakeInstance(f, args);
      if made.Err? {
        return Err(made.error);
      }
      stack.SetLast(made.value);
      r := Ok(());
    }

    /** BUILD: `inst.state = state` on the object below the state. */
    method DoBuild() returns (r: Result<()>)
      modifies this, stack
      ensures After(r, State()) == ExecBuild(old(State()))
    {
      var state := stack.Pop();
      var inst := stack.Last();
      if inst.Global? || inst.Bytes? {
        return Err(NotModelled);
      }
      if !inst.Ref? {
        return Err(TypeError);
      }
      if inst.id >= |heap| {
        return Err(NotModelled);
      }
      match heap[inst.id] {
        case Instance(mn, n, args, _) =>
          heap := heap[inst.id := Instance(mn, n, args, state)];
        case Dict(entries) =>
          heap := heap[inst.id := Dict(Assign(entries, "state", state))];
        case List(_) =>
          return Err(NotModelled);
      }
      r := Ok(());
    }

    /** The `switch` of `readOperation`, once the opcode byte is read. */
    method Execute(op: Opcode) returns (r: Result<()>)
      requires Valid()
      modifies this, reader`pointer, stack, memo
      ensures After(r, State()) == Exec(op, reader.data, old(State()))
    {
      if ReadsText(op) {
        r := ExecuteText(op);
      } else if ReadsNumber(op) {
        r := ExecuteNumber(op);
      } else if PushesConstant(op) {
        ExecuteConstant(op);
        r := Ok(());
      } else if ShapesStack(op) {
        ExecuteShape(op);
        r := Ok(());
      } else {
        r := ExecuteOnObjects(op);
      }
    }

    /** The cases of the opcode switch that read text or bytes. */
    method ExecuteText(op: Opcode) returns (r: Result<()>)
      requires Valid() && ReadsText(op)
      modifies this, reader`pointer, stack, memo
      ensures After(r, State()) == ExecText(op, reader.data, old(State()))
    {
      match op {
        case OpProto => r := DoProto();
        case OpFrame => r := DoFrame();
        case OpShortBinUnicode => r := DoCountedText(DataReader.Uint8);
        case OpShortBinBytes => r := DoShortBinBytes();
        case OpBinUnicode => r := DoCountedText(DataReader.Uint32);
        case OpShortBinString => r := DoCountedText(DataReader.Uint8);
        case OpGlobal => r := DoGlobal();
      }
    }

    /** The cases of the opcode switch that read a number. */
    method ExecuteNumber(op: Opcode) returns (r: Result<()>)
      requires Valid() && ReadsNumber(op)
      modifies this, reader`pointer, stack, memo
      ensures After(r, State()) == ExecNumber(op, reader.data, old(State()))
    {
      match op {
        case OpBinInt => r := DoInt(DataReader.Int32);
        case OpBinGet => r := DoGet(DataReader.Uint8);
        case OpBinInt2 => r := DoInt(DataReader.Uint16);
        case OpBinPut => r := DoPut(DataReader.Uint8);
        case OpLong1 => r := DoLong1();
        case OpLongBinPut => r := DoPut(DataReader.Uint32);
        case OpBinInt1 => r := DoInt(DataReader.Uint8);
        case OpLongBinGet => r := DoGet(DataReader.Uint32);
      }
    }

    /** The cases of the opcode switch that push a constant or a new object. */
    method ExecuteConstant(op: Opcode)
      requires Valid() && PushesConstant(op)
      modifies this, stack
      ensures State() == ExecConstant(op, old(State()))
    {
      match op {
        case OpEmptyDict => PushNew(Dict([]));
        case OpMark => stack.Append(Mark);
        case OpEmptyList => PushNew(List([]));
        case OpEmptyTuple => PushNew(List([]));
        case OpNone => stack.Append(Null);
        case OpNewFalse => stack.Append(Bool(false));
        case OpNewTrue => stack.Append(Bool(true));
      }
    }

    /** The cases of the opcode switch that make a tuple or memoize. */
    method ExecuteShape(op: Opcode)
      requires Valid() && ShapesStack(op)
      modifies this, stack, memo
      ensures State() == ExecShape(op, old(State()))
    {
      match op {
        case OpTuple3 => DoTuple3();
        case OpTuple => DoTuple();
        case OpTuple2 => DoTuple2();
        case OpTuple1 => DoTuple1();
      }
    }

    /** The cases of the opcode switch that work on the objects below the
        top, plus STOP and the opcodes with no case. */
    method ExecuteOnObjects(op: Opcode) returns (r: Result<()>)
      requires Valid() && !ReadsText(op) && !ReadsNumber(op) && !PushesConstant(op) && !ShapesStack(op)
      modifies this, reader`pointer, stack, memo
      ensures After(r, State()) == ExecObjects(op, old(State()))
    {
      match op {
        case OpStop => r := Ok(());
        case OpMemoize => r := DoMemoize();
        case OpAppend => r := DoAppend();
        case OpSetItems => r := DoSetItems();
        case OpNewObj => r := DoNewObj();
        case OpBuild => r := DoBuild();
        case OpAppends => r := DoAppends();
        case OpSetItem => r := DoSetItem();
        case OpReduce => r := DoReduce();
        case Unimplemented(b) => r := Err(UnimplementedOpcode(b));
        case Unknown(b) => r := Err(UnknownOpcode(NumberUtils.Hex(b, 1)));
      }
    }

    /** `readOperation()`: one opcode and its operands; the opcode byte is
        returned. */
    method ReadOperation() returns (r: Result<byte>)
      requires Valid()
      modifies this, reader`pointer, stack, memo
      ensures Valid()
      ensures r.Ok? ==> Step(reader.data, old(State())) == Ok((State(), r.value))
      ensures r.Err? ==> Step(reader.data, old(State())) == Err(r.error)
    {
      ghost var m := State();
      if reader.Eof() {
        return Err(UnexpectedEof);
      }
      var b := reader.ReadNumber(DataReader.Uint8);
      if b.Err? {
        return Err(b.error);
      }
      var opcode: byte := b.value;
      assert State() == m.(pointer := m.pointer + 1);
      var e := Execute(Decode(opcode));
      PickleFacts.StepExec(reader.data, m);
      r := if e.Ok? then Ok(opcode) else Err(e.error);
    }

    /** `readPickle()`: operations until STOP; the stack is the result. */
    method ReadPickle() returns (r: Result<seq<Value>>)
      requires Valid()
      modifies this, reader`pointer, stack, memo
      ensures var spec := Run(reader.data, old(State()));
              && (spec.Ok? ==> r == Ok(stack.items) && State() == spec.value)
              && (spec.Err? ==> r == Err(spec.error))
    {
      var op := ReadOperation();
      while op.Ok? && op.value != Code(OpStop)
        invariant Valid()
        invariant Run(reader.data, old(State())) ==
                  if op.Err? then Err(op.error)
                  else if op.value == Code(OpStop) then Ok(State())
                  else Run(reader.data, State())
        decreases (if op.Ok? && op.value != Code(OpStop) then 1 else 0),
                  (if reader.pointer < |reader.data| then |reader.data| - reader.pointer else 0)
      {
        op := ReadOperation();
      }
      r := if op.Ok? then Ok(stack.items) else Err(op.error);
    }
  }

  /** `Depickler.depickle(data)`: the stack a fresh depickler ends with,
      together with the heap its references point into, so the lists, dicts
      and instances it built are part of the result. */
  method Depickle(data: seq<byte>) returns (r: Result<(seq<Value>, seq<Obj>)>)
    ensures var spec := Run(data, Initial());
            && (spec.Ok? ==> r == Ok((spec.value.stack, spec.value.heap)))
            && (spec.Err? ==> r == Err(spec.error))
    ensures r.Ok? ==> PickleFacts.AllIn(r.value.0, |r.value.1|) && PickleFacts.HeapIn(r.value.1, |r.value.1|)
  {
    PickleFacts.InitialClosed();
    if Run(data, Initial()).Ok? {
      PickleFacts.RunKeepsClosed(data, Initial());
    }
    var d := new Depickler(data);
    var out := d.ReadPickle();
    if out.Err? {
      return Err(out.error);
    }
    r := Ok((out.value, d.heap));
  }
}

# Ren'Py asset recovery, modelled in Dafny

This project models the read-only core of a Ren'Py asset browser. The browser opens `.rpa` archives and compiled `.rpyc` scripts and turns the scripts back into Ren'Py source text. The model covers six parts.

- **The byte cursor** (`data_reader.dfy`, module `DataReader`). `DataReader` is a class `Reader` that holds an immutable byte buffer and a `pointer`. Every read is a method that moves the pointer. Each method is proved against a function of the buffer and the old pointer (`NumberAt`, `TerminatedAt`, `ReadAt`, `ReadManyAt`, `MagicAt`, ...). The integer reads follow the source's arithmetic exactly:
  - `readCustomNumber` accumulates with JavaScript's 32-bit `<<` and `|`, so it wraps modulo 2^32;
  - `readBigCustomNumber` is unbounded;
  - both carry the source's sign test, described under Findings.

  Past the end of the buffer, `readBuffer` and `readString` return what `ArrayBuffer.slice` returns: a shorter buffer, not an error. The `DataView` reads fail with a buffer underrun. `NumberUtils.hex` lives in `number_utils.dfy`. The string primitives the code relies on (`split`, `join`, `indexOf`, `replace` of one character, decimal `toString`) are in `text.dfy`.
- **The pickle machine** (`pickle.dfy`, `depickler.dfy`). Lists, tuples, dicts and `DummyClass` instances are shared by reference between stack slots and memo slots. So they live in a heap `seq<Obj>`, and the stack holds `Ref` indices into it. This makes the in-place `APPEND`/`APPENDS`/`SETITEMS`/`SETITEM`/`BUILD` on a memoised object visible through every alias.
  - `Pickle.Step` is one `readOperation` and `Pickle.Run` is `readPickle`.
  - The classes `Depickler.Stack`, `Depickler.Memo` and `Depickler.Depickler` keep the source's fields and loops. Each of their methods is proved to perform the corresponding step.
  - `PickleFacts` states each opcode's effect and proves that no operation ever creates a dangling reference.
  - `TUPLE` is modelled as written: it reverses the already push-ordered result of `popMark`, so its tuple is in reverse push order (`PickleFacts.StepTuple`). The script renderer's `PyExpr` rule reads `args[3]` of such tuples, so the order is kept as the code has it.
- **The archive reader** (`archive.dfy`). It covers:
  - the 34-byte `RPA-3.0` header, including `parseInt(_, 16)` and its stop at the first non-digit;
  - XOR-decoding of section offsets and lengths with JavaScript's signed 32-bit `^`;
  - file contents as the concatenation of their sections;
  - the `ArchiveReader` class with its `blobPointer` and `key` fields.
- **The script container** (`load.dfy`). It covers the `RENPY RPC2` signature, the legacy single-chunk fallback, the slot table read as little-endian `uint32` triples until slot 0, and per-chunk inflation. The header comment of `src/renpy/script/load.ts` names `RPA-3.0` as the signature, but the code checks `RENPY RPC2`, and the model follows the code.
- **The virtual directory** (`directory.dfy`). It covers:
  - `resolvePath`;
  - `fromFileList` with its file/folder conflict rule;
  - `getFile`/`getDirectory`/`listEntries`;
  - `SubDirectory`, which forwards every lookup to its parent under a base path.

  Folders are values, because every folder has exactly one parent.
- **The decompiler** (`script_text.dfy`, `decompile.dfy`, `decompile_script.dfy` and the three `*_facts.dfy` files). `decompile.dfy` renders a typed tree of compiled-script nodes:
  - `Decompile.Render` dispatches on the module name;
  - `RenderRenPy`, `RenderSl2` and `RenderAtl` dispatch on the class name, one case per class of `renpy.ast`, `renpy.sl2.slast` and `renpy.atl`, with each class's state shape as a datatype.

  The three renderers call each other, so they share one module. They are specified by the lemmas in `RenPyFacts`, `Sl2Facts` and `AtlFacts`. `ScriptText` holds `indent` and `cleanScript`. The `cleanScript` model is an explicit matcher for the regular expression `/\s+(?=(\n|$))/g`. `DecompileScript` holds:
  - `decompileScript`: chunk choice, version check, header, code loop and clean step;
  - the bounded `classStack` debug trail as the class `Trail`.

Errors are values: every `throw` of the modelled code is a constructor of `Failures.Error`, and every operation that can throw returns a `Result`.

## Model

| member | source | states |
|---|---|---|
| `Text.Latin1` | src/common/DataReader.ts:233-237 | The decoded text has exactly one character per byte, and each character's code equals its byte. |
| `Text.Split` | src/renpy/archive.ts:177 | `split(sep)` yields at least one piece, no piece contains the separator, and joining the pieces with the separator gives back the input |
| `Text.SplitNoSeparator` | src/common/Directory.ts:105 | splitting a string without the separator gives the one-element list holding it |
| `Text.SplitAfterPiece` | src/renpy/archive.ts:177 | splitting `x + sep + y` gives `x` followed by the pieces of `y` |
| `Text.SplitJoin` | src/renpy/script/decompile_renpy.ts:381 | split is the inverse of join for pieces free of the separator |
| `Text.IntToString` | src/renpy/script/decompile_renpy_atl.ts:96 | the decimal text of an integer is non-empty and starts with `-` exactly when the integer is negative |
| `Text.RemoveFirst` | src/renpy/script/decompile_renpy.ts:453 | `replace(c, '')` on a string leaves it unchanged when `c` is absent, and otherwise removes exactly one `c` and keeps every other character |
| `DataReader.LittleEndian` | src/common/DataReader.ts:159-175 | a little-endian byte run of length k is below 256^k |
| `DataReader.Reverse` | src/common/DataReader.ts:172-174 | the reversed byte run has the same length and reads the input from the end |
| `DataReader.BigEndianOfReverse` | src/common/DataReader.ts:172-175 | reversing the bytes and reading them most-significant first gives the little-endian value |
| `DataReader.DecodeNumber` | src/common/DataReader.ts:8-19 | an unsigned integer kind decodes to a value in `[0, 256^width)` |
| `DataReader.NumberAt` | src/common/DataReader.ts:134-138 | a fixed-width read succeeds exactly when `width` bytes remain at the pointer, is in range for the unsigned kinds, and otherwise fails with a buffer underrun |
| `DataReader.LittleEndianWords` | src/common/DataReader.ts:127-138 | with the default little-endian flag a Uint16 over `b0,b1` is `b0 + 256*b1` and a Uint32 is `b0 + 256*b1 + 65536*b2 + 16777216*b3` |
| `DataReader.SignedNumberRange` | src/common/DataReader.ts:8-19 | a signed kind reads in `[-256^w/2, 256^w/2)` and is the unsigned read minus 256^w when negative (two's complement) |
| `DataReader.SliceOf` | src/common/DataReader.ts:109-113 | `slice(start, end)` is the sub-buffer when the bounds are in range and never longer than the buffer |
| `DataReader.Acc32` | src/common/DataReader.ts:166-170 | the shift-and-or accumulation of `readCustomNumber` stays within 32 bits |
| `DataReader.ToInt32` | src/common/DataReader.ts:166-170 | the reinterpretation of the 32-bit accumulator as a JS int32 is in the signed 32-bit range |
| `DataReader.Acc32IsBigEndianMod` | src/common/DataReader.ts:166-170 | the 32-bit accumulation is the most-significant-first value of the bytes modulo 2^32 |
| `DataReader.CustomNumberSmallWidths` | src/common/DataReader.ts:159-188 | `readCustomNumber` of 1-3 little-endian bytes is their unsigned value whether or not `signed` is set; 4 bytes give the int32 reinterpretation |
| `DataReader.CustomValueBelowMask` | src/common/DataReader.ts:179-182 | while the accumulated value is below 256^bytes the sign test on bit `8*bytes` never fires |
| `DataReader.CustomValue` | src/common/DataReader.ts:159-188 | `readCustomNumber` always returns a signed 32-bit integer, whatever the width and the sign flag |
| `DataReader.SignedBigCustomIsUnsigned` | src/common/DataReader.ts:218-221 | `readBigCustomNumber` with `signed` set returns the same non-negative value as the unsigned read, for every width and every byte run |
| `DataReader.BigCustomValue` | src/common/DataReader.ts:198-227 | `readBigCustomNumber` never exceeds the unsigned value of its bytes in magnitude, and comes out negative only for a signed read |
| `DataReader.SignedBigCustomOfFF` | src/common/DataReader.ts:198-227 | the signed one-byte read of `0xFF` returns 255, not -1 |
| `DataReader.TwosComplement` | src/common/DataReader.ts:218-221 | the intended signed reading: the unsigned value or that minus 256^k, in the signed range, and negative exactly when the top byte is at least 128 |
| `DataReader.TopByteBound` | src/common/DataReader.ts:218-221 | a most-significant-first value is at least half of 256^k exactly when its first byte is at least 128 |
| `DataReader.ScanFrom` | src/common/DataReader.ts:248-252 | the terminator scan finds the first position at or after the start holding the terminator, or reports that none remains |
| `DataReader.TerminatedAt` | src/common/DataReader.ts:244-258 | a terminated read returns the decoded bytes before the first terminator, none of which is the terminator, and moves one past it; it fails with an underrun when no terminator remains |
| `DataReader.NullStringAt` | src/common/DataReader.ts:244-258 | `readNullString` returns the bytes from the pointer up to the first 0 byte, one character per byte and without the terminator, and moves past that 0; when no 0 byte follows it fails with a buffer underrun |
| `DataReader.ReadAt` | src/common/DataReader.ts:109-258 | every successful read moves the pointer by exactly its width (the kind's size, the custom byte count or the buffer length); only the `DataView` number reads and `readNullString` can fail, always with a buffer underrun, and a read that can fail never leaves the buffer |
| `DataReader.ReadManyAt` | src/common/DataReader.ts:265-271 | `readArray(f, n)` yields exactly n items |
| `DataReader.PrependTwice` | src/common/DataReader.ts:265-271 | collecting items in two batches is collecting their concatenation |
| `DataReader.ReadManyStep` | src/common/DataReader.ts:265-271 | one successful read followed by n-1 more is n reads with that item first |
| `DataReader.ReadManyFails` | src/common/DataReader.ts:265-271 | a failing read fails the whole `readArray` |
| `DataReader.ReadWhileAt` | src/common/DataReader.ts:276-282 | `readArrayWhile`, with a reader that fails at the end of the buffer, always reads at least one element |
| `DataReader.ReadWhileStopsOnFalse` | src/common/DataReader.ts:276-282 | `readArrayWhile`, with a reader that fails at the end of the buffer, keeps every earlier element and ends with the element on which the predicate first fails, which it keeps |
| `DataReader.ReadUntilEndAt` | src/common/DataReader.ts:296-298 | `readArrayUntilEnd`, with a reader that always moves the pointer, reads at least one element and stops only once the pointer has reached the end |
| `DataReader.MagicMatchesExactly` | src/common/DataReader.ts:310-336 | a string or byte magic succeeds exactly when the next bytes equal it, and then consumes exactly its length |
| `DataReader.MagicAt` | src/common/DataReader.ts:310-354 | `assertMagic` moves the pointer by the signature's length (text, bytes or number width) on success; it fails only with a mismatch, or with a buffer underrun when a number signature runs past the end |
| `DataReader.Reader.constructor` | src/common/DataReader.ts:77-89 | a new cursor holds the buffer, starts at pointer 0 and reads little-endian |
| `DataReader.Reader.Eof` | src/common/DataReader.ts:47-49 | `eof` is true exactly when no bytes are left after the pointer |
| `DataReader.Reader.DataLeft` | src/common/DataReader.ts:50-52 | `dataLeft` is the number of bytes from the pointer to the end: pointer plus `dataLeft` is the buffer length |
| `DataReader.Reader.ReadBuffer` | src/common/DataReader.ts:109-113 | returns the bytes in `[pointer, pointer+n)` and advances the pointer by exactly n |
| `DataReader.Reader.ReadString` | src/common/DataReader.ts:233-238 | returns those bytes decoded and advances the pointer by exactly n |
| `DataReader.Reader.ReadNumber` | src/common/DataReader.ts:134-138 | returns the fixed-width value at the pointer and advances by the kind's width, or fails and stays put |
| `DataReader.Reader.ReadCustomNumber` | src/common/DataReader.ts:159-188 | the accumulated value of the k bytes in read order, with the source's sign test, and the pointer advanced by k |
| `DataReader.Reader.ReadBigCustomNumber` | src/common/DataReader.ts:198-227 | the same for the arbitrary-precision variant |
| `DataReader.Reader.ReadNullString` | src/common/DataReader.ts:244-258 | returns the bytes before the first NUL at or after the pointer and leaves the pointer one past it; with no NUL it fails |
| `DataReader.Reader.Read` | src/common/DataReader.ts:265-271 | one read of a reader function, agreeing with its specification and moving the pointer as it says |
| `DataReader.Reader.Peek` | src/common/DataReader.ts:96-102 | returns what the reader would read at `pointer+offset` and leaves the pointer where it was |
| `DataReader.Reader.ReadNext` | src/common/DataReader.ts:265-271 | one loop step of `readArray` keeps the collected items consistent with the n-item specification |
| `DataReader.Reader.ReadArray` | src/common/DataReader.ts:265-271 | `readArray(f, n)` returns the n items in read order and leaves the pointer after them |
| `DataReader.Reader.ReadArrayWhile` | src/common/DataReader.ts:276-282 | `readArrayWhile`, with a reader that fails at the end of the buffer, agrees with its specification: read, keep, stop after the first element failing the predicate |
| `DataReader.Reader.ReadArrayUntilEnd` | src/common/DataReader.ts:296-298 | `readArrayUntilEnd` agrees with its specification: read until the pointer reaches the end |
| `DataReader.Reader.AssertMagic` | src/common/DataReader.ts:310-354 | succeeds exactly when the magic matches; a string or byte magic consumes its length even when it fails, a number magic its width when it was readable |
| `DataReader.Reader.IsMagic` | src/common/DataReader.ts:360-367 | returns true exactly when the magic matches, with the pointer moved as by `assertMagic` |
| `NumberUtils.Repeat` | src/common/NumberUtils.ts:18 | the `padStart` fill is exactly `count` copies of the pad character |
| `NumberUtils.Hex` | src/common/NumberUtils.ts:17-19 | the result is the prefix (by default `0x`) followed by the padded upper-case digits |
| `NumberUtils.ToString16` | src/common/NumberUtils.ts:18 | `toString(16)` of a natural number is non-empty and reads back as the number |
| `NumberUtils.PadStart` | src/common/NumberUtils.ts:18 | `padStart(target, fill)` gives a string of length `max(|s|, target)` that ends with `s` and holds only `fill` in front of it |
| `NumberUtils.HexDigits` | src/common/NumberUtils.ts:18 | the digit part is never shorter than two digits per byte, nor than the unpadded digits |
| `NumberUtils.ParseHexBound` | src/common/NumberUtils.ts:18 | `k` upper-case hexadecimal digits read as a number in `[0, 16^k)` |
| `NumberUtils.ToUpperCaseAppend` | src/common/NumberUtils.ts:18 | upper-casing distributes over concatenation |
| `NumberUtils.UpperHexRoundTrip` | src/common/NumberUtils.ts:18 | `toString(16).toUpperCase()` of a non-negative value consists of upper-case hex digits and parses back to the value |
| `NumberUtils.ParseHexLeadingZeros` | src/common/NumberUtils.ts:18 | left-padding with `'0'` does not change the value the digits denote |
| `NumberUtils.HexDigitsFacts` | src/common/NumberUtils.ts:7-19 | the digit part is at least `2*bytes` long, never truncated (it ends with the whole unpadded digit string), upper-case hex throughout, and parses back to the value |
| `NumberUtils.ToString16Length` | src/common/NumberUtils.ts:18 | a value below 16^k has at most k hex digits |
| `NumberUtils.HexOf1337` | src/common/NumberUtils.ts:10 | `hex(1337, 2)` is `0x0539`: the code pads to four digits, unlike the `0x539` of its doc comment |
| `Pickle.PopOf` | src/renpy/depickle.ts:256 | `pop` removes and returns the top, and an empty stack yields `undefined` and stays empty |
| `Pickle.LastMark` | src/renpy/depickle.ts:268-276 | the mark scan finds the topmost MARK, with no MARK above it, or reports that the stack holds none |
| `Pickle.PopMarkOf` | src/renpy/depickle.ts:268-283 | `popMark` returns the items above the topmost MARK in push order, mark-free, and leaves what lies below the MARK; with no MARK it returns the whole stack and empties it |
| `Pickle.MemoGet` | src/renpy/depickle.ts:291-293 | `get` returns the value stored in a slot, and `undefined` for a slot never written |
| `Pickle.MemoSet` | src/renpy/depickle.ts:295-297 | `memo[index] = value` stores at the index and keeps every other slot; the length grows to cover the index only when it is an array index, below 2^32 - 1 |
| `Pickle.MemoAppend` | src/renpy/depickle.ts:299-301 | `push` stores at the current length and grows it by one, and fails with a RangeError exactly when the array already holds 2^32 - 1 elements |
| `Pickle.MemoStoreLoad` | src/renpy/depickle.ts:287-301 | a memo slot reads back what was last stored there, other slots are untouched, only an array index grows the length, and `append` stores at the current length unless the length limit is reached |
| `Pickle.MemoNonIndexStore` | src/renpy/depickle.ts:295-301 | a store at 2^32 - 1 is not an array index: the length stays 0, so the next `append` lands in slot 0 |
| `Pickle.Lookup` | src/renpy/depickle.ts:447-454 | a dict holds a value under a key exactly when the key is one of its keys, and the value read is the one stored with that key |
| `Pickle.Assign` | src/renpy/depickle.ts:447-454 | `obj[key] = value` keeps the key order and adds the key at the end only when it was new |
| `Pickle.AssignLookup` | src/renpy/depickle.ts:443-455 | assigning a dict key makes it map to the new value and leaves every other key's value |
| `Pickle.KeyOf` | src/renpy/depickle.ts:447-454 | strings, numbers, booleans, `null` and `undefined` become property keys, a string being its own key; any other key fails as not modelled |
| `Pickle.AssignPairs` | src/renpy/depickle.ts:447-454 | assigning the pairs never loses a key the dict had, and fails only as not modelled (a key that is not a primitive) |
| `Pickle.AssignOnePair` | src/renpy/depickle.ts:597-603 | one key/value pair assigned into a dict can be looked up afterwards |
| `Pickle.SetItems` | src/renpy/depickle.ts:443-455 | SETITEMS/SETITEM assign their pairs, in order, into a dict target without allocating or freeing heap objects; other targets are listed under Left out |
| `Pickle.Build` | src/renpy/depickle.ts:547-557 | attaching a state never allocates or frees heap objects |
| `Pickle.Spread` | src/renpy/depickle.ts:233-235 | `...args` works exactly for an array, a string or a byte array: an array gives its items, a string one one-character string per character, a byte array one number per byte; anything else is a `TypeError` |
| `Pickle.Make` | src/renpy/depickle.ts:233-235 | a class reference applied to an argument list allocates one new instance of that module and class holding the spread arguments and no state, and returns a reference to it |
| `Pickle.DecodeCode` | src/renpy/depickle.ts:44-201 | decoding an opcode byte is lossless, and a byte is reported unknown exactly when it is not in the opcode table |
| `Pickle.U8` | src/renpy/depickle.ts:352-364 | a byte read inside the buffer returns that byte |
| `Pickle.ExecProto` | src/renpy/depickle.ts:352-364 | PROTO consumes exactly its version byte |
| `Pickle.ExecFrame` | src/renpy/depickle.ts:366-372 | FRAME consumes exactly its 8-byte length |
| `Pickle.ExecCountedText` | src/renpy/depickle.ts:392-396 | the length-prefixed string opcodes never move the pointer back |
| `Pickle.ExecShortBinBytes` | src/renpy/depickle.ts:410-416 | SHORT_BINBYTES never moves the pointer back |
| `Pickle.ExecInt` | src/renpy/depickle.ts:404 | the BININT family never moves the pointer back |
| `Pickle.ExecLong1` | src/renpy/depickle.ts:477-482 | LONG1 never moves the pointer back |
| `Pickle.ExecGlobal` | src/renpy/depickle.ts:498-505 | GLOBAL never moves the pointer back |
| `Pickle.ExecGet` | src/renpy/depickle.ts:431-441 | BINGET/LONG_BINGET never move the pointer back |
| `Pickle.ExecPut` | src/renpy/depickle.ts:463-467 | BINPUT/LONG_BINPUT never move the pointer back |
| `Pickle.Exec` | src/renpy/depickle.ts:338-635 | no opcode moves the pointer back |
| `Pickle.ExecText` | src/renpy/depickle.ts:470-489 | the string-reading opcodes never move the pointer back |
| `Pickle.ExecNumber` | src/renpy/depickle.ts:457 | the integer-reading opcodes never move the pointer back |
| `Pickle.ExecConstant` | src/renpy/depickle.ts:522-569 | NONE, NEWTRUE, NEWFALSE and the empty containers read no operand |
| `Pickle.ExecShape` | src/renpy/depickle.ts:418-422 | the MARK and tuple opcodes read no operand |
| `Pickle.ExecObjects` | src/renpy/depickle.ts:513-520 | the container and object opcodes never move the pointer back |
| `Pickle.Step` | src/renpy/depickle.ts:338-344 | `readOperation` succeeds only inside the buffer, always moves forward, and reports the opcode byte it read |
| `Pickle.StepStop` | src/renpy/depickle.ts:350 | STOP changes nothing but the pointer |
| `Pickle.Run` | src/renpy/depickle.ts:637-656 | `readPickle` only returns once it has read a STOP byte, and stays inside the buffer |
| `PickleFacts.StepExec` | src/renpy/depickle.ts:338-348 | one operation is: read the opcode byte, then execute the decoded opcode |
| `PickleFacts.StepOp` | src/renpy/depickle.ts:338-348 | the same for an opcode named by its code |
| `PickleFacts.StepAtEnd` | src/renpy/depickle.ts:342-344 | reading an operation at the end of the buffer fails as an unexpected end of file |
| `PickleFacts.StepUnknown` | src/renpy/depickle.ts:617-625 | a byte outside the opcode table fails as unknown, naming its two-digit hex form |
| `PickleFacts.StepUnimplemented` | src/renpy/depickle.ts:617-625 | a listed opcode without a handler fails as unimplemented, naming its byte |
| `PickleFacts.StackGlobalUnimplemented` | src/renpy/depickle.ts:617-625 | STACK_GLOBAL is listed but not handled |
| `PickleFacts.StepProto` | src/renpy/depickle.ts:352-364 | PROTO accepts exactly versions 2 to 5 and records it; 0 and 1 fail as unsupported, anything above 5 as unknown |
| `PickleFacts.StepFrame` | src/renpy/depickle.ts:366-372 | FRAME skips its 8 bytes and leaves stack, memo and heap untouched |
| `PickleFacts.StepTuple2` | src/renpy/depickle.ts:541-545 | TUPLE2 replaces the top two items by a new tuple holding them in push order |
| `PickleFacts.StepTuple3` | src/renpy/depickle.ts:418-422 | TUPLE3 replaces the top three items by a new tuple holding them in push order |
| `PickleFacts.StepTuple` | src/renpy/depickle.ts:535-539 | TUPLE replaces the MARK and the items above it by a new tuple holding those items in reverse push order |
| `PickleFacts.PopMarkUnique` | src/renpy/depickle.ts:268-283 | with a MARK below mark-free items, `popMark` returns exactly those items and the stack below the MARK |
| `PickleFacts.LastMarkAbove` | src/renpy/depickle.ts:268-276 | the topmost MARK is the one directly below the mark-free items |
| `PickleFacts.StepPutThenGet` | src/renpy/depickle.ts:431-467 | BINPUT i then BINGET i pushes the very object that was on top, and BINPUT leaves the stack unchanged |
| `PickleFacts.StepBinPut` | src/renpy/depickle.ts:463-467 | BINPUT stores the top at the explicit index and leaves the stack unchanged |
| `PickleFacts.StepBinGet` | src/renpy/depickle.ts:431-441 | BINGET pushes the stored object, or fails when the slot is unset |
| `PickleFacts.StepMemoize` | src/renpy/depickle.ts:380-384 | MEMOIZE appends the top to the memo and leaves the stack unchanged; with 2^32 - 1 memo elements it fails with a RangeError |
| `PickleFacts.StepAppend` | src/renpy/depickle.ts:424-429 | APPEND pops one item and appends it to the list below, which stays on the stack |
| `PickleFacts.StepAppends` | src/renpy/depickle.ts:571-577 | APPENDS extends the list below the MARK with the mark-scoped items in push order; the list stays on the stack |
| `PickleFacts.StepSetItemsOdd` | src/renpy/depickle.ts:443-455 | SETITEMS fails on an odd number of mark-scoped items |
| `PickleFacts.StepSetItemsDict` | src/renpy/depickle.ts:443-455 | SETITEMS assigns the mark-scoped key/value pairs into the dict in order; the dict stays on the stack |
| `PickleFacts.StepSetItem` | src/renpy/depickle.ts:597-603 | SETITEM pops the value, then the key, and stores the pair into the dict that stays on top |
| `PickleFacts.StepNewObj` | src/renpy/depickle.ts:513-520 | NEWOBJ replaces a class reference and its argument tuple by a new instance holding those arguments |
| `PickleFacts.StepReduce` | src/renpy/depickle.ts:605-615 | REDUCE with a class reference does the same as NEWOBJ |
| `PickleFacts.StepBuild` | src/renpy/depickle.ts:547-557 | BUILD pops the state and attaches it to the instance that stays on top |
| `PickleFacts.TuplesIn` | src/renpy/depickle.ts:418-422 | the tuple opcodes only create references to objects that exist |
| `PickleFacts.AppendsIn` | src/renpy/depickle.ts:424-429 | APPEND and APPENDS only create references to objects that exist |
| `PickleFacts.SetItemsStepIn` | src/renpy/depickle.ts:443-455 | SETITEMS and SETITEM only create references to objects that exist |
| `PickleFacts.NewObjIn` | src/renpy/depickle.ts:513-520 | NEWOBJ only creates references to objects that exist |
| `PickleFacts.ReduceIn` | src/renpy/depickle.ts:605-615 | REDUCE only creates references to objects that exist |
| `PickleFacts.BuildIn` | src/renpy/depickle.ts:547-557 | BUILD only creates references to objects that exist |
| `PickleFacts.MemoOpsIn` | src/renpy/depickle.ts:380-384 | the memo opcodes only create references to objects that exist |
| `PickleFacts.ExecKeepsClosed` | src/renpy/depickle.ts:338-635 | every opcode keeps every reference on the stack, in the memo and inside objects pointing at an existing object, and never frees objects |
| `PickleFacts.RunKeepsClosed` | src/renpy/depickle.ts:637-656 | a whole `readPickle` run keeps that invariant |
| `PickleFacts.InitialClosed` | src/renpy/depickle.ts:311-319 | a fresh depickler satisfies it |
| `Depickler.CountedTextRead` | src/renpy/depickle.ts:470-475 | a length-prefixed string opcode pushes the decoded `n` bytes that follow its length field and moves past them |
| `Depickler.BinInt1Read` | src/renpy/depickle.ts:529-533 | BININT1 pushes the unsigned byte after the opcode and moves past it, and fails with an underrun when no byte is left |
| `Depickler.BinInt2Read` | src/renpy/depickle.ts:457-461 | BININT2 pushes `b0 + 256*b1` of the two bytes after the opcode and moves past them, and fails with an underrun when fewer than two are left |
| `Depickler.BinIntRead` | src/renpy/depickle.ts:404-408 | BININT pushes the little-endian 32-bit word after the opcode as two's complement (the word less 2^32 when it is at least 2^31), and fails with an underrun when fewer than four bytes are left |
| `Depickler.GlobalRead` | src/renpy/depickle.ts:498-505 | GLOBAL pushes a class reference whose module and name are the texts `readUntilNewline` returns before the next two newlines, and moves one past the second |
| `Depickler.ScanFindsFirst` | src/renpy/depickle.ts:673 | the newline scan stops at the first newline at or after the start |
| `Depickler.Long1Read` | src/renpy/depickle.ts:477-482 | LONG1 pushes the value `readCustomNumber(n, true)` computes from the `n` bytes after its length byte (unsigned for 1-3 bytes, int32 for 4; see Findings) and moves past them |
| `Depickler.Stack.constructor` | src/renpy/depickle.ts:243-250 | a new stack is empty |
| `Depickler.Stack.Append` | src/renpy/depickle.ts:252 | `append` pushes the value on top |
| `Depickler.Stack.Pop` | src/renpy/depickle.ts:256 | `pop` returns the top and removes it; an empty stack yields `undefined` |
| `Depickler.Stack.SetLast` | src/renpy/depickle.ts:264 | the `last` setter replaces the top and keeps everything below; on an empty stack nothing changes |
| `Depickler.Stack.PopMark` | src/renpy/depickle.ts:268-283 | `popMark` returns the items above the topmost MARK in push order and removes them together with the MARK |
| `Depickler.Memo.constructor` | src/renpy/depickle.ts:287-289 | a new memo is empty |
| `Depickler.Memo.Get` | src/renpy/depickle.ts:291 | `get` returns the stored object, and anything but `undefined` comes from a set slot |
| `Depickler.Memo.Set` | src/renpy/depickle.ts:295-297 | `set` stores at the index and leaves every other slot; the length covers the index only when it is below 2^32 - 1 |
| `Depickler.Memo.Append` | src/renpy/depickle.ts:299-301 | `append` stores at the current length, which grows by one; at 2^32 - 1 elements the store happens and the call fails with a RangeError, the length unchanged |
| `Depickler.Depickler.constructor` | src/renpy/depickle.ts:311-319 | a new depickler reads the given buffer from its start with empty stack, memo and heap |
| `Depickler.Depickler.ReadUntilNewline` | src/renpy/depickle.ts:671-677 | returns the bytes before the next newline and leaves the pointer one past it; with no newline it fails |
| `Depickler.Depickler.PushNew` | src/renpy/depickle.ts:398 | a new container is allocated and a reference to it pushed |
| `Depickler.Depickler.DoProto` | src/renpy/depickle.ts:352-364 | PROTO does what its specification says |
| `Depickler.Depickler.DoFrame` | src/renpy/depickle.ts:366-372 | FRAME does what its specification says |
| `Depickler.Depickler.DoCountedText` | src/renpy/depickle.ts:470-475 | the length-prefixed string opcodes do what their specification says |
| `Depickler.Depickler.DoShortBinBytes` | src/renpy/depickle.ts:410-416 | SHORT_BINBYTES does what its specification says |
| `Depickler.Depickler.DoInt` | src/renpy/depickle.ts:529 | the BININT family does what its specification says |
| `Depickler.Depickler.DoLong1` | src/renpy/depickle.ts:477-482 | LONG1 does what its specification says |
| `Depickler.Depickler.DoGlobal` | src/renpy/depickle.ts:498-505 | GLOBAL does what its specification says |
| `Depickler.Depickler.DoTuple1` | src/renpy/depickle.ts:579-583 | TUPLE1 does what its specification says |
| `Depickler.Depickler.DoTuple2` | src/renpy/depickle.ts:541-545 | TUPLE2 does what its specification says |
| `Depickler.Depickler.DoTuple3` | src/renpy/depickle.ts:418-422 | TUPLE3 does what its specification says |
| `Depickler.Depickler.DoTuple` | src/renpy/depickle.ts:535-539 | TUPLE does what its specification says |
| `Depickler.Depickler.DoAppend` | src/renpy/depickle.ts:424-429 | APPEND does what its specification says |
| `Depickler.Depickler.DoAppends` | src/renpy/depickle.ts:571-577 | APPENDS does what its specification says |
| `Depickler.Depickler.DoGet` | src/renpy/depickle.ts:585-595 | BINGET/LONG_BINGET do what their specification says |
| `Depickler.Depickler.DoPut` | src/renpy/depickle.ts:491-496 | BINPUT/LONG_BINPUT read the index and store the top there as `Pickle.MemoSet` says, so LONG_BINPUT 0xFFFFFFFF leaves the memo length unchanged |
| `Depickler.Depickler.DoMemoize` | src/renpy/depickle.ts:380-384 | MEMOIZE pushes the top as `Pickle.MemoAppend` says, failing with a RangeError at the array-length limit |
| `Depickler.Depickler.AssignItems` | src/renpy/depickle.ts:447-454 | the pair loop of SETITEMS assigns exactly as the specification function does |
| `Depickler.Depickler.DoSetItems` | src/renpy/depickle.ts:443-455 | SETITEMS does what its specification says |
| `Depickler.Depickler.DoSetItem` | src/renpy/depickle.ts:597-603 | SETITEM does what its specification says |
| `Depickler.Depickler.MakeInstance` | src/renpy/depickle.ts:233-235 | `make` allocates the instance its specification describes |
| `Depickler.Depickler.DoNewObj` | src/renpy/depickle.ts:513-520 | NEWOBJ does what its specification says |
| `Depickler.Depickler.DoReduce` | src/renpy/depickle.ts:605-615 | REDUCE does what its specification says |
| `Depickler.Depickler.DoBuild` | src/renpy/depickle.ts:547-557 | BUILD does what its specification says |
| `Depickler.Depickler.Execute` | src/renpy/depickle.ts:346-626 | the opcode switch does what the specification of the decoded opcode says |
| `Depickler.Depickler.ExecuteText` | src/renpy/depickle.ts:392-489 | the string cases of the switch |
| `Depickler.Depickler.ExecuteNumber` | src/renpy/depickle.ts:457 | the integer cases of the switch |
| `Depickler.Depickler.ExecuteConstant` | src/renpy/depickle.ts:522-569 | the constant-pushing cases of the switch |
| `Depickler.Depickler.ExecuteShape` | src/renpy/depickle.ts:386-422 | the MARK and tuple cases of the switch |
| `Depickler.Depickler.ExecuteOnObjects` | src/renpy/depickle.ts:424-615 | the container and object cases of the switch |
| `Depickler.Depickler.ReadOperation` | src/renpy/depickle.ts:338-635 | `readOperation` performs one step of the machine and returns the opcode byte, or fails as the step does |
| `Depickler.Depickler.ReadPickle` | src/renpy/depickle.ts:637-656 | `readPickle` runs operations until STOP and returns the stack, or fails as the run does |
| `Depickler.Depickle` | src/renpy/depickle.ts:658-664 | `depickle` returns the final stack of a run from the initial state together with the heap its references point into, and no reference in either dangles |
| `Directory.Slashes` | src/common/Directory.ts:10 | every backslash becomes `/`, every other character stays, and no backslash remains |
| `Directory.Normalize` | src/common/Directory.ts:10-12 | a normalised argument holds no backslash |
| `Directory.ResolvePath` | src/common/Directory.ts:5-31 | the resolved path holds no backslash |
| `Directory.NormalizeFacts` | src/common/Directory.ts:11-12 | an already normalised path is unchanged, and one leading and one trailing `/` around it are removed |
| `Directory.NormalizeStripsOnce` | src/common/Directory.ts:11-12 | only one slash is removed at each end (`//a//` becomes `/a/`), and backslashes become slashes |
| `Directory.ResolveOne` | src/common/Directory.ts:5-31 | resolving one argument normalises it |
| `Directory.ResolveUnder` | src/common/Directory.ts:22-26 | a non-empty base and a path are joined with exactly one `/` |
| `Directory.ResolveAfterEmpty` | src/common/Directory.ts:22-26 | resolving a normalised path under the empty base gives the path itself |
| `Directory.GetFile` | src/common/Directory.ts:103-131 | a path that finds a file never finds a folder as well |
| `Directory.FindPut` | src/common/Directory.ts:200-209 | assigning a folder key makes it hold the new node, leaves every other key, and adds the name at the end only when it was new |
| `Directory.GetDirectory` | src/common/Directory.ts:133-161 | `getDirectory` only ever returns a folder |
| `Directory.Listing` | src/common/Directory.ts:163-183 | `listEntries` yields one name per child |
| `Directory.ListingAt` | src/common/Directory.ts:163-183 | each listed name is the child's name, with `/` appended exactly when it is a folder |
| `Directory.ListEntries` | src/common/Directory.ts:71-77 | a folder lists one name per child; a sub-directory fails, with `DirectoryNotFound`, exactly when its folder cannot be found |
| `Directory.FileOrFolder` | src/common/Directory.ts:114-129 | no path names both a file and a folder |
| `Directory.FileAtAppend` | src/common/Directory.ts:114-159 | a file lookup through a path is a folder lookup of its head followed by a file lookup of the rest inside that folder, and is absent when the head is missing or a file |
| `Directory.OuterSlashesIgnored` | src/common/Directory.ts:103-161 | lookups normalise first, so `getFile("/a/b/")` equals `getFile("a/b")`, and likewise for `getDirectory` |
| `Directory.SubDirectoryAgrees` | src/common/Directory.ts:63-69 | a `SubDirectory` under a base answers a file lookup exactly as a lookup of that base in the parent followed by a lookup of the path inside it |
| `Directory.ListingAgrees` | src/common/Directory.ts:163-183 | a listed name with `/` is retrievable with `getDirectory`, one without it with `getFile` |
| `Directory.FromFileList` | src/common/Directory.ts:187-214 | the loop over the path map builds exactly the tree of its specification, or fails with the same error |
| `Directory.BuildTree` | src/common/Directory.ts:187-214 | after building, the file inserted last is found at its path, and the only failure is a file/folder conflict |
| `Directory.Insert` | src/common/Directory.ts:195-210 | after a successful insertion the file is found at its path; the only failure is a file where a folder is needed |
| `Directory.BuildTreeFailsOnce` | src/common/Directory.ts:203-205 | once a path fails, the whole `fromFileList` fails with that error |
| `Directory.InsertOk` | src/common/Directory.ts:200-209 | inserting a path fails exactly when a proper prefix of it already names a file, and then as a file/folder conflict |
| `Directory.InsertFiles` | src/common/Directory.ts:200-209 | after inserting, the path holds the new file (replacing whatever was there, a folder included), paths below it hold nothing, and every other path is unchanged |
| `Directory.Components` | src/common/Directory.ts:194-195 | one component list per input path |
| `Directory.InsertNext` | src/common/Directory.ts:195-210 | adding one more path that is distinct and not a folder prefix of another keeps every earlier path retrievable and adds the new one |
| `Directory.BuildRetrievable` | src/common/Directory.ts:187-214 | if paths are distinct and none is a folder prefix of another, the build succeeds, every path holds its file, and no other path holds a file |
| `Directory.FromFileListRetrievable` | src/common/Directory.ts:103-131 | under that condition, `getFile` of every input path on the built directory returns that path's file |
| `Archive.TrimStart` | src/renpy/archive.ts:187-195 | `parseInt` skips leading whitespace: the result is a suffix of the input that does not start with whitespace |
| `Archive.HexRun` | src/renpy/archive.ts:187-195 | `parseInt(_, 16)` reads the longest run of hex digits and stops at the first other character |
| `Archive.HexRunOfDigits` | src/renpy/archive.ts:187-195 | the run over digits followed by a non-digit is exactly the digits |
| `Archive.ParseIntHexDigits` | src/renpy/archive.ts:187-195 | `parseInt` of hex digits followed by anything else (the trailing newline) is their value |
| `Archive.ParseIntHexRejects` | src/renpy/archive.ts:187-195 | a field that starts with no sign, space or hex digit is not a number, so the header fails |
| `Archive.ParseIntHex` | src/renpy/archive.ts:187-195 | `parseInt(_, 16)` gives a number only when the field, after leading white space, starts with a hexadecimal digit or a sign |
| `Archive.ParseHeader` | src/renpy/archive.ts:167-199 | a header is accepted only if it starts with `RPA-3.0 ` and ends with a newline; every failure is one of the header errors |
| `Archive.HeaderAt` | src/renpy/archive.ts:167-199 | an accepted header window is at least 9 bytes long, starts with `RPA-3.0 ` and ends with a newline byte |
| `Archive.HexField` | src/renpy/archive.ts:14-17 | a value written as `2*bytes` upper-case hex digits is exactly that long, has no space, and parses back |
| `Archive.HeaderRoundTrip` | src/renpy/archive.ts:167-199 | a header written as `RPA-3.0 <16 hex digits> <8 hex digits>\n` is 34 characters long and parses back to its index offset and key |
| `Archive.HeaderFields` | src/renpy/archive.ts:177-181 | splitting such a header on spaces gives exactly the three fields, the last with its newline |
| `Archive.HeaderAtRoundTrip` | src/renpy/archive.ts:167-199 | reading 34 bytes holding such a header yields its index offset and key |
| `Archive.ToUint32` | src/renpy/archive.ts:217-224 | the operands of `^` are taken as 32-bit patterns |
| `Archive.XorBits` | src/renpy/archive.ts:217-224 | the xor of two n-bit patterns is an n-bit pattern |
| `Archive.Xor32` | src/renpy/archive.ts:217-224 | JavaScript `^` yields a signed 32-bit value |
| `Archive.Uint32OfInt32` | src/renpy/archive.ts:217-224 | reinterpreting a 32-bit pattern as signed and back is the identity |
| `Archive.XorBitsTwice` | src/renpy/archive.ts:217-224 | xoring twice with the same pattern gives back the original |
| `Archive.XorInvolution` | src/renpy/archive.ts:217-224 | a section offset or length in the signed 32-bit range that was xored with the key is recovered by xoring again with it |
| `Archive.Element` | src/renpy/archive.ts:220-221 | `entry[i]`: a list gives its i-th item or `undefined` past its end, a dict its key `"i"`, a string its i-th character, a byte array its i-th byte, an instance or other primitive `undefined`; only `null` and `undefined` fail, with a TypeError |
| `Archive.Int32Operand` | src/renpy/archive.ts:220-221 | an operand of `^` is accepted exactly when it is a number, a boolean, `null` or `undefined`; a number is itself, `null` and `undefined` are 0, anything else is not modelled |
| `Archive.SectionOf` | src/renpy/archive.ts:217-224 | a decoded section re-masked with the key gives back the stored offset and length as 32-bit integers; a failure is `NotModelled` or `TypeError` |
| `Archive.ObjectEntries` | src/renpy/archive.ts:211 | `Object.entries` of a dict is its entries in order, of an array its index/item pairs, and of `null` or `undefined` a `TypeError` |
| `Archive.ContentAppend` | src/renpy/archive.ts:74-80 | the content of two runs of sections is the content of the first followed by the second |
| `Archive.ContentSection` | src/renpy/archive.ts:74-80 | the i-th section's bytes appear in the file content, in index order, right after the bytes of the sections before it |
| `Archive.Content` | src/renpy/archive.ts:74-80 | when every section lies inside the archive, the content is as long as the section lengths together |
| `Archive.ArchiveBlob.Size` | src/renpy/archive.ts:84-86 | `size` is the length of the content when every section lies inside the archive |
| `Archive.SectionsOf` | src/renpy/archive.ts:215-224 | one decoded section per index triple, in list order |
| `Archive.SectionsOfFailsOnce` | src/renpy/archive.ts:215-224 | a malformed triple fails the whole section list |
| `Archive.SectionRoundTrip` | src/renpy/archive.ts:217-224 | a triple whose first two elements are the xored offset and length decodes to that offset and length; the third element is ignored |
| `Archive.FileOf` | src/renpy/archive.ts:211-230 | each index key becomes the file's path |
| `Archive.FilesOf` | src/renpy/archive.ts:211-230 | exactly one file per index key, in index order, each built from that key's sections |
| `Archive.FilesOfFailsOnce` | src/renpy/archive.ts:211-230 | a malformed entry fails the whole index |
| `Archive.ArchiveFileRetrievable` | src/renpy/archive.ts:201-234 | when the indexed paths are distinct and none is a folder prefix of another, the archive's directory returns each indexed file at its path |
| `Archive.ReadArchiveAt` | src/renpy/archive.ts:201-234 | `readArchive` succeeds only past a valid header and then gives a folder tree; a header failure is the archive's failure |
| `Archive.ArchiveReader.constructor` | src/renpy/archive.ts:126-145 | a new reader starts at offset 0 with key -1 |
| `Archive.ArchiveReader.BlobEof` | src/renpy/archive.ts:133-135 | `blobEof` is true exactly when no bytes of the archive are left after the blob pointer |
| `Archive.ArchiveReader.BlobDataLeft` | src/renpy/archive.ts:136-138 | `blobDataLeft` is the number of archive bytes from the blob pointer to the end |
| `Archive.ArchiveReader.GetSlice` | src/renpy/archive.ts:147-154 | `getSlice(n, at)` returns `archive[at, at+n)` and leaves the blob pointer at `at+n` |
| `Archive.ArchiveReader.Load` | src/renpy/archive.ts:156-160 | `load` replaces the cursor by a fresh one over that slice |
| `Archive.ArchiveReader.ReadHeader` | src/renpy/archive.ts:167-199 | `readHeader` consumes exactly 34 bytes, returns the index offset and stores the key, or fails and keeps the key |
| `Archive.ArchiveReader.DecodeSections` | src/renpy/archive.ts:215-224 | the section loop agrees with its specification |
| `Archive.ArchiveReader.IndexFiles` | src/renpy/archive.ts:211-230 | the file loop agrees with its specification |
| `Archive.ArchiveReader.ReadArchive` | src/renpy/archive.ts:201-234 | `readArchive` reads the header, the index up to the end of the archive, and builds the directory as its specification says |
| `Archive.ArchiveReader.ReadIndex` | src/renpy/archive.ts:205-210 | the index runs from the index offset to the end of the archive and is inflated, then depickled |
| `Archive.ArchiveReader.FilesOfDecompressed` | src/renpy/archive.ts:209-232 | the depickled index is turned into files as its specification says |
| `Load.IsRpc2Bytes` | src/renpy/script/load.ts:42 | the script signature is exactly the 10 ASCII bytes `RENPY RPC2` at the start of the file |
| `Load.EntryAt` | src/renpy/script/load.ts:125-128 | a slot-table row can be read exactly when 12 bytes remain; otherwise the read fails with a buffer underrun |
| `Load.SlotTableLayout` | src/renpy/script/load.ts:123-133 | the slot table is consecutive 12-byte little-endian triples from the start position, none with slot 0, followed by a triple with slot 0 that is not kept |
| `Load.LeBytesDecode` | src/renpy/script/load.ts:125-128 | a value written as n little-endian bytes reads back as itself |
| `Load.EntryOf` | src/renpy/script/load.ts:125-128 | a row written as three little-endian uint32s reads back as that slot, offset and length |
| `Load.SlotTableRoundTrip` | src/renpy/script/load.ts:123-133 | a table of rows with non-zero slots followed by the terminating row reads back as exactly those rows, in order |
| `Load.InflateChunks` | src/renpy/script/load.ts:137-148 | one data chunk per table row |
| `Load.InflateChunksShape` | src/renpy/script/load.ts:137-148 | each chunk keeps its row's slot, offset and length and holds the inflated bytes `[offset, offset+length)`; the map fails exactly when some payload does not inflate |
| `Load.LegacyScript` | src/renpy/script/load.ts:100-113 | a file without the signature yields exactly one chunk: slot -1, offset 0, the whole length and the inflated whole file |
| `Load.Rpc2Script` | src/renpy/script/load.ts:93-154 | a file with the signature yields one chunk per slot-table row, keeping the row's fields and holding its inflated payload |
| `Load.SignatureThen` | src/renpy/script/load.ts:98 | a file that starts with the signature is taken as an RPC2 file whatever follows |
| `Load.WrittenScript` | src/renpy/script/load.ts:93-154 | a file written as signature, slot table and payload loads as the chunks of exactly that table |
| `Load.SlotTableStep` | src/renpy/script/load.ts:123-133 | one loop step that reads a non-terminating row adds it at the end of the collected rows |
| `Load.InflateStep` | src/renpy/script/load.ts:137-148 | one step of the inflate map adds the inflated chunk, or fails with the inflater's error |
| `Load.ReadRow` | src/renpy/script/load.ts:125-127 | the three `readNumber('Uint32')` calls give exactly the row at the pointer, fail as it does, and move the pointer 12 bytes on success |
| `Load.ReadSlotTable` | src/renpy/script/load.ts:123-133 | the `while(true)` loop returns exactly the slot table of its specification |
| `Load.SlotTableAt` | src/renpy/script/load.ts:123-133 | the rows read, with their terminator, lie inside the file, none of them has slot 0, and the only failure is a buffer underrun |
| `Load.ScriptData` | src/renpy/script/load.ts:93-154 | a file without the signature is one chunk in slot -1 as long as the file; an RPC2 file gives no chunk in slot 0 |
| `Load.LoadScript` | src/renpy/script/load.ts:156-164 | `loadScript` returns exactly the chunks `loadScriptData` specifies; the checksum never rejects a file |
| `Load.InflateAll` | src/renpy/script/load.ts:137-148 | the per-chunk loop returns exactly the chunks of its specification |
| `ScriptText.Spaces` | src/renpy/script/decompile.ts:60-62 | the indentation unit is exactly n spaces |
| `ScriptText.PrefixEach` | src/renpy/script/decompile.ts:60-62 | every line gets the prefix and the line count is kept |
| `ScriptText.Lines` | src/renpy/script/decompile.ts:181-188 | each part followed by a newline: the result is empty or ends in `\n` |
| `ScriptText.SpacesFreeOfNewline` | src/renpy/script/decompile.ts:60-62 | indenting a line never introduces a newline |
| `ScriptText.Indent` | src/renpy/script/decompile.ts:60-62 | `indent(s, n)` prefixes every line, including the empty line after a trailing `\n`, with 4*n spaces, and keeps the line count |
| `ScriptText.IndentZero` | src/renpy/script/decompile.ts:60-62 | `indent(s, 0)` is `s` |
| `ScriptText.IndentTwice` | src/renpy/script/decompile.ts:60-62 | `indent(indent(s, a), b)` is `indent(s, a + b)` |
| `ScriptText.IndexOf` | src/renpy/script/decompile_renpy.ts:447-451 | `indexOf(c, from)` returns the first position at or after `from` holding `c`, or -1 when there is none |
| `ScriptText.NewlinesFromContent` | src/renpy/script/decompile_renpy.ts:447-451 | the newline scan of the Python rule lists its start position and exactly the later newline positions |
| `ScriptText.OneLineExactly` | src/renpy/script/decompile_renpy.ts:447-455 | the code counts as one line exactly when no `\n` sits strictly between its first and its last character |
| `ScriptText.PythonBlock` | src/renpy/script/decompile_renpy.ts:441-456 | the block ends with `\n` and starts with `$` exactly when the code is one line |
| `ScriptText.RunEnd` | src/renpy/script/decompile.ts:231 | `\s+` extends over the maximal run of whitespace |
| `ScriptText.Backtrack` | src/renpy/script/decompile.ts:231 | the regex backtracks to the longest prefix of that run followed by `\n` or the end |
| `ScriptText.KeptWhitespaceHead` | src/renpy/script/decompile.ts:231 | a whitespace character that starts no match is followed by a non-newline character that the output keeps |
| `ScriptText.MatchAt` | src/renpy/script/decompile.ts:231 | from a position, `\s+(?=(\n|$))` matches the longest run of white space that ends at a `\n` or the end, and no match means no such run |
| `ScriptText.CleanFrom` | src/renpy/script/decompile.ts:231 | the replacement from a position on is no longer than the rest of the text and keeps its non-whitespace characters, in order |
| `ScriptText.CleanFromTidy` | src/renpy/script/decompile.ts:227-241 | what the replacement produces from any position on is clean |
| `ScriptText.CleanScript` | src/renpy/script/decompile.ts:227-241 | after `cleanScript` no whitespace sits right before a `\n` and the text does not end in whitespace, and every non-whitespace character is kept, in order |
| `ScriptText.TidyFixpoint` | src/renpy/script/decompile.ts:231 | the replacement leaves clean text unchanged |
| `ScriptText.CleanScriptIdempotent` | src/renpy/script/decompile.ts:227-241 | cleaning twice is cleaning once |
| `ScriptText.VisibleSplit` | src/renpy/script/decompile.ts:231 | the non-whitespace characters of a text are those of its two halves |
| `Decompile.RenderEach` | src/renpy/script/decompile.ts:181-188 | one rendering per node |
| `Decompile.RenderKeywords` | src/renpy/script/decompile_renpy_sl2.ts:143-146 | one rendering per keyword |
| `Decompile.RenderParams` | src/renpy/script/decompile_renpy.ts:489-495 | one rendering per parameter |
| `Decompile.SuffixEach` | src/renpy/script/decompile_renpy_sl2.ts:127-131 | one `\n`-terminated keyword line per keyword of `SLScreen` |
| `Decompile.IndentEach` | src/renpy/script/decompile_renpy.ts:620-626 | one doubly indented rendering per class of a `Menu` item block |
| `Decompile.Render` | src/renpy/script/decompile.ts:73-105 | a class renders only when its module and name are known; an unknown module fails naming it |
| `Decompile.RenderRenPy` | src/renpy/script/decompile_renpy.ts:360-679 | only `renpy.ast` classes are accepted, any other module fails; an unknown `renpy.ast` class fails naming it |
| `Decompile.RenderSl2` | src/renpy/script/decompile_renpy_sl2.ts:117-383 | only `renpy.sl2.slast` classes are accepted, any other module fails; an unknown class fails naming it |
| `Decompile.RenderAtl` | src/renpy/script/decompile_renpy_atl.ts:55-124 | only `renpy.atl` classes are accepted, any other module fails; an unknown class fails naming it |
| `Decompile.Qualified` | src/renpy/script/decompile_renpy.ts:381-387 | the name always ends with the variable, and is the bare variable exactly when the store's last part is empty or `store` |
| `Decompile.PyExprText` | src/renpy/script/decompile_renpy.ts:418-423 | `args[3] ?? args[0]`: with arguments the text is `args[3]` when present and not null, else `args[0]`; without arguments it is `undefined` |
| `Decompile.RenderPyCode` | src/renpy/script/decompile_renpy.ts:391-414 | without a string to set the mode, or with only numbers and arrays after it, `PyCode` fails |
| `Decompile.RenderIfEntries` | src/renpy/script/decompile_renpy.ts:581-598 | the branches are empty exactly when there are no entries; otherwise they open with `if ` (first) or `el` (later) and end with `\n` |
| `Decompile.RenderMenuItems` | src/renpy/script/decompile_renpy.ts:607-628 | the items' text is empty exactly when there are no items, and otherwise ends with `\n` |
| `Decompile.KeywordsText` | src/renpy/script/decompile_renpy_sl2.ts:143-146 | no keywords give the empty text; otherwise the text opens with the padding, and one keyword is just the padding and that keyword |
| `Decompile.DisplayableText` | src/renpy/script/decompile_renpy_sl2.ts:139-280 | a displayable whose parts all render gives non-empty text; a failure is the failure of one of its parts |
| `Decompile.RenderSlIfEntries` | src/renpy/script/decompile_renpy_sl2.ts:305-322 | the branches are empty exactly when there are no entries; otherwise they open with `if ` (first) or `el` (later) and end with `\n` |
| `Decompile.RenderSlIfEntry` | src/renpy/script/decompile_renpy_sl2.ts:305-322 | one branch opens with `if ` (first) or `el` (later) and ends with `\n` |
| `Decompile.SlIfHead` | src/renpy/script/decompile_renpy_sl2.ts:305-322 | the header line of a branch opens with `if ` for the first entry and with `el` for the later ones |
| `DecompileScript.DispatchOnModule` | src/renpy/script/decompile.ts:73-105 | `parseClassInner` sends `renpy.ast`, `renpy.sl2.slast` and `renpy.atl` nodes to their family and fails on any other module |
| `DecompileScript.LastAtMost` | src/renpy/script/decompile.ts:115-118 | the kept tail of the trail is at most its capacity |
| `DecompileScript.PushedKeepsRecent` | src/renpy/script/decompile.ts:115-118 | one push keeps the 100 most recent classes, the pushed one last |
| `DecompileScript.LastAtMostAppend` | src/renpy/script/decompile.ts:115-118 | trimming before appending more and trimming again is trimming once |
| `DecompileScript.TrailHoldsRecent` | src/renpy/script/decompile.ts:66-69 | after any pushes the trail holds exactly the 100 most recent classes, so it never exceeds 100 entries |
| `DecompileScript.Trail.constructor` | src/renpy/script/decompile.ts:69 | the trail starts empty |
| `DecompileScript.Trail.Push` | src/renpy/script/decompile.ts:115-118 | a push appends the class and drops the oldest entry once there are more than 100 |
| `DecompileScript.FirstSlot` | src/renpy/script/decompile.ts:149-153 | the search returns the first chunk with the slot, or reports that there is none |
| `DecompileScript.NeedsScriptChunk` | src/renpy/script/decompile.ts:149-153 | without a chunk in slot 1 (BeforeStaticTransforms) decompiling fails |
| `DecompileScript.ReadsFirstScriptChunk` | src/renpy/script/decompile.ts:149-157 | only the first chunk in slot 1 is read; everything else is ignored |
| `DecompileScript.RefusesOtherVersions` | src/renpy/script/decompile.ts:161-163 | a header version other than 5003000 fails, naming the version found |
| `DecompileScript.Decompiled` | src/renpy/script/decompile.ts:147-198 | without a chunk in slot 1 the result is `MissingScriptChunk`; a successful result opens with the banner and the date |
| `DecompileScript.Written` | src/renpy/script/decompile.ts:161-196 | output is produced only for header version 5003000, and it opens with the header block |
| `DecompileScript.HeaderText` | src/renpy/script/decompile.ts:166-176 | the header block opens with the banner and the date and closes with the trailer, whatever the header holds |
| `DecompileScript.CodeIsEachClass` | src/renpy/script/decompile.ts:166-196 | without cleaning the output is the header followed by each top-level class's rendering and a `\n`, in list order, and it fails exactly when some class fails |
| `DecompileScript.CleanedOutput` | src/renpy/script/decompile.ts:190-192 | cleaning fails exactly when the uncleaned output does; it changes only the code part, which then is clean, idempotent under cleaning and keeps every non-whitespace character |
| `DecompileScript.RenderEachAppend` | src/renpy/script/decompile.ts:181-188 | rendering two runs of classes is rendering each, failing with the first error |
| `DecompileScript.LinesSnoc` | src/renpy/script/decompile.ts:181-188 | one more class adds its rendering and a `\n` at the end |
| `DecompileScript.CodeOf` | src/renpy/script/decompile.ts:181-188 | the code is produced exactly when every class renders, and no classes give no code |
| `DecompileScript.RenderEachSnoc` | src/renpy/script/decompile.ts:181-188 | one more class that renders appends its text to the rendered parts |
| `DecompileScript.RenderEachFails` | src/renpy/script/decompile.ts:181-188 | the first class that fails to render makes the whole list fail with its error |
| `DecompileScript.WriteHeader` | src/renpy/script/decompile.ts:166-176 | the header loop writes the header text of its specification |
| `DecompileScript.WriteCode` | src/renpy/script/decompile.ts:181-188 | the code loop writes each class's rendering and a `\n`, or fails with the first error, and keeps the trail within 100 entries |
| `DecompileScript.DecompileScript` | src/renpy/script/decompile.ts:147-198 | `decompileScript` returns exactly what its specification says and keeps the trail within 100 entries |
| `DecompileScript.WriteScript` | src/renpy/script/decompile.ts:161-196 | the version check, header, code and clean steps produce what their specification says |
| `DecompileScript.PushedAllSnoc` | src/renpy/script/decompile.ts:115-118 | pushing a run of classes and then one more is pushing the longer run |
| `DecompileScript.TrailBound` | src/renpy/script/decompile.ts:66-69 | a trail within 100 entries stays within 100 entries whatever is pushed |
| `RenPyFacts.RenPyNamesDispatch` | src/renpy/script/decompile_renpy.ts:5-31 | every `renpy.ast` class name dispatches to its own class |
| `RenPyFacts.NamesDispatch1` | src/renpy/script/decompile_renpy.ts:5-31 | the same, for Init, Define, PyCode, PyExpr, Default and Python |
| `RenPyFacts.NamesDispatch2` | src/renpy/script/decompile_renpy.ts:5-31 | the same, for Return, Label, Screen, ParameterInfo, Image and Style |
| `RenPyFacts.NamesDispatch3` | src/renpy/script/decompile_renpy.ts:5-31 | the same, for Transform, Jump, UserStatement, Say and Show |
| `RenPyFacts.NamesDispatch4` | src/renpy/script/decompile_renpy.ts:5-31 | the same, for With, If, Menu and Scene |
| `RenPyFacts.NamesDispatch5` | src/renpy/script/decompile_renpy.ts:5-31 | the same, for Hide, While, Pass and Call |
| `RenPyFacts.SayLine` | src/renpy/script/decompile_renpy.ts:548-552 | `Say` renders `"what"\n` when `who` is null and `who "what"\n` otherwise |
| `RenPyFacts.JumpLine` | src/renpy/script/decompile_renpy.ts:531-535 | `Jump` renders `jump target\n` |
| `RenPyFacts.PassLine` | src/renpy/script/decompile_renpy.ts:659-662 | `Pass` renders `pass\n` |
| `RenPyFacts.ShowLine` | src/renpy/script/decompile_renpy.ts:556-561 | `Show` renders `show` and the image-spec names joined by spaces, then `\n` |
| `RenPyFacts.SceneLine` | src/renpy/script/decompile_renpy.ts:634-639 | `Scene` renders `scene` and the names joined by spaces, then `\n` |
| `RenPyFacts.HideLine` | src/renpy/script/decompile_renpy.ts:643-647 | `Hide` renders `hide` and the names joined by spaces, then `\n` |
| `RenPyFacts.RenderEachPieces` | src/renpy/script/decompile.ts:181-188 | a list of nodes renders exactly when each node does, piece by piece, and otherwise fails with the first failing node's error |
| `RenPyFacts.LabelBlock` | src/renpy/script/decompile_renpy.ts:467-477 | `Label` renders `label name:\n` followed by its concatenated children indented by one level, every line of them prefixed with four spaces |
| `RenPyFacts.ReturnEmpty` | src/renpy/script/decompile_renpy.ts:460-463 | `Return` renders the empty string |
| `RenPyFacts.SplitLastPiece` | src/renpy/script/decompile_renpy.ts:381 | the last dotted part of `a.b` is `b` |
| `RenPyFacts.StoreNamespaceParts` | src/renpy/script/decompile_renpy.ts:381 | the namespace is the last dotted part of `store` |
| `RenPyFacts.QualifiedRule` | src/renpy/script/decompile_renpy.ts:381-387 | the variable is left bare exactly when the last dotted part of `store` is empty or `store`, and otherwise prefixed with that part and a dot |
| `RenPyFacts.DefineDefaultLines` | src/renpy/script/decompile_renpy.ts:377-437 | `Define` renders `define name op value\n` and `Default` renders `default name = value\n`, both with that qualified name |
| `RenPyFacts.PythonForms` | src/renpy/script/decompile_renpy.ts:441-456 | `Python` renders `$ code\n` with the first newline removed when no newline sits strictly inside the code, and `init python:\n` plus the indented code and `\n` otherwise |
| `RenPyFacts.PyExprSource` | src/renpy/script/decompile_renpy.ts:418-423 | `PyExpr` renders its fourth argument, falling back to the first |
| `RenPyFacts.PyCodeSkipsToMode` | src/renpy/script/decompile_renpy.ts:398-414 | items before the first string are skipped |
| `RenPyFacts.PyCodeSkipsAfterMode` | src/renpy/script/decompile_renpy.ts:398-414 | after the mode string, items that are neither string nor node are skipped |
| `RenPyFacts.PyCodeValue` | src/renpy/script/decompile_renpy.ts:391-414 | `PyCode` returns the first string or node after its first string |
| `RenPyFacts.PyCodeNoMode` | src/renpy/script/decompile_renpy.ts:412-413 | without a string the scan fails |
| `RenPyFacts.PyCodeWithoutString` | src/renpy/script/decompile_renpy.ts:391-414 | `PyCode` with no string in its state fails |
| `RenPyFacts.IfBranch` | src/renpy/script/decompile_renpy.ts:586-598 | the first entry renders `if G:`, a later entry with a null or `True` guard renders `else:` and any other `elif G:`, each followed by its indented children joined by newlines and a `\n` |
| `RenPyFacts.IfStatement` | src/renpy/script/decompile_renpy.ts:581-598 | `If` renders its entries, starting with the first |
| `RenPyFacts.ImageWithoutBody` | src/renpy/script/decompile_renpy.ts:499-509 | `Image` with neither code nor ATL fails |
| `RenPyFacts.WithNoneUnpaired` | src/renpy/script/decompile_renpy.ts:565-576 | `With` whose expression is `None` and has no `paired` fails |
| `RenPyFacts.RenPyRefusals` | src/renpy/script/decompile_renpy.ts:360-365 | an unknown `renpy.ast` class fails naming it, and another module fails as the wrong family |
| `Sl2Facts.Sl2NamesDispatch` | src/renpy/script/decompile_renpy_sl2.ts:6-16 | every `renpy.sl2.slast` class name dispatches to its own class |
| `Sl2Facts.Sl2Refusals` | src/renpy/script/decompile_renpy_sl2.ts:117-122 | another module fails as the wrong family, and an unknown class fails naming it |
| `Sl2Facts.LinesNonEmpty` | src/renpy/script/decompile_renpy_sl2.ts:335-340 | at least one line gives a non-empty text |
| `Sl2Facts.SlBlockText` | src/renpy/script/decompile_renpy_sl2.ts:326-343 | `SLBlock` is its children concatenated followed by one `k v` line per keyword, becomes `pass\n` when that is empty, and is never empty |
| `Sl2Facts.SlIfBranch` | src/renpy/script/decompile_renpy_sl2.ts:305-322 | the first entry renders `if`, a null guard `else`, and a `True` guard stays `elif True`, each with its indented body and `\n` |
| `Sl2Facts.SlIfCons` | src/renpy/script/decompile_renpy_sl2.ts:305-322 | an entry in front of others renders as its header line, its body indented once with `\n`, then the others |
| `Sl2Facts.SlIfStatement` | src/renpy/script/decompile_renpy_sl2.ts:305-322 | `SLIf` renders its entries, starting with the first |
| `Sl2Facts.SlPythonAsPython` | src/renpy/script/decompile_renpy_sl2.ts:286-300 | `SLPython` follows the same one-line or `init python:` rule as the core `Python` |
| `Sl2Facts.SlShortStatements` | src/renpy/script/decompile_renpy_sl2.ts:357-375 | `SLUse` renders `use target` and `SLDefault` renders `default v = e`, both without a newline; `SLTransclude` renders `transclude\n` |
| `Sl2Facts.DisplayableKeys` | src/renpy/script/decompile_renpy_sl2.ts:160 | every displayable's `module:name` key dispatches to that displayable |
| `Sl2Facts.DisplayableKeys1` | src/renpy/script/decompile_renpy_sl2.ts:160 | the same, for add, grid, textbutton, null and the boxes |
| `Sl2Facts.DisplayableKeys2` | src/renpy/script/decompile_renpy_sl2.ts:160 | the same, for text, imagemap, hotspot, imagebutton and window |
| `Sl2Facts.DisplayableKeys3` | src/renpy/script/decompile_renpy_sl2.ts:160 | the same, for input, viewport and vpgrid |
| `Sl2Facts.DisplayableKeys4` | src/renpy/script/decompile_renpy_sl2.ts:160 | the same, for label and key |
| `Sl2Facts.DisplayableKeys5` | src/renpy/script/decompile_renpy_sl2.ts:160 | the same, for timer and bar |
| `Sl2Facts.DisplayableKeys6` | src/renpy/script/decompile_renpy_sl2.ts:160 | the same, for button and on |
| `Sl2Facts.UnknownDisplayableFails` | src/renpy/script/decompile_renpy_sl2.ts:277-279 | a `module:name` pair not in the table fails, naming the pair |
| `Sl2Facts.NullWithoutKeywords` | src/renpy/script/decompile_renpy_sl2.ts:179-181 | `Null` with no keywords renders `null\n` |
| `AtlFacts.AtlNamesDispatch` | src/renpy/script/decompile_renpy_atl.ts:6-12 | every `renpy.atl` class name dispatches to its own class |
| `AtlFacts.AtlRoute` | src/renpy/script/decompile.ts:73-105 | a `renpy.atl` node is rendered by the ATL family |
| `AtlFacts.AtlRefusals` | src/renpy/script/decompile_renpy_atl.ts:55-60 | another module fails as the wrong family, and an unknown class fails naming it |
| `AtlFacts.RawBlockConcat` | src/renpy/script/decompile_renpy_atl.ts:65-69 | `RawBlock` is its statements' renderings concatenated with no separator |
| `AtlFacts.RawMultipurposeText` | src/renpy/script/decompile_renpy_atl.ts:73-88 | `RawMultipurpose` omits the duration line exactly when the duration is `'0'`, then writes one line per expression and one `name value` line per property, in order |
| `AtlFacts.RawMultipurposeLines` | src/renpy/script/decompile_renpy_atl.ts:73-88 | its output is empty or ends in `\n` |
| `AtlFacts.RawRepeatLine` | src/renpy/script/decompile_renpy_atl.ts:92-96 | `RawRepeat` renders `repeat\n` without a count and `repeat N\n` with one |
| `AtlFacts.RawOnBlocks` | src/renpy/script/decompile_renpy_atl.ts:100-108 | `RawOn` writes one `on key:\n`, indented handler and `\n` block per handler, in entry order |
| `AtlFacts.RawOnEmpty` | src/renpy/script/decompile_renpy_atl.ts:100-108 | `RawOn` with no handlers renders nothing |
| `AtlFacts.RawParallelBlock` | src/renpy/script/decompile_renpy_atl.ts:112-116 | `RawParallel` renders `parallel:\n` and its blocks joined by newlines, indented, with no trailing newline |

## Left out

- `Text.Latin1`: `TextDecoder` UTF-8 decoding (src/common/DataReader.ts:236, 256) is modelled as one character per byte. This agrees with UTF-8 on ASCII, which is all the headers and signatures use.
- The same one-character-per-byte decoding stands in for the pickle strings, which the source decodes as UTF-8 (src/renpy/depickle.ts:394, 473, 487). They carry script text such as dialogue, which is not ASCII in general. Wherever such a string holds a multi-byte sequence, the model's decompiled text therefore holds one character per byte where the source holds one per code point.
- `readUntilNewline` decodes with `TextDecoder('ascii')` (src/renpy/depickle.ts:676), which the WHATWG Encoding standard maps to windows-1252. The model's one-character-per-byte reading is Latin-1, so it differs from the source on the bytes 0x80-0x9F.
- Float32/Float64 reads, `readBufferFast` (a view instead of a copy, with the same bytes), `readArrayTuple`, `DataReader.to`, `loadData` on an existing cursor and the commented-out `pad` are not modelled. `readBigNumber` is `Reader.ReadNumber` with a 64-bit kind.
- `DataReader.Reader.ReadArrayWhile` and `DataReader.Reader.ReadArrayUntilEnd`: reader functions are named by a `ReadOp` value rather than passed as closures. The predicate of `readArrayWhile` is a pure function of the item, its index and the items so far.
- `DataReader.Reader.ReadArrayWhile`, `DataReader.ReadWhileAt` and `DataReader.ReadWhileStopsOnFalse` model only readers that fail at the end of the buffer, which are the `Number` and `NullString` reads (`requires StopsAtEnd(op)`). The source accepts any reader. `readBuffer`, `readString`, `readCustomNumber` and `readBigCustomNumber` keep succeeding past the end with empty or short slices, so the source's loop can then run forever when the predicate stays true. That loop has no termination measure, so it is not modelled; it would need a fuel bound. With such a reader the source stops as soon as the predicate fails, and the model does not cover that case. No core caller uses `readArrayWhile` with these readers.
- `DataReader.Reader.ReadArrayUntilEnd` and `DataReader.ReadUntilEndAt` require `Advances(op)`, which rules out zero-width readers. From a pointer inside the buffer, the source spins forever on such a reader. From a pointer already at the end, though, the source's `do … while(!eof)` reads once and returns that one item. That case is excluded too.
- Debug timing and console output of `readPickle` are left out.
- REDUCE's branch that calls a plain JavaScript function (src/renpy/depickle.ts:612) has no model. `findClass` only ever yields class references, so no pickle reaches it with a function. Any callee other than a class reference fails with `TypeError`.
- `Pickle.SetItems`: SETITEMS and SETITEM on a target that is not a dict fail with `NotModelled`, where the source assigns a JavaScript property and carries on. This covers a list or tuple (a key such as `"0"` would overwrite an element), an instance (the key `"state"` would replace its state), a `GLOBAL` class reference and a byte array. Only dict targets, the shape pickled Ren'Py data uses, are modelled.
- `Pickle.Build`: BUILD sets `inst.state = state` whatever the target is (src/renpy/depickle.ts:549-553). On a list, a `GLOBAL` class reference (a `DummyModule` object, src/renpy/depickle.ts:332-334, 503) or a byte array, that is a JavaScript property assignment after which the source carries on; the model fails with `NotModelled` on all three. On a dict BUILD assigns the key `state`, and on an instance it sets the instance's state.
- `Depickler.Depickler.ReadOperation`: when an operation throws after it has already popped or moved the pointer, only the error is promised. The partial changes are not.
- Dict keys are the `String()` of primitive keys. Symbol and object keys fail with `NotModelled`. JavaScript's ordering of integer-like keys before other keys is not modelled; keys keep insertion order.
- Directory listings keep insertion order, and `in` never hits a prototype property (src/common/Directory.ts:167, 201). `..` segments are not resolved, as in the source.
- `Directory.GetFile` treats a folder as a map with no prototype. The source's folders are plain `{}` objects (src/common/Directory.ts:91), so `folder.folder[name]` (src/common/Directory.ts:119, 126) also finds inherited members. `getFile("toString")`, `"constructor"`, `"hasOwnProperty"` or `"__proto__"` then returns that function or `Object.prototype`, because it is neither `undefined` nor a `Directory`. The model returns `None` for these names. `getDirectory` is unaffected, because an inherited member is never a `Directory`.
- `Pickle.Assign`: SETITEMS and SETITEM write `dict[k] = v` into a plain `{}` object (src/renpy/depickle.ts:376, 447-454, 601). With the key `"__proto__"` this sets the object's prototype, or is ignored when the value is a primitive, and adds no own key. `Object.entries` (src/renpy/archive.ts:211) therefore never lists it. The model appends a `"__proto__"` entry like any other key, which `Pickle.Lookup` and `Archive.ObjectEntries` then report. Reads of other inherited names through `Pickle.Lookup` are not modelled either.
- Blob, Promise and stream machinery in `src/renpy/archive.ts` (`load`, `arrayBuffer`, `stream`, `text`, the `blob.slice()` of `ArchiveDirectory.getFile`) is replaced by an in-memory byte sequence. A file's content is its bytes.
- `Archive.ArchiveReader.ReadHeader`: on an invalid key the source has already stored `NaN` in `key` before it throws. The model keeps the old key, because `NaN` is not an integer.
- `Archive.Int32Operand`: an operand of `^` that is a string, a byte array, a list, a dict, an instance or a class reference fails with `NotModelled`. JavaScript converts it with `ToNumber` and carries on (src/renpy/archive.ts:220-221): `"12" ^ key` is `12 ^ key`, and an object or a non-numeric string becomes `NaN`, that is 0, so the result is `key`. Index triples written by Ren'Py hold integers.
- `Archive.ParseHeader`: `parseInt` results above 2^53 lose precision in JavaScript; the model parses exactly.
- `Pako.inflate` is the parameter `inflate` of `Load.LoadScript` and `Archive.ArchiveReader.ReadArchive`. Its decompression is not modelled.
- `checkScriptMD5` returns `true` before computing anything (src/renpy/script/load.ts:68). The dead `md5` code after it is left out, so `loadScript` never rejects a file on its checksum.
- `DecompileScript.DecompileScript`: the `new Date()` line of the header is the parameter `now`. The cast of the depickled value to a compiled script (src/renpy/script/decompile.ts:157) is the parameter `view`, which maps the machine's final state to a typed script or fails. Console dumps and the `DEBUG` switch are left out.
- `DecompileScript.WriteCode`: only the top-level classes are pushed on the debug trail. The source also pushes every nested class that the renderers reach through `parseClass`, which the model leaves out because rendering is modelled as pure functions. The 100-entry bound holds either way.
- The header's `version` is the first `version` key of the header object, and header values print as their decimal or string form.
- `blockitize` (src/renpy/script/decompile.ts:202-219) is only called from commented-out code and is not modelled.
- State fields that the source prints through template strings are strings in the model. A number-valued `duration` or `PyExpr` argument is printed through `Text.IntToString`, and other JavaScript coercions are not modelled.
- `Decompile.PyExprText`: a `PyExpr` with no arguments, or whose `args[3]` and `args[0]` are both missing or `null`, renders as `undefined` or `null`. That is what a template string prints. Where such a node reaches the output through `.map(parseClass).join(...)`, JavaScript's `join` prints the empty string instead, and the model still gives `undefined` or `null`. A node whose state has the wrong shape fails with `MalformedState`, where JavaScript would print `undefined` or throw a `TypeError`.

## Findings

| source | as written | input that shows it | evidently intended | confidence | as-written member | corrected member |
|---|---|---|---|---|---|---|
| src/common/DataReader.ts:218-221 | the signed branch of `readBigCustomNumber` tests bit `8*bytes` (mask `2n << (8*bytes - 1)`), which lies above every `bytes`-byte value, so it never fires | `readBigCustomNumber(1, true)` over the byte `0xFF` returns 255 | two's complement: -1, negative exactly when the top byte is at least 128. The repair step `value &= mask - 1; value = -value` (src/common/DataReader.ts:219-220) has the shape of sign-magnitude, which with the mask moved to bit `8*bytes - 1` would give -127 for `0xFF`. Two's complement is taken as the intent because `readCustomNumber(n, true)`, which carries the same test, feeds pickle's `LONG1`, and `LONG1` integers are two's complement, little-endian | high (not executed) | `DataReader.SignedBigCustomOfFF` | `DataReader.TwosComplement` |

`readCustomNumber` carries the same test (src/common/DataReader.ts:179-182). For 1 to 3 bytes, its signed result is therefore the unsigned one (`DataReader.CustomNumberSmallWidths`, `DataReader.CustomValueBelowMask`). This reaches the pickle machine's `LONG1`, which reads its integer with `readCustomNumber(length, true)`. The machine keeps the code as written, and `DataReader.SignedBigCustomIsUnsigned` states the general form for the arbitrary-precision read.

/** The failures every layer of the asset reader can raise, and the
    failure-compatible wrappers the operations return instead of throwing. */
module Failures {

  /** One constructor per distinct `throw` (or JavaScript runtime error) of the
      modelled code; the messages themselves are not modelled. */
  datatype Error =
    // byte cursor
    | BufferUnderrun                      // a DataView read outside the buffer (RangeError)
    | MagicMismatch                       // assertMagic found other bytes
    // pickle machine
    | UnexpectedEof                       // no STOP before the end of the data
    | UnknownProtocol(version: int)
    | UnsupportedProtocol(version: int)
    | UnknownOpcode(hex: string)          // carries NumberUtils.hex(opcode, 1)
    | UnimplementedOpcode(opcode: int)
    | MemoMiss(index: int)
    | ArrayLengthOverflow                 // Array.prototype.push past 2^32 - 1 elements (RangeError)
    | OddSetItems
    | TypeError                           // a JavaScript TypeError (missing method, property of null, ...)
    | NotModelled                         // JavaScript object behaviour outside this model
    // directory tree
    | FileFolderConflict
    | DirectoryNotFound                   // SubDirectory.listEntries on a path with no folder
    // archive header
    | HeaderNoNewline
    | HeaderFieldCount
    | SignatureMismatch
    | InvalidIndexOffset
    | InvalidKey
    // compressed payloads (the inflater's own failure)
    | InflateFailed
    // decompiler
    | MissingScriptChunk
    | UnknownScriptVersion(shown: string)
    | UnknownModule(moduleName: string)
    | WrongFamily
    | UnknownClass(name: string)
    | UnknownDisplayable(moduleName: string, name: string)
    | PyCodeNotFound
    | InvalidImage
    | WithWithoutArgs
    | MalformedState

  datatype Option<+T> = None | Some(value: T)

  datatype Result<+T> = Ok(value: T) | Err(error: Error) {
    predicate IsFailure() {
      Err?
    }

    function PropagateFailure<U>(): Result<U>
      requires Err?
    {
      Err(error)
    }

    function Extract(): T
      requires Ok?
    {
      value
    }
  }
}

/** The compiled script as the decompiler sees it: a tree of pickled
    classes, each named by its module and class name, with the part of its
    pickled state that the renderers read. Fields the renderers never read
    (file names, line numbers, `next` links, serials) are not kept. */
module ScriptAst {
  import opened Failures

  /** The module names the decompiler dispatches on. */
  const RenPyModule: string := "renpy.ast"
  const Sl2Module: string := "renpy.sl2.slast"
  const AtlModule: string := "renpy.atl"

  /** A compiled class: `module.module`, `module.name`, `args` and `state`. */
  datatype Node = Node(moduleName: string, name: string, args: seq<Arg>, state: State)

  /** A constructor argument; only `PyExpr` reads them. */
  datatype Arg = ArgNull | ArgInt(i: int) | ArgText(text: string)

  /** A slot that may hold a string, a class or null. */
  datatype Expr = ExprNull | ExprText(text: string) | ExprNode(node: Node)

  /** A `[name, value]` pair whose value is a class. */
  datatype Keyword = Keyword(key: string, value: Node)

  /** An element of a `PyCode` state array. */
  datatype PyCodeItem = PyNumber(n: int) | PyText(text: string) | PyArray | PyNull | PyNode(node: Node)

  /** A `ParameterInfo` parameter: its name and its default (`ExprNull` for none). */
  datatype Param = Param(name: string, default: Expr)

  /** An `If` entry: the guard and the block it selects. */
  datatype IfEntry = IfEntry(guard: Expr, block: seq<Node>)

  /** A `Menu` item: caption, condition and the optional block. */
  datatype MenuItem = MenuItem(caption: string, condition: Expr, choice: MenuBlock)
  datatype MenuBlock = NoBlock | Block(nodes: seq<Node>)

  /** An `SLIf` entry: the guard and the single block class. */
  datatype SlIfEntry = SlIfEntry(guard: Expr, body: Node)

  /** `RawRepeat.repeats`: null, a number or a class. */
  datatype Repeats = RepeatForever | RepeatCount(count: int) | RepeatNode(node: Node)

  /** The pickled state, one shape per class (shared where classes agree). */
  datatype State =
    | NoState                                             // Return, Pass, PyExpr, SLTransclude: state unread
    // renpy.ast
    | InitState(block: seq<Node>)
    | DefineState(store: string, varname: string, operator: string, code: Node)
    | PyCodeState(items: seq<PyCodeItem>)
    | DefaultState(store: string, varname: string, code: Node)
    | PythonState(code: Node)                             // Python and SLPython
    | LabelState(labelName: string, block: seq<Node>)
    | ScreenState(screen: Node)
    | ParameterInfoState(params: seq<Param>)
    | ImageState(imgname: seq<string>, imageCode: Option<Node>, imageAtl: Option<Node>)
    | StyleState(styleName: string, properties: seq<Keyword>)
    | TransformState(varname: string, parameters: Option<Node>, atl: Node)
    | JumpState(target: string)
    | UserStatementState(line: string)
    | SayState(who: Option<string>, what: string)
    | ImspecState(imspec: seq<string>)                    // Show, Scene, Hide: the names in imspec[6]
    | WithState(expr: Expr, paired: Option<Node>)
    | IfState(entries: seq<IfEntry>)
    | MenuState(arguments: Option<Node>, menuItems: seq<MenuItem>)
    | WhileState(condition: Node, block: seq<Node>)
    | CallState(labelName: string)
    // renpy.sl2.slast
    | SlScreenState(name: string, parameters: Option<Node>, tag: Option<string>,
                    keywords: seq<Keyword>, children: seq<Node>)
    | SlDisplayableState(displayableModule: string, displayableName: string, name: string,
                         style: Option<string>, positional: seq<Node>,
                         keywords: seq<Keyword>, children: seq<Node>)
    | SlIfState(slEntries: seq<SlIfEntry>)
    | SlBlockState(children: seq<Node>, keywords: seq<Keyword>)
    | SlForState(variable: string, expression: Node, children: seq<Node>)
    | SlUseState(target: string)
    | SlDefaultState(variable: string, expression: Node)
    // renpy.atl
    | RawBlockState(statements: seq<Node>)
    | RawMultipurposeState(duration: Expr, expressions: seq<Node>, properties: seq<Keyword>)
    | RawRepeatState(repeats: Repeats)
    | RawOnState(handlers: seq<Keyword>)
    | RawParallelState(blocks: seq<Node>)

  /** A value of the script header, as `${value}` prints it. */
  datatype HeaderValue = HeaderInt(n: int) | HeaderText(text: string)

  /** One `[key, value]` of `Object.entries(header)`. */
  datatype HeaderField = HeaderField(key: string, value: HeaderValue)

  /** `[header, classes]`, the first depickled value of the script chunk. */
  datatype CompiledScript = CompiledScript(header: seq<HeaderField>, classes: seq<Node>)
}

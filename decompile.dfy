/** The decompiler's renderers: `parseClass` dispatching on the module
    name to one renderer per module family (`renpy.ast`,
    `renpy.sl2.slast`, `renpy.atl`), each dispatching on the class name.
    The four source files call one another through `parseClass`, so their
    renderers form one cluster of mutually recursive functions here; every
    `throw` becomes an `Err`, and the first failure in evaluation order is
    the one returned. */
module Decompile {
  import opened Failures
  import opened Text
  import opened ScriptAst
  import opened ScriptText

  // ---------------------------------------------------------------------
  // Class-name tables

  /** The classes of `renpy.ast` that have a rendering rule. */
  datatype RenPyClass =
    | Init | Define | PyCode | PyExpr | Default | Python | Return | Label | Screen
    | ParameterInfo | Image | Style | Transform | Jump | UserStatement | Say | Show
    | With | If | Menu | Scene | Hide | While | Pass | Call

  function RenPyName(c: RenPyClass): string
  {
    match c
    case Init => "Init" case Define => "Define" case PyCode => "PyCode"
    case PyExpr => "PyExpr" case Default => "Default" case Python => "Python"
    case Return => "Return" case Label => "Label" case Screen => "Screen"
    case ParameterInfo => "ParameterInfo" case Image => "Image" case Style => "Style"
    case Transform => "Transform" case Jump => "Jump" case UserStatement => "UserStatement"
    case Say => "Say" case Show => "Show" case With => "With" case If => "If"
    case Menu => "Menu" case Scene => "Scene" case Hide => "Hide" case While => "While"
    case Pass => "Pass" case Call => "Call"
  }

  /** The `switch(module.name)` of `parseRenPyClass`. */
  function RenPyClassOf(name: string): Option<RenPyClass>
  {
    if name == "Init" then Some(Init) else if name == "Define" then Some(Define)
    else if name == "PyCode" then Some(PyCode) else if name == "PyExpr" then Some(PyExpr)
    else if name == "Default" then Some(Default) else if name == "Python" then Some(Python)
    else if name == "Return" then Some(Return) else if name == "Label" then Some(Label)
    else if name == "Screen" then Some(Screen) else if name == "ParameterInfo" then Some(ParameterInfo)
    else if name == "Image" then Some(Image) else if name == "Style" then Some(Style)
    else if name == "Transform" then Some(Transform) else if name == "Jump" then Some(Jump)
    else if name == "UserStatement" then Some(UserStatement) else if name == "Say" then Some(Say)
    else if name == "Show" then Some(Show) else if name == "With" then Some(With)
    else if name == "If" then Some(If) else if name == "Menu" then Some(Menu)
    else if name == "Scene" then Some(Scene) else if name == "Hide" then Some(Hide)
    else if name == "While" then Some(While) else if name == "Pass" then Some(Pass)
    else if name == "Call" then Some(Call)
    else None
  }

  /** The classes of `renpy.sl2.slast`. */
  datatype Sl2Class =
    | SLScreen | SLDisplayable | SLPython | SLIf | SLBlock | SLFor | SLUse | SLTransclude | SLDefault

  function Sl2Name(c: Sl2Class): string
  {
    match c
    case SLScreen => "SLScreen" case SLDisplayable => "SLDisplayable" case SLPython => "SLPython"
    case SLIf => "SLIf" case SLBlock => "SLBlock" case SLFor => "SLFor" case SLUse => "SLUse"
    case SLTransclude => "SLTransclude" case SLDefault => "SLDefault"
  }

  function Sl2ClassOf(name: string): Option<Sl2Class>
  {
    if name == "SLScreen" then Some(SLScreen) else if name == "SLDisplayable" then Some(SLDisplayable)
    else if name == "SLPython" then Some(SLPython) else if name == "SLIf" then Some(SLIf)
    else if name == "SLBlock" then Some(SLBlock) else if name == "SLFor" then Some(SLFor)
    else if name == "SLUse" then Some(SLUse) else if name == "SLTransclude" then Some(SLTransclude)
    else if name == "SLDefault" then Some(SLDefault)
    else None
  }

  /** The classes of `renpy.atl`. */
  datatype AtlClass = RawBlock | RawMultipurpose | RawRepeat | RawOn | RawParallel

  function AtlName(c: AtlClass): string
  {
    match c
    case RawBlock => "RawBlock" case RawMultipurpose => "RawMultipurpose"
    case RawRepeat => "RawRepeat" case RawOn => "RawOn" case RawParallel => "RawParallel"
  }

  function AtlClassOf(name: string): Option<AtlClass>
  {
    if name == "RawBlock" then Some(RawBlock) else if name == "RawMultipurpose" then Some(RawMultipurpose)
    else if name == "RawRepeat" then Some(RawRepeat) else if name == "RawOn" then Some(RawOn)
    else if name == "RawParallel" then Some(RawParallel)
    else None
  }

  /** The screen-language displayables `SLDisplayable` knows. */
  datatype Displayable =
    | Sl2Add | Grid | TextButton | NullBox | MultiBox | TextLine | Imagemap | Hotspot
    | Imagebutton | Window | Input | Viewport | VpGrid | LabelText | KeyBinding | Timer
    | Bar | Button | OnEvent

  /** The composite `module:name` key the source switches on. */
  function DisplayableKey(d: Displayable): string
  {
    match d
    case Sl2Add => "renpy.sl2.sldisplayables:sl2add"
    case Grid => "renpy.display.layout:Grid"
    case TextButton => "renpy.ui:_textbutton"
    case NullBox => "renpy.display.layout:Null"
    case MultiBox => "renpy.display.layout:MultiBox"
    case TextLine => "renpy.text.text:Text"
    case Imagemap => "renpy.ui:_imagemap"
    case Hotspot => "renpy.ui:_hotspot"
    case Imagebutton => "renpy.ui:_imagebutton"
    case Window => "renpy.display.layout:Window"
    case Input => "renpy.display.behavior:Input"
    case Viewport => "renpy.sl2.sldisplayables:sl2viewport"
    case VpGrid => "renpy.sl2.sldisplayables:sl2vpgrid"
    case LabelText => "renpy.ui:_label"
    case KeyBinding => "renpy.ui:_key"
    case Timer => "renpy.display.behavior:Timer"
    case Bar => "renpy.sl2.sldisplayables:sl2bar"
    case Button => "renpy.display.behavior:Button"
    case OnEvent => "renpy.display.behavior:OnEvent"
  }

  function DisplayableOf(key: string): Option<Displayable>
  {
    if key == "renpy.sl2.sldisplayables:sl2add" then Some(Sl2Add)
    else if key == "renpy.display.layout:Grid" then Some(Grid)
    else if key == "renpy.ui:_textbutton" then Some(TextButton)
    else if key == "renpy.display.layout:Null" then Some(NullBox)
    else if key == "renpy.display.layout:MultiBox" then Some(MultiBox)
    else if key == "renpy.text.text:Text" then Some(TextLine)
    else if key == "renpy.ui:_imagemap" then Some(Imagemap)
    else if key == "renpy.ui:_hotspot" then Some(Hotspot)
    else if key == "renpy.ui:_imagebutton" then Some(Imagebutton)
    else if key == "renpy.display.layout:Window" then Some(Window)
    else if key == "renpy.display.behavior:Input" then Some(Input)
    else if key == "renpy.sl2.sldisplayables:sl2viewport" then Some(Viewport)
    else if key == "renpy.sl2.sldisplayables:sl2vpgrid" then Some(VpGrid)
    else if key == "renpy.ui:_label" then Some(LabelText)
    else if key == "renpy.ui:_key" then Some(KeyBinding)
    else if key == "renpy.display.behavior:Timer" then Some(Timer)
    else if key == "renpy.sl2.sldisplayables:sl2bar" then Some(Bar)
    else if key == "renpy.display.behavior:Button" then Some(Button)
    else if key == "renpy.display.behavior:OnEvent" then Some(OnEvent)
    else None
  }

  // ---------------------------------------------------------------------
  // Small non-recursive pieces

  /** `store.split('.').pop()`: the last dotted part of a store name. */
  function StoreNamespace(store: string): string
  {
    var parts := Split(store, '.');
    parts[|parts| - 1]
  }

  /** The variable as `define`/`default` print it: bare in the default
      store, otherwise prefixed with the store's last dotted part. */
  function Qualified(store: string, varname: string): (r: string)
    ensures |varname| <= |r| && r[|r| - |varname|..] == varname
    ensures r == varname <==> StoreNamespace(store) == "" || StoreNamespace(store) == "store"
  {
    var ns := StoreNamespace(store);
    if ns == "" || ns == "store" then varname else ns + "." + varname
  }

  /** `String(value)` for a constructor argument. */
  function ArgString(a: Arg): string
  {
    match a
    case ArgNull => "null"
    case ArgInt(i) => IntToString(i)
    case ArgText(t) => t
  }

  /** `args[3] ?? args[0]`: the fourth argument unless null or missing,
      otherwise the first (`undefined` when there is none). */
  function PyExprText(args: seq<Arg>): (r: string)
    ensures args == [] ==> r == "undefined"
    ensures args != [] ==> r == ArgString(args[0]) || (|args| > 3 && args[3] != ArgNull && r == ArgString(args[3]))
  {
    if |args| > 3 && args[3] != ArgNull then ArgString(args[3])
    else if |args| > 0 then ArgString(args[0])
    else "undefined"
  }

  /** The `keywords(list, join, padStart)` helper of `SLDisplayable`: empty
      for no keywords, otherwise the pad and the `k v` items joined. */
  function KeywordsText(items: seq<string>, sep: string, pad: string): (r: string)
    ensures items == [] ==> r == ""
    ensures items != [] ==> |pad| <= |r| && r[..|pad|] == pad
    ensures |items| == 1 ==> r == pad + items[0]
  {
    if items == [] then "" else pad + Join(items, sep)
  }

  /** An `if`/`elif`/`else` branch body: the lines indented once, then `\n`. */
  function BranchBody(lines: seq<string>): string
  {
    Indent(Join(lines, "\n"), 1) + "\n"
  }

  /** One `SLDisplayable` rendering from its already rendered parts. Each
      case consumes only the parts its template mentions, in template
      order, so the failure it reports is the first the source would hit. */
  function DisplayableText(d: Displayable, name: string, style: Option<string>,
                           positional: Result<seq<string>>, keywords: Result<seq<string>>,
                           children: Result<seq<string>>): (r: Result<string>)
    ensures positional.Ok? && keywords.Ok? && children.Ok? ==> r.Ok? && r.value != ""
    ensures r.Err? ==> || (positional.Err? && r.error == positional.error)
                       || (keywords.Err? && r.error == keywords.error)
                       || (children.Err? && r.error == children.error)
  {
    match d
    case Sl2Add =>
      var pos :- positional; var kws :- keywords;
      Ok("add " + Join(pos, " ") + " " + Join(kws, " ") + "\n")
    case Grid =>
      var pos :- positional; var kws :- keywords; var kids :- children;
      Ok("grid " + Join(pos, " ") + ":\n" + Indent(KeywordsText(kws, "\n", ""), 1) + "\n"
         + Indent(Join(kids, "\n"), 1) + "\n")
    case TextButton =>
      var pos :- positional; var kws :- keywords;
      Ok("textbutton " + Join(pos, " ") + ":\n" + Indent(KeywordsText(kws, "\n", ""), 1) + "\n")
    case NullBox =>
      var kws :- keywords;
      Ok("null" + KeywordsText(kws, " ", " ") + "\n")
    case MultiBox =>
      var kws :- keywords; var kids :- children;
      Ok((if style.Some? then style.value else "null") + KeywordsText(kws, " ", " ") + ":\n"
         + Indent(Join(kids, "\n"), 1) + "\n")
    case TextLine =>
      var pos :- positional; var kws :- keywords;
      Ok("text " + Join(pos, " ") + KeywordsText(kws, " ", " ") + "\n")
    case Hotspot =>
      var pos :- positional; var kws :- keywords;
      Ok(name + Join(pos, " ") + " " + KeywordsText(kws, "\n", ""))
    case Window =>
      var pos :- positional; var kws :- keywords; var kids :- children;
      Ok(name + (if pos == [] then "" else " " + Join(pos, " ")) + ":\n"
         + Indent(KeywordsText(kws, "\n", ""), 1) + "\n" + Indent(Join(kids, "\n"), 1) + "\n")
    case Input =>
      var kws :- keywords;
      Ok("input " + KeywordsText(kws, "\n", "") + "\n")
    case LabelText =>
      var pos :- positional;
      Ok("label " + Join(pos, " ") + "\n")
    case KeyBinding =>
      var pos :- positional; var kws :- keywords;
      Ok("key " + Join(pos, " ") + KeywordsText(kws, " ", " ") + "\n")
    case Timer =>
      var pos :- positional; var kws :- keywords;
      Ok("timer " + Join(pos, " ") + KeywordsText(kws, " ", " ") + "\n")
    case Button =>
      var pos :- positional; var kws :- keywords; var kids :- children;
      Ok("button " + Join(pos, " ") + KeywordsText(kws, " ", " ") + ":\n" + Join(kids, "\n"))
    case OnEvent =>
      var pos :- positional; var kws :- keywords;
      Ok("on " + Join(pos, " ") + KeywordsText(kws, " ", " ") + "\n")
    case _ =>
      // imagemap, imagebutton, viewport, vpgrid and bar share one template
      var kws :- keywords; var kids :- children;
      Ok(BoxKeyword(d) + ":\n" + Indent(KeywordsText(kws, "\n", ""), 1) + "\n"
         + Indent(Join(kids, "\n"), 1) + "\n")
  }

  /** The statement word of the displayables written `word:` + keywords + children. */
  function BoxKeyword(d: Displayable): string
  {
    match d
    case Imagemap => "imagemap"
    case Imagebutton => "imagebutton"
    case Viewport => "viewport"
    case VpGrid => "vpgrid"
    case _ => "bar"
  }

  // ---------------------------------------------------------------------
  // The renderers

  /** A class some renderer has a rule for: a known class name of one of
      the three module families. */
  predicate KnownClass(n: Node)
  {
    || (n.moduleName == RenPyModule && RenPyClassOf(n.name).Some?)
    || (n.moduleName == Sl2Module && Sl2ClassOf(n.name).Some?)
    || (n.moduleName == AtlModule && AtlClassOf(n.name).Some?)
  }

  /** `parseClass` / `parseClassInner`: dispatch on the module name. Only
      a known class renders; any other module throws. */
  function Render(n: Node): (r: Result<string>)
    ensures r.Ok? ==> KnownClass(n)
    ensures n.moduleName != RenPyModule && n.moduleName != Sl2Module && n.moduleName != AtlModule ==>
              r == Err(UnknownModule(n.moduleName))
    decreases n, 1
  {
    if n.moduleName == RenPyModule then RenderRenPy(n)
    else if n.moduleName == Sl2Module then RenderSl2(n)
    else if n.moduleName == AtlModule then RenderAtl(n)
    else Err(UnknownModule(n.moduleName))
  }

  /** `list.map(parseClass)`. */
  function RenderEach(ns: seq<Node>): (r: Result<seq<string>>)
    ensures r.Ok? ==> |r.value| == |ns|
    decreases ns, 0
  {
    if ns == [] then Ok([])
    else
      var head :- Render(ns[0]);
      var tail :- RenderEach(ns[1..]);
      Ok([head] + tail)
  }

  /** `typeof e == 'string' ? e : parseClass(e)`; null has no `module`. */
  function RenderExpr(e: Expr): Result<string>
    decreases e, 0
  {
    match e
    case ExprText(t) => Ok(t)
    case ExprNode(m) => Render(m)
    case ExprNull => Err(TypeError)
  }

  /** `keyword.map(kw => kw[0] + ' ' + parseClass(kw[1]))`. */
  function RenderKeywords(kws: seq<Keyword>): (r: Result<seq<string>>)
    ensures r.Ok? ==> |r.value| == |kws|
    decreases kws, 0
  {
    if kws == [] then Ok([])
    else
      var value :- Render(kws[0].value);
      var tail :- RenderKeywords(kws[1..]);
      Ok([kws[0].key + " " + value] + tail)
  }

  /** `x == null ? '' : '(' + parseClass(x) + ')'`. */
  function RenderParenthesised(x: Option<Node>): Result<string>
    decreases x, 0
  {
    match x
    case None => Ok("")
    case Some(m) =>
      var v :- Render(m);
      Ok("(" + v + ")")
  }

  /** The `ParameterInfo` items: a bare name, or `name=default`. */
  function RenderParams(ps: seq<Param>): (r: Result<seq<string>>)
    ensures r.Ok? ==> |r.value| == |ps|
    decreases ps, 0
  {
    if ps == [] then Ok([])
    else
      var head :- if ps[0].default == ExprNull then Ok(ps[0].name)
                  else var v :- RenderExpr(ps[0].default); Ok(ps[0].name + "=" + v);
      var tail :- RenderParams(ps[1..]);
      Ok([head] + tail)
  }

  /** The `PyCode` scan: skip to the first string (the mode), then return
      the next string, or the rendering of the next element that is neither
      an array nor a number. */
  function RenderPyCode(items: seq<PyCodeItem>, modeSeen: bool): (r: Result<string>)
    ensures !modeSeen && (forall i :: 0 <= i < |items| ==> !items[i].PyText?) ==> r == Err(PyCodeNotFound)
    ensures modeSeen && (forall i :: 0 <= i < |items| ==> items[i].PyNumber? || items[i].PyArray?) ==>
              r == Err(PyCodeNotFound)
    decreases items, 0
  {
    if items == [] then Err(PyCodeNotFound)
    else if !modeSeen then RenderPyCode(items[1..], items[0].PyText?)
    else if items[0].PyText? || items[0].PyNode? || items[0].PyNull? then RenderPyItem(items[0])
    else RenderPyCode(items[1..], true)
  }

  /** The element the `PyCode` scan stops at: a string is returned as is,
      anything else goes to `parseClass` (null has no `module`). */
  function RenderPyItem(item: PyCodeItem): Result<string>
    decreases item, 0
  {
    match item
    case PyText(t) => Ok(t)
    case PyNode(m) => Render(m)
    case _ => Err(TypeError)
  }

  /** The `If` entries from the current one on; `first` is `i == 0`. */
  function RenderIfEntries(entries: seq<IfEntry>, first: bool): (r: Result<string>)
    ensures r.Ok? ==> (r.value == "" <==> entries == [])
    ensures r.Ok? && entries != [] ==> BranchText(r.value, first)
    decreases entries, 0
  {
    if entries == [] then Ok("")
    else
      var e := entries[0];
      var head :- if first then (var g :- RenderExpr(e.guard); Ok("if " + g + ":\n"))
                  else if e.guard == ExprNull || e.guard == ExprText("True") then Ok("else:\n")
                  else (var g :- RenderExpr(e.guard); Ok("elif " + g + ":\n"));
      var lines :- RenderEach(e.block);
      var rest :- RenderIfEntries(entries[1..], false);
      BranchTextAppend(head, BranchBody(lines), rest, first);
      Ok(head + BranchBody(lines) + rest)
  }

  /** Text made of whole lines whose first line opens a branch: `if` for
      the first entry, `elif`/`else` for a later one. */
  predicate BranchText(t: string, first: bool)
  {
    && |t| >= 3 && t[|t| - 1] == '\n'
    && (if first then t[..3] == "if " else t[..2] == "el")
  }

  lemma BranchTextThen(head: string, rest: string, first: bool)
    requires BranchText(head, first)
    requires rest == "" || rest[|rest| - 1] == '\n'
    ensures BranchText(head + rest, first)
  {
    var t := head + rest;
    assert t[..3] == head[..3];
    if rest == "" {
      assert t == head;
    } else {
      assert t[|t| - 1] == rest[|rest| - 1];
    }
  }

  lemma BranchTextAppend(head: string, body: string, rest: string, first: bool)
    requires |head| >= 3 && (if first then head[..3] == "if " else head[..2] == "el")
    requires |body| > 0 && body[|body| - 1] == '\n'
    requires rest == "" || rest[|rest| - 1] == '\n'
    ensures BranchText(head + body + rest, first)
  {
    var t := head + body + rest;
    assert t[..3] == head[..3];
    if rest == "" {
      assert t[|t| - 1] == body[|body| - 1];
    } else {
      assert t[|t| - 1] == rest[|rest| - 1];
    }
  }

  /** The `Menu` items: the indented caption, ` if cond` unless the
      condition is `'True'` or null, then `\n`, or `:\n` and every block
      class indented twice, each followed by `\n`. */
  function RenderMenuItems(items: seq<MenuItem>): (r: Result<string>)
    ensures r.Ok? ==> (r.value == "" <==> items == [])
    ensures r.Ok? && r.value != "" ==> r.value[|r.value| - 1] == '\n'
    decreases items, 0
  {
    if items == [] then Ok("")
    else
      var item := items[0];
      var cond :- if item.condition == ExprNull || item.condition == ExprText("True") then Ok("")
                  else (var c :- RenderExpr(item.condition); Ok(" if " + c));
      var body :- match item.choice
                  case NoBlock => Ok("\n")
                  case Block(nodes) => (var parts :- RenderEach(nodes); Ok(":\n" + Lines(IndentEach(parts, 2))));
      var rest :- RenderMenuItems(items[1..]);
      Ok(Indent("\"" + item.caption + "\"", 1) + cond + body + rest)
  }

  /** The `SLIf` entries; unlike `If`, only a null guard makes `else`. */
  function RenderSlIfEntries(entries: seq<SlIfEntry>, first: bool): (r: Result<string>)
    ensures r.Ok? ==> (r.value == "" <==> entries == [])
    ensures r.Ok? && entries != [] ==> BranchText(r.value, first)
    decreases entries, 0
  {
    if entries == [] then Ok("")
    else
      var head :- RenderSlIfEntry(entries[0], first);
      var rest :- RenderSlIfEntries(entries[1..], false);
      BranchTextThen(head, rest, first);
      Ok(head + rest)
  }

  /** One `SLIf` branch: its header line, then the indented body and `\n`. */
  function RenderSlIfEntry(e: SlIfEntry, first: bool): (r: Result<string>)
    ensures r.Ok? ==> BranchText(r.value, first)
    decreases e, 1
  {
    var head :- SlIfHead(e, first);
    var body :- Render(e.body);
    var text := Indent(body, 1) + "\n";
    assert text[|text| - 1] == '\n';
    BranchTextAppend(head, text, "", first);
    Ok(head + text)
  }

  /** The header line of one `SLIf` branch. */
  function SlIfHead(e: SlIfEntry, first: bool): (r: Result<string>)
    ensures r.Ok? ==> |r.value| >= 3 && (if first then r.value[..3] == "if " else r.value[..2] == "el")
    decreases e, 0
  {
    if first then (var g :- RenderExpr(e.guard); Ok("if " + g + ":\n"))
    else if e.guard == ExprNull then Ok("else:\n")
    else (var g :- RenderExpr(e.guard); Ok("elif " + g + ":\n"))
  }

  /** The `RawOn` handlers, in entry order. */
  function RenderHandlers(hs: seq<Keyword>): Result<string>
    decreases hs, 0
  {
    if hs == [] then Ok("")
    else
      var v :- Render(hs[0].value);
      var rest :- RenderHandlers(hs[1..]);
      Ok("on " + hs[0].key + ":\n" + Indent(v, 1) + "\n" + rest)
  }

  /** The `RawRepeat` count. */
  function RenderRepeats(r: Repeats): Result<string>
    decreases r, 0
  {
    match r
    case RepeatForever => Ok("repeat\n")
    case RepeatCount(c) => Ok("repeat " + IntToString(c) + "\n")
    case RepeatNode(m) => var v :- Render(m); Ok("repeat " + v + "\n")
  }

  /** `parseRenPyClass`: only a known `renpy.ast` class renders. */
  function RenderRenPy(n: Node): (r: Result<string>)
    ensures r.Ok? ==> n.moduleName == RenPyModule && RenPyClassOf(n.name).Some?
    ensures n.moduleName != RenPyModule ==> r == Err(WrongFamily)
    ensures n.moduleName == RenPyModule && RenPyClassOf(n.name).None? ==> r == Err(UnknownClass(n.name))
    decreases n, 0
  {
    if n.moduleName != RenPyModule then Err(WrongFamily)
    else match RenPyClassOf(n.name)
    case None => Err(UnknownClass(n.name))
    case Some(c) =>
      match c
      case Init =>
        if !n.state.InitState? then Err(MalformedState) else
        var InitState(block) := n.state;
        var parts :- RenderEach(block);
        Ok(Join(parts, "\n"))
      case Define =>
        if !n.state.DefineState? then Err(MalformedState) else
        var DefineState(store, varname, op, code) := n.state;
        var value :- Render(code);
        Ok("define " + Qualified(store, varname) + " " + op + " " + value + "\n")
      case PyCode =>
        if !n.state.PyCodeState? then Err(MalformedState) else
        var PyCodeState(items) := n.state;
        RenderPyCode(items, false)
      case PyExpr =>
        Ok(PyExprText(n.args))
      case Default =>
        if !n.state.DefaultState? then Err(MalformedState) else
        var DefaultState(store, varname, code) := n.state;
        var value :- Render(code);
        Ok("default " + Qualified(store, varname) + " = " + value + "\n")
      case Python =>
        if !n.state.PythonState? then Err(MalformedState) else
        var PythonState(code) := n.state;
        var text :- Render(code);
        Ok(PythonBlock(text))
      case Return =>
        Ok("")
      case Label =>
        if !n.state.LabelState? then Err(MalformedState) else
        var LabelState(name, block) := n.state;
        var parts :- RenderEach(block);
        Ok("label " + name + ":\n" + Indent(Concat(parts), 1))
      case Screen =>
        if !n.state.ScreenState? then Err(MalformedState) else
        var ScreenState(screen) := n.state;
        Render(screen)
      case ParameterInfo =>
        if !n.state.ParameterInfoState? then Err(MalformedState) else
        var ParameterInfoState(params) := n.state;
        var parts :- RenderParams(params);
        Ok(Join(parts, ", "))
      case Image =>
        if !n.state.ImageState? then Err(MalformedState) else
        var ImageState(imgname, code, atl) := n.state;
        if code.Some? then
          var v :- Render(code.value);
          Ok("image " + Join(imgname, ", ") + " = " + v + "\n")
        else if atl.Some? then
          var v :- Render(atl.value);
          Ok("image " + Join(imgname, ", ") + ":\n" + Indent(v, 1) + "\n")
        else Err(InvalidImage)
      case Style =>
        if !n.state.StyleState? then Err(MalformedState) else
        var StyleState(styleName, properties) := n.state;
        var lines :- RenderKeywords(properties);
        Ok("style " + styleName + ":\n" + BranchBody(lines))
      case Transform =>
        if !n.state.TransformState? then Err(MalformedState) else
        var TransformState(varname, parameters, atl) := n.state;
        var params :- RenderParenthesised(parameters);
        var body :- Render(atl);
        Ok("transform " + varname + params + ":\n" + Indent(body, 1) + "\n")
      case Jump =>
        if !n.state.JumpState? then Err(MalformedState) else
        var JumpState(target) := n.state;
        Ok("jump " + target + "\n")
      case UserStatement =>
        if !n.state.UserStatementState? then Err(MalformedState) else
        var UserStatementState(line) := n.state;
        Ok(line + "\n")
      case Say =>
        if !n.state.SayState? then Err(MalformedState) else
        var SayState(who, what) := n.state;
        Ok((if who.Some? then who.value + " " else "") + "\"" + what + "\"\n")
      case Show =>
        if !n.state.ImspecState? then Err(MalformedState) else
        var ImspecState(names) := n.state;
        Ok("show " + Join(names, " ") + "\n")
      case With =>
        if !n.state.WithState? then Err(MalformedState) else
        var WithState(expr, paired) := n.state;
        if expr == ExprText("None") then
          if paired.None? then Err(WithWithoutArgs)
          else var v :- Render(paired.value); Ok("with " + v)
        else
          var v :- RenderExpr(expr);
          Ok("with " + v + "\n")
      case If =>
        if !n.state.IfState? then Err(MalformedState) else
        var IfState(entries) := n.state;
        RenderIfEntries(entries, true)
      case Menu =>
        if !n.state.MenuState? then Err(MalformedState) else
        var MenuState(arguments, items) := n.state;
        var args :- RenderParenthesised(arguments);
        var body :- RenderMenuItems(items);
        Ok("menu" + args + ":\n" + body)
      case Scene =>
        if !n.state.ImspecState? then Err(MalformedState) else
        var ImspecState(names) := n.state;
        Ok("scene " + Join(names, " ") + "\n")
      case Hide =>
        if !n.state.ImspecState? then Err(MalformedState) else
        var ImspecState(names) := n.state;
        Ok("hide " + Join(names, " ") + "\n")
      case While =>
        if !n.state.WhileState? then Err(MalformedState) else
        var WhileState(condition, block) := n.state;
        var cond :- Render(condition);
        var lines :- RenderEach(block);
        Ok("while " + cond + ":\n" + BranchBody(lines))
      case Pass =>
        Ok("pass\n")
      case Call =>
        if !n.state.CallState? then Err(MalformedState) else
        var CallState(name) := n.state;
        Ok("call " + name + " from ")
  }

  /** `parseRenPySL2Class`: only a known `renpy.sl2.slast` class renders. */
  function RenderSl2(n: Node): (r: Result<string>)
    ensures r.Ok? ==> n.moduleName == Sl2Module && Sl2ClassOf(n.name).Some?
    ensures n.moduleName != Sl2Module ==> r == Err(WrongFamily)
    ensures n.moduleName == Sl2Module && Sl2ClassOf(n.name).None? ==> r == Err(UnknownClass(n.name))
    decreases n, 0
  {
    if n.moduleName != Sl2Module then Err(WrongFamily)
    else match Sl2ClassOf(n.name)
    case None => Err(UnknownClass(n.name))
    case Some(c) =>
      match c
      case SLScreen =>
        if !n.state.SlScreenState? then Err(MalformedState) else
        var SlScreenState(name, parameters, tag, keywords, children) := n.state;
        var params :- RenderParenthesised(parameters);
        var kws :- RenderKeywords(keywords);
        var kids :- RenderEach(children);
        var body := (if tag.Some? then tag.value else "") + "\n" + Join(SuffixEach(kws, "\n"), "\n") + Concat(kids);
        Ok("screen " + name + params + ":\n" + Indent(body, 1) + "\n")
      case SLDisplayable =>
        if !n.state.SlDisplayableState? then Err(MalformedState) else
        var SlDisplayableState(dm, dn, name, style, positional, keywords, children) := n.state;
        (match DisplayableOf(dm + ":" + dn)
         case None => Err(UnknownDisplayable(dm, dn))
         case Some(d) =>
           DisplayableText(d, name, style, RenderEach(positional), RenderKeywords(keywords), RenderEach(children)))
      case SLPython =>
        if !n.state.PythonState? then Err(MalformedState) else
        var PythonState(code) := n.state;
        var text :- Render(code);
        Ok(PythonBlock(text))
      case SLIf =>
        if !n.state.SlIfState? then Err(MalformedState) else
        var SlIfState(entries) := n.state;
        RenderSlIfEntries(entries, true)
      case SLBlock =>
        if !n.state.SlBlockState? then Err(MalformedState) else
        var SlBlockState(children, keywords) := n.state;
        var kids :- RenderEach(children);
        var kws :- RenderKeywords(keywords);
        var text := Concat(kids) + Lines(kws);
        Ok(if text == "" then "pass\n" else text)
      case SLFor =>
        if !n.state.SlForState? then Err(MalformedState) else
        var SlForState(variable, expression, children) := n.state;
        var e :- Render(expression);
        var kids :- RenderEach(children);
        Ok("for " + variable + " in " + e + ":\n" + Indent(Concat(kids), 1))
      case SLUse =>
        if !n.state.SlUseState? then Err(MalformedState) else
        var SlUseState(target) := n.state;
        Ok("use " + target)
      case SLTransclude =>
        Ok("transclude\n")
      case SLDefault =>
        if !n.state.SlDefaultState? then Err(MalformedState) else
        var SlDefaultState(variable, expression) := n.state;
        var e :- Render(expression);
        Ok("default " + variable + " = " + e)
  }

  /** `parseRenPyATLClass`: only a known `renpy.atl` class renders. */
  function RenderAtl(n: Node): (r: Result<string>)
    ensures r.Ok? ==> n.moduleName == AtlModule && AtlClassOf(n.name).Some?
    ensures n.moduleName != AtlModule ==> r == Err(WrongFamily)
    ensures n.moduleName == AtlModule && AtlClassOf(n.name).None? ==> r == Err(UnknownClass(n.name))
    decreases n, 0
  {
    if n.moduleName != AtlModule then Err(WrongFamily)
    else match AtlClassOf(n.name)
    case None => Err(UnknownClass(n.name))
    case Some(c) =>
      match c
      case RawBlock =>
        if !n.state.RawBlockState? then Err(MalformedState) else
        var RawBlockState(statements) := n.state;
        var parts :- RenderEach(statements);
        Ok(Concat(parts))
      case RawMultipurpose =>
        if !n.state.RawMultipurposeState? then Err(MalformedState) else
        var RawMultipurposeState(duration, expressions, properties) := n.state;
        var head :- if duration == ExprText("0") then Ok("")
                    else (var d :- RenderExpr(duration); Ok(d + "\n"));
        var exprs :- RenderEach(expressions);
        var props :- RenderKeywords(properties);
        Ok(head + Lines(exprs) + Lines(props))
      case RawRepeat =>
        if !n.state.RawRepeatState? then Err(MalformedState) else
        var RawRepeatState(repeats) := n.state;
        RenderRepeats(repeats)
      case RawOn =>
        if !n.state.RawOnState? then Err(MalformedState) else
        var RawOnState(handlers) := n.state;
        RenderHandlers(handlers)
      case RawParallel =>
        if !n.state.RawParallelState? then Err(MalformedState) else
        var RawParallelState(blocks) := n.state;
        var parts :- RenderEach(blocks);
        Ok("parallel:\n" + Indent(Join(parts, "\n"), 1))
  }

  /** Every part with `suffix` after it. */
  function SuffixEach(parts: seq<string>, suffix: string): (r: seq<string>)
    ensures |r| == |parts|
  {
    seq(|parts|, i requires 0 <= i < |parts| => parts[i] + suffix)
  }

  /** Every part indented `n` levels. */
  function IndentEach(parts: seq<string>, n: nat): (r: seq<string>)
    ensures |r| == |parts|
  {
    seq(|parts|, i requires 0 <= i < |parts| => Indent(parts[i], n))
  }
}

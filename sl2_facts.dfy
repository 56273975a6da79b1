/** What the screen-language renderer promises, stated for whole
    `renpy.sl2.slast` nodes. */
module Sl2Facts {
  import opened Failures
  import opened Text
  import opened ScriptAst
  import opened ScriptText
  import opened Decompile
  import RenPyFacts

  /** Every class of the table reaches its own rule. */
  lemma Sl2NamesDispatch(c: Sl2Class)
    ensures Sl2ClassOf(Sl2Name(c)) == Some(c)
  {
    match c
    case SLScreen => case SLDisplayable => case SLPython => case SLIf => case SLBlock =>
    case SLFor => case SLUse => case SLTransclude => case SLDefault =>
  }

  /** A `renpy.sl2.slast` node of class `c` with state `st`. */
  function SlNode(c: Sl2Class, args: seq<Arg>, st: State): Node
  {
    Node(Sl2Module, Sl2Name(c), args, st)
  }

  /** Other modules are refused, and a name outside the table fails with
      that name. */
  lemma Sl2Refusals(n: Node)
    ensures n.moduleName != Sl2Module ==> RenderSl2(n) == Err(WrongFamily)
    ensures n.moduleName == Sl2Module && Sl2ClassOf(n.name).None? ==> Render(n) == Err(UnknownClass(n.name))
  {
  }

  // ---------------------------------------------------------------------
  // SLBlock

  lemma LinesNonEmpty(parts: seq<string>)
    requires parts != []
    ensures Lines(parts) != ""
  {
    assert |Lines(parts)| >= |parts[0] + "\n"|;
  }

  /** `SLBlock` is its children's renderings concatenated, then one line per
      keyword; when that is empty it becomes `pass`, so a block never
      renders to nothing. */
  lemma SlBlockText(args: seq<Arg>, children: seq<Node>, keywords: seq<Keyword>,
                    kids: seq<string>, kws: seq<string>)
    requires RenderEach(children) == Ok(kids) && RenderKeywords(keywords) == Ok(kws)
    ensures var r := Render(SlNode(SLBlock, args, SlBlockState(children, keywords)));
            r.Ok? && r.value != ""
    ensures var t := Concat(kids) + Lines(kws);
            Render(SlNode(SLBlock, args, SlBlockState(children, keywords))) == Ok(if t == "" then "pass\n" else t)
    ensures keywords != [] ==>
            Render(SlNode(SLBlock, args, SlBlockState(children, keywords))) == Ok(Concat(kids) + Lines(kws))
    ensures children == [] && keywords == [] ==>
            Render(SlNode(SLBlock, args, SlBlockState(children, keywords))) == Ok("pass\n")
  {
    Sl2NamesDispatch(SLBlock);
    if keywords != [] {
      LinesNonEmpty(kws);
      assert |Concat(kids) + Lines(kws)| >= |Lines(kws)|;
    }
    if children == [] && keywords == [] {
      assert Concat(kids) + Lines(kws) == "";
    }
  }

  // ---------------------------------------------------------------------
  // SLIf

  /** The first `SLIf` entry is `if G:`; later entries are `else:` for a
      null guard only, so a `'True'` guard stays `elif True:`. The body is
      the block indented once, then `\n`. */
  lemma SlIfBranch(e: SlIfEntry, rest: seq<SlIfEntry>, first: bool, body: string, restText: string)
    requires Render(e.body) == Ok(body)
    requires RenderSlIfEntries(rest, false) == Ok(restText)
    ensures first && RenderExpr(e.guard).Ok? ==>
            RenderSlIfEntries([e] + rest, first) == Ok("if " + RenderExpr(e.guard).value + ":\n" + Indent(body, 1) + "\n" + restText)
    ensures !first && e.guard == ExprNull ==>
            RenderSlIfEntries([e] + rest, first) == Ok("else:\n" + Indent(body, 1) + "\n" + restText)
    ensures !first && e.guard == ExprText("True") ==>
            RenderSlIfEntries([e] + rest, first) == Ok("elif True:\n" + Indent(body, 1) + "\n" + restText)
  {
    var text := Indent(body, 1);
    if first && RenderExpr(e.guard).Ok? {
      var head := "if " + RenderExpr(e.guard).value + ":\n";
      SlIfCons(e, rest, first, head, body, restText);
      Regroup(head, text, restText);
    }
    if !first && e.guard == ExprNull {
      SlIfCons(e, rest, first, "else:\n", body, restText);
      Regroup("else:\n", text, restText);
    }
    if !first && e.guard == ExprText("True") {
      assert RenderExpr(e.guard) == Ok("True");
      assert "elif " + "True" + ":\n" == "elif True:\n";
      SlIfCons(e, rest, first, "elif True:\n", body, restText);
      Regroup("elif True:\n", text, restText);
    }
  }

  lemma Regroup(head: string, text: string, rest: string)
    ensures head + (text + "\n") + rest == head + text + "\n" + rest
  {
  }

  /** An entry in front of the others renders as its header line, its
      indented body and then the others. */
  lemma SlIfCons(e: SlIfEntry, rest: seq<SlIfEntry>, first: bool, head: string, body: string, restText: string)
    requires SlIfHead(e, first) == Ok(head) && Render(e.body) == Ok(body)
    requires RenderSlIfEntries(rest, false) == Ok(restText)
    ensures RenderSlIfEntries([e] + rest, first) == Ok(head + (Indent(body, 1) + "\n") + restText)
  {
    assert ([e] + rest)[0] == e && ([e] + rest)[1..] == rest;
    var t := head + (Indent(body, 1) + "\n");
    assert RenderSlIfEntry(e, first) == Ok(t);
    assert RenderSlIfEntries([e] + rest, first) == Ok(t + restText);
  }

  /** `SLIf` renders its entries from the first. */
  lemma SlIfStatement(args: seq<Arg>, entries: seq<SlIfEntry>)
    ensures Render(SlNode(SLIf, args, SlIfState(entries))) == RenderSlIfEntries(entries, true)
  {
    Sl2NamesDispatch(SLIf);
  }

  // ---------------------------------------------------------------------
  // SLPython, SLUse, SLTransclude, SLDefault

  /** `SLPython` follows the same one-line or `init python:` rule as
      the core `Python` statement. */
  lemma SlPythonAsPython(args: seq<Arg>, astArgs: seq<Arg>, code: Node)
    ensures Render(SlNode(SLPython, args, PythonState(code)))
            == Render(RenPyFacts.AstNode(RenPyClass.Python, astArgs, PythonState(code)))
  {
    Sl2NamesDispatch(SLPython);
    RenPyFacts.RenPyNamesDispatch(RenPyClass.Python);
  }

  /** `use target` and `default v = e` end without a newline;
      `transclude` ends with one. */
  lemma SlShortStatements(args: seq<Arg>, target: string, variable: string, expression: Node, e: string, st: State)
    requires Render(expression) == Ok(e)
    ensures Render(SlNode(SLUse, args, SlUseState(target))) == Ok("use " + target)
    ensures Render(SlNode(SLDefault, args, SlDefaultState(variable, expression))) == Ok("default " + variable + " = " + e)
    ensures Render(SlNode(SLTransclude, args, st)) == Ok("transclude\n")
  {
    Sl2NamesDispatch(SLUse);
    Sl2NamesDispatch(SLDefault);
    Sl2NamesDispatch(SLTransclude);
  }

  // ---------------------------------------------------------------------
  // SLDisplayable

  /** Every displayable of the table is found by its own key. */
  lemma DisplayableKeys(d: Displayable)
    ensures DisplayableOf(DisplayableKey(d)) == Some(d)
  {
    if d.Sl2Add? || d.Grid? || d.TextButton? || d.NullBox? || d.MultiBox? {
      DisplayableKeys1(d);
    } else if d.TextLine? || d.Imagemap? || d.Hotspot? || d.Imagebutton? || d.Window? {
      DisplayableKeys2(d);
    } else if d.Input? || d.Viewport? || d.VpGrid? {
      DisplayableKeys3(d);
    } else if d.LabelText? || d.KeyBinding? {
      DisplayableKeys4(d);
    } else if d.Timer? || d.Bar? {
      DisplayableKeys5(d);
    } else {
      DisplayableKeys6(d);
    }
  }

  lemma DisplayableKeys1(d: Displayable)
    requires d.Sl2Add? || d.Grid? || d.TextButton? || d.NullBox? || d.MultiBox?
    ensures DisplayableOf(DisplayableKey(d)) == Some(d)
  {
    match d
    case Sl2Add => case Grid => case TextButton => case NullBox => case MultiBox =>
    case _ => assert false;
  }

  lemma DisplayableKeys2(d: Displayable)
    requires d.TextLine? || d.Imagemap? || d.Hotspot? || d.Imagebutton? || d.Window?
    ensures DisplayableOf(DisplayableKey(d)) == Some(d)
  {
    match d
    case TextLine => case Imagemap => case Hotspot => case Imagebutton => case Window =>
    case _ => assert false;
  }

  lemma DisplayableKeys3(d: Displayable)
    requires d.Input? || d.Viewport? || d.VpGrid?
    ensures DisplayableOf(DisplayableKey(d)) == Some(d)
  {
    match d
    case Input => case Viewport => case VpGrid =>
    case _ => assert false;
  }

  lemma DisplayableKeys4(d: Displayable)
    requires d.LabelText? || d.KeyBinding?
    ensures DisplayableOf(DisplayableKey(d)) == Some(d)
  {
    match d
    case LabelText => case KeyBinding =>
    case _ => assert false;
  }

  lemma DisplayableKeys5(d: Displayable)
    requires d.Timer? || d.Bar?
    ensures DisplayableOf(DisplayableKey(d)) == Some(d)
  {
    match d
    case Timer => case Bar =>
    case _ => assert false;
  }

  lemma DisplayableKeys6(d: Displayable)
    requires d.Button? || d.OnEvent?
    ensures DisplayableOf(DisplayableKey(d)) == Some(d)
  {
    match d
    case Button => case OnEvent =>
    case _ => assert false;
  }

  /** A `module:name` pair outside the table fails, naming the pair. */
  lemma UnknownDisplayableFails(args: seq<Arg>, dm: string, dn: string, name: string, style: Option<string>,
                                positional: seq<Node>, keywords: seq<Keyword>, children: seq<Node>)
    requires DisplayableOf(dm + ":" + dn).None?
    ensures Render(SlNode(SLDisplayable, args, SlDisplayableState(dm, dn, name, style, positional, keywords, children)))
            == Err(UnknownDisplayable(dm, dn))
  {
    Sl2NamesDispatch(SLDisplayable);
  }

  /** `Null` with no keywords is `null` on its own line. */
  lemma NullWithoutKeywords(args: seq<Arg>, name: string, style: Option<string>,
                            positional: seq<Node>, children: seq<Node>)
    ensures Render(SlNode(SLDisplayable, args, SlDisplayableState("renpy.display.layout", "Null", name, style,
                                                                  positional, [], children)))
            == Ok("null\n")
  {
    Sl2NamesDispatch(SLDisplayable);
    DisplayableKeys(NullBox);
    assert "renpy.display.layout" + ":" + "Null" == DisplayableKey(NullBox);
    assert RenderKeywords([]) == Ok([]);
    assert KeywordsText([], " ", " ") == "";
    assert "null" + "" + "\n" == "null\n";
  }
}

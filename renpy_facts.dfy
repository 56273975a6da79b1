/** What the `renpy.ast` renderer promises, stated for whole nodes as
    `parseClass` sees them. */
module RenPyFacts {
  import opened Failures
  import opened Text
  import opened ScriptAst
  import opened ScriptText
  import opened Decompile

  /** Every class of the table reaches its own rule. */
  lemma RenPyNamesDispatch(c: RenPyClass)
    ensures RenPyClassOf(RenPyName(c)) == Some(c)
  {
    if c.Init? || c.Define? || c.PyCode? || c.PyExpr? || c.Default? || c.Python? {
      NamesDispatch1(c);
    } else if c.Return? || c.Label? || c.Screen? || c.ParameterInfo? || c.Image? || c.Style? {
      NamesDispatch2(c);
    } else if c.Transform? || c.Jump? || c.UserStatement? || c.Say? || c.Show? {
      NamesDispatch3(c);
    } else if c.With? || c.If? || c.Menu? || c.Scene? {
      NamesDispatch4(c);
    } else {
      NamesDispatch5(c);
    }
  }

  lemma NamesDispatch1(c: RenPyClass)
    requires c.Init? || c.Define? || c.PyCode? || c.PyExpr? || c.Default? || c.Python?
    ensures RenPyClassOf(RenPyName(c)) == Some(c)
  {
    match c
    case Init => case Define => case PyCode => case PyExpr => case Default => case Python =>
    case _ => assert false;
  }

  lemma NamesDispatch2(c: RenPyClass)
    requires c.Return? || c.Label? || c.Screen? || c.ParameterInfo? || c.Image? || c.Style?
    ensures RenPyClassOf(RenPyName(c)) == Some(c)
  {
    match c
    case Return => case Label => case Screen => case ParameterInfo => case Image => case Style =>
    case _ => assert false;
  }

  lemma NamesDispatch3(c: RenPyClass)
    requires c.Transform? || c.Jump? || c.UserStatement? || c.Say? || c.Show?
    ensures RenPyClassOf(RenPyName(c)) == Some(c)
  {
    match c
    case Transform => case Jump => case UserStatement => case Say => case Show =>
    case _ => assert false;
  }

  lemma NamesDispatch4(c: RenPyClass)
    requires c.With? || c.If? || c.Menu? || c.Scene?
    ensures RenPyClassOf(RenPyName(c)) == Some(c)
  {
    match c
    case With => case If => case Menu => case Scene =>
    case _ => assert false;
  }

  lemma NamesDispatch5(c: RenPyClass)
    requires c.Hide? || c.While? || c.Pass? || c.Call?
    ensures RenPyClassOf(RenPyName(c)) == Some(c)
  {
    match c
    case Hide => case While => case Pass => case Call =>
    case _ => assert false;
  }

  /** A `renpy.ast` node of class `c` with state `st`. */
  function AstNode(c: RenPyClass, args: seq<Arg>, st: State): Node
  {
    Node(RenPyModule, RenPyName(c), args, st)
  }

  /** `Say` is `"what"` on its own line, or `who "what"` when a speaker is set. */
  lemma SayLine(args: seq<Arg>, who: Option<string>, what: string)
    ensures who.None? ==> Render(AstNode(Say, args, SayState(who, what))) == Ok("\"" + what + "\"\n")
    ensures who.Some? ==> Render(AstNode(Say, args, SayState(who, what))) == Ok(who.value + " \"" + what + "\"\n")
  {
    RenPyNamesDispatch(Say);
    if who.Some? {
      assert who.value + " " + "\"" + what + "\"\n" == who.value + " \"" + what + "\"\n";
    } else {
      assert "" + "\"" + what + "\"\n" == "\"" + what + "\"\n";
    }
  }

  /** `Jump` is `jump target`. */
  lemma JumpLine(args: seq<Arg>, target: string)
    ensures Render(AstNode(Jump, args, JumpState(target))) == Ok("jump " + target + "\n")
  {
    RenPyNamesDispatch(Jump);
  }

  /** `Pass` is `pass` whatever its state. */
  lemma PassLine(args: seq<Arg>, st: State)
    ensures Render(AstNode(Pass, args, st)) == Ok("pass\n")
  {
    RenPyNamesDispatch(Pass);
  }

  /** `Show` is `show` and the image names joined by spaces. */
  lemma ShowLine(args: seq<Arg>, names: seq<string>)
    ensures Render(AstNode(Show, args, ImspecState(names))) == Ok("show " + Join(names, " ") + "\n")
  {
    RenPyNamesDispatch(Show);
  }

  /** `Scene` is `scene` and the image names joined by spaces. */
  lemma SceneLine(args: seq<Arg>, names: seq<string>)
    ensures Render(AstNode(Scene, args, ImspecState(names))) == Ok("scene " + Join(names, " ") + "\n")
  {
    RenPyNamesDispatch(Scene);
  }

  /** `Hide` is `hide` and the image names joined by spaces. */
  lemma HideLine(args: seq<Arg>, names: seq<string>)
    ensures Render(AstNode(Hide, args, ImspecState(names))) == Ok("hide " + Join(names, " ") + "\n")
  {
    RenPyNamesDispatch(Hide);
  }

  /** The children of a list render one by one, in order; the list fails
      exactly when one child does, with the first child's failure. */
  lemma RenderEachPieces(ns: seq<Node>)
    ensures RenderEach(ns).Ok? <==> forall i :: 0 <= i < |ns| ==> Render(ns[i]).Ok?
    ensures RenderEach(ns).Ok? ==> forall i :: 0 <= i < |ns| ==> RenderEach(ns).value[i] == Render(ns[i]).value
    ensures RenderEach(ns).Err? ==> exists i :: 0 <= i < |ns| && Render(ns[i]).Err?
                                     && RenderEach(ns).error == Render(ns[i]).error
                                     && forall j :: 0 <= j < i ==> Render(ns[j]).Ok?
  {
    RenderEachAllOk(ns);
    RenderEachValues(ns);
    RenderEachFirstError(ns);
  }

  lemma {:induction false} RenderEachAllOk(ns: seq<Node>)
    ensures (forall i :: 0 <= i < |ns| ==> Render(ns[i]).Ok?) ==> RenderEach(ns).Ok?
  {
    if ns != [] && forall i :: 0 <= i < |ns| ==> Render(ns[i]).Ok? {
      assert forall i :: 0 <= i < |ns[1..]| ==> Render(ns[1..][i]).Ok? by {
        forall i | 0 <= i < |ns[1..]|
          ensures Render(ns[1..][i]).Ok?
        {
          assert ns[1..][i] == ns[i + 1];
        }
      }
      RenderEachAllOk(ns[1..]);
      assert Render(ns[0]).Ok?;
    }
  }

  lemma {:induction false} RenderEachValues(ns: seq<Node>)
    ensures RenderEach(ns).Ok? ==> forall i :: 0 <= i < |ns| ==> Render(ns[i]).Ok? && RenderEach(ns).value[i] == Render(ns[i]).value
  {
    if ns != [] && RenderEach(ns).Ok? {
      RenderEachValues(ns[1..]);
      forall i | 0 <= i < |ns|
        ensures Render(ns[i]).Ok? && RenderEach(ns).value[i] == Render(ns[i]).value
      {
        if i > 0 {
          assert ns[i] == ns[1..][i - 1];
        }
      }
    }
  }

  lemma {:induction false} RenderEachFirstError(ns: seq<Node>)
    ensures RenderEach(ns).Err? ==> exists i :: 0 <= i < |ns| && Render(ns[i]).Err?
                                     && RenderEach(ns).error == Render(ns[i]).error
                                     && forall j :: 0 <= j < i ==> Render(ns[j]).Ok?
  {
    if ns != [] && RenderEach(ns).Err? {
      if Render(ns[0]).Err? {
        assert RenderEach(ns).error == Render(ns[0]).error;
      } else {
        RenderEachFirstError(ns[1..]);
        var i :| 0 <= i < |ns[1..]| && Render(ns[1..][i]).Err? && RenderEach(ns[1..]).error == Render(ns[1..][i]).error
                 && forall j :: 0 <= j < i ==> Render(ns[1..][j]).Ok?;
        assert ns[i + 1] == ns[1..][i];
        assert RenderEach(ns).error == Render(ns[i + 1]).error;
        forall j | 0 <= j < i + 1
          ensures Render(ns[j]).Ok?
        {
          if j > 0 {
            assert ns[j] == ns[1..][j - 1];
          }
        }
      }
    }
  }

  /** `Label` is `label name:` and the concatenated children, every line
      of them indented once; no newline is added at the end. */
  lemma LabelBlock(args: seq<Arg>, name: string, block: seq<Node>, parts: seq<string>)
    requires RenderEach(block) == Ok(parts)
    ensures Render(AstNode(Label, args, LabelState(name, block))) == Ok("label " + name + ":\n" + Indent(Concat(parts), 1))
    ensures Split(Indent(Concat(parts), 1), '\n') == PrefixEach(Split(Concat(parts), '\n'), "    ")
  {
    RenPyNamesDispatch(Label);
    assert Spaces(4) == "    ";
  }

  /** `Return` renders nothing. */
  lemma ReturnEmpty(args: seq<Arg>, st: State)
    ensures Render(AstNode(Return, args, st)) == Ok("")
  {
    RenPyNamesDispatch(Return);
  }

  // ---------------------------------------------------------------------
  // Define / Default: the store namespace

  lemma {:induction false} SplitLastPiece(s: string, sep: char, b: string)
    requires sep !in b
    ensures var parts := Split(s + [sep] + b, sep); |parts| >= 2 && parts[|parts| - 1] == b
    decreases |s|
  {
    if s == [] {
      assert s + [sep] + b == [sep] + b;
      assert ([sep] + b)[1..] == b;
      SplitNoSeparator(b, sep);
    } else {
      assert (s + [sep] + b)[1..] == s[1..] + [sep] + b;
      assert (s + [sep] + b)[0] == s[0];
      SplitLastPiece(s[1..], sep, b);
    }
  }

  /** The namespace is the part after the last dot, or the whole name when
      it has no dot. */
  lemma StoreNamespaceParts(prefix: string, last: string)
    requires '.' !in last
    ensures StoreNamespace(last) == last
    ensures StoreNamespace(prefix + "." + last) == last
  {
    SplitNoSeparator(last, '.');
    SplitLastPiece(prefix, '.', last);
  }

  /** The variable is printed bare exactly when the namespace is `''` or
      `'store'`, and as `namespace.variable` otherwise. */
  lemma QualifiedRule(store: string, varname: string)
    ensures var ns := StoreNamespace(store);
            (ns == "" || ns == "store") <==> Qualified(store, varname) == varname
    ensures var ns := StoreNamespace(store);
            !(ns == "" || ns == "store") ==> Qualified(store, varname) == ns + "." + varname
  {
    var ns := StoreNamespace(store);
    if !(ns == "" || ns == "store") {
      assert |ns + "." + varname| > |varname|;
    }
  }

  /** `define` and `default` lines. */
  lemma DefineDefaultLines(args: seq<Arg>, store: string, varname: string, op: string, code: Node, value: string)
    requires Render(code) == Ok(value)
    ensures Render(AstNode(Define, args, DefineState(store, varname, op, code)))
            == Ok("define " + Qualified(store, varname) + " " + op + " " + value + "\n")
    ensures Render(AstNode(Default, args, DefaultState(store, varname, code)))
            == Ok("default " + Qualified(store, varname) + " = " + value + "\n")
  {
    RenPyNamesDispatch(Define);
    RenPyNamesDispatch(Default);
  }

  // ---------------------------------------------------------------------
  // Python / PyExpr / PyCode

  /** `Python` is `$ code` when no `\n` sits strictly inside the code (the
      first `\n` is dropped), and an `init python:` block otherwise. */
  lemma PythonForms(args: seq<Arg>, code: Node, text: string)
    requires Render(code) == Ok(text)
    ensures (forall p :: 0 < p < |text| - 1 ==> text[p] != '\n') ==>
            Render(AstNode(Python, args, PythonState(code))) == Ok("$ " + RemoveFirst(text, '\n') + "\n")
    ensures !(forall p :: 0 < p < |text| - 1 ==> text[p] != '\n') ==>
            Render(AstNode(Python, args, PythonState(code))) == Ok("init python:\n" + Indent(text, 1) + "\n")
  {
    RenPyNamesDispatch(Python);
    OneLineExactly(text);
  }

  /** `PyExpr` is its fourth argument, or its first when the fourth is
      missing or null. */
  lemma PyExprSource(args: seq<Arg>, st: State)
    ensures |args| > 3 && args[3] != ArgNull ==> Render(AstNode(PyExpr, args, st)) == Ok(ArgString(args[3]))
    ensures !(|args| > 3 && args[3] != ArgNull) && |args| > 0 ==> Render(AstNode(PyExpr, args, st)) == Ok(ArgString(args[0]))
  {
    RenPyNamesDispatch(PyExpr);
  }

  /** Nothing before the mode string is used; after it, numbers and
      arrays are skipped. */
  predicate NoText(items: seq<PyCodeItem>)
  {
    forall i :: 0 <= i < |items| ==> !items[i].PyText?
  }

  predicate Skippable(items: seq<PyCodeItem>)
  {
    forall i :: 0 <= i < |items| ==> items[i].PyNumber? || items[i].PyArray?
  }

  lemma {:induction false} PyCodeSkipsToMode(pre: seq<PyCodeItem>, rest: seq<PyCodeItem>)
    requires NoText(pre)
    ensures RenderPyCode(pre + rest, false) == RenderPyCode(rest, false)
  {
    if pre == [] {
      assert pre + rest == rest;
    } else {
      assert (pre + rest)[1..] == pre[1..] + rest;
      assert (pre + rest)[0] == pre[0];
      assert !pre[0].PyText?;
      assert RenderPyCode(pre + rest, false) == RenderPyCode(pre[1..] + rest, false);
      PyCodeSkipsToMode(pre[1..], rest);
    }
  }

  lemma {:induction false} PyCodeSkipsAfterMode(mid: seq<PyCodeItem>, rest: seq<PyCodeItem>)
    requires Skippable(mid)
    ensures RenderPyCode(mid + rest, true) == RenderPyCode(rest, true)
  {
    if mid == [] {
      assert mid + rest == rest;
    } else {
      assert (mid + rest)[1..] == mid[1..] + rest;
      assert (mid + rest)[0] == mid[0];
      assert mid[0].PyNumber? || mid[0].PyArray?;
      assert RenderPyCode(mid + rest, true) == RenderPyCode(mid[1..] + rest, true);
      PyCodeSkipsAfterMode(mid[1..], rest);
    }
  }

  /** `PyCode` returns the first string after the mode string, or renders
      the first class after it, skipping numbers and arrays. */
  lemma PyCodeValue(args: seq<Arg>, pre: seq<PyCodeItem>, mode: string, mid: seq<PyCodeItem>,
                    v: PyCodeItem, post: seq<PyCodeItem>)
    requires NoText(pre) && Skippable(mid)
    requires v.PyText? || v.PyNode?
    ensures v.PyText? ==> Render(AstNode(PyCode, args, PyCodeState(pre + [PyText(mode)] + mid + [v] + post))) == Ok(v.text)
    ensures v.PyNode? ==> Render(AstNode(PyCode, args, PyCodeState(pre + [PyText(mode)] + mid + [v] + post))) == Render(v.node)
  {
    RenPyNamesDispatch(PyCode);
    var items := pre + [PyText(mode)] + mid + [v] + post;
    assert items == pre + ([PyText(mode)] + (mid + ([v] + post)));
    PyCodeSkipsToMode(pre, [PyText(mode)] + (mid + ([v] + post)));
    assert ([PyText(mode)] + (mid + ([v] + post)))[1..] == mid + ([v] + post);
    PyCodeSkipsAfterMode(mid, [v] + post);
  }

  lemma {:induction false} PyCodeNoMode(items: seq<PyCodeItem>, seen: bool)
    requires NoText(items) && !seen
    ensures RenderPyCode(items, seen) == Err(PyCodeNotFound)
  {
    if items != [] {
      PyCodeNoMode(items[1..], false);
    }
  }

  /** Without any string the scan fails. */
  lemma PyCodeWithoutString(args: seq<Arg>, items: seq<PyCodeItem>)
    requires NoText(items)
    ensures Render(AstNode(PyCode, args, PyCodeState(items))) == Err(PyCodeNotFound)
  {
    RenPyNamesDispatch(PyCode);
    PyCodeNoMode(items, false);
  }

  // ---------------------------------------------------------------------
  // If

  /** The header of an `If` branch: `if G:` for the first entry; for later
      ones `else:` when the guard is null or `'True'`, `elif G:` otherwise.
      The branch body is the indented block followed by `\n`. */
  lemma IfBranch(e: IfEntry, rest: seq<IfEntry>, first: bool, lines: seq<string>, restText: string)
    requires RenderEach(e.block) == Ok(lines)
    requires RenderIfEntries(rest, false) == Ok(restText)
    ensures first && RenderExpr(e.guard).Ok? ==>
            RenderIfEntries([e] + rest, first) == Ok("if " + RenderExpr(e.guard).value + ":\n" + BranchBody(lines) + restText)
    ensures !first && (e.guard == ExprNull || e.guard == ExprText("True")) ==>
            RenderIfEntries([e] + rest, first) == Ok("else:\n" + BranchBody(lines) + restText)
    ensures !first && !(e.guard == ExprNull || e.guard == ExprText("True")) && RenderExpr(e.guard).Ok? ==>
            RenderIfEntries([e] + rest, first) == Ok("elif " + RenderExpr(e.guard).value + ":\n" + BranchBody(lines) + restText)
  {
    assert ([e] + rest)[0] == e && ([e] + rest)[1..] == rest;
  }

  /** The `If` class renders its entries from the first. */
  lemma IfStatement(args: seq<Arg>, entries: seq<IfEntry>)
    ensures Render(AstNode(If, args, IfState(entries))) == RenderIfEntries(entries, true)
  {
    var n := AstNode(If, args, IfState(entries));
    RenPyNamesDispatch(If);
    assert Render(n) == RenderRenPy(n);
  }

  // ---------------------------------------------------------------------
  // Failures

  /** An image with neither code nor ATL fails. */
  lemma ImageWithoutBody(args: seq<Arg>, names: seq<string>)
    ensures Render(AstNode(Image, args, ImageState(names, None, None))) == Err(InvalidImage)
  {
    RenPyNamesDispatch(Image);
  }

  /** `with None` needs a paired transition. */
  lemma WithNoneUnpaired(args: seq<Arg>)
    ensures Render(AstNode(With, args, WithState(ExprText("None"), None))) == Err(WithWithoutArgs)
  {
    RenPyNamesDispatch(With);
  }

  /** A name outside the table fails with that name; the renderer refuses
      nodes of another module. */
  lemma RenPyRefusals(n: Node)
    ensures n.moduleName == RenPyModule && RenPyClassOf(n.name).None? ==> Render(n) == Err(UnknownClass(n.name))
    ensures n.moduleName != RenPyModule ==> RenderRenPy(n) == Err(WrongFamily)
  {
  }
}

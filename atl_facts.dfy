/** What the ATL renderer promises, stated for whole `renpy.atl` nodes. */
module AtlFacts {
  import opened Failures
  import opened Text
  import opened ScriptAst
  import opened ScriptText
  import opened Decompile

  /** Every class of the table reaches its own rule. */
  lemma AtlNamesDispatch(c: AtlClass)
    ensures AtlClassOf(AtlName(c)) == Some(c)
  {
    match c
    case RawBlock => case RawMultipurpose => case RawRepeat => case RawOn => case RawParallel =>
  }

  /** A `renpy.atl` node of class `c` with state `st`. */
  function AtlNode(c: AtlClass, args: seq<Arg>, st: State): Node
  {
    Node(AtlModule, AtlName(c), args, st)
  }

  /** `renpy.atl` nodes go to the ATL renderer. */
  lemma AtlRoute(n: Node)
    requires n.moduleName == AtlModule
    ensures Render(n) == RenderAtl(n)
  {
    assert AtlModule[7] != RenPyModule[7];
    assert |AtlModule| != |Sl2Module|;
  }

  /** Other modules are refused, and a name outside the table fails with
      that name. */
  lemma AtlRefusals(n: Node)
    ensures n.moduleName != AtlModule ==> RenderAtl(n) == Err(WrongFamily)
    ensures n.moduleName == AtlModule && AtlClassOf(n.name).None? ==> Render(n) == Err(UnknownClass(n.name))
  {
  }

  /** `RawBlock` concatenates its statements with no separator. */
  lemma RawBlockConcat(args: seq<Arg>, first: Node, rest: seq<Node>, head: string, tail: seq<string>)
    requires Render(first) == Ok(head) && RenderEach(rest) == Ok(tail)
    ensures Render(AtlNode(RawBlock, args, RawBlockState([first] + rest))) == Ok(head + Concat(tail))
  {
    AtlNamesDispatch(RawBlock);
    AtlRoute(AtlNode(RawBlock, args, RawBlockState([first] + rest)));
    assert ([first] + rest)[0] == first && ([first] + rest)[1..] == rest;
    JoinCons(head, tail);
  }

  lemma JoinCons(head: string, tail: seq<string>)
    ensures Concat([head] + tail) == head + Concat(tail)
  {
    if tail != [] {
      assert ([head] + tail)[1..] == tail;
    }
  }

  /** `RawMultipurpose` leaves out the duration line exactly when the
      duration is `'0'`; then come one line per expression and one
      `name value` line per property. */
  lemma RawMultipurposeText(args: seq<Arg>, duration: Expr, expressions: seq<Node>, properties: seq<Keyword>,
                            exprs: seq<string>, props: seq<string>)
    requires RenderEach(expressions) == Ok(exprs) && RenderKeywords(properties) == Ok(props)
    ensures duration == ExprText("0") ==>
            Render(AtlNode(RawMultipurpose, args, RawMultipurposeState(duration, expressions, properties)))
            == Ok(Lines(exprs) + Lines(props))
    ensures duration != ExprText("0") && RenderExpr(duration).Ok? ==>
            Render(AtlNode(RawMultipurpose, args, RawMultipurposeState(duration, expressions, properties)))
            == Ok(RenderExpr(duration).value + "\n" + Lines(exprs) + Lines(props))
    ensures duration != ExprText("0") && RenderExpr(duration).Err? ==>
            Render(AtlNode(RawMultipurpose, args, RawMultipurposeState(duration, expressions, properties))).Err?
  {
    if duration == ExprText("0") {
      RawMultipurposeUntimed(args, duration, expressions, properties, exprs, props);
    } else {
      RawMultipurposeTimed(args, duration, expressions, properties, exprs, props);
    }
  }

  lemma RawMultipurposeUntimed(args: seq<Arg>, duration: Expr, expressions: seq<Node>, properties: seq<Keyword>,
                               exprs: seq<string>, props: seq<string>)
    requires RenderEach(expressions) == Ok(exprs) && RenderKeywords(properties) == Ok(props)
    requires duration == ExprText("0")
    ensures Render(AtlNode(RawMultipurpose, args, RawMultipurposeState(duration, expressions, properties)))
            == Ok(Lines(exprs) + Lines(props))
  {
    AtlNamesDispatch(RawMultipurpose);
    var n := AtlNode(RawMultipurpose, args, RawMultipurposeState(duration, expressions, properties));
    AtlRoute(n);
    var e, p := Lines(exprs), Lines(props);
    assert "" + e == e;
    assert RenderAtl(n) == Ok("" + e + p);
  }

  lemma RawMultipurposeTimed(args: seq<Arg>, duration: Expr, expressions: seq<Node>, properties: seq<Keyword>,
                             exprs: seq<string>, props: seq<string>)
    requires RenderEach(expressions) == Ok(exprs) && RenderKeywords(properties) == Ok(props)
    requires duration != ExprText("0")
    ensures RenderExpr(duration).Ok? ==>
            Render(AtlNode(RawMultipurpose, args, RawMultipurposeState(duration, expressions, properties)))
            == Ok(RenderExpr(duration).value + "\n" + Lines(exprs) + Lines(props))
    ensures RenderExpr(duration).Err? ==>
            Render(AtlNode(RawMultipurpose, args, RawMultipurposeState(duration, expressions, properties))).Err?
  {
    AtlNamesDispatch(RawMultipurpose);
    AtlRoute(AtlNode(RawMultipurpose, args, RawMultipurposeState(duration, expressions, properties)));
  }

  lemma EndsInNewline(a: string, b: string)
    requires a == [] || a[|a| - 1] == '\n'
    requires b == [] || b[|b| - 1] == '\n'
    ensures a + b == [] || (a + b)[|a + b| - 1] == '\n'
  {
    if b == [] {
      assert a + b == a;
    }
  }

  lemma LinesAfterHead(head: string, exprs: seq<string>, props: seq<string>)
    requires head == [] || head[|head| - 1] == '\n'
    ensures var t := head + Lines(exprs) + Lines(props); t == [] || t[|t| - 1] == '\n'
  {
    EndsInNewline(head, Lines(exprs));
    EndsInNewline(head + Lines(exprs), Lines(props));
  }

  /** A rendered `RawMultipurpose` is empty or ends in a newline. */
  lemma RawMultipurposeLines(args: seq<Arg>, duration: Expr, expressions: seq<Node>, properties: seq<Keyword>,
                             exprs: seq<string>, props: seq<string>)
    requires RenderEach(expressions) == Ok(exprs) && RenderKeywords(properties) == Ok(props)
    ensures var r := Render(AtlNode(RawMultipurpose, args, RawMultipurposeState(duration, expressions, properties)));
            r.Ok? ==> r.value == [] || r.value[|r.value| - 1] == '\n'
  {
    RawMultipurposeText(args, duration, expressions, properties, exprs, props);
    if duration == ExprText("0") {
      LinesAfterHead("", exprs, props);
      assert "" + Lines(exprs) + Lines(props) == Lines(exprs) + Lines(props);
    } else if RenderExpr(duration).Ok? {
      LinesAfterHead(RenderExpr(duration).value + "\n", exprs, props);
    }
  }

  /** `RawRepeat` is `repeat` alone when the count is null, and
      `repeat N` otherwise. */
  lemma RawRepeatLine(args: seq<Arg>, count: int)
    ensures Render(AtlNode(RawRepeat, args, RawRepeatState(RepeatForever))) == Ok("repeat\n")
    ensures Render(AtlNode(RawRepeat, args, RawRepeatState(RepeatCount(count)))) == Ok("repeat " + IntToString(count) + "\n")
  {
    AtlNamesDispatch(RawRepeat);
    AtlRoute(AtlNode(RawRepeat, args, RawRepeatState(RepeatForever)));
    AtlRoute(AtlNode(RawRepeat, args, RawRepeatState(RepeatCount(count))));
  }

  /** `RawOn` writes one `on key:` block per handler, in entry order. */
  lemma RawOnBlocks(args: seq<Arg>, h: Keyword, rest: seq<Keyword>, v: string, restText: string)
    requires Render(h.value) == Ok(v)
    requires Render(AtlNode(RawOn, args, RawOnState(rest))) == Ok(restText)
    ensures Render(AtlNode(RawOn, args, RawOnState([h] + rest)))
            == Ok("on " + h.key + ":\n" + Indent(v, 1) + "\n" + restText)
  {
    AtlNamesDispatch(RawOn);
    AtlRoute(AtlNode(RawOn, args, RawOnState([h] + rest)));
    AtlRoute(AtlNode(RawOn, args, RawOnState(rest)));
    assert ([h] + rest)[0] == h && ([h] + rest)[1..] == rest;
  }

  /** `RawOn` without handlers renders nothing. */
  lemma RawOnEmpty(args: seq<Arg>)
    ensures Render(AtlNode(RawOn, args, RawOnState([]))) == Ok("")
  {
    AtlNamesDispatch(RawOn);
    AtlRoute(AtlNode(RawOn, args, RawOnState([])));
  }

  /** `RawParallel` is `parallel:` and the blocks joined by `\n`, indented
      once, with no newline after. */
  lemma RawParallelBlock(args: seq<Arg>, blocks: seq<Node>, parts: seq<string>)
    requires RenderEach(blocks) == Ok(parts)
    ensures Render(AtlNode(RawParallel, args, RawParallelState(blocks))) == Ok("parallel:\n" + Indent(Join(parts, "\n"), 1))
  {
    var n := AtlNode(RawParallel, args, RawParallelState(blocks));
    AtlNamesDispatch(RawParallel);
    assert AtlClassOf(n.name) == Some(RawParallel);
    assert n.state.RawParallelState? && n.state.blocks == blocks;
    AtlRoute(n);
  }

}

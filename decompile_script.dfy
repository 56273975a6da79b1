/** `decompileScript` and `parseClass`: find the script chunk, depickle it,
    check the header version, then write the header comment block and the
    rendering of every top-level class, optionally cleaned. */
module DecompileScript {
  import opened Failures
  import opened Text
  import opened ScriptAst
  import opened ScriptText
  import opened Decompile
  import opened Pickle
  import Load
  import Depickler
  import RenPyFacts

  /** The only header version the decompiler accepts. */
  const ScriptVersion: int := 5003000

  /** `DEBUG_COUNT`: how many classes the debug trail keeps. */
  const DebugCount: nat := 100

  /** Reading the depickled machine (its stack and heap) as the
      `[header, classes]` pair found first on the stack. The source does
      this with a type cast, so the model takes it as a parameter. */
  type ScriptView = Machine -> Result<CompiledScript>

  // ---------------------------------------------------------------------
  // parseClassInner

  /** A node of any module other than the three families fails, naming
      the module; the three families each reach their own renderer. */
  lemma DispatchOnModule(n: Node)
    ensures n.moduleName == RenPyModule ==> Render(n) == RenderRenPy(n)
    ensures n.moduleName == Sl2Module ==> Render(n) == RenderSl2(n)
    ensures n.moduleName == AtlModule ==> Render(n) == RenderAtl(n)
    ensures n.moduleName !in {RenPyModule, Sl2Module, AtlModule} ==> Render(n) == Err(UnknownModule(n.moduleName))
  {
    assert AtlModule[7] != RenPyModule[7];
    assert |AtlModule| != |Sl2Module| && |RenPyModule| != |Sl2Module|;
  }

  // ---------------------------------------------------------------------
  // The debug trail `classStack`

  /** `classStack.push(c)`, then `shift()` when it holds more than
      `DEBUG_COUNT` entries. */
  function Pushed(entries: seq<Node>, n: Node): seq<Node>
  {
    var grown := entries + [n];
    if |grown| > DebugCount then grown[1..] else grown
  }

  /** The last `k` elements of `s`, or all of them when there are fewer. */
  function LastAtMost<T>(s: seq<T>, k: nat): (r: seq<T>)
    ensures |r| <= k && |r| <= |s|
  {
    if |s| <= k then s else s[|s| - k..]
  }

  /** Several pushes in turn. */
  function PushedAll(entries: seq<Node>, ns: seq<Node>): seq<Node>
    decreases ns
  {
    if ns == [] then entries else PushedAll(Pushed(entries, ns[0]), ns[1..])
  }

  /** One push keeps the most recent entries, ending with the new one. */
  lemma PushedKeepsRecent(entries: seq<Node>, n: Node)
    requires |entries| <= DebugCount
    ensures Pushed(entries, n) == LastAtMost(entries + [n], DebugCount)
    ensures |Pushed(entries, n)| <= DebugCount
    ensures Pushed(entries, n)[|Pushed(entries, n)| - 1] == n
  {
  }

  lemma LastAtMostAppend<T>(s: seq<T>, t: seq<T>, k: nat)
    ensures LastAtMost(LastAtMost(s, k) + t, k) == LastAtMost(s + t, k)
  {
    if |s| > k {
      var u := s[|s| - k..];
      assert u + t == (s + t)[|s| - k..];
      var a := u + t;
      if |a| > k {
        assert a[|a| - k..] == (s + t)[|s + t| - k..];
      }
    }
  }

  lemma TakeOneMore<T>(s: seq<T>, i: nat)
    requires i < |s|
    ensures s[..i + 1] == s[..i] + [s[i]]
  {
  }

  lemma HeadThenTail<T>(s: seq<T>, ns: seq<T>)
    requires ns != []
    ensures s + [ns[0]] + ns[1..] == s + ns
  {
    assert ns == [ns[0]] + ns[1..];
  }

  /** However many classes were rendered, the trail holds the last (at
      most) `DEBUG_COUNT` of them, most recent last. */
  lemma {:induction false} TrailHoldsRecent(entries: seq<Node>, ns: seq<Node>)
    requires |entries| <= DebugCount
    ensures PushedAll(entries, ns) == LastAtMost(entries + ns, DebugCount)
    ensures |PushedAll(entries, ns)| <= DebugCount
    decreases ns
  {
    if ns == [] {
      assert entries + ns == entries;
    } else {
      var e := Pushed(entries, ns[0]);
      PushedKeepsRecent(entries, ns[0]);
      TrailHoldsRecent(e, ns[1..]);
      LastAtMostAppend(entries + [ns[0]], ns[1..], DebugCount);
      HeadThenTail(entries, ns);
    }
  }

  /** The module-level `classStack`. */
  class Trail {
    var entries: seq<Node>

    constructor ()
      ensures entries == []
    {
      entries := [];
    }

    /** The push `parseClass` does before rendering a class. */
    method Push(n: Node)
      modifies this
      ensures entries == Pushed(old(entries), n)
    {
      entries := entries + [n];
      if |entries| > DebugCount {
        entries := entries[1..];
      }
    }
  }

  // ---------------------------------------------------------------------
  // The script chunk

  /** `chunks.find(chunk => chunk.slot == slot)`, as an index. */
  function FirstSlot(chunks: seq<Load.DataChunk>, slot: int): (r: Option<nat>)
    ensures r.Some? ==> r.value < |chunks| && chunks[r.value].slot == slot
                        && forall j :: 0 <= j < r.value ==> chunks[j].slot != slot
    ensures r.None? ==> forall j :: 0 <= j < |chunks| ==> chunks[j].slot != slot
  {
    if chunks == [] then None
    else if chunks[0].slot == slot then Some(0)
    else match FirstSlot(chunks[1..], slot)
      case None => None
      case Some(i) => Some(i + 1)
  }

  // ---------------------------------------------------------------------
  // The header comment block

  /** `${value}` for a header value. */
  function HeaderValueText(v: HeaderValue): string
  {
    match v
    case HeaderInt(n) => IntToString(n)
    case HeaderText(t) => t
  }

  /** `header.version`: the value under the key `version` (the keys of a
      JavaScript object are distinct, so the first one found is the one). */
  function HeaderVersion(header: seq<HeaderField>): Option<HeaderValue>
  {
    if header == [] then None
    else if header[0].key == "version" then Some(header[0].value)
    else HeaderVersion(header[1..])
  }

  /** `${header.version}` in the error message; a missing key prints `undefined`. */
  function VersionText(v: Option<HeaderValue>): string
  {
    match v
    case None => "undefined"
    case Some(x) => HeaderValueText(x)
  }

  /** One `#     key: value` line. */
  function FieldLine(f: HeaderField): string
  {
    "#     " + f.key + ": " + HeaderValueText(f.value) + "\n"
  }

  /** The field lines of the header, in entry order. */
  function FieldLines(fields: seq<HeaderField>): string
  {
    if fields == [] then "" else FieldLines(fields[..|fields| - 1]) + FieldLine(fields[|fields| - 1])
  }

  const Banner: string := "# Ren'Py decompiled script.\n# Decompiled with renpy-asset-viewer\n# Decompiled on "
  const Trailer: string := "# Decompilation is in very early alpha, so please give feedback on bugs!\n\n\n\n"

  /** `outHeader`; `now` stands for `${new Date()}`. The block opens with
      the banner and the date and closes with the trailer, whatever the
      header holds. */
  function HeaderText(header: seq<HeaderField>, now: string): (r: string)
    ensures Banner + now <= r
    ensures |r| >= |Banner| + |now| + |Trailer| && r[|r| - |Trailer|..] == Trailer
  {
    var r := Banner + now + "\n# Script Header:\n" + FieldLines(header) + Trailer;
    assert (Banner + now) + ("\n# Script Header:\n" + FieldLines(header) + Trailer) == r;
    r
  }

  // ---------------------------------------------------------------------
  // decompileScript

  /** What `decompileScript(chunks, { cleanOutput: clean })` returns. */
  function Decompiled(chunks: seq<Load.DataChunk>, clean: bool, now: string, view: ScriptView): (r: Result<string>)
    ensures FirstSlot(chunks, Load.BeforeStaticTransforms).None? ==> r == Err(MissingScriptChunk)
    ensures r.Ok? ==> Banner + now <= r.value
  {
    match FirstSlot(chunks, Load.BeforeStaticTransforms)
    case None => Err(MissingScriptChunk)
    case Some(i) =>
      var m :- Run(chunks[i].data, Initial());
      var script :- view(m);
      Written(script, clean, now)
  }

  /** What `decompileScript` writes for a depickled script: the version
      check, then the header block and the code. */
  function Written(script: CompiledScript, clean: bool, now: string): (r: Result<string>)
    ensures r.Ok? ==> HeaderVersion(script.header) == Some(HeaderInt(ScriptVersion))
    ensures r.Ok? ==> HeaderText(script.header, now) <= r.value
  {
    var version := HeaderVersion(script.header);
    if version != Some(HeaderInt(ScriptVersion)) then Err(UnknownScriptVersion(VersionText(version)))
    else
      var parts :- RenderEach(script.classes);
      var code := Lines(parts);
      Ok(HeaderText(script.header, now) + (if clean then CleanScript(code) else code))
  }

  /** Once the script chunk has been depickled and viewed, the output is
      what is written for that script. */
  lemma DecompiledWritten(chunks: seq<Load.DataChunk>, clean: bool, now: string, view: ScriptView,
                          i: nat, m: Machine, script: CompiledScript)
    requires FirstSlot(chunks, Load.BeforeStaticTransforms) == Some(i)
    requires Run(chunks[i].data, Initial()) == Ok(m) && view(m) == Ok(script)
    ensures Decompiled(chunks, clean, now, view) == Written(script, clean, now)
  {
  }

  /** Without a chunk in slot 1 (`BeforeStaticTransforms`) there is nothing
      to decompile. */
  lemma NeedsScriptChunk(chunks: seq<Load.DataChunk>, clean: bool, now: string, view: ScriptView)
    requires forall j :: 0 <= j < |chunks| ==> chunks[j].slot != Load.BeforeStaticTransforms
    ensures Decompiled(chunks, clean, now, view) == Err(MissingScriptChunk)
  {
  }

  /** Only the first chunk in slot 1 is read: chunks after it, and chunks
      of other slots before it, make no difference. */
  lemma ReadsFirstScriptChunk(chunks: seq<Load.DataChunk>, i: nat, clean: bool, now: string, view: ScriptView)
    requires i < |chunks| && chunks[i].slot == Load.BeforeStaticTransforms
    requires forall j :: 0 <= j < i ==> chunks[j].slot != Load.BeforeStaticTransforms
    ensures Decompiled(chunks, clean, now, view) == Decompiled([chunks[i]], clean, now, view)
  {
    assert FirstSlot(chunks, Load.BeforeStaticTransforms) == Some(i);
    assert FirstSlot([chunks[i]], Load.BeforeStaticTransforms) == Some(0);
  }

  /** A header whose `version` is not the number 5003000 is refused, and
      the message carries what the header holds. */
  lemma RefusesOtherVersions(chunks: seq<Load.DataChunk>, clean: bool, now: string, view: ScriptView,
                             i: nat, m: Machine, script: CompiledScript)
    requires FirstSlot(chunks, Load.BeforeStaticTransforms) == Some(i)
    requires Run(chunks[i].data, Initial()) == Ok(m) && view(m) == Ok(script)
    requires HeaderVersion(script.header) != Some(HeaderInt(ScriptVersion))
    ensures Decompiled(chunks, clean, now, view) == Err(UnknownScriptVersion(VersionText(HeaderVersion(script.header))))
  {
  }

  /** With a good header, the script is the header block and then each
      top-level class's rendering followed by `\n`, in list order; it
      fails exactly when some class fails to render. */
  lemma CodeIsEachClass(chunks: seq<Load.DataChunk>, now: string, view: ScriptView,
                        i: nat, m: Machine, script: CompiledScript)
    requires FirstSlot(chunks, Load.BeforeStaticTransforms) == Some(i)
    requires Run(chunks[i].data, Initial()) == Ok(m) && view(m) == Ok(script)
    requires HeaderVersion(script.header) == Some(HeaderInt(ScriptVersion))
    ensures Decompiled(chunks, false, now, view).Ok?
            <==> forall k :: 0 <= k < |script.classes| ==> Render(script.classes[k]).Ok?
    ensures Decompiled(chunks, false, now, view).Ok? ==>
            exists parts: seq<string> ::
              && |parts| == |script.classes|
              && (forall k :: 0 <= k < |parts| ==> parts[k] == Render(script.classes[k]).value)
              && Decompiled(chunks, false, now, view) == Ok(HeaderText(script.header, now) + Lines(parts))
  {
    DecompiledWritten(chunks, false, now, view, i, m, script);
    RenPyFacts.RenderEachPieces(script.classes);
    var r := RenderEach(script.classes);
    if r.Ok? {
      var parts := r.value;
      assert Written(script, false, now) == Ok(HeaderText(script.header, now) + Lines(parts));
    }
  }

  /** Cleaning touches only the code after the header: the cleaned and the
      raw output succeed together, share their header, and the cleaned code
      is tidy, stable under another cleaning and shows the same
      non-whitespace characters as the raw code. */
  lemma CleanedOutput(chunks: seq<Load.DataChunk>, now: string, view: ScriptView)
    ensures Decompiled(chunks, true, now, view).Ok? == Decompiled(chunks, false, now, view).Ok?
    ensures Decompiled(chunks, true, now, view).Err? ==>
            Decompiled(chunks, true, now, view) == Decompiled(chunks, false, now, view)
    ensures Decompiled(chunks, true, now, view).Ok? ==>
            exists header: string, code: string ::
              && Decompiled(chunks, false, now, view).value == header + code
              && Decompiled(chunks, true, now, view).value == header + CleanScript(code)
              && Tidy(CleanScript(code))
              && CleanScript(CleanScript(code)) == CleanScript(code)
              && Visible(CleanScript(code)) == Visible(code)
  {
    var f := FirstSlot(chunks, Load.BeforeStaticTransforms);
    if f.Some? {
      var run := Run(chunks[f.value].data, Initial());
      if run.Ok? {
        var viewed := view(run.value);
        if viewed.Ok? {
          var script := viewed.value;
          var parts := RenderEach(script.classes);
          if HeaderVersion(script.header) == Some(HeaderInt(ScriptVersion)) && parts.Ok? {
            var code := Lines(parts.value);
            var header := HeaderText(script.header, now);
            CleanScriptIdempotent(code);
            assert Decompiled(chunks, false, now, view).value == header + code;
            assert Decompiled(chunks, true, now, view).value == header + CleanScript(code);
          }
        }
      }
    }
  }

  // ---------------------------------------------------------------------
  // The loops of decompileScript

  /** Rendering a list split in two: the first part's failure comes first. */
  lemma {:induction false} RenderEachAppend(a: seq<Node>, b: seq<Node>)
    ensures RenderEach(a + b)
            == if RenderEach(a).Err? then Err(RenderEach(a).error)
               else if RenderEach(b).Err? then Err(RenderEach(b).error)
               else Ok(RenderEach(a).value + RenderEach(b).value)
  {
    if a == [] {
      assert a + b == b;
      if RenderEach(b).Ok? {
        assert RenderEach(a).value + RenderEach(b).value == RenderEach(b).value;
      }
    } else {
      assert (a + b)[0] == a[0] && (a + b)[1..] == a[1..] + b;
      RenderEachAppend(a[1..], b);
      if Render(a[0]).Ok? && RenderEach(a[1..]).Ok? && RenderEach(b).Ok? {
        assert [Render(a[0]).value] + (RenderEach(a[1..]).value + RenderEach(b).value)
            == ([Render(a[0]).value] + RenderEach(a[1..]).value) + RenderEach(b).value;
      }
    }
  }

  lemma LinesSnoc(parts: seq<string>, p: string)
    ensures Lines(parts + [p]) == Lines(parts) + p + "\n"
  {
    if parts == [] {
      assert Lines([p]) == p + "\n" + Lines([]);
    } else {
      assert (parts + [p])[1..] == parts[1..] + [p];
      LinesSnoc(parts[1..], p);
    }
  }

  /** The code a list of top-level classes makes before cleaning. */
  function CodeOf(classes: seq<Node>): (r: Result<string>)
    ensures r.Ok? <==> forall k :: 0 <= k < |classes| ==> Render(classes[k]).Ok?
    ensures classes == [] ==> r == Ok("")
  {
    RenPyFacts.RenderEachPieces(classes);
    var parts :- RenderEach(classes);
    Ok(Lines(parts))
  }

  /** The `outHeader` loop. */
  method WriteHeader(header: seq<HeaderField>, now: string) returns (outHeader: string)
    ensures outHeader == HeaderText(header, now)
  {
    outHeader := Banner + now + "\n# Script Header:\n";
    for i := 0 to |header|
      invariant outHeader == Banner + now + "\n# Script Header:\n" + FieldLines(header[..i])
    {
      assert header[..i + 1][..i] == header[..i];
      outHeader := outHeader + FieldLine(header[i]);
    }
    assert header[..|header|] == header;
    outHeader := outHeader + Trailer;
  }

  /** The `outCode` loop: every class is pushed on the trail, rendered and
      followed by `\n`; the first failure ends the loop. */
  method WriteCode(classes: seq<Node>, trail: Trail) returns (r: Result<string>)
    modifies trail
    ensures r == CodeOf(classes)
    ensures |old(trail.entries)| <= DebugCount ==> |trail.entries| <= DebugCount
  {
    ghost var entries0 := trail.entries;
    var outCode := "";
    ghost var parts: seq<string> := [];
    for i := 0 to |classes|
      invariant RenderEach(classes[..i]) == Ok(parts)
      invariant outCode == Lines(parts)
      invariant trail.entries == PushedAll(entries0, classes[..i])
    {
      trail.Push(classes[i]);
      TakeOneMore(classes, i);
      PushedAllSnoc(entries0, classes[..i], classes[i]);
      var text := Render(classes[i]);
      if text.Err? {
        RenderEachFails(classes, i, parts);
        TrailBound(entries0, classes[..i + 1]);
        return Err(text.error);
      }
      RenderEachSnoc(classes[..i], classes[i], parts);
      LinesSnoc(parts, text.value);
      outCode := outCode + text.value + "\n";
      parts := parts + [text.value];
    }
    assert classes[..|classes|] == classes;
    TrailBound(entries0, classes);
    r := Ok(outCode);
  }

  /** One more class that renders adds its text to the parts. */
  lemma RenderEachSnoc(done: seq<Node>, n: Node, parts: seq<string>)
    requires RenderEach(done) == Ok(parts) && Render(n).Ok?
    ensures RenderEach(done + [n]) == Ok(parts + [Render(n).value])
  {
    RenderEachAppend(done, [n]);
    assert [n][0] == n && [n][1..] == [];
    assert RenderEach([n][1..]) == Ok([]);
    assert [Render(n).value] + [] == [Render(n).value];
    assert RenderEach([n]) == Ok([Render(n).value]);
  }

  /** The first class that fails to render decides the outcome. */
  lemma RenderEachFails(classes: seq<Node>, i: nat, parts: seq<string>)
    requires i < |classes| && RenderEach(classes[..i]) == Ok(parts) && Render(classes[i]).Err?
    ensures RenderEach(classes) == Err(Render(classes[i]).error)
  {
    var tail := classes[i..];
    assert tail != [] && tail[0] == classes[i];
    assert RenderEach(tail) == Err(Render(classes[i]).error);
    RenderEachAppend(classes[..i], tail);
    assert classes[..i] + tail == classes;
  }

  /** `decompileScript` itself, with every top-level class pushed on the
      debug trail before it is rendered. */
  method DecompileScript(chunks: seq<Load.DataChunk>, clean: bool, now: string, view: ScriptView, trail: Trail)
    returns (r: Result<string>)
    modifies trail
    ensures r == Decompiled(chunks, clean, now, view)
    ensures |old(trail.entries)| <= DebugCount ==> |trail.entries| <= DebugCount
  {
    var found := FirstSlot(chunks, Load.BeforeStaticTransforms);
    if found.None? {
      return Err(MissingScriptChunk);
    }
    var d := new Depickler.Depickler(chunks[found.value].data);
    var depickled := d.ReadPickle();
    if depickled.Err? {
      return Err(depickled.error);
    }
    var viewed := view(d.State());
    if viewed.Err? {
      return Err(viewed.error);
    }
    r := WriteScript(viewed.value, clean, now, trail);
  }

  /** The part of `decompileScript` after depickling. */
  method WriteScript(script: CompiledScript, clean: bool, now: string, trail: Trail) returns (r: Result<string>)
    modifies trail
    ensures r == Written(script, clean, now)
    ensures |old(trail.entries)| <= DebugCount ==> |trail.entries| <= DebugCount
  {
    var version := HeaderVersion(script.header);
    if version != Some(HeaderInt(ScriptVersion)) {
      return Err(UnknownScriptVersion(VersionText(version)));
    }
    var outHeader := WriteHeader(script.header, now);
    var code := WriteCode(script.classes, trail);
    if code.Err? {
      return Err(code.error);
    }
    var outCode := code.value;
    if clean {
      outCode := CleanScript(outCode);
    }
    r := Ok(outHeader + outCode);
  }

  lemma {:induction false} PushedAllSnoc(entries: seq<Node>, ns: seq<Node>, n: Node)
    ensures PushedAll(entries, ns + [n]) == Pushed(PushedAll(entries, ns), n)
    decreases |ns|
  {
    if ns == [] {
      assert PushedAll(entries, [n]) == PushedAll(Pushed(entries, n), []);
    } else {
      assert (ns + [n])[0] == ns[0] && (ns + [n])[1..] == ns[1..] + [n];
      PushedAllSnoc(Pushed(entries, ns[0]), ns[1..], n);
    }
  }

  lemma TrailBound(entries: seq<Node>, ns: seq<Node>)
    ensures |entries| <= DebugCount ==> |PushedAll(entries, ns)| <= DebugCount
  {
    if |entries| <= DebugCount {
      TrailHoldsRecent(entries, ns);
    }
  }
}

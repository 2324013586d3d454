/**
 Where an unregistered helper's name is looked up.  The documented meaning of `{{name arg}}` is
 "the helper, else the function `name` of the current context"; the compiled code looks in
 whichever context was opened last.  This module says exactly when the two are the same.
 */
module HandlebarsFallback {
  import opened Options
  import opened HandlebarsAst
  import opened HandlebarsCompiler
  import opened HandlebarsSemantics
  import opened HandlebarsMachine
  import opened HandlebarsMeaning

  /** A call is safe when its helper is there, or when depth 0 was opened last before it. */
  predicate SafeCall(o: CompileOptions, helpers: set<string>, sx: Sexpr, last: nat) {
    o.Known(HelperName(sx.head)) || HelperName(sx.head) in helpers || CallLast(o, sx, last) == 0
  }

  predicate SafeSexpr(o: CompileOptions, helpers: set<string>, sx: Sexpr, last: nat)
    decreases sx
  {
    IsCall(o, sx) ==>
      && SafeCall(o, helpers, sx, last)
      && SafeParams(o, helpers, sx.params, last)
      && (sx.hash.HashNode? ==> SafePairs(o, helpers, sx.hash.pairs, ParamsLast(o, sx.params, last)))
  }

  predicate SafeParam(o: CompileOptions, helpers: set<string>, p: Param, last: nat)
    decreases p
  {
    p.SubExpression? ==> SafeSexpr(o, helpers, p.sexpr, last)
  }

  predicate SafeParams(o: CompileOptions, helpers: set<string>, ps: seq<Param>, last: nat)
    decreases ps
  {
    ps != [] ==> SafeParams(o, helpers, ps[1..], last) && SafeParam(o, helpers, ps[0], ParamsLast(o, ps[1..], last))
  }

  predicate SafePairs(o: CompileOptions, helpers: set<string>, ps: seq<Pair>, last: nat)
    decreases ps
  {
    ps != [] ==>
      && SafeParam(o, helpers, ps[0].value, last)
      && SafePairs(o, helpers, ps[1..], ParamLast(o, ps[0].value, last))
  }

  predicate SafeBlocks(o: CompileOptions, helpers: set<string>, bs: Blocks)
    decreases bs
  {
    && (bs.program.Some? ==> SafeStatements(o, helpers, bs.program.value.statements, 0))
    && (bs.inverse.Some? ==> SafeStatements(o, helpers, bs.inverse.value.statements, 0))
  }

  predicate SafeStatement(o: CompileOptions, helpers: set<string>, s: Statement, last: nat)
    decreases s
  {
    match s
    case Mustache(sx, _) => SafeSexpr(o, helpers, sx, last)
    case Block(sx, bs) => SafeSexpr(o, helpers, sx, last) && SafeBlocks(o, helpers, bs)
    case _ => true
  }

  predicate SafeStatements(o: CompileOptions, helpers: set<string>, ss: seq<Statement>, last: nat)
    decreases ss
  {
    ss != [] ==>
      && SafeStatement(o, helpers, ss[0], last)
      && SafeStatements(o, helpers, ss[1..], StatementLast(o, ss[0], last))
  }

  // ---------- Safe templates mean what they say ----------

  lemma {:induction false} SafeOutcome(rt: Runtime, o: CompileOptions, sc: Scope, sx: Sexpr, hasBlocks: bool)
    requires SafeSexpr(o, rt.helpers, sx, sc.last)
    ensures SexprOutcome(rt, o, sc.(intended := true), sx, hasBlocks) == SexprOutcome(rt, o, sc.(intended := false), sx, hasBlocks)
    decreases sx
  {
    if IsCall(o, sx) {
      SafeParamValues(rt, o, sc, sx.params);
      if sx.hash.HashNode? { SafePairValues(rt, o, sc.(last := ParamsLast(o, sx.params, sc.last)), sx.hash.pairs, map[]); }
    }
  }

  lemma {:induction false} SafeParamValue(rt: Runtime, o: CompileOptions, sc: Scope, p: Param)
    requires SafeParam(o, rt.helpers, p, sc.last)
    ensures ParamValue(rt, o, sc.(intended := true), p) == ParamValue(rt, o, sc.(intended := false), p)
    decreases p
  {
    if p.SubExpression? { SafeOutcome(rt, o, sc, p.sexpr, false); }
  }

  lemma {:induction false} SafeParamValues(rt: Runtime, o: CompileOptions, sc: Scope, ps: seq<Param>)
    requires SafeParams(o, rt.helpers, ps, sc.last)
    ensures ParamValues(rt, o, sc.(intended := true), ps) == ParamValues(rt, o, sc.(intended := false), ps)
    decreases ps
  {
    if ps != [] {
      SafeParamValues(rt, o, sc, ps[1..]);
      SafeParamValue(rt, o, sc.(last := ParamsLast(o, ps[1..], sc.last)), ps[0]);
    }
  }

  lemma {:induction false} SafePairValues(rt: Runtime, o: CompileOptions, sc: Scope, ps: seq<Pair>, m: map<string, Value>)
    requires SafePairs(o, rt.helpers, ps, sc.last)
    ensures PairValues(rt, o, sc.(intended := true), ps, m) == PairValues(rt, o, sc.(intended := false), ps, m)
    decreases ps
  {
    if ps != [] {
      SafeParamValue(rt, o, sc, ps[0].value);
      var v := ParamValue(rt, o, sc.(intended := true), ps[0].value);
      SafePairValues(rt, o, sc.(last := ParamLast(o, ps[0].value, sc.last)), ps[1..], m[ps[0].key := v]);
    }
  }

  lemma {:induction false} SafeBlockCall(
    rt: Runtime, o: CompileOptions, sc: Scope, bs: Blocks, call: Call, heard: seq<string>, budget: nat)
    requires SafeBlocks(o, rt.helpers, bs)
    ensures BlockCall(rt, o, sc.(intended := true), bs, call, heard, budget)
      == BlockCall(rt, o, sc.(intended := false), bs, call, heard, budget)
    decreases bs, 0, budget
  {
    match rt.act(call, heard)
    case Return(_) =>
    case Render(inverse, context, d) =>
      if budget > 0 {
        var block := if inverse then bs.inverse else bs.program;
        var inner := sc.(contexts := [context] + sc.contexts, data := ChosenData(d, sc.data), last := 0);
        var text := if block.None? then "" else Rendered(rt, o, inner.(intended := true), block.value.statements);
        assert text == (if block.None? then "" else Rendered(rt, o, inner.(intended := false), block.value.statements)) by {
          if block.Some? { SafeRendered(rt, o, inner, block.value.statements); }
        }
        SafeBlockCall(rt, o, sc, bs, call, heard + [text], budget - 1);
      }
  }

  lemma SafeBlockOutcome(rt: Runtime, o: CompileOptions, sc: Scope, bs: Blocks, out: Outcome)
    requires SafeBlocks(o, rt.helpers, bs)
    ensures BlockOutcome(rt, o, sc.(intended := true), bs, out) == BlockOutcome(rt, o, sc.(intended := false), bs, out)
    decreases bs, 1
  {
    if out.Invoke? { SafeBlockCall(rt, o, sc, bs, out.call, [], rt.bound(out.call)); }
  }

  lemma SafeBlockValue(rt: Runtime, o: CompileOptions, sc: Scope, sx: Sexpr, bs: Blocks)
    requires SafeBlocks(o, rt.helpers, bs) && SafeSexpr(o, rt.helpers, sx, sc.last)
    ensures BlockValueOf(rt, o, sc.(intended := true), sx, bs) == BlockValueOf(rt, o, sc.(intended := false), sx, bs)
    decreases bs, 2
  {
    SafeOutcome(rt, o, sc, sx, bs.Any());
    var out := SexprOutcome(rt, o, sc.(intended := true), sx, bs.Any());
    SafeBlockOutcome(rt, o, sc, bs, out);
    var v := BlockOutcome(rt, o, sc.(intended := true), bs, out);
    SafeBlockOutcome(rt, o, sc, bs, Invoke(MissingBlockCall(sc.(intended := true), bs, v)));
  }

  lemma SafeStatementText(rt: Runtime, o: CompileOptions, sc: Scope, s: Statement)
    requires SafeStatement(o, rt.helpers, s, sc.last)
    ensures StatementText(rt, o, sc.(intended := true), s) == StatementText(rt, o, sc.(intended := false), s)
    decreases s
  {
    match s
    case Mustache(sx, _) => SafeOutcome(rt, o, sc, sx, false);
    case Block(sx, bs) => SafeBlockValue(rt, o, sc, sx, bs);
    case _ =>
  }

  lemma {:induction false} SafeRendered(rt: Runtime, o: CompileOptions, sc: Scope, ss: seq<Statement>)
    requires SafeStatements(o, rt.helpers, ss, sc.last)
    ensures Rendered(rt, o, sc.(intended := true), ss) == Rendered(rt, o, sc.(intended := false), ss)
    decreases ss
  {
    if ss != [] {
      SafeStatementText(rt, o, sc, ss[0]);
      SafeRendered(rt, o, sc.(last := StatementLast(o, ss[0], sc.last)), ss[1..]);
    }
  }

  /** A compiled template in which every call is safe renders its documented meaning. */
  lemma SafeTemplatesRenderAsDocumented(rt: Runtime, o: CompileOptions, p: Program, context: Value, data: Value)
    requires StatementsCompile(o, p.statements) && SafeStatements(o, rt.helpers, p.statements, 0)
    ensures RunTemplate(rt, ProgramEnvironment(o, p), context, data)
      == Some(Rendered(rt, o, Scope([context], data, 0, true), p.statements))
  {
    CompilationPreservesMeaning(rt, o, p, context, data);
    SafeRendered(rt, o, Scope([context], data, 0, true), p.statements);
  }

  // ---------- Unsafe calls do not ----------

  /** One call finds the documented function in all contexts exactly when it is safe. */
  lemma CallFallbackIsExact(rt: Runtime, o: CompileOptions, sx: Sexpr, last: nat, hasBlocks: bool)
    requires IsCall(o, sx)
    ensures SafeCall(o, rt.helpers, sx, last) <==>
      forall contexts: seq<Value>, data: Value ::
        var sc := Scope(contexts, data, last, true);
        SexprOutcome(rt, o, sc, sx, hasBlocks).call.callee == SexprOutcome(rt, o, sc.(intended := false), sx, hasBlocks).call.callee
  {
    if !SafeCall(o, rt.helpers, sx, last) {
      var contexts := [Object(map[HelperName(sx.head) := Function(0)])];
      var sc := Scope(contexts, Undefined, last, true);
      assert SexprOutcome(rt, o, sc, sx, hasBlocks).call.callee == Dynamic(Function(0));
      assert SexprOutcome(rt, o, sc.(intended := false), sx, hasBlocks).call.callee == Registered("helperMissing");
      assert Scope(contexts, Undefined, last, true) == sc;
    }
  }

  function AnswerByCallee(c: Call, heard: seq<string>): Action {
    Return(if c.callee.Dynamic? then Text("called") else Text("missing"))
  }

  function PlainText(v: Value): string {
    if v.Text? then v.s else ""
  }

  /** No helpers; context functions answer "called", everything else "missing". */
  const Demonstration := Runtime({}, AnswerByCallee, (_: Call) => 0, (_: string, _: Value, _: Value) => Undefined, PlainText)

  const NoOptionsSet := CompileOptions(map[], false, false)

  const OuterX := Mustache(Sexpr(IdHead(Path(["x"], 1, false)), [], NoHash, false, true), false)

  const CallOfF := Sexpr(IdHead(Path(["f"], 0, false)), [LiteralParam(IntegerLiteral(1))], NoHash, false, true)

  /** `{{{../x}}}{{{f 1}}}` with a context function `f`: the earlier path moves the lookup of `f` out of the current context. */
  lemma FallbackCounterexample()
    ensures
      var p, context := Program([OuterX, Mustache(CallOfF, false)]), Object(map["f" := Function(0)]);
      && StatementsCompile(NoOptionsSet, p.statements)
      && RunTemplate(Demonstration, ProgramEnvironment(NoOptionsSet, p), context, Undefined) == Some("missing")
      && Rendered(Demonstration, NoOptionsSet, Scope([context], Undefined, 0, true), p.statements) == "called"
  {
    var p, context := Program([OuterX, Mustache(CallOfF, false)]), Object(map["f" := Function(0)]);
    assert CallOfF.params[1..] == [];
    assert p.statements[1..] == [Mustache(CallOfF, false)];
    assert [Mustache(CallOfF, false)][1..] == [];
    CompilationPreservesMeaning(Demonstration, NoOptionsSet, p, context, Undefined);
    CounterexampleRendering(context, false);
    CounterexampleRendering(context, true);
  }

  lemma CounterexampleRendering(context: Value, intended: bool)
    requires context == Object(map["f" := Function(0)])
    ensures Rendered(Demonstration, NoOptionsSet, Scope([context], Undefined, 0, intended), [OuterX, Mustache(CallOfF, false)])
      == if intended then "called" else "missing"
  {
    var rt, o := Demonstration, NoOptionsSet;
    var sc := Scope([context], Undefined, 0, intended);
    var sc1 := sc.(last := 1);
    var call := Mustache(CallOfF, false);
    assert CallOfF.params[1..] == [];
    assert OuterX.sexpr.head.path.parts[1..] == [];
    assert StatementText(rt, o, sc, OuterX) == "";
    assert CallLast(o, CallOfF, 1) == 1;
    var text := if intended then "called" else "missing";
    assert StatementText(rt, o, sc1, call) == text;
    assert StatementLast(o, OuterX, 0) == 1;
    assert [OuterX, call][1..] == [call];
    assert [call][1..] == [];
    assert Rendered(rt, o, sc1, [call]) == text + "" == text;
    assert Rendered(rt, o, sc, [OuterX, call]) == "" + Rendered(rt, o, sc1, [call]);
    assert "" + text == text;
  }
}

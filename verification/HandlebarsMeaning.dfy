/**
 Compilation preserves meaning: running the opcodes of a template renders the text that its
 syntax tree denotes, and never gets stuck.
 */
module HandlebarsMeaning {
  import opened Options
  import opened HandlebarsAst
  import opened HandlebarsCompiler
  import opened HandlebarsSemantics
  import opened HandlebarsMachine

  /** The frame holds the scope's contexts in its depth variables, at least those in `ds`. */
  ghost predicate Covers(f: Frame, sc: Scope, ds: set<nat>) {
    && 0 in f.vars && sc.last in f.vars
    && f.data == sc.data
    && (forall d :: d in f.vars ==> f.vars[d] == sc.At(d))
    && (forall d :: d in ds ==> d in f.vars)
  }

  /** `r` is `st` with one more value on the stack and another depth opened. */
  ghost predicate Landed(st: State, r: State, v: Value, last: nat) {
    r.(lastHelper := st.lastHelper) == st.Push(v).(last := last)
  }

  ghost predicate HashesNest(st: State) {
    st.hash.None? ==> st.hashes == []
  }

  lemma {:induction false} RunAppend(rt: Runtime, f: Frame, a: seq<Opcode>, b: seq<Opcode>, st: State)
    ensures Run(rt, f, a + b, st) == (match Run(rt, f, a, st) case None => None case Some(s) => Run(rt, f, b, s))
    decreases a
  {
    if a == [] {
      assert a + b == b;
    } else {
      assert (a + b)[1..] == a[1..] + b;
      match Step(rt, f, a[0], st)
      case None =>
      case Some(s) => RunAppend(rt, f, a[1..], b, s);
    }
  }

  lemma RunOne(rt: Runtime, f: Frame, op: Opcode, st: State)
    ensures Run(rt, f, [op], st) == Step(rt, f, op, st)
  {
    match Step(rt, f, op, st)
    case None =>
    case Some(s) => assert Run(rt, f, [op][1..], s) == Some(s);
  }

  // ---------- The depth opened last is always a parameter ----------

  lemma {:induction false} SexprLastIn(o: CompileOptions, sx: Sexpr, last: nat, ds: set<nat>)
    requires {0, last} + SexprDepths(o, sx) <= ds
    ensures SexprLast(o, sx, last) in ds
    ensures Classify(o, sx).HelperType? ==> CallLast(o, sx, last) in ds
    decreases sx
  {
    if Classify(o, sx).HelperType? {
      ParamsLastIn(o, sx.params, last, ds);
      if sx.hash.HashNode? { PairsLastIn(o, sx.hash.pairs, ParamsLast(o, sx.params, last), ds); }
    }
  }

  lemma {:induction false} ParamLastIn(o: CompileOptions, p: Param, last: nat, ds: set<nat>)
    requires {0, last} + ParamDepths(o, p) <= ds
    ensures ParamLast(o, p, last) in ds
    decreases p
  {
    if p.SubExpression? { SexprLastIn(o, p.sexpr, last, ds); }
  }

  lemma {:induction false} ParamsLastIn(o: CompileOptions, ps: seq<Param>, last: nat, ds: set<nat>)
    requires {0, last} + ParamsDepths(o, ps) <= ds
    ensures ParamsLast(o, ps, last) in ds
    decreases ps
  {
    if ps != [] {
      ParamsLastIn(o, ps[1..], last, ds);
      ParamLastIn(o, ps[0], ParamsLast(o, ps[1..], last), ds);
    }
  }

  lemma {:induction false} PairsLastIn(o: CompileOptions, ps: seq<Pair>, last: nat, ds: set<nat>)
    requires {0, last} + PairsDepths(o, ps) <= ds
    ensures PairsLast(o, ps, last) in ds
    decreases ps
  {
    if ps != [] {
      ParamLastIn(o, ps[0].value, last, ds);
      PairsLastIn(o, ps[1..], ParamLast(o, ps[0].value, last), ds);
    }
  }

  // ---------- Paths ----------

  lemma {:induction false} LookupsRun(rt: Runtime, f: Frame, parts: seq<string>, st: State, v: Value)
    requires 0 in f.vars
    ensures Run(rt, f, LookupOps(parts), st.Push(v)) == Some(st.Push(MemberChain(v, parts)))
    decreases parts
  {
    if parts != [] {
      var w := MemberOfValue(v, parts[0]);
      assert LookupOps(parts)[1..] == LookupOps(parts[1..]);
      assert PopValue(st.Push(v)) == Some((v, st)) by { assert st.Push(v).stack[..|st.stack|] == st.stack; }
      LookupsRun(rt, f, parts[1..], st, w);
    }
  }

  lemma PathRuns(rt: Runtime, f: Frame, sc: Scope, p: Path, st: State)
    requires Covers(f, sc, PathDepths(p))
    ensures Run(rt, f, PathOps(p), st) == Some(st.Push(PathValue(sc, p)).(last := p.depth))
  {
    var get := if p.IsContext() then PushContext else LookupOnContext(p.parts[0]);
    var c := sc.At(p.depth);
    var v := if p.IsContext() then c else MemberOfContext(c, p.parts[0]);
    var st1 := st.(last := p.depth);
    assert p.depth in f.vars;
    RunOne(rt, f, get, st1);
    assert [GetContext(p.depth), get][1..] == [get];
    assert Run(rt, f, [GetContext(p.depth), get], st) == Some(st1.Push(v));
    RunAppend(rt, f, [GetContext(p.depth), get], LookupOps(p.Rest()), st);
    LookupsRun(rt, f, p.Rest(), st1, v);
  }

  lemma HeadRuns(rt: Runtime, f: Frame, sc: Scope, h: Head, st: State)
    requires Covers(f, sc, HeadDepths(h)) && st.last == sc.last
    ensures Run(rt, f, HeadOps(h), st) == Some(st.Push(HeadValue(sc, h)).(last := HeadLast(h, st.last)))
  {
    match h
    case IdHead(p) => PathRuns(rt, f, sc, p, st);
    case DataHead(p) =>
      RunOne(rt, f, LookupData, st);
      RunAppend(rt, f, [LookupData], LookupOps(p.parts), st);
      LookupsRun(rt, f, p.parts, st, f.data);
  }

  // ---------- Operands ----------

  /** How a parameter list lies on the stack: the first parameter on top. */
  function Pushed(vs: seq<Value>): seq<Item> {
    if vs == [] then [] else Pushed(vs[1..]) + [ValueItem(vs[0])]
  }

  lemma {:induction false} PopPushed(st: State, base: seq<Item>, vs: seq<Value>)
    requires st.stack == base + Pushed(vs)
    ensures PopValues(st, |vs|) == Some((vs, st.(stack := base)))
    decreases vs
  {
    if vs == [] {
      assert st.stack == base;
    } else {
      var n := |st.stack|;
      assert st.stack[n - 1] == ValueItem(vs[0]);
      assert st.stack[..n - 1] == base + Pushed(vs[1..]);
      PopPushed(st.(stack := st.stack[..n - 1]), base, vs[1..]);
      assert [vs[0]] + vs[1..] == vs;
    }
  }

  lemma PopThree(st: State, base: seq<Item>, vs: seq<Value>, prog: Option<nat>, inv: Option<nat>, hash: map<string, Value>)
    requires st.stack == base + Pushed(vs) + [ProgramItem(prog), ProgramItem(inv)] + [HashItem(hash)]
    ensures PopOperands(st, |vs|) == Some(Operands(hash, prog, inv, vs, st.(stack := base)))
  {
    var s := st.(stack := base + Pushed(vs));
    TopThree(st.stack, s.stack, prog, inv, hash);
    PopPushed(s, base, vs);
    OperandsAre(st, s, |vs|, vs, st.(stack := base), prog, inv, hash);
  }

  lemma OperandsAre(st: State, s: State, argc: nat, args: seq<Value>, rest: State, prog: Option<nat>, inv: Option<nat>, hash: map<string, Value>)
    requires
      var n := |st.stack|;
      && n >= 3 && s == st.(stack := st.stack[..n - 3])
      && st.stack[n - 3] == ProgramItem(prog) && st.stack[n - 2] == ProgramItem(inv) && st.stack[n - 1] == HashItem(hash)
    requires PopValues(s, argc) == Some((args, rest))
    ensures PopOperands(st, argc) == Some(Operands(hash, prog, inv, args, rest))
  {
  }

  lemma TopThree(stack: seq<Item>, base: seq<Item>, prog: Option<nat>, inv: Option<nat>, hash: map<string, Value>)
    requires stack == base + [ProgramItem(prog), ProgramItem(inv)] + [HashItem(hash)]
    ensures
      var n := |stack|;
      && n >= 3 && stack[..n - 3] == base
      && stack[n - 3] == ProgramItem(prog) && stack[n - 2] == ProgramItem(inv) && stack[n - 1] == HashItem(hash)
  {
  }

  lemma ProgramsRun(rt: Runtime, f: Frame, prog: Option<nat>, inv: Option<nat>, st: State)
    requires 0 in f.vars
    ensures Run(rt, f, [PushProgram(prog), PushProgram(inv)], st)
      == Some(st.(stack := st.stack + [ProgramItem(prog), ProgramItem(inv)]))
  {
    var ops := [PushProgram(prog), PushProgram(inv)];
    var s := st.(stack := st.stack + [ProgramItem(prog)]);
    assert ops[1..] == [PushProgram(inv)];
    assert Run(rt, f, ops, st) == Run(rt, f, ops[1..], s);
    RunOne(rt, f, PushProgram(inv), s);
    assert s.stack + [ProgramItem(inv)] == st.stack + [ProgramItem(prog), ProgramItem(inv)];
  }

  // ---------- Calls without blocks ----------

  lemma {:induction false} CallWithoutBlocks(rt: Runtime, f: Frame, call: Call, heard: seq<string>, budget: nat)
    ensures RunCall(rt, f, None, None, call, heard, budget) == Some(PlainCall(rt, call, heard, budget))
    decreases budget
  {
    if rt.act(call, heard).Render? && budget > 0 {
      CallWithoutBlocks(rt, f, call, heard + [""], budget - 1);
    }
  }

  /** The value of an outcome when its call runs on program numbers. */
  function RunOutcome(rt: Runtime, f: Frame, prog: Option<nat>, inv: Option<nat>, out: Outcome): Option<Value> {
    match out
    case Ready(v) => Some(v)
    case Invoke(call) => RunCall(rt, f, prog, inv, call, [], rt.bound(call))
  }

  // ---------- Expressions ----------

  /** The code of an expression either gets stuck with its call, or pushes the call's value. */
  ghost predicate Yields(result: Option<State>, st: State, v: Option<Value>, last: nat, r: State) {
    if v.None? then result.None? else result == Some(r) && Landed(st, r, v.value, last)
  }

  lemma {:induction false} ParamRuns(rt: Runtime, o: CompileOptions, f: Frame, sc: Scope, p: Param, st: State) returns (r: State)
    requires ParamCompiles(o, p) && Covers(f, sc, ParamDepths(o, p))
    requires st.last == sc.last && !sc.intended && HashesNest(st)
    ensures Run(rt, f, ParamOps(o, p), st) == Some(r)
    ensures Landed(st, r, ParamValue(rt, o, sc, p), ParamLast(o, p, st.last))
    decreases p, 1
  {
    match p
    case SubExpression(sx) =>
      r := SexprRuns(rt, o, f, sc, sx, None, None, st);
      var out := SexprOutcome(rt, o, sc, sx, false);
      if out.Invoke? { CallWithoutBlocks(rt, f, out.call, [], rt.bound(out.call)); }
    case IdParam(path) =>
      PathRuns(rt, f, sc, path, st);
      r := st.Push(PathValue(sc, path)).(last := path.depth);
    case DataParam(path) =>
      HeadRuns(rt, f, sc, DataHead(path), st);
      r := st.Push(HeadValue(sc, DataHead(path)));
    case StringParam(t) =>
      RunOne(rt, f, PushString(t), st);
      r := st.Push(Text(t));
    case LiteralParam(l) =>
      RunOne(rt, f, PushLiteral(l), st);
      r := st.Push(ParamValue(rt, o, sc, p));
  }

  lemma {:induction false} ParamsRun(rt: Runtime, o: CompileOptions, f: Frame, sc: Scope, ps: seq<Param>, st: State) returns (r: State)
    requires ParamsCompile(o, ps) && Covers(f, sc, ParamsDepths(o, ps))
    requires st.last == sc.last && !sc.intended && HashesNest(st)
    ensures Run(rt, f, ParamsOps(o, ps), st) == Some(r)
    ensures r.(lastHelper := st.lastHelper)
      == st.(stack := st.stack + Pushed(ParamValues(rt, o, sc, ps)), last := ParamsLast(o, ps, st.last))
    decreases ps
  {
    if ps == [] {
      r := st;
      assert st.stack + [] == st.stack;
    } else {
      var s := ParamsRun(rt, o, f, sc, ps[1..], st);
      RunAppend(rt, f, ParamsOps(o, ps[1..]), ParamOps(o, ps[0]), st);
      var sc' := sc.(last := ParamsLast(o, ps[1..], sc.last));
      ParamsLastIn(o, ps[1..], sc.last, f.vars.Keys);
      r := ParamRuns(rt, o, f, sc', ps[0], s);
      var v, vs := ParamValue(rt, o, sc', ps[0]), ParamValues(rt, o, sc, ps[1..]);
      assert ([v] + vs)[1..] == vs;
      assert st.stack + Pushed(vs) + [ValueItem(v)] == st.stack + (Pushed(vs) + [ValueItem(v)]);
    }
  }

  lemma {:induction false} PairsRun(
    rt: Runtime, o: CompileOptions, f: Frame, sc: Scope, ps: seq<Pair>, st: State, m: map<string, Value>) returns (r: State)
    requires PairsCompile(o, ps) && Covers(f, sc, PairsDepths(o, ps))
    requires st.last == sc.last && !sc.intended && st.hash == Some(m)
    ensures Run(rt, f, PairsOps(o, ps), st) == Some(r)
    ensures r.(lastHelper := st.lastHelper)
      == st.(hash := Some(PairValues(rt, o, sc, ps, m)), last := PairsLast(o, ps, st.last))
    decreases ps
  {
    if ps == [] {
      r := st;
    } else {
      var p, assign, rest := ps[0].value, [AssignToHash(ps[0].key)], PairsOps(o, ps[1..]);
      var s := ParamRuns(rt, o, f, sc, p, st);
      var v := ParamValue(rt, o, sc, p);
      var t := s.(stack := st.stack, hash := Some(m[ps[0].key := v]));
      assert Run(rt, f, assign, s) == Some(t) by {
        RunOne(rt, f, assign[0], s);
        assert s.stack[..|st.stack|] == st.stack;
      }
      assert Run(rt, f, ParamOps(o, p) + assign + rest, st) == Run(rt, f, rest, t) by {
        RunAppend(rt, f, ParamOps(o, p) + assign, rest, st);
        RunAppend(rt, f, ParamOps(o, p), assign, st);
      }
      assert ParamLast(o, p, sc.last) in f.vars by { ParamLastIn(o, p, sc.last, f.vars.Keys); }
      r := PairsRun(rt, o, f, sc.(last := ParamLast(o, p, sc.last)), ps[1..], t, m[ps[0].key := v]);
    }
  }

  lemma {:induction false} SexprRuns(
    rt: Runtime, o: CompileOptions, f: Frame, sc: Scope, sx: Sexpr, prog: Option<nat>, inv: Option<nat>, st: State) returns (r: State)
    requires SexprCompiles(o, sx) && Covers(f, sc, SexprDepths(o, sx))
    requires st.last == sc.last && !sc.intended && HashesNest(st)
    ensures
      var v := RunOutcome(rt, f, prog, inv, SexprOutcome(rt, o, sc, sx, prog.Some? || inv.Some?));
      Yields(Run(rt, f, SexprOps(o, sx, prog, inv), st), st, v, SexprLast(o, sx, st.last), r)
    ensures Classify(o, sx).AmbiguousType? ==> r.lastHelper == HelperName(sx.head)
    decreases sx, 3
  {
    match Classify(o, sx)
    case SimpleType =>
      HeadRuns(rt, f, sc, sx.head, st);
      RunAppend(rt, f, HeadOps(sx.head), [ResolvePossibleLambda], st);
      var v := HeadValue(sc, sx.head);
      var s := st.Push(v).(last := HeadLast(sx.head, st.last));
      RunOne(rt, f, ResolvePossibleLambda, s);
      assert s.stack[..|st.stack|] == st.stack;
      r := st.Push(Resolved(rt, sc.At(0), v)).(last := HeadLast(sx.head, st.last));
    case AmbiguousType => r := AmbiguousRuns(rt, o, f, sc, sx, prog, inv, st);
    case HelperType => r := CallRuns(rt, o, f, sc, sx, prog, inv, st);
  }

  lemma StepAmbiguousMeans(rt: Runtime, f: Frame, prog: Option<nat>, inv: Option<nat>, name: string, base: seq<Item>, st: State)
    requires 0 in f.vars && st.last == 0
    requires st.stack == base + [ProgramItem(prog), ProgramItem(inv)]
    ensures
      var options := CallOptions(map[], prog.Some? || inv.Some?, f.data);
      var out := AmbiguousOutcome(rt, name, f.vars[0], options);
      StepAmbiguous(rt, f, name, st) == PushResult(st.(stack := base, lastHelper := name), RunOutcome(rt, f, prog, inv, out))
  {
    var s := st.(stack := st.stack + [HashItem(map[])]);
    assert s.stack == base + Pushed([]) + [ProgramItem(prog), ProgramItem(inv)] + [HashItem(map[])];
    PopThree(s, base, [], prog, inv, map[]);
    var operands := Operands(map[], prog, inv, [], st.(stack := base));
    assert PopOperands(s, 0) == Some(operands);
    assert OptionsOf(f, operands) == CallOptions(map[], prog.Some? || inv.Some?, f.data);
  }

  lemma AmbiguousOpsRun(rt: Runtime, f: Frame, prog: Option<nat>, inv: Option<nat>, name: string, st: State)
    requires 0 in f.vars
    ensures
      var out := AmbiguousOutcome(rt, name, f.vars[0], CallOptions(map[], prog.Some? || inv.Some?, f.data));
      Run(rt, f, AmbiguousOps(name, 0, prog, inv), st)
        == PushResult(st.(last := 0, lastHelper := name), RunOutcome(rt, f, prog, inv, out))
  {
    var invoke := InvokeAmbiguous(name, prog.Some? || inv.Some?);
    var programs := [PushProgram(prog), PushProgram(inv)];
    var s1 := st.(last := 0);
    var s2 := s1.(stack := st.stack + [ProgramItem(prog), ProgramItem(inv)]);
    assert AmbiguousOps(name, 0, prog, inv) == [GetContext(0)] + (programs + [invoke]);
    assert Run(rt, f, [GetContext(0)], st) == Some(s1) by { RunOne(rt, f, GetContext(0), st); }
    assert Run(rt, f, programs, s1) == Some(s2) by { ProgramsRun(rt, f, prog, inv, s1); }
    assert Run(rt, f, [invoke], s2) == StepAmbiguous(rt, f, name, s2) by { RunOne(rt, f, invoke, s2); }
    RunAppend(rt, f, [GetContext(0)], programs + [invoke], st);
    RunAppend(rt, f, programs, [invoke], s1);
    StepAmbiguousMeans(rt, f, prog, inv, name, st.stack, s2);
  }

  lemma AmbiguousRuns(
    rt: Runtime, o: CompileOptions, f: Frame, sc: Scope, sx: Sexpr, prog: Option<nat>, inv: Option<nat>, st: State) returns (r: State)
    requires Classify(o, sx).AmbiguousType? && Covers(f, sc, {})
    requires st.last == sc.last
    ensures
      var v := RunOutcome(rt, f, prog, inv, SexprOutcome(rt, o, sc, sx, prog.Some? || inv.Some?));
      Yields(Run(rt, f, SexprOps(o, sx, prog, inv), st), st, v, 0, r)
    ensures r.lastHelper == HelperName(sx.head)
  {
    var name := HelperName(sx.head);
    var options := CallOptions(map[], prog.Some? || inv.Some?, f.data);
    var out := AmbiguousOutcome(rt, name, f.vars[0], options);
    assert SexprOps(o, sx, prog, inv) == AmbiguousOps(name, 0, prog, inv);
    assert SexprOutcome(rt, o, sc, sx, prog.Some? || inv.Some?) == out;
    var v := RunOutcome(rt, f, prog, inv, out);
    assert Run(rt, f, AmbiguousOps(name, 0, prog, inv), st) == PushResult(st.(last := 0, lastHelper := name), v) by {
      AmbiguousOpsRun(rt, f, prog, inv, name, st);
    }
    r := st.(last := 0).Push(if v.Some? then v.value else Undefined).(lastHelper := name);
  }

  lemma HashRuns(rt: Runtime, o: CompileOptions, f: Frame, sc: Scope, sx: Sexpr, st: State) returns (r: State, m: map<string, Value>)
    requires SexprCompiles(o, sx) && Classify(o, sx).HelperType? && sx.hash.HashNode?
    requires Covers(f, sc, PairsDepths(o, sx.hash.pairs))
    requires st.last == sc.last && !sc.intended && HashesNest(st)
    ensures Run(rt, f, [PushHash] + PairsOps(o, sx.hash.pairs) + [PopHash], st) == Some(r)
    ensures m == PairValues(rt, o, sc, sx.hash.pairs, map[])
    ensures r.(lastHelper := st.lastHelper)
      == st.(stack := st.stack + [HashItem(m)], last := PairsLast(o, sx.hash.pairs, st.last))
    decreases sx, 0
  {
    var pairs := PairsOps(o, sx.hash.pairs);
    var s := st.(hash := Some(map[]), hashes := if st.hash.Some? then st.hashes + [st.hash.value] else st.hashes);
    assert Run(rt, f, [PushHash], st) == Some(s) by { RunOne(rt, f, PushHash, st); }
    var t := PairsRun(rt, o, f, sc, sx.hash.pairs, s, map[]);
    m := PairValues(rt, o, sc, sx.hash.pairs, map[]);
    assert Run(rt, f, [PushHash] + pairs, st) == Some(t) by { RunAppend(rt, f, [PushHash], pairs, st); }
    assert Step(rt, f, PopHash, t).Some? by { if st.hash.Some? { assert t.hashes != []; } }
    r := Step(rt, f, PopHash, t).value;
    assert Run(rt, f, [PushHash] + pairs + [PopHash], st) == Some(r) by {
      RunOne(rt, f, PopHash, t);
      RunAppend(rt, f, [PushHash] + pairs, [PopHash], st);
    }
    if st.hash.Some? { assert t.hashes[..|t.hashes| - 1] == st.hashes; }
  }

  lemma StepCallMeans(
    rt: Runtime, f: Frame, prog: Option<nat>, inv: Option<nat>,
    name: string, known: bool, vs: seq<Value>, m: map<string, Value>, base: seq<Item>, st: State)
    requires 0 in f.vars && st.last in f.vars
    requires st.stack == base + Pushed(vs) + [ProgramItem(prog), ProgramItem(inv)] + [HashItem(m)]
    ensures
      var options := CallOptions(m, prog.Some? || inv.Some?, f.data);
      var call := HelperCall(known || name in rt.helpers, name, f.vars[0], f.vars[st.last], vs, options);
      StepCall(rt, f, |vs|, name, known, st)
      == PushResult(st.(stack := base), RunCall(rt, f, prog, inv, call, [], rt.bound(call)))
  {
    PopThree(st, base, vs, prog, inv, m);
    var operands := Operands(m, prog, inv, vs, st.(stack := base));
    assert OptionsOf(f, operands) == CallOptions(m, prog.Some? || inv.Some?, f.data);
    assert PopOperands(st, |vs|) == Some(operands);
  }

  lemma CallOpSteps(rt: Runtime, o: CompileOptions, f: Frame, sx: Sexpr, st: State)
    requires CallCompiles(o, sx.head) && 0 in f.vars
    ensures Run(rt, f, [CallOp(o, sx)], st)
      == StepCall(rt, f, |sx.params|, HelperName(sx.head), o.Known(HelperName(sx.head)), st)
  {
    RunOne(rt, f, CallOp(o, sx), st);
    if o.Known(HelperName(sx.head)) {
      assert CallOp(o, sx) == InvokeKnownHelper(|sx.params|, HelperName(sx.head));
    } else {
      assert CallOp(o, sx) == InvokeHelper(|sx.params|, HelperName(sx.head), sx.isRoot);
    }
  }

  lemma CallOpRuns(
    rt: Runtime, o: CompileOptions, f: Frame, sx: Sexpr, prog: Option<nat>, inv: Option<nat>,
    vs: seq<Value>, m: map<string, Value>, base: seq<Item>, st: State)
    requires CallCompiles(o, sx.head) && |vs| == |sx.params| && 0 in f.vars && st.last in f.vars
    requires st.stack == base + Pushed(vs) + [ProgramItem(prog), ProgramItem(inv)] + [HashItem(m)]
    ensures
      var name, options := HelperName(sx.head), CallOptions(m, prog.Some? || inv.Some?, f.data);
      var call := HelperCall(o.Known(name) || name in rt.helpers, name, f.vars[0], f.vars[st.last], vs, options);
      Run(rt, f, [CallOp(o, sx)], st) == PushResult(st.(stack := base), RunCall(rt, f, prog, inv, call, [], rt.bound(call)))
  {
    var name := HelperName(sx.head);
    StepCallMeans(rt, f, prog, inv, name, o.Known(name), vs, m, base, st);
    CallOpSteps(rt, o, f, sx, st);
  }

  /** Everything a helper call pops, in place: parameters, programs and hash. */
  lemma OperandsRun(
    rt: Runtime, o: CompileOptions, f: Frame, sc: Scope, sx: Sexpr, prog: Option<nat>, inv: Option<nat>, st: State)
    returns (r: State, m: map<string, Value>)
    requires SexprCompiles(o, sx) && Classify(o, sx).HelperType? && Covers(f, sc, SexprDepths(o, sx))
    requires st.last == sc.last && !sc.intended && HashesNest(st)
    ensures Run(rt, f, SexprOps(o, sx, prog, inv), st) == Run(rt, f, [CallOp(o, sx)], r)
    ensures m == if sx.hash.HashNode? then PairValues(rt, o, sc.(last := ParamsLast(o, sx.params, sc.last)), sx.hash.pairs, map[]) else map[]
    ensures r.(lastHelper := st.lastHelper) == st.(
      stack := st.stack + Pushed(ParamValues(rt, o, sc, sx.params)) + [ProgramItem(prog), ProgramItem(inv)] + [HashItem(m)],
      last := CallLast(o, sx, st.last))
    decreases sx, 1
  {
    var params, progs := ParamsOps(o, sx.params), [PushProgram(prog), PushProgram(inv)];
    var hash := HashOps(o, sx.hash);
    assert OperandsOps(o, sx, prog, inv) == params + progs + hash;
    RunAppend(rt, f, params + progs + hash, [CallOp(o, sx)], st);
    RunAppend(rt, f, params + progs, hash, st);
    RunAppend(rt, f, params, progs, st);
    var s1 := ParamsRun(rt, o, f, sc, sx.params, st);
    ProgramsRun(rt, f, prog, inv, s1);
    var s2 := s1.(stack := s1.stack + [ProgramItem(prog), ProgramItem(inv)]);
    ParamsLastIn(o, sx.params, sc.last, f.vars.Keys);
    if sx.hash.HashNode? {
      r, m := HashRuns(rt, o, f, sc.(last := ParamsLast(o, sx.params, sc.last)), sx, s2);
    } else {
      RunOne(rt, f, EmptyHash, s2);
      r, m := s2.(stack := s2.stack + [HashItem(map[])]), map[];
    }
  }

  /** The call that the machine makes is the call that the tree denotes. */
  lemma CallIsOutcome(
    rt: Runtime, o: CompileOptions, f: Frame, sc: Scope, sx: Sexpr, hasBlocks: bool, vs: seq<Value>, m: map<string, Value>) returns (call: Call)
    requires Classify(o, sx).HelperType? && Covers(f, sc, SexprDepths(o, sx)) && !sc.intended
    requires vs == ParamValues(rt, o, sc, sx.params)
    requires m == if sx.hash.HashNode? then PairValues(rt, o, sc.(last := ParamsLast(o, sx.params, sc.last)), sx.hash.pairs, map[]) else map[]
    ensures CallLast(o, sx, sc.last) in f.vars
    ensures
      var name := HelperName(sx.head);
      call == HelperCall(o.Known(name) || name in rt.helpers, name, f.vars[0], f.vars[CallLast(o, sx, sc.last)], vs,
                         CallOptions(m, hasBlocks, f.data))
    ensures SexprOutcome(rt, o, sc, sx, hasBlocks) == Invoke(call)
  {
    SexprLastIn(o, sx, sc.last, f.vars.Keys);
    call := SexprOutcome(rt, o, sc, sx, hasBlocks).call;
  }

  lemma CallRuns(
    rt: Runtime, o: CompileOptions, f: Frame, sc: Scope, sx: Sexpr, prog: Option<nat>, inv: Option<nat>, st: State) returns (r: State)
    requires SexprCompiles(o, sx) && Classify(o, sx).HelperType? && Covers(f, sc, SexprDepths(o, sx))
    requires st.last == sc.last && !sc.intended && HashesNest(st)
    ensures
      var v := RunOutcome(rt, f, prog, inv, SexprOutcome(rt, o, sc, sx, prog.Some? || inv.Some?));
      Yields(Run(rt, f, SexprOps(o, sx, prog, inv), st), st, v, CallLast(o, sx, st.last), r)
    decreases sx, 2
  {
    var vs := ParamValues(rt, o, sc, sx.params);
    var s, m := OperandsRun(rt, o, f, sc, sx, prog, inv, st);
    var name := HelperName(sx.head);
    var call := CallIsOutcome(rt, o, f, sc, sx, prog.Some? || inv.Some?, vs, m);
    var v := RunCall(rt, f, prog, inv, call, [], rt.bound(call));
    r := s.(stack := st.stack).Push(if v.Some? then v.value else Undefined);
    CallOpRuns(rt, o, f, sx, prog, inv, vs, m, st.stack, s);
  }

  // ---------- Nested programs ----------

  /** The parent has every variable a nested program's depth parameters need, and hands over the right ones. */
  lemma {:induction false} DepthsArePassed(f: Frame, sc: Scope, depths: seq<nat>, inner: Scope)
    requires Covers(f, sc, LiftedDepths(depths))
    requires forall d: nat :: d > 0 ==> inner.At(d) == sc.At(d - 1)
    ensures DepthArguments(f.vars, depths).Some?
    ensures
      var vars := Bind(depths, DepthArguments(f.vars, depths).value);
      vars.Keys == Elements(depths) && forall d :: d in vars && d > 0 ==> vars[d] == inner.At(d)
    decreases |depths|
  {
    if depths != [] {
      var n := |depths| - 1;
      DepthsArePassed(f, sc, depths[..n], inner);
      var front := DepthArguments(f.vars, depths[..n]).value;
      var parent := if depths[n] == 0 then 0 else depths[n] - 1;
      assert parent in f.vars;
      assert (front + [f.vars[parent]])[..n] == front;
    }
  }

  lemma ProgramRuns(rt: Runtime, o: CompileOptions, f: Frame, sc: Scope, p: Program)
    requires StatementsCompile(o, p.statements)
    requires f.env == ProgramEnvironment(o, p)
    requires Covers(f, sc, Elements(f.env.depths)) && sc.last == 0 && !sc.intended
    ensures RunProgram(rt, f) == Some(Rendered(rt, o, sc, p.statements))
    decreases p, 0
  {
    var code := StatementsCode(o, p.statements, 0);
    assert Covers(f, sc, code.depths) by { AscendingElements(code.depths); }
    assert Window(f, 0, code.children) by { assert f.env.children[0..|code.children|] == code.children; }
    var r, last := StatementsRun(rt, o, f, sc, p.statements, 0, Initial);
    WholeProgramRuns(rt, f, r, Rendered(rt, o, sc, p.statements), last);
  }

  lemma WholeProgramRuns(rt: Runtime, f: Frame, r: State, text: string, last: nat)
    requires Run(rt, f, f.env.opcodes, Initial) == Some(r) && Wrote(Initial, r, text, last)
    ensures RunProgram(rt, f) == Some(text)
  {
    assert "" + text == text;
  }

  /** Rendering child number `g` from a helper renders the block it was compiled from. */
  lemma ChildRuns(rt: Runtime, o: CompileOptions, f: Frame, sc: Scope, p: Program, g: nat, context: Value, data: Value)
    requires StatementsCompile(o, p.statements)
    requires g < |f.env.children| && f.env.children[g] == ProgramEnvironment(o, p)
    requires Covers(f, sc, LiftedDepths(f.env.children[g].depths)) && !sc.intended
    ensures
      var inner := sc.(contexts := [context] + sc.contexts, data := data, last := 0);
      RunChild(rt, f, g, context, data) == Some(Rendered(rt, o, inner, p.statements))
    decreases p, 1
  {
    var inner := sc.(contexts := [context] + sc.contexts, data := data, last := 0);
    var child := f.env.children[g];
    DepthsArePassed(f, sc, child.depths, inner);
    var vars := Bind(child.depths, DepthArguments(f.vars, child.depths).value)[0 := context];
    ProgramRuns(rt, o, Frame(child, vars, data), inner, p);
  }

  /** The environment holds a block's programs at the numbers the block was compiled with. */
  ghost predicate HoldsBlocks(o: CompileOptions, f: Frame, sc: Scope, bs: Blocks, g: nat) {
    && NestedCompile(o, bs)
    && (bs.program.Some? ==>
          && g < |f.env.children| && f.env.children[g] == ProgramEnvironment(o, bs.program.value)
          && Covers(f, sc, LiftedDepths(f.env.children[g].depths)))
    && (bs.inverse.Some? ==>
          var i := InverseGuid(bs, g).value;
          && i < |f.env.children| && f.env.children[i] == ProgramEnvironment(o, bs.inverse.value)
          && Covers(f, sc, LiftedDepths(f.env.children[i].depths)))
  }

  lemma {:induction false} CallOnBlocks(
    rt: Runtime, o: CompileOptions, f: Frame, sc: Scope, bs: Blocks, g: nat, call: Call, heard: seq<string>, budget: nat)
    requires HoldsBlocks(o, f, sc, bs, g) && !sc.intended && f.data == sc.data
    ensures RunCall(rt, f, ProgramGuid(bs, g), InverseGuid(bs, g), call, heard, budget)
      == Some(BlockCall(rt, o, sc, bs, call, heard, budget))
    decreases bs, 0, budget
  {
    match rt.act(call, heard)
    case Return(v) =>
    case Render(inverse, context, d) =>
      if budget > 0 {
        var block := if inverse then bs.inverse else bs.program;
        var guid := if inverse then InverseGuid(bs, g) else ProgramGuid(bs, g);
        var data := ChosenData(d, sc.data);
        var text := "";
        if block.Some? {
          ChildRuns(rt, o, f, sc, block.value, guid.value, context, data);
          text := RunChild(rt, f, guid.value, context, data).value;
        }
        CallOnBlocks(rt, o, f, sc, bs, g, call, heard + [text], budget - 1);
      }
  }

  /** The environment's children from number `g` on begin with `cs`. */
  ghost predicate Window(f: Frame, g: nat, cs: seq<Environment>) {
    g + |cs| <= |f.env.children| && f.env.children[g..g + |cs|] == cs
  }

  lemma BlocksAreHeld(o: CompileOptions, f: Frame, sc: Scope, bs: Blocks, g: nat)
    requires NestedCompile(o, bs)
    requires Window(f, g, BlockChildren(o, bs))
    requires Covers(f, sc, NestedDepths(BlockChildren(o, bs)))
    ensures HoldsBlocks(o, f, sc, bs, g)
  {
    var cs := BlockChildren(o, bs);
    forall i | 0 <= i < |cs| ensures f.env.children[g + i] == cs[i] && LiftedDepths(cs[i].depths) <= NestedDepths(cs) {
      assert f.env.children[g + i] == f.env.children[g..g + |cs|][i];
      DepthsOfChild(cs, i);
    }
    var a, b := NestedChildren(o, bs.program), NestedChildren(o, bs.inverse);
    assert cs == a + b;
    if bs.program.Some? { assert cs[0] == a[0]; }
    if bs.inverse.Some? {
      assert cs[|a|] == b[0];
      assert InverseGuid(bs, g).value == g + |a|;
    }
  }

  lemma {:induction false} DepthsOfChild(cs: seq<Environment>, i: nat)
    requires i < |cs|
    ensures LiftedDepths(cs[i].depths) <= NestedDepths(cs)
  {
    if i < |cs| - 1 { DepthsOfChild(cs[..|cs| - 1], i); }
  }

  // ---------- Statements ----------

  /** After a statement: some text appended, everything else as it was. */
  ghost predicate Wrote(st: State, r: State, text: string, last: nat) {
    r.(lastHelper := st.lastHelper) == st.(buffer := st.buffer + text, last := last)
  }

  lemma AppendRuns(rt: Runtime, f: Frame, escape: bool, st: State, s: State, v: Value, last: nat) returns (r: State)
    requires 0 in f.vars && Landed(st, s, v, last)
    ensures Run(rt, f, [if escape then AppendEscaped else Append], s) == Some(r)
    ensures Wrote(st, r, if escape then Escaped(rt, v) else Raw(rt, v), last)
  {
    RunOne(rt, f, if escape then AppendEscaped else Append, s);
    assert s.stack[..|st.stack|] == st.stack;
    r := s.(stack := st.stack, buffer := st.buffer + if escape then Escaped(rt, v) else Raw(rt, v));
  }

  lemma PartialRuns(rt: Runtime, f: Frame, sc: Scope, name: string, context: Option<Path>, st: State) returns (r: State)
    requires Covers(f, sc, if context.Some? then PathDepths(context.value) else {}) && st.last == sc.last
    ensures
      var ops := (if context.Some? then PathOps(context.value) else [PushDepth0]) + [InvokePartial(name), Append];
      var v := if context.Some? then PathValue(sc, context.value) else sc.At(0);
      && Run(rt, f, ops, st) == Some(r)
      && Wrote(st, r, Raw(rt, rt.partial(name, v, sc.data)), if context.Some? then context.value.depth else st.last)
  {
    var v := if context.Some? then PathValue(sc, context.value) else sc.At(0);
    var last := if context.Some? then context.value.depth else st.last;
    var push := if context.Some? then PathOps(context.value) else [PushDepth0];
    var s := st.Push(v).(last := last);
    var w := rt.partial(name, v, sc.data);
    var t := st.Push(w).(last := last);
    assert Run(rt, f, push, st) == Some(s) by {
      if context.Some? { PathRuns(rt, f, sc, context.value, st); } else { RunOne(rt, f, PushDepth0, st); }
    }
    RunAppend(rt, f, push, [InvokePartial(name), Append], st);
    assert Run(rt, f, [InvokePartial(name), Append], s) == Run(rt, f, [Append], t) by {
      assert [InvokePartial(name), Append][1..] == [Append];
      assert s.stack[..|st.stack|] == st.stack;
    }
    r := AppendRuns(rt, f, false, st, t, w, last);
  }

  lemma BlockOutcomeRuns(rt: Runtime, o: CompileOptions, f: Frame, sc: Scope, bs: Blocks, g: nat, out: Outcome)
    requires HoldsBlocks(o, f, sc, bs, g) && !sc.intended && f.data == sc.data
    ensures RunOutcome(rt, f, ProgramGuid(bs, g), InverseGuid(bs, g), out) == Some(BlockOutcome(rt, o, sc, bs, out))
    decreases bs, 1
  {
    if out.Invoke? { CallOnBlocks(rt, o, f, sc, bs, g, out.call, [], rt.bound(out.call)); }
  }

  /** The three pushes before `blockValue` and `ambiguousBlockValue`. */
  lemma TailOperands(rt: Runtime, f: Frame, prog: Option<nat>, inv: Option<nat>, rest: seq<Opcode>, s: State)
    requires 0 in f.vars
    ensures
      var pushed := s.(stack := s.stack + [ProgramItem(prog), ProgramItem(inv)] + [HashItem(map[])]);
      Run(rt, f, [PushProgram(prog), PushProgram(inv)] + [EmptyHash] + rest, s) == Run(rt, f, rest, pushed)
  {
    var progs := [PushProgram(prog), PushProgram(inv)];
    RunAppend(rt, f, progs + [EmptyHash], rest, s);
    RunAppend(rt, f, progs, [EmptyHash], s);
    ProgramsRun(rt, f, prog, inv, s);
    RunOne(rt, f, EmptyHash, s.(stack := s.stack + [ProgramItem(prog), ProgramItem(inv)]));
  }

  lemma BlockValueMeans(rt: Runtime, f: Frame, prog: Option<nat>, inv: Option<nat>, base: seq<Item>, v: Value, s: State)
    requires 0 in f.vars
    requires s.stack == base + [ValueItem(v)] + [ProgramItem(prog), ProgramItem(inv)] + [HashItem(map[])]
    ensures
      var call := Call(Registered("blockHelperMissing"), f.vars[0], [v], CallOptions(map[], prog.Some? || inv.Some?, f.data));
      StepBlockValue(rt, f, s) == PushResult(s.(stack := base), RunOutcome(rt, f, prog, inv, Invoke(call)))
    ensures s.lastHelper in rt.helpers ==> StepAmbiguousBlock(rt, f, s) == Some(s.(stack := base).Push(v))
  {
    assert Pushed([v]) == [ValueItem(v)] by { assert [v][1..] == []; }
    PopThree(s, base, [v], prog, inv, map[]);
    var operands := Operands(map[], prog, inv, [v], s.(stack := base));
    assert PopOperands(s, 1) == Some(operands);
    assert OptionsOf(f, operands) == CallOptions(map[], prog.Some? || inv.Some?, f.data);
  }

  lemma TailStep(rt: Runtime, f: Frame, prog: Option<nat>, inv: Option<nat>, ambiguous: bool, base: seq<Item>, v: Value, w: Value, s: State)
    requires 0 in f.vars
    requires s.stack == base + [ValueItem(v)] + [ProgramItem(prog), ProgramItem(inv)] + [HashItem(map[])]
    requires
      var call := Call(Registered("blockHelperMissing"), f.vars[0], [v], CallOptions(map[], prog.Some? || inv.Some?, f.data));
      RunOutcome(rt, f, prog, inv, Invoke(call)) == Some(w)
    ensures Step(rt, f, if ambiguous then AmbiguousBlockValue else BlockValue, s)
      == Some(s.(stack := base).Push(if ambiguous && s.lastHelper in rt.helpers then v else w))
  {
    BlockValueMeans(rt, f, prog, inv, base, v, s);
    var ready := s.(stack := base);
    if ambiguous && s.lastHelper in rt.helpers {
      assert Step(rt, f, AmbiguousBlockValue, s) == StepAmbiguousBlock(rt, f, s) == Some(ready.Push(v));
    } else {
      TailStepMissing(rt, f, ambiguous, s, ready.Push(w));
    }
  }

  lemma TailStepMissing(rt: Runtime, f: Frame, ambiguous: bool, s: State, r: State)
    requires 0 in f.vars && StepBlockValue(rt, f, s) == Some(r) && !(ambiguous && s.lastHelper in rt.helpers)
    ensures Step(rt, f, if ambiguous then AmbiguousBlockValue else BlockValue, s) == Some(r)
  {
  }

  /** `blockValue` and `ambiguousBlockValue`, from the value on the stack to the text in the buffer. */
  lemma TailRuns(
    rt: Runtime, o: CompileOptions, f: Frame, sc: Scope, bs: Blocks, g: nat, ambiguous: bool, st: State, s: State, v: Value, last: nat)
    returns (r: State)
    requires HoldsBlocks(o, f, sc, bs, g) && !sc.intended && Covers(f, sc, {}) && Landed(st, s, v, last)
    ensures
      var op := if ambiguous then AmbiguousBlockValue else BlockValue;
      var ops := [PushProgram(ProgramGuid(bs, g)), PushProgram(InverseGuid(bs, g))] + [EmptyHash] + [op, Append];
      var w := if ambiguous && s.lastHelper in rt.helpers then v else BlockOutcome(rt, o, sc, bs, Invoke(MissingBlockCall(sc, bs, v)));
      Run(rt, f, ops, s) == Some(r) && Wrote(st, r, Raw(rt, w), last)
    decreases bs, 2
  {
    var prog, inv := ProgramGuid(bs, g), InverseGuid(bs, g);
    var op := if ambiguous then AmbiguousBlockValue else BlockValue;
    var call := Invoke(MissingBlockCall(sc, bs, v));
    var w := if ambiguous && s.lastHelper in rt.helpers then v else BlockOutcome(rt, o, sc, bs, call);
    assert RunOutcome(rt, f, prog, inv, call) == Some(BlockOutcome(rt, o, sc, bs, call)) by {
      BlockOutcomeRuns(rt, o, f, sc, bs, g, call);
    }
    var s1 := s.(stack := s.stack + [ProgramItem(prog), ProgramItem(inv)] + [HashItem(map[])]);
    var s2 := s.(stack := st.stack).Push(w);
    assert Run(rt, f, [PushProgram(prog), PushProgram(inv)] + [EmptyHash] + [op, Append], s) == Run(rt, f, [op, Append], s1) by {
      TailOperands(rt, f, prog, inv, [op, Append], s);
    }
    assert Step(rt, f, op, s1) == Some(s2) by {
      TailStep(rt, f, prog, inv, ambiguous, st.stack, v, BlockOutcome(rt, o, sc, bs, call), s1);
      assert s1.(stack := st.stack) == s.(stack := st.stack);
    }
    assert Run(rt, f, [op, Append], s1) == Run(rt, f, [Append], s2) by { assert [op, Append][1..] == [Append]; }
    r := AppendRuns(rt, f, false, st, s2, w, last);
  }

  /** A block from the value of its expression on. */
  lemma BlockTailRuns(
    rt: Runtime, o: CompileOptions, f: Frame, sc: Scope, sx: Sexpr, bs: Blocks, g: nat, st: State, s: State, v: Value, last: nat)
    returns (r: State)
    requires HoldsBlocks(o, f, sc, bs, g) && !sc.intended && Covers(f, sc, {}) && Landed(st, s, v, last)
    requires v == BlockOutcome(rt, o, sc, bs, SexprOutcome(rt, o, sc, sx, bs.Any()))
    requires Classify(o, sx).AmbiguousType? ==> s.lastHelper == HelperName(sx.head)
    ensures Run(rt, f, BlockTailOps(o, sx, ProgramGuid(bs, g), InverseGuid(bs, g)), s) == Some(r)
    ensures Wrote(st, r, Raw(rt, BlockValueOf(rt, o, sc, sx, bs)), last)
    decreases bs, 3
  {
    var prog, inv := ProgramGuid(bs, g), InverseGuid(bs, g);
    match Classify(o, sx)
    case HelperType => r := AppendRuns(rt, f, false, st, s, v, last);
    case SimpleType =>
      assert BlockTailOps(o, sx, prog, inv) == [PushProgram(prog), PushProgram(inv)] + [EmptyHash] + [BlockValue, Append];
      r := TailRuns(rt, o, f, sc, bs, g, false, st, s, v, last);
    case AmbiguousType =>
      assert BlockTailOps(o, sx, prog, inv) == [PushProgram(prog), PushProgram(inv)] + [EmptyHash] + [AmbiguousBlockValue, Append];
      r := TailRuns(rt, o, f, sc, bs, g, true, st, s, v, last);
  }

  lemma BlockRuns(rt: Runtime, o: CompileOptions, f: Frame, sc: Scope, sx: Sexpr, bs: Blocks, g: nat, st: State) returns (r: State)
    requires SexprCompiles(o, sx) && HoldsBlocks(o, f, sc, bs, g)
    requires Covers(f, sc, SexprDepths(o, sx)) && st.last == sc.last && !sc.intended && HashesNest(st)
    ensures
      var prog, inv := ProgramGuid(bs, g), InverseGuid(bs, g);
      && Run(rt, f, SexprOps(o, sx, prog, inv) + BlockTailOps(o, sx, prog, inv), st) == Some(r)
      && Wrote(st, r, Raw(rt, BlockValueOf(rt, o, sc, sx, bs)), SexprLast(o, sx, st.last))
    decreases bs, 4
  {
    var prog, inv := ProgramGuid(bs, g), InverseGuid(bs, g);
    var last := SexprLast(o, sx, st.last);
    var out := SexprOutcome(rt, o, sc, sx, bs.Any());
    RunAppend(rt, f, SexprOps(o, sx, prog, inv), BlockTailOps(o, sx, prog, inv), st);
    var s := SexprRuns(rt, o, f, sc, sx, prog, inv, st);
    BlockOutcomeRuns(rt, o, f, sc, bs, g, out);
    r := BlockTailRuns(rt, o, f, sc, sx, bs, g, st, s, BlockOutcome(rt, o, sc, bs, out), last);
  }

  lemma StatementRuns(rt: Runtime, o: CompileOptions, f: Frame, sc: Scope, s: Statement, g: nat, st: State) returns (r: State)
    requires StatementCompiles(o, s)
    requires Window(f, g, StatementCode(o, s, g).children)
    requires Covers(f, sc, StatementCode(o, s, g).depths) && st.last == sc.last && !sc.intended && HashesNest(st)
    ensures Run(rt, f, StatementCode(o, s, g).ops, st) == Some(r)
    ensures Wrote(st, r, StatementText(rt, o, sc, s), StatementLast(o, s, st.last))
    decreases s
  {
    match s
    case Content(t) =>
      RunOne(rt, f, AppendContent(t), st);
      r := st.(buffer := st.buffer + t);
    case Comment =>
      r := st;
      assert st.buffer + "" == st.buffer;
    case Mustache(sx, escaped) =>
      var escape := escaped && !o.noEscape;
      var out := SexprOutcome(rt, o, sc, sx, false);
      var t := SexprRuns(rt, o, f, sc, sx, None, None, st);
      if out.Invoke? { CallWithoutBlocks(rt, f, out.call, [], rt.bound(out.call)); }
      RunAppend(rt, f, SexprOps(o, sx, None, None), [if escape then AppendEscaped else Append], st);
      r := AppendRuns(rt, f, escape, st, t, PlainOutcome(rt, out), SexprLast(o, sx, st.last));
    case Partial(name, context) =>
      r := PartialRuns(rt, f, sc, name, context, st);
      if context.None? { assert [PushDepth0] + [InvokePartial(name), Append] == [PushDepth0, InvokePartial(name), Append]; }
    case Block(sx, bs) =>
      BlocksAreHeld(o, f, sc, bs, g);
      r := BlockRuns(rt, o, f, sc, sx, bs, g, st);
  }

  lemma SplitWindow(f: Frame, g: nat, a: seq<Environment>, b: seq<Environment>)
    requires Window(f, g, a + b)
    ensures Window(f, g, a) && Window(f, g + |a|, b)
  {
    var w := f.env.children[g..g + |a + b|];
    assert f.env.children[g..g + |a|] == w[..|a|];
    assert f.env.children[g + |a|..g + |a| + |b|] == w[|a|..];
  }

  lemma CoversPart(f: Frame, sc: Scope, ds: set<nat>, part: set<nat>, last: nat)
    requires Covers(f, sc, ds) && part <= ds && last in f.vars
    ensures Covers(f, sc.(last := last), part)
  {
  }

  lemma NextStatement(o: CompileOptions, f: Frame, sc: Scope, s: Statement, g: nat)
    requires StatementCompiles(o, s) && Covers(f, sc, StatementCode(o, s, g).depths)
    ensures StatementLast(o, s, sc.last) in f.vars
  {
    StatementLastIn(o, s, g, sc.last, f.vars.Keys);
  }

  lemma WriteTwice(
    rt: Runtime, f: Frame, a: seq<Opcode>, b: seq<Opcode>, st: State, t: State, r: State, x: string, y: string, la: nat, lb: nat)
    requires Run(rt, f, a, st) == Some(t) && Wrote(st, t, x, la)
    requires Run(rt, f, b, t) == Some(r) && Wrote(t, r, y, lb)
    ensures Run(rt, f, a + b, st) == Some(r) && Wrote(st, r, x + y, lb)
  {
    RunAppend(rt, f, a, b, st);
    assert st.buffer + x + y == st.buffer + (x + y);
  }

  lemma {:induction false} StatementsRun(rt: Runtime, o: CompileOptions, f: Frame, sc: Scope, ss: seq<Statement>, g: nat, st: State)
    returns (r: State, last: nat)
    requires StatementsCompile(o, ss) && Window(f, g, StatementsCode(o, ss, g).children)
    requires Covers(f, sc, StatementsCode(o, ss, g).depths) && st.last == sc.last && !sc.intended && HashesNest(st)
    ensures Run(rt, f, StatementsCode(o, ss, g).ops, st) == Some(r)
    ensures Wrote(st, r, Rendered(rt, o, sc, ss), last)
    decreases ss, 2
  {
    if ss == [] {
      r, last := st, st.last;
      assert st.buffer + "" == st.buffer;
    } else {
      var c := StatementCode(o, ss[0], g);
      var d := StatementsCode(o, ss[1..], g + |c.children|);
      assert StatementsCode(o, ss, g) == Join(c, d);
      assert [ss[0]] + ss[1..] == ss;
      r, last := FirstAndRestRun(rt, o, f, sc, ss[0], ss[1..], g, g + |c.children|, st, c, d, sc.(last := StatementLast(o, ss[0], sc.last)));
    }
  }

  /** What the parts of a stretch of code rely on. */
  lemma PartsAreHeld(f: Frame, sc: Scope, sc': Scope, c: Code, d: Code, g: nat)
    requires Window(f, g, c.children + d.children) && Covers(f, sc, c.depths + d.depths)
    requires sc' == sc.(last := sc'.last) && sc'.last in f.vars
    ensures Window(f, g, c.children) && Window(f, g + |c.children|, d.children)
    ensures Covers(f, sc, c.depths) && Covers(f, sc', d.depths)
  {
    SplitWindow(f, g, c.children, d.children);
    CoversPart(f, sc, c.depths + d.depths, c.depths, sc.last);
    CoversPart(f, sc, c.depths + d.depths, d.depths, sc'.last);
  }

  lemma WroteAndReady(st: State, t: State, text: string, last: nat)
    requires Wrote(st, t, text, last) && HashesNest(st)
    ensures HashesNest(t) && t.last == last
  {
  }

  lemma FirstAndRestHeld(o: CompileOptions, f: Frame, sc: Scope, s: Statement, g: nat, c: Code, d: Code, sc': Scope)
    requires StatementCompiles(o, s) && c == StatementCode(o, s, g)
    requires Window(f, g, c.children + d.children) && Covers(f, sc, c.depths + d.depths)
    requires sc' == sc.(last := StatementLast(o, s, sc.last))
    ensures Window(f, g, c.children) && Window(f, g + |c.children|, d.children)
    ensures Covers(f, sc, c.depths) && Covers(f, sc', d.depths)
  {
    CoversPart(f, sc, c.depths + d.depths, c.depths, sc.last);
    NextStatement(o, f, sc, s, g);
    PartsAreHeld(f, sc, sc', c, d, g);
  }

  /** One statement and then the rest of them, whose children begin at `g'`. */
  lemma FirstAndRestRun(
    rt: Runtime, o: CompileOptions, f: Frame, sc: Scope, s: Statement, rest: seq<Statement>, g: nat, g': nat, st: State, c: Code, d: Code, sc': Scope)
    returns (r: State, last: nat)
    requires StatementCompiles(o, s) && StatementsCompile(o, rest)
    requires c == StatementCode(o, s, g) && d == StatementsCode(o, rest, g') && g' == g + |c.children|
    requires Window(f, g, c.children + d.children) && Covers(f, sc, c.depths + d.depths)
    requires sc' == sc.(last := StatementLast(o, s, sc.last))
    requires st.last == sc.last && !sc.intended && HashesNest(st)
    ensures Run(rt, f, c.ops + d.ops, st) == Some(r)
    ensures Wrote(st, r, StatementText(rt, o, sc, s) + Rendered(rt, o, sc', rest), last)
    decreases [s] + rest, 0
  {
    assert ([s] + rest)[0] == s && ([s] + rest)[1..] == rest;
    FirstAndRestHeld(o, f, sc, s, g, c, d, sc');
    var x := StatementText(rt, o, sc, s);
    var t := StatementRuns(rt, o, f, sc, s, g, st);
    WroteAndReady(st, t, x, sc'.last);
    r, last := StatementsRun(rt, o, f, sc', rest, g', t);
    WriteTwice(rt, f, c.ops, d.ops, st, t, r, x, Rendered(rt, o, sc', rest), sc'.last, last);
  }

  lemma StatementLastIn(o: CompileOptions, s: Statement, g: nat, last: nat, ds: set<nat>)
    requires StatementCompiles(o, s)
    requires {0, last} + StatementCode(o, s, g).depths <= ds
    ensures StatementLast(o, s, last) in ds
  {
    match s
    case Mustache(sx, _) => SexprLastIn(o, sx, last, ds);
    case Block(sx, _) => SexprLastIn(o, sx, last, ds);
    case _ =>
  }

  // ---------- The main results ----------

  /**
   Compiling and running a template renders exactly what its tree denotes, on every context, private
   data and runtime, and the machine never gets stuck.  The fallback of an unregistered helper is
   looked up in the context that was opened last.
   */
  lemma CompilationPreservesMeaning(rt: Runtime, o: CompileOptions, p: Program, context: Value, data: Value)
    requires StatementsCompile(o, p.statements)
    ensures RunTemplate(rt, ProgramEnvironment(o, p), context, data)
      == Some(Rendered(rt, o, Scope([context], data, 0, false), p.statements))
  {
    var env := ProgramEnvironment(o, p);
    var n := |env.depths|;
    BindUndefined(env.depths, seq(n, _ => Undefined));
    ProgramRuns(rt, o, Frame(env, Bind(env.depths, seq(n, _ => Undefined))[0 := context], data), Scope([context], data, 0, false), p);
  }

  lemma {:induction false} BindUndefined(names: seq<nat>, args: seq<Value>)
    requires |names| == |args| && forall i :: 0 <= i < |args| ==> args[i] == Undefined
    ensures Bind(names, args).Keys == Elements(names)
    ensures forall d :: d in Bind(names, args) ==> Bind(names, args)[d] == Undefined
    decreases |names|
  {
    if names != [] { BindUndefined(names[..|names| - 1], args[..|names| - 1]); }
  }
}

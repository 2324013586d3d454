/**
 Sharing of nested programs: `Compiler.equals`, `matchExistingProgram` and `compileChildren`.
 Two programs with the same code take the same depth parameters and run alike, so one function
 may serve both; and the table ends up with every program once.
 */
module HandlebarsSharing {
  import opened Options
  import opened HandlebarsAst
  import opened HandlebarsCompiler
  import opened HandlebarsSemantics
  import opened HandlebarsMachine
  import HandlebarsStack
  import HandlebarsEmission

  /** Equal opcodes, and children with the same code pairwise; depths are not compared. */
  ghost predicate SameCode(a: Environment, b: Environment) {
    && a.opcodes == b.opcodes
    && |a.children| == |b.children|
    && forall i :: 0 <= i < |a.children| ==> SameCode(a.children[i], b.children[i])
  }

  method Equals(a: Environment, b: Environment) returns (same: bool)
    ensures same <==> SameCode(a, b)
    decreases a
  {
    if |a.opcodes| != |b.opcodes| { return false; }
    var i := 0;
    while i < |a.opcodes|
      invariant 0 <= i <= |a.opcodes| && a.opcodes[..i] == b.opcodes[..i]
    {
      if a.opcodes[i] != b.opcodes[i] { return false; }
      i := i + 1;
    }
    assert a.opcodes == a.opcodes[..i] && b.opcodes == b.opcodes[..i];
    if |a.children| != |b.children| { return false; }
    i := 0;
    while i < |a.children|
      invariant 0 <= i <= |a.children|
      invariant forall j :: 0 <= j < i ==> SameCode(a.children[j], b.children[j])
    {
      same := Equals(a.children[i], b.children[i]);
      if !same { return; }
      i := i + 1;
    }
    same := true;
  }

  lemma {:induction false} SameCodeReflexive(a: Environment)
    ensures SameCode(a, a)
  {
    forall i | 0 <= i < |a.children| ensures SameCode(a.children[i], a.children[i]) { SameCodeReflexive(a.children[i]); }
  }

  lemma {:induction false} SameCodeSymmetric(a: Environment, b: Environment)
    requires SameCode(a, b)
    ensures SameCode(b, a)
  {
    forall i | 0 <= i < |a.children| ensures SameCode(b.children[i], a.children[i]) { SameCodeSymmetric(a.children[i], b.children[i]); }
  }

  lemma {:induction false} SameCodeTransitive(a: Environment, b: Environment, c: Environment)
    requires SameCode(a, b) && SameCode(b, c)
    ensures SameCode(a, c)
  {
    forall i | 0 <= i < |a.children| ensures SameCode(a.children[i], c.children[i]) {
      SameCodeTransitive(a.children[i], b.children[i], c.children[i]);
    }
  }

  // ---------- The depth list follows from the code ----------

  function OpcodeDepths(ops: seq<Opcode>): set<nat> {
    if ops == [] then {} else (if ops[0].GetContext? && ops[0].depth > 0 then {ops[0].depth} else {}) + OpcodeDepths(ops[1..])
  }

  lemma {:induction false} OpcodeDepthsConcat(a: seq<Opcode>, b: seq<Opcode>)
    ensures OpcodeDepths(a + b) == OpcodeDepths(a) + OpcodeDepths(b)
  {
    if a == [] {
      assert a + b == b;
    } else {
      assert (a + b)[1..] == a[1..] + b;
      OpcodeDepthsConcat(a[1..], b);
    }
  }

  /** Depth lists as the first pass leaves them, all the way down. */
  ghost predicate DepthsFollow(env: Environment) {
    && env.depths == Ascending(OpcodeDepths(env.opcodes) + NestedDepths(env.children))
    && forall i :: 0 <= i < |env.children| ==> DepthsFollow(env.children[i])
  }

  ghost predicate AllFollow(cs: seq<Environment>) {
    forall i :: 0 <= i < |cs| ==> DepthsFollow(cs[i])
  }

  /** What the depth list of a stretch of code is made from. */
  ghost predicate CodeFollows(c: Code) {
    c.depths == OpcodeDepths(c.ops) + NestedDepths(c.children) && AllFollow(c.children)
  }

  lemma JoinFollows(whole: Code, c: Code, d: Code)
    requires whole == Join(c, d) && CodeFollows(c) && CodeFollows(d)
    ensures CodeFollows(whole)
  {
    OpcodeDepthsConcat(c.ops, d.ops);
    NestedDepthsConcat(c.children, d.children);
  }

  lemma {:induction false} LookupDepths(parts: seq<string>)
    ensures OpcodeDepths(LookupOps(parts)) == {}
  {
    if parts != [] {
      assert LookupOps(parts)[1..] == LookupOps(parts[1..]);
      LookupDepths(parts[1..]);
    }
  }

  lemma OneOpcode(op: Opcode)
    ensures OpcodeDepths([op]) == if op.GetContext? && op.depth > 0 then {op.depth} else {}
  {
    assert [op][1..] == [];
  }

  lemma ProgramsDepths(prog: Option<nat>, inv: Option<nat>)
    ensures OpcodeDepths([PushProgram(prog), PushProgram(inv)]) == {}
  {
    assert [PushProgram(prog), PushProgram(inv)][1..] == [PushProgram(inv)];
    OneOpcode(PushProgram(inv));
  }

  lemma PathOpcodeDepths(p: Path)
    ensures OpcodeDepths(PathOps(p)) == PathDepths(p)
  {
    var get := if p.IsContext() then PushContext else LookupOnContext(p.parts[0]);
    assert [GetContext(p.depth), get] == [GetContext(p.depth)] + [get];
    OneOpcode(GetContext(p.depth));
    OneOpcode(get);
    OpcodeDepthsConcat([GetContext(p.depth)], [get]);
    LookupDepths(p.Rest());
    OpcodeDepthsConcat([GetContext(p.depth), get], LookupOps(p.Rest()));
  }

  lemma HeadOpcodeDepths(h: Head)
    ensures OpcodeDepths(HeadOps(h)) == HeadDepths(h)
  {
    match h
    case IdHead(p) => PathOpcodeDepths(p);
    case DataHead(p) =>
      OneOpcode(LookupData);
      LookupDepths(p.parts);
      OpcodeDepthsConcat([LookupData], LookupOps(p.parts));
  }

  lemma {:induction false} SexprOpcodeDepths(o: CompileOptions, sx: Sexpr, prog: Option<nat>, inv: Option<nat>)
    requires SexprCompiles(o, sx)
    ensures OpcodeDepths(SexprOps(o, sx, prog, inv)) == SexprDepths(o, sx)
    decreases sx, 2
  {
    match Classify(o, sx)
    case SimpleType =>
      HeadOpcodeDepths(sx.head);
      OneOpcode(ResolvePossibleLambda);
      OpcodeDepthsConcat(HeadOps(sx.head), [ResolvePossibleLambda]);
    case AmbiguousType =>
      var name := sx.head.path.parts[0];
      var get, progs, invoke := GetContext(0), [PushProgram(prog), PushProgram(inv)], InvokeAmbiguous(name, prog.Some? || inv.Some?);
      assert SexprOps(o, sx, prog, inv) == [get] + progs + [invoke];
      ProgramsDepths(prog, inv);
      OneOpcode(get);
      OneOpcode(invoke);
      OpcodeDepthsConcat([get], progs);
      OpcodeDepthsConcat([get] + progs, [invoke]);
    case HelperType =>
      OperandsOpcodeDepths(o, sx, prog, inv);
      OneOpcode(CallOp(o, sx));
      OpcodeDepthsConcat(OperandsOps(o, sx, prog, inv), [CallOp(o, sx)]);
  }

  lemma OperandsOpcodeDepths(o: CompileOptions, sx: Sexpr, prog: Option<nat>, inv: Option<nat>)
    requires ParamsCompile(o, sx.params) && (sx.hash.HashNode? ==> PairsCompile(o, sx.hash.pairs))
    ensures OpcodeDepths(OperandsOps(o, sx, prog, inv))
      == ParamsDepths(o, sx.params) + if sx.hash.HashNode? then PairsDepths(o, sx.hash.pairs) else {}
    decreases sx, 1
  {
    var progs := [PushProgram(prog), PushProgram(inv)];
    ParamsOpcodeDepths(o, sx.params);
    ProgramsDepths(prog, inv);
    HashOpcodeDepths(o, sx);
    OpcodeDepthsConcat(ParamsOps(o, sx.params), progs);
    OpcodeDepthsConcat(ParamsOps(o, sx.params) + progs, HashOps(o, sx.hash));
  }

  lemma {:induction false} HashOpcodeDepths(o: CompileOptions, sx: Sexpr)
    requires sx.hash.HashNode? ==> PairsCompile(o, sx.hash.pairs)
    ensures OpcodeDepths(HashOps(o, sx.hash)) == if sx.hash.HashNode? then PairsDepths(o, sx.hash.pairs) else {}
    decreases sx, 0
  {
    OneOpcode(EmptyHash);
    if sx.hash.HashNode? {
      PairsOpcodeDepths(o, sx.hash.pairs);
      OneOpcode(PushHash);
      OneOpcode(PopHash);
      OpcodeDepthsConcat([PushHash], PairsOps(o, sx.hash.pairs));
      OpcodeDepthsConcat([PushHash] + PairsOps(o, sx.hash.pairs), [PopHash]);
    }
  }

  lemma {:induction false} ParamOpcodeDepths(o: CompileOptions, p: Param)
    requires ParamCompiles(o, p)
    ensures OpcodeDepths(ParamOps(o, p)) == ParamDepths(o, p)
    decreases p
  {
    match p
    case SubExpression(sx) => SexprOpcodeDepths(o, sx, None, None);
    case IdParam(path) => PathOpcodeDepths(path);
    case DataParam(path) => HeadOpcodeDepths(DataHead(path));
    case StringParam(t) => OneOpcode(PushString(t));
    case LiteralParam(l) => OneOpcode(PushLiteral(l));
  }

  lemma {:induction false} ParamsOpcodeDepths(o: CompileOptions, ps: seq<Param>)
    requires ParamsCompile(o, ps)
    ensures OpcodeDepths(ParamsOps(o, ps)) == ParamsDepths(o, ps)
    decreases ps
  {
    if ps != [] {
      ParamsOpcodeDepths(o, ps[1..]);
      ParamOpcodeDepths(o, ps[0]);
      OpcodeDepthsConcat(ParamsOps(o, ps[1..]), ParamOps(o, ps[0]));
    }
  }

  lemma {:induction false} PairsOpcodeDepths(o: CompileOptions, ps: seq<Pair>)
    requires PairsCompile(o, ps)
    ensures OpcodeDepths(PairsOps(o, ps)) == PairsDepths(o, ps)
    decreases ps
  {
    if ps != [] {
      var ops, assign := ParamOps(o, ps[0].value), [AssignToHash(ps[0].key)];
      ParamOpcodeDepths(o, ps[0].value);
      PairsOpcodeDepths(o, ps[1..]);
      OneOpcode(assign[0]);
      OpcodeDepthsConcat(ops, assign);
      OpcodeDepthsConcat(ops + assign, PairsOps(o, ps[1..]));
    }
  }

  lemma TailOpcodeDepths(o: CompileOptions, sx: Sexpr, prog: Option<nat>, inv: Option<nat>)
    ensures OpcodeDepths(BlockTailOps(o, sx, prog, inv)) == {}
  {
    var op := if Classify(o, sx).SimpleType? then BlockValue else AmbiguousBlockValue;
    var progs := [PushProgram(prog), PushProgram(inv)];
    assert [PushProgram(prog), PushProgram(inv), EmptyHash, op, Append] == progs + [EmptyHash] + [op] + [Append];
    ProgramsDepths(prog, inv);
    OneOpcode(EmptyHash);
    OneOpcode(op);
    OneOpcode(Append);
    OpcodeDepthsConcat(progs, [EmptyHash]);
    OpcodeDepthsConcat(progs + [EmptyHash], [op]);
    OpcodeDepthsConcat(progs + [EmptyHash] + [op], [Append]);
  }

  lemma {:induction false} StatementOpcodeDepths(o: CompileOptions, s: Statement, g: nat)
    requires StatementCompiles(o, s)
    ensures CodeFollows(StatementCode(o, s, g))
    decreases s
  {
    match s
    case Content(t) => OneOpcode(AppendContent(t));
    case Comment =>
    case Mustache(sx, escaped) =>
      var last := if escaped && !o.noEscape then AppendEscaped else Append;
      SexprOpcodeDepths(o, sx, None, None);
      OneOpcode(last);
      OpcodeDepthsConcat(SexprOps(o, sx, None, None), [last]);
    case Partial(name, context) => PartialOpcodeDepths(name, context);
    case Block(sx, bs) =>
      var prog, inv := ProgramGuid(bs, g), InverseGuid(bs, g);
      SexprOpcodeDepths(o, sx, prog, inv);
      TailOpcodeDepths(o, sx, prog, inv);
      OpcodeDepthsConcat(SexprOps(o, sx, prog, inv), BlockTailOps(o, sx, prog, inv));
      BlockChildrenFollow(o, bs);
  }

  lemma PartialOpcodeDepths(name: string, context: Option<Path>)
    ensures OpcodeDepths((if context.Some? then PathOps(context.value) else []) + [InvokePartial(name), Append])
      == if context.Some? then PathDepths(context.value) else {}
    ensures OpcodeDepths([PushDepth0, InvokePartial(name), Append]) == {}
  {
    var tail := [InvokePartial(name), Append];
    assert tail == [InvokePartial(name)] + [Append];
    OneOpcode(InvokePartial(name));
    OneOpcode(Append);
    OpcodeDepthsConcat([InvokePartial(name)], [Append]);
    if context.Some? { PathOpcodeDepths(context.value); }
    OpcodeDepthsConcat(if context.Some? then PathOps(context.value) else [], tail);
    assert [PushDepth0, InvokePartial(name), Append] == [PushDepth0] + tail;
    OneOpcode(PushDepth0);
    OpcodeDepthsConcat([PushDepth0], tail);
  }

  lemma BlockChildrenFollow(o: CompileOptions, bs: Blocks)
    requires NestedCompile(o, bs)
    ensures AllFollow(BlockChildren(o, bs))
    decreases bs, 2
  {
    if bs.program.Some? { ProgramDepthsFollow(o, bs.program.value); }
    if bs.inverse.Some? { ProgramDepthsFollow(o, bs.inverse.value); }
    var a, b := NestedChildren(o, bs.program), NestedChildren(o, bs.inverse);
    forall i | 0 <= i < |a + b| ensures DepthsFollow((a + b)[i]) {
      if i < |a| { assert (a + b)[i] == a[i]; } else { assert (a + b)[i] == b[i - |a|]; }
    }
  }

  lemma {:induction false} StatementsOpcodeDepths(o: CompileOptions, ss: seq<Statement>, g: nat)
    requires StatementsCompile(o, ss)
    ensures CodeFollows(StatementsCode(o, ss, g))
    decreases ss
  {
    if ss != [] {
      var c := StatementCode(o, ss[0], g);
      var d := StatementsCode(o, ss[1..], g + |c.children|);
      StatementOpcodeDepths(o, ss[0], g);
      StatementsOpcodeDepths(o, ss[1..], g + |c.children|);
      JoinFollows(StatementsCode(o, ss, g), c, d);
    }
  }

  /** The first pass computes each program's depth list from its own code and its children's lists. */
  lemma ProgramDepthsFollow(o: CompileOptions, p: Program)
    requires StatementsCompile(o, p.statements)
    ensures DepthsFollow(ProgramEnvironment(o, p))
    decreases p
  {
    StatementsOpcodeDepths(o, p.statements, 0);
  }

  /** Programs with the same code declare the same depth parameters in the same order. */
  lemma {:induction false} SameCodeSameDepths(a: Environment, b: Environment)
    requires SameCode(a, b) && DepthsFollow(a) && DepthsFollow(b)
    ensures a.depths == b.depths
    decreases a, 1
  {
    SameNestedDepths(a, b, |a.children|);
    assert a.children == a.children[..|a.children|] && b.children == b.children[..|b.children|];
  }

  lemma {:induction false} SameNestedDepths(a: Environment, b: Environment, n: nat)
    requires n <= |a.children| && SameCode(a, b) && DepthsFollow(a) && DepthsFollow(b)
    ensures NestedDepths(a.children[..n]) == NestedDepths(b.children[..n])
    decreases a, 0, n
  {
    if n > 0 {
      assert a.children[..n][..n - 1] == a.children[..n - 1] && b.children[..n][..n - 1] == b.children[..n - 1];
      SameNestedDepths(a, b, n - 1);
      SameCodeSameDepths(a.children[n - 1], b.children[n - 1]);
    }
  }

  // ---------- Sharing does not change what runs ----------

  /** A shared function renders what the program's own function would. */
  lemma SharedProgramsRunAlike(rt: Runtime, a: Environment, b: Environment, vars: map<nat, Value>, data: Value)
    requires SameCode(a, b) && DepthsFollow(a) && DepthsFollow(b)
    ensures RunProgram(rt, Frame(a, vars, data)) == RunProgram(rt, Frame(b, vars, data))
    decreases a, 6
  {
    RunAlike(rt, Frame(a, vars, data), Frame(b, vars, data), a.opcodes, Initial);
  }

  ghost predicate AlikeFrames(f: Frame, g: Frame) {
    && SameCode(f.env, g.env) && DepthsFollow(f.env) && DepthsFollow(g.env)
    && f.vars == g.vars && f.data == g.data
  }

  lemma {:induction false} RunAlike(rt: Runtime, f: Frame, g: Frame, ops: seq<Opcode>, st: State)
    requires AlikeFrames(f, g)
    ensures Run(rt, f, ops, st) == Run(rt, g, ops, st)
    decreases f.env, 5, |ops|
  {
    if ops != [] {
      StepAlike(rt, f, g, ops[0], st);
      var s := Step(rt, f, ops[0], st);
      if s.Some? { RunAlike(rt, f, g, ops[1..], s.value); }
    }
  }

  lemma StepAlike(rt: Runtime, f: Frame, g: Frame, op: Opcode, st: State)
    requires AlikeFrames(f, g)
    ensures Step(rt, f, op, st) == Step(rt, g, op, st)
    decreases f.env, 4
  {
    if 0 in f.vars {
      match op
      case InvokeKnownHelper(argc, name) => StepCallAlike(rt, f, g, argc, name, true, st);
      case InvokeHelper(argc, name, _) => StepCallAlike(rt, f, g, argc, name, false, st);
      case InvokeAmbiguous(name, _) => StepAmbiguousAlike(rt, f, g, name, st);
      case BlockValue => StepBlockValueAlike(rt, f, g, st);
      case AmbiguousBlockValue => StepBlockValueAlike(rt, f, g, st);
      case _ =>
    }
  }

  lemma StepCallAlike(rt: Runtime, f: Frame, g: Frame, argc: nat, name: string, known: bool, st: State)
    requires AlikeFrames(f, g) && 0 in f.vars
    ensures StepCall(rt, f, argc, name, known, st) == StepCall(rt, g, argc, name, known, st)
    decreases f.env, 3
  {
    var looksUp := !known && name !in rt.helpers;
    var popped := PopOperands(st, argc);
    if popped.Some? && (looksUp ==> st.last in f.vars) {
      var ops := popped.value;
      var call := HelperOrMissing(rt, name, known, f.vars[0], if looksUp then f.vars[st.last] else Undefined, ops.args, OptionsOf(f, ops));
      CallAlike(rt, f, g, ops.prog, ops.inv, call, [], rt.bound(call));
    }
  }

  lemma StepAmbiguousAlike(rt: Runtime, f: Frame, g: Frame, name: string, st: State)
    requires AlikeFrames(f, g) && 0 in f.vars
    ensures StepAmbiguous(rt, f, name, st) == StepAmbiguous(rt, g, name, st)
    decreases f.env, 3
  {
    var popped := PopOperands(st.(stack := st.stack + [HashItem(map[])]), 0);
    if popped.Some? && st.last in f.vars {
      var ops := popped.value;
      var callee := if name in rt.helpers then Registered(name) else Dynamic(MemberOfContext(f.vars[st.last], name));
      var call := Call(callee, f.vars[0], [], OptionsOf(f, ops));
      CallAlike(rt, f, g, ops.prog, ops.inv, call, [], rt.bound(call));
    }
  }

  lemma StepBlockValueAlike(rt: Runtime, f: Frame, g: Frame, st: State)
    requires AlikeFrames(f, g) && 0 in f.vars
    ensures StepBlockValue(rt, f, st) == StepBlockValue(rt, g, st)
    decreases f.env, 3
  {
    var popped := PopOperands(st, 1);
    if popped.Some? {
      var ops := popped.value;
      var call := Call(Registered("blockHelperMissing"), f.vars[0], ops.args, OptionsOf(f, ops));
      CallAlike(rt, f, g, ops.prog, ops.inv, call, [], rt.bound(call));
    }
  }

  lemma {:induction false} CallAlike(
    rt: Runtime, f: Frame, g: Frame, prog: Option<nat>, inv: Option<nat>, call: Call, heard: seq<string>, budget: nat)
    requires AlikeFrames(f, g)
    ensures RunCall(rt, f, prog, inv, call, heard, budget) == RunCall(rt, g, prog, inv, call, heard, budget)
    decreases f.env, 1, budget
  {
    match rt.act(call, heard)
    case Return(_) =>
    case Render(inverse, context, d) =>
      if budget > 0 {
        var guid := if inverse then inv else prog;
        var data := ChosenData(d, f.data);
        if guid.Some? { ChildAlike(rt, f, g, guid.value, context, data); }
        var text := if guid.Some? then RunChild(rt, f, guid.value, context, data) else Some("");
        if text.Some? { CallAlike(rt, f, g, prog, inv, call, heard + [text.value], budget - 1); }
      }
  }

  lemma ChildAlike(rt: Runtime, f: Frame, g: Frame, n: nat, context: Value, data: Value)
    requires AlikeFrames(f, g)
    ensures RunChild(rt, f, n, context, data) == RunChild(rt, g, n, context, data)
    decreases f.env, 0, 0
  {
    if n < |f.env.children| {
      var a, b := f.env.children[n], g.env.children[n];
      ChildrenAreAlike(f.env, g.env, n);
      assert a.depths == b.depths by { SameCodeSameDepths(a, b); }
      var args := DepthArguments(f.vars, a.depths);
      ChildResult(rt, f, n, context, data);
      ChildResult(rt, g, n, context, data);
      if args.Some? { SharedProgramsRunAlike(rt, a, b, Bind(a.depths, args.value)[0 := context], data); }
    }
  }

  lemma ChildResult(rt: Runtime, f: Frame, n: nat, context: Value, data: Value)
    requires n < |f.env.children|
    ensures
      var child := f.env.children[n];
      var args := DepthArguments(f.vars, child.depths);
      RunChild(rt, f, n, context, data) ==
        if args.None? then None else RunProgram(rt, Frame(child, Bind(child.depths, args.value)[0 := context], data))
  {
  }

  lemma ChildrenAreAlike(a: Environment, b: Environment, n: nat)
    requires SameCode(a, b) && DepthsFollow(a) && DepthsFollow(b) && n < |a.children|
    ensures |b.children| == |a.children| && SameCode(a.children[n], b.children[n])
    ensures DepthsFollow(a.children[n]) && DepthsFollow(b.children[n])
  {
  }

  // ---------- The table of emitted programs ----------

  function Size(env: Environment): nat {
    1 + Sizes(env.children)
  }

  function Sizes(cs: seq<Environment>): nat {
    if cs == [] then 0 else Size(cs[0]) + Sizes(cs[1..])
  }

  lemma {:induction false} SameCodeSameSize(a: Environment, b: Environment)
    requires SameCode(a, b)
    ensures Size(a) == Size(b)
    decreases a, 1
  {
    SameSizes(a.children, b.children);
  }

  lemma {:induction false} SameSizes(a: seq<Environment>, b: seq<Environment>)
    requires |a| == |b| && forall i :: 0 <= i < |a| ==> SameCode(a[i], b[i])
    ensures Sizes(a) == Sizes(b)
    decreases a, 0
  {
    if a != [] {
      SameCodeSameSize(a[0], b[0]);
      SameSizes(a[1..], b[1..]);
    }
  }

  lemma {:induction false} ChildIsSmaller(cs: seq<Environment>, i: nat)
    requires i < |cs|
    ensures Size(cs[i]) <= Sizes(cs)
  {
    if i > 0 { ChildIsSmaller(cs[1..], i - 1); }
  }

  // What the table holds, as a map from indices to programs.

  ghost predicate Contains(table: map<nat, Environment>, env: Environment) {
    exists k :: k in table && SameCode(table[k], env)
  }

  ghost predicate Resolved(table: map<nat, Environment>, cs: seq<Environment>) {
    forall i :: 0 <= i < |cs| ==> Contains(table, cs[i])
  }

  /** Each entry has at most one index. */
  ghost predicate EachOnce(table: map<nat, Environment>) {
    forall j, k :: j in table && k in table && SameCode(table[j], table[k]) ==> j == k
  }

  /** Every entry's children are entries. */
  ghost predicate Closed(table: map<nat, Environment>) {
    forall k :: k in table ==> Resolved(table, table[k].children)
  }

  ghost predicate Indexed(table: map<nat, Environment>, indices: seq<nat>, cs: seq<Environment>) {
    |indices| == |cs| && forall i :: 0 <= i < |cs| ==> indices[i] in table && SameCode(table[indices[i]], cs[i])
  }

  /** Earlier entries are kept; new ones have indices above `start` and at most `bound` in size. */
  ghost predicate Grown(before: map<nat, Environment>, after: map<nat, Environment>, start: nat, bound: nat) {
    && (forall k :: k in before ==> k in after && after[k] == before[k])
    && (forall k :: k in after && k !in before ==> k > start && Size(after[k]) <= bound)
  }

  lemma IndexedMore(before: map<nat, Environment>, after: map<nat, Environment>, indices: seq<nat>, cs: seq<Environment>, index: nat, c: Environment)
    requires Indexed(before, indices, cs) && forall k :: k in before ==> k in after && after[k] == before[k]
    requires index in after && SameCode(after[index], c)
    ensures Indexed(after, indices + [index], cs + [c])
  {
  }

  lemma GrownTwice(a: map<nat, Environment>, b: map<nat, Environment>, c: map<nat, Environment>, start: nat, start': nat, bound: nat, bound': nat)
    requires Grown(a, b, start, bound') && Grown(b, c, start', bound) && start <= start' && bound <= bound'
    ensures Grown(a, c, start, bound')
  {
  }

  lemma ResolvedGrows(before: map<nat, Environment>, after: map<nat, Environment>, cs: seq<Environment>)
    requires Resolved(before, cs) && forall k :: k in before ==> k in after && after[k] == before[k]
    ensures Resolved(after, cs)
  {
    forall i | 0 <= i < |cs| ensures Contains(after, cs[i]) {
      assert Contains(before, cs[i]);
      var k :| k in before && SameCode(before[k], cs[i]);
      assert after[k] == before[k];
    }
  }

  lemma EnterProgram(table: map<nat, Environment>, index: nat, child: Environment, indices: seq<nat>)
    requires EachOnce(table) && Closed(table) && index !in table && !Contains(table, child)
    requires Indexed(table, indices, child.children)
    ensures EachOnce(table[index := child]) && Closed(table[index := child])
  {
    var after := table[index := child];
    forall k | k in table ensures !SameCode(child, table[k]) {
      if SameCode(child, table[k]) { SameCodeSymmetric(child, table[k]); }
    }
    assert Resolved(table, child.children) by {
      forall i | 0 <= i < |child.children| ensures Contains(table, child.children[i]) { assert indices[i] in table; }
    }
    ResolvedGrows(table, after, child.children);
    forall k | k in table ensures Resolved(after, table[k].children) { ResolvedGrows(table, after, table[k].children); }
  }

  /** New entries smaller than a program do not contain it. */
  lemma StillMissing(before: map<nat, Environment>, after: map<nat, Environment>, start: nat, child: Environment)
    requires !Contains(before, child) && Grown(before, after, start, Size(child) - 1)
    ensures !Contains(after, child)
  {
    forall k | k in after ensures !SameCode(after[k], child) {
      if SameCode(after[k], child) { SameCodeSameSize(after[k], child); }
    }
  }

  lemma EnterFollows(table: map<nat, Environment>, index: nat, child: Environment)
    requires EntriesFollow(table) && DepthsFollow(child) && HandlebarsStack.PassesThroughout(child)
    ensures EntriesFollow(table[index := child])
  {
    var after := table[index := child];
    forall k | k in after ensures DepthsFollow(after[k]) && HandlebarsStack.PassesThroughout(after[k]) {
      if k != index { assert DepthsFollow(table[k]); }
    }
  }

  /** After one more child has been indexed. */
  lemma OneMoreChild(
    first: map<nat, Environment>, before: map<nat, Environment>, after: map<nat, Environment>, length: nat, start: nat,
    env: Environment, i: nat, indices: seq<nat>, index: nat)
    requires i < |env.children| && Indexed(before, indices, env.children[..i]) && length <= start
    requires Grown(first, before, length, Size(env) - 1) && Grown(before, after, start, Size(env.children[i]))
    requires index in after && SameCode(after[index], env.children[i])
    ensures Indexed(after, indices + [index], env.children[..i + 1]) && Grown(first, after, length, Size(env) - 1)
  {
    ChildIsSmaller(env.children, i);
    assert Grown(first, after, length, Size(env) - 1) by {
      GrownTwice(first, before, after, length, start, Size(env.children[i]), Size(env) - 1);
    }
    assert env.children[..i + 1] == env.children[..i] + [env.children[i]];
    IndexedMore(before, after, indices, env.children[..i], index, env.children[i]);
  }

  ghost predicate EntriesFollow(table: map<nat, Environment>) {
    forall k {:trigger DepthsFollow(table[k])} :: k in table ==> DepthsFollow(table[k]) && HandlebarsStack.PassesThroughout(table[k])
  }

  lemma {:induction false} SameCodePasses(a: Environment, b: Environment)
    requires SameCode(a, b) && HandlebarsStack.PassesThroughout(a)
    ensures HandlebarsStack.PassesThroughout(b)
    decreases a, 1
  {
    SameChildrenPass(a.children, b.children);
  }

  lemma {:induction false} SameChildrenPass(a: seq<Environment>, b: seq<Environment>)
    requires |a| == |b| && (forall i :: 0 <= i < |a| ==> SameCode(a[i], b[i])) && HandlebarsStack.AllPass(a)
    ensures HandlebarsStack.AllPass(b)
    decreases a, 0
  {
    if a != [] {
      SameChildrenPass(a[..|a| - 1], b[..|b| - 1]);
      SameCodePasses(a[|a| - 1], b[|b| - 1]);
    }
  }

  /** A nested program runs like the table's entry at its index. */
  lemma EntryRunsAlike(rt: Runtime, table: map<nat, Environment>, indices: seq<nat>, cs: seq<Environment>, i: nat, vars: map<nat, Value>, data: Value)
    requires Indexed(table, indices, cs) && EntriesFollow(table) && AllFollow(cs) && i < |cs|
    ensures RunProgram(rt, Frame(table[indices[i]], vars, data)) == RunProgram(rt, Frame(cs[i], vars, data))
  {
    SharedProgramsRunAlike(rt, table[indices[i]], cs[i], vars, data);
  }

  /** `context.programs` and `context.environments`: `length` is the length of the sparse array. */
  class ProgramTable {
    var length: nat
    var environments: map<nat, Environment>

    ghost predicate Valid()
      reads this
    {
      && (forall k :: k in environments ==> k < length)
      && EachOnce(environments) && Closed(environments) && EntriesFollow(environments)
    }

    constructor ()
      ensures Valid() && environments == map[]
    {
      length, environments := 0, map[];
    }

    /** `matchExistingProgram`: the first index holding the same code. */
    method MatchExistingProgram(child: Environment) returns (index: Option<nat>)
      requires Valid()
      ensures index.None? ==> !Contains(environments, child)
      ensures index.Some? ==> index.value in environments && SameCode(environments[index.value], child)
    {
      var i := 0;
      while i < length
        invariant 0 <= i <= length
        invariant forall k :: k in environments && k < i ==> !SameCode(environments[k], child)
      {
        if i in environments {
          var same := Equals(environments[i], child);
          if same { return Some(i); }
        }
        i := i + 1;
      }
      index := None;
    }

    /** The first `n` children have indices; `first` and `start` are the table and its length before. */
    ghost predicate Collected(first: map<nat, Environment>, start: nat, env: Environment, n: nat, indices: seq<nat>)
      reads this
      requires n <= |env.children|
    {
      && Valid() && length >= start && HandlebarsStack.AllPass(env.children[..n])
      && Indexed(environments, indices, env.children[..n]) && Grown(first, environments, start, Size(env) - 1)
    }

    /** `compileChildren`: gives every child an index, compiling the ones not seen before; false where the source throws. */
    method CompileChildren(env: Environment) returns (ok: bool, indices: seq<nat>)
      requires Valid() && AllFollow(env.children)
      modifies this
      ensures ok <==> HandlebarsStack.AllPass(env.children)
      ensures ok ==> Valid() && length >= old(length) && Indexed(environments, indices, env.children)
      ensures ok ==> Grown(old(environments), environments, old(length), Size(env) - 1)
      decreases env, 1
    {
      ok, indices := true, [];
      ghost var first, start := environments, length;
      var i := 0;
      while i < |env.children|
        invariant 0 <= i <= |env.children| && ok && Collected(first, start, env, i, indices)
      {
        ok, indices := IndexChild(env, i, indices, first, start);
        if !ok { return; }
        i := i + 1;
      }
      assert env.children[..i] == env.children;
    }

    /** One turn of the loop. */
    method IndexChild(env: Environment, i: nat, done: seq<nat>, ghost first: map<nat, Environment>, ghost start: nat)
      returns (ok: bool, indices: seq<nat>)
      requires i < |env.children| && AllFollow(env.children) && Collected(first, start, env, i, done)
      modifies this
      ensures ok ==> Collected(first, start, env, i + 1, indices)
      ensures !ok ==> !HandlebarsStack.AllPass(env.children)
      decreases env, 0
    {
      ghost var before, length' := environments, length;
      var index;
      ok, index := IndexOf(env.children[i]);
      indices := done + [index];
      if ok {
        OneMoreChild(first, before, environments, start, length', env, i, done, index);
        HandlebarsStack.OneMorePasses(env.children, i);
      } else if HandlebarsStack.AllPass(env.children) {
        HandlebarsStack.EachPasses(env.children, i);
      }
    }

    method IndexOf(child: Environment) returns (ok: bool, index: nat)
      requires Valid() && DepthsFollow(child)
      modifies this
      ensures ok <==> HandlebarsStack.PassesThroughout(child)
      ensures ok ==> Valid() && length >= old(length) && index in environments && SameCode(environments[index], child)
      ensures ok ==> Grown(old(environments), environments, old(length), Size(child))
      decreases child, 3
    {
      var found := MatchExistingProgram(child);
      if found.Some? {
        ok, index := true, found.value;
        assert DepthsFollow(environments[index]);
        SameCodePasses(environments[index], child);
      } else {
        ok, index := AddProgram(child);
      }
    }

    /** One program new to the table: reserve an index, compile its children, then itself, and enter it. */
    method AddProgram(child: Environment) returns (ok: bool, index: nat)
      requires Valid() && DepthsFollow(child) && !Contains(environments, child)
      modifies this
      ensures ok <==> HandlebarsStack.PassesThroughout(child)
      ensures ok ==> Valid() && length >= old(length) && index in environments && SameCode(environments[index], child)
      ensures ok ==> Grown(old(environments), environments, old(length), Size(child))
      decreases child, 2
    {
      length := length + 1;
      index := length;
      var compiler := new HandlebarsEmission.JavaScriptCompiler();
      var indices;
      ok, indices := CompileChildren(child);
      if !ok { return; }
      ok := compiler.Compile(child.opcodes);
      if !ok { return; }
      StillMissing(old(environments), environments, old(length), child);
      SameCodeReflexive(child);
      ghost var before := environments;
      Enter(index, child, indices);
      GrownByOne(old(environments), before, old(length), index, child);
    }

    method Enter(index: nat, child: Environment, ghost indices: seq<nat>)
      requires Valid() && index !in environments && !Contains(environments, child)
      requires Indexed(environments, indices, child.children)
      requires DepthsFollow(child) && HandlebarsStack.PassesThroughout(child)
      modifies this
      ensures Valid() && length >= old(length) && environments == old(environments)[index := child]
    {
      EnterProgram(environments, index, child, indices);
      EnterFollows(environments, index, child);
      environments := environments[index := child];
      if length < index + 1 { length := index + 1; }
    }
  }

  lemma GrownByOne(first: map<nat, Environment>, before: map<nat, Environment>, length: nat, index: nat, child: Environment)
    requires Grown(first, before, length, Size(child) - 1) && index > length && index !in before
    ensures Grown(first, before[index := child], length, Size(child))
  {
  }

  /** Compiling a template succeeds, in both passes and for all programs nested in it, exactly when the first pass accepts it. */
  method CompileTemplate(o: CompileOptions, p: Program)
    returns (ok: bool, env: Environment, table: ProgramTable, indices: seq<nat>, compiler: HandlebarsEmission.JavaScriptCompiler)
    ensures ok <==> StatementsCompile(o, p.statements)
    ensures ok ==> env == ProgramEnvironment(o, p) && AllFollow(env.children)
    ensures ok ==> table.Valid() && Indexed(table.environments, indices, env.children)
    ensures ok ==> HandlebarsEmission.EmitRun(HandlebarsEmission.Start, env.opcodes) == Some(compiler.State())
  {
    indices := [];
    table := new ProgramTable();
    compiler := new HandlebarsEmission.JavaScriptCompiler();
    var first := new Compiler(o);
    ok, env := first.Compile(p);
    if !ok { return; }
    ProgramDepthsFollow(o, p);
    HandlebarsStack.ProgramPasses(o, p);
    ok, indices := table.CompileChildren(env);
    ok := compiler.Compile(env.opcodes);
  }
}

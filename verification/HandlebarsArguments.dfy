/**
 When a helper call reads its arguments right, told from the template.  The arguments considered
 are constants, names, paths and calls of helpers on constants and names.  A path assigns a
 variable while it is looked up, and a nested call makes the pending arguments variables; so one
 may overwrite the other.
 */
module HandlebarsArguments {
  import opened Options
  import opened HandlebarsAst
  import opened HandlebarsCompiler
  import HandlebarsStack
  import opened HandlebarsEmission
  import opened HandlebarsReads

  // ---------- The kinds of arguments ----------

  /** `PathArgument` counts the lookups that go by way of a variable. */
  datatype Kind = ConstantArgument | NameArgument | PathArgument(lookups: nat) | CallArgument

  function LookupsFrom(constant: bool, n: nat): Kind {
    if constant then (if n == 0 then ConstantArgument else if n == 1 then NameArgument else PathArgument(n - 1))
    else if n == 0 then NameArgument
    else PathArgument(n)
  }

  function KindOf(p: Param): Kind {
    match p
    case StringParam(_) => ConstantArgument
    case LiteralParam(_) => ConstantArgument
    case IdParam(path) => LookupsFrom(path.IsContext(), |path.Rest()|)
    case DataParam(path) => LookupsFrom(true, |path.parts|)
    case SubExpression(_) => CallArgument
  }

  function KindsOf(ps: seq<Param>): seq<Kind> {
    if ps == [] then [] else [KindOf(ps[0])] + KindsOf(ps[1..])
  }

  /** A call that is looked up among the helpers when it runs, without hash arguments. */
  predicate PlainCall(o: CompileOptions, sx: Sexpr) {
    && Classify(o, sx).HelperType? && SexprCompiles(o, sx)
    && !o.Known(sx.head.path.parts[0]) && sx.hash.NoHash?
  }

  /** An argument as this module considers it. */
  predicate Considered(o: CompileOptions, p: Param) {
    match p
    case SubExpression(sx) =>
      PlainCall(o, sx) && !sx.isRoot && forall i :: 0 <= i < |sx.params| ==> Effortless(sx.params[i])
    case _ => ParamCompiles(o, p)
  }

  /** A constant or a name: its text assigns nothing. */
  predicate Effortless(p: Param) {
    !p.SubExpression? && (KindOf(p).ConstantArgument? || KindOf(p).NameArgument?)
  }

  /**
   The arguments are read right: there is no nested call among them, or no path that any argument
   but constants follows.
   */
  predicate Clean(ks: seq<Kind>) {
    CallArgument !in ks || forall i, j :: 0 <= i < j < |ks| && ks[i].PathArgument? ==> ks[j].ConstantArgument?
  }

  // ---------- What compiling an argument does ----------

  /** Lookups that each assign a variable and read it. */
  function Borrows(n: nat, t: nat, lookups: nat): seq<Act> {
    if lookups == 0 then [] else Borrows(n, t, lookups - 1) + [Set(n, t + lookups - 1), Get(n, t + lookups - 1)]
  }

  function Argue(e: Emitter, k: Kind): Emitter {
    match k
    case ConstantArgument => e.Push(Constant)
    case NameArgument => e.Push(Text([]))
    case PathArgument(n) => e.Push(Text(Borrows(e.Borrowed(), e.next, n))).(next := e.next + n)
    case CallArgument => e.Push(Text([])).FlushAll()
  }

  /** Arguments are compiled last first. */
  function ArgueAll(e: Emitter, ks: seq<Kind>): Emitter {
    if ks == [] then e else Argue(ArgueAll(e, ks[1..]), ks[0])
  }

  lemma {:induction false} RunConcat(e: Emitter, a: seq<Opcode>, b: seq<Opcode>)
    ensures EmitRun(e, a + b) == (match EmitRun(e, a) case None => None case Some(f) => EmitRun(f, b))
    decreases a
  {
    if a == [] {
      assert a + b == b;
    } else {
      assert (a + b)[1..] == a[1..] + b;
      var f := EmitStep(e, a[0]);
      if f.Some? { RunConcat(f.value, a[1..], b); }
    }
  }

  lemma RunOne(e: Emitter, op: Opcode)
    ensures EmitRun(e, [op]) == EmitStep(e, op)
  {
    assert [op][1..] == [];
  }

  /** One more opcode after some. */
  lemma RunThen(e: Emitter, ops: seq<Opcode>, f: Emitter, op: Opcode)
    requires EmitRun(e, ops) == Some(f)
    ensures EmitRun(e, ops + [op]) == EmitStep(f, op)
  {
    RunConcat(e, ops, [op]);
    RunOne(f, op);
  }

  lemma LookupText(e: Emitter, acts: seq<Act>)
    ensures e.Push(Text(acts)).Rewrite([]) ==
      e.Push(Text(acts + [Set(e.Borrowed(), e.next), Get(e.Borrowed(), e.next)])).(next := e.next + 1)
  {
    var f := e.Push(Text(acts));
    assert f.inline[..|f.inline| - 1] == e.inline;
    NothingInHand(acts + [Set(e.Borrowed(), e.next), Get(e.Borrowed(), e.next)]);
  }

  lemma {:induction false} LookupsRun(e: Emitter, parts: seq<string>)
    ensures EmitRun(e.Push(Text([])), LookupOps(parts)) == Some(e.Push(Text(Borrows(e.Borrowed(), e.next, |parts|))).(next := e.next + |parts|))
    decreases |parts|
  {
    if parts == [] {
      assert LookupOps(parts) == [];
    } else {
      var n, front, last := |parts| - 1, parts[..|parts| - 1], parts[|parts| - 1];
      assert LookupOps(parts) == LookupOps(front) + [Lookup(last)];
      LookupsRun(e, front);
      RunConcat(e.Push(Text([])), LookupOps(front), [Lookup(last)]);
      var f := e.(next := e.next + n);
      assert e.Push(Text(Borrows(e.Borrowed(), e.next, n))).(next := e.next + n) == f.Push(Text(Borrows(e.Borrowed(), e.next, n)));
      RunOne(f.Push(Text(Borrows(e.Borrowed(), e.next, n))), Lookup(last));
      LookupText(f, Borrows(e.Borrowed(), e.next, n));
    }
  }

  lemma ConstantLookup(e: Emitter)
    ensures e.Push(Constant).Rewrite([]) == e.Push(Text([]))
  {
    var f := e.Push(Constant);
    assert f.inline[..|f.inline| - 1] == e.inline;
  }

  lemma BaseRun(e: Emitter, constant: bool, parts: seq<string>)
    ensures EmitRun(e.Push(if constant then Constant else Text([])), LookupOps(parts)) == Some(Argue(e, LookupsFrom(constant, |parts|)))
  {
    if !constant {
      LookupsRun(e, parts);
      assert Borrows(e.Borrowed(), e.next, 0) == [];
    } else if parts == [] {
      assert LookupOps(parts) == [];
    } else {
      assert LookupOps(parts) == [Lookup(parts[0])] + LookupOps(parts[1..]);
      RunConcat(e.Push(Constant), [Lookup(parts[0])], LookupOps(parts[1..]));
      RunOne(e.Push(Constant), Lookup(parts[0]));
      ConstantLookup(e);
      LookupsRun(e, parts[1..]);
      assert Borrows(e.Borrowed(), e.next, 0) == [];
    }
  }

  lemma PathRun(e: Emitter, p: Path)
    ensures EmitRun(e, PathOps(p)) == Some(Argue(e, LookupsFrom(p.IsContext(), |p.Rest()|)))
  {
    var get := if p.IsContext() then PushContext else LookupOnContext(p.parts[0]);
    assert PathOps(p) == [GetContext(p.depth)] + ([get] + LookupOps(p.Rest()));
    RunConcat(e, [GetContext(p.depth)], [get] + LookupOps(p.Rest()));
    RunOne(e, GetContext(p.depth));
    RunConcat(e, [get], LookupOps(p.Rest()));
    RunOne(e, get);
    BaseRun(e, p.IsContext(), p.Rest());
  }

  lemma EasyRun(o: CompileOptions, e: Emitter, p: Param)
    requires !p.SubExpression? && ParamCompiles(o, p)
    ensures EmitRun(e, ParamOps(o, p)) == Some(Argue(e, KindOf(p)))
  {
    match p
    case IdParam(path) => PathRun(e, path);
    case DataParam(path) =>
      RunConcat(e, [LookupData], LookupOps(path.parts));
      RunOne(e, LookupData);
      BaseRun(e, true, path.parts);
    case StringParam(t) => RunOne(e, PushString(t));
    case LiteralParam(l) => RunOne(e, PushLiteral(l));
  }

  // ----- Nested calls -----

  /** Entries whose texts do nothing. */
  predicate Silent(ps: seq<Piece>) {
    forall i :: 0 <= i < |ps| ==> Acts(ps[i]) == []
  }

  lemma {:induction false} SilentPops(e: Emitter, ps: seq<Piece>)
    requires Silent(ps)
    ensures e.(inline := e.inline + ps).PopTimes(|ps|) == Popped(e, [])
    decreases |ps|
  {
    var f := e.(inline := e.inline + ps);
    if ps == [] {
      assert e.inline + ps == e.inline;
    } else {
      assert f.inline[..|f.inline| - 1] == e.inline + ps[..|ps| - 1];
      assert f.inline[|f.inline| - 1] == ps[|ps| - 1];
      assert f.Pop() == Popped(e.(inline := e.inline + ps[..|ps| - 1]), []);
      SilentPops(e, ps[..|ps| - 1]);
    }
  }

  lemma {:induction false} EffortlessRun(o: CompileOptions, e: Emitter, ps: seq<Param>) returns (pushed: seq<Piece>)
    requires ParamsCompile(o, ps) && forall i :: 0 <= i < |ps| ==> Effortless(ps[i])
    ensures EmitRun(e, ParamsOps(o, ps)) == Some(e.(inline := e.inline + pushed)) && Silent(pushed) && |pushed| == |ps|
    decreases |ps|
  {
    if ps == [] {
      pushed := [];
      assert e.inline + [] == e.inline;
    } else {
      var rest := EffortlessRun(o, e, ps[1..]);
      var f := e.(inline := e.inline + rest);
      RunConcat(e, ParamsOps(o, ps[1..]), ParamOps(o, ps[0]));
      EasyRun(o, f, ps[0]);
      var piece := if KindOf(ps[0]).ConstantArgument? then Constant else Text([]);
      pushed := rest + [piece];
      assert Effortless(ps[0]);
      assert e.inline + rest + [piece] == e.inline + pushed;
    }
  }

  /** Programs and hash of a call without either. */
  function NoOptions(): seq<Opcode> {
    [PushProgram(None), PushProgram(None)] + [EmptyHash]
  }

  lemma PushThree(inline: seq<Piece>, p: Piece)
    ensures inline + [p] + [p] + [p] == inline + [p, p, p]
  {
  }

  lemma ThreeSteps(e: Emitter, p: Opcode, f: Emitter, q: Opcode, g: Emitter, r: Opcode, h: Emitter)
    requires EmitStep(e, p) == Some(f) && EmitStep(f, q) == Some(g) && EmitStep(g, r) == Some(h)
    ensures EmitRun(e, [p, q] + [r]) == Some(h)
  {
    RunOne(e, p);
    RunThen(e, [p], f, q);
    assert [p] + [q] == [p, q];
    RunThen(e, [p, q], g, r);
  }

  lemma NoOptionsRun(e: Emitter)
    ensures EmitRun(e, NoOptions()) == Some(e.(inline := e.inline + [Constant, Constant, Constant]))
  {
    var f := e.Push(Constant);
    ThreeSteps(e, PushProgram(None), f, PushProgram(None), f.Push(Constant), EmptyHash, f.Push(Constant).Push(Constant));
    PushThree(e.inline, Constant);
  }

  lemma CallWithoutOptions(e: Emitter, argc: nat)
    ensures
      e.(inline := e.inline + [Constant, Constant, Constant]).CallText(argc, false) ==
        (match e.PopTimes(argc)
         case Stuck => None
         case Popped(rest, acts) => Some(rest.Push(Text(acts))))
  {
    SilentPops(e, [Constant, Constant, Constant]);
    var p := e.PopTimes(argc);
    if p.Popped? { NothingInHand(p.acts); }
  }

  /** The call itself, its arguments being on the stack. */
  lemma CallRun(e: Emitter, argc: nat, name: string, isRoot: bool)
    ensures
      EmitRun(e, NoOptions() + [InvokeHelper(argc, name, isRoot)]) ==
        (match e.PopTimes(argc)
         case Stuck => None
         case Popped(rest, acts) =>
           Some(if isRoot then rest.Push(Text(acts)) else rest.Push(Text(acts)).FlushAll()))
  {
    var f := e.(inline := e.inline + [Constant, Constant, Constant]);
    var c := f.CallText(argc, false);
    assert EmitRun(e, NoOptions() + [InvokeHelper(argc, name, isRoot)]) == EmitStep(f, InvokeHelper(argc, name, isRoot)) by {
      NoOptionsRun(e);
      RunThen(e, NoOptions(), f, InvokeHelper(argc, name, isRoot));
    }
    CallWithoutOptions(e, argc);
    HelperStepIs(f, argc, name, isRoot);
  }

  lemma HelperStepIs(e: Emitter, argc: nat, name: string, isRoot: bool)
    ensures
      EmitStep(e, InvokeHelper(argc, name, isRoot)) ==
        (match e.CallText(argc, false)
         case None => None
         case Some(f) => Some(if isRoot then f else f.FlushAll()))
  {
  }

  lemma PlainCallOps(o: CompileOptions, sx: Sexpr)
    requires PlainCall(o, sx)
    ensures SexprOps(o, sx, None, None) ==
      ParamsOps(o, sx.params) + (NoOptions() + [InvokeHelper(|sx.params|, sx.head.path.parts[0], sx.isRoot)])
  {
    var params, progs, call := ParamsOps(o, sx.params), [PushProgram(None), PushProgram(None)], [CallOp(o, sx)];
    assert OperandsOps(o, sx, None, None) == params + progs + [EmptyHash];
    assert params + progs + [EmptyHash] + call == params + (progs + [EmptyHash] + call);
  }

  lemma NestedRun(o: CompileOptions, e: Emitter, sx: Sexpr)
    requires PlainCall(o, sx) && !sx.isRoot && forall i :: 0 <= i < |sx.params| ==> Effortless(sx.params[i])
    ensures EmitRun(e, SexprOps(o, sx, None, None)) == Some(e.Push(Text([])).FlushAll())
  {
    PlainCallOps(o, sx);
    var call := NoOptions() + [InvokeHelper(|sx.params|, sx.head.path.parts[0], false)];
    RunConcat(e, ParamsOps(o, sx.params), call);
    var pushed := EffortlessRun(o, e, sx.params);
    CallRun(e.(inline := e.inline + pushed), |sx.params|, sx.head.path.parts[0], false);
    SilentPops(e, pushed);
  }

  lemma {:induction false} ArgumentsRun(o: CompileOptions, e: Emitter, ps: seq<Param>)
    requires ParamsCompile(o, ps) && forall i :: 0 <= i < |ps| ==> Considered(o, ps[i])
    ensures EmitRun(e, ParamsOps(o, ps)) == Some(ArgueAll(e, KindsOf(ps)))
    decreases |ps|
  {
    if ps != [] {
      ArgumentsRun(o, e, ps[1..]);
      var f := ArgueAll(e, KindsOf(ps[1..]));
      RunConcat(e, ParamsOps(o, ps[1..]), ParamOps(o, ps[0]));
      assert Considered(o, ps[0]);
      if ps[0].SubExpression? { NestedRun(o, f, ps[0].sexpr); } else { EasyRun(o, f, ps[0]); }
      assert KindsOf(ps)[1..] == KindsOf(ps[1..]);
    }
  }

  // ---------- Keeping the books ----------

  lemma {:induction false} ArgueBalances(e: Emitter, k: Kind) returns (added: set<Act>)
    requires Orderly(e, [])
    ensures Balances(e, [], Argue(e, k), [], added)
    decreases if k.PathArgument? then k.lookups else 0
  {
    match k
    case ConstantArgument =>
      PushOneBalances(e, Constant);
      added := {};
    case NameArgument =>
      PushOneBalances(e, Text([]));
      added := {};
    case PathArgument(n) =>
      if n == 0 {
        PushOneBalances(e, Text([]));
        added := {};
      } else {
        var f := Argue(e, PathArgument(n - 1));
        var before := ArgueBalances(e, PathArgument(n - 1));
        OneMoreLookup(e, n);
        var more := RewriteBalances(f, []);
        BalancesTwice(e, [], f, [], f.Rewrite([]), [], before, more);
        added := before + more;
      }
    case CallArgument =>
      PushOneBalances(e, Text([]));
      var f := e.Push(Text([]));
      var more := FlushBalances(f);
      BalancesTwice(e, [], f, [], f.FlushAll(), [], {}, more);
      added := {} + more;
  }

  lemma OneMoreLookup(e: Emitter, n: nat)
    requires n > 0
    ensures Argue(e, PathArgument(n)) == Argue(e, PathArgument(n - 1)).Rewrite([])
  {
    LookupText(e.(next := e.next + (n - 1)), Borrows(e.Borrowed(), e.next, n - 1));
  }

  lemma ArgueShape(e: Emitter, k: Kind)
    requires HandlebarsStack.Sound(e.Shape())
    ensures
      var f := Argue(e, k);
      && HandlebarsStack.Sound(f.Shape()) && f.hashes == e.hashes
      && |f.compile| + |f.inline| == |e.compile| + |e.inline| + 1
  {
    if k.CallArgument? {
      PushShape(e, Text([]));
      FlushShape(e.Push(Text([])));
      HandlebarsStack.FlushSound(e.Push(Text([])).Shape());
    }
  }

  /** No hash literal has been begun, and the variables in use are numbered from 1 to `slot`. */
  ghost predicate InOrder(e: Emitter) {
    Orderly(e, []) && HandlebarsStack.Sound(e.Shape()) && e.hashes == []
  }

  lemma ArgueInOrder(e: Emitter, k: Kind)
    requires InOrder(e)
    ensures InOrder(Argue(e, k))
  {
    var _ := ArgueBalances(e, k);
    ArgueShape(e, k);
  }

  // ---------- Once a nested call has made the arguments variables ----------

  /** The texts not yet written do nothing. */
  ghost predicate Good(e: Emitter) {
    InOrder(e) && Sound(e) && Silent(e.inline)
  }

  /** A text not yet written assigns a variable that holds an argument. */
  ghost predicate Doomed(e: Emitter) {
    exists i, v :: 0 <= i < |e.inline| && 0 <= v < |e.compile| && e.compile[v].Variable? && Assigns(e.inline[i], e.compile[v].n)
  }

  predicate Assigns(p: Piece, n: nat) {
    Last(Acts(p), n).Some?
  }

  ghost predicate Bad(e: Emitter) {
    InOrder(e) && (!Sound(e) || Doomed(e))
  }

  lemma {:induction false} SilentGets(ps: seq<Piece>)
    requires Silent(ps)
    ensures PieceGets(ps) == {} && PieceSets(ps) == {}
    decreases |ps|
  {
    if ps != [] { SilentGets(ps[..|ps| - 1]); }
  }

  /** Variables on the stack are read, and not assigned, by their texts. */
  lemma {:induction false} VariablesBelow(compile: seq<Piece>, slot: nat)
    requires HandlebarsStack.SlotsInOrder(EntriesOf(compile), slot)
    ensures PieceSets(compile) == {} && forall g :: g in PieceGets(compile) ==> 1 <= g.n <= slot
    decreases |compile|
  {
    if compile != [] {
      var front, last := compile[..|compile| - 1], compile[|compile| - 1];
      assert EntriesOf(compile)[..|compile| - 1] == EntriesOf(front);
      VariablesBelow(front, if last.Constant? then slot else slot - 1);
      if last.Variable? { One(Get(last.n, last.t)); }
    }
  }

  lemma {:induction false} VariableIsRead(compile: seq<Piece>, v: nat)
    requires v < |compile| && compile[v].Variable?
    ensures Get(compile[v].n, compile[v].t) in PieceGets(compile)
    decreases |compile|
  {
    if v == |compile| - 1 { One(Get(compile[v].n, compile[v].t)); } else { VariableIsRead(compile[..|compile| - 1], v); }
  }

  /** A variable on the stack is still to be read for a value assigned before. */
  lemma {:induction false} VariableIsNeeded(e: Emitter, v: nat)
    requires Orderly(e, []) && v < |e.compile| && e.compile[v].Variable?
    ensures Get(e.compile[v].n, e.compile[v].t) in Needs(e)
  {
    VariableIsRead(e.compile, v);
    VariableIsFed(e.compile, v, PendingSets(e, []));
  }

  lemma {:induction false} VariableIsFed(compile: seq<Piece>, v: nat, made: set<Act>)
    requires v < |compile| && compile[v].Variable? && PiecesFed(compile, made)
    ensures Get(compile[v].n, compile[v].t) !in made
    decreases |compile|
  {
    if v == |compile| - 1 {
      var g := Get(compile[v].n, compile[v].t);
      assert Fed([g], made) && [g][..0] == [];
    } else {
      VariableIsFed(compile[..|compile| - 1], v, made);
    }
  }

  /** Writing over a variable on the stack makes the text unsound. */
  lemma OverwritesVariable(e: Emitter, f: Emitter, added: set<Act>, v: nat)
    requires Orderly(e, []) && Balances(e, [], f, [], added) && v < |e.compile| <= |f.compile|
    requires e.compile[v].Variable? && f.compile[v] == e.compile[v] && Last(Written(e, f), e.compile[v].n).Some?
    ensures !Sound(f)
  {
    var g := Get(e.compile[v].n, e.compile[v].t);
    VariableIsNeeded(e, v);
    VariableIsNeeded(f, v);
    NeedIsKept(e, f, added, g);
    WrittenIs(e, f);
    LastConcat(e.out, Written(e, f), g.n);
    LastIsSet(Written(e, f), g.n);
  }

  /** The flush of the first inline entry. */
  function FlushOne(e: Emitter): Emitter
    requires e.inline != []
  {
    var f := e.(inline := e.inline[1..]);
    if e.inline[0].Constant? then f.(compile := e.compile + [Constant]) else f.Store(Acts(e.inline[0]))
  }

  lemma FlushOneBalances(e: Emitter) returns (added: set<Act>)
    requires Orderly(e, []) && e.inline != []
    ensures Balances(e, [], FlushOne(e), [], added)
  {
    var f, p := e.(inline := e.inline[1..]), e.inline[0];
    FirstMoves(e);
    MovedOrderly(e, [], f, Acts(p));
    MovedBalances(e, [], f, Acts(p));
    if p.Constant? {
      ConstantMoves(f);
      MovedTwice(e, [], f, [], FlushOne(e), []);
      MovedBalances(e, [], FlushOne(e), []);
      added := {};
    } else {
      StoreBalances(f, Acts(p));
      BalancesTwice(e, [], f, Acts(p), f.Store(Acts(p)), [], {}, {Get(f.slot + 1, f.next)});
      added := {} + {Get(f.slot + 1, f.next)};
    }
  }

  lemma FlushKeepsUnsound(e: Emitter)
    requires Orderly(e, []) && !Sound(e)
    ensures !Sound(e.FlushAll())
  {
    var added := FlushBalances(e);
    StepUnsound(e, e.FlushAll(), added);
  }

  lemma FirstDooms(e: Emitter, v: nat)
    requires Orderly(e, []) && e.inline != [] && v < |e.compile| && e.compile[v].Variable? && Assigns(e.inline[0], e.compile[v].n)
    ensures Orderly(FlushOne(e), []) && !Sound(FlushOne(e))
  {
    var f := FlushOne(e);
    var added := FlushOneBalances(e);
    assert Last(Written(e, f), e.compile[v].n).Some? by {
      var acts, set1 := Acts(e.inline[0]), Set(e.slot + 1, e.next);
      StoreWrites(e.(inline := e.inline[1..]), acts);
      LastConcat(acts, [set1], e.compile[v].n);
    }
    assert f.compile[v] == e.compile[v];
    OverwritesVariable(e, f, added, v);
  }

  lemma StoreWrites(e: Emitter, acts: seq<Act>)
    ensures Written(e, e.Store(acts)) == acts + [Set(e.slot + 1, e.next)]
  {
  }

  lemma FlushOneOrderly(e: Emitter)
    requires Orderly(e, []) && e.inline != []
    ensures Orderly(FlushOne(e), [])
  {
    var _ := FlushOneBalances(e);
  }

  lemma FlushAllIs(e: Emitter)
    requires e.inline != []
    ensures e.FlushAll() == FlushOne(e).FlushAll()
  {
  }

  /** The inline text at `i` assigns the variable at `v`. */
  predicate DoomedAt(e: Emitter, i: nat, v: nat) {
    i < |e.inline| && v < |e.compile| && e.compile[v].Variable? && Assigns(e.inline[i], e.compile[v].n)
  }

  /** The flush of the first `n` inline entries. */
  function FlushSome(e: Emitter, n: nat): (f: Emitter)
    requires n <= |e.inline|
    ensures f.inline == e.inline[n..] && e.compile <= f.compile && |f.compile| == |e.compile| + n
  {
    if n == 0 then e else FlushOne(FlushSome(e, n - 1))
  }

  lemma {:induction false} SomeThenAll(e: Emitter, n: nat)
    requires n <= |e.inline|
    ensures FlushSome(e, n).FlushAll() == e.FlushAll()
    decreases n
  {
    if n > 0 {
      SomeThenAll(e, n - 1);
      FlushAllIs(FlushSome(e, n - 1));
    }
  }

  lemma {:induction false} SomeOrderly(e: Emitter, n: nat)
    requires Orderly(e, []) && n <= |e.inline|
    ensures Orderly(FlushSome(e, n), [])
    decreases n
  {
    if n > 0 {
      SomeOrderly(e, n - 1);
      FlushOneOrderly(FlushSome(e, n - 1));
    }
  }

  lemma {:induction false} SomeConstants(e: Emitter, n: nat)
    requires n <= |e.inline| && forall a :: 0 <= a < n ==> e.inline[a].Constant?
    ensures FlushSome(e, n).slot == e.slot && FlushSome(e, n).next == e.next
    decreases n
  {
    if n > 0 { SomeConstants(e, n - 1); }
  }

  lemma FlushDooms(e: Emitter, i: nat, v: nat)
    requires Orderly(e, []) && DoomedAt(e, i, v)
    ensures !Sound(e.FlushAll())
  {
    var f := FlushSome(e, i);
    SomeOrderly(e, i);
    assert f.inline[0] == e.inline[i] && f.compile[v] == e.compile[v];
    FirstDooms(f, v);
    FlushKeepsUnsound(FlushOne(f));
    FlushAllIs(f);
    SomeThenAll(e, i);
  }

  lemma BadStaysBad(e: Emitter, k: Kind)
    requires Bad(e)
    ensures Bad(Argue(e, k))
  {
    ArgueInOrder(e, k);
    var added := ArgueBalances(e, k);
    if !Sound(e) {
      StepUnsound(e, Argue(e, k), added);
    } else {
      var i, v :| 0 <= i < |e.inline| && 0 <= v < |e.compile| && e.compile[v].Variable? && Assigns(e.inline[i], e.compile[v].n);
      if k.CallArgument? {
        PushOneBalances(e, Text([]));
        FlushDooms(e.Push(Text([])), i, v);
      } else {
        assert Argue(e, k).inline[i] == e.inline[i] && Argue(e, k).compile == e.compile;
      }
    }
  }

  /** Nothing that does nothing disturbs anything: a silent text in a new variable. */
  lemma SilentFlushOne(e: Emitter)
    requires Good(e) && e.inline != []
    ensures Good(FlushOne(e))
  {
    var f := FlushOne(e);
    var added := FlushOneBalances(e);
    FlushOneShape(e);
    assert Silent(f.inline) by { assert forall j :: 0 <= j < |f.inline| ==> f.inline[j] == e.inline[j + 1]; }
    NewVariable(e, f);
    StepSound(e, f, added);
  }

  lemma FlushOneShape(e: Emitter)
    requires InOrder(e) && e.inline != []
    ensures InOrder(FlushOne(e)) && (e.inline[0].Constant? ==> FlushOne(e).slot == e.slot)
    ensures !e.inline[0].Constant? ==> FlushOne(e).slot == e.slot + 1
  {
    var f := e.(inline := e.inline[1..]);
    var _ := FlushOneBalances(e);
    assert f.Shape().compile == e.Shape().compile;
    if e.inline[0].Constant? {
      assert EntriesOf(e.compile + [Constant]) == EntriesOf(e.compile) + [HandlebarsStack.LiteralEntry];
      assert (EntriesOf(e.compile) + [HandlebarsStack.LiteralEntry])[..|e.compile|] == EntriesOf(e.compile);
    } else {
      StoreShape(f, Acts(e.inline[0]));
      HandlebarsStack.VariableSound(f.Shape());
    }
  }

  /** After the flush of a silent text only the variables on the stack are needed, the new one being the last. */
  lemma NewNeeds(e: Emitter, f: Emitter)
    requires InOrder(e) && e.inline != [] && !e.inline[0].Constant? && Silent(e.inline[1..]) && f == FlushOne(e)
    ensures forall h :: h in Needs(f) ==> 1 <= h.n <= e.slot || h == Get(e.slot + 1, e.next)
  {
    SilentGets(e.inline[1..]);
    VariablesBelow(e.compile, e.slot);
    var p := Variable(e.slot + 1, e.next);
    PiecesConcat(e.compile, [p]);
    OnePiece(p);
    One(Get(e.slot + 1, e.next));
  }

  lemma NewVariable(e: Emitter, f: Emitter)
    requires Good(e) && e.inline != [] && f == FlushOne(e)
    ensures |e.out| <= |f.out| && !Clash(e, f)
  {
    if e.inline[0].Constant? {
      assert Written(e, f) == [];
    } else {
      var set1 := Set(e.slot + 1, e.next);
      assert Written(e, f) == [set1] by { assert [] + [set1] == [set1]; }
      assert [set1][..0] == [];
      assert Silent(e.inline[1..]) by { assert forall j :: 0 <= j < |e.inline| - 1 ==> e.inline[1..][j] == e.inline[j + 1]; }
      NewNeeds(e, f);
      assert !Misreads([set1]);
      forall h | h in Needs(f) ensures !Disturbs([set1], h) { assert Last([set1][..0], h.n) == None; }
    }
  }

  lemma {:induction false} SilentFlush(e: Emitter)
    requires Good(e)
    ensures Good(e.FlushAll())
    decreases |e.inline|
  {
    if e.inline != [] {
      SilentFlushOne(e);
      SilentFlush(FlushOne(e));
      assert e.FlushAll() == FlushOne(e).FlushAll();
    }
  }

  lemma GoodArgument(e: Emitter, k: Kind)
    requires Good(e) && !k.PathArgument?
    ensures Good(Argue(e, k))
  {
    var p := if k.ConstantArgument? then Constant else Text([]);
    var f := e.Push(p);
    PushOneBalances(e, p);
    ArgueInOrder(e, if k.ConstantArgument? then k else NameArgument);
    assert Written(e, f) == [];
    StepSound(e, f, {});
    if k.CallArgument? { SilentFlush(f); }
  }

  lemma {:induction false} BorrowsAssign(n: nat, t: nat, lookups: nat)
    ensures lookups > 0 ==> Last(Borrows(n, t, lookups), n).Some?
    ensures !Misreads(Borrows(n, t, lookups))
  {
    if lookups > 0 {
      var front, set1, get1 := Borrows(n, t, lookups - 1), Set(n, t + lookups - 1), Get(n, t + lookups - 1);
      var all := front + [set1, get1];
      assert all[..|all| - 1] == front + [set1] && (front + [set1])[..|front|] == front;
      BorrowsAssign(n, t, lookups - 1);
    }
  }

  /** A path among variables assigns the last of them. */
  lemma PathDooms(e: Emitter, k: Kind)
    requires Good(e) && k.PathArgument? && k.lookups > 0 && e.slot > 0
    ensures Bad(Argue(e, k))
  {
    ArgueInOrder(e, k);
    var v := TopVariable(e.compile, e.slot);
    BorrowsAssign(e.slot, e.next, k.lookups);
    var f := Argue(e, k);
    assert f.inline[|e.inline|] == Text(Borrows(e.slot, e.next, k.lookups)) && f.compile == e.compile;
  }

  lemma {:induction false} TopVariable(compile: seq<Piece>, slot: nat) returns (v: nat)
    requires HandlebarsStack.SlotsInOrder(EntriesOf(compile), slot) && slot > 0
    ensures v < |compile| && compile[v].Variable? && compile[v].n == slot
    decreases |compile|
  {
    var n := |compile| - 1;
    assert EntriesOf(compile)[..n] == EntriesOf(compile[..n]);
    if compile[n].Variable? { v := n; } else { v := TopVariable(compile[..n], slot); }
  }

  // ---------- Before the first nested call ----------

  ghost predicate Matches(p: Piece, k: Kind) {
    match k
    case ConstantArgument => p == Constant
    case NameArgument => p == Text([])
    case PathArgument(n) => n > 0 && exists t :: p == Text(Borrows(1, t, n))
    case CallArgument => false
  }

  /** The pieces of the arguments, the last at the bottom. */
  ghost predicate Lined(inline: seq<Piece>, ks: seq<Kind>) {
    |inline| == |ks| && forall i :: 0 <= i < |ks| ==> Matches(inline[|ks| - 1 - i], ks[i])
  }

  /** No variable is in use and nothing written; the arguments are inline. */
  ghost predicate Unstarted(e: Emitter, ks: seq<Kind>) {
    InOrder(e) && e.compile == [] && e.slot == 0 && e.out == [] && Lined(e.inline, ks)
  }

  lemma {:induction false} BorrowsClosed(n: nat, t: nat, lookups: nat)
    ensures Gets(Borrows(n, t, lookups)) == Sets(Borrows(n, t, lookups))
  {
    if lookups > 0 {
      var set1, get1 := Set(n, t + lookups - 1), Get(n, t + lookups - 1);
      BorrowsClosed(n, t, lookups - 1);
      assert [set1, get1] == [set1] + [get1];
      One(set1);
      One(get1);
      Concat([set1], [get1]);
      Concat(Borrows(n, t, lookups - 1), [set1, get1]);
    }
  }

  /** The piece reads nothing but what it assigns itself, and right. */
  ghost predicate Closed(p: Piece) {
    Gets(Acts(p)) == Sets(Acts(p)) && !Misreads(Acts(p))
  }

  lemma MatchesClosed(p: Piece, k: Kind)
    requires Matches(p, k)
    ensures Closed(p)
    ensures k.PathArgument? ==> Assigns(p, 1)
    ensures k.PathArgument? || Acts(p) == []
    ensures p.Constant? <==> k.ConstantArgument?
  {
    if k.PathArgument? {
      var t :| p == Text(Borrows(1, t, k.lookups));
      BorrowsClosed(1, t, k.lookups);
      BorrowsAssign(1, t, k.lookups);
    }
  }

  lemma {:induction false} ClosedNeedsNothing(ps: seq<Piece>)
    requires forall i :: 0 <= i < |ps| ==> Closed(ps[i])
    ensures PieceGets(ps) == PieceSets(ps)
    decreases |ps|
  {
    if ps != [] {
      ClosedNeedsNothing(ps[..|ps| - 1]);
      assert Closed(ps[|ps| - 1]);
    }
  }

  lemma UnstartedClosed(e: Emitter, ks: seq<Kind>)
    requires Unstarted(e, ks)
    ensures forall a :: 0 <= a < |ks| ==> Closed(e.inline[a])
    ensures Sound(e)
  {
    forall a | 0 <= a < |ks| ensures Closed(e.inline[a]) { PieceOf(e.inline, ks, |ks| - 1 - a); }
    ClosedNeedsNothing(e.inline);
    assert Needs(e) == {};
  }

  lemma UnstartedArgument(e: Emitter, ks: seq<Kind>, k: Kind)
    requires Unstarted(e, ks) && !k.CallArgument? && (k.PathArgument? ==> k.lookups > 0)
    ensures Unstarted(Argue(e, k), [k] + ks)
  {
    ArgueInOrder(e, k);
    var f := Argue(e, k);
    assert Matches(f.inline[|ks|], k);
    LinedMore(e.inline, ks, f.inline[|ks|], k);
    assert f.inline == e.inline + [f.inline[|ks|]];
  }

  lemma LinedMore(inline: seq<Piece>, ks: seq<Kind>, p: Piece, k: Kind)
    requires Lined(inline, ks) && Matches(p, k)
    ensures Lined(inline + [p], [k] + ks)
  {
    var all := [k] + ks;
    forall i | 0 <= i < |all| ensures Matches((inline + [p])[|all| - 1 - i], all[i]) {
      if i > 0 { assert Matches(inline[|ks| - 1 - (i - 1)], ks[i - 1]); }
    }
  }

  // ---------- The first nested call ----------

  /** No argument but constants follows a path. */
  predicate PathsLast(ks: seq<Kind>) {
    forall i, j :: 0 <= i < j < |ks| && ks[i].PathArgument? ==> ks[j].ConstantArgument?
  }

  /** Only constants are below a text that does something. */
  ghost predicate Ready(e: Emitter) {
    && InOrder(e) && Sound(e) && e.slot == 0
    && (forall a :: 0 <= a < |e.inline| ==> Closed(e.inline[a]))
    && forall a, b :: 0 <= a < b < |e.inline| && Acts(e.inline[b]) != [] ==> e.inline[a].Constant?
  }

  lemma ConstantFlush(e: Emitter)
    requires InOrder(e) && Sound(e) && e.inline != [] && e.inline[0].Constant?
    ensures InOrder(FlushOne(e)) && Sound(FlushOne(e)) && FlushOne(e).slot == e.slot
  {
    var f := FlushOne(e);
    var added := FlushOneBalances(e);
    FlushOneShape(e);
    assert Written(e, f) == [];
    StepSound(e, f, added);
  }

  /** The first text that does something takes the first variable. */
  lemma FirstText(e: Emitter)
    requires Ready(e) && e.inline != [] && !e.inline[0].Constant?
    ensures Good(FlushOne(e))
  {
    var f, rest, acts, set1 := FlushOne(e), e.inline[1..], Acts(e.inline[0]), Set(1, e.next);
    var added := FlushOneBalances(e);
    FlushOneShape(e);
    assert Silent(rest) by {
      forall j | 0 <= j < |rest| ensures Acts(rest[j]) == [] { assert rest[j] == e.inline[j + 1]; }
    }
    NewNeeds(e, f);
    StoreWrites(e.(inline := rest), acts);
    assert Written(e, f) == acts + [set1];
    ClosedThenSet(acts, set1);
    StepSound(e, f, added);
  }

  lemma ClosedThenSet(acts: seq<Act>, a: Act)
    requires !Misreads(acts) && a.Set?
    ensures !Misreads(acts + [a]) && !Disturbs(acts + [a], Get(a.n, a.t))
  {
    assert (acts + [a])[..|acts|] == acts;
  }

  lemma {:induction false} ReadyFlush(e: Emitter)
    requires Ready(e)
    ensures Good(e.FlushAll())
    decreases |e.inline|
  {
    if e.inline != [] {
      FlushAllIs(e);
      if e.inline[0].Constant? {
        ConstantFlush(e);
        ReadyRest(e);
        ReadyFlush(FlushOne(e));
      } else {
        FirstText(e);
        SilentFlush(FlushOne(e));
      }
    }
  }

  lemma ReadyRest(e: Emitter)
    requires Ready(e) && e.inline != [] && e.inline[0].Constant?
    ensures
      var f := FlushOne(e);
      && (forall a :: 0 <= a < |f.inline| ==> Closed(f.inline[a]))
      && forall a, b :: 0 <= a < b < |f.inline| && Acts(f.inline[b]) != [] ==> f.inline[a].Constant?
  {
    var f := FlushOne(e);
    assert forall a :: 0 <= a < |f.inline| ==> f.inline[a] == e.inline[a + 1];
  }

  /** No variable is in use, and a text at `b` assigns the first above an entry at `a` that will take it. */
  predicate ClashAt(e: Emitter, a: nat, b: nat) {
    e.slot == 0 && a < b < |e.inline| && !e.inline[a].Constant? && Assigns(e.inline[b], 1)
  }

  /** The lowest entry that takes a variable. */
  lemma {:induction false} LowestText(inline: seq<Piece>, a: nat) returns (lowest: nat)
    requires a < |inline| && !inline[a].Constant?
    ensures lowest <= a && !inline[lowest].Constant? && forall c :: 0 <= c < lowest ==> inline[c].Constant?
    decreases a
  {
    if c :| 0 <= c < a && !inline[c].Constant? { lowest := LowestText(inline, c); } else { lowest := a; }
  }

  /** A path above anything but constants overwrites the first variable. */
  lemma FlushClashes(e: Emitter, a: nat, b: nat)
    requires Orderly(e, []) && ClashAt(e, a, b)
    ensures !Sound(e.FlushAll())
  {
    var c := LowestText(e.inline, a);
    SomeConstants(e, c);
    SomeThenAll(e, c + 1);
    var f := FlushSome(e, c + 1);
    SomeOrderly(e, c + 1);
    assert FlushSome(e, c).inline[0] == e.inline[c];
    assert f.compile[|e.compile| + c] == Variable(1, e.next) && f.inline[b - (c + 1)] == e.inline[b];
    FlushDooms(f, b - (c + 1), |e.compile| + c);
  }

  lemma {:induction false} SlotGrows(e: Emitter)
    ensures e.FlushAll().slot >= e.slot
    ensures (exists a :: 0 <= a < |e.inline| && !e.inline[a].Constant?) ==> e.FlushAll().slot > e.slot
    decreases |e.inline|
  {
    if e.inline != [] {
      SlotGrows(FlushOne(e));
      if a :| 0 <= a < |e.inline| && !e.inline[a].Constant? {
        if e.inline[0].Constant? { assert FlushOne(e).inline[a - 1] == e.inline[a]; }
      }
    }
  }

  lemma FirstCallGood(e: Emitter, ks: seq<Kind>)
    requires Unstarted(e, ks) && PathsLast(ks)
    ensures Good(Argue(e, CallArgument)) && Argue(e, CallArgument).slot > 0
  {
    var f := e.Push(Text([]));
    UnstartedReady(e, ks);
    ReadyFlush(f);
    assert f.inline[|ks|] == Text([]);
    SlotGrows(f);
  }

  lemma PushKeeps(e: Emitter, p: Piece, i: nat)
    requires i < |e.inline|
    ensures e.Push(p).inline[i] == e.inline[i] && |e.Push(p).inline| == |e.inline| + 1
  {
  }

  lemma PushedClash(e: Emitter, a: nat, b: nat)
    requires Orderly(e, []) && ClashAt(e, a, b)
    ensures Orderly(e.Push(Text([])), []) && ClashAt(e.Push(Text([])), a, b)
  {
    PushOneBalances(e, Text([]));
    PushKeeps(e, Text([]), a);
    PushKeeps(e, Text([]), b);
  }

  lemma FirstCallClashes(e: Emitter, a: nat, b: nat)
    requires Orderly(e, []) && ClashAt(e, a, b)
    ensures !Sound(Argue(e, CallArgument))
  {
    PushedClash(e, a, b);
    FlushClashes(e.Push(Text([])), a, b);
  }

  lemma FirstCallBad(e: Emitter, ks: seq<Kind>, i: nat, j: nat)
    requires Unstarted(e, ks) && i < j < |ks| && ks[i].PathArgument? && !ks[j].ConstantArgument?
    ensures Bad(Argue(e, CallArgument))
  {
    assert !Sound(Argue(e, CallArgument)) by {
      PieceOf(e.inline, ks, i);
      PieceOf(e.inline, ks, j);
      FirstCallClashes(e, |ks| - 1 - j, |ks| - 1 - i);
    }
    ArgueInOrder(e, CallArgument);
  }

  /** What the kind of an argument says of its piece. */
  lemma PieceOf(inline: seq<Piece>, ks: seq<Kind>, i: nat)
    requires Lined(inline, ks) && i < |ks|
    ensures
      var p := inline[|ks| - 1 - i];
      && Closed(p) && (p.Constant? <==> ks[i].ConstantArgument?)
      && (if ks[i].PathArgument? then Assigns(p, 1) else Acts(p) == [])
  {
    assert Matches(inline[|ks| - 1 - i], ks[i]);
    MatchesClosed(inline[|ks| - 1 - i], ks[i]);
  }

  lemma FirstCall(e: Emitter, ks: seq<Kind>)
    requires Unstarted(e, ks)
    ensures
      var f := Argue(e, CallArgument);
      if PathsLast(ks) then Good(f) && f.slot > 0 else Bad(f)
  {
    if PathsLast(ks) {
      FirstCallGood(e, ks);
    } else {
      var i, j :| 0 <= i < j < |ks| && ks[i].PathArgument? && !ks[j].ConstantArgument?;
      FirstCallBad(e, ks, i, j);
    }
  }

  lemma UnstartedReady(e: Emitter, ks: seq<Kind>)
    requires Unstarted(e, ks) && PathsLast(ks)
    ensures Ready(e.Push(Text([])))
  {
    var f := e.Push(Text([]));
    UnstartedClosed(e, ks);
    ArgueInOrder(e, NameArgument);
    assert Sound(f) by {
      PushOneBalances(e, Text([]));
      assert Written(e, f) == [];
      StepSound(e, f, {});
    }
    assert Closed(Text([]));
    forall a, b | 0 <= a < b < |f.inline| && Acts(f.inline[b]) != [] ensures f.inline[a].Constant? {
      OnlyConstantsBelow(e.inline, ks, a, b);
    }
  }

  lemma OnlyConstantsBelow(inline: seq<Piece>, ks: seq<Kind>, a: nat, b: nat)
    requires Lined(inline, ks) && PathsLast(ks) && a < b < |ks| && Acts(inline[b]) != []
    ensures inline[a].Constant?
  {
    var i, j := |ks| - 1 - b, |ks| - 1 - a;
    assert ks[i].PathArgument? by { PieceOf(inline, ks, i); }
    assert ks[j].ConstantArgument? by { assert 0 <= i < j < |ks|; }
    assert inline[a].Constant? by { PieceOf(inline, ks, j); }
  }

  // ---------- All arguments ----------

  predicate Proper(ks: seq<Kind>) {
    forall i :: 0 <= i < |ks| && ks[i].PathArgument? ==> ks[i].lookups > 0
  }

  /** What compiling all arguments leaves. */
  ghost predicate Outcome(e: Emitter, ks: seq<Kind>) {
    if CallArgument !in ks then Unstarted(e, ks)
    else if Clean(ks) then Good(e) && e.slot > 0
    else Bad(e)
  }

  lemma OutcomeAfterCall(e: Emitter, ks: seq<Kind>)
    requires Proper(ks) && ks != [] && CallArgument in ks[1..] && Outcome(e, ks[1..])
    ensures Outcome(Argue(e, ks[0]), ks)
  {
    CleanFrom(ks);
    AfterCall(e, ks[0], Clean(ks[1..]));
  }

  lemma OutcomeBeforeCall(e: Emitter, ks: seq<Kind>)
    requires Proper(ks) && ks != [] && CallArgument !in ks[1..] && Outcome(e, ks[1..])
    ensures Outcome(Argue(e, ks[0]), ks)
  {
    CleanFrom(ks);
    if ks[0].CallArgument? {
      FirstCall(e, ks[1..]);
    } else {
      UnstartedArgument(e, ks[1..], ks[0]);
      assert [ks[0]] + ks[1..] == ks;
    }
  }

  lemma {:induction false} AllArguments(ks: seq<Kind>)
    requires Proper(ks)
    ensures Outcome(ArgueAll(Start, ks), ks)
    decreases |ks|
  {
    if ks == [] {
      StartUnstarted();
    } else {
      var e := ArgueAll(Start, ks[1..]);
      assert Proper(ks[1..]) by { assert forall i :: 0 <= i < |ks| - 1 ==> ks[1..][i] == ks[i + 1]; }
      AllArguments(ks[1..]);
      if CallArgument in ks[1..] { OutcomeAfterCall(e, ks); } else { OutcomeBeforeCall(e, ks); }
    }
  }

  lemma StartUnstarted()
    ensures Outcome(Start, [])
  {
    assert Start.Shape().compile == [];
  }

  lemma AfterCall(e: Emitter, k: Kind, clean: bool)
    requires if clean then Good(e) && e.slot > 0 else Bad(e)
    requires k.PathArgument? ==> k.lookups > 0
    ensures var f := Argue(e, k); if clean && !k.PathArgument? then Good(f) && f.slot > 0 else Bad(f)
  {
    if !clean {
      BadStaysBad(e, k);
    } else if k.PathArgument? {
      PathDooms(e, k);
    } else {
      GoodArgument(e, k);
      if k.CallArgument? { SlotGrows(e.Push(Text([]))); }
    }
  }

  lemma CleanFrom(ks: seq<Kind>)
    requires ks != []
    ensures
      var k, rest := ks[0], ks[1..];
      if CallArgument in rest then (Clean(ks) <==> Clean(rest) && !k.PathArgument?)
      else k.CallArgument? ==> (Clean(ks) <==> PathsLast(rest))
    ensures CallArgument in ks <==> ks[0].CallArgument? || CallArgument in ks[1..]
  {
    var k, rest := ks[0], ks[1..];
    assert forall i :: 0 <= i < |rest| ==> rest[i] == ks[i + 1];
    if CallArgument in rest {
      var c :| 0 <= c < |rest| && rest[c] == CallArgument;
      assert ks[c + 1] == CallArgument;
    }
    if k.CallArgument? { assert ks[0] == CallArgument; }
    if PathsLast(rest) && !k.PathArgument? {
      forall i, j | 0 <= i < j < |ks| && ks[i].PathArgument? ensures ks[j].ConstantArgument? {
        assert rest[i - 1].PathArgument? && rest[j - 1] == ks[j];
      }
    }
    if PathsLast(ks) {
      forall i, j | 0 <= i < j < |rest| && rest[i].PathArgument? ensures rest[j].ConstantArgument? {
        assert ks[i + 1].PathArgument? && ks[j + 1] == rest[j];
      }
    }
  }

  // ---------- The arguments are read ----------

  lemma {:induction false} PopTimesTwice(e: Emitter, m: nat, n: nat)
    ensures
      e.PopTimes(m + n) ==
        (match e.PopTimes(m)
         case Stuck => Stuck
         case Popped(rest, a) =>
           (match rest.PopTimes(n)
            case Stuck => Stuck
            case Popped(rest', b) => Popped(rest', a + b)))
    decreases m
  {
    if m == 0 {
      var q := e.PopTimes(n);
      if q.Popped? { NothingInHand(q.acts); }
    } else if e.Pop().Popped? {
      var p := e.Pop();
      PopTimesTwice(p.rest, m - 1, n);
      var q := p.rest.PopTimes(m - 1);
      if q.Popped? {
        var r := q.rest.PopTimes(n);
        if r.Popped? { Associate(p.acts, q.acts, r.acts); }
      }
    }
  }

  lemma {:induction false} PopInline(e: Emitter, n: nat)
    requires n <= |e.inline|
    ensures e.PopTimes(n).Popped? && e.PopTimes(n).rest == e.(inline := e.inline[..|e.inline| - n])
    decreases n
  {
    if n == 0 {
      assert e.inline[..|e.inline|] == e.inline;
    } else {
      var f := e.Pop().rest;
      PopInline(f, n - 1);
      assert f.inline[..|f.inline| - (n - 1)] == e.inline[..|e.inline| - n];
    }
  }

  /** Texts that read only what they assign themselves may follow each other. */
  lemma {:induction false} BorrowsAfter(a: seq<Act>, n: nat, t: nat, lookups: nat)
    requires !Misreads(a)
    ensures !Misreads(a + Borrows(n, t, lookups))
  {
    if lookups == 0 {
      NothingInHand(a);
    } else {
      var front, set1, get1 := a + Borrows(n, t, lookups - 1), Set(n, t + lookups - 1), Get(n, t + lookups - 1);
      BorrowsAfter(a, n, t, lookups - 1);
      var all := a + Borrows(n, t, lookups);
      assert all == front + [set1] + [get1];
      assert all[..|all| - 1] == front + [set1] && (front + [set1])[..|front|] == front;
    }
  }

  lemma {:induction false} LinedReads(e: Emitter, ks: seq<Kind>, a: seq<Act>)
    requires Lined(e.inline, ks) && !Misreads(a)
    ensures e.PopTimes(|ks|).Popped? && !Misreads(a + e.PopTimes(|ks|).acts)
    decreases |ks|
  {
    if ks == [] {
      NothingInHand(a);
    } else {
      var p, f := e.inline[|ks| - 1], e.(inline := e.inline[..|ks| - 1]);
      assert Matches(e.inline[|ks| - 1 - 0], ks[0]);
      assert !Misreads(a + Acts(p)) by { PieceAfter(a, p, ks[0]); }
      LinedRest(e.inline, ks);
      LinedReads(f, ks[1..], a + Acts(p));
      Associate(a, Acts(p), f.PopTimes(|ks| - 1).acts);
    }
  }

  lemma PieceAfter(a: seq<Act>, p: Piece, k: Kind)
    requires Matches(p, k) && !Misreads(a)
    ensures !Misreads(a + Acts(p))
  {
    if k.PathArgument? {
      var t :| p == Text(Borrows(1, t, k.lookups));
      BorrowsAfter(a, 1, t, k.lookups);
    } else {
      NothingInHand(a);
    }
  }

  lemma LinedRest(inline: seq<Piece>, ks: seq<Kind>)
    requires Lined(inline, ks) && ks != []
    ensures Lined(inline[..|ks| - 1], ks[1..])
  {
    forall i | 0 <= i < |ks| - 1 ensures Matches(inline[..|ks| - 1][|ks| - 2 - i], ks[1..][i]) {
      assert Matches(inline[|ks| - 1 - (i + 1)], ks[i + 1]);
    }
  }

  lemma {:induction false} NoSets(acts: seq<Act>)
    requires Sets(acts) == {}
    ensures !Misreads(acts) && forall n :: Last(acts, n) == None
    decreases |acts|
  {
    if acts != [] {
      var front, last := acts[..|acts| - 1], acts[|acts| - 1];
      assert Sets(front) <= Sets(acts);
      assert last.Set? ==> Get(last.n, last.t) in Sets(acts);
      NoSets(front);
    }
  }

  /** A read after another assignment of its variable, its own not being there. */
  lemma {:induction false} ReadTooLate(a: seq<Act>, b: seq<Act>, g: Act)
    requires Last(a, g.n).Some? && g.Get? && g in Gets(b) && g !in Sets(a + b)
    ensures Misreads(a + b)
    decreases |b|
  {
    var front, last := b[..|b| - 1], b[|b| - 1];
    assert (a + b)[..|a + b| - 1] == a + front;
    if g in Gets(front) {
      ReadTooLate(a, front, g);
    } else {
      assert last == g;
      LastConcat(a, front, g.n);
      LastIsSet(a + front, g.n);
    }
  }

  /** All arguments popped: the stacks are empty then. */
  lemma PopAll(e: Emitter, n: nat)
    requires InOrder(e) && |e.compile| + |e.inline| == n
    ensures
      var p := e.PopTimes(n);
      && p.Popped? && p.rest.compile == [] && p.rest.inline == [] && p.rest.hashes == []
      && Moved(e, [], p.rest, p.acts)
  {
    PopTimesShape(e, n);
    HandlebarsStack.PopManySound(e.Shape(), n);
    var p := e.PopTimes(n);
    assert |p.rest.Shape().compile| == |p.rest.compile| && |p.rest.Shape().inline| == |p.rest.inline|;
    PopTimesMove(e, [], n);
    NothingInHand(p.acts);
  }

  lemma GoodReads(e: Emitter, n: nat)
    requires Good(e) && |e.compile| + |e.inline| == n
    ensures e.PopTimes(n).Popped? && !Misreads(e.PopTimes(n).acts)
  {
    PopAll(e, n);
    SilentGets(e.inline);
    VariablesBelow(e.compile, e.slot);
    assert PendingSets(e, []) == {};
    NoSets(e.PopTimes(n).acts);
  }

  lemma {:induction false} AssignsIsSet(ps: seq<Piece>, i: nat, n: nat)
    requires i < |ps| && Assigns(ps[i], n)
    ensures exists g :: g in PieceSets(ps) && g.n == n
    decreases |ps|
  {
    if i == |ps| - 1 {
      LastIsSet(Acts(ps[i]), n);
      assert Get(n, Last(Acts(ps[i]), n).value) in PieceSets(ps);
    } else {
      AssignsIsSet(ps[..|ps| - 1], i, n);
    }
  }

  /** The texts inline assign the variable, and what follows them reads it. */
  lemma DoomedParts(e: Emitter, n: nat, i: nat, v: nat) returns (a: seq<Act>, b: seq<Act>)
    requires InOrder(e) && |e.compile| + |e.inline| == n && DoomedAt(e, i, v)
    ensures e.PopTimes(n).Popped? && e.PopTimes(n).acts == a + b
    ensures Last(a, e.compile[v].n).Some? && Get(e.compile[v].n, e.compile[v].t) in Gets(b)
  {
    InlineAssigns(e, i, e.compile[v].n);
    CompileReads(e, v);
    PopTimesTwice(e, |e.inline|, |e.compile|);
    var p := e.PopTimes(|e.inline|);
    a, b := p.acts, p.rest.PopTimes(|e.compile|).acts;
  }

  lemma DoomedReads(e: Emitter, n: nat, i: nat, v: nat)
    requires InOrder(e) && |e.compile| + |e.inline| == n && DoomedAt(e, i, v)
    ensures e.PopTimes(n).Popped? && Misreads(e.PopTimes(n).acts)
  {
    var a, b := DoomedParts(e, n, i, v);
    VariableIsNotSet(e, n, v);
    ReadTooLateIn(e.PopTimes(n).acts, a, b, Get(e.compile[v].n, e.compile[v].t));
  }

  lemma ReadTooLateIn(all: seq<Act>, a: seq<Act>, b: seq<Act>, g: Act)
    requires all == a + b && Last(a, g.n).Some? && g.Get? && g in Gets(b) && g !in Sets(all)
    ensures Misreads(all)
  {
    ReadTooLate(a, b, g);
  }

  lemma VariableIsNotSet(e: Emitter, n: nat, v: nat)
    requires InOrder(e) && |e.compile| + |e.inline| == n && v < |e.compile| && e.compile[v].Variable?
    ensures e.PopTimes(n).Popped? && Get(e.compile[v].n, e.compile[v].t) !in Sets(e.PopTimes(n).acts)
  {
    PopAll(e, n);
    VariableIsNeeded(e, v);
  }

  lemma InlineAssigns(e: Emitter, i: nat, n: nat)
    requires InOrder(e) && i < |e.inline| && Assigns(e.inline[i], n)
    ensures e.PopTimes(|e.inline|).Popped? && Last(e.PopTimes(|e.inline|).acts, n).Some?
  {
    PopInline(e, |e.inline|);
    var p := e.PopTimes(|e.inline|);
    PopTimesMove(e, [], |e.inline|);
    NothingInHand(p.acts);
    AssignsIsSet(e.inline, i, n);
    var g :| g in PieceSets(e.inline) && g.n == n;
    VariablesBelow(e.compile, e.slot);
    assert g in PendingSets(p.rest, p.acts);
    assert g in Sets(p.acts);
    LastIsSet(p.acts, n);
  }

  lemma CompileReads(e: Emitter, v: nat)
    requires InOrder(e) && v < |e.compile| && e.compile[v].Variable?
    ensures e.PopTimes(|e.inline|).Popped?
    ensures
      var p := e.PopTimes(|e.inline|);
      var q := p.rest.PopTimes(|e.compile|);
      q.Popped? && Get(e.compile[v].n, e.compile[v].t) in Gets(q.acts)
  {
    PopInline(e, |e.inline|);
    var f := e.PopTimes(|e.inline|).rest;
    PopTimesMove(e, [], |e.inline|);
    assert Orderly(f, []) by { MovedOrderly(e, [], f, [] + e.PopTimes(|e.inline|).acts); StillOrderly(f, [] + e.PopTimes(|e.inline|).acts); }
    assert f.Shape().compile == e.Shape().compile;
    PopAll(f, |e.compile|);
    VariableIsRead(f.compile, v);
  }

  // ---------- The main result ----------

  /** Read so far, and by the arguments when they are popped. */
  lemma ArgumentsRead(e: Emitter, ks: seq<Kind>)
    requires Outcome(e, ks) && |e.compile| + |e.inline| == |ks|
    ensures e.PopTimes(|ks|).Popped? && InOrder(e)
    ensures Sound(e) && !Misreads(e.PopTimes(|ks|).acts) <==> Clean(ks)
  {
    PopAll(e, |ks|);
    if CallArgument !in ks {
      UnstartedClosed(e, ks);
      LinedReads(e, ks, []);
      NothingInHand(e.PopTimes(|ks|).acts);
    } else if Clean(ks) {
      GoodReads(e, |ks|);
    } else if Sound(e) {
      var i, v :| 0 <= i < |e.inline| && 0 <= v < |e.compile| && e.compile[v].Variable? && Assigns(e.inline[i], e.compile[v].n);
      DoomedReads(e, |ks|, i, v);
    }
  }

  lemma {:induction false} ArgueAllCount(ks: seq<Kind>)
    ensures
      var e := ArgueAll(Start, ks);
      HandlebarsStack.Sound(e.Shape()) && |e.compile| + |e.inline| == |ks|
    decreases |ks|
  {
    if ks == [] {
      assert Start.Shape().compile == [];
    } else {
      ArgueAllCount(ks[1..]);
      ArgueShape(ArgueAll(Start, ks[1..]), ks[0]);
    }
  }

  lemma {:induction false} KindsProper(ps: seq<Param>)
    ensures |KindsOf(ps)| == |ps| && Proper(KindsOf(ps))
    decreases |ps|
  {
    if ps != [] { KindsProper(ps[1..]); }
  }

  /** The text of the call, once its arguments are popped, has been written by the last opcode. */
  lemma AppendEscapedWrites(c: Emitter, acts: seq<Act>)
    requires c.compile == [] && c.hashes == [] && c.inline == [Text(acts)]
    ensures EmitStep(c, AppendEscaped) == Some(c.(inline := []).Emit(acts))
    ensures Needs(c.(inline := []).Emit(acts)) == {} && Written(c, c.(inline := []).Emit(acts)) == acts
  {
  }

  lemma AppendStores(c: Emitter, acts: seq<Act>) returns (g: Emitter)
    requires c.compile == [] && c.hashes == [] && c.inline == [Text(acts)]
    ensures EmitStep(c, Append) == Some(g) && Needs(g) == {}
    ensures g.out == c.out + acts + [Set(c.slot + 1, c.next)] + [Get(c.slot + 1, c.next)]
  {
    var get1 := Get(c.slot + 1, c.next);
    var f := c.(inline := []).Store(acts);
    assert c.FlushAll() == f.FlushAll() == f;
    assert f.compile == [Variable(get1.n, get1.t)] && f.compile[..0] == [];
    assert f.Pop() == Popped(f.(compile := [], slot := c.slot), [get1]);
    g := f.(compile := [], slot := c.slot).Emit([get1]);
  }

  lemma ReadBack(out: seq<Act>, acts: seq<Act>, n: nat, t: nat)
    ensures (out + acts + [Set(n, t)] + [Get(n, t)])[|out|..] == acts + [Set(n, t)] + [Get(n, t)]
    ensures Misreads(acts + [Set(n, t)] + [Get(n, t)]) <==> Misreads(acts)
  {
    assert (acts + [Set(n, t)] + [Get(n, t)])[..|acts| + 1] == acts + [Set(n, t)] && (acts + [Set(n, t)])[..|acts|] == acts;
  }

  lemma AppendWrites(c: Emitter, acts: seq<Act>, escaped: bool)
    requires c.compile == [] && c.hashes == [] && c.inline == [Text(acts)]
    ensures
      var s := EmitStep(c, if escaped then AppendEscaped else Append);
      && s.Some? && |c.out| <= |s.value.out| && Needs(s.value) == {}
      && (Misreads(Written(c, s.value)) <==> Misreads(acts))
  {
    if escaped {
      AppendEscapedWrites(c, acts);
    } else {
      var g := AppendStores(c, acts);
      ReadBack(c.out, acts, c.slot + 1, c.next);
    }
  }

  lemma CallWrites(e: Emitter, rest: Emitter, acts: seq<Act>, escaped: bool)
    requires Orderly(e, []) && Moved(e, [], rest, acts) && rest.compile == [] && rest.inline == [] && rest.hashes == []
    ensures
      var s := EmitStep(rest.Push(Text(acts)), if escaped then AppendEscaped else Append);
      s.Some? && (Right(s.value.out) <==> Sound(e) && !Misreads(acts))
  {
    var c, op := rest.Push(Text(acts)), if escaped then AppendEscaped else Append;
    TextBalances(e, rest, acts);
    assert c.inline == [Text(acts)];
    AppendWrites(c, acts, escaped);
    var f := EmitStep(c, op).value;
    var added := StepBalances(c, op);
    assert Written(e, c) == [];
    if Sound(e) {
      StepSound(e, c, {});
      StepSound(c, f, added);
    } else {
      StepUnsound(e, c, {});
      StepUnsound(c, f, added);
    }
  }

  function OneMustache(sx: Sexpr, escaped: bool): Program {
    Program([Mustache(sx, escaped)])
  }

  lemma MustacheOps(o: CompileOptions, sx: Sexpr, escaped: bool)
    requires SexprCompiles(o, sx)
    ensures StatementsCompile(o, OneMustache(sx, escaped).statements)
    ensures ProgramEnvironment(o, OneMustache(sx, escaped)).opcodes ==
      SexprOps(o, sx, None, None) + [if escaped && !o.noEscape then AppendEscaped else Append]
  {
    var s := Mustache(sx, escaped);
    assert [s][1..] == [] && StatementsCompile(o, []) && StatementCompiles(o, s);
    assert StatementsCompile(o, [s]);
    assert StatementsCode(o, [s], 0) == Join(StatementCode(o, s, 0), Code([], [], {}));
  }

  /**
   The text of a helper call reads its variables right exactly when no nested call is among the
   arguments, or no argument but constants follows a path.
   */
  lemma ArgumentsReadRightExactly(o: CompileOptions, sx: Sexpr, escaped: bool)
    requires PlainCall(o, sx) && sx.isRoot && forall i :: 0 <= i < |sx.params| ==> Considered(o, sx.params[i])
    ensures StatementsCompile(o, OneMustache(sx, escaped).statements)
    ensures Right(Source(o, OneMustache(sx, escaped))) <==> Clean(KindsOf(sx.params))
  {
    var ks, escape := KindsOf(sx.params), escaped && !o.noEscape;
    var e := ArgueAll(Start, ks);
    MustacheOps(o, sx, escaped);
    KindsProper(sx.params);
    AllArguments(ks);
    ArgueAllCount(ks);
    ArgumentsRead(e, ks);
    PopAll(e, |ks|);
    var p := e.PopTimes(|ks|);
    assert EmitRun(Start, SexprOps(o, sx, None, None)) == Some(p.rest.Push(Text(p.acts))) by {
      PlainCallOps(o, sx);
      ArgumentsRun(o, Start, sx.params);
      var call := NoOptions() + [InvokeHelper(|sx.params|, sx.head.path.parts[0], true)];
      RunConcat(Start, ParamsOps(o, sx.params), call);
      CallRun(e, |sx.params|, sx.head.path.parts[0], true);
    }
    RunThen(Start, SexprOps(o, sx, None, None), p.rest.Push(Text(p.acts)), if escape then AppendEscaped else Append);
    CallWrites(e, p.rest, p.acts, escape);
  }

  // ---------- Templates that are read wrong, and some that are not ----------

  const NoHelpers := CompileOptions(map[], false, false)

  function Named(parts: seq<string>): Path {
    Path(parts, 0, false)
  }

  /** `(name)` */
  function Nested(name: string): Sexpr {
    Sexpr(IdHead(Named([name])), [], NoHash, true, false)
  }

  /** `{{{f ...}}}` */
  function Calling(ps: seq<Param>): Sexpr {
    Sexpr(IdHead(Named(["f"])), ps, NoHash, false, true)
  }

  lemma NestedIsConsidered(name: string)
    requires !NoHelpers.Known(name)
    ensures Considered(NoHelpers, SubExpression(Nested(name))) && ParamCompiles(NoHelpers, SubExpression(Nested(name)))
  {
  }

  lemma CallingIsPlain(ps: seq<Param>)
    requires ps != [] && ParamsCompile(NoHelpers, ps)
    ensures PlainCall(NoHelpers, Calling(ps))
  {
    assert !NoHelpers.Known("f");
  }

  lemma ExampleReads(ps: seq<Param>)
    requires ps != [] && ParamsCompile(NoHelpers, ps) && forall i :: 0 <= i < |ps| ==> Considered(NoHelpers, ps[i])
    ensures StatementsCompile(NoHelpers, OneMustache(Calling(ps), false).statements)
    ensures Right(Source(NoHelpers, OneMustache(Calling(ps), false))) <==> Clean(KindsOf(ps))
  {
    CallingIsPlain(ps);
    assert Calling(ps).params == ps;
    ArgumentsReadRightExactly(NoHelpers, Calling(ps), false);
  }

  /** `{{{f a.b (g)}}}`: looking up `a.b` assigns the variable that holds the result of `(g)`. */
  lemma PathBeforeCall()
    ensures
      var p := OneMustache(Calling([IdParam(Named(["a", "b"])), SubExpression(Nested("g"))]), false);
      StatementsCompile(NoHelpers, p.statements) && !Right(Source(NoHelpers, p))
  {
    var ps := [IdParam(Named(["a", "b"])), SubExpression(Nested("g"))];
    NestedIsConsidered("g");
    assert ps[1..] == [ps[1]] && ps[1..][1..] == [];
    assert ParamsCompile(NoHelpers, ps[1..]);
    ExampleReads(ps);
    assert KindsOf(ps[1..]) == [CallArgument];
    var ks := KindsOf(ps);
    assert ks[0] == PathArgument(1) && ks[1] == CallArgument;
  }

  /** `{{{f (g) a.b c.d}}}`: the flush before `(g)` is called assigns `c.d` first, and looking up `a.b` overwrites it. */
  lemma PathsAfterCall()
    ensures
      var p := OneMustache(Calling([SubExpression(Nested("g")), IdParam(Named(["a", "b"])), IdParam(Named(["c", "d"]))]), false);
      StatementsCompile(NoHelpers, p.statements) && !Right(Source(NoHelpers, p))
  {
    var ps := [SubExpression(Nested("g")), IdParam(Named(["a", "b"])), IdParam(Named(["c", "d"]))];
    NestedIsConsidered("g");
    assert ps[1..] == [ps[1], ps[2]] && ps[1..][1..] == [ps[2]] && ps[1..][1..][1..] == [];
    assert ParamsCompile(NoHelpers, ps[1..][1..]);
    assert ParamsCompile(NoHelpers, ps[1..]);
    ExampleReads(ps);
    assert KindsOf(ps[1..][1..]) == [PathArgument(1)];
    assert KindsOf(ps[1..]) == [PathArgument(1), PathArgument(1)];
    var ks := KindsOf(ps);
    assert ks[0] == CallArgument && ks[1] == PathArgument(1) && ks[2] == PathArgument(1);
  }

  // ----- Hash arguments -----

  /** `{{{f k=(g) m=(h)}}}` */
  const TwoCallsInHash :=
    Sexpr(IdHead(Named(["f"])), [], HashNode([Pair("k", SubExpression(Nested("g"))), Pair("m", SubExpression(Nested("h")))]), false, true)

  /** The flush of a call's result, only the program literals being below it. */
  lemma CallTakesVariable(e: Emitter)
    requires e.slot == 0 && e.compile + e.inline == [Constant, Constant] && (e.compile == [] || e.inline == [])
    ensures e.Push(Text([])).FlushAll() ==
      e.(compile := [Constant, Constant, Variable(1, e.next)], inline := [], slot := 1, next := e.next + 1, out := e.out + [Set(1, e.next)])
  {
    var f := e.Push(Text([]));
    var g := e.(compile := [Constant, Constant], inline := [Text([])]);
    if e.inline == [] {
      assert e.compile + [] == e.compile && [] + [Text([])] == [Text([])];
      assert f == g;
    } else {
      assert [] + e.inline == e.inline && f.inline == [Constant, Constant, Text([])];
      var f1 := e.(compile := [Constant], inline := [Constant, Text([])]);
      assert f.inline[1..] == [Constant, Text([])] && [] + [Constant] == [Constant];
      assert f.FlushAll() == f1.FlushAll();
      assert f1.inline[1..] == [Text([])] && [Constant] + [Constant] == [Constant, Constant];
      assert f1.FlushAll() == g.FlushAll();
    }
    FlushOneText(g);
  }

  lemma FlushOneText(g: Emitter)
    requires g.slot == 0 && g.compile == [Constant, Constant] && g.inline == [Text([])]
    ensures g.FlushAll() ==
      g.(compile := [Constant, Constant, Variable(1, g.next)], inline := [], slot := 1, next := g.next + 1, out := g.out + [Set(1, g.next)])
  {
    var h := g.(inline := []).Store([]);
    assert g.inline[1..] == [];
    assert g.FlushAll() == h.FlushAll() == h;
    assert [Constant, Constant] + [Variable(1, g.next)] == [Constant, Constant, Variable(1, g.next)];
    assert g.out + [] == g.out;
  }

  /** It is popped into the hash literal, and its variable is free again. */
  lemma VariableIntoHash(g: Emitter, t: nat, key: string)
    requires g.slot == 1 && g.inline == [] && g.compile == [Constant, Constant, Variable(1, t)]
    requires |g.hashes| == 1 && g.hashes[0].Text?
    ensures EmitStep(g, AssignToHash(key)) ==
      Some(g.(compile := [Constant, Constant], slot := 0, hashes := [Text(g.hashes[0].acts + [Get(1, t)])]))
  {
    assert g.compile[..2] == [Constant, Constant];
    assert g.Pop() == Popped(g.(compile := [Constant, Constant], slot := 0), [Get(1, t)]);
    assert g.hashes[..0] == [] && [] + [Text(g.hashes[0].acts + [Get(1, t)])] == [Text(g.hashes[0].acts + [Get(1, t)])];
  }

  lemma CallIntoHash(e: Emitter, name: string, key: string)
    requires !NoHelpers.Known(name)
    requires e.slot == 0 && e.compile + e.inline == [Constant, Constant] && (e.compile == [] || e.inline == [])
    requires |e.hashes| == 1 && e.hashes[0].Text?
    ensures SexprCompiles(NoHelpers, Nested(name))
    ensures
      EmitRun(e, SexprOps(NoHelpers, Nested(name), None, None) + [AssignToHash(key)]) ==
        Some(Emitter([Constant, Constant], [], 0, [Text(e.hashes[0].acts + [Get(1, e.next)])], e.next + 1, e.out + [Set(1, e.next)]))
  {
    NestedIsConsidered(name);
    NestedRun(NoHelpers, e, Nested(name));
    CallTakesVariable(e);
    var g := e.Push(Text([])).FlushAll();
    RunThen(e, SexprOps(NoHelpers, Nested(name), None, None), g, AssignToHash(key));
    VariableIntoHash(g, e.next, key);
  }

  /** Programs pushed and a hash literal begun, nothing inline. */
  lemma HashBegun() returns (e: Emitter)
    ensures EmitRun(Start, [PushProgram(None), PushProgram(None)] + [PushHash]) == Some(e)
    ensures e == Emitter([], [Constant, Constant], 0, [Text([])], 0, [])
  {
    var f := Start.Push(Constant);
    e := Emitter([], [Constant, Constant], 0, [Text([])], 0, []);
    assert f.inline == [Constant] && f.Push(Constant).inline == [Constant, Constant];
    assert f.Push(Constant).hashes + [Text([])] == [Text([])];
    ThreeSteps(Start, PushProgram(None), f, PushProgram(None), f.Push(Constant), PushHash, e);
  }

  lemma TwoCallsCode() returns (g: seq<Opcode>, h: seq<Opcode>)
    ensures SexprCompiles(NoHelpers, TwoCallsInHash)
    ensures SexprCompiles(NoHelpers, Nested("g")) && g == SexprOps(NoHelpers, Nested("g"), None, None) + [AssignToHash("k")]
    ensures SexprCompiles(NoHelpers, Nested("h")) && h == SexprOps(NoHelpers, Nested("h"), None, None) + [AssignToHash("m")]
    ensures SexprOps(NoHelpers, TwoCallsInHash, None, None) ==
      [PushProgram(None), PushProgram(None)] + [PushHash] + g + h + [PopHash] + [InvokeHelper(0, "f", true)]
  {
    NestedIsConsidered("g");
    NestedIsConsidered("h");
    var pairs, progs := TwoCallsInHash.hash.pairs, [PushProgram(None), PushProgram(None)];
    g := SexprOps(NoHelpers, Nested("g"), None, None) + [AssignToHash("k")];
    h := SexprOps(NoHelpers, Nested("h"), None, None) + [AssignToHash("m")];
    assert pairs[1..] == [pairs[1]] && pairs[1..][1..] == [];
    assert PairsCompile(NoHelpers, pairs[1..]);
    assert PairsOps(NoHelpers, pairs[1..]) == h;
    assert PairsOps(NoHelpers, pairs) == g + h;
    assert [] + progs + ([PushHash] + (g + h) + [PopHash]) == progs + [PushHash] + g + h + [PopHash];
  }

  /** `{{{f k=(g) m=(h)}}}`: the results of both calls go into the same variable before the hash is read. */
  lemma CallsInHash()
    ensures
      var p := OneMustache(TwoCallsInHash, false);
      StatementsCompile(NoHelpers, p.statements) && !Right(Source(NoHelpers, p))
  {
    var g, h := TwoCallsCode();
    var begin := [PushProgram(None), PushProgram(None)] + [PushHash];
    var acts := [Get(1, 0)] + [Get(1, 1)];
    var e := HashCollected(begin, g, h);
    HashIsRead(begin + g + h, e, acts);
    MustacheOps(NoHelpers, TwoCallsInHash, false);
    Overwritten();
    RightPrefix2([Set(1, 0)] + [Set(1, 1)] + acts, Source(NoHelpers, OneMustache(TwoCallsInHash, false)));
  }

  lemma HashCollected(begin: seq<Opcode>, g: seq<Opcode>, h: seq<Opcode>) returns (e: Emitter)
    requires begin == [PushProgram(None), PushProgram(None)] + [PushHash]
    requires SexprCompiles(NoHelpers, Nested("g")) && g == SexprOps(NoHelpers, Nested("g"), None, None) + [AssignToHash("k")]
    requires SexprCompiles(NoHelpers, Nested("h")) && h == SexprOps(NoHelpers, Nested("h"), None, None) + [AssignToHash("m")]
    ensures EmitRun(Start, begin + g + h) == Some(e)
    ensures e == Emitter([Constant, Constant], [], 0, [Text([Get(1, 0)] + [Get(1, 1)])], 2, [Set(1, 0)] + [Set(1, 1)])
  {
    var e0 := HashBegun();
    var e1 := Emitter([Constant, Constant], [], 0, [Text([Get(1, 0)])], 1, [Set(1, 0)]);
    e := Emitter([Constant, Constant], [], 0, [Text([Get(1, 0)] + [Get(1, 1)])], 2, [Set(1, 0)] + [Set(1, 1)]);
    assert EmitRun(Start, begin + g) == Some(e1) by {
      CallIntoHash(e0, "g", "k");
      RunConcat(Start, begin, g);
      assert [] + [Get(1, 0)] == [Get(1, 0)] && [] + [Set(1, 0)] == [Set(1, 0)];
    }
    assert EmitRun(Start, begin + g + h) == Some(e) by {
      CallIntoHash(e1, "h", "m");
      RunConcat(Start, begin + g, h);
    }
  }

  lemma Overwritten()
    ensures !Right([Set(1, 0)] + [Set(1, 1)] + ([Get(1, 0)] + [Get(1, 1)]))
  {
    var two := [Set(1, 0)] + [Set(1, 1)];
    Associate(two, [Get(1, 0)], [Get(1, 1)]);
    assert (two + [Get(1, 0)])[..2] == two && Last(two, 1) == Some(1);
    assert !Right(two + [Get(1, 0)]);
    assert (two + [Get(1, 0)] + [Get(1, 1)])[..3] == two + [Get(1, 0)];
  }

  lemma RightPrefix2(a: seq<Act>, all: seq<Act>)
    requires a <= all && !Right(a)
    ensures !Right(all)
  {
    if Right(all) {
      assert all == a + all[|a|..];
      RightPrefix(a, all[|a|..]);
    }
  }

  /** The hash is popped into the call, and the call written. */
  lemma HashIsRead(ops: seq<Opcode>, e: Emitter, acts: seq<Act>)
    requires EmitRun(Start, ops) == Some(e) && e.compile == [Constant, Constant] && e.inline == [] && e.slot == 0 && e.hashes == [Text(acts)]
    ensures
      var s := EmitRun(Start, ops + [PopHash] + [InvokeHelper(0, "f", true)] + [Append]);
      s.Some? && e.out + acts <= s.value.out
  {
    var f := e.(inline := [Text(acts)], hashes := []);
    assert e.hashes[..0] == [] && [] + [Text(acts)] == [Text(acts)];
    assert EmitStep(e, PopHash) == Some(f);
    RunThen(Start, ops, e, PopHash);
    var c := f.(inline := [Text(acts)], compile := []);
    assert f.PopTimes(3) == Popped(f.(inline := [], compile := []), acts) by { PopHashAndPrograms(f, acts); }
    assert EmitStep(f, InvokeHelper(0, "f", true)) == Some(c) by {
      NothingInHand(acts);
      assert f.(inline := [], compile := []).PopTimes(0) == Popped(f.(inline := [], compile := []), []);
      assert [] + [Text(acts)] == [Text(acts)];
    }
    RunThen(Start, ops + [PopHash], f, InvokeHelper(0, "f", true));
    var g := AppendStores(c, acts);
    RunThen(Start, ops + [PopHash] + [InvokeHelper(0, "f", true)], c, Append);
  }

  lemma PopHashAndPrograms(f: Emitter, acts: seq<Act>)
    requires f.compile == [Constant, Constant] && f.inline == [Text(acts)]
    ensures f.PopTimes(3) == Popped(f.(inline := [], compile := []), acts)
  {
    var f1, f2, f3 := f.(inline := []), f.(inline := [], compile := [Constant]), f.(inline := [], compile := []);
    assert f.inline[..0] == [] && f.Pop() == Popped(f1, acts);
    assert f1.compile[..1] == [Constant] && f1.Pop() == Popped(f2, []);
    assert f2.compile[..0] == [] && f2.Pop() == Popped(f3, []);
    assert f3.PopTimes(0) == Popped(f3, []);
    assert f2.PopTimes(1) == Popped(f3, [] + []);
    assert f1.PopTimes(2) == Popped(f3, [] + ([] + []));
    NothingInHand(acts);
  }
}

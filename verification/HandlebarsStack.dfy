/**
 The compile-time stack of the second pass.  `JavaScriptCompiler` keeps it in two pieces,
 `compileStack` for values held in `stackN` variables and `inlineStack` for expressions not yet
 assigned, and the hash literals that are being built aside.  This module looks at the kinds of
 the entries only; it shows that the two pieces behave as one stack, that `stackSlot` counts the
 variables in use, and that no template makes the pass throw.
 */
module HandlebarsStack {
  import opened Options
  import opened HandlebarsAst
  import opened HandlebarsCompiler

  /** A `Literal`, the variable `stackN`, or any other expression text. */
  datatype Entry = LiteralEntry | SlotEntry(n: nat) | InlineEntry

  /** `hashes` is the number of hash literals begun and not ended. */
  datatype Stacks = Stacks(compile: seq<Entry>, inline: seq<Entry>, slot: nat, hashes: nat) {
    function Depth(): nat {
      |compile| + |inline|
    }
  }

  /** The variables on the compile stack are `stack1` .. `stackN` in order, N being `slot`. */
  predicate SlotsInOrder(compile: seq<Entry>, slot: nat) {
    if compile == [] then slot == 0
    else
      var front, last := compile[..|compile| - 1], compile[|compile| - 1];
      match last
      case LiteralEntry => SlotsInOrder(front, slot)
      case SlotEntry(n) => n == slot && slot > 0 && SlotsInOrder(front, slot - 1)
      case InlineEntry => false
  }

  predicate Sound(s: Stacks) {
    SlotsInOrder(s.compile, s.slot)
  }

  function Variables(entries: seq<Entry>): nat {
    if entries == [] then 0
    else Variables(entries[..|entries| - 1]) + if entries[|entries| - 1].LiteralEntry? then 0 else 1
  }

  /** `stackSlot` is the number of non-literal entries of `compileStack`. */
  lemma {:induction false} SlotCountsVariables(compile: seq<Entry>, slot: nat)
    requires SlotsInOrder(compile, slot)
    ensures slot == Variables(compile)
  {
    if compile != [] {
      var front := compile[..|compile| - 1];
      if compile[|compile| - 1].LiteralEntry? { SlotCountsVariables(front, slot); } else { SlotCountsVariables(front, slot - 1); }
    }
  }

  // ---------- Stack primitives ----------

  function PushInline(s: Stacks, e: Entry): Stacks {
    s.(inline := s.inline + [e])
  }

  /** `popStack()`: `None` where the source throws "Invalid stack pop". */
  function Pop(s: Stacks): Option<Stacks> {
    if s.inline != [] then Some(s.(inline := s.inline[..|s.inline| - 1]))
    else if s.compile != [] && s.compile[|s.compile| - 1].LiteralEntry? then Some(s.(compile := s.compile[..|s.compile| - 1]))
    else if s.slot == 0 then None
    else Some(s.(compile := if s.compile == [] then [] else s.compile[..|s.compile| - 1], slot := s.slot - 1))
  }

  function PopMany(s: Stacks, n: nat): Option<Stacks>
    decreases n
  {
    if n == 0 then Some(s)
    else
      match Pop(s)
      case None => None
      case Some(t) => PopMany(t, n - 1)
  }

  /** `pushStack` with nothing inline. */
  function PushVariable(s: Stacks): Stacks {
    s.(compile := s.compile + [SlotEntry(s.slot + 1)], slot := s.slot + 1)
  }

  function FlushEntry(s: Stacks, e: Entry): Stacks {
    if e.LiteralEntry? then s.(compile := s.compile + [e]) else PushVariable(s)
  }

  function FlushEntries(s: Stacks, entries: seq<Entry>): Stacks {
    if entries == [] then s
    else FlushEntry(FlushEntries(s, entries[..|entries| - 1]), entries[|entries| - 1])
  }

  function Flush(s: Stacks): Stacks {
    FlushEntries(s.(inline := []), s.inline)
  }

  /** `replaceStack`: rewrites the top; a literal that is already flushed is left below a new variable. */
  function Replace(s: Stacks): Stacks {
    if s.inline != [] then s.(inline := s.inline[..|s.inline| - 1] + [InlineEntry])
    else if s.compile != [] && s.compile[|s.compile| - 1].SlotEntry? then s
    else PushVariable(s)
  }

  function PushAll(s: Option<Stacks>, e: Entry): Option<Stacks> {
    match s
    case None => None
    case Some(t) => Some(PushInline(t, e))
  }

  /** What `ambiguousBlockValue` assigns to is a variable. */
  predicate TopIsVariable(s: Stacks) {
    s.inline == [] && s.compile != [] && s.compile[|s.compile| - 1].SlotEntry?
  }

  /** What one opcode does to the stacks; `None` where the source throws or writes an assignment to no variable. */
  function StackStep(s: Stacks, op: Opcode): Option<Stacks> {
    match op
    case AppendContent(_) => Some(s)
    case GetContext(_) => Some(s)
    case PushHash => Some(s.(hashes := s.hashes + 1))
    case Append => Pop(Flush(s))
    case AppendEscaped => Pop(s)
    case PushContext => Some(PushInline(s, LiteralEntry))
    case LookupData => Some(PushInline(s, LiteralEntry))
    case PushString(_) => Some(PushInline(s, LiteralEntry))
    case PushLiteral(_) => Some(PushInline(s, LiteralEntry))
    case PushProgram(_) => Some(PushInline(s, LiteralEntry))
    case EmptyHash => Some(PushInline(s, LiteralEntry))
    case LookupOnContext(_) => Some(PushInline(s, InlineEntry))
    case PopHash => if s.hashes == 0 then None else Some(PushInline(s.(hashes := s.hashes - 1), InlineEntry))
    case PushDepth0 => Some(PushInline(s, InlineEntry))
    case Lookup(_) => Some(Replace(s))
    case ResolvePossibleLambda => Some(Replace(s))
    case AssignToHash(_) => if s.hashes == 0 then None else Pop(s)
    case InvokeKnownHelper(argc, _) => PushAll(PopMany(s, 3 + argc), InlineEntry)
    case InvokeHelper(argc, _, isRoot) =>
      (match PushAll(PopMany(s, 3 + argc), InlineEntry)
       case None => None
       case Some(t) => Some(if isRoot then t else Flush(t)))
    case InvokeAmbiguous(_, _) =>
      (match PopMany(PushInline(s, LiteralEntry), 3)
       case None => None
       case Some(t) => Some(PushVariable(Flush(t))))
    case BlockValue => (match PopMany(s, 3) case None => None case Some(t) => Some(Replace(t)))
    case AmbiguousBlockValue =>
      (match PopMany(s, 3)
       case None => None
       case Some(t) => if TopIsVariable(t) then Some(t) else None)
    case InvokePartial(_) => PushAll(Pop(s), InlineEntry)
  }

  function StackRun(s: Stacks, ops: seq<Opcode>): Option<Stacks>
    decreases ops
  {
    if ops == [] then Some(s)
    else
      match StackStep(s, ops[0])
      case None => None
      case Some(t) => StackRun(t, ops[1..])
  }

  const Empty := Stacks([], [], 0, 0)

  // ---------- Primitives keep the stack sound ----------

  lemma PopSound(s: Stacks)
    requires Sound(s)
    ensures s.Depth() > 0 <==> Pop(s).Some?
    ensures Pop(s).Some? ==> Sound(Pop(s).value) && Pop(s).value.Depth() == s.Depth() - 1 && Pop(s).value.hashes == s.hashes
  {
  }

  lemma {:induction false} PopManySound(s: Stacks, n: nat)
    requires Sound(s)
    ensures PopMany(s, n).Some? <==> s.Depth() >= n
    ensures PopMany(s, n).Some? ==>
      Sound(PopMany(s, n).value) && PopMany(s, n).value.Depth() == s.Depth() - n && PopMany(s, n).value.hashes == s.hashes
    ensures n <= |s.inline| ==> PopMany(s, n) == Some(s.(inline := s.inline[..|s.inline| - n]))
    decreases n
  {
    PopSound(s);
    if n > 0 && Pop(s).Some? {
      PopManySound(Pop(s).value, n - 1);
      if n <= |s.inline| { assert s.inline[..|s.inline| - 1][..|s.inline| - n] == s.inline[..|s.inline| - n]; }
    } else if n == 0 {
      assert s.inline[..|s.inline|] == s.inline;
    }
  }

  lemma VariableSound(s: Stacks)
    requires Sound(s)
    ensures Sound(PushVariable(s)) && PushVariable(s).Depth() == s.Depth() + 1
  {
    var t := PushVariable(s);
    assert t.compile[..|t.compile| - 1] == s.compile;
  }

  lemma {:induction false} FlushEntriesSound(s: Stacks, entries: seq<Entry>)
    requires Sound(s)
    ensures
      var t := FlushEntries(s, entries);
      Sound(t) && t.inline == s.inline && |t.compile| == |s.compile| + |entries| && t.hashes == s.hashes
    decreases |entries|
  {
    if entries != [] {
      var t := FlushEntries(s, entries[..|entries| - 1]);
      FlushEntriesSound(s, entries[..|entries| - 1]);
      VariableSound(t);
      assert (t.compile + [LiteralEntry])[..|t.compile|] == t.compile;
    }
  }

  lemma FlushSound(s: Stacks)
    requires Sound(s)
    ensures Sound(Flush(s)) && Flush(s).Depth() == s.Depth() && Flush(s).inline == [] && Flush(s).hashes == s.hashes
  {
    FlushEntriesSound(s.(inline := []), s.inline);
  }

  lemma {:induction false} StackRunConcat(s: Stacks, a: seq<Opcode>, b: seq<Opcode>)
    ensures StackRun(s, a + b) == (match StackRun(s, a) case None => None case Some(t) => StackRun(t, b))
    decreases a
  {
    if a == [] {
      assert a + b == b;
    } else {
      assert (a + b)[1..] == a[1..] + b;
      var t := StackStep(s, a[0]);
      if t.Some? { StackRunConcat(t.value, a[1..], b); }
    }
  }

  lemma StackRunOne(s: Stacks, op: Opcode)
    ensures StackRun(s, [op]) == StackStep(s, op)
  {
    assert [op][1..] == [];
  }

  // ---------- Expressions push one entry ----------

  /** Running `ops` succeeds and leaves a sound stack deeper by `n`, and `h` more hash literals begun. */
  ghost predicate Grows(s: Stacks, ops: seq<Opcode>, n: int, h: int := 0) {
    var t := StackRun(s, ops);
    t.Some? && Sound(t.value) && t.value.Depth() == s.Depth() + n && t.value.hashes == s.hashes + h
  }

  lemma GrowsConcat(s: Stacks, a: seq<Opcode>, b: seq<Opcode>, m: int, n: int, h: int := 0, k: int := 0)
    requires Grows(s, a, m, h) && Grows(StackRun(s, a).value, b, n, k)
    ensures Grows(s, a + b, m + n, h + k)
    ensures StackRun(s, a + b) == StackRun(StackRun(s, a).value, b)
  {
    StackRunConcat(s, a, b);
  }

  lemma {:induction false} LookupsStack(s: Stacks, e: Entry, parts: seq<string>) returns (r: Entry)
    ensures StackRun(PushInline(s, e), LookupOps(parts)) == Some(PushInline(s, r))
    decreases parts
  {
    if parts == [] {
      r := e;
    } else {
      var t := PushInline(s, e);
      assert t.inline[..|t.inline| - 1] == s.inline;
      assert Replace(t) == PushInline(s, InlineEntry);
      assert LookupOps(parts)[1..] == LookupOps(parts[1..]);
      r := LookupsStack(s, InlineEntry, parts[1..]);
    }
  }

  lemma PathStack(s: Stacks, p: Path) returns (e: Entry)
    ensures StackRun(s, PathOps(p)) == Some(PushInline(s, e))
  {
    var get := if p.IsContext() then PushContext else LookupOnContext(p.parts[0]);
    var first := if p.IsContext() then LiteralEntry else InlineEntry;
    StackRunOne(s, GetContext(p.depth));
    StackRunOne(s, get);
    assert [GetContext(p.depth), get] == [GetContext(p.depth)] + [get];
    StackRunConcat(s, [GetContext(p.depth)], [get]);
    StackRunConcat(s, [GetContext(p.depth), get], LookupOps(p.Rest()));
    e := LookupsStack(s, first, p.Rest());
  }

  lemma HeadStack(s: Stacks, h: Head) returns (e: Entry)
    ensures StackRun(s, HeadOps(h)) == Some(PushInline(s, e))
  {
    match h
    case IdHead(p) => e := PathStack(s, p);
    case DataHead(p) =>
      StackRunOne(s, LookupData);
      StackRunConcat(s, [LookupData], LookupOps(p.parts));
      e := LookupsStack(s, LiteralEntry, p.parts);
  }

  lemma SimpleStack(s: Stacks, h: Head)
    ensures StackRun(s, HeadOps(h) + [ResolvePossibleLambda]) == Some(PushInline(s, InlineEntry))
  {
    var e := HeadStack(s, h);
    StackRunConcat(s, HeadOps(h), [ResolvePossibleLambda]);
    var t := PushInline(s, e);
    StackRunOne(t, ResolvePossibleLambda);
    assert t.inline[..|t.inline| - 1] == s.inline;
  }

  lemma LiteralsStack(s: Stacks, prog: Option<nat>, inv: Option<nat>)
    ensures StackRun(s, [PushProgram(prog), PushProgram(inv)]) == Some(s.(inline := s.inline + [LiteralEntry, LiteralEntry]))
  {
    var ops := [PushProgram(prog), PushProgram(inv)];
    var t := PushInline(s, LiteralEntry);
    assert ops[1..] == [PushProgram(inv)];
    StackRunOne(t, PushProgram(inv));
    assert t.inline + [LiteralEntry] == s.inline + [LiteralEntry, LiteralEntry];
  }

  lemma AmbiguousStack(s: Stacks, name: string, prog: Option<nat>, inv: Option<nat>)
    requires Sound(s)
    ensures Grows(s, AmbiguousOps(name, 0, prog, inv), 1) && TopIsVariable(StackRun(s, AmbiguousOps(name, 0, prog, inv)).value)
  {
    var progs, invoke := [PushProgram(prog), PushProgram(inv)], InvokeAmbiguous(name, prog.Some? || inv.Some?);
    var t := s.(inline := s.inline + [LiteralEntry, LiteralEntry]);
    assert StackRun(s, AmbiguousOps(name, 0, prog, inv)) == StackStep(t, invoke) by {
      assert AmbiguousOps(name, 0, prog, inv) == [GetContext(0)] + (progs + [invoke]);
      StackRunOne(s, GetContext(0));
      StackRunConcat(s, [GetContext(0)], progs + [invoke]);
      StackRunConcat(s, progs, [invoke]);
      LiteralsStack(s, prog, inv);
      StackRunOne(t, invoke);
    }
    InvokeStack(t, name, prog.Some? || inv.Some?);
  }

  lemma InvokeStack(t: Stacks, name: string, isBlock: bool)
    requires Sound(t) && t.Depth() >= 2
    ensures
      var s := StackStep(t, InvokeAmbiguous(name, isBlock));
      && s.Some? && Sound(s.value) && TopIsVariable(s.value)
      && s.value.Depth() == t.Depth() - 1 && s.value.hashes == t.hashes
  {
    PopManySound(PushInline(t, LiteralEntry), 3);
    var u := PopMany(PushInline(t, LiteralEntry), 3).value;
    FlushSound(u);
    VariableSound(Flush(u));
  }

  lemma {:induction false} SexprStack(o: CompileOptions, s: Stacks, sx: Sexpr, prog: Option<nat>, inv: Option<nat>)
    requires SexprCompiles(o, sx) && Sound(s)
    ensures Grows(s, SexprOps(o, sx, prog, inv), 1)
    ensures Classify(o, sx).SimpleType? ==> StackRun(s, SexprOps(o, sx, prog, inv)) == Some(PushInline(s, InlineEntry))
    ensures Classify(o, sx).AmbiguousType? ==> TopIsVariable(StackRun(s, SexprOps(o, sx, prog, inv)).value)
    decreases sx, 2
  {
    match Classify(o, sx)
    case SimpleType => SimpleStack(s, sx.head);
    case AmbiguousType => AmbiguousStack(s, sx.head.path.parts[0], prog, inv);
    case HelperType => CallStack(o, s, sx, prog, inv);
  }

  lemma CallStack(o: CompileOptions, s: Stacks, sx: Sexpr, prog: Option<nat>, inv: Option<nat>)
    requires SexprCompiles(o, sx) && Classify(o, sx).HelperType? && Sound(s)
    ensures Grows(s, SexprOps(o, sx, prog, inv), 1)
    decreases sx, 1
  {
    var params, progs := ParamsOps(o, sx.params), [PushProgram(prog), PushProgram(inv)];
    var hash := HashOps(o, sx.hash);
    assert OperandsOps(o, sx, prog, inv) == params + progs + hash;
    ParamsStack(o, s, sx.params);
    var s1 := StackRun(s, params).value;
    LiteralsStack(s1, prog, inv);
    GrowsConcat(s, params, progs, |sx.params|, 2);
    var s2 := StackRun(s, params + progs).value;
    HashStack(o, s2, sx);
    GrowsConcat(s, params + progs, hash, |sx.params| + 2, 1);
    var s3 := StackRun(s, params + progs + hash).value;
    CallOpStack(o, s3, sx);
    GrowsConcat(s, params + progs + hash, [CallOp(o, sx)], |sx.params| + 3, -2 - |sx.params|);
  }

  lemma CallOpStack(o: CompileOptions, s: Stacks, sx: Sexpr)
    requires CallCompiles(o, sx.head) && Sound(s) && s.Depth() >= 3 + |sx.params|
    ensures Grows(s, [CallOp(o, sx)], -2 - |sx.params|)
  {
    StackRunOne(s, CallOp(o, sx));
    PopManySound(s, 3 + |sx.params|);
    FlushSound(PushInline(PopMany(s, 3 + |sx.params|).value, InlineEntry));
  }

  lemma HashStack(o: CompileOptions, s: Stacks, sx: Sexpr)
    requires sx.hash.HashNode? ==> PairsCompile(o, sx.hash.pairs)
    requires Sound(s)
    ensures Grows(s, HashOps(o, sx.hash), 1)
    decreases sx, 0
  {
    if sx.hash.HashNode? {
      var pairs := PairsOps(o, sx.hash.pairs);
      StackRunOne(s, PushHash);
      PairsStack(o, StackRun(s, [PushHash]).value, sx.hash.pairs);
      GrowsConcat(s, [PushHash], pairs, 0, 0, 1, 0);
      StackRunOne(StackRun(s, [PushHash] + pairs).value, PopHash);
      GrowsConcat(s, [PushHash] + pairs, [PopHash], 0, 1, 1, -1);
    } else {
      StackRunOne(s, EmptyHash);
    }
  }

  lemma {:induction false} ParamStack(o: CompileOptions, s: Stacks, p: Param)
    requires ParamCompiles(o, p) && Sound(s)
    ensures Grows(s, ParamOps(o, p), 1)
    decreases p
  {
    match p
    case SubExpression(sx) => SexprStack(o, s, sx, None, None);
    case IdParam(path) => var _ := PathStack(s, path);
    case DataParam(path) => var _ := HeadStack(s, DataHead(path));
    case StringParam(t) => StackRunOne(s, PushString(t));
    case LiteralParam(l) => StackRunOne(s, PushLiteral(l));
  }

  lemma {:induction false} ParamsStack(o: CompileOptions, s: Stacks, ps: seq<Param>)
    requires ParamsCompile(o, ps) && Sound(s)
    ensures Grows(s, ParamsOps(o, ps), |ps|)
    decreases ps
  {
    if ps != [] {
      ParamsStack(o, s, ps[1..]);
      ParamStack(o, StackRun(s, ParamsOps(o, ps[1..])).value, ps[0]);
      GrowsConcat(s, ParamsOps(o, ps[1..]), ParamOps(o, ps[0]), |ps| - 1, 1);
    }
  }

  lemma {:induction false} PairsStack(o: CompileOptions, s: Stacks, ps: seq<Pair>)
    requires PairsCompile(o, ps) && Sound(s) && s.hashes > 0
    ensures Grows(s, PairsOps(o, ps), 0)
    decreases ps
  {
    if ps != [] {
      var ops, assign := ParamOps(o, ps[0].value), [AssignToHash(ps[0].key)];
      ParamStack(o, s, ps[0].value);
      var t := StackRun(s, ops).value;
      StackRunOne(t, assign[0]);
      PopSound(t);
      GrowsConcat(s, ops, assign, 1, -1);
      PairsStack(o, StackRun(s, ops + assign).value, ps[1..]);
      GrowsConcat(s, ops + assign, PairsOps(o, ps[1..]), 0, 0);
    }
  }

  // ---------- Statements leave the stack as it was ----------

  lemma AppendStack(s: Stacks, escape: bool)
    requires Sound(s) && s.Depth() > 0
    ensures Grows(s, [if escape then AppendEscaped else Append], -1)
  {
    StackRunOne(s, if escape then AppendEscaped else Append);
    FlushSound(s);
    PopSound(s);
    PopSound(Flush(s));
  }

  /** After a simple expression its value is still inline, so `blockValue` finds it where `replaceStack` needs it. */
  lemma TailStack(o: CompileOptions, s: Stacks, sx: Sexpr, prog: Option<nat>, inv: Option<nat>)
    requires Sound(s) && s.Depth() > 0
    requires Classify(o, sx).SimpleType? ==> s.inline != []
    requires Classify(o, sx).AmbiguousType? ==> TopIsVariable(s)
    ensures Grows(s, BlockTailOps(o, sx, prog, inv), -1)
  {
    if Classify(o, sx).HelperType? {
      AppendStack(s, false);
    } else {
      var op := if Classify(o, sx).SimpleType? then BlockValue else AmbiguousBlockValue;
      assert BlockTailOps(o, sx, prog, inv) == [PushProgram(prog), PushProgram(inv)] + ([EmptyHash] + ([op] + [Append]));
      MissingTailStack(s, op, prog, inv);
    }
  }

  lemma MissingTailStack(s: Stacks, op: Opcode, prog: Option<nat>, inv: Option<nat>)
    requires Sound(s) && s.Depth() > 0 && (op.BlockValue? || op.AmbiguousBlockValue?)
    requires if op.BlockValue? then s.inline != [] else TopIsVariable(s)
    ensures Grows(s, [PushProgram(prog), PushProgram(inv)] + ([EmptyHash] + ([op] + [Append])), -1)
  {
    var progs, rest := [PushProgram(prog), PushProgram(inv)], [op] + [Append];
    var t := s.(inline := s.inline + [LiteralEntry, LiteralEntry]);
    var u := PushInline(t, LiteralEntry);
    var v := if op.BlockValue? then Replace(s) else s;
    assert StackRun(s, progs + ([EmptyHash] + rest)) == StackRun(t, [EmptyHash] + rest) by {
      LiteralsStack(s, prog, inv);
      StackRunConcat(s, progs, [EmptyHash] + rest);
    }
    assert StackRun(t, [EmptyHash] + rest) == StackRun(u, rest) by {
      StackRunOne(t, EmptyHash);
      StackRunConcat(t, [EmptyHash], rest);
    }
    assert StackStep(u, op) == Some(v) by {
      PopManySound(u, 3);
      assert u.inline[..|u.inline| - 3] == s.inline;
    }
    assert StackRun(u, rest) == StackRun(v, [Append]) by {
      StackRunOne(u, op);
      StackRunConcat(u, [op], [Append]);
    }
    AppendStack(v, false);
  }

  lemma {:induction false} StatementStack(o: CompileOptions, s: Stacks, st: Statement, g: nat)
    requires StatementCompiles(o, st) && Sound(s)
    ensures Grows(s, StatementCode(o, st, g).ops, 0)
  {
    match st
    case Content(t) => StackRunOne(s, AppendContent(t));
    case Comment =>
    case Mustache(sx, escaped) =>
      var escape := escaped && !o.noEscape;
      SexprStack(o, s, sx, None, None);
      AppendStack(StackRun(s, SexprOps(o, sx, None, None)).value, escape);
      GrowsConcat(s, SexprOps(o, sx, None, None), [if escape then AppendEscaped else Append], 1, -1);
    case Partial(name, context) =>
      var push := if context.Some? then PathOps(context.value) else [PushDepth0];
      PartialStack(s, name, context);
      assert push + [InvokePartial(name)] + [Append] == push + [InvokePartial(name), Append];
    case Block(sx, bs) =>
      var prog, inv := ProgramGuid(bs, g), InverseGuid(bs, g);
      SexprStack(o, s, sx, prog, inv);
      TailStack(o, StackRun(s, SexprOps(o, sx, prog, inv)).value, sx, prog, inv);
      GrowsConcat(s, SexprOps(o, sx, prog, inv), BlockTailOps(o, sx, prog, inv), 1, -1);
  }

  lemma PartialStack(s: Stacks, name: string, context: Option<Path>)
    requires Sound(s)
    ensures
      var push := if context.Some? then PathOps(context.value) else [PushDepth0];
      Grows(s, push + [InvokePartial(name)] + [Append], 0)
  {
    var push := if context.Some? then PathOps(context.value) else [PushDepth0];
    assert Grows(s, push, 1) by {
      if context.Some? { var _ := PathStack(s, context.value); } else { StackRunOne(s, PushDepth0); }
    }
    var t := StackRun(s, push).value;
    assert Grows(s, push + [InvokePartial(name)], 1) by {
      StackRunOne(t, InvokePartial(name));
      PopSound(t);
      GrowsConcat(s, push, [InvokePartial(name)], 1, 0);
    }
    assert Grows(StackRun(s, push + [InvokePartial(name)]).value, [Append], -1) by {
      AppendStack(StackRun(s, push + [InvokePartial(name)]).value, false);
    }
    GrowsConcat(s, push + [InvokePartial(name)], [Append], 1, -1);
  }

  lemma {:induction false} StatementsStack(o: CompileOptions, s: Stacks, ss: seq<Statement>, g: nat)
    requires StatementsCompile(o, ss) && Sound(s)
    ensures Grows(s, StatementsCode(o, ss, g).ops, 0)
    decreases ss
  {
    if ss != [] {
      var c := StatementCode(o, ss[0], g);
      var d := StatementsCode(o, ss[1..], g + |c.children|);
      assert StatementsCode(o, ss, g).ops == c.ops + d.ops;
      StatementStack(o, s, ss[0], g);
      StatementsStack(o, StackRun(s, c.ops).value, ss[1..], g + |c.children|);
      GrowsConcat(s, c.ops, d.ops, 0, 0);
    }
  }

  /** The second pass never throws: no pop fails, and both stacks are empty, with no variable in use, at the end. */
  lemma StackIsBalanced(o: CompileOptions, p: Program)
    requires StatementsCompile(o, p.statements)
    ensures StackRun(Empty, ProgramEnvironment(o, p).opcodes) == Some(Empty)
  {
    StatementsStack(o, Empty, p.statements, 0);
  }

  /** No entry is left and no variable in use. */
  predicate Cleared(s: Stacks) {
    s.compile == [] && s.inline == [] && s.slot == 0
  }

  /** The second pass gets through these opcodes without throwing. */
  predicate Passes(ops: seq<Opcode>) {
    var s := StackRun(Empty, ops);
    s.Some? && Cleared(s.value)
  }

  /** It gets through the program and everything nested in it. */
  predicate PassesThroughout(env: Environment) {
    Passes(env.opcodes) && AllPass(env.children)
  }

  predicate AllPass(cs: seq<Environment>) {
    cs == [] || (AllPass(cs[..|cs| - 1]) && PassesThroughout(cs[|cs| - 1]))
  }

  lemma {:induction false} AllPassConcat(a: seq<Environment>, b: seq<Environment>)
    ensures AllPass(a + b) <==> AllPass(a) && AllPass(b)
    decreases |b|
  {
    if b == [] {
      assert a + b == a;
    } else {
      assert (a + b)[..|a + b| - 1] == a + b[..|b| - 1];
      AllPassConcat(a, b[..|b| - 1]);
    }
  }

  lemma {:induction false} EachPasses(cs: seq<Environment>, i: nat)
    requires i < |cs| && AllPass(cs)
    ensures PassesThroughout(cs[i])
    decreases |cs|
  {
    if i < |cs| - 1 { EachPasses(cs[..|cs| - 1], i); }
  }

  lemma OneMorePasses(cs: seq<Environment>, i: nat)
    requires i < |cs| && AllPass(cs[..i]) && PassesThroughout(cs[i])
    ensures AllPass(cs[..i + 1])
  {
    assert cs[..i + 1][..i] == cs[..i];
  }

  lemma NestedProgramPasses(o: CompileOptions, p: Option<Program>)
    requires p.Some? ==> StatementsCompile(o, p.value.statements)
    ensures AllPass(NestedChildren(o, p))
    decreases p, 1
  {
    if p.Some? {
      ProgramPasses(o, p.value);
      assert NestedChildren(o, p)[..0] == [];
    }
  }

  lemma NestedPass(o: CompileOptions, bs: Blocks)
    requires NestedCompile(o, bs)
    ensures AllPass(BlockChildren(o, bs))
    decreases bs, 2
  {
    NestedProgramPasses(o, bs.program);
    NestedProgramPasses(o, bs.inverse);
    AllPassConcat(NestedChildren(o, bs.program), NestedChildren(o, bs.inverse));
  }

  lemma {:induction false} StatementsPass(o: CompileOptions, ss: seq<Statement>, g: nat)
    requires StatementsCompile(o, ss)
    ensures AllPass(StatementsCode(o, ss, g).children)
    decreases ss
  {
    if ss != [] {
      var c := StatementCode(o, ss[0], g);
      StatementPasses(o, ss[0], g);
      StatementsPass(o, ss[1..], g + |c.children|);
      AllPassConcat(c.children, StatementsCode(o, ss[1..], g + |c.children|).children);
    }
  }

  lemma StatementPasses(o: CompileOptions, s: Statement, g: nat)
    requires StatementCompiles(o, s)
    ensures AllPass(StatementCode(o, s, g).children)
    decreases s
  {
    if s.Block? { NestedPass(o, s.blocks); }
  }

  /** Every accepted template passes, and so does every program nested in it. */
  lemma ProgramPasses(o: CompileOptions, p: Program)
    requires StatementsCompile(o, p.statements)
    ensures PassesThroughout(ProgramEnvironment(o, p))
    decreases p
  {
    StackIsBalanced(o, p);
    StatementsPass(o, p.statements, 0);
  }

  lemma CallStepSound(s: Stacks, argc: nat, flush: bool)
    requires Sound(s) && PopMany(s, 3 + argc).Some?
    ensures
      var t := PushInline(PopMany(s, 3 + argc).value, InlineEntry);
      Sound(if flush then Flush(t) else t)
  {
    PopManySound(s, 3 + argc);
    FlushSound(PushInline(PopMany(s, 3 + argc).value, InlineEntry));
  }

  lemma AmbiguousStepSound(s: Stacks)
    requires Sound(s) && PopMany(PushInline(s, LiteralEntry), 3).Some?
    ensures Sound(PushVariable(Flush(PopMany(PushInline(s, LiteralEntry), 3).value)))
  {
    PopManySound(PushInline(s, LiteralEntry), 3);
    var t := PopMany(PushInline(s, LiteralEntry), 3).value;
    FlushSound(t);
    VariableSound(Flush(t));
  }

  lemma StepSound(s: Stacks, op: Opcode)
    requires Sound(s) && StackStep(s, op).Some?
    ensures Sound(StackStep(s, op).value)
  {
    match op
    case Append =>
      FlushSound(s);
      PopSound(Flush(s));
    case AppendEscaped => PopSound(s);
    case Lookup(_) => VariableSound(s);
    case ResolvePossibleLambda => VariableSound(s);
    case AssignToHash(_) => PopSound(s);
    case InvokeKnownHelper(argc, _) => CallStepSound(s, argc, false);
    case InvokeHelper(argc, _, isRoot) => CallStepSound(s, argc, !isRoot);
    case InvokeAmbiguous(_, _) => AmbiguousStepSound(s);
    case BlockValue => BlockStepSound(s);
    case AmbiguousBlockValue => PopManySound(s, 3);
    case InvokePartial(_) => PopSound(s);
    case _ =>
  }

  lemma BlockStepSound(s: Stacks)
    requires Sound(s) && PopMany(s, 3).Some?
    ensures Sound(Replace(PopMany(s, 3).value))
  {
    PopManySound(s, 3);
    VariableSound(PopMany(s, 3).value);
  }

  lemma {:induction false} RunSound(s: Stacks, ops: seq<Opcode>)
    requires Sound(s) && StackRun(s, ops).Some?
    ensures Sound(StackRun(s, ops).value)
    decreases ops
  {
    if ops != [] {
      StepSound(s, ops[0]);
      RunSound(StackStep(s, ops[0]).value, ops[1..]);
    }
  }

  /** At every point of the pass `stackSlot` counts the non-literal entries of `compileStack`. */
  lemma SlotCountsThroughout(o: CompileOptions, p: Program, n: nat)
    requires StatementsCompile(o, p.statements) && n <= |ProgramEnvironment(o, p).opcodes|
    ensures
      var s := StackRun(Empty, ProgramEnvironment(o, p).opcodes[..n]);
      s.Some? && s.value.slot == Variables(s.value.compile)
  {
    var ops := ProgramEnvironment(o, p).opcodes;
    StackIsBalanced(o, p);
    assert ops[..n] + ops[n..] == ops;
    StackRunConcat(Empty, ops[..n], ops[n..]);
    RunSound(Empty, ops[..n]);
    var s := StackRun(Empty, ops[..n]).value;
    SlotCountsVariables(s.compile, s.slot);
  }

  // ---------- One stack in two pieces ----------

  /** The whole stack, bottom first; `true` marks a literal. */
  function Whole(s: Stacks): seq<bool> {
    Kinds(s.compile + s.inline)
  }

  function Kinds(entries: seq<Entry>): seq<bool> {
    seq(|entries|, i requires 0 <= i < |entries| => entries[i].LiteralEntry?)
  }

  /** Popping takes the top of the whole stack, wherever it is kept. */
  lemma PopIsOneStack(s: Stacks)
    requires Sound(s) && s.Depth() > 0
    ensures Pop(s).Some? && Whole(Pop(s).value) == Whole(s)[..s.Depth() - 1]
  {
    PopSound(s);
  }

  /** Flushing moves entries between the pieces and changes nothing else. */
  lemma FlushIsOneStack(s: Stacks)
    ensures Whole(Flush(s)) == Whole(s)
  {
    FlushEntriesKinds(s.(inline := []), s.inline);
    var t := Flush(s);
    assert Kinds(s.compile + s.inline) == Kinds(s.compile) + Kinds(s.inline);
    assert t.compile + [] == t.compile;
  }

  lemma {:induction false} FlushEntriesKinds(s: Stacks, entries: seq<Entry>)
    ensures
      var t := FlushEntries(s, entries);
      t.inline == s.inline && Kinds(t.compile) == Kinds(s.compile) + Kinds(entries)
    decreases |entries|
  {
    if entries == [] {
      assert Kinds(s.compile) + [] == Kinds(s.compile);
    } else {
      var front, last := entries[..|entries| - 1], entries[|entries| - 1];
      FlushEntriesKinds(s, front);
      var t := FlushEntries(s, front);
      assert entries == front + [last];
      assert Kinds(entries) == Kinds(front) + [last.LiteralEntry?];
      var u := FlushEntry(t, last);
      assert Kinds(u.compile) == Kinds(t.compile) + [last.LiteralEntry?];
    }
  }

  /** `replaceStack` replaces the top exactly when the top is not a flushed literal; otherwise it pushes. */
  lemma ReplaceIsOneStack(s: Stacks)
    requires Sound(s) && s.Depth() > 0
    ensures
      Whole(Replace(s)) == Whole(s)[..s.Depth() - 1] + [false]
      <==> (s.inline != [] || s.compile[|s.compile| - 1].SlotEntry?)
  {
    if s.inline != [] || s.compile[|s.compile| - 1].SlotEntry? {
      assert Whole(Replace(s)) == Whole(s)[..s.Depth() - 1] + [false];
    } else {
      assert |Whole(Replace(s))| == s.Depth() + 1;
    }
  }
}

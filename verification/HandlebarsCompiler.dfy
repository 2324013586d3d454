/**
 The first pass, `Compiler.prototype`: syntax tree to opcodes.  The functions say which code
 each node gets; the class emits it step by step into `opcodes`, `children` and `depths`.
 */
module HandlebarsCompiler {
  import opened Options
  import opened HandlebarsAst

  // ---------- Classes of expressions ----------

  datatype SexprType = SimpleType | HelperType | AmbiguousType

  /** `classifySexpr` */
  function Classify(o: CompileOptions, sx: Sexpr): SexprType {
    var eligible := sx.EligibleHelper();
    var isHelper := sx.IsHelper() || (eligible && o.Known(sx.head.path.parts[0]));
    if isHelper then HelperType
    else if eligible && !o.knownHelpersOnly then AmbiguousType
    else SimpleType
  }

  // ---------- Which trees are accepted ----------

  predicate HeadCompiles(h: Head) {
    h.DataHead? ==> !h.path.scoped && h.path.depth == 0
  }

  /** A helper call needs a name, and a known one when only known helpers are allowed. */
  predicate CallCompiles(o: CompileOptions, h: Head) {
    && h.IdHead?
    && h.path.parts != []
    && (o.knownHelpersOnly ==> o.Known(h.path.parts[0]))
  }

  predicate SexprCompiles(o: CompileOptions, sx: Sexpr) {
    match Classify(o, sx)
    case SimpleType => HeadCompiles(sx.head)
    case AmbiguousType => true
    case HelperType =>
      && CallCompiles(o, sx.head)
      && ParamsCompile(o, sx.params)
      && (sx.hash.HashNode? ==> PairsCompile(o, sx.hash.pairs))
  }

  predicate ParamCompiles(o: CompileOptions, p: Param) {
    match p
    case SubExpression(sx) => SexprCompiles(o, sx)
    case DataParam(path) => HeadCompiles(DataHead(path))
    case _ => true
  }

  predicate ParamsCompile(o: CompileOptions, ps: seq<Param>) {
    ps != [] ==> ParamCompiles(o, ps[0]) && ParamsCompile(o, ps[1..])
  }

  predicate PairsCompile(o: CompileOptions, ps: seq<Pair>) {
    ps != [] ==> ParamCompiles(o, ps[0].value) && PairsCompile(o, ps[1..])
  }

  predicate StatementCompiles(o: CompileOptions, s: Statement) {
    match s
    case Mustache(sx, _) => SexprCompiles(o, sx)
    case Block(sx, bs) => SexprCompiles(o, sx) && NestedCompile(o, bs)
    case _ => true
  }

  predicate NestedCompile(o: CompileOptions, bs: Blocks) {
    && (bs.program.Some? ==> StatementsCompile(o, bs.program.value.statements))
    && (bs.inverse.Some? ==> StatementsCompile(o, bs.inverse.value.statements))
  }

  predicate StatementsCompile(o: CompileOptions, ss: seq<Statement>) {
    ss != [] ==> StatementCompiles(o, ss[0]) && StatementsCompile(o, ss[1..])
  }

  // ---------- The code of expressions ----------

  function LookupOps(parts: seq<string>): (ops: seq<Opcode>) {
    seq(|parts|, i requires 0 <= i < |parts| => Lookup(parts[i]))
  }

  function PathOps(p: Path): (ops: seq<Opcode>) {
    [GetContext(p.depth), if p.IsContext() then PushContext else LookupOnContext(p.parts[0])] + LookupOps(p.Rest())
  }

  function HeadOps(h: Head): seq<Opcode> {
    match h
    case IdHead(p) => PathOps(p)
    case DataHead(p) => [LookupData] + LookupOps(p.parts)
  }

  function AmbiguousOps(name: string, depth: nat, prog: Option<nat>, inv: Option<nat>): seq<Opcode> {
    [GetContext(depth), PushProgram(prog), PushProgram(inv), InvokeAmbiguous(name, prog.Some? || inv.Some?)]
  }

  function CallOp(o: CompileOptions, sx: Sexpr): Opcode
    requires CallCompiles(o, sx.head)
  {
    var name := sx.head.path.parts[0];
    if o.Known(name) then InvokeKnownHelper(|sx.params|, name) else InvokeHelper(|sx.params|, name, sx.isRoot)
  }

  function SexprOps(o: CompileOptions, sx: Sexpr, prog: Option<nat>, inv: Option<nat>): seq<Opcode>
    requires SexprCompiles(o, sx)
    decreases sx, 1
  {
    match Classify(o, sx)
    case SimpleType => HeadOps(sx.head) + [ResolvePossibleLambda]
    case AmbiguousType => AmbiguousOps(sx.head.path.parts[0], sx.head.path.depth, prog, inv)
    case HelperType => OperandsOps(o, sx, prog, inv) + [CallOp(o, sx)]
  }

  /** Everything a call pops. */
  function OperandsOps(o: CompileOptions, sx: Sexpr, prog: Option<nat>, inv: Option<nat>): seq<Opcode>
    requires ParamsCompile(o, sx.params) && (sx.hash.HashNode? ==> PairsCompile(o, sx.hash.pairs))
    decreases sx, 0
  {
    ParamsOps(o, sx.params) + [PushProgram(prog), PushProgram(inv)] + HashOps(o, sx.hash)
  }

  function HashOps(o: CompileOptions, hash: Hash): seq<Opcode>
    requires hash.HashNode? ==> PairsCompile(o, hash.pairs)
    decreases hash
  {
    match hash
    case NoHash => [EmptyHash]
    case HashNode(pairs) => [PushHash] + PairsOps(o, pairs) + [PopHash]
  }

  function ParamOps(o: CompileOptions, p: Param): seq<Opcode>
    requires ParamCompiles(o, p)
    decreases p
  {
    match p
    case SubExpression(sx) => SexprOps(o, sx, None, None)
    case IdParam(path) => PathOps(path)
    case DataParam(path) => HeadOps(DataHead(path))
    case StringParam(t) => [PushString(t)]
    case LiteralParam(l) => [PushLiteral(l)]
  }

  /** Parameters are pushed last first, so that popping yields them in order. */
  function ParamsOps(o: CompileOptions, ps: seq<Param>): seq<Opcode>
    requires ParamsCompile(o, ps)
    decreases ps
  {
    if ps == [] then [] else ParamsOps(o, ps[1..]) + ParamOps(o, ps[0])
  }

  function PairsOps(o: CompileOptions, ps: seq<Pair>): seq<Opcode>
    requires PairsCompile(o, ps)
    decreases ps
  {
    if ps == [] then [] else ParamOps(o, ps[0].value) + [AssignToHash(ps[0].key)] + PairsOps(o, ps[1..])
  }

  // ---------- The context depths an expression reads ----------

  function PathDepths(p: Path): set<nat> {
    if p.depth == 0 then {} else {p.depth}
  }

  function HeadDepths(h: Head): set<nat> {
    match h
    case IdHead(p) => PathDepths(p)
    case DataHead(_) => {}
  }

  function SexprDepths(o: CompileOptions, sx: Sexpr): set<nat>
    decreases sx
  {
    match Classify(o, sx)
    case SimpleType => HeadDepths(sx.head)
    case AmbiguousType => {}
    case HelperType => ParamsDepths(o, sx.params) + (if sx.hash.HashNode? then PairsDepths(o, sx.hash.pairs) else {})
  }

  function ParamDepths(o: CompileOptions, p: Param): set<nat>
    decreases p
  {
    match p
    case SubExpression(sx) => SexprDepths(o, sx)
    case IdParam(path) => PathDepths(path)
    case _ => {}
  }

  function ParamsDepths(o: CompileOptions, ps: seq<Param>): set<nat>
    decreases ps
  {
    if ps == [] then {} else ParamsDepths(o, ps[1..]) + ParamDepths(o, ps[0])
  }

  function PairsDepths(o: CompileOptions, ps: seq<Pair>): set<nat>
    decreases ps
  {
    if ps == [] then {} else ParamDepths(o, ps[0].value) + PairsDepths(o, ps[1..])
  }

  // ---------- The code of statements ----------

  /** What compiling a stretch of statements adds to the compiler's three collections. */
  datatype Code = Code(ops: seq<Opcode>, children: seq<Environment>, depths: set<nat>)

  /** A nested program's outer depths, seen from its parent: one level less, depth 0 being always there. */
  function LiftedDepths(depths: seq<nat>): set<nat> {
    if depths == [] then {}
    else
      var front, last := depths[..|depths| - 1], depths[|depths| - 1];
      LiftedDepths(front) + if last < 2 then {} else {last - 1}
  }

  function NestedChildren(o: CompileOptions, p: Option<Program>): seq<Environment>
    requires p.Some? ==> StatementsCompile(o, p.value.statements)
    decreases p, 1
  {
    match p
    case None => []
    case Some(q) => [ProgramEnvironment(o, q)]
  }

  function BlockChildren(o: CompileOptions, bs: Blocks): seq<Environment>
    requires NestedCompile(o, bs)
    decreases bs, 2
  {
    NestedChildren(o, bs.program) + NestedChildren(o, bs.inverse)
  }

  function NestedDepths(children: seq<Environment>): set<nat> {
    if children == [] then {} else NestedDepths(children[..|children| - 1]) + LiftedDepths(children[|children| - 1].depths)
  }

  lemma {:induction false} NestedDepthsConcat(a: seq<Environment>, b: seq<Environment>)
    ensures NestedDepths(a + b) == NestedDepths(a) + NestedDepths(b)
  {
    if b == [] {
      assert a + b == a;
    } else {
      assert (a + b)[..|a + b| - 1] == a + b[..|b| - 1];
      NestedDepthsConcat(a, b[..|b| - 1]);
    }
  }

  function ProgramGuid(b: Blocks, guid: nat): Option<nat> {
    if b.program.Some? then Some(guid) else None
  }

  function InverseGuid(b: Blocks, guid: nat): Option<nat> {
    if b.inverse.Some? then Some(if b.program.Some? then guid + 1 else guid) else None
  }

  function BlockTailOps(o: CompileOptions, sx: Sexpr, prog: Option<nat>, inv: Option<nat>): seq<Opcode> {
    match Classify(o, sx)
    case HelperType => [Append]
    case SimpleType => [PushProgram(prog), PushProgram(inv), EmptyHash, BlockValue, Append]
    case AmbiguousType => [PushProgram(prog), PushProgram(inv), EmptyHash, AmbiguousBlockValue, Append]
  }

  function StatementCode(o: CompileOptions, s: Statement, guid: nat): Code
    requires StatementCompiles(o, s)
    decreases s
  {
    match s
    case Content(t) => Code([AppendContent(t)], [], {})
    case Comment => Code([], [], {})
    case Mustache(sx, escaped) =>
      Code(SexprOps(o, sx, None, None) + [if escaped && !o.noEscape then AppendEscaped else Append], [], SexprDepths(o, sx))
    case Partial(name, context) =>
      (match context
       case None => Code([PushDepth0, InvokePartial(name), Append], [], {})
       case Some(p) => Code(PathOps(p) + [InvokePartial(name), Append], [], PathDepths(p)))
    case Block(sx, bs) =>
      var prog, inv := ProgramGuid(bs, guid), InverseGuid(bs, guid);
      var children := BlockChildren(o, bs);
      Code(SexprOps(o, sx, prog, inv) + BlockTailOps(o, sx, prog, inv),
           children, NestedDepths(children) + SexprDepths(o, sx))
  }

  function Join(a: Code, b: Code): Code {
    Code(a.ops + b.ops, a.children + b.children, a.depths + b.depths)
  }

  lemma JoinAssociates(a: Code, b: Code, c: Code)
    ensures Join(Join(a, b), c) == Join(a, Join(b, c))
  {
    assert a.ops + b.ops + c.ops == a.ops + (b.ops + c.ops);
    assert a.children + b.children + c.children == a.children + (b.children + c.children);
  }

  function StatementsCode(o: CompileOptions, ss: seq<Statement>, guid: nat): Code
    requires StatementsCompile(o, ss)
    decreases ss
  {
    if ss == [] then Code([], [], {})
    else
      var c := StatementCode(o, ss[0], guid);
      var d := StatementsCode(o, ss[1..], guid + |c.children|);
      Join(c, d)
  }

  lemma NextStatementCode(o: CompileOptions, ss: seq<Statement>, total: Code, before: Code, guid: nat, after: Code, guid': nat)
    requires ss != [] && StatementCompiles(o, ss[0]) && StatementsCompile(o, ss[1..])
    requires total == Join(before, StatementsCode(o, ss, guid))
    requires var c := StatementCode(o, ss[0], guid); after == Join(before, c) && guid' == guid + |c.children|
    ensures total == Join(after, StatementsCode(o, ss[1..], guid'))
  {
    var c, d := StatementCode(o, ss[0], guid), StatementsCode(o, ss[1..], guid');
    assert StatementsCode(o, ss, guid) == Join(c, d);
    JoinAssociates(before, c, d);
  }

  function ProgramEnvironment(o: CompileOptions, p: Program): Environment
    requires StatementsCompile(o, p.statements)
    decreases p
  {
    var c := StatementsCode(o, p.statements, 0);
    Environment(c.ops, c.children, Ascending(c.depths), |p.statements| == 1)
  }

  // ---------- Sorted depth lists ----------

  predicate StrictlyAscending(s: seq<nat>) {
    |s| >= 2 ==> s[|s| - 2] < s[|s| - 1] && StrictlyAscending(s[..|s| - 1])
  }

  lemma HasMaximum(s: set<nat>)
    requires s != {}
    ensures exists m :: m in s && forall x :: x in s ==> x <= m
  {
    var x :| x in s;
    if s != {x} {
      HasMaximum(s - {x});
      var m :| m in s - {x} && forall y :: y in s - {x} ==> y <= m;
      var top := if x > m then x else m;
      forall y | y in s ensures y <= top {
        if y != x { assert y in s - {x}; }
      }
    }
  }

  function Maximum(s: set<nat>): (m: nat)
    requires s != {}
    ensures m in s && forall x :: x in s ==> x <= m
  {
    HasMaximum(s);
    var m :| m in s && forall x :: x in s ==> x <= m;
    m
  }

  /** The elements of a set in increasing order. */
  function Ascending(s: set<nat>): seq<nat>
    decreases |s|
  {
    if s == {} then []
    else
      Ascending(s - {Maximum(s)}) + [Maximum(s)]
  }

  function Elements(a: seq<nat>): set<nat> {
    if a == [] then {} else Elements(a[..|a| - 1]) + {a[|a| - 1]}
  }

  lemma {:induction false} ElementsIn(a: seq<nat>, d: nat)
    ensures d in Elements(a) <==> d in a
  {
    if a != [] {
      var n := |a| - 1;
      ElementsIn(a[..n], d);
      assert a == a[..n] + [a[n]];
    }
  }

  lemma {:induction false} ElementsBelow(a: seq<nat>, m: nat)
    requires StrictlyAscending(a)
    requires a != [] ==> a[|a| - 1] < m
    ensures forall d :: d in Elements(a) ==> d < m
  {
    if a != [] {
      var n := |a| - 1;
      if n > 0 { assert a[n - 1] < a[n]; }
      ElementsBelow(a[..n], a[n]);
    }
  }

  /** A set has one strictly ascending listing. */
  lemma {:induction false} AscendingUnique(a: seq<nat>)
    requires StrictlyAscending(a)
    ensures a == Ascending(Elements(a))
  {
    if a != [] {
      var n := |a| - 1;
      var front := a[..n];
      if n > 0 { assert a[n - 1] < a[n]; }
      ElementsBelow(front, a[n]);
      AscendingUnique(front);
      assert Maximum(Elements(a)) == a[n];
      assert Elements(a) - {a[n]} == Elements(front);
      assert a == front + [a[n]];
    }
  }

  lemma SnocAscends(a: seq<nat>, d: nat)
    requires StrictlyAscending(a) && (a != [] ==> a[|a| - 1] < d)
    ensures StrictlyAscending(a + [d])
    ensures Elements(a + [d]) == Elements(a) + {d}
  {
    assert (a + [d])[..|a|] == a;
  }

  lemma {:induction false} AscendingElements(s: set<nat>)
    ensures StrictlyAscending(Ascending(s))
    ensures Elements(Ascending(s)) == s
    decreases |s|
  {
    if s != {} {
      var m := Maximum(s);
      var rest := s - {m};
      var r := Ascending(rest);
      AscendingElements(rest);
      if r != [] {
        var last := r[|r| - 1];
        assert last in rest by { ElementsIn(r, last); }
      }
      SnocAscends(r, m);
      assert Ascending(s) == r + [m];
      assert rest + {m} == s;
    }
  }

  // ---------- The compiler object ----------

  /** Numeric sort of a depth list, by insertion. */
  function SortDepths(a: seq<nat>): seq<nat> {
    if a == [] then [] else InsertDepth(SortDepths(a[..|a| - 1]), a[|a| - 1])
  }

  function InsertDepth(a: seq<nat>, d: nat): seq<nat> {
    if a == [] then [d] else if a[|a| - 1] < d then a + [d] else InsertDepth(a[..|a| - 1], d) + [a[|a| - 1]]
  }

  lemma {:induction false} InsertDepthAscends(a: seq<nat>, d: nat)
    requires StrictlyAscending(a) && d !in Elements(a)
    ensures StrictlyAscending(InsertDepth(a, d))
    ensures Elements(InsertDepth(a, d)) == Elements(a) + {d}
    decreases |a|
  {
    if a == [] {
      SnocAscends(a, d);
      assert a + [d] == [d];
    } else if a[|a| - 1] < d {
      SnocAscends(a, d);
    } else {
      var front, last := a[..|a| - 1], a[|a| - 1];
      InsertDepthAscends(front, d);
      var r := InsertDepth(front, d);
      if front != [] { assert front[|front| - 1] < last; }
      ElementsBelow(front, last);
      if r != [] { ElementsIn(r, r[|r| - 1]); }
      SnocAscends(r, last);
    }
  }

  predicate Distinct(a: seq<nat>) {
    a != [] ==> Distinct(a[..|a| - 1]) && a[|a| - 1] !in Elements(a[..|a| - 1])
  }

  /** Sorting a duplicate-free list gives the ascending listing of its elements. */
  lemma {:induction false} SortDepthsIsAscending(a: seq<nat>)
    requires Distinct(a)
    ensures StrictlyAscending(SortDepths(a)) && Elements(SortDepths(a)) == Elements(a)
    ensures SortDepths(a) == Ascending(Elements(a))
  {
    if a != [] {
      SortDepthsIsAscending(a[..|a| - 1]);
      InsertDepthAscends(SortDepths(a[..|a| - 1]), a[|a| - 1]);
    }
    AscendingUnique(SortDepths(a));
  }

  /** One run of the first pass over one program.  Methods return false where the source throws. */
  class Compiler {
    const options: CompileOptions
    var opcodes: seq<Opcode>
    var children: seq<Environment>
    var guid: nat
    var marked: set<nat>
    var depths: seq<nat>

    ghost predicate Valid()
      reads this
    {
      guid == |children| && Distinct(depths) && Elements(depths) == marked
    }

    ghost predicate Extends(ops: seq<Opcode>, below: seq<Environment>, ds: set<nat>, code: Code)
      reads this
    {
      Code(opcodes, children, marked) == Join(Code(ops, below, ds), code)
    }

    constructor (options: CompileOptions)
      ensures Valid() && this.options == options
      ensures opcodes == [] && children == [] && marked == {}
    {
      this.options := options;
      opcodes, children, guid, marked, depths := [], [], 0, {}, [];
    }

    method Emit(op: Opcode)
      modifies this`opcodes
      ensures opcodes == old(opcodes) + [op]
    {
      opcodes := opcodes + [op];
    }

    method AddDepth(depth: nat)
      requires Valid()
      modifies this`marked, this`depths
      ensures Valid()
      ensures marked == old(marked) + if depth == 0 then {} else {depth}
    {
      if depth == 0 { return; }
      if depth !in marked {
        marked := marked + {depth};
        depths := depths + [depth];
        assert depths[..|depths| - 1] == old(depths);
      }
    }

    /** `Compiler.compile` and `program`: the whole tree of one program. */
    method Compile(p: Program) returns (ok: bool, env: Environment)
      requires Valid() && opcodes == [] && children == [] && marked == {}
      modifies this
      ensures ok <==> StatementsCompile(options, p.statements)
      ensures ok ==> env == ProgramEnvironment(options, p)
      decreases p, 0
    {
      env := Environment([], [], [], false);
      var ss := p.statements;
      var i := 0;
      ghost var total := if StatementsCompile(options, ss) then StatementsCode(options, ss, 0) else Code([], [], {});
      assert ss[0..] == ss;
      while i < |ss|
        invariant 0 <= i <= |ss| && Valid()
        invariant StatementsCompile(options, ss) <==> StatementsCompile(options, ss[i..])
        invariant StatementsCompile(options, ss[i..]) ==>
          total == Join(Code(opcodes, children, marked), StatementsCode(options, ss[i..], guid))
      {
        ghost var before, g := Code(opcodes, children, marked), guid;
        ghost var rest, next := ss[i..], ss[i + 1..];
        assert rest[0] == ss[i] && rest[1..] == next;
        ok := AcceptStatement(ss[i]);
        if !ok { return; }
        assert guid == g + |StatementCode(options, rest[0], g).children|;
        if StatementsCompile(options, next) {
          NextStatementCode(options, rest, total, before, g, Code(opcodes, children, marked), guid);
        }
        i := i + 1;
      }
      ok := true;
      SortDepthsIsAscending(depths);
      depths := SortDepths(depths);
      env := Environment(opcodes, children, depths, |ss| == 1);
    }

    method CompileProgram(p: Program) returns (ok: bool, id: nat)
      requires Valid()
      modifies this
      ensures Valid()
      ensures ok <==> StatementsCompile(options, p.statements)
      ensures ok ==>
        var env := ProgramEnvironment(options, p);
        && id == old(guid)
        && opcodes == old(opcodes) && children == old(children) + [env] && marked == old(marked) + LiftedDepths(env.depths)
      decreases p, 1
    {
      var compiler := new Compiler(options);
      var env;
      id := guid;
      ok, env := compiler.Compile(p);
      if !ok { return; }
      guid := guid + 1;
      children := children + [env];
      var i := 0;
      while i < |env.depths|
        invariant 0 <= i <= |env.depths| && Valid()
        invariant opcodes == old(opcodes) && children == old(children) + [env]
        invariant marked == old(marked) + LiftedDepths(env.depths[..i])
      {
        var depth := env.depths[i];
        assert env.depths[..i + 1][..i] == env.depths[..i];
        if depth >= 2 {
          AddDepth(depth - 1);
        }
        i := i + 1;
      }
      assert env.depths[..i] == env.depths;
    }

    method AcceptStatement(s: Statement) returns (ok: bool)
      requires Valid()
      modifies this
      ensures Valid()
      ensures ok <==> StatementCompiles(options, s)
      ensures ok ==> Extends(old(opcodes), old(children), old(marked), StatementCode(options, s, old(guid)))
      decreases s
    {
      match s
      case Content(t) =>
        Emit(AppendContent(t));
        ok := true;
      case Comment =>
        ok := true;
      case Mustache(sx, escaped) =>
        ok := EmitSexpr(sx, None, None);
        if ok { Emit(if escaped && !options.noEscape then AppendEscaped else Append); }
      case Partial(name, context) =>
        match context {
          case Some(p) => EmitPath(p);
          case None => Emit(PushDepth0);
        }
        Emit(InvokePartial(name));
        Emit(Append);
        ok := true;
      case Block(sx, bs) =>
        ok := EmitBlock(sx, bs);
    }

    method CompileNested(p: Option<Program>) returns (ok: bool, id: Option<nat>)
      requires Valid()
      modifies this
      ensures Valid()
      ensures ok <==> (p.Some? ==> StatementsCompile(options, p.value.statements))
      ensures ok ==>
        var nested := NestedChildren(options, p);
        && id == (if p.Some? then Some(old(guid)) else None)
        && opcodes == old(opcodes) && children == old(children) + nested && marked == old(marked) + NestedDepths(nested)
      decreases p, 2
    {
      match p
      case None => ok, id := true, None;
      case Some(q) =>
        var n;
        ok, n := CompileProgram(q);
        id := Some(n);
        ghost var env := if ok then [ProgramEnvironment(options, q)] else [];
        assert ok ==> env[..0] == [];
    }

    method CompileChildren(bs: Blocks) returns (ok: bool, prog: Option<nat>, inv: Option<nat>)
      requires Valid()
      modifies this
      ensures Valid()
      ensures ok <==> NestedCompile(options, bs)
      ensures ok ==>
        var nested := BlockChildren(options, bs);
        && prog == ProgramGuid(bs, old(guid)) && inv == InverseGuid(bs, old(guid))
        && opcodes == old(opcodes) && children == old(children) + nested && marked == old(marked) + NestedDepths(nested)
      decreases bs, 3
    {
      inv := None;
      ok, prog := CompileNested(bs.program);
      if !ok { return; }
      ok, inv := CompileNested(bs.inverse);
      if !ok { return; }
      NestedDepthsConcat(NestedChildren(options, bs.program), NestedChildren(options, bs.inverse));
      assert children == old(children) + BlockChildren(options, bs);
    }

    method EmitBlock(sx: Sexpr, bs: Blocks) returns (ok: bool)
      requires Valid()
      modifies this
      ensures Valid()
      ensures ok <==> SexprCompiles(options, sx) && NestedCompile(options, bs)
      ensures ok ==>
        var prog, inv := ProgramGuid(bs, old(guid)), InverseGuid(bs, old(guid));
        && opcodes == old(opcodes) + (SexprOps(options, sx, prog, inv) + BlockTailOps(options, sx, prog, inv))
        && children == old(children) + BlockChildren(options, bs)
        && marked == old(marked) + NestedDepths(BlockChildren(options, bs)) + SexprDepths(options, sx)
      decreases bs, 4
    {
      var prog, inv;
      ok, prog, inv := CompileChildren(bs);
      if ok { ok := EmitBlockCode(sx, prog, inv); }
    }

    method EmitBlockCode(sx: Sexpr, prog: Option<nat>, inv: Option<nat>) returns (ok: bool)
      requires Valid()
      modifies this`opcodes, this`marked, this`depths
      ensures Valid()
      ensures ok <==> SexprCompiles(options, sx)
      ensures ok ==> opcodes == old(opcodes) + (SexprOps(options, sx, prog, inv) + BlockTailOps(options, sx, prog, inv))
      ensures ok ==> marked == old(marked) + SexprDepths(options, sx)
    {
      ok := EmitSexpr(sx, prog, inv);
      if ok {
        ghost var code, tail := SexprOps(options, sx, prog, inv), BlockTailOps(options, sx, prog, inv);
        EmitBlockTail(sx, prog, inv);
        assert old(opcodes) + code + tail == old(opcodes) + (code + tail);
      }
    }

    method EmitBlockTail(sx: Sexpr, prog: Option<nat>, inv: Option<nat>)
      modifies this`opcodes
      ensures opcodes == old(opcodes) + BlockTailOps(options, sx, prog, inv)
    {
      var kind := Classify(options, sx);
      if kind != HelperType {
        Emit(PushProgram(prog));
        Emit(PushProgram(inv));
        Emit(EmptyHash);
        Emit(if kind == SimpleType then BlockValue else AmbiguousBlockValue);
      }
      Emit(Append);
    }

    method EmitSexpr(sx: Sexpr, prog: Option<nat>, inv: Option<nat>) returns (ok: bool)
      requires Valid()
      modifies this`opcodes, this`marked, this`depths
      ensures Valid()
      ensures ok <==> SexprCompiles(options, sx)
      ensures ok ==> opcodes == old(opcodes) + SexprOps(options, sx, prog, inv) && marked == old(marked) + SexprDepths(options, sx)
      decreases sx
    {
      match Classify(options, sx)
      case SimpleType =>
        ok := EmitHead(sx.head);
        if ok { Emit(ResolvePossibleLambda); }
      case AmbiguousType =>
        Emit(GetContext(sx.head.path.depth));
        Emit(PushProgram(prog));
        Emit(PushProgram(inv));
        Emit(InvokeAmbiguous(sx.head.path.parts[0], prog.Some? || inv.Some?));
        ok := true;
      case HelperType =>
        ok := EmitCall(sx, prog, inv);
    }

    /** `setupFullMustacheParams` */
    method EmitOperands(sx: Sexpr, prog: Option<nat>, inv: Option<nat>) returns (ok: bool)
      requires Valid()
      modifies this`opcodes, this`marked, this`depths
      ensures Valid()
      ensures ok <==> ParamsCompile(options, sx.params) && (sx.hash.HashNode? ==> PairsCompile(options, sx.hash.pairs))
      ensures ok ==> opcodes == old(opcodes) + OperandsOps(options, sx, prog, inv)
      ensures ok ==>
        marked == old(marked) + (ParamsDepths(options, sx.params) + if sx.hash.HashNode? then PairsDepths(options, sx.hash.pairs) else {})
      decreases sx, 0
    {
      ok := EmitParams(sx.params);
      if !ok { return; }
      Emit(PushProgram(prog));
      Emit(PushProgram(inv));
      ghost var args := ParamsOps(options, sx.params) + [PushProgram(prog), PushProgram(inv)];
      assert opcodes == old(opcodes) + args;
      if sx.hash.HashNode? {
        ok := EmitHash(sx.hash.pairs);
        if !ok { return; }
      } else {
        Emit(EmptyHash);
      }
      assert opcodes == old(opcodes) + (args + HashOps(options, sx.hash));
    }

    method EmitCall(sx: Sexpr, prog: Option<nat>, inv: Option<nat>) returns (ok: bool)
      requires Valid() && Classify(options, sx).HelperType?
      modifies this`opcodes, this`marked, this`depths
      ensures Valid()
      ensures ok <==> SexprCompiles(options, sx)
      ensures ok ==> opcodes == old(opcodes) + SexprOps(options, sx, prog, inv) && marked == old(marked) + SexprDepths(options, sx)
      decreases sx, 1
    {
      ok := EmitOperands(sx, prog, inv);
      if !ok { return; }
      ok := CallCompiles(options, sx.head);
      if ok {
        Emit(CallOp(options, sx));
        assert opcodes == old(opcodes) + (OperandsOps(options, sx, prog, inv) + [CallOp(options, sx)]);
      }
    }

    method EmitPath(p: Path)
      requires Valid()
      modifies this`opcodes, this`marked, this`depths
      ensures Valid() && opcodes == old(opcodes) + PathOps(p) && marked == old(marked) + PathDepths(p)
    {
      AddDepth(p.depth);
      Emit(GetContext(p.depth));
      Emit(if p.IsContext() then PushContext else LookupOnContext(p.parts[0]));
      EmitLookups(p.Rest());
    }

    method EmitLookups(parts: seq<string>)
      modifies this`opcodes
      ensures opcodes == old(opcodes) + LookupOps(parts)
    {
      var i := 0;
      while i < |parts|
        invariant 0 <= i <= |parts| && opcodes == old(opcodes) + LookupOps(parts)[..i]
      {
        Emit(Lookup(parts[i]));
        i := i + 1;
      }
    }

    method EmitHead(h: Head) returns (ok: bool)
      requires Valid()
      modifies this`opcodes, this`marked, this`depths
      ensures Valid()
      ensures ok <==> HeadCompiles(h)
      ensures ok ==> opcodes == old(opcodes) + HeadOps(h) && marked == old(marked) + HeadDepths(h)
    {
      ok := HeadCompiles(h);
      if !ok { return; }
      match h
      case IdHead(p) => EmitPath(p);
      case DataHead(p) =>
        Emit(LookupData);
        EmitLookups(p.parts);
    }

    method EmitParam(p: Param) returns (ok: bool)
      requires Valid()
      modifies this`opcodes, this`marked, this`depths
      ensures Valid()
      ensures ok <==> ParamCompiles(options, p)
      ensures ok ==> opcodes == old(opcodes) + ParamOps(options, p) && marked == old(marked) + ParamDepths(options, p)
      decreases p
    {
      ok := true;
      match p
      case SubExpression(sx) => ok := EmitSexpr(sx, None, None);
      case IdParam(path) => EmitPath(path);
      case DataParam(path) => ok := EmitHead(DataHead(path));
      case StringParam(t) => Emit(PushString(t));
      case LiteralParam(l) => Emit(PushLiteral(l));
    }

    /** `pushParams`: from the last parameter down to the first. */
    method EmitParams(ps: seq<Param>) returns (ok: bool)
      requires Valid()
      modifies this`opcodes, this`marked, this`depths
      ensures Valid()
      ensures ok <==> ParamsCompile(options, ps)
      ensures ok ==> opcodes == old(opcodes) + ParamsOps(options, ps) && marked == old(marked) + ParamsDepths(options, ps)
      decreases ps
    {
      ghost var code: seq<Opcode>, read: set<nat> := [], {};
      var i := |ps|;
      while i > 0
        invariant 0 <= i <= |ps| && Valid()
        invariant ParamsCompile(options, ps[i..]) && code == ParamsOps(options, ps[i..]) && read == ParamsDepths(options, ps[i..])
        invariant opcodes == old(opcodes) + code && marked == old(marked) + read
      {
        i := i - 1;
        assert ps[i..][1..] == ps[i + 1..];
        ok := EmitParam(ps[i]);
        if !ok {
          FailingParam(options, ps, i);
          return;
        }
        code, read := code + ParamOps(options, ps[i]), read + ParamDepths(options, ps[i]);
      }
      ok := true;
      assert ps[0..] == ps;
    }

    method EmitHash(ps: seq<Pair>) returns (ok: bool)
      requires Valid()
      modifies this`opcodes, this`marked, this`depths
      ensures Valid()
      ensures ok <==> PairsCompile(options, ps)
      ensures ok ==>
        && opcodes == old(opcodes) + [PushHash] + PairsOps(options, ps) + [PopHash]
        && marked == old(marked) + PairsDepths(options, ps)
      decreases ps
    {
      Emit(PushHash);
      ghost var goal := if PairsCompile(options, ps) then opcodes + PairsOps(options, ps) else [];
      ghost var depths := if PairsCompile(options, ps) then marked + PairsDepths(options, ps) else {};
      assert ps[0..] == ps;
      var i := 0;
      while i < |ps|
        invariant 0 <= i <= |ps| && Valid()
        invariant PairsCompile(options, ps) <==> PairsCompile(options, ps[i..])
        invariant PairsCompile(options, ps) ==> goal == opcodes + PairsOps(options, ps[i..]) && depths == marked + PairsDepths(options, ps[i..])
      {
        NextPair(options, ps, i, opcodes, marked);
        ok := EmitParam(ps[i].value);
        if !ok { return; }
        Emit(AssignToHash(ps[i].key));
        i := i + 1;
      }
      Emit(PopHash);
      ok := true;
    }
  }

  /** The code of the pairs from number `i` on begins with that of one pair. */
  lemma NextPair(o: CompileOptions, ps: seq<Pair>, i: nat, before: seq<Opcode>, depths: set<nat>)
    requires i < |ps|
    ensures PairsCompile(o, ps[i..]) <==> ParamCompiles(o, ps[i].value) && PairsCompile(o, ps[i + 1..])
    ensures PairsCompile(o, ps[i..]) ==>
      && before + PairsOps(o, ps[i..]) == before + ParamOps(o, ps[i].value) + [AssignToHash(ps[i].key)] + PairsOps(o, ps[i + 1..])
      && depths + PairsDepths(o, ps[i..]) == depths + ParamDepths(o, ps[i].value) + PairsDepths(o, ps[i + 1..])
  {
    assert ps[i..][1..] == ps[i + 1..];
  }

  lemma {:induction false} FailingParam(o: CompileOptions, ps: seq<Param>, i: nat)
    requires i < |ps| && !ParamCompiles(o, ps[i])
    ensures !ParamsCompile(o, ps)
  {
    if i > 0 { FailingParam(o, ps[1..], i - 1); }
  }
}

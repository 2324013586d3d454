/**
 Run-time values, the helper protocol, and the meaning of a template taken directly from its
 syntax tree, with no opcodes.  Helpers, context functions and partials are parameters of the
 runtime.  A helper may render its blocks any number of times: it is asked again after every
 rendering, with the texts it has received so far, until it returns.
 */
module HandlebarsSemantics {
  import opened Options
  import opened HandlebarsAst

  datatype Value =
    | Undefined
    | Null
    | Bool(b: bool)
    | Number(n: int)
    | Text(s: string)
    | SafeText(s: string)
    | Object(members: map<string, Value>)
    | Function(fid: nat)

  datatype Callee = Registered(name: string) | Dynamic(value: Value)

  /** The `options` argument; `hasBlocks` says whether `fn` and `inverse` are set. */
  datatype CallOptions = NoOptions | CallOptions(hash: map<string, Value>, hasBlocks: bool, data: Value)

  datatype Call = Call(callee: Callee, self: Value, args: seq<Value>, options: CallOptions)

  datatype Action = Return(value: Value) | Render(inverse: bool, context: Value, data: Option<Value>)

  datatype Runtime = Runtime(
    helpers: set<string>,
    act: (Call, seq<string>) -> Action,
    bound: Call -> nat,
    partial: (string, Value, Value) -> Value,
    text: Value -> string)

  predicate Truthy(v: Value) {
    v !in {Undefined, Null, Bool(false), Number(0), Text("")}
  }

  function Member(v: Value, name: string): Value {
    if v.Object? && name in v.members then v.members[name] else Undefined
  }

  /** `depthN && depthN.name` */
  function MemberOfContext(v: Value, name: string): Value {
    if Truthy(v) then Member(v, name) else v
  }

  /** `v == null || v === false ? v : v.name` */
  function MemberOfValue(v: Value, name: string): Value {
    if v in {Undefined, Null, Bool(false)} then v else Member(v, name)
  }

  function MemberChain(v: Value, parts: seq<string>): Value
    decreases parts
  {
    if parts == [] then v else MemberChain(MemberOfValue(v, parts[0]), parts[1..])
  }

  function EscapeText(s: string): string {
    if s == [] then []
    else
      (match s[0]
       case '&' => "&amp;"
       case '<' => "&lt;"
       case '>' => "&gt;"
       case '\"' => "&quot;"
       case '\'' => "&#x27;"
       case '`' => "&#x60;"
       case c => [c]) + EscapeText(s[1..])
  }

  /** Values of which nothing is shown. */
  predicate Hidden(v: Value) {
    v in {Undefined, Null, Bool(false), Text("")}
  }

  /** What `{{{ }}}` shows of a value. */
  function Raw(rt: Runtime, v: Value): string {
    if Hidden(v) then "" else rt.text(v)
  }

  /** What `{{ }}` shows of it: text a helper has marked as safe stays as it is. */
  function Escaped(rt: Runtime, v: Value): string {
    match v
    case SafeText(t) => t
    case _ => if Hidden(v) then "" else EscapeText(rt.text(v))
  }

  function ChosenData(d: Option<Value>, data: Value): Value {
    if d.Some? && Truthy(d.value) then d.value else data
  }

  /** A call that is given no blocks: rendering an absent block gives the empty text. */
  function PlainCall(rt: Runtime, call: Call, heard: seq<string>, budget: nat): Value
    decreases budget
  {
    match rt.act(call, heard)
    case Return(v) => v
    case Render(_, _, _) => if budget == 0 then Undefined else PlainCall(rt, call, heard + [""], budget - 1)
  }

  function Apply(rt: Runtime, call: Call): Value {
    PlainCall(rt, call, [], rt.bound(call))
  }

  // ---------- Expressions ----------

  /**
   Where an expression is evaluated: the contexts from the innermost outwards, the private data,
   and the depth in which an unregistered helper's name is looked up.  The compiled code uses the
   depth that was opened last, whichever path that was; the documented meaning is depth 0.
   */
  datatype Scope = Scope(contexts: seq<Value>, data: Value, last: nat, intended: bool) {
    /** Outside the outermost template the contexts are undefined. */
    function At(depth: nat): Value {
      if depth < |contexts| then contexts[depth] else Undefined
    }

    function Fallback(): nat {
      if intended then 0 else last
    }
  }

  /** An empty first segment stands for the context. */
  function PathValue(sc: Scope, p: Path): Value {
    var c := sc.At(p.depth);
    if p.parts == [] then c
    else MemberChain(if p.parts[0] == "" then c else MemberOfContext(c, p.parts[0]), p.parts[1..])
  }

  function HeadValue(sc: Scope, h: Head): Value {
    match h
    case IdHead(p) => PathValue(sc, p)
    case DataHead(p) => MemberChain(sc.data, p.parts)
  }

  function Resolved(rt: Runtime, self: Value, v: Value): Value {
    if v.Function? then Apply(rt, Call(Dynamic(v), self, [], NoOptions)) else v
  }

  // What an expression is.

  /** A single plain name, reached through no `this`, `.` or `..`, and not private data. */
  predicate IsName(h: Head) {
    match h
    case IdHead(p) => |p.parts| == 1 && p.depth == 0 && !p.scoped
    case DataHead(_) => false
  }

  /** A helper call in any case: in parentheses, a name with something after it, or the name of a known helper. */
  predicate IsCall(o: CompileOptions, sx: Sexpr) {
    sx.paren || (IsName(sx.head) && (sx.params != [] || sx.hash != NoHash || o.Known(sx.head.path.parts[0])))
  }

  /** A helper call or a value, which only the runtime can tell. */
  predicate IsOpen(o: CompileOptions, sx: Sexpr) {
    IsName(sx.head) && !o.knownHelpersOnly && !IsCall(o, sx)
  }

  // The depth opened last by the code of an expression, given the depth open before it.

  function HeadLast(h: Head, last: nat): nat {
    if h.IdHead? then h.path.depth else last
  }

  function SexprLast(o: CompileOptions, sx: Sexpr, last: nat): nat
    decreases sx
  {
    if IsCall(o, sx) then CallLast(o, sx, last) else HeadLast(sx.head, last)
  }

  function CallLast(o: CompileOptions, sx: Sexpr, last: nat): nat
    decreases sx, 0
  {
    var l := ParamsLast(o, sx.params, last);
    if sx.hash.HashNode? then PairsLast(o, sx.hash.pairs, l) else l
  }

  function ParamLast(o: CompileOptions, p: Param, last: nat): nat
    decreases p
  {
    match p
    case SubExpression(sx) => SexprLast(o, sx, last)
    case IdParam(path) => path.depth
    case _ => last
  }

  function ParamsLast(o: CompileOptions, ps: seq<Param>, last: nat): nat
    decreases ps
  {
    if ps == [] then last else ParamLast(o, ps[0], ParamsLast(o, ps[1..], last))
  }

  function PairsLast(o: CompileOptions, ps: seq<Pair>, last: nat): nat
    decreases ps
  {
    if ps == [] then last else PairsLast(o, ps[1..], ParamLast(o, ps[0].value, last))
  }

  /** The name of a helper expression; the compiler refuses the ones that have none. */
  function HelperName(h: Head): string {
    if h.path.parts == [] then "" else h.path.parts[0]
  }

  /** Which function a helper expression calls, and with what: the registered helper, else a context function, else `helperMissing`. */
  function HelperCall(found: bool, name: string, self: Value, fallback: Value, args: seq<Value>, options: CallOptions): Call {
    if found then Call(Registered(name), self, args, options)
    else if Truthy(MemberOfContext(fallback, name)) then Call(Dynamic(MemberOfContext(fallback, name)), self, args, options)
    else Call(Registered("helperMissing"), self, [Text(name)] + args, options)
  }

  datatype Outcome = Ready(value: Value) | Invoke(call: Call)

  /** An expression without parameters is a helper if one is registered, else a context member. */
  function AmbiguousOutcome(rt: Runtime, name: string, self: Value, options: CallOptions): Outcome {
    var v := MemberOfContext(self, name);
    if name in rt.helpers then Invoke(Call(Registered(name), self, [], options))
    else if v.Function? then Invoke(Call(Dynamic(v), self, [], options))
    else Ready(v)
  }

  /** An expression is either a value already, or a call still to be run on the given blocks. */
  function SexprOutcome(rt: Runtime, o: CompileOptions, sc: Scope, sx: Sexpr, hasBlocks: bool): Outcome
    decreases sx
  {
    if !IsCall(o, sx) then
      if IsOpen(o, sx) then AmbiguousOutcome(rt, HelperName(sx.head), sc.At(0), CallOptions(map[], hasBlocks, sc.data))
      else Ready(Resolved(rt, sc.At(0), HeadValue(sc, sx.head)))
    else
      var args := ParamValues(rt, o, sc, sx.params);
      var hash := if sx.hash.HashNode? then PairValues(rt, o, sc.(last := ParamsLast(o, sx.params, sc.last)), sx.hash.pairs, map[]) else map[];
      var fallback := sc.At(sc.(last := CallLast(o, sx, sc.last)).Fallback());
      var name := HelperName(sx.head);
      Invoke(HelperCall(o.Known(name) || name in rt.helpers, name, sc.At(0), fallback, args, CallOptions(hash, hasBlocks, sc.data)))
  }

  function PlainOutcome(rt: Runtime, out: Outcome): Value {
    match out
    case Ready(v) => v
    case Invoke(call) => Apply(rt, call)
  }

  function ParamValue(rt: Runtime, o: CompileOptions, sc: Scope, p: Param): Value
    decreases p
  {
    match p
    case SubExpression(sx) => PlainOutcome(rt, SexprOutcome(rt, o, sc, sx, false))
    case IdParam(path) => PathValue(sc, path)
    case DataParam(path) => HeadValue(sc, DataHead(path))
    case StringParam(t) => Text(t)
    case LiteralParam(IntegerLiteral(n)) => Number(n)
    case LiteralParam(BooleanLiteral(b)) => Bool(b)
  }

  function ParamValues(rt: Runtime, o: CompileOptions, sc: Scope, ps: seq<Param>): (vs: seq<Value>)
    ensures |vs| == |ps|
    decreases ps
  {
    if ps == [] then []
    else [ParamValue(rt, o, sc.(last := ParamsLast(o, ps[1..], sc.last)), ps[0])] + ParamValues(rt, o, sc, ps[1..])
  }

  function PairValues(rt: Runtime, o: CompileOptions, sc: Scope, ps: seq<Pair>, m: map<string, Value>): map<string, Value>
    decreases ps
  {
    if ps == [] then m
    else
      var v := ParamValue(rt, o, sc, ps[0].value);
      PairValues(rt, o, sc.(last := ParamLast(o, ps[0].value, sc.last)), ps[1..], m[ps[0].key := v])
  }

  // ---------- Programs ----------

  function StatementLast(o: CompileOptions, s: Statement, last: nat): nat {
    match s
    case Mustache(sx, _) => SexprLast(o, sx, last)
    case Block(sx, _) => SexprLast(o, sx, last)
    case Partial(_, Some(p)) => p.depth
    case _ => last
  }

  /** Runs a call that may render the blocks, each in the scope the block stands in. */
  function BlockCall(rt: Runtime, o: CompileOptions, sc: Scope, bs: Blocks, call: Call, heard: seq<string>, budget: nat): Value
    decreases bs, 0, budget
  {
    match rt.act(call, heard)
    case Return(v) => v
    case Render(inverse, context, d) =>
      if budget == 0 then Undefined
      else
        var block := if inverse then bs.inverse else bs.program;
        var text := if block.None? then ""
          else Rendered(rt, o, sc.(contexts := [context] + sc.contexts, data := ChosenData(d, sc.data), last := 0), block.value.statements);
        BlockCall(rt, o, sc, bs, call, heard + [text], budget - 1)
  }

  function BlockOutcome(rt: Runtime, o: CompileOptions, sc: Scope, bs: Blocks, out: Outcome): Value
    decreases bs, 1
  {
    match out
    case Ready(v) => v
    case Invoke(call) => BlockCall(rt, o, sc, bs, call, [], rt.bound(call))
  }

  function MissingBlockCall(sc: Scope, bs: Blocks, v: Value): Call {
    Call(Registered("blockHelperMissing"), sc.At(0), [v], CallOptions(map[], bs.Any(), sc.data))
  }

  function BlockValueOf(rt: Runtime, o: CompileOptions, sc: Scope, sx: Sexpr, bs: Blocks): Value
    decreases bs, 2
  {
    var v := BlockOutcome(rt, o, sc, bs, SexprOutcome(rt, o, sc, sx, bs.Any()));
    var direct := IsCall(o, sx) || (IsOpen(o, sx) && HelperName(sx.head) in rt.helpers);
    if direct then v else BlockOutcome(rt, o, sc, bs, Invoke(MissingBlockCall(sc, bs, v)))
  }

  function StatementText(rt: Runtime, o: CompileOptions, sc: Scope, s: Statement): string
    decreases s
  {
    match s
    case Content(t) => t
    case Comment => ""
    case Mustache(sx, escaped) =>
      var v := PlainOutcome(rt, SexprOutcome(rt, o, sc, sx, false));
      if escaped && !o.noEscape then Escaped(rt, v) else Raw(rt, v)
    case Partial(name, context) =>
      Raw(rt, rt.partial(name, if context.Some? then PathValue(sc, context.value) else sc.At(0), sc.data))
    case Block(sx, bs) => Raw(rt, BlockValueOf(rt, o, sc, sx, bs))
  }

  function Rendered(rt: Runtime, o: CompileOptions, sc: Scope, ss: seq<Statement>): string
    decreases ss
  {
    if ss == [] then ""
    else StatementText(rt, o, sc, ss[0]) + Rendered(rt, o, sc.(last := StatementLast(o, ss[0], sc.last)), ss[1..])
  }
}

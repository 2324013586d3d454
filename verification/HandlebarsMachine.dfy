/**
 The opcodes as a stack machine, each with the stack effect documented beside it in
 `JavaScriptCompiler`.  A run is `None` when it gets stuck: a pop from an empty stack, an
 operand of the wrong sort, a `depthN` variable that is no parameter of the running function,
 a program number without a program, or values left on the stack at the end.
 */
module HandlebarsMachine {
  import opened Options
  import opened HandlebarsAst
  import opened HandlebarsSemantics

  datatype Item = ValueItem(value: Value) | ProgramItem(guid: Option<nat>) | HashItem(hash: map<string, Value>)

  /** One activation of a compiled program: its `depthN` parameters and its private data. */
  datatype Frame = Frame(env: Environment, vars: map<nat, Value>, data: Value)

  /** The top of the stack is its last element. */
  datatype State = State(
    stack: seq<Item>, buffer: string, last: nat,
    hash: Option<map<string, Value>>, hashes: seq<map<string, Value>>, lastHelper: string)
  {
    function Push(v: Value): State {
      this.(stack := stack + [ValueItem(v)])
    }
  }

  const Initial := State([], "", 0, None, [], "")

  /** Positional parameter passing. */
  function Bind(names: seq<nat>, args: seq<Value>): map<nat, Value>
    requires |names| == |args|
  {
    if names == [] then map[]
    else Bind(names[..|names| - 1], args[..|names| - 1])[names[|names| - 1] := args[|names| - 1]]
  }

  /** `programExpression`: the arguments for a nested program's depth parameters are the parent's variables, one level down. */
  function DepthArguments(vars: map<nat, Value>, depths: seq<nat>): (args: Option<seq<Value>>)
    ensures args.Some? ==> |args.value| == |depths|
  {
    if depths == [] then Some([])
    else
      var front, d := DepthArguments(vars, depths[..|depths| - 1]), depths[|depths| - 1];
      var parent := if d == 0 then 0 else d - 1;
      if front.None? || parent !in vars then None else Some(front.value + [vars[parent]])
  }

  function PopValue(st: State): Option<(Value, State)> {
    var n := |st.stack|;
    if n > 0 && st.stack[n - 1].ValueItem? then Some((st.stack[n - 1].value, st.(stack := st.stack[..n - 1]))) else None
  }

  /** The top `argc` values, topmost first. */
  function PopValues(st: State, argc: nat): Option<(seq<Value>, State)>
    decreases argc
  {
    if argc == 0 then Some(([], st))
    else
      match PopValue(st)
      case None => None
      case Some((v, st1)) =>
        match PopValues(st1, argc - 1)
        case None => None
        case Some((vs, st2)) => Some(([v] + vs, st2))
  }

  datatype Operands = Operands(hash: map<string, Value>, prog: Option<nat>, inv: Option<nat>, args: seq<Value>, rest: State)

  /** `setupOptions`: hash, inverse, program, then the parameters. */
  function PopOperands(st: State, argc: nat): Option<Operands> {
    var n := |st.stack|;
    if n >= 3 && st.stack[n - 1].HashItem? && st.stack[n - 2].ProgramItem? && st.stack[n - 3].ProgramItem? then
      match PopValues(st.(stack := st.stack[..n - 3]), argc)
      case None => None
      case Some((args, rest)) =>
        Some(Operands(st.stack[n - 1].hash, st.stack[n - 3].guid, st.stack[n - 2].guid, args, rest))
    else None
  }

  function OptionsOf(f: Frame, ops: Operands): CallOptions {
    CallOptions(ops.hash, ops.prog.Some? || ops.inv.Some?, f.data)
  }

  /** Runs a call on program numbers of the current environment. */
  function RunCall(rt: Runtime, f: Frame, prog: Option<nat>, inv: Option<nat>, call: Call, heard: seq<string>, budget: nat): Option<Value>
    decreases f.env, 1, budget
  {
    match rt.act(call, heard)
    case Return(v) => Some(v)
    case Render(inverse, context, d) =>
      if budget == 0 then Some(Undefined)
      else
        var guid := if inverse then inv else prog;
        var text := match guid
          case None => Some("")
          case Some(g) => RunChild(rt, f, g, context, if d.Some? && Truthy(d.value) then d.value else f.data);
        if text.None? then None else RunCall(rt, f, prog, inv, call, heard + [text.value], budget - 1)
  }

  function RunChild(rt: Runtime, f: Frame, g: nat, context: Value, data: Value): Option<string>
    decreases f.env, 0, 0
  {
    if g >= |f.env.children| then None
    else
      var child := f.env.children[g];
      match DepthArguments(f.vars, child.depths)
      case None => None
      case Some(args) => RunProgram(rt, Frame(child, Bind(child.depths, args)[0 := context], data))
  }

  function RunInvocation(rt: Runtime, f: Frame, ops: Operands, call: Call): Option<Value>
    decreases f.env, 2
  {
    RunCall(rt, f, ops.prog, ops.inv, call, [], rt.bound(call))
  }

  /** `if (v || v === 0) { buffer += v; }` */
  function Shown(rt: Runtime, v: Value): string {
    if Truthy(v) || v == Number(0) then rt.text(v) else ""
  }

  /** `escapeExpression` */
  function EscapeExpression(rt: Runtime, v: Value): string {
    if v.SafeText? then v.s
    else if !Truthy(v) && v != Number(0) then ""
    else EscapeText(rt.text(v))
  }

  /** `helper ? helper.call(...) : helperMissing.call(...)`, `helper` being the registered one or a member of the context opened last. */
  function HelperOrMissing(rt: Runtime, name: string, known: bool, self: Value, last: Value, args: seq<Value>, options: CallOptions): Call {
    var member := MemberOfContext(last, name);
    if known || name in rt.helpers then Call(Registered(name), self, args, options)
    else if Truthy(member) then Call(Dynamic(member), self, args, options)
    else Call(Registered("helperMissing"), self, [Text(name)] + args, options)
  }

  function PushResult(st: State, v: Option<Value>): Option<State> {
    if v.Some? then Some(st.Push(v.value)) else None
  }

  function Step(rt: Runtime, f: Frame, op: Opcode, st: State): Option<State>
    decreases f.env, 4
  {
    if 0 !in f.vars then None
    else
      match op
      case AppendContent(t) => Some(st.(buffer := st.buffer + t))
      case Append => (match PopValue(st) case None => None case Some((v, s)) => Some(s.(buffer := s.buffer + Shown(rt, v))))
      case AppendEscaped => (match PopValue(st) case None => None case Some((v, s)) => Some(s.(buffer := s.buffer + EscapeExpression(rt, v))))
      case GetContext(d) => Some(st.(last := d))
      case PushContext => if st.last in f.vars then Some(st.Push(f.vars[st.last])) else None
      case LookupOnContext(n) => if st.last in f.vars then Some(st.Push(MemberOfContext(f.vars[st.last], n))) else None
      case Lookup(n) => (match PopValue(st) case None => None case Some((v, s)) => Some(s.Push(MemberOfValue(v, n))))
      case LookupData => Some(st.Push(f.data))
      case ResolvePossibleLambda =>
        (match PopValue(st) case None => None case Some((v, s)) => Some(s.Push(if v.Function? then Apply(rt, Call(Dynamic(v), f.vars[0], [], NoOptions)) else v)))
      case PushString(t) => Some(st.Push(Text(t)))
      case PushLiteral(IntegerLiteral(n)) => Some(st.Push(Number(n)))
      case PushLiteral(BooleanLiteral(b)) => Some(st.Push(Bool(b)))
      case PushProgram(g) => Some(st.(stack := st.stack + [ProgramItem(g)]))
      case EmptyHash => Some(st.(stack := st.stack + [HashItem(map[])]))
      case PushHash => Some(st.(hash := Some(map[]), hashes := if st.hash.Some? then st.hashes + [st.hash.value] else st.hashes))
      case AssignToHash(k) =>
        (match PopValue(st)
         case None => None
         case Some((v, s)) => if s.hash.Some? then Some(s.(hash := Some(s.hash.value[k := v]))) else None)
      case PopHash =>
        if st.hash.None? then None
        else
          var n := |st.hashes|;
          Some(st.(stack := st.stack + [HashItem(st.hash.value)],
                   hash := if n == 0 then None else Some(st.hashes[n - 1]),
                   hashes := if n == 0 then [] else st.hashes[..n - 1]))
      case InvokeKnownHelper(argc, name) => StepCall(rt, f, argc, name, true, st)
      case InvokeHelper(argc, name, _) => StepCall(rt, f, argc, name, false, st)
      case InvokeAmbiguous(name, _) => StepAmbiguous(rt, f, name, st)
      case BlockValue => StepBlockValue(rt, f, st)
      case AmbiguousBlockValue => StepAmbiguousBlock(rt, f, st)
      case PushDepth0 => Some(st.Push(f.vars[0]))
      case InvokePartial(name) =>
        (match PopValue(st) case None => None case Some((v, s)) => Some(s.Push(rt.partial(name, v, f.data))))
  }

  function StepCall(rt: Runtime, f: Frame, argc: nat, name: string, known: bool, st: State): Option<State>
    requires 0 in f.vars
    decreases f.env, 3, 1
  {
    match PopOperands(st, argc)
    case None => None
    case Some(ops) =>
      var looksUp := !known && name !in rt.helpers;
      if looksUp && st.last !in f.vars then None
      else
        var call := HelperOrMissing(rt, name, known, f.vars[0], if looksUp then f.vars[st.last] else Undefined, ops.args, OptionsOf(f, ops));
        PushResult(ops.rest, RunInvocation(rt, f, ops, call))
  }

  /** `invokeAmbiguous` adds the empty hash itself. */
  function StepAmbiguous(rt: Runtime, f: Frame, name: string, st: State): Option<State>
    requires 0 in f.vars
    decreases f.env, 3, 1
  {
    match PopOperands(st.(stack := st.stack + [HashItem(map[])]), 0)
    case None => None
    case Some(ops) =>
      var rest := ops.rest.(lastHelper := name);
      if st.last !in f.vars then None
      else
        var member := MemberOfContext(f.vars[st.last], name);
        if name in rt.helpers then PushResult(rest, RunInvocation(rt, f, ops, Call(Registered(name), f.vars[0], [], OptionsOf(f, ops))))
        else if member.Function? then PushResult(rest, RunInvocation(rt, f, ops, Call(Dynamic(member), f.vars[0], [], OptionsOf(f, ops))))
        else Some(rest.Push(member))
  }

  function StepBlockValue(rt: Runtime, f: Frame, st: State): Option<State>
    requires 0 in f.vars
    decreases f.env, 3, 1
  {
    match PopOperands(st, 1)
    case None => None
    case Some(ops) =>
      PushResult(ops.rest, RunInvocation(rt, f, ops, Call(Registered("blockHelperMissing"), f.vars[0], ops.args, OptionsOf(f, ops))))
  }

  /** The value stays as it is when the ambiguous name turned out to be a helper. */
  function StepAmbiguousBlock(rt: Runtime, f: Frame, st: State): Option<State>
    requires 0 in f.vars
    decreases f.env, 3, 2
  {
    if st.lastHelper in rt.helpers then
      match PopOperands(st, 1)
      case None => None
      case Some(ops) => Some(ops.rest.Push(ops.args[0]))
    else StepBlockValue(rt, f, st)
  }

  function Run(rt: Runtime, f: Frame, ops: seq<Opcode>, st: State): Option<State>
    decreases f.env, 5, |ops|
  {
    if ops == [] then Some(st)
    else
      match Step(rt, f, ops[0], st)
      case None => None
      case Some(s) => Run(rt, f, ops[1..], s)
  }

  function RunProgram(rt: Runtime, f: Frame): Option<string>
    decreases f.env, 6
  {
    match Run(rt, f, f.env.opcodes, Initial)
    case None => None
    case Some(st) => if st.stack == [] && st.hash.None? && st.hashes == [] then Some(st.buffer) else None
  }

  /** The outermost template: its `depthN` parameters beyond the context receive nothing. */
  function RunTemplate(rt: Runtime, env: Environment, context: Value, data: Value): Option<string> {
    RunProgram(rt, Frame(env, Bind(env.depths, seq(|env.depths|, _ => Undefined))[0 := context], data))
  }
}

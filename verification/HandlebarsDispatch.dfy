/**
 What templates of a single mustache or block render, in terms of their parts and the runtime alone:
 when a name is a helper and when a value, what a path reaches, and what escaping does to the text.
 */
module HandlebarsDispatch {
  import opened Options
  import opened HandlebarsAst
  import opened HandlebarsCompiler
  import opened HandlebarsSemantics
  import opened HandlebarsMachine
  import opened HandlebarsMeaning

  function Compiled(rt: Runtime, o: CompileOptions, s: Statement, context: Value, data: Value): Option<string>
    requires StatementCompiles(o, s)
  {
    assert [s][1..] == [];
    RunTemplate(rt, ProgramEnvironment(o, Program([s])), context, data)
  }

  lemma OneStatement(rt: Runtime, o: CompileOptions, s: Statement, context: Value, data: Value)
    requires StatementCompiles(o, s)
    ensures Compiled(rt, o, s, context, data) == Some(StatementText(rt, o, Scope([context], data, 0, false), s))
  {
    assert [s][1..] == [];
    CompilationPreservesMeaning(rt, o, Program([s]), context, data);
    var text := StatementText(rt, o, Scope([context], data, 0, false), s);
    assert text + "" == text;
  }

  /** Undefined, null, false and the empty text show nothing. */
  function Visible(rt: Runtime, v: Value): string {
    match v
    case Undefined => ""
    case Null => ""
    case Bool(b) => if b then rt.text(v) else ""
    case Text(t) => if t == "" then "" else rt.text(v)
    case _ => rt.text(v)
  }

  // ---------- Names ----------

  function Name(name: string, isRoot: bool): Sexpr {
    Sexpr(IdHead(Path([name], 0, false)), [], NoHash, false, isRoot)
  }

  /** What a name alone stands for, blocks being given or not: the call to make, or the value. */
  function NameMeans(rt: Runtime, o: CompileOptions, name: string, context: Value, options: CallOptions): Outcome {
    var member := if context in {Undefined, Null, Bool(false), Number(0), Text("")} then context else Member(context, name);
    if o.Known(name) || (!o.knownHelpersOnly && name in rt.helpers) then Invoke(Call(Registered(name), context, [], options))
    else if member.Function? then
      if o.knownHelpersOnly then Ready(Apply(rt, Call(Dynamic(member), context, [], NoOptions)))
      else Invoke(Call(Dynamic(member), context, [], options))
    else Ready(member)
  }

  lemma NameOutcome(rt: Runtime, o: CompileOptions, name: string, isRoot: bool, context: Value, data: Value, hasBlocks: bool)
    requires name != ""
    ensures SexprCompiles(o, Name(name, isRoot))
    ensures SexprOutcome(rt, o, Scope([context], data, 0, false), Name(name, isRoot), hasBlocks)
      == NameMeans(rt, o, name, context, CallOptions(map[], hasBlocks, data))
  {
    var sc, head := Scope([context], data, 0, false), Name(name, isRoot).head;
    assert HeadValue(sc, head) == MemberOfContext(context, name) by { assert [name][1..] == []; }
    assert ParamValues(rt, o, sc, []) == [];
  }

  lemma RawIsVisible(rt: Runtime, v: Value)
    ensures Raw(rt, v) == Visible(rt, v)
  {
  }

  /**
   `{{{name}}}`: a known name is the helper's, and so is a registered one unless only known helpers are
   allowed; otherwise a function in the context is called, and anything else there is the value.
   */
  lemma NameIsDispatched(rt: Runtime, o: CompileOptions, name: string, isRoot: bool, context: Value, data: Value)
    requires name != ""
    ensures StatementCompiles(o, Mustache(Name(name, isRoot), false))
    ensures Compiled(rt, o, Mustache(Name(name, isRoot), false), context, data)
      == Some(Visible(rt, PlainOutcome(rt, NameMeans(rt, o, name, context, CallOptions(map[], false, data)))))
  {
    NameOutcome(rt, o, name, isRoot, context, data, false);
    var v := PlainOutcome(rt, NameMeans(rt, o, name, context, CallOptions(map[], false, data)));
    var s := Mustache(Name(name, isRoot), false);
    assert StatementText(rt, o, Scope([context], data, 0, false), s) == Raw(rt, v);
    OneStatement(rt, o, s, context, data);
    RawIsVisible(rt, v);
  }

  /** The value of a block on a name: a helper's result is final, anything else goes to `blockHelperMissing`. */
  function NameBlockValue(rt: Runtime, o: CompileOptions, name: string, bs: Blocks, context: Value, data: Value): Value {
    var sc := Scope([context], data, 0, false);
    var options := CallOptions(map[], bs.program.Some? || bs.inverse.Some?, data);
    var v := BlockOutcome(rt, o, sc, bs, NameMeans(rt, o, name, context, options));
    var missing := Call(Registered("blockHelperMissing"), context, [v], options);
    if o.Known(name) || (!o.knownHelpersOnly && name in rt.helpers) then v
    else BlockCall(rt, o, sc, bs, missing, [], rt.bound(missing))
  }

  lemma NameBlockMeans(rt: Runtime, o: CompileOptions, name: string, isRoot: bool, bs: Blocks, context: Value, data: Value)
    requires name != ""
    ensures BlockValueOf(rt, o, Scope([context], data, 0, false), Name(name, isRoot), bs) == NameBlockValue(rt, o, name, bs, context, data)
  {
    NameOutcome(rt, o, name, isRoot, context, data, bs.Any());
  }

  /** `{{#name}}`: a helper is called on the blocks itself; the value of anything else goes to `blockHelperMissing`. */
  lemma NameBlockIsDispatched(rt: Runtime, o: CompileOptions, name: string, isRoot: bool, bs: Blocks, context: Value, data: Value)
    requires name != "" && NestedCompile(o, bs)
    ensures StatementCompiles(o, Block(Name(name, isRoot), bs))
    ensures Compiled(rt, o, Block(Name(name, isRoot), bs), context, data)
      == Some(Visible(rt, NameBlockValue(rt, o, name, bs, context, data)))
  {
    NameOutcome(rt, o, name, isRoot, context, data, bs.Any());
    var s := Block(Name(name, isRoot), bs);
    var v := NameBlockValue(rt, o, name, bs, context, data);
    NameBlockMeans(rt, o, name, isRoot, bs, context, data);
    OneStatement(rt, o, s, context, data);
    assert StatementText(rt, o, Scope([context], data, 0, false), s) == Raw(rt, v);
    RawIsVisible(rt, v);
  }

  /** Written as a call: in parentheses, or a single plain name with parameters or a hash or that is known. */
  predicate WrittenAsCall(o: CompileOptions, sx: Sexpr) {
    && sx.head.IdHead? && sx.head.path.parts != []
    && (sx.paren
        || (|sx.head.path.parts| == 1 && !sx.head.path.scoped && sx.head.path.depth == 0
            && (sx.params != [] || sx.hash.HashNode? || o.Known(sx.head.path.parts[0]))))
  }

  /** The function called and its arguments: the helper, else a true member of `near`, else `helperMissing`, which gets the name first. */
  predicate CallsRightly(rt: Runtime, o: CompileOptions, call: Call, name: string, near: Value, args: seq<Value>) {
    var member := if near in {Undefined, Null, Bool(false), Number(0), Text("")} then near else Member(near, name);
    if o.Known(name) || name in rt.helpers then call.callee == Registered(name) && call.args == args
    else if member !in {Undefined, Null, Bool(false), Number(0), Text("")} then call.callee == Dynamic(member) && call.args == args
    else call.callee == Registered("helperMissing") && call.args == [Text(name)] + args
  }

  lemma CallOutcome(rt: Runtime, o: CompileOptions, sx: Sexpr, sc: Scope) returns (call: Call)
    requires WrittenAsCall(o, sx) && sc.last == 0 && !sc.intended
    ensures SexprOutcome(rt, o, sc, sx, false) == Invoke(call)
    ensures call.self == sc.At(0) && call.options.CallOptions? && !call.options.hasBlocks && call.options.data == sc.data
    ensures sx.hash.NoHash? ==> call.options.hash == map[]
    ensures CallsRightly(rt, o, call, sx.head.path.parts[0], sc.At(CallLast(o, sx, 0)), ParamValues(rt, o, sc, sx.params))
  {
    call := SexprOutcome(rt, o, sc, sx, false).call;
  }

  /**
   What is written as a call is always one: of the helper if it is known or registered, else of a true
   member of the context opened last, else of `helperMissing`.
   */
  lemma CallIsDispatched(rt: Runtime, o: CompileOptions, sx: Sexpr, context: Value, data: Value) returns (call: Call)
    requires SexprCompiles(o, sx) && WrittenAsCall(o, sx)
    ensures Compiled(rt, o, Mustache(sx, false), context, data) == Some(Visible(rt, Apply(rt, call)))
    ensures call.self == context && call.options.CallOptions? && !call.options.hasBlocks && call.options.data == data
    ensures sx.hash.NoHash? ==> call.options.hash == map[]
    ensures
      var near := if CallLast(o, sx, 0) == 0 then context else Undefined;
      CallsRightly(rt, o, call, sx.head.path.parts[0], near, ParamValues(rt, o, Scope([context], data, 0, false), sx.params))
  {
    var sc := Scope([context], data, 0, false);
    call := CallOutcome(rt, o, sx, sc);
    assert StatementText(rt, o, sc, Mustache(sx, false)) == Raw(rt, Apply(rt, call));
    OneStatement(rt, o, Mustache(sx, false), context, data);
    RawIsVisible(rt, Apply(rt, call));
  }

  /** The built-in helpers are known unless the caller's table says otherwise; any other name only if it says so. */
  lemma BuiltInHelpersAreKnown(o: CompileOptions)
    ensures forall name | name in {"if", "unless", "each", "with", "log", "helperMissing", "blockHelperMissing"} ::
      o.Known(name) <==> name !in o.knownHelpers || o.knownHelpers[name]
    ensures o.Known("now") <==> "now" in o.knownHelpers && o.knownHelpers["now"]
  {
  }

  // ---------- Paths ----------

  /** The value behind a chain of members, if every one of them is there. */
  function Reached(v: Value, parts: seq<string>): Option<Value>
    decreases parts
  {
    if parts == [] then Some(v)
    else if v.Object? && parts[0] in v.members then Reached(v.members[parts[0]], parts[1..])
    else None
  }

  lemma {:induction false} ChainReaches(v: Value, parts: seq<string>)
    ensures
      var r := MemberChain(v, parts);
      if Reached(v, parts).Some? then r == Reached(v, parts).value else r in {Undefined, Null, Bool(false)}
    decreases parts
  {
    if parts != [] {
      if v.Object? && parts[0] in v.members {
        ChainReaches(v.members[parts[0]], parts[1..]);
      } else {
        ChainStays(MemberOfValue(v, parts[0]), parts[1..]);
      }
    }
  }

  lemma {:induction false} ChainStays(v: Value, parts: seq<string>)
    requires v in {Undefined, Null, Bool(false)}
    ensures MemberChain(v, parts) == v
    decreases parts
  {
    if parts != [] { ChainStays(v, parts[1..]); }
  }

  /** `{{{a.b.c}}}` shows the member the path leads to, and nothing as soon as one is missing on the way. */
  lemma PathIsFollowed(rt: Runtime, o: CompileOptions, path: Path, isRoot: bool, context: Value, data: Value)
    requires path.depth == 0 && path.parts != [] && path.parts[0] != "" && (|path.parts| > 1 || path.scoped)
    requires context.Object? && !(Reached(context, path.parts).Some? && Reached(context, path.parts).value.Function?)
    ensures
      var sx, reached := Sexpr(IdHead(path), [], NoHash, false, isRoot), Reached(context, path.parts);
      && StatementCompiles(o, Mustache(sx, false))
      && Compiled(rt, o, Mustache(sx, false), context, data) == Some(if reached.Some? then Visible(rt, reached.value) else "")
  {
    var sx := Sexpr(IdHead(path), [], NoHash, false, isRoot);
    var sc, first := Scope([context], data, 0, false), MemberOfContext(context, path.parts[0]);
    ChainReaches(first, path.parts[1..]);
    if path.parts[0] !in context.members { ChainStays(first, path.parts[1..]); }
    var v := PathValue(sc, path);
    assert v == MemberChain(first, path.parts[1..]) && !v.Function?;
    assert StatementText(rt, o, sc, Mustache(sx, false)) == Raw(rt, v);
    OneStatement(rt, o, Mustache(sx, false), context, data);
    RawIsVisible(rt, v);
  }

  // ---------- Escaping ----------

  /** What a browser makes of the entities that escaping writes. */
  function Unescaped(s: string): string {
    if s == [] then []
    else if "&amp;" <= s then ['&'] + Unescaped(s[5..])
    else if "&lt;" <= s then ['<'] + Unescaped(s[4..])
    else if "&gt;" <= s then ['>'] + Unescaped(s[4..])
    else if "&quot;" <= s then ['\"'] + Unescaped(s[6..])
    else if "&#x27;" <= s then ['\''] + Unescaped(s[6..])
    else if "&#x60;" <= s then ['`'] + Unescaped(s[6..])
    else [s[0]] + Unescaped(s[1..])
  }

  lemma EntityIsUndone(c: char, entity: string, more: string)
    requires (c, entity) in {('&', "&amp;"), ('<', "&lt;"), ('>', "&gt;"), ('\"', "&quot;"), ('\'', "&#x27;"), ('`', "&#x60;")}
    ensures Unescaped(entity + more) == [c] + Unescaped(more)
  {
    var s := entity + more;
    assert entity <= s && s[|entity|..] == more;
    assert s[1] == entity[1] && s[2] == entity[2] && s[3] == entity[3];
    if |entity| == 6 { assert s[4] == entity[4]; }
  }

  lemma EscapeFirst(c: char, more: string) returns (written: string)
    ensures EscapeText([c] + more) == written + EscapeText(more)
    ensures Unescaped(written + EscapeText(more)) == [c] + Unescaped(EscapeText(more))
    ensures |written| <= 6 && forall i :: 0 <= i < |written| ==> written[i] !in {'<', '>', '\"', '\'', '`'}
  {
    assert ([c] + more)[1..] == more;
    match c
    case '&' => written := "&amp;"; EntityIsUndone(c, written, EscapeText(more));
    case '<' => written := "&lt;"; EntityIsUndone(c, written, EscapeText(more));
    case '>' => written := "&gt;"; EntityIsUndone(c, written, EscapeText(more));
    case '\"' => written := "&quot;"; EntityIsUndone(c, written, EscapeText(more));
    case '\'' => written := "&#x27;"; EntityIsUndone(c, written, EscapeText(more));
    case '`' => written := "&#x60;"; EntityIsUndone(c, written, EscapeText(more));
    case _ =>
      written := [c];
      assert (written + EscapeText(more))[1..] == EscapeText(more);
  }

  /** Escaped text shows as the text itself, and contains none of the characters that could end or open a tag or attribute. */
  lemma {:induction false} EscapingIsUndone(s: string)
    ensures Unescaped(EscapeText(s)) == s
    ensures forall i :: 0 <= i < |EscapeText(s)| ==> EscapeText(s)[i] !in {'<', '>', '\"', '\'', '`'}
  {
    if s != [] {
      assert [s[0]] + s[1..] == s;
      var written := EscapeFirst(s[0], s[1..]);
      EscapingIsUndone(s[1..]);
    }
  }

  /** `{{ }}` shows the same value as `{{{ }}}`, escaped unless escaping is off or the value is marked as safe. */
  lemma EscapedMustache(rt: Runtime, o: CompileOptions, sx: Sexpr, context: Value, data: Value)
    requires SexprCompiles(o, sx)
    ensures
      var v := PlainOutcome(rt, SexprOutcome(rt, o, Scope([context], data, 0, false), sx, false));
      && Compiled(rt, o, Mustache(sx, false), context, data) == Some(Visible(rt, v))
      && Compiled(rt, o, Mustache(sx, true), context, data)
        == Some(if o.noEscape then Visible(rt, v) else if v.SafeText? then v.s else EscapeText(Visible(rt, v)))
  {
    OneStatement(rt, o, Mustache(sx, false), context, data);
    OneStatement(rt, o, Mustache(sx, true), context, data);
  }
}

/**
 The text that the second pass writes, as far as the variables `stackN` go.  A piece of text is the
 sequence of what running it does to them.  Assignments are numbered, and a read names the
 assignment whose value it is meant to see; the text is right if every read sees that value.
 */
module HandlebarsEmission {
  import opened Options
  import opened HandlebarsAst
  import opened HandlebarsCompiler
  import opened HandlebarsStack

  /** Assignment number `t`, to `stackN`; or a read of `stackN` meant for the value of that assignment. */
  datatype Act = Set(n: nat, t: nat) | Get(n: nat, t: nat)

  /** An entry of the compiler's stacks: a `Literal`, a variable, or an expression text. */
  datatype Piece = Constant | Variable(n: nat, t: nat) | Text(acts: seq<Act>)

  function Acts(p: Piece): seq<Act> {
    match p
    case Constant => []
    case Variable(n, t) => [Get(n, t)]
    case Text(acts) => acts
  }

  // ---------- The compiler's state and what it writes ----------

  /** What a pop yields: the stacks without the entry, and what its text does. */
  datatype Popped = Stuck | Popped(rest: Emitter, acts: seq<Act>)

  /** `hashes` holds the values of the hash literals being built, outermost first; `out` is what has been written. */
  datatype Emitter = Emitter(compile: seq<Piece>, inline: seq<Piece>, slot: nat, hashes: seq<Piece>, next: nat, out: seq<Act>) {
    function Push(p: Piece): Emitter {
      this.(inline := inline + [p])
    }

    function Emit(acts: seq<Act>): Emitter {
      this.(out := out + acts)
    }

    /** `pushStack` with nothing inline: a new variable is assigned a text. */
    function Store(acts: seq<Act>): Emitter {
      this.(compile := compile + [Variable(slot + 1, next)], slot := slot + 1, next := next + 1, out := out + acts + [Set(slot + 1, next)])
    }

    /** `popStack()` */
    function Pop(): Popped {
      if inline != [] then Popped(this.(inline := inline[..|inline| - 1]), Acts(inline[|inline| - 1]))
      else if compile != [] && compile[|compile| - 1].Constant? then Popped(this.(compile := compile[..|compile| - 1]), [])
      else if slot == 0 then Stuck
      else if compile == [] then Popped(this.(slot := slot - 1), [])
      else Popped(this.(compile := compile[..|compile| - 1], slot := slot - 1), Acts(compile[|compile| - 1]))
    }

    /** Several pops, their texts in the order of the pops. */
    function PopTimes(n: nat): Popped
      decreases n
    {
      if n == 0 then Popped(this, [])
      else
        match Pop()
        case Stuck => Stuck
        case Popped(rest, acts) =>
          match rest.PopTimes(n - 1)
          case Stuck => Stuck
          case Popped(rest', more) => Popped(rest', acts + more)
    }

    /** `flushInline` */
    function FlushAll(): Emitter
      decreases |inline|
    {
      if inline == [] then this
      else
        var e := this.(inline := inline[1..]);
        (if inline[0].Constant? then e.(compile := compile + [Constant]) else e.Store(Acts(inline[0]))).FlushAll()
    }

    /** The variable that an inline text is assigned to while it is rewritten. */
    function Borrowed(): nat {
      if slot == 0 then 1 else slot
    }

    /** `replaceStack` with a text that reads the top and then runs `more`. */
    function Rewrite(more: seq<Act>): Emitter {
      if inline != [] then
        var front, top := inline[..|inline| - 1], inline[|inline| - 1];
        if top.Constant? then this.(inline := front + [Text(more)])
        else this.(inline := front + [Text(Acts(top) + [Set(Borrowed(), next), Get(Borrowed(), next)] + more)], next := next + 1)
      else if compile != [] && compile[|compile| - 1].Variable? then Reassign(more)
      else Store(more)
    }

    /** The variable on top is assigned a text that reads it and then runs `more`. */
    function Reassign(more: seq<Act>): Emitter
      requires compile != [] && compile[|compile| - 1].Variable?
    {
      var front, top := compile[..|compile| - 1], compile[|compile| - 1];
      this.(compile := front + [Variable(top.n, next)], next := next + 1, out := out + ([Get(top.n, top.t)] + more + [Set(top.n, next)]))
    }

    /** A call: `setupParams` takes the options and then the arguments; `known` puts the arguments first. */
    function CallText(argc: nat, known: bool): Option<Emitter> {
      match PopTimes(3)
      case Stuck => None
      case Popped(rest, options) =>
        match rest.PopTimes(argc)
        case Stuck => None
        case Popped(rest', args) => Some(rest'.Push(Text(if known then args + options else options + args)))
    }

    /** The kinds of the entries. */
    function Shape(): Stacks {
      Stacks(EntriesOf(compile), EntriesOf(inline), slot, |hashes|)
    }
  }

  function Kind(p: Piece): Entry {
    match p
    case Constant => LiteralEntry
    case Variable(n, _) => SlotEntry(n)
    case Text(_) => InlineEntry
  }

  function EntriesOf(ps: seq<Piece>): seq<Entry> {
    seq(|ps|, i requires 0 <= i < |ps| => Kind(ps[i]))
  }

  predicate VariableIsTop(e: Emitter) {
    e.inline == [] && e.compile != [] && e.compile[|e.compile| - 1].Variable?
  }

  function EmitStep(e: Emitter, op: Opcode): Option<Emitter> {
    match op
    case AppendContent(_) => Some(e)
    case GetContext(_) => Some(e)
    case Append =>
      (match e.FlushAll().Pop()
       case Stuck => None
       case Popped(rest, acts) => Some(rest.Emit(acts)))
    case AppendEscaped =>
      (match e.Pop()
       case Stuck => None
       case Popped(rest, acts) => Some(rest.Emit(acts)))
    case PushContext => Some(e.Push(Constant))
    case LookupData => Some(e.Push(Constant))
    case PushString(_) => Some(e.Push(Constant))
    case PushLiteral(_) => Some(e.Push(Constant))
    case PushProgram(_) => Some(e.Push(Constant))
    case EmptyHash => Some(e.Push(Constant))
    case LookupOnContext(_) => Some(e.Push(Text([])))
    case PushDepth0 => Some(e.Push(Text([])))
    case PushHash => Some(e.(hashes := e.hashes + [Text([])]))
    case AssignToHash(_) =>
      if e.hashes == [] then None
      else
        (match e.Pop()
         case Stuck => None
         case Popped(rest, acts) =>
           var front, last := e.hashes[..|e.hashes| - 1], e.hashes[|e.hashes| - 1];
           Some(rest.(hashes := front + [Text(Acts(last) + acts)])))
    case PopHash =>
      if e.hashes == [] then None
      else Some(e.(hashes := e.hashes[..|e.hashes| - 1]).Push(Text(Acts(e.hashes[|e.hashes| - 1]))))
    case Lookup(_) => Some(e.Rewrite([]))
    case ResolvePossibleLambda => Some(e.Rewrite([]))
    case InvokeKnownHelper(argc, _) => e.CallText(argc, true)
    case InvokeHelper(argc, _, isRoot) =>
      (match e.CallText(argc, false)
       case None => None
       case Some(f) => Some(if isRoot then f else f.FlushAll()))
    case InvokeAmbiguous(_, _) =>
      (match e.Push(Constant).PopTimes(3)
       case Stuck => None
       case Popped(rest, options) => Some(rest.FlushAll().Store(options)))
    case BlockValue =>
      (match e.PopTimes(3)
       case Stuck => None
       case Popped(rest, options) => Some(rest.Rewrite(options)))
    case AmbiguousBlockValue =>
      (match e.PopTimes(3)
       case Stuck => None
       case Popped(rest, options) =>
         if VariableIsTop(rest) then Some(rest.Reassign(options)) else None)
    case InvokePartial(_) =>
      (match e.Pop()
       case Stuck => None
       case Popped(rest, acts) => Some(rest.Push(Text(acts))))
  }

  function EmitRun(e: Emitter, ops: seq<Opcode>): Option<Emitter>
    decreases ops
  {
    if ops == [] then Some(e)
    else
      match EmitStep(e, ops[0])
      case None => None
      case Some(f) => EmitRun(f, ops[1..])
  }

  const Start := Emitter([], [], 0, [], 0, [])

  // ---------- The kinds of the entries are those of `HandlebarsStack` ----------

  lemma PushShape(e: Emitter, p: Piece)
    ensures e.Push(p).Shape() == PushInline(e.Shape(), Kind(p))
  {
    assert EntriesOf(e.inline + [p]) == EntriesOf(e.inline) + [Kind(p)];
  }

  lemma StoreShape(e: Emitter, acts: seq<Act>)
    ensures e.Store(acts).Shape() == PushVariable(e.Shape())
  {
    assert EntriesOf(e.compile + [Variable(e.slot + 1, e.next)]) == EntriesOf(e.compile) + [SlotEntry(e.slot + 1)];
  }

  lemma PopShape(e: Emitter)
    ensures e.Pop().Stuck? <==> Pop(e.Shape()).None?
    ensures e.Pop().Popped? ==> Pop(e.Shape()) == Some(e.Pop().rest.Shape())
    ensures e.Pop().Popped? ==> e.Pop().rest.hashes == e.hashes && e.Pop().rest.next == e.next && e.Pop().rest.out == e.out
  {
    if e.inline != [] {
      assert EntriesOf(e.inline[..|e.inline| - 1]) == EntriesOf(e.inline)[..|e.inline| - 1];
    } else if e.compile != [] {
      assert EntriesOf(e.compile[..|e.compile| - 1]) == EntriesOf(e.compile)[..|e.compile| - 1];
    }
  }

  lemma {:induction false} PopTimesShape(e: Emitter, n: nat)
    ensures e.PopTimes(n).Stuck? <==> PopMany(e.Shape(), n).None?
    ensures e.PopTimes(n).Popped? ==> PopMany(e.Shape(), n) == Some(e.PopTimes(n).rest.Shape())
    decreases n
  {
    if n > 0 {
      PopShape(e);
      if e.Pop().Popped? { PopTimesShape(e.Pop().rest, n - 1); }
    }
  }

  lemma {:induction false} PopManyTwice(s: Stacks, m: nat, n: nat)
    ensures PopMany(s, m + n) == (match PopMany(s, m) case None => None case Some(t) => PopMany(t, n))
    decreases m
  {
    if m > 0 && Pop(s).Some? { PopManyTwice(Pop(s).value, m - 1, n); }
  }

  lemma {:induction false} FlushFirst(s: Stacks, first: Entry, entries: seq<Entry>)
    ensures FlushEntries(s, [first] + entries) == FlushEntries(FlushEntry(s, first), entries)
    decreases |entries|
  {
    var all := [first] + entries;
    if entries == [] {
      assert all[..0] == [];
      assert FlushEntries(s, all[..0]) == s;
    } else {
      assert all[..|all| - 1] == [first] + entries[..|entries| - 1];
      FlushFirst(s, first, entries[..|entries| - 1]);
    }
  }

  lemma {:induction false} FlushShape(e: Emitter)
    ensures e.FlushAll().Shape() == Flush(e.Shape()) && e.FlushAll().inline == [] && e.FlushAll().hashes == e.hashes
    decreases |e.inline|
  {
    if e.inline != [] {
      var f := e.(inline := e.inline[1..]);
      var g := if e.inline[0].Constant? then f.(compile := e.compile + [Constant]) else f.Store(Acts(e.inline[0]));
      FlushShape(g);
      var s := e.Shape().(inline := []);
      assert EntriesOf(e.inline) == [Kind(e.inline[0])] + EntriesOf(f.inline);
      FlushFirst(s, Kind(e.inline[0]), EntriesOf(f.inline));
      StoreShape(f, Acts(e.inline[0]));
      assert EntriesOf(e.compile + [Constant]) == EntriesOf(e.compile) + [LiteralEntry];
      assert g.Shape().(inline := []) == FlushEntry(s, Kind(e.inline[0]));
    } else {
      assert EntriesOf(e.inline) == [];
    }
  }

  lemma RewriteShape(e: Emitter, more: seq<Act>)
    ensures e.Rewrite(more).Shape() == Replace(e.Shape())
  {
    if e.inline != [] {
      var front := e.inline[..|e.inline| - 1];
      assert EntriesOf(e.Rewrite(more).inline) == EntriesOf(front) + [InlineEntry];
      assert EntriesOf(front) == EntriesOf(e.inline)[..|e.inline| - 1];
    } else if e.compile != [] && e.compile[|e.compile| - 1].Variable? {
      ReassignShape(e, more);
    } else {
      StoreShape(e, more);
    }
  }

  lemma ReassignShape(e: Emitter, more: seq<Act>)
    requires e.compile != [] && e.compile[|e.compile| - 1].Variable?
    ensures e.Reassign(more).Shape() == e.Shape()
  {
    assert EntriesOf(e.Reassign(more).compile) == EntriesOf(e.compile);
  }

  lemma CallShape(e: Emitter, argc: nat, known: bool)
    ensures e.CallText(argc, known).None? <==> PopMany(e.Shape(), 3 + argc).None?
    ensures e.CallText(argc, known).Some? ==>
      e.CallText(argc, known).value.Shape() == PushInline(PopMany(e.Shape(), 3 + argc).value, InlineEntry)
  {
    PopTimesShape(e, 3);
    PopManyTwice(e.Shape(), 3, argc);
    match e.PopTimes(3)
    case Stuck =>
    case Popped(rest, options) =>
      PopTimesShape(rest, argc);
      match rest.PopTimes(argc)
      case Stuck =>
      case Popped(rest', args) => PushShape(rest', Text(if known then args + options else options + args));
  }

  /** Both models of the opcode agree on the entries, and on where the pass throws. */
  ghost predicate Agree(e: Emitter, op: Opcode) {
    && (EmitStep(e, op).Some? <==> StackStep(e.Shape(), op).Some?)
    && (EmitStep(e, op).Some? ==> StackStep(e.Shape(), op) == Some(EmitStep(e, op).value.Shape()))
  }

  lemma AppendAgrees(e: Emitter)
    ensures Agree(e, Append)
  {
    FlushShape(e);
    PopShape(e.FlushAll());
  }

  lemma HashAgrees(e: Emitter, key: string)
    ensures Agree(e, AssignToHash(key)) && Agree(e, PopHash) && Agree(e, PushHash)
  {
    PopShape(e);
    if e.hashes != [] {
      PushShape(e.(hashes := e.hashes[..|e.hashes| - 1]), Text(Acts(e.hashes[|e.hashes| - 1])));
    }
  }

  lemma HelperAgrees(e: Emitter, argc: nat, name: string, isRoot: bool)
    ensures Agree(e, InvokeHelper(argc, name, isRoot))
  {
    CallShape(e, argc, false);
    var f := e.CallText(argc, false);
    if f.Some? { FlushShape(f.value); }
  }

  lemma PartialAgrees(e: Emitter, name: string)
    ensures Agree(e, InvokePartial(name))
  {
    PopShape(e);
    if e.Pop().Popped? { PushShape(e.Pop().rest, Text(e.Pop().acts)); }
  }

  lemma AmbiguousAgrees(e: Emitter, name: string, isBlock: bool)
    ensures Agree(e, InvokeAmbiguous(name, isBlock))
  {
    PushShape(e, Constant);
    PopTimesShape(e.Push(Constant), 3);
    var p := e.Push(Constant).PopTimes(3);
    if p.Popped? {
      FlushShape(p.rest);
      StoreShape(p.rest.FlushAll(), p.acts);
    }
  }

  lemma BlockValueAgrees(e: Emitter)
    ensures Agree(e, BlockValue)
  {
    PopTimesShape(e, 3);
    if e.PopTimes(3).Popped? { RewriteShape(e.PopTimes(3).rest, e.PopTimes(3).acts); }
  }

  lemma AmbiguousBlockValueAgrees(e: Emitter)
    ensures Agree(e, AmbiguousBlockValue)
  {
    PopTimesShape(e, 3);
    if e.PopTimes(3).Popped? {
      var rest := e.PopTimes(3).rest;
      VariableOnTop(rest);
      if VariableIsTop(rest) { ReassignShape(rest, e.PopTimes(3).acts); }
    }
  }

  lemma VariableOnTop(e: Emitter)
    ensures TopIsVariable(e.Shape()) <==> VariableIsTop(e)
  {
  }

  lemma StepShape(e: Emitter, op: Opcode)
    ensures Agree(e, op)
  {
    match op
    case Append => AppendAgrees(e);
    case AppendEscaped => PopShape(e);
    case LookupOnContext(_) => PushShape(e, Text([]));
    case PushDepth0 => PushShape(e, Text([]));
    case PushHash => HashAgrees(e, "");
    case AssignToHash(key) => HashAgrees(e, key);
    case PopHash => HashAgrees(e, "");
    case Lookup(_) => RewriteShape(e, []);
    case ResolvePossibleLambda => RewriteShape(e, []);
    case InvokeKnownHelper(argc, _) => CallShape(e, argc, true);
    case InvokeHelper(argc, name, isRoot) => HelperAgrees(e, argc, name, isRoot);
    case InvokeAmbiguous(name, isBlock) => AmbiguousAgrees(e, name, isBlock);
    case BlockValue => BlockValueAgrees(e);
    case AmbiguousBlockValue => AmbiguousBlockValueAgrees(e);
    case InvokePartial(name) => PartialAgrees(e, name);
    case _ => PushShape(e, Constant);
  }

  /**
   Opcodes whose text uses a value more than once, or must be run before what follows, leave no text
   pending: the value they use is by then a constant or in a variable.
   */
  lemma NothingStaysInline(e: Emitter, op: Opcode)
    requires op.Append? || op.InvokeAmbiguous? || op.AmbiguousBlockValue? || (op.InvokeHelper? && !op.isRoot)
    requires EmitStep(e, op).Some?
    ensures EmitStep(e, op).value.inline == []
  {
    match op
    case Append => FlushShape(e);
    case InvokeAmbiguous(_, _) => FlushShape(e.Push(Constant).PopTimes(3).rest);
    case InvokeHelper(argc, _, _) => FlushShape(e.CallText(argc, false).value);
    case _ =>
  }

  lemma {:induction false} RunShape(e: Emitter, ops: seq<Opcode>)
    ensures EmitRun(e, ops).Some? <==> StackRun(e.Shape(), ops).Some?
    ensures EmitRun(e, ops).Some? ==> StackRun(e.Shape(), ops) == Some(EmitRun(e, ops).value.Shape())
    decreases ops
  {
    if ops != [] {
      StepShape(e, ops[0]);
      if EmitStep(e, ops[0]).Some? { RunShape(EmitStep(e, ops[0]).value, ops[1..]); }
    }
  }

  // ---------- The compiler in place ----------

  /** `JavaScriptCompiler`; `serial` numbers the assignments it has written or planned. */
  class JavaScriptCompiler {
    var compileStack: seq<Piece>
    var inlineStack: seq<Piece>
    var stackSlot: nat
    var hashes: seq<Piece>
    var serial: nat
    var source: seq<Act>

    function State(): Emitter
      reads this
    {
      Emitter(compileStack, inlineStack, stackSlot, hashes, serial, source)
    }

    constructor ()
      ensures State() == Start
    {
      compileStack, inlineStack, stackSlot, hashes, serial, source := [], [], 0, [], 0, [];
    }

    method Push(p: Piece)
      modifies this`inlineStack
      ensures State() == old(State()).Push(p)
    {
      inlineStack := inlineStack + [p];
    }

    method PushSource(acts: seq<Act>)
      modifies this`source
      ensures State() == old(State()).Emit(acts)
    {
      source := source + acts;
    }

    /** `pushStack` on an empty inline stack. */
    method PushStack(acts: seq<Act>)
      requires inlineStack == []
      modifies this
      ensures State() == old(State()).Store(acts)
    {
      stackSlot := stackSlot + 1;
      PushSource(acts);
      PushSource([Set(stackSlot, serial)]);
      compileStack := compileStack + [Variable(stackSlot, serial)];
      serial := serial + 1;
    }

    method FlushInline()
      modifies this
      ensures State() == old(State()).FlushAll()
    {
      var entries := inlineStack;
      inlineStack := [];
      var i := 0;
      assert entries[0..] == entries;
      while i < |entries|
        invariant 0 <= i <= |entries| && inlineStack == []
        invariant State().(inline := entries[i..]).FlushAll() == old(State()).FlushAll()
      {
        ghost var rest := State().(inline := entries[i..]);
        assert rest.inline[0] == entries[i] && rest.inline[1..] == entries[i + 1..];
        if entries[i].Constant? {
          compileStack := compileStack + [entries[i]];
        } else {
          PushStack(Acts(entries[i]));
        }
        i := i + 1;
      }
      assert entries[i..] == [];
    }

    /** `popStack`, unwrapping literals; false where it throws. */
    method PopStack() returns (ok: bool, acts: seq<Act>)
      modifies this`inlineStack, this`compileStack, this`stackSlot
      ensures ok <==> old(State()).Pop().Popped?
      ensures ok ==> old(State()).Pop() == Popped(State(), acts)
    {
      ok, acts := true, [];
      if inlineStack != [] {
        acts := Acts(inlineStack[|inlineStack| - 1]);
        inlineStack := inlineStack[..|inlineStack| - 1];
        return;
      }
      var literal := compileStack != [] && compileStack[|compileStack| - 1].Constant?;
      if !literal && stackSlot == 0 { return false, []; }
      if compileStack != [] {
        acts := Acts(compileStack[|compileStack| - 1]);
        compileStack := compileStack[..|compileStack| - 1];
      }
      if !literal { stackSlot := stackSlot - 1; }
    }

    method PopTimes(n: nat) returns (ok: bool, acts: seq<Act>)
      modifies this`inlineStack, this`compileStack, this`stackSlot
      ensures ok <==> old(State()).PopTimes(n).Popped?
      ensures ok ==> old(State()).PopTimes(n) == Popped(State(), acts)
      decreases n
    {
      ok, acts := true, [];
      if n > 0 {
        var more;
        ok, acts := PopStack();
        if !ok { return; }
        ok, more := PopTimes(n - 1);
        acts := acts + more;
      }
    }

    /** `setupParams`: the options' text and that of the arguments. */
    method SetupParams(argc: nat, known: bool) returns (ok: bool)
      modifies this`inlineStack, this`compileStack, this`stackSlot
      ensures ok <==> old(State()).CallText(argc, known).Some?
      ensures ok ==> old(State()).CallText(argc, known) == Some(State())
    {
      var options, args;
      ok, options := PopTimes(3);
      if !ok { return; }
      ok, args := PopTimes(argc);
      if ok { Push(Text(if known then args + options else options + args)); }
    }

    /**
     `replaceStack`: an inline text is first assigned to the top variable, or to a new one that is
     given back afterwards; a variable is assigned anew; above a flushed literal there is a new variable.
     */
    method ReplaceStack(more: seq<Act>)
      modifies this
      ensures State() == old(State()).Rewrite(more)
    {
      if inlineStack != [] {
        var top := inlineStack[|inlineStack| - 1];
        inlineStack := inlineStack[..|inlineStack| - 1];
        var prefix := [];
        if !top.Constant? {
          var created := stackSlot == 0;
          if created { stackSlot := stackSlot + 1; }
          prefix := Acts(top) + [Set(stackSlot, serial), Get(stackSlot, serial)];
          serial := serial + 1;
          if created { stackSlot := stackSlot - 1; }
        }
        Push(Text(prefix + more));
        assert [] + more == more;
      } else if compileStack != [] && compileStack[|compileStack| - 1].Variable? {
        ReassignTop(more);
      } else {
        PushStack(more);
      }
    }

    method ReassignTop(more: seq<Act>)
      requires compileStack != [] && compileStack[|compileStack| - 1].Variable?
      modifies this
      ensures State() == old(State()).Reassign(more)
    {
      var top := compileStack[|compileStack| - 1];
      PushSource([Get(top.n, top.t)] + more + [Set(top.n, serial)]);
      compileStack := compileStack[..|compileStack| - 1] + [Variable(top.n, serial)];
      serial := serial + 1;
    }

    method ExecuteHash(op: Opcode) returns (ok: bool)
      requires op.PushHash? || op.AssignToHash? || op.PopHash?
      modifies this
      ensures ok <==> EmitStep(old(State()), op).Some?
      ensures ok ==> EmitStep(old(State()), op) == Some(State())
    {
      ok := true;
      match op {
        case PushHash => hashes := hashes + [Text([])];
        case AssignToHash(_) =>
          if hashes == [] { return false; }
          var acts;
          ok, acts := PopStack();
          if ok { hashes := hashes[..|hashes| - 1] + [Text(Acts(hashes[|hashes| - 1]) + acts)]; }
        case PopHash =>
          if hashes == [] { return false; }
          var last := hashes[|hashes| - 1];
          hashes := hashes[..|hashes| - 1];
          Push(Text(Acts(last)));
      }
    }

    method ExecuteCall(op: Opcode) returns (ok: bool)
      requires op.InvokeKnownHelper? || op.InvokeHelper? || op.InvokePartial? || op.InvokeAmbiguous?
      modifies this
      ensures ok <==> EmitStep(old(State()), op).Some?
      ensures ok ==> EmitStep(old(State()), op) == Some(State())
    {
      match op {
        case InvokeKnownHelper(argc, _) => ok := SetupParams(argc, true);
        case InvokeHelper(argc, _, isRoot) =>
          ok := SetupParams(argc, false);
          if ok && !isRoot { FlushInline(); }
        case InvokePartial(_) =>
          var acts;
          ok, acts := PopStack();
          if ok { Push(Text(acts)); }
        case InvokeAmbiguous(_, _) =>
          var options;
          Push(Constant);
          ok, options := PopTimes(3);
          if ok {
            FlushShape(State());
            FlushInline();
            PushStack(options);
          }
      }
    }

    method ExecuteBlock(op: Opcode) returns (ok: bool)
      requires op.BlockValue? || op.AmbiguousBlockValue?
      modifies this
      ensures ok <==> EmitStep(old(State()), op).Some?
      ensures ok ==> EmitStep(old(State()), op) == Some(State())
    {
      var options;
      ok, options := PopTimes(3);
      if !ok { return; }
      if op.BlockValue? {
        ReplaceStack(options);
      } else if VariableIsTop(State()) {
        ReassignTop(options);
      } else {
        ok := false;
      }
    }

    /** One opcode; false where the source throws or writes an assignment to no variable. */
    method Execute(op: Opcode) returns (ok: bool)
      modifies this
      ensures ok <==> EmitStep(old(State()), op).Some?
      ensures ok ==> EmitStep(old(State()), op) == Some(State())
    {
      ok := true;
      var acts;
      match op {
        case AppendContent(_) =>
        case GetContext(_) =>
        case Append =>
          FlushInline();
          ok, acts := PopStack();
          if ok { PushSource(acts); }
        case AppendEscaped =>
          ok, acts := PopStack();
          if ok { PushSource(acts); }
        case LookupOnContext(_) => Push(Text([]));
        case PushDepth0 => Push(Text([]));
        case PushHash => ok := ExecuteHash(op);
        case AssignToHash(_) => ok := ExecuteHash(op);
        case PopHash => ok := ExecuteHash(op);
        case Lookup(_) => ReplaceStack([]);
        case ResolvePossibleLambda => ReplaceStack([]);
        case InvokeKnownHelper(_, _) => ok := ExecuteCall(op);
        case InvokeHelper(_, _, _) => ok := ExecuteCall(op);
        case InvokePartial(_) => ok := ExecuteCall(op);
        case InvokeAmbiguous(_, _) => ok := ExecuteCall(op);
        case BlockValue => ok := ExecuteBlock(op);
        case AmbiguousBlockValue => ok := ExecuteBlock(op);
        case _ => Push(Constant);
      }
    }

    /** The opcode loop of `compile` with its final check. */
    method Compile(ops: seq<Opcode>) returns (ok: bool)
      requires State() == Start
      modifies this
      ensures ok <==> Passes(ops)
      ensures ok ==> EmitRun(Start, ops) == Some(State())
    {
      var i := 0;
      assert ops[0..] == ops;
      StartShape(ops);
      while i < |ops|
        invariant 0 <= i <= |ops|
        invariant EmitRun(Start, ops) == EmitRun(State(), ops[i..])
      {
        assert ops[i..][1..] == ops[i + 1..];
        ok := Execute(ops[i]);
        if !ok { return; }
        i := i + 1;
      }
      ok := stackSlot == 0 && inlineStack == [] && compileStack == [];
      assert ok <==> Cleared(State().Shape()) by { EmptyShape(State()); }
    }
  }

  lemma StartShape(ops: seq<Opcode>)
    ensures EmitRun(Start, ops).Some? <==> StackRun(Empty, ops).Some?
    ensures EmitRun(Start, ops).Some? ==> StackRun(Empty, ops) == Some(EmitRun(Start, ops).value.Shape())
  {
    EmptyShape(Start);
    RunShape(Start, ops);
  }

  lemma EmptyShape(e: Emitter)
    ensures Cleared(e.Shape()) <==> e.compile == [] && e.inline == [] && e.slot == 0
    ensures e.Shape() == Empty <==> Cleared(e.Shape()) && e.hashes == []
  {
    assert |EntriesOf(e.compile)| == |e.compile| && |EntriesOf(e.inline)| == |e.inline|;
  }
}

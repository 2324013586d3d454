/**
 When the text that the second pass writes reads its variables as meant: exactly when no opcode
 writes text that assigns a variable which it reads later, or which a piece not yet written still
 has to read, for the value it had before.
 */
module HandlebarsReads {
  import opened Options
  import opened HandlebarsAst
  import opened HandlebarsCompiler
  import HandlebarsStack
  import opened HandlebarsEmission

  // ---------- Reading right ----------

  /** The last assignment to `stackN`. */
  function Last(acts: seq<Act>, n: nat): Option<nat> {
    if acts == [] then None
    else
      var last := acts[|acts| - 1];
      if last.Set? && last.n == n then Some(last.t) else Last(acts[..|acts| - 1], n)
  }

  /** Every read sees the value it is meant for. */
  predicate Right(acts: seq<Act>) {
    acts == [] ||
    var front, last := acts[..|acts| - 1], acts[|acts| - 1];
    Right(front) && (last.Get? ==> Last(front, last.n) == Some(last.t))
  }

  /** The text gives the read's variable another value. */
  predicate Disturbs(acts: seq<Act>, read: Act) {
    var l := Last(acts, read.n);
    l.Some? && l.value != read.t
  }

  /** The text disturbs a read of its own. */
  predicate Misreads(acts: seq<Act>) {
    acts != [] &&
    var front, last := acts[..|acts| - 1], acts[|acts| - 1];
    Misreads(front) || (last.Get? && Disturbs(front, last))
  }

  // ---------- The reads of a text and the assignments they are meant for ----------

  function Gets(acts: seq<Act>): set<Act> {
    if acts == [] then {} else Gets(acts[..|acts| - 1]) + if acts[|acts| - 1].Get? then {acts[|acts| - 1]} else {}
  }

  /** For each assignment the read that would be meant for it. */
  function Sets(acts: seq<Act>): set<Act> {
    if acts == [] then {}
    else
      var last := acts[|acts| - 1];
      Sets(acts[..|acts| - 1]) + if last.Set? then {Get(last.n, last.t)} else {}
  }

  /** Reads meant for one of `made` come after their assignment. */
  predicate Fed(acts: seq<Act>, made: set<Act>) {
    acts == [] ||
    var front, last := acts[..|acts| - 1], acts[|acts| - 1];
    Fed(front, made) && (last.Get? && last in made ==> last in Sets(front))
  }

  lemma {:induction false} Concat(a: seq<Act>, b: seq<Act>)
    ensures Gets(a + b) == Gets(a) + Gets(b) && Sets(a + b) == Sets(a) + Sets(b)
    decreases |b|
  {
    if b == [] {
      assert a + b == a;
    } else {
      assert (a + b)[..|a + b| - 1] == a + b[..|b| - 1];
      Concat(a, b[..|b| - 1]);
    }
  }

  lemma {:induction false} LastConcat(a: seq<Act>, b: seq<Act>, n: nat)
    ensures Last(a + b, n) == if Last(b, n).Some? then Last(b, n) else Last(a, n)
    decreases |b|
  {
    if b == [] {
      assert a + b == a;
    } else {
      assert (a + b)[..|a + b| - 1] == a + b[..|b| - 1];
      LastConcat(a, b[..|b| - 1], n);
    }
  }

  lemma {:induction false} LastIsSet(acts: seq<Act>, n: nat)
    ensures Last(acts, n).Some? ==> Get(n, Last(acts, n).value) in Sets(acts)
    ensures Last(acts, n).None? ==> forall g :: g in Sets(acts) ==> g.n != n
    decreases |acts|
  {
    if acts != [] { LastIsSet(acts[..|acts| - 1], n); }
  }

  lemma {:induction false} FedConcat(a: seq<Act>, b: seq<Act>, made: set<Act>)
    requires Fed(a, made) && Fed(b, made)
    ensures Fed(a + b, made)
    decreases |b|
  {
    if b == [] {
      assert a + b == a;
    } else {
      assert (a + b)[..|a + b| - 1] == a + b[..|b| - 1];
      FedConcat(a, b[..|b| - 1], made);
      Concat(a, b[..|b| - 1]);
    }
  }

  /** What counts of `made` is only what the text reads. */
  lemma {:induction false} FedByFewer(acts: seq<Act>, made: set<Act>, fewer: set<Act>)
    requires Fed(acts, made) && fewer * Gets(acts) <= made
    ensures Fed(acts, fewer)
    decreases |acts|
  {
    if acts != [] {
      var front, last := acts[..|acts| - 1], acts[|acts| - 1];
      assert Gets(front) <= Gets(acts);
      FedByFewer(front, made, fewer);
      if last.Get? && last in fewer { assert last in Gets(acts); }
    }
  }

  lemma FedOne(g: Act, made: set<Act>)
    requires g.Get? && g !in made
    ensures Fed([g], made)
  {
    assert [g][..0] == [];
  }

  lemma One(a: Act)
    ensures Gets([a]) == (if a.Get? then {a} else {})
    ensures Sets([a]) == (if a.Set? then {Get(a.n, a.t)} else {})
    ensures a.Set? ==> forall made :: Fed([a], made)
  {
    assert [a][..0] == [];
  }

  // ---------- Writing one more text ----------

  lemma {:induction false} RightPrefix(a: seq<Act>, b: seq<Act>)
    requires Right(a + b)
    ensures Right(a)
    decreases |b|
  {
    if b == [] {
      assert a + b == a;
    } else {
      assert (a + b)[..|a + b| - 1] == a + b[..|b| - 1];
      RightPrefix(a, b[..|b| - 1]);
    }
  }

  /** The read's variable holds the value it is meant for. */
  predicate Holds(out: seq<Act>, g: Act) {
    Last(out, g.n) == Some(g.t)
  }

  /** A text goes right after one that did exactly when it does not disturb its own reads, if the others hold. */
  lemma {:induction false} ChunkRight(out: seq<Act>, chunk: seq<Act>, needs: set<Act>, made: set<Act>)
    requires Right(out) && (forall g :: g in needs ==> Holds(out, g))
    requires Gets(chunk) <= needs + made && Fed(chunk, made)
    ensures Right(out + chunk) <==> !Misreads(chunk)
    decreases |chunk|
  {
    if chunk == [] {
      assert out + chunk == out;
    } else {
      var front, last := chunk[..|chunk| - 1], chunk[|chunk| - 1];
      assert (out + chunk)[..|out + chunk| - 1] == out + front;
      ChunkRight(out, front, needs, made);
      if last.Get? {
        LastConcat(out, front, last.n);
        LastIsSet(front, last.n);
        assert last in Gets(chunk);
      }
    }
  }

  /** A read whose variable holds another value stays wrong until its assignment is made. */
  lemma {:induction false} StaysWrong(out: seq<Act>, chunk: seq<Act>, g: Act)
    requires !Holds(out, g) && g.Get? && g !in Sets(chunk)
    ensures !Holds(out + chunk, g)
    ensures g in Gets(chunk) ==> !Right(out + chunk)
    decreases |chunk|
  {
    if chunk == [] {
      assert out + chunk == out;
    } else {
      var front := chunk[..|chunk| - 1];
      assert (out + chunk)[..|out + chunk| - 1] == out + front;
      StaysWrong(out, front, g);
    }
  }

  // ---------- What is pending ----------

  function PieceGets(ps: seq<Piece>): set<Act> {
    if ps == [] then {} else PieceGets(ps[..|ps| - 1]) + Gets(Acts(ps[|ps| - 1]))
  }

  function PieceSets(ps: seq<Piece>): set<Act> {
    if ps == [] then {} else PieceSets(ps[..|ps| - 1]) + Sets(Acts(ps[|ps| - 1]))
  }

  predicate PiecesFed(ps: seq<Piece>, made: set<Act>) {
    ps == [] || (PiecesFed(ps[..|ps| - 1], made) && Fed(Acts(ps[|ps| - 1]), made))
  }

  /** The reads of all pieces not yet written, `hand` being one that is in the compiler's hands. */
  function PendingGets(e: Emitter, hand: seq<Act>): set<Act> {
    PieceGets(e.compile) + PieceGets(e.inline) + PieceGets(e.hashes) + Gets(hand)
  }

  function PendingSets(e: Emitter, hand: seq<Act>): set<Act> {
    PieceSets(e.compile) + PieceSets(e.inline) + PieceSets(e.hashes) + Sets(hand)
  }

  /** The reads that are meant for assignments already written. */
  function Needs(e: Emitter): set<Act> {
    PendingGets(e, []) - PendingSets(e, [])
  }

  predicate Below(s: set<Act>, next: nat) {
    forall g :: g in s ==> g.Get? && g.t < next
  }

  /** Numbers are not reused, and within each piece reads come after the assignments that are pending too. */
  predicate Orderly(e: Emitter, hand: seq<Act>) {
    var made := PendingSets(e, hand);
    && Below(PendingGets(e, hand), e.next) && Below(made, e.next)
    && PiecesFed(e.compile, made) && PiecesFed(e.inline, made) && PiecesFed(e.hashes, made) && Fed(hand, made)
  }

  function Written(e: Emitter, f: Emitter): seq<Act>
    requires |e.out| <= |f.out|
  {
    f.out[|e.out|..]
  }

  /**
   From `e` to `f` every pending read and assignment has been written or is pending still, and the
   new ones, `added`, are as many reads as assignments.
   */
  ghost predicate Balances(e: Emitter, hand: seq<Act>, f: Emitter, hand': seq<Act>, added: set<Act>) {
    && e.out <= f.out && e.next <= f.next
    && Gets(Written(e, f)) + PendingGets(f, hand') == PendingGets(e, hand) + added
    && Sets(Written(e, f)) + PendingSets(f, hand') == PendingSets(e, hand) + added
    && (forall g :: g in added ==> g.Get? && e.next <= g.t < f.next)
    && Fed(Written(e, f), PendingSets(e, hand) + added)
    && Orderly(f, hand')
  }

  // ---------- Every opcode keeps the balance ----------

  lemma {:induction false} PiecesConcat(a: seq<Piece>, b: seq<Piece>)
    ensures PieceGets(a + b) == PieceGets(a) + PieceGets(b) && PieceSets(a + b) == PieceSets(a) + PieceSets(b)
    ensures forall made :: PiecesFed(a + b, made) <==> PiecesFed(a, made) && PiecesFed(b, made)
    decreases |b|
  {
    if b == [] {
      assert a + b == a;
    } else {
      assert (a + b)[..|a + b| - 1] == a + b[..|b| - 1];
      PiecesConcat(a, b[..|b| - 1]);
    }
  }

  lemma OnePiece(p: Piece)
    ensures PieceGets([p]) == Gets(Acts(p)) && PieceSets([p]) == Sets(Acts(p))
    ensures forall made :: PiecesFed([p], made) <==> Fed(Acts(p), made)
  {
    assert [p][..0] == [];
  }

  lemma {:induction false} PiecesFedByFewer(ps: seq<Piece>, made: set<Act>, fewer: set<Act>)
    requires PiecesFed(ps, made) && fewer * PieceGets(ps) <= made
    ensures PiecesFed(ps, fewer)
    decreases |ps|
  {
    if ps != [] {
      PiecesFedByFewer(ps[..|ps| - 1], made, fewer);
      FedByFewer(Acts(ps[|ps| - 1]), made, fewer);
    }
  }

  /** From `e` to `f` pieces have moved and nothing was written. */
  ghost predicate Moved(e: Emitter, hand: seq<Act>, f: Emitter, hand': seq<Act>) {
    var made := PendingSets(e, hand);
    && f.out == e.out && f.next == e.next
    && PendingGets(f, hand') == PendingGets(e, hand) && PendingSets(f, hand') == made
    && PiecesFed(f.compile, made) && PiecesFed(f.inline, made) && PiecesFed(f.hashes, made) && Fed(hand', made)
  }

  lemma MovedBalances(e: Emitter, hand: seq<Act>, f: Emitter, hand': seq<Act>)
    requires Orderly(e, hand) && Moved(e, hand, f, hand')
    ensures Balances(e, hand, f, hand', {})
  {
    assert Written(e, f) == [];
    assert PendingSets(e, hand) + {} == PendingSets(e, hand);
  }

  lemma MovedOrderly(e: Emitter, hand: seq<Act>, f: Emitter, hand': seq<Act>)
    requires Orderly(e, hand) && Moved(e, hand, f, hand')
    ensures Orderly(f, hand')
  {
  }

  lemma MovedTwice(e: Emitter, hand: seq<Act>, f: Emitter, hand': seq<Act>, g: Emitter, hand'': seq<Act>)
    requires Moved(e, hand, f, hand') && Moved(f, hand', g, hand'')
    ensures Moved(e, hand, g, hand'')
  {
  }

  /** Bookkeeping in two steps. */
  lemma AddUp(x: set<Act>, y: set<Act>, p: set<Act>, q: set<Act>, r: set<Act>, f: set<Act>, g: set<Act>)
    requires x + q == p + f && y + r == q + g
    ensures x + y + r == p + (f + g)
  {
  }

  lemma WrittenTwice(e: Emitter, f: Emitter, g: Emitter)
    requires e.out <= f.out <= g.out
    ensures Written(e, g) == Written(e, f) + Written(f, g)
  {
  }

  /** One balance after another. */
  lemma BalancesTwice(e: Emitter, hand: seq<Act>, f: Emitter, hand': seq<Act>, g: Emitter, hand'': seq<Act>, added: set<Act>, more: set<Act>)
    requires Orderly(e, hand) && Balances(e, hand, f, hand', added) && Balances(f, hand', g, hand'', more)
    ensures Balances(e, hand, g, hand'', added + more)
  {
    var a, b := Written(e, f), Written(f, g);
    WrittenTwice(e, f, g);
    Concat(a, b);
    AddUp(Gets(a), Gets(b), PendingGets(e, hand), PendingGets(f, hand'), PendingGets(g, hand''), added, more);
    AddUp(Sets(a), Sets(b), PendingSets(e, hand), PendingSets(f, hand'), PendingSets(g, hand''), added, more);
    FedTwice(a, b, PendingSets(e, hand), PendingSets(f, hand'), added, more, PendingGets(e, hand), e.next, f.next);
  }

  lemma FedTwice(a: seq<Act>, b: seq<Act>, made: set<Act>, made': set<Act>, added: set<Act>, more: set<Act>, gets: set<Act>, next: nat, next': nat)
    requires Fed(a, made + added) && Fed(b, made' + more)
    requires Sets(a) + made' == made + added && Gets(a) <= gets + added
    requires Below(gets, next) && next <= next' && (forall g :: g in added ==> g.t < next') && forall g :: g in more ==> next' <= g.t
    ensures Fed(a + b, made + (added + more))
  {
    FedByFewer(a, made + added, made + (added + more));
    FedAfter(a, b, made' + more, made + (added + more));
  }

  /** Reads of the second text may be meant for assignments of the first. */
  lemma {:induction false} FedAfter(a: seq<Act>, b: seq<Act>, later: set<Act>, made: set<Act>)
    requires Fed(a, made) && Fed(b, later) && made <= Sets(a) + later
    ensures Fed(a + b, made)
    decreases |b|
  {
    if b == [] {
      assert a + b == a;
    } else {
      assert (a + b)[..|a + b| - 1] == a + b[..|b| - 1];
      FedAfter(a, b[..|b| - 1], later, made);
      Concat(a, b[..|b| - 1]);
    }
  }

  lemma Shuffle(a: set<Act>, b: set<Act>, c: set<Act>, h: set<Act>, x: set<Act>)
    ensures a + (b + x) + c + h == a + b + c + (h + x) == (a + x) + b + c + h
  {
  }

  lemma LastPiece(ps: seq<Piece>)
    requires ps != []
    ensures
      var front, acts := ps[..|ps| - 1], Acts(ps[|ps| - 1]);
      && PieceGets(ps) == PieceGets(front) + Gets(acts) && PieceSets(ps) == PieceSets(front) + Sets(acts)
      && forall made :: PiecesFed(ps, made) ==> PiecesFed(front, made) && Fed(acts, made)
  {
  }

  lemma PopInlineMoves(e: Emitter, hand: seq<Act>)
    requires Orderly(e, hand) && e.inline != []
    ensures
      var front, acts := e.inline[..|e.inline| - 1], Acts(e.inline[|e.inline| - 1]);
      Moved(e, hand, e.(inline := front), hand + acts) && Fed(acts, PendingSets(e, hand))
  {
    var front, acts := e.inline[..|e.inline| - 1], Acts(e.inline[|e.inline| - 1]);
    LastPiece(e.inline);
    Concat(hand, acts);
    FedConcat(hand, acts, PendingSets(e, hand));
    Shuffle(PieceGets(e.compile), PieceGets(front), PieceGets(e.hashes), Gets(hand), Gets(acts));
    Shuffle(PieceSets(e.compile), PieceSets(front), PieceSets(e.hashes), Sets(hand), Sets(acts));
  }

  lemma PopCompileMoves(e: Emitter, hand: seq<Act>, f: Emitter)
    requires Orderly(e, hand) && e.compile != []
    requires f.compile == e.compile[..|e.compile| - 1] && f.inline == e.inline && f.hashes == e.hashes
    requires f.next == e.next && f.out == e.out
    ensures
      var acts := Acts(e.compile[|e.compile| - 1]);
      Moved(e, hand, f, hand + acts) && Fed(acts, PendingSets(e, hand))
  {
    var acts := Acts(e.compile[|e.compile| - 1]);
    LastPiece(e.compile);
    Concat(hand, acts);
    FedConcat(hand, acts, PendingSets(e, hand));
    Shuffle(PieceGets(f.compile), PieceGets(e.inline), PieceGets(e.hashes), Gets(hand), Gets(acts));
    Shuffle(PieceSets(f.compile), PieceSets(e.inline), PieceSets(e.hashes), Sets(hand), Sets(acts));
  }

  lemma PopMoves(e: Emitter, hand: seq<Act>)
    requires Orderly(e, hand) && e.Pop().Popped?
    ensures Moved(e, hand, e.Pop().rest, hand + e.Pop().acts) && Fed(e.Pop().acts, PendingSets(e, hand))
  {
    if e.inline != [] {
      PopInlineMoves(e, hand);
    } else if e.compile != [] {
      PopCompileMoves(e, hand, e.Pop().rest);
    } else {
      assert hand + [] == hand;
    }
  }

  lemma PopMore(e: Emitter, hand: seq<Act>, f: Emitter, a: seq<Act>, g: Emitter, b: seq<Act>)
    requires Moved(e, hand, f, hand + a) && Fed(a, PendingSets(e, hand))
    requires Moved(f, hand + a, g, hand + a + b) && Fed(b, PendingSets(f, hand + a))
    ensures Moved(e, hand, g, hand + (a + b)) && Fed(a + b, PendingSets(e, hand))
  {
    Associate(hand, a, b);
    MovedTwice(e, hand, f, hand + a, g, hand + (a + b));
    assert Fed(a + b, PendingSets(e, hand)) by { FedConcat(a, b, PendingSets(e, hand)); }
  }

  lemma Associate(a: seq<Act>, b: seq<Act>, c: seq<Act>)
    ensures a + b + c == a + (b + c)
  {
  }

  lemma {:induction false} PopTimesMove(e: Emitter, hand: seq<Act>, n: nat)
    requires Orderly(e, hand) && e.PopTimes(n).Popped?
    ensures Moved(e, hand, e.PopTimes(n).rest, hand + e.PopTimes(n).acts) && Fed(e.PopTimes(n).acts, PendingSets(e, hand))
    decreases n
  {
    if n == 0 {
      NoneMoved(e, hand);
    } else {
      var p := e.Pop();
      assert p.Popped?;
      PopMoves(e, hand);
      MovedOrderly(e, hand, p.rest, hand + p.acts);
      var q := p.rest.PopTimes(n - 1);
      assert q.Popped? && e.PopTimes(n) == Popped(q.rest, p.acts + q.acts);
      PopTimesMove(p.rest, hand + p.acts, n - 1);
      PopMore(e, hand, p.rest, p.acts, q.rest, q.acts);
    }
  }

  lemma NoneMoved(e: Emitter, hand: seq<Act>)
    requires Orderly(e, hand)
    ensures Moved(e, hand, e, hand + []) && Fed([], PendingSets(e, hand))
  {
    assert hand + [] == hand;
  }

  lemma PushMoves(e: Emitter, p: Piece)
    requires Orderly(e, Acts(p))
    ensures Moved(e, Acts(p), e.Push(p), [])
  {
    PiecesConcat(e.inline, [p]);
    OnePiece(p);
  }

  lemma EmitBalances(e: Emitter, hand: seq<Act>)
    requires Orderly(e, hand)
    ensures Balances(e, hand, e.Emit(hand), [], {})
  {
    var f := e.Emit(hand);
    assert Written(e, f) == hand;
    StillOrderly(e, hand);
    assert PendingSets(e, hand) + {} == PendingSets(e, hand);
  }

  /** What remains in order when the piece in hand is gone. */
  lemma StillOrderly(e: Emitter, hand: seq<Act>)
    requires Orderly(e, hand)
    ensures Orderly(e, [])
  {
    var made, fewer := PendingSets(e, hand), PendingSets(e, []);
    PiecesFedByFewer(e.compile, made, fewer);
    PiecesFedByFewer(e.inline, made, fewer);
    PiecesFedByFewer(e.hashes, made, fewer);
  }

  /** A variable that has just been assigned is put on the stack. */
  lemma VariableOrderly(e: Emitter, g: Act)
    requires Orderly(e, []) && g.Get? && e.next <= g.t
    ensures
      var f := e.(compile := e.compile + [Variable(g.n, g.t)], next := g.t + 1);
      && PendingGets(f, []) == PendingGets(e, []) + {g} && PendingSets(f, []) == PendingSets(e, [])
      && Orderly(f, [])
  {
    PiecesConcat(e.compile, [Variable(g.n, g.t)]);
    OnePiece(Variable(g.n, g.t));
    One(g);
    FedOne(g, PendingSets(e, []));
  }

  lemma ClosesWithSet(hand: seq<Act>, made: set<Act>, next: nat, a: Act)
    requires Fed(hand, made) && Below(Gets(hand), next) && a.Set? && next <= a.t
    ensures Gets(hand + [a]) == Gets(hand) && Sets(hand + [a]) == Sets(hand) + {Get(a.n, a.t)}
    ensures Fed(hand + [a], made + {Get(a.n, a.t)})
  {
    var g := Get(a.n, a.t);
    Concat(hand, [a]);
    One(a);
    FedByFewer(hand, made, made + {g});
    FedConcat(hand, [a], made + {g});
  }

  /** A variable is assigned the text in hand and put on the stack. */
  lemma AssignBalances(e: Emitter, hand: seq<Act>, n: nat, f: Emitter)
    requires Orderly(e, hand)
    requires f.compile == e.compile + [Variable(n, e.next)] && f.inline == e.inline && f.hashes == e.hashes
    requires f.next == e.next + 1 && f.out == e.out + (hand + [Set(n, e.next)])
    ensures Balances(e, hand, f, [], {Get(n, e.next)})
  {
    var g := Get(n, e.next);
    StillOrderly(e, hand);
    VariableOrderly(e, g);
    ClosesWithSet(hand, PendingSets(e, hand), e.next, Set(g.n, g.t));
    assert Written(e, f) == hand + [Set(g.n, g.t)];
    assert Orderly(f, []);
  }

  lemma StoreBalances(e: Emitter, hand: seq<Act>)
    requires Orderly(e, hand)
    ensures Balances(e, hand, e.Store(hand), [], {Get(e.slot + 1, e.next)})
  {
    assert e.out + hand + [Set(e.slot + 1, e.next)] == e.out + (hand + [Set(e.slot + 1, e.next)]);
    AssignBalances(e, hand, e.slot + 1, e.Store(hand));
  }

  lemma {:induction false} FlushBalances(e: Emitter) returns (added: set<Act>)
    requires Orderly(e, [])
    ensures Balances(e, [], e.FlushAll(), [], added)
    decreases |e.inline|
  {
    if e.inline == [] {
      added := {};
      MovedBalances(e, [], e, []);
    } else {
      var p, f := e.inline[0], e.(inline := e.inline[1..]);
      FirstMoves(e);
      MovedBalances(e, [], f, Acts(p));
      var g := if p.Constant? then f.(compile := e.compile + [Constant]) else f.Store(Acts(p));
      var one := {};
      if p.Constant? {
        ConstantMoves(f);
        MovedBalances(f, [], g, []);
      } else {
        StoreBalances(f, Acts(p));
        one := {Get(f.slot + 1, f.next)};
      }
      var more := FlushBalances(g);
      BalancesTwice(e, [], f, Acts(p), g, [], {}, one);
      BalancesTwice(e, [], g, [], g.FlushAll(), [], {} + one, more);
      added := {} + one + more;
    }
  }

  lemma FirstMoves(e: Emitter)
    requires Orderly(e, []) && e.inline != []
    ensures Moved(e, [], e.(inline := e.inline[1..]), Acts(e.inline[0]))
  {
    assert e.inline == [e.inline[0]] + e.inline[1..];
    PiecesConcat([e.inline[0]], e.inline[1..]);
    OnePiece(e.inline[0]);
  }

  lemma ConstantMoves(e: Emitter)
    requires Orderly(e, [])
    ensures Moved(e, [], e.(compile := e.compile + [Constant]), [])
  {
    PiecesConcat(e.compile, [Constant]);
    OnePiece(Constant);
  }

  /** The parts of the text in hand may change places. */
  lemma SwapMoves(e: Emitter, hand: seq<Act>, f: Emitter, a: seq<Act>, b: seq<Act>)
    requires Moved(e, hand, f, a + b) && Fed(a, PendingSets(e, hand)) && Fed(b, PendingSets(e, hand))
    ensures Moved(e, hand, f, b + a)
  {
    Concat(a, b);
    Concat(b, a);
    FedConcat(b, a, PendingSets(e, hand));
  }

  lemma NothingInHand(hand: seq<Act>)
    ensures [] + hand == hand == hand + []
  {
  }

  lemma CallBalances(e: Emitter, argc: nat, known: bool)
    requires Orderly(e, []) && e.CallText(argc, known).Some?
    ensures Balances(e, [], e.CallText(argc, known).value, [], {})
  {
    var p := e.PopTimes(3);
    PopTimesMove(e, [], 3);
    NothingInHand(p.acts);
    MovedOrderly(e, [], p.rest, p.acts);
    var q := p.rest.PopTimes(argc);
    PopTimesMove(p.rest, p.acts, argc);
    MovedTwice(e, [], p.rest, p.acts, q.rest, p.acts + q.acts);
    if known { SwapMoves(e, [], q.rest, p.acts, q.acts); }
    TextBalances(e, q.rest, if known then q.acts + p.acts else p.acts + q.acts);
  }

  lemma TextBalances(e: Emitter, f: Emitter, acts: seq<Act>)
    requires Orderly(e, []) && Moved(e, [], f, acts)
    ensures Balances(e, [], f.Push(Text(acts)), [], {})
  {
    MovedOrderly(e, [], f, acts);
    PushMoves(f, Text(acts));
    MovedTwice(e, [], f, acts, f.Push(Text(acts)), []);
    MovedBalances(e, [], f.Push(Text(acts)), []);
  }

  // ----- Rewriting the top -----

  lemma RewriteConstantBalances(e: Emitter, more: seq<Act>)
    requires Orderly(e, more) && e.inline != [] && e.inline[|e.inline| - 1].Constant?
    ensures Balances(e, more, e.Rewrite(more), [], {})
  {
    var f := e.(inline := e.inline[..|e.inline| - 1]);
    PopInlineMoves(e, more);
    NothingInHand(more);
    MovedOrderly(e, more, f, more);
    PushMoves(f, Text(more));
    MovedTwice(e, more, f, more, f.Push(Text(more)), []);
    MovedBalances(e, more, f.Push(Text(more)), []);
  }

  /** A text that is assigned to a variable, read from it at once, and followed by more. */
  lemma BorrowingText(acts: seq<Act>, n: nat, t: nat, more: seq<Act>, made: set<Act>)
    requires Fed(acts, made) && Fed(more, made) && Below(Gets(acts), t) && Below(Gets(more), t)
    ensures
      var text := acts + [Set(n, t), Get(n, t)] + more;
      && Gets(text) == Gets(acts) + Gets(more) + {Get(n, t)} && Sets(text) == Sets(acts) + Sets(more) + {Get(n, t)}
      && Fed(text, made + {Get(n, t)})
  {
    var g, pair := Get(n, t), [Set(n, t), Get(n, t)];
    assert pair == [Set(n, t)] + [g];
    One(Set(n, t));
    One(g);
    Concat([Set(n, t)], [g]);
    Concat(acts, pair);
    Concat(acts + pair, more);
    assert Fed(pair, made + {g}) by { assert pair[..1] == [Set(n, t)]; }
    FedByFewer(acts, made, made + {g});
    FedByFewer(more, made, made + {g});
    FedConcat(acts, pair, made + {g});
    FedConcat(acts + pair, more, made + {g});
  }

  /** A pending piece gains a read and its assignment. */
  lemma GrownOrderly(e: Emitter, hand: seq<Act>, text: seq<Act>, g: Act)
    requires Orderly(e, hand) && g.Get? && e.next <= g.t
    requires Gets(text) == Gets(hand) + {g} && Sets(text) == Sets(hand) + {g} && Fed(text, PendingSets(e, hand) + {g})
    ensures
      var f := e.(next := g.t + 1);
      && PendingGets(f, text) == PendingGets(e, hand) + {g} && PendingSets(f, text) == PendingSets(e, hand) + {g}
      && Orderly(f, text)
  {
    var made := PendingSets(e, hand);
    PiecesFedByFewer(e.compile, made, made + {g});
    PiecesFedByFewer(e.inline, made, made + {g});
    PiecesFedByFewer(e.hashes, made, made + {g});
    assert PendingSets(e.(next := g.t + 1), text) == made + {g};
  }

  /** The text on top and what follows it, taken into hand and joined by way of a variable. */
  lemma BorrowOrderly(e: Emitter, more: seq<Act>, n: nat, f: Emitter, text: seq<Act>)
    requires Orderly(e, more) && e.inline != [] && f == e.(inline := e.inline[..|e.inline| - 1], next := e.next + 1)
    requires text == Acts(e.inline[|e.inline| - 1]) + [Set(n, e.next), Get(n, e.next)] + more
    ensures
      var g := Get(n, e.next);
      && PendingGets(f, text) == PendingGets(e, more) + {g} && PendingSets(f, text) == PendingSets(e, more) + {g}
      && Orderly(f, text)
  {
    var acts := Acts(e.inline[|e.inline| - 1]);
    var e1 := e.(inline := e.inline[..|e.inline| - 1]);
    PopInlineMoves(e, more);
    MovedOrderly(e, more, e1, more + acts);
    assert Gets(more + acts) == Gets(acts) + Gets(more) && Sets(more + acts) == Sets(acts) + Sets(more) by { Concat(more, acts); }
    BorrowingText(acts, n, e.next, more, PendingSets(e, more));
    GrownOrderly(e1, more + acts, text, Get(n, e.next));
  }

  lemma BorrowBalances(e: Emitter, more: seq<Act>)
    requires Orderly(e, more) && e.inline != [] && !e.inline[|e.inline| - 1].Constant?
    ensures Balances(e, more, e.Rewrite(more), [], {Get(e.Borrowed(), e.next)})
  {
    var f := e.(inline := e.inline[..|e.inline| - 1], next := e.next + 1);
    var text := Acts(e.inline[|e.inline| - 1]) + [Set(e.Borrowed(), e.next), Get(e.Borrowed(), e.next)] + more;
    BorrowOrderly(e, more, e.Borrowed(), f, text);
    PushMoves(f, Text(text));
    MovedOrderly(f, text, f.Push(Text(text)), []);
    NothingWritten(e, more, f.Push(Text(text)), {Get(e.Borrowed(), e.next)});
  }

  lemma NothingWritten(e: Emitter, hand: seq<Act>, f: Emitter, added: set<Act>)
    requires f.out == e.out && e.next <= f.next && Orderly(f, [])
    requires PendingGets(f, []) == PendingGets(e, hand) + added && PendingSets(f, []) == PendingSets(e, hand) + added
    requires forall g :: g in added ==> g.Get? && e.next <= g.t < f.next
    ensures Balances(e, hand, f, [], added)
  {
    assert Written(e, f) == [];
  }

  lemma ReassignBalances(e: Emitter, more: seq<Act>)
    requires Orderly(e, more) && e.compile != [] && e.compile[|e.compile| - 1].Variable?
    ensures Balances(e, more, e.Reassign(more), [], {Get(e.compile[|e.compile| - 1].n, e.next)})
  {
    var top := e.compile[|e.compile| - 1];
    var f, read := e.(compile := e.compile[..|e.compile| - 1]), [Get(top.n, top.t)];
    PopCompileMoves(e, more, f);
    SwapMoves(e, more, f, more, read);
    MovedOrderly(e, more, f, read + more);
    AssignBalances(f, read + more, top.n, e.Reassign(more));
    MovedBalances(e, more, f, read + more);
    BalancesTwice(e, more, f, read + more, e.Reassign(more), [], {}, {Get(top.n, e.next)});
    assert {} + {Get(top.n, e.next)} == {Get(top.n, e.next)};
  }

  lemma RewriteBalances(e: Emitter, more: seq<Act>) returns (added: set<Act>)
    requires Orderly(e, more)
    ensures Balances(e, more, e.Rewrite(more), [], added)
  {
    if e.inline != [] {
      if e.inline[|e.inline| - 1].Constant? {
        RewriteConstantBalances(e, more);
        added := {};
      } else {
        BorrowBalances(e, more);
        added := {Get(e.Borrowed(), e.next)};
      }
    } else if e.compile != [] && e.compile[|e.compile| - 1].Variable? {
      ReassignBalances(e, more);
      added := {Get(e.compile[|e.compile| - 1].n, e.next)};
    } else {
      StoreBalances(e, more);
      added := {Get(e.slot + 1, e.next)};
    }
  }

  // ----- The opcodes -----

  lemma PushOneBalances(e: Emitter, p: Piece)
    requires Orderly(e, []) && Acts(p) == []
    ensures Balances(e, [], e.Push(p), [], {})
  {
    PushMoves(e, p);
    MovedBalances(e, [], e.Push(p), []);
  }

  lemma AppendBalances(e: Emitter) returns (added: set<Act>)
    requires Orderly(e, []) && e.FlushAll().Pop().Popped?
    ensures Balances(e, [], e.FlushAll().Pop().rest.Emit(e.FlushAll().Pop().acts), [], added)
  {
    var more := FlushBalances(e);
    WriteBalances(e.FlushAll());
    var p := e.FlushAll().Pop();
    BalancesTwice(e, [], e.FlushAll(), [], p.rest.Emit(p.acts), [], more, {});
    added := more + {};
  }

  /** The top is popped and written. */
  lemma WriteBalances(e: Emitter)
    requires Orderly(e, []) && e.Pop().Popped?
    ensures Balances(e, [], e.Pop().rest.Emit(e.Pop().acts), [], {})
  {
    var p := e.Pop();
    PopMoves(e, []);
    NothingInHand(p.acts);
    MovedOrderly(e, [], p.rest, p.acts);
    MovedBalances(e, [], p.rest, p.acts);
    EmitBalances(p.rest, p.acts);
    var none: set<Act> := {};
    BalancesTwice(e, [], p.rest, p.acts, p.rest.Emit(p.acts), [], none, none);
    assert none + none == none;
  }

  lemma HashMoves(e: Emitter, hashes: seq<Piece>, hand: seq<Act>)
    requires Orderly(e, hand)
    requires PieceGets(hashes) == PieceGets(e.hashes) + Gets(hand) && PieceSets(hashes) == PieceSets(e.hashes) + Sets(hand)
    requires PiecesFed(hashes, PendingSets(e, hand))
    ensures Moved(e, hand, e.(hashes := hashes), [])
  {
    var f := e.(hashes := hashes);
    Regroup(PieceGets(e.compile), PieceGets(e.inline), PieceGets(e.hashes), Gets(hand));
    Regroup(PieceSets(e.compile), PieceSets(e.inline), PieceSets(e.hashes), Sets(hand));
  }

  lemma Regroup(a: set<Act>, b: set<Act>, c: set<Act>, h: set<Act>)
    ensures a + b + (c + h) + {} == a + b + c + h
  {
  }

  lemma PushHashBalances(e: Emitter)
    requires Orderly(e, [])
    ensures Balances(e, [], e.(hashes := e.hashes + [Text([])]), [], {})
  {
    PiecesConcat(e.hashes, [Text([])]);
    OnePiece(Text([]));
    HashMoves(e, e.hashes + [Text([])], []);
    MovedBalances(e, [], e.(hashes := e.hashes + [Text([])]), []);
  }

  /** The text in hand is added to the last hash literal. */
  lemma AddToHash(e: Emitter, hand: seq<Act>, hashes: seq<Piece>)
    requires Orderly(e, hand) && e.hashes != []
    requires hashes == e.hashes[..|e.hashes| - 1] + [Text(Acts(e.hashes[|e.hashes| - 1]) + hand)]
    ensures Moved(e, hand, e.(hashes := hashes), [])
  {
    var front, acts := e.hashes[..|e.hashes| - 1], Acts(e.hashes[|e.hashes| - 1]);
    LastPiece(e.hashes);
    Concat(acts, hand);
    FedConcat(acts, hand, PendingSets(e, hand));
    PiecesConcat(front, [Text(acts + hand)]);
    OnePiece(Text(acts + hand));
    assert PieceGets(front) + (Gets(acts) + Gets(hand)) == PieceGets(front) + Gets(acts) + Gets(hand);
    assert PieceSets(front) + (Sets(acts) + Sets(hand)) == PieceSets(front) + Sets(acts) + Sets(hand);
    HashMoves(e, hashes, hand);
  }

  lemma AssignBalancesHash(e: Emitter, hashes: seq<Piece>)
    requires Orderly(e, []) && e.hashes != [] && e.Pop().Popped?
    requires hashes == e.hashes[..|e.hashes| - 1] + [Text(Acts(e.hashes[|e.hashes| - 1]) + e.Pop().acts)]
    ensures Balances(e, [], e.Pop().rest.(hashes := hashes), [], {})
  {
    var p := e.Pop();
    PopMoves(e, []);
    NothingInHand(p.acts);
    MovedOrderly(e, [], p.rest, p.acts);
    AddToHash(p.rest, p.acts, hashes);
    MovedTwice(e, [], p.rest, p.acts, p.rest.(hashes := hashes), []);
    MovedBalances(e, [], p.rest.(hashes := hashes), []);
  }

  lemma PopHashBalances(e: Emitter)
    requires Orderly(e, []) && e.hashes != []
    ensures Balances(e, [], e.(hashes := e.hashes[..|e.hashes| - 1]).Push(Text(Acts(e.hashes[|e.hashes| - 1]))), [], {})
  {
    var front, acts := e.hashes[..|e.hashes| - 1], Acts(e.hashes[|e.hashes| - 1]);
    LastPiece(e.hashes);
    Regroup(PieceGets(e.compile), PieceGets(e.inline), PieceGets(front), Gets(acts));
    Regroup(PieceSets(e.compile), PieceSets(e.inline), PieceSets(front), Sets(acts));
    assert Moved(e, [], e.(hashes := front), acts);
    TextBalances(e, e.(hashes := front), acts);
  }

  lemma {:induction false} FlushSparesHashes(e: Emitter, hashes: seq<Piece>)
    ensures e.(hashes := hashes).FlushAll() == e.FlushAll().(hashes := hashes)
    decreases |e.inline|
  {
    if e.inline != [] {
      var f := e.(inline := e.inline[1..]);
      var g := if e.inline[0].Constant? then f.(compile := e.compile + [Constant]) else f.Store(Acts(e.inline[0]));
      FlushSparesHashes(g, hashes);
    }
  }

  /** A flush while a text is in hand. */
  lemma FlushInHand(e: Emitter, hand: seq<Act>) returns (added: set<Act>)
    requires Orderly(e, hand)
    ensures Balances(e, hand, e.FlushAll(), hand, added)
  {
    var parked := e.(hashes := e.hashes + [Text(hand)]);
    PiecesConcat(e.hashes, [Text(hand)]);
    OnePiece(Text(hand));
    HashMoves(e, parked.hashes, hand);
    MovedOrderly(e, hand, parked, []);
    MovedBalances(e, hand, parked, []);
    added := FlushBalances(parked);
    FlushSparesHashes(e, parked.hashes);
    FlushKeepsHashes(e);
    Unpark(parked.FlushAll(), e.FlushAll(), hand);
    BalancesTwice(e, hand, parked, [], parked.FlushAll(), [], {}, added);
    BalancesTwice(e, hand, parked.FlushAll(), [], e.FlushAll(), hand, {} + added, {});
    assert {} + added + {} == added;
  }

  lemma {:induction false} FlushKeepsHashes(e: Emitter)
    ensures e.FlushAll().hashes == e.hashes
    decreases |e.inline|
  {
    if e.inline != [] {
      var f := e.(inline := e.inline[1..]);
      FlushKeepsHashes(if e.inline[0].Constant? then f.(compile := e.compile + [Constant]) else f.Store(Acts(e.inline[0])));
    }
  }

  lemma Unpark(parked: Emitter, e: Emitter, hand: seq<Act>)
    requires Orderly(parked, []) && parked == e.(hashes := e.hashes + [Text(hand)])
    ensures Balances(parked, [], e, hand, {})
  {
    assert parked.hashes[..|parked.hashes| - 1] == e.hashes;
    LastPiece(parked.hashes);
    Regroup(PieceGets(e.compile), PieceGets(e.inline), PieceGets(e.hashes), Gets(hand));
    Regroup(PieceSets(e.compile), PieceSets(e.inline), PieceSets(e.hashes), Sets(hand));
    MovedBalances(parked, [], e, hand);
  }

  lemma AmbiguousBalances(e: Emitter, p: Popped, f: Emitter) returns (added: set<Act>)
    requires Orderly(e, []) && p == e.Push(Constant).PopTimes(3) && p.Popped? && f == p.rest.FlushAll().Store(p.acts)
    ensures Balances(e, [], f, [], added)
  {
    var pushed := e.Push(Constant);
    PushMoves(e, Constant);
    MovedOrderly(e, [], pushed, []);
    PopTimesMove(pushed, [], 3);
    NothingInHand(p.acts);
    MovedTwice(e, [], pushed, [], p.rest, p.acts);
    MovedOrderly(e, [], p.rest, p.acts);
    MovedBalances(e, [], p.rest, p.acts);
    var flushed := FlushInHand(p.rest, p.acts);
    var g := p.rest.FlushAll();
    StoreBalances(g, p.acts);
    BalancesTwice(e, [], p.rest, p.acts, g, p.acts, {}, flushed);
    BalancesTwice(e, [], g, p.acts, f, [], {} + flushed, {Get(g.slot + 1, g.next)});
    added := {} + flushed + {Get(g.slot + 1, g.next)};
  }

  lemma BlockValueBalances(e: Emitter, p: Popped, f: Emitter) returns (added: set<Act>)
    requires Orderly(e, []) && p == e.PopTimes(3) && p.Popped? && f == p.rest.Rewrite(p.acts)
    ensures Balances(e, [], f, [], added)
  {
    PopTimesMove(e, [], 3);
    NothingInHand(p.acts);
    MovedOrderly(e, [], p.rest, p.acts);
    MovedBalances(e, [], p.rest, p.acts);
    var more := RewriteBalances(p.rest, p.acts);
    BalancesTwice(e, [], p.rest, p.acts, f, [], {}, more);
    added := {} + more;
  }

  lemma AmbiguousBlockValueBalances(e: Emitter, p: Popped, f: Emitter) returns (added: set<Act>)
    requires Orderly(e, []) && p == e.PopTimes(3) && p.Popped? && VariableIsTop(p.rest) && f == p.rest.Reassign(p.acts)
    ensures Balances(e, [], f, [], added)
  {
    PopTimesMove(e, [], 3);
    NothingInHand(p.acts);
    MovedOrderly(e, [], p.rest, p.acts);
    MovedBalances(e, [], p.rest, p.acts);
    ReassignBalances(p.rest, p.acts);
    var more := {Get(p.rest.compile[|p.rest.compile| - 1].n, p.rest.next)};
    BalancesTwice(e, [], p.rest, p.acts, f, [], {}, more);
    added := {} + more;
  }

  lemma HelperBalances(e: Emitter, argc: nat, isRoot: bool) returns (added: set<Act>)
    requires Orderly(e, []) && e.CallText(argc, false).Some?
    ensures
      var f := e.CallText(argc, false).value;
      Balances(e, [], if isRoot then f else f.FlushAll(), [], added)
  {
    var f := e.CallText(argc, false).value;
    CallBalances(e, argc, false);
    added := {};
    if !isRoot {
      var more := FlushBalances(f);
      BalancesTwice(e, [], f, [], f.FlushAll(), [], {}, more);
      added := {} + more;
    }
  }

  lemma PartialBalances(e: Emitter)
    requires Orderly(e, []) && e.Pop().Popped?
    ensures Balances(e, [], e.Pop().rest.Push(Text(e.Pop().acts)), [], {})
  {
    PopMoves(e, []);
    NothingInHand(e.Pop().acts);
    TextBalances(e, e.Pop().rest, e.Pop().acts);
  }

  ghost predicate StepBalanced(e: Emitter, op: Opcode, added: set<Act>) {
    EmitStep(e, op).Some? ==> Balances(e, [], EmitStep(e, op).value, [], added)
  }

  lemma PushesBalance(e: Emitter, op: Opcode)
    requires Orderly(e, [])
    requires op.PushContext? || op.LookupData? || op.PushString? || op.PushLiteral? || op.PushProgram? || op.EmptyHash?
      || op.LookupOnContext? || op.PushDepth0?
    ensures StepBalanced(e, op, {})
  {
    PushOneBalances(e, if op.LookupOnContext? || op.PushDepth0? then Text([]) else Constant);
  }

  lemma PushHashStep(e: Emitter)
    requires Orderly(e, [])
    ensures StepBalanced(e, PushHash, {})
  {
    PushHashBalances(e);
  }

  lemma AssignToHashStep(e: Emitter, key: string)
    requires Orderly(e, [])
    ensures StepBalanced(e, AssignToHash(key), {})
  {
    if e.hashes != [] && e.Pop().Popped? {
      AssignBalancesHash(e, e.hashes[..|e.hashes| - 1] + [Text(Acts(e.hashes[|e.hashes| - 1]) + e.Pop().acts)]);
    }
  }

  lemma PopHashStep(e: Emitter)
    requires Orderly(e, [])
    ensures StepBalanced(e, PopHash, {})
  {
    if e.hashes != [] { PopHashBalances(e); }
  }

  lemma KnownHelperStep(e: Emitter, argc: nat, name: string)
    requires Orderly(e, [])
    ensures StepBalanced(e, InvokeKnownHelper(argc, name), {})
  {
    if e.CallText(argc, true).Some? { CallBalances(e, argc, true); }
  }

  lemma HelperStep(e: Emitter, argc: nat, name: string, isRoot: bool) returns (added: set<Act>)
    requires Orderly(e, [])
    ensures StepBalanced(e, InvokeHelper(argc, name, isRoot), added)
  {
    added := {};
    if e.CallText(argc, false).Some? { added := HelperBalances(e, argc, isRoot); }
  }

  lemma PartialStep(e: Emitter, name: string)
    requires Orderly(e, [])
    ensures StepBalanced(e, InvokePartial(name), {})
  {
    if e.Pop().Popped? { PartialBalances(e); }
  }

  lemma AmbiguousStep(e: Emitter, name: string, isBlock: bool) returns (added: set<Act>)
    requires Orderly(e, [])
    ensures StepBalanced(e, InvokeAmbiguous(name, isBlock), added)
  {
    var s := EmitStep(e, InvokeAmbiguous(name, isBlock));
    if s.Some? { added := AmbiguousBalances(e, e.Push(Constant).PopTimes(3), s.value); } else { added := {}; }
  }

  lemma BlockValueStep(e: Emitter) returns (added: set<Act>)
    requires Orderly(e, [])
    ensures StepBalanced(e, BlockValue, added)
  {
    var s := EmitStep(e, BlockValue);
    if s.Some? { added := BlockValueBalances(e, e.PopTimes(3), s.value); } else { added := {}; }
  }

  lemma AmbiguousBlockValueStep(e: Emitter) returns (added: set<Act>)
    requires Orderly(e, [])
    ensures StepBalanced(e, AmbiguousBlockValue, added)
  {
    var s := EmitStep(e, AmbiguousBlockValue);
    if s.Some? { added := AmbiguousBlockValueBalances(e, e.PopTimes(3), s.value); } else { added := {}; }
  }

  lemma StepBalances(e: Emitter, op: Opcode) returns (added: set<Act>)
    requires Orderly(e, [])
    ensures StepBalanced(e, op, added)
  {
    added := {};
    match op
    case AppendContent(_) => MovedBalances(e, [], e, []);
    case GetContext(_) => MovedBalances(e, [], e, []);
    case Append => if e.FlushAll().Pop().Popped? { added := AppendBalances(e); }
    case AppendEscaped => if e.Pop().Popped? { WriteBalances(e); }
    case PushHash => PushHashStep(e);
    case AssignToHash(key) => AssignToHashStep(e, key);
    case PopHash => PopHashStep(e);
    case Lookup(_) => added := RewriteBalances(e, []);
    case ResolvePossibleLambda => added := RewriteBalances(e, []);
    case InvokeKnownHelper(argc, name) => KnownHelperStep(e, argc, name);
    case InvokeHelper(argc, name, isRoot) => added := HelperStep(e, argc, name, isRoot);
    case InvokePartial(name) => PartialStep(e, name);
    case InvokeAmbiguous(name, isBlock) => added := AmbiguousStep(e, name, isBlock);
    case BlockValue => added := BlockValueStep(e);
    case AmbiguousBlockValue => added := AmbiguousBlockValueStep(e);
    case _ => PushesBalance(e, op);
  }

  // ---------- The main result ----------

  /** All text written is right, and the variables that are still to be read hold what they are to be read for. */
  ghost predicate Sound(e: Emitter) {
    Right(e.out) && forall g :: g in Needs(e) ==> Holds(e.out, g)
  }

  /** What is written disturbs a read of its own or one still pending. */
  ghost predicate Clash(e: Emitter, f: Emitter)
    requires |e.out| <= |f.out|
  {
    Misreads(Written(e, f)) || exists g :: g in Needs(f) && Disturbs(Written(e, f), g)
  }

  lemma NeedHolds(e: Emitter, f: Emitter, added: set<Act>, g: Act)
    requires Balances(e, [], f, [], added) && Sound(e) && g in Needs(f)
    ensures Holds(e.out + Written(e, f), g) <==> !Disturbs(Written(e, f), g)
  {
    var chunk := Written(e, f);
    assert g in Needs(e) || g in Sets(chunk);
    LastConcat(e.out, chunk, g.n);
    LastIsSet(chunk, g.n);
  }

  lemma WrittenIs(e: Emitter, f: Emitter)
    requires e.out <= f.out
    ensures f.out == e.out + Written(e, f)
  {
  }

  lemma StepSound(e: Emitter, f: Emitter, added: set<Act>)
    requires Orderly(e, []) && Balances(e, [], f, [], added) && Sound(e)
    ensures Sound(f) <==> !Clash(e, f)
  {
    var chunk := Written(e, f);
    WrittenIs(e, f);
    assert Right(f.out) <==> !Misreads(chunk) by { ChunkRight(e.out, chunk, Needs(e), PendingSets(e, []) + added); }
    forall g | g in Needs(f) ensures Holds(f.out, g) <==> !Disturbs(chunk, g) { NeedHolds(e, f, added, g); }
  }

  lemma NeedIsKept(e: Emitter, f: Emitter, added: set<Act>, g: Act)
    requires Orderly(e, []) && Balances(e, [], f, [], added) && g in Needs(e)
    ensures g.Get? && g !in Sets(Written(e, f)) && (g in Gets(Written(e, f)) || g in Needs(f))
  {
    assert g !in added;
  }

  lemma StepUnsound(e: Emitter, f: Emitter, added: set<Act>)
    requires Orderly(e, []) && Balances(e, [], f, [], added) && !Sound(e)
    ensures !Sound(f)
  {
    var chunk := Written(e, f);
    WrittenIs(e, f);
    if Right(e.out) {
      var g :| g in Needs(e) && !Holds(e.out, g);
      NeedIsKept(e, f, added, g);
      StaysWrong(e.out, chunk, g);
    } else if Right(f.out) {
      RightPrefix(e.out, chunk);
    }
  }

  /** No opcode of the run clashes. */
  ghost predicate NoClash(e: Emitter, ops: seq<Opcode>)
    decreases |ops|
  {
    ops != [] ==>
      match EmitStep(e, ops[0])
      case None => true
      case Some(f) => |e.out| <= |f.out| && !Clash(e, f) && NoClash(f, ops[1..])
  }

  lemma {:induction false} RunSound(e: Emitter, ops: seq<Opcode>)
    requires Orderly(e, []) && EmitRun(e, ops).Some?
    ensures Sound(EmitRun(e, ops).value) <==> Sound(e) && NoClash(e, ops)
    ensures Orderly(EmitRun(e, ops).value, [])
    decreases |ops|
  {
    if ops != [] {
      var f := EmitStep(e, ops[0]).value;
      var added := StepBalances(e, ops[0]);
      RunSound(f, ops[1..]);
      if Sound(e) { StepSound(e, f, added); } else { StepUnsound(e, f, added); }
    }
  }

  /** What the second pass writes for a program. */
  function Source(o: CompileOptions, p: Program): seq<Act>
    requires StatementsCompile(o, p.statements)
  {
    match EmitRun(Start, ProgramEnvironment(o, p).opcodes)
    case None => []
    case Some(e) => e.out
  }

  /**
   For every program the second pass runs through, and every read of a variable in the text it writes
   sees the value it is meant for exactly when no opcode clashes.
   */
  lemma ReadsRightExactly(o: CompileOptions, p: Program)
    requires StatementsCompile(o, p.statements)
    ensures EmitRun(Start, ProgramEnvironment(o, p).opcodes).Some?
    ensures Right(Source(o, p)) <==> NoClash(Start, ProgramEnvironment(o, p).opcodes)
  {
    var ops := ProgramEnvironment(o, p).opcodes;
    HandlebarsStack.StackIsBalanced(o, p);
    RunShape(Start, ops);
    assert Start.Shape() == HandlebarsStack.Empty;
    RunSound(Start, ops);
    var e := EmitRun(Start, ops).value;
    assert e.Shape() == HandlebarsStack.Empty;
    assert |e.compile| == 0 && |e.inline| == 0 && |e.hashes| == 0;
    assert Needs(e) == {};
  }
}

/**
 The list of `lcxl_lock_list.h`.  While it is locked its entries stay put: additions and removals
 wait in two queues and are carried out when the last lock is released.  The number of locks is
 kept in eight bits, so that 256 locks held at once look like none.  Entries are compared by
 identity; `freed` records the calls of the list's delete callback.
 */
module DriverLockList {

  // ---------- Lists without repetition ----------

  predicate Distinct<T(==)>(xs: seq<T>) {
    forall i, j :: 0 <= i < j < |xs| ==> xs[i] != xs[j]
  }

  /** `RemoveEntryList`: unlinks the entry. */
  function Unlink<T(==)>(xs: seq<T>, x: T): (r: seq<T>)
    ensures x !in xs ==> r == xs
    ensures x in xs ==> |r| == |xs| - 1
    ensures forall y :: y in r ==> y in xs
    ensures forall y :: y in xs && y != x ==> y in r
  {
    if xs == [] then []
    else if xs[0] == x then xs[1..]
    else [xs[0]] + Unlink(xs[1..], x)
  }

  function UnlinkAll<T(==)>(xs: seq<T>, gone: seq<T>): seq<T>
    decreases |gone|
  {
    if gone == [] then xs else UnlinkAll(Unlink(xs, gone[0]), gone[1..])
  }

  lemma {:induction false} UnlinkDistinct<T>(xs: seq<T>, x: T)
    requires Distinct(xs)
    ensures Distinct(Unlink(xs, x)) && x !in Unlink(xs, x)
  {
    if xs != [] && xs[0] != x {
      UnlinkDistinct(xs[1..], x);
      assert forall k :: 0 <= k < |Unlink(xs[1..], x)| ==> Unlink(xs[1..], x)[k] in xs[1..];
    }
  }

  lemma {:induction false} UnlinkAppended<T>(xs: seq<T>, ys: seq<T>, x: T)
    ensures x in xs ==> Unlink(xs + ys, x) == Unlink(xs, x) + ys
    ensures x !in xs ==> Unlink(xs + ys, x) == xs + Unlink(ys, x)
  {
    if xs == [] {
      assert xs + ys == ys;
    } else {
      assert (xs + ys)[1..] == xs[1..] + ys;
      if xs[0] != x { UnlinkAppended(xs[1..], ys, x); }
    }
  }

  lemma {:induction false} UnlinkAllSnoc<T>(xs: seq<T>, gone: seq<T>, x: T)
    ensures UnlinkAll(xs, gone + [x]) == Unlink(UnlinkAll(xs, gone), x)
    decreases |gone|
  {
    if gone == [] {
      assert gone + [x] == [x] && [x][1..] == [];
    } else {
      assert (gone + [x])[1..] == gone[1..] + [x];
      UnlinkAllSnoc(Unlink(xs, gone[0]), gone[1..], x);
    }
  }

  lemma {:induction false} UnlinkAllKeeps<T>(xs: seq<T>, gone: seq<T>)
    requires Distinct(xs)
    ensures Distinct(UnlinkAll(xs, gone))
    ensures forall y :: y in UnlinkAll(xs, gone) <==> y in xs && y !in gone
    decreases |gone|
  {
    if gone != [] {
      UnlinkDistinct(xs, gone[0]);
      UnlinkAllKeeps(Unlink(xs, gone[0]), gone[1..]);
      assert gone == [gone[0]] + gone[1..];
    }
  }

  // ---------- The list as a value ----------

  /** `locks` is a `BOOLEAN`, one unsigned byte. */
  datatype State<T> = State(list: seq<T>, count: int, toAdd: seq<T>, toDelete: seq<T>, locks: nat, freed: seq<T>)

  datatype Op<T> = Lock | Unlock | Add(x: T) | Remove(x: T)

  const BYTE := 256

  /**
   `held` locks are held.  The pending removals are of different listed entries, the pending
   additions of others; with no lock held nothing is pending.
   */
  ghost predicate Consistent<T>(s: State<T>, held: nat) {
    && s.locks == held % BYTE
    && s.count == |s.list|
    && Distinct(s.list + s.toAdd) && Distinct(s.toDelete)
    && (forall x :: x in s.toDelete ==> x in s.list)
    && (held == 0 ==> s.toAdd == [] && s.toDelete == [])
  }

  /** What a caller may do: release what it locked, add an entry not yet there, remove a listed entry once. */
  predicate Allowed<T(==)>(s: State<T>, held: nat, op: Op<T>) {
    match op
    case Lock => true
    case Unlock => held > 0
    case Add(x) => x !in s.list && x !in s.toAdd
    case Remove(x) => x in s.list && x !in s.toDelete
  }

  function HeldAfter<T>(held: nat, op: Op<T>): nat {
    match op
    case Lock => held + 1
    case Unlock => if held > 0 then held - 1 else 0
    case _ => held
  }

  function Drained<T(==)>(s: State<T>): State<T> {
    State(UnlinkAll(s.list, s.toDelete) + s.toAdd, s.count - |s.toDelete| + |s.toAdd|, [], [], 0, s.freed + s.toDelete)
  }

  function Apply<T(==)>(s: State<T>, op: Op<T>): State<T> {
    match op
    case Lock => s.(locks := (s.locks + 1) % BYTE)
    case Unlock =>
      var left := (s.locks + (BYTE - 1)) % BYTE;
      if left != 0 then s.(locks := left) else Drained(s)
    case Add(x) =>
      if s.locks > 0 then s.(toAdd := s.toAdd + [x]) else s.(list := s.list + [x], count := s.count + 1)
    case Remove(x) =>
      if s.locks > 0 then s.(toDelete := s.toDelete + [x])
      else s.(list := Unlink(s.list, x), count := s.count - 1, freed := s.freed + [x])
  }

  // ---------- The immediate list it stands for ----------

  /** The list as if nothing had been deferred. */
  function Logical<T(==)>(s: State<T>): seq<T> {
    UnlinkAll(s.list, s.toDelete) + s.toAdd
  }

  function Immediate<T(==)>(xs: seq<T>, op: Op<T>): seq<T> {
    match op
    case Lock => xs
    case Unlock => xs
    case Add(x) => xs + [x]
    case Remove(x) => Unlink(xs, x)
  }

  function Removed<T>(op: Op<T>): seq<T> {
    match op
    case Remove(x) => [x]
    case _ => []
  }

  /**
   The operation does not overtake one of its kind that is waiting.  It would do so where the
   count says that nobody holds a lock although 256 are held, or a multiple of that.
   */
  predicate Orderly<T>(s: State<T>, op: Op<T>) {
    match op
    case Add(_) => s.locks > 0 || s.toAdd == []
    case Remove(_) => s.locks > 0 || s.toDelete == []
    case _ => true
  }

  lemma DistinctSnoc<T>(xs: seq<T>, x: T)
    requires Distinct(xs) && x !in xs
    ensures Distinct(xs + [x])
  {
  }

  lemma DistinctParts<T>(xs: seq<T>, ys: seq<T>)
    requires Distinct(xs + ys)
    ensures Distinct(xs) && Distinct(ys) && forall x :: x in xs ==> x !in ys
  {
    assert forall i :: 0 <= i < |xs| ==> (xs + ys)[i] == xs[i];
    assert forall i :: 0 <= i < |ys| ==> (xs + ys)[|xs| + i] == ys[i];
  }

  lemma DistinctJoin<T>(xs: seq<T>, ys: seq<T>)
    requires Distinct(xs) && Distinct(ys) && forall x :: x in xs ==> x !in ys
    ensures Distinct(xs + ys)
  {
    forall i, j | 0 <= i < j < |xs + ys| ensures (xs + ys)[i] != (xs + ys)[j] {
      if i < |xs| && j >= |xs| {
        assert xs[i] in xs && ys[j - |xs|] in ys;
      }
    }
  }

  lemma {:induction false} UnlinkAllAbsent<T>(xs: seq<T>, x: T, gone: seq<T>)
    requires x !in gone
    ensures UnlinkAll(xs + [x], gone) == UnlinkAll(xs, gone) + [x]
    decreases |gone|
  {
    if gone != [] {
      UnlinkAppended(xs, [x], gone[0]);
      UnlinkAllAbsent(Unlink(xs, gone[0]), x, gone[1..]);
    }
  }

  lemma AddRefines<T>(s: State<T>, held: nat, x: T)
    requires Consistent(s, held) && Allowed(s, held, Add(x))
    ensures Consistent(Apply(s, Add(x)), held)
    ensures Logical(Apply(s, Add(x))) == Logical(s) + [x] <==> Orderly(s, Add(x))
  {
    var t := Apply(s, Add(x));
    DistinctParts(s.list, s.toAdd);
    if s.locks > 0 {
      assert t.list + t.toAdd == s.list + s.toAdd + [x];
      DistinctSnoc(s.list + s.toAdd, x);
    } else {
      DistinctSnoc(s.list, x);
      DistinctJoin(t.list, s.toAdd);
      UnlinkAllAbsent(s.list, x, s.toDelete);
      var front := UnlinkAll(s.list, s.toDelete);
      if s.toAdd != [] {
        assert (front + [x] + s.toAdd)[|front|] == x;
        assert (front + s.toAdd + [x])[|front|] == s.toAdd[0];
      }
    }
  }

  lemma {:induction false} UnlinkCommutes<T>(xs: seq<T>, x: T, y: T)
    ensures Unlink(Unlink(xs, x), y) == Unlink(Unlink(xs, y), x)
  {
    if xs != [] && xs[0] != x && xs[0] != y { UnlinkCommutes(xs[1..], x, y); }
  }

  lemma {:induction false} UnlinkAllCommutes<T>(xs: seq<T>, x: T, gone: seq<T>)
    ensures UnlinkAll(Unlink(xs, x), gone) == Unlink(UnlinkAll(xs, gone), x)
    decreases |gone|
  {
    if gone != [] {
      UnlinkCommutes(xs, x, gone[0]);
      UnlinkAllCommutes(Unlink(xs, gone[0]), x, gone[1..]);
    }
  }

  lemma RemoveRefines<T>(s: State<T>, held: nat, x: T)
    requires Consistent(s, held) && Allowed(s, held, Remove(x))
    ensures Consistent(Apply(s, Remove(x)), held)
    ensures Logical(Apply(s, Remove(x))) == Unlink(Logical(s), x)
  {
    var t := Apply(s, Remove(x));
    DistinctParts(s.list, s.toAdd);
    UnlinkAllKeeps(s.list, s.toDelete);
    UnlinkAppended(UnlinkAll(s.list, s.toDelete), s.toAdd, x);
    if s.locks == 0 {
      UnlinkDistinct(s.list, x);
      DistinctJoin(t.list, s.toAdd);
      UnlinkAllCommutes(s.list, x, s.toDelete);
    } else {
      UnlinkAllSnoc(s.list, s.toDelete, x);
      DistinctSnoc(s.toDelete, x);
    }
  }

  lemma {:induction false} UnlinkAllLength<T>(xs: seq<T>, gone: seq<T>)
    requires Distinct(xs) && Distinct(gone) && forall x :: x in gone ==> x in xs
    ensures |UnlinkAll(xs, gone)| == |xs| - |gone|
    decreases |gone|
  {
    if gone != [] {
      var rest := Unlink(xs, gone[0]);
      UnlinkDistinct(xs, gone[0]);
      assert forall x :: x in gone[1..] ==> x != gone[0] && x in gone;
      UnlinkAllLength(rest, gone[1..]);
    }
  }

  lemma DrainRefines<T>(s: State<T>, held: nat)
    requires Consistent(s, held)
    ensures Logical(Drained(s)) == Logical(s) && Drained(s).count == |Drained(s).list|
    ensures Distinct(Drained(s).list + [])
  {
    DistinctParts(s.list, s.toAdd);
    UnlinkAllKeeps(s.list, s.toDelete);
    UnlinkAllLength(s.list, s.toDelete);
    DistinctJoin(UnlinkAll(s.list, s.toDelete), s.toAdd);
    assert Drained(s).list + [] == Drained(s).list;
  }

  lemma CountsInByte(held: nat)
    ensures (held % BYTE + 1) % BYTE == (held + 1) % BYTE
    ensures held > 0 ==> (held % BYTE + (BYTE - 1)) % BYTE == (held - 1) % BYTE
  {
  }

  lemma UnlockRefines<T>(s: State<T>, held: nat)
    requires Consistent(s, held) && held > 0
    ensures Consistent(Apply(s, Unlock), held - 1)
    ensures Logical(Apply(s, Unlock)) == Logical(s)
  {
    CountsInByte(held);
    DrainRefines(s, held);
  }

  /**
   One operation on the deferring list is that operation on the immediate list, and a removed entry
   is freed or waiting behind those removed before, exactly when the operation overtakes no other.
   */
  lemma StepRefines<T>(s: State<T>, held: nat, op: Op<T>)
    requires Consistent(s, held) && Allowed(s, held, op)
    ensures Consistent(Apply(s, op), HeldAfter(held, op))
    ensures
      var t := Apply(s, op);
      && Logical(t) == Immediate(Logical(s), op)
      && t.freed + t.toDelete == s.freed + s.toDelete + Removed(op)
      <==> Orderly(s, op)
  {
    match op
    case Lock => CountsInByte(held);
    case Unlock => UnlockRefines(s, held);
    case Add(x) => AddRefines(s, held, x);
    case Remove(x) =>
      RemoveRefines(s, held, x);
      RemovalOrder(s, x);
  }

  lemma RemovalOrder<T>(s: State<T>, x: T)
    requires x !in s.toDelete
    ensures
      var t := Apply(s, Remove(x));
      t.freed + t.toDelete == s.freed + s.toDelete + [x] <==> Orderly(s, Remove(x))
  {
    assert s.freed + (s.toDelete + [x]) == s.freed + s.toDelete + [x];
    var n := |s.freed|;
    if s.toDelete != [] {
      assert (s.freed + [x] + s.toDelete)[n] == x;
      assert (s.freed + s.toDelete + [x])[n] == s.toDelete[0];
    }
  }

  // ---------- Any interleaving of operations ----------

  function Run<T(==)>(s: State<T>, ops: seq<Op<T>>): State<T>
    decreases |ops|
  {
    if ops == [] then s else Run(Apply(s, ops[0]), ops[1..])
  }

  function HeldAfterAll<T>(held: nat, ops: seq<Op<T>>): nat
    decreases |ops|
  {
    if ops == [] then held else HeldAfterAll(HeldAfter(held, ops[0]), ops[1..])
  }

  predicate AllowedRun<T(==)>(s: State<T>, held: nat, ops: seq<Op<T>>)
    decreases |ops|
  {
    ops != [] ==> Allowed(s, held, ops[0]) && AllowedRun(Apply(s, ops[0]), HeldAfter(held, ops[0]), ops[1..])
  }

  predicate OrderlyRun<T(==)>(s: State<T>, ops: seq<Op<T>>)
    decreases |ops|
  {
    ops != [] ==> Orderly(s, ops[0]) && OrderlyRun(Apply(s, ops[0]), ops[1..])
  }

  function ImmediateRun<T(==)>(xs: seq<T>, ops: seq<Op<T>>): seq<T>
    decreases |ops|
  {
    if ops == [] then xs else ImmediateRun(Immediate(xs, ops[0]), ops[1..])
  }

  function RemovedRun<T>(ops: seq<Op<T>>): seq<T> {
    if ops == [] then [] else Removed(ops[0]) + RemovedRun(ops[1..])
  }

  lemma Associate<T>(a: seq<T>, b: seq<T>, c: seq<T>)
    ensures a + b + c == a + (b + c)
  {
  }

  lemma {:induction false} RunRefines<T>(s: State<T>, held: nat, ops: seq<Op<T>>)
    requires Consistent(s, held) && AllowedRun(s, held, ops) && OrderlyRun(s, ops)
    ensures
      var t := Run(s, ops);
      && Consistent(t, HeldAfterAll(held, ops))
      && Logical(t) == ImmediateRun(Logical(s), ops)
      && t.freed + t.toDelete == s.freed + s.toDelete + RemovedRun(ops)
    decreases |ops|
  {
    if ops != [] {
      var s' := Apply(s, ops[0]);
      StepRefines(s, held, ops[0]);
      RunRefines(s', HeldAfter(held, ops[0]), ops[1..]);
      Associate(s.freed + s.toDelete, Removed(ops[0]), RemovedRun(ops[1..]));
    } else {
      assert s.freed + s.toDelete + [] == s.freed + s.toDelete;
    }
  }

  /** At every point of the run the list stands for the immediate one, and removals keep their order. */
  predicate Tracks<T(==)>(s: State<T>, xs: seq<T>, removed: seq<T>, ops: seq<Op<T>>)
    decreases |ops|
  {
    && Logical(s) == xs && s.freed + s.toDelete == removed
    && (ops != [] ==> Tracks(Apply(s, ops[0]), Immediate(xs, ops[0]), removed + Removed(ops[0]), ops[1..]))
  }

  /** It does so exactly in the runs in which no operation overtakes another. */
  lemma {:induction false} TracksExactly<T>(s: State<T>, held: nat, ops: seq<Op<T>>)
    requires Consistent(s, held) && AllowedRun(s, held, ops)
    ensures Tracks(s, Logical(s), s.freed + s.toDelete, ops) <==> OrderlyRun(s, ops)
    decreases |ops|
  {
    if ops != [] {
      StepRefines(s, held, ops[0]);
      if Orderly(s, ops[0]) { TracksExactly(Apply(s, ops[0]), HeldAfter(held, ops[0]), ops[1..]); }
    }
  }

  function Empty<T>(): State<T> {
    State([], 0, [], [], 0, [])
  }

  /**
   From an empty list, after any orderly run that ends with no lock held: the list is that of the
   immediate list, its count the length, and every removed entry was freed once, in order.
   */
  lemma UnlockedIsImmediate<T>(ops: seq<Op<T>>)
    requires AllowedRun(Empty(), 0, ops) && OrderlyRun(Empty(), ops) && HeldAfterAll(0, ops) == 0
    ensures
      var t := Run(Empty<T>(), ops);
      && t.list == ImmediateRun([], ops) && t.count == |t.list| && Distinct(t.list)
      && t.freed == RemovedRun(ops)
  {
    RunRefines(Empty<T>(), 0, ops);
    var t := Run(Empty<T>(), ops);
    DistinctParts(t.list, t.toAdd);
    assert t.freed + [] == t.freed;
    assert [] + [] + RemovedRun(ops) == RemovedRun(ops);
  }

  /** Never more than 255 locks are held. */
  predicate FewLocks<T>(held: nat, ops: seq<Op<T>>)
    decreases |ops|
  {
    held < BYTE && (ops != [] ==> FewLocks(HeldAfter(held, ops[0]), ops[1..]))
  }

  /** Runs that never hold more than 255 locks are orderly. */
  lemma {:induction false} FewLocksAreOrderly<T>(s: State<T>, held: nat, ops: seq<Op<T>>)
    requires Consistent(s, held) && AllowedRun(s, held, ops) && FewLocks(held, ops)
    ensures OrderlyRun(s, ops)
    decreases |ops|
  {
    if ops != [] {
      StepRefines(s, held, ops[0]);
      FewLocksAreOrderly(Apply(s, ops[0]), HeldAfter(held, ops[0]), ops[1..]);
    }
  }

  // ---------- What 256 locks do ----------

  function Repeat<T>(op: Op<T>, n: nat): seq<Op<T>> {
    if n == 0 then [] else [op] + Repeat(op, n - 1)
  }

  lemma {:induction false} RunConcat<T>(s: State<T>, held: nat, a: seq<Op<T>>, b: seq<Op<T>>)
    ensures Run(s, a + b) == Run(Run(s, a), b)
    ensures HeldAfterAll(held, a + b) == HeldAfterAll(HeldAfterAll(held, a), b)
    ensures AllowedRun(s, held, a + b) <==> AllowedRun(s, held, a) && AllowedRun(Run(s, a), HeldAfterAll(held, a), b)
    decreases |a|
  {
    if a == [] {
      assert a + b == b;
    } else {
      assert (a + b)[1..] == a[1..] + b;
      RunConcat(Apply(s, a[0]), HeldAfter(held, a[0]), a[1..], b);
    }
  }

  /** Locks that nobody releases, as the delete request leaves one each time, are counted modulo 256. */
  lemma {:induction false} LocksAreCounted<T>(s: State<T>, held: nat, n: nat)
    requires s.locks == held % BYTE
    ensures Run(s, Repeat(Lock, n)) == s.(locks := (held + n) % BYTE)
    ensures HeldAfterAll(held, Repeat<T>(Lock, n)) == held + n && AllowedRun(s, held, Repeat(Lock, n))
    decreases n
  {
    if n > 0 {
      CountsInByte(held);
      assert Repeat<T>(Lock, n)[1..] == Repeat(Lock, n - 1);
      LocksAreCounted(Apply(s, Lock), held + 1, n - 1);
    }
  }

  /** After `n` locks that nobody releases an addition is deferred exactly when 256 does not divide `n`. */
  lemma ForgottenLocksDefer<T>(s: State<T>, n: nat, x: T)
    requires s.locks == 0 && x !in s.list
    ensures
      var t := Apply(Run(s, Repeat(Lock, n)), Add(x));
      && (t.list == s.list <==> n % BYTE != 0)
      && (t.list == s.list + [x] <==> n % BYTE == 0)
  {
    LocksAreCounted(s, 0, n);
    assert |s.list + [x]| != |s.list|;
  }

  lemma {:induction false} UnlocksDrain<T>(s: State<T>, n: nat)
    requires s.locks == n % BYTE && 0 < n <= BYTE
    ensures Run(s, Repeat(Unlock, n)) == Drained(s)
    ensures HeldAfterAll(n, Repeat<T>(Unlock, n)) == 0 && AllowedRun(s, n, Repeat(Unlock, n))
    decreases n
  {
    CountsInByte(n);
    assert Repeat<T>(Unlock, n)[1..] == Repeat(Unlock, n - 1);
    if n == 1 {
      assert Repeat<T>(Unlock, 0) == [];
    } else {
      UnlocksDrain(Apply(s, Unlock), n - 1);
    }
  }

  lemma RunOne<T>(s: State<T>, held: nat, op: Op<T>, xs: seq<T>)
    ensures Run(s, [op]) == Apply(s, op) && HeldAfterAll(held, [op]) == HeldAfter(held, op)
    ensures AllowedRun(s, held, [op]) <==> Allowed(s, held, op)
    ensures ImmediateRun(xs, [op]) == Immediate(xs, op)
  {
    assert [op][1..] == [];
  }

  /** One addition under a single lock, another under 256, and all locks released again. */
  function Nested<T>(x: T, y: T): seq<Op<T>> {
    [Lock] + [Add(y)] + Repeat(Lock, BYTE - 1) + [Add(x)] + Repeat(Unlock, BYTE)
  }

  lemma Overtaken<T>(x: T, y: T)
    requires x != y
    ensures
      var ops := [Lock] + [Add(y)] + Repeat(Lock, BYTE - 1) + [Add(x)];
      Run(Empty(), ops) == State([x], 1, [y], [], 0, []) && HeldAfterAll(0, ops) == BYTE && AllowedRun(Empty(), 0, ops)
  {
    var s0: State<T> := Empty();
    var s1: State<T> := State([], 0, [y], [], 1, []);
    var a, b := [Lock] + [Add(y)], Repeat<T>(Lock, BYTE - 1);
    assert Run(s0, a) == s1 && HeldAfterAll(0, a) == 1 && AllowedRun(s0, 0, a) by {
      RunOne(s0, 0, Lock, []);
      RunOne(Apply(s0, Lock), 1, Add(y), []);
      RunConcat(s0, 0, [Lock], [Add(y)]);
    }
    assert Run(s0, a + b) == s1.(locks := 0) && HeldAfterAll(0, a + b) == BYTE && AllowedRun(s0, 0, a + b) by {
      LocksAreCounted(s1, 1, BYTE - 1);
      RunConcat(s0, 0, a, b);
    }
    RunOne(s1.(locks := 0), BYTE, Add(x), []);
    RunConcat(s0, 0, a + b, [Add(x)]);
  }

  /** Then the second addition overtakes the first. */
  lemma NestingMisorders<T>(x: T, y: T)
    requires x != y
    ensures AllowedRun(Empty(), 0, Nested(x, y)) && HeldAfterAll(0, Nested(x, y)) == 0
    ensures Run(Empty(), Nested(x, y)).list == [x, y] && ImmediateRun([], Nested(x, y)) == [y, x]
  {
    var s2: State<T> := State([x], 1, [y], [], 0, []);
    var front := [Lock] + [Add(y)] + Repeat<T>(Lock, BYTE - 1) + [Add(x)];
    Overtaken(x, y);
    UnlocksDrain(s2, BYTE);
    RunConcat(Empty(), 0, front, Repeat(Unlock, BYTE));
    assert Drained(s2).list == [x, y] by { assert [x] + [y] == [x, y]; }
    NestedImmediate(x, y);
  }

  lemma {:induction false} ImmediateConcat<T>(xs: seq<T>, a: seq<Op<T>>, b: seq<Op<T>>)
    ensures ImmediateRun(xs, a + b) == ImmediateRun(ImmediateRun(xs, a), b)
    decreases |a|
  {
    if a == [] {
      assert a + b == b;
    } else {
      assert (a + b)[1..] == a[1..] + b;
      ImmediateConcat(Immediate(xs, a[0]), a[1..], b);
    }
  }

  lemma {:induction false} LocksChangeNothing<T>(xs: seq<T>, op: Op<T>, n: nat)
    requires op.Lock? || op.Unlock?
    ensures ImmediateRun(xs, Repeat(op, n)) == xs
    decreases n
  {
    if n > 0 {
      assert Repeat(op, n)[1..] == Repeat(op, n - 1);
      LocksChangeNothing(xs, op, n - 1);
    }
  }

  lemma NestedImmediate<T>(x: T, y: T)
    ensures ImmediateRun([], Nested(x, y)) == [y, x]
  {
    var a, b := [Lock] + [Add(y)], Repeat<T>(Lock, BYTE - 1);
    assert ImmediateRun([], a) == [y] by {
      RunOne<T>(Empty(), 0, Lock, []);
      RunOne(Empty(), 0, Add(y), []);
      ImmediateConcat<T>([], [Lock], [Add(y)]);
    }
    ImmediateConcat([], a + b + [Add(x)], Repeat(Unlock, BYTE));
    ImmediateConcat([], a + b, [Add(x)]);
    ImmediateConcat([], a, b);
    LocksChangeNothing([y], Lock, BYTE - 1);
    RunOne(Empty(), 0, Add(x), [y]);
    LocksChangeNothing([y, x], Unlock, BYTE);
    assert [y] + [x] == [y, x];
  }

  // ---------- How long the list stays as it is ----------

  /** The count shows a lock before and after every operation of the run. */
  predicate StaysLocked<T(==)>(s: State<T>, ops: seq<Op<T>>)
    decreases |ops|
  {
    s.locks > 0 && (ops != [] ==> StaysLocked(Apply(s, ops[0]), ops[1..]))
  }

  /** While it does, the entries and their number do not change and nothing is freed. */
  lemma {:induction false} FrozenWhileLocked<T>(s: State<T>, ops: seq<Op<T>>)
    requires StaysLocked(s, ops)
    ensures
      var t := Run(s, ops);
      t.list == s.list && t.count == s.count && t.freed == s.freed
    decreases |ops|
  {
    if ops != [] { FrozenWhileLocked(Apply(s, ops[0]), ops[1..]); }
  }

  /** Every lock of the run is released at most once, `held` being taken before it. */
  predicate Balanced<T>(ops: seq<Op<T>>, held: nat)
    decreases |ops|
  {
    ops != [] ==> (ops[0].Unlock? ==> held > 0) && Balanced(ops[1..], HeldAfter(held, ops[0]))
  }

  /**
   Locks that nobody releases, as `IOCTL_ROUTER_DEL_SERVER` leaves them, keep the list locked under a
   balanced run exactly as long as fewer than 256 locks are held in all.
   */
  lemma {:induction false} ForgottenLockFreezes<T>(s: State<T>, ops: seq<Op<T>>, forgotten: nat, held: nat)
    requires s.locks == forgotten + held < BYTE && forgotten > 0 && Balanced(ops, held)
    ensures StaysLocked(s, ops) <==> FewLocks(forgotten + held, ops)
    ensures FewLocks(forgotten + held, ops) ==> Run(s, ops).list == s.list && Run(s, ops).freed == s.freed
    decreases |ops|
  {
    if ops != [] {
      CountsInByte(s.locks);
      var held' := HeldAfter(held, ops[0]);
      assert HeldAfter(forgotten + held, ops[0]) == forgotten + held';
      if forgotten + held' < BYTE { ForgottenLockFreezes(Apply(s, ops[0]), ops[1..], forgotten, held'); }
    }
    if StaysLocked(s, ops) { FrozenWhileLocked(s, ops); }
  }

  /** The 256th lock thaws the list: the next addition goes in, and the next pair of lock and unlock drains both queues. */
  lemma LastLockThaws<T>(s: State<T>, x: T)
    requires s.locks == BYTE - 1
    ensures
      var t := Apply(s, Lock);
      && Apply(t, Add(x)).list == s.list + [x]
      && Apply(Apply(t, Lock), Unlock) == Drained(s)
  {
    CountsInByte(BYTE - 1);
  }

  // ---------- The list in place ----------

  class LockList<T(==)> {
    var list: seq<T>
    var listCount: int
    var toBeAddList: seq<T>
    var toBeDelList: seq<T>
    var lockCount: nat
    ghost var freed: seq<T>

    ghost function Value(): State<T>
      reads this
    {
      State(list, listCount, toBeAddList, toBeDelList, lockCount, freed)
    }

    constructor ()
      ensures Value() == Empty()
    {
      list, listCount, toBeAddList, toBeDelList, lockCount, freed := [], 0, [], [], 0, [];
    }

    method LockList()
      modifies this
      ensures Value() == Apply(old(Value()), Lock)
    {
      lockCount := (lockCount + 1) % BYTE;
    }

    method AddEntry(x: T)
      modifies this
      ensures Value() == Apply(old(Value()), Add(x))
    {
      if lockCount > 0 {
        toBeAddList := toBeAddList + [x];
      } else {
        listCount := listCount + 1;
        list := list + [x];
      }
    }

    method RemoveEntry(x: T)
      modifies this
      ensures Value() == Apply(old(Value()), Remove(x))
    {
      if lockCount > 0 {
        toBeDelList := toBeDelList + [x];
      } else {
        listCount := listCount - 1;
        list := Unlink(list, x);
        freed := freed + [x];
      }
    }

    method UnlockList()
      modifies this
      ensures Value() == Apply(old(Value()), Unlock)
    {
      lockCount := (lockCount + (BYTE - 1)) % BYTE;
      if lockCount == 0 {
        DrainRemovals();
        DrainAdditions();
      }
    }

    method DrainRemovals()
      modifies this
      ensures list == UnlinkAll(old(list), old(toBeDelList)) && freed == old(freed + toBeDelList) && toBeDelList == []
      ensures listCount == old(listCount - |toBeDelList|)
      ensures toBeAddList == old(toBeAddList) && lockCount == old(lockCount)
    {
      while toBeDelList != []
        invariant UnlinkAll(list, toBeDelList) == UnlinkAll(old(list), old(toBeDelList))
        invariant freed + toBeDelList == old(freed + toBeDelList)
        invariant listCount - |toBeDelList| == old(listCount - |toBeDelList|)
        invariant toBeAddList == old(toBeAddList) && lockCount == old(lockCount)
        decreases |toBeDelList|
      {
        var x := toBeDelList[0];
        listCount := listCount - 1;
        list := Unlink(list, x);
        freed := freed + [x];
        toBeDelList := toBeDelList[1..];
      }
      assert freed + [] == freed;
    }

    method DrainAdditions()
      modifies this
      ensures list == old(list + toBeAddList) && toBeAddList == []
      ensures listCount == old(listCount + |toBeAddList|)
      ensures toBeDelList == old(toBeDelList) && lockCount == old(lockCount) && freed == old(freed)
    {
      while toBeAddList != []
        invariant list + toBeAddList == old(list + toBeAddList)
        invariant listCount + |toBeAddList| == old(listCount + |toBeAddList|)
        invariant toBeDelList == old(toBeDelList) && lockCount == old(lockCount) && freed == old(freed)
        decreases |toBeAddList|
      {
        var x := toBeAddList[0];
        listCount := listCount + 1;
        list := list + [x];
        toBeAddList := toBeAddList[1..];
      }
      assert list + [] == list;
    }
  }
}

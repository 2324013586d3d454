/**
 Chains of packets, linked through their `next` fields, and how the handlers take them apart in
 place: one chain to pass on and one to hold back, and the removal of the driver's own packets.
 Where each packet's link leads is tracked as a position in the chain as it came; the position
 past the last stands for null.
 */
module DriverChain {
  import opened DriverPackets

  /** A `NET_BUFFER_LIST`; `own` says that the driver itself sent it. */
  class Nbl {
    var next: Nbl?
    const own: bool

    constructor (own: bool)
      ensures this.own == own && next == null
    {
      this.own, next := own, null;
    }
  }

  predicate Distinct(nodes: seq<Nbl>) {
    forall i, j :: 0 <= i < j < |nodes| ==> nodes[i] != nodes[j]
  }

  function NodeAt(nodes: seq<Nbl>, i: nat): Nbl? {
    if i < |nodes| then nodes[i] else null
  }

  /** `head` begins a chain of exactly these packets, in this order. */
  ghost predicate Chain(head: Nbl?, nodes: seq<Nbl>)
    reads nodes
  {
    head == NodeAt(nodes, 0) && forall k {:trigger nodes[k].next} :: 0 <= k < |nodes| ==> nodes[k].next == NodeAt(nodes, k + 1)
  }

  /** The packets' links lead to these positions. */
  ghost predicate Linked(nodes: seq<Nbl>, links: seq<nat>)
    reads nodes
  {
    |links| == |nodes| && forall k {:trigger nodes[k].next} :: 0 <= k < |nodes| ==> nodes[k].next == NodeAt(nodes, links[k])
  }

  method SetNext(node: Nbl, next: Nbl?, ghost nodes: seq<Nbl>, ghost links: seq<nat>, ghost i: nat, ghost j: nat)
    requires Distinct(nodes) && Linked(nodes, links) && i < |nodes| && node == nodes[i] && next == NodeAt(nodes, j)
    modifies node
    ensures Linked(nodes, links[i := j])
  {
    node.next := next;
  }

  lemma ChainIsLinked(head: Nbl?, nodes: seq<Nbl>) returns (links: seq<nat>)
    requires Chain(head, nodes)
    ensures Linked(nodes, links) && Untouched(links, 0)
  {
    links := seq(|nodes|, k => k + 1);
  }

  // ---------- Verdicts ----------

  /** Whether a packet goes on or is held back. */
  datatype Verdict = Onward | Held

  /** The first position from `i` on whose verdict is `v`, or past the last. */
  function Following(verdicts: seq<Verdict>, v: Verdict, i: nat): (j: nat)
    requires i <= |verdicts|
    ensures i <= j <= |verdicts|
    decreases |verdicts| - i
  {
    if i == |verdicts| || verdicts[i] == v then i else Following(verdicts, v, i + 1)
  }

  /** The last position before `i` whose verdict is `v`, or past the last. */
  function Latest(verdicts: seq<Verdict>, v: Verdict, i: nat): (t: nat)
    requires i <= |verdicts|
    ensures t == |verdicts| || (t < i && verdicts[t] == v)
  {
    if i == 0 then |verdicts| else if verdicts[i - 1] == v then i - 1 else Latest(verdicts, v, i - 1)
  }

  lemma {:induction false} FollowingIsNext(verdicts: seq<Verdict>, v: Verdict, i: nat, m: nat)
    requires i <= m < |verdicts| && verdicts[m] == v
    ensures Following(verdicts, v, i) <= m
    decreases |verdicts| - i
  {
    if i < m && verdicts[i] != v { FollowingIsNext(verdicts, v, i + 1, m); }
  }

  lemma {:induction false} FollowingHasVerdict(verdicts: seq<Verdict>, v: Verdict, i: nat)
    requires i <= |verdicts|
    ensures var j := Following(verdicts, v, i); j < |verdicts| ==> verdicts[j] == v
    decreases |verdicts| - i
  {
    if i < |verdicts| && verdicts[i] != v { FollowingHasVerdict(verdicts, v, i + 1); }
  }

  /** Nothing of the verdict lies between the latest before `i` and the next from `i` on. */
  lemma {:induction false} LatestIsLast(verdicts: seq<Verdict>, v: Verdict, i: nat)
    requires i <= |verdicts|
    ensures
      var t := Latest(verdicts, v, i);
      Following(verdicts, v, if t < |verdicts| then t + 1 else 0) == Following(verdicts, v, i)
  {
    if i > 0 && verdicts[i - 1] != v { LatestIsLast(verdicts, v, i - 1); }
  }

  lemma {:induction false} LatestIsAfter(verdicts: seq<Verdict>, v: Verdict, i: nat, k: nat)
    requires k < i <= |verdicts| && verdicts[k] == v
    ensures k <= Latest(verdicts, v, i) < i
  {
    if verdicts[i - 1] != v { LatestIsAfter(verdicts, v, i - 1, k); }
  }

  /** Any earlier packet of the verdict than the latest is followed by one that has come already. */
  lemma EarlierIsFollowed(verdicts: seq<Verdict>, v: Verdict, i: nat, k: nat)
    requires k < i <= |verdicts| && verdicts[k] == v && k != Latest(verdicts, v, i)
    ensures Following(verdicts, v, k + 1) <= Latest(verdicts, v, i) < i
  {
    LatestIsAfter(verdicts, v, i, k);
    FollowingIsNext(verdicts, v, k + 1, Latest(verdicts, v, i));
  }

  // ---------- One verdict's chain under construction ----------

  /** From position `i` on the links are as they came. */
  predicate Untouched(links: seq<nat>, i: nat) {
    forall k :: i <= k < |links| ==> links[k] == k + 1
  }

  /** Among the first `i`, each packet of the verdict leads to the next of them, if that is among them. */
  predicate Threaded(links: seq<nat>, verdicts: seq<Verdict>, v: Verdict, i: nat)
    requires i <= |verdicts| == |links|
  {
    forall k {:trigger links[k]} :: 0 <= k < i && verdicts[k] == v && Following(verdicts, v, k + 1) < i ==>
      links[k] == Following(verdicts, v, k + 1)
  }

  /** The links after packet `i` has been put behind the latest of its verdict. */
  function Put(links: seq<nat>, verdicts: seq<Verdict>, v: Verdict, i: nat): (r: seq<nat>)
    requires i <= |verdicts| == |links|
    ensures |r| == |links|
  {
    var t := Latest(verdicts, v, i);
    if t == |verdicts| then links else links[t := i]
  }

  lemma PutThreads(links: seq<nat>, verdicts: seq<Verdict>, v: Verdict, i: nat)
    requires i < |verdicts| == |links| && verdicts[i] == v && Threaded(links, verdicts, v, i)
    ensures Threaded(Put(links, verdicts, v, i), verdicts, v, i + 1)
  {
    var after, t := Put(links, verdicts, v, i), Latest(verdicts, v, i);
    forall k | 0 <= k < i + 1 && verdicts[k] == v && Following(verdicts, v, k + 1) < i + 1
      ensures after[k] == Following(verdicts, v, k + 1)
    {
      if k == t { LatestIsLast(verdicts, v, i); } else { EarlierIsFollowed(verdicts, v, i, k); }
    }
  }

  lemma PutSparesOthers(links: seq<nat>, verdicts: seq<Verdict>, v: Verdict, other: Verdict, i: nat)
    requires i < |verdicts| == |links| && verdicts[i] == v != other && Threaded(links, verdicts, other, i) && Untouched(links, i)
    ensures Threaded(Put(links, verdicts, v, i), verdicts, other, i + 1) && Untouched(Put(links, verdicts, v, i), i)
  {
    var after := Put(links, verdicts, v, i);
    forall k | 0 <= k < i + 1 && verdicts[k] == other && Following(verdicts, other, k + 1) < i + 1
      ensures after[k] == Following(verdicts, other, k + 1)
    {
      FollowingHasVerdict(verdicts, other, k + 1);
    }
  }

  /** All packets of the verdict are linked in order and the last to nothing. */
  predicate Complete(links: seq<nat>, verdicts: seq<Verdict>, v: Verdict)
    requires |verdicts| == |links|
  {
    forall k {:trigger links[k]} :: 0 <= k < |links| && verdicts[k] == v ==> links[k] == Following(verdicts, v, k + 1)
  }

  lemma EndCompletes(links: seq<nat>, verdicts: seq<Verdict>, v: Verdict)
    requires |verdicts| == |links| && Threaded(links, verdicts, v, |links|)
    ensures Complete(Put(links, verdicts, v, |links|), verdicts, v)
  {
    var after, t := Put(links, verdicts, v, |links|), Latest(verdicts, v, |links|);
    forall k | 0 <= k < |links| && verdicts[k] == v ensures after[k] == Following(verdicts, v, k + 1) {
      if k == t { LatestIsLast(verdicts, v, |links|); } else { EarlierIsFollowed(verdicts, v, |links|, k); }
    }
  }

  /**
   `head` begins a chain of exactly the packets of the verdict, in the order they came: each leads
   to the next of them, and the last to nothing.
   */
  ghost predicate ChainOf(head: Nbl?, nodes: seq<Nbl>, verdicts: seq<Verdict>, v: Verdict)
    reads nodes
  {
    && |verdicts| == |nodes|
    && head == NodeAt(nodes, Following(verdicts, v, 0))
    && forall k {:trigger nodes[k].next} :: 0 <= k < |nodes| && verdicts[k] == v ==>
         nodes[k].next == NodeAt(nodes, Following(verdicts, v, k + 1))
  }

  /** How many of the first `n` packets have the verdict. */
  function Rank(verdicts: seq<Verdict>, v: Verdict, n: nat): nat
    requires n <= |verdicts|
  {
    if n == 0 then 0 else Rank(verdicts, v, n - 1) + (if verdicts[n - 1] == v then 1 else 0)
  }

  lemma RankMore(verdicts: seq<Verdict>, v: Verdict, i: nat)
    requires i < |verdicts|
    ensures Rank(verdicts, v, i + 1) == Rank(verdicts, v, i) + if verdicts[i] == v then 1 else 0
  {
  }

  /** The packets of the verdict, in the order they came. */
  function Selected(nodes: seq<Nbl>, verdicts: seq<Verdict>, v: Verdict): seq<Nbl>
    requires |nodes| == |verdicts|
  {
    if nodes == [] then []
    else
      var n := |nodes| - 1;
      Selected(nodes[..n], verdicts[..n], v) + if verdicts[n] == v then [nodes[n]] else []
  }

  /** Each packet is in the selection of its verdict, behind as many as have the verdict before it. */
  lemma {:induction false} SelectedAt(nodes: seq<Nbl>, verdicts: seq<Verdict>, v: Verdict, i: nat)
    requires i < |nodes| == |verdicts| && verdicts[i] == v
    ensures Rank(verdicts, v, i) < |Selected(nodes, verdicts, v)|
    ensures Selected(nodes, verdicts, v)[Rank(verdicts, v, i)] == nodes[i]
    decreases |nodes|
  {
    var n := |nodes| - 1;
    RankOfPrefix(verdicts, v, n, if i < n then i else n);
    SelectedLength(nodes[..n], verdicts[..n], v);
    if i < n { SelectedAt(nodes[..n], verdicts[..n], v, i); }
  }

  lemma {:induction false} RankOfPrefix(verdicts: seq<Verdict>, v: Verdict, n: nat, i: nat)
    requires i <= n <= |verdicts|
    ensures Rank(verdicts[..n], v, i) == Rank(verdicts, v, i)
    decreases i
  {
    if i > 0 { RankOfPrefix(verdicts, v, n, i - 1); }
  }

  lemma {:induction false} SelectedLength(nodes: seq<Nbl>, verdicts: seq<Verdict>, v: Verdict)
    requires |nodes| == |verdicts|
    ensures |Selected(nodes, verdicts, v)| == Rank(verdicts, v, |verdicts|)
    decreases |nodes|
  {
    if nodes != [] {
      var n := |nodes| - 1;
      SelectedLength(nodes[..n], verdicts[..n], v);
      RankOfPrefix(verdicts, v, n, n);
    }
  }

  /** How often `x` occurs. */
  function Times(nodes: seq<Nbl>, x: Nbl): nat {
    if nodes == [] then 0 else Times(nodes[..|nodes| - 1], x) + if nodes[|nodes| - 1] == x then 1 else 0
  }

  lemma TimesSnoc(nodes: seq<Nbl>, y: Nbl, x: Nbl)
    ensures Times(nodes + [y], x) == Times(nodes, x) + if x == y then 1 else 0
  {
    assert (nodes + [y])[..|nodes|] == nodes;
  }

  lemma {:induction false} TimesIsMultiplicity(nodes: seq<Nbl>, x: Nbl)
    ensures Times(nodes, x) == multiset(nodes)[x]
    decreases |nodes|
  {
    if nodes != [] {
      TimesIsMultiplicity(nodes[..|nodes| - 1], x);
      assert nodes == nodes[..|nodes| - 1] + [nodes[|nodes| - 1]];
    }
  }

  /** Every packet is in the selection of one verdict, as often as it is in the chain. */
  lemma {:induction false} SelectedOnce(nodes: seq<Nbl>, verdicts: seq<Verdict>, x: Nbl)
    requires |nodes| == |verdicts|
    ensures Times(Selected(nodes, verdicts, Onward), x) + Times(Selected(nodes, verdicts, Held), x) == Times(nodes, x)
    decreases |nodes|
  {
    if nodes != [] {
      var n := |nodes| - 1;
      SelectedOnce(nodes[..n], verdicts[..n], x);
      var v := verdicts[n];
      var other := if v == Onward then Held else Onward;
      TimesSnoc(Selected(nodes[..n], verdicts[..n], v), nodes[n], x);
      assert Selected(nodes, verdicts, v) == Selected(nodes[..n], verdicts[..n], v) + [nodes[n]];
      assert Selected(nodes, verdicts, other) == Selected(nodes[..n], verdicts[..n], other);
    }
  }

  lemma SameMultiset(a: seq<Nbl>, b: seq<Nbl>, c: seq<Nbl>)
    requires forall x: Nbl :: Times(a, x) + Times(b, x) == Times(c, x)
    ensures multiset(a) + multiset(b) == multiset(c)
  {
    forall x: Nbl ensures (multiset(a) + multiset(b))[x] == multiset(c)[x] {
      TimesIsMultiplicity(a, x);
      TimesIsMultiplicity(b, x);
      TimesIsMultiplicity(c, x);
    }
  }

  /** Together the two selections are the chain. */
  lemma SelectionsPartition(nodes: seq<Nbl>, verdicts: seq<Verdict>)
    requires |nodes| == |verdicts|
    ensures multiset(Selected(nodes, verdicts, Onward)) + multiset(Selected(nodes, verdicts, Held)) == multiset(nodes)
  {
    var a, b := Selected(nodes, verdicts, Onward), Selected(nodes, verdicts, Held);
    forall x: Nbl ensures Times(a, x) + Times(b, x) == Times(nodes, x) { SelectedOnce(nodes, verdicts, x); }
    SameMultiset(a, b, nodes);
  }

  /** The position of the `k`-th packet of the verdict. */
  lemma {:induction false} PositionOf(verdicts: seq<Verdict>, v: Verdict, k: nat, n: nat) returns (i: nat)
    requires n <= |verdicts| && k < Rank(verdicts, v, n)
    ensures i < n && verdicts[i] == v && Rank(verdicts, v, i) == k
    decreases n
  {
    if k < Rank(verdicts, v, n - 1) { i := PositionOf(verdicts, v, k, n - 1); } else { i := n - 1; }
  }

  lemma {:induction false} RankBefore(verdicts: seq<Verdict>, v: Verdict, i: nat)
    requires i <= |verdicts|
    ensures Rank(verdicts, v, i) == Rank(verdicts, v, Following(verdicts, v, i))
    decreases |verdicts| - i
  {
    if i < |verdicts| && verdicts[i] != v { RankBefore(verdicts, v, i + 1); }
  }

  /** What comes next in the selection is the next packet of the verdict. */
  lemma SelectedNext(nodes: seq<Nbl>, verdicts: seq<Verdict>, v: Verdict, i: nat)
    requires i <= |nodes| == |verdicts|
    ensures NodeAt(Selected(nodes, verdicts, v), Rank(verdicts, v, i)) == NodeAt(nodes, Following(verdicts, v, i))
  {
    var j := Following(verdicts, v, i);
    RankBefore(verdicts, v, i);
    SelectedLength(nodes, verdicts, v);
    FollowingHasVerdict(verdicts, v, i);
    if j < |verdicts| { SelectedAt(nodes, verdicts, v, j); }
  }

  lemma ChainOfSelected(head: Nbl?, nodes: seq<Nbl>, verdicts: seq<Verdict>, v: Verdict)
    requires ChainOf(head, nodes, verdicts, v)
    ensures Chain(head, Selected(nodes, verdicts, v))
  {
    var chosen := Selected(nodes, verdicts, v);
    SelectedNext(nodes, verdicts, v, 0);
    SelectedLength(nodes, verdicts, v);
    forall k | 0 <= k < |chosen| ensures chosen[k].next == NodeAt(chosen, k + 1) {
      var i := PositionOf(verdicts, v, k, |verdicts|);
      SelectedAt(nodes, verdicts, v, i);
      SelectedNext(nodes, verdicts, v, i + 1);
    }
  }

  // ---------- Both chains under construction ----------

  /** A head and a tail of the chain of the verdict's packets among the first `i`. */
  ghost predicate Holds(nodes: seq<Nbl>, verdicts: seq<Verdict>, v: Verdict, i: nat, head: Nbl?, tail: Nbl?)
    requires i <= |verdicts| == |nodes|
  {
    && head == (if Following(verdicts, v, 0) < i then nodes[Following(verdicts, v, 0)] else null)
    && tail == NodeAt(nodes, Latest(verdicts, v, i))
  }

  lemma HoldsNothing(nodes: seq<Nbl>, verdicts: seq<Verdict>, v: Verdict, i: nat, head: Nbl?, tail: Nbl?)
    requires i <= |verdicts| == |nodes| && Holds(nodes, verdicts, v, i, head, tail)
    ensures head == null <==> Latest(verdicts, v, i) == |verdicts|
    ensures head == null <==> tail == null
  {
    LatestIsLast(verdicts, v, i);
    var t := Latest(verdicts, v, i);
    if t < |verdicts| { FollowingIsNext(verdicts, v, 0, t); }
  }

  lemma HoldsMore(nodes: seq<Nbl>, verdicts: seq<Verdict>, v: Verdict, i: nat, head: Nbl?, tail: Nbl?)
    requires i < |verdicts| == |nodes| && Holds(nodes, verdicts, v, i, head, tail) && verdicts[i] == v
    ensures Holds(nodes, verdicts, v, i + 1, if head == null then nodes[i] else head, nodes[i])
  {
    HoldsNothing(nodes, verdicts, v, i, head, tail);
    LatestIsLast(verdicts, v, i);
  }

  lemma HoldsStill(nodes: seq<Nbl>, verdicts: seq<Verdict>, v: Verdict, i: nat, head: Nbl?, tail: Nbl?)
    requires i < |verdicts| == |nodes| && Holds(nodes, verdicts, v, i, head, tail) && verdicts[i] != v
    ensures Holds(nodes, verdicts, v, i + 1, head, tail)
  {
    FollowingHasVerdict(verdicts, v, 0);
  }

  /** Puts packet `i` behind the tail of the chain of its verdict. */
  method Append(head: Nbl?, tail: Nbl?, node: Nbl, ghost nodes: seq<Nbl>, ghost links: seq<nat>, ghost verdicts: seq<Verdict>, ghost v: Verdict, ghost i: nat)
    returns (head': Nbl, tail': Nbl)
    requires Distinct(nodes) && Linked(nodes, links) && i < |nodes| == |verdicts| && node == nodes[i] && verdicts[i] == v
    requires Holds(nodes, verdicts, v, i, head, tail)
    modifies nodes
    ensures Linked(nodes, Put(links, verdicts, v, i))
    ensures Holds(nodes, verdicts, v, i + 1, head', tail')
  {
    HoldsNothing(nodes, verdicts, v, i, head, tail);
    HoldsMore(nodes, verdicts, v, i, head, tail);
    if head == null {
      head' := node;
    } else {
      SetNext(tail, node, nodes, links, Latest(verdicts, v, i), i);
      head' := head;
    }
    tail' := node;
  }

  /** Where a walk that parts a chain has come to. */
  ghost predicate Walking(nodes: seq<Nbl>, links: seq<nat>, verdicts: seq<Verdict>, i: nat, current: Nbl?, passHead: Nbl?, passTail: Nbl?, dropHead: Nbl?, dropTail: Nbl?)
    reads nodes
  {
    && i <= |nodes| == |verdicts| && current == NodeAt(nodes, i)
    && Linked(nodes, links) && Untouched(links, i)
    && Threaded(links, verdicts, Onward, i) && Threaded(links, verdicts, Held, i)
    && Holds(nodes, verdicts, Onward, i, passHead, passTail)
    && Holds(nodes, verdicts, Held, i, dropHead, dropTail)
  }

  method TurnOnward(node: Nbl, head: Nbl?, tail: Nbl?, ghost dropHead: Nbl?, ghost dropTail: Nbl?,
                    ghost nodes: seq<Nbl>, ghost links: seq<nat>, ghost verdicts: seq<Verdict>, ghost i: nat)
    returns (current: Nbl?, head': Nbl?, tail': Nbl?)
    requires Distinct(nodes) && i < |nodes| && Walking(nodes, links, verdicts, i, node, head, tail, dropHead, dropTail)
    requires verdicts[i] == Onward
    modifies nodes
    ensures Walking(nodes, Put(links, verdicts, Onward, i), verdicts, i + 1, current, head', tail', dropHead, dropTail)
  {
    PutThreads(links, verdicts, Onward, i);
    PutSparesOthers(links, verdicts, Onward, Held, i);
    HoldsStill(nodes, verdicts, Held, i, dropHead, dropTail);
    head', tail' := Append(head, tail, node, nodes, links, verdicts, Onward, i);
    current := node.next;
  }

  method TurnHeld(node: Nbl, head: Nbl?, tail: Nbl?, ghost passHead: Nbl?, ghost passTail: Nbl?,
                  ghost nodes: seq<Nbl>, ghost links: seq<nat>, ghost verdicts: seq<Verdict>, ghost i: nat)
    returns (current: Nbl?, head': Nbl?, tail': Nbl?)
    requires Distinct(nodes) && i < |nodes| && Walking(nodes, links, verdicts, i, node, passHead, passTail, head, tail)
    requires verdicts[i] == Held
    modifies nodes
    ensures Walking(nodes, Put(links, verdicts, Held, i), verdicts, i + 1, current, passHead, passTail, head', tail')
  {
    PutThreads(links, verdicts, Held, i);
    PutSparesOthers(links, verdicts, Held, Onward, i);
    HoldsStill(nodes, verdicts, Onward, i, passHead, passTail);
    head', tail' := Append(head, tail, node, nodes, links, verdicts, Held, i);
    current := node.next;
  }

  /** Ends the chain of a verdict at its tail. */
  method Terminate(tail: Nbl?, ghost nodes: seq<Nbl>, ghost links: seq<nat>, ghost verdicts: seq<Verdict>, ghost v: Verdict)
    requires Distinct(nodes) && Linked(nodes, links) && |nodes| == |verdicts|
    requires tail == NodeAt(nodes, Latest(verdicts, v, |nodes|))
    modifies nodes
    ensures Linked(nodes, Put(links, verdicts, v, |nodes|))
  {
    if tail != null { SetNext(tail, null, nodes, links, Latest(verdicts, v, |nodes|), |nodes|); }
  }

  lemma EndSparesOthers(links: seq<nat>, verdicts: seq<Verdict>, v: Verdict, other: Verdict)
    requires |verdicts| == |links| && v != other
    ensures Threaded(links, verdicts, other, |links|) ==> Threaded(Put(links, verdicts, v, |links|), verdicts, other, |links|)
    ensures Complete(links, verdicts, other) ==> Complete(Put(links, verdicts, v, |links|), verdicts, other)
  {
  }

  lemma CompleteIsChain(nodes: seq<Nbl>, links: seq<nat>, verdicts: seq<Verdict>, v: Verdict)
    requires |verdicts| == |nodes| && Linked(nodes, links) && Complete(links, verdicts, v)
    ensures ChainOf(NodeAt(nodes, Following(verdicts, v, 0)), nodes, verdicts, v)
  {
  }

  /** Both chains are terminated. */
  method Finish(passHead: Nbl?, passTail: Nbl?, dropHead: Nbl?, dropTail: Nbl?, ghost nodes: seq<Nbl>, ghost links: seq<nat>, ghost verdicts: seq<Verdict>)
    requires Distinct(nodes) && Walking(nodes, links, verdicts, |nodes|, null, passHead, passTail, dropHead, dropTail)
    modifies nodes
    ensures Chain(passHead, Selected(nodes, verdicts, Onward)) && Chain(dropHead, Selected(nodes, verdicts, Held))
  {
    ghost var n := |nodes|;
    Terminate(passTail, nodes, links, verdicts, Onward);
    EndCompletes(links, verdicts, Onward);
    EndSparesOthers(links, verdicts, Onward, Held);
    ghost var links' := Put(links, verdicts, Onward, n);
    Terminate(dropTail, nodes, links', verdicts, Held);
    EndCompletes(links', verdicts, Held);
    EndSparesOthers(links', verdicts, Held, Onward);
    CompleteIsChain(nodes, Put(links', verdicts, Held, n), verdicts, Onward);
    CompleteIsChain(nodes, Put(links', verdicts, Held, n), verdicts, Held);
    ChainOfSelected(passHead, nodes, verdicts, Onward);
    ChainOfSelected(dropHead, nodes, verdicts, Held);
  }

  // ---------- Receiving ----------

  /** What becomes of each received frame. */
  function ReceiveVerdicts(setting: Setting, frames: seq<Frame>): (r: seq<Verdict>)
    ensures |r| == |frames|
    ensures forall i :: 0 <= i < |frames| ==> r[i] == if PassedOnReceive(Process(setting, true, frames[i])) then Onward else Held
  {
    seq(|frames|, i requires 0 <= i < |frames| => if PassedOnReceive(Process(setting, true, frames[i])) then Onward else Held)
  }

  /**
   `FilterReceiveNetBufferLists` when the packets may be kept: the chain is relinked while it is
   walked, into the packets to pass on and the packets to hold back, each in the order they came.
   */
  method Receive(head: Nbl?, setting: Setting, frames: seq<Frame>, ghost nodes: seq<Nbl>)
    returns (passHead: Nbl?, dropHead: Nbl?, numberOfPass: nat)
    requires Chain(head, nodes) && Distinct(nodes) && |frames| == |nodes|
    modifies nodes
    ensures
      var verdicts := ReceiveVerdicts(setting, frames);
      && Chain(passHead, Selected(nodes, verdicts, Onward)) && Chain(dropHead, Selected(nodes, verdicts, Held))
      && numberOfPass == |Selected(nodes, verdicts, Onward)|
  {
    ghost var verdicts := ReceiveVerdicts(setting, frames);
    ghost var links := ChainIsLinked(head, nodes);
    var passTail, dropTail: Nbl? := null, null;
    passHead, dropHead, numberOfPass := null, null, 0;
    var current := head;
    var i := 0;
    while current != null
      invariant Walking(nodes, links, verdicts, i, current, passHead, passTail, dropHead, dropTail)
      invariant numberOfPass == Rank(verdicts, Onward, i)
      decreases |nodes| - i
    {
      EveryCodeIsHandled(setting, true, frames[i]);
      RankMore(verdicts, Onward, i);
      match Process(setting, true, frames[i]) {
        case Drop | Route | Icmpv6Na =>
          current, dropHead, dropTail := TurnHeld(current, dropHead, dropTail, passHead, passTail, nodes, links, verdicts, i);
          links := Put(links, verdicts, Held, i);
        case CheckingNbl | Pass =>
          current, passHead, passTail := TurnOnward(current, passHead, passTail, dropHead, dropTail, nodes, links, verdicts, i);
          links := Put(links, verdicts, Onward, i);
          numberOfPass := numberOfPass + 1;
      }
      i := i + 1;
    }
    assert numberOfPass == |Selected(nodes, verdicts, Onward)| by { SelectedLength(nodes, verdicts, Onward); }
    Finish(passHead, passTail, dropHead, dropTail, nodes, links, verdicts);
  }

  /**
   The same when the packets may not be kept: each packet to pass on is cut loose, indicated alone
   and put back, so the chain is left as it was.
   */
  method ReceiveTransient(head: Nbl?, setting: Setting, frames: seq<Frame>, ghost nodes: seq<Nbl>) returns (ghost indicated: seq<Nbl>)
    requires Chain(head, nodes) && Distinct(nodes) && |frames| == |nodes|
    modifies nodes
    ensures Chain(head, nodes)
    ensures indicated == Selected(nodes, ReceiveVerdicts(setting, frames), Onward)
  {
    ghost var verdicts := ReceiveVerdicts(setting, frames);
    indicated := [];
    var current := head;
    var i := 0;
    while current != null
      invariant 0 <= i <= |nodes| && current == NodeAt(nodes, i)
      invariant Chain(head, nodes) && indicated == Selected(nodes[..i], verdicts[..i], Onward)
      decreases |nodes| - i
    {
      assert nodes[..i + 1][..i] == nodes[..i] && verdicts[..i + 1][..i] == verdicts[..i];
      if PassedOnReceive(Process(setting, true, frames[i])) {
        indicated := indicated + [current];
        IndicateAlone(current, nodes);
      }
      current := current.next;
      i := i + 1;
    }
    assert nodes[..i] == nodes && verdicts[..i] == verdicts;
  }

  /** The packet's link is cut for the time of the indication and then restored. */
  method IndicateAlone(nbl: Nbl, ghost nodes: seq<Nbl>)
    requires nbl in nodes
    modifies nodes
    ensures forall k {:trigger nodes[k].next} :: 0 <= k < |nodes| ==> nodes[k].next == old(nodes[k].next)
  {
    var tmp := nbl.next;
    nbl.next := null;
    nbl.next := tmp;
  }

  // ---------- Sending ----------

  /** What becomes of each sent frame. */
  function SendVerdicts(setting: Setting, frames: seq<Frame>): (r: seq<Verdict>)
    ensures |r| == |frames|
    ensures forall i :: 0 <= i < |frames| ==> r[i] == if PassedOnSend(Process(setting, false, frames[i])) then Onward else Held
  {
    seq(|frames|, i requires 0 <= i < |frames| => if PassedOnSend(Process(setting, false, frames[i])) then Onward else Held)
  }

  /** The partition in `FilterSendNetBufferLists`. */
  method Send(head: Nbl?, setting: Setting, frames: seq<Frame>, ghost nodes: seq<Nbl>) returns (passHead: Nbl?, dropHead: Nbl?)
    requires Chain(head, nodes) && Distinct(nodes) && |frames| == |nodes|
    modifies nodes
    ensures
      var verdicts := SendVerdicts(setting, frames);
      Chain(passHead, Selected(nodes, verdicts, Onward)) && Chain(dropHead, Selected(nodes, verdicts, Held))
  {
    ghost var verdicts := SendVerdicts(setting, frames);
    ghost var links := ChainIsLinked(head, nodes);
    var passTail, dropTail: Nbl? := null, null;
    passHead, dropHead := null, null;
    var current := head;
    var i := 0;
    while current != null
      invariant Walking(nodes, links, verdicts, i, current, passHead, passTail, dropHead, dropTail)
      decreases |nodes| - i
    {
      EveryCodeIsHandled(setting, false, frames[i]);
      match Process(setting, false, frames[i]) {
        case Pass | Modify =>
          current, passHead, passTail := TurnOnward(current, passHead, passTail, dropHead, dropTail, nodes, links, verdicts, i);
          links := Put(links, verdicts, Onward, i);
        case Drop | Icmpv6Ns =>
          current, dropHead, dropTail := TurnHeld(current, dropHead, dropTail, passHead, passTail, nodes, links, verdicts, i);
          links := Put(links, verdicts, Held, i);
      }
      i := i + 1;
    }
    Finish(passHead, passTail, dropHead, dropTail, nodes, links, verdicts);
  }

  // ---------- The driver's own packets ----------

  /** The packets the driver sent itself are the ones held back. */
  ghost predicate Owned(nodes: seq<Nbl>, owns: seq<Verdict>) {
    |owns| == |nodes| && forall i :: 0 <= i < |nodes| ==> owns[i] == if nodes[i].own then Held else Onward
  }

  /** The packets of the driver among the first `i` are cut loose. */
  predicate Cut(links: seq<nat>, owns: seq<Verdict>, i: nat)
    requires i <= |links| == |owns|
  {
    forall k {:trigger links[k]} :: 0 <= k < i && owns[k] == Held ==> links[k] == |links|
  }

  /** After `i` packets: each of the others leads to the next of them, the last of them to packet `i`. */
  predicate Pruned(links: seq<nat>, owns: seq<Verdict>, i: nat)
    requires i <= |links| == |owns|
  {
    && Threaded(links, owns, Onward, i) && Cut(links, owns, i) && Untouched(links, i)
    && (Latest(owns, Onward, i) < |owns| ==> links[Latest(owns, Onward, i)] == i)
  }

  /** The links after packet `i`, one of the driver's own, has been unlinked. */
  function Unlinked(links: seq<nat>, owns: seq<Verdict>, i: nat): (r: seq<nat>)
    requires i < |links| == |owns|
    ensures |r| == |links|
  {
    var t := Latest(owns, Onward, i);
    if t == |owns| then links[i := |links|] else links[t := i + 1][i := |links|]
  }

  lemma UnlinkPrunes(links: seq<nat>, owns: seq<Verdict>, i: nat)
    requires i < |links| == |owns| && owns[i] == Held && Pruned(links, owns, i)
    ensures Pruned(Unlinked(links, owns, i), owns, i + 1)
  {
    var after := Unlinked(links, owns, i);
    LatestIsLast(owns, Onward, i);
    forall k | 0 <= k < i + 1 && owns[k] == Onward && Following(owns, Onward, k + 1) < i + 1
      ensures after[k] == Following(owns, Onward, k + 1)
    {
      FollowingHasVerdict(owns, Onward, k + 1);
    }
  }

  lemma KeepPrunes(links: seq<nat>, owns: seq<Verdict>, i: nat)
    requires i < |links| == |owns| && owns[i] == Onward && Pruned(links, owns, i)
    ensures Pruned(links, owns, i + 1)
  {
    LatestIsLast(owns, Onward, i);
    forall k | 0 <= k < i + 1 && owns[k] == Onward && Following(owns, Onward, k + 1) < i + 1
      ensures links[k] == Following(owns, Onward, k + 1)
    {
      if k != i && k != Latest(owns, Onward, i) { EarlierIsFollowed(owns, Onward, i, k); }
    }
  }

  lemma PrunedIsComplete(links: seq<nat>, owns: seq<Verdict>)
    requires |links| == |owns| && Pruned(links, owns, |links|)
    ensures Complete(links, owns, Onward)
  {
    LatestIsLast(owns, Onward, |links|);
    forall k | 0 <= k < |links| && owns[k] == Onward ensures links[k] == Following(owns, Onward, k + 1) {
      if k != Latest(owns, Onward, |links|) { EarlierIsFollowed(owns, Onward, |links|, k); }
    }
  }

  /** The walk of `DropOwnerNBL`: `rest` is the first packet kept, or the one that comes next. */
  ghost predicate Dropping(nodes: seq<Nbl>, links: seq<nat>, owns: seq<Verdict>, i: nat, current: Nbl?, rest: Nbl?, prev: Nbl?)
    reads nodes
  {
    && i <= |nodes| == |owns| && current == NodeAt(nodes, i)
    && Linked(nodes, links) && Pruned(links, owns, i)
    && rest == NodeAt(nodes, RestAt(owns, i))
    && prev == NodeAt(nodes, Latest(owns, Onward, i))
  }

  function RestAt(owns: seq<Verdict>, i: nat): nat
    requires i <= |owns|
  {
    if Following(owns, Onward, 0) < i then Following(owns, Onward, 0) else i
  }

  /** The walk has kept something exactly when the rest does not begin with the next packet. */
  lemma RestAndPrev(owns: seq<Verdict>, i: nat)
    requires i < |owns|
    ensures RestAt(owns, i) < i <==> Latest(owns, Onward, i) < |owns|
    ensures RestAt(owns, i + 1) == if owns[i] == Held && RestAt(owns, i) == i then i + 1 else RestAt(owns, i)
  {
    var t := Latest(owns, Onward, i);
    LatestIsLast(owns, Onward, i);
    if t < |owns| { FollowingIsNext(owns, Onward, 0, t); }
    if owns[i] == Onward { FollowingIsNext(owns, Onward, 0, i); } else { FollowingHasVerdict(owns, Onward, 0); }
  }

  method DropOne(drop: Nbl, rest: Nbl?, prev: Nbl?, ghost nodes: seq<Nbl>, ghost links: seq<nat>, ghost owns: seq<Verdict>, ghost i: nat)
    returns (current: Nbl?, rest': Nbl?)
    requires Distinct(nodes) && i < |nodes| && Dropping(nodes, links, owns, i, drop, rest, prev) && owns[i] == Held
    modifies nodes
    ensures Dropping(nodes, Unlinked(links, owns, i), owns, i + 1, current, rest', prev)
  {
    UnlinkPrunes(links, owns, i);
    RestAndPrev(owns, i);
    current, rest' := drop.next, rest;
    if drop != rest {
      ghost var t := Latest(owns, Onward, i);
      SetNext(prev, current, nodes, links, t, i + 1);
      SetNext(drop, null, nodes, links[t := i + 1], i, |nodes|);
    } else {
      rest' := current;
      SetNext(drop, null, nodes, links, i, |nodes|);
    }
  }

  /** `DropOwnerNBL` unlinks the packets the driver sent itself and returns the chain of the others. */
  method DropOwner(head: Nbl?, ghost nodes: seq<Nbl>, ghost owns: seq<Verdict>) returns (rest: Nbl?)
    requires Chain(head, nodes) && Distinct(nodes) && Owned(nodes, owns)
    modifies nodes
    ensures Chain(rest, Selected(nodes, owns, Onward))
    ensures forall k {:trigger nodes[k].next} :: 0 <= k < |nodes| && owns[k] == Held ==> nodes[k].next == null
  {
    ghost var links := ChainIsLinked(head, nodes);
    rest := head;
    var current := head;
    var prev: Nbl? := null;
    ghost var i := 0;
    while current != null
      invariant Dropping(nodes, links, owns, i, current, rest, prev)
      decreases |nodes| - i
    {
      if current.own {
        current, rest := DropOne(current, rest, prev, nodes, links, owns, i);
        links := Unlinked(links, owns, i);
      } else {
        KeepPrunes(links, owns, i);
        RestAndPrev(owns, i);
        prev := current;
        current := current.next;
      }
      i := i + 1;
    }
    PrunedIsComplete(links, owns);
    CompleteIsChain(nodes, links, owns, Onward);
    ChainOfSelected(rest, nodes, owns, Onward);
  }
}

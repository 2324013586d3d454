/**
 Round robin is fair to the servers it prefers: with the list and the statuses unchanged, any
 as many consecutive selections as there are such servers pick each of them exactly once.
 */
module DriverFairness {
  import opened Options
  import opened DriverServers

  /** The positions below `n` of the available servers that are not being checked, in order. */
  function Preferreds(servers: seq<Server>, mode: IpMode, n: nat): (r: seq<nat>)
    requires n <= |servers|
    ensures |r| <= n
  {
    if n == 0 then []
    else Preferreds(servers, mode, n - 1) + (if Preferred(servers[n - 1], mode) then [n - 1] else [])
  }

  function Rank(servers: seq<Server>, mode: IpMode, n: nat): nat
    requires n <= |servers|
  {
    |Preferreds(servers, mode, n)|
  }

  lemma {:induction false} PrefixOfPreferreds(servers: seq<Server>, mode: IpMode, m: nat, n: nat)
    requires m <= n <= |servers|
    ensures Preferreds(servers, mode, m) <= Preferreds(servers, mode, n)
  {
    if m < n { PrefixOfPreferreds(servers, mode, m, n - 1); }
  }

  lemma PreferredAtItsRank(servers: seq<Server>, mode: IpMode, i: nat)
    requires i < |servers| && Preferred(servers[i], mode)
    ensures Rank(servers, mode, i + 1) == Rank(servers, mode, i) + 1
    ensures Rank(servers, mode, i) < Rank(servers, mode, |servers|)
    ensures Preferreds(servers, mode, |servers|)[Rank(servers, mode, i)] == i
  {
    PrefixOfPreferreds(servers, mode, i + 1, |servers|);
  }

  /** The list holds the preferred positions and no others, in increasing order. */
  lemma {:induction false} PreferredsAre(servers: seq<Server>, mode: IpMode, n: nat)
    requires n <= |servers|
    ensures
      var p := Preferreds(servers, mode, n);
      && (forall i :: 0 <= i < |p| ==> p[i] < n && Preferred(servers[p[i]], mode))
      && (forall i, j :: 0 <= i < j < |p| ==> p[i] < p[j])
      && (forall i :: 0 <= i < n && Preferred(servers[i], mode) ==> i in p)
  {
    if n > 0 {
      PreferredsAre(servers, mode, n - 1);
      assert Preferred(servers[n - 1], mode) ==> Preferreds(servers, mode, n)[|Preferreds(servers, mode, n)| - 1] == n - 1;
    }
  }

  lemma {:induction false} PreferredOfRank(servers: seq<Server>, mode: IpMode, n: nat, k: nat)
    requires n <= |servers| && k < Rank(servers, mode, n)
    ensures
      var i := Preferreds(servers, mode, n)[k];
      i < n && Preferred(servers[i], mode) && Rank(servers, mode, i) == k && Rank(servers, mode, i + 1) == k + 1
  {
    if k < Rank(servers, mode, n - 1) { PreferredOfRank(servers, mode, n - 1, k); }
  }

  // ---------- One selection ----------

  /** The preferred server of a given rank. */
  function Nth(servers: seq<Server>, mode: IpMode, rank: nat): Option<nat> {
    var p := Preferreds(servers, mode, |servers|);
    if rank < |p| then Some(p[rank]) else None
  }

  /** After wrapping around, the search finds the first preferred server before the start. */
  lemma {:induction false} SearchWrapped(servers: seq<Server>, mode: IpMode, start: nat, k: nat)
    requires start < |servers| && |servers| <= start + k && k <= |servers|
    ensures
      var i := start + k - |servers|;
      FirstFrom(servers, mode, start, true, k) ==
        if Rank(servers, mode, i) < Rank(servers, mode, start)
        then Nth(servers, mode, Rank(servers, mode, i)) else None
    decreases |servers| - k
  {
    var i := start + k - |servers|;
    PrefixOfPreferreds(servers, mode, start, |servers|);
    if k < |servers| {
      SearchWrapped(servers, mode, start, k + 1);
      if Preferred(servers[i], mode) {
        PreferredAtItsRank(servers, mode, i);
        PrefixOfPreferreds(servers, mode, i + 1, start);
      }
    }
  }

  /** Before the end, it finds the next preferred server, or starts over. */
  lemma {:induction false} SearchAhead(servers: seq<Server>, mode: IpMode, start: nat, k: nat)
    requires start < |servers| && start + k <= |servers|
    ensures
      var p := Preferreds(servers, mode, |servers|);
      FirstFrom(servers, mode, start, true, k) ==
        if Rank(servers, mode, start + k) < |p| then Some(p[Rank(servers, mode, start + k)])
        else FirstFrom(servers, mode, start, true, |servers| - start)
    decreases |servers| - k
  {
    PrefixOfPreferreds(servers, mode, start + k, |servers|);
    if start + k < |servers| {
      SearchAhead(servers, mode, start, k + 1);
      if Preferred(servers[start + k], mode) { PreferredAtItsRank(servers, mode, start + k); }
    }
  }

  /** Whose turn it is among the preferred servers when the poll index has this value. */
  function Turn(servers: seq<Server>, mode: IpMode, index: nat): nat
    requires servers != []
  {
    var r := Rank(servers, mode, PollStart(|servers|, index));
    if r == Rank(servers, mode, |servers|) then 0 else r
  }

  function Next(count: nat, turn: nat): nat {
    if turn + 1 == count then 0 else turn + 1
  }

  lemma SelectionTakesItsTurn(servers: seq<Server>, mode: IpMode, index: nat)
    requires servers != [] && Rank(servers, mode, |servers|) > 0
    ensures
      var p, turn := Preferreds(servers, mode, |servers|), Turn(servers, mode, index);
      && turn < |p|
      && Choose(servers, index, mode, Poll) == (Some(p[turn]), p[turn] + 1)
      && Turn(servers, mode, p[turn] + 1) == Next(|p|, turn)
  {
    var n := |servers|;
    var start, p, turn := PollStart(n, index), Preferreds(servers, mode, n), Turn(servers, mode, index);
    assert turn < |p| by { PrefixOfPreferreds(servers, mode, start, n); }
    assert FirstFrom(servers, mode, start, true, 0) == Some(p[turn]) by { SearchFinds(servers, mode, start); }
    RankOfPick(servers, mode, turn);
  }

  lemma SearchFinds(servers: seq<Server>, mode: IpMode, start: nat)
    requires start < |servers| && Rank(servers, mode, |servers|) > 0
    ensures
      var p, r := Preferreds(servers, mode, |servers|), Rank(servers, mode, start);
      r <= |p| && FirstFrom(servers, mode, start, true, 0) == Some(p[if r == |p| then 0 else r])
  {
    PrefixOfPreferreds(servers, mode, start, |servers|);
    SearchAhead(servers, mode, start, 0);
    if Rank(servers, mode, start) == Rank(servers, mode, |servers|) {
      SearchWrapped(servers, mode, start, |servers| - start);
    }
  }

  lemma RankOfPick(servers: seq<Server>, mode: IpMode, turn: nat)
    requires turn < Rank(servers, mode, |servers|)
    ensures
      var p := Preferreds(servers, mode, |servers|);
      p[turn] < |servers| && Turn(servers, mode, p[turn] + 1) == Next(|p|, turn)
  {
    PreferredOfRank(servers, mode, |servers|, turn);
  }

  // ---------- Any run of selections ----------

  /** The same servers are preferred. */
  ghost predicate Alike(a: seq<Server>, b: seq<Server>, mode: IpMode) {
    |a| == |b| && forall i :: 0 <= i < |a| ==> Preferred(a[i], mode) == Preferred(b[i], mode)
  }

  lemma {:induction false} AlikePreferreds(a: seq<Server>, b: seq<Server>, mode: IpMode, n: nat)
    requires Alike(a, b, mode) && n <= |a|
    ensures Preferreds(a, mode, n) == Preferreds(b, mode, n)
  {
    if n > 0 { AlikePreferreds(a, b, mode, n - 1); }
  }

  /** The positions chosen by consecutive selections, each from the list as it is then. */
  function PollRun(lists: seq<seq<Server>>, index: nat, mode: IpMode): seq<nat> {
    if lists == [] then []
    else
      var (found, index') := Choose(lists[0], index, mode, Poll);
      (if found.Some? then [found.value] else []) + PollRun(lists[1..], index', mode)
  }

  /** `count` turns from a given one. */
  function Rotation(p: seq<nat>, turn: nat, count: nat): seq<nat>
    requires turn < |p|
    decreases count
  {
    if count == 0 then [] else [p[turn]] + Rotation(p, Next(|p|, turn), count - 1)
  }

  lemma {:induction false} RunIsRotation(servers: seq<Server>, lists: seq<seq<Server>>, index: nat, mode: IpMode)
    requires servers != [] && Rank(servers, mode, |servers|) > 0
    requires forall i :: 0 <= i < |lists| ==> Alike(servers, lists[i], mode)
    ensures Turn(servers, mode, index) < Rank(servers, mode, |servers|)
    ensures PollRun(lists, index, mode) == Rotation(Preferreds(servers, mode, |servers|), Turn(servers, mode, index), |lists|)
    decreases |lists|
  {
    var p, turn := Preferreds(servers, mode, |servers|), Turn(servers, mode, index);
    assert turn < |p| by { SelectionTakesItsTurn(servers, mode, index); }
    if lists != [] {
      RunStep(servers, lists, mode, index);
      assert forall i :: 0 <= i < |lists| - 1 ==> lists[1..][i] == lists[i + 1];
      RunIsRotation(servers, lists[1..], p[turn] + 1, mode);
    }
  }

  lemma RunStep(servers: seq<Server>, lists: seq<seq<Server>>, mode: IpMode, index: nat)
    requires servers != [] && lists != [] && Rank(servers, mode, |servers|) > 0 && Alike(servers, lists[0], mode)
    ensures
      var p, turn := Preferreds(servers, mode, |servers|), Turn(servers, mode, index);
      && turn < |p| && Turn(servers, mode, p[turn] + 1) == Next(|p|, turn)
      && PollRun(lists, index, mode) == [p[turn]] + PollRun(lists[1..], p[turn] + 1, mode)
  {
    SelectionTakesItsTurn(servers, mode, index);
    SameTurn(servers, lists[0], mode, index);
    SelectionTakesItsTurn(lists[0], mode, index);
  }

  lemma SameTurn(a: seq<Server>, b: seq<Server>, mode: IpMode, index: nat)
    requires a != [] && Alike(a, b, mode)
    ensures Turn(a, mode, index) == Turn(b, mode, index)
    ensures Preferreds(a, mode, |a|) == Preferreds(b, mode, |b|)
  {
    AlikePreferreds(a, b, mode, |a|);
    AlikePreferreds(a, b, mode, PollStart(|a|, index));
  }

  lemma {:induction false} RotationAhead(p: seq<nat>, turn: nat, count: nat)
    requires turn < |p| && count <= |p|
    ensures Rotation(p, turn, count) == if turn + count <= |p| then p[turn..turn + count] else p[turn..] + p[..turn + count - |p|]
    decreases count
  {
    if count > 0 {
      var next := Next(|p|, turn);
      RotationAhead(p, next, count - 1);
      if turn + count <= |p| {
        assert count > 1 ==> [p[turn]] + p[turn + 1..turn + count] == p[turn..turn + count];
      } else {
        assert [p[turn]] + p[turn + 1..] == p[turn..];
      }
    }
  }

  /** How often `i` occurs. */
  function Times(p: seq<nat>, i: nat): nat {
    if p == [] then 0 else Times(p[..|p| - 1], i) + (if p[|p| - 1] == i then 1 else 0)
  }

  lemma {:induction false} TimesConcat(p: seq<nat>, q: seq<nat>, i: nat)
    ensures Times(p + q, i) == Times(p, i) + Times(q, i)
    decreases |q|
  {
    if q == [] {
      assert p + q == p;
    } else {
      assert (p + q)[..|p + q| - 1] == p + q[..|q| - 1];
      TimesConcat(p, q[..|q| - 1], i);
    }
  }

  lemma RotationTakesAll(p: seq<nat>, turn: nat, i: nat)
    requires turn < |p|
    ensures |Rotation(p, turn, |p|)| == |p| && Times(Rotation(p, turn, |p|), i) == Times(p, i)
  {
    RotationAhead(p, turn, |p|);
    if turn == 0 {
      assert p[0..0 + |p|] == p;
    } else {
      assert p == p[..turn] + p[turn..];
      assert turn + |p| - |p| == turn;
      TimesConcat(p[..turn], p[turn..], i);
      TimesConcat(p[turn..], p[..turn], i);
    }
  }

  lemma {:induction false} PreferredOnce(servers: seq<Server>, mode: IpMode, n: nat, i: nat)
    requires n <= |servers| && i < |servers|
    ensures Times(Preferreds(servers, mode, n), i) == if i < n && Preferred(servers[i], mode) then 1 else 0
  {
    if n > 0 {
      PreferredOnce(servers, mode, n - 1, i);
      TimesConcat(Preferreds(servers, mode, n - 1), if Preferred(servers[n - 1], mode) then [n - 1] else [], i);
    }
  }

  /** Each preferred server is picked exactly once, and no other, wherever the stored index points. */
  lemma RoundRobinIsFair(servers: seq<Server>, lists: seq<seq<Server>>, index: nat, mode: IpMode)
    requires servers != [] && |lists| == Rank(servers, mode, |servers|) > 0
    requires forall i :: 0 <= i < |lists| ==> Alike(servers, lists[i], mode)
    ensures |PollRun(lists, index, mode)| == |lists|
    ensures forall i: nat :: i < |servers| ==>
      Times(PollRun(lists, index, mode), i) == if Preferred(servers[i], mode) then 1 else 0
  {
    var p, turn := Preferreds(servers, mode, |servers|), Turn(servers, mode, index);
    RunIsRotation(servers, lists, index, mode);
    RotationTakesAll(p, turn, 0);
    forall i: nat | i < |servers| ensures Times(Rotation(p, turn, |p|), i) == if Preferred(servers[i], mode) then 1 else 0 {
      RotationTakesAll(p, turn, i);
      PreferredOnce(servers, mode, |servers|, i);
    }
  }

  // ---------- When every available server is being checked ----------

  /** Then there is no rotation: the server picked once is picked again, whatever the others' turn. */
  lemma CheckedServerIsKept(a: seq<Server>, b: seq<Server>, index: nat, mode: IpMode)
    requires |a| == |b| > 0
    requires forall i :: 0 <= i < |a| ==> !Preferred(a[i], mode) && !Preferred(b[i], mode)
    requires forall i :: 0 <= i < |a| ==> Available(a[i], mode) == Available(b[i], mode)
    requires Choose(a, index, mode, Poll).0.Some?
    ensures
      var (found, index') := Choose(a, index, mode, Poll);
      Choose(b, index', mode, Poll) == (found, index')
  {
    var n, start := |a|, PollStart(|a|, index);
    FirstFromFinds(a, mode, start, true, 0);
    LastBeforeFinds(a, mode, start, n);
    var i := LastBefore(a, mode, start, n).value;
    var start' := PollStart(n, i + 1);
    FirstFromFinds(b, mode, start', true, 0);
    assert Wrap(n, start' + (n - 1)) == i;
    assert LastBefore(b, mode, start', n) == Some(i);
  }
}

/**
 The servers behind one adapter, their reference counts, and how one is selected for a new
 connection: round robin and least connections, as in `lcxl_server.c` and `lcxl_func.c`.
 */
module DriverServers {
  import opened Options

  datatype IpMode = IPv4 | IPv6

  /** `id` stands for the entry's address, `refs` for its reference count. */
  datatype Server = Server(
    id: nat, mac: nat, ipv4: bool, ipv6: bool,
    online: bool, checking: bool, deleted: bool,
    refs: int, timestamp: int, retries: int)

  /** `ServerIsAvaliable` */
  predicate Available(s: Server, mode: IpMode) {
    s.online && (if mode == IPv6 then s.ipv6 else s.ipv4) && !s.deleted
  }

  /** Available and not being checked. */
  predicate Preferred(s: Server, mode: IpMode) {
    Available(s, mode) && !s.checking
  }

  // ---------- References ----------

  function Ids(servers: seq<Server>): set<nat> {
    if servers == [] then {} else {servers[0].id} + Ids(servers[1..])
  }

  predicate UniqueIds(servers: seq<Server>) {
    servers != [] ==> servers[0].id !in Ids(servers[1..]) && UniqueIds(servers[1..])
  }

  /** `IncRefListEntry` */
  function Acquire(servers: seq<Server>, id: nat): (r: seq<Server>)
    ensures |r| == |servers|
  {
    if servers == [] then []
    else if servers[0].id == id then [servers[0].(refs := servers[0].refs + 1)] + servers[1..]
    else [servers[0]] + Acquire(servers[1..], id)
  }

  /** `DecRefListEntry`: at 0 the entry leaves the list. */
  function Release(servers: seq<Server>, id: nat): seq<Server> {
    if servers == [] then []
    else if servers[0].id != id then [servers[0]] + Release(servers[1..], id)
    else if servers[0].refs == 1 then servers[1..]
    else [servers[0].(refs := servers[0].refs - 1)] + servers[1..]
  }

  lemma {:induction false} IdAt(servers: seq<Server>, i: nat)
    requires i < |servers|
    ensures servers[i].id in Ids(servers)
  {
    if i > 0 { IdAt(servers[1..], i - 1); }
  }

  lemma {:induction false} AcquireAt(servers: seq<Server>, i: nat)
    requires UniqueIds(servers) && i < |servers|
    ensures Acquire(servers, servers[i].id) == servers[i := servers[i].(refs := servers[i].refs + 1)]
  {
    if i > 0 {
      IdAt(servers[1..], i - 1);
      AcquireAt(servers[1..], i - 1);
    }
  }

  lemma {:induction false} ReleaseUndoesAcquire(servers: seq<Server>, id: nat)
    requires forall i :: 0 <= i < |servers| ==> servers[i].refs >= 1
    ensures Release(Acquire(servers, id), id) == servers
  {
    if servers != [] {
      if servers[0].id == id {
        assert servers == [servers[0]] + servers[1..];
      } else {
        assert forall i :: 0 <= i < |servers| - 1 ==> servers[1..][i] == servers[i + 1];
        ReleaseUndoesAcquire(servers[1..], id);
      }
    }
  }

  // ---------- Least connections ----------

  /** The test by which `s` replaces the best server so far, whose count the scan has raised by one. */
  predicate Beats(s: Server, best: Server) {
    best.refs + 1 > s.refs || (best.checking && !s.checking)
  }

  /** The best of the first `n` servers. */
  function BestOf(servers: seq<Server>, mode: IpMode, n: nat): (best: Option<nat>)
    requires n <= |servers|
    ensures best.Some? ==> best.value < n
  {
    if n == 0 then None
    else
      var best, s := BestOf(servers, mode, n - 1), servers[n - 1];
      if Available(s, mode) && (best.None? || Beats(s, servers[best.value])) then Some(n - 1) else best
  }

  function LeastConnection(servers: seq<Server>, mode: IpMode): (best: Option<nat>)
    ensures best.Some? ==> best.value < |servers|
  {
    BestOf(servers, mode, |servers|)
  }

  lemma {:induction false} BestOfFirst(servers: seq<Server>, mode: IpMode, n: nat)
    requires n <= |servers|
    ensures
      var best := BestOf(servers, mode, n);
      && (best.None? <==> forall i :: 0 <= i < n ==> !Available(servers[i], mode))
      && (best.Some? ==> Available(servers[best.value], mode))
      && (best.Some? ==> forall i :: best.value < i < n && Available(servers[i], mode) ==> !Beats(servers[i], servers[best.value]))
  {
    if n > 0 { BestOfFirst(servers, mode, n - 1); }
  }

  /**
   Every available server after the one chosen has strictly more references and no better checking
   status.
   */
  lemma LeastConnectionChooses(servers: seq<Server>, mode: IpMode)
    ensures
      var best := LeastConnection(servers, mode);
      best.Some? ==>
        var b := servers[best.value];
        forall i :: best.value < i < |servers| && Available(servers[i], mode) ==>
          servers[i].refs > b.refs && !(b.checking && !servers[i].checking)
  {
    BestOfFirst(servers, mode, |servers|);
  }

  /** The last of the first `n` servers that has the fewest references of the available ones. */
  function LastLeast(servers: seq<Server>, mode: IpMode, n: nat): (p: Option<nat>)
    requires n <= |servers|
    ensures p.Some? ==> p.value < n
  {
    if n == 0 then None
    else
      var p, s := LastLeast(servers, mode, n - 1), servers[n - 1];
      if Available(s, mode) && (p.None? || s.refs <= servers[p.value].refs) then Some(n - 1) else p
  }

  lemma {:induction false} LastLeastIs(servers: seq<Server>, mode: IpMode, n: nat)
    requires n <= |servers|
    ensures
      var p := LastLeast(servers, mode, n);
      && (p.None? <==> forall i :: 0 <= i < n ==> !Available(servers[i], mode))
      && (p.Some? ==> Available(servers[p.value], mode))
      && (p.Some? ==> forall i :: 0 <= i < n && Available(servers[i], mode) ==> servers[p.value].refs <= servers[i].refs)
      && (p.Some? ==> forall i :: p.value < i < n && Available(servers[i], mode) ==> servers[p.value].refs < servers[i].refs)
  {
    if n > 0 { LastLeastIs(servers, mode, n - 1); }
  }

  /** Once the scan has come to the last server with the fewest references, that one is the best so far. */
  lemma LeastIsTaken(servers: seq<Server>, mode: IpMode, p: nat)
    requires p < |servers| && LastLeast(servers, mode, |servers|) == Some(p)
    ensures BestOf(servers, mode, p + 1) == Some(p)
  {
    LastLeastIs(servers, mode, |servers|);
    BestOfFirst(servers, mode, p);
  }

  /** The scan keeps it as long as it is not being checked or only checked servers come. */
  lemma {:induction false} LeastIsKept(servers: seq<Server>, mode: IpMode, p: nat, n: nat)
    requires p < n <= |servers| && LastLeast(servers, mode, |servers|) == Some(p)
    ensures
      (BestOf(servers, mode, n) == Some(p) <==>
        !servers[p].checking || forall i :: p < i < n && Available(servers[i], mode) ==> servers[i].checking)
    ensures BestOf(servers, mode, n).Some? && p <= BestOf(servers, mode, n).value
  {
    LastLeastIs(servers, mode, |servers|);
    if n == p + 1 { LeastIsTaken(servers, mode, p); } else { LeastIsKept(servers, mode, p, n - 1); }
  }

  /** No available server has fewer references. */
  predicate FewestReferences(servers: seq<Server>, mode: IpMode, best: nat)
    requires best < |servers|
  {
    forall i :: 0 <= i < |servers| && Available(servers[i], mode) ==> servers[best].refs <= servers[i].refs
  }

  /**
   The choice has the fewest references of all available servers exactly when the last server that
   has them is not being checked, or every available server after it is.
   */
  lemma LeastConnectionExactly(servers: seq<Server>, mode: IpMode)
    requires exists i :: 0 <= i < |servers| && Available(servers[i], mode)
    ensures
      var best, p := LeastConnection(servers, mode), LastLeast(servers, mode, |servers|);
      && best.Some? && p.Some?
      && (FewestReferences(servers, mode, best.value) <==>
            !servers[p.value].checking
            || forall i :: p.value < i < |servers| && Available(servers[i], mode) ==> servers[i].checking)
  {
    var n := |servers|;
    LastLeastIs(servers, mode, n);
    BestOfFirst(servers, mode, n);
    var p, best := LastLeast(servers, mode, n).value, LeastConnection(servers, mode).value;
    LeastIsKept(servers, mode, p, n);
    if best > p { assert servers[p].refs < servers[best].refs; }
  }

  /** If all available servers share one checking status, the choice has the fewest references of all. */
  lemma LeastConnectionIsLeast(servers: seq<Server>, mode: IpMode, checking: bool)
    requires forall i :: 0 <= i < |servers| && Available(servers[i], mode) ==> servers[i].checking == checking
    ensures
      var best := LeastConnection(servers, mode);
      best.Some? ==> FewestReferences(servers, mode, best.value)
  {
    BestOfFirst(servers, mode, |servers|);
    if LeastConnection(servers, mode).Some? {
      LastLeastIs(servers, mode, |servers|);
      LeastConnectionExactly(servers, mode);
    }
  }

  /** A checked server with the fewest references gives way to an unchecked one, and that to a checked one. */
  lemma LeastConnectionMisses(a: Server, b: Server, c: Server, mode: IpMode)
    requires Available(a, mode) && Available(b, mode) && Available(c, mode)
    requires a.checking && !b.checking && c.checking && a.refs < b.refs == c.refs
    ensures LeastConnection([a, b, c], mode) == Some(2) && !FewestReferences([a, b, c], mode, 2)
  {
    assert BestOf([a, b, c], mode, 1) == Some(0);
    assert BestOf([a, b, c], mode, 2) == Some(1);
    assert [a, b, c][0] == a;
  }

  // ---------- Round robin ----------

  /** Position `x` on a circle of `n`, once around at most. */
  function Wrap(n: nat, x: nat): (i: nat)
    requires n > 0 && x < 2 * n
    ensures i < n
  {
    if x < n then x else x - n
  }

  /** The server at an offset from where a search starts. */
  function At(servers: seq<Server>, start: nat, offset: nat): Server
    requires start < |servers| && offset < |servers|
  {
    servers[Wrap(|servers|, start + offset)]
  }

  /** The first server from offset `k` on that is available, preferred if `strict`. */
  function FirstFrom(servers: seq<Server>, mode: IpMode, start: nat, strict: bool, k: nat): (r: Option<nat>)
    requires start < |servers| && k <= |servers|
    ensures r.Some? ==> r.value < |servers|
    decreases |servers| - k
  {
    if k == |servers| then None
    else
      var i := Wrap(|servers|, start + k);
      if Available(servers[i], mode) && !(strict && servers[i].checking) then Some(i)
      else FirstFrom(servers, mode, start, strict, k + 1)
  }

  /** The last available server before offset `k`. */
  function LastBefore(servers: seq<Server>, mode: IpMode, start: nat, k: nat): (r: Option<nat>)
    requires start < |servers| && k <= |servers|
    ensures r.Some? ==> r.value < |servers|
  {
    if k == 0 then None
    else
      var i := Wrap(|servers|, start + (k - 1));
      if Available(servers[i], mode) then Some(i) else LastBefore(servers, mode, start, k - 1)
  }

  /** `FindAvaliableServerFormCurrentServer` */
  function Cyclic(servers: seq<Server>, mode: IpMode, start: nat, checkingLast: bool): (r: Option<nat>)
    requires start < |servers|
    ensures r.Some? ==> r.value < |servers|
  {
    var first := FirstFrom(servers, mode, start, checkingLast, 0);
    if first.Some? then first else LastBefore(servers, mode, start, |servers|)
  }

  /** Where a round-robin search starts. */
  function PollStart(count: nat, index: nat): nat {
    if index >= count then 0 else index
  }

  datatype Algorithm = Poll | LeastConnections

  /** `SelectBestServer`: the server's position, and the poll index afterwards. */
  function Choose(servers: seq<Server>, index: nat, mode: IpMode, algorithm: Algorithm): (r: (Option<nat>, nat))
    ensures r.0.Some? ==> r.0.value < |servers|
  {
    if servers == [] then (None, index)
    else
      match algorithm
      case LeastConnections => (LeastConnection(servers, mode), index)
      case Poll =>
        var start := PollStart(|servers|, index);
        var found := Cyclic(servers, mode, start, true);
        (found, if found.Some? then found.value + 1 else start)
  }

  // ----- What the cyclic search finds -----

  lemma {:induction false} FirstFromFinds(servers: seq<Server>, mode: IpMode, start: nat, strict: bool, k: nat)
    requires start < |servers| && k <= |servers|
    ensures
      var r := FirstFrom(servers, mode, start, strict, k);
      && (r.Some? ==> Available(servers[r.value], mode) && !(strict && servers[r.value].checking))
      && (r.None? ==> forall j :: k <= j < |servers| ==>
            !Available(At(servers, start, j), mode) || (strict && At(servers, start, j).checking))
    decreases |servers| - k
  {
    if k < |servers| { FirstFromFinds(servers, mode, start, strict, k + 1); }
  }

  lemma {:induction false} LastBeforeFinds(servers: seq<Server>, mode: IpMode, start: nat, k: nat)
    requires start < |servers| && k <= |servers|
    ensures
      var r := LastBefore(servers, mode, start, k);
      && (r.Some? ==> Available(servers[r.value], mode))
      && (r.None? ==> forall j :: 0 <= j < k ==> !Available(At(servers, start, j), mode))
  {
    if k > 0 { LastBeforeFinds(servers, mode, start, k - 1); }
  }

  /** Every position is some offset from the start. */
  lemma OffsetOf(n: nat, start: nat, i: nat) returns (j: nat)
    requires start < n && i < n
    ensures j < n && Wrap(n, start + j) == i
  {
    j := if i >= start then i - start else i + n - start;
  }

  /** A search fails only if no server is available; one that is not being checked is found if there is one. */
  lemma CyclicFinds(servers: seq<Server>, mode: IpMode, start: nat, checkingLast: bool)
    requires start < |servers|
    ensures
      var r := Cyclic(servers, mode, start, checkingLast);
      && (r.None? <==> forall i :: 0 <= i < |servers| ==> !Available(servers[i], mode))
      && (r.Some? ==> Available(servers[r.value], mode))
      && (checkingLast && (exists i :: 0 <= i < |servers| && Available(servers[i], mode) && !servers[i].checking) ==>
            r.Some? && !servers[r.value].checking)
  {
    var n := |servers|;
    FirstFromFinds(servers, mode, start, checkingLast, 0);
    LastBeforeFinds(servers, mode, start, n);
    forall i | 0 <= i < n
      ensures Cyclic(servers, mode, start, checkingLast).None? ==> !Available(servers[i], mode)
      ensures checkingLast && Preferred(servers[i], mode) ==> FirstFrom(servers, mode, start, checkingLast, 0).Some?
    {
      var j := OffsetOf(n, start, i);
      assert At(servers, start, j) == servers[i];
    }
  }

  /**
   Whatever the algorithm, the server chosen for a connection is online, not deleted and enabled for
   the connection's protocol, and none is chosen exactly when no listed server is all three.
   */
  lemma ChosenServerIsUsable(servers: seq<Server>, index: nat, mode: IpMode, algorithm: Algorithm)
    ensures
      var position := Choose(servers, index, mode, algorithm).0;
      && (position.Some? ==>
            var s := servers[position.value];
            s.online && !s.deleted && match mode case IPv4 => s.ipv4 case IPv6 => s.ipv6)
      && (position.None? <==> forall i :: 0 <= i < |servers| ==>
            var s := servers[i];
            !s.online || s.deleted || match mode case IPv4 => !s.ipv4 case IPv6 => !s.ipv6)
  {
    if servers != [] {
      match algorithm
      case LeastConnections => BestOfFirst(servers, mode, |servers|);
      case Poll => CyclicFinds(servers, mode, PollStart(|servers|, index), true);
    }
  }

  // ---------- In place ----------

  /** `GetListEntryByIndex`, walking from the head. */
  method EntryByIndex<T>(entries: seq<T>, index: nat) returns (position: Option<nat>)
    ensures position == if index < |entries| then Some(index) else None
  {
    var entry := 0;
    for i := 0 to index
      invariant entry == i && entry <= |entries|
    {
      if entry == |entries| { return None; }
      entry := entry + 1;
    }
    if entry == |entries| { return None; }
    return Some(entry);
  }

  /** `GetListEntryIndex` of the entry with this id. */
  method EntryIndex(servers: seq<Server>, id: nat) returns (index: int)
    ensures -1 <= index < |servers|
    ensures index >= 0 ==> servers[index].id == id
    ensures forall i :: 0 <= i < (if index >= 0 then index else |servers|) ==> servers[i].id != id
  {
    var i := 0;
    while i < |servers| && servers[i].id != id
      invariant 0 <= i <= |servers| && forall j :: 0 <= j < i ==> servers[j].id != id
    {
      i := i + 1;
    }
    return if i < |servers| then i else -1;
  }

  lemma {:induction false} UniqueAt(servers: seq<Server>, i: nat, j: nat)
    requires UniqueIds(servers) && i < j < |servers|
    ensures servers[i].id != servers[j].id
  {
    if i == 0 { IdAt(servers[1..], j - 1); } else { UniqueAt(servers[1..], i - 1, j - 1); }
  }

  class ServerList {
    var servers: seq<Server>
    var pollIndex: nat

    constructor ()
      ensures servers == [] && pollIndex == 0
    {
      servers, pollIndex := [], 0;
    }

    /** Every listed entry is held by someone. */
    ghost predicate Valid()
      reads this
    {
      UniqueIds(servers) && forall i :: 0 <= i < |servers| ==> servers[i].refs >= 1
    }

    method IncRef(id: nat)
      modifies this`servers
      ensures servers == Acquire(old(servers), id)
    {
      servers := Acquire(servers, id);
    }

    method DecRef(id: nat)
      modifies this`servers
      ensures servers == Release(old(servers), id)
    {
      servers := Release(servers, id);
    }

    method FindAvailable(start: nat, mode: IpMode, checkingLast: bool) returns (found: Option<nat>)
      requires start < |servers|
      modifies this`servers
      ensures found == Cyclic(old(servers), mode, start, checkingLast)
      ensures servers == if found.None? then old(servers) else Acquire(old(servers), old(servers)[found.value].id)
    {
      var n := |servers|;
      var current := start;
      var online, checking: Option<nat> := None, None;
      ghost var k := 0;
      var more := true;
      while more
        invariant 0 <= k <= n && current == Wrap(n, start + k) && (more <==> k < n)
        invariant checkingLast ==> checking == LastBefore(servers, mode, start, k)
        invariant !checkingLast ==> checking == None == LastBefore(servers, mode, start, k)
        invariant FirstFrom(servers, mode, start, checkingLast, 0) == FirstFrom(servers, mode, start, checkingLast, k)
        decreases n - k
      {
        if Available(servers[current], mode) {
          if checkingLast && servers[current].checking {
            checking := Some(current);
          } else {
            online := Some(current);
            break;
          }
        }
        current := if current + 1 == n then 0 else current + 1;
        k := k + 1;
        more := current != start;
      }
      if online.None? { online := checking; }
      if online.Some? { IncRef(servers[online.value].id); }
      found := online;
    }

    method SelectBest(mode: IpMode, algorithm: Algorithm) returns (best: Option<nat>)
      requires Valid()
      modifies this
      ensures
        var (position, index) := Choose(old(servers), old(pollIndex), mode, algorithm);
        && pollIndex == index
        && best == (if position.None? then None else Some(old(servers)[position.value].id))
        && servers == if position.None? then old(servers) else Acquire(old(servers), old(servers)[position.value].id)
    {
      best := None;
      if |servers| > 0 {
        match algorithm
        case LeastConnections => best := SelectLeast(mode);
        case Poll => best := SelectPoll(mode);
      }
    }

    method SelectPoll(mode: IpMode) returns (best: Option<nat>)
      requires Valid() && servers != []
      modifies this
      ensures
        var (position, index) := Choose(old(servers), old(pollIndex), mode, Poll);
        && pollIndex == index
        && best == (if position.None? then None else Some(old(servers)[position.value].id))
        && servers == if position.None? then old(servers) else Acquire(old(servers), old(servers)[position.value].id)
    {
      if pollIndex >= |servers| { pollIndex := 0; }
      assert pollIndex == PollStart(|servers|, old(pollIndex));
      assert pollIndex % |servers| == pollIndex;
      var entry := EntryByIndex(servers, pollIndex % |servers|);
      var found := FindAvailable(entry.value, mode, true);
      if found.None? { return None; }
      ghost var before := old(servers);
      assert servers == before[found.value := before[found.value].(refs := before[found.value].refs + 1)] by {
        AcquireAt(before, found.value);
      }
      best := Some(servers[found.value].id);
      var index := EntryIndex(servers, best.value);
      assert index == found.value by {
        if index < found.value { UniqueAt(before, index, found.value); }
      }
      pollIndex := index + 1;
    }

    method SelectLeast(mode: IpMode) returns (best: Option<nat>)
      requires Valid()
      modifies this`servers
      ensures
        var position := LeastConnection(old(servers), mode);
        && best == (if position.None? then None else Some(old(servers)[position.value].id))
        && servers == if position.None? then old(servers) else Acquire(old(servers), old(servers)[position.value].id)
    {
      ghost var before := servers;
      var chosen: Option<nat> := None;
      var i := 0;
      while i < |servers|
        invariant 0 <= i <= |servers| == |before| && chosen == BestOf(before, mode, i)
        invariant servers == if chosen.None? then before else Acquire(before, before[chosen.value].id)
      {
        if chosen.Some? { AcquireAt(before, chosen.value); }
        if Available(servers[i], mode) {
          if chosen.None? || servers[chosen.value].refs > servers[i].refs || (servers[chosen.value].checking && !servers[i].checking) {
            if chosen.Some? {
              ReleaseUndoesAcquire(before, before[chosen.value].id);
              DecRef(servers[chosen.value].id);
            }
            chosen := Some(i);
            IncRef(servers[i].id);
          }
        }
        i := i + 1;
      }
      if chosen.None? { return None; }
      AcquireAt(before, chosen.value);
      return Some(servers[chosen.value].id);
    }
  }
}

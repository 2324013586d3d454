/**
 What every step of the adapter keeps: each listed server has one reference for each of its
 routes, and one for being listed unless it is deleted; routes lead to listed servers, have
 different keys and are open.  A deleted server leaves the list exactly when its last route goes.
 */
module DriverInvariants {
  import opened Options
  import opened DriverServers
  import opened DriverFilter

  // ---------- References and their owners ----------

  /** How often each server is the target of a route. */
  function Owners(routes: seq<Route>): multiset<nat> {
    if routes == [] then multiset{} else multiset{routes[0].server} + Owners(routes[1..])
  }

  /** The reference a server holds for being listed. */
  function Own(s: Server): nat {
    if s.deleted then 0 else 1
  }

  predicate Counted(servers: seq<Server>, owners: multiset<nat>) {
    servers != [] ==>
      && servers[0].refs == Own(servers[0]) + owners[servers[0].id]
      && servers[0].refs >= 1
      && servers[0].id !in Ids(servers[1..])
      && Counted(servers[1..], owners)
  }

  /** Every reference is to a listed server, and every server counts its references. */
  ghost predicate Held(servers: seq<Server>, owners: multiset<nat>) {
    Counted(servers, owners) && forall id :: id in owners ==> id in Ids(servers)
  }

  predicate Deleted(servers: seq<Server>, id: nat) {
    servers != [] && if servers[0].id == id then servers[0].deleted else Deleted(servers[1..], id)
  }

  /** Servers that are not deleted stay; none appear, and none change in that respect. */
  ghost predicate Kept(a: seq<Server>, b: seq<Server>) {
    && (forall id :: id in Ids(a) && !Deleted(a, id) ==> id in Ids(b))
    && (forall id :: id in Ids(b) ==> id in Ids(a) && Deleted(b, id) == Deleted(a, id))
  }

  lemma {:induction false} CountedElsewhere(servers: seq<Server>, owners: multiset<nat>, owners': multiset<nat>, id: nat)
    requires Counted(servers, owners) && id !in Ids(servers)
    requires forall j :: j != id ==> owners[j] == owners'[j]
    ensures Counted(servers, owners')
  {
    if servers != [] { CountedElsewhere(servers[1..], owners, owners', id); }
  }

  lemma {:induction false} AcquireCounted(servers: seq<Server>, owners: multiset<nat>, id: nat)
    requires Counted(servers, owners)
    ensures Counted(Acquire(servers, id), owners + multiset{id})
    ensures Ids(Acquire(servers, id)) == Ids(servers)
    ensures forall j :: Deleted(Acquire(servers, id), j) == Deleted(servers, j)
  {
    if servers != [] {
      if servers[0].id == id {
        CountedElsewhere(servers[1..], owners, owners + multiset{id}, id);
      } else {
        AcquireCounted(servers[1..], owners, id);
      }
    }
  }

  lemma {:induction false} ReleaseCounted(servers: seq<Server>, owners: multiset<nat>, id: nat)
    requires Counted(servers, owners) && id in owners
    ensures Counted(Release(servers, id), owners - multiset{id})
    ensures forall j :: j in Ids(Release(servers, id)) ==> j in Ids(servers) && Deleted(Release(servers, id), j) == Deleted(servers, j)
    ensures forall j :: j in Ids(servers) && (j != id || !Deleted(servers, j) || owners[j] > 1) ==> j in Ids(Release(servers, id))
  {
    if servers != [] {
      if servers[0].id == id {
        CountedElsewhere(servers[1..], owners, owners - multiset{id}, id);
      } else {
        ReleaseCounted(servers[1..], owners, id);
      }
    }
  }

  lemma AcquireHeld(servers: seq<Server>, owners: multiset<nat>, id: nat)
    requires Held(servers, owners) && id in Ids(servers)
    ensures Held(Acquire(servers, id), owners + multiset{id}) && Kept(servers, Acquire(servers, id))
  {
    AcquireCounted(servers, owners, id);
  }

  lemma ReleaseHeld(servers: seq<Server>, owners: multiset<nat>, id: nat)
    requires Held(servers, owners) && id in owners
    ensures Held(Release(servers, id), owners - multiset{id}) && Kept(servers, Release(servers, id))
  {
    ReleaseCounted(servers, owners, id);
  }

  lemma {:induction false} ReleaseAllHeld(servers: seq<Server>, owners: multiset<nat>, gone: seq<Route>)
    requires Held(servers, owners + Owners(gone))
    ensures Held(ReleaseAll(servers, gone), owners) && Kept(servers, ReleaseAll(servers, gone))
    decreases |gone|
  {
    if gone == [] {
      assert owners + multiset{} == owners;
    } else {
      var id := gone[0].server;
      assert owners + Owners(gone) == owners + Owners(gone[1..]) + multiset{id};
      ReleaseHeld(servers, owners + Owners(gone), id);
      assert owners + Owners(gone) - multiset{id} == owners + Owners(gone[1..]);
      ReleaseAllHeld(Release(servers, id), owners, gone[1..]);
    }
  }

  /** Nothing the counting looks at differs. */
  ghost predicate SameCounts(a: seq<Server>, b: seq<Server>) {
    |a| == |b| && forall i :: 0 <= i < |a| ==> b[i].id == a[i].id && b[i].refs == a[i].refs && b[i].deleted == a[i].deleted
  }

  lemma {:induction false} SameCountsHeld(a: seq<Server>, b: seq<Server>, owners: multiset<nat>)
    requires SameCounts(a, b) && Counted(a, owners)
    ensures Counted(b, owners) && Ids(a) == Ids(b) && forall id :: Deleted(a, id) == Deleted(b, id)
  {
    if a != [] {
      assert forall i :: 0 <= i < |a| - 1 ==> a[1..][i] == a[i + 1] && b[1..][i] == b[i + 1];
      SameCountsHeld(a[1..], b[1..], owners);
    }
  }

  lemma {:induction false} AppendCounted(servers: seq<Server>, s: Server, owners: multiset<nat>)
    requires Counted(servers, owners) && s.id !in Ids(servers) && s.refs == Own(s) + owners[s.id] && s.refs >= 1
    ensures Counted(servers + [s], owners) && Ids(servers + [s]) == Ids(servers) + {s.id}
    ensures forall id :: id in Ids(servers) ==> Deleted(servers + [s], id) == Deleted(servers, id)
  {
    if servers == [] {
      assert [] + [s] == [s] && [s][1..] == [];
    } else {
      assert (servers + [s])[1..] == servers[1..] + [s];
      AppendCounted(servers[1..], s, owners);
    }
  }

  /** Marking a server as deleted turns its own reference into one owed to the caller. */
  lemma {:induction false} MarkCounted(servers: seq<Server>, owners: multiset<nat>, i: nat)
    requires Counted(servers, owners) && i < |servers| && !servers[i].deleted
    ensures
      var marked := servers[i := servers[i].(deleted := true)];
      && Counted(marked, owners + multiset{servers[i].id}) && Ids(marked) == Ids(servers)
      && servers[i].id in Ids(servers)
      && (forall id :: id != servers[i].id ==> Deleted(marked, id) == Deleted(servers, id))
      && Deleted(marked, servers[i].id)
  {
    var id := servers[i].id;
    if i == 0 {
      CountedElsewhere(servers[1..], owners, owners + multiset{id}, id);
    } else {
      MarkCounted(servers[1..], owners, i - 1);
      assert servers[i := servers[i].(deleted := true)][1..] == servers[1..][i - 1 := servers[i].(deleted := true)];
    }
  }

  lemma {:induction false} DeletedIsOwned(servers: seq<Server>, owners: multiset<nat>, id: nat)
    requires Counted(servers, owners) && id in Ids(servers) && Deleted(servers, id)
    ensures id in owners
  {
    if servers[0].id != id { DeletedIsOwned(servers[1..], owners, id); }
  }

  lemma {:induction false} CountedIsValid(servers: seq<Server>, owners: multiset<nat>)
    requires Counted(servers, owners)
    ensures UniqueIds(servers) && forall i :: 0 <= i < |servers| ==> servers[i].refs >= 1
  {
    if servers != [] { CountedIsValid(servers[1..], owners); }
  }

  // ---------- Routes ----------

  function Keys(routes: seq<Route>): set<Key> {
    if routes == [] then {} else {routes[0].key} + Keys(routes[1..])
  }

  predicate UniqueKeys(routes: seq<Route>) {
    routes != [] ==> routes[0].key !in Keys(routes[1..]) && UniqueKeys(routes[1..])
  }

  predicate Open(r: Route) {
    r.status == Normal || r.status == LastAck
  }

  predicate AllOpen(routes: seq<Route>) {
    forall i :: 0 <= i < |routes| ==> Open(routes[i])
  }

  lemma {:induction false} OwnersConcat(a: seq<Route>, b: seq<Route>)
    ensures Owners(a + b) == Owners(a) + Owners(b)
  {
    if a == [] {
      assert a + b == b;
    } else {
      assert (a + b)[1..] == a[1..] + b;
      OwnersConcat(a[1..], b);
    }
  }

  lemma OwnersOne(r: Route)
    ensures Owners([r]) == multiset{r.server}
  {
    assert [r][1..] == [];
  }

  lemma {:induction false} KeysConcat(a: seq<Route>, b: seq<Route>)
    ensures Keys(a + b) == Keys(a) + Keys(b)
  {
    if a == [] {
      assert a + b == b;
    } else {
      assert (a + b)[1..] == a[1..] + b;
      KeysConcat(a[1..], b);
    }
  }

  lemma KeysInsert(a: seq<Route>, r: Route, b: seq<Route>)
    ensures Keys(a + [r] + b) == Keys(a) + {r.key} + Keys(b)
  {
    KeysConcat(a + [r], b);
    KeysConcat(a, [r]);
    assert Keys([r]) == {r.key} by { assert [r][1..] == []; }
  }

  lemma {:induction false} InsertUnique(a: seq<Route>, r: Route, b: seq<Route>)
    requires UniqueKeys(a + b) && r.key !in Keys(a) && r.key !in Keys(b)
    ensures UniqueKeys(a + [r] + b)
  {
    if a == [] {
      assert a + b == b && a + [r] + b == [r] + b;
    } else {
      assert (a + b)[1..] == a[1..] + b && (a + [r] + b)[1..] == a[1..] + [r] + b;
      InsertUnique(a[1..], r, b);
      KeysConcat(a[1..], b);
      KeysInsert(a[1..], r, b);
    }
  }

  /** What a scan leaves. */
  lemma {:induction false} SweepKeeps(routes: seq<Route>, key: Key, now: int, limit: int)
    requires UniqueKeys(routes) && AllOpen(routes)
    ensures
      var r := Sweep(routes, key, now, limit);
      && UniqueKeys(r.before + r.after) && AllOpen(r.before) && AllOpen(r.after) && AllOpen(Matched(r))
      && Keys(r.before) + Keys(r.after) <= Keys(routes)
      && key !in Keys(r.before) && key !in Keys(r.after)
      && (r.found.None? ==> r.after == [])
  {
    if routes != [] {
      var r := Sweep(routes, key, now, limit);
      if routes[0].key == key {
        assert [] + r.after == r.after;
      } else {
        assert forall i :: 0 <= i < |routes| - 1 ==> routes[1..][i] == routes[i + 1];
        SweepKeeps(routes[1..], key, now, limit);
        if !Expired(routes[0], now, limit) {
          var rest := Sweep(routes[1..], key, now, limit);
          assert (r.before + r.after)[1..] == rest.before + rest.after;
          KeysConcat(rest.before, rest.after);
        }
      }
    }
  }

  lemma OwnersCons(r: Route, rest: seq<Route>)
    ensures Owners([r] + rest) == multiset{r.server} + Owners(rest)
  {
    assert ([r] + rest)[1..] == rest;
  }

  /** The elements of a sum may be taken in any order. */
  lemma Reorder(x: multiset<nat>, a: multiset<nat>, m: multiset<nat>, b: multiset<nat>, g: multiset<nat>)
    ensures x + (a + m + b + g) == (x + a) + m + b + g == a + m + b + (x + g)
  {
  }

  lemma {:induction false} SweepOwners(routes: seq<Route>, key: Key, now: int, limit: int)
    ensures
      var r := Sweep(routes, key, now, limit);
      Owners(routes) == Owners(r.before) + Owners(Matched(r)) + Owners(r.after) + Owners(r.gone)
  {
    if routes != [] {
      var r := Sweep(routes, key, now, limit);
      if routes[0].key == key {
        OwnersOne(r.found.value);
      } else {
        var rest := Sweep(routes[1..], key, now, limit);
        SweepOwners(routes[1..], key, now, limit);
        assert Matched(r) == Matched(rest);
        Reorder(multiset{routes[0].server}, Owners(rest.before), Owners(Matched(rest)), Owners(rest.after), Owners(rest.gone));
        OwnersCons(routes[0], if Expired(routes[0], now, limit) then rest.gone else rest.before);
      }
    }
  }

  // ---------- The invariant ----------

  /** The addresses of different servers differ. */
  predicate UniqueMacs(servers: seq<Server>) {
    forall i, j :: 0 <= i < j < |servers| ==> servers[i].mac != servers[j].mac
  }

  ghost predicate Inv(st: State) {
    && Held(st.servers, Owners(st.routes))
    && (forall id :: id in Ids(st.servers) ==> id < st.nextId)
    && UniqueMacs(st.servers)
    && UniqueKeys(st.routes) && AllOpen(st.routes)
  }

  /** The deleted bit of a server that is added is that of the server it overwrites, and off for a new one. */
  predicate Allowed(st: State, step: Step) {
    match step
    case AddServer(info, _) =>
      var i := FindServer(st.servers, info.mac);
      info.deleted == (i.Some? && st.servers[i.value].deleted)
    case _ => true
  }

  lemma {:induction false} FindServerMisses(servers: seq<Server>, mac: nat)
    requires FindServer(servers, mac).None?
    ensures forall i :: 0 <= i < |servers| ==> servers[i].mac != mac
  {
    if servers != [] { FindServerMisses(servers[1..], mac); }
  }

  /** Removing a reference leaves the addresses different. */
  lemma {:induction false} ReleaseKeepsMacs(servers: seq<Server>, id: nat)
    requires UniqueMacs(servers)
    ensures UniqueMacs(Release(servers, id))
    ensures forall i :: 0 <= i < |Release(servers, id)| ==> exists j :: 0 <= j < |servers| && Release(servers, id)[i].mac == servers[j].mac
  {
    if servers != [] {
      assert UniqueMacs(servers[1..]) by { assert forall i :: 0 <= i < |servers| - 1 ==> servers[1..][i] == servers[i + 1]; }
      ReleaseKeepsMacs(servers[1..], id);
      forall i | 0 <= i < |Release(servers, id)| ensures exists j :: 0 <= j < |servers| && Release(servers, id)[i].mac == servers[j].mac {
        if servers[0].id == id && servers[0].refs == 1 {
          assert Release(servers, id)[i] == servers[i + 1];
        } else if i == 0 {
          assert Release(servers, id)[i].mac == servers[0].mac;
        } else if servers[0].id == id {
          assert Release(servers, id)[i] == servers[i];
        } else {
          var rest := Release(servers[1..], id);
          assert Release(servers, id)[i] == rest[i - 1];
          var j :| 0 <= j < |servers[1..]| && rest[i - 1].mac == servers[1..][j].mac;
          assert servers[1..][j] == servers[j + 1];
        }
      }
    }
  }

  lemma {:induction false} ReleaseAllKeepsMacs(servers: seq<Server>, gone: seq<Route>)
    requires UniqueMacs(servers)
    ensures UniqueMacs(ReleaseAll(servers, gone))
    decreases |gone|
  {
    if gone != [] {
      ReleaseKeepsMacs(servers, gone[0].server);
      ReleaseAllKeepsMacs(Release(servers, gone[0].server), gone[1..]);
    }
  }

  lemma {:induction false} AcquireKeepsMacs(servers: seq<Server>, id: nat)
    ensures forall i :: 0 <= i < |servers| ==> Acquire(servers, id)[i].mac == servers[i].mac
  {
    if servers != [] { AcquireKeepsMacs(servers[1..], id); }
  }

  // ---------- Steps that touch no route ----------

  lemma AddKeepsInv(st: State, info: Info, now: int)
    requires Inv(st) && Allowed(st, AddServer(info, now))
    ensures Inv(Add(st, info, now))
  {
    var owners := Owners(st.routes);
    match FindServer(st.servers, info.mac)
    case Some(i) => SameCountsHeld(st.servers, Add(st, info, now).servers, owners);
    case None =>
      FindServerMisses(st.servers, info.mac);
      AppendCounted(st.servers, WithInfo(Allocated(st.nextId, now), info), owners);
  }

  /** Adding a server keeps the invariant in no other case. */
  lemma AddKeepsInvExactly(st: State, info: Info, now: int)
    requires Inv(st)
    ensures Inv(Add(st, info, now)) <==> Allowed(st, AddServer(info, now))
  {
    if Allowed(st, AddServer(info, now)) {
      AddKeepsInv(st, info, now);
    } else if Inv(Add(st, info, now)) {
      var owners, servers := Owners(st.routes), Add(st, info, now).servers;
      match FindServer(st.servers, info.mac) {
        case Some(i) =>
          CountOf(st.servers, owners, i);
          CountOf(servers, owners, i);
        case None =>
          CountOf(servers, owners, |st.servers|);
      }
    }
  }

  lemma DeleteKeepsInv(st: State, mac: nat)
    requires Inv(st)
    ensures Inv(Delete(st, mac))
  {
    var found := FindServer(st.servers, mac);
    if found.Some? && !st.servers[found.value].deleted {
      var i, owners := found.value, Owners(st.routes);
      var id := st.servers[i].id;
      var marked := st.servers[i := st.servers[i].(deleted := true)];
      MarkCounted(st.servers, owners, i);
      assert Held(Release(marked, id), owners) && Kept(marked, Release(marked, id)) by {
        ReleaseHeld(marked, owners + multiset{id}, id);
        assert owners + multiset{id} - multiset{id} == owners;
      }
      assert UniqueMacs(Release(marked, id)) by { ReleaseKeepsMacs(marked, id); }
    }
  }

  lemma {:induction false} TickAllAt(cfg: Config, servers: seq<Server>, now: int, i: nat)
    requires i < |servers|
    ensures TickAll(cfg, servers, now)[i] == TickServer(cfg, servers[i], now)
  {
    if i > 0 { TickAllAt(cfg, servers[1..], now, i - 1); }
  }

  lemma TickKeepsCounts(cfg: Config, servers: seq<Server>, now: int)
    ensures SameCounts(servers, TickAll(cfg, servers, now))
    ensures forall i :: 0 <= i < |servers| ==> TickAll(cfg, servers, now)[i].mac == servers[i].mac
  {
    forall i | 0 <= i < |servers| ensures TickAll(cfg, servers, now)[i] == TickServer(cfg, servers[i], now) {
      TickAllAt(cfg, servers, now, i);
    }
  }

  // ---------- Packets ----------

  /** After the scan of the route table. */
  lemma SweepKeepsInv(cfg: Config, st: State, key: Key, now: int)
    requires Inv(st)
    ensures
      var swept := Sweep(st.routes, key, now, cfg.routeLimit);
      var servers := ReleaseAll(st.servers, swept.gone);
      && Held(servers, Owners(swept.before) + Owners(Matched(swept)) + Owners(swept.after))
      && Kept(st.servers, servers) && UniqueMacs(servers)
  {
    var swept := Sweep(st.routes, key, now, cfg.routeLimit);
    SweepOwners(st.routes, key, now, cfg.routeLimit);
    ReleaseAllHeld(st.servers, Owners(swept.before) + Owners(Matched(swept)) + Owners(swept.after), swept.gone);
    ReleaseAllKeepsMacs(st.servers, swept.gone);
  }

  // The table after a packet: what the scan left, with or without an entry in place of the match.

  lemma OpenConcat(a: seq<Route>, b: seq<Route>)
    requires AllOpen(a) && AllOpen(b)
    ensures AllOpen(a + b)
  {
  }

  lemma TableWith(before: seq<Route>, r: Route, after: seq<Route>)
    requires UniqueKeys(before + after) && AllOpen(before) && AllOpen(after)
    requires Open(r) && r.key !in Keys(before) && r.key !in Keys(after)
    ensures UniqueKeys(before + [r] + after) && AllOpen(before + [r] + after)
    ensures Owners(before + [r] + after) == Owners(before) + multiset{r.server} + Owners(after)
  {
    InsertUnique(before, r, after);
    OpenConcat(before, [r]);
    OpenConcat(before + [r], after);
    OwnersConcat(before, [r]);
    OwnersConcat(before + [r], after);
    OwnersOne(r);
  }

  lemma TableWithout(before: seq<Route>, after: seq<Route>)
    requires UniqueKeys(before + after) && AllOpen(before) && AllOpen(after)
    ensures UniqueKeys(before + after) && AllOpen(before + after)
    ensures Owners(before + after) == Owners(before) + Owners(after)
  {
    OwnersConcat(before, after);
  }

  lemma FrontInsert(routes: seq<Route>, r: Route)
    requires UniqueKeys(routes) && AllOpen(routes) && Open(r) && r.key !in Keys(routes)
    ensures UniqueKeys([r] + routes) && AllOpen([r] + routes) && Owners([r] + routes) == multiset{r.server} + Owners(routes)
  {
    assert ([r] + routes)[1..] == routes;
  }

  /** What is known between the scan and the rest of the step. */
  ghost predicate Scanned(st: State, key: Key, swept: Swept) {
    && Held(st.servers, Owners(swept.before) + Owners(Matched(swept)) + Owners(swept.after))
    && (forall id :: id in Ids(st.servers) ==> id < st.nextId) && UniqueMacs(st.servers)
    && UniqueKeys(swept.before + swept.after) && AllOpen(swept.before) && AllOpen(swept.after)
    && key !in Keys(swept.before) && key !in Keys(swept.after)
    && (swept.found.None? ==> swept.after == [])
    && (swept.found.Some? ==> swept.found.value.key == key && Open(swept.found.value))
  }

  lemma Take(x: multiset<nat>, s: nat, y: multiset<nat>)
    ensures x + multiset{s} + y - multiset{s} == x + y
    ensures s in x + multiset{s} + y
  {
  }

  lemma Swap(x: multiset<nat>, s: nat, y: multiset<nat>, t: nat)
    ensures x + multiset{s} + y + multiset{t} - multiset{s} == x + multiset{t} + y
    ensures s in x + multiset{s} + y + multiset{t}
  {
  }

  lemma RefusedKeepsInv(st: State, key: Key, index: nat, swept: Swept)
    requires Scanned(st, key, swept)
    ensures Inv(st.(pollIndex := index, routes := Remaining(swept)))
  {
    if swept.found.None? {
      TableWithout(swept.before, []);
      assert Remaining(swept) == swept.before == swept.before + [];
    } else {
      OwnersOne(swept.found.value);
      TableWith(swept.before, swept.found.value, swept.after);
    }
  }

  lemma CreatedKeepsInv(st: State, key: Key, index: nat, swept: Swept, id: nat, now: int)
    requires Scanned(st, key, swept) && swept.found.None? && id in Ids(st.servers)
    ensures
      var st' := st.(servers := Acquire(st.servers, id), pollIndex := index, routes := [Route(key, Normal, id, now)] + swept.before);
      Inv(st') && Kept(st.servers, st'.servers)
  {
    assert swept.before + [] == swept.before;
    assert Owners(swept.before) + multiset{} + multiset{} == Owners(swept.before);
    FrontInsert(swept.before, Route(key, Normal, id, now));
    AcquireHeld(st.servers, Owners(swept.before), id);
    assert Owners(swept.before) + multiset{id} == multiset{id} + Owners(swept.before);
    AcquireCounted(st.servers, Owners(swept.before), id);
    AcquireKeepsMacs(st.servers, id);
  }

  /** A reference to `s` gives way to one to `id`. */
  lemma ReferenceMoves(servers: seq<Server>, x: multiset<nat>, s: nat, y: multiset<nat>, id: nat)
    requires Held(servers, x + multiset{s} + y) && UniqueMacs(servers) && id in Ids(servers)
    ensures
      var moved := Release(Acquire(servers, id), s);
      Held(moved, x + multiset{id} + y) && Kept(servers, moved) && UniqueMacs(moved)
  {
    var acquired := Acquire(servers, id);
    AcquireHeld(servers, x + multiset{s} + y, id);
    Swap(x, s, y, id);
    ReleaseHeld(acquired, x + multiset{s} + y + multiset{id}, s);
    KeptTwice(servers, acquired, Release(acquired, s));
    AcquireKeepsMacs(servers, id);
    ReleaseKeepsMacs(acquired, s);
  }

  lemma ReboundKeepsInv(st: State, key: Key, index: nat, swept: Swept, id: nat, now: int)
    requires Scanned(st, key, swept) && swept.found.Some? && id in Ids(st.servers)
    ensures
      var st' := st.(servers := Release(Acquire(st.servers, id), swept.found.value.server), pollIndex := index,
                     routes := swept.before + [Route(key, Normal, id, now)] + swept.after);
      Inv(st') && Kept(st.servers, st'.servers)
  {
    OwnersOne(swept.found.value);
    ReferenceMoves(st.servers, Owners(swept.before), swept.found.value.server, Owners(swept.after), id);
    TableWith(swept.before, Route(key, Normal, id, now), swept.after);
  }

  lemma ConnectKeepsInv(cfg: Config, st: State, key: Key, now: int, swept: Swept)
    requires Scanned(st, key, swept)
    ensures Inv(Connect(cfg, st, key, now, swept).1) && Kept(st.servers, Connect(cfg, st, key, now, swept).1.servers)
  {
    var (position, index) := Choose(st.servers, st.pollIndex, key.mode, cfg.algorithm);
    match position
    case None => RefusedKeepsInv(st, key, index, swept);
    case Some(i) =>
      IdAt(st.servers, i);
      if swept.found.None? {
        CreatedKeepsInv(st, key, index, swept, st.servers[i].id, now);
      } else {
        ReboundKeepsInv(st, key, index, swept, st.servers[i].id, now);
      }
  }

  /** A packet of an open connection: its route moves on, or goes. */
  lemma AdvancedKeepsInv(st: State, key: Key, swept: Swept, status: RouteStatus)
    requires Scanned(st, key, swept) && swept.found.Some? && (status == Normal || status == LastAck)
    ensures Inv(st.(routes := swept.before + [swept.found.value.(status := status)] + swept.after))
  {
    OwnersOne(swept.found.value);
    TableWith(swept.before, swept.found.value.(status := status), swept.after);
  }

  lemma ClosedKeepsInv(st: State, key: Key, swept: Swept)
    requires Scanned(st, key, swept) && swept.found.Some?
    ensures
      var servers := Release(st.servers, swept.found.value.server);
      Inv(st.(servers := servers, routes := swept.before + swept.after)) && Kept(st.servers, servers)
  {
    var s := swept.found.value.server;
    OwnersOne(swept.found.value);
    Take(Owners(swept.before), s, Owners(swept.after));
    ReleaseHeld(st.servers, Owners(swept.before) + multiset{s} + Owners(swept.after), s);
    ReleaseKeepsMacs(st.servers, s);
    TableWithout(swept.before, swept.after);
  }

  lemma ScanIsSound(cfg: Config, st: State, key: Key, now: int)
    requires Inv(st)
    ensures
      var swept := Sweep(st.routes, key, now, cfg.routeLimit);
      var servers := ReleaseAll(st.servers, swept.gone);
      Scanned(st.(servers := servers), key, swept) && Kept(st.servers, servers)
  {
    SweepKeepsInv(cfg, st, key, now);
    SweepKeeps(st.routes, key, now, cfg.routeLimit);
    var swept := Sweep(st.routes, key, now, cfg.routeLimit);
    if swept.found.Some? { assert Open(Matched(swept)[0]); }
  }

  lemma KeptTwice(a: seq<Server>, b: seq<Server>, c: seq<Server>)
    requires Kept(a, b) && Kept(b, c)
    ensures Kept(a, c)
  {
  }

  lemma RouteKeepsInv(cfg: Config, st: State, key: Key, flags: Flags, now: int)
    requires Inv(st)
    ensures Inv(RouteTcp(cfg, st, key, flags, now).1) && Kept(st.servers, RouteTcp(cfg, st, key, flags, now).1.servers)
  {
    var swept := Sweep(st.routes, key, now, cfg.routeLimit);
    var scanned := st.(servers := ReleaseAll(st.servers, swept.gone));
    ScanIsSound(cfg, st, key, now);
    var st' := RouteTcp(cfg, st, key, flags, now).1;
    assert Inv(st') && Kept(scanned.servers, st'.servers) by {
      if flags == TH_SYN {
        ConnectKeepsInv(cfg, scanned, key, now, swept);
      } else if swept.found.None? {
        RefusedKeepsInv(scanned, key, st.pollIndex, swept);
        assert Remaining(swept) == swept.before;
      } else if NextStatus(swept.found.value.status, flags) == Closed {
        ClosedKeepsInv(scanned, key, swept);
      } else {
        AdvancedKeepsInv(scanned, key, swept, NextStatus(swept.found.value.status, flags));
      }
    }
    KeptTwice(st.servers, scanned.servers, st'.servers);
  }

  // ---------- Every step and every run ----------

  lemma ApplyKeepsInv(cfg: Config, st: State, step: Step)
    requires Inv(st) && Allowed(st, step)
    ensures Inv(Apply(cfg, st, step))
  {
    match step
    case AddServer(info, now) => AddKeepsInv(st, info, now);
    case DeleteServer(mac) => DeleteKeepsInv(st, mac);
    case Tick(now) =>
      TickKeepsCounts(cfg, st.servers, now);
      SameCountsHeld(st.servers, TickAll(cfg, st.servers, now), Owners(st.routes));
    case CheckingFrame(mac, now) =>
      var i := FindServer(st.servers, mac);
      if i.Some? { SameCountsHeld(st.servers, Hear(st, mac, now).servers, Owners(st.routes)); }
    case Packet(key, flags, now) => RouteKeepsInv(cfg, st, key, flags, now);
  }

  function Run(cfg: Config, st: State, steps: seq<Step>): State
    decreases |steps|
  {
    if steps == [] then st else Run(cfg, Apply(cfg, st, steps[0]), steps[1..])
  }

  predicate AllowedRun(cfg: Config, st: State, steps: seq<Step>)
    decreases |steps|
  {
    steps != [] ==> Allowed(st, steps[0]) && AllowedRun(cfg, Apply(cfg, st, steps[0]), steps[1..])
  }

  const START := State([], 0, [], 0)

  lemma {:induction false} RunKeepsInv(cfg: Config, st: State, steps: seq<Step>)
    requires Inv(st) && AllowedRun(cfg, st, steps)
    ensures Inv(Run(cfg, st, steps))
    decreases |steps|
  {
    if steps != [] {
      ApplyKeepsInv(cfg, st, steps[0]);
      RunKeepsInv(cfg, Apply(cfg, st, steps[0]), steps[1..]);
    }
  }

  lemma {:induction false} CountOf(servers: seq<Server>, owners: multiset<nat>, i: nat)
    requires Counted(servers, owners) && i < |servers|
    ensures servers[i].refs == Own(servers[i]) + owners[servers[i].id]
  {
    if i > 0 { CountOf(servers[1..], owners, i - 1); }
  }

  lemma {:induction false} ServerOwned(routes: seq<Route>, i: nat)
    requires i < |routes|
    ensures routes[i].server in Owners(routes)
  {
    if i > 0 { ServerOwned(routes[1..], i - 1); }
  }

  lemma {:induction false} KeyAt(routes: seq<Route>, i: nat)
    requires i < |routes|
    ensures routes[i].key in Keys(routes)
  {
    if i > 0 { KeyAt(routes[1..], i - 1); }
  }

  lemma {:induction false} KeysDiffer(routes: seq<Route>, i: nat, j: nat)
    requires UniqueKeys(routes) && i < j < |routes|
    ensures routes[i].key != routes[j].key
  {
    if i == 0 { KeyAt(routes[1..], j - 1); } else { KeysDiffer(routes[1..], i - 1, j - 1); }
  }

  /**
   After every run from the start: a listed server's count is its number of routes, plus one
   unless it is deleted, and is never 0; every route leads to a listed server and is open; no two
   routes share a key.
   */
  lemma EveryRunIsSound(cfg: Config, steps: seq<Step>)
    requires AllowedRun(cfg, START, steps)
    ensures
      var st := Run(cfg, START, steps);
      && (forall i :: 0 <= i < |st.servers| ==>
            var s := st.servers[i];
            s.refs == Owners(st.routes)[s.id] + (if s.deleted then 0 else 1) && s.refs >= 1)
      && (forall i :: 0 <= i < |st.routes| ==> st.routes[i].server in Ids(st.servers) && Open(st.routes[i]))
      && (forall i, j :: 0 <= i < j < |st.routes| ==> st.routes[i].key != st.routes[j].key)
      && UniqueIds(st.servers) && UniqueMacs(st.servers)
  {
    RunKeepsInv(cfg, START, steps);
    var st := Run(cfg, START, steps);
    CountedIsValid(st.servers, Owners(st.routes));
    forall i | 0 <= i < |st.servers| ensures st.servers[i].refs == Own(st.servers[i]) + Owners(st.routes)[st.servers[i].id] {
      CountOf(st.servers, Owners(st.routes), i);
    }
    forall i | 0 <= i < |st.routes| ensures st.routes[i].server in Owners(st.routes) {
      ServerOwned(st.routes, i);
    }
    forall i, j | 0 <= i < j < |st.routes| ensures st.routes[i].key != st.routes[j].key {
      KeysDiffer(st.routes, i, j);
    }
  }

  // ---------- Tombstones ----------

  /** The server is deleted already, or this step deletes it. */
  predicate Doomed(st: State, step: Step, id: nat) {
    || Deleted(st.servers, id)
    || (step.DeleteServer? &&
        var i := FindServer(st.servers, step.mac);
        i.Some? && st.servers[i.value].id == id)
  }

  /** In any step a server leaves the list exactly when it is deleted and no route to it is left. */
  lemma LeavesWithItsLastRoute(cfg: Config, st: State, step: Step, id: nat)
    requires Inv(st) && Allowed(st, step) && id in Ids(st.servers)
    ensures
      var st' := Apply(cfg, st, step);
      id !in Ids(st'.servers) <==> Doomed(st, step, id) && Owners(st'.routes)[id] == 0
  {
    var st' := Apply(cfg, st, step);
    ApplyKeepsInv(cfg, st, step);
    if id in Ids(st'.servers) {
      if Doomed(st, step, id) {
        DoomedIsDeleted(cfg, st, step, id);
        DeletedIsOwned(st'.servers, Owners(st'.routes), id);
      }
    } else {
      OnlyDoomedLeave(cfg, st, step, id);
    }
  }

  /** A doomed server that is still listed after the step is marked. */
  lemma DoomedIsDeleted(cfg: Config, st: State, step: Step, id: nat)
    requires Inv(st) && Allowed(st, step) && id in Ids(st.servers) && Doomed(st, step, id)
    requires id in Ids(Apply(cfg, st, step).servers)
    ensures Deleted(Apply(cfg, st, step).servers, id)
  {
    var owners := Owners(st.routes);
    match step
    case AddServer(info, now) =>
      match FindServer(st.servers, info.mac) {
        case Some(i) => SameCountsHeld(st.servers, Add(st, info, now).servers, owners);
        case None => AppendCounted(st.servers, WithInfo(Allocated(st.nextId, now), info), owners);
      }
    case DeleteServer(mac) => DeleteMarks(st, mac);
    case Tick(now) =>
      TickKeepsCounts(cfg, st.servers, now);
      SameCountsHeld(st.servers, TickAll(cfg, st.servers, now), owners);
    case CheckingFrame(mac, now) =>
      var i := FindServer(st.servers, mac);
      if i.Some? { SameCountsHeld(st.servers, Hear(st, mac, now).servers, owners); }
    case Packet(key, flags, now) => RouteKeepsInv(cfg, st, key, flags, now);
  }

  lemma {:induction false} DeletedAt(servers: seq<Server>, i: nat)
    requires UniqueIds(servers) && i < |servers|
    ensures Deleted(servers, servers[i].id) == servers[i].deleted
  {
    if i > 0 {
      IdAt(servers[1..], i - 1);
      DeletedAt(servers[1..], i - 1);
    }
  }

  /** Deleting a server marks it and keeps the others as they are. */
  lemma DeleteMarks(st: State, mac: nat)
    requires Inv(st)
    ensures
      var st' := Delete(st, mac);
      forall id ::
        && (id in Ids(st'.servers) && Doomed(st, DeleteServer(mac), id) ==> Deleted(st'.servers, id))
        && (id in Ids(st.servers) && !Doomed(st, DeleteServer(mac), id) ==> id in Ids(st'.servers))
  {
    var found := FindServer(st.servers, mac);
    if found.Some? {
      var i, owners := found.value, Owners(st.routes);
      CountedIsValid(st.servers, owners);
      DeletedAt(st.servers, i);
      if !st.servers[i].deleted {
        var id := st.servers[i].id;
        MarkCounted(st.servers, owners, i);
        ReleaseHeld(st.servers[i := st.servers[i].(deleted := true)], owners + multiset{id}, id);
      }
    }
  }

  lemma OnlyDoomedLeave(cfg: Config, st: State, step: Step, id: nat)
    requires Inv(st) && Allowed(st, step) && id in Ids(st.servers)
    requires id !in Ids(Apply(cfg, st, step).servers)
    ensures Doomed(st, step, id)
  {
    var owners := Owners(st.routes);
    match step
    case AddServer(info, now) =>
      match FindServer(st.servers, info.mac) {
        case Some(i) => SameCountsHeld(st.servers, Add(st, info, now).servers, owners);
        case None => AppendCounted(st.servers, WithInfo(Allocated(st.nextId, now), info), owners);
      }
    case DeleteServer(mac) => DeleteMarks(st, mac);
    case Tick(now) =>
      TickKeepsCounts(cfg, st.servers, now);
      SameCountsHeld(st.servers, TickAll(cfg, st.servers, now), owners);
    case CheckingFrame(mac, now) =>
      var i := FindServer(st.servers, mac);
      if i.Some? { SameCountsHeld(st.servers, Hear(st, mac, now).servers, owners); }
    case Packet(key, flags, now) => RouteKeepsInv(cfg, st, key, flags, now);
  }
}

/**
 A deleted server drains: from its deletion on it gets no new connection, whatever the adapter
 does, and it leaves the list with the last one it had.
 */
module DriverDraining {
  import opened Options
  import opened DriverServers
  import opened DriverFilter
  import opened DriverInvariants

  /** The server has been listed, and is deleted if it still is. */
  ghost predicate Draining(st: State, id: nat) {
    id < st.nextId && (id in Ids(st.servers) ==> Deleted(st.servers, id))
  }

  /** The server chosen is listed and not marked. */
  lemma ChosenIsNotDeleted(servers: seq<Server>, index: nat, mode: IpMode, algorithm: Algorithm)
    requires UniqueIds(servers)
    ensures
      var position := Choose(servers, index, mode, algorithm).0;
      position.Some? ==> var id := servers[position.value].id; id in Ids(servers) && !Deleted(servers, id)
  {
    ChosenServerIsUsable(servers, index, mode, algorithm);
    var position := Choose(servers, index, mode, algorithm).0;
    if position.Some? {
      IdAt(servers, position.value);
      DeletedAt(servers, position.value);
    }
  }

  /** A packet makes no route to a draining server. */
  lemma PacketSparesDraining(cfg: Config, st: State, key: Key, flags: Flags, now: int, id: nat)
    requires Inv(st) && Draining(st, id)
    ensures Owners(RouteTcp(cfg, st, key, flags, now).1.routes)[id] <= Owners(st.routes)[id]
  {
    var swept := Sweep(st.routes, key, now, cfg.routeLimit);
    var scanned := st.(servers := ReleaseAll(st.servers, swept.gone));
    ScanIsSound(cfg, st, key, now);
    SweepOwners(st.routes, key, now, cfg.routeLimit);
    if flags == TH_SYN {
      CountedIsValid(scanned.servers, Owners(swept.before) + Owners(Matched(swept)) + Owners(swept.after));
      ConnectSparesDraining(cfg, scanned, key, now, swept, id);
    } else {
      ContinueAddsNone(scanned, flags, swept, id);
    }
  }

  lemma ContinueAddsNone(st: State, flags: Flags, swept: Swept, id: nat)
    ensures Owners(Continue(st, flags, swept).1.routes)[id]
      <= Owners(swept.before)[id] + Owners(Matched(swept))[id] + Owners(swept.after)[id]
  {
    if swept.found.Some? {
      var r := swept.found.value;
      OwnersOne(r);
      OwnersConcat(swept.before, swept.after);
      InsertedOwner(swept.before, r.(status := NextStatus(r.status, flags)), swept.after);
    }
  }

  lemma InsertedOwner(before: seq<Route>, r: Route, after: seq<Route>)
    ensures Owners(before + [r] + after) == Owners(before) + multiset{r.server} + Owners(after)
  {
    OwnersConcat(before + [r], after);
    OwnersConcat(before, [r]);
    OwnersOne(r);
  }

  lemma ConnectSparesDraining(cfg: Config, st: State, key: Key, now: int, swept: Swept, id: nat)
    requires Draining(st, id) && UniqueIds(st.servers) && (swept.found.None? ==> swept.after == [])
    ensures Owners(Connect(cfg, st, key, now, swept).1.routes)[id]
      <= Owners(swept.before)[id] + Owners(Matched(swept))[id] + Owners(swept.after)[id]
  {
    ChosenIsNotDeleted(st.servers, st.pollIndex, key.mode, cfg.algorithm);
    var (position, index) := Choose(st.servers, st.pollIndex, key.mode, cfg.algorithm);
    OwnersConcat(swept.before + Matched(swept), swept.after);
    OwnersConcat(swept.before, Matched(swept));
    if position.Some? {
      var route := Route(key, Normal, st.servers[position.value].id, now);
      InsertedOwner(swept.before, route, swept.after);
      OwnersCons(route, swept.before);
    }
  }

  /** Draining is for good: a server that is added never takes a former one's place. */
  lemma StaysDraining(cfg: Config, st: State, step: Step, id: nat)
    requires Inv(st) && Allowed(st, step) && Draining(st, id)
    ensures Draining(Apply(cfg, st, step), id)
  {
    var owners := Owners(st.routes);
    match step
    case AddServer(info, now) =>
      match FindServer(st.servers, info.mac) {
        case Some(i) => SameCountsHeld(st.servers, Add(st, info, now).servers, owners);
        case None => AppendCounted(st.servers, WithInfo(Allocated(st.nextId, now), info), owners);
      }
    case DeleteServer(mac) => DeleteAddsNone(st, mac, id);
    case Tick(now) =>
      TickKeepsCounts(cfg, st.servers, now);
      SameCountsHeld(st.servers, TickAll(cfg, st.servers, now), owners);
    case CheckingFrame(mac, now) =>
      var i := FindServer(st.servers, mac);
      if i.Some? { SameCountsHeld(st.servers, Hear(st, mac, now).servers, owners); }
    case Packet(key, flags, now) => RouteKeepsInv(cfg, st, key, flags, now);
  }

  lemma DeleteAddsNone(st: State, mac: nat, id: nat)
    requires Inv(st) && Draining(st, id)
    ensures Draining(Delete(st, mac), id)
  {
    var found := FindServer(st.servers, mac);
    if found.Some? && !st.servers[found.value].deleted {
      var i, owners := found.value, Owners(st.routes);
      var s := st.servers[i];
      MarkCounted(st.servers, owners, i);
      ReleaseHeld(st.servers[i := s.(deleted := true)], owners + multiset{s.id}, s.id);
    }
  }

  /**
   In every run after its deletion a server has at most the connections it had, and it is listed
   exactly as long as it has any.
   */
  lemma {:induction false} DeletedServerDrains(cfg: Config, st: State, steps: seq<Step>, id: nat)
    requires Inv(st) && AllowedRun(cfg, st, steps) && Draining(st, id)
    ensures
      var st' := Run(cfg, st, steps);
      && Owners(st'.routes)[id] <= Owners(st.routes)[id]
      && (id in Ids(st'.servers) <==> Owners(st'.routes)[id] > 0)
      && (id in Ids(st'.servers) ==> Deleted(st'.servers, id))
    decreases |steps|
  {
    if steps == [] {
      if id in Ids(st.servers) { DeletedIsOwned(st.servers, Owners(st.routes), id); }
    } else {
      var st1 := Apply(cfg, st, steps[0]);
      ApplyKeepsInv(cfg, st, steps[0]);
      StaysDraining(cfg, st, steps[0], id);
      if steps[0].Packet? { PacketSparesDraining(cfg, st, steps[0].key, steps[0].flags, steps[0].now, id); }
      DeletedServerDrains(cfg, st1, steps[1..], id);
    }
  }
}

/**
 The adapter's handlers in place.  Each does to the fields what its step function says, and keeps
 the invariant.
 */
module DriverAdapter {
  import opened Options
  import opened DriverServers
  import opened DriverFilter
  import opened DriverInvariants

  lemma {:induction false} FindServerFirst(servers: seq<Server>, mac: nat, i: nat)
    requires i <= |servers| && forall j :: 0 <= j < i ==> servers[j].mac != mac
    ensures i < |servers| && servers[i].mac == mac ==> FindServer(servers, mac) == Some(i)
    ensures i == |servers| ==> FindServer(servers, mac) == None
  {
    if i > 0 {
      assert forall j :: 0 <= j < i - 1 ==> servers[1..][j] == servers[j + 1];
      FindServerFirst(servers[1..], mac, i - 1);
    }
  }

  lemma {:induction false} FindServerIsFirst(servers: seq<Server>, mac: nat)
    ensures
      var i := FindServer(servers, mac);
      && (i.Some? ==> i.value < |servers| && servers[i.value].mac == mac)
      && forall j :: 0 <= j < (if i.Some? then i.value else |servers|) ==> servers[j].mac != mac
  {
    if servers != [] && servers[0].mac != mac {
      FindServerIsFirst(servers[1..], mac);
      var i := FindServer(servers, mac);
      forall j | 0 < j < (if i.Some? then i.value else |servers|) ensures servers[j].mac != mac {
        assert servers[1..][j - 1] == servers[j];
      }
    }
  }

  /**
   The server an application added is found under its address with what the application said of it;
   a new one starts at the end of the list with one reference, and the others are as they were.
   */
  lemma AddedServerIsFound(st: State, info: Info, now: int)
    ensures
      var before, servers, i := FindServer(st.servers, info.mac), Add(st, info, now).servers, FindServer(Add(st, info, now).servers, info.mac);
      && i == Some(if before.Some? then before.value else |st.servers|)
      && |servers| == |st.servers| + (if before.Some? then 0 else 1)
      && (forall j :: 0 <= j < |st.servers| && j != i.value ==> servers[j] == st.servers[j])
      && var s := servers[i.value];
         && s.ipv4 == info.ipv4 && s.ipv6 == info.ipv6
         && s.online == info.online && s.checking == info.checking && s.deleted == info.deleted
         && (before.Some? ==> var s' := st.servers[i.value]; s.id == s'.id && s.refs == s'.refs && s.timestamp == s'.timestamp)
         && (before.None? ==> s.id == st.nextId && s.refs == 1 && s.timestamp == now && s.retries == 0)
  {
    FindServerIsFirst(st.servers, info.mac);
    var before, servers := FindServer(st.servers, info.mac), Add(st, info, now).servers;
    FindServerFirst(servers, info.mac, if before.Some? then before.value else |st.servers|);
  }

  /** The addresses of the servers whose record a tick changes. */
  function Requests(cfg: Config, servers: seq<Server>, now: int): seq<nat> {
    if servers == [] then []
    else (if TickServer(cfg, servers[0], now) != servers[0] then [servers[0].mac] else []) + Requests(cfg, servers[1..], now)
  }

  lemma {:induction false} TickAllSnoc(cfg: Config, servers: seq<Server>, s: Server, now: int)
    ensures TickAll(cfg, servers + [s], now) == TickAll(cfg, servers, now) + [TickServer(cfg, s, now)]
    ensures Requests(cfg, servers + [s], now) == Requests(cfg, servers, now) + if TickServer(cfg, s, now) != s then [s.mac] else []
  {
    if servers == [] {
      assert [] + [s] == [s] && [s][1..] == [];
    } else {
      assert (servers + [s])[1..] == servers[1..] + [s];
      TickAllSnoc(cfg, servers[1..], s, now);
    }
  }

  lemma NextTicked(cfg: Config, servers: seq<Server>, i: nat, now: int)
    requires i < |servers|
    ensures
      var s := TickServer(cfg, servers[i], now);
      && TickAll(cfg, servers[..i + 1], now) == TickAll(cfg, servers[..i], now) + [s]
      && Requests(cfg, servers[..i + 1], now) == Requests(cfg, servers[..i], now) + if s != servers[i] then [s.mac] else []
  {
    TickAllSnoc(cfg, servers[..i], servers[i], now);
    assert servers[..i + 1] == servers[..i] + [servers[i]];
  }

  lemma ReplaceNext(done: seq<Server>, before: seq<Server>, i: nat, s: Server)
    requires |done| == i < |before|
    ensures (done + before[i..])[i] == before[i]
    ensures (done + before[i..])[i := s] == done + [s] + before[i + 1..]
  {
  }

  lemma ReplaceMatch(before: seq<Route>, r: Route, after: seq<Route>, s: Route)
    ensures (before + [r] + after)[|before|] == r && (before + [r] + after)[|before| := s] == before + [s] + after
  {
  }

  class Filter {
    const cfg: Config
    const list: ServerList
    var routes: seq<Route>
    var nextId: nat

    constructor (cfg: Config)
      ensures this.cfg == cfg && fresh(list) && Valid() && Value() == START
    {
      this.cfg, routes, nextId := cfg, [], 0;
      list := new ServerList();
    }

    function Value(): State
      reads this, list
    {
      State(list.servers, list.pollIndex, routes, nextId)
    }

    ghost predicate Valid()
      reads this, list
    {
      Inv(Value())
    }

    method Find(mac: nat) returns (position: Option<nat>)
      ensures position == FindServer(list.servers, mac)
    {
      var i := 0;
      while i < |list.servers|
        invariant 0 <= i <= |list.servers| && forall j :: 0 <= j < i ==> list.servers[j].mac != mac
      {
        if list.servers[i].mac == mac {
          FindServerFirst(list.servers, mac, i);
          return Some(i);
        }
        i := i + 1;
      }
      FindServerFirst(list.servers, mac, i);
      return None;
    }

    method AddServer(info: Info, now: int)
      requires Valid()
      modifies this, list
      ensures Value() == Apply(cfg, old(Value()), Step.AddServer(info, now))
      ensures Valid() <==> Allowed(old(Value()), Step.AddServer(info, now))
    {
      AddKeepsInvExactly(Value(), info, now);
      var position := Find(info.mac);
      match position
      case None =>
        var server := Allocated(nextId, now);
        nextId := nextId + 1;
        server := WithInfo(server, info);
        list.servers := list.servers + [server];
      case Some(i) =>
        list.servers := list.servers[i := WithInfo(list.servers[i], info)];
    }

    /** The boolean stands for `STATUS_FILE_DELETED`. */
    method DeleteServer(mac: nat) returns (alreadyDeleted: bool)
      modifies this, list
      requires Valid()
      ensures Value() == Apply(cfg, old(Value()), Step.DeleteServer(mac))
      ensures Valid()
      ensures alreadyDeleted <==>
        var i := FindServer(old(list.servers), mac);
        i.Some? && old(list.servers)[i.value].deleted
    {
      ApplyKeepsInv(cfg, Value(), Step.DeleteServer(mac));
      alreadyDeleted := false;
      var position := Find(mac);
      match position
      case None =>
      case Some(i) =>
        if !list.servers[i].deleted {
          list.servers := list.servers[i := list.servers[i].(deleted := true)];
          list.DecRef(list.servers[i].id);
        } else {
          alreadyDeleted := true;
        }
    }

    method ProcessChecking(mac: nat, now: int)
      modifies this, list
      requires Valid()
      ensures Value() == Apply(cfg, old(Value()), CheckingFrame(mac, now))
      ensures Valid()
    {
      ApplyKeepsInv(cfg, Value(), CheckingFrame(mac, now));
      var position := Find(mac);
      match position
      case None =>
      case Some(i) =>
        list.servers := list.servers[i := list.servers[i].(timestamp := now)];
        list.servers := list.servers[i := list.servers[i].(online := true)];
        list.servers := list.servers[i := list.servers[i].(checking := false)];
    }

    /** A request to answer is sent to each server whose record changes. */
    method CheckServerStatus(now: int) returns (requests: seq<nat>)
      requires Valid()
      modifies this, list
      ensures Value() == Apply(cfg, old(Value()), Tick(now)) && requests == Requests(cfg, old(list.servers), now)
      ensures Valid()
    {
      ApplyKeepsInv(cfg, Value(), Tick(now));
      requests := CheckServers(now);
    }

    method CheckServers(now: int) returns (requests: seq<nat>)
      modifies list`servers
      ensures list.servers == TickAll(cfg, old(list.servers), now) && requests == Requests(cfg, old(list.servers), now)
    {
      requests := [];
      ghost var before := list.servers;
      var i := 0;
      while i < |list.servers|
        invariant 0 <= i <= |list.servers| == |before|
        invariant list.servers == TickAll(cfg, before[..i], now) + before[i..]
        invariant requests == Requests(cfg, before[..i], now)
      {
        ghost var done := TickAll(cfg, before[..i], now);
        ReplaceNext(done, before, i, TickServer(cfg, before[i], now));
        var s, request := CheckServer(list.servers[i], now);
        list.servers := list.servers[i := s];
        requests := requests + if request then [s.mac] else [];
        NextTicked(cfg, before, i, now);
        i := i + 1;
      }
      assert before[..i] == before;
    }

    method CheckServer(server: Server, now: int) returns (s: Server, request: bool)
      ensures s == TickServer(cfg, server, now)
      ensures request <==> s != server
    {
      s, request := server, false;
      if !s.deleted {
        if s.online {
          if s.checking {
            if now - s.timestamp > cfg.timeout * (s.retries + 1) {
              s := s.(retries := s.retries + 1);
              if s.retries >= cfg.retryNumber { s := s.(online := false); }
              request := true;
            }
          } else {
            if now - s.timestamp > cfg.interval {
              s := s.(retries := 0);
              s := s.(checking := true);
              s := s.(timestamp := now);
              request := true;
            }
          }
        } else {
          if now - s.timestamp > cfg.timeout * (s.retries + 1) {
            s := s.(retries := s.retries + 1);
            request := true;
          }
        }
      }
    }

    /** `DeleteRouteListEntry` */
    method DeleteRoute(position: nat)
      requires position < |routes|
      modifies this`routes, list`servers
      ensures routes == old(routes[..position] + routes[position + 1..])
      ensures list.servers == Release(old(list.servers), old(routes[position].server))
    {
      var server := routes[position].server;
      routes := routes[..position] + routes[position + 1..];
      list.DecRef(server);
    }

    method GetRoute(key: Key, now: int) returns (position: Option<nat>)
      modifies this`routes, list`servers
      ensures
        var swept := Sweep(old(routes), key, now, cfg.routeLimit);
        && routes == Remaining(swept)
        && list.servers == ReleaseAll(old(list.servers), swept.gone)
        && position == (if swept.found.Some? then Some(|swept.before|) else None)
    {
      ghost var swept := Sweep(routes, key, now, cfg.routeLimit);
      var i := 0;
      assert routes[0..] == routes && routes[..0] == [];
      while i < |routes|
        invariant 0 <= i <= |routes|
        invariant
          var rest := Sweep(routes[i..], key, now, cfg.routeLimit);
          && swept.before == routes[..i] + rest.before
          && swept.found == rest.found && swept.after == rest.after
          && ReleaseAll(list.servers, rest.gone) == ReleaseAll(old(list.servers), swept.gone)
        decreases |routes| - i
      {
        ghost var rest := routes[i..];
        if routes[i].key == key {
          routes := routes[i := routes[i].(timestamp := now)];
          assert routes[..i] == swept.before;
          assert routes == routes[..i] + [routes[i]] + routes[i + 1..];
          return Some(i);
        }
        if Expired(routes[i], now, cfg.routeLimit) {
          DeleteRoute(i);
          assert routes[i..] == rest[1..];
        } else {
          i := i + 1;
          assert routes[i..] == rest[1..];
        }
      }
      assert routes[i..] == [] && routes[..i] == routes;
      return None;
    }

    /** `RouteTCPNBL`, followed by the deletion of a closed route: the server the packet is forwarded to. */
    method RouteTcpPacket(key: Key, flags: Flags, now: int) returns (server: Option<nat>)
      requires Valid()
      modifies this, list
      ensures (server, Value()) == RouteTcp(cfg, old(Value()), key, flags, now)
      ensures Valid()
    {
      ghost var swept := Sweep(routes, key, now, cfg.routeLimit);
      ghost var scanned := Value().(servers := ReleaseAll(list.servers, swept.gone));
      RouteKeepsInv(cfg, Value(), key, flags, now);
      ScanIsSound(cfg, Value(), key, now);
      var position := GetRoute(key, now);
      assert Value().(routes := scanned.routes) == scanned;
      if flags == TH_SYN {
        CountedIsValid(list.servers, Owners(swept.before) + Owners(Matched(swept)) + Owners(swept.after));
        server := SelectAndBind(key, now, position, swept);
      } else {
        server := Forward(position, flags, swept);
      }
    }

    /** A packet of an open connection; a connection that it closes loses its route. */
    method Forward(position: Option<nat>, flags: Flags, ghost swept: Swept) returns (server: Option<nat>)
      requires routes == Remaining(swept) && position == (if swept.found.Some? then Some(|swept.before|) else None)
      requires swept.found.None? ==> swept.after == []
      modifies this`routes, list`servers
      ensures (server, Value()) == Continue(old(Value()), flags, swept)
    {
      match position
      case None =>
        assert routes == swept.before;
        server := None;
      case Some(i) =>
        server := Some(routes[i].server);
        ghost var r := swept.found.value;
        ghost var moved := r.(status := NextStatus(r.status, flags));
        assert routes[i] == r && routes[..i] == swept.before && routes[i + 1..] == swept.after;
        assert routes[i := moved] == swept.before + [moved] + swept.after;
        Advance(i, flags);
    }

    method Advance(position: nat, flags: Flags)
      requires position < |routes|
      modifies this`routes, list`servers
      ensures
        var r := old(routes[position]);
        var status := NextStatus(r.status, flags);
        if status == Closed
        then routes == old(routes[..position] + routes[position + 1..]) && list.servers == Release(old(list.servers), r.server)
        else routes == old(routes)[position := r.(status := status)] && list.servers == old(list.servers)
      ensures
        var r := old(routes[position]);
        Open(r) ==> (|routes| < old(|routes|) <==> (flags.ack && r.status == LastAck) || (flags.rst && !flags.fin))
    {
      var r := routes[position];
      if flags.ack && r.status == LastAck {
        r := r.(status := Closed);
      } else if flags.fin {
        r := r.(status := LastAck);
      } else if flags.rst {
        r := r.(status := Closed);
      }
      routes := routes[position := r];
      if r.status == Closed { DeleteRoute(position); }
    }

    /** A plain SYN is bound to a server selected now. */
    method SelectAndBind(key: Key, now: int, position: Option<nat>, ghost swept: Swept) returns (server: Option<nat>)
      requires list.Valid()
      requires routes == Remaining(swept) && position == (if swept.found.Some? then Some(|swept.before|) else None)
      requires swept.found.None? ==> swept.after == []
      modifies this`routes, list
      ensures (server, Value()) == Connect(cfg, old(Value()), key, now, swept)
    {
      server := list.SelectBest(key.mode, cfg.algorithm);
      if server.None? { return; }
      var route := Route(key, Normal, server.value, now);
      match position
      case None =>
        routes := [route] + routes;
        assert routes == [route] + swept.before;
      case Some(i) =>
        ReplaceMatch(swept.before, swept.found.value, swept.after, route);
        list.DecRef(routes[i].server);
        routes := routes[i := route];
    }
  }
}

/**
 Connections stay with the server they were bound to: from the SYN that binds it, every packet
 of a connection goes to the same server until another SYN or a packet that closes it, as long as
 its own packets are no further apart than the timeout, whatever else happens in between.
 */
module DriverSessions {
  import opened Options
  import opened DriverServers
  import opened DriverFilter
  import opened DriverInvariants

  /** The route that a scan for `key` would find. */
  function Lookup(routes: seq<Route>, key: Key): Option<Route> {
    if routes == [] then None
    else if routes[0].key == key then Some(routes[0])
    else Lookup(routes[1..], key)
  }

  lemma {:induction false} LookupConcat(a: seq<Route>, b: seq<Route>, key: Key)
    ensures Lookup(a + b, key) == if Lookup(a, key).Some? then Lookup(a, key) else Lookup(b, key)
  {
    if a == [] {
      assert a + b == b;
    } else {
      assert (a + b)[1..] == a[1..] + b;
      LookupConcat(a[1..], b, key);
    }
  }

  lemma LookupWith(before: seq<Route>, r: Route, after: seq<Route>, key: Key)
    ensures Lookup(before + [r] + after, key) ==
      if Lookup(before, key).Some? then Lookup(before, key)
      else if r.key == key then Some(r)
      else Lookup(after, key)
  {
    LookupConcat(before + [r], after, key);
    LookupConcat(before, [r], key);
    assert [r][1..] == [];
  }

  /** A scan for the key itself refreshes the route. */
  lemma {:induction false} SweepFinds(routes: seq<Route>, key: Key, now: int, limit: int)
    ensures
      var r, found := Sweep(routes, key, now, limit), Lookup(routes, key);
      && Lookup(r.before, key).None?
      && r.found == (if found.Some? then Some(found.value.(timestamp := now)) else None)
      && (found.None? ==> r.after == [])
  {
    if routes != [] && routes[0].key != key { SweepFinds(routes[1..], key, now, limit); }
  }

  /** A scan for another key keeps it unless it has expired. */
  lemma {:induction false} SweepSpares(routes: seq<Route>, other: Key, now: int, limit: int, key: Key)
    requires other != key
    requires Lookup(routes, key).Some? && !Expired(Lookup(routes, key).value, now, limit)
    ensures
      var r := Sweep(routes, other, now, limit);
      Lookup(routes, key) == if Lookup(r.before, key).Some? then Lookup(r.before, key) else Lookup(r.after, key)
  {
    if routes[0].key != other {
      var r := Sweep(routes, other, now, limit);
      if routes[0].key != key {
        SweepSpares(routes[1..], other, now, limit, key);
      }
      if !Expired(routes[0], now, limit) {
        assert r.before[1..] == Sweep(routes[1..], other, now, limit).before;
      }
    }
  }

  // ---------- One step ----------

  /** A SYN without any other flag that finds a server binds the connection to it. */
  lemma SynBinds(cfg: Config, st: State, key: Key, flags: Flags, now: int)
    requires flags.syn && !flags.fin && !flags.rst && !flags.ack && flags.others == 0
    ensures
      var (server, st') := RouteTcp(cfg, st, key, flags, now);
      server.Some? ==> Lookup(st'.routes, key) == Some(Route(key, Normal, server.value, now))
  {
    var (server, st') := RouteTcp(cfg, st, key, flags, now);
    var swept := Sweep(st.routes, key, now, cfg.routeLimit);
    SweepFinds(st.routes, key, now, cfg.routeLimit);
    if server.Some? {
      var route := Route(key, Normal, server.value, now);
      if swept.found.None? {
        assert st'.routes == [route] + swept.before;
      } else {
        LookupWith(swept.before, route, swept.after, key);
      }
    }
  }

  /**
   A packet of a bound connection goes to its server, and the route stays unless the packet ends
   the connection: an ACK after a FIN, or an RST without FIN.
   */
  lemma PacketFollows(cfg: Config, st: State, key: Key, flags: Flags, now: int, r: Route)
    requires Lookup(st.routes, key) == Some(r) && Open(r) && flags != TH_SYN
    ensures
      var (server, st') := RouteTcp(cfg, st, key, flags, now);
      var ends := (flags.ack && r.status == LastAck) || (flags.rst && !flags.fin);
      && server == Some(r.server)
      && (!ends ==> Lookup(st'.routes, key) == Some(r.(status := if flags.fin then LastAck else r.status, timestamp := now)))
      && (ends && UniqueKeys(st.routes) ==> Lookup(st'.routes, key) == None)
  {
    var swept := Sweep(st.routes, key, now, cfg.routeLimit);
    SweepFinds(st.routes, key, now, cfg.routeLimit);
    LookupWith(swept.before, r.(status := NextStatus(r.status, flags), timestamp := now), swept.after, key);
    if UniqueKeys(st.routes) {
      NoneAfter(st.routes, key, now, cfg.routeLimit);
      LookupConcat(swept.before, swept.after, key);
    }
  }

  lemma {:induction false} NoRouteNoKey(routes: seq<Route>, key: Key)
    ensures Lookup(routes, key).None? <==> key !in Keys(routes)
  {
    if routes != [] { NoRouteNoKey(routes[1..], key); }
  }

  lemma {:induction false} NoneAfter(routes: seq<Route>, key: Key, now: int, limit: int)
    requires UniqueKeys(routes)
    ensures Lookup(Sweep(routes, key, now, limit).after, key) == None
  {
    if routes != [] {
      if routes[0].key == key { NoRouteNoKey(routes[1..], key); } else { NoneAfter(routes[1..], key, now, limit); }
    }
  }

  lemma OtherPacketSpares(cfg: Config, st: State, other: Key, flags: Flags, now: int, key: Key)
    requires other != key
    requires Lookup(st.routes, key).Some? && !Expired(Lookup(st.routes, key).value, now, cfg.routeLimit)
    ensures Lookup(RouteTcp(cfg, st, other, flags, now).1.routes, key) == Lookup(st.routes, key)
  {
    var swept := Sweep(st.routes, other, now, cfg.routeLimit);
    SweepSpares(st.routes, other, now, cfg.routeLimit, key);
    SweepFinds(st.routes, other, now, cfg.routeLimit);
    var routes := RouteTcp(cfg, st, other, flags, now).1.routes;
    LookupConcat(swept.before, swept.after, key);
    if swept.found.None? {
      assert Remaining(swept) == swept.before;
      if routes != swept.before {
        assert routes[1..] == swept.before;
      }
    } else if routes != swept.before + swept.after {
      var middle := routes[|swept.before|];
      assert middle.key == other && routes == swept.before + [middle] + swept.after;
      LookupWith(swept.before, middle, swept.after, key);
    }
  }

  lemma OtherStepSpares(cfg: Config, st: State, step: Step, key: Key)
    requires !step.Packet?
    ensures Apply(cfg, st, step).routes == st.routes
  {
  }

  // ---------- A run ----------

  /** The packets of the run come in the order of their times, none before `t`. */
  predicate Ordered(t: int, steps: seq<Step>)
    decreases |steps|
  {
    if steps == [] then true
    else if steps[0].Packet? then t <= steps[0].now && Ordered(steps[0].now, steps[1..])
    else Ordered(t, steps[1..])
  }

  /** The packets of `key`, last heard at `last`, are each within the limit of the one before, and none is a plain SYN. */
  predicate Steady(limit: int, key: Key, last: int, steps: seq<Step>)
    decreases |steps|
  {
    if steps == [] then true
    else if steps[0].Packet? && steps[0].key == key then
      && steps[0].now - last <= limit && steps[0].flags != TH_SYN
      && Steady(limit, key, steps[0].now, steps[1..])
    else Steady(limit, key, last, steps[1..])
  }

  /** The flags of the packets of `key`, in order. */
  function FlagsOf(key: Key, steps: seq<Step>): seq<Flags>
    decreases |steps|
  {
    if steps == [] then []
    else (if steps[0].Packet? && steps[0].key == key then [steps[0].flags] else []) + FlagsOf(key, steps[1..])
  }

  predicate FinAmong(fs: seq<Flags>) {
    exists i :: 0 <= i < |fs| && fs[i].fin
  }

  /** The packet after those with flags `past` ends the connection: it acknowledges after a FIN, or resets without FIN. */
  predicate Ends(past: seq<Flags>, flags: Flags) {
    (flags.ack && FinAmong(past)) || (flags.rst && !flags.fin)
  }

  /** None of these packets ends the connection. */
  predicate LeftOpen(fs: seq<Flags>) {
    forall i :: 0 <= i < |fs| ==> !Ends(fs[..i], fs[i])
  }

  lemma LeftOpenPrefix(a: seq<Flags>, b: seq<Flags>)
    requires LeftOpen(a + b)
    ensures LeftOpen(a) && (b != [] ==> !Ends(a, b[0]))
  {
    forall i | 0 <= i < |a| ensures !Ends(a[..i], a[i]) {
      assert (a + b)[..i] == a[..i] && (a + b)[i] == a[i];
    }
    if b != [] { assert (a + b)[..|a|] == a && (a + b)[|a|] == b[0]; }
  }

  /** When the connection was last heard in the run. */
  function LastHeard(key: Key, last: int, steps: seq<Step>): int
    decreases |steps|
  {
    if steps == [] then last
    else LastHeard(key, if steps[0].Packet? && steps[0].key == key then steps[0].now else last, steps[1..])
  }

  lemma {:induction false} WithinTheGap(limit: int, key: Key, last: int, steps: seq<Step>, t: int, flags: Flags, now: int)
    requires Ordered(t, steps + [Packet(key, flags, now)]) && Steady(limit, key, last, steps)
    requires now - LastHeard(key, last, steps) <= limit
    ensures t - last <= limit
    decreases |steps|
  {
    var all := steps + [Packet(key, flags, now)];
    if steps == [] {
      assert all == [Packet(key, flags, now)];
    } else {
      assert all[0] == steps[0] && all[1..] == steps[1..] + [Packet(key, flags, now)];
      if !(steps[0].Packet? && steps[0].key == key) {
        WithinTheGap(limit, key, last, steps[1..], if steps[0].Packet? then steps[0].now else t, flags, now);
      }
    }
  }

  /** A route to the server, in the status its connection's packets so far lead to. */
  predicate BoundTo(routes: seq<Route>, key: Key, server: nat, past: seq<Flags>) {
    var found := Lookup(routes, key);
    found.Some? && found.value.server == server && found.value.status == if FinAmong(past) then LastAck else Normal
  }

  lemma {:induction false} BoundThroughRun(
    cfg: Config, st: State, key: Key, server: nat, past: seq<Flags>, steps: seq<Step>, t: int, flags: Flags, now: int)
    requires BoundTo(st.routes, key, server, past) && LeftOpen(past + FlagsOf(key, steps))
    requires
      var heard := Lookup(st.routes, key).value.timestamp;
      Steady(cfg.routeLimit, key, heard, steps) && now - LastHeard(key, heard, steps) <= cfg.routeLimit
    requires Ordered(t, steps + [Packet(key, flags, now)])
    ensures BoundTo(Run(cfg, st, steps).routes, key, server, past + FlagsOf(key, steps))
    decreases |steps|
  {
    if steps == [] {
      assert past + [] == past;
    } else {
      var step, rest, r := steps[0], steps[1..], Lookup(st.routes, key).value;
      var st' := Apply(cfg, st, step);
      assert (steps + [Packet(key, flags, now)])[1..] == rest + [Packet(key, flags, now)];
      LookupHasKey(st.routes, key);
      if step.Packet? && step.key == key {
        var past' := past + [step.flags];
        assert past + FlagsOf(key, steps) == past' + FlagsOf(key, rest);
        LeftOpenPrefix(past, FlagsOf(key, steps));
        PacketFollows(cfg, st, key, step.flags, step.now, r);
        FinAmongSnoc(past, step.flags);
        BoundThroughRun(cfg, st', key, server, past', rest, step.now, flags, now);
      } else {
        assert FlagsOf(key, steps) == FlagsOf(key, rest);
        if step.Packet? {
          WithinTheGap(cfg.routeLimit, key, r.timestamp, rest, step.now, flags, now);
          OtherPacketSpares(cfg, st, step.key, step.flags, step.now, key);
        } else {
          OtherStepSpares(cfg, st, step, key);
        }
        BoundThroughRun(cfg, st', key, server, past, rest, if step.Packet? then step.now else t, flags, now);
      }
    }
  }

  lemma FinAmongSnoc(past: seq<Flags>, flags: Flags)
    ensures FinAmong(past + [flags]) <==> FinAmong(past) || flags.fin
  {
    var fs := past + [flags];
    if FinAmong(past) {
      var i :| 0 <= i < |past| && past[i].fin;
      assert fs[i].fin;
    }
    if flags.fin { assert fs[|past|].fin; }
  }

  lemma {:induction false} LookupHasKey(routes: seq<Route>, key: Key)
    requires Lookup(routes, key).Some?
    ensures Lookup(routes, key).value.key == key
  {
    if routes[0].key != key { LookupHasKey(routes[1..], key); }
  }

  /**
   Session affinity: the packet at the end of the run goes to the server the SYN chose.  The
   steps between are arbitrary: other connections, health checks, servers added and deleted.
   */
  lemma SessionAffinity(cfg: Config, st: State, key: Key, t: int, steps: seq<Step>, flags: Flags, now: int)
    requires RouteTcp(cfg, st, key, TH_SYN, t).0.Some? && flags != TH_SYN
    requires Ordered(t, steps + [Packet(key, flags, now)]) && Steady(cfg.routeLimit, key, t, steps)
    requires now - LastHeard(key, t, steps) <= cfg.routeLimit
    requires LeftOpen(FlagsOf(key, steps))
    ensures
      var (server, bound) := RouteTcp(cfg, st, key, TH_SYN, t);
      RouteTcp(cfg, Run(cfg, bound, steps), key, flags, now).0 == server
  {
    var (server, bound) := RouteTcp(cfg, st, key, TH_SYN, t);
    SynBinds(cfg, st, key, TH_SYN, t);
    assert [] + FlagsOf(key, steps) == FlagsOf(key, steps);
    BoundThroughRun(cfg, bound, key, server.value, [], steps, t, flags, now);
    var last := Run(cfg, bound, steps);
    PacketFollows(cfg, last, key, flags, now, Lookup(last.routes, key).value);
  }

  /**
   When a connection ends can be read off its own packets: it is the first that acknowledges after a
   FIN or resets without FIN.  That packet still goes to the server, and then the route is gone.
   */
  lemma ConnectionEndsExactly(cfg: Config, st: State, key: Key, t: int, steps: seq<Step>, flags: Flags, now: int)
    requires Inv(st) && RouteTcp(cfg, st, key, TH_SYN, t).0.Some? && flags != TH_SYN
    requires AllowedRun(cfg, RouteTcp(cfg, st, key, TH_SYN, t).1, steps)
    requires Ordered(t, steps + [Packet(key, flags, now)]) && Steady(cfg.routeLimit, key, t, steps)
    requires now - LastHeard(key, t, steps) <= cfg.routeLimit
    requires LeftOpen(FlagsOf(key, steps))
    ensures
      var (server, bound) := RouteTcp(cfg, st, key, TH_SYN, t);
      var (server', after) := RouteTcp(cfg, Run(cfg, bound, steps), key, flags, now);
      && server' == server
      && (Lookup(after.routes, key).None? <==> Ends(FlagsOf(key, steps), flags))
  {
    var (server, bound) := RouteTcp(cfg, st, key, TH_SYN, t);
    SynBinds(cfg, st, key, TH_SYN, t);
    assert [] + FlagsOf(key, steps) == FlagsOf(key, steps);
    BoundThroughRun(cfg, bound, key, server.value, [], steps, t, flags, now);
    RouteKeepsInv(cfg, st, key, TH_SYN, t);
    RunKeepsInv(cfg, bound, steps);
    var last := Run(cfg, bound, steps);
    PacketFollows(cfg, last, key, flags, now, Lookup(last.routes, key).value);
  }

  /** No step but a plain SYN of the connection itself makes a route for it. */
  lemma StepBindsNoOther(cfg: Config, st: State, step: Step, key: Key)
    requires Lookup(st.routes, key).None? && !(step.Packet? && step.key == key && step.flags == TH_SYN)
    ensures Lookup(Apply(cfg, st, step).routes, key).None?
    ensures step.Packet? && step.key == key ==> RouteTcp(cfg, st, key, step.flags, step.now).0 == None
  {
    if step.Packet? {
      var swept := Sweep(st.routes, step.key, step.now, cfg.routeLimit);
      SweepFinds(st.routes, step.key, step.now, cfg.routeLimit);
      SweepAddsNone(st.routes, step.key, step.now, cfg.routeLimit, key);
      var routes := Apply(cfg, st, step).routes;
      LookupConcat(swept.before, swept.after, key);
      if swept.found.None? {
        assert Remaining(swept) == swept.before;
        if routes != swept.before { assert routes[1..] == swept.before; }
      } else if routes != swept.before + swept.after {
        var middle := routes[|swept.before|];
        assert middle.key == step.key && routes == swept.before + [middle] + swept.after;
        LookupWith(swept.before, middle, swept.after, key);
      }
    }
  }

  lemma {:induction false} SweepAddsNone(routes: seq<Route>, other: Key, now: int, limit: int, key: Key)
    requires Lookup(routes, key).None?
    ensures Lookup(Sweep(routes, other, now, limit).before, key).None? && Lookup(Sweep(routes, other, now, limit).after, key).None?
    ensures Sweep(routes, other, now, limit).found.Some? ==> other != key
  {
    if routes != [] && routes[0].key != other {
      SweepAddsNone(routes[1..], other, now, limit, key);
      var r := Sweep(routes, other, now, limit);
      if !Expired(routes[0], now, limit) {
        assert r.before[1..] == Sweep(routes[1..], other, now, limit).before;
      }
    }
  }

  /** Once a connection has no route, its packets go nowhere until it sends a plain SYN again. */
  lemma {:induction false} EndedStaysEnded(cfg: Config, st: State, key: Key, steps: seq<Step>, flags: Flags, now: int)
    requires Lookup(st.routes, key).None? && TH_SYN !in FlagsOf(key, steps) && flags != TH_SYN
    ensures Lookup(Run(cfg, st, steps).routes, key).None?
    ensures RouteTcp(cfg, Run(cfg, st, steps), key, flags, now).0 == None
    decreases |steps|
  {
    if steps == [] {
      StepBindsNoOther(cfg, st, Packet(key, flags, now), key);
    } else {
      StepBindsNoOther(cfg, st, steps[0], key);
      EndedStaysEnded(cfg, Apply(cfg, st, steps[0]), key, steps[1..], flags, now);
    }
  }

  lemma {:induction false} LookupOwned(routes: seq<Route>, key: Key)
    requires Lookup(routes, key).Some?
    ensures Lookup(routes, key).value.server in Owners(routes)
  {
    if routes[0].key != key { LookupOwned(routes[1..], key); }
  }

  /** The server a packet is forwarded to was listed when the packet came, even if it was deleted since the SYN. */
  lemma RoutesLeadToListedServers(cfg: Config, steps: seq<Step>, key: Key)
    requires AllowedRun(cfg, START, steps)
    ensures
      var st := Run(cfg, START, steps);
      var found := Lookup(st.routes, key);
      found.Some? ==> found.value.server in Ids(st.servers)
  {
    RunKeepsInv(cfg, START, steps);
    var st := Run(cfg, START, steps);
    if Lookup(st.routes, key).Some? { LookupOwned(st.routes, key); }
  }
}

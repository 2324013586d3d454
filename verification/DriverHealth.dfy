/**
 The health checker takes a silent server offline neither too early nor too late, whatever
 packets and other servers the adapter deals with meanwhile.
 */
module DriverHealth {
  import opened Options
  import opened DriverServers
  import opened DriverFilter
  import opened DriverInvariants

  // ---------- One server under ticks alone ----------

  function Ticked(cfg: Config, s: Server, ticks: seq<int>): Server {
    if ticks == [] then s else TickServer(cfg, Ticked(cfg, s, ticks[..|ticks| - 1]), ticks[|ticks| - 1])
  }

  /** Ticks come in order, the first at most `d` after `h`, each at most `d` after the one before. */
  predicate Regular(h: int, d: int, ticks: seq<int>) {
    ticks != [] ==>
      && Regular(h, d, ticks[..|ticks| - 1])
      && 0 <= ticks[|ticks| - 1] - Latest(h, ticks[..|ticks| - 1]) <= d
  }

  /** The latest tick, or `h` before the first. */
  function Latest(h: int, ticks: seq<int>): int {
    if ticks == [] then h else ticks[|ticks| - 1]
  }

  /** A live server last heard at `h`. */
  predicate HeardAt(s: Server, h: int) {
    s.online && !s.checking && !s.deleted && s.timestamp == h
  }

  /**
   What is known of the server while it is silent, `now` being the latest tick: not yet checked, or
   checked since the tick `c`, `retries` timeouts having passed since, and offline if they were enough.
   */
  predicate Silent(cfg: Config, s: Server, h: int, d: int, now: int) {
    var r, t, c := cfg.retryNumber, cfg.timeout, s.timestamp;
    && !s.deleted
    && if !s.checking then s.online && c == h && now - h <= cfg.interval
       else
         && h + cfg.interval < c <= h + cfg.interval + d && c <= now
         && s.retries >= 0 && now - c <= t * (s.retries + 1) && (s.retries > 0 ==> now - c > t * s.retries)
         && (s.online <==> s.retries < r)
  }

  lemma Multiply(t: int, a: int, b: int)
    requires t >= 0 && a <= b
    ensures t * a <= t * b
  {
  }

  lemma Next(t: int, a: int)
    ensures t * (a + 1) == t * a + t
  {
  }

  /** One more tick, at most `d` later. */
  lemma TickKeepsSilent(cfg: Config, s: Server, h: int, d: int, now: int, next: int)
    requires Silent(cfg, s, h, d, now) && now <= next <= now + d
    requires cfg.retryNumber >= 1 && 0 <= d <= cfg.timeout
    ensures Silent(cfg, TickServer(cfg, s, next), h, d, next)
  {
    var r, t, c := cfg.retryNumber, cfg.timeout, s.timestamp;
    if !s.checking {
      assert t * 1 == t;
    } else {
      Next(t, s.retries + 1);
    }
  }

  lemma {:induction false} StaysSilent(cfg: Config, s: Server, h: int, d: int, ticks: seq<int>)
    requires HeardAt(s, h) && Regular(h, d, ticks)
    requires cfg.retryNumber >= 1 && 0 <= d <= cfg.timeout && cfg.interval >= 0
    ensures Silent(cfg, Ticked(cfg, s, ticks), h, d, Latest(h, ticks))
  {
    if ticks != [] {
      var front := ticks[..|ticks| - 1];
      StaysSilent(cfg, s, h, d, front);
      TickKeepsSilent(cfg, Ticked(cfg, s, front), h, d, Latest(h, front), ticks[|ticks| - 1]);
    }
  }

  /** How long a silent server is tolerated at least. */
  function Patience(cfg: Config): int {
    cfg.interval + cfg.retryNumber * cfg.timeout
  }

  /**
   A server last heard at `h` and then silent is online after every tick up to `h` plus the
   patience; the tick that takes it offline comes later than that, by at most 2d.
   */
  lemma FailureIsDetectedInTime(cfg: Config, s: Server, h: int, d: int, ticks: seq<int>)
    requires HeardAt(s, h) && Regular(h, d, ticks)
    requires cfg.retryNumber >= 1 && 0 <= d <= cfg.timeout && cfg.interval >= 0
    ensures
      var now, online := Latest(h, ticks), Ticked(cfg, s, ticks).online;
      && (now <= h + Patience(cfg) ==> online)
      && (now > h + Patience(cfg) + d ==> !online)
      && (ticks != [] && !online && Ticked(cfg, s, ticks[..|ticks| - 1]).online ==>
            h + Patience(cfg) < now <= h + Patience(cfg) + 2 * d)
  {
    OnlineIsEarly(cfg, s, h, d, ticks);
    if ticks != [] { OnlineIsEarly(cfg, s, h, d, ticks[..|ticks| - 1]); }
  }

  lemma OnlineIsEarly(cfg: Config, s: Server, h: int, d: int, ticks: seq<int>)
    requires HeardAt(s, h) && Regular(h, d, ticks)
    requires cfg.retryNumber >= 1 && 0 <= d <= cfg.timeout && cfg.interval >= 0
    ensures
      var now, online := Latest(h, ticks), Ticked(cfg, s, ticks).online;
      (online ==> now <= h + Patience(cfg) + d) && (!online ==> now > h + Patience(cfg))
  {
    StaysSilent(cfg, s, h, d, ticks);
    var u, r, t := Ticked(cfg, s, ticks), cfg.retryNumber, cfg.timeout;
    assert t * r == r * t;
    if u.checking {
      if u.online { Multiply(t, u.retries + 1, r); } else { Multiply(t, r, u.retries); }
    }
    Multiply(t, 0, r);
  }

  /**
   Online or offline, a silent server is asked again whenever another timeout has passed since it
   was first asked: its retries are the timeouts passed, and it is offline once they are enough.
   */
  lemma RetriesCountTimeouts(cfg: Config, s: Server, h: int, d: int, ticks: seq<int>)
    requires HeardAt(s, h) && Regular(h, d, ticks)
    requires cfg.retryNumber >= 1 && 0 <= d <= cfg.timeout && cfg.interval >= 0
    ensures
      var u, now := Ticked(cfg, s, ticks), Latest(h, ticks);
      && (u.checking <==> u.timestamp != h)
      && (u.checking ==>
            && h + cfg.interval < u.timestamp <= h + cfg.interval + d
            && (u.retries == 0 || cfg.timeout * u.retries < now - u.timestamp) && now - u.timestamp <= cfg.timeout * (u.retries + 1)
            && (u.online <==> u.retries < cfg.retryNumber))
  {
    StaysSilent(cfg, s, h, d, ticks);
  }

  // ---------- The same within any run of the adapter ----------

  function Record(servers: seq<Server>, id: nat): (s: Server)
    requires id in Ids(servers)
    ensures s.id == id
  {
    if servers[0].id == id then servers[0] else Record(servers[1..], id)
  }

  /** A server's record without its reference count. */
  function Health(s: Server): Server {
    s.(refs := 0)
  }

  /** The servers left are as healthy as before. */
  ghost predicate Similar(a: seq<Server>, b: seq<Server>) {
    forall id :: id in Ids(b) ==> id in Ids(a) && Health(Record(b, id)) == Health(Record(a, id))
  }

  lemma {:induction false} AcquireIsSimilar(servers: seq<Server>, id: nat)
    ensures Similar(servers, Acquire(servers, id))
  {
    if servers != [] { AcquireIsSimilar(servers[1..], id); }
  }

  lemma {:induction false} ReleaseIsSimilar(servers: seq<Server>, id: nat)
    requires UniqueIds(servers)
    ensures Similar(servers, Release(servers, id))
    ensures UniqueIds(Release(servers, id))
  {
    if servers != [] { ReleaseIsSimilar(servers[1..], id); }
  }

  lemma {:induction false} AcquireKeepsIds(servers: seq<Server>, id: nat)
    requires UniqueIds(servers)
    ensures UniqueIds(Acquire(servers, id)) && Ids(Acquire(servers, id)) == Ids(servers)
  {
    if servers != [] { AcquireKeepsIds(servers[1..], id); }
  }

  lemma {:induction false} ReleaseAllIsSimilar(servers: seq<Server>, gone: seq<Route>)
    requires UniqueIds(servers)
    ensures Similar(servers, ReleaseAll(servers, gone)) && UniqueIds(ReleaseAll(servers, gone))
    decreases |gone|
  {
    if gone != [] {
      ReleaseIsSimilar(servers, gone[0].server);
      ReleaseAllIsSimilar(Release(servers, gone[0].server), gone[1..]);
    }
  }

  /** Packets do not touch the health of any server. */
  lemma PacketsSpareHealth(cfg: Config, st: State, key: Key, flags: Flags, now: int)
    requires Inv(st)
    ensures Similar(st.servers, RouteTcp(cfg, st, key, flags, now).1.servers)
  {
    var swept := Sweep(st.routes, key, now, cfg.routeLimit);
    var servers := ReleaseAll(st.servers, swept.gone);
    CountedIsValid(st.servers, Owners(st.routes));
    ReleaseAllIsSimilar(st.servers, swept.gone);
    if flags == TH_SYN {
      var position := Choose(servers, st.pollIndex, key.mode, cfg.algorithm).0;
      if position.Some? {
        var id := servers[position.value].id;
        AcquireIsSimilar(servers, id);
        AcquireKeepsIds(servers, id);
        if swept.found.Some? { ReleaseIsSimilar(Acquire(servers, id), swept.found.value.server); }
      }
    } else if swept.found.Some? {
      ReleaseIsSimilar(servers, swept.found.value.server);
    }
  }

  lemma {:induction false} RecordInTick(cfg: Config, servers: seq<Server>, now: int, id: nat)
    requires id in Ids(servers)
    ensures id in Ids(TickAll(cfg, servers, now))
    ensures Record(TickAll(cfg, servers, now), id) == TickServer(cfg, Record(servers, id), now)
  {
    if servers[0].id != id { RecordInTick(cfg, servers[1..], now, id); }
  }

  lemma {:induction false} RecordSurvivesUpdate(servers: seq<Server>, i: nat, s: Server, id: nat)
    requires i < |servers| && s.id == servers[i].id && id in Ids(servers) && servers[i].mac != Record(servers, id).mac
    ensures id in Ids(servers[i := s]) && Record(servers[i := s], id) == Record(servers, id)
  {
    if i > 0 && servers[0].id != id {
      assert servers[i := s][1..] == servers[1..][i - 1 := s];
      RecordSurvivesUpdate(servers[1..], i - 1, s, id);
    }
  }

  lemma {:induction false} RecordSurvivesAppend(servers: seq<Server>, s: Server, id: nat)
    requires id in Ids(servers)
    ensures id in Ids(servers + [s]) && Record(servers + [s], id) == Record(servers, id)
  {
    assert (servers + [s])[1..] == servers[1..] + [s];
    if servers[0].id != id { RecordSurvivesAppend(servers[1..], s, id); }
  }

  lemma {:induction false} RecordDeleted(servers: seq<Server>, id: nat)
    requires id in Ids(servers)
    ensures Deleted(servers, id) == Record(servers, id).deleted
  {
    if servers[0].id != id { RecordDeleted(servers[1..], id); }
  }

  /** The step neither hears nor reconfigures nor deletes the server with this address. */
  predicate Silences(step: Step, mac: nat) {
    match step
    case AddServer(info, _) => info.mac != mac
    case DeleteServer(m) => m != mac
    case CheckingFrame(m, _) => m != mac
    case _ => true
  }

  lemma StepOnHealth(cfg: Config, st: State, step: Step, id: nat)
    requires Inv(st) && Allowed(st, step) && id in Ids(st.servers)
    requires !Record(st.servers, id).deleted && Silences(step, Record(st.servers, id).mac)
    ensures
      var s, servers := Record(st.servers, id), Apply(cfg, st, step).servers;
      id in Ids(servers) && Health(Record(servers, id)) == Health(if step.Tick? then TickServer(cfg, s, step.now) else s)
  {
    RecordDeleted(st.servers, id);
    match step
    case AddServer(info, now) =>
      match FindServer(st.servers, info.mac) {
        case Some(i) => RecordSurvivesUpdate(st.servers, i, WithInfo(st.servers[i], info), id);
        case None => RecordSurvivesAppend(st.servers, WithInfo(Allocated(st.nextId, now), info), id);
      }
    case DeleteServer(mac) => DeleteOnHealth(st, mac, id);
    case Tick(now) => RecordInTick(cfg, st.servers, now, id);
    case CheckingFrame(mac, now) =>
      match FindServer(st.servers, mac) {
        case Some(i) => RecordSurvivesUpdate(st.servers, i, Heard(st.servers[i], now), id);
        case None =>
      }
    case Packet(key, flags, now) =>
      RouteKeepsInv(cfg, st, key, flags, now);
      PacketsSpareHealth(cfg, st, key, flags, now);
  }

  lemma DeleteOnHealth(st: State, mac: nat, id: nat)
    requires Inv(st) && id in Ids(st.servers)
    requires !Record(st.servers, id).deleted && mac != Record(st.servers, id).mac
    ensures id in Ids(Delete(st, mac).servers) && Health(Record(Delete(st, mac).servers, id)) == Health(Record(st.servers, id))
  {
    var found := FindServer(st.servers, mac);
    if found.Some? && !st.servers[found.value].deleted {
      var i, owners := found.value, Owners(st.routes);
      var s := st.servers[i];
      var marked := st.servers[i := s.(deleted := true)];
      RecordSurvivesUpdate(st.servers, i, s.(deleted := true), id);
      RecordDeleted(marked, id);
      MarkCounted(st.servers, owners, i);
      CountedIsValid(marked, owners + multiset{s.id});
      ReleaseIsSimilar(marked, s.id);
      ReleaseHeld(marked, owners + multiset{s.id}, s.id);
    }
  }

  function TickTimes(steps: seq<Step>): seq<int>
    decreases |steps|
  {
    if steps == [] then []
    else TickTimes(steps[..|steps| - 1]) + (if steps[|steps| - 1].Tick? then [steps[|steps| - 1].now] else [])
  }

  lemma {:induction false} RunSnoc(cfg: Config, st: State, steps: seq<Step>, step: Step)
    ensures Run(cfg, st, steps + [step]) == Apply(cfg, Run(cfg, st, steps), step)
    ensures AllowedRun(cfg, st, steps + [step]) == (AllowedRun(cfg, st, steps) && Allowed(Run(cfg, st, steps), step))
    decreases |steps|
  {
    if steps == [] {
      assert [] + [step] == [step] && [step][1..] == [];
    } else {
      assert (steps + [step])[1..] == steps[1..] + [step];
      RunSnoc(cfg, Apply(cfg, st, steps[0]), steps[1..], step);
    }
  }

  lemma TickOnHealth(cfg: Config, a: Server, b: Server, now: int)
    requires Health(a) == Health(b)
    ensures Health(TickServer(cfg, a, now)) == Health(TickServer(cfg, b, now))
  {
    assert a == b.(refs := a.refs);
  }

  lemma {:induction false} TickedKeepsIdentity(cfg: Config, s: Server, ticks: seq<int>)
    ensures Ticked(cfg, s, ticks).mac == s.mac && Ticked(cfg, s, ticks).deleted == s.deleted
  {
    if ticks != [] { TickedKeepsIdentity(cfg, s, ticks[..|ticks| - 1]); }
  }

  /** In any run that leaves a server alone, its health is what the run's ticks make of it. */
  lemma {:induction false} RunOnHealth(cfg: Config, st: State, steps: seq<Step>, id: nat)
    requires Inv(st) && AllowedRun(cfg, st, steps) && id in Ids(st.servers) && !Record(st.servers, id).deleted
    requires forall i :: 0 <= i < |steps| ==> Silences(steps[i], Record(st.servers, id).mac)
    ensures
      var servers := Run(cfg, st, steps).servers;
      id in Ids(servers) && Health(Record(servers, id)) == Health(Ticked(cfg, Record(st.servers, id), TickTimes(steps)))
    decreases |steps|
  {
    if steps != [] {
      var front, step, s := steps[..|steps| - 1], steps[|steps| - 1], Record(st.servers, id);
      assert steps == front + [step];
      RunSnoc(cfg, st, front, step);
      RunOnHealth(cfg, st, front, id);
      var before := Run(cfg, st, front);
      var ticked := Ticked(cfg, s, TickTimes(front));
      assert id in Ids(before.servers) && Health(Record(before.servers, id)) == Health(ticked);
      RunKeepsInv(cfg, st, front);
      TickedKeepsIdentity(cfg, s, TickTimes(front));
      StepOnHealth(cfg, before, step, id);
      if step.Tick? {
        TickOnHealth(cfg, Record(before.servers, id), ticked, step.now);
        assert TickTimes(steps)[..|TickTimes(steps)| - 1] == TickTimes(front);
      } else {
        assert TickTimes(steps) == TickTimes(front);
      }
    }
  }

  /**
   The bound within the whole adapter: in any run in which nothing is heard from the server, nor
   is it reconfigured or deleted, whatever else happens.
   */
  lemma SilentServerGoesOffline(cfg: Config, st: State, steps: seq<Step>, id: nat, h: int, d: int)
    requires Inv(st) && AllowedRun(cfg, st, steps) && id in Ids(st.servers) && HeardAt(Record(st.servers, id), h)
    requires forall i :: 0 <= i < |steps| ==> Silences(steps[i], Record(st.servers, id).mac)
    requires Regular(h, d, TickTimes(steps))
    requires cfg.retryNumber >= 1 && 0 <= d <= cfg.timeout && cfg.interval >= 0
    ensures
      var now, servers := Latest(h, TickTimes(steps)), Run(cfg, st, steps).servers;
      && id in Ids(servers)
      && (now <= h + Patience(cfg) ==> Record(servers, id).online)
      && (now > h + Patience(cfg) + d ==> !Record(servers, id).online)
  {
    RunOnHealth(cfg, st, steps, id);
    FailureIsDetectedInTime(cfg, Record(st.servers, id), h, d, TickTimes(steps));
  }

  // ---------- Servers that answer ----------

  lemma {:induction false} RecordUpdated(servers: seq<Server>, i: nat, s: Server)
    requires UniqueIds(servers) && i < |servers| && s.id == servers[i].id
    ensures s.id in Ids(servers[i := s]) && Record(servers[i := s], s.id) == s
    ensures s.id in Ids(servers) && Record(servers, s.id) == servers[i]
  {
    if i > 0 {
      IdAt(servers[1..], i - 1);
      assert servers[i := s][1..] == servers[1..][i - 1 := s];
      RecordUpdated(servers[1..], i - 1, s);
    }
  }

  lemma {:induction false} RecordAt(servers: seq<Server>, id: nat) returns (i: nat)
    requires id in Ids(servers)
    ensures i < |servers| && servers[i] == Record(servers, id)
  {
    if servers[0].id == id {
      i := 0;
    } else {
      i := RecordAt(servers[1..], id);
      i := i + 1;
    }
  }

  /** A frame from a listed server makes it online and unchecked, online or not before. */
  lemma AnswerIsHeard(st: State, id: nat, now: int)
    requires Inv(st) && id in Ids(st.servers) && !Record(st.servers, id).deleted
    ensures
      var servers := Hear(st, Record(st.servers, id).mac, now).servers;
      id in Ids(servers) && HeardAt(Record(servers, id), now) && Record(servers, id).mac == Record(st.servers, id).mac
  {
    var mac := Record(st.servers, id).mac;
    var j := RecordAt(st.servers, id);
    if FindServer(st.servers, mac).None? { FindServerMisses(st.servers, mac); }
    var i := FindServer(st.servers, mac).value;
    assert i == j;
    CountedIsValid(st.servers, Owners(st.routes));
    RecordUpdated(st.servers, i, Heard(st.servers[i], now));
  }

  /** When a server was heard last, and when it was asked if that request is pending. */
  datatype Exchange = Exchange(heard: int, asked: Option<int>)

  function Exchanged(cfg: Config, mac: nat, x: Exchange, step: Step): Exchange {
    match step
    case CheckingFrame(m, now) => if m == mac then Exchange(now, None) else x
    case Tick(now) => if x.asked.None? && now - x.heard > cfg.interval then x.(asked := Some(now)) else x
    case _ => x
  }

  /** No tick finds a request to the server pending for more than the timeouts it is granted. */
  predicate InTime(cfg: Config, x: Exchange, step: Step) {
    step.Tick? && x.asked.Some? ==> step.now - x.asked.value <= cfg.timeout * cfg.retryNumber
  }

  /** The server with this address answers all requests in time, and is neither reconfigured nor deleted. */
  predicate Answering(cfg: Config, mac: nat, x: Exchange, steps: seq<Step>)
    decreases |steps|
  {
    steps != [] ==>
      && InTime(cfg, x, steps[0]) && (steps[0].CheckingFrame? || Silences(steps[0], mac))
      && Answering(cfg, mac, Exchanged(cfg, mac, x, steps[0]), steps[1..])
  }

  predicate Awaits(cfg: Config, s: Server, x: Exchange) {
    && s.online && !s.deleted && s.checking == x.asked.Some?
    && s.timestamp == (if x.asked.Some? then x.asked.value else x.heard)
    && (x.asked.Some? ==> s.retries < cfg.retryNumber)
  }

  lemma TickedAwaits(cfg: Config, s: Server, x: Exchange, now: int)
    requires Awaits(cfg, s, x) && InTime(cfg, x, Tick(now)) && cfg.retryNumber >= 1
    ensures Awaits(cfg, TickServer(cfg, s, now), Exchanged(cfg, s.mac, x, Tick(now)))
    ensures TickServer(cfg, s, now).mac == s.mac
  {
    if x.asked.Some? && s.retries + 1 == cfg.retryNumber {
      assert cfg.timeout * (s.retries + 1) == cfg.timeout * cfg.retryNumber;
    }
  }

  lemma AwaitsThroughStep(cfg: Config, st: State, step: Step, id: nat, x: Exchange)
    requires Inv(st) && Allowed(st, step) && cfg.retryNumber >= 1
    requires id in Ids(st.servers) && Awaits(cfg, Record(st.servers, id), x) && InTime(cfg, x, step)
    requires step.CheckingFrame? || Silences(step, Record(st.servers, id).mac)
    ensures
      var mac, servers := Record(st.servers, id).mac, Apply(cfg, st, step).servers;
      && id in Ids(servers) && Record(servers, id).mac == mac
      && Awaits(cfg, Record(servers, id), Exchanged(cfg, mac, x, step))
  {
    var s := Record(st.servers, id);
    if step.CheckingFrame? && step.mac == s.mac {
      AnswerIsHeard(st, id, step.now);
    } else {
      StepOnHealth(cfg, st, step, id);
      var s' := Record(Apply(cfg, st, step).servers, id);
      if step.Tick? {
        TickedAwaits(cfg, s, x, step.now);
        assert s' == TickServer(cfg, s, step.now).(refs := s'.refs);
      } else {
        assert s' == s.(refs := s'.refs);
      }
    }
  }

  lemma {:induction false} AwaitsThroughRun(cfg: Config, st: State, steps: seq<Step>, id: nat, x: Exchange)
    requires Inv(st) && AllowedRun(cfg, st, steps) && cfg.retryNumber >= 1
    requires id in Ids(st.servers) && Awaits(cfg, Record(st.servers, id), x)
    requires Answering(cfg, Record(st.servers, id).mac, x, steps)
    ensures id in Ids(Run(cfg, st, steps).servers) && Record(Run(cfg, st, steps).servers, id).online
    decreases |steps|
  {
    if steps != [] {
      var mac := Record(st.servers, id).mac;
      ApplyKeepsInv(cfg, st, steps[0]);
      AwaitsThroughStep(cfg, st, steps[0], id, x);
      AwaitsThroughRun(cfg, Apply(cfg, st, steps[0]), steps[1..], id, Exchanged(cfg, mac, x, steps[0]));
    }
  }

  /**
   A server that sends a frame, offline or not before, is online, and stays so over any run in which
   it answers every request before the timeouts granted are over.
   */
  lemma AnsweringServerStaysOnline(cfg: Config, st: State, id: nat, now: int, steps: seq<Step>)
    requires Inv(st) && id in Ids(st.servers) && !Record(st.servers, id).deleted && cfg.retryNumber >= 1
    requires
      var mac := Record(st.servers, id).mac;
      var heard := Apply(cfg, st, CheckingFrame(mac, now));
      AllowedRun(cfg, heard, steps) && Answering(cfg, mac, Exchange(now, None), steps)
    ensures
      var servers := Run(cfg, Apply(cfg, st, CheckingFrame(Record(st.servers, id).mac, now)), steps).servers;
      id in Ids(servers) && Record(servers, id).online
  {
    var step := CheckingFrame(Record(st.servers, id).mac, now);
    AnswerIsHeard(st, id, now);
    ApplyKeepsInv(cfg, st, step);
    AwaitsThroughRun(cfg, Apply(cfg, st, step), steps, id, Exchange(now, None));
  }
}

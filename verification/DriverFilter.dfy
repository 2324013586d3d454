/**
 One adapter in the router role as a state machine: its servers, its route table, and the
 handlers that change them.  Each handler is one atomic step; what the state becomes is given by
 a function, and class `Filter` does the same in place.
 */
module DriverFilter {
  import opened Options
  import opened DriverServers

  // ---------- Routes ----------

  datatype RouteStatus = NoStatus | Normal | LastAck | Closed

  datatype Key = Key(mode: IpMode, source: nat, sourcePort: nat, destinationPort: nat)

  datatype Route = Route(key: Key, status: RouteStatus, server: nat, timestamp: int)

  /** The flag byte of a TCP header; `others` holds the bits the driver never looks at singly. */
  datatype Flags = Flags(syn: bool, fin: bool, rst: bool, ack: bool, others: nat)

  const TH_SYN := Flags(true, false, false, false, 0)

  /** Times are in ticks of the performance counter: each limit is its setting times the frequency. */
  datatype Config = Config(routeLimit: int, algorithm: Algorithm, timeout: int, interval: int, retryNumber: int)

  predicate Expired(r: Route, now: int, limit: int) {
    now - r.timestamp > limit
  }

  /** A scan of the table for `key`: what it kept before the match, the match, what it left alone, what it deleted. */
  datatype Swept = Swept(before: seq<Route>, found: Option<Route>, after: seq<Route>, gone: seq<Route>)

  /** `GetRouteListEntry` */
  function Sweep(routes: seq<Route>, key: Key, now: int, limit: int): (r: Swept)
    ensures r.found.Some? ==> r.found.value.key == key
  {
    if routes == [] then Swept([], None, [], [])
    else if routes[0].key == key then Swept([], Some(routes[0].(timestamp := now)), routes[1..], [])
    else
      var r := Sweep(routes[1..], key, now, limit);
      if Expired(routes[0], now, limit) then r.(gone := [routes[0]] + r.gone)
      else r.(before := [routes[0]] + r.before)
  }

  function Matched(r: Swept): seq<Route> {
    match r.found
    case Some(m) => [m]
    case None => []
  }

  function Remaining(r: Swept): seq<Route> {
    r.before + Matched(r) + r.after
  }

  /** `DecRefListEntry` for the server of each route. */
  function ReleaseAll(servers: seq<Server>, gone: seq<Route>): seq<Server>
    decreases |gone|
  {
    if gone == [] then servers else ReleaseAll(Release(servers, gone[0].server), gone[1..])
  }

  /** How a client's packet that is no plain SYN moves its connection on. */
  function NextStatus(status: RouteStatus, flags: Flags): RouteStatus {
    if flags.ack && status == LastAck then Closed
    else if flags.fin then LastAck
    else if flags.rst then Closed
    else status
  }

  // ---------- The state and its steps ----------

  /** `nextId` is the address the next server to be allocated gets. */
  datatype State = State(servers: seq<Server>, pollIndex: nat, routes: seq<Route>, nextId: nat)

  /** `LCXL_SERVER` as an application passes it. */
  datatype Info = Info(mac: nat, ipv4: bool, ipv6: bool, online: bool, checking: bool, deleted: bool)

  datatype Step =
    | AddServer(info: Info, now: int)
    | DeleteServer(mac: nat)
    | Tick(now: int)
    | CheckingFrame(mac: nat, now: int)
    | Packet(key: Key, flags: Flags, now: int)

  /** `FindServer`: the first server with this address. */
  function FindServer(servers: seq<Server>, mac: nat): (r: Option<nat>)
    ensures r.Some? ==> r.value < |servers| && servers[r.value].mac == mac
  {
    if servers == [] then None
    else if servers[0].mac == mac then Some(0)
    else
      match FindServer(servers[1..], mac)
      case Some(i) => Some(i + 1)
      case None => None
  }

  function WithInfo(s: Server, info: Info): Server {
    s.(mac := info.mac, ipv4 := info.ipv4, ipv6 := info.ipv6, online := info.online, checking := info.checking, deleted := info.deleted)
  }

  /** `AllocServer`: it holds one reference for being listed. */
  function Allocated(id: nat, now: int): Server {
    Server(id, 0, false, false, false, false, false, 1, now, 0)
  }

  function Add(st: State, info: Info, now: int): State {
    match FindServer(st.servers, info.mac)
    case Some(i) => st.(servers := st.servers[i := WithInfo(st.servers[i], info)])
    case None => st.(servers := st.servers + [WithInfo(Allocated(st.nextId, now), info)], nextId := st.nextId + 1)
  }

  function Delete(st: State, mac: nat): State {
    match FindServer(st.servers, mac)
    case None => st
    case Some(i) =>
      var s := st.servers[i];
      if s.deleted then st
      else st.(servers := Release(st.servers[i := s.(deleted := true)], s.id))
  }

  /** One server in `CheckServerStatus`. */
  function TickServer(cfg: Config, s: Server, now: int): Server {
    if s.deleted then s
    else if !s.online then
      if now - s.timestamp > cfg.timeout * (s.retries + 1) then s.(retries := s.retries + 1) else s
    else if s.checking then
      if now - s.timestamp > cfg.timeout * (s.retries + 1) then
        s.(retries := s.retries + 1, online := s.retries + 1 < cfg.retryNumber)
      else s
    else if now - s.timestamp > cfg.interval then s.(retries := 0, checking := true, timestamp := now)
    else s
  }

  function TickAll(cfg: Config, servers: seq<Server>, now: int): (r: seq<Server>)
    ensures |r| == |servers|
  {
    if servers == [] then [] else [TickServer(cfg, servers[0], now)] + TickAll(cfg, servers[1..], now)
  }

  /** A server that sent a checking frame is online and no longer being checked. */
  function Heard(s: Server, now: int): Server {
    s.(timestamp := now, online := true, checking := false)
  }

  function Hear(st: State, mac: nat, now: int): State {
    match FindServer(st.servers, mac)
    case None => st
    case Some(i) => st.(servers := st.servers[i := Heard(st.servers[i], now)])
  }

  /** `RouteTCPNBL`, and the deletion of a closed route that follows it: the server the packet goes to, if any. */
  function RouteTcp(cfg: Config, st: State, key: Key, flags: Flags, now: int): (Option<nat>, State) {
    var swept := Sweep(st.routes, key, now, cfg.routeLimit);
    var servers := ReleaseAll(st.servers, swept.gone);
    if flags == TH_SYN then Connect(cfg, st.(servers := servers), key, now, swept)
    else Continue(st.(servers := servers), flags, swept)
  }

  /** Any other packet follows the route there is; a connection that it closes loses its route. */
  function Continue(st: State, flags: Flags, swept: Swept): (Option<nat>, State) {
    match swept.found
    case None => (None, st.(routes := swept.before))
    case Some(r) =>
      var status := NextStatus(r.status, flags);
      if status == Closed then (Some(r.server), st.(servers := Release(st.servers, r.server), routes := swept.before + swept.after))
      else (Some(r.server), st.(routes := swept.before + [r.(status := status)] + swept.after))
  }

  /** A plain SYN: the connection is bound to a server selected now. */
  function Connect(cfg: Config, st: State, key: Key, now: int, swept: Swept): (Option<nat>, State) {
    var (position, index) := Choose(st.servers, st.pollIndex, key.mode, cfg.algorithm);
    match position
    case None => (None, st.(pollIndex := index, routes := Remaining(swept)))
    case Some(i) =>
      var id := st.servers[i].id;
      var servers := Acquire(st.servers, id);
      var route := Route(key, Normal, id, now);
      match swept.found
      case None => (Some(id), st.(servers := servers, pollIndex := index, routes := [route] + swept.before))
      case Some(r) =>
        (Some(id), st.(servers := Release(servers, r.server), pollIndex := index, routes := swept.before + [route] + swept.after))
  }

  function Apply(cfg: Config, st: State, step: Step): State {
    match step
    case AddServer(info, now) => Add(st, info, now)
    case DeleteServer(mac) => Delete(st, mac)
    case Tick(now) => st.(servers := TickAll(cfg, st.servers, now))
    case CheckingFrame(mac, now) => Hear(st, mac, now)
    case Packet(key, flags, now) => RouteTcp(cfg, st, key, flags, now).1
  }

  // ---------- What a scan does ----------

  /** The entries of a stretch that were heard within the limit. */
  function Live(routes: seq<Route>, now: int, limit: int): seq<Route> {
    if routes == [] then []
    else (if now - routes[0].timestamp > limit then [] else [routes[0]]) + Live(routes[1..], now, limit)
  }

  /** The position of the first route for `key`, or the length. */
  function FirstMatch(routes: seq<Route>, key: Key): (m: nat)
    ensures m <= |routes|
  {
    if routes == [] || routes[0].key == key then 0 else 1 + FirstMatch(routes[1..], key)
  }

  /**
   A scan removes exactly the expired entries before the match, or all expired entries if
   nothing matches; a match is refreshed even if it had expired.
   */
  lemma {:induction false} SweepIsExact(routes: seq<Route>, key: Key, now: int, limit: int)
    ensures
      var r, m := Sweep(routes, key, now, limit), FirstMatch(routes, key);
      && r.before == Live(routes[..m], now, limit)
      && (forall i :: 0 <= i < m ==> routes[i].key != key)
      && r.found == (if m < |routes| then Some(routes[m].(timestamp := now)) else None)
      && r.after == (if m < |routes| then routes[m + 1..] else [])
      && (m < |routes| ==> routes[m].key == key)
  {
    if routes != [] && routes[0].key != key {
      var m := FirstMatch(routes, key);
      SweepIsExact(routes[1..], key, now, limit);
      assert routes[..m][1..] == routes[1..][..m - 1];
    }
  }
}

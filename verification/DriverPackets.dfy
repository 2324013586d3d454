/**
 What `ProcessNBL` decides about one frame.  Frames are given by what the driver looks at: their
 kind and the outcome of each comparison of an address in them.
 */
module DriverPackets {

  /** `UnknownRole` is any other value of the setting. */
  datatype Role = UnknownRole | ServerRole | RouterRole

  datatype Code = Pass | Drop | Modify | Route | Icmpv6Ns | Icmpv6Na | CheckingNbl

  /** Whether a frame's source or destination is the virtual address. */
  datatype Ends = Ends(fromVirtual: bool, toVirtual: bool)

  /**
   `long` says that the frame holds the header of its protocol.  `destinationOk` and `sourceOk`
   say that the Ethernet address is the adapter's own or the broadcast address; `toSolicited`
   that the destination is the solicited-node address of the virtual one; `routed` that
   `RouteTCPNBL` would return a route.
   */
  datatype Frame =
    | Checking(long: bool, request: bool)
    | Arp(long: bool, forIPv4: bool, opcode: nat, senderVirtual: bool, targetVirtual: bool)
    | Tcp(long: bool, overIPv6: bool, destinationOk: bool, sourceOk: bool, ends: Ends, routed: bool)
    | Icmpv6(long: bool, kind: nat, ends: Ends, toSolicited: bool)
    | Udp6(long: bool, ends: Ends)
    | Other

  datatype Setting = Setting(role: Role, ipv4: bool, ipv6: bool)

  const ARP_REQUEST := 1
  const ARP_RESPONSE := 2
  const ROUTER_SOLICITATION := 133
  const NEIGHBOR_SOLICITATION := 135
  const NEIGHBOR_ADVERTISEMENT := 136

  function ProcessArp(role: Role, receiving: bool, f: Frame): Code
    requires f.Arp?
  {
    if !f.forIPv4 || role != ServerRole then Pass
    else if f.opcode == ARP_REQUEST then (if f.targetVirtual || f.senderVirtual then Drop else Pass)
    else if f.opcode == ARP_RESPONSE then (if f.senderVirtual then Drop else Pass)
    else Pass
  }

  function ProcessTcp(role: Role, receiving: bool, f: Frame): Code
    requires f.Tcp?
  {
    match role
    case RouterRole => if receiving && f.ends.toVirtual && f.routed then Route else Pass
    case ServerRole => if !receiving && f.ends.fromVirtual then Modify else Pass
    case UnknownRole => Pass
  }

  function ProcessUdp(role: Role, receiving: bool, f: Frame): Code
    requires f.Udp6?
  {
    if role == ServerRole && (if receiving then f.ends.toVirtual else f.ends.fromVirtual) then Drop else Pass
  }

  /** The case of neighbour solicitations, which that of router solicitations runs into. */
  function ProcessSolicitation(receiving: bool, f: Frame, code: Code): Code
    requires f.Icmpv6?
  {
    if f.toSolicited || f.ends.toVirtual then Drop
    else if !receiving && f.ends.fromVirtual then Icmpv6Ns
    else code
  }

  function ProcessIcmpv6(role: Role, receiving: bool, f: Frame): Code
    requires f.Icmpv6?
  {
    if role != ServerRole then Pass
    else if f.kind == ROUTER_SOLICITATION then
      ProcessSolicitation(receiving, f, if f.ends.fromVirtual && !receiving then Drop else Pass)
    else if f.kind == NEIGHBOR_SOLICITATION then ProcessSolicitation(receiving, f, Pass)
    else if f.kind == NEIGHBOR_ADVERTISEMENT then
      (if f.ends.fromVirtual then Drop else if f.ends.toVirtual && receiving then Icmpv6Na else Pass)
    else Pass
  }

  /** `ProcessNBL` */
  function Process(s: Setting, receiving: bool, f: Frame): Code {
    match f
    case Checking(long, request) => if long && receiving && request then CheckingNbl else Pass
    case Arp(long, _, _, _, _) => if long && s.ipv4 then ProcessArp(s.role, receiving, f) else Pass
    case Tcp(long, overIPv6, destinationOk, sourceOk, _, _) =>
      if !long || !(if overIPv6 then s.ipv6 else s.ipv4) then Pass
      else if if receiving then destinationOk else sourceOk then ProcessTcp(s.role, receiving, f)
      else Drop
    case Icmpv6(long, _, _, _) => if long && s.ipv6 then ProcessIcmpv6(s.role, receiving, f) else Pass
    case Udp6(long, _) => if long && s.ipv6 then ProcessUdp(s.role, receiving, f) else Pass
    case Other => Pass
  }

  // ---------- What the callers' switches handle ----------

  predicate PassedOnReceive(c: Code) {
    c == Pass || c == CheckingNbl
  }

  predicate HeldOnReceive(c: Code) {
    c == Drop || c == Route || c == Icmpv6Na
  }

  predicate PassedOnSend(c: Code) {
    c == Pass || c == Modify
  }

  predicate HeldOnSend(c: Code) {
    c == Drop || c == Icmpv6Ns
  }

  /** Each direction yields only codes that its switch puts into one of the two chains. */
  lemma EveryCodeIsHandled(s: Setting, receiving: bool, f: Frame)
    ensures receiving ==> PassedOnReceive(Process(s, receiving, f)) != HeldOnReceive(Process(s, receiving, f))
    ensures !receiving ==> PassedOnSend(Process(s, receiving, f)) != HeldOnSend(Process(s, receiving, f))
  {
    if f.Icmpv6? {
      assert ProcessSolicitation(receiving, f, Pass) in {Pass, Drop, Icmpv6Ns};
    }
  }

  // ---------- What is left alone ----------

  /** The frame names the virtual address, or the solicited-node address that goes with it. */
  predicate NamesVirtual(f: Frame) {
    match f
    case Arp(_, _, _, sender, target) => sender || target
    case Tcp(_, _, _, _, ends, _) => ends.fromVirtual || ends.toVirtual
    case Icmpv6(_, _, ends, toSolicited) => ends.fromVirtual || ends.toVirtual || toSolicited
    case Udp6(_, ends) => ends.fromVirtual || ends.toVirtual
    case _ => false
  }

  /** The frame is as long as its header, and of a protocol that is switched on. */
  predicate Concerns(s: Setting, f: Frame) {
    match f
    case Checking(long, _) => long
    case Arp(long, _, _, _, _) => long && s.ipv4
    case Tcp(long, overIPv6, _, _, _, _) => long && (overIPv6 ==> s.ipv6) && (!overIPv6 ==> s.ipv4)
    case Icmpv6(long, _, _, _) => long && s.ipv6
    case Udp6(long, _) => long && s.ipv6
    case Other => false
  }

  /**
   The adapter is transparent to everything that does not name the virtual address, checking
   requests and TCP frames at the wrong Ethernet address apart, and without a role to those alone.
   */
  lemma OnlyVirtualTrafficIsTouched(s: Setting, receiving: bool, f: Frame)
    requires Process(s, receiving, f) != Pass
    ensures Concerns(s, f)
    ensures
      || (f.Checking? && f.request && receiving)
      || (f.Tcp? && !(if receiving then f.destinationOk else f.sourceOk))
      || (NamesVirtual(f) && s.role != UnknownRole)
  {
  }

  /** A frame by which a server, which has the virtual address without owning it, would ask or answer for it. */
  predicate GivesAway(receiving: bool, f: Frame) {
    match f
    case Arp(_, forIPv4, opcode, sender, target) =>
      forIPv4 && ((sender && opcode in {ARP_REQUEST, ARP_RESPONSE}) || (target && opcode == ARP_REQUEST))
    case Icmpv6(_, kind, ends, toSolicited) =>
      || (kind in {ROUTER_SOLICITATION, NEIGHBOR_SOLICITATION} && (toSolicited || ends.toVirtual))
      || (kind == NEIGHBOR_ADVERTISEMENT && ends.fromVirtual)
    case Udp6(_, ends) => if receiving then ends.toVirtual else ends.fromVirtual
    case _ => false
  }

  /** TCP at the wrong Ethernet address is dropped in any role, and else exactly what would give a server away. */
  lemma DroppedExactly(s: Setting, receiving: bool, f: Frame)
    ensures Process(s, receiving, f) == Drop <==>
      && Concerns(s, f)
      && if f.Tcp? then !(if receiving then f.destinationOk else f.sourceOk) else s.role == ServerRole && GivesAway(receiving, f)
  {
    if f.Icmpv6? {
      assert ProcessSolicitation(receiving, f, Pass) == Drop <==> f.toSolicited || f.ends.toVirtual;
    }
  }

  /**
   The frames that are not just passed or dropped: a server's TCP replies in the name of the virtual
   address are modified, its solicitations in that name replaced, and advertisements to it answered.
   */
  lemma HandledExactly(s: Setting, receiving: bool, f: Frame)
    ensures Process(s, receiving, f) == Modify <==>
      Concerns(s, f) && s.role == ServerRole && f.Tcp? && !receiving && f.sourceOk && f.ends.fromVirtual
    ensures Process(s, receiving, f) == Icmpv6Ns <==>
      && Concerns(s, f) && s.role == ServerRole && f.Icmpv6? && f.kind in {ROUTER_SOLICITATION, NEIGHBOR_SOLICITATION}
      && !receiving && f.ends.fromVirtual && !f.ends.toVirtual && !f.toSolicited
    ensures Process(s, receiving, f) == Icmpv6Na <==>
      && Concerns(s, f) && s.role == ServerRole && f.Icmpv6? && f.kind == NEIGHBOR_ADVERTISEMENT
      && receiving && f.ends.toVirtual && !f.ends.fromVirtual
    ensures Process(s, receiving, f) == CheckingNbl <==> Concerns(s, f) && f.Checking? && f.request && receiving
  {
    if f.Icmpv6? {
      assert ProcessSolicitation(receiving, f, Drop) in {Drop, Icmpv6Ns};
    }
  }

  // ---------- Particular frames ----------

  /** Only a router routes, and only what it receives for the virtual address at its own. */
  lemma OnlyRoutersRoute(s: Setting, receiving: bool, f: Frame)
    ensures Process(s, receiving, f) == Route <==>
      && s.role == RouterRole && receiving && f.Tcp? && f.long && (if f.overIPv6 then s.ipv6 else s.ipv4)
      && f.destinationOk && f.ends.toVirtual && f.routed
  {
    if f.Icmpv6? {
      assert ProcessSolicitation(receiving, f, Pass) != Route && ProcessSolicitation(receiving, f, Drop) != Route;
    }
  }

  /**
   A router solicitation sent from the virtual address is meant to be dropped, but its case runs
   into the next: it is dropped exactly when it goes to the virtual or the solicited-node address.
   */
  lemma RouterSolicitationRunsOn(s: Setting, f: Frame)
    requires s.role == ServerRole && s.ipv6 && f.Icmpv6? && f.long && f.kind == ROUTER_SOLICITATION && f.ends.fromVirtual
    ensures Process(s, false, f) == Drop <==> f.toSolicited || f.ends.toVirtual
    ensures Process(s, false, f) != Drop ==> Process(s, false, f) == Icmpv6Ns
  {
  }
}

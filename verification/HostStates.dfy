/** The host controller's state as a value: its three id maps, the blueprints it has
    been asked to run, and the commands it has issued (core/host-control.cxx:57-64). */
module HostStates {
  import opened Blueprints
  import opened IdCaches
  import opened Loads

  /** A virtual machine's network device: its vhost port and its mac. */
  datatype Device = Device(port: nat, mac: string)

  datatype Command =
    | AddBridge(bridge: nat)
    | AddPort(bridge: nat, port: nat)
    | DelBridge(bridge: nat)
    | StartVm(computer: Uuid, qk: nat, devices: seq<Device>)
    | StopVm(computer: Uuid)

  datatype HostState = HostState(
    bridge: IdMap<Uuid>, vhost: IdMap<string>, qk: IdMap<string>,
    live: map<Uuid, Blueprint>, commands: seq<Command>)
  {
    ghost predicate Sound() { bridge.Sound() && vhost.Sound() && qk.Sound() }
  }

  // ---- The keys a blueprint uses ----

  ghost function Elements(xs: seq<Uuid>): set<Uuid> { set x | x in xs }

  /** Different elements of `keys`. */
  ghost predicate Picked(xs: seq<Uuid>, keys: set<Uuid>) {
    Enumerates(xs, Elements(xs)) && Elements(xs) <= keys
  }

  ghost function RowMacs(row: seq<Attachment>): set<string> {
    set i | 0 <= i < |row| :: row[i].mac
  }

  /** The macs on the links of the networks `ns`. */
  ghost function MacsOn(b: Blueprint, ns: set<Uuid>): set<string> {
    set n, m | n in ns && m in RowMacs(Row(b, n)) :: m
  }

  ghost function PortMacs(b: Blueprint): set<string> { MacsOn(b, b.networks.Keys) }

  /** The control mac of `c`, if it has one. */
  function ControlMac(c: Computer): set<string> { if HasCifx(c) then {c.interfaces[CIFX].mac} else {} }

  ghost function ControlMacsOf(b: Blueprint, cs: set<Uuid>): set<string> {
    set c | c in cs && c in b.computers && HasCifx(b.computers[c]) :: b.computers[c].interfaces[CIFX].mac
  }

  ghost function ControlMacs(b: Blueprint): set<string> { ControlMacsOf(b, b.computers.Keys) }

  /** Every interface of `c` but the control one has its mac in `macs`. */
  ghost predicate PortsIn(c: Computer, macs: set<string>) {
    forall name :: name in c.interfaces && name != CIFX ==> c.interfaces[name].mac in macs
  }

  ghost predicate AllPortsIn(b: Blueprint, macs: set<string>) {
    forall c :: c in b.computers ==> PortsIn(b.computers[c], macs)
  }

  // ---- How the maps change ----

  /** `m'` keeps what `m` had, and its new keys got new ids in sequence. */
  ghost predicate Grew<K(!new)>(m: IdMap<K>, m': IdMap<K>) {
    && (m.Sound() ==> m'.Sound())
    && m.next <= m'.next
    && (forall k :: k in m.ids ==> k in m'.ids && m'.ids[k] == m.ids[k])
    && (forall k :: k in m'.ids && k !in m.ids ==> m.next <= m'.ids[k] < m'.next)
  }

  lemma CreatedGrew<K(!new)>(m: IdMap<K>, key: K)
    ensures Grew(m, m.Created(key))
  {
  }

  lemma GrewTransitive<K(!new)>(m: IdMap<K>, n: IdMap<K>, o: IdMap<K>)
    requires Grew(m, n) && Grew(n, o)
    ensures Grew(m, o)
  {
    hide IdMap<K>.Sound;
  }

  ghost predicate MapsGrew(s: HostState, t: HostState) {
    Grew(s.bridge, t.bridge) && Grew(s.vhost, t.vhost) && Grew(s.qk, t.qk)
  }

  lemma MapsGrewTransitive(s: HostState, t: HostState, u: HostState)
    requires MapsGrew(s, t) && MapsGrew(t, u)
    ensures MapsGrew(s, u)
  {
    GrewTransitive(s.bridge, t.bridge, u.bridge);
    GrewTransitive(s.vhost, t.vhost, u.vhost);
    GrewTransitive(s.qk, t.qk, u.qk);
  }

  lemma GrewItself(s: HostState)
    ensures MapsGrew(s, s)
  {
  }

  ghost function Dropped<K>(m: IdMap<K>, keys: set<K>): IdMap<K> { IdMap(m.next, m.ids - keys) }

  // ---- Commands ----

  /** All networks `ns` have a bridge, and all their links a port. */
  ghost predicate HaveIds(b: Blueprint, ns: seq<Uuid>, bridge: map<Uuid, nat>, vhost: map<string, nat>) {
    forall n :: n in ns ==> n in bridge && RowMacs(Row(b, n)) <= vhost.Keys
  }

  ghost function PortCommands(row: seq<Attachment>, bridge: nat, vhost: map<string, nat>): seq<Command>
    requires RowMacs(row) <= vhost.Keys
  {
    seq(|row|, i requires 0 <= i < |row| => assert row[i].mac in RowMacs(row); AddPort(bridge, vhost[row[i].mac]))
  }

  /** The bridge of each network, followed by the ports of its links in link order. */
  ghost function NetworkCommands(b: Blueprint, ns: seq<Uuid>, bridge: map<Uuid, nat>, vhost: map<string, nat>):
    seq<Command>
    requires HaveIds(b, ns, bridge, vhost)
  {
    if ns == [] then []
    else
      var n := ns[|ns| - 1];
      NetworkCommands(b, ns[..|ns| - 1], bridge, vhost)
      + [AddBridge(bridge[n])] + PortCommands(Row(b, n), bridge[n], vhost)
  }

  /** One device for each interface of `c` but the control one. */
  ghost predicate DevicesOf(c: Computer, vhost: map<string, nat>, devices: seq<Device>) {
    exists names :: Enumerates(names, c.interfaces.Keys - {CIFX}) && DevicesNamed(c, vhost, names, devices)
  }

  ghost predicate DevicesNamed(c: Computer, vhost: map<string, nat>, names: seq<string>, devices: seq<Device>) {
    && |devices| == |names|
    && forall i :: 0 <= i < |names| ==>
         && names[i] in c.interfaces && c.interfaces[names[i]].mac in vhost
         && devices[i] == Device(vhost[c.interfaces[names[i]].mac], c.interfaces[names[i]].mac)
  }

  ghost predicate Starts(c: Computer, vhost: map<string, nat>, qk: map<string, nat>, x: Command) {
    && HasCifx(c) && c.interfaces[CIFX].mac in qk
    && x.StartVm? && x.computer == c.id && x.qk == qk[c.interfaces[CIFX].mac] && DevicesOf(c, vhost, x.devices)
  }

  ghost predicate StartsAll(b: Blueprint, cs: seq<Uuid>, vhost: map<string, nat>, qk: map<string, nat>,
                            xs: seq<Command>) {
    |xs| == |cs| && forall i :: 0 <= i < |cs| ==> cs[i] in b.computers && Starts(b.computers[cs[i]], vhost, qk, xs[i])
  }

  ghost function StopCommands(b: Blueprint, cs: seq<Uuid>): seq<Command>
    requires Elements(cs) <= b.computers.Keys
  {
    seq(|cs|, i requires 0 <= i < |cs| => assert cs[i] in Elements(cs); StopVm(b.computers[cs[i]].id))
  }

  ghost function DelCommands(ns: seq<Uuid>, bridge: map<Uuid, nat>): seq<Command>
    requires Elements(ns) <= bridge.Keys
  {
    seq(|ns|, i requires 0 <= i < |ns| => assert ns[i] in Elements(ns); DelBridge(bridge[ns[i]]))
  }

  // ---- What construct and destruct leave behind ----

  /** The networks `ns` were launched, the computers `cs` given control ids, and the
      first `k` of these computers started. */
  ghost predicate Launched(b: Blueprint, s: HostState, t: HostState, ns: seq<Uuid>, cs: seq<Uuid>, k: nat) {
    && MapsGrew(s, t) && t.live == s.live[b.id := b]
    && Picked(ns, b.networks.Keys) && Picked(cs, b.computers.Keys) && k <= |cs|
    && t.bridge.ids.Keys == s.bridge.ids.Keys + Elements(ns)
    && t.vhost.ids.Keys == s.vhost.ids.Keys + MacsOn(b, Elements(ns))
    && t.qk.ids.Keys == s.qk.ids.Keys + ControlMacsOf(b, Elements(cs))
    && HaveIds(b, ns, t.bridge.ids, t.vhost.ids)
    && exists starts ::
         && StartsAll(b, cs[..k], t.vhost.ids, t.qk.ids, starts)
         && t.commands == s.commands + NetworkCommands(b, ns, t.bridge.ids, t.vhost.ids) + starts
  }

  /** What `construct` does when it succeeds. */
  ghost predicate Constructed(b: Blueprint, s: HostState, t: HostState) {
    exists ns, cs ::
      Launched(b, s, t, ns, cs, |cs|) && Elements(ns) == b.networks.Keys && Elements(cs) == b.computers.Keys
  }

  /** It stops at a network with an unreadable link, whose bridge is there already, or at
      a computer without a control interface or a port, whose control id may be. */
  ghost predicate HalfConstructed(b: Blueprint, s: HostState, t: HostState) {
    exists ns, cs, k :: Launched(b, s, t, ns, cs, k) && LaunchStopped(b, t, ns, cs, k)
  }

  ghost predicate LaunchStopped(b: Blueprint, t: HostState, ns: seq<Uuid>, cs: seq<Uuid>, k: nat) {
    if cs == [] then ns != [] && ConnectedComputers(b, ns[|ns| - 1]).Err?
    else
      && Elements(ns) == b.networks.Keys && k == |cs| - 1 && cs[k] in b.computers
      && CannotStart(b.computers[cs[k]], t.vhost.ids.Keys)
  }

  ghost predicate CannotStart(c: Computer, macs: set<string>) { !HasCifx(c) || !PortsIn(c, macs) }

  /** The computers `cs` were stopped and the networks `ns` taken down. The blueprint stays
      in `live`. */
  ghost predicate TornDown(b: Blueprint, s: HostState, t: HostState, cs: seq<Uuid>, ns: seq<Uuid>) {
    && t.live == s.live
    && Picked(cs, b.computers.Keys) && Picked(ns, b.networks.Keys) && Elements(ns) <= s.bridge.ids.Keys
    && t.bridge == Dropped(s.bridge, Elements(ns))
    && t.vhost == Dropped(s.vhost, MacsOn(b, Elements(ns)))
    && t.qk == Dropped(s.qk, ControlMacsOf(b, Elements(cs)))
    && t.commands == s.commands + StopCommands(b, cs) + DelCommands(ns, s.bridge.ids)
  }

  ghost predicate Destructed(b: Blueprint, s: HostState, t: HostState) {
    exists cs, ns ::
      TornDown(b, s, t, cs, ns) && Elements(cs) == b.computers.Keys && Elements(ns) == b.networks.Keys
  }

  /** It stops at a computer without a control interface, which is stopped already, at a
      network without a bridge, or at one with an unreadable link, whose bridge is gone. */
  ghost predicate HalfDestructed(b: Blueprint, s: HostState, t: HostState) {
    exists cs, ns ::
      && TornDown(b, s, t, cs, ns)
      && if Elements(cs) == b.computers.Keys && AllHaveCifx(b) then
           || (exists n :: n in b.networks && n !in s.bridge.ids)
           || (ns != [] && ConnectedComputers(b, ns[|ns| - 1]).Err?)
         else ns == [] && cs != [] && !HasCifx(b.computers[cs[|cs| - 1]])
  }
}

/** What `construct` and `destruct` do on the host (core/host-control.cxx:325-652), command by
    command, in terms of the blueprint's computers, interfaces and links. */
module HostCommands {
  import opened Wrappers
  import opened Blueprints
  import opened Loads
  import opened Connections
  import opened HostStates
  import opened HostRuns

  // ---- Ports ----

  /** Link `j` joins network `n` to computer `c` by `mac`. */
  ghost predicate JoinsAt(b: Blueprint, n: Uuid, j: nat, c: Uuid, mac: string) {
    j < |b.links| && c in b.computers && Leads(b.links[j], n, Endpoint(c, Some(mac)))
  }

  lemma RowMacsByLinks(b: Blueprint, n: Uuid, mac: string)
    requires ConnectedComputers(b, n).Ok?
    ensures mac in RowMacs(Row(b, n)) <==> exists j, c :: JoinsAt(b, n, j, c, mac)
  {
    hide Leads, ConnectedComputers;
    RowFollowsLinks(b, n);
    var row := ConnectedComputers(b, n).value;
    assert row == Row(b, n);
    var at :| FollowsLinks(b, n, row, at);
    if mac in RowMacs(row) {
      var i :| 0 <= i < |row| && row[i].mac == mac;
      assert LeadsTo(b, b.links[at[i]], n, row[i]);
      var c :| c in b.computers && Leads(b.links[at[i]], n, Endpoint(c, Some(mac)));
      assert JoinsAt(b, n, at[i], c, mac);
    }
    if j, c :| JoinsAt(b, n, j, c, mac) {
      JoinIsInRow(b, n, row, at, j, c, mac);
    }
  }

  lemma JoinIsInRow(b: Blueprint, n: Uuid, row: seq<Attachment>, at: seq<nat>, j: nat, c: Uuid, mac: string)
    requires FollowsLinks(b, n, row, at) && JoinsAt(b, n, j, c, mac)
    ensures mac in RowMacs(row)
  {
    hide Leads;
    var e := Endpoint(c, Some(mac));
    assert e.id in b.computers && Leads(b.links[j], n, e);
    assert j in at;
    var i :| 0 <= i < |at| && at[i] == j;
    assert LeadsTo(b, b.links[at[i]], n, row[i]);
    OneFarEnd(b.links[j], n, e);
  }

  /** The macs with ports are those by which links join computers to networks. */
  lemma PortMacsByLinks(b: Blueprint, mac: string)
    requires LinksReadable(b)
    ensures mac in PortMacs(b) <==> exists n, j, c :: n in b.networks && JoinsAt(b, n, j, c, mac)
  {
    hide ConnectedComputers, Row, RowMacs, JoinsAt;
    forall n | n in b.networks ensures mac in RowMacs(Row(b, n)) <==> exists j, c :: JoinsAt(b, n, j, c, mac) {
      RowMacsByLinks(b, n, mac);
    }
    if mac in PortMacs(b) {
      var n :| n in b.networks && mac in RowMacs(Row(b, n));
    }
  }

  // ---- Machines ----

  /** `x` starts a machine for `c` under the control id that `s` holds for it, with one device
      for each interface but the control one, on the port that `s` holds for its mac. */
  ghost predicate StartsMachine(c: Computer, s: HostState, x: Command) {
    && x.StartVm? && x.computer == c.id
    && CIFX in c.interfaces && c.interfaces[CIFX].mac in s.qk.ids && x.qk == s.qk.ids[c.interfaces[CIFX].mac]
    && |x.devices| == |c.interfaces.Keys - {CIFX}|
    && (forall k :: k in c.interfaces && k != CIFX ==>
          c.interfaces[k].mac in s.vhost.ids
          && Device(s.vhost.ids[c.interfaces[k].mac], c.interfaces[k].mac) in x.devices)
    && (forall d :: d in x.devices ==>
          exists k :: k in c.interfaces && k != CIFX && c.interfaces[k].mac == d.mac
                      && d.mac in s.vhost.ids && s.vhost.ids[d.mac] == d.port)
  }

  lemma StartSaysAll(c: Computer, s: HostState, x: Command)
    requires Starts(c, s.vhost.ids, s.qk.ids, x)
    ensures StartsMachine(c, s, x)
  {
    var keys := c.interfaces.Keys - {CIFX};
    var names :| Enumerates(names, keys) && DevicesNamed(c, s.vhost.ids, names, x.devices);
    EnumeratedSize(names, keys);
    forall k | k in c.interfaces && k != CIFX
      ensures c.interfaces[k].mac in s.vhost.ids
      ensures Device(s.vhost.ids[c.interfaces[k].mac], c.interfaces[k].mac) in x.devices
    {
      assert k in keys;
      var i :| 0 <= i < |names| && names[i] == k;
      assert x.devices[i] in x.devices;
    }
    forall d | d in x.devices
      ensures exists k :: k in c.interfaces && k != CIFX && c.interfaces[k].mac == d.mac
                          && d.mac in s.vhost.ids && s.vhost.ids[d.mac] == d.port
    {
      var i :| 0 <= i < |x.devices| && x.devices[i] == d;
      assert names[i] in keys;
    }
  }

  // ---- One construction ----

  /** `x` is a command that constructing `b` calls for. */
  ghost predicate CalledFor(b: Blueprint, t: HostState, x: Command) {
    match x
    case AddBridge(k) => exists n :: n in b.networks && n in t.bridge.ids && t.bridge.ids[n] == k
    case AddPort(k, p) =>
      exists n, j, c, mac ::
        && n in b.networks && JoinsAt(b, n, j, c, mac)
        && n in t.bridge.ids && t.bridge.ids[n] == k && mac in t.vhost.ids && t.vhost.ids[mac] == p
    case StartVm(_, _, _) => exists c :: c in b.computers && StartsMachine(b.computers[c], t, x)
    case _ => false
  }

  lemma {:induction false} NetworkCommandsCalledFor(b: Blueprint, ns: seq<Uuid>, t: HostState)
    requires Elements(ns) <= b.networks.Keys && HaveIds(b, ns, t.bridge.ids, t.vhost.ids)
    ensures forall x :: x in NetworkCommands(b, ns, t.bridge.ids, t.vhost.ids) ==> CalledFor(b, t, x)
  {
    hide CalledFor, Row, RowMacs, PortCommands;
    if ns != [] {
      var n := ns[|ns| - 1];
      assert n in Elements(ns);
      assert Elements(ns[..|ns| - 1]) <= Elements(ns);
      NetworkCommandsCalledFor(b, ns[..|ns| - 1], t);
      OneNetworkCalledFor(b, n, t);
    }
  }

  lemma OneNetworkCalledFor(b: Blueprint, n: Uuid, t: HostState)
    requires n in b.networks && n in t.bridge.ids && RowMacs(Row(b, n)) <= t.vhost.ids.Keys
    ensures CalledFor(b, t, AddBridge(t.bridge.ids[n]))
    ensures forall x :: x in PortCommands(Row(b, n), t.bridge.ids[n], t.vhost.ids) ==> CalledFor(b, t, x)
  {
    hide ConnectedComputers, JoinsAt;
    var row := Row(b, n);
    var ports := PortCommands(row, t.bridge.ids[n], t.vhost.ids);
    forall x | x in ports ensures CalledFor(b, t, x) {
      var i :| 0 <= i < |ports| && ports[i] == x;
      assert row[i].mac in RowMacs(row);
      RowMacsByLinks(b, n, row[i].mac);
      var j, c :| JoinsAt(b, n, j, c, row[i].mac);
    }
  }

  /** Bridges come before their ports. */
  ghost predicate BridgesFirst(xs: seq<Command>) {
    forall j :: 0 <= j < |xs| && xs[j].AddPort? ==> exists i :: 0 <= i < j && xs[i] == AddBridge(xs[j].bridge)
  }

  lemma {:induction false} NetworkCommandsInOrder(b: Blueprint, ns: seq<Uuid>, t: HostState)
    requires HaveIds(b, ns, t.bridge.ids, t.vhost.ids)
    ensures BridgesFirst(NetworkCommands(b, ns, t.bridge.ids, t.vhost.ids))
  {
    hide Row, RowMacs;
    if ns != [] {
      var init, n := ns[..|ns| - 1], ns[|ns| - 1];
      NetworkCommandsInOrder(b, init, t);
      var k := t.bridge.ids[n];
      BridgeThenPorts(NetworkCommands(b, init, t.bridge.ids, t.vhost.ids), k, PortCommands(Row(b, n), k, t.vhost.ids));
    }
  }

  lemma BridgeThenPorts(xs: seq<Command>, k: nat, ports: seq<Command>)
    requires BridgesFirst(xs) && forall x :: x in ports ==> x.AddPort? && x.bridge == k
    ensures BridgesFirst(xs + [AddBridge(k)] + ports)
  {
    var all := xs + [AddBridge(k)] + ports;
    forall j | 0 <= j < |all| && all[j].AddPort? ensures exists i :: 0 <= i < j && all[i] == AddBridge(all[j].bridge) {
      if j < |xs| {
        var i :| 0 <= i < j && xs[i] == AddBridge(xs[j].bridge);
        assert all[i] == xs[i];
      } else {
        assert all[j] in ports && all[|xs|] == AddBridge(k);
      }
    }
  }

  lemma FirstThenStarts(xs: seq<Command>, starts: seq<Command>)
    requires BridgesFirst(xs) && forall x :: x in starts ==> x.StartVm?
    ensures BridgesFirst(xs + starts)
  {
    var all := xs + starts;
    assert forall i :: |xs| <= i < |all| ==> all[i] in starts;
    forall j | 0 <= j < |all| && all[j].AddPort? ensures exists i :: 0 <= i < j && all[i] == AddBridge(all[j].bridge) {
      var i :| 0 <= i < j && xs[i] == AddBridge(xs[j].bridge);
      assert all[i] == xs[i];
    }
  }

  lemma LaunchIssuesJustThat(b: Blueprint, s: HostState, t: HostState, ns: seq<Uuid>, cs: seq<Uuid>, k: nat)
    requires Launched(b, s, t, ns, cs, k)
    ensures forall x :: x in Issued(s, t) ==> CalledFor(b, t, x)
    ensures BridgesFirst(Issued(s, t))
  {
    var starts := LaunchedParts(b, s, t, ns, cs, k);
    hide *;
    NetworkCommandsCalledFor(b, ns, t);
    NetworkCommandsInOrder(b, ns, t);
    StartsCalledFor(b, cs[..k], t, starts);
    FirstThenStarts(NetworkCommands(b, ns, t.bridge.ids, t.vhost.ids), starts);
  }

  /** The parts of what a construction issued. */
  lemma LaunchedParts(b: Blueprint, s: HostState, t: HostState, ns: seq<Uuid>, cs: seq<Uuid>, k: nat)
      returns (starts: seq<Command>)
    requires Launched(b, s, t, ns, cs, k)
    ensures k <= |cs| && Elements(ns) <= b.networks.Keys
    ensures HaveIds(b, ns, t.bridge.ids, t.vhost.ids) && StartsAll(b, cs[..k], t.vhost.ids, t.qk.ids, starts)
    ensures Issued(s, t) == NetworkCommands(b, ns, t.bridge.ids, t.vhost.ids) + starts
  {
    hide MapsGrew, Elements, HaveIds, MacsOn, ControlMacsOf, StartsAll, NetworkCommands;
    var first := NetworkCommands(b, ns, t.bridge.ids, t.vhost.ids);
    starts :| StartsAll(b, cs[..k], t.vhost.ids, t.qk.ids, starts) && t.commands == s.commands + first + starts;
    assert t.commands == s.commands + (first + starts);
  }

  /** A construction, whole or half, issues just what is called for, no port before its
      bridge. */
  lemma ConstructionIssuesJustThat(b: Blueprint, s: HostState, t: HostState)
    requires Constructed(b, s, t) || HalfConstructed(b, s, t)
    ensures forall x :: x in Issued(s, t) ==> CalledFor(b, t, x)
    ensures BridgesFirst(Issued(s, t))
  {
    hide Launched, CalledFor, BridgesFirst, Issued, Elements, LaunchStopped;
    if Constructed(b, s, t) {
      var ns, cs :|
        Launched(b, s, t, ns, cs, |cs|) && Elements(ns) == b.networks.Keys && Elements(cs) == b.computers.Keys;
      LaunchIssuesJustThat(b, s, t, ns, cs, |cs|);
    } else {
      var ns, cs, k :| Launched(b, s, t, ns, cs, k) && LaunchStopped(b, t, ns, cs, k);
      LaunchIssuesJustThat(b, s, t, ns, cs, k);
    }
  }

  lemma StartsCalledFor(b: Blueprint, cs: seq<Uuid>, t: HostState, starts: seq<Command>)
    requires StartsAll(b, cs, t.vhost.ids, t.qk.ids, starts)
    ensures forall x :: x in starts ==> x.StartVm? && CalledFor(b, t, x)
  {
    hide StartsMachine, DevicesOf;
    forall x | x in starts ensures x.StartVm? && CalledFor(b, t, x) {
      var i :| 0 <= i < |starts| && starts[i] == x;
      StartSaysAll(b.computers[cs[i]], t, x);
    }
  }

  /** And everything that is called for: a bridge for each network, a port on it for each
      link, and a machine for each computer. */
  lemma ConstructionIssuesAllThat(b: Blueprint, s: HostState, t: HostState)
    requires Constructed(b, s, t) && LinksReadable(b)
    ensures forall n :: n in b.networks ==> n in t.bridge.ids && AddBridge(t.bridge.ids[n]) in Issued(s, t)
    ensures forall n, j, c, mac :: n in b.networks && JoinsAt(b, n, j, c, mac) ==>
              n in t.bridge.ids && mac in t.vhost.ids && AddPort(t.bridge.ids[n], t.vhost.ids[mac]) in Issued(s, t)
    ensures forall c :: c in b.computers ==> exists x :: x in Issued(s, t) && StartsMachine(b.computers[c], t, x)
  {
    ConstructedIssues(b, s, t);
    hide Constructed, Issued, StartsMachine, Starts, JoinsAt, Row, LinksReadable;
    forall n, j, c, mac | n in b.networks && JoinsAt(b, n, j, c, mac)
      ensures n in t.bridge.ids && mac in t.vhost.ids && AddPort(t.bridge.ids[n], t.vhost.ids[mac]) in Issued(s, t)
    {
      Readable(b, n);
      RowMacsByLinks(b, n, mac);
      assert Plugged(b, n, t, Issued(s, t));
      var i :| 0 <= i < |Row(b, n)| && Row(b, n)[i].mac == mac;
    }
    forall c | c in b.computers ensures exists x :: x in Issued(s, t) && StartsMachine(b.computers[c], t, x) {
      assert Started(b.computers[c], t, Issued(s, t));
      var x :| x in Issued(s, t) && Starts(b.computers[c], t.vhost.ids, t.qk.ids, x);
      StartSaysAll(b.computers[c], t, x);
    }
  }

  lemma Readable(b: Blueprint, n: Uuid)
    requires LinksReadable(b) && n in b.networks
    ensures ConnectedComputers(b, n).Ok?
  {
  }

  // ---- One destruction ----

  /** A successful destruction stops each computer, then deletes each network's bridge, and
      issues nothing else. */
  lemma DestructionIssuesJustThat(b: Blueprint, s: HostState, t: HostState)
    requires Destructed(b, s, t)
    ensures s.commands <= t.commands
    ensures forall n :: n in b.networks ==> n in s.bridge.ids
    ensures forall x :: x in Issued(s, t) <==>
              || (exists c :: c in b.computers && x == StopVm(b.computers[c].id))
              || (exists n :: n in b.networks && x == DelBridge(s.bridge.ids[n]))
    ensures forall i, j :: 0 <= i < j < |Issued(s, t)| && Issued(s, t)[i].DelBridge? ==> Issued(s, t)[j].DelBridge?
  {
    var cs, ns := DestroyedParts(b, s, t);
    hide *;
    StopsAre(b, cs);
    DelsAre(b, ns, s.bridge.ids);
    StopsThenDels(StopCommands(b, cs), DelCommands(ns, s.bridge.ids));
  }

  lemma DestroyedParts(b: Blueprint, s: HostState, t: HostState) returns (cs: seq<Uuid>, ns: seq<Uuid>)
    requires Destructed(b, s, t)
    ensures Elements(cs) == b.computers.Keys && Elements(ns) == b.networks.Keys <= s.bridge.ids.Keys
    ensures s.commands <= t.commands && Issued(s, t) == StopCommands(b, cs) + DelCommands(ns, s.bridge.ids)
  {
    hide MacsOn, ControlMacsOf, Dropped, Elements, Picked, StopCommands, DelCommands;
    cs, ns :|
      TornDown(b, s, t, cs, ns) && Elements(cs) == b.computers.Keys && Elements(ns) == b.networks.Keys;
    assert t.commands == s.commands + (StopCommands(b, cs) + DelCommands(ns, s.bridge.ids));
  }

  lemma StopsAre(b: Blueprint, cs: seq<Uuid>)
    requires Elements(cs) == b.computers.Keys
    ensures forall x :: x in StopCommands(b, cs) <==> exists c :: c in b.computers && x == StopVm(b.computers[c].id)
    ensures forall x :: x in StopCommands(b, cs) ==> x.StopVm?
  {
    var stops := StopCommands(b, cs);
    forall c | c in b.computers ensures StopVm(b.computers[c].id) in stops {
      assert c in Elements(cs);
      var i :| 0 <= i < |cs| && cs[i] == c;
      assert stops[i] == StopVm(b.computers[c].id);
    }
    forall x | x in stops ensures exists c :: c in b.computers && x == StopVm(b.computers[c].id) {
      var i :| 0 <= i < |cs| && stops[i] == x;
      assert cs[i] in Elements(cs);
    }
  }

  lemma DelsAre(b: Blueprint, ns: seq<Uuid>, bridge: map<Uuid, nat>)
    requires Elements(ns) == b.networks.Keys <= bridge.Keys
    ensures forall x :: x in DelCommands(ns, bridge) <==> exists n :: n in b.networks && x == DelBridge(bridge[n])
    ensures forall x :: x in DelCommands(ns, bridge) ==> x.DelBridge?
  {
    var dels := DelCommands(ns, bridge);
    forall n | n in b.networks ensures DelBridge(bridge[n]) in dels {
      assert n in Elements(ns);
      var i :| 0 <= i < |ns| && ns[i] == n;
      assert dels[i] == DelBridge(bridge[n]);
    }
    forall x | x in dels ensures exists n :: n in b.networks && x == DelBridge(bridge[n]) {
      var i :| 0 <= i < |ns| && dels[i] == x;
      assert ns[i] in Elements(ns);
    }
  }

  lemma StopsThenDels(stops: seq<Command>, dels: seq<Command>)
    requires (forall x :: x in stops ==> x.StopVm?) && forall x :: x in dels ==> x.DelBridge?
    ensures var all := stops + dels;
            forall i, j :: 0 <= i < j < |all| && all[i].DelBridge? ==> all[j].DelBridge?
  {
    var all := stops + dels;
    assert forall i :: 0 <= i < |stops| ==> all[i] in stops;
    assert forall i :: |stops| <= i < |all| ==> all[i] in dels;
  }

  /** A destruction that stops half way issues only such commands too. */
  lemma HalfDestructionIssuesOnlyThat(b: Blueprint, s: HostState, t: HostState)
    requires HalfDestructed(b, s, t)
    ensures s.commands <= t.commands
    ensures forall x :: x in Issued(s, t) ==>
              || (exists c :: c in b.computers && x == StopVm(b.computers[c].id))
              || (exists n :: n in b.networks && n in s.bridge.ids && x == DelBridge(s.bridge.ids[n]))
  {
    hide MacsOn, ControlMacsOf, Dropped, ConnectedComputers;
    var cs, ns :| TornDown(b, s, t, cs, ns);
    var stops, dels := StopCommands(b, cs), DelCommands(ns, s.bridge.ids);
    assert t.commands == s.commands + (stops + dels);
    forall x | x in stops ensures exists c :: c in b.computers && x == StopVm(b.computers[c].id) {
      var i :| 0 <= i < |cs| && stops[i] == x;
      assert cs[i] in Elements(cs);
    }
    forall x | x in dels ensures exists n :: n in b.networks && n in s.bridge.ids && x == DelBridge(s.bridge.ids[n]) {
      var i :| 0 <= i < |ns| && dels[i] == x;
      assert ns[i] in Elements(ns);
    }
  }

  /** It drops the bridges of the networks, the control macs of the computers and the macs of
      their links, and keeps the ids of everything else. */
  lemma DestructionDropsJustThat(b: Blueprint, s: HostState, t: HostState)
    requires Destructed(b, s, t) && LinksReadable(b)
    ensures forall n :: n in t.bridge.ids <==> n in s.bridge.ids && n !in b.networks
    ensures forall m :: m in t.qk.ids <==>
              m in s.qk.ids && !exists c :: c in b.computers && IsControlMac(b.computers[c], m)
    ensures forall m :: m in t.vhost.ids <==>
              m in s.vhost.ids && !exists n, j, c :: n in b.networks && JoinsAt(b, n, j, c, m)
    ensures SameIds(s.bridge, t.bridge) && SameIds(s.vhost, t.vhost) && SameIds(s.qk, t.qk)
  {
    hide LinksReadable, Row, JoinsAt, Elements;
    var cs, ns :|
      TornDown(b, s, t, cs, ns) && Elements(cs) == b.computers.Keys && Elements(ns) == b.networks.Keys;
    forall m ensures m in MacsOn(b, b.networks.Keys) <==> exists n, j, c :: n in b.networks && JoinsAt(b, n, j, c, m) {
      PortMacsByLinks(b, m);
    }
    hide RowMacs, MacsOn;
    forall m ensures m in ControlMacs(b) <==> exists c :: c in b.computers && IsControlMac(b.computers[c], m) {
    }
  }

  ghost predicate IsControlMac(c: Computer, mac: string) {
    CIFX in c.interfaces && c.interfaces[CIFX].mac == mac
  }

  // ---- Machines over runs ----

  /** A machine was started for `c` under the id that the map of control ids now holds for
      the mac of its control interface. */
  ghost predicate HasMachine(c: Computer, s: HostState, x: Command) {
    && x in s.commands && x.StartVm? && x.computer == c.id
    && CIFX in c.interfaces && c.interfaces[CIFX].mac in s.qk.ids && x.qk == s.qk.ids[c.interfaces[CIFX].mac]
  }

  ghost predicate HasSomeMachine(c: Computer, s: HostState) {
    exists x :: HasMachine(c, s, x)
  }

  lemma MachineStays(b: Blueprint, c: Uuid, s: HostState, t: HostState)
    requires c in b.computers && HasSomeMachine(b.computers[c], s) && IdsStay(s, t) && AllKeysOf(b, t)
    ensures HasSomeMachine(b.computers[c], t)
  {
    hide PortMacs;
    var x :| HasMachine(b.computers[c], s, x);
    assert b.computers[c].interfaces[CIFX].mac in ControlMacs(b);
    assert HasMachine(b.computers[c], t, x);
  }

  lemma ConstructedHasMachines(b: Blueprint, s: HostState, t: HostState)
    requires Constructed(b, s, t)
    ensures forall c :: c in b.computers ==> HasSomeMachine(b.computers[c], t)
  {
    ConstructedIssues(b, s, t);
    hide Constructed, Plugged, DevicesOf;
    forall c | c in b.computers ensures HasSomeMachine(b.computers[c], t) {
      assert Started(b.computers[c], t, Issued(s, t));
      var x :| x in Issued(s, t) && Starts(b.computers[c], t.vhost.ids, t.qk.ids, x);
      assert HasMachine(b.computers[c], t, x);
    }
  }

  /** Over every run in which destructed blueprints share nothing with others that are up,
      every computer of a blueprint that is up has a machine that was started under the id
      its control mac still has, whatever else failed. */
  lemma {:induction false} UpHasMachines(states: seq<HostState>, events: seq<Event>, b: Blueprint, c: Uuid)
    requires Running(states, events) && DestructsApart(events) && b in UpNow(events) && c in b.computers
    ensures HasSomeMachine(b.computers[c], states[|events|])
  {
    hide Constructed, HalfConstructed, Destructed, HalfDestructed, MapsGrew, KeysDropped, AllKeysOf, IdsStay;
    hide HasSomeMachine;
    var n := |events| - 1;
    var s, t, init := states[n], states[n + 1], events[..n];
    RunningBefore(states, events);
    ApartBefore(events);
    UpKeepsKeys(states, events);
    if events[n] == Up(b) {
      ConstructedHasMachines(b, s, t);
    } else {
      UpHasMachines(states[..n + 1], init, b, c);
      if events[n].Up? || events[n].UpFailed? {
        UpStep(events[n].blueprint, s, t);
        GrewSameIds(s, t);
      } else {
        DownStep(events[n].blueprint, s, t);
        DroppedSameIds(events[n].blueprint, s, t);
      }
      MachineStays(b, c, s, t);
    }
  }

  /** So machines that are up with different control macs were started under different ids. */
  lemma MachinesHaveTheirOwnIds(states: seq<HostState>, events: seq<Event>, a: Blueprint, c: Uuid, b: Blueprint,
                                d: Uuid)
    requires Running(states, events) && DestructsApart(events)
    requires a in UpNow(events) && c in a.computers && b in UpNow(events) && d in b.computers
    ensures CIFX in a.computers[c].interfaces && CIFX in b.computers[d].interfaces
    ensures a.computers[c].interfaces[CIFX].mac != b.computers[d].interfaces[CIFX].mac ==>
              exists x, y ::
                && HasMachine(a.computers[c], states[|events|], x) && HasMachine(b.computers[d], states[|events|], y)
                && x.qk != y.qk
  {
    assert |states| == |events| + 1;
    hide Running, DestructsApart, UpNow;
    UpHasMachines(states, events, a, c);
    UpHasMachines(states, events, b, d);
    IdsAreNeverShared(states, events);
    var s := states[|events|];
    var x :| HasMachine(a.computers[c], s, x);
    var y :| HasMachine(b.computers[d], s, y);
  }
}

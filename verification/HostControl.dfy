/** The host controller (core/host-control.cxx:325-632): its launch and terminate loops
    drive three id maps. Commands are recorded and assumed to succeed; an exception is
    a false result, with whatever was done before it left in place. */
module HostControl {
  import opened Blueprints
  import opened IdCaches
  import opened HostStates
  import opened Loads

  class HostController {
    const bridgeId: LinearIdCacheMap<Uuid>
    const vhostId: LinearIdCacheMap<string>
    const qkId: LinearIdCacheMap<string>
    var live: map<Uuid, Blueprint>
    var commands: seq<Command>

    ghost predicate Valid() { vhostId != qkId && (bridgeId as object) != vhostId && (bridgeId as object) != qkId }

    function State(): HostState
      reads this, bridgeId, vhostId, qkId
    {
      HostState(bridgeId.View(), vhostId.View(), qkId.View(), live, commands)
    }

    constructor ()
      ensures Valid() && fresh(bridgeId) && fresh(vhostId) && fresh(qkId)
      ensures State() == HostState(IdMap(0, map[]), IdMap(0, map[]), IdMap(0, map[]), map[], [])
    {
      bridgeId := new LinearIdCacheMap<Uuid>();
      vhostId := new LinearIdCacheMap<string>();
      qkId := new LinearIdCacheMap<string>();
      live, commands := map[], [];
    }

    /** Adds the bridge and the vxlan port that comes with it. */
    method CreateNetworkBridge(n: Uuid)
      requires Valid()
      modifies this`commands, bridgeId
      ensures n in bridgeId.ids
      ensures State() == old(State()).(bridge := old(State()).bridge.Created(n),
                                       commands := old(commands) + [AddBridge(bridgeId.ids[n])])
    {
      var id := bridgeId.Create(n);
      commands := commands + [AddBridge(id)];
    }

    method CreateComputerPort(n: Uuid, mac: string) returns (ok: bool)
      requires Valid()
      modifies this`commands, vhostId
      ensures ok <==> n in bridgeId.ids
      ensures !ok ==> State() == old(State())
      ensures ok ==> mac in vhostId.ids
      ensures ok ==> State() == old(State()).(vhost := old(State()).vhost.Created(mac),
                                              commands := old(commands) + [AddPort(bridgeId.ids[n], vhostId.ids[mac])])
    {
      var bridge := bridgeId.Get(n);
      if bridge.None? {
        return false;
      }
      var port := vhostId.Create(mac);
      commands := commands + [AddPort(bridge.value, port)];
      ok := true;
    }

    /** One network of `launchNetworks`. */
    method LaunchNetwork(b: Blueprint, n: Uuid) returns (ok: bool)
      requires Valid() && n in b.networks
      modifies this`commands, bridgeId, vhostId
      ensures MapsGrew(old(State()), State()) && State().qk == old(State()).qk && live == old(live)
      ensures ok <==> ConnectedComputers(b, n).Ok?
      ensures bridgeId.ids.Keys == old(bridgeId.ids.Keys) + {n}
      ensures vhostId.ids.Keys == old(vhostId.ids.Keys) + RowMacs(Row(b, n))
      ensures commands ==
              old(commands) + [AddBridge(bridgeId.ids[n])] + PortCommands(Row(b, n), bridgeId.ids[n], vhostId.ids)
    {
      hide ConnectedComputers, RowMacs, PortCommands, Grew;
      CreateNetworkBridge(n);
      CreatedGrew(old(State()).bridge, n);
      GrewItself(old(State()));
      NoPorts(bridgeId.ids[n], vhostId.ids);
      ghost var created := State();
      match ConnectedComputers(b, n) {
        case Err(_) => return false;
        case Ok(row) =>
          for i := 0 to |row|
            invariant State() == created.(vhost := vhostId.View(), commands := commands)
            invariant Grew(created.vhost, vhostId.View())
            invariant vhostId.ids.Keys == old(vhostId.ids.Keys) + RowMacs(row[..i])
            invariant commands == created.commands + PortCommands(row[..i], bridgeId.ids[n], vhostId.ids)
          {
            ghost var before := vhostId.View();
            ok := CreateComputerPort(n, row[i].mac);
            CreatedGrew(before, row[i].mac);
            GrewTransitive(created.vhost, before, vhostId.View());
            assert row[..i + 1] == row[..i] + [row[i]];
            OneMorePort(row[..i], row[i], bridgeId.ids[n], before, vhostId.View());
          }
          assert row[..|row|] == row;
          ok := true;
      }
    }

    /** `ns` are the networks launched, in order. */
    method LaunchNetworks(b: Blueprint) returns (ok: bool, ghost ns: seq<Uuid>)
      requires Valid()
      modifies this`commands, bridgeId, vhostId
      ensures MapsGrew(old(State()), State()) && State().qk == old(State()).qk && live == old(live)
      ensures ok <==> LinksReadable(b)
      ensures Picked(ns, b.networks.Keys)
      ensures if ok then Elements(ns) == b.networks.Keys else ns != [] && ConnectedComputers(b, ns[|ns| - 1]).Err?
      ensures bridgeId.ids.Keys == old(bridgeId.ids.Keys) + Elements(ns)
      ensures vhostId.ids.Keys == old(vhostId.ids.Keys) + MacsOn(b, Elements(ns))
      ensures HaveIds(b, ns, bridgeId.ids, vhostId.ids)
      ensures commands == old(commands) + NetworkCommands(b, ns, bridgeId.ids, vhostId.ids)
    {
      hide ConnectedComputers, RowMacs, MacsOn, HaveIds, NetworkCommands, PortCommands, Grew, Picked, Elements;
      ns := [];
      GrewItself(State());
      NoNetworks(b, bridgeId.ids, vhostId.ids);
      var todo := b.networks.Keys;
      while todo != {}
        invariant todo <= b.networks.Keys && Picked(ns, b.networks.Keys) && Elements(ns) == b.networks.Keys - todo
        invariant MapsGrew(old(State()), State()) && State().qk == old(State()).qk && live == old(live)
        invariant bridgeId.ids.Keys == old(bridgeId.ids.Keys) + Elements(ns)
        invariant vhostId.ids.Keys == old(vhostId.ids.Keys) + MacsOn(b, Elements(ns))
        invariant HaveIds(b, ns, bridgeId.ids, vhostId.ids)
        invariant commands == old(commands) + NetworkCommands(b, ns, bridgeId.ids, vhostId.ids)
        invariant forall n :: n in b.networks && n !in todo ==> ConnectedComputers(b, n).Ok?
        decreases todo
      {
        var n :| n in todo;
        ghost var before := State();
        ok := LaunchNetwork(b, n);
        MapsGrewTransitive(old(State()), before, State());
        OneMoreNetwork(b, ns, n, before, State());
        ns := ns + [n];
        if !ok {
          return;
        }
        todo := todo - {n};
      }
      ok := true;
    }

    /** The id lookups of `launchVm` and the machine they describe. */
    method LaunchVm(c: Computer) returns (ok: bool, ghost x: Command)
      requires Valid()
      modifies this`commands, qkId
      ensures MapsGrew(old(State()), State()) && live == old(live)
      ensures State().bridge == old(State()).bridge && State().vhost == old(State()).vhost
      ensures State().qk == if HasCifx(c) then old(State()).qk.Created(c.interfaces[CIFX].mac) else old(State()).qk
      ensures ok <==> !CannotStart(c, vhostId.ids.Keys)
      ensures ok ==> Starts(c, vhostId.ids, qkId.ids, x)
      ensures commands == old(commands) + if ok then [x] else []
    {
      hide Grew, DevicesNamed;
      x := DelBridge(0);
      GrewItself(State());
      if CIFX !in c.interfaces {
        return false, x;
      }
      var qk := qkId.Create(c.interfaces[CIFX].mac);
      CreatedGrew(old(State()).qk, c.interfaces[CIFX].mac);
      ghost var created := State();
      var devices := [];
      ghost var names := [];
      NoDevices(c, vhostId.ids);
      var todo := c.interfaces.Keys;
      while todo != {}
        invariant todo <= c.interfaces.Keys && State() == created
        invariant Enumerates(names, c.interfaces.Keys - todo - {CIFX})
        invariant DevicesNamed(c, vhostId.ids, names, devices)
        invariant forall name :: name in c.interfaces && name !in todo && name != CIFX ==>
                    c.interfaces[name].mac in vhostId.ids
        decreases todo
      {
        var name :| name in todo;
        if name != CIFX {
          var mac := c.interfaces[name].mac;
          var port := vhostId.Get(mac);
          if port.None? {
            return false, x;
          }
          OneMoreDevice(c, vhostId.ids, names, devices, name);
          devices, names := devices + [Device(port.value, mac)], names + [name];
        }
        assert c.interfaces.Keys - (todo - {name}) - {CIFX} ==
               (c.interfaces.Keys - todo - {CIFX}) + if name == CIFX then {} else {name};
        todo := todo - {name};
      }
      assert c.interfaces.Keys - todo - {CIFX} == c.interfaces.Keys - {CIFX};
      x := StartVm(c.id, qk, devices);
      commands := commands + [StartVm(c.id, qk, devices)];
      ok := true;
    }

    /** `cs` are the computers tried, in order, and `starts` the commands for those that
        were started. */
    method LaunchComputers(b: Blueprint) returns (ok: bool, ghost cs: seq<Uuid>, ghost starts: seq<Command>)
      requires Valid()
      modifies this`commands, qkId
      ensures MapsGrew(old(State()), State()) && live == old(live)
      ensures State().bridge == old(State()).bridge && State().vhost == old(State()).vhost
      ensures ok <==> AllHaveCifx(b) && AllPortsIn(b, vhostId.ids.Keys)
      ensures Picked(cs, b.computers.Keys) && |starts| <= |cs|
      ensures qkId.ids.Keys == old(qkId.ids.Keys) + ControlMacsOf(b, Elements(cs))
      ensures StartsAll(b, cs[..|starts|], vhostId.ids, qkId.ids, starts) && commands == old(commands) + starts
      ensures if ok then Elements(cs) == b.computers.Keys && |starts| == |cs|
              else
                && cs != [] && |starts| == |cs| - 1 && cs[|cs| - 1] in b.computers
                && CannotStart(b.computers[cs[|cs| - 1]], vhostId.ids.Keys)
    {
      hide Grew, PortsIn, ControlMacsOf, Picked, Elements, StartsAll, Starts;
      cs, starts := [], [];
      GrewItself(State());
      NoComputers(b, vhostId.ids, qkId.ids);
      var todo := b.computers.Keys;
      while todo != {}
        invariant todo <= b.computers.Keys && Picked(cs, b.computers.Keys) && Elements(cs) == b.computers.Keys - todo
        invariant MapsGrew(old(State()), State()) && live == old(live)
        invariant State().bridge == old(State()).bridge && State().vhost == old(State()).vhost
        invariant qkId.ids.Keys == old(qkId.ids.Keys) + ControlMacsOf(b, Elements(cs))
        invariant |starts| == |cs| && StartsAll(b, cs, vhostId.ids, qkId.ids, starts)
        invariant commands == old(commands) + starts
        invariant forall c :: c in b.computers && c !in todo ==> !CannotStart(b.computers[c], vhostId.ids.Keys)
        decreases todo
      {
        var c :| c in todo;
        ghost var before := State();
        ghost var x;
        ok, x := LaunchVm(b.computers[c]);
        MapsGrewTransitive(old(State()), before, State());
        OneMoreComputer(b, cs, c, before, State(), starts);
        cs := cs + [c];
        if !ok {
          return;
        }
        OneMoreStart(b, cs, State(), starts, x);
        starts, todo := starts + [x], todo - {c};
      }
      assert cs[..|starts|] == cs;
      ok := true;
    }

    /** `construct` succeeds exactly when all links can be read and each computer has a
        control interface and a port for every other one. */
    method Construct(b: Blueprint) returns (ok: bool)
      requires Valid()
      modifies this, bridgeId, vhostId, qkId
      ensures ok <==> LinksReadable(b) && AllHaveCifx(b) && AllPortsIn(b, old(vhostId.ids.Keys) + PortMacs(b))
      ensures if ok then Constructed(b, old(State()), State()) else HalfConstructed(b, old(State()), State())
    {
      hide Grew, ControlMacsOf, MacsOn, AllPortsIn, LinksReadable;
      hide Picked, Elements, HaveIds, NetworkCommands, StartsAll;
      NoComputers(b, vhostId.ids, qkId.ids);
      live := live[b.id := b];
      ghost var ns, cs, starts := [], [], [];
      ok, ns := LaunchNetworks(b);
      ghost var before := State();
      if ok {
        ok, cs, starts := LaunchComputers(b);
        MapsGrewTransitive(old(State()), before, State());
      } else {
        NoComputers(b, vhostId.ids, qkId.ids);
      }
      assert StartsAll(b, cs[..|starts|], vhostId.ids, qkId.ids, starts);
      assert commands == old(commands) + NetworkCommands(b, ns, bridgeId.ids, vhostId.ids) + starts;
      assert Launched(b, old(State()), State(), ns, cs, |starts|);
      assert !ok ==> LaunchStopped(b, State(), ns, cs, |starts|);
      assert cs[..|cs|] == cs;
    }

    /** `cs` are the computers stopped, in order. */
    method TerminateComputers(b: Blueprint) returns (ok: bool, ghost cs: seq<Uuid>)
      requires Valid()
      modifies this`commands, qkId
      ensures ok <==> AllHaveCifx(b)
      ensures State().(qk := old(State()).qk, commands := old(commands)) == old(State())
      ensures Picked(cs, b.computers.Keys)
      ensures State().qk == Dropped(old(State()).qk, ControlMacsOf(b, Elements(cs)))
      ensures commands == old(commands) + StopCommands(b, cs)
      ensures if ok then Elements(cs) == b.computers.Keys else cs != [] && !HasCifx(b.computers[cs[|cs| - 1]])
    {
      hide ControlMacsOf, Picked, Elements, StopCommands;
      cs := [];
      NoStops(b);
      var todo := b.computers.Keys;
      while todo != {}
        invariant todo <= b.computers.Keys && Picked(cs, b.computers.Keys) && Elements(cs) == b.computers.Keys - todo
        invariant commands == old(commands) + StopCommands(b, cs)
        invariant forall c :: c in b.computers && c !in todo ==> HasCifx(b.computers[c])
        invariant State().qk == Dropped(old(State()).qk, ControlMacsOf(b, Elements(cs)))
        decreases todo
      {
        var c :| c in todo;
        commands := commands + [StopVm(b.computers[c].id)];
        OneMoreStop(b, cs, c);
        cs := cs + [c];
        if CIFX !in b.computers[c].interfaces {
          return false, cs;
        }
        qkId.Erase(b.computers[c].interfaces[CIFX].mac);
        todo := todo - {c};
      }
      ok := true;
    }

    /** One network of `terminateNetworks`. */
    method TerminateNetwork(b: Blueprint, n: Uuid) returns (ok: bool)
      requires Valid()
      modifies this`commands, bridgeId, vhostId
      ensures ok <==> n in old(bridgeId.ids) && ConnectedComputers(b, n).Ok?
      ensures State().qk == old(State()).qk && live == old(live)
      ensures n !in old(bridgeId.ids) ==> State() == old(State())
      ensures n in old(bridgeId.ids) ==>
                && State().bridge == Dropped(old(State()).bridge, {n})
                && State().vhost == Dropped(old(State()).vhost, RowMacs(Row(b, n)))
                && commands == old(commands) + [DelBridge(old(bridgeId.ids)[n])]
    {
      hide ConnectedComputers, RowMacs;
      NoPorts(0, vhostId.ids);
      var bridge := bridgeId.Get(n);
      if bridge.None? {
        return false;
      }
      commands := commands + [DelBridge(bridge.value)];
      bridgeId.Erase(n);
      assert vhostId.ids - {} == vhostId.ids;
      ghost var erased := State();
      match ConnectedComputers(b, n) {
        case Err(_) => return false;
        case Ok(row) =>
          for i := 0 to |row|
            invariant State() == erased.(vhost := Dropped(erased.vhost, RowMacs(row[..i])))
          {
            vhostId.Erase(row[i].mac);
            assert row[..i + 1] == row[..i] + [row[i]];
            RowMacsSnoc(row[..i], row[i]);
          }
          assert row[..|row|] == row;
          ok := true;
      }
    }

    /** `ns` are the networks taken down, in order. */
    method TerminateNetworks(b: Blueprint) returns (ok: bool, ghost ns: seq<Uuid>)
      requires Valid()
      modifies this`commands, bridgeId, vhostId
      ensures ok <==> b.networks.Keys <= old(bridgeId.ids.Keys) && LinksReadable(b)
      ensures State().qk == old(State()).qk && live == old(live)
      ensures Picked(ns, b.networks.Keys) && Elements(ns) <= old(bridgeId.ids.Keys)
      ensures State().bridge == Dropped(old(State()).bridge, Elements(ns))
      ensures State().vhost == Dropped(old(State()).vhost, MacsOn(b, Elements(ns)))
      ensures commands == old(commands) + DelCommands(ns, old(bridgeId.ids))
      ensures if ok then Elements(ns) == b.networks.Keys
              else || (exists n :: n in b.networks && n !in old(bridgeId.ids))
                   || (ns != [] && ConnectedComputers(b, ns[|ns| - 1]).Err?)
    {
      hide ConnectedComputers, RowMacs, MacsOn, Picked, Elements, DelCommands;
      ns := [];
      NoDels(b, bridgeId.ids);
      var todo := b.networks.Keys;
      while todo != {}
        invariant todo <= b.networks.Keys && Picked(ns, b.networks.Keys) && Elements(ns) == b.networks.Keys - todo
        invariant Elements(ns) <= old(bridgeId.ids.Keys)
        invariant State().qk == old(State()).qk && live == old(live)
        invariant State().bridge == Dropped(old(State()).bridge, Elements(ns))
        invariant State().vhost == Dropped(old(State()).vhost, MacsOn(b, Elements(ns)))
        invariant commands == old(commands) + DelCommands(ns, old(bridgeId.ids))
        invariant forall n :: n in b.networks && n !in todo ==> ConnectedComputers(b, n).Ok?
        decreases todo
      {
        var n :| n in todo;
        var known := n in bridgeId.ids;
        ok := TerminateNetwork(b, n);
        if !known {
          return;
        }
        OneMoreDel(b, ns, n, old(bridgeId.ids));
        ns := ns + [n];
        if !ok {
          return;
        }
        todo := todo - {n};
      }
      ok := true;
    }

    /** `destruct` succeeds exactly when all links can be read, each computer has a
        control interface and each network has a bridge. */
    method Destruct(b: Blueprint) returns (ok: bool)
      requires Valid()
      modifies this, bridgeId, vhostId, qkId
      ensures ok <==> AllHaveCifx(b) && b.networks.Keys <= old(bridgeId.ids.Keys) && LinksReadable(b)
      ensures if ok then Destructed(b, old(State()), State()) else HalfDestructed(b, old(State()), State())
    {
      hide ControlMacsOf, MacsOn, LinksReadable, AllHaveCifx, Picked, Elements, StopCommands, DelCommands;
      NoDels(b, bridgeId.ids);
      ghost var cs, ns := [], [];
      ok, cs := TerminateComputers(b);
      if ok {
        ok, ns := TerminateNetworks(b);
      } else {
        assert bridgeId.ids - {} == bridgeId.ids && vhostId.ids - {} == vhostId.ids;
      }
      assert TornDown(b, old(State()), State(), cs, ns);
    }
  }

  // ---- One more ----

  lemma NoPorts(bridge: nat, vhost: map<string, nat>)
    ensures RowMacs([]) == {} && PortCommands([], bridge, vhost) == []
  {
  }

  lemma RowMacsSnoc(row: seq<Attachment>, a: Attachment)
    ensures RowMacs(row + [a]) == RowMacs(row) + {a.mac}
  {
    forall m ensures m in RowMacs(row + [a]) <==> m in RowMacs(row) + {a.mac} {
      if m in RowMacs(row) {
        var i :| 0 <= i < |row| && row[i].mac == m;
        assert (row + [a])[i].mac == m;
      }
      assert (row + [a])[|row|].mac == a.mac;
    }
  }

  lemma PortsStay(row: seq<Attachment>, bridge: nat, v: IdMap<string>, v': IdMap<string>)
    requires RowMacs(row) <= v.ids.Keys && Grew(v, v')
    ensures RowMacs(row) <= v'.ids.Keys && PortCommands(row, bridge, v'.ids) == PortCommands(row, bridge, v.ids)
  {
    forall i | 0 <= i < |row| ensures row[i].mac in RowMacs(row) {
    }
  }

  lemma OneMorePort(row: seq<Attachment>, a: Attachment, bridge: nat, v: IdMap<string>, v': IdMap<string>)
    requires RowMacs(row) <= v.ids.Keys && Grew(v, v') && a.mac in v'.ids
    ensures RowMacs(row + [a]) == RowMacs(row) + {a.mac} <= v'.ids.Keys
    ensures PortCommands(row + [a], bridge, v'.ids) ==
            PortCommands(row, bridge, v.ids) + [AddPort(bridge, v'.ids[a.mac])]
  {
    hide RowMacs, Grew;
    PortsStay(row, bridge, v, v');
    RowMacsSnoc(row, a);
  }

  /** One more element, and what it adds to the elements. */
  lemma PickedSnoc(xs: seq<Uuid>, x: Uuid, keys: set<Uuid>)
    requires Picked(xs, keys) && x in keys && x !in Elements(xs)
    ensures Picked(xs + [x], keys) && Elements(xs + [x]) == Elements(xs) + {x}
  {
  }

  lemma MacsOnMore(b: Blueprint, ns: set<Uuid>, n: Uuid)
    ensures MacsOn(b, ns + {n}) == MacsOn(b, ns) + RowMacs(Row(b, n))
  {
    hide RowMacs, Row;
  }

  lemma NoNetworks(b: Blueprint, bridge: map<Uuid, nat>, vhost: map<string, nat>)
    ensures Picked([], b.networks.Keys) && Elements([]) == {} && MacsOn(b, {}) == {}
    ensures HaveIds(b, [], bridge, vhost) && NetworkCommands(b, [], bridge, vhost) == []
  {
  }

  lemma {:induction false} NetworkCommandsStay(b: Blueprint, ns: seq<Uuid>, s: HostState, t: HostState)
    requires HaveIds(b, ns, s.bridge.ids, s.vhost.ids) && MapsGrew(s, t)
    ensures HaveIds(b, ns, t.bridge.ids, t.vhost.ids)
    ensures NetworkCommands(b, ns, t.bridge.ids, t.vhost.ids) == NetworkCommands(b, ns, s.bridge.ids, s.vhost.ids)
  {
    hide PortCommands, RowMacs, Row;
    if ns != [] {
      var n := ns[|ns| - 1];
      NetworkCommandsStay(b, ns[..|ns| - 1], s, t);
      PortsStay(Row(b, n), s.bridge.ids[n], s.vhost, t.vhost);
    }
  }

  lemma OneMoreNetwork(b: Blueprint, ns: seq<Uuid>, n: Uuid, s: HostState, t: HostState)
    requires HaveIds(b, ns, s.bridge.ids, s.vhost.ids) && MapsGrew(s, t)
    requires Picked(ns, b.networks.Keys) && n in b.networks && n !in Elements(ns)
    requires n in t.bridge.ids && RowMacs(Row(b, n)) <= t.vhost.ids.Keys
    ensures Picked(ns + [n], b.networks.Keys) && Elements(ns + [n]) == Elements(ns) + {n}
    ensures MacsOn(b, Elements(ns + [n])) == MacsOn(b, Elements(ns)) + RowMacs(Row(b, n))
    ensures HaveIds(b, ns + [n], t.bridge.ids, t.vhost.ids)
    ensures NetworkCommands(b, ns + [n], t.bridge.ids, t.vhost.ids) ==
            NetworkCommands(b, ns, s.bridge.ids, s.vhost.ids)
            + [AddBridge(t.bridge.ids[n])] + PortCommands(Row(b, n), t.bridge.ids[n], t.vhost.ids)
  {
    hide PortCommands, RowMacs, Row, Grew, Picked, Elements, MacsOn;
    NetworkCommandsStay(b, ns, s, t);
    PickedSnoc(ns, n, b.networks.Keys);
    MacsOnMore(b, Elements(ns), n);
    assert (ns + [n])[..|ns|] == ns;
  }

  lemma NoDevices(c: Computer, vhost: map<string, nat>)
    ensures DevicesNamed(c, vhost, [], [])
  {
  }

  lemma OneMoreDevice(c: Computer, vhost: map<string, nat>, names: seq<string>, devices: seq<Device>, name: string)
    requires DevicesNamed(c, vhost, names, devices) && name in c.interfaces && c.interfaces[name].mac in vhost
    ensures var mac := c.interfaces[name].mac;
            DevicesNamed(c, vhost, names + [name], devices + [Device(vhost[mac], mac)])
  {
  }

  lemma ControlMacsMore(b: Blueprint, cs: set<Uuid>, c: Uuid)
    requires c in b.computers
    ensures ControlMacsOf(b, cs + {c}) ==
            ControlMacsOf(b, cs) + ControlMac(b.computers[c])
  {
  }

  lemma NoComputers(b: Blueprint, vhost: map<string, nat>, qk: map<string, nat>)
    ensures Picked([], b.computers.Keys) && Elements([]) == {} && ControlMacsOf(b, {}) == {}
    ensures StartsAll(b, [], vhost, qk, [])
  {
  }

  lemma OneMoreComputer(b: Blueprint, cs: seq<Uuid>, c: Uuid, s: HostState, t: HostState, starts: seq<Command>)
    requires Picked(cs, b.computers.Keys) && c in b.computers && c !in Elements(cs)
    requires MapsGrew(s, t) && t.vhost == s.vhost && StartsAll(b, cs, s.vhost.ids, s.qk.ids, starts)
    ensures Picked(cs + [c], b.computers.Keys) && Elements(cs + [c]) == Elements(cs) + {c}
    ensures ControlMacsOf(b, Elements(cs + [c])) ==
            ControlMacsOf(b, Elements(cs)) + ControlMac(b.computers[c])
    ensures (cs + [c])[..|starts|] == cs && StartsAll(b, cs, t.vhost.ids, t.qk.ids, starts)
  {
    hide Picked, Elements, ControlMacsOf, DevicesOf;
    PickedSnoc(cs, c, b.computers.Keys);
    ControlMacsMore(b, Elements(cs), c);
  }

  lemma OneMoreStart(b: Blueprint, cs: seq<Uuid>, t: HostState, starts: seq<Command>, x: Command)
    requires cs != [] && cs[|cs| - 1] in b.computers && StartsAll(b, cs[..|cs| - 1], t.vhost.ids, t.qk.ids, starts)
    requires Starts(b.computers[cs[|cs| - 1]], t.vhost.ids, t.qk.ids, x)
    ensures StartsAll(b, cs, t.vhost.ids, t.qk.ids, starts + [x])
  {
    hide Starts;
    assert forall i :: 0 <= i < |cs| - 1 ==> cs[..|cs| - 1][i] == cs[i];
  }

  lemma NoStops(b: Blueprint)
    ensures Picked([], b.computers.Keys) && Elements([]) == {} && ControlMacsOf(b, {}) == {}
    ensures StopCommands(b, []) == []
  {
  }

  lemma OneMoreStop(b: Blueprint, cs: seq<Uuid>, c: Uuid)
    requires Picked(cs, b.computers.Keys) && c in b.computers && c !in Elements(cs)
    ensures Picked(cs + [c], b.computers.Keys) && Elements(cs + [c]) == Elements(cs) + {c}
    ensures ControlMacsOf(b, Elements(cs + [c])) ==
            ControlMacsOf(b, Elements(cs)) + ControlMac(b.computers[c])
    ensures StopCommands(b, cs + [c]) == StopCommands(b, cs) + [StopVm(b.computers[c].id)]
  {
    hide ControlMacsOf;
    PickedSnoc(cs, c, b.computers.Keys);
    ControlMacsMore(b, Elements(cs), c);
  }

  lemma NoDels(b: Blueprint, bridge: map<Uuid, nat>)
    ensures Picked([], b.networks.Keys) && Elements([]) == {} && MacsOn(b, {}) == {} && DelCommands([], bridge) == []
  {
  }

  lemma OneMoreDel(b: Blueprint, ns: seq<Uuid>, n: Uuid, bridge: map<Uuid, nat>)
    requires Picked(ns, b.networks.Keys) && Elements(ns) <= bridge.Keys
    requires n in b.networks && n in bridge && n !in Elements(ns)
    ensures Picked(ns + [n], b.networks.Keys) && Elements(ns + [n]) == Elements(ns) + {n}
    ensures MacsOn(b, Elements(ns + [n])) == MacsOn(b, Elements(ns)) + RowMacs(Row(b, n))
    ensures Elements(ns + [n]) <= bridge.Keys
    ensures DelCommands(ns + [n], bridge) == DelCommands(ns, bridge) + [DelBridge(bridge[n])]
  {
    hide MacsOn, Row, RowMacs;
    PickedSnoc(ns, n, b.networks.Keys);
    MacsOnMore(b, Elements(ns), n);
  }
}

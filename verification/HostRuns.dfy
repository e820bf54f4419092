/** Runs of a host controller: blueprints constructed and destructed one after another,
    with calls that fail half way. */
module HostRuns {
  import opened Blueprints
  import opened IdCaches
  import opened Loads
  import opened HostStates

  // ---- What one construction does for its blueprint ----

  ghost predicate RowPlugged(row: seq<Attachment>, bridge: nat, vhost: map<string, nat>, commands: seq<Command>) {
    forall i :: 0 <= i < |row| ==> row[i].mac in vhost && AddPort(bridge, vhost[row[i].mac]) in commands
  }

  /** Network `n` has its bridge, and each of its links a port on that bridge. */
  ghost predicate Plugged(b: Blueprint, n: Uuid, s: HostState, commands: seq<Command>) {
    n in s.bridge.ids && AddBridge(s.bridge.ids[n]) in commands
    && RowPlugged(Row(b, n), s.bridge.ids[n], s.vhost.ids, commands)
  }

  ghost predicate Started(c: Computer, s: HostState, commands: seq<Command>) {
    exists x :: x in commands && Starts(c, s.vhost.ids, s.qk.ids, x)
  }

  /** The commands that a call issued. */
  ghost function Issued(s: HostState, t: HostState): seq<Command> {
    if |s.commands| <= |t.commands| then t.commands[|s.commands|..] else []
  }

  lemma {:induction false} InNetworkCommands(b: Blueprint, ns: seq<Uuid>, s: HostState, n: Uuid)
    requires HaveIds(b, ns, s.bridge.ids, s.vhost.ids) && n in ns
    ensures Plugged(b, n, s, NetworkCommands(b, ns, s.bridge.ids, s.vhost.ids))
  {
    hide Row;
    var last := ns[|ns| - 1];
    if n != last {
      InNetworkCommands(b, ns[..|ns| - 1], s, n);
    } else {
      var row := Row(b, n);
      var ports := PortCommands(row, s.bridge.ids[n], s.vhost.ids);
      forall i | 0 <= i < |row|
        ensures row[i].mac in s.vhost.ids && AddPort(s.bridge.ids[n], s.vhost.ids[row[i].mac]) in ports
      {
        assert row[i].mac in RowMacs(row);
        assert ports[i] == AddPort(s.bridge.ids[n], s.vhost.ids[row[i].mac]);
      }
    }
  }

  lemma {:induction false} AllPlugged(b: Blueprint, ns: seq<Uuid>, t: HostState, commands: seq<Command>)
    requires HaveIds(b, ns, t.bridge.ids, t.vhost.ids) && Elements(ns) == b.networks.Keys
    requires forall x :: x in NetworkCommands(b, ns, t.bridge.ids, t.vhost.ids) ==> x in commands
    ensures forall n :: n in b.networks ==> Plugged(b, n, t, commands)
  {
    hide Plugged, NetworkCommands, HaveIds;
    forall n | n in b.networks ensures Plugged(b, n, t, commands) {
      assert n in Elements(ns);
      InNetworkCommands(b, ns, t, n);
      MoreCommands(b, n, t, NetworkCommands(b, ns, t.bridge.ids, t.vhost.ids), commands);
    }
  }

  lemma AllStarted(b: Blueprint, cs: seq<Uuid>, t: HostState, starts: seq<Command>, commands: seq<Command>)
    requires StartsAll(b, cs, t.vhost.ids, t.qk.ids, starts) && Elements(cs) == b.computers.Keys
    requires forall x :: x in starts ==> x in commands
    ensures forall c :: c in b.computers ==> Started(b.computers[c], t, commands)
  {
    hide Starts;
    forall c | c in b.computers ensures Started(b.computers[c], t, commands) {
      assert c in Elements(cs);
      var i :| 0 <= i < |cs| && cs[i] == c;
      assert Starts(b.computers[c], t.vhost.ids, t.qk.ids, starts[i]);
    }
  }

  /** A successful construction itself issues the commands for all networks, their ports
      and all computers. */
  lemma ConstructedIssues(b: Blueprint, s: HostState, t: HostState)
    requires Constructed(b, s, t)
    ensures s.commands <= t.commands
    ensures forall n :: n in b.networks ==> Plugged(b, n, t, Issued(s, t))
    ensures forall c :: c in b.computers ==> Started(b.computers[c], t, Issued(s, t))
  {
    hide MapsGrew, Picked, Elements, HaveIds, MacsOn, ControlMacsOf, StartsAll, Plugged, Started, NetworkCommands;
    var ns, cs :|
      Launched(b, s, t, ns, cs, |cs|) && Elements(ns) == b.networks.Keys && Elements(cs) == b.computers.Keys;
    assert cs[..|cs|] == cs;
    var first := NetworkCommands(b, ns, t.bridge.ids, t.vhost.ids);
    var starts :| StartsAll(b, cs, t.vhost.ids, t.qk.ids, starts) && t.commands == s.commands + first + starts;
    hide Launched;
    assert Issued(s, t) == first + starts;
    AllPlugged(b, ns, t, Issued(s, t));
    AllStarted(b, cs, t, starts, Issued(s, t));
  }

  lemma MoreCommands(b: Blueprint, n: Uuid, t: HostState, xs: seq<Command>, ys: seq<Command>)
    requires Plugged(b, n, t, xs) && forall x :: x in xs ==> x in ys
    ensures Plugged(b, n, t, ys)
  {
    hide Row;
  }

  /** Every device of a machine that was started sits on a port that this construction
      added to the bridge of a network the device's interface is linked to. */
  lemma DevicesArePlugged(b: Blueprint, s: HostState, t: HostState, c: Uuid, name: string)
    requires Constructed(b, s, t) && AllPortsIn(b, PortMacs(b))
    requires c in b.computers && name in b.computers[c].interfaces && name != CIFX
    ensures var mac := b.computers[c].interfaces[name].mac;
            && mac in t.vhost.ids
            && var port := t.vhost.ids[mac];
               && (exists x :: x in Issued(s, t) && x.StartVm? && x.computer == b.computers[c].id
                               && Device(port, mac) in x.devices)
               && (exists n, i :: n in b.networks && n in t.bridge.ids && 0 <= i < |Row(b, n)|
                                  && Row(b, n)[i].mac == mac && AddPort(t.bridge.ids[n], port) in Issued(s, t))
  {
    hide Row, Constructed, Issued;
    ConstructedIssues(b, s, t);
    var computer := b.computers[c];
    var mac := computer.interfaces[name].mac;
    assert PortsIn(computer, PortMacs(b));
    var x :| x in Issued(s, t) && Starts(computer, t.vhost.ids, t.qk.ids, x);
    var names :| Enumerates(names, computer.interfaces.Keys - {CIFX})
                 && DevicesNamed(computer, t.vhost.ids, names, x.devices);
    assert name in computer.interfaces.Keys - {CIFX};
    assert name in names;
    var j :| 0 <= j < |names| && names[j] == name;
    assert x.devices[j] == Device(t.vhost.ids[mac], mac);
    var n :| n in b.networks && mac in RowMacs(Row(b, n));
    var i :| 0 <= i < |Row(b, n)| && Row(b, n)[i].mac == mac;
    assert Plugged(b, n, t, Issued(s, t));
  }

  // ---- Runs ----

  datatype Event =
    | Up(blueprint: Blueprint)
    | UpFailed(blueprint: Blueprint)
    | Down(blueprint: Blueprint)
    | DownFailed(blueprint: Blueprint)

  ghost predicate Happens(s: HostState, ev: Event, t: HostState) {
    match ev
    case Up(b) => Constructed(b, s, t)
    case UpFailed(b) => HalfConstructed(b, s, t)
    case Down(b) => Destructed(b, s, t)
    case DownFailed(b) => HalfDestructed(b, s, t)
  }

  const START := HostState(IdMap(0, map[]), IdMap(0, map[]), IdMap(0, map[]), map[], [])

  /** Any calls, with any blueprints, in any order. */
  ghost predicate Running(states: seq<HostState>, events: seq<Event>) {
    && |states| == |events| + 1 && states[0] == START
    && forall i :: 0 <= i < |events| ==> Happens(states[i], events[i], states[i + 1])
  }

  lemma RunningBefore(states: seq<HostState>, events: seq<Event>)
    requires Running(states, events) && events != []
    ensures Running(states[..|events|], events[..|events| - 1])
    ensures Happens(states[|events| - 1], events[|events| - 1], states[|events|])
  {
    hide Happens;
  }

  /** The blueprints constructed and not destructed since. */
  ghost function UpNow(events: seq<Event>): set<Blueprint> {
    if events == [] then {}
    else
      var before, ev := UpNow(events[..|events| - 1]), events[|events| - 1];
      match ev
      case Up(b) => before + {b}
      case UpFailed(_) => before
      case Down(b) => before - {b}
      case DownFailed(b) => before - {b}
  }

  /** Those that a failed call may have left half done. */
  ghost function Lingering(events: seq<Event>): set<Blueprint> {
    if events == [] then {}
    else
      var init, ev := events[..|events| - 1], events[|events| - 1];
      match ev
      case Up(b) => Lingering(init) - {b}
      case UpFailed(b) => if b in UpNow(init) then Lingering(init) else Lingering(init) + {b}
      case Down(b) => Lingering(init) - {b}
      case DownFailed(b) => Lingering(init) + {b}
  }

  // ---- Steps ----

  ghost predicate KeysAdded(b: Blueprint, s: HostState, t: HostState) {
    && t.bridge.ids.Keys <= s.bridge.ids.Keys + b.networks.Keys
    && t.vhost.ids.Keys <= s.vhost.ids.Keys + PortMacs(b)
    && t.qk.ids.Keys <= s.qk.ids.Keys + ControlMacs(b)
  }

  ghost predicate Shrank<K(!new)>(m: IdMap<K>, m': IdMap<K>, keys: set<K>) {
    && m'.next == m.next
    && (forall k :: k in m'.ids ==> k in m.ids && m'.ids[k] == m.ids[k])
    && (forall k :: k in m.ids && k !in keys ==> k in m'.ids)
  }

  ghost predicate KeysDropped(b: Blueprint, s: HostState, t: HostState) {
    && Shrank(s.bridge, t.bridge, b.networks.Keys)
    && Shrank(s.vhost, t.vhost, PortMacs(b))
    && Shrank(s.qk, t.qk, ControlMacs(b))
  }

  ghost predicate AllKeysOf(b: Blueprint, s: HostState) {
    b.networks.Keys <= s.bridge.ids.Keys && PortMacs(b) <= s.vhost.ids.Keys && ControlMacs(b) <= s.qk.ids.Keys
  }

  ghost predicate NoKeysOf(b: Blueprint, s: HostState) {
    b.networks.Keys !! s.bridge.ids.Keys && PortMacs(b) !! s.vhost.ids.Keys && ControlMacs(b) !! s.qk.ids.Keys
  }

  lemma SomeMacs(b: Blueprint, ns: set<Uuid>, cs: set<Uuid>)
    ensures ns <= b.networks.Keys ==> MacsOn(b, ns) <= PortMacs(b)
    ensures cs <= b.computers.Keys ==> ControlMacsOf(b, cs) <= ControlMacs(b)
  {
    hide Row, RowMacs;
  }

  lemma LaunchedStep(b: Blueprint, s: HostState, t: HostState, ns: seq<Uuid>, cs: seq<Uuid>, k: nat)
    requires Launched(b, s, t, ns, cs, k)
    ensures MapsGrew(s, t) && KeysAdded(b, s, t) && t.live == s.live[b.id := b] && s.commands <= t.commands
    ensures forall id: nat :: DelBridge(id) in t.commands ==> DelBridge(id) in s.commands
    ensures Elements(ns) == b.networks.Keys && Elements(cs) == b.computers.Keys ==> AllKeysOf(b, t)
  {
    SomeMacs(b, Elements(ns), Elements(cs));
    hide Row, RowMacs, MapsGrew, MacsOn, ControlMacsOf, Elements, NetworkCommands;
    var starts :|
      && StartsAll(b, cs[..k], t.vhost.ids, t.qk.ids, starts)
      && t.commands == s.commands + NetworkCommands(b, ns, t.bridge.ids, t.vhost.ids) + starts;
    hide DevicesOf;
    NoDelInNetworks(b, ns, t);
    assert forall x :: x in starts ==> x.StartVm?;
  }

  lemma {:induction false} NoDelInNetworks(b: Blueprint, ns: seq<Uuid>, s: HostState)
    requires HaveIds(b, ns, s.bridge.ids, s.vhost.ids)
    ensures forall x :: x in NetworkCommands(b, ns, s.bridge.ids, s.vhost.ids) ==> x.AddBridge? || x.AddPort?
  {
    hide Row, RowMacs;
    if ns != [] {
      NoDelInNetworks(b, ns[..|ns| - 1], s);
    }
  }

  lemma UpStep(b: Blueprint, s: HostState, t: HostState)
    requires Constructed(b, s, t) || HalfConstructed(b, s, t)
    ensures MapsGrew(s, t) && KeysAdded(b, s, t) && t.live == s.live[b.id := b] && s.commands <= t.commands
    ensures forall id: nat :: DelBridge(id) in t.commands ==> DelBridge(id) in s.commands
    ensures Constructed(b, s, t) ==> AllKeysOf(b, t)
  {
    hide Launched, MapsGrew, KeysAdded, AllKeysOf, Elements, LaunchStopped;
    if Constructed(b, s, t) {
      var ns, cs :|
        Launched(b, s, t, ns, cs, |cs|) && Elements(ns) == b.networks.Keys && Elements(cs) == b.computers.Keys;
      LaunchedStep(b, s, t, ns, cs, |cs|);
    } else {
      var ns, cs, k :| Launched(b, s, t, ns, cs, k) && LaunchStopped(b, t, ns, cs, k);
      LaunchedStep(b, s, t, ns, cs, k);
    }
  }

  /** Bridge `id` was that of a network which has none any more. */
  ghost predicate BridgeGone(s: HostState, t: HostState, id: nat) {
    exists n :: n in s.bridge.ids && n !in t.bridge.ids && s.bridge.ids[n] == id
  }

  lemma TornDownStep(b: Blueprint, s: HostState, t: HostState, cs: seq<Uuid>, ns: seq<Uuid>)
    requires TornDown(b, s, t, cs, ns)
    ensures KeysDropped(b, s, t) && t.live == s.live && s.commands <= t.commands
    ensures forall id: nat :: DelBridge(id) in t.commands ==>
              DelBridge(id) in s.commands || BridgeGone(s, t, id)
    ensures Elements(ns) == b.networks.Keys && Elements(cs) == b.computers.Keys ==> NoKeysOf(b, t)
  {
    SomeMacs(b, Elements(ns), Elements(cs));
    hide Row, RowMacs, MacsOn, ControlMacsOf;
    forall id | DelBridge(id) in t.commands && DelBridge(id) !in s.commands
      ensures BridgeGone(s, t, id)
    {
      assert DelBridge(id) in DelCommands(ns, s.bridge.ids);
      var i :| 0 <= i < |ns| && DelCommands(ns, s.bridge.ids)[i] == DelBridge(id);
      assert ns[i] in Elements(ns);
    }
  }

  lemma DownStep(b: Blueprint, s: HostState, t: HostState)
    requires Destructed(b, s, t) || HalfDestructed(b, s, t)
    ensures KeysDropped(b, s, t) && t.live == s.live && s.commands <= t.commands
    ensures forall id: nat :: DelBridge(id) in t.commands ==>
              DelBridge(id) in s.commands || BridgeGone(s, t, id)
    ensures Destructed(b, s, t) ==> NoKeysOf(b, t)
  {
    hide TornDown, KeysDropped, NoKeysOf, Elements, ConnectedComputers;
    if Destructed(b, s, t) {
      var cs, ns :|
        TornDown(b, s, t, cs, ns) && Elements(cs) == b.computers.Keys && Elements(ns) == b.networks.Keys;
      TornDownStep(b, s, t, cs, ns);
    } else {
      var cs, ns :| TornDown(b, s, t, cs, ns);
      TornDownStep(b, s, t, cs, ns);
    }
  }

  // ---- Ids over runs ----

  /** No bridge that was deleted is the bridge of a live network. */
  ghost predicate NoLiveDeleted(s: HostState) {
    forall id: nat :: DelBridge(id) in s.commands ==>
      id < s.bridge.next && forall n :: n in s.bridge.ids ==> s.bridge.ids[n] != id
  }

  lemma GrewKeepsDeleted(s: HostState, t: HostState)
    requires s.Sound() && NoLiveDeleted(s) && MapsGrew(s, t)
    requires forall id: nat :: DelBridge(id) in t.commands ==> DelBridge(id) in s.commands
    ensures t.Sound() && NoLiveDeleted(t)
  {
  }

  lemma DroppedKeepsDeleted(b: Blueprint, s: HostState, t: HostState)
    requires s.Sound() && NoLiveDeleted(s) && KeysDropped(b, s, t)
    requires forall id: nat :: DelBridge(id) in t.commands ==>
               DelBridge(id) in s.commands || BridgeGone(s, t, id)
    ensures t.Sound() && NoLiveDeleted(t)
  {
  }

  /** Over every run, whatever fails and whatever the blueprints share: no two live keys
      of a map share an id, and a deleted bridge's id is never used again. */
  lemma {:induction false} IdsAreNeverShared(states: seq<HostState>, events: seq<Event>)
    requires Running(states, events)
    ensures states[|events|].Sound() && NoLiveDeleted(states[|events|])
  {
    hide Constructed, HalfConstructed, Destructed, HalfDestructed, MapsGrew, KeysDropped;
    hide HostState.Sound, NoLiveDeleted;
    if events == [] {
      StartIsSound();
    } else {
      var n := |events| - 1;
      var s, t := states[n], states[n + 1];
      RunningBefore(states, events);
      IdsAreNeverShared(states[..n + 1], events[..n]);
      var b := events[n].blueprint;
      if events[n].Up? || events[n].UpFailed? {
        UpStep(b, s, t);
        GrewKeepsDeleted(s, t);
      } else {
        DownStep(b, s, t);
        DroppedKeepsDeleted(b, s, t);
      }
    }
  }

  lemma StartIsSound()
    ensures START.Sound() && NoLiveDeleted(START)
  {
  }

  // ---- Live keys over runs ----

  /** Every live key belongs to one of these blueprints. */
  ghost predicate KeysWithin(s: HostState, bs: set<Blueprint>) {
    && (forall n :: n in s.bridge.ids ==> exists b :: b in bs && n in b.networks)
    && (forall m :: m in s.vhost.ids ==> exists b :: b in bs && m in PortMacs(b))
    && (forall m :: m in s.qk.ids ==> exists b :: b in bs && m in ControlMacs(b))
  }

  /** All keys of these blueprints are live. */
  ghost predicate KeysCover(s: HostState, bs: set<Blueprint>) {
    forall b :: b in bs ==> AllKeysOf(b, s)
  }

  lemma AddedWithin(b: Blueprint, s: HostState, t: HostState, bs: set<Blueprint>, bs': set<Blueprint>)
    requires KeysWithin(s, bs) && KeysAdded(b, s, t) && bs + {b} <= bs'
    ensures KeysWithin(t, bs')
  {
    hide PortMacs, ControlMacs;
  }

  lemma DroppedWithin(b: Blueprint, s: HostState, t: HostState, bs: set<Blueprint>, bs': set<Blueprint>)
    requires KeysWithin(s, bs) && KeysDropped(b, s, t)
    requires bs <= bs' || (bs - {b} <= bs' && NoKeysOf(b, t))
    ensures KeysWithin(t, bs')
  {
    hide PortMacs, ControlMacs;
  }

  /** Over every run a live key belongs to a blueprint that is up or was left half done. */
  lemma {:induction false} KeysBelong(states: seq<HostState>, events: seq<Event>)
    requires Running(states, events)
    ensures KeysWithin(states[|events|], UpNow(events) + Lingering(events))
  {
    hide Constructed, HalfConstructed, Destructed, HalfDestructed, MapsGrew, KeysAdded, KeysDropped;
    hide NoKeysOf, AllKeysOf, KeysWithin;
    if events == [] {
      StartHasNoKeys();
    } else {
      var n := |events| - 1;
      var s, t, init := states[n], states[n + 1], events[..n];
      RunningBefore(states, events);
      KeysBelong(states[..n + 1], init);
      var b := events[n].blueprint;
      if events[n].Up? || events[n].UpFailed? {
        UpStep(b, s, t);
        AddedWithin(b, s, t, UpNow(init) + Lingering(init), UpNow(events) + Lingering(events));
      } else {
        DownStep(b, s, t);
        DroppedWithin(b, s, t, UpNow(init) + Lingering(init), UpNow(events) + Lingering(events));
      }
    }
  }

  lemma StartHasNoKeys()
    ensures KeysWithin(START, {} + {})
  {
  }

  ghost predicate Disjoint(a: Blueprint, b: Blueprint) {
    a.networks.Keys !! b.networks.Keys && PortMacs(a) !! PortMacs(b) && ControlMacs(a) !! ControlMacs(b)
  }

  /** Whatever is destructed shares nothing with the other blueprints that are up. */
  ghost predicate DestructsApart(events: seq<Event>) {
    forall i, x :: 0 <= i < |events| && (events[i].Down? || events[i].DownFailed?) && x in UpNow(events[..i]) ==>
      x == events[i].blueprint || Disjoint(x, events[i].blueprint)
  }

  lemma ApartBefore(events: seq<Event>)
    requires DestructsApart(events) && events != []
    ensures DestructsApart(events[..|events| - 1])
    ensures var ev := events[|events| - 1];
            ev.Down? || ev.DownFailed? ==>
              forall x :: x in UpNow(events[..|events| - 1]) ==> x == ev.blueprint || Disjoint(x, ev.blueprint)
  {
    hide Disjoint, UpNow;
    var init := events[..|events| - 1];
    forall i, x | 0 <= i < |init| && (init[i].Down? || init[i].DownFailed?) && x in UpNow(init[..i])
      ensures x == init[i].blueprint || Disjoint(x, init[i].blueprint)
    {
      assert init[..i] == events[..i] && init[i] == events[i];
    }
  }

  lemma GrewCovers(s: HostState, t: HostState, x: Blueprint)
    requires AllKeysOf(x, s) && MapsGrew(s, t)
    ensures AllKeysOf(x, t)
  {
    hide PortMacs, ControlMacs;
  }

  lemma DroppedCovers(b: Blueprint, s: HostState, t: HostState, x: Blueprint)
    requires AllKeysOf(x, s) && KeysDropped(b, s, t) && Disjoint(x, b)
    ensures AllKeysOf(x, t)
  {
    hide PortMacs, ControlMacs;
  }

  lemma {:induction false} UpKeepsKeys(states: seq<HostState>, events: seq<Event>)
    requires Running(states, events) && DestructsApart(events)
    ensures KeysCover(states[|events|], UpNow(events))
  {
    hide Constructed, HalfConstructed, Destructed, HalfDestructed, MapsGrew, KeysDropped, AllKeysOf, Disjoint;
    if events != [] {
      var n := |events| - 1;
      var s, t, init := states[n], states[n + 1], events[..n];
      RunningBefore(states, events);
      ApartBefore(events);
      UpKeepsKeys(states[..n + 1], init);
      var b := events[n].blueprint;
      if events[n].Up? || events[n].UpFailed? {
        UpStep(b, s, t);
      } else {
        DownStep(b, s, t);
      }
      forall x | x in UpNow(events) && x in UpNow(init) ensures AllKeysOf(x, t) {
        if events[n].Up? || events[n].UpFailed? {
          GrewCovers(s, t, x);
        } else {
          DroppedCovers(b, s, t, x);
        }
      }
    }
  }

  /** The live keys are exactly those of the blueprints that are up. */
  ghost predicate KeysMatch(s: HostState, bs: set<Blueprint>) {
    && (forall n :: n in s.bridge.ids <==> exists b :: b in bs && n in b.networks)
    && (forall m :: m in s.vhost.ids <==> exists b :: b in bs && m in PortMacs(b))
    && (forall m :: m in s.qk.ids <==> exists b :: b in bs && m in ControlMacs(b))
  }

  /** Over every run in which destructed blueprints share nothing with others that are up,
      the live keys are between those of the blueprints up and those up or left half done,
      so exactly those of the blueprints up when nothing is left half done. */
  lemma IdsFollowBlueprints(states: seq<HostState>, events: seq<Event>)
    requires Running(states, events) && DestructsApart(events)
    ensures var s := states[|events|];
            && s.Sound() && KeysCover(s, UpNow(events)) && KeysWithin(s, UpNow(events) + Lingering(events))
            && (Lingering(events) == {} ==> KeysMatch(s, UpNow(events)))
  {
    hide Running, DestructsApart, UpNow, Lingering, PortMacs, ControlMacs;
    IdsAreNeverShared(states, events);
    KeysBelong(states, events);
    UpKeepsKeys(states, events);
    if Lingering(events) == {} {
      assert UpNow(events) + {} == UpNow(events);
    }
  }

  // ---- Blueprints that are up stay wired ----

  /** What construction set up for `b` is still there under the ids the maps hold: bridges
      that were not deleted, ports, and the machines' devices. */
  ghost predicate Wired(b: Blueprint, s: HostState) {
    && (forall n :: n in b.networks ==> Plugged(b, n, s, s.commands) && DelBridge(s.bridge.ids[n]) !in s.commands)
    && (AllPortsIn(b, PortMacs(b)) ==> forall c :: c in b.computers ==> Started(b.computers[c], s, s.commands))
  }

  ghost predicate SameIds<K(!new)>(m: IdMap<K>, m': IdMap<K>) {
    forall k :: k in m.ids && k in m'.ids ==> m'.ids[k] == m.ids[k]
  }

  ghost predicate IdsStay(s: HostState, t: HostState) {
    SameIds(s.bridge, t.bridge) && SameIds(s.vhost, t.vhost) && SameIds(s.qk, t.qk) && s.commands <= t.commands
  }

  lemma PluggedStays(b: Blueprint, n: Uuid, s: HostState, t: HostState)
    requires n in b.networks && Plugged(b, n, s, s.commands) && IdsStay(s, t) && AllKeysOf(b, t)
    ensures Plugged(b, n, t, t.commands)
  {
    hide Row;
    var row := Row(b, n);
    forall i | 0 <= i < |row|
      ensures row[i].mac in t.vhost.ids && AddPort(t.bridge.ids[n], t.vhost.ids[row[i].mac]) in t.commands
    {
      assert row[i].mac in RowMacs(row);
    }
  }

  lemma StartedStays(b: Blueprint, c: Uuid, s: HostState, t: HostState)
    requires c in b.computers && Started(b.computers[c], s, s.commands) && IdsStay(s, t) && AllKeysOf(b, t)
    requires PortsIn(b.computers[c], PortMacs(b))
    ensures Started(b.computers[c], t, t.commands)
  {
    hide PortMacs, Enumerates;
    var computer := b.computers[c];
    var x :| x in s.commands && Starts(computer, s.vhost.ids, s.qk.ids, x);
    assert computer.interfaces[CIFX].mac in ControlMacs(b);
    var names :| Enumerates(names, computer.interfaces.Keys - {CIFX})
                 && DevicesNamed(computer, s.vhost.ids, names, x.devices);
    NamesOf(names, computer.interfaces.Keys - {CIFX});
    assert DevicesNamed(computer, t.vhost.ids, names, x.devices);
    assert Starts(computer, t.vhost.ids, t.qk.ids, x) && x in t.commands;
  }

  lemma NamesOf(names: seq<string>, keys: set<string>)
    requires Enumerates(names, keys)
    ensures forall i :: 0 <= i < |names| ==> names[i] in keys
  {
  }

  lemma WiredStays(b: Blueprint, s: HostState, t: HostState)
    requires Wired(b, s) && IdsStay(s, t) && AllKeysOf(b, t) && NoLiveDeleted(t)
    ensures Wired(b, t)
  {
    hide Plugged, Started, IdsStay, PortsIn, PortMacs;
    forall n | n in b.networks ensures Plugged(b, n, t, t.commands) && DelBridge(t.bridge.ids[n]) !in t.commands {
      PluggedStays(b, n, s, t);
    }
    if AllPortsIn(b, PortMacs(b)) {
      forall c | c in b.computers ensures Started(b.computers[c], t, t.commands) {
        StartedStays(b, c, s, t);
      }
    }
  }

  lemma ConstructedIsWired(b: Blueprint, s: HostState, t: HostState)
    requires Constructed(b, s, t) && NoLiveDeleted(t)
    ensures Wired(b, t)
  {
    hide Constructed, Starts, Row, AllPortsIn;
    ConstructedIssues(b, s, t);
    forall x | x in Issued(s, t) ensures x in t.commands {
    }
    forall n | n in b.networks ensures Plugged(b, n, t, t.commands) {
      MoreCommands(b, n, t, Issued(s, t), t.commands);
    }
  }

  lemma GrewSameIds(s: HostState, t: HostState)
    requires MapsGrew(s, t) && s.commands <= t.commands
    ensures IdsStay(s, t)
  {
  }

  lemma DroppedSameIds(b: Blueprint, s: HostState, t: HostState)
    requires KeysDropped(b, s, t) && s.commands <= t.commands
    ensures IdsStay(s, t)
  {
  }

  /** Over every such run, and whatever else fails in it, a blueprint that is up keeps its
      bridges, the ports on them and its machines' devices. */
  lemma {:induction false} UpStaysWired(states: seq<HostState>, events: seq<Event>, x: Blueprint)
    requires Running(states, events) && DestructsApart(events) && x in UpNow(events)
    ensures Wired(x, states[|events|])
  {
    hide Constructed, HalfConstructed, Destructed, HalfDestructed, MapsGrew, KeysDropped, AllKeysOf, IdsStay, Wired;
    hide NoLiveDeleted, HostState.Sound;
    var n := |events| - 1;
    var s, t, init := states[n], states[n + 1], events[..n];
    RunningBefore(states, events);
    ApartBefore(events);
    IdsAreNeverShared(states, events);
    UpKeepsKeys(states, events);
    if events[n] == Up(x) {
      ConstructedIsWired(x, s, t);
    } else {
      UpStaysWired(states[..n + 1], init, x);
      if events[n].Up? || events[n].UpFailed? {
        UpStep(events[n].blueprint, s, t);
        GrewSameIds(s, t);
      } else {
        DownStep(events[n].blueprint, s, t);
        DroppedSameIds(events[n].blueprint, s, t);
      }
      WiredStays(x, s, t);
    }
  }

  // ---- What `live_blueprints` remembers ----

  /** Every blueprint that a construct was called for. */
  ghost function EverUp(events: seq<Event>): set<Blueprint> {
    set ev | ev in events && (ev.Up? || ev.UpFailed?) :: ev.blueprint
  }

  ghost predicate OnePerId(bs: set<Blueprint>) {
    forall a, b :: a in bs && b in bs && a.id == b.id ==> a == b
  }

  lemma {:induction false} UpWasUp(events: seq<Event>)
    ensures UpNow(events) <= EverUp(events)
  {
    if events != [] {
      UpWasUp(events[..|events| - 1]);
      assert events == events[..|events| - 1] + [events[|events| - 1]];
    }
  }

  lemma {:induction false} LiveIsEverUp(states: seq<HostState>, events: seq<Event>)
    requires Running(states, events)
    ensures forall id :: id in states[|events|].live <==> exists b :: b in EverUp(events) && b.id == id
    ensures forall id :: id in states[|events|].live ==>
              states[|events|].live[id] in EverUp(events) && states[|events|].live[id].id == id
  {
    hide Constructed, HalfConstructed, Destructed, HalfDestructed, MapsGrew, KeysDropped, KeysAdded;
    if events != [] {
      var n := |events| - 1;
      RunningBefore(states, events);
      LiveIsEverUp(states[..n + 1], events[..n]);
      var b := events[n].blueprint;
      assert events == events[..n] + [events[n]];
      if events[n].Up? || events[n].UpFailed? {
        UpStep(b, states[n], states[n + 1]);
        assert EverUp(events) == EverUp(events[..n]) + {b};
      } else {
        DownStep(b, states[n], states[n + 1]);
        assert EverUp(events) == EverUp(events[..n]);
      }
    }
  }

  /** `live_blueprints` holds every blueprint ever constructed, or the last of each id, for
      nothing leaves it. So it holds just the blueprints that are up exactly when
      everything ever constructed is. */
  lemma LiveNeverForgets(states: seq<HostState>, events: seq<Event>)
    requires Running(states, events)
    ensures var live := states[|events|].live;
            && live.Keys == (set b | b in EverUp(events) :: b.id)
            && (OnePerId(EverUp(events)) ==> live.Values == EverUp(events))
            && (OnePerId(EverUp(events)) ==> (live.Values == UpNow(events) <==> EverUp(events) <= UpNow(events)))
  {
    assert |states| == |events| + 1;
    hide Running, UpNow, EverUp;
    LiveIsEverUp(states, events);
    UpWasUp(events);
    var live := states[|events|].live;
    if OnePerId(EverUp(events)) {
      forall b | b in EverUp(events) ensures b in live.Values {
        assert b.id in live && live[b.id] == b;
      }
    }
  }
}

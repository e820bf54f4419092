/** What the setters mean to a reader of the blueprint: which field each of them sets, and
    which changes the source's equality sees (core/blueprint.cxx:393-424 and the operators of
    its parts). */
module EditLaws {
  import opened Wrappers
  import opened Units
  import opened Blueprints
  import opened BlueprintEdits
  import opened BlueprintEquality
  import opened Loads

  // ---- Which field is set ----

  /** Each setter sets its field, and setting that field back undoes it. */
  lemma SettersSetOneField(c: Computer, s: string, m: Memory, n: nat)
    ensures var r := EditComputer(c, ComputerName(s)); r.name == s && r.(name := c.name) == c
    ensures var r := EditComputer(c, ComputerOs(s)); r.os == s && r.(os := c.os) == c
    ensures var r := EditComputer(c, ComputerMemory(m)); r.memory == m && r.(memory := c.memory) == c
    ensures var r := EditComputer(c, ComputerDisk(m)); r.disk == m && r.(disk := c.disk) == c
    ensures var r := EditComputer(c, ComputerCores(n)); r.cores == n && r.(cores := c.cores) == c
    ensures var r := EditComputer(c, RemoveInterface(s));
            r.interfaces.Keys == c.interfaces.Keys - {s} && r.(interfaces := c.interfaces) == c
            && forall k :: k in r.interfaces ==> r.interfaces[k] == c.interfaces[k]
  {
  }

  lemma InterfaceSetters(i: Interface, s: string, l: Latency, w: Bandwidth, a: IpV4Address)
    ensures var r := EditInterface(i, InterfaceName(s)); r.name == s && r.(name := i.name) == i
    ensures var r := EditInterface(i, InterfaceLatency(l)); r.latency == l && r.(latency := i.latency) == i
    ensures var r := EditInterface(i, InterfaceCapacity(w)); r.capacity == w && r.(capacity := i.capacity) == i
    ensures var r := EditInterface(i, InterfaceAddress(a)); r.address == a && r.(address := i.address) == i
  {
  }

  lemma NetworkSetters(n: Network, s: string, l: Latency, w: Bandwidth, a: IpV4Address)
    ensures var r := EditNetwork(n, NetworkName(s)); r.name == s && r.(name := n.name) == n
    ensures var r := EditNetwork(n, NetworkLatency(l)); r.latency == l && r.(latency := n.latency) == n
    ensures var r := EditNetwork(n, NetworkCapacity(w)); r.capacity == w && r.(capacity := n.capacity) == n
    ensures var r := EditNetwork(n, NetworkSpace(a)); r.ipv4 == a && r.(ipv4 := n.ipv4) == n
  {
  }

  /** `add_ifx` leaves one interface of that name with those figures. One that was there keeps
      its mac and address, a new one has the generated mac and no address. */
  lemma InterfaceAdded(c: Computer, s: string, w: Bandwidth, l: Latency, newMac: string)
    ensures var r := EditComputer(c, AddInterface(s, w, l, newMac));
            && r.(interfaces := c.interfaces) == c
            && r.interfaces.Keys == c.interfaces.Keys + {s}
            && (forall k :: k in c.interfaces && k != s ==> r.interfaces[k] == c.interfaces[k])
            && var i := r.interfaces[s];
               && i.name == s && i.capacity == w && i.latency == l
               && if s in c.interfaces then i.mac == c.interfaces[s].mac && i.address == c.interfaces[s].address
                  else i.mac == newMac && i.address == IpV4Address(0, 0)
  {
  }

  /** The blueprint's own setters: its name, and the link with the computer's end first. */
  lemma BlueprintSetters(b: Blueprint, s: string, c: Uuid, mac: string, n: Uuid, m: Uuid)
    ensures var r := EditBlueprint(b, Rename(s)); r.name == s && r.(name := b.name) == b
    ensures var r := EditBlueprint(b, Connect(c, mac, n));
            && r.(links := b.links) == b && |r.links| == |b.links| + 1 && b.links <= r.links
            && var l := r.links[|b.links|];
               l.a.id == c && l.a.mac == Some(mac) && l.b.id == n && l.b.mac == None
    ensures var r := EditBlueprint(b, ConnectNetworks(m, n));
            && r.(links := b.links) == b && |r.links| == |b.links| + 1 && b.links <= r.links
            && var l := r.links[|b.links|];
               l.a.id == m && l.a.mac == None && l.b.id == n && l.b.mac == None
  {
  }

  /** Networks are added under their ids, removed by name, and changed alone. */
  lemma NetworksChanged(b: Blueprint, id: Uuid, s: string, y: NetworkEdit, k: Uuid)
    ensures var r := EditBlueprint(b, AddNetwork(id, s));
            && r.(networks := b.networks) == b && r.networks.Keys == b.networks.Keys + {id}
            && (id !in b.networks ==> r.networks[id] == NewNetwork(id, s))
            && (k in b.networks ==> r.networks[k] == b.networks[k])
    ensures var r := EditBlueprint(b, RemoveNetworks(s));
            && r.(networks := b.networks) == b
            && (k in r.networks <==> k in b.networks && b.networks[k].name != s)
            && (k in r.networks ==> r.networks[k] == b.networks[k])
    ensures var r := EditBlueprint(b, OfNetwork(id, y));
            && r.(networks := b.networks) == b && r.networks.Keys == b.networks.Keys
            && (k in b.networks ==>
                  r.networks[k] == if k == id then EditNetwork(b.networks[k], y) else b.networks[k])
  {
    hide EditNetwork, NewNetwork;
  }

  /** The same for computers. */
  lemma ComputersChanged(b: Blueprint, id: Uuid, s: string, mac: string, z: ComputerEdit, k: Uuid)
    ensures var r := EditBlueprint(b, AddComputer(id, s, mac));
            && r.(computers := b.computers) == b && r.computers.Keys == b.computers.Keys + {id}
            && r.computers[id] == NewComputer(id, s, mac)
            && (k in b.computers && k != id ==> r.computers[k] == b.computers[k])
    ensures var r := EditBlueprint(b, RemoveComputers(s));
            && r.(computers := b.computers) == b
            && (k in r.computers <==> k in b.computers && b.computers[k].name != s)
            && (k in r.computers ==> r.computers[k] == b.computers[k])
    ensures var r := EditBlueprint(b, OfComputer(id, z));
            && r.(computers := b.computers) == b && r.computers.Keys == b.computers.Keys
            && (k in b.computers ==>
                  r.computers[k] == if k == id then EditComputer(b.computers[k], z) else b.computers[k])
  {
    hide EditComputer, NewComputer;
  }

  /** A new computer takes two cores, 4096 megabytes of memory, 10240 of disk and 1024
      megabits per second, all of them for its control interface. */
  lemma NewComputerDemands(id: Uuid, name: string, newMac: string)
    ensures var c := NewComputer(id, name, newMac);
            && c.id == id && c.name == name && c.os == "ubuntu-server-15.10"
            && c.cores == 2 && c.memory.Megabytes() == 4096 && c.disk.Megabytes() == 10240
            && c.interfaces.Keys == {"cifx"}
            && c.interfaces["cifx"].name == "cifx" && c.interfaces["cifx"].mac == newMac
            && NetOf(c.interfaces) == 1024
  {
    OneInterface(NewComputer(id, name, newMac).interfaces, CIFX);
  }

  lemma OneInterface(interfaces: map<string, Interface>, k: string)
    requires interfaces.Keys == {k}
    ensures NetOf(interfaces) == interfaces[k].capacity.Megabits()
  {
    assert k in interfaces;
    var j :| j in interfaces && NetOf(interfaces) == interfaces[j].capacity.Megabits() + NetOf(interfaces - {j});
    assert interfaces - {j} == map[];
  }

  /** A new network has 100 megabits per second and the addresses 10.10.0.0/16. */
  lemma NewNetworkHas(id: Uuid, name: string)
    ensures var n := NewNetwork(id, name);
            && n.id == id && n.name == name && n.capacity.Megabits() == 100 && n.latency.ToMS() == 0.0
            && n.ipv4 == IpV4Address(10 * 0x100_0000 + 10 * 0x1_0000, 16)
  {
  }

  // ---- Which changes equality sees ----

  function Nanoseconds(l: Latency): nat {
    match l.unit
    case NS => l.size
    case US => 1000 * l.size
    case MS => 1000000 * l.size
    case S => 1000000000 * l.size
  }

  lemma InNanoseconds(l: Latency)
    ensures l.ToMS() * 1000000.0 == Nanoseconds(l) as real
  {
  }

  /** Two latencies are taken for equal only if they are: they differ by whole nanoseconds. */
  lemma SameLatencyIff(a: Latency, b: Latency)
    ensures SameLatency(a, b) <==> Nanoseconds(a) == Nanoseconds(b)
  {
    InNanoseconds(a);
    InNanoseconds(b);
    hide Latency.ToMS, Nanoseconds;
    var d := a.ToMS() - b.ToMS();
    var k: int := Nanoseconds(a) - Nanoseconds(b);
    assert d * 1000000.0 == k as real;
  }

  ghost predicate SameFigures(a: Interface, b: Interface) {
    && a.name == b.name && Nanoseconds(a.latency) == Nanoseconds(b.latency)
    && a.capacity.Megabits() == b.capacity.Megabits()
  }

  /** Changes of a computer that its equality does not see. */
  ghost predicate Unseen(c: Computer, x: ComputerEdit) {
    match x
    case ComputerName(name) => name == c.name
    case ComputerOs(os) => os == c.os
    case ComputerMemory(memory) => memory.Bytes() == c.memory.Bytes()
    case ComputerDisk(disk) => disk.Bytes() == c.disk.Bytes()
    case ComputerCores(cores) => cores == c.cores
    case AddInterface(name, capacity, latency, _) =>
      name in c.interfaces ==>
        && c.interfaces[name].name == name && Nanoseconds(c.interfaces[name].latency) == Nanoseconds(latency)
        && c.interfaces[name].capacity.Megabits() == capacity.Megabits()
    case RemoveInterface(name) => name !in c.interfaces
    case OfInterface(k, y) => k in c.interfaces ==> UnseenOnInterface(c.interfaces[k], y)
  }

  ghost predicate UnseenOnInterface(i: Interface, x: InterfaceEdit) {
    match x
    case InterfaceName(name) => name == i.name
    case InterfaceLatency(latency) => Nanoseconds(latency) == Nanoseconds(i.latency)
    case InterfaceCapacity(capacity) => capacity.Megabits() == i.capacity.Megabits()
    case InterfaceAddress(_) => true
  }

  ghost predicate UnseenOnNetwork(n: Network, x: NetworkEdit) {
    match x
    case NetworkName(name) => name == n.name
    case NetworkLatency(latency) => Nanoseconds(latency) == Nanoseconds(n.latency)
    case NetworkCapacity(capacity) => capacity.Megabits() == n.capacity.Megabits()
    case NetworkSpace(_) => true
  }

  lemma InterfaceSeen(i: Interface, x: InterfaceEdit)
    ensures SameInterface(i, EditInterface(i, x)) <==> UnseenOnInterface(i, x)
  {
    SameLatencyIff(i.latency, EditInterface(i, x).latency);
    hide SameLatency, Nanoseconds;
  }

  lemma SameInterfaceIff(a: Interface, b: Interface)
    ensures SameInterface(a, b) <==> SameFigures(a, b)
  {
    SameLatencyIff(a.latency, b.latency);
    hide SameLatency, Nanoseconds;
  }

  lemma NetworkSeen(n: Network, x: NetworkEdit)
    ensures SameNetwork(n, EditNetwork(n, x)) <==> UnseenOnNetwork(n, x)
  {
    SameLatencyIff(n.latency, EditNetwork(n, x).latency);
    hide SameLatency, Nanoseconds;
  }

  lemma InterfacesSeen(c: Computer, x: ComputerEdit)
    requires x.AddInterface? || x.RemoveInterface? || x.OfInterface?
    ensures SameComputer(c, EditComputer(c, x)) <==> Unseen(c, x)
  {
    var r := EditComputer(c, x);
    forall k | k in c.interfaces && k in r.interfaces
      ensures SameInterface(c.interfaces[k], r.interfaces[k]) <==> SameFigures(c.interfaces[k], r.interfaces[k])
    {
      SameInterfaceIff(c.interfaces[k], r.interfaces[k]);
    }
    if x.OfInterface? && x.key in c.interfaces {
      InterfaceSeen(c.interfaces[x.key], x.interfaceEdit);
    }
    hide SameInterface, Nanoseconds, EditInterface, UnseenOnInterface;
  }

  /** A computer equals itself after a change exactly when the change does not alter a name,
      the system, the cores, a size, a rate or a time, or take an interface away. */
  lemma ComputerSeen(c: Computer, x: ComputerEdit)
    ensures SameComputer(c, EditComputer(c, x)) <==> Unseen(c, x)
  {
    if x.AddInterface? || x.RemoveInterface? || x.OfInterface? {
      InterfacesSeen(c, x);
    } else {
      forall k | k in c.interfaces ensures SameInterface(c.interfaces[k], c.interfaces[k]) {
        SameInterfaceIff(c.interfaces[k], c.interfaces[k]);
      }
      hide SameInterface;
    }
  }

  lemma SameItself(c: Computer, n: Network)
    ensures SameComputer(c, c) && SameNetwork(n, n)
  {
    forall k | k in c.interfaces ensures SameInterface(c.interfaces[k], c.interfaces[k]) {
      SameInterfaceIff(c.interfaces[k], c.interfaces[k]);
    }
    SameLatencyIff(n.latency, n.latency);
    hide SameInterface, SameLatency;
  }

  /** Changes of a blueprint that its equality does not see: those of links, and those that
      leave the same networks and computers and are not seen on these. */
  ghost predicate UnseenOnBlueprint(b: Blueprint, x: Edit) {
    match x
    case Rename(name) => name == b.name
    case AddNetwork(id, _) => id in b.networks
    case AddComputer(id, name, newMac) =>
      id in b.computers && SameComputer(b.computers[id], NewComputer(id, name, newMac))
    case RemoveComputers(name) => forall k :: k in b.computers ==> b.computers[k].name != name
    case RemoveNetworks(name) => forall k :: k in b.networks ==> b.networks[k].name != name
    case Connect(_, _, _) => true
    case ConnectNetworks(_, _) => true
    case OfNetwork(k, y) => k in b.networks ==> UnseenOnNetwork(b.networks[k], y)
    case OfComputer(k, y) => k in b.computers ==> Unseen(b.computers[k], y)
  }

  ghost predicate SameComputers(xs: map<Uuid, Computer>, ys: map<Uuid, Computer>) {
    |xs| == |ys| && forall k :: k in xs ==> k in ys && SameComputer(xs[k], ys[k])
  }

  ghost predicate SameNetworks(xs: map<Uuid, Network>, ys: map<Uuid, Network>) {
    |xs| == |ys| && forall k :: k in xs ==> k in ys && SameNetwork(xs[k], ys[k])
  }

  lemma ComputersSeen(xs: map<Uuid, Computer>, k: Uuid, c: Computer, name: string)
    ensures SameComputers(xs, xs)
    ensures SameComputers(xs, xs[k := c]) <==> k in xs && SameComputer(xs[k], c)
    ensures SameComputers(xs, WithoutNamed(xs, name)) <==> forall j :: j in xs ==> xs[j].name != name
  {
    forall j | j in xs ensures SameComputer(xs[j], xs[j]) {
      SameItself(xs[j], NewNetwork(j, ""));
    }
    hide SameComputer;
    assert xs[k := c].Keys == xs.Keys + {k};
    assert |xs.Keys| == |xs| && |xs[k := c].Keys| == |xs[k := c]|;
    if forall j :: j in xs ==> xs[j].name != name {
      assert WithoutNamed(xs, name) == xs;
    }
  }

  lemma NetworksSeen(xs: map<Uuid, Network>, k: Uuid, n: Network, name: string)
    ensures SameNetworks(xs, xs)
    ensures SameNetworks(xs, xs[k := n]) <==> k in xs && SameNetwork(xs[k], n)
    ensures SameNetworks(xs, WithoutNetworks(xs, name)) <==> forall j :: j in xs ==> xs[j].name != name
  {
    forall j | j in xs ensures SameNetwork(xs[j], xs[j]) {
      SameItself(NewComputer(j, "", ""), xs[j]);
    }
    hide SameNetwork;
    assert xs[k := n].Keys == xs.Keys + {k};
    assert |xs.Keys| == |xs| && |xs[k := n].Keys| == |xs[k := n]|;
    if forall j :: j in xs ==> xs[j].name != name {
      assert WithoutNetworks(xs, name) == xs;
    }
  }

  lemma SamePartwise(a: Blueprint, b: Blueprint)
    ensures SameBlueprint(a, b) <==>
            a.name == b.name && SameComputers(a.computers, b.computers) && SameNetworks(a.networks, b.networks)
  {
    hide SameComputer, SameNetwork;
  }

  /** The same for a blueprint. */
  lemma BlueprintSeen(b: Blueprint, x: Edit)
    ensures SameBlueprint(b, EditBlueprint(b, x)) <==> UnseenOnBlueprint(b, x)
  {
    hide SameBlueprint, SameComputers, SameNetworks, SameComputer, SameNetwork;
    hide EditComputer, EditNetwork, Unseen, UnseenOnNetwork, NewComputer, NewNetwork, WithoutNamed, WithoutNetworks;
    SamePartwise(b, EditBlueprint(b, x));
    var anyone, none := NewComputer(b.id, "", ""), NewNetwork(b.id, "");
    ComputersSeen(b.computers, b.id, anyone, "");
    NetworksSeen(b.networks, b.id, none, "");
    match x {
      case AddNetwork(id, name) => NetworksSeen(b.networks, id, NewNetwork(id, name), "");
      case AddComputer(id, name, newMac) => ComputersSeen(b.computers, id, NewComputer(id, name, newMac), "");
      case RemoveComputers(name) => ComputersSeen(b.computers, b.id, anyone, name);
      case RemoveNetworks(name) => NetworksSeen(b.networks, b.id, none, name);
      case OfNetwork(k, y) =>
        if k in b.networks {
          NetworksSeen(b.networks, k, EditNetwork(b.networks[k], y), "");
          NetworkSeen(b.networks[k], y);
        }
      case OfComputer(k, y) =>
        if k in b.computers {
          ComputersSeen(b.computers, k, EditComputer(b.computers[k], y), "");
          ComputerSeen(b.computers[k], y);
        }
      case _ =>
    }
  }
}

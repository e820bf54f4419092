/** Changes that callers make to a blueprint through its setters, on values
    (core/blueprint.cxx:104-134, 253-294, 650-681, 886-914, 1026-1084). A change that names a
    network, computer or interface that is not there is an exception in the source
    and changes nothing. */
module BlueprintEdits {
  import opened Wrappers
  import opened Units
  import opened Blueprints

  /** The address space of a new network, 10.10.0.0/16. */
  const DEFAULT_SPACE := IpV4Address(0x0A0A_0000, 16)

  const DEFAULT_DISK := Memory(10, GB)

  /** An interface has a generated mac and no address until one is assigned. */
  function NewInterface(name: string, mac: string, latency: Latency, capacity: Bandwidth): Interface {
    Interface(name, mac, latency, capacity, IpV4Address(0, 0))
  }

  /** The control interface that every new computer gets, with a generated mac. */
  function DefaultCifx(mac: string): Interface {
    NewInterface(CIFX, mac, Latency(0, MS), Bandwidth(1, GBPS))
  }

  function NewComputer(id: Uuid, name: string, newMac: string): Computer {
    Computer(id, name, "ubuntu-server-15.10", Memory(4, GB), DEFAULT_DISK, 2, map[CIFX := DefaultCifx(newMac)])
  }

  function NewNetwork(id: Uuid, name: string): Network {
    Network(id, name, Bandwidth(100, MBPS), Latency(0, MS), DEFAULT_SPACE)
  }

  datatype InterfaceEdit =
    | InterfaceName(name: string)
    | InterfaceLatency(latency: Latency)
    | InterfaceCapacity(capacity: Bandwidth)
    | InterfaceAddress(address: IpV4Address)

  datatype NetworkEdit =
    | NetworkName(name: string)
    | NetworkLatency(latency: Latency)
    | NetworkCapacity(capacity: Bandwidth)
    | NetworkSpace(ipv4: IpV4Address)

  datatype ComputerEdit =
    | ComputerName(name: string)
    | ComputerOs(os: string)
    | ComputerMemory(memory: Memory)
    | ComputerDisk(disk: Memory)
    | ComputerCores(cores: nat)
    | AddInterface(name: string, capacity: Bandwidth, latency: Latency, newMac: string)
    | RemoveInterface(name: string)
    | OfInterface(key: string, interfaceEdit: InterfaceEdit)

  datatype Edit =
    | Rename(name: string)
    | AddNetwork(id: Uuid, name: string)
    | AddComputer(id: Uuid, name: string, newMac: string)
    | RemoveComputers(name: string)
    | RemoveNetworks(name: string)
    | Connect(computer: Uuid, mac: string, network: Uuid)
    | ConnectNetworks(a: Uuid, b: Uuid)
    | OfNetwork(key: Uuid, networkEdit: NetworkEdit)
    | OfComputer(key: Uuid, computerEdit: ComputerEdit)

  function EditInterface(i: Interface, x: InterfaceEdit): Interface {
    match x
    case InterfaceName(name) => i.(name := name)
    case InterfaceLatency(latency) => i.(latency := latency)
    case InterfaceCapacity(capacity) => i.(capacity := capacity)
    case InterfaceAddress(address) => i.(address := address)
  }

  function EditNetwork(n: Network, x: NetworkEdit): Network {
    match x
    case NetworkName(name) => n.(name := name)
    case NetworkLatency(latency) => n.(latency := latency)
    case NetworkCapacity(capacity) => n.(capacity := capacity)
    case NetworkSpace(ipv4) => n.(ipv4 := ipv4)
  }

  /** `add_ifx` sets the figures of an interface that is there already, which keeps
      its mac. */
  function EditComputer(c: Computer, x: ComputerEdit): Computer {
    match x
    case ComputerName(name) => c.(name := name)
    case ComputerOs(os) => c.(os := os)
    case ComputerMemory(memory) => c.(memory := memory)
    case ComputerDisk(disk) => c.(disk := disk)
    case ComputerCores(cores) => c.(cores := cores)
    case AddInterface(name, capacity, latency, newMac) =>
      var i := if name in c.interfaces then c.interfaces[name].(name := name, capacity := capacity, latency := latency)
               else NewInterface(name, newMac, latency, capacity);
      c.(interfaces := c.interfaces[name := i])
    case RemoveInterface(name) => c.(interfaces := c.interfaces - {name})
    case OfInterface(k, y) =>
      if k in c.interfaces then c.(interfaces := c.interfaces[k := EditInterface(c.interfaces[k], y)]) else c
  }

  /** The computers left when those named `name` are gone. */
  function WithoutNamed(computers: map<Uuid, Computer>, name: string): map<Uuid, Computer> {
    map k | k in computers && computers[k].name != name :: computers[k]
  }

  function WithoutNetworks(networks: map<Uuid, Network>, name: string): map<Uuid, Network> {
    map k | k in networks && networks[k].name != name :: networks[k]
  }

  function EditBlueprint(b: Blueprint, x: Edit): Blueprint {
    match x
    case Rename(name) => b.(name := name)
    case AddNetwork(id, name) =>
      if id in b.networks then b else b.(networks := b.networks[id := NewNetwork(id, name)])
    case AddComputer(id, name, newMac) => b.(computers := b.computers[id := NewComputer(id, name, newMac)])
    case RemoveComputers(name) => b.(computers := WithoutNamed(b.computers, name))
    case RemoveNetworks(name) => b.(networks := WithoutNetworks(b.networks, name))
    case Connect(c, mac, n) => b.(links := b.links + [Link(Endpoint(c, Some(mac)), Endpoint(n, None))])
    case ConnectNetworks(m, n) => b.(links := b.links + [Link(Endpoint(m, None), Endpoint(n, None))])
    case OfNetwork(k, y) =>
      if k in b.networks then b.(networks := b.networks[k := EditNetwork(b.networks[k], y)]) else b
    case OfComputer(k, y) =>
      if k in b.computers then b.(computers := b.computers[k := EditComputer(b.computers[k], y)]) else b
  }

  function EditAll(b: Blueprint, xs: seq<Edit>): Blueprint {
    if xs == [] then b else EditBlueprint(EditAll(b, xs[..|xs| - 1]), xs[|xs| - 1])
  }

  lemma EditNone(b: Blueprint)
    ensures EditAll(b, []) == b
  {
  }

  lemma EditOneMore(b: Blueprint, xs: seq<Edit>, i: nat)
    requires i < |xs|
    ensures EditAll(b, xs[..i + 1]) == EditBlueprint(EditAll(b, xs[..i]), xs[i])
  {
    assert xs[..i + 1][..i] == xs[..i];
  }

  /** The changes marked `side`, in order. */
  function Chosen(xs: seq<(bool, Edit)>, side: bool): seq<Edit> {
    if xs == [] then []
    else
      var before, x := Chosen(xs[..|xs| - 1], side), xs[|xs| - 1];
      if x.0 == side then before + [x.1] else before
  }

  lemma NoneChosen(b: Blueprint)
    ensures forall side :: EditAll(b, Chosen([], side)) == b
  {
  }

  lemma OneMoreChosen(b: Blueprint, xs: seq<(bool, Edit)>, i: nat, side: bool)
    requires i < |xs|
    ensures var before := EditAll(b, Chosen(xs[..i], side));
            EditAll(b, Chosen(xs[..i + 1], side)) ==
            if xs[i].0 == side then EditBlueprint(before, xs[i].1) else before
  {
    hide EditBlueprint;
    assert xs[..i + 1][..i] == xs[..i];
    var all := Chosen(xs[..i], side) + [xs[i].1];
    assert all[..|all| - 1] == Chosen(xs[..i], side);
  }

  // ---- Removing computers ----

  function Kept(row: seq<Attachment>, name: string): seq<Attachment> {
    if row == [] then []
    else if row[0].computer.name == name then Kept(row[1..], name)
    else [row[0]] + Kept(row[1..], name)
  }

  /** Links are left behind when computers are removed, but they no longer count: where
      the connections could be read before, what remains are the same attachments in
      the same order without those of the removed computers. */
  lemma {:induction false} RemovalFilters(computers: map<Uuid, Computer>, es: seq<Endpoint>, name: string)
    requires Attachments(computers, es).Ok?
    ensures Attachments(WithoutNamed(computers, name), es) == Ok(Kept(Attachments(computers, es).value, name))
  {
    hide HasMac;
    if es != [] {
      RemovalFilters(computers, es[1..], name);
      if es[0].id in computers {
        var a := Attachment(computers[es[0].id], es[0].mac.value);
        var rest := Attachments(computers, es[1..]).value;
        assert ([a] + rest)[1..] == rest;
      }
    }
  }
}

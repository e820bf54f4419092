/** The JSON format itself (core/blueprint.cxx:361-391 and the `fromJson` of its parts): what
    documents spelled out with their tags and unit names are read as. */
module JsonFormat {
  import opened Wrappers
  import opened Units
  import opened Blueprints
  import opened BlueprintEdits
  import opened BlueprintJson

  function Amount(value: nat, unit: string): Json { Obj(map["value" := Num(value), "unit" := Str(unit)]) }

  lemma UnitNames(n: nat)
    ensures ReadMemory(Amount(n, "b")) == Ok(Memory(n, B)) && ReadMemory(Amount(n, "kb")) == Ok(Memory(n, KB))
    ensures ReadMemory(Amount(n, "mb")) == Ok(Memory(n, MB)) && ReadMemory(Amount(n, "gb")) == Ok(Memory(n, GB))
    ensures ReadMemory(Amount(n, "tb")) == Ok(Memory(n, TB))
    ensures ReadBandwidth(Amount(n, "bps")) == Ok(Bandwidth(n, BPS))
    ensures ReadBandwidth(Amount(n, "kbps")) == Ok(Bandwidth(n, KBPS))
    ensures ReadBandwidth(Amount(n, "mbps")) == Ok(Bandwidth(n, MBPS))
    ensures ReadBandwidth(Amount(n, "gbps")) == Ok(Bandwidth(n, GBPS))
    ensures ReadBandwidth(Amount(n, "tbps")) == Ok(Bandwidth(n, TBPS))
    ensures ReadLatency(Amount(n, "ns")) == Ok(Latency(n, NS)) && ReadLatency(Amount(n, "us")) == Ok(Latency(n, US))
    ensures ReadLatency(Amount(n, "ms")) == Ok(Latency(n, MS)) && ReadLatency(Amount(n, "s")) == Ok(Latency(n, S))
  {
  }

  /** Units are spelled just so. */
  lemma OtherUnitsFail(n: nat, u: string)
    ensures u !in {"b", "kb", "mb", "gb", "tb"} ==> ReadMemory(Amount(n, u)).Err?
    ensures u !in {"bps", "kbps", "mbps", "gbps", "tbps"} ==> ReadBandwidth(Amount(n, u)).Err?
    ensures u !in {"ns", "us", "ms", "s"} ==> ReadLatency(Amount(n, u)).Err?
  {
  }

  function Space(addr: nat, mask: nat): Json { Obj(map["addr" := Num(addr), "mask" := Num(mask)]) }

  function IdText(id: Uuid): Json { Obj(map["id" := UuidText(id)]) }

  /** The document has this field, among others perhaps. */
  predicate Has(j: Json, tag: string, value: Json) {
    j.Obj? && tag in j.fields && j.fields[tag] == value
  }

  lemma SpaceDocument(addr: nat, mask: nat)
    requires addr < 0x1_0000_0000 && mask < 0x1_0000_0000
    ensures ReadAddress(Space(addr, mask)) == Ok(IpV4Address(addr, mask))
  {
  }

  lemma InterfaceDocument(j: Json, einfo: Json, name: string, mac: string, l: nat, w: nat, addr: nat, mask: nat)
    requires Has(j, "name", Str(name)) && Has(j, "mac", Str(mac)) && Has(j, "latency", Amount(l, "ms"))
    requires Has(j, "capacity", Amount(w, "gbps")) && Has(j, "einfo", einfo) && Has(einfo, "ipv4", Space(addr, mask))
    requires addr < 0x1_0000_0000 && mask < 0x1_0000_0000
    ensures ReadInterface(j) == Ok(Interface(name, mac, Latency(l, MS), Bandwidth(w, GBPS), IpV4Address(addr, mask)))
  {
    UnitNames(l);
    UnitNames(w);
    SpaceDocument(addr, mask);
    hide ReadLatency, ReadBandwidth, ReadAddress, Amount, Space;
  }

  lemma NetworkDocument(j: Json, id: Uuid, name: string, l: nat, w: nat, addr: nat, mask: nat)
    requires Has(j, "id", IdText(id)) && Has(j, "name", Str(name)) && Has(j, "latency", Amount(l, "us"))
    requires Has(j, "capacity", Amount(w, "mbps")) && Has(j, "ipv4", Space(addr, mask))
    requires addr < 0x1_0000_0000 && mask < 0x1_0000_0000
    ensures ReadNetwork(j) == Ok(Network(id, name, Bandwidth(w, MBPS), Latency(l, US), IpV4Address(addr, mask)))
  {
    UnitNames(l);
    UnitNames(w);
    SpaceDocument(addr, mask);
    hide ReadLatency, ReadBandwidth, ReadAddress, Amount, Space;
  }

  /** The first end of a link is that of the computer; the mac of an end is optional. */
  lemma LinkDocument(j: Json, x: Json, y: Json, c: Uuid, mac: string, n: Uuid)
    requires Has(j, "endpoints", Arr([x, y])) && Has(x, "id", IdText(c)) && Has(x, "mac", Str(mac))
    requires Has(y, "id", IdText(n)) && "mac" !in y.fields
    ensures ReadLink(j) == Ok(Link(Endpoint(c, Some(mac)), Endpoint(n, None)))
  {
  }

  lemma OneInterfaceRead(x: Json, i: Interface, start: map<string, Interface>)
    requires ReadInterface(x) == Ok(i)
    ensures ReadInterfaces([x], start) == Ok(start[i.name := i])
  {
    hide ReadInterface;
    assert [x][..0] == [] && ReadInterfaces([], start) == Ok(start);
  }

  /** A computer is read with the default disk and a control interface; an interface in the
      document takes the place of one of the same name. */
  lemma ComputerDocument(j: Json, id: Uuid, name: string, os: string, m: nat, cores: nat, x: Json, i: Interface,
                         newMac: string)
    requires Has(j, "id", IdText(id)) && Has(j, "name", Str(name)) && Has(j, "os", Str(os))
    requires Has(j, "memory", Amount(m, "gb")) && Has(j, "cores", Num(cores)) && Has(j, "interfaces", Arr([x]))
    requires ReadInterface(x) == Ok(i)
    ensures ReadComputer(j, newMac) ==
            Ok(Computer(id, name, os, Memory(m, GB), Memory(10, GB), cores,
                        map["cifx" := Interface("cifx", newMac, Latency(0, MS), Bandwidth(1, GBPS), IpV4Address(0, 0))]
                           [i.name := i]))
  {
    UnitNames(m);
    OneInterfaceRead(x, i, map[CIFX := DefaultCifx(newMac)]);
    hide ReadMemory, ReadInterface, ReadInterfaces, Amount;
  }

  lemma OneOfEachRead(nj: Json, n: Network, cj: Json, c: Computer, lj: Json, l: Link, newMac: nat -> string)
    requires ReadNetwork(nj) == Ok(n) && ReadComputer(cj, newMac(0)) == Ok(c) && ReadLink(lj) == Ok(l)
    ensures ReadNetworks([nj]) == Ok(map[n.id := n]) && ReadComputers([cj], newMac) == Ok(map[c.id := c])
    ensures ReadLinks([lj]) == Ok([l])
  {
    hide ReadNetwork, ReadComputer, ReadLink;
    assert [nj][..0] == [] && [cj][..0] == [] && [lj][..0] == [];
    assert ReadNetworks([]) == Ok(map[]) && ReadComputers([], newMac) == Ok(map[]) && ReadLinks([]) == Ok([]);
    assert [] + [l] == [l];
  }

  /** A blueprint of one network, one computer and one link. */
  lemma BlueprintDocument(j: Json, id: Uuid, name: string, nj: Json, n: Network, cj: Json, c: Computer, lj: Json,
                          l: Link, newMac: nat -> string)
    requires Has(j, "id", IdText(id)) && Has(j, "name", Str(name)) && Has(j, "networks", Arr([nj]))
    requires Has(j, "computers", Arr([cj])) && Has(j, "links", Arr([lj]))
    requires ReadNetwork(nj) == Ok(n) && ReadComputer(cj, newMac(0)) == Ok(c) && ReadLink(lj) == Ok(l)
    ensures FromJson(j, newMac) == Ok(Blueprint(id, name, map[c.id := c], map[n.id := n], [l]))
  {
    OneOfEachRead(nj, n, cj, c, lj, l, newMac);
    hide ReadNetwork, ReadNetworks, ReadComputer, ReadComputers, ReadLink, ReadLinks;
  }
}

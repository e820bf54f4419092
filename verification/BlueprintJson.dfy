/** Blueprints as JSON (core/blueprint.cxx:351-429 and the `json`/`fromJson` pairs of its
    parts). An array written from a hash map has its elements in some order, whatever
    it is; `order` arguments stand for that order. Reading is a partial function. */
module BlueprintJson {
  import opened Wrappers
  import opened Units
  import opened Blueprints
  import Addresses
  import opened Loads
  import opened BlueprintEdits

  /** `UuidText` is the string that `uuid_unparse` prints for an id. */
  datatype Json =
    | Str(text: string)
    | UuidText(id: Uuid)
    | Num(value: nat)
    | Arr(items: seq<Json>)
    | Obj(fields: map<string, Json>)

  datatype JsonError = Missing(tag: string) | WrongType | BadUnit(unit: string)

  type Read<T> = Result<T, JsonError>

  // ---- Reading primitives ----

  /** `extract`: the field with that tag. */
  function Field(j: Json, tag: string): Read<Json> {
    if !j.Obj? then Err(WrongType)
    else if tag in j.fields then Ok(j.fields[tag])
    else Err(Missing(tag))
  }

  function StrField(j: Json, tag: string): Read<string> {
    var x :- Field(j, tag);
    if x.Str? then Ok(x.text) else Err(WrongType)
  }

  function NumField(j: Json, tag: string): Read<nat> {
    var x :- Field(j, tag);
    if x.Num? then Ok(x.value) else Err(WrongType)
  }

  function ArrField(j: Json, tag: string): Read<seq<Json>> {
    var x :- Field(j, tag);
    if x.Arr? then Ok(x.items) else Err(WrongType)
  }

  function UuidField(j: Json, tag: string): Read<Uuid> {
    var x :- Field(j, tag);
    var id :- Field(x, "id");
    if id.UuidText? then Ok(id.id) else Err(WrongType)
  }

  function UuidJson(id: Uuid): Json { Obj(map["id" := UuidText(id)]) }

  // ---- Sizes ----

  function Sized(size: nat, unit: string): Json { Obj(map["value" := Num(size), "unit" := Str(unit)]) }

  function MemoryJson(m: Memory): Json {
    Sized(m.size, match m.unit case B => "b" case KB => "kb" case MB => "mb" case GB => "gb" case TB => "tb")
  }

  function ReadMemory(j: Json): Read<Memory> {
    var n :- NumField(j, "value");
    var u :- StrField(j, "unit");
    if u == "b" then Ok(Memory(n, B)) else if u == "kb" then Ok(Memory(n, KB))
    else if u == "mb" then Ok(Memory(n, MB)) else if u == "gb" then Ok(Memory(n, GB))
    else if u == "tb" then Ok(Memory(n, TB))
    else Err(BadUnit(u))
  }

  function BandwidthJson(w: Bandwidth): Json {
    Sized(w.size, match w.unit
                  case BPS => "bps" case KBPS => "kbps" case MBPS => "mbps" case GBPS => "gbps" case TBPS => "tbps")
  }

  function ReadBandwidth(j: Json): Read<Bandwidth> {
    var n :- NumField(j, "value");
    var u :- StrField(j, "unit");
    if u == "bps" then Ok(Bandwidth(n, BPS)) else if u == "kbps" then Ok(Bandwidth(n, KBPS))
    else if u == "mbps" then Ok(Bandwidth(n, MBPS)) else if u == "gbps" then Ok(Bandwidth(n, GBPS))
    else if u == "tbps" then Ok(Bandwidth(n, TBPS))
    else Err(BadUnit(u))
  }

  function LatencyJson(l: Latency): Json {
    Sized(l.size, match l.unit case NS => "ns" case US => "us" case MS => "ms" case S => "s")
  }

  function ReadLatency(j: Json): Read<Latency> {
    var n :- NumField(j, "value");
    var u :- StrField(j, "unit");
    if u == "ns" then Ok(Latency(n, NS)) else if u == "us" then Ok(Latency(n, US))
    else if u == "ms" then Ok(Latency(n, MS)) else if u == "s" then Ok(Latency(n, S))
    else Err(BadUnit(u))
  }

  lemma SizesRoundTrip(m: Memory, w: Bandwidth, l: Latency)
    ensures ReadMemory(MemoryJson(m)) == Ok(m)
    ensures ReadBandwidth(BandwidthJson(w)) == Ok(w)
    ensures ReadLatency(LatencyJson(l)) == Ok(l)
  {
  }

  // ---- Addresses, interfaces, networks, links ----

  function AddressJson(a: IpV4Address): Json { Obj(map["addr" := Num(a.addr), "mask" := Num(a.mask)]) }

  /** Both numbers are cut to 32 bits. */
  function ReadAddress(j: Json): Read<IpV4Address> {
    var a :- NumField(j, "addr");
    var m :- NumField(j, "mask");
    Ok(IpV4Address(Addresses.Wrap(a), Addresses.Wrap(m)))
  }

  ghost predicate Is32Bit(a: IpV4Address) { a.addr < 0x1_0000_0000 && a.mask < 0x1_0000_0000 }

  function InterfaceJson(i: Interface): Json {
    Obj(map["name" := Str(i.name), "latency" := LatencyJson(i.latency), "capacity" := BandwidthJson(i.capacity),
            "mac" := Str(i.mac), "einfo" := Obj(map["ipv4" := AddressJson(i.address)])])
  }

  function ReadInterface(j: Json): Read<Interface> {
    var name :- StrField(j, "name");
    var l :- Field(j, "latency");
    var latency :- ReadLatency(l);
    var w :- Field(j, "capacity");
    var capacity :- ReadBandwidth(w);
    var mac :- StrField(j, "mac");
    var einfo :- Field(j, "einfo");
    var ipv4 :- Field(einfo, "ipv4");
    var address :- ReadAddress(ipv4);
    Ok(Interface(name, mac, latency, capacity, address))
  }

  function NetworkJson(n: Network): Json {
    Obj(map["name" := Str(n.name), "latency" := LatencyJson(n.latency), "capacity" := BandwidthJson(n.capacity),
            "ipv4" := AddressJson(n.ipv4), "id" := UuidJson(n.id)])
  }

  function ReadNetwork(j: Json): Read<Network> {
    var name :- StrField(j, "name");
    var l :- Field(j, "latency");
    var latency :- ReadLatency(l);
    var w :- Field(j, "capacity");
    var capacity :- ReadBandwidth(w);
    var id :- UuidField(j, "id");
    var a :- Field(j, "ipv4");
    var ipv4 :- ReadAddress(a);
    Ok(Network(id, name, capacity, latency, ipv4))
  }

  function EndpointJson(e: Endpoint): Json {
    Obj(map["id" := UuidJson(e.id)] + if e.mac.Some? then map["mac" := Str(e.mac.value)] else map[])
  }

  function ReadEndpoint(j: Json): Read<Endpoint> {
    var id :- UuidField(j, "id");
    if j.Obj? && "mac" in j.fields then
      var mac :- StrField(j, "mac");
      Ok(Endpoint(id, Some(mac)))
    else Ok(Endpoint(id, None))
  }

  function LinkJson(l: Link): Json { Obj(map["endpoints" := Arr([EndpointJson(l.a), EndpointJson(l.b)])]) }

  /** The source indexes the endpoints without a check; a shorter array is an error here. */
  function ReadLink(j: Json): Read<Link> {
    var eps :- ArrField(j, "endpoints");
    if |eps| < 2 then Err(WrongType)
    else
      var a :- ReadEndpoint(eps[0]);
      var b :- ReadEndpoint(eps[1]);
      Ok(Link(a, b))
  }

  lemma AddressRoundTrip(a: IpV4Address)
    requires Is32Bit(a)
    ensures ReadAddress(AddressJson(a)) == Ok(a)
  {
  }

  lemma InterfaceRoundTrip(i: Interface)
    requires Is32Bit(i.address)
    ensures ReadInterface(InterfaceJson(i)) == Ok(i)
  {
    SizesRoundTrip(Memory(0, B), i.capacity, i.latency);
    hide ReadBandwidth, ReadLatency, BandwidthJson, LatencyJson;
    AddressRoundTrip(i.address);
    hide ReadAddress, AddressJson;
  }

  lemma NetworkRoundTrip(n: Network)
    requires Is32Bit(n.ipv4)
    ensures ReadNetwork(NetworkJson(n)) == Ok(n)
  {
    SizesRoundTrip(Memory(0, B), n.capacity, n.latency);
    hide ReadBandwidth, ReadLatency, BandwidthJson, LatencyJson;
    AddressRoundTrip(n.ipv4);
    hide ReadAddress, AddressJson;
  }

  lemma EndpointRoundTrip(e: Endpoint)
    ensures ReadEndpoint(EndpointJson(e)) == Ok(e)
  {
  }

  lemma LinkRoundTrip(l: Link)
    ensures ReadLink(LinkJson(l)) == Ok(l)
  {
    EndpointRoundTrip(l.a);
    EndpointRoundTrip(l.b);
    hide ReadEndpoint, EndpointJson;
  }

  // ---- Computers ----

  function Restrict<K(==), V>(m: map<K, V>, order: seq<K>): map<K, V> { map k | k in m && k in order :: m[k] }

  lemma RestrictNone<K, V>(start: map<K, V>, m: map<K, V>)
    ensures start + Restrict(m, []) == start
  {
  }

  lemma RestrictAll<K, V>(m: map<K, V>, order: seq<K>)
    requires Enumerates(order, m.Keys)
    ensures Restrict(m, order) == m
  {
  }

  lemma RestrictSnoc<K, V>(start: map<K, V>, m: map<K, V>, init: seq<K>, last: K)
    requires last in m
    ensures Restrict(m, init + [last]) == Restrict(m, init)[last := m[last]]
    ensures start + Restrict(m, init + [last]) == (start + Restrict(m, init))[last := m[last]]
  {
    assert forall k :: k in init + [last] <==> k in init || k == last;
  }

  function InterfacesJson(interfaces: map<string, Interface>, order: seq<string>): seq<Json>
    requires forall k :: k in order ==> k in interfaces
  {
    seq(|order|, i requires 0 <= i < |order| => InterfaceJson(interfaces[order[i]]))
  }

  function ReadInterfaces(items: seq<Json>, start: map<string, Interface>): Read<map<string, Interface>> {
    if items == [] then Ok(start)
    else
      var before :- ReadInterfaces(items[..|items| - 1], start);
      var i :- ReadInterface(items[|items| - 1]);
      Ok(before[i.name := i])
  }

  /** The disk is not written. */
  function ComputerJson(c: Computer, order: seq<string>): Json
    requires forall k :: k in order ==> k in c.interfaces
  {
    Obj(map["name" := Str(c.name), "os" := Str(c.os), "memory" := MemoryJson(c.memory), "cores" := Num(c.cores),
            "interfaces" := Arr(InterfacesJson(c.interfaces, order)), "id" := UuidJson(c.id)])
  }

  function ReadComputer(j: Json, newMac: string): Read<Computer> {
    var name :- StrField(j, "name");
    var os :- StrField(j, "os");
    var m :- Field(j, "memory");
    var memory :- ReadMemory(m);
    var cores :- NumField(j, "cores");
    var id :- UuidField(j, "id");
    var items :- ArrField(j, "interfaces");
    var interfaces :- ReadInterfaces(items, map[CIFX := DefaultCifx(newMac)]);
    Ok(Computer(id, name, os, memory, DEFAULT_DISK, cores, interfaces))
  }

  /** Interfaces are stored under their own names, and addresses are 32-bit. */
  ghost predicate Encodable(c: Computer) {
    forall k :: k in c.interfaces ==> c.interfaces[k].name == k && Is32Bit(c.interfaces[k].address)
  }

  lemma {:induction false} InterfacesRead(interfaces: map<string, Interface>, order: seq<string>,
                                          start: map<string, Interface>)
    requires forall k :: k in order ==> k in interfaces
    requires forall k :: k in interfaces ==> interfaces[k].name == k && Is32Bit(interfaces[k].address)
    ensures ReadInterfaces(InterfacesJson(interfaces, order), start) ==
            Ok(start + Restrict(interfaces, order))
  {
    hide ReadInterface, InterfaceJson, Restrict;
    if order == [] {
      RestrictNone(start, interfaces);
    } else {
      var init, last := order[..|order| - 1], order[|order| - 1];
      InterfacesRead(interfaces, init, start);
      InterfaceRoundTrip(interfaces[last]);
      var js := InterfacesJson(interfaces, order);
      assert js[..|js| - 1] == InterfacesJson(interfaces, init);
      assert order == init + [last];
      RestrictSnoc(start, interfaces, init, last);
    }
  }

  /** What a computer is after a trip through JSON. */
  function Reread(c: Computer, newMac: string): Computer {
    c.(disk := DEFAULT_DISK, interfaces := map[CIFX := DefaultCifx(newMac)] + c.interfaces)
  }

  lemma ComputerRead(c: Computer, order: seq<string>, newMac: string)
    requires Encodable(c) && Enumerates(order, c.interfaces.Keys)
    ensures ReadComputer(ComputerJson(c, order), newMac) == Ok(Reread(c, newMac))
    ensures Reread(c, newMac).id == c.id
  {
    SizesRoundTrip(c.memory, Bandwidth(0, BPS), Latency(0, NS));
    InterfacesRead(c.interfaces, order, map[CIFX := DefaultCifx(newMac)]);
    assert Restrict(c.interfaces, order) == c.interfaces;
    hide ReadMemory, MemoryJson, ReadInterfaces, InterfacesJson;
  }

  // ---- Blueprints ----

  /** The orders in which the maps of a blueprint are walked. */
  datatype Orders = Orders(computers: seq<Uuid>, networks: seq<Uuid>, interfaces: map<Uuid, seq<string>>)

  ghost predicate OrdersOf(b: Blueprint, o: Orders) {
    && Enumerates(o.computers, b.computers.Keys) && Enumerates(o.networks, b.networks.Keys)
    && forall c :: c in b.computers ==> c in o.interfaces && Enumerates(o.interfaces[c], b.computers[c].interfaces.Keys)
  }

  ghost function ComputersJson(b: Blueprint, o: Orders): seq<Json>
    requires OrdersOf(b, o)
  {
    seq(|o.computers|, i requires 0 <= i < |o.computers| =>
      ComputerJson(b.computers[o.computers[i]], o.interfaces[o.computers[i]]))
  }

  ghost function NetworksJson(b: Blueprint, o: Orders): seq<Json>
    requires OrdersOf(b, o)
  {
    seq(|o.networks|, i requires 0 <= i < |o.networks| => NetworkJson(b.networks[o.networks[i]]))
  }

  function LinksJson(links: seq<Link>): seq<Json> { seq(|links|, i requires 0 <= i < |links| => LinkJson(links[i])) }

  ghost function ToJson(b: Blueprint, o: Orders): Json
    requires OrdersOf(b, o)
  {
    Obj(map["name" := Str(b.name), "networks" := Arr(NetworksJson(b, o)), "computers" := Arr(ComputersJson(b, o)),
            "links" := Arr(LinksJson(b.links)), "id" := UuidJson(b.id)])
  }

  /** `newMac(i)` is the mac generated for the i-th computer read. */
  function ReadComputers(items: seq<Json>, newMac: nat -> string): Read<map<Uuid, Computer>> {
    if items == [] then Ok(map[])
    else
      var before :- ReadComputers(items[..|items| - 1], newMac);
      var c :- ReadComputer(items[|items| - 1], newMac(|items| - 1));
      Ok(before[c.id := c])
  }

  function ReadNetworks(items: seq<Json>): Read<map<Uuid, Network>> {
    if items == [] then Ok(map[])
    else
      var before :- ReadNetworks(items[..|items| - 1]);
      var n :- ReadNetwork(items[|items| - 1]);
      Ok(before[n.id := n])
  }

  function ReadLinks(items: seq<Json>): Read<seq<Link>> {
    if items == [] then Ok([])
    else
      var before :- ReadLinks(items[..|items| - 1]);
      var l :- ReadLink(items[|items| - 1]);
      Ok(before + [l])
  }

  function FromJson(j: Json, newMac: nat -> string): Read<Blueprint> {
    var name :- StrField(j, "name");
    var id :- UuidField(j, "id");
    var cs :- ArrField(j, "computers");
    var computers :- ReadComputers(cs, newMac);
    var ns :- ArrField(j, "networks");
    var networks :- ReadNetworks(ns);
    var ls :- ArrField(j, "links");
    var links :- ReadLinks(ls);
    Ok(Blueprint(id, name, computers, networks, links))
  }

  ghost predicate EncodableBlueprint(b: Blueprint) {
    && b.Valid()
    && (forall c :: c in b.computers ==> Encodable(b.computers[c]))
    && (forall n :: n in b.networks ==> Is32Bit(b.networks[n].ipv4))
  }

  /** `r` is `b` with the default disk everywhere and, on each computer that had none, a
      control interface with the mac generated for it. */
  ghost predicate IsReread(b: Blueprint, r: Blueprint, o: Orders, newMac: nat -> string) {
    && r.id == b.id && r.name == b.name && r.networks == b.networks && r.links == b.links
    && r.computers.Keys == b.computers.Keys
    && forall i :: 0 <= i < |o.computers| && o.computers[i] in b.computers ==>
         r.computers[o.computers[i]] == Reread(b.computers[o.computers[i]], newMac(i))
  }

  lemma {:induction false} LinksRead(links: seq<Link>)
    ensures ReadLinks(LinksJson(links)) == Ok(links)
  {
    hide ReadLink, LinkJson;
    if links != [] {
      var init, js := links[..|links| - 1], LinksJson(links);
      LinksRead(init);
      assert js[..|js| - 1] == LinksJson(init);
      LinkRoundTrip(links[|links| - 1]);
      assert links == init + [links[|links| - 1]];
    }
  }

  lemma {:induction false} NetworksRead(networks: map<Uuid, Network>, order: seq<Uuid>, js: seq<Json>)
    requires forall n :: n in networks ==> networks[n].id == n && Is32Bit(networks[n].ipv4)
    requires |js| == |order|
    requires forall i :: 0 <= i < |order| ==> order[i] in networks && js[i] == NetworkJson(networks[order[i]])
    ensures ReadNetworks(js) == Ok(Restrict(networks, order))
  {
    hide ReadNetwork, NetworkJson;
    if order != [] {
      var init, last := order[..|order| - 1], order[|order| - 1];
      NetworksRead(networks, init, js[..|js| - 1]);
      NetworkRoundTrip(networks[last]);
      assert order == init + [last];
      RestrictSnoc(map[], networks, init, last);
    }
  }

  ghost predicate ReadTo(computers: map<Uuid, Computer>, ids: seq<Uuid>, newMac: nat -> string,
                         r: Read<map<Uuid, Computer>>) {
    && r.Ok?
    && (forall c :: c in r.value <==> c in ids)
    && (forall i :: 0 <= i < |ids| ==> ids[i] in computers && r.value[ids[i]] == Reread(computers[ids[i]], newMac(i)))
  }

  lemma ReadToSnoc(computers: map<Uuid, Computer>, init: seq<Uuid>, last: Uuid, newMac: nat -> string,
                   r: Read<map<Uuid, Computer>>)
    requires ReadTo(computers, init, newMac, r) && last in computers && last !in init
    ensures r.Ok?
    ensures ReadTo(computers, init + [last], newMac, Ok(r.value[last := Reread(computers[last], newMac(|init|))]))
  {
    hide Reread;
  }

  lemma NoneRead(computers: map<Uuid, Computer>, newMac: nat -> string)
    ensures ReadTo(computers, [], newMac, Ok(map[]))
  {
  }

  lemma {:induction false} ComputersRead(computers: map<Uuid, Computer>, order: seq<Uuid>, js: seq<Json>,
                                         ifOrders: map<Uuid, seq<string>>, newMac: nat -> string)
    requires forall c :: c in computers ==> computers[c].id == c && Encodable(computers[c])
    requires forall i, j :: 0 <= i < j < |order| ==> order[i] != order[j]
    requires |js| == |order| && forall i :: 0 <= i < |order| ==>
               && order[i] in computers && order[i] in ifOrders
               && Enumerates(ifOrders[order[i]], computers[order[i]].interfaces.Keys)
               && js[i] == ComputerJson(computers[order[i]], ifOrders[order[i]])
    ensures ReadTo(computers, order, newMac, ReadComputers(js, newMac))
  {
    hide ReadComputer, ComputerJson, Encodable, ReadTo, Reread;
    NoneRead(computers, newMac);
    if order != [] {
      var init, last := order[..|order| - 1], order[|order| - 1];
      ComputersRead(computers, init, js[..|js| - 1], ifOrders, newMac);
      assert js[|js| - 1] == ComputerJson(computers[last], ifOrders[last]);
      ComputerRead(computers[last], ifOrders[last], newMac(|js| - 1));
      assert order == init + [last];
      ReadToSnoc(computers, init, last, newMac, ReadComputers(js[..|js| - 1], newMac));
    }
  }

  /** Reading back what was written, in whatever order the maps were walked, gives the
      blueprint again up to what JSON leaves out; links keep order, ids and macs. */
  lemma JsonRoundTrip(b: Blueprint, o: Orders, newMac: nat -> string)
    requires EncodableBlueprint(b) && OrdersOf(b, o)
    ensures FromJson(ToJson(b, o), newMac).Ok? && IsReread(b, FromJson(ToJson(b, o), newMac).value, o, newMac)
  {
    hide ReadComputers, ReadNetworks, ReadLinks, LinksJson, Reread, NetworkJson, ComputerJson, Restrict, Encodable;
    ComputersRead(b.computers, o.computers, ComputersJson(b, o), o.interfaces, newMac);
    NetworksRead(b.networks, o.networks, NetworksJson(b, o));
    RestrictAll(b.networks, o.networks);
    LinksRead(b.links);
    hide ComputersJson, NetworksJson;
    PartsRead(b, o, newMac, ReadComputers(ComputersJson(b, o), newMac).value);
  }

  lemma PartsRead(b: Blueprint, o: Orders, newMac: nat -> string, computers: map<Uuid, Computer>)
    requires OrdersOf(b, o)
    requires ReadComputers(ComputersJson(b, o), newMac) == Ok(computers)
    requires ReadNetworks(NetworksJson(b, o)) == Ok(b.networks) && ReadLinks(LinksJson(b.links)) == Ok(b.links)
    ensures FromJson(ToJson(b, o), newMac) == Ok(b.(computers := computers))
  {
    hide ReadComputers, ReadNetworks, ReadLinks, LinksJson, ComputersJson, NetworksJson;
  }
}

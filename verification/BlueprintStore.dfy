/** The records behind the handles of core/blueprint.cxx. Handles are shared: a record
    may be reached from several blueprints, and changing it changes all their views. */
module BlueprintStore {
  import opened Wrappers
  import opened Units
  import opened Blueprints
  import opened BlueprintEdits
  import opened BlueprintClones

  class InterfaceRecord {
    var name: string
    var mac: string
    var latency: Latency
    var capacity: Bandwidth
    var address: IpV4Address

    function View(): Interface
      reads this
    {
      Interface(name, mac, latency, capacity, address)
    }

    constructor (name: string, newMac: string, latency: Latency, capacity: Bandwidth)
      ensures View() == NewInterface(name, newMac, latency, capacity)
    {
      this.name, mac, this.latency, this.capacity := name, newMac, latency, capacity;
      address := IpV4Address(0, 0);
    }

    /** A new interface with the name, mac, latency and capacity of this one. */
    method Clone() returns (r: InterfaceRecord)
      ensures fresh(r) && r.View() == ClonedInterface(View())
    {
      r := new InterfaceRecord(name, "", Latency(0, MS), Bandwidth(1, GBPS));
      r.mac, r.latency, r.capacity := mac, latency, capacity;
    }

    method Edit(x: InterfaceEdit)
      modifies this
      ensures View() == EditInterface(old(View()), x)
    {
      match x {
        case InterfaceName(name) => this.name := name;
        case InterfaceLatency(latency) => this.latency := latency;
        case InterfaceCapacity(capacity) => this.capacity := capacity;
        case InterfaceAddress(address) => this.address := address;
      }
    }
  }

  class NetworkRecord {
    var id: Uuid
    var name: string
    var capacity: Bandwidth
    var latency: Latency
    var ipv4: IpV4Address

    function View(): Network
      reads this
    {
      Network(id, name, capacity, latency, ipv4)
    }

    constructor (id: Uuid, name: string)
      ensures View() == NewNetwork(id, name)
    {
      this.id, this.name, capacity, latency, ipv4 := id, name, Bandwidth(100, MBPS), Latency(0, MS), DEFAULT_SPACE;
    }

    method Clone() returns (r: NetworkRecord)
      ensures fresh(r) && r.View() == ClonedNetwork(View())
    {
      r := new NetworkRecord(id, name);
      r.latency, r.capacity := latency, capacity;
    }

    method Edit(x: NetworkEdit)
      modifies this
      ensures View() == EditNetwork(old(View()), x)
    {
      match x {
        case NetworkName(name) => this.name := name;
        case NetworkLatency(latency) => this.latency := latency;
        case NetworkCapacity(capacity) => this.capacity := capacity;
        case NetworkSpace(ipv4) => this.ipv4 := ipv4;
      }
    }
  }

  class ComputerRecord {
    var id: Uuid
    var name: string
    var os: string
    var memory: Memory
    var disk: Memory
    var cores: nat
    var interfaces: map<string, InterfaceRecord>

    ghost function Repr(): set<object>
      reads this`interfaces
    {
      {this} + interfaces.Values
    }

    /** No interface is held under two names. */
    ghost predicate Unshared()
      reads this`interfaces
    {
      forall j, k :: j in interfaces && k in interfaces && interfaces[j] == interfaces[k] ==> j == k
    }

    function Interfaces(): map<string, Interface>
      reads this`interfaces, interfaces.Values
    {
      map k | k in interfaces :: interfaces[k].View()
    }

    function View(): Computer
      reads this, interfaces.Values
    {
      Computer(id, name, os, memory, disk, cores, Interfaces())
    }

    /** A new computer has the defaults and a control interface with a generated mac. */
    constructor (id: Uuid, name: string, newMac: string)
      ensures fresh(Repr() - {this}) && Unshared()
      ensures View() == NewComputer(id, name, newMac)
    {
      var cifx := new InterfaceRecord(CIFX, newMac, Latency(0, MS), Bandwidth(1, GBPS));
      this.id, this.name, os := id, name, "ubuntu-server-15.10";
      memory, disk, cores := Memory(4, GB), Memory(10, GB), 2;
      interfaces := map[CIFX := cifx];
      new;
      assert Interfaces() == map[CIFX := DefaultCifx(newMac)];
    }

    /** `insert_or_assign` of a clone under key `k`. */
    method PutClone(k: string, source: InterfaceRecord)
      requires Unshared()
      modifies this`interfaces
      ensures Interfaces() == old(Interfaces())[k := ClonedInterface(source.View())]
      ensures fresh(Repr() - old(Repr())) && Unshared()
    {
      var i := source.Clone();
      ghost var before := Interfaces();
      interfaces := interfaces[k := i];
      assert Interfaces() == before[k := ClonedInterface(source.View())];
    }

    /** A new computer with this one's figures and the default interface. */
    method NewLike(newMac: string) returns (r: ComputerRecord)
      ensures fresh(r.Repr()) && r.Unshared()
      ensures r.View() == View().(interfaces := map[CIFX := DefaultCifx(newMac)])
    {
      r := new ComputerRecord(id, name, newMac);
      r.os, r.memory, r.cores, r.disk := os, memory, cores, disk;
      assert r.Interfaces() == map[CIFX := DefaultCifx(newMac)];
    }

    /** The clone's control interface is new even if this computer has none. */
    method Clone(newMac: string) returns (r: ComputerRecord)
      ensures fresh(r.Repr()) && r.Unshared() && r.View() == ClonedComputer(View(), newMac)
    {
      hide ClonedInterfaces;
      r := NewLike(newMac);
      r.PutClones(Interfaces(), interfaces);
    }

    method PutClones(ghost views: map<string, Interface>, sources: map<string, InterfaceRecord>)
      requires views == map k | k in sources :: sources[k].View()
      requires Unshared()
      modifies this`interfaces
      ensures Interfaces() == old(Interfaces()) + ClonedInterfaces(views)
      ensures fresh(Repr() - old(Repr())) && Unshared()
    {
      hide ClonedInterfaces;
      ghost var start := Interfaces();
      assert views.Keys == sources.Keys;
      NoneCloned(start, views);
      var todo := sources.Keys;
      while todo != {}
        invariant todo <= sources.Keys && fresh(Repr() - old(Repr())) && Unshared()
        invariant forall k :: k in sources ==> sources[k].View() == views[k]
        invariant Interfaces() == start + ClonedInterfaces(views - todo)
        decreases todo
      {
        var k :| k in todo;
        PutClone(k, sources[k]);
        OneMoreCloned(start, views, todo, k);
        todo := todo - {k};
      }
      assert views - todo == views;
    }

    method PutInterface(k: string, i: InterfaceRecord)
      requires Unshared() && i !in interfaces.Values
      modifies this`interfaces
      ensures Interfaces() == old(Interfaces())[k := i.View()] && Unshared()
      ensures Repr() <= old(Repr()) + {i}
    {
      ghost var before := Interfaces();
      interfaces := interfaces[k := i];
      assert Interfaces() == before[k := i.View()];
    }

    method DropInterface(k: string)
      requires Unshared()
      modifies this`interfaces
      ensures Interfaces() == old(Interfaces()) - {k} && Unshared()
      ensures Repr() <= old(Repr())
    {
      ghost var before := Interfaces();
      interfaces := interfaces - {k};
      assert Interfaces() == before - {k};
    }

    method EditAt(k: string, x: InterfaceEdit)
      requires Unshared() && k in interfaces
      modifies interfaces.Values
      ensures interfaces == old(interfaces)
      ensures Interfaces() == old(Interfaces())[k := EditInterface(old(Interfaces())[k], x)]
    {
      hide EditInterface;
      ghost var before := Interfaces();
      assert interfaces[k] in interfaces.Values;
      interfaces[k].Edit(x);
      assert Interfaces() == before[k := EditInterface(before[k], x)];
    }

    method SetInterface(k: string, capacity: Bandwidth, latency: Latency)
      requires Unshared() && k in interfaces
      modifies interfaces.Values
      ensures interfaces == old(interfaces)
      ensures Interfaces() ==
              old(Interfaces())[k := old(Interfaces())[k].(name := k, capacity := capacity, latency := latency)]
    {
      EditAt(k, InterfaceName(k));
      EditAt(k, InterfaceCapacity(capacity));
      EditAt(k, InterfaceLatency(latency));
    }

    method EditInterfaces(x: ComputerEdit)
      requires Unshared() && (x.AddInterface? || x.RemoveInterface? || x.OfInterface?)
      modifies this`interfaces, interfaces.Values
      ensures View() == EditComputer(old(View()), x)
      ensures fresh(Repr() - old(Repr())) && Unshared()
    {
      assert Interfaces().Keys == interfaces.Keys;
      hide EditInterface, Interfaces;
      match x {
        case AddInterface(name, capacity, latency, newMac) =>
          if name !in interfaces {
            var i := new InterfaceRecord(name, newMac, latency, capacity);
            PutInterface(name, i);
          } else {
            SetInterface(name, capacity, latency);
          }
        case RemoveInterface(name) => DropInterface(name);
        case OfInterface(k, y) =>
          if k in interfaces {
            EditAt(k, y);
          }
      }
    }

    method Edit(x: ComputerEdit)
      requires Unshared()
      modifies this, interfaces.Values
      ensures View() == EditComputer(old(View()), x)
      ensures fresh(Repr() - old(Repr())) && Unshared()
    {
      hide EditInterface, Interfaces;
      match x {
        case ComputerName(name) => this.name := name;
        case ComputerOs(os) => this.os := os;
        case ComputerMemory(memory) => this.memory := memory;
        case ComputerDisk(disk) => this.disk := disk;
        case ComputerCores(cores) => this.cores := cores;
        case _ => EditInterfaces(x);
      }
    }
  }

  lemma NoneCloned(start: map<string, Interface>, all: map<string, Interface>)
    ensures start + ClonedInterfaces(all - all.Keys) == start
  {
  }

  lemma OneMoreCloned(start: map<string, Interface>, all: map<string, Interface>, todo: set<string>, k: string)
    requires k in todo && k in all
    ensures start + ClonedInterfaces(all - (todo - {k})) ==
            (start + ClonedInterfaces(all - todo))[k := ClonedInterface(all[k])]
  {
  }

  /** All records reached from `computers`. */
  ghost function Held(computers: map<Uuid, ComputerRecord>): set<object>
    reads computers.Values
  {
    set c, o | c in computers.Values && o in c.Repr() :: o
  }

  /** No record is reached from `computers` in two ways. */
  ghost predicate Apart(computers: map<Uuid, ComputerRecord>)
    reads computers.Values
  {
    && (forall k :: k in computers ==> computers[k].Unshared())
    && (forall j, k :: j in computers && k in computers && j != k ==> computers[j].Repr() !! computers[k].Repr())
  }

  function Views(computers: map<Uuid, ComputerRecord>): map<Uuid, Computer>
    reads computers.Values, set c, i | c in computers.Values && i in c.interfaces.Values :: i
  {
    map k | k in computers :: computers[k].View()
  }

  lemma ViewsAt(computers: map<Uuid, ComputerRecord>)
    ensures Views(computers).Keys == computers.Keys
    ensures forall k :: k in computers ==> Views(computers)[k] == computers[k].View()
  {
  }

  lemma HeldFrom(computers: map<Uuid, ComputerRecord>, k: Uuid)
    requires k in computers
    ensures computers[k].Repr() <= Held(computers)
  {
    assert computers[k] in computers.Values;
  }

  /** One more computer that shares nothing with the others. */
  lemma PutApart(computers: map<Uuid, ComputerRecord>, k: Uuid, c: ComputerRecord)
    requires Apart(computers) && c.Unshared() && c.Repr() !! Held(computers)
    ensures Apart(computers[k := c]) && Held(computers[k := c]) <= Held(computers) + c.Repr()
  {
    forall j | j in computers ensures computers[j].Repr() !! c.Repr() {
      HeldFrom(computers, j);
    }
  }

  lemma FewerApart(computers: map<Uuid, ComputerRecord>, fewer: map<Uuid, ComputerRecord>)
    requires forall k :: k in fewer ==> k in computers && fewer[k] == computers[k]
    ensures Held(fewer) <= Held(computers)
    ensures Apart(computers) ==> Apart(fewer)
  {
  }

  lemma PutView(computers: map<Uuid, ComputerRecord>, k: Uuid, c: ComputerRecord)
    ensures Views(computers[k := c]) == Views(computers)[k := c.View()]
  {
  }

  twostate lemma Untouched(c: ComputerRecord)
    requires forall o :: o in old(c.Repr()) ==> unchanged(o)
    ensures c.Repr() == old(c.Repr()) && c.Unshared() == old(c.Unshared()) && c.View() == old(c.View())
  {
    assert c in old(c.Repr());
    forall k | k in c.interfaces ensures c.interfaces[k].View() == old(c.interfaces[k].View()) {
      assert c.interfaces[k] in old(c.Repr());
    }
  }

  ghost function Reprs(computers: map<Uuid, ComputerRecord>): map<Uuid, set<object>>
    reads computers.Values
  {
    map k | k in computers :: computers[k].Repr()
  }

  /** If only computer `k` changed since its fellows looked like `views` and held `reprs`,
      and it took in no record of theirs, then nothing is shared now. */
  lemma ChangedOne(computers: map<Uuid, ComputerRecord>, k: Uuid, reprs: map<Uuid, set<object>>,
                   views: map<Uuid, Computer>)
    requires k in computers && reprs.Keys == views.Keys == computers.Keys && computers[k].Unshared()
    requires forall j :: j in computers && j != k ==>
               && computers[j].Repr() == reprs[j] && computers[j].View() == views[j] && computers[j].Unshared()
    requires forall i, j :: i in reprs && j in reprs && i != j ==> reprs[i] !! reprs[j]
    requires forall j :: j in computers && j != k ==> computers[k].Repr() !! reprs[j]
    ensures Apart(computers)
    ensures Views(computers) == views[k := computers[k].View()]
  {
    hide ComputerRecord.Unshared, ComputerRecord.View, ComputerRecord.Repr;
  }

  lemma HeldIff(computers: map<Uuid, ComputerRecord>, o: object)
    ensures o in Held(computers) <==> exists k :: k in computers && o in Reprs(computers)[k]
  {
    hide ComputerRecord.Repr;
    if k :| k in computers && o in Reprs(computers)[k] {
      assert computers[k] in computers.Values;
    }
  }

  class BlueprintRecord {
    var id: Uuid
    var name: string
    var computers: map<Uuid, ComputerRecord>
    var networks: map<Uuid, NetworkRecord>
    var links: seq<Link>

    /** The records through which the blueprint can be changed. */
    ghost function Repr(): set<object>
      reads this`computers, this`networks, computers.Values
    {
      {this} + networks.Values + Held(computers)
    }

    /** No record is held twice. */
    ghost predicate Unshared()
      reads this`computers, this`networks, computers.Values
    {
      Apart(computers) && NetworksUnshared()
    }

    ghost predicate NetworksUnshared()
      reads this`networks
    {
      forall j, k :: j in networks && k in networks && networks[j] == networks[k] ==> j == k
    }

    function Computers(): map<Uuid, Computer>
      reads this`computers, computers.Values, set c, i | c in computers.Values && i in c.interfaces.Values :: i
    {
      Views(computers)
    }

    function Networks(): map<Uuid, Network>
      reads this`networks, networks.Values
    {
      map k | k in networks :: networks[k].View()
    }

    function View(): Blueprint
      reads this, networks.Values, computers.Values, set c, i | c in computers.Values && i in c.interfaces.Values :: i
    {
      Blueprint(id, name, Computers(), Networks(), links)
    }

    constructor (id: Uuid, name: string)
      ensures View() == Blueprint(id, name, map[], map[], [])
      ensures computers == map[] && networks == map[]
    {
      this.id, this.name, computers, networks, links := id, name, map[], map[], [];
    }

    // ---- Cloning ----

    method PutNetwork(k: Uuid, n: NetworkRecord)
      requires NetworksUnshared() && n !in networks.Values
      modifies this`networks
      ensures networks == old(networks)[k := n] && NetworksUnshared()
      ensures Networks() == old(Networks())[k := n.View()]
    {
      ghost var before := Networks();
      networks := networks[k := n];
      assert Networks() == before[k := n.View()];
    }

    method PutNetworkClone(k: Uuid, source: NetworkRecord)
      requires NetworksUnshared()
      modifies this`networks
      ensures Networks() == old(Networks())[k := ClonedNetwork(source.View())] && NetworksUnshared()
      ensures fresh(networks.Values - old(networks.Values))
    {
      var n := source.Clone();
      PutNetwork(k, n);
    }

    method PutNetworkClones(ghost views: map<Uuid, Network>, sources: map<Uuid, NetworkRecord>)
      requires views == map k | k in sources :: sources[k].View()
      requires networks == map[]
      modifies this`networks
      ensures Networks() == ClonedNetworks(views) && fresh(networks.Values) && NetworksUnshared()
    {
      assert views.Keys == sources.Keys;
      var todo := sources.Keys;
      while todo != {}
        invariant todo <= sources.Keys && fresh(networks.Values) && NetworksUnshared()
        invariant forall k :: k in sources ==> sources[k].View() == views[k]
        invariant Networks() == ClonedNetworks(views - todo)
        decreases todo
      {
        var k :| k in todo;
        PutNetworkClone(k, sources[k]);
        OneMoreNetwork(views, todo, k);
        todo := todo - {k};
      }
      assert views - todo == views;
    }

    /** `insert_or_assign` of a record that nothing else holds. */
    method PutComputer(k: Uuid, c: ComputerRecord)
      requires Apart(computers) && c.Unshared() && c.Repr() !! Held(computers)
      modifies this`computers
      ensures Computers() == old(Computers())[k := c.View()] && Apart(computers)
      ensures Held(computers) <= old(Held(computers)) + c.Repr()
    {
      hide Apart, Held, Views;
      PutApart(computers, k, c);
      PutView(computers, k, c);
      computers := computers[k := c];
    }

    method PutComputerClone(k: Uuid, source: ComputerRecord, newMac: string)
      requires Apart(computers)
      modifies this`computers
      ensures Computers() == old(Computers())[k := ClonedComputer(source.View(), newMac)] && Apart(computers)
      ensures forall o :: o in Held(computers) ==> o in old(Held(computers)) || fresh(o)
    {
      hide ClonedComputer, Apart, Views;
      var c := source.Clone(newMac);
      PutComputer(k, c);
    }

    method PutComputerClones(ghost views: map<Uuid, Computer>, sources: map<Uuid, ComputerRecord>,
                             newMac: Uuid -> string)
      requires views == Views(sources) && computers == map[]
      modifies this`computers
      ensures Computers() == ClonedComputers(views, newMac)
      ensures fresh(Held(computers)) && Apart(computers)
    {
      hide ClonedComputer, ClonedComputers, Apart, Held, Views;
      ViewsAt(sources);
      NoComputers(views, newMac);
      var todo := sources.Keys;
      NoneHeld();
      while todo != {}
        invariant todo <= sources.Keys && fresh(Held(computers)) && Apart(computers)
        invariant Views(sources) == views
        invariant Computers() == ClonedComputers(views - todo, newMac)
        decreases todo
      {
        var k :| k in todo;
        ViewsAt(sources);
        PutComputerClone(k, sources[k], newMac(k));
        OneMoreComputer(views, todo, k, newMac);
        todo := todo - {k};
      }
      assert views - todo == views;
    }

    /** The clone is deep: every record it reaches is new. `newMac` gives the macs that
        were generated for the control interfaces of the new computers. */
    method Clone(newMac: Uuid -> string) returns (m: BlueprintRecord)
      ensures fresh(m.Repr()) && m.Unshared()
      ensures m.View() == ClonedBlueprint(View(), newMac)
    {
      hide ClonedNetworks, ClonedComputers, Apart, NetworksUnshared, Networks, Views;
      m := CloneNetworks();
      m.PutComputerClones(Computers(), computers, newMac);
    }

    method CloneNetworks() returns (m: BlueprintRecord)
      ensures fresh(m) && fresh(m.networks.Values) && m.NetworksUnshared() && m.computers == map[]
      ensures m.id == id && m.name == name && m.links == links && m.Networks() == ClonedNetworks(Networks())
    {
      hide ClonedNetworks;
      m := new BlueprintRecord(id, name);
      m.PutNetworkClones(Networks(), networks);
      m.links := links;
    }

    // ---- Changes ----

    /** Searches and erases until no computer of that name is found. */
    method RemoveComputer(name: string)
      modifies this`computers
      ensures computers == map k | k in old(computers) && old(computers[k].name) != name :: old(computers[k])
      ensures Computers() == WithoutNamed(old(Computers()), name)
      ensures Held(computers) <= old(Held(computers)) && (old(Apart(computers)) ==> Apart(computers))
    {
      hide Held, Apart;
      ghost var before := computers;
      var found := true;
      while found
        invariant forall k :: k in computers ==> k in old(computers) && computers[k] == old(computers[k])
        invariant forall k :: k in old(computers) && k !in computers ==> old(computers[k].name) == name
        invariant !found ==> forall k :: k in computers ==> computers[k].name != name
        decreases computers.Keys, found
      {
        if k :| k in computers.Keys && computers[k].name == name {
          computers := computers - {k};
        } else {
          found := false;
        }
      }
      FewerApart(before, computers);
    }

    /** The same search for networks. */
    method RemoveNetwork(name: string)
      modifies this`networks
      ensures networks == map k | k in old(networks) && old(networks[k].name) != name :: old(networks[k])
      ensures Networks() == WithoutNetworks(old(Networks()), name)
      ensures old(NetworksUnshared()) ==> NetworksUnshared()
    {
      var found := true;
      while found
        invariant forall k :: k in networks ==> k in old(networks) && networks[k] == old(networks[k])
        invariant forall k :: k in old(networks) && k !in networks ==> old(networks[k].name) == name
        invariant !found ==> forall k :: k in networks ==> networks[k].name != name
        decreases networks.Keys, found
      {
        if k :| k in networks.Keys && networks[k].name == name {
          networks := networks - {k};
        } else {
          found := false;
        }
      }
    }

    method EditNetworkAt(k: Uuid, x: NetworkEdit)
      requires NetworksUnshared() && k in networks
      modifies networks.Values
      ensures networks == old(networks)
      ensures Networks() == old(Networks())[k := EditNetwork(old(Networks())[k], x)]
    {
      hide EditNetwork;
      ghost var before := Networks();
      assert networks[k] in networks.Values;
      networks[k].Edit(x);
      assert Networks() == before[k := EditNetwork(before[k], x)];
    }

    method EditComputerAt(k: Uuid, x: ComputerEdit)
      requires Apart(computers) && k in computers
      modifies Held(computers)
      ensures unchanged(this) && Networks() == old(Networks()) && Apart(computers)
      ensures Computers() == old(Computers())[k := EditComputer(old(Computers())[k], x)]
      ensures fresh(Held(computers) - old(Held(computers)))
    {
      hide EditComputer, Held, ComputerRecord.View, ComputerRecord.Unshared, ComputerRecord.Repr;
      ghost var reprs, views, held := Reprs(computers), Views(computers), Held(computers);
      forall j | j in computers ensures reprs[j] <= held {
        HeldFrom(computers, j);
      }
      EditIn(k, x, reprs, views);
      ChangedOne(computers, k, reprs, views);
      forall o | o in Held(computers) && o !in held ensures fresh(o) {
        HeldIff(computers, o);
      }
    }

    method EditIn(k: Uuid, x: ComputerEdit, ghost reprs: map<Uuid, set<object>>, ghost views: map<Uuid, Computer>)
      requires Apart(computers) && k in computers && reprs == Reprs(computers) && views == Views(computers)
      modifies computers[k].Repr()
      ensures unchanged(this) && Networks() == old(Networks())
      ensures computers[k].Unshared() && computers[k].View() == EditComputer(views[k], x)
      ensures fresh(computers[k].Repr() - reprs[k])
      ensures forall j :: j in computers && j != k ==>
                && computers[j].Repr() == reprs[j] && computers[j].View() == views[j] && computers[j].Unshared()
      ensures forall j :: j in computers && j != k ==> computers[k].Repr() !! reprs[j]
    {
      hide EditComputer;
      label before:
      computers[k].Edit(x);
      forall j | j in computers && j != k
        ensures computers[j].Repr() == reprs[j] && computers[j].View() == views[j] && computers[j].Unshared()
      {
        Untouched@before(computers[j]);
      }
    }

    method AddNetworkRecord(n: Uuid, name: string)
      requires NetworksUnshared()
      modifies this`networks
      ensures Networks() == if n in old(Networks()) then old(Networks()) else old(Networks())[n := NewNetwork(n, name)]
      ensures fresh(networks.Values - old(networks.Values)) && NetworksUnshared()
    {
      if n !in networks {
        var r := new NetworkRecord(n, name);
        PutNetwork(n, r);
      }
    }

    method AddComputerRecord(c: Uuid, name: string, newMac: string)
      requires Apart(computers)
      modifies this`computers
      ensures Computers() == old(Computers())[c := NewComputer(c, name, newMac)]
      ensures fresh(Held(computers) - old(Held(computers))) && Apart(computers)
    {
      hide Apart, Views, NewComputer;
      var r := new ComputerRecord(c, name, newMac);
      PutComputer(c, r);
    }

    /** A change to one network or one computer. */
    method EditPart(x: Edit)
      requires Unshared() && (x.OfNetwork? || x.OfComputer?)
      modifies networks.Values, Held(computers)
      ensures View() == EditBlueprint(old(View()), x)
      ensures fresh(Repr() - old(Repr())) && Unshared()
    {
      hide Apart, Held, EditComputer, EditNetwork;
      if x.OfNetwork? && x.key in networks {
        hide Views;
        EditNetworkAt(x.key, x.networkEdit);
      } else if x.OfComputer? && x.key in computers {
        EditComputerAt(x.key, x.computerEdit);
      }
    }

    /** A change to which networks and computers there are. */
    method EditMembers(x: Edit)
      requires Unshared() && (x.AddNetwork? || x.AddComputer? || x.RemoveComputers? || x.RemoveNetworks?)
      modifies this`networks, this`computers
      ensures View() == EditBlueprint(old(View()), x)
      ensures fresh(Repr() - old(Repr())) && Unshared()
    {
      hide Apart, Held, Views, Networks, NetworksUnshared, NewComputer, NewNetwork, WithoutNamed, WithoutNetworks;
      match x {
        case AddNetwork(n, name) => AddNetworkRecord(n, name);
        case AddComputer(c, name, newMac) => AddComputerRecord(c, name, newMac);
        case RemoveComputers(name) => RemoveComputer(name);
        case RemoveNetworks(name) => RemoveNetwork(name);
      }
    }

    /** Any change; the new records it brings in are held by this blueprint alone. */
    method Edit(x: Edit)
      requires Unshared()
      modifies Repr()
      ensures View() == EditBlueprint(old(View()), x)
      ensures fresh(Repr() - old(Repr())) && Unshared()
    {
      hide Apart, Held, Views, Networks, EditComputer, EditNetwork, NewComputer, NewNetwork;
      match x {
        case Rename(name) => this.name := name;
        case Connect(c, mac, n) => links := links + [Link(Endpoint(c, Some(mac)), Endpoint(n, None))];
        case ConnectNetworks(m, n) => links := links + [Link(Endpoint(m, None), Endpoint(n, None))];
        case OfNetwork(_, _) => EditPart(x);
        case OfComputer(_, _) => EditPart(x);
        case _ => EditMembers(x);
      }
    }
  }

  lemma NoneHeld()
    ensures Apart(map[]) && Held(map[]) == {} && Views(map[]) == map[]
  {
  }

  lemma OneMoreNetwork(all: map<Uuid, Network>, todo: set<Uuid>, k: Uuid)
    requires k in todo && k in all
    ensures ClonedNetworks(all - (todo - {k})) == ClonedNetworks(all - todo)[k := ClonedNetwork(all[k])]
  {
  }

  lemma NoComputers(all: map<Uuid, Computer>, newMac: Uuid -> string)
    ensures ClonedComputers(all - all.Keys, newMac) == map[]
  {
  }

  lemma OneMoreComputer(all: map<Uuid, Computer>, todo: set<Uuid>, k: Uuid, newMac: Uuid -> string)
    requires k in todo && k in all
    ensures ClonedComputers(all - (todo - {k}), newMac) ==
            ClonedComputers(all - todo, newMac)[k := ClonedComputer(all[k], newMac(k))]
  {
    hide ClonedComputer;
  }

  /** Any changes, one after the other. */
  method EditEach(b: BlueprintRecord, edits: seq<Edit>)
    requires b.Unshared()
    modifies b.Repr()
    ensures b.View() == EditAll(old(b.View()), edits)
    ensures fresh(b.Repr() - old(b.Repr())) && b.Unshared()
  {
    hide EditAll, EditBlueprint, BlueprintRecord.View, BlueprintRecord.Unshared;
    ghost var start, held := b.View(), b.Repr();
    EditNone(start);
    for i := 0 to |edits|
      invariant fresh(b.Repr() - held) && b.Unshared()
      invariant b.View() == EditAll(start, edits[..i])
    {
      EditOneMore(start, edits, i);
      b.Edit(edits[i]);
    }
    assert edits[..|edits|] == edits;
  }

  /** Whatever is changed through a clone, and however often, the original stays as it
      was; the clone becomes what these changes make of it. */
  method EditClone(b: BlueprintRecord, newMac: Uuid -> string, edits: seq<Edit>) returns (m: BlueprintRecord)
    ensures b.View() == old(b.View())
    ensures m.View() == EditAll(ClonedBlueprint(b.View(), newMac), edits)
  {
    hide EditAll, ClonedBlueprint, BlueprintRecord.Unshared, BlueprintRecord.Repr, Views, BlueprintRecord.Networks;
    m := b.Clone(newMac);
    EditEach(m, edits);
  }

  twostate lemma UntouchedBlueprint(b: BlueprintRecord)
    requires forall o :: o in old(b.Repr()) ==> unchanged(o)
    ensures b.Repr() == old(b.Repr()) && b.Unshared() == old(b.Unshared()) && b.View() == old(b.View())
  {
    hide ComputerRecord.Repr, ComputerRecord.View, ComputerRecord.Unshared;
    assert b in old(b.Repr());
    forall k | k in b.computers
      ensures b.computers[k].Repr() == old(b.computers[k].Repr()) && b.computers[k].View() == old(b.computers[k].View())
      ensures b.computers[k].Unshared() == old(b.computers[k].Unshared())
    {
      assert b.computers[k] in old(b.computers.Values);
      assert old(b.computers[k].Repr()) <= old(b.Repr());
      Untouched(b.computers[k]);
    }
    forall k | k in b.networks ensures b.networks[k].View() == old(b.networks[k].View()) {
      assert b.networks[k] in old(b.Repr());
    }
    assert b.Computers() == old(b.Computers());
    assert b.Networks() == old(b.Networks());
  }

  /** A change of `b` beside a blueprint that shares nothing with it. */
  method EditBeside(b: BlueprintRecord, other: BlueprintRecord, x: Edit)
    requires b.Unshared() && other.Unshared() && b.Repr() !! other.Repr()
    modifies b.Repr()
    ensures b.View() == EditBlueprint(old(b.View()), x) && b.Unshared()
    ensures forall o :: o in b.Repr() ==> o in old(b.Repr()) || fresh(o)
    ensures other.View() == old(other.View()) && other.Unshared()
    ensures other.Repr() == old(other.Repr()) && b.Repr() !! other.Repr()
  {
    hide EditBlueprint, BlueprintRecord.View, BlueprintRecord.Unshared;
    label before:
    b.Edit(x);
    UntouchedBlueprint@before(other);
  }

  method CloneBeside(b: BlueprintRecord, newMac: Uuid -> string) returns (m: BlueprintRecord)
    ensures m.Unshared() && m.View() == ClonedBlueprint(b.View(), newMac)
    ensures b.Repr() !! m.Repr() && forall o :: o in m.Repr() ==> fresh(o)
  {
    hide ClonedBlueprint, BlueprintRecord.View, BlueprintRecord.Unshared;
    m := b.Clone(newMac);
  }

  /** Original and clone changed by turns: each becomes what its own changes make of it. */
  method EditBoth(b: BlueprintRecord, newMac: Uuid -> string, edits: seq<(bool, Edit)>) returns (m: BlueprintRecord)
    requires b.Unshared()
    modifies b.Repr()
    ensures b.View() == EditAll(old(b.View()), Chosen(edits, false))
    ensures m.View() == EditAll(ClonedBlueprint(old(b.View()), newMac), Chosen(edits, true))
  {
    hide EditAll, EditBlueprint, ClonedBlueprint, Chosen;
    hide BlueprintRecord.View, BlueprintRecord.Unshared, BlueprintRecord.Repr;
    ghost var held := b.Repr();
    m := CloneBeside(b, newMac);
    ghost var start, copied := b.View(), m.View();
    NoneChosen(start);
    NoneChosen(copied);
    for i := 0 to |edits|
      invariant forall o :: o in b.Repr() ==> o in held || fresh(o)
      invariant forall o :: o in m.Repr() ==> fresh(o)
      invariant b.Repr() !! m.Repr()
      invariant b.Unshared() && m.Unshared()
      invariant b.View() == EditAll(start, Chosen(edits[..i], false))
      invariant m.View() == EditAll(copied, Chosen(edits[..i], true))
    {
      OneMoreChosen(start, edits, i, false);
      OneMoreChosen(copied, edits, i, true);
      if edits[i].0 {
        EditBeside(m, b, edits[i].1);
      } else {
        EditBeside(b, m, edits[i].1);
      }
    }
    assert edits[..|edits|] == edits;
  }
}

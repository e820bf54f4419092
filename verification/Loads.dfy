/** Load arithmetic of core/embed.cxx:25-181: what a set of machines uses of a
    host in each of four dimensions, and how free that leaves the host.
    Doubles are exact reals and sums of an empty map are 0. */
module Loads {
  import opened Units
  import opened Blueprints
  import opened Topologies

  /** core/blueprint.hxx:304-313. */
  datatype HwSpec = HwSpec(proc: nat, mem: nat, net: nat, disk: nat)

  const NOTHING := HwSpec(0, 0, 0, 0)

  function Plus(x: HwSpec, y: HwSpec): HwSpec {
    HwSpec(x.proc + y.proc, x.mem + y.mem, x.net + y.net, x.disk + y.disk)
  }

  lemma PlusCommutes(x: HwSpec, y: HwSpec, z: HwSpec)
    ensures Plus(x, Plus(y, z)) == Plus(y, Plus(x, z))
    ensures Plus(Plus(x, y), z) == Plus(x, Plus(y, z))
  {
  }

  lemma PlusNothing(x: HwSpec)
    ensures Plus(NOTHING, x) == x == Plus(x, NOTHING)
  {
  }

  datatype Load = Load(used: nat, total: nat) {

    predicate Overloaded() { used > total }

    function PercentUsed(): real {
      if total == 0 then 0.0 else used as real / total as real
    }

    function PercentFree(): real { 1.0 - PercentUsed() }
  }

  datatype LoadVector = LoadVector(proc: Load, mem: Load, net: Load, disk: Load) {

    predicate Overloaded() {
      proc.Overloaded() || mem.Overloaded() || net.Overloaded() || disk.Overloaded()
    }

    function FreeNorm(): real {
      (proc.PercentFree() + mem.PercentFree() + net.PercentFree() + disk.PercentFree()) / 4.0
    }

    function Used(): HwSpec { HwSpec(proc.used, mem.used, net.used, disk.used) }
  }

  datatype HostEmbedding = HostEmbedding(host: Host, machines: map<Uuid, Computer>) {

    function Add(c: Computer): HostEmbedding { this.(machines := machines[c.id := c]) }

    function Remove(c: Computer): HostEmbedding { this.(machines := machines - {c.id}) }
  }

  // ---- Sums over maps ----

  ghost function Sum<K(!new)>(m: map<K, HwSpec>): HwSpec {
    if m == map[] then NOTHING
    else var k :| k in m; Plus(m[k], Sum(m - {k}))
  }

  /** The key that the sum takes first does not matter. */
  lemma {:induction false} SumTake<K(!new)>(m: map<K, HwSpec>, k: K)
    requires k in m
    ensures Sum(m) == Plus(m[k], Sum(m - {k}))
    decreases |m|
  {
    var j :| j in m && Sum(m) == Plus(m[j], Sum(m - {j}));
    if j != k {
      SumTake(m - {j}, k);
      SumTake(m - {k}, j);
      var rest := m - {j} - {k};
      assert rest == m - {k} - {j};
      PlusCommutes(m[j], m[k], Sum(rest));
    }
  }

  predicate Enumerates<K(==)>(order: seq<K>, keys: set<K>) {
    && (forall i, j :: 0 <= i < j < |order| ==> order[i] != order[j])
    && (forall k :: k in order ==> k in keys)
    && (forall k :: k in keys ==> k in order)
  }

  lemma {:induction false} EnumeratedSize<K>(order: seq<K>, keys: set<K>)
    requires Enumerates(order, keys)
    ensures |order| == |keys|
  {
    if order == [] {
      assert keys == {};
    } else {
      var last := order[|order| - 1];
      EnumeratedSize(order[..|order| - 1], keys - {last});
    }
  }

  ghost function SumInOrder<K>(m: map<K, HwSpec>, order: seq<K>): HwSpec
    requires forall k :: k in order ==> k in m
  {
    if order == [] then NOTHING
    else Plus(SumInOrder(m, order[..|order| - 1]), m[order[|order| - 1]])
  }

  /** Walking the map in any order gives the same sum. */
  lemma {:induction false} SumInAnyOrder<K(!new)>(m: map<K, HwSpec>, order: seq<K>)
    requires Enumerates(order, m.Keys)
    ensures SumInOrder(m, order) == Sum(m)
  {
    if order == [] {
      assert m == map[];
    } else {
      var init, last := order[..|order| - 1], order[|order| - 1];
      assert order == init + [last];
      var rest := m - {last};
      SumInAnyOrder(rest, init);
      SumTake(m, last);
      SumInOrderAgrees(m, rest, init);
    }
  }

  lemma {:induction false} SumInOrderAgrees<K>(m: map<K, HwSpec>, n: map<K, HwSpec>, order: seq<K>)
    requires forall k :: k in order ==> k in m && k in n && m[k] == n[k]
    ensures SumInOrder(m, order) == SumInOrder(n, order)
  {
    if order != [] {
      SumInOrderAgrees(m, n, order[..|order| - 1]);
    }
  }

  /** The same for sums of reals. */
  ghost function RealSum<K(!new)>(m: map<K, real>): real {
    if m == map[] then 0.0
    else var k :| k in m; m[k] + RealSum(m - {k})
  }

  lemma {:induction false} RealSumTake<K(!new)>(m: map<K, real>, k: K)
    requires k in m
    ensures RealSum(m) == m[k] + RealSum(m - {k})
    decreases |m|
  {
    var j :| j in m && RealSum(m) == m[j] + RealSum(m - {j});
    if j != k {
      RealSumTake(m - {j}, k);
      RealSumTake(m - {k}, j);
      assert m - {j} - {k} == m - {k} - {j};
    }
  }

  // ---- Demand and load ----

  function Capacities(interfaces: map<string, Interface>): map<string, HwSpec> {
    map k | k in interfaces :: HwSpec(0, 0, interfaces[k].capacity.Megabits(), 0)
  }

  /** What one machine adds to each used figure: memory and disk in megabytes. */
  ghost function Demand(c: Computer): HwSpec {
    HwSpec(c.cores, c.memory.Megabytes(), Sum(Capacities(c.interfaces)).net, c.disk.Megabytes())
  }

  ghost function Demands(machines: map<Uuid, Computer>): map<Uuid, HwSpec> {
    map k | k in machines :: Demand(machines[k])
  }

  ghost function UsedBy(machines: map<Uuid, Computer>): HwSpec {
    Sum(Demands(machines))
  }

  ghost function LoadOf(he: HostEmbedding): LoadVector {
    var used := UsedBy(he.machines);
    LoadVector(
      Load(used.proc, he.host.cores),
      Load(used.mem, he.host.memory.Megabytes()),
      Load(used.net, Sum(Capacities(he.host.interfaces)).net),
      Load(used.disk, he.host.disk.Megabytes()))
  }

  ghost predicate Overloaded(he: HostEmbedding) { LoadOf(he).Overloaded() }

  ghost function FreeNorm(he: HostEmbedding): real { LoadOf(he).FreeNorm() }

  lemma UsedByTake(machines: map<Uuid, Computer>, k: Uuid)
    requires k in machines
    ensures UsedBy(machines) == Plus(Demand(machines[k]), UsedBy(machines - {k}))
  {
    SumTake(Demands(machines), k);
    assert Demands(machines) - {k} == Demands(machines - {k});
  }

  lemma UsedByAdd(machines: map<Uuid, Computer>, c: Computer)
    requires c.id !in machines
    ensures UsedBy(machines[c.id := c]) == Plus(UsedBy(machines), Demand(c))
  {
    UsedByTake(machines[c.id := c], c.id);
    assert machines[c.id := c] - {c.id} == machines;
  }

  ghost predicate AtMost(x: HwSpec, y: HwSpec) {
    x.proc <= y.proc && x.mem <= y.mem && x.net <= y.net && x.disk <= y.disk
  }

  lemma UsedByRemove(machines: map<Uuid, Computer>, id: Uuid)
    ensures AtMost(UsedBy(machines - {id}), UsedBy(machines))
  {
    if id in machines {
      UsedByTake(machines, id);
    } else {
      assert machines - {id} == machines;
    }
  }

  lemma PercentUsedMonotone(x: Load, y: Load)
    requires x.total == y.total && x.used <= y.used
    ensures x.PercentUsed() <= y.PercentUsed()
  {
    if x.total != 0 {
      var a, b, t := x.used as real, y.used as real, x.total as real;
      assert b / t - a / t == (b - a) / t;
    }
  }

  /** A new machine raises each used figure by exactly its demand, never frees the
      host, and taking it off again restores the embedding. */
  lemma AddThenRemove(he: HostEmbedding, c: Computer)
    requires c.id !in he.machines
    ensures LoadOf(he.Add(c)).Used() == Plus(LoadOf(he).Used(), Demand(c))
    ensures FreeNorm(he.Add(c)) <= FreeNorm(he)
    ensures Overloaded(he) ==> Overloaded(he.Add(c))
    ensures he.Add(c).Remove(c) == he
  {
    UsedByAdd(he.machines, c);
    FreeNormAntitone(he, he.Add(c));
    assert he.machines[c.id := c] - {c.id} == he.machines;
  }

  lemma FreeNormAntitone(x: HostEmbedding, y: HostEmbedding)
    requires x.host == y.host && AtMost(UsedBy(x.machines), UsedBy(y.machines))
    ensures FreeNorm(y) <= FreeNorm(x)
  {
    var v, w := LoadOf(x), LoadOf(y);
    PercentUsedMonotone(v.proc, w.proc);
    PercentUsedMonotone(v.mem, w.mem);
    PercentUsedMonotone(v.net, w.net);
    PercentUsedMonotone(v.disk, w.disk);
  }

  /** Taking a machine off cannot overload a host. */
  lemma RemoveKeepsCapacity(he: HostEmbedding, c: Computer)
    ensures Overloaded(he.Remove(c)) ==> Overloaded(he)
  {
    UsedByRemove(he.machines, c.id);
  }

  // ---- Bytes behind the megabytes ----

  ghost function ByteDemands(machines: map<Uuid, Computer>): map<Uuid, HwSpec> {
    map k | k in machines :: HwSpec(0, machines[k].memory.Bytes(), 0, 0)
  }

  ghost function TotalBytes(machines: map<Uuid, Computer>): nat {
    Sum(ByteDemands(machines)).mem
  }

  lemma TotalBytesTake(machines: map<Uuid, Computer>, k: Uuid)
    requires k in machines
    ensures TotalBytes(machines) == machines[k].memory.Bytes() + TotalBytes(machines - {k})
  {
    SumTake(ByteDemands(machines), k);
    assert ByteDemands(machines) - {k} == ByteDemands(machines - {k});
  }

  ghost predicate WholeMegabytes(machines: map<Uuid, Computer>) {
    forall k :: k in machines ==> machines[k].memory.Bytes() % 1048576 == 0
  }

  /** The rounding of each machine hides less than one megabyte, and nothing when
      the machines have whole megabytes. */
  lemma {:induction false} BytesAboveMegabytes(machines: map<Uuid, Computer>)
    ensures TotalBytes(machines) <= UsedBy(machines).mem * 1048576 + |machines| * 1048575
    ensures WholeMegabytes(machines) ==> TotalBytes(machines) == UsedBy(machines).mem * 1048576
    decreases |machines|
  {
    if machines == map[] {
      assert Demands(machines) == map[] && ByteDemands(machines) == map[];
    } else {
      var k :| k in machines;
      var rest := machines - {k};
      BytesAboveMegabytes(rest);
      UsedByTake(machines, k);
      TotalBytesTake(machines, k);
      assert rest.Keys == machines.Keys - {k};
      MegabytesIsFloor(machines[k].memory);
    }
  }

  /** On a host that is not overloaded the machines exceed its bytes by less than
      one megabyte each, and by nothing when their sizes are whole megabytes. */
  lemma MemoryBound(he: HostEmbedding)
    requires !Overloaded(he)
    ensures TotalBytes(he.machines) <= he.host.memory.Bytes() + |he.machines| * 1048575
    ensures WholeMegabytes(he.machines) ==> TotalBytes(he.machines) <= he.host.memory.Bytes()
  {
    BytesAboveMegabytes(he.machines);
    MegabytesIsFloor(he.host.memory);
    assert !LoadOf(he).mem.Overloaded();
  }

  // ---- The figures in terms of machines and hosts ----

  ghost function NetOf(interfaces: map<string, Interface>): nat {
    if interfaces == map[] then 0
    else var k :| k in interfaces; interfaces[k].capacity.Megabits() + NetOf(interfaces - {k})
  }

  ghost function CoresOf(machines: map<Uuid, Computer>): nat {
    if machines == map[] then 0
    else var k :| k in machines; machines[k].cores + CoresOf(machines - {k})
  }

  ghost function MemoryOf(machines: map<Uuid, Computer>): nat {
    if machines == map[] then 0
    else var k :| k in machines; machines[k].memory.Megabytes() + MemoryOf(machines - {k})
  }

  ghost function DiskOf(machines: map<Uuid, Computer>): nat {
    if machines == map[] then 0
    else var k :| k in machines; machines[k].disk.Megabytes() + DiskOf(machines - {k})
  }

  ghost function TrafficOf(machines: map<Uuid, Computer>): nat {
    if machines == map[] then 0
    else var k :| k in machines; NetOf(machines[k].interfaces) + TrafficOf(machines - {k})
  }

  lemma {:induction false} NetIsSum(interfaces: map<string, Interface>)
    ensures Sum(Capacities(interfaces)).net == NetOf(interfaces)
    decreases |interfaces|
  {
    if interfaces == map[] {
      assert Capacities(interfaces) == map[];
    } else {
      var k :| k in interfaces && NetOf(interfaces) == interfaces[k].capacity.Megabits() + NetOf(interfaces - {k});
      NetIsSum(interfaces - {k});
      SumTake(Capacities(interfaces), k);
      assert Capacities(interfaces) - {k} == Capacities(interfaces - {k});
    }
  }

  lemma {:induction false} CoresUsed(machines: map<Uuid, Computer>)
    ensures UsedBy(machines).proc == CoresOf(machines)
    decreases |machines|
  {
    if machines == map[] {
      assert Demands(machines) == map[];
    } else {
      var k :| k in machines && CoresOf(machines) == machines[k].cores + CoresOf(machines - {k});
      CoresUsed(machines - {k});
      UsedByTake(machines, k);
    }
  }

  lemma {:induction false} MemoryUsed(machines: map<Uuid, Computer>)
    ensures UsedBy(machines).mem == MemoryOf(machines)
    decreases |machines|
  {
    if machines == map[] {
      assert Demands(machines) == map[];
    } else {
      var k :| k in machines && MemoryOf(machines) == machines[k].memory.Megabytes() + MemoryOf(machines - {k});
      MemoryUsed(machines - {k});
      UsedByTake(machines, k);
    }
  }

  lemma {:induction false} DiskUsed(machines: map<Uuid, Computer>)
    ensures UsedBy(machines).disk == DiskOf(machines)
    decreases |machines|
  {
    if machines == map[] {
      assert Demands(machines) == map[];
    } else {
      var k :| k in machines && DiskOf(machines) == machines[k].disk.Megabytes() + DiskOf(machines - {k});
      DiskUsed(machines - {k});
      UsedByTake(machines, k);
    }
  }

  lemma {:induction false} TrafficUsed(machines: map<Uuid, Computer>)
    ensures UsedBy(machines).net == TrafficOf(machines)
    decreases |machines|
  {
    if machines == map[] {
      assert Demands(machines) == map[];
    } else {
      var k :| k in machines && TrafficOf(machines) == NetOf(machines[k].interfaces) + TrafficOf(machines - {k});
      TrafficUsed(machines - {k});
      UsedByTake(machines, k);
      NetIsSum(machines[k].interfaces);
    }
  }

  /** The machines exceed their host in none of the four dimensions. */
  ghost predicate WithinHost(host: Host, machines: map<Uuid, Computer>) {
    && CoresOf(machines) <= host.cores
    && MemoryOf(machines) <= host.memory.Megabytes()
    && TrafficOf(machines) <= NetOf(host.interfaces)
    && DiskOf(machines) <= host.disk.Megabytes()
  }

  lemma AllUsed(machines: map<Uuid, Computer>)
    ensures UsedBy(machines) ==
            HwSpec(CoresOf(machines), MemoryOf(machines), TrafficOf(machines), DiskOf(machines))
  {
    CoresUsed(machines);
    MemoryUsed(machines);
    TrafficUsed(machines);
    DiskUsed(machines);
  }

  /** A host is overloaded exactly when its machines together have more cores, memory,
      interface capacity or disk than the host. */
  lemma OverloadedIff(he: HostEmbedding)
    ensures Overloaded(he) <==> !WithinHost(he.host, he.machines)
  {
    hide UsedBy, Capacities;
    AllUsed(he.machines);
    NetIsSum(he.host.interfaces);
  }

  /** `part` of `whole`, nothing of nothing. */
  function Share(part: nat, whole: nat): real {
    if whole == 0 then 0.0 else part as real / whole as real
  }

  /** How much of the host machines with these figures take, the four dimensions alike. */
  ghost function Fill(host: Host, cores: nat, memory: nat, net: nat, disk: nat): real {
    (Share(cores, host.cores) + Share(memory, host.memory.Megabytes()) + Share(net, NetOf(host.interfaces))
     + Share(disk, host.disk.Megabytes())) / 4.0
  }

  ghost function FillOf(host: Host, machines: map<Uuid, Computer>): real {
    Fill(host, CoresOf(machines), MemoryOf(machines), TrafficOf(machines), DiskOf(machines))
  }

  lemma FreeNormIs(he: HostEmbedding)
    ensures FreeNorm(he) == 1.0 - FillOf(he.host, he.machines)
  {
    hide UsedBy, Capacities, Sum;
    AllUsed(he.machines);
    NetIsSum(he.host.interfaces);
  }

  lemma ShareAdds(x: nat, y: nat, whole: nat)
    ensures Share(x + y, whole) == Share(x, whole) + Share(y, whole)
  {
    if whole != 0 {
      var a, b, t := x as real, y as real, whole as real;
      assert (a + b) / t == a / t + b / t;
    }
  }

  lemma NothingTaken(host: Host)
    ensures FillOf(host, map[]) == 0.0
  {
  }

  /** An empty host is all free, and a new machine takes from that figure a quarter of the
      sum of its own shares of the host's cores, memory, interface capacity and disk. */
  lemma FreeNormLaws(he: HostEmbedding, c: Computer)
    ensures he.machines == map[] ==> FreeNorm(he) == 1.0
    ensures c.id !in he.machines ==>
              FreeNorm(he) - FreeNorm(he.Add(c)) ==
              Fill(he.host, c.cores, c.memory.Megabytes(), NetOf(c.interfaces), c.disk.Megabytes())
  {
    hide *;
    FreeNormIs(he);
    NothingTaken(he.host);
    if c.id !in he.machines {
      FreeNormIs(he.Add(c));
      FillAdds(he, c);
      SameHost(he, c);
    }
  }

  lemma SameHost(he: HostEmbedding, c: Computer)
    ensures he.Add(c).host == he.host
  {
  }

  lemma MachineAdded(he: HostEmbedding, c: Computer)
    requires c.id !in he.machines
    ensures var more := he.Add(c).machines;
            && CoresOf(more) == CoresOf(he.machines) + c.cores
            && MemoryOf(more) == MemoryOf(he.machines) + c.memory.Megabytes()
            && TrafficOf(more) == TrafficOf(he.machines) + NetOf(c.interfaces)
            && DiskOf(more) == DiskOf(he.machines) + c.disk.Megabytes()
  {
    hide UsedBy, Sum, CoresOf, MemoryOf, TrafficOf, DiskOf, NetOf;
    UsedByAdd(he.machines, c);
    AllUsed(he.machines);
    AllUsed(he.Add(c).machines);
    NetIsSum(c.interfaces);
  }

  lemma FillAdds(he: HostEmbedding, c: Computer)
    requires c.id !in he.machines
    ensures FillOf(he.host, he.Add(c).machines) ==
            FillOf(he.host, he.machines)
            + Fill(he.host, c.cores, c.memory.Megabytes(), NetOf(c.interfaces), c.disk.Megabytes())
  {
    MachineAdded(he, c);
    hide CoresOf, MemoryOf, TrafficOf, DiskOf, NetOf, Share;
    var h, ms := he.host, he.machines;
    ShareAdds(CoresOf(ms), c.cores, h.cores);
    ShareAdds(MemoryOf(ms), c.memory.Megabytes(), h.memory.Megabytes());
    ShareAdds(TrafficOf(ms), NetOf(c.interfaces), NetOf(h.interfaces));
    ShareAdds(DiskOf(ms), c.disk.Megabytes(), h.disk.Megabytes());
  }

  // ---- The loops behind `load()` ----

  /** Walks the map in whatever order it comes. */
  method SumCapacities(interfaces: map<string, Interface>) returns (net: nat)
    ensures net == Sum(Capacities(interfaces)).net
  {
    net := 0;
    var todo := interfaces;
    while todo.Keys != {}
      invariant forall k :: k in todo ==> k in interfaces && todo[k] == interfaces[k]
      invariant net + Sum(Capacities(todo)).net == Sum(Capacities(interfaces)).net
      decreases todo.Keys
    {
      var k :| k in todo.Keys;
      SumTake(Capacities(todo), k);
      assert Capacities(todo) - {k} == Capacities(todo - {k});
      net := net + todo[k].capacity.Megabits();
      todo := todo - {k};
    }
    assert Capacities(todo) == map[];
  }

  method ComputeDemand(c: Computer) returns (d: HwSpec)
    ensures d == Demand(c)
  {
    var net := SumCapacities(c.interfaces);
    d := HwSpec(c.cores, c.memory.Megabytes(), net, c.disk.Megabytes());
  }

  method SumDemands(machines: map<Uuid, Computer>) returns (used: HwSpec)
    ensures used == UsedBy(machines)
  {
    used := NOTHING;
    var todo := machines;
    PlusNothing(UsedBy(machines));
    while todo.Keys != {}
      invariant Plus(used, UsedBy(todo)) == UsedBy(machines)
      decreases todo.Keys
    {
      var k :| k in todo.Keys;
      var d := ComputeDemand(todo[k]);
      UsedByTake(todo, k);
      PlusCommutes(used, d, UsedBy(todo - {k}));
      used := Plus(used, d);
      todo := todo - {k};
    }
    assert Demands(todo) == map[];
    PlusNothing(used);
  }

  /** `HostEmbedding::load`. */
  method ComputeLoad(he: HostEmbedding) returns (v: LoadVector)
    ensures v == LoadOf(he)
  {
    var used := SumDemands(he.machines);
    var net := SumCapacities(he.host.interfaces);
    v := LoadVector(
      Load(used.proc, he.host.cores),
      Load(used.mem, he.host.memory.Megabytes()),
      Load(used.net, net),
      Load(used.disk, he.host.disk.Megabytes()));
  }
}

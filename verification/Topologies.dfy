/** Testbed topologies (core/topo.cxx): which hosts and switches a link joins,
    and the hash-compared sets in which the two queries collect their answers. */
module Topologies {
  import opened Wrappers
  import opened Units
  import opened Blueprints

  datatype Host = Host(
    id: Uuid, name: string, cores: nat, memory: Memory, disk: Memory,
    interfaces: map<string, Interface>)

  datatype Switch = Switch(id: Uuid, name: string, backplane: Bandwidth)

  datatype TbLink = TbLink(a: Endpoint, b: Endpoint, capacity: Bandwidth)

  /** `nameHash` is the standard library's string hash, whatever it is. */
  datatype Topology = Topology(
    hosts: map<Uuid, Host>, switches: map<Uuid, Switch>, links: seq<TbLink>,
    nameHash: string -> nat)
  {
    /** What construction through `sw`, `host` and `connect` guarantees. */
    ghost predicate WellBuilt() {
      && (forall k :: k in hosts ==> hosts[k].id == k)
      && (forall k :: k in switches ==> switches[k].id == k)
      && hosts.Keys !! switches.Keys
      && forall l :: l in links ==> WellPlaced(l)
    }

    /** A host is never the second end of a link, and only host ends carry a mac. */
    ghost predicate WellPlaced(l: TbLink) {
      && l.b.mac.None? && l.b.id !in hosts
      && (if l.a.mac.None? then l.a.id !in hosts else l.a.id !in switches)
    }

    /** The third endpoint of a two-endpoint link is never read for `host`. */
    ghost predicate InBounds(host: Uuid) {
      forall l :: l in links ==> l.b.id != host
    }
  }

  /** Endpoint equality as the source has it: only the left mac is looked at. */
  predicate SameEndpoint(x: Endpoint, y: Endpoint) {
    x.id == y.id && (x.mac.Some? ==> y.mac == x.mac)
  }

  /** So equality in both directions is equality, and an end without a mac equals every end
      of the same host or switch. */
  lemma OneSidedEndpoints(x: Endpoint, y: Endpoint)
    ensures SameEndpoint(x, y) && SameEndpoint(y, x) <==> x == y
    ensures SameEndpoint(Endpoint(x.id, None), y) <==> x.id == y.id
    ensures x.mac.Some? && y.mac.None? ==> !SameEndpoint(x, y)
  {
  }

  // ---- Sets compared by hash ----

  function Elements<T(==)>(ys: seq<T>): set<T> {
    set y | y in ys
  }

  predicate HasHash<T>(xs: set<T>, hash: T -> nat, h: nat) {
    exists x :: x in xs && hash(x) == h
  }

  /** `unordered_set::insert` with a comparator that compares hashes. */
  function Insert<T>(xs: set<T>, hash: T -> nat, x: T): set<T> {
    if HasHash(xs, hash, hash(x)) then xs else xs + {x}
  }

  ghost predicate HashDistinct<T(!new)>(xs: set<T>, hash: T -> nat) {
    forall x, y :: x in xs && y in xs && hash(x) == hash(y) ==> x == y
  }

  function InsertAll<T>(xs: set<T>, hash: T -> nat, ys: seq<T>): set<T> {
    if ys == [] then xs
    else Insert(InsertAll(xs, hash, ys[..|ys| - 1]), hash, ys[|ys| - 1])
  }

  /** Inserting keeps one representative of every hash seen, so nothing is lost
      exactly when the names seen have distinct hashes. */
  lemma {:induction false} InsertedIsAllIffDistinct<T(!new)>(hash: T -> nat, ys: seq<T>)
    ensures InsertAll({}, hash, ys) <= Elements(ys)
    ensures HashDistinct(InsertAll({}, hash, ys), hash)
    ensures forall y :: y in ys ==> HasHash(InsertAll({}, hash, ys), hash, hash(y))
    ensures InsertAll({}, hash, ys) == Elements(ys) <==> HashDistinct(Elements(ys), hash)
  {
    if ys != [] {
      var init, last := ys[..|ys| - 1], ys[|ys| - 1];
      InsertedIsAllIffDistinct(hash, init);
      assert ys == init + [last];
    }
    var all := Elements(ys);
    if HashDistinct(all, hash) {
      forall y | y in all ensures y in InsertAll({}, hash, ys) {
        assert HasHash(InsertAll({}, hash, ys), hash, hash(y));
        var x :| x in InsertAll({}, hash, ys) && hash(x) == hash(y);
      }
    }
  }

  lemma {:induction false} InsertAllConcat<T>(xs: set<T>, hash: T -> nat, ys: seq<T>, zs: seq<T>)
    ensures InsertAll(xs, hash, ys + zs) == InsertAll(InsertAll(xs, hash, ys), hash, zs)
  {
    if zs == [] {
      assert ys + zs == ys;
    } else {
      InsertAllConcat(xs, hash, ys, zs[..|zs| - 1]);
      assert (ys + zs)[..|ys + zs| - 1] == ys + zs[..|zs| - 1];
    }
  }

  // ---- Queries ----

  /** The hosts that link `l` shows to the switch with id `s`, first test first. */
  function HostsOnLink(t: Topology, s: Uuid, l: TbLink): seq<Host> {
    var e := Endpoint(s, None);
    (if SameEndpoint(l.a, e) && l.b.id in t.hosts then [t.hosts[l.b.id]] else [])
    + (if SameEndpoint(l.b, e) && l.a.id in t.hosts then [t.hosts[l.a.id]] else [])
  }

  function HostsSeen(t: Topology, s: Uuid, links: seq<TbLink>): seq<Host> {
    if links == [] then []
    else HostsSeen(t, s, links[..|links| - 1]) + HostsOnLink(t, s, links[|links| - 1])
  }

  function HostHash(t: Topology): Host -> nat {
    (h: Host) => t.nameHash(h.name)
  }

  function ConnectedHosts(t: Topology, s: Uuid): set<Host> {
    InsertAll({}, HostHash(t), HostsSeen(t, s, t.links))
  }

  function SwitchesOnLink(t: Topology, h: Uuid, l: TbLink): seq<Switch> {
    if l.a.id == h && l.b.id in t.switches then [t.switches[l.b.id]] else []
  }

  function SwitchesSeen(t: Topology, h: Uuid, links: seq<TbLink>): seq<Switch> {
    if links == [] then []
    else SwitchesSeen(t, h, links[..|links| - 1]) + SwitchesOnLink(t, h, links[|links| - 1])
  }

  function SwitchHash(t: Topology): Switch -> nat {
    (s: Switch) => t.nameHash(s.name)
  }

  function ConnectedSwitches(t: Topology, h: Uuid): set<Switch>
    requires t.InBounds(h)
  {
    InsertAll({}, SwitchHash(t), SwitchesSeen(t, h, t.links))
  }

  /** A link joins host `h` and switch `s`, whichever end is which. */
  ghost predicate Joined(t: Topology, h: Uuid, s: Uuid) {
    exists l :: l in t.links && ((l.a.id == h && l.b.id == s) || (l.a.id == s && l.b.id == h))
  }

  ghost function HostsJoined(t: Topology, s: Uuid): set<Host> {
    set k | k in t.hosts && Joined(t, k, s) :: t.hosts[k]
  }

  ghost function SwitchesJoined(t: Topology, h: Uuid): set<Switch> {
    set k | k in t.switches && Joined(t, h, k) :: t.switches[k]
  }

  lemma {:induction false} HostsSeenOnLinks(t: Topology, s: Uuid, links: seq<TbLink>, h: Host)
    ensures h in HostsSeen(t, s, links) <==> exists l :: l in links && h in HostsOnLink(t, s, l)
  {
    if links != [] {
      var init := links[..|links| - 1];
      HostsSeenOnLinks(t, s, init, h);
      assert links == init + [links[|links| - 1]];
    }
  }

  lemma {:induction false} SwitchesSeenOnLinks(t: Topology, h: Uuid, links: seq<TbLink>, s: Switch)
    ensures s in SwitchesSeen(t, h, links) <==> exists l :: l in links && s in SwitchesOnLink(t, h, l)
  {
    if links != [] {
      var init := links[..|links| - 1];
      SwitchesSeenOnLinks(t, h, init, s);
      assert links == init + [links[|links| - 1]];
    }
  }

  /** `connectedHosts` answers with hosts joined to the switch only, and with all
      of them exactly when their names hash apart. */
  lemma ConnectedHostsExact(t: Topology, s: Uuid)
    requires t.WellBuilt() && s in t.switches
    ensures ConnectedHosts(t, s) <= HostsJoined(t, s)
    ensures ConnectedHosts(t, s) == HostsJoined(t, s) <==> HashDistinct(HostsJoined(t, s), HostHash(t))
  {
    var seen := HostsSeen(t, s, t.links);
    forall h: Host
      ensures h in seen <==> h in HostsJoined(t, s)
    {
      HostsSeenOnLinks(t, s, t.links, h);
      if h in HostsJoined(t, s) {
        var l :| l in t.links && ((l.a.id == h.id && l.b.id == s) || (l.a.id == s && l.b.id == h.id));
        assert t.WellPlaced(l);
        assert h in HostsOnLink(t, s, l);
      }
    }
    assert Elements(seen) == HostsJoined(t, s);
    InsertedIsAllIffDistinct(HostHash(t), seen);
  }

  lemma ConnectedSwitchesExact(t: Topology, h: Uuid)
    requires t.WellBuilt() && h in t.hosts
    ensures t.InBounds(h)
    ensures ConnectedSwitches(t, h) <= SwitchesJoined(t, h)
    ensures ConnectedSwitches(t, h) == SwitchesJoined(t, h)
            <==> HashDistinct(SwitchesJoined(t, h), SwitchHash(t))
  {
    assert t.InBounds(h) by {
      forall l | l in t.links ensures l.b.id != h { assert t.WellPlaced(l); }
    }
    var seen := SwitchesSeen(t, h, t.links);
    forall s: Switch
      ensures s in seen <==> s in SwitchesJoined(t, h)
    {
      SwitchesSeenOnLinks(t, h, t.links, s);
      if s in SwitchesJoined(t, h) {
        var l :| l in t.links && ((l.a.id == h && l.b.id == s.id) || (l.a.id == s.id && l.b.id == h));
        assert s in SwitchesOnLink(t, h, l);
      }
    }
    assert Elements(seen) == SwitchesJoined(t, h);
    InsertedIsAllIffDistinct(SwitchHash(t), seen);
  }

  /** The two queries are each other's inverse as long as no two hosts and no two
      switches have names that hash alike. */
  lemma ConnectionIsSymmetric(t: Topology, h: Host, s: Switch)
    requires t.WellBuilt() && h in t.hosts.Values && s in t.switches.Values
    requires HashDistinct(t.hosts.Values, HostHash(t)) && HashDistinct(t.switches.Values, SwitchHash(t))
    ensures t.InBounds(h.id)
    ensures h in ConnectedHosts(t, s.id) <==> s in ConnectedSwitches(t, h.id)
    ensures h in ConnectedHosts(t, s.id) <==> Joined(t, h.id, s.id)
  {
    ConnectedHostsExact(t, s.id);
    ConnectedSwitchesExact(t, h.id);
    assert HostsJoined(t, s.id) <= t.hosts.Values;
    assert SwitchesJoined(t, h.id) <= t.switches.Values;
  }
}

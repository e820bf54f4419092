/** The topology object of core/topo.cxx: `sw`, `host` and the two `connect`
    overloads update it, and two loops over its links answer the queries. */
module TestbedTopologies {
  import opened Wrappers
  import opened Units
  import opened Blueprints
  import opened Topologies

  class TestbedTopology {
    var hosts: map<Uuid, Host>
    var switches: map<Uuid, Switch>
    var links: seq<TbLink>
    const nameHash: string -> nat

    function View(): Topology
      reads this
    {
      Topology(hosts, switches, links, nameHash)
    }

    ghost predicate Valid()
      reads this
    {
      View().WellBuilt()
    }

    /** No host, switch or link of the topology uses `id`. */
    ghost predicate Unused(id: Uuid)
      reads this
    {
      id !in hosts && id !in switches && forall l :: l in links ==> l.a.id != id && l.b.id != id
    }

    constructor (nameHash: string -> nat)
      ensures Valid() && View() == Topology(map[], map[], [], nameHash)
    {
      this.nameHash := nameHash;
      hosts, switches, links := map[], map[], [];
    }

    /** `sw`: the id is freshly generated. */
    method AddSwitch(s: Switch)
      requires Valid() && Unused(s.id)
      modifies this
      ensures Valid() && View() == old(View()).(switches := old(switches)[s.id := s])
    {
      switches := switches[s.id := s];
    }

    /** `host`: the id is freshly generated. */
    method AddHost(h: Host)
      requires Valid() && Unused(h.id)
      modifies this
      ensures Valid() && View() == old(View()).(hosts := old(hosts)[h.id := h])
    {
      hosts := hosts[h.id := h];
    }

    /** The handles may belong to another topology: ids are universally unique, so
        all that is asked is that a switch's id is no host's. */
    method ConnectSwitches(a: Uuid, b: Uuid, capacity: Bandwidth)
      requires Valid() && a !in hosts && b !in hosts
      modifies this`links
      ensures Valid()
      ensures links == old(links) + [TbLink(Endpoint(a, None), Endpoint(b, None), capacity)]
    {
      links := links + [TbLink(Endpoint(a, None), Endpoint(b, None), capacity)];
    }

    method ConnectHost(h: Uuid, mac: string, s: Uuid, capacity: Bandwidth)
      requires Valid() && h !in switches && s !in hosts
      modifies this`links
      ensures Valid()
      ensures links == old(links) + [TbLink(Endpoint(h, Some(mac)), Endpoint(s, None), capacity)]
    {
      links := links + [TbLink(Endpoint(h, Some(mac)), Endpoint(s, None), capacity)];
    }

    method ConnectedHosts(s: Uuid) returns (hs: set<Host>)
      ensures hs == Topologies.ConnectedHosts(View(), s)
    {
      hide HostsSeen, HostsOnLink, Insert, InsertAll, SameEndpoint;
      hs := {};
      ghost var t := View();
      NoHostsSeen(t, s);
      for k := 0 to |links|
        invariant hs == HostsAfter(t, s, links[..k])
      {
        var l := links[k];
        OneMoreLink(t, s, links, k);
        if SameEndpoint(l.a, Endpoint(s, None)) {
          if l.b.id in hosts {
            hs := Insert(hs, HostHash(View()), hosts[l.b.id]);
          }
        }
        if SameEndpoint(l.b, Endpoint(s, None)) {
          if l.a.id in hosts {
            hs := Insert(hs, HostHash(View()), hosts[l.a.id]);
          }
        }
      }
      assert links[..|links|] == links;
    }

    /** Valid topologies never take the out-of-bounds branch for one of their hosts,
        so the second test of the source's loop only ever fails. */
    method ConnectedSwitches(h: Uuid) returns (ss: set<Switch>)
      requires View().InBounds(h)
      ensures ss == Topologies.ConnectedSwitches(View(), h)
    {
      ss := {};
      var t, hash := View(), SwitchHash(View());
      for k := 0 to |links|
        invariant ss == InsertAll({}, hash, SwitchesSeen(t, h, links[..k]))
      {
        var l := links[k];
        ghost var before := SwitchesSeen(t, h, links[..k]);
        ghost var seen := [];
        if l.a.id == h {
          if l.b.id in switches {
            ss := Insert(ss, hash, switches[l.b.id]);
            seen := [switches[l.b.id]];
          }
        }
        assert seen == SwitchesOnLink(t, h, l);
        InsertAllConcat({}, hash, before, seen);
        assert links[..k + 1] == links[..k] + [l];
      }
      assert links[..|links|] == links;
    }
  }

  /** The answer after some of the links. */
  ghost function HostsAfter(t: Topology, s: Uuid, links: seq<TbLink>): set<Host> {
    InsertAll({}, HostHash(t), HostsSeen(t, s, links))
  }

  lemma NoHostsSeen(t: Topology, s: Uuid)
    ensures HostsAfter(t, s, []) == {}
  {
  }

  /** What one round of the loop does to the answer. */
  lemma OneMoreLink(t: Topology, s: Uuid, links: seq<TbLink>, k: nat)
    requires k < |links|
    ensures var l, e, hash, before := links[k], Endpoint(s, None), HostHash(t), HostsAfter(t, s, links[..k]);
            var first :=
              if SameEndpoint(l.a, e) && l.b.id in t.hosts then Insert(before, hash, t.hosts[l.b.id]) else before;
            HostsAfter(t, s, links[..k + 1]) ==
            if SameEndpoint(l.b, e) && l.a.id in t.hosts then Insert(first, hash, t.hosts[l.a.id]) else first
  {
    hide SameEndpoint, Insert;
    assert links[..k + 1][..k] == links[..k];
    InsertAllConcat({}, HostHash(t), HostsSeen(t, s, links[..k]), HostsOnLink(t, s, links[k]));
    InsertTwo(HostsAfter(t, s, links[..k]), HostHash(t), HostsOnLink(t, s, links[k]));
  }

  lemma InsertTwo<T>(xs: set<T>, hash: T -> nat, ys: seq<T>)
    ensures |ys| == 0 ==> InsertAll(xs, hash, ys) == xs
    ensures |ys| == 1 ==> InsertAll(xs, hash, ys) == Insert(xs, hash, ys[0])
    ensures |ys| == 2 ==> InsertAll(xs, hash, ys) == Insert(Insert(xs, hash, ys[0]), hash, ys[1])
  {
    hide Insert;
    if |ys| == 2 {
      assert ys[..1] == [ys[0]];
    }
  }
}

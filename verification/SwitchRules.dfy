/** Which networks `embed` puts on which switches (core/embed.cxx:345-370), in terms of the
    links of the blueprint and of the testbed. */
module SwitchRules {
  import opened Wrappers
  import opened Blueprints
  import opened Topologies
  import opened Connections
  import opened Embeddings

  /** No two switches and no two hosts have names that hash alike. */
  ghost predicate NamesApart(tt: Topology) {
    HashDistinct(tt.hosts.Values, HostHash(tt)) && HashDistinct(tt.switches.Values, SwitchHash(tt))
  }

  lemma SwitchIdsByLinks(tt: Topology, h: Uuid)
    requires tt.WellBuilt() && h in tt.hosts && NamesApart(tt)
    ensures tt.InBounds(h)
    ensures forall s :: s in SwitchIds(tt, h) <==> s in tt.switches && Joined(tt, h, s)
  {
    hide Joined, ConnectedSwitches;
    ConnectedSwitchesExact(tt, h);
    assert SwitchesJoined(tt, h) <= tt.switches.Values;
    forall s ensures s in SwitchIds(tt, h) <==> s in tt.switches && Joined(tt, h, s) {
      if s in tt.switches && Joined(tt, h, s) {
        assert tt.switches[s] in SwitchesJoined(tt, h);
      }
    }
  }

  lemma HostIdsByLinks(tt: Topology, s: Uuid)
    requires tt.WellBuilt() && s in tt.switches && NamesApart(tt)
    ensures forall h :: h in HostIds(tt, s) <==> h in tt.hosts && Joined(tt, h, s)
  {
    hide Joined, ConnectedHosts;
    ConnectedHostsExact(tt, s);
    assert HostsJoined(tt, s) <= tt.hosts.Values;
    forall h ensures h in HostIds(tt, s) <==> h in tt.hosts && Joined(tt, h, s) {
      if h in tt.hosts && Joined(tt, h, s) {
        assert tt.hosts[h] in HostsJoined(tt, s);
      }
    }
  }

  /** Link `l` joins network `n` to a computer on host `k`, which a link of the testbed
      joins to switch `s`. */
  ghost predicate LandsOn(b: Blueprint, tt: Topology, v: EChart, l: Link, n: Uuid, k: Uuid, s: Uuid) {
    Joined(tt, k, s) && k in v.hmap
    && exists c, mac :: c in b.computers && Leads(l, n, Endpoint(c, mac)) && c in v.hmap[k].machines
  }

  ghost predicate LandsNear(b: Blueprint, tt: Topology, v: EChart, l: Link, n: Uuid, s: Uuid) {
    exists k :: LandsOn(b, tt, v, l, n, k, s)
  }

  /** Two different links of the blueprint do so, to the same host or to different ones. */
  ghost predicate TwoLinksLand(b: Blueprint, tt: Topology, v: EChart, n: Uuid, s: Uuid) {
    exists i, j :: 0 <= i < j < |b.links|
                   && LandsNear(b, tt, v, b.links[i], n, s) && LandsNear(b, tt, v, b.links[j], n, s)
  }

  lemma ReachIsLanding(b: Blueprint, tt: Topology, v: EChart, n: Uuid, s: Uuid, row: seq<Attachment>, at: seq<nat>,
                       i: nat)
    requires b.Valid() && tt.WellBuilt() && NamesApart(tt) && v.hmap.Keys <= tt.hosts.Keys && s in tt.switches
    requires FollowsLinks(b, n, row, at) && i < |row|
    ensures LinkReaches(tt, v, row, i, s) <==> LandsNear(b, tt, v, b.links[at[i]], n, s)
  {
    hide Joined, SwitchIds, Leads, NamesApart;
    var l := b.links[at[i]];
    assert LeadsTo(b, l, n, row[i]);
    var c :| c in b.computers && b.computers[c] == row[i].computer && Leads(l, n, Endpoint(c, Some(row[i].mac)));
    OneFarEnd(l, n, Endpoint(c, Some(row[i].mac)));
    forall k | k in v.hmap ensures tt.InBounds(k) && (s in SwitchIds(tt, k) <==> Joined(tt, k, s)) {
      SwitchIdsByLinks(tt, k);
    }
    if LinkReaches(tt, v, row, i, s) {
      var k :| v.Holds(k, c) && tt.InBounds(k) && s in SwitchIds(tt, k);
      assert LandsOn(b, tt, v, l, n, k, s);
    }
    if k :| LandsOn(b, tt, v, l, n, k, s) {
      assert v.Holds(k, c);
    }
  }

  lemma TwoLinksByLinks(b: Blueprint, tt: Topology, v: EChart, n: Uuid, s: Uuid)
    requires b.Valid() && tt.WellBuilt() && NamesApart(tt) && v.hmap.Keys <= tt.hosts.Keys && s in tt.switches
    requires ConnectedComputers(b, n).Ok?
    ensures TwoLinksReach(b, tt, v, n, s) <==> TwoLinksLand(b, tt, v, n, s)
  {
    RowFollowsLinks(b, n);
    var row := Row(b, n);
    var at :| FollowsLinks(b, n, row, at);
    hide FollowsLinks, LinkReaches, LandsNear, ConnectedComputers, NamesApart;
    forall i | 0 <= i < |row| ensures at[i] < |b.links|
                              ensures LinkReaches(tt, v, row, i, s) <==> LandsNear(b, tt, v, b.links[at[i]], n, s) {
      PlacesInRange(b, n, row, at);
      ReachIsLanding(b, tt, v, n, s, row, at, i);
    }
    PlacesInRange(b, n, row, at);
    forall j | 0 <= j < |b.links| && LandsNear(b, tt, v, b.links[j], n, s) ensures j in at {
      LandingIsListed(b, tt, v, n, s, row, at, j);
    }
    SameTwo(b, tt, v, n, s, row, at);
  }

  lemma PlacesInRange(b: Blueprint, n: Uuid, row: seq<Attachment>, at: seq<nat>)
    requires FollowsLinks(b, n, row, at)
    ensures |at| == |row| && forall i :: 0 <= i < |at| ==> at[i] < |b.links|
    ensures forall i, j :: 0 <= i < j < |at| ==> at[i] < at[j]
  {
  }

  lemma LandingIsListed(b: Blueprint, tt: Topology, v: EChart, n: Uuid, s: Uuid, row: seq<Attachment>, at: seq<nat>,
                        j: nat)
    requires FollowsLinks(b, n, row, at) && j < |b.links| && LandsNear(b, tt, v, b.links[j], n, s)
    ensures j in at
  {
    hide Leads, Joined;
    var k :| LandsOn(b, tt, v, b.links[j], n, k, s);
    var c, mac :| c in b.computers && Leads(b.links[j], n, Endpoint(c, mac)) && c in v.hmap[k].machines;
    assert Endpoint(c, mac).id in b.computers;
  }

  lemma SameTwo(b: Blueprint, tt: Topology, v: EChart, n: Uuid, s: Uuid, row: seq<Attachment>, at: seq<nat>)
    requires row == Row(b, n) && |at| == |row| && forall i, j :: 0 <= i < j < |at| ==> at[i] < at[j]
    requires forall i :: 0 <= i < |at| ==> at[i] < |b.links|
    requires forall i :: 0 <= i < |row| ==>
               (LinkReaches(tt, v, row, i, s) <==> LandsNear(b, tt, v, b.links[at[i]], n, s))
    requires forall j :: 0 <= j < |b.links| && LandsNear(b, tt, v, b.links[j], n, s) ==> j in at
    ensures TwoLinksReach(b, tt, v, n, s) <==> TwoLinksLand(b, tt, v, n, s)
  {
    hide LinkReaches, LandsNear, Row;
    if TwoLinksReach(b, tt, v, n, s) {
      var i, j :| 0 <= i < j < |row| && LinkReaches(tt, v, row, i, s) && LinkReaches(tt, v, row, j, s);
      assert LandsNear(b, tt, v, b.links[at[i]], n, s) && LandsNear(b, tt, v, b.links[at[j]], n, s);
    }
    if TwoLinksLand(b, tt, v, n, s) {
      var x, y :| 0 <= x < y < |b.links|
                  && LandsNear(b, tt, v, b.links[x], n, s) && LandsNear(b, tt, v, b.links[y], n, s);
      var i :| 0 <= i < |at| && at[i] == x;
      var j :| 0 <= j < |at| && at[j] == y;
      assert i < j;
    }
  }

  /** In a returned chart a network is on a switch exactly when it was there before, or two
      different links join it to computers on hosts that the testbed joins to the switch. */
  lemma SwitchRuleByLinks(b: Blueprint, e: EChart, tt: Topology, v: EChart, s: Uuid, n: Uuid)
    requires b.Valid() && Embeddable(e, tt) && Unplaced(b, e) && EmbedRun(b, e, tt, Ok(v))
    requires tt.WellBuilt() && NamesApart(tt) && e.hmap.Keys <= tt.hosts.Keys && s in e.smap && s in tt.switches
    ensures s in v.smap
    ensures n in v.smap[s].networks <==>
            n in e.smap[s].networks || (n in b.networks && TwoLinksLand(b, tt, v, n, s))
    ensures n in v.smap[s].networks ==>
              v.smap[s].networks[n] == if n in e.smap[s].networks then e.smap[s].networks[n] else b.networks[n]
  {
    EmbedPlacesOnce(b, e, tt, v);
    SwitchRule(b, e, tt, v, s, n);
    ReturnedIsReadable(b, e, tt, v);
    assert v.hmap.Keys == e.hmap.Keys;
    hide EmbedRun, Embeddable, TwoLinksReach, TwoLinksLand, NamesApart, Topology.WellBuilt;
    if n in b.networks {
      TwoLinksByLinks(b, tt, v, n, s);
    }
  }

  lemma ReturnedIsReadable(b: Blueprint, e: EChart, tt: Topology, v: EChart)
    requires Embeddable(e, tt) && EmbedRun(b, e, tt, Ok(v))
    ensures LinksReadable(b)
  {
    hide ConnectedComputers, Placed;
  }
}

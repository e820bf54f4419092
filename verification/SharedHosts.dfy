/** What `embed` does when its switches share a host (core/embed.cxx:305-343). */
module SharedHosts {
  import opened Blueprints
  import opened Topologies
  import opened Wrappers
  import opened Loads
  import opened WorkLists
  import opened Placements
  import opened Embeddings
  import opened Connections
  import opened SwitchRules

  lemma PackEither(he: HostEmbedding, c: Computer, d: Computer)
    requires c.id != d.id && NewTo(he, [d, c])
    requires !Overloaded(he.Add(c)) && !Overloaded(he.Add(d)) && Overloaded(he.Add(c).Add(d))
    ensures Pack(he, [d, c]) == Pack(he.Add(c), [d]) == Packing(he.Add(c), [d])
    ensures Pack(he, [d]) == Packing(he.Add(d), [])
    ensures c.id !in he.Add(d).machines
  {
    hide Overloaded;
    assert c in [d, c] && d in [d, c];
    AddThenRemove(he.Add(c), d);
    assert [d, c][..1] == [d];
  }

  lemma {:induction false} PrefixLegal(s: State, picks: seq<Uuid>, i: nat)
    requires LegalRun(s, picks) && i <= |picks|
    ensures LegalRun(s, picks[..i])
    decreases |picks|
  {
    hide FreeNorm, Overloaded, Pack, Run;
    if i == |picks| {
      assert picks[..i] == picks;
    } else {
      var init := picks[..|picks| - 1];
      PrefixLegal(s, init, i);
      assert init[..i] == picks[..i];
    }
  }

  /** The i-th step of a run. */
  lemma StepOf(s: State, picks: seq<Uuid>, i: nat)
    requires LegalRun(s, picks) && i < |picks|
    ensures LegalRun(s, picks[..i]) && Run(s, picks[..i]).CanStep(picks[i]) && LegalRun(s, picks[..i + 1])
    ensures Run(s, picks[..i + 1]) == Run(s, picks[..i]).Next(picks[i])
  {
    hide FreeNorm, Overloaded, Pack;
    PrefixLegal(s, picks, i + 1);
    var upTo := picks[..i + 1];
    assert upTo[..|upTo| - 1] == picks[..i] && upTo[|upTo| - 1] == picks[i];
  }

  /** A run cannot stop before the machine does, and has only one way on when the switch
      whose turn it is has just host `k`. */
  lemma OnlyStep(s0: State, picks: seq<Uuid>, i: nat, s: State, k: Uuid, he: HostEmbedding) returns (t: State)
    requires LegalRun(s0, picks) && !Run(s0, picks).Running()
    requires i <= |picks| && LegalRun(s0, picks[..i]) && Run(s0, picks[..i]) == s
    requires s.Running() && s.turns[s.turn] == map[k := he]
    ensures i < |picks| && LegalRun(s0, picks[..i + 1]) && Run(s0, picks[..i + 1]) == t
    ensures var p := Pack(he, s.work);
            && t.work == p.rest && t.hosts == s.hosts[k := p.host] && t.turns == s.turns[s.turn := map[k := p.host]]
            && t.turn == if |p.rest| == |s.work| then s.turn + 1 else s.turn
  {
    hide FreeNorm, Overloaded, Pack, Run, LegalRun;
    assert picks[..|picks|] == picks;
    assert i < |picks|;
    StepOf(s0, picks, i);
    assert picks[i] == k;
    t := s.Next(k);
    assert s.turns[s.turn][k := Pack(he, s.work).host] == map[k := Pack(he, s.work).host];
  }

  /** Where such a run ends: with one switch `d` is left over; with more, the second
      switch puts `d` on its own copy of the host. */
  lemma SharedRun(s0: State, picks: seq<Uuid>, k: Uuid, he: HostEmbedding, c: Computer, d: Computer)
    requires LegalRun(s0, picks) && !Run(s0, picks).Running()
    requires s0.work == [d, c] && s0.turn == 0 && forall i :: 0 <= i < |s0.turns| ==> s0.turns[i] == map[k := he]
    requires Pack(he, [d, c]) == Pack(he.Add(c), [d]) == Packing(he.Add(c), [d])
    requires Pack(he, [d]) == Packing(he.Add(d), [])
    ensures var final := Run(s0, picks);
            if |s0.turns| < 2 then final.work != [] else final.work == [] && final.hosts == s0.hosts[k := he.Add(d)]
  {
    hide Pack, Run, LegalRun, HostEmbedding.Add;
    NoSteps(s0);
    assert picks[..0] == [] && picks[..|picks|] == picks;
    if |s0.turns| > 0 {
      var s1 := OnlyStep(s0, picks, 0, s0, k, he);
      var s2 := OnlyStep(s0, picks, 1, s1, k, he.Add(c));
      if |s0.turns| > 1 {
        var s3 := OnlyStep(s0, picks, 2, s2, k, he);
        StopsHere(s0, picks, 3);
      } else {
        StopsHere(s0, picks, 2);
      }
    } else {
      StopsHere(s0, picks, 0);
    }
  }

  lemma StopsHere(s0: State, picks: seq<Uuid>, i: nat)
    requires LegalRun(s0, picks) && i <= |picks| && LegalRun(s0, picks[..i]) && !Run(s0, picks[..i]).Running()
    ensures i == |picks|
  {
    hide FreeNorm, Pack, Run, LegalRun;
    if i < |picks| {
      StepOf(s0, picks, i);
    }
  }

  lemma AppendOne(row: seq<Attachment>)
    requires |row| == 1
    ensures AppendNew([], row) == [row[0].computer]
  {
  }

  lemma AppendTwo(row: seq<Attachment>)
    requires |row| == 2 && row[0].computer.id != row[1].computer.id
    ensures var r := AppendNew([], row); |r| == 2 && r[0] == row[0].computer && r[1] == row[1].computer
  {
    AppendOne(row[..1]);
  }

  lemma ReverseTwo<T>(x: T, y: T)
    ensures Reverse([x, y]) == [y, x]
  {
    ReverseAt([x, y]);
  }

  lemma OnlyNetworkWork(b: Blueprint, n: Uuid, work: seq<Computer>)
    requires b.networks.Keys == {n} && |Row(b, n)| == 2 && Row(b, n)[0].computer.id != Row(b, n)[1].computer.id
    requires IsWorkList(b, work)
    ensures work == [Row(b, n)[1].computer, Row(b, n)[0].computer]
  {
    hide Row, AppendNew, Reverse;
    var order :| LargestFirst(b, order) && work == Reverse(Merged(b, order));
    EnumeratedSize(order, {n});
    assert order[0] in order;
    assert order[..0] == [] && Merged(b, []) == [];
    AppendTwo(Row(b, n));
    assert AppendNew([], Row(b, n)) == [Row(b, n)[0].computer, Row(b, n)[1].computer];
    ReverseTwo(Row(b, n)[0].computer, Row(b, n)[1].computer);
  }

  /** A network links computer `c` and then `d`. */
  ghost predicate LinksTwo(b: Blueprint, n: Uuid, c: Computer, d: Computer) {
    && b.networks.Keys == {n} && ConnectedComputers(b, n).Ok? && |Row(b, n)| == 2
    && Row(b, n)[0].computer == c && Row(b, n)[1].computer == d && c.id != d.id
  }

  /** The host has room for either of the computers but not for both. */
  ghost predicate RoomForOne(he: HostEmbedding, c: Computer, d: Computer) {
    && WithinHost(he.host, he.machines[c.id := c])
    && WithinHost(he.host, he.machines[d.id := d])
    && !WithinHost(he.host, he.machines[c.id := c][d.id := d])
  }

  lemma RoomIsLoad(he: HostEmbedding, c: Computer, d: Computer)
    ensures Overloaded(he.Add(c)) <==> !WithinHost(he.host, he.machines[c.id := c])
    ensures Overloaded(he.Add(c).Add(d)) <==> !WithinHost(he.host, he.machines[c.id := c][d.id := d])
  {
    hide Overloaded, WithinHost;
    OverloadedIff(he.Add(c));
    OverloadedIff(he.Add(c).Add(d));
  }

  lemma WhereItEnds(b: Blueprint, e: EChart, tt: Topology, n: Uuid, k: Uuid, c: Computer, d: Computer, s0: State,
                    final: State)
    requires b.Valid() && Embeddable(e, tt) && Unplaced(b, e) && LinksTwo(b, n, c, d)
    requires k in e.hmap && (forall s :: s in e.smap ==> HostIds(tt, s) == {k}) && RoomForOne(e.hmap[k], c, d)
    requires Placed(b, e, tt, s0, final)
    ensures if |e.smap| < 2 then final.work != [] else final.work == [] && final.hosts == e.hmap[k := e.hmap[k].Add(d)]
  {
    var he := e.hmap[k];
    var picks := PlacedOn(b, e, tt, k, s0, final);
    hide *;
    OnlyNetworkWork(b, n, s0.work);
    TwoAreNew(b, e, n, c, d, k);
    RoomForEither(he, c, d);
    PackEither(he, c, d);
    RowOf(b, n, c, d);
    SharedRun(s0, picks, k, he, c, d);
  }

  lemma RoomForEither(he: HostEmbedding, c: Computer, d: Computer)
    requires RoomForOne(he, c, d)
    ensures !Overloaded(he.Add(c)) && !Overloaded(he.Add(d)) && Overloaded(he.Add(c).Add(d))
  {
    hide Overloaded, WithinHost;
    RoomIsLoad(he, c, d);
    RoomIsLoad(he, d, c);
  }

  lemma RowOf(b: Blueprint, n: Uuid, c: Computer, d: Computer)
    requires LinksTwo(b, n, c, d)
    ensures b.networks.Keys == {n} && |Row(b, n)| == 2 && Row(b, n)[0].computer == c && Row(b, n)[1].computer == d
    ensures c.id != d.id
  {
  }

  /** The run behind a placement, and the copies its turns start with. */
  lemma PlacedOn(b: Blueprint, e: EChart, tt: Topology, k: Uuid, s0: State, final: State) returns (picks: seq<Uuid>)
    requires k in e.hmap && (forall s :: s in e.smap ==> HostIds(tt, s) == {k}) && Placed(b, e, tt, s0, final)
    ensures LegalRun(s0, picks) && Run(s0, picks) == final && !final.Running()
    ensures IsWorkList(b, s0.work) && s0.hosts == e.hmap && s0.turn == 0 && |s0.turns| == |e.smap|
    ensures forall i :: 0 <= i < |s0.turns| ==> s0.turns[i] == map[k := e.hmap[k]]
  {
    hide Run, LegalRun, IsWorkList, AverageFree, HostIds, FullestFirst;
    var order: seq<Uuid>;
    order, picks :|
      && FullestFirst(e, tt, order) && IsWorkList(b, s0.work) && s0 == Start(e, tt, order, s0.work)
      && LegalRun(s0, picks) && Run(s0, picks) == final && !final.Running();
    OrderOf(e, tt, order);
    EnumeratedSize(order, e.smap.Keys);
    forall i | 0 <= i < |s0.turns| ensures s0.turns[i] == map[k := e.hmap[k]] {
      assert order[i] in e.smap;
    }
  }

  lemma OrderOf(e: EChart, tt: Topology, order: seq<Uuid>)
    requires FullestFirst(e, tt, order)
    ensures Enumerates(order, e.smap.Keys)
  {
  }

  lemma TwoAreNew(b: Blueprint, e: EChart, n: Uuid, c: Computer, d: Computer, k: Uuid)
    requires b.Valid() && Unplaced(b, e) && LinksTwo(b, n, c, d) && k in e.hmap
    ensures c.id in b.computers && d.id in b.computers && NewTo(e.hmap[k], [d, c])
    ensures forall x :: Linked(b, x) <==> x == c.id || x == d.id
  {
    RowComputers(b, n, 0);
    RowComputers(b, n, 1);
    hide Row;
    forall x ensures Linked(b, x) <==> x == c.id || x == d.id {
      if x == c.id || x == d.id {
        assert LinkedTo(b, x, n);
      }
    }
  }

  /** On a chart whose switches all have the one host `k`, a blueprint of two linked
      computers for which `k` has room one by one fails in different ways: one switch runs
      out of room, but with two the first computer is packed, lost when the second switch
      writes back its own copy of the host, and then not found. */
  lemma SharedHostLosesComputer(b: Blueprint, e: EChart, tt: Topology, n: Uuid, k: Uuid, c: Computer, d: Computer,
                                r: Result<EChart, EmbedError>)
    requires b.Valid() && Embeddable(e, tt) && Unplaced(b, e) && LinksTwo(b, n, c, d)
    requires k in e.hmap && (forall s :: s in e.smap ==> HostIds(tt, s) == {k}) && RoomForOne(e.hmap[k], c, d)
    requires EmbedRun(b, e, tt, r)
    ensures r == Err(if |e.smap| < 2 then EmbeddingFailed else NotInChart(c.id))
  {
    hide Placed, Overloaded, HostIds, Unplaced, Row, Linked, HomesInBounds, SwitchCount, ConnectedComputers;
    assert LinksReadable(b);
    var s0, final :| Placed(b, e, tt, s0, final) && Outcome(b, tt, e, final, r);
    WhereItEnds(b, e, tt, n, k, c, d, s0, final);
    TwoAreNew(b, e, n, c, d, k);
    if |e.smap| >= 2 {
      var v := EChart(final.hosts, e.smap);
      forall j ensures !v.Holds(j, c.id) {
        NotYetHeld(b, e, j, c.id);
      }
      assert v.Holds(k, d.id);
      LostMeansNotFound(b, tt, v, n, c, d, r);
    }
  }

  lemma NotYetHeld(b: Blueprint, e: EChart, j: Uuid, x: Uuid)
    requires Unplaced(b, e) && x in b.computers
    ensures !e.Holds(j, x)
  {
  }

  lemma LostMeansNotFound(b: Blueprint, tt: Topology, v: EChart, n: Uuid, c: Computer, d: Computer,
                          r: Result<EChart, EmbedError>)
    requires LinksTwo(b, n, c, d) && (forall x :: Linked(b, x) <==> x == c.id || x == d.id)
    requires (forall j :: !v.Holds(j, c.id)) && exists j :: v.Holds(j, d.id)
    requires (forall j :: j in v.hmap ==> tt.InBounds(j)) && NetworksPlaced(b, tt, v, r)
    ensures r == Err(NotInChart(c.id))
  {
    hide Linked, SwitchCount, Row, OnSwitch, WithNetworks;
    forall homes ensures !Homes(v, Row(b, n), homes) {
      if Homes(v, Row(b, n), homes) {
        FirstHome(v, Row(b, n), homes);
      }
    }
  }

  lemma FirstHome(v: EChart, row: seq<Attachment>, homes: seq<Uuid>)
    requires Homes(v, row, homes) && row != []
    ensures v.Holds(homes[0], row[0].computer.id)
  {
  }

  // ---- One switch, one host, room for both ----

  lemma PackBoth(he: HostEmbedding, c: Computer, d: Computer)
    requires c.id != d.id && NewTo(he, [d, c]) && !Overloaded(he.Add(c).Add(d))
    ensures Pack(he, [d, c]) == Packing(he.Add(c).Add(d), [])
  {
    hide Overloaded;
    assert c in [d, c] && d in [d, c];
    AddThenRemove(he.Add(c), d);
    assert [d, c][..1] == [d] && [d][..0] == [];
    assert Pack(he.Add(c), [d]) == Pack(he.Add(c).Add(d), []);
  }

  lemma BothRun(s0: State, picks: seq<Uuid>, k: Uuid, he: HostEmbedding, c: Computer, d: Computer)
    requires LegalRun(s0, picks) && !Run(s0, picks).Running()
    requires s0.work == [d, c] && s0.turn == 0 && |s0.turns| == 1 && s0.turns[0] == map[k := he]
    requires Pack(he, [d, c]) == Packing(he.Add(c).Add(d), [])
    ensures Run(s0, picks).work == [] && Run(s0, picks).hosts == s0.hosts[k := he.Add(c).Add(d)]
  {
    hide Pack, Run, LegalRun, HostEmbedding.Add;
    NoSteps(s0);
    assert picks[..0] == [] && picks[..|picks|] == picks;
    var s1 := OnlyStep(s0, picks, 0, s0, k, he);
    StopsHere(s0, picks, 1);
  }

  lemma BothPlaced(b: Blueprint, e: EChart, tt: Topology, n: Uuid, k: Uuid, c: Computer, d: Computer, s0: State,
                   final: State)
    requires b.Valid() && Embeddable(e, tt) && Unplaced(b, e) && LinksTwo(b, n, c, d)
    requires k in e.hmap && |e.smap| == 1 && (forall s :: s in e.smap ==> HostIds(tt, s) == {k})
    requires WithinHost(e.hmap[k].host, e.hmap[k].machines[c.id := c][d.id := d])
    requires Placed(b, e, tt, s0, final)
    ensures final.work == [] && final.hosts == e.hmap[k := e.hmap[k].Add(c).Add(d)]
  {
    var he := e.hmap[k];
    var picks := PlacedOn(b, e, tt, k, s0, final);
    hide *;
    OnlyNetworkWork(b, n, s0.work);
    TwoAreNew(b, e, n, c, d, k);
    RowOf(b, n, c, d);
    RoomIsLoad(he, c, d);
    PackBoth(he, c, d);
    BothRun(s0, picks, k, he, c, d);
  }

  /** The testbed has one switch and one host next to it, with room for both computers. */
  ghost predicate OneSwitchRoomForBoth(e: EChart, tt: Topology, s: Uuid, k: Uuid, c: Computer, d: Computer) {
    && tt.WellBuilt() && NamesApart(tt) && e.hmap.Keys <= tt.hosts.Keys && s in tt.switches && KnowsSwitches(e, tt)
    && e.smap.Keys == {s} && HostIds(tt, s) == {k} && k in e.hmap
    && WithinHost(e.hmap[k].host, e.hmap[k].machines[c.id := c][d.id := d])
  }

  /** Then every call returns the chart with both computers on the host and the network
      that links them on the switch. */
  lemma OneHostTakesBoth(b: Blueprint, e: EChart, tt: Topology, n: Uuid, s: Uuid, k: Uuid, c: Computer, d: Computer,
                         r: Result<EChart, EmbedError>)
    requires b.Valid() && Embeddable(e, tt) && Unplaced(b, e) && LinksTwo(b, n, c, d)
    requires OneSwitchRoomForBoth(e, tt, s, k, c, d) && EmbedRun(b, e, tt, r)
    ensures r.Ok?
    ensures r.value.hmap == e.hmap[k := HostEmbedding(e.hmap[k].host, e.hmap[k].machines[c.id := c][d.id := d])]
    ensures s in r.value.smap && n in r.value.smap[s].networks
  {
    var s0, final := BothOutcome(b, e, tt, n, s, k, c, d, r);
    if r.Err? {
      OnlyRoomStopsEmbed(b, e, tt, r);
      assert false;
    }
    hide *;
    SwitchRuleByLinks(b, e, tt, r.value, s, n);
    BothLand(b, e, tt, r.value, n, s, k, c, d);
  }

  lemma BothOutcome(b: Blueprint, e: EChart, tt: Topology, n: Uuid, s: Uuid, k: Uuid, c: Computer, d: Computer,
                    r: Result<EChart, EmbedError>) returns (s0: State, final: State)
    requires b.Valid() && Embeddable(e, tt) && Unplaced(b, e) && LinksTwo(b, n, c, d)
    requires OneSwitchRoomForBoth(e, tt, s, k, c, d) && EmbedRun(b, e, tt, r)
    ensures LinksReadable(b) && SingleHomedIn(e, tt) && KnowsSwitches(e, tt)
    ensures r != Err(EmbeddingFailed)
    ensures r.Ok? ==>
              r.value.hmap == e.hmap[k := HostEmbedding(e.hmap[k].host, e.hmap[k].machines[c.id := c][d.id := d])]
  {
    ReadableAndApart(b, e, tt, n, s, k, c, d);
    s0, final := OutcomeOf(b, e, tt, r);
    hide *;
    BothPlaced(b, e, tt, n, k, c, d, s0, final);
  }

  lemma ReadableAndApart(b: Blueprint, e: EChart, tt: Topology, n: Uuid, s: Uuid, k: Uuid, c: Computer, d: Computer)
    requires LinksTwo(b, n, c, d) && OneSwitchRoomForBoth(e, tt, s, k, c, d)
    ensures LinksReadable(b) && SingleHomedIn(e, tt) && KnowsSwitches(e, tt) && |e.smap| == 1
    ensures k in e.hmap && (forall t :: t in e.smap ==> HostIds(tt, t) == {k})
    ensures WithinHost(e.hmap[k].host, e.hmap[k].machines[c.id := c][d.id := d])
  {
    hide HostIds, ConnectedComputers, KnowsSwitches, NamesApart, WithinHost;
    assert |e.smap| == |e.smap.Keys|;
  }

  lemma OutcomeOf(b: Blueprint, e: EChart, tt: Topology, r: Result<EChart, EmbedError>)
      returns (s0: State, final: State)
    requires Embeddable(e, tt) && LinksReadable(b) && EmbedRun(b, e, tt, r)
    ensures Placed(b, e, tt, s0, final) && (r == Err(EmbeddingFailed) <==> final.work != [])
    ensures r.Ok? ==> r.value.hmap == final.hosts
  {
    hide Placed, Homes, SwitchCount, LinksReadable;
    s0, final :| Placed(b, e, tt, s0, final) && Outcome(b, tt, e, final, r);
  }

  lemma BothLand(b: Blueprint, e: EChart, tt: Topology, v: EChart, n: Uuid, s: Uuid, k: Uuid, c: Computer, d: Computer)
    requires b.Valid() && LinksTwo(b, n, c, d) && OneSwitchRoomForBoth(e, tt, s, k, c, d)
    requires v.hmap == e.hmap[k := HostEmbedding(e.hmap[k].host, e.hmap[k].machines[c.id := c][d.id := d])]
    ensures n in b.networks && TwoLinksLand(b, tt, v, n, s)
  {
    hide Joined, NamesApart, WithinHost, HostIds, KnowsSwitches, ConnectedComputers, Leads;
    RowFollowsLinks(b, n);
    var row := ConnectedComputers(b, n).value;
    assert row == Row(b, n);
    var at :| FollowsLinks(b, n, row, at);
    HostIdsByLinks(tt, s);
    assert k in HostIds(tt, s);
    forall i | 0 <= i < 2 ensures LandsNear(b, tt, v, b.links[at[i]], n, s) {
      assert LeadsTo(b, b.links[at[i]], n, row[i]);
      assert LandsOn(b, tt, v, b.links[at[i]], n, k, s);
    }
  }
}

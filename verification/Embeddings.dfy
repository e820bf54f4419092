/** What `embed` and `unembed` may return (core/embed.cxx:258-395), as relations
    over charts, and what holds of every such result. */
module Embeddings {
  import opened Wrappers
  import opened Blueprints
  import opened Topologies
  import opened Loads
  import opened WorkLists
  import opened Placements

  datatype SwitchEmbedding = SwitchEmbedding(sw: Switch, networks: map<Uuid, Network>)

  datatype EChart = EChart(hmap: map<Uuid, HostEmbedding>, smap: map<Uuid, SwitchEmbedding>) {

    /** The chart's maps are keyed by the ids of their hosts and switches. */
    ghost predicate Keyed() {
      && (forall k :: k in hmap ==> hmap[k].host.id == k)
      && (forall s :: s in smap ==> smap[s].sw.id == s)
    }

    ghost predicate Holds(k: Uuid, c: Uuid) { k in hmap && c in hmap[k].machines }
  }

  /** The chart a topology starts with. */
  function Blank(tt: Topology): EChart {
    EChart(
      map k | k in tt.hosts :: HostEmbedding(tt.hosts[k], map[]),
      map s | s in tt.switches :: SwitchEmbedding(tt.switches[s], map[]))
  }

  datatype EmbedError =
    | BadLink(link: LinkError)
    | EmbeddingFailed
    | NotInChart(computer: Uuid)
    | UnknownSwitch(switch: Uuid)

  function HostIds(tt: Topology, s: Uuid): set<Uuid> {
    IdsOf(ConnectedHosts(tt, s))
  }

  function SwitchIds(tt: Topology, h: Uuid): set<Uuid>
    requires tt.InBounds(h)
  {
    set s | s in ConnectedSwitches(tt, h) :: s.id
  }

  /** Hosts found next to one switch have different ids. */
  ghost predicate HostsApart(tt: Topology, s: Uuid) {
    forall g, h :: g in ConnectedHosts(tt, s) && h in ConnectedHosts(tt, s) && g.id == h.id ==> g == h
  }

  /** TakenOff these the source dereferences past the end of a map, a list or a link:
      every switch of the chart has a host, every such host is in the chart, and no
      host of the chart is the second end of a link. Charts and topologies are keyed
      by ids, so hosts that differ have different ids. */
  ghost predicate Embeddable(e: EChart, tt: Topology) {
    && e.Keyed()
    && (forall s :: s in e.smap ==>
          HostIds(tt, s) != {} && HostIds(tt, s) <= e.hmap.Keys && HostsApart(tt, s))
    && (forall k :: k in e.hmap ==> tt.InBounds(k))
  }

  // ---- Switch order and placement ----

  function IdsOf(hosts: set<Host>): set<Uuid> {
    set h | h in hosts :: h.id
  }

  function Copies(e: EChart, ids: set<Uuid>): map<Uuid, HostEmbedding> {
    map k | k in ids && k in e.hmap :: e.hmap[k]
  }

  /** The chart's entries for the hosts of switch `s`, copied before placement starts. */
  function Snapshot(e: EChart, tt: Topology, s: Uuid): map<Uuid, HostEmbedding> {
    Copies(e, HostIds(tt, s))
  }

  ghost function FreeNorms(hosts: map<Uuid, HostEmbedding>): map<Uuid, real> {
    map k | k in hosts :: FreeNorm(hosts[k])
  }

  ghost function AverageFree(hosts: map<Uuid, HostEmbedding>): real
    requires hosts != map[]
  {
    RealSum(FreeNorms(hosts)) / |hosts| as real
  }

  lemma SnapshotNotEmpty(e: EChart, tt: Topology, s: Uuid)
    requires Embeddable(e, tt) && s in e.smap
    ensures Snapshot(e, tt, s) != map[]
    ensures Snapshot(e, tt, s).Keys == HostIds(tt, s)
  {
    var k :| k in HostIds(tt, s);
    assert k in Snapshot(e, tt, s);
  }

  /** The chart's switches, those with the least free hosts on average first. */
  ghost predicate FullestFirst(e: EChart, tt: Topology, order: seq<Uuid>) {
    && Enumerates(order, e.smap.Keys)
    && (forall i :: 0 <= i < |order| ==> Snapshot(e, tt, order[i]) != map[])
    && forall i, j :: 0 <= i < j < |order| ==>
         AverageFree(Snapshot(e, tt, order[i])) <= AverageFree(Snapshot(e, tt, order[j]))
  }

  ghost function Start(e: EChart, tt: Topology, order: seq<Uuid>, work: seq<Computer>): State {
    State(e.hmap, work, seq(|order|, i requires 0 <= i < |order| => Snapshot(e, tt, order[i])), 0, map[], map[])
  }

  /** `final` is where the placement loops may stop. */
  ghost predicate Placed(b: Blueprint, e: EChart, tt: Topology, s0: State, final: State) {
    exists order, picks ::
      && FullestFirst(e, tt, order) && IsWorkList(b, s0.work) && s0 == Start(e, tt, order, s0.work)
      && LegalRun(s0, picks) && Run(s0, picks) == final && !final.Running()
  }

  // ---- Networks on switches ----

  /** `homes[i]` is a host that the chart shows for the i-th computer of `row`. */
  ghost predicate Homes(e: EChart, row: seq<Attachment>, homes: seq<Uuid>) {
    |homes| == |row| && forall i :: 0 <= i < |row| ==> e.Holds(homes[i], row[i].computer.id)
  }

  /** How many of the homes are attached to switch `s`: one for every link. */
  ghost function SwitchCount(tt: Topology, homes: seq<Uuid>, s: Uuid): nat
    requires forall h :: h in homes ==> tt.InBounds(h)
  {
    if homes == [] then 0
    else
      SwitchCount(tt, homes[..|homes| - 1], s) + if s in SwitchIds(tt, homes[|homes| - 1]) then 1 else 0
  }

  ghost predicate AllHomes(b: Blueprint, e: EChart, homes: map<Uuid, seq<Uuid>>) {
    homes.Keys == b.networks.Keys && forall n :: n in homes ==> Homes(e, Row(b, n), homes[n])
  }

  ghost predicate OnSwitch(tt: Topology, homes: map<Uuid, seq<Uuid>>, n: Uuid, s: Uuid)
    requires n in homes && forall h :: h in homes[n] ==> tt.InBounds(h)
  {
    SwitchCount(tt, homes[n], s) > 1
  }

  ghost predicate HomesInBounds(tt: Topology, homes: map<Uuid, seq<Uuid>>) {
    forall n, h :: n in homes && h in homes[n] ==> tt.InBounds(h)
  }

  ghost function NewNetworks(b: Blueprint, tt: Topology, homes: map<Uuid, seq<Uuid>>, s: Uuid): map<Uuid, Network>
    requires HomesInBounds(tt, homes)
  {
    map n | n in b.networks && n in homes && OnSwitch(tt, homes, n, s) :: b.networks[n]
  }

  ghost function WithNetworks(b: Blueprint, tt: Topology, e: EChart, homes: map<Uuid, seq<Uuid>>): EChart
    requires HomesInBounds(tt, homes)
  {
    EChart(e.hmap, map s | s in e.smap ::
      SwitchEmbedding(e.smap[s].sw, e.smap[s].networks + NewNetworks(b, tt, homes, s)))
  }

  /** The second half of `embed`: what it may return from chart `e`. */
  ghost predicate NetworksPlaced(b: Blueprint, tt: Topology, e: EChart, r: Result<EChart, EmbedError>)
    requires forall k :: k in e.hmap ==> tt.InBounds(k)
  {
    match r
    case Ok(v) =>
      exists homes ::
        && AllHomes(b, e, homes) && HomesInBounds(tt, homes)
        && (forall n, s :: n in homes && OnSwitch(tt, homes, n, s) ==> s in e.smap)
        && v == WithNetworks(b, tt, e, homes)
    case Err(NotInChart(c)) => Linked(b, c) && forall k :: !e.Holds(k, c)
    case Err(UnknownSwitch(s)) =>
      s !in e.smap && exists n, homes ::
        && n in b.networks && Homes(e, Row(b, n), homes)
        && (forall h :: h in homes ==> tt.InBounds(h)) && SwitchCount(tt, homes, s) > 1
    case Err(_) => false
  }

  ghost predicate EmbedRun(b: Blueprint, e: EChart, tt: Topology, r: Result<EChart, EmbedError>)
    requires Embeddable(e, tt)
  {
    if !LinksReadable(b) then
      exists n :: n in b.networks && ConnectedComputers(b, n).Err? && r == Err(BadLink(ConnectedComputers(b, n).error))
    else
      exists s0, final :: Placed(b, e, tt, s0, final) && Outcome(b, tt, e, final, r)
  }

  ghost predicate Outcome(b: Blueprint, tt: Topology, e: EChart, final: State, r: Result<EChart, EmbedError>) {
    if final.work != [] then r == Err(EmbeddingFailed)
    else (forall k :: k in final.hosts ==> tt.InBounds(k)) && NetworksPlaced(b, tt, EChart(final.hosts, e.smap), r)
  }

  // ---- Unembedding ----

  /** The chart without the blueprint's computers, each taken off the host chosen
      for it, and without its networks. */
  function TakenOff(b: Blueprint, e: EChart, choice: map<Uuid, Uuid>): EChart {
    EChart(
      map k | k in e.hmap :: e.hmap[k].(machines :=
        e.hmap[k].machines - set c | c in choice && choice[c] == k),
      map s | s in e.smap :: e.smap[s].(networks := e.smap[s].networks - b.networks.Keys))
  }

  ghost predicate UnembedRun(b: Blueprint, e: EChart, r: Result<EChart, EmbedError>) {
    match r
    case Ok(v) =>
      exists choice: map<Uuid, Uuid> ::
        && choice.Keys == b.computers.Keys && (forall c :: c in choice ==> e.Holds(choice[c], c))
        && v == TakenOff(b, e, choice)
    case Err(NotInChart(c)) => c in b.computers && forall k :: !e.Holds(k, c)
    case Err(_) => false
  }

  // ---- What embedding guarantees ----

  /** No computer and no network of the blueprint is on the chart yet. */
  ghost predicate Unplaced(b: Blueprint, e: EChart) {
    && (forall k :: k in e.hmap ==> b.computers.Keys !! e.hmap[k].machines.Keys)
    && (forall s :: s in e.smap ==> b.networks.Keys !! e.smap[s].networks.Keys)
  }

  lemma StartBegins(b: Blueprint, e: EChart, tt: Topology, order: seq<Uuid>, work: seq<Computer>)
    requires b.Valid() && IsWorkList(b, work)
    ensures Fresh(Start(e, tt, order, work))
    ensures Unplaced(b, e) ==> Begins(Start(e, tt, order, work))
    ensures forall id :: id in Ids(work) <==> Linked(b, id)
    ensures forall c :: c in work ==> c.id in b.computers && b.computers[c.id] == c
  {
    WorkListExact(b, work);
    hide IsWorkList, LinkedTo;
    forall c | c in work ensures c.id in b.computers && b.computers[c.id] == c {
      var i :| 0 <= i < |work| && work[i] == c;
    }
    forall id ensures id in Ids(work) <==> Linked(b, id) {
      if id in Ids(work) {
        var c :| c in work && c.id == id;
        var i :| 0 <= i < |work| && work[i] == c;
      }
      assert Listed(work, id) <==> Linked(b, id);
    }
  }

  lemma PlacedInv(b: Blueprint, e: EChart, tt: Topology, s0: State, final: State)
    requires b.Valid() && Placed(b, e, tt, s0, final)
    ensures WithinCapacity(s0, final) && s0.hosts == e.hmap
    ensures Unplaced(b, e) ==> Begins(s0) && Inv(s0, final)
    ensures forall id :: id in Ids(s0.work) <==> Linked(b, id)
    ensures forall c :: c in s0.work ==> c.id in b.computers && b.computers[c.id] == c
  {
    var order, picks :|
      && FullestFirst(e, tt, order) && IsWorkList(b, s0.work) && s0 == Start(e, tt, order, s0.work)
      && LegalRun(s0, picks) && Run(s0, picks) == final && !final.Running();
    hide Inv, WithinCapacity, IsWorkList, FullestFirst, Unplaced;
    StartBegins(b, e, tt, order, s0.work);
    CapacityOverRuns(s0, picks);
    if Unplaced(b, e) {
      InvOverRuns(s0, picks);
    }
  }

  /** `v` is `e` with linked computers of the blueprint added and nothing else. */
  ghost predicate Grown(b: Blueprint, e: EChart, v: EChart) {
    && v.hmap.Keys == e.hmap.Keys
    && (forall k :: k in e.hmap ==> v.hmap[k].host == e.hmap[k].host)
    && (forall k, m :: e.Holds(k, m) ==> v.Holds(k, m) && v.hmap[k].machines[m] == e.hmap[k].machines[m])
    && (forall k, m :: v.Holds(k, m) && !e.Holds(k, m) ==>
          Linked(b, m) && m in b.computers && v.hmap[k].machines[m] == b.computers[m])
  }

  ghost predicate HeldAtMostOnce(b: Blueprint, v: EChart) {
    forall c, j, k :: c in b.computers && v.Holds(j, c) && v.Holds(k, c) ==> j == k
  }

  ghost predicate LinkedHeld(b: Blueprint, v: EChart) {
    forall c :: Linked(b, c) ==> exists k :: v.Holds(k, c)
  }

  lemma FinalHolds(s0: State, final: State, k: Uuid, m: Uuid)
    requires Inv(s0, final) && k in final.hosts && m in final.hosts[k].machines && m !in s0.hosts[k].machines
    ensures final.hosts[k].machines[m] in s0.work && final.hosts[k].machines[m].id == m
    ensures m in final.placed && final.placed[m].host == k
  {
    hide WorkSplit, TurnsRecorded;
    assert Extends(final.hosts[k], s0.hosts[k], s0.work, final.placed, k, final.Writer(k));
  }

  lemma FinalKeeps(s0: State, final: State, k: Uuid)
    requires Inv(s0, final) && k in s0.hosts
    ensures k in final.hosts && final.hosts[k].host == s0.hosts[k].host
    ensures forall m :: m in s0.hosts[k].machines ==>
              m in final.hosts[k].machines && final.hosts[k].machines[m] == s0.hosts[k].machines[m]
  {
    hide WorkSplit, TurnsRecorded;
    assert Extends(final.hosts[k], s0.hosts[k], s0.work, final.placed, k, final.Writer(k));
  }

  lemma SameHosts(s0: State, final: State)
    requires Inv(s0, final)
    ensures final.hosts.Keys == s0.hosts.Keys
  {
  }

  lemma FinalGrown(b: Blueprint, e: EChart, s0: State, final: State, v: EChart)
    requires s0.hosts == e.hmap && final.hosts == v.hmap && Inv(s0, final)
    requires forall id :: id in Ids(s0.work) <==> Linked(b, id)
    requires forall c :: c in s0.work ==> c.id in b.computers && b.computers[c.id] == c
    ensures Grown(b, e, v)
  {
    hide Linked, Ids, Inv, FreeNorm, Overloaded;
    SameHosts(s0, final);
    forall k, m | v.Holds(k, m) && !e.Holds(k, m)
      ensures Linked(b, m) && m in b.computers && v.hmap[k].machines[m] == b.computers[m]
    {
      FinalHolds(s0, final, k, m);
      InIds(s0.work, v.hmap[k].machines[m]);
    }
    FinalKeepsAll(s0, final, e, v);
  }

  lemma FinalKeepsAll(s0: State, final: State, e: EChart, v: EChart)
    requires s0.hosts == e.hmap && final.hosts == v.hmap && Inv(s0, final)
    ensures v.hmap.Keys == e.hmap.Keys
    ensures forall k :: k in e.hmap ==> v.hmap[k].host == e.hmap[k].host
    ensures forall k, m :: e.Holds(k, m) ==> v.Holds(k, m) && v.hmap[k].machines[m] == e.hmap[k].machines[m]
  {
    assert v.hmap.Keys == e.hmap.Keys;
    hide Inv;
    forall k | k in e.hmap
      ensures v.hmap[k].host == e.hmap[k].host
      ensures forall m :: e.Holds(k, m) ==> v.Holds(k, m) && v.hmap[k].machines[m] == e.hmap[k].machines[m]
    {
      FinalKeeps(s0, final, k);
    }
  }

  lemma FinalHeldOnce(b: Blueprint, e: EChart, s0: State, final: State, v: EChart)
    requires s0.hosts == e.hmap && final.hosts == v.hmap && Inv(s0, final) && Unplaced(b, e)
    ensures HeldAtMostOnce(b, v)
  {
    assert v.hmap.Keys == e.hmap.Keys;
    hide Inv;
    forall c, j, k | c in b.computers && v.Holds(j, c) && v.Holds(k, c) ensures j == k {
      FinalHolds(s0, final, j, c);
      FinalHolds(s0, final, k, c);
    }
  }

  lemma InIds(cs: seq<Computer>, c: Computer)
    requires c in cs
    ensures c.id in Ids(cs)
  {
  }

  /** Every linked computer is looked up once more before `embed` returns, so a
      returned chart has not lost any. */
  lemma HomesHoldLinked(b: Blueprint, e: EChart, homes: map<Uuid, seq<Uuid>>, v: EChart)
    requires AllHomes(b, e, homes) && v.hmap == e.hmap
    ensures LinkedHeld(b, v)
  {
    forall c | Linked(b, c) ensures exists k :: v.Holds(k, c) {
      var n :| LinkedTo(b, c, n);
      var i :| 0 <= i < |Row(b, n)| && Row(b, n)[i].computer.id == c;
      assert v.Holds(homes[n][i], c);
    }
  }

  /** The placement behind a returned chart. */
  lemma ReturnedPlacement(b: Blueprint, e: EChart, tt: Topology, r: Result<EChart, EmbedError>)
      returns (s0: State, final: State, homes: map<Uuid, seq<Uuid>>)
    requires Embeddable(e, tt) && EmbedRun(b, e, tt, r) && r.Ok?
    ensures Placed(b, e, tt, s0, final) && final.work == []
    ensures homes.Keys == b.networks.Keys
    ensures AllHomes(b, EChart(final.hosts, e.smap), homes) && HomesInBounds(tt, homes)
    ensures forall n, s :: n in homes && OnSwitch(tt, homes, n, s) ==> s in e.smap
    ensures r.value == WithNetworks(b, tt, EChart(final.hosts, e.smap), homes)
    ensures r.value.hmap == final.hosts
  {
    hide Placed, Embeddable, Homes;
    s0, final :| Placed(b, e, tt, s0, final) && Outcome(b, tt, e, final, r);
    var placed := EChart(final.hosts, e.smap);
    homes :|
      && AllHomes(b, placed, homes) && HomesInBounds(tt, homes)
      && (forall n, s :: n in homes && OnSwitch(tt, homes, n, s) ==> s in placed.smap)
      && r.value == WithNetworks(b, tt, placed, homes);
  }

  /** Whenever `embed` returns a chart, every linked computer is on exactly one host,
      every earlier machine is where it was, and nothing else was added. */
  lemma EmbedPlacesOnce(b: Blueprint, e: EChart, tt: Topology, v: EChart)
    requires b.Valid() && Embeddable(e, tt) && Unplaced(b, e) && EmbedRun(b, e, tt, Ok(v))
    ensures Grown(b, e, v) && HeldAtMostOnce(b, v) && LinkedHeld(b, v)
  {
    var s0, final, homes := ReturnedPlacement(b, e, tt, Ok(v));
    hide *;
    PlacedInv(b, e, tt, s0, final);
    FinalGrown(b, e, s0, final, v);
    FinalHeldOnce(b, e, s0, final, v);
    HomesHoldLinked(b, EChart(final.hosts, e.smap), homes, v);
  }

  /** `v` has the hosts and switches of `e`, and overloads none that `e` did not. */
  ghost predicate SameTestbed(e: EChart, v: EChart) {
    && v.hmap.Keys == e.hmap.Keys && v.smap.Keys == e.smap.Keys
    && (forall k :: k in e.hmap ==> Fits(v.hmap[k], e.hmap[k]))
    && (forall s :: s in e.smap ==> v.smap[s].sw == e.smap[s].sw)
  }

  lemma NetworksSameTestbed(b: Blueprint, tt: Topology, e: EChart, f: EChart, homes: map<Uuid, seq<Uuid>>)
    requires homes.Keys == b.networks.Keys && HomesInBounds(tt, homes)
    requires SameTestbed(e, f)
    ensures SameTestbed(e, WithNetworks(b, tt, f, homes))
  {
    hide Fits, OnSwitch;
  }

  /** In a returned chart no host that started within capacity is overloaded in any of
      the four dimensions, whatever ids were on the chart before. */
  lemma EmbedNeverOverloads(b: Blueprint, e: EChart, tt: Topology, v: EChart)
    requires b.Valid() && Embeddable(e, tt) && EmbedRun(b, e, tt, Ok(v))
    ensures SameTestbed(e, v)
    ensures forall k :: k in e.hmap && WithinHost(e.hmap[k].host, e.hmap[k].machines) ==>
              WithinHost(e.hmap[k].host, v.hmap[k].machines)
  {
    var s0, final, homes := ReturnedPlacement(b, e, tt, Ok(v));
    hide *;
    PlacedInv(b, e, tt, s0, final);
    var placed := EChart(final.hosts, e.smap);
    CapacityAtEnd(s0, final, e, placed);
    NetworksSameTestbed(b, tt, e, placed, homes);
    StillWithin(e, v);
  }

  lemma StillWithin(e: EChart, v: EChart)
    requires SameTestbed(e, v)
    ensures forall k :: k in e.hmap && WithinHost(e.hmap[k].host, e.hmap[k].machines) ==>
              WithinHost(e.hmap[k].host, v.hmap[k].machines)
  {
    hide Overloaded, WithinHost;
    forall k | k in e.hmap
      ensures WithinHost(e.hmap[k].host, e.hmap[k].machines) ==> WithinHost(e.hmap[k].host, v.hmap[k].machines)
    {
      OverloadedIff(e.hmap[k]);
      OverloadedIff(v.hmap[k]);
    }
  }

  lemma CapacityAtEnd(s0: State, final: State, e: EChart, v: EChart)
    requires WithinCapacity(s0, final) && s0.hosts == e.hmap && final.hosts == v.hmap && v.smap == e.smap
    ensures SameTestbed(e, v)
  {
  }

  // ---- Which networks end up on which switches ----

  /** The i-th link of the network leads to a computer whose host is attached to `s`. */
  ghost predicate LinkReaches(tt: Topology, v: EChart, row: seq<Attachment>, i: nat, s: Uuid)
    requires i < |row|
  {
    exists k :: v.Holds(k, row[i].computer.id) && tt.InBounds(k) && s in SwitchIds(tt, k)
  }

  /** At least two links of the network reach switch `s`: they may lead to the same
      host, and even to the same computer. */
  ghost predicate TwoLinksReach(b: Blueprint, tt: Topology, v: EChart, n: Uuid, s: Uuid) {
    var row := Row(b, n);
    exists i, j :: 0 <= i < j < |row| && LinkReaches(tt, v, row, i, s) && LinkReaches(tt, v, row, j, s)
  }

  lemma {:induction false} CountPositive(tt: Topology, homes: seq<Uuid>, s: Uuid)
    requires forall h :: h in homes ==> tt.InBounds(h)
    ensures SwitchCount(tt, homes, s) > 0 <==> exists i :: 0 <= i < |homes| && s in SwitchIds(tt, homes[i])
  {
    hide SwitchIds;
    if homes != [] {
      CountPositive(tt, homes[..|homes| - 1], s);
    }
  }

  /** The count passes one exactly when two different links were counted. */
  lemma {:induction false} CountsTwoLinks(tt: Topology, homes: seq<Uuid>, s: Uuid)
    requires forall h :: h in homes ==> tt.InBounds(h)
    ensures SwitchCount(tt, homes, s) > 1 <==>
            exists i, j :: 0 <= i < j < |homes| && s in SwitchIds(tt, homes[i]) && s in SwitchIds(tt, homes[j])
  {
    hide SwitchIds;
    if homes != [] {
      var init := homes[..|homes| - 1];
      CountsTwoLinks(tt, init, s);
      CountPositive(tt, init, s);
      if SwitchCount(tt, homes, s) > 1 && SwitchCount(tt, init, s) <= 1 {
        var i :| 0 <= i < |init| && s in SwitchIds(tt, init[i]);
        assert s in SwitchIds(tt, homes[i]) && s in SwitchIds(tt, homes[|init|]);
      }
      if SwitchCount(tt, init, s) > 1 {
        var i, j :| 0 <= i < j < |init| && s in SwitchIds(tt, init[i]) && s in SwitchIds(tt, init[j]);
        assert s in SwitchIds(tt, homes[i]) && s in SwitchIds(tt, homes[j]);
      }
      if i, j :| 0 <= i < j < |homes| && s in SwitchIds(tt, homes[i]) && s in SwitchIds(tt, homes[j]) {
        assert homes[i] == init[i];
        if j < |init| {
          assert homes[j] == init[j];
        }
      }
    }
  }

  lemma HomeReaches(b: Blueprint, tt: Topology, v: EChart, row: seq<Attachment>, homes: seq<Uuid>, i: nat, s: Uuid)
    requires HeldAtMostOnce(b, v) && Homes(v, row, homes) && i < |row|
    requires row[i].computer.id in b.computers
    requires forall h :: h in homes ==> tt.InBounds(h)
    ensures LinkReaches(tt, v, row, i, s) <==> s in SwitchIds(tt, homes[i])
  {
    hide SwitchIds;
    assert v.Holds(homes[i], row[i].computer.id);
  }

  lemma CountIsTwoLinks(b: Blueprint, tt: Topology, v: EChart, n: Uuid, homes: seq<Uuid>, s: Uuid)
    requires b.Valid() && HeldAtMostOnce(b, v) && Homes(v, Row(b, n), homes)
    requires forall h :: h in homes ==> tt.InBounds(h)
    ensures SwitchCount(tt, homes, s) > 1 <==> TwoLinksReach(b, tt, v, n, s)
  {
    hide SwitchIds, LinkReaches, HeldAtMostOnce;
    CountsTwoLinks(tt, homes, s);
    var row := Row(b, n);
    forall i | 0 <= i < |row| ensures LinkReaches(tt, v, row, i, s) <==> s in SwitchIds(tt, homes[i]) {
      RowComputers(b, n, i);
      HomeReaches(b, tt, v, row, homes, i, s);
    }
  }

  /** Network `n` is on switch `s` of `v`: put there by the blueprint, or left there. */
  ghost predicate OnAs(b: Blueprint, e: EChart, v: EChart, s: Uuid, n: Uuid, put: bool)
    requires s in e.smap && s in v.smap
  {
    var before, after := e.smap[s].networks, v.smap[s].networks;
    if put then n in b.networks && n in after && after[n] == b.networks[n]
    else (n in after <==> n in before) && (n in after ==> after[n] == before[n])
  }

  lemma WithNetworksAt(b: Blueprint, tt: Topology, e: EChart, homes: map<Uuid, seq<Uuid>>, s: Uuid, n: Uuid)
    requires homes.Keys == b.networks.Keys && HomesInBounds(tt, homes) && s in e.smap
    ensures var v := WithNetworks(b, tt, e, homes);
            && s in v.smap && v.smap[s].sw == e.smap[s].sw
            && OnAs(b, e, v, s, n, n in b.networks && OnSwitch(tt, homes, n, s))
  {
    hide SwitchCount;
  }

  /** In a returned chart a network is on a switch exactly when it was there before or
      at least two of its links reach the switch; the switches themselves stay. */
  lemma SwitchRule(b: Blueprint, e: EChart, tt: Topology, v: EChart, s: Uuid, n: Uuid)
    requires b.Valid() && Embeddable(e, tt) && Unplaced(b, e) && EmbedRun(b, e, tt, Ok(v))
    requires s in e.smap
    ensures s in v.smap && v.smap[s].sw == e.smap[s].sw
    ensures OnAs(b, e, v, s, n, n in b.networks && TwoLinksReach(b, tt, v, n, s))
  {
    EmbedPlacesOnce(b, e, tt, v);
    var s0, final, homes := ReturnedPlacement(b, e, tt, Ok(v));
    var placed := EChart(final.hosts, e.smap);
    WithNetworksAt(b, tt, placed, homes, s, n);
    if n in b.networks {
      SwitchRuleFor(b, tt, placed, v, homes, n, s);
    }
    hide *;
    OnAsSame(b, e, placed, v, s, n, n in b.networks && TwoLinksReach(b, tt, v, n, s));
  }

  lemma OnAsSame(b: Blueprint, e: EChart, f: EChart, v: EChart, s: Uuid, n: Uuid, put: bool)
    requires s in e.smap && s in v.smap && e.smap == f.smap
    ensures OnAs(b, e, v, s, n, put) <==> OnAs(b, f, v, s, n, put)
  {
  }

  lemma SwitchRuleFor(b: Blueprint, tt: Topology, placed: EChart, v: EChart, homes: map<Uuid, seq<Uuid>>,
                      n: Uuid, s: Uuid)
    requires b.Valid() && HeldAtMostOnce(b, v) && AllHomes(b, placed, homes) && HomesInBounds(tt, homes)
    requires v.hmap == placed.hmap && n in b.networks
    ensures OnSwitch(tt, homes, n, s) <==> TwoLinksReach(b, tt, v, n, s)
  {
    hide SwitchCount, TwoLinksReach, HeldAtMostOnce;
    assert Homes(v, Row(b, n), homes[n]);
    CountIsTwoLinks(b, tt, v, n, homes[n], s);
  }

  /** No switch appears or disappears, and no network has to be put on a switch that
      the chart does not have. */
  lemma SwitchesStay(b: Blueprint, e: EChart, tt: Topology, v: EChart, s: Uuid)
    requires b.Valid() && Embeddable(e, tt) && Unplaced(b, e) && EmbedRun(b, e, tt, Ok(v))
    ensures v.smap.Keys == e.smap.Keys
    ensures s !in e.smap ==> forall n :: n in b.networks ==> !TwoLinksReach(b, tt, v, n, s)
  {
    EmbedPlacesOnce(b, e, tt, v);
    var s0, final, homes := ReturnedPlacement(b, e, tt, Ok(v));
    var placed := EChart(final.hosts, e.smap);
    assert v.smap.Keys == e.smap.Keys;
    forall n | n in b.networks ensures OnSwitch(tt, homes, n, s) <==> TwoLinksReach(b, tt, v, n, s) {
      SwitchRuleFor(b, tt, placed, v, homes, n, s);
    }
  }

  // ---- Unembedding undoes embedding ----

  ghost predicate AllLinked(b: Blueprint) {
    forall c :: c in b.computers ==> Linked(b, c)
  }

  lemma HostRestored(b: Blueprint, e: EChart, v: EChart, choice: map<Uuid, Uuid>, k: Uuid)
    requires Unplaced(b, e) && Grown(b, e, v) && HeldAtMostOnce(b, v) && k in e.hmap
    requires choice.Keys == b.computers.Keys && forall c :: c in choice ==> v.Holds(choice[c], c)
    ensures k in v.hmap && TakenOff(b, v, choice).hmap[k] == e.hmap[k]
  {
    hide Linked;
    var was, now := e.hmap[k].machines, v.hmap[k].machines;
    var gone := set c | c in choice && choice[c] == k;
    forall m ensures m in now - gone <==> m in was {
      assert m in was ==> e.Holds(k, m);
      assert m in now ==> v.Holds(k, m);
    }
    forall m | m in was ensures now[m] == was[m] {
      assert e.Holds(k, m);
    }
    assert now - gone == was;
  }

  lemma SwitchRestored(b: Blueprint, e: EChart, v: EChart, choice: map<Uuid, Uuid>, s: Uuid)
    requires Unplaced(b, e) && s in e.smap && s in v.smap && v.smap[s].sw == e.smap[s].sw
    requires forall n :: (n in b.networks && OnAs(b, e, v, s, n, true)) || OnAs(b, e, v, s, n, false)
    ensures TakenOff(b, v, choice).smap[s] == e.smap[s]
  {
    var was, now := e.smap[s].networks, v.smap[s].networks;
    forall n ensures n in now - b.networks.Keys <==> n in was
      ensures n in was && n in now - b.networks.Keys ==> now[n] == was[n]
    {
      assert (n in b.networks && OnAs(b, e, v, s, n, true)) || OnAs(b, e, v, s, n, false);
    }
    assert now - b.networks.Keys == was;
  }

  lemma SwitchBack(b: Blueprint, e: EChart, tt: Topology, v: EChart, choice: map<Uuid, Uuid>, s: Uuid)
    requires b.Valid() && Embeddable(e, tt) && Unplaced(b, e) && EmbedRun(b, e, tt, Ok(v)) && s in e.smap
    ensures s in v.smap && TakenOff(b, v, choice).smap[s] == e.smap[s]
  {
    hide EmbedRun, Embeddable, Unplaced, OnAs, TakenOff, TwoLinksReach;
    SwitchRule(b, e, tt, v, s, Uuid(0));
    forall n ensures (n in b.networks && OnAs(b, e, v, s, n, true)) || OnAs(b, e, v, s, n, false) {
      SwitchRule(b, e, tt, v, s, n);
    }
    SwitchRestored(b, e, v, choice, s);
  }

  lemma SameKeys(b: Blueprint, e: EChart, v: EChart, choice: map<Uuid, Uuid>)
    requires Grown(b, e, v) && v.smap.Keys == e.smap.Keys
    ensures TakenOff(b, v, choice).hmap.Keys == v.hmap.Keys == e.hmap.Keys
    ensures TakenOff(b, v, choice).smap.Keys == e.smap.Keys
  {
  }

  lemma ChartRestored(b: Blueprint, e: EChart, tt: Topology, v: EChart, choice: map<Uuid, Uuid>)
    requires b.Valid() && Embeddable(e, tt) && Unplaced(b, e) && EmbedRun(b, e, tt, Ok(v))
    requires choice.Keys == b.computers.Keys && forall c :: c in choice ==> v.Holds(choice[c], c)
    ensures TakenOff(b, v, choice) == e
  {
    hide *;
    EmbedPlacesOnce(b, e, tt, v);
    SwitchesStay(b, e, tt, v, Uuid(0));
    var w := TakenOff(b, v, choice);
    SameKeys(b, e, v, choice);
    assert w.hmap == e.hmap by {
      forall k | k in e.hmap ensures w.hmap[k] == e.hmap[k] {
        HostRestored(b, e, v, choice, k);
      }
    }
    assert w.smap == e.smap by {
      forall s | s in e.smap ensures w.smap[s] == e.smap[s] {
        SwitchBack(b, e, tt, v, choice, s);
      }
    }
  }

  /** Taking a blueprint off the chart that `embed` returned succeeds exactly when
      each of its computers is linked to some network, and then gives back the chart
      as it was, entry for entry. */
  lemma UnembedUndoesEmbed(b: Blueprint, e: EChart, tt: Topology, v: EChart, u: Result<EChart, EmbedError>)
    requires b.Valid() && Embeddable(e, tt) && Unplaced(b, e)
    requires EmbedRun(b, e, tt, Ok(v)) && UnembedRun(b, v, u)
    ensures u.Ok? <==> AllLinked(b)
    ensures u.Ok? ==> u == Ok(e)
  {
    EmbedPlacesOnce(b, e, tt, v);
    hide EmbedRun, Embeddable, TakenOff, HeldAtMostOnce;
    if u.Ok? {
      var choice: map<Uuid, Uuid> :|
        && choice.Keys == b.computers.Keys && (forall c :: c in choice ==> v.Holds(choice[c], c))
        && u.value == TakenOff(b, v, choice);
      ChartRestored(b, e, tt, v, choice);
      forall c | c in b.computers ensures Linked(b, c) {
        assert v.Holds(choice[c], c) && !e.Holds(choice[c], c);
      }
    }
  }

  // ---- When embedding fails ----

  lemma MissingIffOverwritten(e: EChart, s0: State, final: State, c: Uuid)
    requires Begins(s0) && Inv(s0, final) && c in final.placed && final.hosts == e.hmap
    ensures (forall k :: !e.Holds(k, c)) <==> final.Writer(final.placed[c].host) != final.placed[c].turn
  {
    hide NewComputers, Contents;
    var slot := final.placed[c];
    assert slot.host in final.hosts;
    forall k ensures e.Holds(k, c) <==> slot == Slot(k, final.Writer(k)) {
      if k in final.hosts {
        KeptIffNotOverwritten(s0, final, c, k);
      }
    }
  }

  lemma NotInChartMeans(b: Blueprint, tt: Topology, e: EChart, c: Uuid)
    requires forall k :: k in e.hmap ==> tt.InBounds(k)
    ensures NetworksPlaced(b, tt, e, Err(NotInChart(c))) <==> Linked(b, c) && forall k :: !e.Holds(k, c)
  {
  }

  /** With all computers packed, `embed` may still fail to find computer `c` exactly
      when a later turn wrote back its own, older copy of c's host. */
  lemma LostIffOverwritten(b: Blueprint, e: EChart, tt: Topology, s0: State, final: State, c: Uuid)
    requires b.Valid() && Embeddable(e, tt) && Unplaced(b, e) && Placed(b, e, tt, s0, final) && final.work == []
    requires forall k :: k in final.hosts ==> tt.InBounds(k)
    ensures Linked(b, c) ==> c in final.placed
    ensures NetworksPlaced(b, tt, EChart(final.hosts, e.smap), Err(NotInChart(c))) <==>
            Linked(b, c) && final.Writer(final.placed[c].host) != final.placed[c].turn
  {
    hide *;
    PlacedInv(b, e, tt, s0, final);
    AllPlaced(s0, final);
    NotInChartMeans(b, tt, EChart(final.hosts, e.smap), c);
    if Linked(b, c) {
      MissingIffOverwritten(EChart(final.hosts, e.smap), s0, final, c);
    }
  }

  /** Every host belongs to at most one switch of the chart. */
  ghost predicate SingleHomedIn(e: EChart, tt: Topology) {
    forall s, t :: s in e.smap && t in e.smap && s != t ==> HostIds(tt, s) !! HostIds(tt, t)
  }

  /** Every switch next to a host of the chart is in the chart. */
  ghost predicate KnowsSwitches(e: EChart, tt: Topology) {
    forall k :: k in e.hmap && tt.InBounds(k) ==> SwitchIds(tt, k) <= e.smap.Keys
  }

  lemma PlacedSingleHomed(b: Blueprint, e: EChart, tt: Topology, s0: State, final: State)
    requires Placed(b, e, tt, s0, final) && SingleHomedIn(e, tt)
    ensures SingleHomed(s0)
  {
    hide Run, LegalRun, IsWorkList, HostIds, AverageFree;
    var order, picks :|
      && FullestFirst(e, tt, order) && IsWorkList(b, s0.work) && s0 == Start(e, tt, order, s0.work)
      && LegalRun(s0, picks) && Run(s0, picks) == final && !final.Running();
    forall i, j | 0 <= i < j < |s0.turns| ensures s0.turns[i].Keys !! s0.turns[j].Keys {
      assert order[i] in e.smap && order[j] in e.smap && order[i] != order[j];
      assert s0.turns[i].Keys <= HostIds(tt, order[i]) && s0.turns[j].Keys <= HostIds(tt, order[j]);
    }
  }

  lemma NothingMissing(b: Blueprint, e: EChart, tt: Topology, s0: State, final: State, c: Uuid)
    requires b.Valid() && Embeddable(e, tt) && Unplaced(b, e) && SingleHomedIn(e, tt)
    requires Placed(b, e, tt, s0, final) && final.work == [] && Linked(b, c)
    ensures exists k :: EChart(final.hosts, e.smap).Holds(k, c)
  {
    hide *;
    PlacedInv(b, e, tt, s0, final);
    PlacedSingleHomed(b, e, tt, s0, final);
    AllPlaced(s0, final);
    NothingLostWhenSingleHomed(s0, final, c);
    HoldsOnHost(EChart(final.hosts, e.smap), final.placed[c].host, c);
  }

  lemma AllPlaced(s0: State, final: State)
    requires Inv(s0, final) && final.work == []
    ensures final.placed.Keys == Ids(s0.work)
  {
    assert s0.work[|final.work|..] == s0.work;
  }

  lemma HoldsOnHost(e: EChart, k: Uuid, c: Uuid)
    requires k in e.hmap && c in e.hmap[k].machines
    ensures e.Holds(k, c)
  {
  }

  lemma {:induction false} CountOnlyKnown(e: EChart, tt: Topology, homes: seq<Uuid>, s: Uuid)
    requires KnowsSwitches(e, tt)
    requires forall h :: h in homes ==> h in e.hmap && tt.InBounds(h)
    ensures SwitchCount(tt, homes, s) > 0 ==> s in e.smap
  {
    hide SwitchIds;
    CountPositive(tt, homes, s);
  }

  /** On readable links, with every host on one switch and every switch in the chart,
      the only way to fail is to run out of room. */
  lemma OnlyRoomStopsEmbed(b: Blueprint, e: EChart, tt: Topology, r: Result<EChart, EmbedError>)
    requires b.Valid() && LinksReadable(b) && Embeddable(e, tt) && Unplaced(b, e)
    requires SingleHomedIn(e, tt) && KnowsSwitches(e, tt)
    requires EmbedRun(b, e, tt, r) && r.Err?
    ensures r == Err(EmbeddingFailed)
  {
    hide Placed, Embeddable, Unplaced, SingleHomedIn, KnowsSwitches, SwitchCount, Linked, LinksReadable;
    var s0, final :| Placed(b, e, tt, s0, final) && Outcome(b, tt, e, final, r);
    if final.work == [] {
      match r.error
      case NotInChart(c) =>
        NothingMissing(b, e, tt, s0, final, c);
        assert false;
      case UnknownSwitch(s) =>
        assert final.hosts.Keys == e.hmap.Keys by {
          PlacedInv(b, e, tt, s0, final);
        }
        var n, homes :|
          && n in b.networks && Homes(EChart(final.hosts, e.smap), Row(b, n), homes)
          && (forall h :: h in homes ==> tt.InBounds(h)) && SwitchCount(tt, homes, s) > 1;
        CountOnlyKnown(e, tt, homes, s);
        assert false;
      case _ =>
    }
  }

  ghost predicate TurnEndsAt(s0: State, picks: seq<Uuid>, j: nat, t: nat)
    requires LegalRun(s0, picks) && j < |picks|
  {
    && LegalRun(s0, picks[..j])
    && var s := Run(s0, picks[..j]);
       && s.turn == t && s.CanStep(picks[j])
       && Overloaded(s.turns[t][picks[j]].Add(s.work[|s.work| - 1]))
  }

  /** Every switch that lost its turn lost it at a point where not even its freest
      host had room for the next computer. */
  lemma {:induction false} EveryTurnEndsStuck(s0: State, picks: seq<Uuid>, t: nat)
    requires Begins(s0) && LegalRun(s0, picks) && t < Run(s0, picks).turn
    ensures exists j :: 0 <= j < |picks| && TurnEndsAt(s0, picks, j, t)
  {
    hide FreeNorm, Pack, TurnEndsAt, NewComputers;
    assert picks != [];
    var init := picks[..|picks| - 1];
    if t < Run(s0, init).turn {
      EveryTurnEndsStuck(s0, init, t);
      var j :| 0 <= j < |init| && TurnEndsAt(s0, init, j, t);
      TurnEndsEarlier(s0, picks, j, t);
    } else {
      LastStepEndsTurn(s0, picks);
      assert TurnEndsAt(s0, picks, |init|, t);
    }
  }

  lemma TurnEndsEarlier(s0: State, picks: seq<Uuid>, j: nat, t: nat)
    requires LegalRun(s0, picks) && j < |picks| - 1 && TurnEndsAt(s0, picks[..|picks| - 1], j, t)
    ensures TurnEndsAt(s0, picks, j, t)
  {
    hide Run, FreeNorm, Overloaded;
    assert picks[..j] == picks[..|picks| - 1][..j];
  }

  lemma LastStepEndsTurn(s0: State, picks: seq<Uuid>)
    requires Begins(s0) && LegalRun(s0, picks) && picks != []
    requires Run(s0, picks).turn > Run(s0, picks[..|picks| - 1]).turn
    ensures TurnEndsAt(s0, picks, |picks| - 1, Run(s0, picks[..|picks| - 1]).turn)
  {
    hide FreeNorm, Overloaded, Inv, Begins;
    var init := picks[..|picks| - 1];
    InvOverRuns(s0, init);
    TurnEndsStuck(s0, Run(s0, init), picks[|picks| - 1]);
  }
}

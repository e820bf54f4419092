/** Histories of a chart: blueprints embedded and taken off, one after another. */
module ChartHistories {
  import opened Wrappers
  import opened Blueprints
  import opened Topologies
  import opened Loads
  import opened Embeddings

  // ---- Histories of charts ----

  /** A call that returned. */
  datatype Event = Embedded(blueprint: Blueprint) | Unembedded(blueprint: Blueprint)

  ghost predicate Happens(tt: Topology, e: EChart, ev: Event, v: EChart)
    requires Embeddable(e, tt)
  {
    && ev.blueprint.Valid()
    && match ev
       case Embedded(b) => EmbedRun(b, e, tt, Ok(v))
       case Unembedded(b) => UnembedRun(b, e, Ok(v))
  }

  /** Any calls that returned, in any order, from an empty chart. */
  ghost predicate History(tt: Topology, charts: seq<EChart>, events: seq<Event>) {
    && |charts| == |events| + 1 && charts[0] == Blank(tt)
    && forall i :: 0 <= i < |events| ==> Embeddable(charts[i], tt) && Happens(tt, charts[i], events[i], charts[i + 1])
  }

  lemma HistoryBefore(tt: Topology, charts: seq<EChart>, events: seq<Event>)
    requires History(tt, charts, events) && events != []
    ensures History(tt, charts[..|events|], events[..|events| - 1])
    ensures var n := |events| - 1;
            Embeddable(charts[n], tt) && Happens(tt, charts[n], events[n], charts[n + 1])
  {
    hide Happens, Embeddable, Blank;
  }

  lemma SameTestbedEmbeddable(tt: Topology, e: EChart, v: EChart)
    requires Embeddable(e, tt) && SameTestbed(e, v)
    ensures Embeddable(v, tt)
  {
    hide HostIds, Overloaded;
  }

  lemma {:induction false} SubsetUses(machines: map<Uuid, Computer>, gone: set<Uuid>)
    ensures AtMost(UsedBy(machines - gone), UsedBy(machines))
    decreases gone
  {
    if gone == {} {
      assert machines - gone == machines;
    } else {
      var c :| c in gone;
      SubsetUses(machines, gone - {c});
      UsedByRemove(machines - (gone - {c}), c);
      assert machines - (gone - {c}) - {c} == machines - gone;
    }
  }

  lemma TakenOffSameTestbed(b: Blueprint, e: EChart, choice: map<Uuid, Uuid>)
    ensures SameTestbed(e, TakenOff(b, e, choice))
  {
    forall k | k in e.hmap
      ensures Overloaded(TakenOff(b, e, choice).hmap[k]) ==> Overloaded(e.hmap[k])
    {
      SubsetUses(e.hmap[k].machines, set c | c in choice && choice[c] == k);
    }
  }

  ghost predicate NoneOverloaded(e: EChart) {
    forall k :: k in e.hmap ==> !Overloaded(e.hmap[k])
  }

  lemma SameTestbedTransitive(e: EChart, f: EChart, v: EChart)
    requires SameTestbed(e, f) && SameTestbed(f, v)
    ensures SameTestbed(e, v)
    ensures NoneOverloaded(f) ==> NoneOverloaded(v)
  {
    hide Overloaded;
  }

  /** Every switch of the testbed has a host. */
  ghost predicate SwitchesHaveHosts(tt: Topology) {
    forall s :: s in tt.switches ==> HostIds(tt, s) != {}
  }

  /** A testbed that starts with an empty chart is never overloaded: not by any
      sequence of blueprints embedded and taken off, in any order and with any ids. */
  lemma {:induction false} NoHistoryOverloads(tt: Topology, charts: seq<EChart>, events: seq<Event>)
    requires tt.WellBuilt() && SwitchesHaveHosts(tt) && History(tt, charts, events)
    ensures var v := charts[|events|];
            && Embeddable(v, tt) && SameTestbed(Blank(tt), v) && NoneOverloaded(v)
            && forall k :: k in v.hmap ==> WithinHost(v.hmap[k].host, v.hmap[k].machines)
  {
    hide Embeddable, Happens, SameTestbed, NoneOverloaded, SwitchesHaveHosts, WithinHost;
    if events == [] {
      BlankEmbeddable(tt);
      BlankFits(tt);
    } else {
      var n := |events| - 1;
      HistoryBefore(tt, charts, events);
      NoHistoryOverloads(tt, charts[..n + 1], events[..n]);
      StepSameTestbed(tt, charts[n], events[n], charts[n + 1]);
      SameTestbedEmbeddable(tt, charts[n], charts[n + 1]);
      SameTestbedTransitive(Blank(tt), charts[n], charts[n + 1]);
    }
    AllWithin(charts[|events|]);
  }

  lemma AllWithin(v: EChart)
    requires NoneOverloaded(v)
    ensures forall k :: k in v.hmap ==> WithinHost(v.hmap[k].host, v.hmap[k].machines)
  {
    hide Overloaded, WithinHost;
    forall k | k in v.hmap ensures WithinHost(v.hmap[k].host, v.hmap[k].machines) {
      OverloadedIff(v.hmap[k]);
    }
  }

  lemma StepSameTestbed(tt: Topology, e: EChart, ev: Event, v: EChart)
    requires Embeddable(e, tt) && Happens(tt, e, ev, v)
    ensures SameTestbed(e, v)
  {
    hide EmbedRun, Embeddable;
    match ev
    case Embedded(b) => EmbedNeverOverloads(b, e, tt, v);
    case Unembedded(b) =>
      var choice: map<Uuid, Uuid> :| v == TakenOff(b, e, choice);
      TakenOffSameTestbed(b, e, choice);
  }

  lemma BlankEmbeddable(tt: Topology)
    requires tt.WellBuilt() && SwitchesHaveHosts(tt)
    ensures Embeddable(Blank(tt), tt)
  {
    hide ConnectedHosts;
    forall s | s in tt.switches ensures HostIds(tt, s) <= tt.hosts.Keys && HostsApart(tt, s) {
      ConnectedHostsExact(tt, s);
    }
    hide HostIds, HostsApart;
    forall k | k in tt.hosts ensures tt.InBounds(k) {
      ConnectedSwitchesExact(tt, k);
    }
  }

  lemma BlankFits(tt: Topology)
    ensures SameTestbed(Blank(tt), Blank(tt)) && NoneOverloaded(Blank(tt))
  {
    hide Overloaded;
    forall k | k in tt.hosts ensures !Overloaded(Blank(tt).hmap[k]) {
      EmptyHostFits(tt.hosts[k]);
    }
  }

  lemma EmptyHostFits(h: Host)
    ensures !Overloaded(HostEmbedding(h, map[]))
  {
    assert Demands(map[]) == map[];
  }

  // ---- What is on the chart ----

  ghost function UpNow(events: seq<Event>): set<Blueprint> {
    if events == [] then {}
    else
      var before, ev := UpNow(events[..|events| - 1]), events[|events| - 1];
      match ev
      case Embedded(b) => before + {b}
      case Unembedded(b) => before - {b}
  }

  ghost predicate IdsDisjoint(a: Blueprint, b: Blueprint) {
    a.computers.Keys !! b.computers.Keys && a.networks.Keys !! b.networks.Keys
  }

  /** Blueprints that are embedded or taken off share no ids with others that are up. */
  ghost predicate IdsApart(events: seq<Event>) {
    forall i, x :: 0 <= i < |events| && x in UpNow(events[..i]) ==>
      IdsDisjoint(x, events[i].blueprint) || (x == events[i].blueprint && events[i].Unembedded?)
  }

  lemma ApartBefore(events: seq<Event>)
    requires IdsApart(events) && events != []
    ensures IdsApart(events[..|events| - 1])
    ensures var init, ev := events[..|events| - 1], events[|events| - 1];
            forall x :: x in UpNow(init) ==> IdsDisjoint(x, ev.blueprint) || (x == ev.blueprint && ev.Unembedded?)
  {
    hide IdsDisjoint, UpNow;
    var init := events[..|events| - 1];
    forall i, x | 0 <= i < |init| && x in UpNow(init[..i])
      ensures IdsDisjoint(x, init[i].blueprint) || (x == init[i].blueprint && init[i].Unembedded?)
    {
      assert init[..i] == events[..i] && init[i] == events[i];
    }
  }

  /** Machine `m` of host `k` is a linked computer of `b`. */
  ghost predicate MachineOf(b: Blueprint, e: EChart, k: Uuid, m: Uuid)
    requires e.Holds(k, m)
  {
    Linked(b, m) && m in b.computers && e.hmap[k].machines[m] == b.computers[m]
  }

  /** The hosts hold the linked computers of `bs`, each on one host, and nothing else. */
  ghost predicate HoldsJust(e: EChart, bs: set<Blueprint>) {
    && (forall k, m :: e.Holds(k, m) ==> exists b :: b in bs && MachineOf(b, e, k, m))
    && (forall b :: b in bs ==> LinkedHeld(b, e))
    && (forall j, k, m :: e.Holds(j, m) && e.Holds(k, m) ==> j == k)
  }

  ghost predicate NetworkOf(b: Blueprint, tt: Topology, e: EChart, s: Uuid, n: Uuid)
    requires s in e.smap && n in e.smap[s].networks
  {
    n in b.networks && TwoLinksReach(b, tt, e, n, s) && e.smap[s].networks[n] == b.networks[n]
  }

  /** A switch has just the networks of `bs` of which at least two links reach it. */
  ghost predicate SwitchHasJust(tt: Topology, e: EChart, bs: set<Blueprint>, s: Uuid)
    requires s in e.smap
  {
    && (forall n :: n in e.smap[s].networks ==> exists b :: b in bs && NetworkOf(b, tt, e, s, n))
    && (forall b, n :: b in bs && n in b.networks && TwoLinksReach(b, tt, e, n, s) ==> n in e.smap[s].networks)
  }

  ghost predicate ChartShows(tt: Topology, e: EChart, bs: set<Blueprint>) {
    && (forall b :: b in bs ==> b.Valid())
    && HoldsJust(e, bs)
    && forall s :: s in e.smap ==> SwitchHasJust(tt, e, bs, s)
  }

  lemma ShowsParts(tt: Topology, e: EChart, bs: set<Blueprint>)
    ensures ChartShows(tt, e, bs) <==>
            && (forall b :: b in bs ==> b.Valid())
            && HoldsJust(e, bs) && forall s :: s in e.smap ==> SwitchHasJust(tt, e, bs, s)
  {
    hide HoldsJust, SwitchHasJust;
  }

  lemma LinkedIsComputer(b: Blueprint, c: Uuid)
    requires b.Valid() && Linked(b, c)
    ensures c in b.computers
  {
    var n :| LinkedTo(b, c, n);
    var i :| 0 <= i < |Row(b, n)| && Row(b, n)[i].computer.id == c;
    RowComputers(b, n, i);
  }

  /** Links of `x` lead to the same hosts on two charts that show its computers alike. */
  lemma SameReach(x: Blueprint, tt: Topology, e: EChart, v: EChart, n: Uuid, s: Uuid)
    requires x.Valid() && forall k, c :: c in x.computers ==> (e.Holds(k, c) <==> v.Holds(k, c))
    ensures TwoLinksReach(x, tt, e, n, s) <==> TwoLinksReach(x, tt, v, n, s)
  {
    hide Row, SwitchIds, EChart.Holds;
    var row := Row(x, n);
    forall i | 0 <= i < |row| ensures LinkReaches(tt, e, row, i, s) <==> LinkReaches(tt, v, row, i, s) {
      RowComputers(x, n, i);
    }
    hide LinkReaches;
  }

  // ---- Embedding ----

  lemma ShownIsElsewhere(tt: Topology, e: EChart, bs: set<Blueprint>, b: Blueprint)
    requires ChartShows(tt, e, bs) && forall x :: x in bs ==> IdsDisjoint(x, b)
    ensures Unplaced(b, e)
  {
    hide TwoLinksReach, Linked, LinkedHeld;
    forall k, m | k in e.hmap && m in e.hmap[k].machines ensures m !in b.computers {
      assert e.Holds(k, m);
    }
  }

  lemma GrownHoldsJust(e: EChart, bs: set<Blueprint>, b: Blueprint, v: EChart)
    requires HoldsJust(e, bs) && Grown(b, e, v) && HeldAtMostOnce(b, v) && LinkedHeld(b, v)
    ensures HoldsJust(v, bs + {b})
  {
    hide Linked;
    forall k, m | v.Holds(k, m) ensures exists x :: x in bs + {b} && MachineOf(x, v, k, m) {
      if e.Holds(k, m) {
        var x :| x in bs && MachineOf(x, e, k, m);
        assert MachineOf(x, v, k, m);
      } else {
        assert MachineOf(b, v, k, m);
      }
    }
  }

  /** An embedding of `b` leaves the computers of `x` where they were. */
  lemma GrownBeside(b: Blueprint, e: EChart, v: EChart, x: Blueprint)
    requires Grown(b, e, v) && IdsDisjoint(x, b)
    ensures forall k, c :: c in x.computers ==> (e.Holds(k, c) <==> v.Holds(k, c))
  {
    hide Linked, EChart.Holds;
  }

  lemma EmbeddedOnSwitch(tt: Topology, e: EChart, bs: set<Blueprint>, b: Blueprint, v: EChart, s: Uuid)
    requires (forall x :: x in bs ==> x.Valid() && IdsDisjoint(x, b)) && Grown(b, e, v)
    requires s in e.smap && s in v.smap && SwitchHasJust(tt, e, bs, s)
    requires forall n :: OnAs(b, e, v, s, n, n in b.networks && TwoLinksReach(b, tt, v, n, s))
    ensures SwitchHasJust(tt, v, bs + {b}, s)
  {
    hide TwoLinksReach, Grown;
    forall x, n | x in bs ensures TwoLinksReach(x, tt, e, n, s) <==> TwoLinksReach(x, tt, v, n, s) {
      GrownBeside(b, e, v, x);
      SameReach(x, tt, e, v, n, s);
    }
    forall n | n in v.smap[s].networks ensures exists x :: x in bs + {b} && NetworkOf(x, tt, v, s, n) {
      var put := n in b.networks && TwoLinksReach(b, tt, v, n, s);
      assert OnAs(b, e, v, s, n, put);
      if put {
        assert NetworkOf(b, tt, v, s, n);
      } else {
        var x :| x in bs && NetworkOf(x, tt, e, s, n);
        assert NetworkOf(x, tt, v, s, n);
      }
    }
    forall x, n | x in bs + {b} && n in x.networks && TwoLinksReach(x, tt, v, n, s) ensures n in v.smap[s].networks {
      assert OnAs(b, e, v, s, n, n in b.networks && TwoLinksReach(b, tt, v, n, s));
    }
  }

  lemma EmbedShows(tt: Topology, e: EChart, bs: set<Blueprint>, b: Blueprint, v: EChart)
    requires b.Valid() && Embeddable(e, tt) && ChartShows(tt, e, bs) && EmbedRun(b, e, tt, Ok(v))
    requires forall x :: x in bs ==> IdsDisjoint(x, b)
    ensures ChartShows(tt, v, bs + {b})
  {
    hide *;
    ShowsParts(tt, e, bs);
    ShowsParts(tt, v, bs + {b});
    ShownIsElsewhere(tt, e, bs, b);
    EmbedPlacesOnce(b, e, tt, v);
    SwitchesStay(b, e, tt, v, Uuid(0));
    GrownHoldsJust(e, bs, b, v);
    forall s | s in v.smap ensures SwitchHasJust(tt, v, bs + {b}, s) {
      forall n ensures OnAs(b, e, v, s, n, n in b.networks && TwoLinksReach(b, tt, v, n, s)) {
        SwitchRule(b, e, tt, v, s, n);
      }
      EmbeddedOnSwitch(tt, e, bs, b, v, s);
    }
  }

  // ---- Taking off ----

  lemma TakenOffHolds(e: EChart, bs: set<Blueprint>, b: Blueprint, choice: map<Uuid, Uuid>, k: Uuid, m: Uuid)
    requires HoldsJust(e, bs)
    requires choice.Keys == b.computers.Keys && forall c :: c in choice ==> e.Holds(choice[c], c)
    ensures var v := TakenOff(b, e, choice);
            && (v.Holds(k, m) <==> e.Holds(k, m) && m !in b.computers)
            && (v.Holds(k, m) ==> v.hmap[k].machines[m] == e.hmap[k].machines[m])
  {
    hide LinkedHeld, MachineOf, Linked;
    if k in e.hmap && m in b.computers {
      assert e.Holds(choice[m], m);
      if e.Holds(k, m) {
        assert choice[m] == k;
      }
      assert m !in TakenOff(b, e, choice).hmap[k].machines;
    }
  }

  lemma TakenOffHoldsJust(e: EChart, bs: set<Blueprint>, b: Blueprint, v: EChart)
    requires HoldsJust(e, bs) && forall x :: x in bs ==> x.Valid() && (x == b || IdsDisjoint(x, b))
    requires forall k, m :: v.Holds(k, m) <==> e.Holds(k, m) && m !in b.computers
    requires forall k, m :: v.Holds(k, m) ==> v.hmap[k].machines[m] == e.hmap[k].machines[m]
    ensures HoldsJust(v, bs - {b})
  {
    hide Linked, EChart.Holds;
    forall k, m | v.Holds(k, m) ensures exists x :: x in bs - {b} && MachineOf(x, v, k, m) {
      var x :| x in bs && MachineOf(x, e, k, m);
      assert MachineOf(x, v, k, m);
    }
    forall x | x in bs - {b} ensures LinkedHeld(x, v) {
      forall c | Linked(x, c) ensures exists k :: v.Holds(k, c) {
        LinkedIsComputer(x, c);
        var k :| e.Holds(k, c);
        assert v.Holds(k, c);
      }
    }
  }

  lemma TakenOffSwitch(tt: Topology, e: EChart, bs: set<Blueprint>, b: Blueprint, v: EChart, s: Uuid)
    requires forall x :: x in bs ==> x.Valid() && (x == b || IdsDisjoint(x, b))
    requires forall k, m :: v.Holds(k, m) <==> e.Holds(k, m) && m !in b.computers
    requires s in e.smap && s in v.smap && SwitchHasJust(tt, e, bs, s)
    requires v.smap[s].networks == e.smap[s].networks - b.networks.Keys
    ensures SwitchHasJust(tt, v, bs - {b}, s)
  {
    hide TwoLinksReach, EChart.Holds;
    forall x, n | x in bs - {b} ensures TwoLinksReach(x, tt, e, n, s) <==> TwoLinksReach(x, tt, v, n, s) {
      SameReach(x, tt, e, v, n, s);
    }
    forall n | n in v.smap[s].networks ensures exists x :: x in bs - {b} && NetworkOf(x, tt, v, s, n) {
      var x :| x in bs && NetworkOf(x, tt, e, s, n);
      assert NetworkOf(x, tt, v, s, n);
    }
  }

  lemma UnembedShows(tt: Topology, e: EChart, bs: set<Blueprint>, b: Blueprint, v: EChart)
    requires ChartShows(tt, e, bs) && UnembedRun(b, e, Ok(v))
    requires forall x :: x in bs ==> x == b || IdsDisjoint(x, b)
    ensures ChartShows(tt, v, bs - {b})
  {
    hide HoldsJust, SwitchHasJust, IdsDisjoint;
    var choice: map<Uuid, Uuid> :|
      && choice.Keys == b.computers.Keys && (forall c :: c in choice ==> e.Holds(choice[c], c))
      && v == TakenOff(b, e, choice);
    forall k, m
      ensures v.Holds(k, m) <==> e.Holds(k, m) && m !in b.computers
      ensures v.Holds(k, m) ==> v.hmap[k].machines[m] == e.hmap[k].machines[m]
    {
      TakenOffHolds(e, bs, b, choice, k, m);
    }
    TakenOffHoldsJust(e, bs, b, v);
    forall s | s in v.smap ensures SwitchHasJust(tt, v, bs - {b}, s) {
      TakenOffSwitch(tt, e, bs, b, v, s);
    }
  }

  // ---- Over histories ----

  /** Over every history of blueprints with different ids, embedded and taken off in any
      order: every host holds just linked computers of the blueprints that are up, each of
      these is on one host, and every switch has just the networks of which at least two
      links reach it. */
  lemma {:induction false} ChartFollowsBlueprints(tt: Topology, charts: seq<EChart>, events: seq<Event>)
    requires History(tt, charts, events) && IdsApart(events)
    ensures ChartShows(tt, charts[|events|], UpNow(events))
  {
    hide Embeddable, EmbedRun, UnembedRun, ChartShows, IdsDisjoint;
    if events == [] {
      BlankShowsNothing(tt);
    } else {
      var n := |events| - 1;
      var e, v, b := charts[n], charts[n + 1], events[n].blueprint;
      HistoryBefore(tt, charts, events);
      ApartBefore(events);
      ChartFollowsBlueprints(tt, charts[..n + 1], events[..n]);
      if events[n].Embedded? {
        EmbedShows(tt, e, UpNow(events[..n]), b, v);
      } else {
        UnembedShows(tt, e, UpNow(events[..n]), b, v);
      }
    }
  }

  lemma BlankShowsNothing(tt: Topology)
    ensures ChartShows(tt, Blank(tt), {})
  {
  }

  /** When everything embedded has been taken off, in whatever order, the chart is the empty
      one again. */
  lemma NothingUpNothingLeft(tt: Topology, charts: seq<EChart>, events: seq<Event>)
    requires tt.WellBuilt() && SwitchesHaveHosts(tt) && History(tt, charts, events) && IdsApart(events)
    requires UpNow(events) == {}
    ensures var v := charts[|events|];
            && v == Blank(tt)
            && IsEmptyChart(tt, v)
  {
    assert |charts| == |events| + 1;
    hide History, IdsApart, SwitchesHaveHosts, Embeddable, Topology.WellBuilt, UpNow, IsEmptyChart;
    ChartFollowsBlueprints(tt, charts, events);
    NoHistoryOverloads(tt, charts, events);
    hide Blank;
    ShowsNothingIsBlank(tt, charts[|events|]);
    BlankIsEmpty(tt);
  }

  /** All hosts and switches of the testbed, with nothing on them. */
  ghost predicate IsEmptyChart(tt: Topology, v: EChart) {
    && v.hmap.Keys == tt.hosts.Keys && v.smap.Keys == tt.switches.Keys
    && (forall k :: k in v.hmap ==> v.hmap[k].host == tt.hosts[k] && v.hmap[k].machines == map[])
    && (forall s :: s in v.smap ==> v.smap[s].sw == tt.switches[s] && v.smap[s].networks == map[])
  }

  lemma BlankIsEmpty(tt: Topology)
    ensures IsEmptyChart(tt, Blank(tt))
  {
  }

  lemma ShowsNothingIsBlank(tt: Topology, v: EChart)
    requires ChartShows(tt, v, {}) && SameTestbed(Blank(tt), v)
    ensures v == Blank(tt)
  {
    hide TwoLinksReach, Overloaded;
    forall k | k in v.hmap ensures v.hmap[k] == Blank(tt).hmap[k] {
      forall m ensures m !in v.hmap[k].machines {
        assert !v.Holds(k, m);
      }
      assert v.hmap[k].machines == map[];
    }
    forall s | s in v.smap ensures v.smap[s] == Blank(tt).smap[s] {
      assert SwitchHasJust(tt, v, {}, s);
      assert v.smap[s].networks == map[];
    }
  }

  /** A blueprint that is up can be taken off at any time if all its computers are linked. */
  lemma CanAlwaysBeTakenOff(tt: Topology, charts: seq<EChart>, events: seq<Event>, b: Blueprint,
                            u: Result<EChart, EmbedError>)
    requires History(tt, charts, events) && IdsApart(events) && b in UpNow(events)
    requires UnembedRun(b, charts[|events|], u)
    ensures u.Ok? <==> AllLinked(b)
  {
    assert |charts| == |events| + 1;
    hide History, IdsApart, UpNow, ChartShows, Linked;
    ChartFollowsBlueprints(tt, charts, events);
    UpAreApart(events);
    forall c | c in b.computers ensures Linked(b, c) <==> exists k :: charts[|events|].Holds(k, c) {
      LinkedIffHeld(tt, charts[|events|], UpNow(events), b, c);
    }
  }

  ghost predicate PairwiseDisjoint(bs: set<Blueprint>) {
    forall x, y :: x in bs && y in bs ==> x == y || IdsDisjoint(x, y)
  }

  lemma {:induction false} UpAreApart(events: seq<Event>)
    requires IdsApart(events)
    ensures PairwiseDisjoint(UpNow(events))
  {
    if events != [] {
      var init, b := events[..|events| - 1], events[|events| - 1].blueprint;
      ApartBefore(events);
      UpAreApart(init);
      hide IdsApart;
      assert forall x :: x in UpNow(init) ==> (IdsDisjoint(x, b) <==> IdsDisjoint(b, x));
      hide IdsDisjoint;
    }
  }

  lemma LinkedIffHeld(tt: Topology, v: EChart, bs: set<Blueprint>, b: Blueprint, c: Uuid)
    requires ChartShows(tt, v, bs) && PairwiseDisjoint(bs) && b in bs && c in b.computers
    ensures Linked(b, c) <==> exists k :: v.Holds(k, c)
  {
    hide Linked, TwoLinksReach, EChart.Holds;
    if k :| v.Holds(k, c) {
      var x :| x in bs && MachineOf(x, v, k, c);
    }
  }
}

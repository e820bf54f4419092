/** How `embed` chooses switches and hosts, and what its failure means
    (core/embed.cxx:291-343), in terms of the machines on the hosts. */
module Choices {
  import opened Wrappers
  import opened Blueprints
  import opened Topologies
  import opened Loads
  import opened WorkLists
  import opened Placements
  import opened Embeddings

  // ---- The order of the switches ----

  /** The free share of each host, added up. */
  ghost function FreeTotal(hosts: map<Uuid, HostEmbedding>): real {
    if hosts == map[] then 0.0
    else
      var k :| k in hosts;
      1.0 - FillOf(hosts[k].host, hosts[k].machines) + FreeTotal(hosts - {k})
  }

  lemma {:induction false} FreeTotalIs(hosts: map<Uuid, HostEmbedding>)
    ensures RealSum(FreeNorms(hosts)) == FreeTotal(hosts)
    decreases |hosts|
  {
    hide FillOf, FreeNorm;
    if hosts == map[] {
      assert FreeNorms(hosts) == map[];
    } else {
      var k :| k in hosts && FreeTotal(hosts) ==
                             1.0 - FillOf(hosts[k].host, hosts[k].machines) + FreeTotal(hosts - {k});
      FreeTotalIs(hosts - {k});
      RealSumTake(FreeNorms(hosts), k);
      assert FreeNorms(hosts) - {k} == FreeNorms(hosts - {k});
      FreeNormIs(hosts[k]);
    }
  }

  /** The aggregate of a switch is the average free share of its hosts. */
  lemma AverageIs(hosts: map<Uuid, HostEmbedding>)
    requires hosts != map[]
    ensures AverageFree(hosts) == FreeTotal(hosts) / |hosts| as real
  {
    FreeTotalIs(hosts);
  }

  /** All switches of the chart, in an order in which these averages do not decrease. */
  ghost predicate ByAverage(e: EChart, order: seq<Uuid>, turns: seq<map<Uuid, HostEmbedding>>) {
    && Enumerates(order, e.smap.Keys) && |turns| == |order|
    && (forall i :: 0 <= i < |turns| ==> turns[i] != map[])
    && forall i, j :: 0 <= i < j < |turns| ==>
         FreeTotal(turns[i]) / |turns[i]| as real <= FreeTotal(turns[j]) / |turns[j]| as real
  }

  /** Each turn starts with the chart's entries of the hosts next to its switch. */
  ghost predicate StartsWith(e: EChart, tt: Topology, order: seq<Uuid>, turns: seq<map<Uuid, HostEmbedding>>) {
    && |turns| == |order|
    && forall i :: 0 <= i < |turns| ==>
         && turns[i].Keys == HostIds(tt, order[i]) * e.hmap.Keys
         && forall k :: k in turns[i] ==> turns[i][k] == e.hmap[k]
  }

  // ---- The choice of a host ----

  /** The host packed next is one of the switch whose turn it is, and none of these has a
      smaller share of its cores, memory, interface capacity and disk taken. */
  ghost predicate PicksFreest(s: State, pick: Uuid) {
    && s.turn < |s.turns| && pick in s.turns[s.turn]
    && forall k :: k in s.turns[s.turn] ==>
         FillOf(s.turns[s.turn][pick].host, s.turns[s.turn][pick].machines)
         <= FillOf(s.turns[s.turn][k].host, s.turns[s.turn][k].machines)
  }

  lemma FreestIsPicked(s: State, pick: Uuid)
    requires s.turn < |s.turns|
    ensures s.Freest(pick) <==> PicksFreest(s, pick)
  {
    hide FillOf, FreeNorm;
    forall k | k in s.turns[s.turn]
      ensures FreeNorm(s.turns[s.turn][k]) == 1.0 - FillOf(s.turns[s.turn][k].host, s.turns[s.turn][k].machines)
    {
      FreeNormIs(s.turns[s.turn][k]);
    }
  }

  lemma {:induction false} StepAt(s: State, picks: seq<Uuid>, i: nat)
    requires LegalRun(s, picks) && i < |picks|
    ensures LegalRun(s, picks[..i]) && Run(s, picks[..i]).CanStep(picks[i])
    decreases |picks|
  {
    hide FreeNorm, Overloaded, Pack;
    var init := picks[..|picks| - 1];
    if i < |init| {
      StepAt(s, init, i);
      assert init[..i] == picks[..i];
    } else {
      assert picks[..i] == init;
    }
  }

  // ---- What failure means ----

  /** After `j` rounds it is switch `t`'s turn, and the next computer would exceed the freest
      of its hosts beside what is there. */
  ghost predicate StuckAfter(s0: State, picks: seq<Uuid>, j: nat, t: nat) {
    && j < |picks| && LegalRun(s0, picks[..j])
    && var s := Run(s0, picks[..j]);
       && s.turn == t && PicksFreest(s, picks[j]) && s.work != []
       && var he, c := s.turns[t][picks[j]], s.work[|s.work| - 1];
          !WithinHost(he.host, he.machines[c.id := c])
  }

  lemma StuckIsOverloaded(s0: State, picks: seq<Uuid>, j: nat, t: nat)
    requires LegalRun(s0, picks) && j < |picks| && TurnEndsAt(s0, picks, j, t)
    ensures StuckAfter(s0, picks, j, t)
  {
    hide Run, LegalRun, WithinHost, FillOf, FreeNorm, Overloaded;
    var s := Run(s0, picks[..j]);
    FreestIsPicked(s, picks[j]);
    OverloadedIff(s.turns[t][picks[j]].Add(s.work[|s.work| - 1]));
  }

  lemma FailedIffWorkLeft(b: Blueprint, tt: Topology, e: EChart, final: State, r: Result<EChart, EmbedError>)
    requires Outcome(b, tt, e, final, r)
    ensures r == Err(EmbeddingFailed) <==> final.work != []
  {
    hide Homes, SwitchCount;
  }

  lemma OrderIsByAverage(e: EChart, tt: Topology, order: seq<Uuid>, work: seq<Computer>)
    requires FullestFirst(e, tt, order)
    ensures var s0 := Start(e, tt, order, work);
            ByAverage(e, order, s0.turns) && StartsWith(e, tt, order, s0.turns)
  {
    hide HostIds, AverageFree;
    var turns := Start(e, tt, order, work).turns;
    forall i | 0 <= i < |turns|
      ensures turns[i] != map[] && AverageFree(turns[i]) == FreeTotal(turns[i]) / |turns[i]| as real
    {
      AverageIs(turns[i]);
    }
  }

  lemma AllPicksFreest(s0: State, picks: seq<Uuid>)
    requires LegalRun(s0, picks)
    ensures forall j :: 0 <= j < |picks| ==>
              LegalRun(s0, picks[..j]) && PicksFreest(Run(s0, picks[..j]), picks[j])
  {
    hide LegalRun, Run, FillOf, FreeNorm, Pack, PicksFreest;
    forall j | 0 <= j < |picks| ensures LegalRun(s0, picks[..j]) && PicksFreest(Run(s0, picks[..j]), picks[j]) {
      StepAt(s0, picks, j);
      FreestIsPicked(Run(s0, picks[..j]), picks[j]);
    }
  }

  /** Switch `t` had a turn, which ended like this. */
  ghost predicate GotStuck(s0: State, picks: seq<Uuid>, t: nat) {
    exists j :: StuckAfter(s0, picks, j, t)
  }

  lemma TurnAtEnd(s0: State, s: State)
    requires Inv(s0, s) && !s.Running() && s.work != []
    ensures s.turn == |s0.turns|
  {
  }

  lemma AllTurnsStuck(s0: State, picks: seq<Uuid>)
    requires Begins(s0) && LegalRun(s0, picks) && !Run(s0, picks).Running() && Run(s0, picks).work != []
    requires Inv(s0, Run(s0, picks))
    ensures forall t :: 0 <= t < |s0.turns| ==> GotStuck(s0, picks, t)
  {
    hide *;
    TurnAtEnd(s0, Run(s0, picks));
    forall t | 0 <= t < |s0.turns| ensures GotStuck(s0, picks, t) {
      TurnStuck(s0, picks, t);
    }
  }

  lemma TurnStuck(s0: State, picks: seq<Uuid>, t: nat)
    requires Begins(s0) && LegalRun(s0, picks) && t < Run(s0, picks).turn
    ensures GotStuck(s0, picks, t)
  {
    hide Begins, LegalRun, Run, StuckAfter, TurnEndsAt;
    EveryTurnEndsStuck(s0, picks, t);
    var j :| 0 <= j < |picks| && TurnEndsAt(s0, picks, j, t);
    StuckIsOverloaded(s0, picks, j, t);
  }

  /** `picks` are the hosts packed, by the switches in order of their averages, each time the
      freest. */
  ghost predicate Chooses(e: EChart, tt: Topology, order: seq<Uuid>, work: seq<Computer>, picks: seq<Uuid>) {
    var s0 := Start(e, tt, order, work);
    && ByAverage(e, order, s0.turns) && StartsWith(e, tt, order, s0.turns)
    && LegalRun(s0, picks)
    && forall j :: 0 <= j < |picks| ==> LegalRun(s0, picks[..j]) && PicksFreest(Run(s0, picks[..j]), picks[j])
  }

  /** Every call on readable links chooses so. It fails for lack of room exactly when
      computers are left, and then every switch of the chart had its turn and its freest
      host had no room for the next computer. */
  lemma HowEmbedChooses(b: Blueprint, e: EChart, tt: Topology, r: Result<EChart, EmbedError>)
      returns (order: seq<Uuid>, work: seq<Computer>, picks: seq<Uuid>)
    requires b.Valid() && Embeddable(e, tt) && Unplaced(b, e) && LinksReadable(b) && EmbedRun(b, e, tt, r)
    ensures IsWorkList(b, work) && Chooses(e, tt, order, work, picks)
    ensures var s0 := Start(e, tt, order, work);
            && LegalRun(s0, picks)
            && (r == Err(EmbeddingFailed) <==> Run(s0, picks).work != [])
            && (r == Err(EmbeddingFailed) ==> forall t :: 0 <= t < |order| ==> GotStuck(s0, picks, t))
  {
    var s0, final := PlacementOf(b, e, tt, r);
    hide *;
    order, picks := RunOf(b, e, tt, s0, final);
    work := s0.work;
    ChoosesSo(e, tt, order, work, picks);
    PlacedInv(b, e, tt, s0, final);
    if r == Err(EmbeddingFailed) {
      AllTurnsStuck(s0, picks);
    }
  }

  lemma PlacementOf(b: Blueprint, e: EChart, tt: Topology, r: Result<EChart, EmbedError>)
      returns (s0: State, final: State)
    requires Embeddable(e, tt) && LinksReadable(b) && EmbedRun(b, e, tt, r)
    ensures Placed(b, e, tt, s0, final) && (r == Err(EmbeddingFailed) <==> final.work != [])
  {
    hide Placed, LinksReadable, Embeddable, Outcome;
    s0, final :| Placed(b, e, tt, s0, final) && Outcome(b, tt, e, final, r);
    FailedIffWorkLeft(b, tt, e, final, r);
  }

  lemma RunOf(b: Blueprint, e: EChart, tt: Topology, s0: State, final: State)
      returns (order: seq<Uuid>, picks: seq<Uuid>)
    requires Placed(b, e, tt, s0, final)
    ensures FullestFirst(e, tt, order) && IsWorkList(b, s0.work) && s0 == Start(e, tt, order, s0.work)
    ensures LegalRun(s0, picks) && Run(s0, picks) == final && !final.Running() && |s0.turns| == |order|
  {
    hide FullestFirst, IsWorkList, LegalRun, Run;
    order, picks :|
      && FullestFirst(e, tt, order) && IsWorkList(b, s0.work) && s0 == Start(e, tt, order, s0.work)
      && LegalRun(s0, picks) && Run(s0, picks) == final && !final.Running();
  }

  lemma ChoosesSo(e: EChart, tt: Topology, order: seq<Uuid>, work: seq<Computer>, picks: seq<Uuid>)
    requires FullestFirst(e, tt, order) && LegalRun(Start(e, tt, order, work), picks)
    ensures Chooses(e, tt, order, work, picks)
  {
    hide FullestFirst, LegalRun, Run, ByAverage, StartsWith, PicksFreest, Start;
    OrderIsByAverage(e, tt, order, work);
    AllPicksFreest(Start(e, tt, order, work), picks);
  }
}

/** The loops of core/embed.cxx, proved to return what Embeddings allows. Maps and
    sets are walked in whatever order they come. */
module Embedder {
  import opened Wrappers
  import opened Blueprints
  import opened Topologies
  import opened Loads
  import opened WorkLists
  import opened Placements
  import opened Embeddings
  import Sorting

  // ---- pack ----

  method PackHost(host: HostEmbedding, work: seq<Computer>) returns (he: HostEmbedding, cs: seq<Computer>)
    ensures Packing(he, cs) == Pack(host, work)
  {
    he, cs := host, work;
    while cs != []
      invariant Pack(he, cs) == Pack(host, work)
      decreases |cs|
    {
      var c := cs[|cs| - 1];
      he := he.Add(c);
      var load := ComputeLoad(he);
      if load.Overloaded() {
        he := he.Remove(c);
        return;
      }
      cs := cs[..|cs| - 1];
    }
  }

  // ---- The work list ----

  datatype NetworkRow = NetworkRow(network: Network, row: seq<Attachment>)

  ghost predicate RowOf(b: Blueprint, x: NetworkRow) {
    x.network.id in b.networks && x.network == b.networks[x.network.id] && x.row == Row(b, x.network.id)
  }

  ghost predicate RowsOf(b: Blueprint, rows: seq<NetworkRow>, keys: set<Uuid>) {
    && Sorting.Distinct(rows)
    && (forall x :: x in rows ==> RowOf(b, x) && x.network.id in keys)
    && (forall n :: n in keys ==> exists x :: x in rows && x.network.id == n)
  }

  method ConnectedRows(b: Blueprint) returns (r: Result<seq<NetworkRow>, EmbedError>)
    requires b.Valid()
    ensures r.Ok? <==> LinksReadable(b)
    ensures r.Ok? ==> RowsOf(b, r.value, b.networks.Keys)
    ensures r.Err? ==> exists n :: n in b.networks && ConnectedComputers(b, n).Err?
                                   && r.error == BadLink(ConnectedComputers(b, n).error)
  {
    var rows, todo := [], b.networks.Keys;
    while todo != {}
      invariant todo <= b.networks.Keys
      invariant forall n :: n in b.networks && n !in todo ==> ConnectedComputers(b, n).Ok?
      invariant RowsOf(b, rows, b.networks.Keys - todo)
      decreases todo
    {
      var n :| n in todo;
      match ConnectedComputers(b, n) {
        case Err(x) => return Err(BadLink(x));
        case Ok(row) =>
          RowsOfSnoc(b, rows, b.networks.Keys - todo, n);
          assert b.networks.Keys - todo + {n} == b.networks.Keys - (todo - {n});
          rows := rows + [NetworkRow(b.networks[n], row)];
          todo := todo - {n};
      }
    }
    assert b.networks.Keys - todo == b.networks.Keys;
    r := Ok(rows);
  }

  lemma RowsOfSnoc(b: Blueprint, rows: seq<NetworkRow>, keys: set<Uuid>, n: Uuid)
    requires b.Valid() && n in b.networks && n !in keys && RowsOf(b, rows, keys)
    ensures RowsOf(b, rows + [NetworkRow(b.networks[n], Row(b, n))], keys + {n})
  {
    hide Row;
    var x := NetworkRow(b.networks[n], Row(b, n));
    var more := rows + [x];
    assert x in more;
    forall k | k in keys ensures exists y :: y in more && y.network.id == k {
      var y :| y in rows && y.network.id == k;
      assert y in more;
    }
    forall i, j | 0 <= i < j < |more| ensures more[i] != more[j] {
      assert more[i] in rows;
    }
  }

  ghost function OrderOf(rows: seq<NetworkRow>): seq<Uuid> {
    seq(|rows|, i requires 0 <= i < |rows| => rows[i].network.id)
  }

  lemma SortedRowsAreLargestFirst(b: Blueprint, rows: seq<NetworkRow>, keys: map<NetworkRow, real>,
                                  sorted: seq<NetworkRow>)
    requires RowsOf(b, rows, b.networks.Keys) && multiset(sorted) == multiset(rows)
    requires Sorting.SortedBy(sorted, keys)
    requires forall x :: x in keys ==> keys[x] == -(|x.row| as real)
    ensures LargestFirst(b, OrderOf(sorted))
    ensures forall i :: 0 <= i < |sorted| ==> sorted[i].row == Row(b, OrderOf(sorted)[i])
  {
    hide Row;
    var order := OrderOf(sorted);
    Sorting.DistinctPermuted(rows, sorted);
    forall i | 0 <= i < |sorted| ensures RowOf(b, sorted[i]) {
      assert sorted[i] in rows;
    }
    forall n | n in b.networks ensures n in order {
      var x :| x in rows && x.network.id == n;
      var i :| 0 <= i < |sorted| && sorted[i] == x;
      assert order[i] == n;
    }
    forall i, j | 0 <= i < j < |order| ensures |Row(b, order[i])| >= |Row(b, order[j])| {
      assert keys[sorted[i]] <= keys[sorted[j]];
    }
  }

  method AppendRow(cs: seq<Computer>, row: seq<Attachment>) returns (r: seq<Computer>)
    ensures r == AppendNew(cs, row)
  {
    r := cs;
    assert row[..0] == [];
    for k := 0 to |row|
      invariant r == AppendNew(cs, row[..k])
    {
      var c := row[k].computer;
      assert row[..k + 1][..k] == row[..k];
      if !Listed(r, c.id) {
        r := r + [c];
      }
    }
    assert row[..|row|] == row;
  }

  method MergeRows(b: Blueprint, rows: seq<NetworkRow>, ghost order: seq<Uuid>) returns (cs: seq<Computer>)
    requires |order| == |rows| && forall i :: 0 <= i < |rows| ==> rows[i].row == Row(b, order[i])
    ensures cs == Merged(b, order)
  {
    cs := [];
    assert order[..0] == [];
    for i := 0 to |rows|
      invariant cs == Merged(b, order[..i])
    {
      assert order[..i + 1][..i] == order[..i];
      cs := AppendRow(cs, rows[i].row);
    }
    assert order[..|rows|] == order;
  }

  method WorkList(b: Blueprint, rows: seq<NetworkRow>) returns (work: seq<Computer>)
    requires RowsOf(b, rows, b.networks.Keys)
    ensures IsWorkList(b, work)
  {
    var keys := map x | x in rows :: -(|x.row| as real);
    var sorted := Sorting.Sort(rows, keys);
    SortedRowsAreLargestFirst(b, rows, keys, sorted);
    hide RowsOf, LargestFirst, Row, Merged, Reverse;
    var cs := MergeRows(b, sorted, OrderOf(sorted));
    work := Reverse(cs);
  }

  // ---- The hosts of a switch ----

  /** The list holds each host of `copies` once. */
  ghost predicate Lists(hosts: seq<HostEmbedding>, copies: map<Uuid, HostEmbedding>) {
    && Sorting.Distinct(hosts)
    && (forall x :: x in hosts ==> x.host.id in copies && copies[x.host.id] == x)
    && (forall k :: k in copies ==> copies[k] in hosts && copies[k].host.id == k)
  }

  lemma OneMoreHost(e: EChart, found: set<Host>, all: set<Host>, h: Host)
    requires found <= all && h in all && h !in found && IdsOf(all) <= e.hmap.Keys
    requires forall f, g :: f in all && g in all && f.id == g.id ==> f == g
    ensures h.id in e.hmap && h.id !in Copies(e, IdsOf(found))
    ensures Copies(e, IdsOf(found + {h})) == Copies(e, IdsOf(found))[h.id := e.hmap[h.id]]
  {
    assert h.id in IdsOf(all);
    assert IdsOf(found + {h}) == IdsOf(found) + {h.id};
  }

  lemma NothingListed(e: EChart, found: set<Host>)
    requires found == {}
    ensures Lists([], Copies(e, IdsOf(found)))
  {
  }

  method HostsOf(e: EChart, tt: Topology, s: Uuid) returns (hosts: seq<HostEmbedding>)
    requires Embeddable(e, tt) && s in e.smap
    ensures Lists(hosts, Snapshot(e, tt, s))
  {
    hide Lists, ConnectedHosts, IdsOf, Copies;
    hosts := [];
    var all := ConnectedHosts(tt, s);
    var todo := all;
    NothingListed(e, all - todo);
    assert HostsApart(tt, s) && IdsOf(all) <= e.hmap.Keys && e.Keyed();
    hide Embeddable;
    while todo != {}
      invariant todo <= all
      invariant Lists(hosts, Copies(e, IdsOf(all - todo)))
      decreases todo
    {
      var h :| h in todo;
      OneMoreHost(e, all - todo, all, h);
      ListsSnoc(hosts, Copies(e, IdsOf(all - todo)), e.hmap[h.id]);
      hosts := hosts + [e.hmap[h.id]];
      assert all - todo + {h} == all - (todo - {h});
      todo := todo - {h};
    }
    assert all - todo == all;
  }

  lemma ListsSnoc(hosts: seq<HostEmbedding>, copies: map<Uuid, HostEmbedding>, he: HostEmbedding)
    requires Lists(hosts, copies) && he.host.id !in copies
    ensures Lists(hosts + [he], copies[he.host.id := he])
  {
    var more := hosts + [he];
    assert more[|hosts|] == he;
    forall i, j | 0 <= i < j < |more| ensures more[i] != more[j] {
      assert more[i] in hosts;
    }
    forall k | k in copies ensures copies[k] in more {
      var i :| 0 <= i < |hosts| && hosts[i] == copies[k];
      assert more[i] == copies[k];
    }
  }

  lemma ListsHead(hosts: seq<HostEmbedding>, copies: map<Uuid, HostEmbedding>)
    requires Lists(hosts, copies) && hosts != []
    ensures hosts[0].host.id in copies && copies[hosts[0].host.id] == hosts[0]
    ensures Lists(hosts[1..], copies - {hosts[0].host.id})
  {
    var id, rest := hosts[0].host.id, hosts[1..];
    assert hosts == [hosts[0]] + rest;
    forall x | x in rest ensures x.host.id in copies - {id} && copies[x.host.id] == x {
      var i :| 0 <= i < |rest| && rest[i] == x;
      assert hosts[i + 1] == x && hosts[0] != x;
    }
  }

  lemma {:induction false} ListsSize(hosts: seq<HostEmbedding>, copies: map<Uuid, HostEmbedding>)
    requires Lists(hosts, copies)
    ensures |hosts| == |copies|
  {
    if hosts == [] {
      assert copies == map[];
    } else {
      ListsHead(hosts, copies);
      var rest := copies - {hosts[0].host.id};
      ListsSize(hosts[1..], rest);
      assert copies.Keys == rest.Keys + {hosts[0].host.id};
    }
  }

  method ComputeFreeNorm(he: HostEmbedding) returns (f: real)
    ensures f == FreeNorm(he)
  {
    var load := ComputeLoad(he);
    f := load.FreeNorm();
  }

  lemma FreeSumStep(hosts: seq<HostEmbedding>, copies: map<Uuid, HostEmbedding>)
    requires Lists(hosts, copies) && hosts != []
    ensures var rest := copies - {hosts[0].host.id};
            && Lists(hosts[1..], rest)
            && RealSum(FreeNorms(copies)) == FreeNorm(hosts[0]) + RealSum(FreeNorms(rest))
  {
    hide FreeNorm, Lists;
    var id := hosts[0].host.id;
    ListsHead(hosts, copies);
    RealSumTake(FreeNorms(copies), id);
    assert FreeNorms(copies) - {id} == FreeNorms(copies - {id});
  }

  /** The aggregate that orders the switches. */
  method AverageFreeOf(hosts: seq<HostEmbedding>, ghost copies: map<Uuid, HostEmbedding>) returns (a: real)
    requires Lists(hosts, copies) && copies != map[]
    ensures a == AverageFree(copies)
  {
    hide FreeNorm, FreeNorms, Lists;
    var sum := 0.0;
    ghost var rest := copies;
    ListsSize(hosts, copies);
    assert hosts[0..] == hosts;
    for i := 0 to |hosts|
      invariant Lists(hosts[i..], rest)
      invariant sum + RealSum(FreeNorms(rest)) == RealSum(FreeNorms(copies))
    {
      FreeSumStep(hosts[i..], rest);
      assert hosts[i..][1..] == hosts[i + 1..];
      var free := ComputeFreeNorm(hosts[i]);
      sum := sum + free;
      rest := rest - {hosts[i].host.id};
    }
    NoneLeft(hosts[|hosts|..], rest);
    a := sum / |hosts| as real;
  }

  lemma NoneLeft(hosts: seq<HostEmbedding>, copies: map<Uuid, HostEmbedding>)
    requires Lists(hosts, copies) && hosts == []
    ensures RealSum(FreeNorms(copies)) == 0.0
  {
    assert FreeNorms(copies) == map[];
  }

  /** The inner loop's sort: the freest host comes first. */
  method SortByFree(hosts: seq<HostEmbedding>, ghost copies: map<Uuid, HostEmbedding>)
      returns (sorted: seq<HostEmbedding>)
    requires Lists(hosts, copies)
    ensures Lists(sorted, copies)
    ensures sorted != [] ==> forall k :: k in copies ==> FreeNorm(copies[k]) <= FreeNorm(sorted[0])
  {
    var keys: map<HostEmbedding, real> := map[];
    for i := 0 to |hosts|
      invariant forall j :: 0 <= j < i ==> hosts[j] in keys
      invariant forall x :: x in keys ==> keys[x] == -FreeNorm(x)
    {
      var free := ComputeFreeNorm(hosts[i]);
      keys := keys[hosts[i] := -free];
    }
    sorted := Sorting.Sort(hosts, keys);
    SortedLists(hosts, copies, keys, sorted);
  }

  lemma SortedLists(hosts: seq<HostEmbedding>, copies: map<Uuid, HostEmbedding>, keys: map<HostEmbedding, real>,
                    sorted: seq<HostEmbedding>)
    requires Lists(hosts, copies) && multiset(sorted) == multiset(hosts) && Sorting.SortedBy(sorted, keys)
    requires forall x :: x in keys ==> keys[x] == -FreeNorm(x)
    ensures Lists(sorted, copies)
    ensures sorted != [] ==> forall k :: k in copies ==> FreeNorm(copies[k]) <= FreeNorm(sorted[0])
  {
    hide FreeNorm;
    Sorting.DistinctPermuted(hosts, sorted);
    forall k | k in copies ensures sorted != [] && FreeNorm(copies[k]) <= FreeNorm(sorted[0]) {
      var i :| 0 <= i < |sorted| && sorted[i] == copies[k];
      assert i == 0 || keys[sorted[0]] <= keys[sorted[i]];
    }
  }

  // ---- The switch order ----

  /** A switch and its own copies of its hosts. */
  datatype SwitchHosts = SwitchHosts(sw: Uuid, hosts: seq<HostEmbedding>)

  ghost predicate SwitchesOf(e: EChart, tt: Topology, sws: seq<SwitchHosts>, keys: set<Uuid>) {
    && Sorting.Distinct(sws)
    && (forall x, y :: x in sws && y in sws && x.sw == y.sw ==> x == y)
    && (forall x :: x in sws ==> x.sw in keys && Lists(x.hosts, Snapshot(e, tt, x.sw)))
    && (forall s :: s in keys ==> exists x :: x in sws && x.sw == s)
  }

  method CollectSwitches(e: EChart, tt: Topology) returns (sws: seq<SwitchHosts>, keys: map<SwitchHosts, real>)
    requires Embeddable(e, tt)
    ensures SwitchesOf(e, tt, sws, e.smap.Keys)
    ensures forall x :: x in sws ==> x in keys && Snapshot(e, tt, x.sw) != map[]
                                     && keys[x] == AverageFree(Snapshot(e, tt, x.sw))
  {
    hide Lists, Snapshot, AverageFree, Embeddable;
    sws, keys := [], map[];
    var todo := e.smap.Keys;
    while todo != {}
      invariant todo <= e.smap.Keys
      invariant SwitchesOf(e, tt, sws, e.smap.Keys - todo)
      invariant forall x :: x in sws ==> x in keys && Snapshot(e, tt, x.sw) != map[]
                                         && keys[x] == AverageFree(Snapshot(e, tt, x.sw))
      decreases todo
    {
      var s :| s in todo;
      var hosts := HostsOf(e, tt, s);
      SnapshotNotEmpty(e, tt, s);
      var a := AverageFreeOf(hosts, Snapshot(e, tt, s));
      var x := SwitchHosts(s, hosts);
      SwitchesOfSnoc(e, tt, sws, e.smap.Keys - todo, x);
      assert e.smap.Keys - todo + {s} == e.smap.Keys - (todo - {s});
      sws, keys, todo := sws + [x], keys[x := a], todo - {s};
    }
    assert e.smap.Keys - todo == e.smap.Keys;
  }

  lemma SwitchesOfSnoc(e: EChart, tt: Topology, sws: seq<SwitchHosts>, keys: set<Uuid>, x: SwitchHosts)
    requires SwitchesOf(e, tt, sws, keys) && x.sw !in keys && Lists(x.hosts, Snapshot(e, tt, x.sw))
    ensures SwitchesOf(e, tt, sws + [x], keys + {x.sw})
  {
    hide Lists, Snapshot;
    var more := sws + [x];
    assert x in more;
    forall k | k in keys ensures exists y :: y in more && y.sw == k {
      var y :| y in sws && y.sw == k;
      assert y in more;
    }
    forall i, j | 0 <= i < j < |more| ensures more[i] != more[j] {
      assert more[i] in sws;
    }
  }

  ghost function SwitchOrder(sws: seq<SwitchHosts>): seq<Uuid> {
    seq(|sws|, i requires 0 <= i < |sws| => sws[i].sw)
  }

  lemma SortedSwitches(e: EChart, tt: Topology, sws: seq<SwitchHosts>, keys: map<SwitchHosts, real>,
                       sorted: seq<SwitchHosts>)
    requires SwitchesOf(e, tt, sws, e.smap.Keys)
    requires multiset(sorted) == multiset(sws) && Sorting.SortedBy(sorted, keys)
    requires forall x :: x in sws ==> x in keys && Snapshot(e, tt, x.sw) != map[]
                                      && keys[x] == AverageFree(Snapshot(e, tt, x.sw))
    ensures FullestFirst(e, tt, SwitchOrder(sorted))
    ensures forall i :: 0 <= i < |sorted| ==> Lists(sorted[i].hosts, Snapshot(e, tt, SwitchOrder(sorted)[i]))
  {
    hide Lists, Snapshot, AverageFree;
    SortedSwitchesEnumerate(e, tt, sws, sorted);
    Sorting.DistinctPermuted(sws, sorted);
    var order := SwitchOrder(sorted);
    forall i | 0 <= i < |sorted| ensures sorted[i] in sws {
    }
    hide Sorting.Distinct, SwitchesOf, Enumerates;
    forall i, j | 0 <= i < j < |order|
      ensures AverageFree(Snapshot(e, tt, order[i])) <= AverageFree(Snapshot(e, tt, order[j]))
    {
      assert keys[sorted[i]] <= keys[sorted[j]];
    }
  }

  lemma SortedSwitchesEnumerate(e: EChart, tt: Topology, sws: seq<SwitchHosts>, sorted: seq<SwitchHosts>)
    requires SwitchesOf(e, tt, sws, e.smap.Keys) && multiset(sorted) == multiset(sws)
    ensures Enumerates(SwitchOrder(sorted), e.smap.Keys)
    ensures forall i :: 0 <= i < |sorted| ==> Lists(sorted[i].hosts, Snapshot(e, tt, SwitchOrder(sorted)[i]))
  {
    hide Lists, Snapshot;
    Sorting.DistinctPermuted(sws, sorted);
    var order := SwitchOrder(sorted);
    forall i, j | 0 <= i < j < |order| ensures order[i] != order[j] {
      assert sorted[i] in sws && sorted[j] in sws;
    }
    forall s | s in e.smap ensures s in order {
      var x :| x in sws && x.sw == s;
      var i :| 0 <= i < |sorted| && sorted[i] == x;
      assert order[i] == s;
    }
  }

  // ---- The two placement loops ----

  lemma ListsUpdate(hosts: seq<HostEmbedding>, copies: map<Uuid, HostEmbedding>, he: HostEmbedding)
    requires Lists(hosts, copies) && hosts != [] && he.host == hosts[0].host
    ensures hosts[0].host.id in copies && copies[hosts[0].host.id] == hosts[0]
    ensures Lists(hosts[0 := he], copies[he.host.id := he])
  {
    var more := hosts[0 := he];
    forall i | 0 < i < |hosts| ensures hosts[i].host.id != he.host.id && more[i] in hosts {
      assert hosts[i] != hosts[0];
    }
    forall k | k in copies && k != he.host.id ensures copies[k] in more {
      var i :| 0 <= i < |hosts| && hosts[i] == copies[k];
      assert more[i] == copies[k];
    }
    assert more[0] == he;
  }

  /** What the loops know: the run so far, its state, and the list of the switch whose
      turn `t` it is. */
  ghost predicate AtTurn(s: State, t: nat, hosts: seq<HostEmbedding>, hmap: map<Uuid, HostEmbedding>,
                         cs: seq<Computer>) {
    && s.hosts == hmap && s.work == cs
    && s.turn == t < |s.turns| && Lists(hosts, s.turns[t])
  }

  ghost predicate LaterTurnsSame(s: State, before: State, t: nat) {
    |s.turns| == |before.turns| && forall j :: t < j < |s.turns| ==> s.turns[j] == before.turns[j]
  }

  /** One round of the inner loop is one step of the machine. */
  lemma RoundIsStep(s0: State, picks: seq<Uuid>, s: State, t: nat, hosts: seq<HostEmbedding>,
                    hmap: map<Uuid, HostEmbedding>, cs: seq<Computer>, p: Packing) returns (pick: Uuid)
    requires LegalRun(s0, picks) && s == Run(s0, picks)
    requires AtTurn(s, t, hosts, hmap, cs) && cs != [] && hosts != []
    requires forall k :: k in s.turns[t] ==> FreeNorm(s.turns[t][k]) <= FreeNorm(hosts[0])
    requires p == Pack(hosts[0], cs)
    ensures pick == p.host.host.id
    ensures LegalRun(s0, picks + [pick])
    ensures var s' := Run(s0, picks + [pick]);
            && s'.hosts == hmap[pick := p.host] && s'.work == p.rest
            && LaterTurnsSame(s', s, t)
            && (|p.rest| < |cs| ==> AtTurn(s', t, hosts[0 := p.host], s'.hosts, p.rest))
            && (|p.rest| == |cs| ==> s'.turn == t + 1)
  {
    hide FreeNorm, Pack, Lists, LegalRun, Run;
    pick := p.host.host.id;
    ListsUpdate(hosts, s.turns[t], p.host);
    assert s.CanStep(pick);
    RunOneMore(s0, picks, pick);
  }

  method TakeTurn(hosts: seq<HostEmbedding>, hmap: map<Uuid, HostEmbedding>, work: seq<Computer>,
                  ghost s0: State, ghost picks: seq<Uuid>, ghost t: nat)
      returns (hmap': map<Uuid, HostEmbedding>, cs: seq<Computer>, ghost picks': seq<Uuid>)
    requires LegalRun(s0, picks) && AtTurn(Run(s0, picks), t, hosts, hmap, work) && hosts != []
    ensures LegalRun(s0, picks')
    ensures var s := Run(s0, picks');
            && s.hosts == hmap' && s.work == cs && (cs != [] ==> s.turn == t + 1)
            && LaterTurnsSame(s, Run(s0, picks), t)
  {
    hide FreeNorm, Pack, Lists, LegalRun, Run;
    hmap', cs, picks' := hmap, work, picks;
    var list := hosts;
    while cs != []
      invariant LegalRun(s0, picks') && list != []
      invariant AtTurn(Run(s0, picks'), t, list, hmap', cs)
      invariant LaterTurnsSame(Run(s0, picks'), Run(s0, picks), t)
      decreases |cs|
    {
      ghost var s := Run(s0, picks');
      ListsSize(list, s.turns[t]);
      list := SortByFree(list, s.turns[t]);
      ListsSize(list, s.turns[t]);
      var chosen, rest := PackHost(list[0], cs);
      ghost var pick := RoundIsStep(s0, picks', s, t, list, hmap', cs, Packing(chosen, rest));
      picks' := picks' + [pick];
      list, hmap' := list[0 := chosen], hmap'[chosen.host.id := chosen];
      var before := |cs|;
      cs := rest;
      if before == |cs| {
        return;
      }
    }
  }

  method PlaceAll(e: EChart, tt: Topology, sws: seq<SwitchHosts>, work: seq<Computer>)
      returns (hmap: map<Uuid, HostEmbedding>, cs: seq<Computer>, ghost picks: seq<Uuid>)
    requires forall i :: 0 <= i < |sws| ==>
               Lists(sws[i].hosts, Snapshot(e, tt, SwitchOrder(sws)[i])) && sws[i].hosts != []
    ensures var s0 := Start(e, tt, SwitchOrder(sws), work);
            && LegalRun(s0, picks)
            && var final := Run(s0, picks); !final.Running() && final.hosts == hmap && final.work == cs
  {
    ghost var s0 := Start(e, tt, SwitchOrder(sws), work);
    hmap, cs, picks := e.hmap, work, [];
    NoSteps(s0);
    hide LegalRun, Run, Lists, Snapshot;
    for i := 0 to |sws|
      invariant LegalRun(s0, picks)
      invariant var s := Run(s0, picks);
                && s.hosts == hmap && s.work == cs && (cs != [] ==> s.turn == i)
                && |s.turns| == |sws| && forall j :: i <= j < |sws| ==> s.turns[j] == s0.turns[j]
    {
      if cs != [] {
        hmap, cs, picks := TakeTurn(sws[i].hosts, hmap, cs, s0, picks, i);
      }
    }
  }

  // ---- Networks on switches ----

  /** `EChart::getEmbedding`: some host that the chart shows for the computer. */
  method GetEmbedding(hmap: map<Uuid, HostEmbedding>, c: Uuid) returns (r: Option<Uuid>)
    ensures r.Some? ==> r.value in hmap && c in hmap[r.value].machines
    ensures r.None? ==> forall k :: k in hmap ==> c !in hmap[k].machines
  {
    if k :| k in hmap.Keys && c in hmap[k].machines {
      r := Some(k);
    } else {
      r := None;
    }
  }

  ghost predicate Counted(tt: Topology, homes: seq<Uuid>, swc: map<Uuid, nat>)
    requires forall h :: h in homes ==> tt.InBounds(h)
  {
    forall s :: SwitchCount(tt, homes, s) == if s in swc then swc[s] else 0
  }

  /** One more for each switch next to host `h`. */
  method CountHome(tt: Topology, ghost homes: seq<Uuid>, swc: map<Uuid, nat>, h: Uuid) returns (more: map<Uuid, nat>)
    requires forall g :: g in homes ==> tt.InBounds(g)
    requires tt.InBounds(h) && Counted(tt, homes, swc)
    ensures Counted(tt, homes + [h], more)
  {
    hide SwitchIds;
    more := swc;
    var ids := SwitchIds(tt, h);
    var todo := ids;
    while todo != {}
      invariant todo <= ids
      invariant forall s :: (if s in more then more[s] else 0) ==
                            (if s in swc then swc[s] else 0) + (if s in ids - todo then 1 else 0)
      decreases todo
    {
      var s :| s in todo;
      more := more[s := if s in more then more[s] + 1 else 1];
      todo := todo - {s};
    }
    assert (homes + [h])[..|homes|] == homes;
  }

  method CountSwitches(b: Blueprint, e: EChart, tt: Topology, row: seq<Attachment>)
      returns (r: Result<map<Uuid, nat>, EmbedError>, ghost homes: seq<Uuid>)
    requires forall k :: k in e.hmap ==> tt.InBounds(k)
    ensures r.Ok? ==> Homes(e, row, homes) && (forall h :: h in homes ==> tt.InBounds(h)) && Counted(tt, homes, r.value)
    ensures r.Err? ==> exists i :: 0 <= i < |row| && r.error == NotInChart(row[i].computer.id)
                                   && forall k :: !e.Holds(k, row[i].computer.id)
  {
    hide SwitchIds;
    var swc: map<Uuid, nat> := map[];
    homes := [];
    for i := 0 to |row|
      invariant Homes(e, row[..i], homes) && forall h :: h in homes ==> h in e.hmap
      invariant Counted(tt, homes, swc)
    {
      var home := GetEmbedding(e.hmap, row[i].computer.id);
      if home.None? {
        return Err(NotInChart(row[i].computer.id)), homes;
      }
      swc := CountHome(tt, homes, swc, home.value);
      homes := homes + [home.value];
    }
    assert row[..|row|] == row;
    r := Ok(swc);
  }

  /** The switch map with network `n` on each switch that counted more than one. */
  ghost function PutOn(smap: map<Uuid, SwitchEmbedding>, n: Network, on: set<Uuid>): map<Uuid, SwitchEmbedding> {
    map s | s in smap ::
      if s in on then SwitchEmbedding(smap[s].sw, smap[s].networks[n.id := n]) else smap[s]
  }

  method PutNetwork(smap: map<Uuid, SwitchEmbedding>, n: Network, swc: map<Uuid, nat>)
      returns (r: Result<map<Uuid, SwitchEmbedding>, EmbedError>)
    requires forall s :: s in smap ==> smap[s].sw.id == s
    ensures r.Ok? ==> var on := set s | s in swc && swc[s] > 1;
                      on <= smap.Keys && r.value == PutOn(smap, n, on)
    ensures r.Err? ==> exists s :: s in swc && swc[s] > 1 && s !in smap && r.error == UnknownSwitch(s)
  {
    var now := smap;
    var todo := set s | s in swc && swc[s] > 1;
    ghost var on := todo;
    while todo != {}
      invariant todo <= on && on - todo <= smap.Keys
      invariant now == PutOn(smap, n, on - todo)
      decreases todo
    {
      var s :| s in todo;
      if s !in now {
        return Err(UnknownSwitch(s));
      }
      var swe := now[s];
      swe := swe.(networks := swe.networks[n.id := n]);
      assert on - (todo - {s}) == on - todo + {s};
      now := now[swe.sw.id := swe];
      todo := todo - {s};
      assert now == PutOn(smap, n, on - todo);
    }
    assert on - todo == on;
    r := Ok(now);
  }

  lemma PutOneNetwork(b: Blueprint, tt: Topology, e: EChart, homes: map<Uuid, seq<Uuid>>, n: Uuid, hs: seq<Uuid>,
                      on: set<Uuid>)
    requires HomesInBounds(tt, homes) && n in b.networks && n !in homes && b.networks[n].id == n
    requires forall h :: h in hs ==> tt.InBounds(h)
    requires on <= e.smap.Keys && forall s :: s in on <==> SwitchCount(tt, hs, s) > 1
    ensures HomesInBounds(tt, homes[n := hs])
    ensures forall m, s :: m in homes[n := hs] && OnSwitch(tt, homes[n := hs], m, s) ==>
              s in on || (m in homes && OnSwitch(tt, homes, m, s))
    ensures WithNetworks(b, tt, e, homes[n := hs]).smap ==
            PutOn(WithNetworks(b, tt, e, homes).smap, b.networks[n], on)
  {
    hide SwitchCount;
    var more := homes[n := hs];
    forall s | s in e.smap
      ensures WithNetworks(b, tt, e, more).smap[s] == PutOn(WithNetworks(b, tt, e, homes).smap, b.networks[n], on)[s]
    {
      var x, y := NewNetworks(b, tt, homes, s), NewNetworks(b, tt, more, s);
      assert y == if s in on then x[n := b.networks[n]] else x;
      assert e.smap[s].networks + x[n := b.networks[n]] == (e.smap[s].networks + x)[n := b.networks[n]];
    }
  }

  method AssignOne(b: Blueprint, tt: Topology, e: EChart, smap: map<Uuid, SwitchEmbedding>, n: Uuid)
      returns (r: Result<map<Uuid, SwitchEmbedding>, EmbedError>, ghost hs: seq<Uuid>, ghost on: set<Uuid>)
    requires b.Valid() && LinksReadable(b) && n in b.networks
    requires (forall k :: k in e.hmap ==> tt.InBounds(k)) && smap.Keys == e.smap.Keys
    requires forall s :: s in smap ==> smap[s].sw.id == s
    ensures r.Ok? ==>
              && Homes(e, Row(b, n), hs) && (forall h :: h in hs ==> tt.InBounds(h))
              && on <= e.smap.Keys && (forall s :: s in on <==> SwitchCount(tt, hs, s) > 1)
              && r.value == PutOn(smap, b.networks[n], on)
    ensures r.Err? ==> NetworksPlaced(b, tt, e, Err(r.error))
  {
    hide SwitchCount, Homes, Counted, Linked, PutOn;
    var row := ConnectedComputers(b, n).value;
    assert row == Row(b, n);
    on := {};
    var counts;
    counts, hs := CountSwitches(b, e, tt, row);
    if counts.Err? {
      MissingIsLinked(b, e, n, counts.error);
      return Err(counts.error), hs, on;
    }
    var swc := counts.value;
    on := set s | s in swc && swc[s] > 1;
    CountedOn(tt, hs, swc);
    r := PutNetwork(smap, b.networks[n], swc);
  }

  /** The networks in `homes` have been assigned, giving `smap`. */
  ghost predicate AssignedSoFar(b: Blueprint, tt: Topology, e: EChart, homes: map<Uuid, seq<Uuid>>,
                                smap: map<Uuid, SwitchEmbedding>) {
    && HomesInBounds(tt, homes) && (forall n :: n in homes ==> Homes(e, Row(b, n), homes[n]))
    && (forall n, s :: n in homes && OnSwitch(tt, homes, n, s) ==> s in e.smap)
    && smap == WithNetworks(b, tt, e, homes).smap
  }

  lemma AssignedOneMore(b: Blueprint, tt: Topology, e: EChart, homes: map<Uuid, seq<Uuid>>,
                        smap: map<Uuid, SwitchEmbedding>, n: Uuid, hs: seq<Uuid>, on: set<Uuid>)
    requires AssignedSoFar(b, tt, e, homes, smap) && n in b.networks && n !in homes && b.networks[n].id == n
    requires Homes(e, Row(b, n), hs) && (forall h :: h in hs ==> tt.InBounds(h))
    requires on <= e.smap.Keys && forall s :: s in on <==> SwitchCount(tt, hs, s) > 1
    ensures AssignedSoFar(b, tt, e, homes[n := hs], PutOn(smap, b.networks[n], on))
  {
    hide SwitchCount, Homes, PutOn, Row, WithNetworks, OnSwitch;
    PutOneNetwork(b, tt, e, homes, n, hs, on);
  }

  method AssignNetworks(b: Blueprint, tt: Topology, e: EChart) returns (r: Result<EChart, EmbedError>)
    requires b.Valid() && LinksReadable(b) && (forall k :: k in e.hmap ==> tt.InBounds(k))
    requires forall s :: s in e.smap ==> e.smap[s].sw.id == s
    ensures NetworksPlaced(b, tt, e, r)
  {
    hide SwitchCount, Homes, PutOn, Row, AssignedSoFar, NetworksPlaced;
    var smap := e.smap;
    var todo := b.networks.Keys;
    ghost var homes: map<Uuid, seq<Uuid>> := map[];
    NoNetworksYet(b, tt, e, homes);
    while todo != {}
      invariant todo <= b.networks.Keys && homes.Keys == b.networks.Keys - todo
      invariant AssignedSoFar(b, tt, e, homes, smap)
      decreases todo
    {
      var n :| n in todo;
      KeyedStill(b, tt, e, homes, smap);
      var put;
      ghost var hs, on;
      put, hs, on := AssignOne(b, tt, e, smap, n);
      if put.Err? {
        return Err(put.error);
      }
      AssignedOneMore(b, tt, e, homes, smap, n, hs, on);
      smap, homes, todo := put.value, homes[n := hs], todo - {n};
    }
    r := Ok(EChart(e.hmap, smap));
    AllAssigned(b, tt, e, homes, r.value);
  }

  lemma AllAssigned(b: Blueprint, tt: Topology, e: EChart, homes: map<Uuid, seq<Uuid>>, v: EChart)
    requires forall k :: k in e.hmap ==> tt.InBounds(k)
    requires homes.Keys == b.networks.Keys && AssignedSoFar(b, tt, e, homes, v.smap) && v.hmap == e.hmap
    ensures NetworksPlaced(b, tt, e, Ok(v))
  {
    hide SwitchCount, Homes, Row, OnSwitch;
    assert AllHomes(b, e, homes);
    assert v == WithNetworks(b, tt, e, homes);
  }

  lemma KeyedStill(b: Blueprint, tt: Topology, e: EChart, homes: map<Uuid, seq<Uuid>>,
                   smap: map<Uuid, SwitchEmbedding>)
    requires AssignedSoFar(b, tt, e, homes, smap) && forall s :: s in e.smap ==> e.smap[s].sw.id == s
    ensures smap.Keys == e.smap.Keys && forall s :: s in smap ==> smap[s].sw.id == s
  {
  }

  lemma NoNetworksYet(b: Blueprint, tt: Topology, e: EChart, homes: map<Uuid, seq<Uuid>>)
    requires homes == map[]
    ensures AssignedSoFar(b, tt, e, homes, e.smap)
  {
    forall s | s in e.smap ensures WithNetworks(b, tt, e, homes).smap[s] == e.smap[s] {
      assert NewNetworks(b, tt, homes, s) == map[];
      assert e.smap[s].networks + NewNetworks(b, tt, homes, s) == e.smap[s].networks;
    }
  }

  lemma CountedOn(tt: Topology, homes: seq<Uuid>, swc: map<Uuid, nat>)
    requires (forall h :: h in homes ==> tt.InBounds(h)) && Counted(tt, homes, swc)
    ensures forall s :: s in swc && swc[s] > 1 <==> SwitchCount(tt, homes, s) > 1
  {
    hide SwitchCount;
  }

  lemma MissingIsLinked(b: Blueprint, e: EChart, n: Uuid, x: EmbedError)
    requires n in b.networks
    requires exists i :: 0 <= i < |Row(b, n)| && x == NotInChart(Row(b, n)[i].computer.id)
                         && forall k :: !e.Holds(k, Row(b, n)[i].computer.id)
    ensures x.NotInChart? && Linked(b, x.computer) && forall k :: !e.Holds(k, x.computer)
  {
    assert LinkedTo(b, x.computer, n);
  }

  // ---- embed and unembed ----

  /** `embed`: returns a chart or one of its errors, always one that the placement
      machine and the switch rule allow. */
  method Embed(b: Blueprint, e: EChart, tt: Topology) returns (r: Result<EChart, EmbedError>)
    requires b.Valid() && Embeddable(e, tt)
    ensures EmbedRun(b, e, tt, r)
  {
    var rows := ConnectedRows(b);
    if rows.Err? {
      return Err(rows.error);
    }
    var work := WorkList(b, rows.value);
    var sws, keys := CollectSwitches(e, tt);
    var sorted := Sorting.Sort(sws, keys);
    hide *;
    SortedSwitches(e, tt, sws, keys, sorted);
    ListsNotEmpty(e, tt, sorted);
    var hmap, cs;
    ghost var picks;
    hmap, cs, picks := PlaceAll(e, tt, sorted, work);
    ghost var s0 := Start(e, tt, SwitchOrder(sorted), work);
    PlacedBy(b, e, tt, SwitchOrder(sorted), s0, picks);
    PlacementShape(b, e, tt, s0, Run(s0, picks));
    if cs != [] {
      r := Err(EmbeddingFailed);
    } else {
      r := AssignNetworks(b, tt, EChart(hmap, e.smap));
    }
    RunOutcome(b, e, tt, s0, Run(s0, picks), r);
  }

  lemma ListsNotEmpty(e: EChart, tt: Topology, sorted: seq<SwitchHosts>)
    requires FullestFirst(e, tt, SwitchOrder(sorted))
    requires forall i :: 0 <= i < |sorted| ==> Lists(sorted[i].hosts, Snapshot(e, tt, SwitchOrder(sorted)[i]))
    ensures forall i :: 0 <= i < |sorted| ==> sorted[i].hosts != []
  {
    hide Snapshot, AverageFree, Lists;
    forall i | 0 <= i < |sorted| ensures sorted[i].hosts != [] {
      ListsSize(sorted[i].hosts, Snapshot(e, tt, SwitchOrder(sorted)[i]));
    }
  }

  lemma PlacedBy(b: Blueprint, e: EChart, tt: Topology, order: seq<Uuid>, s0: State, picks: seq<Uuid>)
    requires FullestFirst(e, tt, order) && IsWorkList(b, s0.work) && s0 == Start(e, tt, order, s0.work)
    requires LegalRun(s0, picks) && !Run(s0, picks).Running()
    ensures Placed(b, e, tt, s0, Run(s0, picks))
  {
  }

  lemma PlacementShape(b: Blueprint, e: EChart, tt: Topology, s0: State, final: State)
    requires b.Valid() && Embeddable(e, tt) && Placed(b, e, tt, s0, final)
    ensures forall k :: k in final.hosts ==> tt.InBounds(k)
    ensures forall s :: s in e.smap ==> e.smap[s].sw.id == s
  {
    PlacedInv(b, e, tt, s0, final);
    hide Placed, Fits;
  }

  lemma RunOutcome(b: Blueprint, e: EChart, tt: Topology, s0: State, final: State, r: Result<EChart, EmbedError>)
    requires Embeddable(e, tt) && LinksReadable(b) && Placed(b, e, tt, s0, final)
    requires forall k :: k in final.hosts ==> tt.InBounds(k)
    requires if final.work != [] then r == Err(EmbeddingFailed)
             else NetworksPlaced(b, tt, EChart(final.hosts, e.smap), r)
    ensures EmbedRun(b, e, tt, r)
  {
    hide Placed, NetworksPlaced, Embeddable;
    assert Outcome(b, tt, e, final, r);
  }

  method Unembed(b: Blueprint, e: EChart) returns (r: Result<EChart, EmbedError>)
    requires b.Valid() && e.Keyed()
    ensures UnembedRun(b, e, r)
  {
    var hmap, todo := e.hmap, b.computers.Keys;
    ghost var choice: map<Uuid, Uuid> := map[];
    NothingTakenOff(b, e, choice);
    while todo != {}
      invariant todo <= b.computers.Keys && choice.Keys == b.computers.Keys - todo
      invariant forall c :: c in choice ==> e.Holds(choice[c], c)
      invariant hmap == TakenOff(b, e, choice).hmap
      decreases todo
    {
      var c :| c in todo;
      var home := GetEmbedding(hmap, c);
      if home.None? {
        StillMissing(b, e, choice, c);
        return Err(NotInChart(c));
      }
      var he := hmap[home.value];
      he := he.(machines := he.machines - {c});
      TakeOff(b, e, choice, c, home.value);
      hmap := hmap[he.host.id := he];
      choice, todo := choice[c := home.value], todo - {c};
    }
    var smap := RemoveNetworks(b, e);
    r := Ok(EChart(hmap, smap));
    assert r.value == TakenOff(b, e, choice);
  }

  lemma NothingTakenOff(b: Blueprint, e: EChart, choice: map<Uuid, Uuid>)
    requires choice == map[]
    ensures TakenOff(b, e, choice).hmap == e.hmap
    ensures StripNetworks(e.smap, {}) == e.smap
  {
    forall k | k in e.hmap ensures TakenOff(b, e, choice).hmap[k] == e.hmap[k] {
      assert (set c | c in choice && choice[c] == k) == {};
      assert e.hmap[k].machines - {} == e.hmap[k].machines;
    }
    forall s | s in e.smap ensures e.smap[s].networks - {} == e.smap[s].networks {
    }
  }

  lemma StillMissing(b: Blueprint, e: EChart, choice: map<Uuid, Uuid>, c: Uuid)
    requires c !in choice && forall k :: !TakenOff(b, e, choice).Holds(k, c)
    ensures forall k :: !e.Holds(k, c)
  {
    forall k ensures !e.Holds(k, c) {
      assert !TakenOff(b, e, choice).Holds(k, c);
    }
  }

  lemma TakeOff(b: Blueprint, e: EChart, choice: map<Uuid, Uuid>, c: Uuid, k: Uuid)
    requires e.Keyed() && c !in choice && TakenOff(b, e, choice).Holds(k, c)
    ensures e.Holds(k, c)
    ensures var hmap := TakenOff(b, e, choice).hmap;
            && hmap[k].host.id == k
            && TakenOff(b, e, choice[c := k]).hmap == hmap[k := hmap[k].(machines := hmap[k].machines - {c})]
  {
    var more := choice[c := k];
    var hmap := TakenOff(b, e, choice).hmap;
    forall h | h in e.hmap
      ensures TakenOff(b, e, more).hmap[h] == hmap[k := hmap[k].(machines := hmap[k].machines - {c})][h]
    {
      var x, y := set m | m in choice && choice[m] == h, set m | m in more && more[m] == h;
      assert y == if h == k then x + {c} else x;
      assert e.hmap[h].machines - (x + {c}) == e.hmap[h].machines - x - {c};
    }
  }

  /** The switches showing a network are found, changed and written back one by one. */
  method RemoveNetworks(b: Blueprint, e: EChart) returns (smap: map<Uuid, SwitchEmbedding>)
    requires b.Valid() && e.Keyed()
    ensures smap == TakenOff(b, e, map[]).smap
  {
    smap := e.smap;
    var todo := b.networks.Keys;
    NothingTakenOff(b, e, map[]);
    assert b.networks.Keys - todo == {};
    while todo != {}
      invariant todo <= b.networks.Keys
      invariant smap == StripNetworks(e.smap, b.networks.Keys - todo)
      decreases todo
    {
      var n :| n in todo;
      smap := RemoveNetwork(smap, n);
      StripTwice(e.smap, b.networks.Keys - todo, n);
      assert b.networks.Keys - todo + {n} == b.networks.Keys - (todo - {n});
      todo := todo - {n};
    }
    assert b.networks.Keys - todo == b.networks.Keys;
  }

  ghost function StripNetworks(smap: map<Uuid, SwitchEmbedding>, gone: set<Uuid>): map<Uuid, SwitchEmbedding> {
    map s | s in smap :: smap[s].(networks := smap[s].networks - gone)
  }

  lemma StripTwice(smap: map<Uuid, SwitchEmbedding>, gone: set<Uuid>, n: Uuid)
    ensures StripNetworks(StripNetworks(smap, gone), {n}) == StripNetworks(smap, gone + {n})
  {
    forall s | s in smap ensures smap[s].networks - gone - {n} == smap[s].networks - (gone + {n}) {
    }
  }

  method RemoveNetwork(smap: map<Uuid, SwitchEmbedding>, n: Uuid) returns (r: map<Uuid, SwitchEmbedding>)
    requires forall s :: s in smap ==> smap[s].sw.id == s
    ensures r == StripNetworks(smap, {n})
  {
    r := smap;
    var todo := set s | s in smap && n in smap[s].networks;
    while todo != {}
      invariant todo <= smap.Keys && r.Keys == smap.Keys
      invariant forall s :: s in smap ==>
                  r[s] == if n in smap[s].networks && s !in todo
                          then smap[s].(networks := smap[s].networks - {n}) else smap[s]
      decreases todo
    {
      var s :| s in todo;
      var se := smap[s];
      se := se.(networks := se.networks - {n});
      r := r[se.sw.id := se];
      todo := todo - {s};
    }
    forall s | s in smap && n !in smap[s].networks ensures smap[s].networks - {n} == smap[s].networks {
    }
  }
}

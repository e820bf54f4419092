/** The order in which `embed` takes the computers (core/embed.cxx:261-289). */
module WorkLists {
  import opened Blueprints
  import opened Loads

  predicate Listed(cs: seq<Computer>, id: Uuid) {
    exists i :: 0 <= i < |cs| && cs[i].id == id
  }

  ghost predicate DistinctIds(cs: seq<Computer>) {
    forall i, j :: 0 <= i < j < |cs| ==> cs[i].id != cs[j].id
  }

  /** `cs` followed by the computers of `row` that it does not list yet. */
  ghost function AppendNew(cs: seq<Computer>, row: seq<Attachment>): seq<Computer> {
    if row == [] then cs
    else
      var init, c := AppendNew(cs, row[..|row| - 1]), row[|row| - 1].computer;
      if Listed(init, c.id) then init else init + [c]
  }

  ghost function Merged(b: Blueprint, order: seq<Uuid>): seq<Computer> {
    if order == [] then []
    else AppendNew(Merged(b, order[..|order| - 1]), Row(b, order[|order| - 1]))
  }

  function Reverse<T>(xs: seq<T>): seq<T> {
    if xs == [] then [] else [xs[|xs| - 1]] + Reverse(xs[..|xs| - 1])
  }

  /** Some order of the blueprint's networks, the largest first. */
  ghost predicate LargestFirst(b: Blueprint, order: seq<Uuid>) {
    && Enumerates(order, b.networks.Keys)
    && forall i, j :: 0 <= i < j < |order| ==> |Row(b, order[i])| >= |Row(b, order[j])|
  }

  /** `work` is taken from its end: its reversal merges the rows of some largest-first
      order of the networks. */
  ghost predicate IsWorkList(b: Blueprint, work: seq<Computer>) {
    exists order :: LargestFirst(b, order) && work == Reverse(Merged(b, order))
  }

  lemma {:induction false} ReverseAt<T>(xs: seq<T>)
    ensures |Reverse(xs)| == |xs|
    ensures forall i :: 0 <= i < |xs| ==> Reverse(xs)[i] == xs[|xs| - 1 - i]
  {
    if xs != [] {
      ReverseAt(xs[..|xs| - 1]);
    }
  }

  ghost predicate InRowWhole(row: seq<Attachment>, c: Computer) {
    exists k :: 0 <= k < |row| && row[k].computer == c
  }

  lemma InRowSnoc(row: seq<Attachment>, a: Attachment, id: Uuid)
    ensures InRow(row + [a], id) <==> InRow(row, id) || a.computer.id == id
  {
    var more := row + [a];
    if InRow(row, id) {
      var k :| 0 <= k < |row| && row[k].computer.id == id;
      assert more[k].computer.id == id;
    }
    assert more[|row|] == a;
  }

  lemma ListedSnoc(cs: seq<Computer>, c: Computer, id: Uuid)
    ensures Listed(cs + [c], id) <==> Listed(cs, id) || c.id == id
  {
    var more := cs + [c];
    if Listed(cs, id) {
      var k :| 0 <= k < |cs| && cs[k].id == id;
      assert more[k].id == id;
    }
    assert more[|cs|] == c;
  }

  lemma {:induction false} AppendNewLists(cs: seq<Computer>, row: seq<Attachment>, id: Uuid)
    ensures Listed(AppendNew(cs, row), id) <==> Listed(cs, id) || InRow(row, id)
  {
    hide Listed, InRow;
    if row != [] {
      var start, last := row[..|row| - 1], row[|row| - 1];
      AppendNewLists(cs, start, id);
      ListedSnoc(AppendNew(cs, start), last.computer, id);
      assert row == start + [last];
      InRowSnoc(start, last, id);
      if last.computer.id == id {
        AppendNewLists(cs, start, last.computer.id);
      }
    } else {
      NotInEmptyRow(id);
    }
  }

  lemma NotInEmptyRow(id: Uuid)
    ensures !InRow([], id)
  {
  }

  lemma {:induction false} AppendNewExact(cs: seq<Computer>, row: seq<Attachment>)
    requires DistinctIds(cs)
    ensures var r := AppendNew(cs, row);
            && DistinctIds(r) && cs <= r
            && forall i :: |cs| <= i < |r| ==> !Listed(cs, r[i].id) && InRowWhole(row, r[i])
  {
    hide InRowWhole;
    if row != [] {
      var start, last := row[..|row| - 1], row[|row| - 1];
      AppendNewExact(cs, start);
      assert row == start + [last];
      forall c | c == last.computer || InRowWhole(start, c) ensures InRowWhole(row, c) {
        InRowWholeSnoc(start, last, c);
      }
    }
  }

  lemma InRowWholeSnoc(row: seq<Attachment>, a: Attachment, c: Computer)
    ensures InRowWhole(row + [a], c) <==> InRowWhole(row, c) || a.computer == c
  {
    var more := row + [a];
    if InRowWhole(row, c) {
      var k :| 0 <= k < |row| && row[k].computer == c;
      assert more[k].computer == c;
    }
    assert more[|row|] == a;
  }

  /** The first row of an earlier computer is no later than any row of a later one. */
  ghost predicate InRowOrder(b: Blueprint, order: seq<Uuid>, cs: seq<Computer>) {
    forall i, j, r :: 0 <= i < j < |cs| && 0 <= r < |order| && InRow(Row(b, order[r]), cs[j].id) ==>
      exists q :: 0 <= q <= r && InRow(Row(b, order[q]), cs[i].id)
  }

  ghost predicate InSomeRow(b: Blueprint, order: seq<Uuid>, id: Uuid) {
    exists r :: 0 <= r < |order| && InRow(Row(b, order[r]), id)
  }

  lemma {:induction false} MergedExact(b: Blueprint, order: seq<Uuid>)
    requires b.Valid()
    ensures var cs := Merged(b, order);
            && DistinctIds(cs)
            && (forall id :: Listed(cs, id) <==> InSomeRow(b, order, id))
            && (forall i :: 0 <= i < |cs| ==> cs[i].id in b.computers && b.computers[cs[i].id] == cs[i])
            && InRowOrder(b, order, cs)
  {
    if order != [] {
      var init, n := order[..|order| - 1], order[|order| - 1];
      assert order == init + [n];
      MergedExact(b, init);
      var before, cs := Merged(b, init), Merged(b, order);
      AppendNewExact(before, Row(b, n));
      forall id ensures Listed(cs, id) <==> Listed(before, id) || InRow(Row(b, n), id) {
        AppendNewLists(before, Row(b, n), id);
      }
      forall id ensures Listed(cs, id) <==> InSomeRow(b, order, id) {
        InSomeRowSnoc(b, init, n, id);
      }
      forall i | 0 <= i < |cs| ensures cs[i].id in b.computers && b.computers[cs[i].id] == cs[i] {
        if i >= |before| {
          var k :| 0 <= k < |Row(b, n)| && Row(b, n)[k].computer == cs[i];
          RowComputers(b, n, k);
        }
      }
      forall i, j, r | 0 <= i < j < |cs| && 0 <= r < |order| && InRow(Row(b, order[r]), cs[j].id)
        ensures exists q :: 0 <= q <= r && InRow(Row(b, order[q]), cs[i].id)
      {
        RowOrderStep(b, init, n, before, cs, i, j, r);
      }
    }
  }

  lemma InSomeRowSnoc(b: Blueprint, init: seq<Uuid>, n: Uuid, id: Uuid)
    ensures InSomeRow(b, init + [n], id) <==> InSomeRow(b, init, id) || InRow(Row(b, n), id)
  {
    var order := init + [n];
    if InSomeRow(b, init, id) {
      var r :| 0 <= r < |init| && InRow(Row(b, init[r]), id);
      assert order[r] == init[r];
    }
    assert order[|init|] == n;
  }

  lemma RowOrderStep(b: Blueprint, init: seq<Uuid>, n: Uuid, before: seq<Computer>, cs: seq<Computer>,
                     i: nat, j: nat, r: nat)
    requires before <= cs && i < j < |cs| && r <= |init|
    requires InRowOrder(b, init, before)
    requires forall id :: Listed(before, id) <==> InSomeRow(b, init, id)
    requires forall k :: |before| <= k < |cs| ==> !Listed(before, cs[k].id) && InRow(Row(b, n), cs[k].id)
    requires InRow(Row(b, (init + [n])[r]), cs[j].id)
    ensures exists q :: 0 <= q <= r && InRow(Row(b, (init + [n])[q]), cs[i].id)
  {
    var order := init + [n];
    if r < |init| {
      assert InSomeRow(b, init, cs[j].id);
      assert j < |before|;
      var q :| 0 <= q <= r && InRow(Row(b, init[q]), before[i].id);
      assert order[q] == init[q];
    } else if i < |before| {
      assert Listed(before, before[i].id);
      var q :| 0 <= q < |init| && InRow(Row(b, init[q]), cs[i].id);
      assert order[q] == init[q];
    } else {
      assert order[r] == n;
    }
  }

  lemma InSomeRowIsLinked(b: Blueprint, order: seq<Uuid>, id: Uuid)
    requires Enumerates(order, b.networks.Keys)
    ensures InSomeRow(b, order, id) <==> Linked(b, id)
  {
    if InSomeRow(b, order, id) {
      var r :| 0 <= r < |order| && InRow(Row(b, order[r]), id);
      assert LinkedTo(b, id, order[r]);
    }
    if Linked(b, id) {
      var n :| LinkedTo(b, id, n);
      var r :| 0 <= r < |order| && order[r] == n;
    }
  }

  lemma ReverseLists(cs: seq<Computer>, id: Uuid)
    ensures Listed(Reverse(cs), id) <==> Listed(cs, id)
  {
    ReverseAt(cs);
    if Listed(Reverse(cs), id) {
      var i :| 0 <= i < |cs| && Reverse(cs)[i].id == id;
      assert cs[|cs| - 1 - i].id == id;
    }
    if Listed(cs, id) {
      var i :| 0 <= i < |cs| && cs[i].id == id;
      assert Reverse(cs)[|cs| - 1 - i].id == id;
    }
  }

  lemma LargerFirst(b: Blueprint, order: seq<Uuid>, cs: seq<Computer>, i: nat, j: nat, n: Uuid)
    requires b.Valid() && LargestFirst(b, order) && cs == Merged(b, order)
    requires i < j < |cs| && LinkedTo(b, cs[j].id, n)
    ensures exists m :: LinkedTo(b, cs[i].id, m) && |Row(b, m)| >= |Row(b, n)|
  {
    assert InRowOrder(b, order, cs) by { MergedExact(b, order); }
    var r :| 0 <= r < |order| && order[r] == n;
    var q :| 0 <= q <= r && InRow(Row(b, order[q]), cs[i].id);
    assert LinkedTo(b, cs[i].id, order[q]);
  }

  /** The work list names each computer once, and names exactly the computers that
      are linked to some network. */
  lemma WorkListExact(b: Blueprint, work: seq<Computer>)
    requires b.Valid() && IsWorkList(b, work)
    ensures DistinctIds(work)
    ensures forall id :: Listed(work, id) <==> Linked(b, id)
    ensures forall i :: 0 <= i < |work| ==> work[i].id in b.computers && b.computers[work[i].id] == work[i]
  {
    var order :| LargestFirst(b, order) && work == Reverse(Merged(b, order));
    var cs := Merged(b, order);
    MergedExact(b, order);
    ReverseAt(cs);
    forall id ensures Listed(work, id) <==> Linked(b, id) {
      ReverseLists(cs, id);
      InSomeRowIsLinked(b, order, id);
    }
  }

  /** Computers are taken from the end of the list, so a computer never waits for
      one whose largest network is smaller. */
  lemma LargestNetworkFirst(b: Blueprint, work: seq<Computer>, i: nat, j: nat, n: Uuid)
    requires b.Valid() && IsWorkList(b, work)
    requires i < j < |work| && LinkedTo(b, work[i].id, n)
    ensures exists m :: LinkedTo(b, work[j].id, m) && |Row(b, m)| >= |Row(b, n)|
  {
    hide LargestFirst, Merged, Reverse, LinkedTo, Row;
    var order :| LargestFirst(b, order) && work == Reverse(Merged(b, order));
    var cs := Merged(b, order);
    ReverseAt(cs);
    assert work[i] == cs[|cs| - 1 - i] && work[j] == cs[|cs| - 1 - j];
    LargerFirst(b, order, cs, |cs| - 1 - j, |cs| - 1 - i, n);
  }
}

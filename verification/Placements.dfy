/** The placement loops of `embed` (core/embed.cxx:244-256, 323-341) as a state
    machine. One step sorts the hosts of the switch whose turn it is, packs the
    freest of them, writes it back to the chart, and ends the turn when nothing
    moved. A run is the list of the hosts picked. */
module Placements {
  import opened Blueprints
  import opened Loads
  import opened WorkLists

  // ---- Packing one host ----

  datatype Packing = Packing(host: HostEmbedding, rest: seq<Computer>)

  ghost function Pack(he: HostEmbedding, work: seq<Computer>): (p: Packing)
    ensures p.rest <= work && p.host.host == he.host
    decreases |work|
  {
    if work == [] then Packing(he, work)
    else
      var c := work[|work| - 1];
      var more := he.Add(c);
      if Overloaded(more) then Packing(more.Remove(c), work)
      else Pack(more, work[..|work| - 1])
  }

  ghost function AddAll(he: HostEmbedding, cs: seq<Computer>): HostEmbedding {
    if cs == [] then he else AddAll(he, cs[1..]).Add(cs[0])
  }

  ghost function Ids(cs: seq<Computer>): set<Uuid> {
    set c | c in cs :: c.id
  }

  /** None of the computers is on the host yet, and they are all different. */
  ghost predicate NewTo(he: HostEmbedding, cs: seq<Computer>) {
    DistinctIds(cs) && Ids(cs) !! he.machines.Keys
  }

  lemma {:induction false} AddAllExact(he: HostEmbedding, cs: seq<Computer>)
    requires NewTo(he, cs)
    ensures var r := AddAll(he, cs);
            && r.host == he.host
            && r.machines.Keys == he.machines.Keys + Ids(cs)
            && (forall m :: m in he.machines ==> r.machines[m] == he.machines[m])
            && (forall m :: m in Ids(cs) ==> r.machines[m] in cs && r.machines[m].id == m)
  {
    if cs != [] {
      assert cs == [cs[0]] + cs[1..];
      assert Ids(cs) == {cs[0].id} + Ids(cs[1..]);
      AddAllExact(he, cs[1..]);
    }
  }

  /** Load only grows along the list: if a tail overloads the host, so does every
      longer one. */
  lemma {:induction false} LongerTailsOverload(he: HostEmbedding, work: seq<Computer>, i: nat, j: nat)
    requires NewTo(he, work) && i <= j <= |work|
    requires Overloaded(AddAll(he, work[j..]))
    ensures Overloaded(AddAll(he, work[i..]))
    decreases j - i
  {
    hide Overloaded;
    if i < j {
      TailIsNew(he, work, j);
      AddAllExact(he, work[j..]);
      AddThenRemove(AddAll(he, work[j..]), work[j - 1]);
      assert work[j - 1..] == [work[j - 1]] + work[j..];
      LongerTailsOverload(he, work, i, j - 1);
    }
  }

  lemma TailIsNew(he: HostEmbedding, work: seq<Computer>, j: nat)
    requires NewTo(he, work) && j <= |work|
    ensures NewTo(he, work[j..])
    ensures j > 0 ==> work[j - 1].id !in he.machines.Keys + Ids(work[j..])
  {
    assert Ids(work[j..]) <= Ids(work);
    if j > 0 {
      assert work[j - 1] in work;
    }
  }

  /** One round of the packing loop, with `work[m..]` on the host already. */
  lemma PackRound(he: HostEmbedding, work: seq<Computer>, m: nat)
    requires NewTo(he, work) && 0 < m <= |work|
    ensures var here, more := AddAll(he, work[m..]), AddAll(he, work[m - 1..]);
            Pack(here, work[..m]) ==
            if Overloaded(more) then Packing(here, work[..m]) else Pack(more, work[..m - 1])
  {
    hide Overloaded;
    var here, c := AddAll(he, work[m..]), work[m - 1];
    TailIsNew(he, work, m);
    AddAllExact(he, work[m..]);
    AddThenRemove(here, c);
    assert work[m - 1..] == [c] + work[m..];
    assert AddAll(he, work[m - 1..]) == here.Add(c);
    assert work[..m][..m - 1] == work[..m - 1];
  }

  ghost predicate PacksTo(he: HostEmbedding, work: seq<Computer>, m: nat, p: Packing)
    requires m <= |work|
  {
    && |p.rest| <= m && p.rest == work[..|p.rest|]
    && p.host == AddAll(he, work[|p.rest|..])
    && forall j :: 0 <= j < m ==> (|p.rest| <= j <==> !Overloaded(AddAll(he, work[j..])))
  }

  lemma {:induction false} PackFrom(he: HostEmbedding, work: seq<Computer>, m: nat)
    requires NewTo(he, work) && m <= |work|
    ensures PacksTo(he, work, m, Pack(AddAll(he, work[m..]), work[..m]))
  {
    hide Overloaded, AddAll, NewTo;
    if m > 0 {
      PackRound(he, work, m);
      var more := AddAll(he, work[m - 1..]);
      if Overloaded(more) {
        forall j | 0 <= j < m ensures Overloaded(AddAll(he, work[j..])) {
          LongerTailsOverload(he, work, j, m - 1);
        }
      } else {
        PackFrom(he, work, m - 1);
      }
    }
  }

  /** `pack` moves exactly the longest tail of the list that fits beside what is
      on the host already: a tail is moved if and only if it does not overload. */
  lemma PackMovesLongestTail(he: HostEmbedding, work: seq<Computer>)
    requires NewTo(he, work)
    ensures PacksTo(he, work, |work|, Pack(he, work))
    ensures Overloaded(he) ==> Pack(he, work) == Packing(he, work)
  {
    assert work[|work|..] == [] && work[..|work|] == work;
    PackFrom(he, work, |work|);
    if Overloaded(he) && work != [] {
      LongerTailsOverload(he, work, |work| - 1, |work|);
    }
  }

  /** Packing moves nothing exactly when the next computer does not fit. */
  lemma PackStuck(he: HostEmbedding, work: seq<Computer>)
    requires NewTo(he, work) && work != []
    ensures |Pack(he, work).rest| == |work| <==> Overloaded(he.Add(work[|work| - 1]))
    ensures |Pack(he, work).rest| == |work| ==> Pack(he, work) == Packing(he, work)
  {
    hide Overloaded;
    var c := work[|work| - 1];
    assert c in work;
    AddThenRemove(he, c);
  }

  /** Packing never overloads a host, whatever the ids. */
  lemma {:induction false} PackKeepsCapacity(he: HostEmbedding, work: seq<Computer>)
    ensures Overloaded(Pack(he, work).host) ==> Overloaded(he)
    decreases |work|
  {
    if work != [] {
      var c := work[|work| - 1];
      if Overloaded(he.Add(c)) {
        assert he.machines[c.id := c] - {c.id} == he.machines - {c.id};
        RemoveKeepsCapacity(he, c);
      } else {
        PackKeepsCapacity(he.Add(c), work[..|work| - 1]);
      }
    }
  }

  // ---- The state machine ----

  /** Where a computer went, and in which turn. */
  datatype Slot = Slot(host: Uuid, turn: int)

  /** `turns` holds each switch's own copies of its hosts, `hosts` the chart's.
      `placed` and `writer` record the run: where each computer was packed, and the
      turn that last wrote each host to the chart. */
  datatype State = State(
    hosts: map<Uuid, HostEmbedding>,
    work: seq<Computer>,
    turns: seq<map<Uuid, HostEmbedding>>,
    turn: nat,
    placed: map<Uuid, Slot>,
    writer: map<Uuid, int>)
  {
    predicate Running() { work != [] && turn < |turns| }

    ghost predicate Freest(pick: Uuid)
      requires turn < |turns|
    {
      && pick in turns[turn]
      && forall k :: k in turns[turn] ==> FreeNorm(turns[turn][k]) <= FreeNorm(turns[turn][pick])
    }

    ghost predicate CanStep(pick: Uuid) { Running() && Freest(pick) }

    ghost function Next(pick: Uuid): State
      requires CanStep(pick)
    {
      var p := Pack(turns[turn][pick], work);
      State(
        hosts[pick := p.host],
        p.rest,
        turns[turn := turns[turn][pick := p.host]],
        if |p.rest| == |work| then turn + 1 else turn,
        placed + (map m | m in Ids(work[|p.rest|..]) :: Slot(pick, turn)),
        writer[pick := turn])
    }

    /** The turn whose copy of host `k` the chart holds, -1 for none. */
    ghost function Writer(k: Uuid): int { if k in writer then writer[k] else -1 }
  }

  ghost predicate LegalRun(s: State, picks: seq<Uuid>)
    decreases |picks|, 0
  {
    picks == [] ||
    (LegalRun(s, picks[..|picks| - 1]) && Run(s, picks[..|picks| - 1]).CanStep(picks[|picks| - 1]))
  }

  ghost function Run(s: State, picks: seq<Uuid>): State
    requires LegalRun(s, picks)
    decreases |picks|, 1
  {
    if picks == [] then s else Run(s, picks[..|picks| - 1]).Next(picks[|picks| - 1])
  }

  lemma NoSteps(s: State)
    ensures LegalRun(s, []) && Run(s, []) == s
  {
  }

  lemma RunOneMore(s: State, picks: seq<Uuid>, pick: Uuid)
    requires LegalRun(s, picks) && Run(s, picks).CanStep(pick)
    ensures LegalRun(s, picks + [pick])
    ensures Run(s, picks + [pick]) == Run(s, picks).Next(pick)
  {
    hide FreeNorm, Overloaded, Pack;
    assert (picks + [pick])[..|picks|] == picks;
  }

  /** A state before the first pick: every copy is the chart's host. */
  ghost predicate Fresh(s: State) {
    && s.turn == 0 && s.placed == map[] && s.writer == map[]
    && (forall i, k :: 0 <= i < |s.turns| && k in s.turns[i] ==> k in s.hosts && s.turns[i][k] == s.hosts[k])
  }

  ghost predicate NewComputers(s: State) {
    DistinctIds(s.work) && forall k :: k in s.hosts ==> Ids(s.work) !! s.hosts[k].machines.Keys
  }

  /** `he` is `base` and the computers placed on host `k` in turn `t`, nothing else. */
  ghost predicate Extends(he: HostEmbedding, base: HostEmbedding, work: seq<Computer>,
                          placed: map<Uuid, Slot>, k: Uuid, t: int) {
    && he.host == base.host
    && (forall m :: m in he.machines <==> m in base.machines || (m in placed && placed[m] == Slot(k, t)))
    && (forall m :: m in base.machines ==> he.machines[m] == base.machines[m])
    && (forall m :: m in he.machines && m !in base.machines ==> he.machines[m] in work && he.machines[m].id == m)
  }

  ghost predicate SameShape(s0: State, s: State) {
    && s.hosts.Keys == s0.hosts.Keys
    && |s.turns| == |s0.turns| && s.turn <= |s.turns|
    && (forall i :: 0 <= i < |s.turns| ==> s.turns[i].Keys == s0.turns[i].Keys)
    && (forall i :: s.turn < i < |s.turns| ==> s.turns[i] == s0.turns[i])
  }

  /** The computers placed so far and those left are the work list, in order. */
  ghost predicate WorkSplit(s0: State, s: State) {
    && s.work <= s0.work
    && s.placed.Keys == Ids(s0.work[|s.work|..])
  }

  ghost predicate TurnsRecorded(s0: State, s: State) {
    && (forall k :: k in s.writer ==> 0 <= s.writer[k] <= s.turn && s.writer[k] < |s0.turns|
                                      && k in s0.turns[s.writer[k]])
    && (forall m :: m in s.placed ==>
          var slot := s.placed[m];
          && slot.host in s.writer && 0 <= slot.turn <= s.writer[slot.host]
          && slot.turn < |s0.turns| && slot.host in s0.turns[slot.turn])
  }

  ghost predicate Contents(s0: State, s: State)
    requires SameShape(s0, s)
  {
    && (forall k :: k in s.hosts ==> Extends(s.hosts[k], s0.hosts[k], s0.work, s.placed, k, s.Writer(k)))
    && (s.turn < |s.turns| ==> forall k :: k in s.turns[s.turn] ==>
          k in s0.hosts && Extends(s.turns[s.turn][k], s0.hosts[k], s0.work, s.placed, k, s.turn))
  }

  ghost predicate Inv(s0: State, s: State) {
    SameShape(s0, s) && WorkSplit(s0, s) && TurnsRecorded(s0, s) && Contents(s0, s)
  }

  ghost predicate Begins(s: State) { Fresh(s) && NewComputers(s) }

  lemma InvInitially(s: State)
    requires Begins(s)
    ensures Inv(s, s)
  {
    assert s.work[|s.work|..] == [];
  }

  /** The split of the work list before and after a step. */
  lemma MovedPart(s0: State, s: State, rest: seq<Computer>)
    requires DistinctIds(s0.work) && WorkSplit(s0, s) && rest <= s.work
    ensures Ids(s0.work[|rest|..]) == Ids(s0.work[|s.work|..]) + Ids(s.work[|rest|..])
    ensures Ids(s.work) !! s.placed.Keys
    ensures DistinctIds(s.work) && Ids(s.work[|rest|..]) <= Ids(s.work) <= Ids(s0.work)
    ensures forall c :: c in s.work ==> c in s0.work
  {
    assert s0.work[|rest|..] == s.work[|rest|..] + s0.work[|s.work|..];
    forall c | c in s.work ensures c.id !in s.placed {
      var i :| 0 <= i < |s.work| && s.work[i] == c;
      assert s0.work[i] == c;
    }
  }

  lemma AddedKeys(keys: set<Uuid>, base: set<Uuid>, ids: set<Uuid>, placed: map<Uuid, Slot>, slot: Slot)
    requires ids !! placed.Keys
    requires forall m :: m in keys <==> m in base || (m in placed && placed[m] == slot)
    ensures var more := placed + (map m | m in ids :: slot);
            forall m :: m in keys + ids <==> m in base || (m in more && more[m] == slot)
  {
  }

  lemma AddExtends(he: HostEmbedding, base: HostEmbedding, all: seq<Computer>, cs: seq<Computer>,
                   placed: map<Uuid, Slot>, k: Uuid, t: int)
    requires Extends(he, base, all, placed, k, t)
    requires NewTo(he, cs) && Ids(cs) !! base.machines.Keys + placed.Keys
    requires forall c :: c in cs ==> c in all
    ensures Extends(AddAll(he, cs), base, all, placed + (map m | m in Ids(cs) :: Slot(k, t)), k, t)
  {
    AddAllExact(he, cs);
    AddedKeys(he.machines.Keys, base.machines.Keys, Ids(cs), placed, Slot(k, t));
    hide AddAll, Ids;
    var r := AddAll(he, cs);
    forall m | m in r.machines && m !in base.machines ensures r.machines[m] in all && r.machines[m].id == m {
      if m !in Ids(cs) {
        assert m in he.machines;
      }
    }
  }

  /** Packing the copy of host `k` in turn `t` extends it by the moved computers. */
  lemma PackExtends(he: HostEmbedding, base: HostEmbedding, all: seq<Computer>, work: seq<Computer>,
                    placed: map<Uuid, Slot>, k: Uuid, t: int)
    requires Extends(he, base, all, placed, k, t)
    requires NewTo(base, work) && Ids(work) !! placed.Keys
    requires forall c :: c in work ==> c in all
    ensures NewTo(he, work)
    ensures var p := Pack(he, work);
            Extends(p.host, base, all, placed + (map m | m in Ids(work[|p.rest|..]) :: Slot(k, t)), k, t)
  {
    assert NewTo(he, work);
    hide Overloaded, Extends;
    var p := Pack(he, work);
    assert p.host == AddAll(he, work[|p.rest|..]) by { PackMovesLongestTail(he, work); }
    TailIsNew(he, work, |p.rest|);
    TailIsNew(base, work, |p.rest|);
    AddExtends(he, base, all, work[|p.rest|..], placed, k, t);
  }

  /** Copies of other hosts, or of the same host in other turns, are not affected. */
  lemma OthersExtend(he: HostEmbedding, base: HostEmbedding, all: seq<Computer>, moved: set<Uuid>,
                     placed: map<Uuid, Slot>, slot: Slot, k: Uuid, t: int)
    requires Extends(he, base, all, placed, k, t)
    requires moved !! placed.Keys && slot != Slot(k, t)
    ensures Extends(he, base, all, placed + (map m | m in moved :: slot), k, t)
  {
  }

  lemma StepKeepsShape(s0: State, s: State, pick: Uuid)
    requires SameShape(s0, s) && s.CanStep(pick) && pick in s0.hosts
    ensures SameShape(s0, s.Next(pick))
  {
    hide FreeNorm, Pack;
  }

  lemma StepSplitsWork(s0: State, s: State, pick: Uuid)
    requires DistinctIds(s0.work) && WorkSplit(s0, s) && s.CanStep(pick)
    ensures WorkSplit(s0, s.Next(pick))
  {
    hide FreeNorm, Pack, Ids;
    MovedPart(s0, s, Pack(s.turns[s.turn][pick], s.work).rest);
  }

  lemma StepRecordsTurns(s0: State, s: State, pick: Uuid, t: State)
    requires SameShape(s0, s) && TurnsRecorded(s0, s) && s.CanStep(pick) && t == s.Next(pick)
    ensures TurnsRecorded(s0, t)
  {
    hide FreeNorm, Pack, Ids;
    assert pick in s0.turns[s.turn];
    forall k | k in t.writer
      ensures 0 <= t.writer[k] <= t.turn && t.writer[k] < |s0.turns| && k in s0.turns[t.writer[k]]
    {
      assert k != pick ==> k in s.writer && t.writer[k] == s.writer[k];
    }
    forall m | m in t.placed
      ensures var slot := t.placed[m];
              && slot.host in t.writer && 0 <= slot.turn <= t.writer[slot.host]
              && slot.turn < |s0.turns| && slot.host in s0.turns[slot.turn]
    {
      assert t.placed[m] == Slot(pick, s.turn) || (m in s.placed && t.placed[m] == s.placed[m]);
    }
  }

  /** The chart's hosts after a step. */
  lemma StepExtendsHosts(s0: State, s: State, pick: Uuid, k: Uuid)
    requires Begins(s0) && Inv(s0, s) && s.CanStep(pick) && k in s0.hosts && pick in s0.hosts
    ensures var t := s.Next(pick);
            k in t.hosts && Extends(t.hosts[k], s0.hosts[k], s0.work, t.placed, k, t.Writer(k))
  {
    hide FreeNorm, Pack, Extends, Ids, TurnsRecorded;
    var p := Pack(s.turns[s.turn][pick], s.work);
    MovedPart(s0, s, p.rest);
    if k == pick {
      PackExtends(s.turns[s.turn][pick], s0.hosts[pick], s0.work, s.work, s.placed, pick, s.turn);
    } else {
      OthersExtend(s.hosts[k], s0.hosts[k], s0.work, Ids(s.work[|p.rest|..]), s.placed, Slot(pick, s.turn),
                   k, s.Writer(k));
    }
  }

  lemma StepExtendsCopies(s0: State, s: State, pick: Uuid, k: Uuid)
    requires Begins(s0) && Inv(s0, s) && s.CanStep(pick) && k in s.turns[s.turn]
    ensures var t := s.Next(pick);
            k in s0.hosts && Extends(t.turns[s.turn][k], s0.hosts[k], s0.work, t.placed, k, s.turn)
  {
    hide FreeNorm, Pack, Extends, Ids, TurnsRecorded;
    var c, p := s.turns[s.turn][k], Pack(s.turns[s.turn][pick], s.work);
    MovedPart(s0, s, p.rest);
    if k == pick {
      PackExtends(c, s0.hosts[pick], s0.work, s.work, s.placed, pick, s.turn);
    } else {
      OthersExtend(c, s0.hosts[k], s0.work, Ids(s.work[|p.rest|..]), s.placed, Slot(pick, s.turn), k, s.turn);
    }
  }

  /** The copies of the switch whose turn it is after a step: those just worked on,
      or the untouched ones of the next switch. */
  lemma StepExtendsTurn(s0: State, s: State, pick: Uuid, t: State, k: Uuid)
    requires Begins(s0) && Inv(s0, s) && s.CanStep(pick) && t == s.Next(pick)
    requires t.turn < |t.turns| && k in t.turns[t.turn]
    ensures k in s0.hosts && Extends(t.turns[t.turn][k], s0.hosts[k], s0.work, t.placed, k, t.turn)
  {
    hide Inv, FreeNorm, Pack, Extends, Ids;
    if t.turn > s.turn {
      NextTurn(s0, s, pick, t, k);
      UntouchedExtends(s0.hosts[k], s0.work, t.placed, k, t.turn);
    } else {
      StepExtendsCopies(s0, s, pick, k);
    }
  }

  /** When the turn ends, nothing has been placed in the next one, whose copies are as
      they were at first. */
  lemma NextTurn(s0: State, s: State, pick: Uuid, t: State, k: Uuid)
    requires Begins(s0) && Inv(s0, s) && s.CanStep(pick) && t == s.Next(pick)
    requires s.turn < t.turn < |t.turns| && k in t.turns[t.turn]
    ensures k in s0.hosts && t.turns[t.turn][k] == s0.hosts[k]
    ensures forall m :: m in t.placed ==> t.placed[m] != Slot(k, t.turn)
  {
    hide FreeNorm, Pack, Ids, NewComputers, WorkSplit, Contents;
    assert t.turns[t.turn] == s.turns[t.turn] == s0.turns[t.turn];
    assert forall m :: m in s.placed ==> s.placed[m].turn <= s.turn;
  }

  lemma UntouchedExtends(base: HostEmbedding, all: seq<Computer>, placed: map<Uuid, Slot>, k: Uuid, t: int)
    requires forall m :: m in placed ==> placed[m] != Slot(k, t)
    ensures Extends(base, base, all, placed, k, t)
  {
  }

  lemma StepKeepsInv(s0: State, s: State, pick: Uuid)
    requires Begins(s0) && Inv(s0, s) && s.CanStep(pick)
    ensures Inv(s0, s.Next(pick))
  {
    hide FreeNorm, Pack, Extends, Ids;
    var t := s.Next(pick);
    assert pick in s0.hosts;
    StepKeepsShape(s0, s, pick);
    StepSplitsWork(s0, s, pick);
    StepRecordsTurns(s0, s, pick, t);
    forall k | k in t.hosts
      ensures Extends(t.hosts[k], s0.hosts[k], s0.work, t.placed, k, t.Writer(k))
    {
      StepExtendsHosts(s0, s, pick, k);
    }
    if t.turn < |t.turns| {
      forall k | k in t.turns[t.turn]
        ensures k in s0.hosts && Extends(t.turns[t.turn][k], s0.hosts[k], s0.work, t.placed, k, t.turn)
      {
        StepExtendsTurn(s0, s, pick, t, k);
      }
    }
  }

  /** Over every run: the computers placed so far and those left are the ordered work
      list, and every copy is its host plus what that turn placed on it. */
  lemma {:induction false} InvOverRuns(s0: State, picks: seq<Uuid>)
    requires Begins(s0) && LegalRun(s0, picks)
    ensures Inv(s0, Run(s0, picks))
  {
    hide FreeNorm, Inv;
    if picks == [] {
      InvInitially(s0);
    } else {
      var init := picks[..|picks| - 1];
      InvOverRuns(s0, init);
      StepKeepsInv(s0, Run(s0, init), picks[|picks| - 1]);
    }
  }

  /** Every step moves a computer or ends a turn, so no run is longer than the work
      list and the switches together. */
  lemma {:induction false} RunsAreBounded(s0: State, picks: seq<Uuid>)
    requires LegalRun(s0, picks) && s0.turn <= |s0.turns|
    ensures var s := Run(s0, picks);
            && s.turn <= |s.turns| == |s0.turns|
            && |picks| + |s.work| + (|s.turns| - s.turn) <= |s0.work| + (|s0.turns| - s0.turn)
  {
    hide FreeNorm, Pack;
    if picks != [] {
      var init := picks[..|picks| - 1];
      RunsAreBounded(s0, init);
    }
  }

  /** `he` is on the host of `base`, and overloads it only if `base` did. */
  ghost predicate Fits(he: HostEmbedding, base: HostEmbedding) {
    he.host == base.host && (Overloaded(he) ==> Overloaded(base))
  }

  ghost predicate WithinCapacity(s0: State, s: State) {
    && s.hosts.Keys == s0.hosts.Keys
    && (forall k :: k in s.hosts ==> Fits(s.hosts[k], s0.hosts[k]))
    && (forall i, k :: 0 <= i < |s.turns| && k in s.turns[i] ==> k in s0.hosts && Fits(s.turns[i][k], s0.hosts[k]))
  }

  lemma WithinCapacityInitially(s0: State)
    requires Fresh(s0)
    ensures WithinCapacity(s0, s0)
  {
    hide Overloaded;
  }

  lemma StepWithinCapacity(s0: State, s: State, pick: Uuid)
    requires WithinCapacity(s0, s) && s.CanStep(pick)
    ensures WithinCapacity(s0, s.Next(pick))
  {
    hide FreeNorm, Overloaded, Pack;
    PackKeepsCapacity(s.turns[s.turn][pick], s.work);
  }

  /** Over every run, whatever the ids, no host becomes overloaded. */
  lemma {:induction false} CapacityOverRuns(s0: State, picks: seq<Uuid>)
    requires Fresh(s0) && LegalRun(s0, picks)
    ensures WithinCapacity(s0, Run(s0, picks))
  {
    hide FreeNorm, Overloaded, Pack, WithinCapacity;
    if picks == [] {
      WithinCapacityInitially(s0);
    } else {
      var init, pick := picks[..|picks| - 1], picks[|picks| - 1];
      CapacityOverRuns(s0, init);
      StepWithinCapacity(s0, Run(s0, init), pick);
    }
  }

  /** When a step ends a turn, the switch's freest host would be overloaded by the
      next computer, and the step changes neither the list nor that host's copy. */
  lemma TurnEndsStuck(s0: State, s: State, pick: Uuid)
    requires Begins(s0) && Inv(s0, s) && s.CanStep(pick)
    ensures var t := s.Next(pick);
            t.turn > s.turn <==> Overloaded(s.turns[s.turn][pick].Add(s.work[|s.work| - 1]))
    ensures var t := s.Next(pick);
            t.turn > s.turn ==> t.work == s.work && t.turns == s.turns
  {
    hide Inv, Begins, FreeNorm, Overloaded, Pack, Ids, NewTo;
    var he := s.turns[s.turn][pick];
    WorkIsNew(s0, s, pick);
    PackStuck(he, s.work);
    assert s.turns[s.turn][pick := he] == s.turns[s.turn];
  }

  /** The computers left are not on the copies of the switch whose turn it is. */
  lemma WorkIsNew(s0: State, s: State, k: Uuid)
    requires Begins(s0) && Inv(s0, s) && s.turn < |s.turns| && k in s.turns[s.turn]
    ensures NewTo(s.turns[s.turn][k], s.work)
  {
    hide FreeNorm, Overloaded, Pack, Ids, TurnsRecorded;
    MovedPart(s0, s, []);
    assert Extends(s.turns[s.turn][k], s0.hosts[k], s0.work, s.placed, k, s.turn);
  }

  /** A placed computer is on the chart exactly when no later turn wrote its host. */
  lemma KeptIffNotOverwritten(s0: State, s: State, m: Uuid, k: Uuid)
    requires Begins(s0) && Inv(s0, s) && m in s.placed && k in s.hosts
    ensures m in s.hosts[k].machines <==> s.placed[m] == Slot(k, s.Writer(k))
  {
    assert m in Ids(s0.work);
  }

  ghost predicate SingleHomed(s: State) {
    forall i, j :: 0 <= i < j < |s.turns| ==> s.turns[i].Keys !! s.turns[j].Keys
  }

  /** A host on one switch only never loses a computer. */
  lemma NothingLostWhenSingleHomed(s0: State, s: State, m: Uuid)
    requires Begins(s0) && Inv(s0, s) && SingleHomed(s0) && m in s.placed
    ensures s.placed[m].host in s.hosts && m in s.hosts[s.placed[m].host].machines
  {
    hide Extends, NewComputers, WorkSplit, FreeNorm, Overloaded;
    var slot := s.placed[m];
    assert slot.host in s0.turns[slot.turn] && slot.host in s0.turns[s.writer[slot.host]];
    KeptIffNotOverwritten(s0, s, m, slot.host);
  }
}

/** What `neighbors` and `connectedComputers` answer (core/blueprint.cxx:146-192), in terms
    of the blueprint's links alone. */
module Connections {
  import opened Wrappers
  import opened Blueprints
  import opened BlueprintEdits

  /** Seen from `n`, the link leads to `e`. A link from `n` to itself leads to its second end. */
  ghost predicate Leads(l: Link, n: Uuid, e: Endpoint) {
    (l.a.id == n && l.b == e) || (l.a.id != n && l.b.id == n && l.a == e)
  }

  /** `at` are the places of the links between `n` and something in `ids`, in order, and
      `ends` what they lead to. */
  ghost predicate Selects(ids: set<Uuid>, links: seq<Link>, n: Uuid, ends: seq<Endpoint>, at: seq<nat>) {
    && |at| == |ends|
    && (forall i, j :: 0 <= i < j < |at| ==> at[i] < at[j])
    && (forall i :: 0 <= i < |at| ==> at[i] < |links| && Leads(links[at[i]], n, ends[i]) && ends[i].id in ids)
    && (forall j, e: Endpoint :: 0 <= j < |links| && e.id in ids && Leads(links[j], n, e) ==> j in at)
  }

  lemma {:induction false} NeighborsSnoc(links: seq<Link>, l: Link, n: Uuid)
    ensures Neighbors(links + [l], n) ==
            Neighbors(links, n) + match Neighbor(l, n) case Some(e) => [e] case None => []
  {
    if links != [] {
      NeighborsSnoc(links[1..], l, n);
      assert (links + [l])[1..] == links[1..] + [l];
    }
  }

  lemma {:induction false} EndsByLinks(ids: set<Uuid>, links: seq<Link>, n: Uuid) returns (at: seq<nat>)
    ensures Selects(ids, links, n, ComputerEnds(ids, Neighbors(links, n)), at)
  {
    if links == [] {
      at := [];
    } else {
      var init, l := links[..|links| - 1], links[|links| - 1];
      at := EndsByLinks(ids, init, n);
      assert links == init + [l];
      NeighborsSnoc(init, l, n);
      var es := Neighbors(init, n);
      match Neighbor(l, n) {
        case Some(e) =>
          assert (es + [e])[..|es|] == es;
          SelectsMore(ids, init, l, n, ComputerEnds(ids, es), at, e);
          if e.id in ids {
            at := at + [|init|];
          }
        case None =>
          assert es + [] == es;
      }
    }
  }

  lemma SelectsMore(ids: set<Uuid>, init: seq<Link>, l: Link, n: Uuid, ends: seq<Endpoint>, at: seq<nat>, e: Endpoint)
    requires Selects(ids, init, n, ends, at) && Leads(l, n, e)
    ensures e.id in ids ==> Selects(ids, init + [l], n, ends + [e], at + [|init|])
    ensures e.id !in ids ==> Selects(ids, init + [l], n, ends, at)
  {
    var links, more := init + [l], at + [|init|];
    forall j, x: Endpoint | 0 <= j < |links| && x.id in ids && Leads(links[j], n, x)
      ensures j in more && (e.id !in ids ==> j in at)
    {
      if j < |init| {
        assert Leads(init[j], n, x);
        assert j in at;
      } else {
        assert x == e && more[|at|] == j;
      }
    }
  }

  /** The link between `n` and a computer that attachment `a` stands for. */
  ghost predicate LeadsTo(b: Blueprint, l: Link, n: Uuid, a: Attachment) {
    exists c :: c in b.computers && b.computers[c] == a.computer && Leads(l, n, Endpoint(c, Some(a.mac)))
  }

  /** `row` has one attachment for each link between `n` and a computer, in link order. */
  ghost predicate FollowsLinks(b: Blueprint, n: Uuid, row: seq<Attachment>, at: seq<nat>) {
    && |at| == |row|
    && (forall i, j :: 0 <= i < j < |at| ==> at[i] < at[j])
    && (forall i :: 0 <= i < |at| ==> at[i] < |b.links| && LeadsTo(b, b.links[at[i]], n, row[i]))
    && (forall j, e: Endpoint :: 0 <= j < |b.links| && e.id in b.computers && Leads(b.links[j], n, e) ==> j in at)
  }

  /** The far end has the mac of an interface of its computer. */
  ghost predicate EndReadable(b: Blueprint, e: Endpoint)
    requires e.id in b.computers
  {
    var interfaces := b.computers[e.id].interfaces;
    e.mac.Some? && exists k :: k in interfaces && interfaces[k].mac == e.mac.value
  }

  /** The connections of `n` can be read exactly when every link between `n` and a computer
      has the mac of one of its interfaces, and then they are these links, in order. */
  lemma RowFollowsLinks(b: Blueprint, n: Uuid)
    ensures ConnectedComputers(b, n).Ok? <==>
            forall j, e: Endpoint :: 0 <= j < |b.links| && e.id in b.computers && Leads(b.links[j], n, e) ==>
              EndReadable(b, e)
    ensures ConnectedComputers(b, n).Ok? ==> exists at :: FollowsLinks(b, n, ConnectedComputers(b, n).value, at)
  {
    hide Attachments, EndReadable;
    var es := Neighbors(b.links, n);
    var ends := ComputerEnds(b.computers.Keys, es);
    AttachmentsExact(b.computers, es);
    var at := EndsByLinks(b.computers.Keys, b.links, n);
    SameReadable(b);
    if ConnectedComputers(b, n).Ok? {
      EndsFollowLinks(b, n, ends, ConnectedComputers(b, n).value, at);
    }
    SelectedReadable(b, n, ends, at);
  }

  lemma SameReadable(b: Blueprint)
    ensures forall e: Endpoint :: e.id in b.computers ==> (ReadableEnd(b.computers, e) <==> EndReadable(b, e))
  {
  }

  lemma SelectedReadable(b: Blueprint, n: Uuid, ends: seq<Endpoint>, at: seq<nat>)
    requires Selects(b.computers.Keys, b.links, n, ends, at)
    ensures (forall i :: 0 <= i < |ends| ==> EndReadable(b, ends[i])) <==>
            forall j, e: Endpoint :: 0 <= j < |b.links| && e.id in b.computers && Leads(b.links[j], n, e) ==>
              EndReadable(b, e)
  {
    hide EndReadable;
    forall j, e: Endpoint | 0 <= j < |b.links| && e.id in b.computers && Leads(b.links[j], n, e)
      ensures exists i :: 0 <= i < |ends| && ends[i] == e
    {
      assert j in at;
      var i :| 0 <= i < |at| && at[i] == j;
      assert ends[i] == e;
    }
    forall i | 0 <= i < |ends| ensures Leads(b.links[at[i]], n, ends[i]) {
    }
  }

  lemma EndsFollowLinks(b: Blueprint, n: Uuid, ends: seq<Endpoint>, row: seq<Attachment>, at: seq<nat>)
    requires Selects(b.computers.Keys, b.links, n, ends, at) && AttachedAt(b.computers, ends, row)
    ensures FollowsLinks(b, n, row, at)
  {
    hide Leads;
    forall i | 0 <= i < |at| ensures LeadsTo(b, b.links[at[i]], n, row[i]) {
      assert ends[i] == Endpoint(ends[i].id, Some(row[i].mac));
    }
  }

  /** An error names a computer at the far end of such a link: one without a mac, or one whose
      mac no interface of the computer has. */
  lemma ErrorsNameLinks(b: Blueprint, n: Uuid, c: Uuid, mac: string)
    ensures ConnectedComputers(b, n) == Err(MissingMac(c)) ==>
              c in b.computers && exists j :: 0 <= j < |b.links| && Leads(b.links[j], n, Endpoint(c, None))
    ensures ConnectedComputers(b, n) == Err(NoSuchInterface(c, mac)) ==>
              && c in b.computers && (exists j :: 0 <= j < |b.links| && Leads(b.links[j], n, Endpoint(c, Some(mac))))
              && forall k :: k in b.computers[c].interfaces ==> b.computers[c].interfaces[k].mac != mac
  {
    var es := Neighbors(b.links, n);
    var ends := ComputerEnds(b.computers.Keys, es);
    AttachmentsExact(b.computers, es);
    var at := EndsByLinks(b.computers.Keys, b.links, n);
    if ConnectedComputers(b, n).Err? {
      var x := ConnectedComputers(b, n).error;
      var i: nat :| FailsAt(b.computers, ends, i, x);
      hide Attachments, Leads;
      assert ends[i] == Endpoint(ends[i].id, ends[i].mac) && Leads(b.links[at[i]], n, ends[i]);
    }
  }

  /** A computer is linked exactly when some link joins it to a network of the blueprint. */
  lemma LinkedByLinks(b: Blueprint, c: Uuid)
    requires b.Valid() && LinksReadable(b) && c in b.computers
    ensures Linked(b, c) <==>
            exists n, j, mac :: n in b.networks && 0 <= j < |b.links| && Leads(b.links[j], n, Endpoint(c, mac))
  {
    hide Row, Leads;
    forall n | n in b.networks
      ensures InRow(Row(b, n), c) <==> exists j, mac :: 0 <= j < |b.links| && Leads(b.links[j], n, Endpoint(c, mac))
    {
      InRowByLinks(b, n, c);
    }
    if Linked(b, c) {
      var n :| LinkedTo(b, c, n);
    }
    if n, j, mac :| n in b.networks && 0 <= j < |b.links| && Leads(b.links[j], n, Endpoint(c, mac)) {
      assert LinkedTo(b, c, n);
    }
  }

  lemma InRowByLinks(b: Blueprint, n: Uuid, c: Uuid)
    requires b.Valid() && ConnectedComputers(b, n).Ok? && c in b.computers
    ensures InRow(Row(b, n), c) <==> exists j, mac :: 0 <= j < |b.links| && Leads(b.links[j], n, Endpoint(c, mac))
  {
    RowFollowsLinks(b, n);
    hide Leads, ConnectedComputers, InRow, FollowsLinks;
    var row := ConnectedComputers(b, n).value;
    var at :| FollowsLinks(b, n, row, at);
    if InRow(row, c) {
      InRowHasLink(b, n, row, at, c);
    }
    if j, mac :| 0 <= j < |b.links| && Leads(b.links[j], n, Endpoint(c, mac)) {
      LinkIsInRow(b, n, row, at, c, j, mac);
    }
  }

  lemma InRowHasLink(b: Blueprint, n: Uuid, row: seq<Attachment>, at: seq<nat>, c: Uuid)
    requires b.Valid() && FollowsLinks(b, n, row, at) && InRow(row, c)
    ensures exists j, mac :: 0 <= j < |b.links| && Leads(b.links[j], n, Endpoint(c, mac))
  {
    hide Leads;
    var i :| 0 <= i < |row| && row[i].computer.id == c;
    assert LeadsTo(b, b.links[at[i]], n, row[i]);
    var d :| d in b.computers && b.computers[d] == row[i].computer
             && Leads(b.links[at[i]], n, Endpoint(d, Some(row[i].mac)));
  }

  lemma LinkIsInRow(b: Blueprint, n: Uuid, row: seq<Attachment>, at: seq<nat>, c: Uuid, j: nat, mac: Option<string>)
    requires b.Valid() && FollowsLinks(b, n, row, at) && c in b.computers
    requires j < |b.links| && Leads(b.links[j], n, Endpoint(c, mac))
    ensures InRow(row, c)
  {
    hide Leads;
    var e := Endpoint(c, mac);
    assert e.id in b.computers && Leads(b.links[j], n, e);
    assert j in at;
    var i :| 0 <= i < |at| && at[i] == j;
    assert LeadsTo(b, b.links[at[i]], n, row[i]);
    OneFarEnd(b.links[j], n, e);
  }

  lemma OneFarEnd(l: Link, n: Uuid, e: Endpoint)
    requires Leads(l, n, e)
    ensures forall x :: Leads(l, n, x) ==> x == e
  {
  }

  // ---- Connecting ----

  /** Connecting an interface of computer `c` to network `n` adds its attachment at the end
      of the connections of `n` and changes those of no other network. */
  lemma ConnectAttaches(b: Blueprint, c: Uuid, mac: string, n: Uuid, m: Uuid)
    requires c in b.computers && HasMac(b.computers[c], mac) && n !in b.computers
    ensures var before, after := ConnectedComputers(b, m), ConnectedComputers(EditBlueprint(b, Connect(c, mac, n)), m);
            after == if m == n && before.Ok? then Ok(before.value + [Attachment(b.computers[c], mac)]) else before
  {
    hide HasMac;
    var l := Link(Endpoint(c, Some(mac)), Endpoint(n, None));
    NeighborsSnoc(b.links, l, m);
    assert Neighbors(b.links, m) + [] == Neighbors(b.links, m);
    if Neighbor(l, m).Some? {
      AttachmentsSnoc(b.computers, Neighbors(b.links, m), Neighbor(l, m).value);
    }
  }

  lemma {:induction false} AttachmentsSnoc(computers: map<Uuid, Computer>, es: seq<Endpoint>, e: Endpoint)
    requires e.id in computers ==> e.mac.Some? && HasMac(computers[e.id], e.mac.value)
    ensures var before := Attachments(computers, es);
            Attachments(computers, es + [e]) ==
            if before.Ok? && e.id in computers then Ok(before.value + [Attachment(computers[e.id], e.mac.value)])
            else before
  {
    hide HasMac;
    if es == [] {
      assert es + [e] == [e] && [e][1..] == [];
      assert Attachments(computers, []) == Ok([]);
      if e.id in computers {
        var x := Attachment(computers[e.id], e.mac.value);
        assert [x] + [] == [x] == [] + [x];
      }
    } else {
      AttachmentsSnoc(computers, es[1..], e);
      assert (es + [e])[1..] == es[1..] + [e] && (es + [e])[0] == es[0];
      var rest := Attachments(computers, es[1..]);
      if rest.Ok? && e.id in computers && es[0].id in computers && es[0].mac.Some? {
        var a, x := Attachment(computers[es[0].id], es[0].mac.value), Attachment(computers[e.id], e.mac.value);
        assert [a] + (rest.value + [x]) == [a] + rest.value + [x];
      }
    }
  }

  /** A link between networks connects no computer. */
  lemma ConnectNetworksAttachesNothing(b: Blueprint, x: Uuid, y: Uuid, m: Uuid)
    requires x !in b.computers && y !in b.computers
    ensures ConnectedComputers(EditBlueprint(b, ConnectNetworks(x, y)), m) == ConnectedComputers(b, m)
  {
    var l := Link(Endpoint(x, None), Endpoint(y, None));
    NeighborsSnoc(b.links, l, m);
    assert Neighbors(b.links, m) + [] == Neighbors(b.links, m);
    if Neighbor(l, m).Some? {
      AttachmentsSnoc(b.computers, Neighbors(b.links, m), Neighbor(l, m).value);
    }
  }

  // ---- Computers that gain an interface ----

  /** The two results name the same computers and macs, or the same error. */
  ghost predicate SameAttachments(x: Result<seq<Attachment>, LinkError>, y: Result<seq<Attachment>, LinkError>) {
    match (x, y)
    case (Ok(p), Ok(q)) =>
      |p| == |q| && forall i :: 0 <= i < |p| ==> p[i].computer.id == q[i].computer.id && p[i].mac == q[i].mac
    case (Err(d), Err(e)) => d == e
    case _ => false
  }

  /** The computers of `ds` are those of `cs`, and those in `gen` have one more mac. */
  ghost predicate GainsMacs(cs: map<Uuid, Computer>, ds: map<Uuid, Computer>, gen: map<Uuid, string>) {
    && ds.Keys == cs.Keys
    && forall c :: c in cs ==>
         && ds[c].id == cs[c].id
         && forall m :: HasMac(ds[c], m) <==> HasMac(cs[c], m) || (c in gen && gen[c] == m)
  }

  /** The error is about a mac that its computer gained. */
  ghost predicate Repaired(gen: map<Uuid, string>, x: LinkError) {
    x.NoSuchInterface? && x.computer in gen && gen[x.computer] == x.mac
  }

  ghost predicate GainTo(gen: map<Uuid, string>, x: Result<seq<Attachment>, LinkError>,
                         y: Result<seq<Attachment>, LinkError>) {
    if x.Err? && Repaired(gen, x.error) then y != x else SameAttachments(x, y)
  }

  lemma ErrorIsBad(computers: map<Uuid, Computer>, es: seq<Endpoint>)
    requires Attachments(computers, es).Err? && Attachments(computers, es).error.NoSuchInterface?
    ensures var x := Attachments(computers, es).error;
            x.computer in computers && !HasMac(computers[x.computer], x.mac)
  {
    hide HasMac;
    AttachmentsExact(computers, es);
  }

  /** Reading the connections gives the same, but for an error that the gain repairs. */
  lemma {:induction false} AttachmentsGain(cs: map<Uuid, Computer>, ds: map<Uuid, Computer>, gen: map<Uuid, string>,
                                           es: seq<Endpoint>)
    requires GainsMacs(cs, ds, gen)
    ensures GainTo(gen, Attachments(cs, es), Attachments(ds, es))
    ensures !(Attachments(cs, es).Err? && Repaired(gen, Attachments(cs, es).error)) <==>
            SameAttachments(Attachments(cs, es), Attachments(ds, es))
  {
    hide HasMac;
    if es != [] {
      AttachmentsGain(cs, ds, gen, es[1..]);
      var y := Attachments(ds, es);
      if y.Err? && y.error.NoSuchInterface? {
        ErrorIsBad(ds, es);
      }
    }
  }
}

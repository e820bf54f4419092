/** The address loops of the materializer's `construct`
    (core/materialization-service.cxx:108-124) over a blueprint's records. */
module Materialization {
  import opened Wrappers
  import opened Blueprints
  import opened BlueprintStore
  import opened Loads
  import Addresses

  // ---- Interface handles ----

  /** What the loops read and never change: each computer's interfaces, their macs, and
      each network's computer ends and address space. */
  datatype Wiring = Wiring(
    interfaces: map<Uuid, set<InterfaceRecord>>, macs: map<InterfaceRecord, string>,
    ends: map<Uuid, seq<Endpoint>>, spaces: map<Uuid, IpV4Address>)

  /** All interfaces that `b` reaches. */
  ghost function InterfacesOf(b: BlueprintRecord): set<InterfaceRecord>
    reads b`computers, b.computers.Values
  {
    set c, i | c in b.computers && i in b.computers[c].interfaces.Values :: i
  }

  /** The computer ends on the links of network `n`, in link order. */
  function EndsAt(b: BlueprintRecord, n: Uuid): seq<Endpoint>
    reads b`computers, b`links
  {
    ComputerEnds(b.computers.Keys, Neighbors(b.links, n))
  }

  ghost function WiringOf(b: BlueprintRecord): Wiring
    reads b, b.networks.Values, b.computers.Values, InterfacesOf(b)`mac
  {
    Wiring(
      map c | c in b.computers :: b.computers[c].interfaces.Values,
      map i | i in InterfacesOf(b) :: i.mac,
      map n | n in b.networks :: EndsAt(b, n),
      map n | n in b.networks :: b.networks[n].ipv4)
  }

  /** `i` is an interface of the computer at end `e`, with that end's mac. */
  ghost predicate IsHandle(w: Wiring, e: Endpoint, i: InterfaceRecord) {
    e.id in w.interfaces && i in w.interfaces[e.id] && i in w.macs && e.mac == Some(w.macs[i])
  }

  ghost predicate HasHandle(w: Wiring, e: Endpoint) {
    exists i :: i in w.macs && IsHandle(w, e, i)
  }

  ghost predicate HandlesOf(w: Wiring, ends: seq<Endpoint>, handles: seq<InterfaceRecord>) {
    |handles| == |ends| && forall k :: 0 <= k < |ends| ==> IsHandle(w, ends[k], handles[k])
  }

  ghost predicate AllHaveHandles(w: Wiring, ends: seq<Endpoint>) {
    forall e :: e in ends ==> HasHandle(w, e)
  }

  lemma HandleIffReadable(b: BlueprintRecord, e: Endpoint)
    requires e.id in b.computers
    ensures HasHandle(WiringOf(b), e) <==> ReadableEnd(b.View().computers, e)
  {
    var c, v := b.computers[e.id], b.View().computers[e.id];
    assert v.interfaces.Keys == c.interfaces.Keys;
    forall k | k in c.interfaces
      ensures v.interfaces[k].mac == c.interfaces[k].mac
      ensures e.mac == Some(c.interfaces[k].mac) ==> IsHandle(WiringOf(b), e, c.interfaces[k])
    {
      assert c.interfaces[k] in c.interfaces.Values;
    }
  }

  /** The links of network `n` can be read exactly when all computer ends have a handle. */
  lemma HandlesIffReadable(b: BlueprintRecord, n: Uuid)
    ensures AllHaveHandles(WiringOf(b), EndsAt(b, n)) <==> ConnectedComputers(b.View(), n).Ok?
  {
    hide HasHandle, ReadableEnd, Attachments, WiringOf;
    var v, es := b.View(), Neighbors(b.links, n);
    assert v.computers.Keys == b.computers.Keys;
    AttachmentsExact(v.computers, es);
    EndsAreIn(b.computers.Keys, es);
    var ends := EndsAt(b, n);
    forall e | e in ends ensures HasHandle(WiringOf(b), e) <==> ReadableEnd(v.computers, e) {
      HandleIffReadable(b, e);
    }
  }

  lemma HandlesReached(b: BlueprintRecord, ends: seq<Endpoint>, handles: seq<InterfaceRecord>)
    requires HandlesOf(WiringOf(b), ends, handles)
    ensures forall i :: i in handles ==> i in InterfacesOf(b)
  {
    forall k | 0 <= k < |handles| ensures handles[k] in InterfacesOf(b) {
      assert IsHandle(WiringOf(b), ends[k], handles[k]);
    }
  }

  /** The interface handles of `connectedComputers`, or none for its exceptions. */
  method ConnectedHandles(b: BlueprintRecord, n: Uuid) returns (r: Option<seq<InterfaceRecord>>)
    ensures r.Some? <==> AllHaveHandles(WiringOf(b), EndsAt(b, n))
    ensures r.Some? ==> HandlesOf(WiringOf(b), EndsAt(b, n), r.value)
    ensures WiringOf(b) == old(WiringOf(b)) && AddressesOf(b) == old(AddressesOf(b))
  {
    var handles, es := [], Neighbors(b.links, n);
    EndsAreIn(b.computers.Keys, es);
    for k := 0 to |es|
      invariant HandlesOf(WiringOf(b), ComputerEnds(b.computers.Keys, es[..k]), handles)
      invariant AllHaveHandles(WiringOf(b), ComputerEnds(b.computers.Keys, es[..k]))
    {
      var e := es[k];
      assert es[..k + 1][..k] == es[..k];
      if e.id in b.computers {
        assert e in EndsAt(b, n);
        var interfaces := b.computers[e.id].interfaces;
        if i :| i in interfaces.Keys && e.mac == Some(interfaces[i].mac) {
          assert interfaces[i] in interfaces.Values;
          assert IsHandle(WiringOf(b), e, interfaces[i]);
          handles := handles + [interfaces[i]];
        } else {
          return None;
        }
      }
    }
    assert es[..|es|] == es;
    r := Some(handles);
  }

  // ---- Addresses ----

  ghost function AddressesOf(b: BlueprintRecord): map<InterfaceRecord, IpV4Address>
    reads b`computers, b.computers.Values, InterfacesOf(b)`address
  {
    map i | i in InterfacesOf(b) :: i.address
  }

  /** The k-th handle is given the k-th number that does not end in .0; a handle listed
      twice keeps its last address. */
  ghost function Written(m: map<InterfaceRecord, IpV4Address>, base: IpV4Address, hs: seq<InterfaceRecord>):
    map<InterfaceRecord, IpV4Address>
  {
    if hs == [] then m
    else Written(m, base, hs[..|hs| - 1])[hs[|hs| - 1] := Addresses.Handed(base, |hs| - 1)]
  }

  ghost function WrittenAll(m: map<InterfaceRecord, IpV4Address>, spaces: map<Uuid, IpV4Address>,
                            order: seq<Uuid>, handles: map<Uuid, seq<InterfaceRecord>>):
    map<InterfaceRecord, IpV4Address>
  {
    if order == [] then m
    else
      var before, last := WrittenAll(m, spaces, order[..|order| - 1], handles), order[|order| - 1];
      if last in spaces && last in handles then Written(before, spaces[last], handles[last]) else before
  }

  lemma {:induction false} WrittenElsewhere(m: map<InterfaceRecord, IpV4Address>, base: IpV4Address,
                                            hs: seq<InterfaceRecord>, i: InterfaceRecord)
    requires i in m && i !in hs
    ensures i in Written(m, base, hs) && Written(m, base, hs)[i] == m[i]
  {
    hide Addresses.Handed;
    if hs != [] {
      WrittenElsewhere(m, base, hs[..|hs| - 1], i);
    }
  }

  lemma {:induction false} WrittenAt(m: map<InterfaceRecord, IpV4Address>, base: IpV4Address,
                                     hs: seq<InterfaceRecord>, k: nat)
    requires k < |hs| && forall j :: k < j < |hs| ==> hs[j] != hs[k]
    ensures hs[k] in Written(m, base, hs) && Written(m, base, hs)[hs[k]] == Addresses.Handed(base, k)
  {
    hide Addresses.Handed;
    if k < |hs| - 1 {
      WrittenAt(m, base, hs[..|hs| - 1], k);
    }
  }

  /** No later assignment goes to the k-th handle of the p-th network. */
  ghost predicate LastUse(order: seq<Uuid>, handles: map<Uuid, seq<InterfaceRecord>>, p: nat, k: nat)
    requires forall n :: n in order ==> n in handles
    requires p < |order| && k < |handles[order[p]]|
  {
    && (forall j :: k < j < |handles[order[p]]| ==> handles[order[p]][j] != handles[order[p]][k])
    && (forall q :: p < q < |order| ==> handles[order[p]][k] !in handles[order[q]])
  }

  /** After the loops the k-th linked interface of a network has the k-th number of that
      network, unless the loops come by the interface again. */
  lemma {:induction false} LinkedGetAddresses(
    m: map<InterfaceRecord, IpV4Address>, spaces: map<Uuid, IpV4Address>, order: seq<Uuid>,
    handles: map<Uuid, seq<InterfaceRecord>>, p: nat, k: nat)
    requires forall n :: n in order ==> n in spaces && n in handles
    requires p < |order| && k < |handles[order[p]]| && LastUse(order, handles, p, k)
    ensures var i, r := handles[order[p]][k], WrittenAll(m, spaces, order, handles);
            i in r && r[i] == Addresses.Handed(spaces[order[p]], k)
  {
    hide Addresses.Handed, Written;
    var init, last := order[..|order| - 1], order[|order| - 1];
    if p < |init| {
      LinkedGetAddresses(m, spaces, init, handles, p, k);
      WrittenElsewhere(WrittenAll(m, spaces, init, handles), spaces[last], handles[last], handles[order[p]][k]);
    } else {
      WrittenAt(WrittenAll(m, spaces, init, handles), spaces[last], handles[last], k);
    }
  }

  /** An interface on no link keeps its address. */
  lemma {:induction false} OthersKeepAddresses(
    m: map<InterfaceRecord, IpV4Address>, spaces: map<Uuid, IpV4Address>, order: seq<Uuid>,
    handles: map<Uuid, seq<InterfaceRecord>>, i: InterfaceRecord)
    requires i in m && forall n :: n in order ==> n in spaces && n in handles && i !in handles[n]
    ensures var r := WrittenAll(m, spaces, order, handles); i in r && r[i] == m[i]
  {
    hide Written;
    if order != [] {
      var init, last := order[..|order| - 1], order[|order| - 1];
      OthersKeepAddresses(m, spaces, init, handles, i);
      WrittenElsewhere(WrittenAll(m, spaces, init, handles), spaces[last], handles[last], i);
    }
  }

  method SetAddress(ghost b: BlueprintRecord, i: InterfaceRecord, a: IpV4Address)
    requires i in InterfacesOf(b)
    modifies InterfacesOf(b)`address
    ensures AddressesOf(b) == old(AddressesOf(b))[i := a] && WiringOf(b) == old(WiringOf(b))
  {
    ghost var before := AddressesOf(b);
    i.address := a;
    assert AddressesOf(b) == before[i := a];
  }

  /** The inner loop, over the interfaces on one network. */
  method AssignAddresses(ghost b: BlueprintRecord, base: IpV4Address, hs: seq<InterfaceRecord>)
    requires base.addr < 0x1_0000_0000 && forall i :: i in hs ==> i in InterfacesOf(b)
    modifies InterfacesOf(b)`address
    ensures AddressesOf(b) == Written(old(AddressesOf(b)), base, hs) && WiringOf(b) == old(WiringOf(b))
  {
    hide Addresses.Nth, Addresses.Wrap, Addresses.Handed, AddressesOf, WiringOf, InterfacesOf;
    var a := base;
    for k := 0 to |hs|
      invariant a.mask == base.mask
      invariant a.addr == if k == 0 then base.addr else Addresses.Wrap(Addresses.Nth(base.addr, k - 1) + 1)
      invariant AddressesOf(b) == Written(old(AddressesOf(b)), base, hs[..k]) && WiringOf(b) == old(WiringOf(b))
    {
      NextAddress(base, k, a);
      if Addresses.NetZero(a) {
        a := Addresses.Incremented(a);
      }
      SetAddress(b, hs[k], a);
      assert hs[..k + 1][..k] == hs[..k];
      AfterNth(base, k, a);
      a := Addresses.Incremented(a);
    }
    assert hs[..|hs|] == hs;
  }

  lemma NextAddress(base: IpV4Address, k: nat, a: IpV4Address)
    requires base.addr < 0x1_0000_0000 && a.mask == base.mask
    requires a.addr == if k == 0 then base.addr else Addresses.Wrap(Addresses.Nth(base.addr, k - 1) + 1)
    ensures (if Addresses.NetZero(a) then Addresses.Incremented(a) else a) == Addresses.Handed(base, k)
  {
    hide Addresses.Nth;
    var x := if k == 0 then base.addr else Addresses.Nth(base.addr, k - 1) + 1;
    assert a.addr == Addresses.Wrap(x);
    if k == 0 {
      Addresses.NthFirst(base.addr);
    } else {
      Addresses.NthNext(base.addr, k - 1);
    }
    Addresses.WrapKeepsLastByte(x);
    Addresses.WrapWrap(x, 1);
  }

  lemma AfterNth(base: IpV4Address, k: nat, a: IpV4Address)
    requires a == Addresses.Handed(base, k)
    ensures Addresses.Incremented(a).mask == base.mask
    ensures Addresses.Incremented(a).addr == Addresses.Wrap(Addresses.Nth(base.addr, k) + 1)
  {
    hide Addresses.Nth;
    Addresses.WrapWrap(Addresses.Nth(base.addr, k), 1);
  }

  ghost predicate Found(w: Wiring, handles: map<Uuid, seq<InterfaceRecord>>) {
    forall n :: n in handles ==> n in w.ends && HandlesOf(w, w.ends[n], handles[n])
  }

  lemma WiringKeys(b: BlueprintRecord)
    ensures WiringOf(b).ends.Keys == WiringOf(b).spaces.Keys == b.networks.Keys
    ensures forall n :: n in b.networks ==>
              WiringOf(b).spaces[n] == b.networks[n].ipv4 && WiringOf(b).ends[n] == EndsAt(b, n)
  {
  }

  /** One round of the outer loop. */
  method AssignNetwork(b: BlueprintRecord, n: Uuid) returns (r: Option<seq<InterfaceRecord>>)
    requires n in b.networks && b.networks[n].ipv4.addr < 0x1_0000_0000
    modifies InterfacesOf(b)`address
    ensures WiringOf(b) == old(WiringOf(b))
    ensures n in WiringOf(b).ends && (r.Some? <==> AllHaveHandles(WiringOf(b), WiringOf(b).ends[n]))
    ensures r.Some? ==> HandlesOf(WiringOf(b), WiringOf(b).ends[n], r.value)
    ensures n in WiringOf(b).spaces
    ensures AddressesOf(b) ==
            if r.None? then old(AddressesOf(b)) else Written(old(AddressesOf(b)), WiringOf(b).spaces[n], r.value)
  {
    hide AllHaveHandles, HandlesOf, EndsAt, Written, AddressesOf, WiringOf, InterfacesOf;
    WiringKeys(b);
    r := ConnectedHandles(b, n);
    if r.Some? {
      HandlesReached(b, EndsAt(b, n), r.value);
      AssignAddresses(b, b.networks[n].ipv4, r.value);
    }
  }

  /** The two loops, over the networks in any order. They stop at the first network whose
      links cannot be read. */
  method AssignAll(b: BlueprintRecord)
      returns (ok: bool, ghost order: seq<Uuid>, ghost handles: map<Uuid, seq<InterfaceRecord>>)
    requires forall n :: n in b.networks ==> b.networks[n].ipv4.addr < 0x1_0000_0000
    modifies InterfacesOf(b)`address
    ensures WiringOf(b) == old(WiringOf(b)) && WiringOf(b).ends.Keys == WiringOf(b).spaces.Keys == b.networks.Keys
    ensures ok <==> forall n :: n in b.networks ==> AllHaveHandles(WiringOf(b), WiringOf(b).ends[n])
    ensures handles.Keys <= b.networks.Keys && (ok ==> handles.Keys == b.networks.Keys)
    ensures Enumerates(order, handles.Keys) && Found(WiringOf(b), handles)
    ensures AddressesOf(b) == WrittenAll(old(AddressesOf(b)), WiringOf(b).spaces, order, handles)
  {
    hide AllHaveHandles, HandlesOf, Found, Enumerates, AddressesOf, WiringOf, InterfacesOf, Written, WrittenAll;
    order, handles := [], map[];
    ghost var m, w := AddressesOf(b), WiringOf(b);
    WiringKeys(b);
    NoneWritten(m, w.spaces);
    NoneFound(w);
    assert handles.Keys == {};
    var todo := b.networks.Keys;
    while todo != {}
      invariant todo <= b.networks.Keys && handles.Keys == b.networks.Keys - todo && Enumerates(order, handles.Keys)
      invariant WiringOf(b) == w && Found(w, handles)
      invariant forall n :: n in handles ==> AllHaveHandles(w, w.ends[n])
      invariant AddressesOf(b) == WrittenAll(m, w.spaces, order, handles)
      decreases todo
    {
      var n :| n in todo;
      var hs := AssignNetwork(b, n);
      if hs.None? {
        return false, order, handles;
      }
      OneMoreFound(w, handles, n, hs.value);
      OneMoreWritten(m, w.spaces, order, handles, n, hs.value);
      order, handles, todo := order + [n], handles[n := hs.value], todo - {n};
    }
    ok := true;
  }

  lemma NoneFound(w: Wiring)
    ensures Found(w, map[])
  {
  }

  lemma OneMoreFound(w: Wiring, handles: map<Uuid, seq<InterfaceRecord>>, n: Uuid, hs: seq<InterfaceRecord>)
    requires Found(w, handles) && n in w.ends && HandlesOf(w, w.ends[n], hs)
    ensures Found(w, handles[n := hs])
  {
    hide HandlesOf;
  }

  lemma NoneWritten(m: map<InterfaceRecord, IpV4Address>, spaces: map<Uuid, IpV4Address>)
    ensures WrittenAll(m, spaces, [], map[]) == m && Enumerates<Uuid>([], {})
  {
  }

  lemma {:induction false} SameWritten(m: map<InterfaceRecord, IpV4Address>, spaces: map<Uuid, IpV4Address>,
                                       order: seq<Uuid>, handles: map<Uuid, seq<InterfaceRecord>>,
                                       more: map<Uuid, seq<InterfaceRecord>>)
    requires forall n :: n in order ==> n in handles && n in more && more[n] == handles[n]
    ensures WrittenAll(m, spaces, order, more) == WrittenAll(m, spaces, order, handles)
  {
    hide Written;
    if order != [] {
      SameWritten(m, spaces, order[..|order| - 1], handles, more);
    }
  }

  lemma OneMoreWritten(m: map<InterfaceRecord, IpV4Address>, spaces: map<Uuid, IpV4Address>, order: seq<Uuid>,
                       handles: map<Uuid, seq<InterfaceRecord>>, n: Uuid, hs: seq<InterfaceRecord>)
    requires n in spaces && n !in handles && Enumerates(order, handles.Keys)
    ensures Enumerates(order + [n], handles[n := hs].Keys)
    ensures WrittenAll(m, spaces, order + [n], handles[n := hs]) ==
            Written(WrittenAll(m, spaces, order, handles), spaces[n], hs)
  {
    hide Written;
    SameWritten(m, spaces, order, handles, handles[n := hs]);
    assert (order + [n])[..|order|] == order;
  }
}

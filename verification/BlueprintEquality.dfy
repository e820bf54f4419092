/** The source's own equality of blueprints (core/blueprint.cxx:393-429 and the operators
    of its parts), and what survives a trip through JSON under it. */
module BlueprintEquality {
  import opened Units
  import opened Blueprints
  import opened BlueprintEdits
  import opened BlueprintJson
  import opened Connections

  /** The spacing of doubles at one. */
  const EPSILON: real := 1.0 / 4503599627370496.0

  predicate SameLatency(a: Latency, b: Latency) {
    var d := a.ToMS() - b.ToMS();
    (if d < 0.0 then -d else d) < EPSILON
  }

  predicate SameBandwidth(a: Bandwidth, b: Bandwidth) { a.Megabits() == b.Megabits() }

  predicate SameMemory(a: Memory, b: Memory) { a.Bytes() == b.Bytes() }

  /** Macs and addresses are not compared. */
  predicate SameInterface(a: Interface, b: Interface) {
    a.name == b.name && SameLatency(a.latency, b.latency) && SameBandwidth(a.capacity, b.capacity)
  }

  predicate SameNetwork(a: Network, b: Network) {
    a.name == b.name && SameBandwidth(a.capacity, b.capacity) && SameLatency(a.latency, b.latency) && a.id == b.id
  }

  /** Only the left computer's interfaces are looked up. */
  predicate SameComputer(a: Computer, b: Computer) {
    && a.name == b.name && a.os == b.os && SameMemory(a.memory, b.memory) && SameMemory(a.disk, b.disk)
    && a.cores == b.cores
    && forall k :: k in a.interfaces ==> k in b.interfaces && SameInterface(a.interfaces[k], b.interfaces[k])
  }

  /** Ids of the blueprints and links are not compared. */
  predicate SameBlueprint(a: Blueprint, b: Blueprint) {
    && a.name == b.name
    && |a.computers| == |b.computers|
    && (forall k :: k in a.computers ==> k in b.computers && SameComputer(a.computers[k], b.computers[k]))
    && |a.networks| == |b.networks|
    && (forall k :: k in a.networks ==> k in b.networks && SameNetwork(a.networks[k], b.networks[k]))
  }

  lemma SameParts(i: Interface, n: Network, m: Memory)
    ensures SameInterface(i, i) && SameNetwork(n, n) && SameMemory(m, m)
  {
  }

  ghost predicate DefaultDisk(c: Computer) { c.disk.Bytes() == DEFAULT_DISK.Bytes() }

  lemma SameAsReread(c: Computer, mac: string)
    ensures SameComputer(c, Reread(c, mac)) <==> DefaultDisk(c)
    ensures SameComputer(Reread(c, mac), c) <==> DefaultDisk(c) && CIFX in c.interfaces
  {
    hide SameInterface;
    var r := Reread(c, mac);
    forall k | k in c.interfaces
      ensures r.interfaces[k] == c.interfaces[k] && SameInterface(c.interfaces[k], c.interfaces[k])
    {
      SameParts(c.interfaces[k], Network(c.id, "", Bandwidth(0, BPS), Latency(0, NS), IpV4Address(0, 0)), c.memory);
    }
    assert r.interfaces.Keys == c.interfaces.Keys + {CIFX};
  }

  lemma SameNetworks(networks: map<Uuid, Network>)
    ensures forall k :: k in networks ==> SameNetwork(networks[k], networks[k])
  {
  }

  ghost predicate DefaultDisks(b: Blueprint) {
    forall c :: c in b.computers ==> DefaultDisk(b.computers[c])
  }

  /** A blueprint equals what is read back exactly when all its disks have the default
      size; the other way round only if, besides, each computer has a control interface. */
  lemma EqualAfterJson(b: Blueprint, o: Orders, newMac: nat -> string)
    requires EncodableBlueprint(b) && OrdersOf(b, o)
    ensures var r := FromJson(ToJson(b, o), newMac);
            && r.Ok?
            && (SameBlueprint(b, r.value) <==> DefaultDisks(b))
            && (SameBlueprint(r.value, b) <==> DefaultDisks(b) && AllHaveCifx(b))
  {
    hide FromJson, ToJson, SameBlueprint, DefaultDisks;
    JsonRoundTrip(b, o, newMac);
    EqualWhenReread(b, FromJson(ToJson(b, o), newMac).value, o, newMac);
  }

  lemma EqualWhenReread(b: Blueprint, r: Blueprint, o: Orders, newMac: nat -> string)
    requires OrdersOf(b, o) && IsReread(b, r, o, newMac)
    ensures SameBlueprint(b, r) <==> DefaultDisks(b)
    ensures SameBlueprint(r, b) <==> DefaultDisks(b) && AllHaveCifx(b)
  {
    hide SameComputer, SameNetwork, DefaultDisk, Reread;
    SameNetworks(b.networks);
    assert |r.computers.Keys| == |b.computers.Keys|;
    forall c | c in b.computers
      ensures SameComputer(b.computers[c], r.computers[c]) <==> DefaultDisk(b.computers[c])
      ensures SameComputer(r.computers[c], b.computers[c]) <==> DefaultDisk(b.computers[c]) && HasCifx(b.computers[c])
    {
      var i :| 0 <= i < |o.computers| && o.computers[i] == c;
      SameAsReread(b.computers[c], newMac(i));
    }
  }

  // ---- Connections after a trip through JSON ----

  lemma RereadMacs(c: Computer, newMac: string, mac: string)
    ensures Reread(c, newMac).id == c.id
    ensures HasMac(Reread(c, newMac), mac) <==> HasMac(c, mac) || (!HasCifx(c) && mac == newMac)
  {
    var r := Reread(c, newMac);
    forall k | k in c.interfaces ensures r.interfaces[k] == c.interfaces[k] {
    }
    assert CIFX in r.interfaces && r.interfaces.Keys == c.interfaces.Keys + {CIFX};
    assert !HasCifx(c) ==> r.interfaces[CIFX].mac == newMac;
    if HasMac(c, mac) {
      var k :| k in c.interfaces && c.interfaces[k].mac == mac;
      assert r.interfaces[k].mac == mac;
    }
  }

  ghost function PlaceOf(ids: seq<Uuid>, c: Uuid): (i: nat)
    requires c in ids
    ensures i < |ids| && ids[i] == c
  {
    var i :| 0 <= i < |ids| && ids[i] == c;
    i
  }

  /** The macs generated for the computers without a control interface. */
  ghost function Generated(b: Blueprint, o: Orders, newMac: nat -> string): map<Uuid, string>
    requires OrdersOf(b, o)
  {
    map c | c in b.computers && !HasCifx(b.computers[c]) :: newMac(PlaceOf(o.computers, c))
  }

  lemma RereadGains(b: Blueprint, r: Blueprint, o: Orders, newMac: nat -> string)
    requires OrdersOf(b, o) && IsReread(b, r, o, newMac)
    ensures GainsMacs(b.computers, r.computers, Generated(b, o, newMac))
  {
    hide Reread, HasMac;
    var gen := Generated(b, o, newMac);
    forall c | c in b.computers
      ensures r.computers[c].id == b.computers[c].id
      ensures forall m :: HasMac(r.computers[c], m) <==> HasMac(b.computers[c], m) || (c in gen && gen[c] == m)
    {
      var i := PlaceOf(o.computers, c);
      RereadMacs(b.computers[c], newMac(i), "");
      forall m ensures HasMac(r.computers[c], m) <==> HasMac(b.computers[c], m) || (c in gen && gen[c] == m) {
        RereadMacs(b.computers[c], newMac(i), m);
      }
    }
  }

  /** On every network the blueprint read back attaches the same computers by the same
      macs in the same order as the one written, or fails with the same error. The one
      exception is an error about a computer without control interface, if the mac that
      was missing happens to be the one generated for the control interface it gets. */
  lemma ConnectionsSurviveJson(b: Blueprint, o: Orders, newMac: nat -> string, n: Uuid)
    requires EncodableBlueprint(b) && OrdersOf(b, o)
    ensures var x, r := ConnectedComputers(b, n), FromJson(ToJson(b, o), newMac);
            && r.Ok?
            && (SameAttachments(x, ConnectedComputers(r.value, n)) <==>
                !(x.Err? && Repaired(Generated(b, o, newMac), x.error)))
  {
    hide FromJson, ToJson, Attachments, Repaired, Generated, GainsMacs;
    JsonRoundTrip(b, o, newMac);
    var r := FromJson(ToJson(b, o), newMac).value;
    RereadGains(b, r, o, newMac);
    AttachmentsGain(b.computers, r.computers, Generated(b, o, newMac), Neighbors(b.links, n));
  }
}

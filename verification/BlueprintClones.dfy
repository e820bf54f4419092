/** What `clone` copies (core/blueprint.cxx:335-349, 733-741, 927-934, 1121-1137). */
module BlueprintClones {
  import opened Units
  import opened Blueprints
  import opened BlueprintEdits
  import opened BlueprintEquality
  import opened Connections

  /** An interface's address is not copied, nor a network's address space. */
  function ClonedInterface(i: Interface): Interface { i.(address := IpV4Address(0, 0)) }

  function ClonedNetwork(n: Network): Network { n.(ipv4 := DEFAULT_SPACE) }

  function ClonedInterfaces(interfaces: map<string, Interface>): map<string, Interface> {
    map k | k in interfaces :: ClonedInterface(interfaces[k])
  }

  function ClonedComputer(c: Computer, newMac: string): Computer {
    c.(interfaces := map[CIFX := DefaultCifx(newMac)] + ClonedInterfaces(c.interfaces))
  }

  function ClonedNetworks(networks: map<Uuid, Network>): map<Uuid, Network> {
    map k | k in networks :: ClonedNetwork(networks[k])
  }

  function ClonedComputers(computers: map<Uuid, Computer>, newMac: Uuid -> string): map<Uuid, Computer> {
    map k | k in computers :: ClonedComputer(computers[k], newMac(k))
  }

  function ClonedBlueprint(b: Blueprint, newMac: Uuid -> string): Blueprint {
    b.(computers := ClonedComputers(b.computers, newMac), networks := ClonedNetworks(b.networks))
  }

  // ---- When a clone equals its original ----

  lemma SameAsCloned(c: Computer, newMac: string)
    ensures SameComputer(c, ClonedComputer(c, newMac))
    ensures SameComputer(ClonedComputer(c, newMac), c) <==> CIFX in c.interfaces
  {
    var r := ClonedComputer(c, newMac);
    hide SameLatency;
    forall k | k in c.interfaces
      ensures SameInterface(c.interfaces[k], r.interfaces[k]) && SameInterface(r.interfaces[k], c.interfaces[k])
    {
      SameLatencyReflexive(c.interfaces[k].latency);
    }
    assert r.interfaces.Keys == c.interfaces.Keys + {CIFX};
  }

  lemma SameLatencyReflexive(l: Latency)
    ensures SameLatency(l, l)
  {
  }

  /** A blueprint equals its clone; the clone equals the blueprint exactly when each
      computer has a control interface, which the clone has anyway. */
  lemma EqualAfterClone(b: Blueprint, newMac: Uuid -> string)
    ensures SameBlueprint(b, ClonedBlueprint(b, newMac))
    ensures SameBlueprint(ClonedBlueprint(b, newMac), b) <==>
            forall c :: c in b.computers ==> CIFX in b.computers[c].interfaces
  {
    hide SameComputer, SameLatency, ClonedComputer;
    var r := ClonedBlueprint(b, newMac);
    assert r.computers.Keys == b.computers.Keys && r.networks.Keys == b.networks.Keys;
    assert |r.computers| == |b.computers| && |r.networks| == |b.networks| by {
      assert |r.computers.Keys| == |b.computers.Keys| && |r.networks.Keys| == |b.networks.Keys|;
    }
    forall c | c in b.computers
      ensures SameComputer(b.computers[c], r.computers[c])
      ensures SameComputer(r.computers[c], b.computers[c]) <==> CIFX in b.computers[c].interfaces
    {
      SameAsCloned(b.computers[c], newMac(c));
    }
    forall n | n in b.networks
      ensures SameNetwork(b.networks[n], r.networks[n]) && SameNetwork(r.networks[n], b.networks[n])
    {
      SameLatencyReflexive(b.networks[n].latency);
    }
  }

  /** A control interface, and no address on any interface. */
  ghost predicate CopiedInFull(c: Computer) {
    CIFX in c.interfaces && forall k :: k in c.interfaces ==> c.interfaces[k].address == IpV4Address(0, 0)
  }

  lemma ComputerCopiedIff(c: Computer, newMac: string)
    ensures ClonedComputer(c, newMac) == c <==> CopiedInFull(c)
  {
    var r := ClonedComputer(c, newMac);
    assert forall k :: k in c.interfaces ==> r.interfaces[k] == ClonedInterface(c.interfaces[k]);
    if CopiedInFull(c) {
      assert r.interfaces == c.interfaces;
    }
    if r == c {
      assert CIFX in r.interfaces;
    }
  }

  /** A clone is the blueprint again, in every field, exactly when all networks have the
      default address space, no interface has an address, and each computer has a
      control interface. */
  lemma CloneIsCopyIff(b: Blueprint, newMac: Uuid -> string)
    ensures ClonedBlueprint(b, newMac) == b <==>
            && (forall n :: n in b.networks ==> b.networks[n].ipv4 == DEFAULT_SPACE)
            && (forall c :: c in b.computers ==> CopiedInFull(b.computers[c]))
  {
    hide ClonedComputer, CopiedInFull;
    var r := ClonedBlueprint(b, newMac);
    forall c | c in b.computers ensures r.computers[c] == b.computers[c] <==> CopiedInFull(b.computers[c]) {
      ComputerCopiedIff(b.computers[c], newMac(c));
    }
    forall n | n in b.networks ensures r.networks[n] == b.networks[n] <==> b.networks[n].ipv4 == DEFAULT_SPACE {
    }
    if r == b {
      assert forall c :: c in b.computers ==> r.computers[c] == b.computers[c];
      assert forall n :: n in b.networks ==> r.networks[n] == b.networks[n];
    }
    if forall c :: c in b.computers ==> CopiedInFull(b.computers[c]) {
      assert r.computers == b.computers;
    }
    if forall n :: n in b.networks ==> b.networks[n].ipv4 == DEFAULT_SPACE {
      assert r.networks == b.networks;
    }
  }

  /** `d` is `c` but for addresses and perhaps a control interface. */
  ghost predicate SameButAddresses(c: Computer, d: Computer) {
    && d.(interfaces := c.interfaces) == c
    && d.interfaces.Keys == c.interfaces.Keys + {CIFX}
    && forall k :: k in c.interfaces ==> d.interfaces[k].(address := c.interfaces[k].address) == c.interfaces[k]
  }

  lemma ComputerKeepsTheRest(c: Computer, newMac: string)
    ensures SameButAddresses(c, ClonedComputer(c, newMac))
  {
  }

  /** Everything but addresses, address spaces and missing control interfaces is copied. */
  lemma CloneKeepsTheRest(b: Blueprint, newMac: Uuid -> string)
    ensures var r := ClonedBlueprint(b, newMac);
            && r.id == b.id && r.name == b.name && r.links == b.links
            && r.networks.Keys == b.networks.Keys && r.computers.Keys == b.computers.Keys
            && (forall n :: n in b.networks ==> r.networks[n].(ipv4 := b.networks[n].ipv4) == b.networks[n])
            && forall c :: c in b.computers ==> SameButAddresses(b.computers[c], r.computers[c])
  {
    hide ClonedComputer, SameButAddresses;
    forall c | c in b.computers ensures SameButAddresses(b.computers[c], ClonedBlueprint(b, newMac).computers[c]) {
      ComputerKeepsTheRest(b.computers[c], newMac(c));
    }
  }

  /** The macs generated for the computers without a control interface. */
  ghost function Generated(b: Blueprint, newMac: Uuid -> string): map<Uuid, string> {
    map c | c in b.computers && !HasCifx(b.computers[c]) :: newMac(c)
  }

  lemma CloneGains(b: Blueprint, newMac: Uuid -> string)
    ensures GainsMacs(b.computers, ClonedBlueprint(b, newMac).computers, Generated(b, newMac))
  {
    hide HasMac;
    var r, gen := ClonedBlueprint(b, newMac), Generated(b, newMac);
    forall c, m | c in b.computers
      ensures HasMac(r.computers[c], m) <==> HasMac(b.computers[c], m) || (c in gen && gen[c] == m)
    {
      CloneMacs(b.computers[c], newMac(c), m);
    }
  }

  lemma CloneMacs(c: Computer, newMac: string, mac: string)
    ensures HasMac(ClonedComputer(c, newMac), mac) <==> HasMac(c, mac) || (!HasCifx(c) && mac == newMac)
  {
    var r := ClonedComputer(c, newMac);
    forall k | k in c.interfaces ensures r.interfaces[k].mac == c.interfaces[k].mac {
    }
    assert CIFX in r.interfaces && r.interfaces.Keys == c.interfaces.Keys + {CIFX};
    assert !HasCifx(c) ==> r.interfaces[CIFX].mac == newMac;
    if HasMac(c, mac) {
      var k :| k in c.interfaces && c.interfaces[k].mac == mac;
      assert r.interfaces[k].mac == mac;
    }
  }

  /** A clone attaches the same computers by the same macs in the same order, or fails with
      the same error, but for an error that a new control interface repairs. */
  lemma ConnectionsSurviveClone(b: Blueprint, newMac: Uuid -> string, n: Uuid)
    ensures var x := ConnectedComputers(b, n);
            SameAttachments(x, ConnectedComputers(ClonedBlueprint(b, newMac), n)) <==>
            !(x.Err? && Repaired(Generated(b, newMac), x.error))
  {
    hide Attachments, Repaired, Generated, GainsMacs, ClonedComputers;
    CloneGains(b, newMac);
    AttachmentsGain(b.computers, ClonedBlueprint(b, newMac).computers, Generated(b, newMac), Neighbors(b.links, n));
  }
}

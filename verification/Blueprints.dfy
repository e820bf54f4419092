/** Blueprints as values: what core/blueprint.cxx computes from a blueprint
    without changing it. The shared records behind the handles are modelled in
    BlueprintStore, whose views are the values of this module. */
module Blueprints {
  import opened Wrappers
  import opened Units

  datatype Uuid = Uuid(bits: nat)

  /** The name of the control interface. */
  const CIFX := "cifx"

  datatype IpV4Address = IpV4Address(addr: nat, mask: nat)

  datatype Interface = Interface(
    name: string, mac: string, latency: Latency, capacity: Bandwidth, address: IpV4Address)

  datatype Computer = Computer(
    id: Uuid, name: string, os: string, memory: Memory, disk: Memory, cores: nat,
    interfaces: map<string, Interface>)

  datatype Network = Network(
    id: Uuid, name: string, capacity: Bandwidth, latency: Latency, ipv4: IpV4Address)

  datatype Endpoint = Endpoint(id: Uuid, mac: Option<string>)

  datatype Link = Link(a: Endpoint, b: Endpoint)

  datatype Blueprint = Blueprint(
    id: Uuid, name: string, computers: map<Uuid, Computer>, networks: map<Uuid, Network>,
    links: seq<Link>)
  {
    /** The maps are keyed by the ids of their values. */
    ghost predicate Valid() {
      && (forall k :: k in computers ==> computers[k].id == k)
      && (forall k :: k in networks ==> networks[k].id == k)
    }
  }

  /** One entry of `connectedComputers`: the computer and the mac by which its
      interface was found. */
  datatype Attachment = Attachment(computer: Computer, mac: string)

  datatype LinkError = MissingMac(computer: Uuid) | NoSuchInterface(computer: Uuid, mac: string)

  predicate HasCifx(c: Computer) { CIFX in c.interfaces }

  ghost predicate AllHaveCifx(b: Blueprint) {
    forall c :: c in b.computers ==> HasCifx(b.computers[c])
  }

  function Neighbor(l: Link, id: Uuid): Option<Endpoint> {
    if l.a.id == id then Some(l.b)
    else if l.b.id == id then Some(l.a)
    else None
  }

  /** The far ends of the links at `id`, in link order. */
  function Neighbors(links: seq<Link>, id: Uuid): seq<Endpoint> {
    if links == [] then []
    else
      var rest := Neighbors(links[1..], id);
      match Neighbor(links[0], id)
      case Some(e) => [e] + rest
      case None => rest
  }

  predicate HasMac(c: Computer, mac: string) {
    exists k :: k in c.interfaces && c.interfaces[k].mac == mac
  }

  /** The computers at the far ends `es`; an end that is no computer is skipped,
      a computer end without a mac or with an unknown mac is an error. */
  function Attachments(computers: map<Uuid, Computer>, es: seq<Endpoint>): Result<seq<Attachment>, LinkError> {
    if es == [] then Ok([])
    else
      var e := es[0];
      if e.id !in computers then Attachments(computers, es[1..])
      else if e.mac.None? then Err(MissingMac(e.id))
      else if !HasMac(computers[e.id], e.mac.value) then Err(NoSuchInterface(e.id, e.mac.value))
      else
        match Attachments(computers, es[1..])
        case Ok(rest) => Ok([Attachment(computers[e.id], e.mac.value)] + rest)
        case Err(x) => Err(x)
  }

  function ConnectedComputers(b: Blueprint, network: Uuid): Result<seq<Attachment>, LinkError> {
    Attachments(b.computers, Neighbors(b.links, network))
  }

  /** Every link of every network of the blueprint can be read. */
  ghost predicate LinksReadable(b: Blueprint) {
    forall n :: n in b.networks ==> ConnectedComputers(b, n).Ok?
  }

  ghost function Row(b: Blueprint, network: Uuid): seq<Attachment> {
    match ConnectedComputers(b, network)
    case Ok(row) => row
    case Err(_) => []
  }

  ghost predicate InRow(row: seq<Attachment>, c: Uuid) {
    exists i :: 0 <= i < |row| && row[i].computer.id == c
  }

  /** Computer `c` is on a link of network `n`. */
  ghost predicate LinkedTo(b: Blueprint, c: Uuid, n: Uuid) {
    n in b.networks && InRow(Row(b, n), c)
  }

  ghost predicate Linked(b: Blueprint, c: Uuid) {
    exists n :: LinkedTo(b, c, n)
  }

  /** The ends that are computers, in order. */
  function ComputerEnds(ids: set<Uuid>, es: seq<Endpoint>): seq<Endpoint> {
    if es == [] then []
    else
      var before, e := ComputerEnds(ids, es[..|es| - 1]), es[|es| - 1];
      if e.id in ids then before + [e] else before
  }

  lemma {:induction false} EndsAreIn(ids: set<Uuid>, es: seq<Endpoint>)
    ensures forall e :: e in ComputerEnds(ids, es) <==> e in es && e.id in ids
  {
    if es != [] {
      EndsAreIn(ids, es[..|es| - 1]);
      assert es == es[..|es| - 1] + [es[|es| - 1]];
    }
  }

  lemma {:induction false} EndsFromFirst(ids: set<Uuid>, es: seq<Endpoint>)
    requires es != []
    ensures ComputerEnds(ids, es) == (if es[0].id in ids then [es[0]] else []) + ComputerEnds(ids, es[1..])
  {
    if |es| > 1 {
      EndsFromFirst(ids, es[..|es| - 1]);
      assert es[..|es| - 1][1..] == es[1..][..|es[1..]| - 1];
    }
  }

  ghost predicate ReadableEnd(computers: map<Uuid, Computer>, e: Endpoint)
    requires e.id in computers
  {
    e.mac.Some? && HasMac(computers[e.id], e.mac.value)
  }

  function EndError(e: Endpoint): LinkError {
    if e.mac.None? then MissingMac(e.id) else NoSuchInterface(e.id, e.mac.value)
  }

  ghost predicate AllReadable(computers: map<Uuid, Computer>, ends: seq<Endpoint>) {
    forall i :: 0 <= i < |ends| ==> ends[i].id in computers && ReadableEnd(computers, ends[i])
  }

  /** The i-th attachment is the computer at the i-th computer end, with its mac. */
  ghost predicate AttachedAt(computers: map<Uuid, Computer>, ends: seq<Endpoint>, row: seq<Attachment>) {
    && |row| == |ends|
    && forall i :: 0 <= i < |ends| ==>
         ends[i].id in computers && ends[i].mac == Some(row[i].mac) && row[i].computer == computers[ends[i].id]
  }

  /** `i` is the first end that cannot be read. */
  ghost predicate FailsAt(computers: map<Uuid, Computer>, ends: seq<Endpoint>, i: nat, x: LinkError) {
    && i < |ends| && AllReadable(computers, ends[..i])
    && ends[i].id in computers && !ReadableEnd(computers, ends[i]) && x == EndError(ends[i])
  }

  ghost predicate ReadsTo(computers: map<Uuid, Computer>, ends: seq<Endpoint>, r: Result<seq<Attachment>, LinkError>) {
    match r
    case Ok(row) => AllReadable(computers, ends) && AttachedAt(computers, ends, row)
    case Err(x) => !AllReadable(computers, ends) && exists i :: FailsAt(computers, ends, i, x)
  }

  /** Reading succeeds exactly when every computer end has the mac of an interface of its
      computer; then each of them is there, in link order. Otherwise the error is that
      of the first bad end. */
  lemma {:induction false} AttachmentsExact(computers: map<Uuid, Computer>, es: seq<Endpoint>)
    ensures ReadsTo(computers, ComputerEnds(computers.Keys, es), Attachments(computers, es))
  {
    hide HasMac;
    if es != [] {
      AttachmentsExact(computers, es[1..]);
      EndsFromFirst(computers.Keys, es);
      AttachmentsStep(computers, es, ComputerEnds(computers.Keys, es[1..]), ComputerEnds(computers.Keys, es));
    }
  }

  lemma AttachmentsStep(computers: map<Uuid, Computer>, es: seq<Endpoint>, rest: seq<Endpoint>, ends: seq<Endpoint>)
    requires es != [] && ends == (if es[0].id in computers then [es[0]] else []) + rest
    requires ReadsTo(computers, rest, Attachments(computers, es[1..]))
    ensures ReadsTo(computers, ends, Attachments(computers, es))
  {
    hide HasMac;
    if es[0].id !in computers {
      assert ends == rest;
    } else if !ReadableEnd(computers, es[0]) {
      assert ends[0] == es[0];
      assert FailsAt(computers, ends, 0, EndError(es[0]));
    } else if Attachments(computers, es[1..]).Err? {
      var x := Attachments(computers, es[1..]).error;
      var i: nat :| FailsAt(computers, rest, i, x);
      assert i < |rest| && ends == [es[0]] + rest;
      assert ends[..i + 1] == [es[0]] + rest[..i];
      assert ends[i + 1] == rest[i];
      assert FailsAt(computers, ends, i + 1, x);
    }
  }

  lemma RowComputers(b: Blueprint, n: Uuid, i: nat)
    requires b.Valid() && i < |Row(b, n)|
    ensures Row(b, n)[i].computer.id in b.computers
    ensures Row(b, n)[i].computer == b.computers[Row(b, n)[i].computer.id]
  {
    AttachmentsExact(b.computers, Neighbors(b.links, n));
  }
}

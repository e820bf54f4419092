/** Sizes and rates with units (core/blueprint.hxx:96-134, 236-251). Sizes are
    natural numbers: the model assumes that no shift leaves the 64-bit range. */
module Units {

  datatype MemoryUnit = B | KB | MB | GB | TB

  datatype Memory = Memory(size: nat, unit: MemoryUnit) {

    function Bytes(): nat {
      match unit
      case B => size
      case KB => size * 1024
      case MB => size * 1048576
      case GB => size * 1073741824
      case TB => size * 1099511627776
    }

    function Megabytes(): nat {
      match unit
      case B => size / 1048576
      case KB => size / 1024
      case MB => size
      case GB => size * 1024
      case TB => size * 1048576
    }
  }

  datatype BandwidthUnit = BPS | KBPS | MBPS | GBPS | TBPS

  datatype Bandwidth = Bandwidth(size: nat, unit: BandwidthUnit) {

    function Megabits(): nat {
      match unit
      case BPS => size / 1048576
      case KBPS => size / 1024
      case MBPS => size
      case GBPS => size * 1024
      case TBPS => size * 1048576
    }
  }

  datatype LatencyUnit = NS | US | MS | S

  datatype Latency = Latency(size: nat, unit: LatencyUnit) {

    function ToMS(): real {
      match unit
      case NS => size as real / 1000000.0
      case US => size as real / 1000.0
      case MS => size as real
      case S => size as real * 1000.0
    }
  }

  /** Whatever the unit, the megabytes are the bytes rounded down. */
  lemma MegabytesIsFloor(m: Memory)
    ensures m.Megabytes() == m.Bytes() / 1048576
    ensures m.Megabytes() * 1048576 <= m.Bytes() < (m.Megabytes() + 1) * 1048576
  {
    match m.unit
    case KB =>
      var q, r := m.size / 1024, m.size % 1024;
      assert m.Bytes() == q * 1048576 + r * 1024;
    case _ =>
  }

  /** Each unit of size is 1024 of the next smaller one, down to the byte. */
  lemma MemoryUnits(n: nat)
    ensures Memory(n, B).Bytes() == n
    ensures Memory(n, KB).Bytes() == Memory(1024 * n, B).Bytes()
    ensures Memory(n, MB).Bytes() == Memory(1024 * n, KB).Bytes()
    ensures Memory(n, GB).Bytes() == Memory(1024 * n, MB).Bytes()
    ensures Memory(n, TB).Bytes() == Memory(1024 * n, GB).Bytes()
  {
  }

  /** The same for rates: the figure in megabits is the rate rounded down. */
  lemma BandwidthUnits(n: nat)
    ensures Bandwidth(n, MBPS).Megabits() == n
    ensures Bandwidth(n, GBPS).Megabits() == Bandwidth(1024 * n, MBPS).Megabits()
    ensures Bandwidth(n, TBPS).Megabits() == Bandwidth(1024 * n, GBPS).Megabits()
    ensures Bandwidth(n, KBPS).Megabits() == Bandwidth(1024 * n, BPS).Megabits()
    ensures Bandwidth(n, KBPS).Megabits() * 1024 <= n < (Bandwidth(n, KBPS).Megabits() + 1) * 1024
  {
  }

  /** Each unit of time is 1000 of the next smaller one, and milliseconds are counted. */
  lemma LatencyUnits(n: nat)
    ensures Latency(n, MS).ToMS() == n as real
    ensures Latency(n, US).ToMS() == Latency(1000 * n, NS).ToMS()
    ensures Latency(n, MS).ToMS() == Latency(1000 * n, US).ToMS()
    ensures Latency(n, S).ToMS() == Latency(1000 * n, MS).ToMS()
  {
  }
}

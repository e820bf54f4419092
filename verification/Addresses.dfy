/** IPv4 address arithmetic (core/blueprint.cxx:584-619) and the numbers that the
    materializer's loop hands out (core/materialization-service.cxx:114-123). An address
    is its host-order number; adding wraps at 32 bits. */
module Addresses {
  import opened Blueprints

  function Wrap(x: int): nat { x % 0x1_0000_0000 }

  function Incremented(a: IpV4Address): IpV4Address { a.(addr := Wrap(a.addr + 1)) }

  function Decremented(a: IpV4Address): IpV4Address { a.(addr := Wrap(a.addr - 1)) }

  function Plus(a: IpV4Address, x: nat): IpV4Address { a.(addr := Wrap(a.addr + x)) }

  function Minus(a: IpV4Address, x: nat): IpV4Address { a.(addr := Wrap(a.addr - x)) }

  predicate NetZero(a: IpV4Address) { a.addr % 256 == 0 }

  /** Adding and subtracting undo each other, wrap-around included, and stepping is
      adding one. */
  lemma AdditionInverse(a: IpV4Address, x: nat)
    requires a.addr < 0x1_0000_0000
    ensures Minus(Plus(a, x), x) == a == Plus(Minus(a, x), x)
    ensures Decremented(Incremented(a)) == a == Incremented(Decremented(a))
  {
    WrapBack(a.addr, x);
    WrapBack(a.addr, 1);
    hide Wrap;
  }

  /** Adding one more is one more step up, taking one more off one more step down. */
  lemma AdditionSteps(a: IpV4Address, x: nat)
    requires a.addr < 0x1_0000_0000
    ensures Plus(a, 0) == a == Minus(a, 0)
    ensures Plus(a, x + 1) == Incremented(Plus(a, x)) && Minus(a, x + 1) == Decremented(Minus(a, x))
    ensures a.addr < 0xFFFF_FFFF ==> Incremented(a) == IpV4Address(a.addr + 1, a.mask)
    ensures a.addr == 0xFFFF_FFFF ==> Incremented(a) == IpV4Address(0, a.mask)
  {
    WrapWrap(a.addr + x, 1);
    WrapWrap(a.addr - x, 0 - 1);
  }

  lemma WrapWrap(x: int, y: int)
    ensures Wrap(Wrap(x) + y) == Wrap(x + y)
  {
    var q := x / 0x1_0000_0000;
    assert Wrap(x) + y == (x + y) - q * 0x1_0000_0000;
    WrapShift(x + y, q);
  }

  lemma WrapBack(x: nat, y: nat)
    requires x < 0x1_0000_0000
    ensures Wrap(Wrap(x + y) - y) == x == Wrap(Wrap(x - y) + y)
  {
    WrapWrap(x + y, 0 - y);
    WrapWrap(x - y, y);
    hide Wrap;
    SmallWrap(x);
  }

  lemma SmallWrap(x: nat)
    requires x < 0x1_0000_0000
    ensures Wrap(x) == x
  {
  }

  lemma WrapShift(x: int, q: int)
    ensures Wrap(x - q * 0x1_0000_0000) == Wrap(x)
  {
    var m := 0x1_0000_0000;
    var y := x - q * m;
    assert y == (x / m - q) * m + x % m;
  }

  // ---- The numbers handed out ----

  /** How many numbers below `x` do not end in .0. */
  function NonZeros(x: nat): nat { x - (x + 255) / 256 }

  /** The k-th number at or above `base` that does not end in .0, counting from 0. */
  function Nth(base: nat, k: nat): nat {
    var r := NonZeros(base) + k;
    256 * (r / 255) + r % 255 + 1
  }

  lemma NonZerosStep(x: nat)
    ensures NonZeros(x + 1) == NonZeros(x) + if x % 256 == 0 then 0 else 1
  {
  }

  lemma {:induction false} NonZerosMonotone(x: nat, y: nat)
    requires x <= y
    ensures NonZeros(x) <= NonZeros(y)
  {
  }

  lemma NonZerosReflects(x: nat, y: nat)
    requires NonZeros(x) < NonZeros(y)
    ensures x < y
  {
  }

  /** The closed form is right: the k-th number is at or above the base, does not end
      in .0, and exactly k such numbers lie between. */
  lemma NthExact(base: nat, k: nat)
    ensures Nth(base, k) >= base && Nth(base, k) % 256 != 0
    ensures NonZeros(Nth(base, k)) == NonZeros(base) + k
  {
    var r := NonZeros(base) + k;
    var q, s := r / 255, r % 255;
    assert NonZeros(256 * q + s + 1) == 255 * q + s;
    NonZerosStep(Nth(base, k));
    NonZerosReflects(base, Nth(base, k) + 1);
  }

  lemma NthIncreases(base: nat, j: nat, k: nat)
    requires j < k
    ensures Nth(base, j) < Nth(base, k)
  {
    NthExact(base, j);
    NthExact(base, k);
    NonZerosReflects(Nth(base, j), Nth(base, k));
  }

  /** The first number at or above `x` that does not end in .0. */
  function Skip(x: nat): nat { if x % 256 == 0 then x + 1 else x }

  lemma NthFirst(base: nat)
    ensures Nth(base, 0) == Skip(base)
  {
    var q, s := base / 256, base % 256;
    if s == 0 {
      assert NonZeros(base) == 255 * q;
    } else {
      assert NonZeros(base) == 255 * q + (s - 1);
    }
  }

  /** One round of the loop: from just past the k-th number to the next. */
  lemma NthNext(base: nat, k: nat)
    ensures Nth(base, k + 1) == Skip(Nth(base, k) + 1)
  {
    var r := NonZeros(base) + k;
    var q, s := r / 255, r % 255;
    hide NonZeros;
    DivideBy255(r, q, s);
    LastByteOfSum(q, s + 2);
    if s == 254 {
      DivideBy255(r + 1, q + 1, 0);
    } else {
      DivideBy255(r + 1, q, s + 1);
    }
  }

  lemma DivideBy255(x: nat, q: nat, s: nat)
    requires s < 255 && (x == 255 * q + s || (x / 255 == q && x % 255 == s))
    ensures x / 255 == q && x % 255 == s && x == 255 * q + s
  {
  }

  // ---- What is handed out ----

  function Handed(base: IpV4Address, k: nat): IpV4Address { base.(addr := Wrap(Nth(base.addr, k))) }

  lemma NonZerosShift(x: nat)
    ensures NonZeros(x + 0x1_0000_0000) == NonZeros(x) + 255 * 0x100_0000
  {
  }

  lemma WrapApart(x: nat, y: nat)
    requires x < y < x + 0x1_0000_0000
    ensures Wrap(x) != Wrap(y)
  {
  }

  lemma WrapKeepsLastByte(x: nat)
    ensures Wrap(x) % 256 == x % 256
  {
    LastByteOfSum(0x100_0000 * (x / 0x1_0000_0000), x % 0x1_0000_0000);
  }

  lemma LastByteOfSum(n: nat, x: nat)
    ensures (256 * n + x) % 256 == x % 256
  {
  }

  /** The addresses handed out are pairwise distinct and none ends in .0, as long as
      they do not run around the whole address space. */
  lemma HandedDistinct(base: IpV4Address, j: nat, k: nat)
    requires j < k < j + 255 * 0x100_0000
    ensures Handed(base, j) != Handed(base, k)
    ensures !NetZero(Handed(base, j)) && !NetZero(Handed(base, k))
  {
    hide Nth, Wrap, NonZeros;
    var x, y := Nth(base.addr, j), Nth(base.addr, k);
    NthIncreases(base.addr, j, k);
    NthExact(base.addr, j);
    NthExact(base.addr, k);
    NonZerosShift(x);
    NonZerosReflects(y, x + 0x1_0000_0000);
    WrapApart(x, y);
    WrapKeepsLastByte(x);
    WrapKeepsLastByte(y);
  }

  function Pow2(n: nat): nat
    ensures Pow2(n) >= 1
  {
    if n == 0 then 1 else 2 * Pow2(n - 1)
  }

  lemma {:induction false} Pow2Add(m: nat, n: nat)
    ensures Pow2(m + n) == Pow2(m) * Pow2(n)
  {
    if m > 0 {
      Pow2Add(m - 1, n);
      assert 2 * Pow2(m - 1) * Pow2(n) == 2 * (Pow2(m - 1) * Pow2(n));
    }
  }

  lemma Pow2Of32()
    ensures Pow2(32) == 0x1_0000_0000
  {
    assert Pow2(8) == 256;
    Pow2Add(8, 8);
    Pow2Add(16, 16);
  }

  function BlockSize(base: IpV4Address): (n: nat)
    requires base.mask <= 32
    ensures n >= 1
  {
    Pow2(32 - base.mask)
  }

  function Quotient(x: nat, d: nat): nat
    requires d > 0
  {
    QuotientNotNegative(x, d);
    x / d
  }

  lemma QuotientNotNegative(x: nat, d: nat)
    requires d > 0
    ensures x / d >= 0
  {
    var q := x / d;
    assert x == d * q + x % d;
    if q < 0 {
      assert false;
    }
  }

  function BlockIndex(base: IpV4Address): nat
    requires base.mask <= 32
  {
    Quotient(base.addr, BlockSize(base))
  }

  /** First number of the CIDR block (section 3.1 of RFC 4632) and the one after it. */
  function BlockStart(base: IpV4Address): nat
    requires base.mask <= 32
  {
    BlockIndex(base) * BlockSize(base)
  }

  function BlockEnd(base: IpV4Address): nat
    requires base.mask <= 32
  {
    BlockStart(base) + BlockSize(base)
  }

  predicate InBlock(base: IpV4Address, a: IpV4Address)
    requires base.mask <= 32
  {
    BlockStart(base) <= a.addr < BlockEnd(base)
  }

  /** The block of a network has the numbers that agree with it in their first `mask` bits. */
  lemma BlockIsPrefix(base: IpV4Address, a: IpV4Address)
    requires base.mask <= 32
    ensures InBlock(base, a) <==> a.addr / BlockSize(base) == base.addr / BlockSize(base)
    ensures BlockSize(base) * Pow2(base.mask) == 0x1_0000_0000
  {
    BlockSizes(base);
    hide Pow2, BlockSize;
    var d, q := BlockSize(base), BlockIndex(base);
    DivisionBounds(a.addr, d);
    SameQuotient(a.addr, q, d);
  }

  lemma SameQuotient(x: nat, q: nat, d: nat)
    requires d > 0
    ensures q * d <= x < q * d + d <==> x / d == q
  {
    var p := Quotient(x, d);
    DivisionBounds(x, d);
    if p < q {
      TimesMonotone(p + 1, q, d);
      assert (p + 1) * d == p * d + d;
    }
    if q < p {
      TimesMonotone(q + 1, p, d);
      assert (q + 1) * d == q * d + d;
    }
  }

  lemma DivisionBounds(x: nat, d: nat)
    requires d > 0
    ensures Quotient(x, d) * d <= x < Quotient(x, d) * d + d
  {
    assert x == (x / d) * d + x % d;
  }

  /** A block of size d stays in a space that is a multiple of d. */
  lemma BlockFits(q: nat, d: nat, n: nat)
    requires q * d < d * n
    ensures q * d + d <= d * n
  {
    if q >= n {
      TimesMonotone(n, q, d);
    } else {
      TimesMonotone(q + 1, n, d);
      assert (q + 1) * d == q * d + d;
    }
  }

  lemma TimesMonotone(x: nat, y: nat, d: nat)
    requires x <= y
    ensures x * d <= y * d == d * y
  {
  }

  lemma BlockSizes(base: IpV4Address)
    requires base.mask <= 32
    ensures BlockSize(base) * Pow2(base.mask) == 0x1_0000_0000
    ensures base.mask == 0 ==> BlockSize(base) == 0x1_0000_0000
    ensures base.mask > 0 ==> BlockSize(base) <= 0x8000_0000
  {
    Pow2Add(32 - base.mask, base.mask);
    Pow2Of32();
    if base.mask > 0 {
      Pow2Add(1, 31);
      Pow2Grows(32 - base.mask, 31);
    }
  }

  lemma {:induction false} Pow2Grows(m: nat, n: nat)
    requires m <= n
    ensures Pow2(m) <= Pow2(n)
  {
    if m < n {
      Pow2Grows(m, n - 1);
    }
  }

  lemma BlockBounds(base: IpV4Address)
    requires base.mask <= 32 && base.addr < 0x1_0000_0000
    ensures BlockStart(base) <= base.addr < BlockEnd(base) <= 0x1_0000_0000
    ensures base.mask == 0 ==> BlockStart(base) == 0 && BlockEnd(base) == 0x1_0000_0000
    ensures base.mask > 0 && BlockEnd(base) == 0x1_0000_0000 ==> BlockStart(base) > 1
  {
    hide Pow2;
    BlockSizes(base);
    DivisionBounds(base.addr, BlockSize(base));
    BlockFits(BlockIndex(base), BlockSize(base), Pow2(base.mask));
    if base.mask == 0 {
      assert base.addr / 0x1_0000_0000 == 0;
    }
  }

  /** All of the first `count` addresses lie in the network's CIDR block if and only if
      the network is the whole space or there are no more of them than the block has
      numbers from the base up that do not end in .0. */
  lemma AllInBlockIff(base: IpV4Address, count: nat)
    requires base.mask <= 32 && base.addr < 0x1_0000_0000
    ensures (forall k :: 0 <= k < count ==> InBlock(base, Handed(base, k))) <==>
            base.mask == 0 || count <= NonZeros(BlockEnd(base)) - NonZeros(base.addr)
  {
    hide BlockEnd, NonZeros, Handed, InBlock;
    BlockBounds(base);
    NonZerosMonotone(base.addr, BlockEnd(base));
    var room := NonZeros(BlockEnd(base)) - NonZeros(base.addr);
    forall k | 0 <= k && (k < room || base.mask == 0) ensures InBlock(base, Handed(base, k)) {
      RoomIsInside(base, k);
    }
    if base.mask > 0 && count > room {
      FirstOutside(base, room);
    }
  }

  lemma RoomIsInside(base: IpV4Address, k: nat)
    requires base.mask <= 32 && base.addr < 0x1_0000_0000
    requires base.mask == 0 || k < NonZeros(BlockEnd(base)) - NonZeros(base.addr)
    ensures InBlock(base, Handed(base, k))
  {
    hide NonZeros, Nth, BlockStart, BlockEnd;
    BlockBounds(base);
    NthExact(base.addr, k);
    if base.mask > 0 {
      NonZerosReflects(Nth(base.addr, k), BlockEnd(base));
    }
  }

  lemma FirstOutside(base: IpV4Address, room: nat)
    requires 0 < base.mask <= 32 && base.addr < 0x1_0000_0000
    requires NonZeros(base.addr) + room == NonZeros(BlockEnd(base))
    ensures !InBlock(base, Handed(base, room))
  {
    hide Nth, BlockStart, BlockEnd, NonZeros;
    var end := BlockEnd(base);
    BlockBounds(base);
    NthFromLater(base.addr, end, room);
    NthFirst(end);
    SkipAtEnd(end);
  }

  lemma NthFromLater(base: nat, end: nat, room: nat)
    requires NonZeros(base) + room == NonZeros(end)
    ensures Nth(base, room) == Nth(end, 0)
  {
  }

  lemma SkipAtEnd(end: nat)
    requires end <= 0x1_0000_0000
    ensures end < 0x1_0000_0000 ==> Wrap(Skip(end)) >= end
    ensures end == 0x1_0000_0000 ==> Wrap(Skip(end)) == 1
  {
  }

  /** A network of at least 256 numbers that starts its block has room for 255 of every
      256 of them. */
  lemma AlignedRoom(base: IpV4Address)
    requires base.mask <= 24 && base.addr == BlockStart(base)
    ensures NonZeros(BlockEnd(base)) - NonZeros(base.addr) == 255 * Pow2(24 - base.mask)
  {
    var n, q := Pow2(24 - base.mask), BlockIndex(base);
    Pow2Add(8, 24 - base.mask);
    assert Pow2(8) == 256;
    hide Pow2, NonZeros;
    Regroup(q, n);
    MultipleNonZeros(q * n);
    MultipleNonZeros(q * n + n);
  }

  lemma Regroup(q: nat, n: nat)
    ensures q * (256 * n) == 256 * (q * n)
  {
  }

  lemma MultipleNonZeros(q: nat)
    ensures NonZeros(256 * q) == 255 * q
  {
  }
}

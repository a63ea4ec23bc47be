/** IP addresses and address blocks, and the fixed lists of blocks the helper uses. */
module IpNets {
  import opened Bytes

  datatype Family = V4 | V6

  datatype Addr = Addr(family: Family, value: nat)

  // An address block; bits of `base` below the prefix are ignored, as the kernel does.
  datatype Net = Net(family: Family, base: nat, len: nat)

  function Width(f: Family): nat { if f == V4 then 32 else 128 }

  // The number of addresses in a block.
  function BlockSize(net: Net): (p: nat)
    requires net.len <= Width(net.family)
    ensures p > 0
  {
    Pow2(Width(net.family) - net.len)
  }

  // The number, among blocks of this size, of the one that holds `value`.
  function BlockIndex(net: Net, value: nat): nat
    requires net.len <= Width(net.family)
  {
    Quotient(value, BlockSize(net))
  }

  function Quotient(a: nat, b: nat): (q: nat)
    requires b > 0
    ensures q == a / b
  {
    a / b
  }

  predicate Contains(net: Net, a: Addr) {
    && net.family == a.family
    && net.len <= Width(net.family)
    && BlockIndex(net, a.value) == BlockIndex(net, net.base)
  }

  // An address of its family's width.
  predicate Legal(a: Addr) {
    a.value < if a.family == V4 then 0x1_0000_0000 else 0x1_0000_0000_0000_0000_0000_0000_0000_0000
  }

  // A single address as a block.
  function Host(a: Addr): Net { Net(a.family, a.value, Width(a.family)) }

  const PRIVATE_CIDRS := [
    Net(V4, 10 * 0x100_0000, 8), Net(V4, 172 * 0x100_0000 + 16 * 0x1_0000, 12),
    Net(V4, 192 * 0x100_0000 + 168 * 0x1_0000, 16), Net(V4, 169 * 0x100_0000 + 254 * 0x1_0000, 16),
    Net(V6, 0xfc00_0000_0000_0000_0000_0000_0000_0000, 7),
    Net(V6, 0xfe80_0000_0000_0000_0000_0000_0000_0000, 10) ]

  const SPLIT_DEFAULT_V4 := [Net(V4, 0, 1), Net(V4, 0x8000_0000, 1)]

  const SPLIT_DEFAULT_V6 := [Net(V6, 0, 1), Net(V6, 0x8000_0000_0000_0000_0000_0000_0000_0000, 1)]

  predicate IsPrivate(a: Addr) {
    exists k :: 0 <= k < |PRIVATE_CIDRS| && Contains(PRIVATE_CIDRS[k], a)
  }

  // ----- The same in address values -----

  // 10.0.0.0 to 10.255.255.255, 172.16.0.0 to 172.31.255.255, 192.168.0.0 to 192.168.255.255 and
  // 169.254.0.0 to 169.254.255.255; addresses beginning with fc or fd, and fe80 to febf.
  predicate InPrivateRange(a: Addr) {
    if a.family == V4 then
      || 0x0a00_0000 <= a.value < 0x0b00_0000 || 0xac10_0000 <= a.value < 0xac20_0000
      || 0xc0a8_0000 <= a.value < 0xc0a9_0000 || 0xa9fe_0000 <= a.value < 0xa9ff_0000
    else
      || 0xfc00_0000_0000_0000_0000_0000_0000_0000 <= a.value < 0xfe00_0000_0000_0000_0000_0000_0000_0000
      || 0xfe80_0000_0000_0000_0000_0000_0000_0000 <= a.value < 0xfec0_0000_0000_0000_0000_0000_0000_0000
  }

  // A block whose base is a multiple of its size is the addresses from there on.
  lemma AlignedBlock(net: Net, size: nat, index: nat, a: Addr)
    requires net.len <= Width(net.family) && size == BlockSize(net) && net.base == index * size
    ensures Contains(net, a) <==> net.family == a.family && net.base <= a.value < net.base + size
  {
    Between(net.base, index, size);
    Between(a.value, index, size);
  }

  lemma Between(v: nat, index: nat, size: nat)
    requires size > 0
    ensures v / size == index <==> index * size <= v < index * size + size
  {
    var q, r := v / size, v % size;
    assert v == q * size + r && r < size;
    if q < index {
      assert (q + 1) * size <= index * size;
    } else if q > index {
      assert (index + 1) * size <= q * size;
    }
  }

  lemma PrivateV4(a: Addr)
    ensures Contains(PRIVATE_CIDRS[0], a) <==> a.family == V4 && 0x0a00_0000 <= a.value < 0x0b00_0000
    ensures Contains(PRIVATE_CIDRS[1], a) <==> a.family == V4 && 0xac10_0000 <= a.value < 0xac20_0000
    ensures Contains(PRIVATE_CIDRS[2], a) <==> a.family == V4 && 0xc0a8_0000 <= a.value < 0xc0a9_0000
    ensures Contains(PRIVATE_CIDRS[3], a) <==> a.family == V4 && 0xa9fe_0000 <= a.value < 0xa9ff_0000
  {
    Pow2Values();
    AlignedBlock(PRIVATE_CIDRS[0], 0x100_0000, 10, a);
    AlignedBlock(PRIVATE_CIDRS[1], 0x10_0000, 0xac1, a);
    AlignedBlock(PRIVATE_CIDRS[2], 0x1_0000, 0xc0a8, a);
    AlignedBlock(PRIVATE_CIDRS[3], 0x1_0000, 0xa9fe, a);
  }

  lemma PrivateV6(a: Addr)
    ensures Contains(PRIVATE_CIDRS[4], a) <==>
            (a.family == V6 &&
             0xfc00_0000_0000_0000_0000_0000_0000_0000 <= a.value < 0xfe00_0000_0000_0000_0000_0000_0000_0000)
    ensures Contains(PRIVATE_CIDRS[5], a) <==>
            (a.family == V6 &&
             0xfe80_0000_0000_0000_0000_0000_0000_0000 <= a.value < 0xfec0_0000_0000_0000_0000_0000_0000_0000)
  {
    Pow2Large();
    AlignedBlock(PRIVATE_CIDRS[4], 0x200_0000_0000_0000_0000_0000_0000_0000, 0x7e, a);
    AlignedBlock(PRIVATE_CIDRS[5], 0x40_0000_0000_0000_0000_0000_0000_0000, 0x3fa, a);
  }

  lemma PrivateBlocks(a: Addr)
    ensures IsPrivate(a) <==>
            || Contains(PRIVATE_CIDRS[0], a) || Contains(PRIVATE_CIDRS[1], a) || Contains(PRIVATE_CIDRS[2], a)
            || Contains(PRIVATE_CIDRS[3], a) || Contains(PRIVATE_CIDRS[4], a) || Contains(PRIVATE_CIDRS[5], a)
  {
    assert |PRIVATE_CIDRS| == 6;
    if IsPrivate(a) {
      var k :| 0 <= k < 6 && Contains(PRIVATE_CIDRS[k], a);
      assert k == 0 || k == 1 || k == 2 || k == 3 || k == 4 || k == 5;
    }
  }

  lemma IsPrivateIff(a: Addr)
    ensures IsPrivate(a) <==> InPrivateRange(a)
  {
    PrivateV4(a);
    PrivateV6(a);
    PrivateBlocks(a);
  }

  // The two halves of either family are its addresses below and from the middle on.
  lemma SplitDefaults(a: Addr)
    ensures Contains(SPLIT_DEFAULT_V4[0], a) <==> a.family == V4 && a.value < 0x8000_0000
    ensures Contains(SPLIT_DEFAULT_V4[1], a) <==> a.family == V4 && 0x8000_0000 <= a.value && Legal(a)
    ensures Contains(SPLIT_DEFAULT_V6[0], a) <==>
            a.family == V6 && a.value < 0x8000_0000_0000_0000_0000_0000_0000_0000
    ensures Contains(SPLIT_DEFAULT_V6[1], a) <==>
            a.family == V6 && 0x8000_0000_0000_0000_0000_0000_0000_0000 <= a.value && Legal(a)
  {
    Pow2Values();
    Pow2Large();
    AlignedBlock(SPLIT_DEFAULT_V4[0], 0x8000_0000, 0, a);
    AlignedBlock(SPLIT_DEFAULT_V4[1], 0x8000_0000, 1, a);
    AlignedBlock(SPLIT_DEFAULT_V6[0], 0x8000_0000_0000_0000_0000_0000_0000_0000, 0, a);
    AlignedBlock(SPLIT_DEFAULT_V6[1], 0x8000_0000_0000_0000_0000_0000_0000_0000, 1, a);
  }

  // A single address contains itself alone.
  lemma HostIs(h: Addr, a: Addr)
    ensures Contains(Host(h), a) <==> h == a
  {
    Pow2Values();
    AlignedBlock(Host(h), 1, h.value, a);
  }

  lemma Pow2Values()
    ensures Pow2(0) == 1 && Pow2(16) == 0x1_0000 && Pow2(20) == 0x10_0000 && Pow2(24) == 0x100_0000
    ensures Pow2(31) == 0x8000_0000 && Pow2(32) == 0x1_0000_0000
  {
    assert Pow2(4) == 16;
    Pow2Plus4(4);
    Pow2Plus4(8);
    Pow2Plus4(12);
    Pow2Plus4(16);
    Pow2Plus4(20);
    Pow2Plus4(24);
    Pow2Plus4(28);
    assert Pow2(32) == 2 * Pow2(31);
  }

  lemma Pow2Large()
    ensures Pow2(118) == 0x40_0000_0000_0000_0000_0000_0000_0000
    ensures Pow2(121) == 0x200_0000_0000_0000_0000_0000_0000_0000
    ensures Pow2(127) == 0x8000_0000_0000_0000_0000_0000_0000_0000
  {
    Pow2Values();
    Pow2Plus16(32);
    Pow2Plus16(48);
    Pow2Plus16(64);
    Pow2Plus16(80);
    Pow2Plus16(96);
    Pow2Plus4(112);
    assert Pow2(118) == 2 * Pow2(117) && Pow2(117) == 2 * Pow2(116);
    Pow2Plus4(116);
    assert Pow2(121) == 2 * Pow2(120);
    Pow2Plus4(120);
    Pow2Plus4(124);
    assert Pow2(128) == 2 * Pow2(127);
  }

  lemma Pow2Plus4(k: nat)
    ensures Pow2(k + 4) == 16 * Pow2(k)
  {
    assert Pow2(k + 2) == 2 * Pow2(k + 1);
    assert Pow2(k + 4) == 2 * Pow2(k + 3);
  }

  lemma Pow2Plus16(k: nat)
    ensures Pow2(k + 16) == 0x1_0000 * Pow2(k)
  {
    Pow2Plus4(k);
    Pow2Plus4(k + 4);
    Pow2Plus4(k + 8);
    Pow2Plus4(k + 12);
  }
}

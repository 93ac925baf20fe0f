// Slots and the addresses computed from them, on 32-bit unsigned arithmetic.
module Network {
  import opened Machine

  datatype Result<+T> = Ok(value: T) | Err

  // 2^n for the prefix lengths there are.
  function Pow2(n: nat): (p: nat)
    ensures p >= 1
  {
    if n == 0 then 1 else 2 * Pow2(n - 1)
  }

  // A parsed prefix: ParseCIDR has already cleared the host bits (section 3.1 of
  // RFC 4632).  Ipv6 and Unparsable are what the code rejects.
  datatype Cidr = Ipv4(base: uint32, ones: nat) | Ipv6 | Unparsable {
    predicate Valid() {
      Ipv4? ==> ones <= 32 && base % Size() == 0
    }

    function Size(): (s: nat)
      requires Ipv4? && ones <= 32
      ensures s >= 1
    {
      Pow2(32 - ones)
    }
  }

  predicate Inside(c: Cidr, ip: uint32)
    requires c.Ipv4? && c.Valid()
  {
    c.base <= ip < c.base + c.Size()
  }

  // uint32(1) << uint(32-ones): a shift by 32 gives 0.
  function TotalIPs(c: Cidr): uint32
    requires c.Ipv4? && c.Valid()
  {
    PowersFit(c);
    if c.ones == 0 then 0 else c.Size()
  }

  function NetworkSlotsForCIDR(c: Cidr, addressesPerSlot: uint32): (r: Result<uint32>)
    requires c.Valid() && addressesPerSlot > 0
  {
    if !c.Ipv4? then Err
    else
      var totalSlots := TotalIPs(c) / addressesPerSlot;
      if totalSlots <= 1 then Err else Ok(totalSlots - 1)
  }

  const VETH_ADDRESSES_PER_SLOT := 2

  function MaxSlots(hostAccess: Cidr, veth: Cidr): Result<uint32>
    requires hostAccess.Valid() && veth.Valid()
  {
    var h := NetworkSlotsForCIDR(hostAccess, 1);
    if h.Err? then Err
    else
      var v := NetworkSlotsForCIDR(veth, VETH_ADDRESSES_PER_SLOT);
      if v.Err? then Err else if h.value < v.value then h else v
  }

  function IndexedIP(c: Cidr, index: uint32): Result<uint32>
    requires c.Valid()
  {
    if !c.Ipv4? then Err
    else if index == 0 || index >= TotalIPs(c) then Err
    else Ok((c.base + index) % TWO_32)
  }

  datatype VethPair = VethPair(host: uint32, peer: uint32)

  function VethAddrsForSlot(c: Cidr, slot: uint32): Result<VethPair>
    requires c.Valid()
  {
    var host := IndexedIP(c, slot * VETH_ADDRESSES_PER_SLOT % TWO_32);
    var peer := IndexedIP(c, (slot * VETH_ADDRESSES_PER_SLOT % TWO_32 + 1) % TWO_32);
    if host.Err? || peer.Err? then Err else Ok(VethPair(host.value, peer.value))
  }

  // ip is None for text that is no IPv4 address.
  function SlotFromHostAccessIP(c: Cidr, ip: Option<uint32>): Result<uint32>
    requires c.Valid()
  {
    if !c.Ipv4? || ip.None? then Err
    else if ip.value - ip.value % c.Size() != c.base then Err
    else if ip.value <= c.base then Err
    else Ok(ip.value - c.base)
  }

  // ---------- powers of two and alignment ----------

  lemma {:induction false} Pow2Splits(a: nat, b: nat)
    ensures Pow2(a + b) == Pow2(a) * Pow2(b)
  {
    if a > 0 {
      Pow2Splits(a - 1, b);
      assert Pow2(a + b) == 2 * (Pow2(a - 1) * Pow2(b)) == (2 * Pow2(a - 1)) * Pow2(b);
    }
  }

  lemma Pow2Of32()
    ensures Pow2(32) == TWO_32 && Pow2(31) == TWO_31
  {
    assert Pow2(8) == 256;
    Pow2Splits(8, 8);
    Pow2Splits(16, 8);
    Pow2Splits(24, 7);
    assert Pow2(7) == 128;
  }

  lemma {:induction false} Pow2Grows(a: nat, b: nat)
    requires a <= b
    ensures Pow2(a) <= Pow2(b)
  {
    if a < b {
      Pow2Grows(a, b - 1);
    }
  }

  lemma MultiplyMonotone(a: nat, b: nat, s: nat)
    requires a <= b
    ensures a * s <= b * s
  {
  }

  lemma MultiplesLeaveRoom(base: nat, size: nat, count: nat)
    requires size > 0 && base % size == 0 && base < count * size
    ensures base + size <= count * size
  {
    var k := base / size;
    assert base == k * size;
    if k < count {
      MultiplyMonotone(k + 1, count, size);
    } else {
      MultiplyMonotone(count, k, size);
    }
  }

  lemma AlignedFits(c: Cidr)
    requires c.Ipv4? && c.Valid()
    ensures c.base + c.Size() <= TWO_32
  {
    Pow2Of32();
    Pow2Splits(c.ones, 32 - c.ones);
    hide Pow2;
    MultiplesLeaveRoom(c.base, c.Size(), Pow2(c.ones));
  }

  lemma SizeBounds(c: Cidr)
    requires c.Ipv4? && c.Valid()
    ensures c.ones >= 1 ==> c.Size() <= TWO_31
    ensures c.ones <= 30 ==> c.Size() >= 4
    ensures c.ones == 31 ==> c.Size() == 2
    ensures c.ones == 32 ==> c.Size() == 1
  {
    Pow2Of32();
    if c.ones >= 1 {
      Pow2Grows(32 - c.ones, 31);
    }
    if c.ones <= 30 {
      Pow2Grows(2, 32 - c.ones);
    }
  }

  lemma AlignedIsEven(c: Cidr)
    requires c.Ipv4? && c.Valid() && c.ones <= 31
    ensures c.Size() % 2 == 0 && c.base % 2 == 0
  {
    var half := Pow2(31 - c.ones);
    assert c.Size() == 2 * half;
    hide Pow2;
    EvenMultiple(c.base, half);
  }

  // An aligned prefix fits in 32 bits; all but /0 have at most 2^31 addresses.
  lemma PowersFit(c: Cidr)
    requires c.Ipv4? && c.Valid()
    ensures c.base + c.Size() <= TWO_32
    ensures c.ones >= 1 ==> c.Size() <= TWO_31
    ensures c.ones <= 31 ==> c.Size() >= 2 && c.Size() % 2 == 0 && c.base % 2 == 0
    ensures c.ones <= 30 ==> c.Size() >= 4
    ensures c.ones == 31 ==> c.Size() == 2
    ensures c.ones == 32 ==> c.Size() == 1
  {
    hide Pow2;
    AlignedFits(c);
    SizeBounds(c);
    if c.ones <= 31 {
      AlignedIsEven(c);
    }
  }

  lemma EvenMultiple(base: nat, half: nat)
    requires half > 0 && base % (2 * half) == 0
    ensures base % 2 == 0
  {
    var k := base / (2 * half);
    assert base == k * (2 * half) == 2 * (k * half);
  }

  // Clearing the host bits of ip gives base exactly when ip is in the prefix.
  lemma MaskedIsInside(c: Cidr, ip: uint32)
    requires c.Ipv4? && c.Valid()
    ensures ip - ip % c.Size() == c.base <==> Inside(c, ip)
  {
    var s := c.Size();
    if Inside(c, ip) {
      var k := c.base / s;
      assert c.base == k * s;
      DivideOffset(k, s, ip - c.base);
    }
  }

  lemma QuotientIsUnique(q: nat, m: nat, k: nat, r: nat, s: nat)
    requires m < s && r < s && q * s + m == k * s + r
    ensures q == k
  {
    if q < k {
      MultiplyMonotone(q + 1, k, s);
    } else if k < q {
      MultiplyMonotone(k + 1, q, s);
    }
  }

  lemma DivideOffset(k: nat, s: nat, r: nat)
    requires r < s
    ensures (k * s + r) % s == r
  {
    var n := k * s + r;
    assert n == (n / s) * s + n % s;
    QuotientIsUnique(n / s, n % s, k, r, s);
  }

  // ---------- the slots of a configuration ----------

  // The prefix lengths that have slots to give.
  predicate Accepted(hostAccess: Cidr, veth: Cidr) {
    hostAccess.Ipv4? && 1 <= hostAccess.ones <= 31 && veth.Ipv4? && 1 <= veth.ones <= 30
  }

  lemma AcceptedPrefixes(hostAccess: Cidr, veth: Cidr)
    requires hostAccess.Valid() && veth.Valid()
    ensures MaxSlots(hostAccess, veth).Ok? <==> Accepted(hostAccess, veth)
    ensures MaxSlots(hostAccess, veth).Ok? ==>
              var most := MaxSlots(hostAccess, veth).value;
              && 1 <= most < TWO_31
              && most <= hostAccess.Size() - 1 && 2 * most + 1 <= veth.Size() - 1
              && (most == hostAccess.Size() - 1 || 2 * most == veth.Size() - 2)
  {
    if hostAccess.Ipv4? {
      PowersFit(hostAccess);
    }
    if veth.Ipv4? {
      PowersFit(veth);
    }
    hide Pow2;
  }

  lemma HostAddress(c: Cidr, slot: uint32)
    requires c.Ipv4? && c.Valid() && c.ones >= 1
    ensures IndexedIP(c, slot).Ok? <==> 1 <= slot < c.Size()
    ensures IndexedIP(c, slot).Ok? ==> IndexedIP(c, slot).value == c.base + slot && Inside(c, IndexedIP(c, slot).value)
  {
    PowersFit(c);
    hide Pow2;
  }

  // Below 2^31 the doubled slot does not wrap.
  lemma VethPairDoubles(c: Cidr, slot: uint32)
    requires c.Valid() && slot < TWO_31
    ensures var host, peer := IndexedIP(c, 2 * slot), IndexedIP(c, 2 * slot + 1);
            VethAddrsForSlot(c, slot) == if host.Err? || peer.Err? then Err else Ok(VethPair(host.value, peer.value))
  {
    hide IndexedIP, Cidr.Valid;
  }

  lemma VethAddress(c: Cidr, slot: uint32)
    requires c.Ipv4? && c.Valid() && 1 <= c.ones <= 30 && slot < TWO_31
    ensures VethAddrsForSlot(c, slot).Ok? <==> 1 <= slot && 2 * slot + 1 < c.Size()
    ensures VethAddrsForSlot(c, slot).Ok? ==>
              var pair := VethAddrsForSlot(c, slot).value;
              pair.host == c.base + 2 * slot && pair.peer == pair.host + 1 && Inside(c, pair.host) && Inside(c, pair.peer)
  {
    hide Pow2, IndexedIP, VethAddrsForSlot, Cidr.Valid, Cidr.Size, Inside;
    VethPairDoubles(c, slot);
    HostAddress(c, 2 * slot);
    HostAddress(c, 2 * slot + 1);
  }

  lemma AlignedPair(base: nat, slot: nat)
    requires base % 2 == 0
    ensures (base + 2 * slot) % 2 == 0 && (base + 2 * slot) / 2 == (base + 2 * slot + 1) / 2
  {
  }

  // One aligned /31 inside its prefix (section 2.1 of RFC 3021).
  predicate AlignedInside(c: Cidr, pair: VethPair)
    requires c.Ipv4? && c.Valid()
  {
    && Inside(c, pair.host) && Inside(c, pair.peer)
    && pair.peer == pair.host + 1
    && pair.host % 2 == 0 && pair.host / 2 == pair.peer / 2
  }

  // The slots up to MaxSlots are exactly those whose every address exists, and
  // no address of theirs leaves its prefix or wraps around 2^32.
  lemma SlotAddresses(hostAccess: Cidr, veth: Cidr, slot: uint32)
    requires hostAccess.Valid() && veth.Valid() && Accepted(hostAccess, veth)
    ensures MaxSlots(hostAccess, veth).Ok?
    ensures IndexedIP(hostAccess, slot).Ok? && VethAddrsForSlot(veth, slot).Ok? <==>
            1 <= slot <= MaxSlots(hostAccess, veth).value
    ensures 1 <= slot <= MaxSlots(hostAccess, veth).value ==>
              var ip, pair := IndexedIP(hostAccess, slot), VethAddrsForSlot(veth, slot);
              && ip.Ok? && ip.value == hostAccess.base + slot && Inside(hostAccess, ip.value)
              && pair.Ok? && pair.value.host == veth.base + 2 * slot && AlignedInside(veth, pair.value)
  {
    AcceptedPrefixes(hostAccess, veth);
    assert hostAccess.Size() <= TWO_31 && veth.base % 2 == 0 by {
      PowersFit(hostAccess);
      PowersFit(veth);
    }
    hide Pow2, IndexedIP, VethAddrsForSlot, MaxSlots, Cidr.Size, Cidr.Valid, Inside;
    HostAddress(hostAccess, slot);
    if slot < TWO_31 {
      VethAddress(veth, slot);
      AlignedPair(veth.base, slot);
    }
  }

  // Different slots share no address.
  lemma SlotsAreDisjoint(hostAccess: Cidr, veth: Cidr, a: uint32, b: uint32)
    requires hostAccess.Valid() && veth.Valid() && Accepted(hostAccess, veth) && a != b
    ensures MaxSlots(hostAccess, veth).Ok?
    ensures var most := MaxSlots(hostAccess, veth).value;
            1 <= a <= most && 1 <= b <= most ==>
              && IndexedIP(hostAccess, a) != IndexedIP(hostAccess, b)
              && var p, q := VethAddrsForSlot(veth, a), VethAddrsForSlot(veth, b);
                 p.Ok? && q.Ok? && p.value.host != q.value.host && p.value.host != q.value.peer
                 && p.value.peer != q.value.host && p.value.peer != q.value.peer
  {
    SlotAddresses(hostAccess, veth, a);
    SlotAddresses(hostAccess, veth, b);
    hide IndexedIP, VethAddrsForSlot, MaxSlots, Cidr.Size, Cidr.Valid, Inside, Pow2;
  }

  // Reading a slot off an address undoes computing the address, and conversely.
  lemma SlotAndAddressAreInverse(c: Cidr, slot: uint32, ip: uint32)
    requires c.Ipv4? && c.Valid() && c.ones >= 1
    ensures IndexedIP(c, slot) == Ok(ip) <==> SlotFromHostAccessIP(c, Some(ip)) == Ok(slot)
  {
    HostAddress(c, slot);
    MaskedIsInside(c, ip);
    PowersFit(c);
    hide Pow2, IndexedIP, Cidr.Size;
  }
}

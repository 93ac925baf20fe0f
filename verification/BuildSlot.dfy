// The slot a template or image build borrows: held by no sandbox, shown by no host route.
module BuildSlots {
  import opened Machine
  import opened Network
  import opened NetworkSpecs
  import opened Slots

  // A line of `ip route show`: blank, or its first field without a "/32" suffix.
  datatype RouteLine = Blank | Route(first: AddressText)

  // The NetworkSlot of every sandbox record, when there is a store and it answers.
  datatype Records = NoStore | ListFails | Listed(slots: seq<uint32>)

  predicate HeldBy(records: Records, slot: uint32) {
    records.Listed? && slot in records.slots
  }

  // A host route shows a slot when it names the slot's host access address.
  ghost predicate Shows(c: Cidr, line: RouteLine, slot: uint32)
    requires c.Valid()
  {
    line.Route? && line.first.V4? && IndexedIP(c, slot) == Ok(line.first.ip)
  }

  ghost predicate ShownBy(c: Cidr, lines: seq<RouteLine>, slot: uint32)
    requires c.Valid()
  {
    exists line :: line in lines && Shows(c, line, slot)
  }

  ghost predicate Free(c: Cidr, records: Records, routes: Option<seq<RouteLine>>, slot: uint32)
    requires c.Valid()
  {
    !HeldBy(records, slot) && !(routes.Some? && ShownBy(c, routes.value, slot))
  }

  // markUsedNetworkSlotsFromRouteOutput: lines that yield no slot are skipped.
  method MarkUsedFromRoutes(c: Cidr, lines: seq<RouteLine>, used: set<uint32>) returns (marked: set<uint32>)
    requires c.Valid() && c.Ipv4? && c.ones >= 1 && 0 !in used
    ensures 0 !in marked
    ensures forall s: uint32 :: s in marked <==> s in used || ShownBy(c, lines, s)
  {
    hide Cidr.Size, IndexedIP, Cidr.Valid;
    marked := used;
    for i := 0 to |lines|
      invariant 0 !in marked
      invariant forall s: uint32 :: s in marked <==> s in used || ShownBy(c, lines[..i], s)
    {
      ShownByOneMore(c, lines, i);
      if lines[i].Route? {
        var slot := SlotFromHostAccessIP(c, lines[i].first.Parsed());
        RouteShowsIts(c, lines[i].first, slot);
        if slot.Ok? {
          marked := marked + {slot.value};
        }
      }
    }
    assert lines[..|lines|] == lines;
  }

  lemma ShownByOneMore(c: Cidr, lines: seq<RouteLine>, i: nat)
    requires c.Valid() && i < |lines|
    ensures forall s: uint32 :: ShownBy(c, lines[..i + 1], s) <==> ShownBy(c, lines[..i], s) || Shows(c, lines[i], s)
  {
    hide IndexedIP;
    assert lines[..i + 1] == lines[..i] + [lines[i]];
  }

  // The slot read off an address is the one slot with that address.
  lemma RouteShowsIts(c: Cidr, first: AddressText, slot: Result<uint32>)
    requires c.Valid() && c.Ipv4? && c.ones >= 1
    requires slot == SlotFromHostAccessIP(c, first.Parsed())
    ensures slot.Ok? ==> slot.value != 0
    ensures forall s: uint32 :: Shows(c, Route(first), s) <==> slot == Ok(s)
  {
    forall s: uint32
      ensures Shows(c, Route(first), s) <==> slot == Ok(s)
    {
      if first.V4? {
        SlotAndAddressAreInverse(c, s, first.ip);
      }
    }
    hide IndexedIP, Cidr.Size;
  }

  method HeldSlots(slots: seq<uint32>) returns (used: set<uint32>)
    ensures forall s: uint32 :: s in used <==> s > 0 && s in slots
  {
    used := {};
    for i := 0 to |slots|
      invariant forall s: uint32 :: s in used <==> s > 0 && s in slots[..i]
    {
      if slots[i] > 0 {
        used := used + {slots[i]};
      }
    }
  }

  // routes is None when the command fails, which the code ignores.
  method InternalSandboxNetworkSpec(cfg: Config, sandboxId: string, records: Records, routes: Option<seq<RouteLine>>)
    returns (r: Result<Option<Fields>>)
    requires cfg.Valid()
    ensures !cfg.enabled ==> r == Ok(None)
    ensures cfg.enabled ==>
              var most := MaxSlots(cfg.hostAccess, cfg.veth);
              && (r.Ok? <==> most.Ok? && !records.ListFails?
                             && exists s: uint32 :: 1 <= s <= most.value && Free(cfg.hostAccess, records, routes, s))
              && (r.Ok? ==>
                    && r.value.Some? && r == SpecForSlot(cfg, sandboxId, r.value.value.slot)
                    && 1 <= r.value.value.slot <= most.value && Free(cfg.hostAccess, records, routes, r.value.value.slot)
                    && forall s: uint32 :: 1 <= s < r.value.value.slot ==> !Free(cfg.hostAccess, records, routes, s))
  {
    hide IndexedIP, MaxSlots, Cidr.Size, Cidr.Valid, ShownBy, Shows, Inside, AlignedInside, VethAddrsForSlot;
    if !cfg.enabled {
      return Ok(None);
    }
    var most := MaxSlots(cfg.hostAccess, cfg.veth);
    if most.Err? || records.ListFails? {
      return Err;
    }
    AcceptedPrefixes(cfg.hostAccess, cfg.veth);
    var used := {};
    if records.Listed? {
      used := HeldSlots(records.slots);
    }
    if routes.Some? {
      used := MarkUsedFromRoutes(cfg.hostAccess, routes.value, used);
    }
    assert forall s: uint32 :: s > 0 ==> (s !in used <==> Free(cfg.hostAccess, records, routes, s));
    var slot := FindFree(used, most.value);
    if slot == 0 {
      return Err;
    }
    SlotAddresses(cfg.hostAccess, cfg.veth, slot);
    r := SpecForSlot(cfg, sandboxId, slot);
  }

  // A template build gets a network even when sandboxes do not.
  method InternalSandboxNetworkSpecForTemplateBuild(cfg: Config, sandboxId: string, records: Records,
                                                    routes: Option<seq<RouteLine>>)
    returns (r: Result<Option<Fields>>)
    requires cfg.Valid()
    ensures var most := MaxSlots(cfg.hostAccess, cfg.veth);
            && (r.Ok? <==> most.Ok? && !records.ListFails?
                           && exists s: uint32 :: 1 <= s <= most.value && Free(cfg.hostAccess, records, routes, s))
            && (r.Ok? ==>
                  && r.value.Some? && r == SpecForSlot(cfg.(enabled := true), sandboxId, r.value.value.slot)
                  && 1 <= r.value.value.slot <= most.value && Free(cfg.hostAccess, records, routes, r.value.value.slot)
                  && forall s: uint32 :: 1 <= s < r.value.value.slot ==> !Free(cfg.hostAccess, records, routes, s))
  {
    hide IndexedIP, MaxSlots, Cidr.Size, Cidr.Valid, SpecForSlot, Free;
    r := InternalSandboxNetworkSpec(cfg.(enabled := true), sandboxId, records, routes);
  }
}

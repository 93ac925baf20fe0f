// What records and prepared networks have to do with each other, and what the shared steps
// of the handlers do to both.
module NetworkInvariant {
  import opened Machine
  import opened Network
  import opened NetworkSpecs
  import opened SandboxStore
  import opened StoreRuns
  import opened Slots
  import opened World
  import opened Lifecycle

  type Rows = map<Id, Record>
  type Nets = map<string, uint32>

  predicate InRange(cfg: Config, slot: uint32)
    requires cfg.Valid()
  {
    slot > 0 ==> cfg.enabled && MaxSlots(cfg.hostAccess, cfg.veth).Ok? && slot <= MaxSlots(cfg.hostAccess, cfg.veth).value
  }

  ghost predicate RowsOk(cfg: Config, rows: Rows)
    requires cfg.Valid()
  {
    SlotsUnique(rows) && forall id :: id in rows ==> InRange(cfg, rows[id].slot)
  }

  // Stopped and paused sandboxes hold no slot.
  ghost predicate Quiet(rows: Rows) {
    forall id :: id in rows && rows[id].state in {Stopped, Paused} ==> rows[id].slot == 0
  }

  ghost predicate RowsTidy(cfg: Config, rows: Rows)
    requires cfg.Valid()
  {
    RowsOk(cfg, rows) && Quiet(rows)
  }

  ghost predicate Owns(rows: Rows, id: Id, ns: string, slot: uint32) {
    id in rows && ns == NamespaceName(id) && slot > 0 && rows[id].slot == slot
  }

  ghost predicate Owned(rows: Rows, ns: string, slot: uint32) {
    exists id :: Owns(rows, id, ns, slot)
  }

  // Every prepared network belongs to a record that holds its slot.
  ghost predicate NetsOwned(rows: Rows, nets: Nets) {
    forall ns :: ns in nets ==> Owned(rows, ns, nets[ns])
  }

  ghost predicate Tidy(cfg: Config, w: World)
    requires cfg.Valid()
  {
    RowsTidy(cfg, w.store.rows) && NetsOwned(w.store.rows, w.nets)
  }

  // ---------- ownership ----------

  lemma SameName(a: Id, b: Id)
    requires NamespaceName(a) == NamespaceName(b)
    ensures a == b
  {
    assert NamespaceName(a)[3..] == a && NamespaceName(b)[3..] == b;
  }

  // The namespace of a record without a slot is not there.
  lemma NoSlotNoNetwork(rows: Rows, nets: Nets, id: Id)
    requires NetsOwned(rows, nets) && (id in rows ==> rows[id].slot == 0)
    ensures NamespaceName(id) !in nets
  {
    if NamespaceName(id) in nets {
      var o :| Owns(rows, o, NamespaceName(id), nets[NamespaceName(id)]);
      SameName(o, id);
    }
  }

  // Only the sandbox itself can own the namespace named after it.
  lemma OwnNameIff(rows: Rows, id: Id, slot: uint32)
    ensures Owned(rows, NamespaceName(id), slot) <==> id in rows && slot > 0 && rows[id].slot == slot
  {
    if id in rows && slot > 0 && rows[id].slot == slot {
      assert Owns(rows, id, NamespaceName(id), slot);
    }
    if Owned(rows, NamespaceName(id), slot) {
      var o :| Owns(rows, o, NamespaceName(id), slot);
      SameName(o, id);
    }
  }

  // rows differs from rows' at most at id.
  ghost predicate OthersSame(rows: Rows, rows': Rows, id: Id) {
    forall other :: other != id ==> (other in rows' <==> other in rows) && (other in rows ==> rows'[other] == rows[other])
  }

  lemma OthersOwnAsBefore(rows: Rows, rows': Rows, id: Id, ns: string, slot: uint32)
    requires OthersSame(rows, rows', id) && ns != NamespaceName(id)
    ensures Owned(rows', ns, slot) <==> Owned(rows, ns, slot)
  {
    if Owned(rows, ns, slot) {
      var o :| Owns(rows, o, ns, slot);
      assert Owns(rows', o, ns, slot);
    }
    if Owned(rows', ns, slot) {
      var o :| Owns(rows', o, ns, slot);
      assert Owns(rows, o, ns, slot);
    }
  }

  // After a change to the record id, to its own namespace and to the namespace ns, all
  // networks are owned exactly when these two are, where they are there.
  lemma OwnedAfterIff(rows: Rows, nets: Nets, rows': Rows, nets': Nets, id: Id, ns: string)
    requires NetsOwned(rows, nets) && OthersSame(rows, rows', id)
    requires nets' - {ns, NamespaceName(id)} == nets - {ns, NamespaceName(id)}
    ensures var own := NamespaceName(id);
            NetsOwned(rows', nets') <==>
            && (own in nets' ==> id in rows' && nets'[own] > 0 && rows'[id].slot == nets'[own])
            && (ns != own && ns in nets' ==> Owned(rows, ns, nets'[ns]))
  {
    var own := NamespaceName(id);
    if own in nets' {
      OwnNameIff(rows', id, nets'[own]);
    }
    forall n | n in nets' && n != own
      ensures Owned(rows', n, nets'[n]) <==> Owned(rows, n, nets'[n])
    {
      OthersOwnAsBefore(rows, rows', id, n, nets'[n]);
    }
    forall n | n in nets' && n !in {own, ns}
      ensures n in nets && nets'[n] == nets[n]
    {
      assert n in nets' - {ns, own};
    }
    hide Owned, NamespaceName, OthersSame;
  }

  // ---------- what the shared steps do ----------

  function With(rows: Rows, id: Id, state: State, slot: uint32): Rows
    requires id in rows
  {
    rows[id := rows[id].(state := state, slot := slot)]
  }

  lemma WithTwice(rows: Rows, id: Id, a: State, s: uint32, b: State, t: uint32)
    requires id in rows
    ensures id in With(rows, id, a, s) && With(rows, id, a, s)[id].state == a && With(rows, id, a, s)[id].slot == s
    ensures With(With(rows, id, a, s), id, b, t) == With(rows, id, b, t)
  {
  }

  lemma WithIsOthersSame(rows: Rows, id: Id, state: State, slot: uint32)
    requires id in rows
    ensures OthersSame(rows, With(rows, id, state, slot), id)
  {
  }

  // A record may give up its slot or keep it.
  lemma WithStaysOk(cfg: Config, rows: Rows, id: Id, state: State, slot: uint32)
    requires cfg.Valid() && RowsOk(cfg, rows) && id in rows && (slot == 0 || slot == rows[id].slot)
    ensures RowsOk(cfg, With(rows, id, state, slot))
  {
    ZeroInRange(cfg);
    hide InRange;
  }

  lemma ZeroInRange(cfg: Config)
    requires cfg.Valid()
    ensures InRange(cfg, 0)
  {
  }

  lemma SetStateEffect(w: World, id: Id, to: State, action: string)
    requires id in w.store.rows
    ensures var r := SetState(w, id, to, action);
            r.ok && r.world.nets == w.nets && r.world.store.rows == With(w.store.rows, id, to, w.store.rows[id].slot)
  {
    assert w.store.rows[id].state == to ==> w.store.rows == With(w.store.rows, id, to, w.store.rows[id].slot);
  }

  // The slot a sandbox gets or keeps; 0 when networking is off.
  function GivenSlot(cfg: Config, rows: Rows, id: Id): Result<uint32>
    requires cfg.Valid() && id in rows
  {
    if !cfg.enabled then Ok(0)
    else if MaxSlots(cfg.hostAccess, cfg.veth).Err? then Err
    else if rows[id].slot > 0 then Ok(rows[id].slot)
    else
      var slot := FirstFree(UsedSlots(rows), 1, MaxSlots(cfg.hostAccess, cfg.veth).value);
      if slot == 0 then Err else Ok(slot)
  }

  // It is refused exactly without valid prefixes, or when every slot has a holder.
  lemma NoSlotIff(cfg: Config, rows: Rows, id: Id)
    requires cfg.Valid() && RowsOk(cfg, rows) && id in rows
    ensures GivenSlot(cfg, rows, id).Err? <==>
            cfg.enabled && (var most := MaxSlots(cfg.hostAccess, cfg.veth);
                            most.Err? || (rows[id].slot == 0 && |Holders(rows, most.value)| == most.value))
    ensures GivenSlot(cfg, rows, id).Err? ==> rows[id].slot == 0
  {
    hide MaxSlots, UsedSlots, SlotsUnique, Holders, FirstFree;
    var most := MaxSlots(cfg.hostAccess, cfg.veth);
    if most.Ok? {
      ExhaustedIff(rows, most.value);
    }
  }

  // The state of the sandbox has no say in it.
  lemma GivenSlotIgnoresState(cfg: Config, rows: Rows, id: Id, state: State)
    requires cfg.Valid() && id in rows
    ensures GivenSlot(cfg, With(rows, id, state, rows[id].slot), id) == GivenSlot(cfg, rows, id)
  {
    assert UsedSlots(With(rows, id, state, rows[id].slot)) == UsedSlots(rows) by {
      SameUsed(rows, With(rows, id, state, rows[id].slot));
    }
    hide MaxSlots, UsedSlots, FirstFree;
  }

  lemma SameUsed(rows: Rows, rows': Rows)
    requires rows'.Keys == rows.Keys && forall id :: id in rows ==> rows'[id].slot == rows[id].slot
    ensures UsedSlots(rows') == UsedSlots(rows)
  {
  }

  lemma MaxSlotsPositive(cfg: Config)
    requires cfg.Valid() && MaxSlots(cfg.hostAccess, cfg.veth).Ok?
    ensures MaxSlots(cfg.hostAccess, cfg.veth).value > 0
  {
    AcceptedPrefixes(cfg.hostAccess, cfg.veth);
    hide MaxSlots;
  }

  // The given slot is in range and no other record has it.
  lemma GivenSlotIsFree(cfg: Config, rows: Rows, id: Id)
    requires cfg.Valid() && RowsOk(cfg, rows) && id in rows && GivenSlot(cfg, rows, id).Ok?
    ensures var slot := GivenSlot(cfg, rows, id).value;
            && InRange(cfg, slot) && (cfg.enabled <==> slot > 0) && (rows[id].slot > 0 ==> slot == rows[id].slot)
            && (slot > 0 ==> forall other :: other in rows && other != id ==> rows[other].slot != slot)
  {
    hide MaxSlots;
    assert InRange(cfg, rows[id].slot);
    var slot := GivenSlot(cfg, rows, id).value;
    forall other | other in rows && other != id && slot > 0
      ensures rows[other].slot != slot
    {
      if rows[other].slot > 0 {
        assert rows[other].slot in UsedSlots(rows);
      }
    }
  }

  lemma GivenSlotStaysOk(cfg: Config, rows: Rows, id: Id, state: State)
    requires cfg.Valid() && RowsOk(cfg, rows) && id in rows && GivenSlot(cfg, rows, id).Ok?
    ensures RowsOk(cfg, With(rows, id, state, GivenSlot(cfg, rows, id).value))
  {
    GivenSlotIsFree(cfg, rows, id);
    hide GivenSlot, InRange;
  }

  // Assignment: the row gets the given slot.
  lemma AssignEffect(cfg: Config, w: World, id: Id)
    requires cfg.Valid() && RowsOk(cfg, w.store.rows) && id in w.store.rows
    ensures var a, rows := AssignNetwork(cfg, w, id), w.store.rows;
            && a.result == GivenSlot(cfg, rows, id) && a.world.nets == w.nets
            && (a.result.Err? ==> a.world.store.rows == rows && rows[id].slot == 0)
            && (a.result.Ok? ==> a.world.store.rows == With(rows, id, rows[id].state, a.result.value))
  {
    var most, rows := MaxSlots(cfg.hostAccess, cfg.veth), w.store.rows;
    hide MaxSlots, UsedSlots, SlotsUnique, FirstFree;
    assert rows == With(rows, id, rows[id].state, rows[id].slot);
    assert InRange(cfg, rows[id].slot);
    if cfg.enabled && most.Ok? {
      MaxSlotsPositive(cfg);
    }
  }

  // A slot in range has a spec, whose address leads back to the slot.
  lemma SlotHasSpec(cfg: Config, id: Id, slot: uint32)
    requires cfg.Valid() && slot > 0 && InRange(cfg, slot)
    ensures cfg.enabled
    ensures var s := SpecForSlot(cfg, id, slot);
            && s.Ok? && s.value.Some? && s.value.value.namespaceName == NamespaceName(id) && s.value.value.hostAccessIp.V4?
            && SlotFromHostAccessIP(cfg.hostAccess, s.value.value.hostAccessIp.Parsed()) == Ok(slot)
    ensures VethAddrsForSlot(cfg.veth, slot).Ok?
  {
    AcceptedPrefixes(cfg.hostAccess, cfg.veth);
    SlotAddresses(cfg.hostAccess, cfg.veth, slot);
    SlotAndAddressAreInverse(cfg.hostAccess, slot, IndexedIP(cfg.hostAccess, slot).value);
    hide IndexedIP, SlotFromHostAccessIP, VethAddrsForSlot, MaxSlots, Cidr.Size;
  }

  // What a release leaves of the networks.
  function Released(cfg: Config, nets: Nets, id: Id, deleteFails: bool): Nets {
    if cfg.enabled && !deleteFails then nets - {NamespaceName(id)} else nets
  }

  // A release always takes the slot; the namespace goes when it can be deleted.
  lemma ReleaseEffect(cfg: Config, w: World, id: Id, slot: uint32, deleteFails: bool)
    requires cfg.Valid() && id in w.store.rows && InRange(cfg, w.store.rows[id].slot) && slot == w.store.rows[id].slot
    ensures var r := ReleaseNetwork(cfg, w, id, slot, deleteFails);
            && r.ok && r.world.store.rows == With(w.store.rows, id, w.store.rows[id].state, 0)
            && r.world.nets == if slot > 0 then Released(cfg, w.nets, id, deleteFails) else w.nets
  {
    if slot > 0 {
      SlotHasSpec(cfg, id, slot);
    }
    assert slot == 0 ==> w.store.rows == With(w.store.rows, id, w.store.rows[id].state, 0);
    hide SpecForSlot, InRange, NamespaceName;
  }

  // Give up: mark failed, then release.
  lemma FailEffect(cfg: Config, w: World, id: Id, slot: uint32, action: string, f: BringUpFaults)
    requires cfg.Valid() && id in w.store.rows && InRange(cfg, w.store.rows[id].slot) && slot == w.store.rows[id].slot
    ensures var r := FailAndRelease(cfg, w, id, slot, action, f);
            && r.store.rows == With(w.store.rows, id, Failed, 0)
            && r.nets == if slot > 0 then Released(cfg, w.nets, id, f.netDelete) else w.nets
  {
    hide SetState, ReleaseNetwork, InRange, Released;
    SetStateEffect(w, id, Failed, action);
    ReleaseEffect(cfg, SetState(w, id, Failed, action).world, id, slot, f.netDelete);
  }

  // ---------- preparing a network ----------

  datatype Entry = Entry(ns: string, slot: uint32)

  // The namespace that preparing a spec brings about, and the slot it is given.
  function Prepared(cfg: Config, spec: Option<Fields>, addFails: bool): Option<Entry>
    requires cfg.Valid()
  {
    if spec.None? || spec.value.namespaceName == "" || addFails then None
    else
      var slot := SlotFromHostAccessIP(cfg.hostAccess, spec.value.hostAccessIp.Parsed());
      if slot.Err? || VethAddrsForSlot(cfg.veth, slot.value).Err? then None
      else Some(Entry(spec.value.namespaceName, slot.value))
  }

  function Added(nets: Nets, entry: Option<Entry>): Nets {
    if entry.None? then nets else nets[entry.value.ns := entry.value.slot]
  }

  lemma PrepareEffect(cfg: Config, w: World, spec: Option<Fields>, addFails: bool, configureFails: bool)
    requires cfg.Valid()
    ensures var n := PrepareNetwork(cfg, w, spec, addFails, configureFails);
            && n.world == w.(nets := Added(w.nets, Prepared(cfg, spec, addFails)))
            && (n.ok <==> spec.None? || spec.value.namespaceName == "" || (Prepared(cfg, spec, addFails).Some? && !configureFails))
    ensures var e := Prepared(cfg, spec, addFails);
            e.Some? ==> spec.Some? && e.value.ns == spec.value.namespaceName != "" && e.value.slot > 0
  {
    var slot := if spec.Some? then SlotFromHostAccessIP(cfg.hostAccess, spec.value.hostAccessIp.Parsed()) else Err;
    assert slot.Ok? ==> slot.value > 0;
    hide SlotFromHostAccessIP, VethAddrsForSlot;
  }

  // A sandbox's own spec prepares its own namespace with its own slot.
  lemma OwnSpecPrepares(cfg: Config, id: Id, slot: uint32, addFails: bool)
    requires cfg.Valid() && InRange(cfg, slot)
    ensures var spec := SandboxNetwork(cfg, id, slot);
            && (slot == 0 ==> spec.None?)
            && (slot > 0 ==> spec.Some? && IndexedIP(cfg.hostAccess, slot).Ok? && NamespaceName(id) != ""
                             && spec.value == Fields(NamespaceName(id), "tap0", cfg.guestIp, cfg.gatewayIp,
                                                     V4(IndexedIP(cfg.hostAccess, slot).value), cfg.guestMac, slot))
            && Prepared(cfg, spec, addFails) == if slot > 0 && !addFails then Some(Entry(NamespaceName(id), slot)) else None
  {
    if slot > 0 {
      SlotHasSpec(cfg, id, slot);
      CompletedComplements(cfg, id, slot, None);
      assert Completed(cfg, id, slot, None) == SpecForSlot(cfg, id, slot);
    }
    hide SpecForSlot, SlotFromHostAccessIP, VethAddrsForSlot, InRange, IndexedIP;
  }
}

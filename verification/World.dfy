// What a boxlet handler can touch: the store, the network namespaces on the host, and
// the overlaybd snapshots and mounts.  Every `...Fails` is the environment's choice for
// one call; the store itself answers.
module World {
  import opened Machine
  import opened Network
  import opened NetworkSpecs
  import opened SandboxStore

  datatype Mount = Mount(target: string, key: string)

  // What could be seen between two steps.
  datatype Moment = Moment(rows: map<Id, Record>, snapshots: set<string>)

  datatype World = World(store: Tables, nets: map<string, uint32>, snapshots: set<string>,
                         mounts: set<Mount>, seen: seq<Moment>) {
    function See(): World {
      this.(seen := seen + [Moment(store.rows, snapshots)])
    }
  }

  const EMPTY_WORLD := World(Tables(map[], []), map[], {}, {}, [])

  datatype Tried = Tried(world: World, ok: bool)

  function SnapshotKey(id: Id): string {
    "novitabox-sandbox-" + id
  }

  // <root>/sandboxes/<id>/rootfs
  function DefaultTarget(id: Id): string {
    "sandboxes/" + id + "/rootfs"
  }

  // ---------- the store ----------

  datatype Answered = Answered(world: World, outcome: Outcome)

  function Ask(w: World, reply: Reply): Answered {
    Answered(w.(store := reply.tables).See(), reply.outcome)
  }

  // setSandboxState: from whatever state the row is in.
  function SetState(w: World, id: Id, to: State, action: string): Tried {
    if id !in w.store.rows then Tried(w, false)
    else if w.store.rows[id].state == to then Tried(w, true)
    else
      var a := Ask(w, StateUpdated(w.store, id, w.store.rows[id].state, to, action));
      Tried(a.world, !a.outcome.Rejected?)
  }

  // ---------- the host network ----------

  datatype Assigned = Assigned(world: World, result: Result<uint32>)

  function AssignNetwork(cfg: Config, w: World, id: Id): Assigned
    requires cfg.Valid()
  {
    if !cfg.enabled then Assigned(w, Ok(0))
    else
      var most := MaxSlots(cfg.hostAccess, cfg.veth);
      if most.Err? then Assigned(w, Err)
      else
        var a := Ask(w, SlotAssigned(w.store, id, most.value));
        Assigned(a.world, if a.outcome.Slot? then Ok(a.outcome.slot) else Err)
  }

  // Prepare: nothing for an absent spec; otherwise the address names the slot whose
  // veth pair is configured in the spec's namespace.
  function PrepareNetwork(cfg: Config, w: World, spec: Option<Fields>, addFails: bool, configureFails: bool): Tried
    requires cfg.Valid()
  {
    if spec.None? || spec.value.namespaceName == "" then Tried(w, true)
    else
      var slot := SlotFromHostAccessIP(cfg.hostAccess, spec.value.hostAccessIp.Parsed());
      if slot.Err? || VethAddrsForSlot(cfg.veth, slot.value).Err? || addFails then Tried(w, false)
      else Tried(w.(nets := w.nets[spec.value.namespaceName := slot.value]), !configureFails)
  }

  // Cleanup ignores the failures of the commands it runs.
  function CleanupNetwork(cfg: Config, w: World, id: Id, slot: uint32, deleteFails: bool): Tried
    requires cfg.Valid()
  {
    var spec := SpecForSlot(cfg, id, slot);
    if spec.Err? then Tried(w, false)
    else if spec.value.None? || deleteFails then Tried(w, true)
    else Tried(w.(nets := w.nets - {spec.value.value.namespaceName}), true)
  }

  // slot is the one in the handler's own copy of the record.
  function ReleaseNetwork(cfg: Config, w: World, id: Id, slot: uint32, deleteFails: bool): Tried
    requires cfg.Valid()
  {
    if !cfg.enabled then Tried(w, true)
    else
      var cleaned := if slot > 0 then CleanupNetwork(cfg, w, id, slot, deleteFails) else Tried(w, true);
      if !cleaned.ok then cleaned
      else Tried(Ask(cleaned.world, SlotReleased(cleaned.world.store, id)).world, true)
  }

  // ---------- overlaybd ----------

  datatype RemoveFaults = RemoveFaults(unmount: bool, remove: bool)

  // UnmountAll; a target with nothing mounted on it is no error.
  function Unmount(w: World, target: string, fails: bool): Tried {
    if fails then Tried(w, false)
    else Tried(w.(mounts := set m | m in w.mounts && m.target != target), true)
  }

  // A snapshot that is not there is no error.
  function RemoveSnapshot(w: World, key: string, fails: bool): Tried {
    if fails then Tried(w, false) else Tried(w.(snapshots := w.snapshots - {key}).See(), true)
  }

  function RemoveRootfs(w: World, key: string, target: string, f: RemoveFaults): Tried {
    var u := Unmount(w, target, f.unmount);
    if !u.ok then u else RemoveSnapshot(u.world, key, f.remove)
  }

  function MountRootfs(w: World, key: string, target: string, fails: bool): Tried {
    if fails || key !in w.snapshots then Tried(w, false)
    else Tried(w.(mounts := w.mounts + {Mount(target, key)}), true)
  }

  datatype PrepareFaults = PrepareFaults(image: bool, snapshot: bool, mount: bool, rollback: bool)

  function PrepareRootfs(w: World, id: Id, source: string, target: string, f: PrepareFaults): Tried {
    var key := SnapshotKey(id);
    if id == "" || source == "" || target == "" || f.image || f.snapshot || key in w.snapshots then Tried(w, false)
    else
      var made := w.(snapshots := w.snapshots + {key}).See();
      if f.mount then Tried(RemoveSnapshot(made, key, f.rollback).world, false)
      else Tried(made.(mounts := made.mounts + {Mount(target, key)}), true)
  }
}

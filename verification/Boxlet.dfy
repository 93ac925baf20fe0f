// The sandbox handlers of boxlet, step by step on their own state.  Each does what its
// function in Lifecycle says.
module Boxlet {
  import opened Machine
  import opened Network
  import opened NetworkSpecs
  import opened SandboxStore
  import opened World
  import opened Lifecycle
  import opened LifecycleRuns
  import opened NetworkInvariant
  import opened Orphans

  class SandboxService {
    const cfg: Config
    const store: Store
    var nets: map<string, uint32>
    var snapshots: set<string>
    var mounts: set<Mount>
    ghost var seen: seq<Moment>

    ghost function Now(): World
      reads this, store
    {
      World(store.Value(), nets, snapshots, mounts, seen)
    }

    constructor (cfg: Config, store: Store)
      ensures this.cfg == cfg && this.store == store
      ensures Now() == World(store.Value(), map[], {}, {}, [])
    {
      this.cfg, this.store := cfg, store;
      nets, snapshots, mounts, seen := map[], {}, {}, [];
    }

    ghost method Look()
      modifies this`seen
      ensures Now() == old(Now()).See()
    {
      seen := seen + [Moment(store.rows, snapshots)];
    }

    // ---------- the store ----------

    method UpdateState(id: Id, from: State, to: State, action: string) returns (ok: bool)
      modifies this, store
      ensures Tried(Now(), ok) == var a := Ask(old(Now()), StateUpdated(old(store.Value()), id, from, to, action));
                                  Tried(a.world, !a.outcome.Rejected?)
    {
      hide StateUpdated;
      var r := store.UpdateSandboxState(id, from, to, action, false);
      Look();
      ok := !r.Rejected?;
    }

    method SetSandboxState(id: Id, to: State, action: string) returns (ok: bool)
      modifies this, store
      ensures Tried(Now(), ok) == SetState(old(Now()), id, to, action)
    {
      hide StateUpdated;
      if id !in store.rows {
        return false;
      }
      if store.rows[id].state == to {
        return true;
      }
      ok := UpdateState(id, store.rows[id].state, to, action);
    }

    // ---------- the host network ----------

    method AssignSandboxNetworkSlot(id: Id) returns (r: Result<uint32>)
      requires cfg.Valid()
      modifies this, store
      ensures Assigned(Now(), r) == AssignNetwork(cfg, old(Now()), id)
    {
      hide MaxSlots, SlotAssigned;
      if !cfg.enabled {
        return Ok(0);
      }
      var most := MaxSlots(cfg.hostAccess, cfg.veth);
      if most.Err? {
        return Err;
      }
      var slot := store.AssignSandboxNetworkSlot(id, most.value, false);
      Look();
      r := if slot.Slot? then Ok(slot.slot) else Err;
    }

    method Prepare(spec: Option<Fields>, addFails: bool, configureFails: bool) returns (ok: bool)
      requires cfg.Valid()
      modifies this
      ensures Tried(Now(), ok) == PrepareNetwork(cfg, old(Now()), spec, addFails, configureFails)
    {
      hide SlotFromHostAccessIP, VethAddrsForSlot;
      if spec.None? || spec.value.namespaceName == "" {
        return true;
      }
      var slot := SlotFromHostAccessIP(cfg.hostAccess, spec.value.hostAccessIp.Parsed());
      if slot.Err? {
        return false;
      }
      var veth := VethAddrsForSlot(cfg.veth, slot.value);
      if veth.Err? || addFails {
        return false;
      }
      nets := nets[spec.value.namespaceName := slot.value];
      ok := !configureFails;
    }

    method Cleanup(id: Id, slot: uint32, deleteFails: bool) returns (ok: bool)
      requires cfg.Valid()
      modifies this
      ensures Tried(Now(), ok) == CleanupNetwork(cfg, old(Now()), id, slot, deleteFails)
    {
      hide SpecForSlot;
      var spec := SpecForSlot(cfg, id, slot);
      if spec.Err? {
        return false;
      }
      if spec.value.None? {
        return true;
      }
      if !deleteFails {
        nets := nets - {spec.value.value.namespaceName};
      }
      ok := true;
    }

    method ReleaseSandboxNetwork(id: Id, slot: uint32, deleteFails: bool) returns (ok: bool)
      requires cfg.Valid()
      modifies this, store
      ensures Tried(Now(), ok) == ReleaseNetwork(cfg, old(Now()), id, slot, deleteFails)
    {
      hide CleanupNetwork, SlotReleased;
      if !cfg.enabled {
        return true;
      }
      if slot > 0 {
        var cleaned := Cleanup(id, slot, deleteFails);
        if !cleaned {
          return false;
        }
      }
      var released := store.ReleaseSandboxNetworkSlot(id, false);
      Look();
      ok := true;
    }

    // ---------- overlaybd ----------

    method UnmountTarget(target: string, fails: bool) returns (ok: bool)
      modifies this
      ensures Tried(Now(), ok) == Unmount(old(Now()), target, fails)
    {
      if !fails {
        mounts := set m | m in mounts && m.target != target;
      }
      ok := !fails;
    }

    method RemoveKey(key: string, fails: bool) returns (ok: bool)
      modifies this
      ensures Tried(Now(), ok) == RemoveSnapshot(old(Now()), key, fails)
    {
      if !fails {
        snapshots := snapshots - {key};
        Look();
      }
      ok := !fails;
    }

    method ProviderRemove(key: string, target: string, f: RemoveFaults) returns (ok: bool)
      modifies this
      ensures Tried(Now(), ok) == RemoveRootfs(old(Now()), key, target, f)
    {
      hide Unmount, RemoveSnapshot;
      ok := UnmountTarget(target, f.unmount);
      if ok {
        ok := RemoveKey(key, f.remove);
      }
    }

    method ProviderMount(key: string, target: string, fails: bool) returns (ok: bool)
      modifies this
      ensures Tried(Now(), ok) == MountRootfs(old(Now()), key, target, fails)
    {
      ok := !fails && key in snapshots;
      if ok {
        mounts := mounts + {Mount(target, key)};
      }
    }

    method ProviderPrepare(id: Id, source: string, target: string, f: PrepareFaults) returns (ok: bool)
      modifies this
      ensures Tried(Now(), ok) == PrepareRootfs(old(Now()), id, source, target, f)
    {
      hide RemoveSnapshot;
      if id == "" || source == "" || target == "" || f.image {
        return false;
      }
      var key := SnapshotKey(id);
      if f.snapshot || key in snapshots {
        return false;
      }
      snapshots := snapshots + {key};
      Look();
      if f.mount {
        var undone := RemoveKey(key, f.rollback);
        return false;
      }
      mounts := mounts + {Mount(target, key)};
      ok := true;
    }

    // Each handler keeps every snapshot carried and the records in order.
    lemma Keeps(r: Request)
      requires cfg.Valid()
      ensures OrphanFree(Now()) ==> OrphanFree(Handle(cfg, Now(), r).world)
      ensures RowsTidy(cfg, store.rows) ==> RowsTidy(cfg, Handle(cfg, Now(), r).world.store.rows)
    {
      hide Handle, OrphanFree, RowsTidy;
      if OrphanFree(Now()) {
        HandleKeepsOrphanFree(cfg, Now(), r);
      }
      if RowsTidy(cfg, Now().store.rows) {
        HandleTidy(cfg, Now(), r);
      }
    }

    // ---------- create ----------

    method PrepareSandboxRuntimeFiles(req: CreateRequest, f: CreateFaults) returns (ok: bool)
      modifies this, store
      ensures Tried(Now(), ok) == PrepareFiles(old(Now()), req, f)
    {
      hide PrepareRootfs, RemoveRootfs, DigestUpdated;
      if f.files {
        return false;
      }
      if req.source.None? {
        return true;
      }
      ok := ProviderPrepare(req.id, req.source.value.image, req.Target(), f.prepare);
      if !ok {
        return;
      }
      if f.digest != "" {
        var persisted := store.UpdateSandboxRootfsDigest(req.id, f.digest, false);
        Look();
        ok := !persisted.Rejected?;
      }
      if !ok || f.inject {
        var undone := ProviderRemove(SnapshotKey(req.id), req.Target(), f.injectUndo);
        ok := false;
      }
    }

    method GiveUpCreate(id: Id, slot: uint32, f: BringUpFaults)
      requires cfg.Valid()
      modifies this, store
      ensures Now() == FailCreate(cfg, old(Now()), id, slot, f)
    {
      hide StateUpdated, ReleaseNetwork;
      var marked := UpdateState(id, Creating, Failed, "create");
      var released := ReleaseSandboxNetwork(id, slot, f.netDelete);
    }

    method Launch(req: CreateRequest, slot: uint32, f: CreateFaults) returns (ok: bool)
      requires cfg.Valid()
      modifies this, store
      ensures Tried(Now(), ok) == LaunchRun(cfg, old(Now()), req, slot, f)
    {
      hide StateUpdated, FailCreate, PrepareNetwork, CreateNetwork;
      if f.snapshotDirs {
        GiveUpCreate(req.id, slot, f.up);
        return false;
      }
      ok := Prepare(CreateNetwork(cfg, req, slot), f.up.netAdd, f.up.netConfigure);
      if !ok {
        GiveUpCreate(req.id, slot, f.up);
        return;
      }
      if f.shim || f.up.dial || f.up.runtime || f.up.agent {
        GiveUpCreate(req.id, slot, f.up);
        return false;
      }
      ok := UpdateState(req.id, Creating, Running, "create");
    }

    method CreateSandbox(req: CreateRequest, f: CreateFaults) returns (createSucceeded: bool)
      requires cfg.Valid()
      modifies this, store
      ensures Tried(Now(), createSucceeded) == CreateRun(cfg, old(Now()), req, f)
      ensures OrphanFree(old(Now())) ==> OrphanFree(Now())
      ensures RowsTidy(cfg, old(store.rows)) ==> RowsTidy(cfg, store.rows)
    {
      hide Created, StateUpdated, AssignNetwork, PrepareFiles, LaunchRun, RemoveRootfs, FailCreate, OrphanFree, RowsTidy;
      Keeps(DoCreate(req, f));
      createSucceeded := false;
      if req.id == "" || f.mkdir || !req.SourceAccepted() {
        return;
      }
      var inserted := store.CreateSandbox(req.id, NewRecord(req), false);
      Look();
      if inserted.Rejected? {
        return;
      }
      var slot := AssignSandboxNetworkSlot(req.id);
      if slot.Err? {
        var marked := UpdateState(req.id, Creating, Failed, "create");
        return;
      }
      var prepared := PrepareSandboxRuntimeFiles(req, f);
      if !prepared {
        GiveUpCreate(req.id, slot.value, f.up);
        return;
      }
      var rootfsPrepared := req.source.Some?;
      createSucceeded := Launch(req, slot.value, f);
      if !createSucceeded && rootfsPrepared {
        var undone := ProviderRemove(SnapshotKey(req.id), DefaultTarget(req.id), f.undo);
      }
    }

    // ---------- start and resume ----------

    method GiveUp(id: Id, slot: uint32, action: string, f: BringUpFaults)
      requires cfg.Valid()
      modifies this, store
      ensures Now() == FailAndRelease(cfg, old(Now()), id, slot, action, f)
    {
      hide SetState, ReleaseNetwork;
      var marked := SetSandboxState(id, Failed, action);
      var released := ReleaseSandboxNetwork(id, slot, f.netDelete);
    }

    method BringUp(id: Id, slot: uint32, action: string, f: BringUpFaults) returns (ok: bool)
      requires cfg.Valid()
      modifies this, store
      ensures Tried(Now(), ok) == BringUpRun(cfg, old(Now()), id, slot, action, f)
    {
      hide SetState, FailAndRelease, PrepareNetwork, SandboxNetwork;
      if f.dial || f.attach {
        GiveUp(id, slot, action, f);
        return false;
      }
      ok := Prepare(SandboxNetwork(cfg, id, slot), f.netAdd, f.netConfigure);
      if !ok || f.runtime || f.agent {
        GiveUp(id, slot, action, f);
        return false;
      }
      ok := SetSandboxState(id, Running, action);
    }

    method ResumeSandbox(id: Id, f: BringUpFaults) returns (ok: bool)
      requires cfg.Valid()
      modifies this, store
      ensures Tried(Now(), ok) == ResumeRun(cfg, old(Now()), id, f)
      ensures OrphanFree(old(Now())) ==> OrphanFree(Now())
      ensures RowsTidy(cfg, old(store.rows)) ==> RowsTidy(cfg, store.rows)
    {
      hide SetState, AssignNetwork, BringUpRun, OrphanFree, RowsTidy;
      Keeps(DoResume(id, f));
      if id !in store.rows {
        return false;
      }
      ok := SetSandboxState(id, Resuming, "resume");
      if !ok {
        return;
      }
      var slot := AssignSandboxNetworkSlot(id);
      if slot.Err? {
        var marked := SetSandboxState(id, Failed, "resume");
        return false;
      }
      ok := BringUp(id, slot.value, "resume", f);
    }

    method StartSandbox(id: Id, f: StartFaults) returns (startSucceeded: bool)
      requires cfg.Valid()
      modifies this, store
      ensures Tried(Now(), startSucceeded) == StartRun(cfg, old(Now()), id, f)
      ensures OrphanFree(old(Now())) ==> OrphanFree(Now())
      ensures RowsTidy(cfg, old(store.rows)) ==> RowsTidy(cfg, store.rows)
    {
      hide SetState, AssignNetwork, BringUpRun, FailAndRelease, MountRootfs, Unmount, OrphanFree, RowsTidy;
      Keeps(DoStart(id, f));
      if id !in store.rows {
        return false;
      }
      var record := store.rows[id];
      startSucceeded := SetSandboxState(id, Starting, "start");
      if !startSucceeded {
        return;
      }
      var slot := AssignSandboxNetworkSlot(id);
      if slot.Err? {
        var marked := SetSandboxState(id, Failed, "start");
        return false;
      }
      var mountedOverlayBD := false;
      if record.overlayBD {
        mountedOverlayBD := ProviderMount(record.snapshotKey, DefaultTarget(id), f.mount);
        if !mountedOverlayBD {
          GiveUp(id, slot.value, "start", f.up);
          return false;
        }
      }
      startSucceeded := BringUp(id, slot.value, "start", f.up);
      if mountedOverlayBD && !startSucceeded {
        var unmounted := UnmountTarget(DefaultTarget(id), f.undoUnmount);
      }
    }

    // ---------- pause, stop and reboot ----------

    method Finish(id: Id, slot: uint32, action: Action, f: ActionFaults) returns (ok: bool)
      requires cfg.Valid()
      modifies this, store
      ensures Tried(Now(), ok) == FinishRun(cfg, old(Now()), id, slot, action, f)
    {
      hide SetState, ReleaseNetwork, Action.Final, Action.Name, Action.EndsNetwork;
      if f.dial || f.call {
        var marked := SetSandboxState(id, Failed, action.Name());
        return false;
      }
      ok := SetSandboxState(id, action.Final(), action.Name());
      if ok && action.EndsNetwork() {
        ok := ReleaseSandboxNetwork(id, slot, f.netDelete);
      }
    }

    method RuntimeAction(id: Id, action: Action, f: ActionFaults) returns (ok: bool)
      requires cfg.Valid()
      modifies this, store
      ensures Tried(Now(), ok) == ActionRun(cfg, old(Now()), id, action, f)
    {
      hide SetState, FinishRun, Action.Transition, Action.Final, Action.Name;
      if id !in store.rows {
        return false;
      }
      var record := store.rows[id];
      ok := SetSandboxState(id, action.Transition(), action.Name());
      if ok {
        ok := Finish(id, record.slot, action, f);
      }
    }

    method PauseSandbox(id: Id, f: ActionFaults) returns (ok: bool)
      requires cfg.Valid()
      modifies this, store
      ensures Tried(Now(), ok) == PauseRun(cfg, old(Now()), id, f)
      ensures OrphanFree(old(Now())) ==> OrphanFree(Now())
      ensures RowsTidy(cfg, old(store.rows)) ==> RowsTidy(cfg, store.rows)
    {
      hide ActionRun, OrphanFree, RowsTidy;
      Keeps(DoAction(id, Pause, f));
      ok := RuntimeAction(id, Pause, f);
    }

    method RebootSandbox(id: Id, f: ActionFaults) returns (ok: bool)
      requires cfg.Valid()
      modifies this, store
      ensures Tried(Now(), ok) == RebootRun(cfg, old(Now()), id, f)
      ensures OrphanFree(old(Now())) ==> OrphanFree(Now())
      ensures RowsTidy(cfg, old(store.rows)) ==> RowsTidy(cfg, store.rows)
    {
      hide ActionRun, OrphanFree, RowsTidy;
      Keeps(DoAction(id, Reboot, f));
      ok := RuntimeAction(id, Reboot, f);
    }

    method StopSandbox(id: Id, f: ActionFaults) returns (ok: bool)
      requires cfg.Valid()
      modifies this, store
      ensures Tried(Now(), ok) == StopRun(cfg, old(Now()), id, f)
      ensures OrphanFree(old(Now())) ==> OrphanFree(Now())
      ensures RowsTidy(cfg, old(store.rows)) ==> RowsTidy(cfg, store.rows)
    {
      hide ActionRun, Unmount, OrphanFree, RowsTidy;
      Keeps(DoAction(id, Stop, f));
      ok := RuntimeAction(id, Stop, f);
      if ok && id in store.rows && store.rows[id].overlayBD {
        ok := UnmountTarget(DefaultTarget(id), f.unmount);
      }
    }

    // ---------- kill ----------

    method RemoveOverlayBDRootfs(id: Id, record: Record, f: RemoveFaults) returns (ok: bool)
      modifies this
      ensures Tried(Now(), ok) == DropRootfs(old(Now()), id, record, f)
    {
      hide RemoveRootfs;
      if !record.overlayBD || record.snapshotKey == "" {
        return true;
      }
      ok := ProviderRemove(record.snapshotKey, DefaultTarget(id), f);
    }

    method KillSandbox(id: Id, f: KillFaults) returns (ok: bool)
      requires cfg.Valid()
      modifies this, store
      ensures Tried(Now(), ok) == KillRun(cfg, old(Now()), id, f)
      ensures OrphanFree(old(Now())) ==> OrphanFree(Now())
      ensures RowsTidy(cfg, old(store.rows)) ==> RowsTidy(cfg, store.rows)
    {
      hide SetState, DropRootfs, Deleted, ReleaseNetwork, OrphanFree, RowsTidy;
      Keeps(DoKill(id, f));
      if id !in store.rows {
        return false;
      }
      var record := store.rows[id];
      ok := SetSandboxState(id, Killing, "kill");
      if !ok {
        return;
      }
      ok := RemoveOverlayBDRootfs(id, record, f.remove);
      if !ok {
        return;
      }
      ok := SetSandboxState(id, Killed, "kill");
      if !ok {
        return;
      }
      var gone := store.DeleteSandbox(id, false);
      Look();
      if gone.Rejected? || f.removeDir {
        return false;
      }
      var released := ReleaseSandboxNetwork(id, record.slot, f.netDelete);
      ok := true;
    }
  }
}

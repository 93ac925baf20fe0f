// What a failed create leaves of its overlaybd rootfs.
module CreateUndo {
  import opened Machine
  import opened Network
  import opened NetworkSpecs
  import opened SandboxStore
  import opened World
  import opened Lifecycle

  predicate SameRootfs(w: World, w': World) {
    w'.snapshots == w.snapshots && w'.mounts == w.mounts
  }

  ghost predicate Mounted(w: World, key: string) {
    exists m :: m in w.mounts && m.key == key
  }

  const WORKING := RemoveFaults(false, false)

  lemma ReleaseKeepsRootfs(cfg: Config, w: World, id: Id, slot: uint32, deleteFails: bool)
    requires cfg.Valid()
    ensures SameRootfs(w, ReleaseNetwork(cfg, w, id, slot, deleteFails).world)
  {
    hide SpecForSlot, SlotReleased;
  }

  lemma FailKeepsRootfs(cfg: Config, w: World, id: Id, slot: uint32, f: BringUpFaults)
    requires cfg.Valid()
    ensures SameRootfs(w, FailCreate(cfg, w, id, slot, f))
  {
    hide ReleaseNetwork, StateUpdated;
    ReleaseKeepsRootfs(cfg, MarkCreateFailed(w, id), id, slot, f.netDelete);
  }

  lemma LaunchKeepsRootfs(cfg: Config, w: World, req: CreateRequest, slot: uint32, f: CreateFaults)
    requires cfg.Valid()
    ensures SameRootfs(w, LaunchRun(cfg, w, req, slot, f).world)
  {
    hide FailCreate, CreateNetwork, SlotFromHostAccessIP, VethAddrsForSlot, StateUpdated;
    if f.snapshotDirs {
      FailKeepsRootfs(cfg, w, req.id, slot, f.up);
    } else {
      var n := PrepareNetwork(cfg, w, CreateNetwork(cfg, req, slot), f.up.netAdd, f.up.netConfigure);
      FailKeepsRootfs(cfg, n.world, req.id, slot, f.up);
    }
  }

  // Either the rootfs is there, under its target, or nothing of it is.
  lemma PrepareIsAllOrNothing(w: World, req: CreateRequest, f: CreateFaults)
    requires req.source.Some? && !f.prepare.rollback && f.injectUndo == WORKING
    requires !Mounted(w, SnapshotKey(req.id)) && SnapshotKey(req.id) !in w.snapshots
    ensures var key, p := SnapshotKey(req.id), PrepareFiles(w, req, f);
            if p.ok then key in p.world.snapshots && (forall m :: m in p.world.mounts && m.key == key <==> m == Mount(req.Target(), key))
            else key !in p.world.snapshots && !Mounted(p.world, key)
  {
    hide DigestUpdated, SnapshotKey, CreateRequest.Target;
  }

  lemma UndoUnmountsDefaultOnly(w: World, req: CreateRequest, key: string)
    requires key == SnapshotKey(req.id)
    requires forall m :: m in w.mounts && m.key == key <==> m == Mount(req.Target(), key)
    ensures var r := RemoveRootfs(w, key, DefaultTarget(req.id), WORKING);
            r.ok && key !in r.world.snapshots && (Mounted(r.world, key) <==> req.Target() != DefaultTarget(req.id))
  {
    var r := RemoveRootfs(w, key, DefaultTarget(req.id), WORKING);
    if req.Target() != DefaultTarget(req.id) {
      assert Mount(req.Target(), key) in r.world.mounts;
    }
  }

  // With working removal a failed create leaves no snapshot, and no mount either unless
  // the caller put the rootfs elsewhere and the failure came after it was in place.
  lemma FailedCreateLeavesNothingIff(cfg: Config, w: World, req: CreateRequest, f: CreateFaults)
    requires cfg.Valid() && req.source.Some?
    requires !f.prepare.rollback && f.injectUndo == WORKING && f.undo == WORKING
    requires !Mounted(w, SnapshotKey(req.id)) && SnapshotKey(req.id) !in w.snapshots
    requires !CreateRun(cfg, w, req, f).ok
    ensures var key, left := SnapshotKey(req.id), CreateRun(cfg, w, req, f).world;
            && key !in left.snapshots
            && (Mounted(left, key) <==> FilesReady(cfg, w, req, f) && req.Target() != DefaultTarget(req.id))
  {
    hide PrepareFiles, FailCreate, LaunchRun, RemoveRootfs, StateUpdated, Created, SlotAssigned, MaxSlots,
         SnapshotKey, DefaultTarget, CreateRequest.Target, CreateRequest.SourceAccepted, NewRecord;
    var c := Ask(w, Created(w.store, req.id, NewRecord(req)));
    var a := AssignNetwork(cfg, c.world, req.id);
    if !c.outcome.Rejected? && a.result.Ok? {
      PrepareIsAllOrNothing(a.world, req, f);
      var p := PrepareFiles(a.world, req, f);
      FailKeepsRootfs(cfg, p.world, req.id, a.result.value, f.up);
      if p.ok {
        LaunchKeepsRootfs(cfg, p.world, req, a.result.value, f);
        UndoUnmountsDefaultOnly(LaunchRun(cfg, p.world, req, a.result.value, f).world, req, SnapshotKey(req.id));
      }
    }
  }

  // A rootfs placed elsewhere outlives the create that failed after it.
  lemma MountCanStay()
    ensures var cfg := Config(false, Unparsable, Unparsable, "", "", "");
            var req := CreateRequest("a", true, Some(Source("overlaybd", "i", "")), "elsewhere", None);
            var up := BringUpFaults(false, false, false, false, false, false, false);
            var f := CreateFaults(false, false, PrepareFaults(false, false, false, false), "", false, WORKING, true, false, up, WORKING);
            var r := CreateRun(cfg, EMPTY_WORLD, req, f);
            cfg.Valid() && !r.ok && r.world.snapshots == {} && r.world.mounts == {Mount("elsewhere", SnapshotKey("a"))}
  {
  }
}

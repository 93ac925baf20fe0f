// No overlaybd snapshot is ever without its sandbox record, whichever calls fail.
module Orphans {
  import opened Machine
  import opened Network
  import opened NetworkSpecs
  import opened SandboxStore
  import opened World
  import opened Lifecycle

  ghost predicate Carried(rows: map<Id, Record>, key: string) {
    exists id :: id in rows && rows[id].overlayBD && rows[id].snapshotKey == key
  }

  ghost predicate NoOrphan(m: Moment) {
    forall key :: key in m.snapshots ==> Carried(m.rows, key)
  }

  ghost predicate KeysOwn(rows: map<Id, Record>) {
    forall id :: id in rows ==> rows[id].snapshotKey == if rows[id].overlayBD then SnapshotKey(id) else ""
  }

  // Now and at every moment so far each snapshot's key is carried by a record.
  ghost predicate OrphanFree(w: World) {
    && KeysOwn(w.store.rows)
    && NoOrphan(Moment(w.store.rows, w.snapshots))
    && (forall m :: m in w.seen ==> NoOrphan(m))
  }

  // The records of w are all still there, with their keys.
  ghost predicate SameKeys(w: World, w': World) {
    forall id :: id in w.store.rows ==>
      && id in w'.store.rows
      && w'.store.rows[id].overlayBD == w.store.rows[id].overlayBD
      && w'.store.rows[id].snapshotKey == w.store.rows[id].snapshotKey
  }

  // A step that keeps the records and adds no snapshot.
  ghost predicate Calm(w: World, w': World) {
    SameKeys(w, w') && w'.snapshots <= w.snapshots && (OrphanFree(w) ==> OrphanFree(w'))
  }

  lemma CalmTransitive(a: World, b: World, c: World)
    requires Calm(a, b) && Calm(b, c)
    ensures Calm(a, c)
  {
    hide OrphanFree;
  }

  lemma AskIsCalm(w: World, reply: Reply)
    requires reply.tables.rows.Keys == w.store.rows.Keys
    requires forall id :: id in w.store.rows ==>
               && reply.tables.rows[id].overlayBD == w.store.rows[id].overlayBD
               && reply.tables.rows[id].snapshotKey == w.store.rows[id].snapshotKey
    ensures Calm(w, Ask(w, reply).world)
  {
    if OrphanFree(w) {
      forall key | key in w.snapshots
        ensures Carried(reply.tables.rows, key)
      {
        assert Carried(w.store.rows, key);
      }
    }
  }

  lemma SetStateIsCalm(w: World, id: Id, to: State, action: string)
    ensures Calm(w, SetState(w, id, to, action).world)
  {
    if id in w.store.rows {
      AskIsCalm(w, StateUpdated(w.store, id, w.store.rows[id].state, to, action));
    }
  }

  lemma MarkIsCalm(w: World, id: Id)
    ensures Calm(w, MarkCreateFailed(w, id))
  {
    AskIsCalm(w, StateUpdated(w.store, id, Creating, Failed, "create"));
  }

  lemma AssignIsCalm(cfg: Config, w: World, id: Id)
    requires cfg.Valid()
    ensures Calm(w, AssignNetwork(cfg, w, id).world)
  {
    hide MaxSlots;
    var most := MaxSlots(cfg.hostAccess, cfg.veth);
    if most.Ok? {
      AskIsCalm(w, SlotAssigned(w.store, id, most.value));
    }
  }

  lemma ReleaseIsCalm(cfg: Config, w: World, id: Id, slot: uint32, deleteFails: bool)
    requires cfg.Valid()
    ensures Calm(w, ReleaseNetwork(cfg, w, id, slot, deleteFails).world)
  {
    hide SpecForSlot;
    var cleaned := if slot > 0 then CleanupNetwork(cfg, w, id, slot, deleteFails) else Tried(w, true);
    AskIsCalm(cleaned.world, SlotReleased(cleaned.world.store, id));
  }

  lemma PrepareIsCalm(cfg: Config, w: World, spec: Option<Fields>, addFails: bool, configureFails: bool)
    requires cfg.Valid()
    ensures Calm(w, PrepareNetwork(cfg, w, spec, addFails, configureFails).world)
  {
    hide SlotFromHostAccessIP, VethAddrsForSlot;
  }

  lemma RemoveIsCalm(w: World, key: string, target: string, f: RemoveFaults)
    ensures Calm(w, RemoveRootfs(w, key, target, f).world)
    ensures RemoveRootfs(w, key, target, f).ok ==> key !in RemoveRootfs(w, key, target, f).world.snapshots
  {
  }

  lemma FailCreateIsCalm(cfg: Config, w: World, id: Id, slot: uint32, f: BringUpFaults)
    requires cfg.Valid()
    ensures Calm(w, FailCreate(cfg, w, id, slot, f))
  {
    hide Calm, ReleaseNetwork, MarkCreateFailed;
    MarkIsCalm(w, id);
    ReleaseIsCalm(cfg, MarkCreateFailed(w, id), id, slot, f.netDelete);
    CalmTransitive(w, MarkCreateFailed(w, id), FailCreate(cfg, w, id, slot, f));
  }

  lemma LaunchIsCalm(cfg: Config, w: World, req: CreateRequest, slot: uint32, f: CreateFaults)
    requires cfg.Valid()
    ensures Calm(w, LaunchRun(cfg, w, req, slot, f).world)
  {
    hide Calm, PrepareNetwork, FailCreate, CreateNetwork;
    if f.snapshotDirs {
      FailCreateIsCalm(cfg, w, req.id, slot, f.up);
    } else {
      var n := PrepareNetwork(cfg, w, CreateNetwork(cfg, req, slot), f.up.netAdd, f.up.netConfigure);
      PrepareIsCalm(cfg, w, CreateNetwork(cfg, req, slot), f.up.netAdd, f.up.netConfigure);
      FailCreateIsCalm(cfg, n.world, req.id, slot, f.up);
      AskIsCalm(n.world, StateUpdated(n.world.store, req.id, Creating, Running, "create"));
      CalmTransitive(w, n.world, LaunchRun(cfg, w, req, slot, f).world);
    }
  }

  // Preparing the rootfs adds one snapshot, for a record that carries its key.
  lemma PrepareFilesKeeps(w: World, req: CreateRequest, f: CreateFaults)
    requires OrphanFree(w) && req.id in w.store.rows && w.store.rows[req.id].overlayBD == req.source.Some?
    ensures OrphanFree(PrepareFiles(w, req, f).world) && SameKeys(w, PrepareFiles(w, req, f).world)
  {
    hide RemoveRootfs, DigestUpdated;
    if !f.files && req.source.Some? {
      var p := PrepareRootfs(w, req.id, req.source.value.image, req.Target(), f.prepare);
      PrepareRootfsKeeps(w, req.id, req.source.value.image, req.Target(), f.prepare);
      if p.ok {
        DigestThenRemove(p.world, req, f);
      }
    }
    hide PrepareRootfs, Calm;
  }

  lemma DigestThenRemove(w: World, req: CreateRequest, f: CreateFaults)
    ensures var reply := DigestUpdated(w.store, req.id, f.digest);
            var d := if f.digest == "" then Answered(w, Done) else Ask(w, reply);
            && Calm(w, d.world)
            && Calm(w, RemoveRootfs(d.world, SnapshotKey(req.id), req.Target(), f.injectUndo).world)
  {
    var reply := DigestUpdated(w.store, req.id, f.digest);
    AskIsCalm(w, reply);
    var d := if f.digest == "" then Answered(w, Done) else Ask(w, reply);
    hide RemoveRootfs;
    RemoveIsCalm(d.world, SnapshotKey(req.id), req.Target(), f.injectUndo);
    CalmTransitive(w, d.world, RemoveRootfs(d.world, SnapshotKey(req.id), req.Target(), f.injectUndo).world);
  }

  lemma PrepareRootfsKeeps(w: World, id: Id, source: string, target: string, f: PrepareFaults)
    requires OrphanFree(w) && id in w.store.rows && w.store.rows[id].overlayBD
    ensures OrphanFree(PrepareRootfs(w, id, source, target, f).world)
    ensures SameKeys(w, PrepareRootfs(w, id, source, target, f).world)
  {
    var key := SnapshotKey(id);
    assert Carried(w.store.rows, key);
  }

  lemma CreateIsOrphanFree(cfg: Config, w: World, req: CreateRequest, f: CreateFaults)
    requires cfg.Valid() && OrphanFree(w)
    ensures OrphanFree(CreateRun(cfg, w, req, f).world)
  {
    hide AssignNetwork, PrepareFiles, LaunchRun, RemoveRootfs, FailCreate, MarkCreateFailed;
    var c := Ask(w, Created(w.store, req.id, NewRecord(req)));
    if req.id != "" && !c.outcome.Rejected? {
      InsertKeeps(w, req);
      var a := AssignNetwork(cfg, c.world, req.id);
      AssignIsCalm(cfg, c.world, req.id);
      MarkIsCalm(a.world, req.id);
      if a.result.Ok? {
        var p := PrepareFiles(a.world, req, f);
        PrepareFilesKeeps(a.world, req, f);
        FailCreateIsCalm(cfg, p.world, req.id, a.result.value, f.up);
        LaunchIsCalm(cfg, p.world, req, a.result.value, f);
        var l := LaunchRun(cfg, p.world, req, a.result.value, f);
        RemoveIsCalm(l.world, SnapshotKey(req.id), DefaultTarget(req.id), f.undo);
      }
    } else {
      RejectedKeeps(w, Created(w.store, req.id, NewRecord(req)));
    }
    hide OrphanFree;
  }

  lemma RejectedKeeps(w: World, reply: Reply)
    requires OrphanFree(w)
    ensures reply.tables == w.store ==> OrphanFree(Ask(w, reply).world)
  {
    if reply.tables == w.store {
      AskIsCalm(w, reply);
    }
  }

  lemma InsertKeeps(w: World, req: CreateRequest)
    requires OrphanFree(w) && !Created(w.store, req.id, NewRecord(req)).outcome.Rejected?
    ensures var w' := Ask(w, Created(w.store, req.id, NewRecord(req))).world;
            OrphanFree(w') && req.id in w'.store.rows && w'.store.rows[req.id].overlayBD == req.source.Some?
  {
    var rows := Created(w.store, req.id, NewRecord(req)).tables.rows;
    forall key | key in w.snapshots
      ensures Carried(rows, key)
    {
      var id :| id in w.store.rows && w.store.rows[id].overlayBD && w.store.rows[id].snapshotKey == key;
      assert id in rows && rows[id].overlayBD && rows[id].snapshotKey == key;
    }
  }

  // ---------- the other handlers ----------

  lemma FailIsCalm(cfg: Config, w: World, id: Id, slot: uint32, action: string, f: BringUpFaults)
    requires cfg.Valid()
    ensures Calm(w, FailAndRelease(cfg, w, id, slot, action, f))
  {
    hide Calm, ReleaseNetwork, SetState;
    var s := SetState(w, id, Failed, action);
    SetStateIsCalm(w, id, Failed, action);
    ReleaseIsCalm(cfg, s.world, id, slot, f.netDelete);
    CalmTransitive(w, s.world, FailAndRelease(cfg, w, id, slot, action, f));
  }

  lemma BringUpIsCalm(cfg: Config, w: World, id: Id, slot: uint32, action: string, f: BringUpFaults)
    requires cfg.Valid()
    ensures Calm(w, BringUpRun(cfg, w, id, slot, action, f).world)
  {
    hide Calm, PrepareNetwork, SandboxNetwork, FailAndRelease, SetState;
    FailIsCalm(cfg, w, id, slot, action, f);
    var n := PrepareNetwork(cfg, w, SandboxNetwork(cfg, id, slot), f.netAdd, f.netConfigure);
    PrepareIsCalm(cfg, w, SandboxNetwork(cfg, id, slot), f.netAdd, f.netConfigure);
    FailIsCalm(cfg, n.world, id, slot, action, f);
    SetStateIsCalm(n.world, id, Running, action);
    CalmTransitive(w, n.world, FailAndRelease(cfg, n.world, id, slot, action, f));
    CalmTransitive(w, n.world, SetState(n.world, id, Running, action).world);
  }

  lemma MountIsCalm(w: World, key: string, target: string, fails: bool)
    ensures Calm(w, MountRootfs(w, key, target, fails).world)
  {
  }

  lemma UnmountIsCalm(w: World, target: string, fails: bool)
    ensures Calm(w, Unmount(w, target, fails).world)
  {
  }

  lemma ResumeIsOrphanFree(cfg: Config, w: World, id: Id, f: BringUpFaults)
    requires cfg.Valid() && OrphanFree(w)
    ensures OrphanFree(ResumeRun(cfg, w, id, f).world)
  {
    hide OrphanFree, SetState, AssignNetwork, BringUpRun;
    SetStateIsCalm(w, id, Resuming, "resume");
    var s := SetState(w, id, Resuming, "resume");
    AssignIsCalm(cfg, s.world, id);
    var a := AssignNetwork(cfg, s.world, id);
    SetStateIsCalm(a.world, id, Failed, "resume");
    if a.result.Ok? {
      BringUpIsCalm(cfg, a.world, id, a.result.value, "resume", f);
    }
  }

  lemma StartIsOrphanFree(cfg: Config, w: World, id: Id, f: StartFaults)
    requires cfg.Valid() && OrphanFree(w)
    ensures OrphanFree(StartRun(cfg, w, id, f).world)
  {
    hide OrphanFree, SetState, AssignNetwork, BringUpRun, FailAndRelease, MountRootfs, Unmount;
    SetStateIsCalm(w, id, Starting, "start");
    var s := SetState(w, id, Starting, "start");
    AssignIsCalm(cfg, s.world, id);
    var a := AssignNetwork(cfg, s.world, id);
    SetStateIsCalm(a.world, id, Failed, "start");
    if id in w.store.rows && a.result.Ok? {
      var slot := a.result.value;
      BringUpIsCalm(cfg, a.world, id, slot, "start", f.up);
      var m := MountRootfs(a.world, w.store.rows[id].snapshotKey, DefaultTarget(id), f.mount);
      MountIsCalm(a.world, w.store.rows[id].snapshotKey, DefaultTarget(id), f.mount);
      FailIsCalm(cfg, m.world, id, slot, "start", f.up);
      BringUpIsCalm(cfg, m.world, id, slot, "start", f.up);
      UnmountIsCalm(BringUpRun(cfg, m.world, id, slot, "start", f.up).world, DefaultTarget(id), f.undoUnmount);
    }
  }

  lemma FinishIsCalm(cfg: Config, w: World, id: Id, slot: uint32, action: Action, f: ActionFaults)
    requires cfg.Valid()
    ensures Calm(w, FinishRun(cfg, w, id, slot, action, f).world)
  {
    hide Calm, SetState, ReleaseNetwork, Action.Final, Action.Name, Action.EndsNetwork;
    SetStateIsCalm(w, id, Failed, action.Name());
    var done := SetState(w, id, action.Final(), action.Name());
    SetStateIsCalm(w, id, action.Final(), action.Name());
    ReleaseIsCalm(cfg, done.world, id, slot, f.netDelete);
    CalmTransitive(w, done.world, ReleaseNetwork(cfg, done.world, id, slot, f.netDelete).world);
  }

  lemma ActionIsOrphanFree(cfg: Config, w: World, id: Id, action: Action, f: ActionFaults)
    requires cfg.Valid() && OrphanFree(w)
    ensures OrphanFree(ActionRun(cfg, w, id, action, f).world)
  {
    hide OrphanFree, SetState, FinishRun, Action.Transition, Action.Name;
    if id in w.store.rows {
      var s := SetState(w, id, action.Transition(), action.Name());
      SetStateIsCalm(w, id, action.Transition(), action.Name());
      FinishIsCalm(cfg, s.world, id, w.store.rows[id].slot, action, f);
    }
  }

  lemma StopIsOrphanFree(cfg: Config, w: World, id: Id, f: ActionFaults)
    requires cfg.Valid() && OrphanFree(w)
    ensures OrphanFree(StopRun(cfg, w, id, f).world)
  {
    hide OrphanFree, ActionRun, Unmount;
    ActionIsOrphanFree(cfg, w, id, Stop, f);
    UnmountIsCalm(ActionRun(cfg, w, id, Stop, f).world, DefaultTarget(id), f.unmount);
  }

  // The record goes only after the snapshot that carries its key.
  lemma DeleteKeeps(w: World, id: Id)
    requires OrphanFree(w) && id in w.store.rows
    requires w.store.rows[id].overlayBD ==> w.store.rows[id].snapshotKey !in w.snapshots
    ensures OrphanFree(Ask(w, Deleted(w.store, id)).world)
  {
    forall key | key in w.snapshots
      ensures Carried(w.store.rows - {id}, key)
    {
      var other :| other in w.store.rows && w.store.rows[other].overlayBD && w.store.rows[other].snapshotKey == key;
      var rest := w.store.rows - {id};
      assert other in rest && rest[other].overlayBD && rest[other].snapshotKey == key;
    }
  }

  lemma DropIsCalm(w: World, id: Id, record: Record, f: RemoveFaults)
    ensures var d := DropRootfs(w, id, record, f);
            Calm(w, d.world) && (d.ok && record.overlayBD && record.snapshotKey != "" ==> record.snapshotKey !in d.world.snapshots)
  {
    hide RemoveRootfs;
    RemoveIsCalm(w, record.snapshotKey, DefaultTarget(id), f);
  }

  lemma KillIsOrphanFree(cfg: Config, w: World, id: Id, f: KillFaults)
    requires cfg.Valid() && OrphanFree(w)
    ensures OrphanFree(KillRun(cfg, w, id, f).world)
  {
    if id in w.store.rows {
      var record := w.store.rows[id];
      assert record.overlayBD ==> record.snapshotKey != "";
      hide OrphanFree, SetState, DropRootfs, ReleaseNetwork, Deleted;
      var s := SetState(w, id, Killing, "kill");
      SetStateIsCalm(w, id, Killing, "kill");
      var d := DropRootfs(s.world, id, record, f.remove);
      DropIsCalm(s.world, id, record, f.remove);
      var k := SetState(d.world, id, Killed, "kill");
      SetStateIsCalm(d.world, id, Killed, "kill");
      if d.ok {
        DeleteKeeps(k.world, id);
      }
      var gone := Ask(k.world, Deleted(k.world.store, id));
      ReleaseIsCalm(cfg, gone.world, id, record.slot, f.netDelete);
    }
  }

  lemma HandleKeepsOrphanFree(cfg: Config, w: World, r: Request)
    requires cfg.Valid() && OrphanFree(w)
    ensures OrphanFree(Handle(cfg, w, r).world)
  {
    hide OrphanFree, CreateRun, StartRun, ResumeRun, ActionRun, StopRun, KillRun;
    match r
    case DoCreate(req, f) => CreateIsOrphanFree(cfg, w, req, f);
    case DoStart(id, f) => StartIsOrphanFree(cfg, w, id, f);
    case DoResume(id, f) => ResumeIsOrphanFree(cfg, w, id, f);
    case DoAction(id, action, f) =>
      ActionIsOrphanFree(cfg, w, id, action, f);
      StopIsOrphanFree(cfg, w, id, f);
    case DoKill(id, f) => KillIsOrphanFree(cfg, w, id, f);
  }

  // At every moment of every run each overlaybd snapshot's key is carried by a record.
  lemma {:induction false} NoRunOrphansASnapshot(cfg: Config, w: World, requests: seq<Request>)
    requires cfg.Valid() && OrphanFree(w)
    ensures OrphanFree(HandleAll(cfg, w, requests))
    ensures forall m :: m in HandleAll(cfg, w, requests).seen ==> NoOrphan(m)
  {
    if requests != [] {
      var before := requests[..|requests| - 1];
      NoRunOrphansASnapshot(cfg, w, before);
      hide Handle;
      HandleKeepsOrphanFree(cfg, HandleAll(cfg, w, before), requests[|requests| - 1]);
    }
  }
}

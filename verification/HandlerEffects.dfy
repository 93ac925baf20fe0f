// What each handler leaves behind: which mounts and snapshots there are afterwards, and
// which entries the log has gained.
module HandlerEffects {
  import opened Machine
  import opened Network
  import opened NetworkSpecs
  import opened SandboxStore
  import opened World
  import opened Lifecycle
  import opened NetworkInvariant
  import opened LifecycleRuns

  // What a change of state adds to the log.
  function Moved(id: Id, from: State, to: State, action: string): seq<Transition> {
    if from == to then [] else [Transition("sandbox", id, from, to, action)]
  }

  predicate IsMounted(mounts: set<Mount>, target: string) {
    exists m :: m in mounts && m.target == target
  }

  // Nothing but the mounts at this target is different.
  ghost predicate SameElsewhere(w: World, w': World, target: string) {
    forall m: Mount :: m.target != target ==> (m in w'.mounts <==> m in w.mounts)
  }

  predicate SameIdentity(a: Record, b: Record) {
    a.overlayBD == b.overlayBD && a.snapshotKey == b.snapshotKey && a.digest == b.digest
  }

  // At most slots and networks are different.
  ghost predicate OnlyNetworks(w: World, w': World, id: Id) {
    && w'.mounts == w.mounts && w'.snapshots == w.snapshots && w'.store.log == w.store.log
    && (id in w.store.rows ==> id in w'.store.rows && w'.store.rows[id].state == w.store.rows[id].state
                               && SameIdentity(w'.store.rows[id], w.store.rows[id]))
  }

  // The sandbox has gone to this state, and but for slots and networks that is all.
  ghost predicate Goes(w: World, w': World, id: Id, to: State, action: string) {
    && w'.mounts == w.mounts && w'.snapshots == w.snapshots
    && id in w.store.rows && id in w'.store.rows && w'.store.rows[id].state == to
    && SameIdentity(w'.store.rows[id], w.store.rows[id])
    && w'.store.log == w.store.log + Moved(id, w.store.rows[id].state, to, action)
  }

  lemma NothingLogged(log: seq<Transition>)
    ensures log + [] == log
  {
  }

  lemma SetStateGoes(w: World, id: Id, to: State, action: string)
    requires id in w.store.rows
    ensures Goes(w, SetState(w, id, to, action).world, id, to, action)
  {
    NothingLogged(w.store.log);
  }

  lemma AssignIsNetwork(cfg: Config, w: World, id: Id)
    requires cfg.Valid()
    ensures OnlyNetworks(w, AssignNetwork(cfg, w, id).world, id)
  {
    hide MaxSlots, Slots.FirstFree, UsedSlots;
  }

  lemma ReleaseIsNetwork(cfg: Config, w: World, id: Id, slot: uint32, deleteFails: bool)
    requires cfg.Valid()
    ensures OnlyNetworks(w, ReleaseNetwork(cfg, w, id, slot, deleteFails).world, id)
  {
    hide SpecForSlot;
  }

  lemma PrepareIsNetwork(cfg: Config, w: World, id: Id, spec: Option<Fields>, addFails: bool, configureFails: bool)
    requires cfg.Valid()
    ensures OnlyNetworks(w, PrepareNetwork(cfg, w, spec, addFails, configureFails).world, id)
  {
    hide SlotFromHostAccessIP, VethAddrsForSlot;
  }

  lemma GoesThenNetwork(a: World, b: World, c: World, id: Id, to: State, action: string)
    requires Goes(a, b, id, to, action) && OnlyNetworks(b, c, id)
    ensures Goes(a, c, id, to, action)
  {
  }

  lemma NetworkThenGoes(a: World, b: World, c: World, id: Id, to: State, action: string)
    requires id in a.store.rows && OnlyNetworks(a, b, id) && Goes(b, c, id, to, action)
    ensures Goes(a, c, id, to, action)
  {
  }

  // ---------- start and resume ----------

  lemma FailGoes(cfg: Config, w: World, id: Id, slot: uint32, action: string, f: BringUpFaults)
    requires cfg.Valid() && id in w.store.rows
    ensures Goes(w, FailAndRelease(cfg, w, id, slot, action, f), id, Failed, action)
  {
    hide SetState, ReleaseNetwork, Goes, OnlyNetworks;
    var s := SetState(w, id, Failed, action);
    SetStateGoes(w, id, Failed, action);
    ReleaseIsNetwork(cfg, s.world, id, slot, f.netDelete);
    GoesThenNetwork(w, s.world, FailAndRelease(cfg, w, id, slot, action, f), id, Failed, action);
  }

  lemma BringUpGoes(cfg: Config, w: World, id: Id, slot: uint32, action: string, f: BringUpFaults)
    requires cfg.Valid() && id in w.store.rows
    ensures var r := BringUpRun(cfg, w, id, slot, action, f);
            Goes(w, r.world, id, if r.ok then Running else Failed, action)
  {
    hide FailAndRelease, PrepareNetwork, SandboxNetwork, SetState, Goes;
    FailGoes(cfg, w, id, slot, action, f);
    var n := PrepareNetwork(cfg, w, SandboxNetwork(cfg, id, slot), f.netAdd, f.netConfigure);
    PrepareIsNetwork(cfg, w, id, SandboxNetwork(cfg, id, slot), f.netAdd, f.netConfigure);
    FailGoes(cfg, n.world, id, slot, action, f);
    NetworkThenGoes(w, n.world, FailAndRelease(cfg, n.world, id, slot, action, f), id, Failed, action);
    SetStateEffect(n.world, id, Running, action);
    SetStateGoes(n.world, id, Running, action);
    NetworkThenGoes(w, n.world, SetState(n.world, id, Running, action).world, id, Running, action);
    hide OnlyNetworks, With;
  }

  // What coming up adds to the log: into the state on the way, and from there to running,
  // or to failed.
  function UpLog(id: Id, from: State, over: State, ok: bool, action: string): seq<Transition> {
    Moved(id, from, over, action) + [Transition("sandbox", id, over, if ok then Running else Failed, action)]
  }

  // Once through the state on the way.
  lemma GoesOn(a: World, b: World, c: World, id: Id, over: State, ok: bool, action: string)
    requires over in {Starting, Resuming}
    requires Goes(a, b, id, over, action) && Goes(b, c, id, if ok then Running else Failed, action)
    ensures c.mounts == a.mounts && c.snapshots == a.snapshots
    ensures c.store.log == a.store.log + UpLog(id, a.store.rows[id].state, over, ok, action)
    ensures id in c.store.rows && SameIdentity(c.store.rows[id], a.store.rows[id])
  {
  }

  // From the slot on: the sandbox has gone to the state on the way, and has a slot or not.
  lemma UntilSlot(cfg: Config, w: World, id: Id, over: State, action: string)
    requires cfg.Valid() && id in w.store.rows
    ensures var s := SetState(w, id, over, action);
            s.ok && Goes(w, AssignNetwork(cfg, s.world, id).world, id, over, action)
  {
    hide SetState, AssignNetwork, Goes, OnlyNetworks, With;
    var s := SetState(w, id, over, action);
    SetStateEffect(w, id, over, action);
    SetStateGoes(w, id, over, action);
    AssignIsNetwork(cfg, s.world, id);
    GoesThenNetwork(w, s.world, AssignNetwork(cfg, s.world, id).world, id, over, action);
  }

  // A resume logs its way and touches neither mounts nor snapshots.
  lemma ResumeLeaves(cfg: Config, w: World, id: Id, f: BringUpFaults)
    requires cfg.Valid() && id in w.store.rows
    ensures var r := ResumeRun(cfg, w, id, f);
            && r.world.mounts == w.mounts && r.world.snapshots == w.snapshots
            && r.world.store.log == w.store.log + UpLog(id, w.store.rows[id].state, Resuming, r.ok, "resume")
            && id in r.world.store.rows && SameIdentity(r.world.store.rows[id], w.store.rows[id])
  {
    hide SetState, AssignNetwork, BringUpRun, UpLog;
    UntilSlot(cfg, w, id, Resuming, "resume");
    var a := AssignNetwork(cfg, SetState(w, id, Resuming, "resume").world, id);
    assert id in a.world.store.rows;
    SetStateGoes(a.world, id, Failed, "resume");
    if a.result.Ok? {
      BringUpGoes(cfg, a.world, id, a.result.value, "resume", f);
    }
    hide Goes;
    GoesOn(w, a.world, ResumeRun(cfg, w, id, f).world, id, Resuming, ResumeRun(cfg, w, id, f).ok, "resume");
  }

  // Whether a start gets as far as to mount the rootfs.
  predicate StartMounts(cfg: Config, w: World, id: Id, f: StartFaults)
    requires cfg.Valid() && id in w.store.rows
  {
    w.store.rows[id].overlayBD && RootfsMounts(w, id, f) && GivenSlot(cfg, w.store.rows, id).Ok?
  }

  function Off(mounts: set<Mount>, target: string): (r: set<Mount>)
    ensures !IsMounted(r, target)
    ensures forall m :: m in r <==> m in mounts && m.target != target
  {
    set m | m in mounts && m.target != target
  }

  // The mounts and the log after a start, in every case.
  ghost predicate StartLeft(w: World, id: Id, mounted: bool, undone: bool, r: Tried)
    requires id in w.store.rows
  {
    var target := DefaultTarget(id);
    && r.world.snapshots == w.snapshots
    && r.world.mounts == (if !mounted then w.mounts
                          else if !r.ok && undone then Off(w.mounts, target)
                          else w.mounts + {Mount(target, w.store.rows[id].snapshotKey)})
    && r.world.store.log == w.store.log + UpLog(id, w.store.rows[id].state, Starting, r.ok, "start")
    && id in r.world.store.rows && SameIdentity(r.world.store.rows[id], w.store.rows[id])
  }

  lemma UnmountIsOff(w: World, target: string, fails: bool)
    ensures Unmount(w, target, fails).world == if fails then w else w.(mounts := Off(w.mounts, target))
  {
    assert !fails ==> Unmount(w, target, fails).world.mounts == Off(w.mounts, target);
  }

  lemma OnAndOff(mounts: set<Mount>, m: Mount)
    ensures Off(mounts + {m}, m.target) == Off(mounts, m.target)
  {
  }

  lemma GoesWithMount(w: World, b: World, id: Id, over: State, action: string, m: Mount)
    requires Goes(w, b, id, over, action)
    ensures Goes(w.(mounts := w.mounts + {m}), b.(mounts := b.mounts + {m}), id, over, action)
  {
  }

  // The rest of a start whose rootfs is not mounted.
  lemma StartUnmounted(cfg: Config, w: World, at: World, id: Id, r: Tried)
    requires Goes(w, at, id, Starting, "start") && Goes(at, r.world, id, if r.ok then Running else Failed, "start")
    ensures StartLeft(w, id, false, false, r) && StartLeft(w, id, false, true, r)
  {
    GoesOn(w, at, r.world, id, Starting, r.ok, "start");
    hide Goes, UpLog, SameIdentity, DefaultTarget;
  }

  // And of one whose rootfs is.
  lemma StartMounted(cfg: Config, w: World, at: World, id: Id, slot: uint32, f: StartFaults)
    requires cfg.Valid() && Goes(w, at, id, Starting, "start")
    ensures var m := Mount(DefaultTarget(id), w.store.rows[id].snapshotKey);
            var b := BringUpRun(cfg, at.(mounts := at.mounts + {m}), id, slot, "start", f.up);
            StartLeft(w, id, true, !f.undoUnmount,
                      if b.ok then b else Tried(Unmount(b.world, DefaultTarget(id), f.undoUnmount).world, false))
  {
    hide BringUpRun, Unmount, DefaultTarget, UpLog, SameIdentity;
    var m := Mount(DefaultTarget(id), w.store.rows[id].snapshotKey);
    var w', at' := w.(mounts := w.mounts + {m}), at.(mounts := at.mounts + {m});
    GoesWithMount(w, at, id, Starting, "start", m);
    assert id in at'.store.rows;
    BringUpGoes(cfg, at', id, slot, "start", f.up);
    var b := BringUpRun(cfg, at', id, slot, "start", f.up);
    hide Goes;
    GoesOn(w', at', b.world, id, Starting, b.ok, "start");
    UnmountIsOff(b.world, DefaultTarget(id), f.undoUnmount);
    OnAndOff(w.mounts, m);
  }

  lemma StartLeaves(cfg: Config, w: World, id: Id, f: StartFaults)
    requires cfg.Valid() && RowsOk(cfg, w.store.rows) && id in w.store.rows
    ensures StartLeft(w, id, StartMounts(cfg, w, id, f), !f.undoUnmount, StartRun(cfg, w, id, f))
    ensures StartRun(cfg, w, id, f).ok && w.store.rows[id].overlayBD ==> StartMounts(cfg, w, id, f)
  {
    hide SetState, AssignNetwork, BringUpRun, FailAndRelease, Unmount, DefaultTarget, GivenSlot, RowsOk, StartLeft;
    UntilSlot(cfg, w, id, Starting, "start");
    SlotForUp(cfg, w, id, Starting, "start");
    var a := AssignNetwork(cfg, SetState(w, id, Starting, "start").world, id);
    var record, r := w.store.rows[id], StartRun(cfg, w, id, f);
    assert id in a.world.store.rows && a.world.snapshots == w.snapshots;
    hide Goes, SameIdentity, With;
    if a.result.Err? {
      SetStateGoes(a.world, id, Failed, "start");
      StartUnmounted(cfg, w, a.world, id, r);
    } else if !record.overlayBD {
      BringUpGoes(cfg, a.world, id, a.result.value, "start", f.up);
      StartUnmounted(cfg, w, a.world, id, r);
    } else if !RootfsMounts(w, id, f) {
      FailGoes(cfg, a.world, id, a.result.value, "start", f.up);
      StartUnmounted(cfg, w, a.world, id, r);
    } else {
      StartMounted(cfg, w, a.world, id, a.result.value, f);
    }
  }

  // A successful start of an overlaybd sandbox ends with its snapshot mounted at the
  // sandbox's own target.  After a failed one something is there exactly when the rootfs
  // had been mounted and the unmount failed.  Nothing else is mounted or unmounted.
  lemma StartRootfs(cfg: Config, w: World, id: Id, f: StartFaults)
    requires cfg.Valid() && RowsOk(cfg, w.store.rows) && id in w.store.rows
    ensures var r, record, target := StartRun(cfg, w, id, f), w.store.rows[id], "sandboxes/" + id + "/rootfs";
            && r.world.snapshots == w.snapshots && SameElsewhere(w, r.world, target)
            && (!record.overlayBD ==> r.world.mounts == w.mounts)
            && (r.ok && record.overlayBD ==>
                  record.snapshotKey in r.world.snapshots && r.world.mounts == w.mounts + {Mount(target, record.snapshotKey)})
            && (!r.ok && !IsMounted(w.mounts, target) ==>
                  (IsMounted(r.world.mounts, target) <==> StartMounts(cfg, w, id, f) && f.undoUnmount))
            && r.world.store.log == w.store.log + UpLog(id, record.state, Starting, r.ok, "start")
  {
    StartLeaves(cfg, w, id, f);
    var r, record, target := StartRun(cfg, w, id, f), w.store.rows[id], DefaultTarget(id);
    hide StartRun, GivenSlot, RowsOk, UpLog;
    if !r.ok && StartMounts(cfg, w, id, f) && f.undoUnmount {
      assert Mount(target, record.snapshotKey) in r.world.mounts;
    }
  }

  // ---------- pause, stop and reboot ----------

  // The state on the way, the final state and the name of each action.
  function Course(action: Action): (State, State, string) {
    match action
    case Pause => (Pausing, Paused, "pause")
    case Stop => (Stopping, Stopped, "stop")
    case Reboot => (Rebooting, Running, "reboot")
  }

  lemma CourseIs(action: Action)
    ensures Course(action) == (action.Transition(), action.Final(), action.Name())
    ensures action.Transition() !in {action.Final(), Failed}
  {
  }

  lemma FinishGoes(cfg: Config, w: World, id: Id, slot: uint32, action: Action, f: ActionFaults)
    requires cfg.Valid() && id in w.store.rows
    ensures var r := FinishRun(cfg, w, id, slot, action, f);
            Goes(w, r.world, id, if ActionWorks(f) then action.Final() else Failed, action.Name())
  {
    hide SetState, ReleaseNetwork, Goes, OnlyNetworks, Action.Final, Action.Name, Action.EndsNetwork;
    SetStateGoes(w, id, Failed, action.Name());
    SetStateGoes(w, id, action.Final(), action.Name());
    var done := SetState(w, id, action.Final(), action.Name());
    ReleaseIsNetwork(cfg, done.world, id, slot, f.netDelete);
    GoesThenNetwork(w, done.world, ReleaseNetwork(cfg, done.world, id, slot, f.netDelete).world, id,
                    action.Final(), action.Name());
  }

  lemma GoesTwice(a: World, b: World, c: World, id: Id, over: State, to: State, action: string)
    requires over != to && Goes(a, b, id, over, action) && Goes(b, c, id, to, action)
    ensures c.mounts == a.mounts && c.snapshots == a.snapshots
    ensures c.store.log == a.store.log + (Moved(id, a.store.rows[id].state, over, action) + [Transition("sandbox", id, over, to, action)])
    ensures id in c.store.rows && c.store.rows[id].state == to && SameIdentity(c.store.rows[id], a.store.rows[id])
  {
  }

  // An action goes over its own state to its final one, or to failed, logs both steps, and
  // touches neither mounts nor snapshots.
  lemma ActionLeaves(cfg: Config, w: World, id: Id, action: Action, f: ActionFaults)
    requires cfg.Valid() && RowsOk(cfg, w.store.rows) && id in w.store.rows
    ensures var r, course, before := ActionRun(cfg, w, id, action, f), Course(action), w.store.rows[id];
            && (r.ok <==> ActionWorks(f))
            && r.world.mounts == w.mounts && r.world.snapshots == w.snapshots
            && r.world.store.log == w.store.log + (Moved(id, before.state, course.0, course.2)
                                                   + [Transition("sandbox", id, course.0, if r.ok then course.1 else Failed, course.2)])
            && id in r.world.store.rows && r.world.store.rows[id].state == (if r.ok then course.1 else Failed)
            && SameIdentity(r.world.store.rows[id], before)
  {
    CourseIs(action);
    ActionOutcome(cfg, w, id, action, f);
    hide SetState, FinishRun, Goes, Course, RowsOk, Action.Transition, Action.Final, Action.Name, ActionWorks, With,
         GivesUp, Released, Moved, SameIdentity;
    SetStateGoes(w, id, action.Transition(), action.Name());
    var s := SetState(w, id, action.Transition(), action.Name());
    SetStateEffect(w, id, action.Transition(), action.Name());
    InBoth(w, s.world, id, action.Transition(), action.Name());
    FinishGoes(cfg, s.world, id, w.store.rows[id].slot, action, f);
    GoesTwice(w, s.world, ActionRun(cfg, w, id, action, f).world, id, action.Transition(),
              if ActionWorks(f) then action.Final() else Failed, action.Name());
  }

  lemma InBoth(w: World, w': World, id: Id, to: State, action: string)
    requires Goes(w, w', id, to, action)
    ensures id in w.store.rows && id in w'.store.rows
  {
  }

  // A stop that succeeds leaves nothing mounted at the target of an overlaybd sandbox;
  // otherwise the mounts are as they were.
  lemma StopRootfs(cfg: Config, w: World, id: Id, f: ActionFaults)
    requires cfg.Valid() && RowsOk(cfg, w.store.rows) && id in w.store.rows
    ensures var r, record, target := StopRun(cfg, w, id, f), w.store.rows[id], "sandboxes/" + id + "/rootfs";
            && (r.ok <==> ActionWorks(f) && (record.overlayBD ==> !f.unmount))
            && r.world.snapshots == w.snapshots && SameElsewhere(w, r.world, target)
            && (r.ok && record.overlayBD ==> !IsMounted(r.world.mounts, target))
            && (!r.ok || !record.overlayBD ==> r.world.mounts == w.mounts)
            && id in r.world.store.rows && r.world.store.rows[id].state == if ActionWorks(f) then Stopped else Failed
  {
    ActionLeaves(cfg, w, id, Stop, f);
    var a, target := ActionRun(cfg, w, id, Stop, f), DefaultTarget(id);
    hide ActionRun, RowsOk, Moved, ActionWorks;
    UnmountIsOff(a.world, target, f.unmount);
  }

  // ---------- kill ----------

  lemma DropLeaves(w: World, id: Id, record: Record, f: RemoveFaults)
    ensures var d, has := DropRootfs(w, id, record, f).world, record.overlayBD && record.snapshotKey != "";
            && d.store == w.store
            && d.mounts == (if has && !f.unmount then Off(w.mounts, DefaultTarget(id)) else w.mounts)
            && d.snapshots == (if has && !f.unmount && !f.remove then w.snapshots - {record.snapshotKey} else w.snapshots)
  {
    hide DefaultTarget;
    UnmountIsOff(w, DefaultTarget(id), f.unmount);
  }

  // A kill unmounts the rootfs and then removes the snapshot, as far as it gets, and
  // touches no other sandbox's rootfs.
  lemma KillRootfs(cfg: Config, w: World, id: Id, f: KillFaults)
    requires cfg.Valid() && RowsOk(cfg, w.store.rows) && id in w.store.rows
    ensures var r, record, target := KillRun(cfg, w, id, f), w.store.rows[id], "sandboxes/" + id + "/rootfs";
            var has := record.overlayBD && record.snapshotKey != "";
            var dropped := has ==> !f.remove.unmount && !f.remove.remove;
            && (r.ok <==> dropped && !f.removeDir)
            && SameElsewhere(w, r.world, target)
            && (if has && !f.remove.unmount then !IsMounted(r.world.mounts, target) else r.world.mounts == w.mounts)
            && r.world.snapshots == (if has && dropped then w.snapshots - {record.snapshotKey} else w.snapshots)
            && (id in r.world.store.rows <==> !dropped)
  {
    KillEffect(cfg, w, id, f);
    KillSteps(cfg, w, id, f);
    hide KillRun, RowsOk, InRange, Released;
  }

  // It logs killing before and killed after.
  lemma KillLog(cfg: Config, w: World, id: Id, f: KillFaults)
    requires cfg.Valid() && id in w.store.rows
    ensures KillRun(cfg, w, id, f).world.store.log
            == w.store.log + (Moved(id, w.store.rows[id].state, Killing, "kill")
                              + if Dropped(w, id, f) then [Transition("sandbox", id, Killing, Killed, "kill")] else [])
  {
    KillSteps(cfg, w, id, f);
  }

  lemma KillSteps(cfg: Config, w: World, id: Id, f: KillFaults)
    requires cfg.Valid() && id in w.store.rows
    ensures var r, record := KillRun(cfg, w, id, f).world, w.store.rows[id];
            var d := DropRootfs(w, id, record, f.remove).world;
            && r.mounts == d.mounts && r.snapshots == d.snapshots
            && d.mounts == (if record.overlayBD && record.snapshotKey != "" && !f.remove.unmount
                            then Off(w.mounts, DefaultTarget(id)) else w.mounts)
            && d.snapshots == (if record.overlayBD && record.snapshotKey != "" && Dropped(w, id, f)
                               then w.snapshots - {record.snapshotKey} else w.snapshots)
            && r.store.log == w.store.log + (Moved(id, record.state, Killing, "kill")
                                             + if Dropped(w, id, f) then [Transition("sandbox", id, Killing, Killed, "kill")] else [])
  {
    var record := w.store.rows[id];
    hide SetState, DropRootfs, ReleaseNetwork, DefaultTarget, Goes;
    var s := SetState(w, id, Killing, "kill");
    SetStateEffect(w, id, Killing, "kill");
    SetStateGoes(w, id, Killing, "kill");
    InBoth(w, s.world, id, Killing, "kill");
    DropLeaves(w, id, record, f.remove);
    DropLeaves(s.world, id, record, f.remove);
    DropEffect(s.world, id, record, f.remove);
    var d := DropRootfs(s.world, id, record, f.remove);
    SetStateEffect(d.world, id, Killed, "kill");
    SetStateGoes(d.world, id, Killed, "kill");
    hide With, SameIdentity, Moved;
    KillGoes(w, s.world, d.world, id, SetState(d.world, id, Killed, "kill").world);
    var gone := Ask(SetState(d.world, id, Killed, "kill").world, Deleted(SetState(d.world, id, Killed, "kill").world.store, id));
    ReleaseIsNetwork(cfg, gone.world, id, record.slot, f.netDelete);
  }

  lemma KillGoes(w: World, s: World, d: World, id: Id, k: World)
    requires Goes(w, s, id, Killing, "kill") && d.store == s.store && Goes(d, k, id, Killed, "kill")
    ensures s.mounts == w.mounts && s.snapshots == w.snapshots && k.mounts == d.mounts && k.snapshots == d.snapshots
    ensures s.store.log == w.store.log + (Moved(id, w.store.rows[id].state, Killing, "kill") + [])
    ensures k.store.log == w.store.log + (Moved(id, w.store.rows[id].state, Killing, "kill")
                                          + [Transition("sandbox", id, Killing, Killed, "kill")])
  {
  }

  // ---------- create ----------

  lemma MarkGoes(w: World, id: Id, to: State)
    requires id in w.store.rows && w.store.rows[id].state == Creating && to != Creating
    ensures var a := Ask(w, StateUpdated(w.store, id, Creating, to, "create"));
            !a.outcome.Rejected? && Goes(w, a.world, id, to, "create")
  {
  }

  lemma FailCreateGoes(cfg: Config, w: World, id: Id, slot: uint32, f: BringUpFaults)
    requires cfg.Valid() && id in w.store.rows && w.store.rows[id].state == Creating
    ensures Goes(w, FailCreate(cfg, w, id, slot, f), id, Failed, "create")
  {
    hide StateUpdated, ReleaseNetwork, Goes, OnlyNetworks;
    MarkGoes(w, id, Failed);
    var m := MarkCreateFailed(w, id);
    ReleaseIsNetwork(cfg, m, id, slot, f.netDelete);
    GoesThenNetwork(w, m, FailCreate(cfg, w, id, slot, f), id, Failed, "create");
  }

  lemma LaunchGoes(cfg: Config, w: World, req: CreateRequest, slot: uint32, f: CreateFaults)
    requires cfg.Valid() && req.id in w.store.rows && w.store.rows[req.id].state == Creating
    ensures var r := LaunchRun(cfg, w, req, slot, f);
            Goes(w, r.world, req.id, if r.ok then Running else Failed, "create")
  {
    hide FailCreate, PrepareNetwork, CreateNetwork, StateUpdated, Goes;
    FailCreateGoes(cfg, w, req.id, slot, f.up);
    var n := PrepareNetwork(cfg, w, CreateNetwork(cfg, req, slot), f.up.netAdd, f.up.netConfigure);
    PrepareIsNetwork(cfg, w, req.id, CreateNetwork(cfg, req, slot), f.up.netAdd, f.up.netConfigure);
    FailCreateGoes(cfg, n.world, req.id, slot, f.up);
    NetworkThenGoes(w, n.world, FailCreate(cfg, n.world, req.id, slot, f.up), req.id, Failed, "create");
    MarkGoes(n.world, req.id, Running);
    NetworkThenGoes(w, n.world, Ask(n.world, StateUpdated(n.world.store, req.id, Creating, Running, "create")).world,
                    req.id, Running, "create");
    hide OnlyNetworks;
  }

  // Only the snapshot of this key and the mounts at these two targets may be different.
  ghost predicate OwnRootfsOnly(w: World, w': World, key: string, a: string, b: string) {
    && w'.snapshots - {key} == w.snapshots - {key}
    && (forall m: Mount :: m.target !in {a, b} ==> (m in w'.mounts <==> m in w.mounts))
  }

  // Preparing the runtime files puts snapshot, mount and digest there, and logs nothing.
  lemma FilesLeave(w: World, req: CreateRequest, f: CreateFaults)
    requires req.id in w.store.rows
    ensures var p, key := PrepareFiles(w, req, f), SnapshotKey(req.id);
            && p.world.store.log == w.store.log && req.id in p.world.store.rows
            && OwnRootfsOnly(w, p.world, key, req.Target(), req.Target())
            && var before, after := w.store.rows[req.id], p.world.store.rows[req.id];
               && after.state == before.state && after.overlayBD == before.overlayBD && after.snapshotKey == before.snapshotKey
               && (p.ok && req.source.None? ==> p.world.mounts == w.mounts && p.world.snapshots == w.snapshots
                                                && after.digest == before.digest)
               && (p.ok && req.source.Some? ==>
                     && p.world.mounts == w.mounts + {Mount(req.Target(), key)}
                     && key !in w.snapshots && p.world.snapshots == w.snapshots + {key}
                     && after.digest == if f.digest == "" then before.digest else f.digest)
  {
    hide SnapshotKey, CreateRequest.Target;
  }

  lemma UndoLeaves(w: World, t: Tried, req: CreateRequest, f: CreateFaults)
    requires OwnRootfsOnly(w, t.world, SnapshotKey(req.id), req.Target(), DefaultTarget(req.id))
    ensures var u := UndoRootfs(t, req, f);
            && OwnRootfsOnly(w, u.world, SnapshotKey(req.id), req.Target(), DefaultTarget(req.id))
            && u.world.store == t.world.store && u.ok == t.ok && (u.ok ==> u == t)
  {
    hide SnapshotKey, CreateRequest.Target, DefaultTarget;
  }

  // What a create that was not refused leaves, w being the world with its new record.
  ghost predicate CreateLeft(w: World, req: CreateRequest, digest: string, r: Tried)
    requires req.id in w.store.rows
  {
    var key := SnapshotKey(req.id);
    && OwnRootfsOnly(w, r.world, key, req.Target(), DefaultTarget(req.id))
    && r.world.store.log == w.store.log + [Transition("sandbox", req.id, Creating, if r.ok then Running else Failed, "create")]
    && req.id in r.world.store.rows
    && var before, after := w.store.rows[req.id], r.world.store.rows[req.id];
       && after.state == (if r.ok then Running else Failed)
       && after.overlayBD == before.overlayBD && after.snapshotKey == before.snapshotKey
       && (r.ok && req.source.None? ==> r.world.mounts == w.mounts && r.world.snapshots == w.snapshots
                                        && after.digest == before.digest)
       && (r.ok && req.source.Some? ==>
             && r.world.mounts == w.mounts + {Mount(req.Target(), key)}
             && r.world.snapshots == w.snapshots + {key}
             && after.digest == if digest == "" then before.digest else digest)
  }

  lemma CreateRest(cfg: Config, w: World, req: CreateRequest, slot: uint32, f: CreateFaults)
    requires cfg.Valid() && req.id in w.store.rows && w.store.rows[req.id].state == Creating
    ensures var p := PrepareFiles(w, req, f);
            CreateLeft(w, req, f.digest,
                       if p.ok then UndoRootfs(LaunchRun(cfg, p.world, req, slot, f), req, f)
                       else Tried(FailCreate(cfg, p.world, req.id, slot, f.up), false))
  {
    hide PrepareFiles, FailCreate, LaunchRun, UndoRootfs, SnapshotKey, CreateRequest.Target, DefaultTarget;
    FilesLeave(w, req, f);
    var p := PrepareFiles(w, req, f);
    if p.ok {
      LaunchGoes(cfg, p.world, req, slot, f);
      UndoLeaves(w, LaunchRun(cfg, p.world, req, slot, f), req, f);
    } else {
      FailCreateGoes(cfg, p.world, req.id, slot, f.up);
    }
  }

  lemma LeftThroughNetwork(w: World, a: World, req: CreateRequest, digest: string, r: Tried)
    requires req.id in w.store.rows && OnlyNetworks(w, a, req.id) && CreateLeft(a, req, digest, r)
    ensures CreateLeft(w, req, digest, r)
  {
    hide SnapshotKey, CreateRequest.Target, DefaultTarget;
  }

  lemma FailedLeft(w: World, req: CreateRequest, digest: string, r: Tried)
    requires !r.ok && Goes(w, r.world, req.id, Failed, "create") && w.store.rows[req.id].state == Creating
    ensures CreateLeft(w, req, digest, r)
  {
    hide SnapshotKey, CreateRequest.Target, DefaultTarget;
  }

  lemma CreateLeaves(cfg: Config, w: World, req: CreateRequest, f: CreateFaults)
    requires cfg.Valid() && RowsOk(cfg, w.store.rows) && !Refused(w, req, f)
    ensures var c := Ask(w, Created(w.store, req.id, NewRecord(req))).world;
            c == w.(store := w.store.(rows := w.store.rows[req.id := NewRecord(req)])).See()
            && CreateLeft(c, req, f.digest, CreateRun(cfg, w, req, f))
  {
    hide AssignNetwork, PrepareFiles, FailCreate, UndoRootfs, LaunchRun, StateUpdated, RowsOk, NewRecord, CreateLeft,
         CreateRequest.SourceAccepted;
    InsertOk(cfg, w, req);
    NewIsCreating(req);
    var c := Ask(w, Created(w.store, req.id, NewRecord(req)));
    AssignIsNetwork(cfg, c.world, req.id);
    var a := AssignNetwork(cfg, c.world, req.id);
    if a.result.Ok? {
      CreateRest(cfg, a.world, req, a.result.value, f);
    } else {
      MarkGoes(a.world, req.id, Failed);
      FailedLeft(a.world, req, f.digest, CreateRun(cfg, w, req, f));
    }
    hide Goes, OnlyNetworks;
    LeftThroughNetwork(c.world, a.world, req, f.digest, CreateRun(cfg, w, req, f));
  }

  // A create is refused, and leaves everything as it was, exactly for these reasons.
  lemma CreateRefusedIff(cfg: Config, w: World, req: CreateRequest, f: CreateFaults)
    requires cfg.Valid() && RowsOk(cfg, w.store.rows)
    ensures var r := CreateRun(cfg, w, req, f);
            var refused := req.id == "" || f.mkdir || req.id in w.store.rows
                           || (req.source.Some? && (!req.container || req.source.value.provider != "overlaybd"
                                                    || req.source.value.image == "" || req.source.value.pullMode !in {"", "lazy"}));
            if refused then !r.ok && r.world.(seen := w.seen) == w
            else req.id in r.world.store.rows && |r.world.store.log| == |w.store.log| + 1
  {
    if !Refused(w, req, f) {
      CreateLeaves(cfg, w, req, f);
    } else {
      RefusedLeaves(cfg, w, req, f);
    }
    hide CreateRun, RowsOk, Created, OwnRootfsOnly;
  }

  lemma RefusedLeaves(cfg: Config, w: World, req: CreateRequest, f: CreateFaults)
    requires cfg.Valid() && Refused(w, req, f)
    ensures var r := CreateRun(cfg, w, req, f);
            !r.ok && r.world.(seen := w.seen) == w
  {
    hide AssignNetwork, PrepareFiles, FailCreate, UndoRootfs, LaunchRun, MarkCreateFailed, UsedSlots, NewRecord,
         CreateRequest.SourceAccepted;
  }

  // Any other create leaves its record, running or failed, and one log entry.  When it
  // succeeds with a source, the snapshot is there and mounted where the request says, and
  // the record has its key and digest.  No other rootfs is touched.
  lemma CreateRootfs(cfg: Config, w: World, req: CreateRequest, f: CreateFaults)
    requires cfg.Valid() && RowsOk(cfg, w.store.rows) && !Refused(w, req, f)
    ensures var r, key, own := CreateRun(cfg, w, req, f), "novitabox-sandbox-" + req.id, "sandboxes/" + req.id + "/rootfs";
            var target := if req.rootfsPath == "" then own else req.rootfsPath;
            && OwnRootfsOnly(w, r.world, key, target, own)
            && r.world.store.log == w.store.log + [Transition("sandbox", req.id, Creating, if r.ok then Running else Failed, "create")]
            && req.id in r.world.store.rows
            && var record := r.world.store.rows[req.id];
               && record.state == (if r.ok then Running else Failed)
               && record.overlayBD == req.source.Some? && record.snapshotKey == (if req.source.Some? then key else "")
               && (r.ok && req.source.None? ==> r.world.mounts == w.mounts && r.world.snapshots == w.snapshots
                                                && record.digest == "")
               && (r.ok && req.source.Some? ==> r.world.mounts == w.mounts + {Mount(target, key)}
                                                && r.world.snapshots == w.snapshots + {key} && record.digest == f.digest)
  {
    CreateLeaves(cfg, w, req, f);
    hide CreateRun, RowsOk, Refused, Created;
  }

  // Whether the runtime files can be put in place.
  predicate FilesWork(w: World, req: CreateRequest, f: CreateFaults) {
    && !f.files
    && (req.source.Some? ==> !f.prepare.image && !f.prepare.snapshot && !f.prepare.mount && !f.inject
                             && "novitabox-sandbox-" + req.id !in w.snapshots)
  }

  lemma FilesWorkIff(w: World, req: CreateRequest, f: CreateFaults)
    requires req.id in w.store.rows && req.id != "" && (req.source.Some? ==> req.source.value.image != "")
    ensures PrepareFiles(w, req, f).ok <==> FilesWork(w, req, f)
  {
    assert req.Target() != "";
    assert SnapshotKey(req.id) == "novitabox-sandbox-" + req.id;
    hide SnapshotKey, CreateRequest.Target;
  }

  // Whether everything after the runtime files works, the sandbox having this slot.
  predicate LaunchSucceeds(cfg: Config, req: CreateRequest, slot: uint32, f: CreateFaults)
    requires cfg.Valid()
  {
    var spec := CreateNetwork(cfg, req, slot);
    && !f.snapshotDirs && !f.shim && !f.up.dial && !f.up.runtime && !f.up.agent
    && (spec.None? || spec.value.namespaceName == "" || (Prepared(cfg, spec, f.up.netAdd).Some? && !f.up.netConfigure))
  }

  lemma LaunchSucceedsIff(cfg: Config, w: World, req: CreateRequest, slot: uint32, f: CreateFaults)
    requires cfg.Valid() && req.id in w.store.rows && w.store.rows[req.id].state == Creating
    ensures LaunchRun(cfg, w, req, slot, f).ok <==> LaunchSucceeds(cfg, req, slot, f)
  {
    hide FailCreate, PrepareNetwork, CreateNetwork, Prepared;
    PrepareEffect(cfg, w, CreateNetwork(cfg, req, slot), f.up.netAdd, f.up.netConfigure);
  }

  // A create that is not refused succeeds exactly when a slot can be given, the runtime
  // files can be put in place and every later step works.
  lemma CreateSucceedsIff(cfg: Config, w: World, req: CreateRequest, f: CreateFaults)
    requires cfg.Valid() && RowsOk(cfg, w.store.rows) && !Refused(w, req, f)
    ensures var given := GivenSlot(cfg, w.store.rows[req.id := NewRecord(req)], req.id);
            CreateRun(cfg, w, req, f).ok <==>
            given.Ok? && FilesWork(w, req, f) && LaunchSucceeds(cfg, req, given.value, f)
  {
    hide AssignNetwork, PrepareFiles, FailCreate, LaunchRun, StateUpdated, RowsOk, Created, GivenSlot, LaunchSucceeds,
         InRange, SnapshotKey, RemoveRootfs;
    InsertOk(cfg, w, req);
    NewIsCreating(req);
    var c := Ask(w, Created(w.store, req.id, NewRecord(req)));
    AssignIsNetwork(cfg, c.world, req.id);
    AssignEffect(cfg, c.world, req.id);
    var a := AssignNetwork(cfg, c.world, req.id);
    if a.result.Ok? {
      FilesWorkIff(a.world, req, f);
      FilesEffect(a.world, req, f);
      LaunchSucceedsIff(cfg, PrepareFiles(a.world, req, f).world, req, a.result.value, f);
    }
    hide NewRecord;
  }
}

// The lifecycle over whole runs: states, slots and networks at operation boundaries.  What
// is said of the records holds whatever fails; what is said of the networks is exact.
module LifecycleRuns {
  import opened Machine
  import opened Network
  import opened NetworkSpecs
  import opened SandboxStore
  import opened Slots
  import opened StoreRuns
  import opened World
  import opened Lifecycle
  import opened NetworkInvariant

  // ---------- start and resume ----------

  // Whether the steps from the shim to the running state all work.
  predicate UpWorks(cfg: Config, f: BringUpFaults) {
    !f.dial && !f.attach && (cfg.enabled ==> !f.netAdd && !f.netConfigure) && !f.runtime && !f.agent
  }

  predicate UpPrepares(cfg: Config, f: BringUpFaults) {
    cfg.enabled && !f.dial && !f.attach && !f.netAdd
  }

  // The networks after bringing a sandbox up, or after giving up on it.
  function UpNets(cfg: Config, nets: Nets, id: Id, slot: uint32, prepares: bool, ok: bool, deleteFails: bool): Nets {
    var n := if prepares then nets[NamespaceName(id) := slot] else nets;
    if ok then n else Released(cfg, n, id, deleteFails)
  }

  lemma BringUpEffect(cfg: Config, w: World, id: Id, slot: uint32, action: string, f: BringUpFaults)
    requires cfg.Valid() && id in w.store.rows && slot == w.store.rows[id].slot && InRange(cfg, slot)
    requires cfg.enabled <==> slot > 0
    ensures var r := BringUpRun(cfg, w, id, slot, action, f);
            && (r.ok <==> UpWorks(cfg, f))
            && r.world.store.rows == With(w.store.rows, id, if r.ok then Running else Failed, if r.ok then slot else 0)
            && r.world.nets == UpNets(cfg, w.nets, id, slot, UpPrepares(cfg, f), r.ok, f.netDelete)
  {
    hide FailAndRelease, PrepareNetwork, SandboxNetwork, SetState, Prepared, InRange, NamespaceName;
    FailEffect(cfg, w, id, slot, action, f);
    var spec := SandboxNetwork(cfg, id, slot);
    OwnSpecPrepares(cfg, id, slot, f.netAdd);
    PrepareEffect(cfg, w, spec, f.netAdd, f.netConfigure);
    var n := PrepareNetwork(cfg, w, spec, f.netAdd, f.netConfigure);
    FailEffect(cfg, n.world, id, slot, action, f);
    SetStateEffect(n.world, id, Running, action);
  }

  // How a start or resume ends; mounts says whether the rootfs could be mounted.
  ghost predicate UpOutcome(cfg: Config, w: World, id: Id, mounts: bool, f: BringUpFaults, r: Tried)
    requires cfg.Valid() && id in w.store.rows
  {
    match GivenSlot(cfg, w.store.rows, id)
    case Err => !r.ok && r.world.store.rows == With(w.store.rows, id, Failed, 0) && r.world.nets == w.nets
    case Ok(slot) =>
      && (r.ok <==> mounts && UpWorks(cfg, f))
      && r.world.store.rows == With(w.store.rows, id, if r.ok then Running else Failed, if r.ok then slot else 0)
      && r.world.nets == UpNets(cfg, w.nets, id, slot, mounts && UpPrepares(cfg, f), r.ok, f.netDelete)
  }

  // The steps up to the slot, shared by start and resume.
  lemma SlotForUp(cfg: Config, w: World, id: Id, state: State, action: string)
    requires cfg.Valid() && RowsOk(cfg, w.store.rows) && id in w.store.rows
    ensures var s := SetState(w, id, state, action);
            var a := AssignNetwork(cfg, s.world, id);
            && s.ok && a.result == GivenSlot(cfg, w.store.rows, id) && a.world.nets == w.nets
            && id in a.world.store.rows && RowsOk(cfg, a.world.store.rows)
            && (a.result.Err? ==> a.world.store.rows == With(w.store.rows, id, state, 0) && w.store.rows[id].slot == 0)
            && (a.result.Ok? ==> a.world.store.rows == With(w.store.rows, id, state, a.result.value)
                                 && InRange(cfg, a.result.value) && (cfg.enabled <==> a.result.value > 0))
  {
    hide SetState, AssignNetwork, GivenSlot, InRange, SlotsUnique;
    SetStateEffect(w, id, state, action);
    GivenSlotIgnoresState(cfg, w.store.rows, id, state);
    WithStaysOk(cfg, w.store.rows, id, state, w.store.rows[id].slot);
    var s := SetState(w, id, state, action);
    AssignEffect(cfg, s.world, id);
    if AssignNetwork(cfg, s.world, id).result.Ok? {
      GivenSlotIsFree(cfg, s.world.store.rows, id);
      GivenSlotStaysOk(cfg, s.world.store.rows, id, state);
    }
  }

  lemma ResumeOutcome(cfg: Config, w: World, id: Id, f: BringUpFaults)
    requires cfg.Valid() && RowsOk(cfg, w.store.rows) && id in w.store.rows
    ensures UpOutcome(cfg, w, id, true, f, ResumeRun(cfg, w, id, f))
  {
    hide SetState, AssignNetwork, BringUpRun, GivenSlot, RowsOk, InRange, UpNets, UpWorks, UpPrepares;
    SlotForUp(cfg, w, id, Resuming, "resume");
    var a := AssignNetwork(cfg, SetState(w, id, Resuming, "resume").world, id);
    if a.result.Ok? {
      BringUpEffect(cfg, a.world, id, a.result.value, "resume", f);
    } else {
      SetStateEffect(a.world, id, Failed, "resume");
    }
  }

  predicate RootfsMounts(w: World, id: Id, f: StartFaults)
    requires id in w.store.rows
  {
    w.store.rows[id].overlayBD ==> !f.mount && w.store.rows[id].snapshotKey in w.snapshots
  }

  lemma SetStateKeepsSnapshots(w: World, id: Id, to: State, action: string)
    ensures SetState(w, id, to, action).world.snapshots == w.snapshots
  {
  }

  lemma AssignKeepsSnapshots(cfg: Config, w: World, id: Id)
    requires cfg.Valid()
    ensures AssignNetwork(cfg, w, id).world.snapshots == w.snapshots
  {
    hide MaxSlots;
  }

  lemma NetsWithoutUp(cfg: Config, nets: Nets, id: Id, slot: uint32, deleteFails: bool)
    requires cfg.enabled <==> slot > 0
    ensures UpNets(cfg, nets, id, slot, false, false, deleteFails)
            == if slot > 0 then Released(cfg, nets, id, deleteFails) else nets
  {
  }

  lemma MountEffect(w: World, key: string, target: string, fails: bool)
    ensures var m := MountRootfs(w, key, target, fails);
            m.world.store == w.store && m.world.nets == w.nets && (m.ok <==> !fails && key in w.snapshots)
  {
  }

  lemma UnmountEffect(w: World, target: string, fails: bool)
    ensures Unmount(w, target, fails).world.store == w.store && Unmount(w, target, fails).world.nets == w.nets
  {
  }

  lemma StartOutcome(cfg: Config, w: World, id: Id, f: StartFaults)
    requires cfg.Valid() && RowsOk(cfg, w.store.rows) && id in w.store.rows
    ensures UpOutcome(cfg, w, id, RootfsMounts(w, id, f), f.up, StartRun(cfg, w, id, f))
  {
    hide SetState, AssignNetwork, BringUpRun, FailAndRelease, GivenSlot, RowsOk, InRange, UpWorks, UpPrepares, UpNets,
         Released, NamespaceName, MountRootfs, Unmount;
    SlotForUp(cfg, w, id, Starting, "start");
    var s := SetState(w, id, Starting, "start");
    SetStateKeepsSnapshots(w, id, Starting, "start");
    AssignKeepsSnapshots(cfg, s.world, id);
    var a := AssignNetwork(cfg, s.world, id);
    if a.result.Ok? {
      var m := MountRootfs(a.world, w.store.rows[id].snapshotKey, DefaultTarget(id), f.mount);
      NetsWithoutUp(cfg, w.nets, id, a.result.value, f.up.netDelete);
      MountEffect(a.world, w.store.rows[id].snapshotKey, DefaultTarget(id), f.mount);
      BringUpEffect(cfg, a.world, id, a.result.value, "start", f.up);
      BringUpEffect(cfg, m.world, id, a.result.value, "start", f.up);
      UnmountEffect(BringUpRun(cfg, m.world, id, a.result.value, "start", f.up).world, DefaultTarget(id), f.undoUnmount);
      FailEffect(cfg, m.world, id, a.result.value, "start", f.up);
    } else {
      SetStateEffect(a.world, id, Failed, "start");
    }
  }

  // A sandbox that was to come up is running, with a slot when networking is on, or it is
  // failed without one; nobody else is touched.
  ghost predicate Ended(cfg: Config, rows: Rows, id: Id, ok: bool) {
    && id in rows
    && if ok then rows[id].state == Running && (cfg.enabled <==> rows[id].slot > 0)
       else rows[id].state == Failed && rows[id].slot == 0
  }

  lemma UpRows(cfg: Config, w: World, id: Id, mounts: bool, f: BringUpFaults, r: Tried)
    requires cfg.Valid() && RowsTidy(cfg, w.store.rows) && id in w.store.rows && UpOutcome(cfg, w, id, mounts, f, r)
    ensures RowsTidy(cfg, r.world.store.rows) && OthersSame(w.store.rows, r.world.store.rows, id)
    ensures Ended(cfg, r.world.store.rows, id, r.ok)
  {
    hide GivenSlot, UpNets, UpWorks, UpPrepares, RowsOk;
    WithStaysOk(cfg, w.store.rows, id, Failed, 0);
    var given := GivenSlot(cfg, w.store.rows, id);
    if given.Ok? {
      GivenSlotIsFree(cfg, w.store.rows, id);
      GivenSlotStaysOk(cfg, w.store.rows, id, Running);
    }
  }

  lemma StartTidy(cfg: Config, w: World, id: Id, f: StartFaults)
    requires cfg.Valid() && RowsTidy(cfg, w.store.rows) && id in w.store.rows
    ensures var r := StartRun(cfg, w, id, f);
            && RowsTidy(cfg, r.world.store.rows) && OthersSame(w.store.rows, r.world.store.rows, id)
            && Ended(cfg, r.world.store.rows, id, r.ok)
  {
    hide StartRun, RowsOk, Quiet, UpOutcome, RootfsMounts;
    StartOutcome(cfg, w, id, f);
    UpRows(cfg, w, id, RootfsMounts(w, id, f), f.up, StartRun(cfg, w, id, f));
  }

  lemma ResumeTidy(cfg: Config, w: World, id: Id, f: BringUpFaults)
    requires cfg.Valid() && RowsTidy(cfg, w.store.rows) && id in w.store.rows
    ensures var r := ResumeRun(cfg, w, id, f);
            && RowsTidy(cfg, r.world.store.rows) && OthersSame(w.store.rows, r.world.store.rows, id)
            && Ended(cfg, r.world.store.rows, id, r.ok)
  {
    hide ResumeRun, RowsOk, Quiet, UpOutcome;
    ResumeOutcome(cfg, w, id, f);
    UpRows(cfg, w, id, true, f, ResumeRun(cfg, w, id, f));
  }

  // Whether giving up on a sandbox leaves its namespace: it was there before or has just
  // been prepared, and it cannot be deleted.
  predicate UpLeaks(cfg: Config, w: World, id: Id, mounts: bool, f: BringUpFaults)
    requires cfg.Valid() && id in w.store.rows
  {
    && GivenSlot(cfg, w.store.rows, id).Ok? && cfg.enabled
    && !(mounts && UpWorks(cfg, f)) && f.netDelete
    && (NamespaceName(id) in w.nets || (mounts && UpPrepares(cfg, f)))
  }

  // Bringing up changes the networks at most under the sandbox's own name.
  lemma UpNetsAt(cfg: Config, nets: Nets, id: Id, slot: uint32, prepares: bool, ok: bool, deleteFails: bool)
    ensures var own, n := NamespaceName(id), UpNets(cfg, nets, id, slot, prepares, ok, deleteFails);
            && n - {own, own} == nets - {own, own}
            && (own in n <==> (prepares || own in nets) && (ok || !cfg.enabled || deleteFails))
            && (own in n ==> n[own] == if prepares then slot else nets[own])
  {
    hide NamespaceName;
  }

  // A network of one's own carries one's slot.
  lemma OwnNetwork(rows: Rows, nets: Nets, id: Id)
    requires NetsOwned(rows, nets) && NamespaceName(id) in nets
    ensures id in rows && rows[id].slot == nets[NamespaceName(id)] > 0
  {
    OwnNameIff(rows, id, nets[NamespaceName(id)]);
    assert Owned(rows, NamespaceName(id), nets[NamespaceName(id)]);
  }

  lemma UpNetsIff(cfg: Config, w: World, id: Id, mounts: bool, f: BringUpFaults, r: Tried)
    requires cfg.Valid() && Tidy(cfg, w) && id in w.store.rows && UpOutcome(cfg, w, id, mounts, f, r)
    ensures NetsOwned(r.world.store.rows, r.world.nets) <==> !UpLeaks(cfg, w, id, mounts, f)
  {
    hide GivenSlot, RowsOk, Quiet, NetsOwned, NamespaceName, UpNets;
    var own, rows := NamespaceName(id), w.store.rows;
    var given := GivenSlot(cfg, rows, id);
    NoSlotIff(cfg, rows, id);
    if own in w.nets {
      OwnNetwork(rows, w.nets, id);
    }
    if given.Ok? {
      GivenSlotIsFree(cfg, rows, id);
      UpNetsAt(cfg, w.nets, id, given.value, mounts && UpPrepares(cfg, f), r.ok, f.netDelete);
    }
    OwnedAfterIff(rows, w.nets, r.world.store.rows, r.world.nets, id, own);
  }

  lemma StartTidyIff(cfg: Config, w: World, id: Id, f: StartFaults)
    requires cfg.Valid() && Tidy(cfg, w) && id in w.store.rows
    ensures Tidy(cfg, StartRun(cfg, w, id, f).world) <==> !UpLeaks(cfg, w, id, RootfsMounts(w, id, f), f.up)
  {
    hide StartRun, RowsOk, Quiet, UpOutcome, RootfsMounts, NetsOwned, UpLeaks;
    StartOutcome(cfg, w, id, f);
    StartTidy(cfg, w, id, f);
    UpNetsIff(cfg, w, id, RootfsMounts(w, id, f), f.up, StartRun(cfg, w, id, f));
  }

  lemma ResumeTidyIff(cfg: Config, w: World, id: Id, f: BringUpFaults)
    requires cfg.Valid() && Tidy(cfg, w) && id in w.store.rows
    ensures Tidy(cfg, ResumeRun(cfg, w, id, f).world) <==> !UpLeaks(cfg, w, id, true, f)
  {
    hide ResumeRun, RowsOk, Quiet, UpOutcome, NetsOwned, UpLeaks;
    ResumeOutcome(cfg, w, id, f);
    ResumeTidy(cfg, w, id, f);
    UpNetsIff(cfg, w, id, true, f, ResumeRun(cfg, w, id, f));
  }

  // ---------- pause, stop, reboot ----------

  predicate ActionWorks(f: ActionFaults) {
    !f.dial && !f.call
  }

  // Whether the action gives up its slot, and with it the network.
  predicate GivesUp(action: Action, f: ActionFaults) {
    ActionWorks(f) && action != Reboot
  }

  lemma EndsNetworkIff(action: Action)
    ensures action.EndsNetwork() <==> action != Reboot
    ensures action != Reboot <==> action.Final() in {Stopped, Paused}
  {
  }

  lemma FinishOutcome(cfg: Config, w: World, id: Id, slot: uint32, action: Action, f: ActionFaults)
    requires cfg.Valid() && id in w.store.rows && slot == w.store.rows[id].slot && InRange(cfg, slot)
    ensures var r := FinishRun(cfg, w, id, slot, action, f);
            && (r.ok <==> ActionWorks(f))
            && r.world.store.rows == With(w.store.rows, id, if r.ok then action.Final() else Failed,
                                          if GivesUp(action, f) then 0 else slot)
            && r.world.nets == if GivesUp(action, f) && slot > 0 then Released(cfg, w.nets, id, f.netDelete) else w.nets
  {
    EndsNetworkIff(action);
    hide SetState, ReleaseNetwork, InRange, Action.Final, Action.Name, Action.EndsNetwork, Released;
    SetStateEffect(w, id, Failed, action.Name());
    SetStateEffect(w, id, action.Final(), action.Name());
    ReleaseEffect(cfg, SetState(w, id, action.Final(), action.Name()).world, id, slot, f.netDelete);
  }

  lemma FailedKeepsSlot(action: Action, f: ActionFaults)
    ensures GivesUp(action, f) ==> ActionWorks(f)
  {
  }

  lemma ActionOutcome(cfg: Config, w: World, id: Id, action: Action, f: ActionFaults)
    requires cfg.Valid() && RowsOk(cfg, w.store.rows) && id in w.store.rows
    ensures var r, slot := ActionRun(cfg, w, id, action, f), w.store.rows[id].slot;
            && (r.ok <==> ActionWorks(f))
            && r.world.store.rows == With(w.store.rows, id, if r.ok then action.Final() else Failed,
                                          if GivesUp(action, f) then 0 else slot)
            && r.world.nets == if GivesUp(action, f) && slot > 0 then Released(cfg, w.nets, id, f.netDelete) else w.nets
  {
    assert InRange(cfg, w.store.rows[id].slot);
    hide SetState, FinishRun, InRange, Action.Final, Action.Name, Action.Transition, Released, GivesUp, ActionWorks, RowsOk, With;
    var rows, slot := w.store.rows, w.store.rows[id].slot;
    SetStateEffect(w, id, action.Transition(), action.Name());
    WithTwice(rows, id, action.Transition(), slot, Failed, slot);
    WithTwice(rows, id, action.Transition(), slot, action.Final(), slot);
    WithTwice(rows, id, action.Transition(), slot, action.Final(), 0);
    FinishOutcome(cfg, SetState(w, id, action.Transition(), action.Name()).world, id, slot, action, f);
    FailedKeepsSlot(action, f);
  }

  // A stop or pause that succeeds ends with slot 0; one that fails ends failed and keeps
  // its slot; a reboot keeps the slot it found.
  lemma ActionTidy(cfg: Config, w: World, id: Id, action: Action, f: ActionFaults)
    requires cfg.Valid() && RowsTidy(cfg, w.store.rows) && id in w.store.rows
    ensures var r := ActionRun(cfg, w, id, action, f);
            && RowsTidy(cfg, r.world.store.rows) && OthersSame(w.store.rows, r.world.store.rows, id) && id in r.world.store.rows
            && (r.ok <==> ActionWorks(f))
            && r.world.store.rows[id].state == (if r.ok then action.Final() else Failed)
            && r.world.store.rows[id].slot == (if r.ok && action != Reboot then 0 else w.store.rows[id].slot)
  {
    ActionOutcome(cfg, w, id, action, f);
    EndsNetworkIff(action);
    hide ActionRun, RowsOk, Action.Final, ActionWorks, Released;
    var r := ActionRun(cfg, w, id, action, f);
    var state, slot := if r.ok then action.Final() else Failed, if r.ok && action != Reboot then 0 else w.store.rows[id].slot;
    WithStaysOk(cfg, w.store.rows, id, state, slot);
  }

  // The network stays behind exactly when the slot was given up and the namespace, there
  // before, could not be deleted.
  predicate ActionLeaks(w: World, id: Id, action: Action, f: ActionFaults) {
    GivesUp(action, f) && f.netDelete && NamespaceName(id) in w.nets
  }

  lemma ReleasedAt(cfg: Config, nets: Nets, id: Id, deleteFails: bool)
    ensures var own, n := NamespaceName(id), Released(cfg, nets, id, deleteFails);
            && n - {own, own} == nets - {own, own}
            && (own in n <==> own in nets && (deleteFails || !cfg.enabled))
            && (own in n ==> n[own] == nets[own])
  {
    hide NamespaceName;
  }

  lemma ActionNetsIff(cfg: Config, w: World, id: Id, action: Action, f: ActionFaults)
    requires cfg.Valid() && Tidy(cfg, w) && id in w.store.rows
    ensures var r := ActionRun(cfg, w, id, action, f);
            NetsOwned(r.world.store.rows, r.world.nets) <==> !ActionLeaks(w, id, action, f)
  {
    ActionOutcome(cfg, w, id, action, f);
    hide ActionRun, Action.Final, ActionWorks, Quiet, NetsOwned, NamespaceName, GivesUp, Released;
    var own, rows := NamespaceName(id), w.store.rows;
    ReleasedAt(cfg, w.nets, id, f.netDelete);
    assert InRange(cfg, rows[id].slot);
    if own in w.nets {
      OwnNetwork(rows, w.nets, id);
    }
    var r := ActionRun(cfg, w, id, action, f);
    hide RowsOk;
    OwnedAfterIff(rows, w.nets, r.world.store.rows, r.world.nets, id, own);
  }

  lemma ActionTidyIff(cfg: Config, w: World, id: Id, action: Action, f: ActionFaults)
    requires cfg.Valid() && Tidy(cfg, w) && id in w.store.rows
    ensures Tidy(cfg, ActionRun(cfg, w, id, action, f).world) <==> !ActionLeaks(w, id, action, f)
  {
    hide ActionRun, Action.Final, ActionWorks, RowsOk, Quiet, NetsOwned, ActionLeaks;
    ActionTidy(cfg, w, id, action, f);
    ActionNetsIff(cfg, w, id, action, f);
  }

  // The unmount after a stop changes neither records nor networks.
  lemma StopIsAction(cfg: Config, w: World, id: Id, f: ActionFaults)
    requires cfg.Valid()
    ensures var s, a := StopRun(cfg, w, id, f), ActionRun(cfg, w, id, Stop, f);
            s.world.store == a.world.store && s.world.nets == a.world.nets && (s.ok ==> a.ok)
  {
    hide ActionRun;
  }

  // ---------- create ----------

  predicate Refused(w: World, req: CreateRequest, f: CreateFaults) {
    req.id == "" || f.mkdir || !req.SourceAccepted() || req.id in w.store.rows
  }

  lemma RefusedCreate(cfg: Config, w: World, req: CreateRequest, f: CreateFaults)
    requires cfg.Valid() && Refused(w, req, f)
    ensures var r := CreateRun(cfg, w, req, f);
            !r.ok && r.world.store == w.store && r.world.nets == w.nets
  {
    hide AssignNetwork, PrepareFiles, FailCreate, UndoRootfs, LaunchRun, MarkCreateFailed, UsedSlots, NewRecord,
         CreateRequest.SourceAccepted;
  }

  lemma InsertOk(cfg: Config, w: World, req: CreateRequest)
    requires cfg.Valid() && RowsOk(cfg, w.store.rows) && req.id !in w.store.rows
    ensures var c := Ask(w, Created(w.store, req.id, NewRecord(req)));
            && !c.outcome.Rejected? && c.world.nets == w.nets
            && c.world.store.rows == w.store.rows[req.id := NewRecord(req)] && RowsOk(cfg, c.world.store.rows)
  {
    ZeroInRange(cfg);
    hide InRange;
  }

  // The digest is the only thing of the record that the runtime files may change.
  lemma FilesEffect(w: World, req: CreateRequest, f: CreateFaults)
    requires req.id in w.store.rows
    ensures var p := PrepareFiles(w, req, f);
            && p.world.nets == w.nets && OthersSame(w.store.rows, p.world.store.rows, req.id) && req.id in p.world.store.rows
            && p.world.store.rows[req.id].state == w.store.rows[req.id].state
            && p.world.store.rows[req.id].slot == w.store.rows[req.id].slot
  {
    hide SnapshotKey, CreateRequest.Target;
  }

  lemma FailCreateEffect(cfg: Config, w: World, id: Id, slot: uint32, f: BringUpFaults)
    requires cfg.Valid() && id in w.store.rows && w.store.rows[id].state == Creating
    requires slot == w.store.rows[id].slot && InRange(cfg, slot)
    ensures var r := FailCreate(cfg, w, id, slot, f);
            && r.store.rows == With(w.store.rows, id, Failed, 0)
            && r.nets == if slot > 0 then Released(cfg, w.nets, id, f.netDelete) else w.nets
  {
    hide ReleaseNetwork, InRange, Released;
    ReleaseEffect(cfg, MarkCreateFailed(w, id), id, slot, f.netDelete);
  }

  // The namespace a launch prepares, if it gets that far.
  function LaunchEntry(cfg: Config, req: CreateRequest, slot: uint32, f: CreateFaults): Option<Entry>
    requires cfg.Valid()
  {
    if f.snapshotDirs then None else Prepared(cfg, CreateNetwork(cfg, req, slot), f.up.netAdd)
  }

  // Whether everything after the namespace works.
  predicate LaunchWorks(f: CreateFaults) {
    !f.up.netConfigure && !f.shim && !f.up.dial && !f.up.runtime && !f.up.agent
  }

  function LaunchNets(cfg: Config, nets: Nets, id: Id, entry: Option<Entry>, ok: bool, deleteFails: bool): Nets {
    if ok then Added(nets, entry) else Released(cfg, Added(nets, entry), id, deleteFails)
  }

  lemma LaunchEffect(cfg: Config, w: World, req: CreateRequest, slot: uint32, f: CreateFaults)
    requires cfg.Valid() && req.id in w.store.rows && w.store.rows[req.id].state == Creating
    requires slot == w.store.rows[req.id].slot && InRange(cfg, slot) && (cfg.enabled <==> slot > 0)
    ensures var r := LaunchRun(cfg, w, req, slot, f);
            && r.world.store.rows == With(w.store.rows, req.id, if r.ok then Running else Failed, if r.ok then slot else 0)
            && r.world.nets == LaunchNets(cfg, w.nets, req.id, LaunchEntry(cfg, req, slot, f), r.ok, f.up.netDelete)
            && (LaunchEntry(cfg, req, slot, f).Some? ==> (r.ok <==> LaunchWorks(f)) && LaunchEntry(cfg, req, slot, f).value.slot > 0)
  {
    hide FailCreate, PrepareNetwork, CreateNetwork, Prepared, InRange, NamespaceName;
    FailCreateEffect(cfg, w, req.id, slot, f.up);
    var spec := CreateNetwork(cfg, req, slot);
    PrepareEffect(cfg, w, spec, f.up.netAdd, f.up.netConfigure);
    var n := PrepareNetwork(cfg, w, spec, f.up.netAdd, f.up.netConfigure);
    FailCreateEffect(cfg, n.world, req.id, slot, f.up);
  }

  // The namespace a create brings about, if any.
  function CreateEntry(cfg: Config, w: World, req: CreateRequest, f: CreateFaults): Option<Entry>
    requires cfg.Valid()
  {
    var given := GivenSlot(cfg, w.store.rows[req.id := NewRecord(req)], req.id);
    if FilesReady(cfg, w, req, f) && given.Ok? then LaunchEntry(cfg, req, given.value, f) else None
  }

  lemma UndoEffect(t: Tried, req: CreateRequest, f: CreateFaults)
    ensures var u := UndoRootfs(t, req, f);
            u.world.store == t.world.store && u.world.nets == t.world.nets && u.ok == t.ok
  {
  }

  // From the inserted record on, which has the given slot.
  lemma CreateFromSlot(cfg: Config, w: World, req: CreateRequest, slot: uint32, f: CreateFaults)
    requires cfg.Valid() && req.id in w.store.rows && w.store.rows[req.id].state == Creating
    requires slot == w.store.rows[req.id].slot && InRange(cfg, slot) && (cfg.enabled <==> slot > 0)
    ensures var p := PrepareFiles(w, req, f);
            var r := if p.ok then UndoRootfs(LaunchRun(cfg, p.world, req, slot, f), req, f)
                     else Tried(FailCreate(cfg, p.world, req.id, slot, f.up), false);
            && OthersSame(w.store.rows, r.world.store.rows, req.id) && Ended(cfg, r.world.store.rows, req.id, r.ok)
            && (r.ok ==> r.world.store.rows[req.id].slot == slot)
            && r.world.nets == LaunchNets(cfg, w.nets, req.id, if p.ok then LaunchEntry(cfg, req, slot, f) else None,
                                          r.ok, f.up.netDelete)
            && (p.ok && LaunchEntry(cfg, req, slot, f).Some? ==>
                  (r.ok <==> LaunchWorks(f)) && LaunchEntry(cfg, req, slot, f).value.slot > 0)
  {
    hide PrepareFiles, FailCreate, LaunchRun, UndoRootfs, LaunchEntry, LaunchWorks, InRange, NamespaceName;
    FilesEffect(w, req, f);
    var p := PrepareFiles(w, req, f);
    if p.ok {
      LaunchEffect(cfg, p.world, req, slot, f);
      UndoEffect(LaunchRun(cfg, p.world, req, slot, f), req, f);
    } else {
      FailCreateEffect(cfg, p.world, req.id, slot, f.up);
    }
  }

  lemma AcceptedCreate(cfg: Config, w: World, req: CreateRequest, f: CreateFaults)
    requires cfg.Valid() && RowsOk(cfg, w.store.rows) && !Refused(w, req, f)
    ensures var r, rows := CreateRun(cfg, w, req, f), w.store.rows[req.id := NewRecord(req)];
            var given := GivenSlot(cfg, rows, req.id);
            && OthersSame(w.store.rows, r.world.store.rows, req.id) && Ended(cfg, r.world.store.rows, req.id, r.ok)
            && (given.Err? ==> !r.ok && r.world.nets == w.nets)
            && (given.Ok? ==>
                  && (r.ok ==> r.world.store.rows[req.id].slot == given.value)
                  && r.world.nets == LaunchNets(cfg, w.nets, req.id, CreateEntry(cfg, w, req, f), r.ok, f.up.netDelete))
            && (CreateEntry(cfg, w, req, f).Some? ==>
                  given.Ok? && (r.ok <==> LaunchWorks(f)) && CreateEntry(cfg, w, req, f).value.slot > 0)
  {
    hide AssignNetwork, PrepareFiles, FailCreate, UndoRootfs, LaunchRun, LaunchEntry, LaunchNets, LaunchWorks, GivenSlot, InRange,
         SlotsUnique, Created, CreateRequest.SourceAccepted, NewRecord;
    InsertOk(cfg, w, req);
    assert NewRecord(req).state == Creating && NewRecord(req).slot == 0 by {
      NewIsCreating(req);
    }
    var c := Ask(w, Created(w.store, req.id, NewRecord(req)));
    AssignEffect(cfg, c.world, req.id);
    var a := AssignNetwork(cfg, c.world, req.id);
    if a.result.Ok? {
      GivenSlotIsFree(cfg, c.world.store.rows, req.id);
      CreateFromSlot(cfg, a.world, req, a.result.value, f);
    }
  }

  lemma NewIsCreating(req: CreateRequest)
    ensures NewRecord(req).state == Creating && NewRecord(req).slot == 0
  {
  }

  // The other records stay as they are and the new one has a given slot or none.
  lemma NewRecordStaysOk(cfg: Config, rows: Rows, rows': Rows, id: Id)
    requires cfg.Valid() && RowsOk(cfg, rows) && id in rows && OthersSame(rows, rows', id) && id in rows'
    requires rows'[id].slot == 0 || GivenSlot(cfg, rows, id) == Ok(rows'[id].slot)
    ensures RowsOk(cfg, rows')
  {
    ZeroInRange(cfg);
    if rows'[id].slot > 0 {
      GivenSlotIsFree(cfg, rows, id);
    }
    hide InRange, GivenSlot;
  }

  // A create ends running with a slot when networking is on, or failed without one, and
  // leaves the others alone; a refused one changes nothing.
  lemma CreateTidy(cfg: Config, w: World, req: CreateRequest, f: CreateFaults)
    requires cfg.Valid() && RowsTidy(cfg, w.store.rows)
    ensures var r := CreateRun(cfg, w, req, f);
            && RowsTidy(cfg, r.world.store.rows)
            && (Refused(w, req, f) ==> !r.ok && r.world.store == w.store && r.world.nets == w.nets)
            && (!Refused(w, req, f) ==> Ended(cfg, r.world.store.rows, req.id, r.ok))
            && (forall other :: other in w.store.rows ==>
                  other in r.world.store.rows && r.world.store.rows[other] == w.store.rows[other])
  {
    var r := CreateRun(cfg, w, req, f);
    hide CreateRun, CreateEntry, LaunchNets, GivenSlot, RowsOk, NewRecord, CreateRequest.SourceAccepted;
    if Refused(w, req, f) {
      RefusedCreate(cfg, w, req, f);
    } else {
      AcceptedCreate(cfg, w, req, f);
      InsertOk(cfg, w, req);
      NewRecordStaysOk(cfg, w.store.rows[req.id := NewRecord(req)], r.world.store.rows, req.id);
    }
  }

  lemma LaunchNetsAt(cfg: Config, nets: Nets, id: Id, e: Entry, ok: bool, deleteFails: bool)
    requires NamespaceName(id) !in nets
    ensures var own, n := NamespaceName(id), LaunchNets(cfg, nets, id, Some(e), ok, deleteFails);
            && n - {e.ns, own} == nets - {e.ns, own}
            && (own in n <==> e.ns == own && (ok || !cfg.enabled || deleteFails))
            && (e.ns in n <==> e.ns != own || own in n)
            && (e.ns in n ==> n[e.ns] == e.slot)
  {
    hide NamespaceName;
  }

  lemma NothingLaunched(cfg: Config, nets: Nets, id: Id, ok: bool, deleteFails: bool)
    requires NamespaceName(id) !in nets
    ensures LaunchNets(cfg, nets, id, None, ok, deleteFails) == nets
  {
    hide NamespaceName;
  }

  // Whether a create leaves a network without a record of its slot: under its own name with
  // a slot that is not the sandbox's, or with the sandbox failed and the name not deleted;
  // under another name, unless the sandbox of that name holds the very slot.
  ghost predicate CreateLeaks(cfg: Config, w: World, req: CreateRequest, f: CreateFaults)
    requires cfg.Valid()
  {
    && !Refused(w, req, f) && CreateEntry(cfg, w, req, f).Some?
    && var e := CreateEntry(cfg, w, req, f).value;
       if e.ns != NamespaceName(req.id) then !Owned(w.store.rows, e.ns, e.slot)
       else if LaunchWorks(f) then GivenSlot(cfg, w.store.rows[req.id := NewRecord(req)], req.id) != Ok(e.slot)
       else !cfg.enabled || f.up.netDelete
  }

  lemma CreateNetsIff(cfg: Config, w: World, req: CreateRequest, f: CreateFaults)
    requires cfg.Valid() && Tidy(cfg, w)
    ensures var r := CreateRun(cfg, w, req, f);
            NetsOwned(r.world.store.rows, r.world.nets) <==> !CreateLeaks(cfg, w, req, f)
  {
    var r, rows, own := CreateRun(cfg, w, req, f), w.store.rows, NamespaceName(req.id);
    hide CreateRun, CreateEntry, LaunchNets, LaunchWorks, GivenSlot, RowsOk, Quiet, NetsOwned, NewRecord, NamespaceName,
         CreateRequest.SourceAccepted;
    if Refused(w, req, f) {
      RefusedCreate(cfg, w, req, f);
    } else {
      NoSlotNoNetwork(rows, w.nets, req.id);
      AcceptedCreate(cfg, w, req, f);
      var entry := CreateEntry(cfg, w, req, f);
      if entry.Some? {
        LaunchNetsAt(cfg, w.nets, req.id, entry.value, r.ok, f.up.netDelete);
        OwnedAfterIff(rows, w.nets, r.world.store.rows, r.world.nets, req.id, entry.value.ns);
      } else {
        NothingLaunched(cfg, w.nets, req.id, r.ok, f.up.netDelete);
        OwnedAfterIff(rows, w.nets, r.world.store.rows, r.world.nets, req.id, own);
      }
    }
  }

  lemma CreateTidyIff(cfg: Config, w: World, req: CreateRequest, f: CreateFaults)
    requires cfg.Valid() && Tidy(cfg, w)
    ensures Tidy(cfg, CreateRun(cfg, w, req, f).world) <==> !CreateLeaks(cfg, w, req, f)
  {
    hide CreateRun, RowsOk, Quiet, NetsOwned, CreateLeaks;
    CreateTidy(cfg, w, req, f);
    CreateNetsIff(cfg, w, req, f);
  }

  predicate LeavesNetworkToBoxlet(req: CreateRequest) {
    req.network.Some? ==> req.network.value.namespaceName == "" && req.network.value.hostAccessIp.Unset?
  }

  // A request that leaves address and namespace to boxlet prepares its own slot under its
  // own name, so that it leaks only by a deletion that fails.
  lemma LeftToBoxletLeaksIff(cfg: Config, w: World, req: CreateRequest, f: CreateFaults)
    requires cfg.Valid() && Tidy(cfg, w) && LeavesNetworkToBoxlet(req)
    ensures CreateLeaks(cfg, w, req, f) <==>
            !Refused(w, req, f) && CreateEntry(cfg, w, req, f).Some? && !LaunchWorks(f) && f.up.netDelete
  {
    hide FilesReady, RowsOk, Quiet, NetsOwned, NewRecord, NamespaceName, CreateRequest.SourceAccepted, GivenSlot,
         LaunchWorks, LaunchEntry, LeavesNetworkToBoxlet;
    if !Refused(w, req, f) && CreateEntry(cfg, w, req, f).Some? {
      var rows := w.store.rows[req.id := NewRecord(req)];
      InsertOk(cfg, w, req);
      GivenSlotIsFree(cfg, rows, req.id);
      OwnEntry(cfg, req, GivenSlot(cfg, rows, req.id).value, f);
    }
  }

  lemma OwnEntry(cfg: Config, req: CreateRequest, slot: uint32, f: CreateFaults)
    requires cfg.Valid() && LeavesNetworkToBoxlet(req) && InRange(cfg, slot) && LaunchEntry(cfg, req, slot, f).Some?
    ensures LaunchEntry(cfg, req, slot, f) == Some(Entry(NamespaceName(req.id), slot)) && slot > 0 && cfg.enabled
  {
    if slot > 0 {
      SlotHasSpec(cfg, req.id, slot);
    }
    hide SpecForSlot, SlotFromHostAccessIP, VethAddrsForSlot, InRange, NamespaceName;
  }

  // A request that names a namespace no sandbox is called after leaves it behind for good.
  lemma ForeignNamespaceLeaks(cfg: Config, w: World, req: CreateRequest, f: CreateFaults)
    requires cfg.Valid() && Tidy(cfg, w) && !Refused(w, req, f) && CreateEntry(cfg, w, req, f).Some?
    requires forall id :: CreateEntry(cfg, w, req, f).value.ns != NamespaceName(id)
    ensures !Tidy(cfg, CreateRun(cfg, w, req, f).world)
  {
    CreateTidyIff(cfg, w, req, f);
    hide Tidy, CreateRun, CreateEntry;
  }

  // A request that names an address only: when all works, exactly the address its slot has
  // anyway keeps records and networks in step.
  lemma NamedAddressLeaksIff(cfg: Config, w: World, req: CreateRequest, f: CreateFaults)
    requires cfg.Valid() && Tidy(cfg, w) && !Refused(w, req, f) && CreateEntry(cfg, w, req, f).Some? && LaunchWorks(f)
    requires req.network.Some? && req.network.value.namespaceName == ""
    ensures var given := GivenSlot(cfg, w.store.rows[req.id := NewRecord(req)], req.id);
            && given.Ok? && IndexedIP(cfg.hostAccess, given.value).Ok?
            && (CreateLeaks(cfg, w, req, f) <==>
                req.network.value.hostAccessIp !in {Unset, V4(IndexedIP(cfg.hostAccess, given.value).value)})
  {
    var rows := w.store.rows[req.id := NewRecord(req)];
    InsertOk(cfg, w, req);
    GivenSlotIsFree(cfg, rows, req.id);
    hide FilesReady, RowsOk, Quiet, NetsOwned, NewRecord, NamespaceName, CreateRequest.SourceAccepted, GivenSlot,
         LaunchWorks, LaunchEntry;
    NamedEntry(cfg, req, GivenSlot(cfg, rows, req.id).value, f);
  }

  lemma NamedEntry(cfg: Config, req: CreateRequest, slot: uint32, f: CreateFaults)
    requires cfg.Valid() && InRange(cfg, slot) && LaunchEntry(cfg, req, slot, f).Some?
    requires req.network.Some? && req.network.value.namespaceName == ""
    ensures var e := LaunchEntry(cfg, req, slot, f).value;
            && e.ns == NamespaceName(req.id) && IndexedIP(cfg.hostAccess, slot).Ok?
            && (e.slot == slot <==> req.network.value.hostAccessIp in {Unset, V4(IndexedIP(cfg.hostAccess, slot).value)})
  {
    var named := req.network.value.hostAccessIp;
    if slot > 0 {
      SlotHasSpec(cfg, req.id, slot);
      AcceptedPrefixes(cfg.hostAccess, cfg.veth);
      if named.V4? {
        SlotAndAddressAreInverse(cfg.hostAccess, slot, named.ip);
      }
    }
    hide IndexedIP, SlotFromHostAccessIP, VethAddrsForSlot, MaxSlots, NamespaceName, Cidr.Size, Cidr.Valid;
  }

  // ---------- kill ----------

  predicate Dropped(w: World, id: Id, f: KillFaults)
    requires id in w.store.rows
  {
    !w.store.rows[id].overlayBD || w.store.rows[id].snapshotKey == "" || f.remove == RemoveFaults(false, false)
  }

  lemma DropEffect(w: World, id: Id, record: Record, f: RemoveFaults)
    ensures var d := DropRootfs(w, id, record, f);
            && d.world.store == w.store && d.world.nets == w.nets
            && (d.ok <==> !record.overlayBD || record.snapshotKey == "" || f == RemoveFaults(false, false))
  {
  }

  // Releasing after the row is gone still cleans up the network.
  lemma ReleaseGone(cfg: Config, w: World, id: Id, slot: uint32, netDelete: bool)
    requires cfg.Valid() && id !in w.store.rows && InRange(cfg, slot)
    ensures var r := ReleaseNetwork(cfg, w, id, slot, netDelete);
            && r.world.store.rows == w.store.rows
            && r.world.nets == if slot > 0 then Released(cfg, w.nets, id, netDelete) else w.nets
  {
    if slot > 0 {
      SlotHasSpec(cfg, id, slot);
    }
    hide SpecForSlot, InRange, NamespaceName;
  }

  // What kill does to records and networks, in every case.
  lemma KillEffect(cfg: Config, w: World, id: Id, f: KillFaults)
    requires cfg.Valid() && RowsOk(cfg, w.store.rows) && id in w.store.rows
    ensures var r, slot := KillRun(cfg, w, id, f), w.store.rows[id].slot;
            && (!Dropped(w, id, f) ==>
                  !r.ok && r.world.store.rows == With(w.store.rows, id, Killing, slot) && r.world.nets == w.nets)
            && (Dropped(w, id, f) ==>
                  && (r.ok <==> !f.removeDir)
                  && r.world.store.rows == w.store.rows - {id}
                  && r.world.nets == if !f.removeDir && slot > 0 then Released(cfg, w.nets, id, f.netDelete) else w.nets)
  {
    var record, slot := w.store.rows[id], w.store.rows[id].slot;
    assert InRange(cfg, slot);
    hide SetState, DropRootfs, InRange, NamespaceName, ReleaseNetwork, RowsOk, Released, With;
    SetStateEffect(w, id, Killing, "kill");
    var s := SetState(w, id, Killing, "kill");
    DropEffect(s.world, id, record, f.remove);
    var d := DropRootfs(s.world, id, record, f.remove);
    WithTwice(w.store.rows, id, Killing, slot, Killed, slot);
    SetStateEffect(d.world, id, Killed, "kill");
    var k := SetState(d.world, id, Killed, "kill");
    WithoutIt(w.store.rows, id, Killed, slot);
    ReleaseGone(cfg, Ask(k.world, Deleted(k.world.store, id)).world, id, slot, f.netDelete);
  }

  lemma WithoutIt(rows: Rows, id: Id, state: State, slot: uint32)
    requires id in rows
    ensures id in With(rows, id, state, slot) && With(rows, id, state, slot) - {id} == rows - {id}
  {
  }

  lemma FewerRowsTidy(cfg: Config, rows: Rows, id: Id)
    requires cfg.Valid() && RowsTidy(cfg, rows)
    ensures RowsTidy(cfg, rows - {id}) && OthersSame(rows, rows - {id}, id)
  {
    hide InRange;
  }

  // A kill takes the record away, or leaves it killing when its rootfs cannot be removed.
  lemma KillTidy(cfg: Config, w: World, id: Id, f: KillFaults)
    requires cfg.Valid() && RowsTidy(cfg, w.store.rows) && id in w.store.rows
    ensures var rows := KillRun(cfg, w, id, f).world.store.rows;
            && RowsTidy(cfg, rows) && OthersSame(w.store.rows, rows, id)
            && (id in rows <==> !Dropped(w, id, f)) && (id in rows ==> rows[id].state == Killing)
  {
    KillEffect(cfg, w, id, f);
    FewerRowsTidy(cfg, w.store.rows, id);
    WithStaysOk(cfg, w.store.rows, id, Killing, w.store.rows[id].slot);
    hide KillRun, Dropped, RowsOk, Released;
  }

  predicate KillLeaks(w: World, id: Id, f: KillFaults)
    requires id in w.store.rows
  {
    Dropped(w, id, f) && NamespaceName(id) in w.nets && (f.removeDir || f.netDelete)
  }

  // After a kill everything is in order, unless the record went and the network of the
  // sandbox stayed behind: the directory could not be removed (the handler returns
  // before the cleanup) or the namespace could not be deleted (which it ignores).
  lemma KillTidyIff(cfg: Config, w: World, id: Id, f: KillFaults)
    requires cfg.Valid() && Tidy(cfg, w) && id in w.store.rows
    ensures Tidy(cfg, KillRun(cfg, w, id, f).world) <==> !KillLeaks(w, id, f)
  {
    KillEffect(cfg, w, id, f);
    KillTidy(cfg, w, id, f);
    var own, rows := NamespaceName(id), w.store.rows;
    assert InRange(cfg, rows[id].slot);
    if own in w.nets {
      OwnNetwork(rows, w.nets, id);
    }
    ReleasedAt(cfg, w.nets, id, f.netDelete);
    hide KillRun, Dropped, RowsOk, Quiet, NetsOwned, NamespaceName, Released;
    var r := KillRun(cfg, w, id, f);
    OwnedAfterIff(rows, w.nets, r.world.store.rows, r.world.nets, id, own);
  }

  // ---------- what goes wrong, on examples ----------

  const EXAMPLE_CONFIG := Config(true, Ipv4(0, 24), Ipv4(0, 24), "g", "w", "m")

  // One running sandbox with slot 1 and its network.
  const EXAMPLE_WORLD := EMPTY_WORLD.(store := Tables(map["a" := Record(Running, 1, false, "", "")], []), nets := map["nb-a" := 1])

  const UP_FINE := BringUpFaults(false, false, false, false, false, false, false)

  const CREATE_FINE := CreateFaults(false, false, PrepareFaults(false, false, false, false), "", false,
                                    RemoveFaults(false, false), false, false, UP_FINE, RemoveFaults(false, false))

  lemma ExampleIsTidy()
    ensures EXAMPLE_CONFIG.Valid() && Tidy(EXAMPLE_CONFIG, EXAMPLE_WORLD) && Tidy(EXAMPLE_CONFIG, EMPTY_WORLD)
  {
    assert Pow2(8) == 256;
    assert MaxSlots(EXAMPLE_CONFIG.hostAccess, EXAMPLE_CONFIG.veth) == Ok(127);
    hide MaxSlots, Pow2;
    assert Owns(EXAMPLE_WORLD.store.rows, "a", "nb-a", 1);
  }

  // Killed while its directory cannot be removed, it leaves its network behind.
  lemma KillCanLeaveNetwork()
    ensures EXAMPLE_CONFIG.Valid()
    ensures var left := KillRun(EXAMPLE_CONFIG, EXAMPLE_WORLD, "a", KillFaults(RemoveFaults(false, false), true, false)).world;
            left.store.rows == map[] && left.nets == map["nb-a" := 1]
  {
    ExampleIsTidy();
    hide KillRun, MaxSlots, Cidr.Size, Cidr.Valid, Pow2;
    KillEffect(EXAMPLE_CONFIG, EXAMPLE_WORLD, "a", KillFaults(RemoveFaults(false, false), true, false));
    assert EXAMPLE_WORLD.store.rows - {"a"} == map[];
  }

  // Stopped while its namespace cannot be deleted, it holds no slot and still has a network.
  lemma StopCanLeaveNetwork()
    ensures EXAMPLE_CONFIG.Valid()
    ensures var r := StopRun(EXAMPLE_CONFIG, EXAMPLE_WORLD, "a", ActionFaults(false, false, true, false));
            r.ok && r.world.store.rows == map["a" := Record(Stopped, 0, false, "", "")] && r.world.nets == map["nb-a" := 1]
  {
    ExampleIsTidy();
    hide ActionRun, MaxSlots, Cidr.Size, Cidr.Valid, Pow2;
    ActionOutcome(EXAMPLE_CONFIG, EXAMPLE_WORLD, "a", Stop, ActionFaults(false, false, true, false));
  }

  // Created with a namespace of the request's own, it leaves that namespace without a record.
  lemma ForeignNamespaceCanStay()
    ensures EXAMPLE_CONFIG.Valid()
    ensures var req := CreateRequest("a", false, None, "", Some(Fields("mine", "", "", "", Unset, "", 0)));
            var r := CreateRun(EXAMPLE_CONFIG, EMPTY_WORLD, req, CREATE_FINE);
            "mine" in r.world.nets && !Tidy(EXAMPLE_CONFIG, r.world)
  {
    ExampleIsTidy();
    var req := CreateRequest("a", false, None, "", Some(Fields("mine", "", "", "", Unset, "", 0)));
    ForeignExample(req);
    hide CreateRun, CreateEntry, MaxSlots, Cidr.Size, Cidr.Valid, Pow2;
    AcceptedCreate(EXAMPLE_CONFIG, EMPTY_WORLD, req, CREATE_FINE);
    forall id
      ensures "mine" != NamespaceName(id)
    {
      assert NamespaceName(id)[0] == 'n';
    }
    ForeignNamespaceLeaks(EXAMPLE_CONFIG, EMPTY_WORLD, req, CREATE_FINE);
  }

  lemma FirstSlotIsOne(rows: Rows)
    requires rows == map["a" := Record(Creating, 0, false, "", "")]
    ensures EXAMPLE_CONFIG.Valid() && GivenSlot(EXAMPLE_CONFIG, rows, "a") == Ok(1)
  {
    ExampleIsTidy();
    assert MaxSlots(EXAMPLE_CONFIG.hostAccess, EXAMPLE_CONFIG.veth) == Ok(127) by {
      assert Pow2(8) == 256;
    }
    hide MaxSlots, Cidr.Valid, Pow2;
    assert UsedSlots(rows) == {};
  }

  lemma MinePrepares(spec: Fields)
    requires spec.namespaceName == "mine" && spec.hostAccessIp == V4(1)
    ensures EXAMPLE_CONFIG.Valid() && Prepared(EXAMPLE_CONFIG, Some(spec), false) == Some(Entry("mine", 1))
  {
    assert Pow2(8) == 256;
  }

  lemma ForeignExample(req: CreateRequest)
    requires req == CreateRequest("a", false, None, "", Some(Fields("mine", "", "", "", Unset, "", 0)))
    ensures EXAMPLE_CONFIG.Valid() && CreateEntry(EXAMPLE_CONFIG, EMPTY_WORLD, req, CREATE_FINE) == Some(Entry("mine", 1))
  {
    ExampleIsTidy();
    var rows := map["a" := NewRecord(req)];
    FirstSlotIsOne(rows);
    InsertOk(EXAMPLE_CONFIG, EMPTY_WORLD, req);
    assert EMPTY_WORLD.store.rows[req.id := NewRecord(req)] == rows;
    AssignEffect(EXAMPLE_CONFIG, Ask(EMPTY_WORLD, Created(EMPTY_WORLD.store, req.id, NewRecord(req))).world, "a");
    assert IndexedIP(EXAMPLE_CONFIG.hostAccess, 1) == Ok(1) by {
      assert Pow2(8) == 256;
    }
    hide GivenSlot, AssignNetwork, Prepared, MaxSlots, IndexedIP, Cidr.Valid, Cidr.Size, Pow2, RowsOk;
    MinePrepares(CreateNetwork(EXAMPLE_CONFIG, req, 1).value);
  }

  // ---------- runs ----------

  // Whether a request leaves a network without a record of its slot.
  ghost predicate Leaks(cfg: Config, w: World, r: Request)
    requires cfg.Valid()
  {
    match r
    case DoCreate(req, f) => CreateLeaks(cfg, w, req, f)
    case DoStart(id, f) => id in w.store.rows && UpLeaks(cfg, w, id, RootfsMounts(w, id, f), f.up)
    case DoResume(id, f) => id in w.store.rows && UpLeaks(cfg, w, id, true, f)
    case DoAction(id, action, f) => id in w.store.rows && ActionLeaks(w, id, action, f)
    case DoKill(id, f) => id in w.store.rows && KillLeaks(w, id, f)
  }

  lemma AbsentIsRefused(cfg: Config, w: World, r: Request)
    requires cfg.Valid() && !r.DoCreate? && r.id !in w.store.rows
    ensures Handle(cfg, w, r) == Tried(w, false)
  {
    hide SetState, AssignNetwork, BringUpRun, FinishRun, DropRootfs;
  }

  lemma HandleTidy(cfg: Config, w: World, r: Request)
    requires cfg.Valid() && RowsTidy(cfg, w.store.rows)
    ensures RowsTidy(cfg, Handle(cfg, w, r).world.store.rows)
  {
    if !r.DoCreate? && r.id !in w.store.rows {
      AbsentIsRefused(cfg, w, r);
    } else {
      hide RowsTidy, CreateRun, StartRun, ResumeRun, ActionRun, StopRun, KillRun;
      match r
      case DoCreate(req, f) => CreateTidy(cfg, w, req, f);
      case DoStart(id, f) => StartTidy(cfg, w, id, f);
      case DoResume(id, f) => ResumeTidy(cfg, w, id, f);
      case DoAction(id, action, f) =>
        ActionTidy(cfg, w, id, action, f);
        StopIsAction(cfg, w, id, f);
      case DoKill(id, f) => KillTidy(cfg, w, id, f);
    }
  }

  lemma HandleTidyIff(cfg: Config, w: World, r: Request)
    requires cfg.Valid() && Tidy(cfg, w)
    ensures Tidy(cfg, Handle(cfg, w, r).world) <==> !Leaks(cfg, w, r)
  {
    if !r.DoCreate? && r.id !in w.store.rows {
      AbsentIsRefused(cfg, w, r);
    } else {
      hide RowsTidy, NetsOwned, CreateRun, StartRun, ResumeRun, ActionRun, StopRun, KillRun,
           CreateLeaks, UpLeaks, ActionLeaks, KillLeaks, RootfsMounts;
      match r
      case DoCreate(req, f) => CreateTidyIff(cfg, w, req, f);
      case DoStart(id, f) => StartTidyIff(cfg, w, id, f);
      case DoResume(id, f) => ResumeTidyIff(cfg, w, id, f);
      case DoAction(id, action, f) =>
        ActionTidyIff(cfg, w, id, action, f);
        StopIsAction(cfg, w, id, f);
      case DoKill(id, f) => KillTidyIff(cfg, w, id, f);
    }
  }

  // At every operation boundary of every run, whatever fails: positive slots are unique and
  // in range, and stopped and paused sandboxes hold none.
  lemma {:induction false} EveryRunKeepsRows(cfg: Config, w: World, requests: seq<Request>)
    requires cfg.Valid() && RowsTidy(cfg, w.store.rows)
    ensures RowsTidy(cfg, HandleAll(cfg, w, requests).store.rows)
  {
    hide Handle, RowsTidy;
    if requests != [] {
      EveryRunKeepsRows(cfg, w, requests[..|requests| - 1]);
      HandleTidy(cfg, HandleAll(cfg, w, requests[..|requests| - 1]), requests[|requests| - 1]);
    }
  }

  // No request of the run leaks at its own turn.
  ghost predicate NeverLeaks(cfg: Config, w: World, requests: seq<Request>)
    requires cfg.Valid()
  {
    requests == []
    || (var before := requests[..|requests| - 1];
        NeverLeaks(cfg, w, before) && !Leaks(cfg, HandleAll(cfg, w, before), requests[|requests| - 1]))
  }

  // Tidy after every request of the run.
  ghost predicate AlwaysTidy(cfg: Config, w: World, requests: seq<Request>)
    requires cfg.Valid()
  {
    Tidy(cfg, HandleAll(cfg, w, requests)) && (requests == [] || AlwaysTidy(cfg, w, requests[..|requests| - 1]))
  }

  // And at every boundary each prepared network belongs to a record with that slot, so that
  // stopped and paused sandboxes have none, exactly when no request on the way leaks.
  lemma {:induction false} EveryRunIsTidyIff(cfg: Config, w: World, requests: seq<Request>)
    requires cfg.Valid() && Tidy(cfg, w)
    ensures AlwaysTidy(cfg, w, requests) <==> NeverLeaks(cfg, w, requests)
  {
    hide Handle, Tidy, Leaks;
    if requests != [] {
      var before := requests[..|requests| - 1];
      EveryRunIsTidyIff(cfg, w, before);
      if AlwaysTidy(cfg, w, before) {
        AlwaysTidyEnds(cfg, w, before);
        HandleTidyIff(cfg, HandleAll(cfg, w, before), requests[|requests| - 1]);
      }
    }
  }

  lemma AlwaysTidyEnds(cfg: Config, w: World, requests: seq<Request>)
    requires cfg.Valid() && AlwaysTidy(cfg, w, requests)
    ensures Tidy(cfg, HandleAll(cfg, w, requests))
  {
  }

  lemma QuietHasNoNetwork(cfg: Config, w: World, id: Id)
    requires cfg.Valid() && Tidy(cfg, w) && id in w.store.rows && w.store.rows[id].state in {Stopped, Paused}
    ensures w.store.rows[id].slot == 0 && NamespaceName(id) !in w.nets
  {
    hide RowsOk;
    NoSlotNoNetwork(w.store.rows, w.nets, id);
  }

  // The network goes when it is told to: namespaces can be deleted, kill can remove the
  // directory, and no create request names an address or namespace of its own.
  predicate Cooperative(r: Request) {
    match r
    case DoCreate(req, f) => !f.up.netDelete && LeavesNetworkToBoxlet(req)
    case DoStart(_, f) => !f.up.netDelete
    case DoResume(_, f) => !f.netDelete
    case DoAction(_, _, f) => !f.netDelete
    case DoKill(_, f) => !f.netDelete && !f.removeDir
  }

  lemma CooperativeNeverLeaks(cfg: Config, w: World, r: Request)
    requires cfg.Valid() && Tidy(cfg, w) && Cooperative(r)
    ensures !Leaks(cfg, w, r)
  {
    hide CreateLeaks, RootfsMounts, Tidy, Dropped, GivesUp;
    if r.DoCreate? {
      LeftToBoxletLeaksIff(cfg, w, r.create, r.createFaults);
    }
  }

  // In particular when the network always goes when told to.
  lemma {:induction false} EveryRunIsTidy(cfg: Config, w: World, requests: seq<Request>)
    requires cfg.Valid() && Tidy(cfg, w) && forall r :: r in requests ==> Cooperative(r)
    ensures Tidy(cfg, HandleAll(cfg, w, requests))
  {
    hide Handle, Cooperative, Tidy, Leaks;
    if requests != [] {
      var before, last := requests[..|requests| - 1], requests[|requests| - 1];
      assert last in requests;
      EveryRunIsTidy(cfg, w, before);
      CooperativeNeverLeaks(cfg, HandleAll(cfg, w, before), last);
      HandleTidyIff(cfg, HandleAll(cfg, w, before), last);
    }
  }
}

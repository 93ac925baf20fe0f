// What the sandbox handlers of boxlet do, as functions of the world they start in.
module Lifecycle {
  import opened Machine
  import opened Network
  import opened NetworkSpecs
  import opened SandboxStore
  import opened World

  datatype Source = Source(provider: string, image: string, pullMode: string)

  // rootfsPath and network are the parts of the caller's own runtime spec that matter here.
  datatype CreateRequest = CreateRequest(id: Id, container: bool, source: Option<Source>,
                                         rootfsPath: string, network: Option<Fields>)
  {
    predicate SourceAccepted() {
      source.Some? ==> container && source.value.provider == "overlaybd" && source.value.image != ""
                       && source.value.pullMode in {"", "lazy"}
    }

    // Where the overlaybd rootfs goes; the handlers' own handle always says DefaultTarget.
    function Target(): string {
      if rootfsPath == "" then DefaultTarget(id) else rootfsPath
    }
  }

  datatype BringUpFaults = BringUpFaults(dial: bool, attach: bool, netAdd: bool, netConfigure: bool,
                                         runtime: bool, agent: bool, netDelete: bool)

  datatype CreateFaults = CreateFaults(mkdir: bool, files: bool, prepare: PrepareFaults, digest: string,
                                       inject: bool, injectUndo: RemoveFaults, snapshotDirs: bool,
                                       shim: bool, up: BringUpFaults, undo: RemoveFaults)

  datatype StartFaults = StartFaults(mount: bool, up: BringUpFaults, undoUnmount: bool)

  datatype ActionFaults = ActionFaults(dial: bool, call: bool, netDelete: bool, unmount: bool)

  datatype KillFaults = KillFaults(remove: RemoveFaults, removeDir: bool, netDelete: bool)

  // ---------- create ----------

  function NewRecord(req: CreateRequest): Record {
    Record(Creating, 0, req.source.Some?, if req.source.Some? then SnapshotKey(req.id) else "", "")
  }

  // prepareSandboxRuntimeFiles
  function PrepareFiles(w: World, req: CreateRequest, f: CreateFaults): Tried {
    if f.files then Tried(w, false)
    else if req.source.None? then Tried(w, true)
    else
      var p := PrepareRootfs(w, req.id, req.source.value.image, req.Target(), f.prepare);
      if !p.ok then p
      else
        var d := if f.digest == "" then Answered(p.world, Done)
                 else Ask(p.world, DigestUpdated(p.world.store, req.id, f.digest));
        if d.outcome.Rejected? || f.inject then
          Tried(RemoveRootfs(d.world, SnapshotKey(req.id), req.Target(), f.injectUndo).world, false)
        else Tried(d.world, true)
  }

  function MarkCreateFailed(w: World, id: Id): World {
    Ask(w, StateUpdated(w.store, id, Creating, Failed, "create")).world
  }

  function FailCreate(cfg: Config, w: World, id: Id, slot: uint32, f: BringUpFaults): World
    requires cfg.Valid()
  {
    ReleaseNetwork(cfg, MarkCreateFailed(w, id), id, slot, f.netDelete).world
  }

  // completeRuntimeSpec, the network part.
  function CreateNetwork(cfg: Config, req: CreateRequest, slot: uint32): Option<Fields>
    requires cfg.Valid()
  {
    if slot == 0 then req.network
    else
      var done := Completed(cfg, req.id, slot, req.network);
      if done.Ok? then done.value else req.network
  }

  // Everything after the runtime files are there.
  function LaunchRun(cfg: Config, w: World, req: CreateRequest, slot: uint32, f: CreateFaults): Tried
    requires cfg.Valid()
  {
    if f.snapshotDirs then Tried(FailCreate(cfg, w, req.id, slot, f.up), false)
    else
      var n := PrepareNetwork(cfg, w, CreateNetwork(cfg, req, slot), f.up.netAdd, f.up.netConfigure);
      if !n.ok || f.shim || f.up.dial || f.up.runtime || f.up.agent then
        Tried(FailCreate(cfg, n.world, req.id, slot, f.up), false)
      else
        var u := Ask(n.world, StateUpdated(n.world.store, req.id, Creating, Running, "create"));
        Tried(u.world, !u.outcome.Rejected?)
  }

  // The deferred undo: only once the runtime files are there, and at the default target.
  function UndoRootfs(t: Tried, req: CreateRequest, f: CreateFaults): Tried {
    if t.ok || req.source.None? then t
    else Tried(RemoveRootfs(t.world, SnapshotKey(req.id), DefaultTarget(req.id), f.undo).world, false)
  }

  function CreateRun(cfg: Config, w: World, req: CreateRequest, f: CreateFaults): Tried
    requires cfg.Valid()
  {
    if req.id == "" || f.mkdir || !req.SourceAccepted() then Tried(w, false)
    else
      var c := Ask(w, Created(w.store, req.id, NewRecord(req)));
      if c.outcome.Rejected? then Tried(c.world, false)
      else
        var a := AssignNetwork(cfg, c.world, req.id);
        if a.result.Err? then Tried(MarkCreateFailed(a.world, req.id), false)
        else
          var p := PrepareFiles(a.world, req, f);
          if !p.ok then Tried(FailCreate(cfg, p.world, req.id, a.result.value, f.up), false)
          else UndoRootfs(LaunchRun(cfg, p.world, req, a.result.value, f), req, f)
  }

  // Whether create gets as far as to have its runtime files in place.
  predicate FilesReady(cfg: Config, w: World, req: CreateRequest, f: CreateFaults)
    requires cfg.Valid()
  {
    && req.id != "" && !f.mkdir && req.SourceAccepted()
    && var c := Ask(w, Created(w.store, req.id, NewRecord(req)));
       && !c.outcome.Rejected?
       && var a := AssignNetwork(cfg, c.world, req.id);
          a.result.Ok? && PrepareFiles(a.world, req, f).ok
  }

  // ---------- start and resume ----------

  function FailAndRelease(cfg: Config, w: World, id: Id, slot: uint32, action: string, f: BringUpFaults): World
    requires cfg.Valid()
  {
    ReleaseNetwork(cfg, SetState(w, id, Failed, action).world, id, slot, f.netDelete).world
  }

  // runtimeSpecForSandbox, the network part.
  function SandboxNetwork(cfg: Config, id: Id, slot: uint32): Option<Fields>
    requires cfg.Valid()
  {
    var spec := SpecForSlot(cfg, id, slot);
    if slot > 0 && spec.Ok? then spec.value else None
  }

  // From dialling the shim to the running state, shared by start and resume.
  function BringUpRun(cfg: Config, w: World, id: Id, slot: uint32, action: string, f: BringUpFaults): Tried
    requires cfg.Valid()
  {
    if f.dial || f.attach then Tried(FailAndRelease(cfg, w, id, slot, action, f), false)
    else
      var n := PrepareNetwork(cfg, w, SandboxNetwork(cfg, id, slot), f.netAdd, f.netConfigure);
      if !n.ok || f.runtime || f.agent then Tried(FailAndRelease(cfg, n.world, id, slot, action, f), false)
      else SetState(n.world, id, Running, action)
  }

  function ResumeRun(cfg: Config, w: World, id: Id, f: BringUpFaults): Tried
    requires cfg.Valid()
  {
    if id !in w.store.rows then Tried(w, false)
    else
      var s := SetState(w, id, Resuming, "resume");
      if !s.ok then s
      else
        var a := AssignNetwork(cfg, s.world, id);
        if a.result.Err? then Tried(SetState(a.world, id, Failed, "resume").world, false)
        else BringUpRun(cfg, a.world, id, a.result.value, "resume", f)
  }

  function StartRun(cfg: Config, w: World, id: Id, f: StartFaults): Tried
    requires cfg.Valid()
  {
    if id !in w.store.rows then Tried(w, false)
    else
      var record := w.store.rows[id];
      var s := SetState(w, id, Starting, "start");
      if !s.ok then s
      else
        var a := AssignNetwork(cfg, s.world, id);
        if a.result.Err? then Tried(SetState(a.world, id, Failed, "start").world, false)
        else if !record.overlayBD then BringUpRun(cfg, a.world, id, a.result.value, "start", f.up)
        else
          var m := MountRootfs(a.world, record.snapshotKey, DefaultTarget(id), f.mount);
          if !m.ok then Tried(FailAndRelease(cfg, m.world, id, a.result.value, "start", f.up), false)
          else
            var b := BringUpRun(cfg, m.world, id, a.result.value, "start", f.up);
            if b.ok then b else Tried(Unmount(b.world, DefaultTarget(id), f.undoUnmount).world, false)
  }

  // ---------- pause, stop and reboot ----------

  // The states an action passes through, ends in, and whether it gives up its slot
  // (as the final states stopped, paused and killed do).
  datatype Action = Pause | Stop | Reboot {
    function Transition(): State {
      match this case Pause => Pausing case Stop => Stopping case Reboot => Rebooting
    }

    function Final(): State {
      match this case Pause => Paused case Stop => Stopped case Reboot => Running
    }

    function Name(): string {
      match this case Pause => "pause" case Stop => "stop" case Reboot => "reboot"
    }

    predicate EndsNetwork() {
      Final() == Stopped || Final() == Paused || Final() == Killed
    }
  }

  // slot is the one the record had when the handler read it.
  function FinishRun(cfg: Config, w: World, id: Id, slot: uint32, action: Action, f: ActionFaults): Tried
    requires cfg.Valid()
  {
    if f.dial || f.call then Tried(SetState(w, id, Failed, action.Name()).world, false)
    else
      var done := SetState(w, id, action.Final(), action.Name());
      if !done.ok || !action.EndsNetwork() then done else ReleaseNetwork(cfg, done.world, id, slot, f.netDelete)
  }

  // runtimeAction; pause has the same steps around a different call.
  function ActionRun(cfg: Config, w: World, id: Id, action: Action, f: ActionFaults): Tried
    requires cfg.Valid()
  {
    if id !in w.store.rows then Tried(w, false)
    else
      var slot := w.store.rows[id].slot;
      var s := SetState(w, id, action.Transition(), action.Name());
      if !s.ok then s else FinishRun(cfg, s.world, id, slot, action, f)
  }

  function PauseRun(cfg: Config, w: World, id: Id, f: ActionFaults): Tried
    requires cfg.Valid()
  {
    ActionRun(cfg, w, id, Pause, f)
  }

  function RebootRun(cfg: Config, w: World, id: Id, f: ActionFaults): Tried
    requires cfg.Valid()
  {
    ActionRun(cfg, w, id, Reboot, f)
  }

  function StopRun(cfg: Config, w: World, id: Id, f: ActionFaults): Tried
    requires cfg.Valid()
  {
    var a := ActionRun(cfg, w, id, Stop, f);
    if !a.ok || id !in a.world.store.rows || !a.world.store.rows[id].overlayBD then a
    else Unmount(a.world, DefaultTarget(id), f.unmount)
  }

  // ---------- kill ----------

  // removeOverlayBDRootfs
  function DropRootfs(w: World, id: Id, record: Record, f: RemoveFaults): Tried {
    if !record.overlayBD || record.snapshotKey == "" then Tried(w, true)
    else RemoveRootfs(w, record.snapshotKey, DefaultTarget(id), f)
  }

  // Whether the shim answers makes no difference to what is modelled here.
  function KillRun(cfg: Config, w: World, id: Id, f: KillFaults): Tried
    requires cfg.Valid()
  {
    if id !in w.store.rows then Tried(w, false)
    else
      var record := w.store.rows[id];
      var s := SetState(w, id, Killing, "kill");
      if !s.ok then s
      else
        var d := DropRootfs(s.world, id, record, f.remove);
        if !d.ok then d
        else
          var k := SetState(d.world, id, Killed, "kill");
          if !k.ok then k
          else
            var gone := Ask(k.world, Deleted(k.world.store, id));
            if gone.outcome.Rejected? || f.removeDir then Tried(gone.world, false)
            else Tried(ReleaseNetwork(cfg, gone.world, id, record.slot, f.netDelete).world, true)
  }

  // ---------- runs ----------

  datatype Request = DoCreate(create: CreateRequest, createFaults: CreateFaults)
                   | DoStart(id: Id, startFaults: StartFaults)
                   | DoResume(id: Id, upFaults: BringUpFaults)
                   | DoAction(id: Id, action: Action, actionFaults: ActionFaults)
                   | DoKill(id: Id, killFaults: KillFaults)

  function Handle(cfg: Config, w: World, r: Request): Tried
    requires cfg.Valid()
  {
    match r
    case DoCreate(req, f) => CreateRun(cfg, w, req, f)
    case DoStart(id, f) => StartRun(cfg, w, id, f)
    case DoResume(id, f) => ResumeRun(cfg, w, id, f)
    case DoAction(id, action, f) => if action == Stop then StopRun(cfg, w, id, f) else ActionRun(cfg, w, id, action, f)
    case DoKill(id, f) => KillRun(cfg, w, id, f)
  }

  function HandleAll(cfg: Config, w: World, requests: seq<Request>): World
    requires cfg.Valid()
  {
    if requests == [] then w
    else Handle(cfg, HandleAll(cfg, w, requests[..|requests| - 1]), requests[|requests| - 1]).world
  }
}

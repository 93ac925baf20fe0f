// The handlers reach the store only through calls of the kind StoreRuns reasons about.
module BoxletLog {
  import opened Machine
  import opened NetworkSpecs
  import opened SandboxStore
  import opened StoreRuns
  import opened World
  import opened Lifecycle
  import opened LifecycleRuns
  import Slots

  // How often the calls put a record of this id into the table.
  function Births(t: Tables, calls: seq<Call>, me: Id): nat {
    if calls == [] then 0
    else
      var before, last := calls[..|calls| - 1], calls[|calls| - 1];
      Births(t, before, me)
      + if last.op.Create? && last.op.id == me && !Step(Run(t, before), last).outcome.Rejected? then 1 else 0
  }

  // The record is killed whenever it is deleted.
  predicate KilledFirst(t: Tables, calls: seq<Call>, me: Id) {
    calls == []
    || (var before, last := calls[..|calls| - 1], calls[|calls| - 1];
        && KilledFirst(t, before, me)
        && (last.op == Delete(me) && me in Run(t, before).rows && !last.dbFails ==> Run(t, before).rows[me].state == Killed))
  }

  // Some calls as boxlet makes them lead from the one store to the other.
  ghost predicate ByCalls(t: Tables, t': Tables, me: Id, births: nat) {
    exists calls :: BoxletCalls(calls) && Run(t, calls) == t' && KilledFirst(t, calls, me) && Births(t, calls, me) == births
  }

  lemma {:induction false} RunJoins(t: Tables, a: seq<Call>, b: seq<Call>, me: Id)
    requires KilledFirst(t, a, me) && KilledFirst(Run(t, a), b, me)
    ensures Run(t, a + b) == Run(Run(t, a), b) && KilledFirst(t, a + b, me)
    ensures Births(t, a + b, me) == Births(t, a, me) + Births(Run(t, a), b, me)
  {
    hide Step;
    if b == [] {
      assert a + b == a;
    } else {
      assert (a + b)[..|a + b| - 1] == a + b[..|b| - 1] && (a + b)[|a + b| - 1] == b[|b| - 1];
      RunJoins(t, a, b[..|b| - 1], me);
    }
  }

  lemma Stay(t: Tables, me: Id)
    ensures ByCalls(t, t, me, 0)
  {
    assert BoxletCalls([]) && Run(t, []) == t && KilledFirst(t, [], me) && Births(t, [], me) == 0;
  }

  lemma Join(a: Tables, b: Tables, c: Tables, me: Id, m: nat, n: nat)
    requires ByCalls(a, b, me, m) && ByCalls(b, c, me, n)
    ensures ByCalls(a, c, me, m + n)
  {
    var first :| BoxletCalls(first) && Run(a, first) == b && KilledFirst(a, first, me) && Births(a, first, me) == m;
    var second :| BoxletCalls(second) && Run(b, second) == c && KilledFirst(b, second, me) && Births(b, second, me) == n;
    RunJoins(a, first, second, me);
    hide Run, KilledFirst, Births;
    assert BoxletCalls(first + second);
  }

  // A single call; a deletion asks for a killed record.
  lemma OneCall(t: Tables, op: Op, me: Id)
    requires BoxletOp(op) && (op.Delete? && op.id in t.rows ==> t.rows[op.id].state == Killed)
    ensures ByCalls(t, Effect(t, op).tables, me,
                    if op.Create? && op.id == me && !Effect(t, op).outcome.Rejected? then 1 else 0)
  {
    var calls := [Call(op, false)];
    assert calls[..0] == [];
    hide Effect;
    assert BoxletCalls(calls);
    assert Run(t, []) == t && KilledFirst(t, [], me) && Births(t, [], me) == 0;
    assert Run(t, calls) == Effect(t, op).tables && KilledFirst(t, calls, me);
  }

  lemma SetStateCalls(me: Id, w: World, id: Id, to: State, action: string)
    requires to != Creating
    ensures ByCalls(w.store, SetState(w, id, to, action).world.store, me, 0)
  {
    hide StateUpdated, ByCalls;
    Stay(w.store, me);
    if id in w.store.rows {
      OneCall(w.store, UpdateState(id, w.store.rows[id].state, to, action), me);
    }
  }

  lemma AssignCalls(me: Id, cfg: Config, w: World, id: Id)
    requires cfg.Valid()
    ensures ByCalls(w.store, AssignNetwork(cfg, w, id).world.store, me, 0)
  {
    hide Network.MaxSlots, SlotAssigned, ByCalls;
    Stay(w.store, me);
    var most := Network.MaxSlots(cfg.hostAccess, cfg.veth);
    if most.Ok? {
      OneCall(w.store, AssignSlot(id, most.value), me);
    }
  }

  lemma ReleaseCalls(me: Id, cfg: Config, w: World, id: Id, slot: uint32, deleteFails: bool)
    requires cfg.Valid()
    ensures ByCalls(w.store, ReleaseNetwork(cfg, w, id, slot, deleteFails).world.store, me, 0)
  {
    hide SpecForSlot, SlotReleased, ByCalls;
    Stay(w.store, me);
    OneCall(w.store, ReleaseSlot(id), me);
  }

  lemma MarkCalls(me: Id, w: World, id: Id)
    ensures ByCalls(w.store, MarkCreateFailed(w, id).store, me, 0)
  {
    hide StateUpdated, ByCalls;
    OneCall(w.store, UpdateState(id, Creating, Failed, "create"), me);
  }

  lemma FailCreateCalls(me: Id, cfg: Config, w: World, id: Id, slot: uint32, f: BringUpFaults)
    requires cfg.Valid()
    ensures ByCalls(w.store, FailCreate(cfg, w, id, slot, f).store, me, 0)
  {
    hide MarkCreateFailed, ReleaseNetwork, ByCalls;
    MarkCalls(me, w, id);
    var m := MarkCreateFailed(w, id);
    ReleaseCalls(me, cfg, m, id, slot, f.netDelete);
    Join(w.store, m.store, FailCreate(cfg, w, id, slot, f).store, me, 0, 0);
  }

  lemma PrepareKeepsStore(cfg: Config, w: World, spec: Option<Fields>, addFails: bool, configureFails: bool)
    requires cfg.Valid()
    ensures PrepareNetwork(cfg, w, spec, addFails, configureFails).world.store == w.store
  {
    hide Network.SlotFromHostAccessIP, Network.VethAddrsForSlot;
  }

  lemma LaunchCalls(me: Id, cfg: Config, w: World, req: CreateRequest, slot: uint32, f: CreateFaults)
    requires cfg.Valid()
    ensures ByCalls(w.store, LaunchRun(cfg, w, req, slot, f).world.store, me, 0)
  {
    hide FailCreate, PrepareNetwork, CreateNetwork, StateUpdated, ByCalls;
    FailCreateCalls(me, cfg, w, req.id, slot, f.up);
    var spec := CreateNetwork(cfg, req, slot);
    PrepareKeepsStore(cfg, w, spec, f.up.netAdd, f.up.netConfigure);
    FailCreateCalls(me, cfg, PrepareNetwork(cfg, w, spec, f.up.netAdd, f.up.netConfigure).world, req.id, slot, f.up);
    OneCall(w.store, UpdateState(req.id, Creating, Running, "create"), me);
  }

  lemma FilesCalls(me: Id, w: World, req: CreateRequest, f: CreateFaults)
    ensures ByCalls(w.store, PrepareFiles(w, req, f).world.store, me, 0)
  {
    hide DigestUpdated, SnapshotKey, CreateRequest.Target, ByCalls;
    Stay(w.store, me);
    OneCall(w.store, UpdateDigest(req.id, f.digest), me);
  }

  // One birth for a create that is not refused.
  function BirthOf(w: World, req: CreateRequest, f: CreateFaults, me: Id): nat {
    if !Refused(w, req, f) && req.id == me then 1 else 0
  }

  lemma InsertIff(t: Tables, req: CreateRequest)
    ensures Created(t, req.id, NewRecord(req)).outcome.Rejected? <==> req.id in t.rows
  {
  }

  lemma CreateCalls(me: Id, cfg: Config, w: World, req: CreateRequest, f: CreateFaults)
    requires cfg.Valid()
    ensures ByCalls(w.store, CreateRun(cfg, w, req, f).world.store, me, BirthOf(w, req, f, me))
  {
    hide Created, AssignNetwork, PrepareFiles, FailCreate, LaunchRun, MarkCreateFailed, ByCalls, NewRecord,
         CreateRequest.SourceAccepted;
    Stay(w.store, me);
    NewIsCreating(req);
    InsertIff(w.store, req);
    OneCall(w.store, Create(req.id, NewRecord(req)), me);
    var n: nat := if req.id == me && req.id !in w.store.rows then 1 else 0;
    var c := Ask(w, Created(w.store, req.id, NewRecord(req)));
    var a := AssignNetwork(cfg, c.world, req.id);
    AssignCalls(me, cfg, c.world, req.id);
    Join(w.store, c.world.store, a.world.store, me, n, 0);
    MarkCalls(me, a.world, req.id);
    Join(w.store, a.world.store, MarkCreateFailed(a.world, req.id).store, me, n, 0);
    if a.result.Ok? {
      var p := PrepareFiles(a.world, req, f);
      FilesCalls(me, a.world, req, f);
      Join(w.store, a.world.store, p.world.store, me, n, 0);
      FailCreateCalls(me, cfg, p.world, req.id, a.result.value, f.up);
      Join(w.store, p.world.store, FailCreate(cfg, p.world, req.id, a.result.value, f.up).store, me, n, 0);
      LaunchCalls(me, cfg, p.world, req, a.result.value, f);
      Join(w.store, p.world.store, LaunchRun(cfg, p.world, req, a.result.value, f).world.store, me, n, 0);
    }
  }

  lemma FailCalls(me: Id, cfg: Config, w: World, id: Id, slot: uint32, action: string, f: BringUpFaults)
    requires cfg.Valid()
    ensures ByCalls(w.store, FailAndRelease(cfg, w, id, slot, action, f).store, me, 0)
  {
    hide SetState, ReleaseNetwork, ByCalls;
    SetStateCalls(me, w, id, Failed, action);
    var s := SetState(w, id, Failed, action);
    ReleaseCalls(me, cfg, s.world, id, slot, f.netDelete);
    Join(w.store, s.world.store, FailAndRelease(cfg, w, id, slot, action, f).store, me, 0, 0);
  }

  lemma BringUpCalls(me: Id, cfg: Config, w: World, id: Id, slot: uint32, action: string, f: BringUpFaults)
    requires cfg.Valid()
    ensures ByCalls(w.store, BringUpRun(cfg, w, id, slot, action, f).world.store, me, 0)
  {
    hide SetState, FailAndRelease, PrepareNetwork, SandboxNetwork, ByCalls;
    FailCalls(me, cfg, w, id, slot, action, f);
    var spec := SandboxNetwork(cfg, id, slot);
    PrepareKeepsStore(cfg, w, spec, f.netAdd, f.netConfigure);
    var n := PrepareNetwork(cfg, w, spec, f.netAdd, f.netConfigure);
    FailCalls(me, cfg, n.world, id, slot, action, f);
    SetStateCalls(me, n.world, id, Running, action);
  }

  lemma ResumeCalls(me: Id, cfg: Config, w: World, id: Id, f: BringUpFaults)
    requires cfg.Valid()
    ensures ByCalls(w.store, ResumeRun(cfg, w, id, f).world.store, me, 0)
  {
    hide SetState, AssignNetwork, BringUpRun, ByCalls;
    Stay(w.store, me);
    SetStateCalls(me, w, id, Resuming, "resume");
    var s := SetState(w, id, Resuming, "resume");
    AssignCalls(me, cfg, s.world, id);
    var a := AssignNetwork(cfg, s.world, id);
    Join(w.store, s.world.store, a.world.store, me, 0, 0);
    SetStateCalls(me, a.world, id, Failed, "resume");
    Join(w.store, a.world.store, SetState(a.world, id, Failed, "resume").world.store, me, 0, 0);
    if a.result.Ok? {
      BringUpCalls(me, cfg, a.world, id, a.result.value, "resume", f);
      Join(w.store, a.world.store, BringUpRun(cfg, a.world, id, a.result.value, "resume", f).world.store, me, 0, 0);
    }
  }

  lemma StartCalls(me: Id, cfg: Config, w: World, id: Id, f: StartFaults)
    requires cfg.Valid()
    ensures ByCalls(w.store, StartRun(cfg, w, id, f).world.store, me, 0)
  {
    hide SetState, AssignNetwork, BringUpRun, FailAndRelease, ByCalls;
    Stay(w.store, me);
    SetStateCalls(me, w, id, Starting, "start");
    var s := SetState(w, id, Starting, "start");
    AssignCalls(me, cfg, s.world, id);
    var a := AssignNetwork(cfg, s.world, id);
    Join(w.store, s.world.store, a.world.store, me, 0, 0);
    SetStateCalls(me, a.world, id, Failed, "start");
    Join(w.store, a.world.store, SetState(a.world, id, Failed, "start").world.store, me, 0, 0);
    if id in w.store.rows && a.result.Ok? {
      var slot := a.result.value;
      var m := MountRootfs(a.world, w.store.rows[id].snapshotKey, DefaultTarget(id), f.mount);
      BringUpCalls(me, cfg, a.world, id, slot, "start", f.up);
      Join(w.store, a.world.store, BringUpRun(cfg, a.world, id, slot, "start", f.up).world.store, me, 0, 0);
      BringUpCalls(me, cfg, m.world, id, slot, "start", f.up);
      Join(w.store, a.world.store, BringUpRun(cfg, m.world, id, slot, "start", f.up).world.store, me, 0, 0);
      FailCalls(me, cfg, m.world, id, slot, "start", f.up);
      Join(w.store, a.world.store, FailAndRelease(cfg, m.world, id, slot, "start", f.up).store, me, 0, 0);
    }
  }

  lemma ActionCalls(me: Id, cfg: Config, w: World, id: Id, action: Action, f: ActionFaults)
    requires cfg.Valid()
    ensures ByCalls(w.store, ActionRun(cfg, w, id, action, f).world.store, me, 0)
  {
    hide SetState, ReleaseNetwork, ByCalls;
    assert action.Final() != Creating && action.Transition() != Creating;
    hide Action.Final, Action.Transition, Action.Name, Action.EndsNetwork;
    Stay(w.store, me);
    SetStateCalls(me, w, id, action.Transition(), action.Name());
    var s := SetState(w, id, action.Transition(), action.Name());
    SetStateCalls(me, s.world, id, Failed, action.Name());
    Join(w.store, s.world.store, SetState(s.world, id, Failed, action.Name()).world.store, me, 0, 0);
    var done := SetState(s.world, id, action.Final(), action.Name());
    SetStateCalls(me, s.world, id, action.Final(), action.Name());
    Join(w.store, s.world.store, done.world.store, me, 0, 0);
    if id in w.store.rows {
      var slot := w.store.rows[id].slot;
      ReleaseCalls(me, cfg, done.world, id, slot, f.netDelete);
      Join(w.store, done.world.store, ReleaseNetwork(cfg, done.world, id, slot, f.netDelete).world.store, me, 0, 0);
    }
  }

  lemma KilledNow(w: World, id: Id)
    ensures id in w.store.rows ==>
              var k := SetState(w, id, Killed, "kill").world.store.rows;
              id in k && k[id].state == Killed
    ensures id !in w.store.rows ==> SetState(w, id, Killed, "kill").world == w
  {
  }

  lemma KillCalls(me: Id, cfg: Config, w: World, id: Id, f: KillFaults)
    requires cfg.Valid()
    ensures ByCalls(w.store, KillRun(cfg, w, id, f).world.store, me, 0)
  {
    hide SetState, ReleaseNetwork, Deleted, ByCalls;
    Stay(w.store, me);
    if id in w.store.rows {
      var record := w.store.rows[id];
      SetStateCalls(me, w, id, Killing, "kill");
      var s := SetState(w, id, Killing, "kill");
      var d := DropRootfs(s.world, id, record, f.remove);
      assert d.world.store == s.world.store;
      hide DropRootfs;
      SetStateCalls(me, d.world, id, Killed, "kill");
      var k := SetState(d.world, id, Killed, "kill");
      Join(w.store, d.world.store, k.world.store, me, 0, 0);
      KilledNow(d.world, id);
      OneCall(k.world.store, Delete(id), me);
      var gone := Ask(k.world, Deleted(k.world.store, id));
      Join(w.store, k.world.store, gone.world.store, me, 0, 0);
      ReleaseCalls(me, cfg, gone.world, id, record.slot, f.netDelete);
      Join(w.store, gone.world.store, ReleaseNetwork(cfg, gone.world, id, record.slot, f.netDelete).world.store, me, 0, 0);
    }
  }

  function BirthsOf(w: World, r: Request, me: Id): nat {
    if r.DoCreate? then BirthOf(w, r.create, r.createFaults, me) else 0
  }

  lemma HandleCalls(me: Id, cfg: Config, w: World, r: Request)
    requires cfg.Valid()
    ensures ByCalls(w.store, Handle(cfg, w, r).world.store, me, BirthsOf(w, r, me))
  {
    hide CreateRun, StartRun, ResumeRun, ActionRun, KillRun, ByCalls, BirthOf;
    match r
    case DoCreate(req, f) => CreateCalls(me, cfg, w, req, f);
    case DoStart(id, f) => StartCalls(me, cfg, w, id, f);
    case DoResume(id, f) => ResumeCalls(me, cfg, w, id, f);
    case DoAction(id, action, f) => ActionCalls(me, cfg, w, id, action, f);
    case DoKill(id, f) => KillCalls(me, cfg, w, id, f);
  }

  // How many of the requests put a sandbox of this id into the store.
  function Born(cfg: Config, w: World, requests: seq<Request>, me: Id): nat
    requires cfg.Valid()
  {
    if requests == [] then 0
    else
      var before := requests[..|requests| - 1];
      Born(cfg, w, before, me) + BirthsOf(HandleAll(cfg, w, before), requests[|requests| - 1], me)
  }

  // Every run of handlers is a run of store calls in which sandboxes start in creating,
  // never go back to it, and are killed before they are deleted.
  lemma {:induction false} RunsAreByCalls(me: Id, cfg: Config, w: World, requests: seq<Request>)
    requires cfg.Valid()
    ensures ByCalls(w.store, HandleAll(cfg, w, requests).store, me, Born(cfg, w, requests, me))
  {
    hide Handle, ByCalls, BirthsOf;
    if requests == [] {
      Stay(w.store, me);
    } else {
      var before, last := HandleAll(cfg, w, requests[..|requests| - 1]), requests[|requests| - 1];
      RunsAreByCalls(me, cfg, w, requests[..|requests| - 1]);
      HandleCalls(me, cfg, before, last);
      Join(w.store, before.store, Handle(cfg, before, last).world.store, me,
           Born(cfg, w, requests[..|requests| - 1], me), BirthsOf(before, last, me));
    }
  }

  // Every life but the one still going on has ended killed.
  ghost predicate EndedKilled(t: Tables, lives: seq<Life>, me: Id) {
    forall i :: 0 <= i < |lives| && (i < |lives| - 1 || me !in t.rows) ==> lives[i].end == Killed
  }

  lemma StepEndsKilled(t: Tables, lives: seq<Life>, call: Call, me: Id)
    requires Recorded(t, me, lives) && EndedKilled(t, lives, me)
    requires call.op == Delete(me) && me in t.rows && !call.dbFails ==> t.rows[me].state == Killed
    ensures var r := Step(t, call);
            && EndedKilled(r.tables, Observe(lives, me, call.op, r.outcome), me)
            && |Observe(lives, me, call.op, r.outcome)|
               == |lives| + if call.op.Create? && call.op.id == me && !r.outcome.Rejected? then 1 else 0
  {
    hide Listed, AllSteps, Path, Slots.FirstFree, UsedSlots;
  }

  lemma {:induction false} LivesEndKilled(t: Tables, calls: seq<Call>, me: Id)
    requires me !in t.rows && Listed(t.log, "sandbox", me) == [] && KilledFirst(t, calls, me)
    ensures EndedKilled(Run(t, calls), Lives(t, calls, me), me) && |Lives(t, calls, me)| == Births(t, calls, me)
  {
    hide Step, Observe, EndedKilled, Recorded;
    if calls != [] {
      var before, last := calls[..|calls| - 1], calls[|calls| - 1];
      LivesEndKilled(t, before, me);
      LogIsPathPerLife(t, before, me);
      StepEndsKilled(Run(t, before), Lives(t, before, me), last, me);
    } else {
      NoLives(t, me);
    }
  }

  lemma NoLives(t: Tables, me: Id)
    ensures EndedKilled(t, [], me)
  {
  }

  // A life that ended killed has left a trace.
  lemma KilledLeavesSteps(lives: seq<Life>)
    requires lives != [] && lives[|lives| - 1].IsPath() && lives[|lives| - 1].start == Creating && lives[|lives| - 1].end == Killed
    ensures AllSteps(lives) != []
  {
  }

  // After any requests the log of a sandbox that is there is one path from creating to its
  // state exactly when its id has been created once.
  lemma LifecycleLog(cfg: Config, w: World, requests: seq<Request>, id: Id)
    requires cfg.Valid() && w.store == Tables(map[], [])
    requires id in HandleAll(cfg, w, requests).store.rows
    ensures var now := HandleAll(cfg, w, requests).store;
            && Born(cfg, w, requests, id) >= 1
            && (Path(Listed(now.log, "sandbox", id), Creating, now.rows[id].state) <==> Born(cfg, w, requests, id) == 1)
  {
    RunsAreByCalls(id, cfg, w, requests);
    var now := HandleAll(cfg, w, requests).store;
    var calls :| BoxletCalls(calls) && Run(w.store, calls) == now && KilledFirst(w.store, calls, id)
                 && Births(w.store, calls, id) == Born(cfg, w, requests, id);
    assert Listed(w.store.log, "sandbox", id) == [];
    hide HandleAll, Run, Lives, Path, BoxletCalls, AllSteps, KilledFirst, Births, Born, Listed;
    LogIsPathPerLife(w.store, calls, id);
    LogIsPathIff(w.store, calls, id);
    LivesEndKilled(w.store, calls, id);
    BoxletLives(w.store, calls, id);
    var lives := Lives(w.store, calls, id);
    var earlier := lives[..|lives| - 1];
    if earlier != [] {
      var last := earlier[|earlier| - 1];
      assert last == lives[|lives| - 2] && last in lives && last.IsPath();
      KilledLeavesSteps(earlier);
    } else {
      NoSteps(earlier);
    }
  }

  lemma NoSteps(lives: seq<Life>)
    requires lives == []
    ensures AllSteps(lives) == []
  {
  }
}

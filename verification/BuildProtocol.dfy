// Template builds: any number of handlers racing on status rows by compare-and-swap.
module BuildProtocol {
  import opened Machine

  datatype Status = Waiting | Building | Ready | Error

  datatype Key = Key(template: string, build: string)

  type Rows = map<Key, Status>

  datatype Response = Accepted | NotFound | NotRetryable | Internal

  // Where a handler is.  Claimed: its swap into building succeeded.  Built and Broken: the
  // artifact call is behind it, its exit swap ahead.
  datatype Pc = Idle | Loaded(seen: Status) | Claimed | Built | Broken | Done(response: Response) | Crashed

  datatype Handler = Handler(key: Key, pc: Pc, artifactMade: bool) {
    // Between a successful swap into building and the exit swap.
    predicate Critical() {
      pc.Claimed? || pc.Built? || pc.Broken?
    }
  }

  // ever: the build ids there have been.
  datatype System = System(rows: Rows, handlers: seq<Handler>, ever: set<string>)

  // A status update may fail cleanly, or be applied and still be reported as failed.
  datatype Db = Works | Fails | AppliedButFails

  datatype Event = Arrive(key: Key)
                 | Load(i: nat, fails: bool)
                 | Claim(i: nat, db: Db)
                 | Call(i: nat, succeeds: bool)
                 | Finish(i: nat, db: Db)
                 | Abandon(i: nat, db: Db)
                 | Crash(i: nat)
                 | CreateBuild(key: Key)
                 | DeleteTemplate(template: string)

  // The row goes to a new status if it is there in the expected one.
  function Swapped(rows: Rows, key: Key, from: Status, to: Status, db: Db): Rows {
    if !db.Fails? && key in rows && rows[key] == from then rows[key := to] else rows
  }

  predicate SwapSucceeds(rows: Rows, key: Key, from: Status, db: Db) {
    db.Works? && key in rows && rows[key] == from
  }

  function AtLoad(rows: Rows, key: Key): Pc {
    if key !in rows then Done(NotFound)
    else if rows[key] == Waiting || rows[key] == Error then Loaded(rows[key])
    else Done(NotRetryable)
  }

  function Advance(s: System, i: nat, rows: Rows, pc: Pc): System
    requires i < |s.handlers|
  {
    s.(rows := rows, handlers := s.handlers[i := s.handlers[i].(pc := pc)])
  }

  // client: whether the API has an artifact client.
  function Step(client: bool, s: System, e: Event): System {
    match e
    case Arrive(key) => s.(handlers := s.handlers + [Handler(key, Idle, false)])
    case Load(i, fails) =>
      if i < |s.handlers| && s.handlers[i].pc.Idle?
      then Advance(s, i, s.rows, if fails then Done(Internal) else AtLoad(s.rows, s.handlers[i].key)) else s
    case Claim(i, db) =>
      if i < |s.handlers| && s.handlers[i].pc.Loaded? then
        var h := s.handlers[i];
        Advance(s, i, Swapped(s.rows, h.key, h.pc.seen, Building, db),
                if SwapSucceeds(s.rows, h.key, h.pc.seen, db) then Claimed else Done(Internal))
      else s
    case Call(i, succeeds) =>
      if i < |s.handlers| && s.handlers[i].pc.Claimed? then
        if !client then Advance(s, i, s.rows, Built)
        else s.(handlers := s.handlers[i := s.handlers[i].(pc := if succeeds then Built else Broken, artifactMade := succeeds)])
      else s
    case Finish(i, db) =>
      if i < |s.handlers| && s.handlers[i].pc.Built? then
        Advance(s, i, Swapped(s.rows, s.handlers[i].key, Building, Ready, db),
                Done(if SwapSucceeds(s.rows, s.handlers[i].key, Building, db) then Accepted else Internal))
      else s
    case Abandon(i, db) =>
      if i < |s.handlers| && s.handlers[i].pc.Broken?
      then Advance(s, i, Swapped(s.rows, s.handlers[i].key, Building, Error, db), Done(Internal)) else s
    case Crash(i) => if i < |s.handlers| then Advance(s, i, s.rows, Crashed) else s
    case CreateBuild(key) =>
      if key.build in s.ever then s else s.(rows := s.rows[key := Waiting], ever := s.ever + {key.build})
    case DeleteTemplate(template) => s.(rows := map key | key in s.rows && key.template != template :: s.rows[key])
  }

  function Run(client: bool, s: System, events: seq<Event>): System {
    if events == [] then s else Step(client, Run(client, s, events[..|events| - 1]), events[|events| - 1])
  }

  const NOTHING := System(map[], [], {})

  // ---------- the invariant ----------

  // While a handler is critical its row is building or deleted.
  ghost predicate HandlerOk(client: bool, s: System, h: Handler) {
    && (h.Critical() ==> (h.key in s.rows ==> s.rows[h.key] == Building) && h.key.build in s.ever)
    && (h.pc.Loaded? ==> h.pc.seen == Waiting || h.pc.seen == Error)
    && (h.pc.Idle? || h.pc.Loaded? || h.pc.Claimed? ==> !h.artifactMade)
    && (client && h.pc.Built? ==> h.artifactMade)
    && (client && h.pc == Done(Accepted) ==> h.artifactMade)
  }

  ghost predicate MadeFor(s: System, key: Key) {
    exists i :: 0 <= i < |s.handlers| && s.handlers[i].key == key && s.handlers[i].artifactMade
  }

  ghost predicate Ok(client: bool, s: System) {
    && (forall i :: 0 <= i < |s.handlers| ==> HandlerOk(client, s, s.handlers[i]))
    && (forall i, j :: 0 <= i < j < |s.handlers| && s.handlers[i].Critical() && s.handlers[j].Critical() ==>
          s.handlers[i].key != s.handlers[j].key)
    && (forall key :: key in s.rows ==> key.build in s.ever)
    && (client ==> forall key :: key in s.rows && s.rows[key] == Ready ==> MadeFor(s, key))
  }

  lemma ArtifactsStay(client: bool, s: System, e: Event, key: Key)
    requires Ok(client, s) && MadeFor(s, key)
    ensures MadeFor(Step(client, s, e), key)
  {
    var i :| 0 <= i < |s.handlers| && s.handlers[i].key == key && s.handlers[i].artifactMade;
    assert HandlerOk(client, s, s.handlers[i]);
    var r := Step(client, s, e);
    assert r.handlers[i].key == key && r.handlers[i].artifactMade;
  }

  // One handler moves on; a row changes only under its own key.
  lemma MoveOk(client: bool, s: System, r: System, i: nat)
    requires Ok(client, s) && i < |s.handlers| && r.ever == s.ever
    requires |r.handlers| == |s.handlers| && r.handlers[i].key == s.handlers[i].key
    requires forall k :: 0 <= k < |s.handlers| && k != i ==> r.handlers[k] == s.handlers[k]
    requires r.rows.Keys == s.rows.Keys && forall key :: key in s.rows && key != s.handlers[i].key ==> r.rows[key] == s.rows[key]
    requires HandlerOk(client, r, r.handlers[i])
    requires s.handlers[i].Critical() || r.rows == s.rows || (s.handlers[i].key in s.rows && s.rows[s.handlers[i].key] != Building)
    requires r.handlers[i].Critical() && !s.handlers[i].Critical() ==>
               s.handlers[i].key in s.rows && s.rows[s.handlers[i].key] != Building
    requires forall key :: MadeFor(s, key) ==> MadeFor(r, key)
    requires client && r.rows != s.rows && s.handlers[i].key in r.rows && r.rows[s.handlers[i].key] == Ready ==> r.handlers[i].artifactMade
    ensures Ok(client, r)
  {
    var key := s.handlers[i].key;
    forall k | 0 <= k < |s.handlers| && k != i
      ensures HandlerOk(client, r, r.handlers[k])
      ensures r.handlers[i].Critical() && r.handlers[k].Critical() ==> r.handlers[k].key != key
    {
      assert HandlerOk(client, s, s.handlers[k]) && HandlerOk(client, s, s.handlers[i]);
    }
    forall other | client && other in r.rows && r.rows[other] == Ready
      ensures MadeFor(r, other)
    {
      if other == key && r.rows != s.rows {
        assert r.handlers[i].artifactMade;
      }
    }
    hide MadeFor;
  }

  lemma MoveStepOk(client: bool, s: System, e: Event)
    requires Ok(client, s)
    requires e.Load? || e.Claim? || e.Call? || e.Finish? || e.Abandon? || e.Crash?
    ensures Ok(client, Step(client, s, e))
  {
    if e.i < |s.handlers| && Step(client, s, e) != s {
      forall key | MadeFor(s, key)
        ensures MadeFor(Step(client, s, e), key)
      {
        ArtifactsStay(client, s, e, key);
      }
      assert HandlerOk(client, s, s.handlers[e.i]);
      hide MadeFor;
      MoveOk(client, s, Step(client, s, e), e.i);
    }
  }

  lemma StepOk(client: bool, s: System, e: Event)
    requires Ok(client, s)
    ensures Ok(client, Step(client, s, e))
  {
    if e.Arrive? || e.CreateBuild? || e.DeleteTemplate? {
      forall key | MadeFor(s, key)
        ensures MadeFor(Step(client, s, e), key)
      {
        ArtifactsStay(client, s, e, key);
      }
      hide MadeFor;
    } else {
      hide Step, Ok;
      MoveStepOk(client, s, e);
    }
  }

  lemma {:induction false} RunOk(client: bool, events: seq<Event>)
    ensures Ok(client, Run(client, NOTHING, events))
  {
    if events != [] {
      RunOk(client, events[..|events| - 1]);
      hide Step, Ok;
      StepOk(client, Run(client, NOTHING, events[..|events| - 1]), events[|events| - 1]);
    }
  }

  // ---------- what it means ----------

  // In every interleaving of any number of handlers, with crashes, deletions and failing
  // updates, at most one handler is critical on a build, and its row is then building or gone.
  lemma MutualExclusion(client: bool, events: seq<Event>, i: nat, j: nat)
    requires var s := Run(client, NOTHING, events);
             i < |s.handlers| && j < |s.handlers| && s.handlers[i].Critical() && s.handlers[j].Critical()
             && s.handlers[i].key == s.handlers[j].key
    ensures i == j
    ensures var s := Run(client, NOTHING, events);
            s.handlers[i].key in s.rows ==> s.rows[s.handlers[i].key] == Building
  {
    RunOk(client, events);
    assert HandlerOk(client, Run(client, NOTHING, events), Run(client, NOTHING, events).handlers[i]);
    hide Run;
  }

  // The build has been, and is ready or deleted.
  ghost predicate ReadyOrGone(s: System, key: Key) {
    key.build in s.ever && (key in s.rows ==> s.rows[key] == Ready)
  }

  lemma SwapKeepsReady(rows: Rows, key: Key, from: Status, to: Status, db: Db, other: Key)
    requires from != Ready && (other in rows ==> rows[other] == Ready)
    ensures var r := Swapped(rows, key, from, to, db);
            other in r ==> r[other] == Ready
  {
  }

  lemma ClaimKeepsReady(client: bool, s: System, i: nat, db: Db, key: Key)
    requires Ok(client, s) && ReadyOrGone(s, key)
    ensures ReadyOrGone(Step(client, s, Claim(i, db)), key)
  {
    if i < |s.handlers| && s.handlers[i].pc.Loaded? {
      assert HandlerOk(client, s, s.handlers[i]);
      hide Ok, Swapped, SwapSucceeds;
      SwapKeepsReady(s.rows, s.handlers[i].key, s.handlers[i].pc.seen, Building, db, key);
    }
    hide Ok, HandlerOk, Swapped, SwapSucceeds;
  }

  lemma FinishKeepsReady(client: bool, s: System, i: nat, db: Db, key: Key)
    requires ReadyOrGone(s, key)
    ensures ReadyOrGone(Step(client, s, Finish(i, db)), key)
  {
    hide Swapped, SwapSucceeds;
    if i < |s.handlers| {
      SwapKeepsReady(s.rows, s.handlers[i].key, Building, Ready, db, key);
    }
  }

  lemma AbandonKeepsReady(client: bool, s: System, i: nat, db: Db, key: Key)
    requires ReadyOrGone(s, key)
    ensures ReadyOrGone(Step(client, s, Abandon(i, db)), key)
  {
    hide Swapped, SwapSucceeds;
    if i < |s.handlers| {
      SwapKeepsReady(s.rows, s.handlers[i].key, Building, Error, db, key);
    }
  }

  lemma StepKeepsReady(client: bool, s: System, e: Event, key: Key)
    requires Ok(client, s) && ReadyOrGone(s, key)
    ensures ReadyOrGone(Step(client, s, e), key)
  {
    hide Ok, Swapped, SwapSucceeds;
    if e.Claim? {
      hide Step;
      ClaimKeepsReady(client, s, e.i, e.db, key);
    } else if e.Finish? {
      hide Step;
      FinishKeepsReady(client, s, e.i, e.db, key);
    } else if e.Abandon? {
      hide Step;
      AbandonKeepsReady(client, s, e.i, e.db, key);
    }
  }

  // Ready is never left but by deletion, and a deleted build does not come back.
  lemma {:induction false} ReadyIsNeverLeft(client: bool, before: seq<Event>, after: seq<Event>, key: Key)
    requires key in Run(client, NOTHING, before).rows && Run(client, NOTHING, before).rows[key] == Ready
    ensures ReadyOrGone(Run(client, NOTHING, before + after), key)
  {
    hide Step;
    if after == [] {
      assert before + after == before;
      BuildsHaveBeen(client, before, key);
    } else {
      var shorter, last := after[..|after| - 1], after[|after| - 1];
      assert (before + after)[..|before + after| - 1] == before + shorter;
      ReadyIsNeverLeft(client, before, shorter, key);
      RunOk(client, before + shorter);
      StepKeepsReady(client, Run(client, NOTHING, before + shorter), last, key);
      RunLast(client, before + after);
      hide Run, Ok, ReadyOrGone;
    }
  }

  lemma BuildsHaveBeen(client: bool, events: seq<Event>, key: Key)
    requires key in Run(client, NOTHING, events).rows
    ensures key.build in Run(client, NOTHING, events).ever
  {
    RunOk(client, events);
    hide Run, HandlerOk, MadeFor;
  }

  lemma RunLast(client: bool, events: seq<Event>)
    requires events != []
    ensures Run(client, NOTHING, events) == Step(client, Run(client, NOTHING, events[..|events| - 1]), events[|events| - 1])
  {
    hide Step;
  }

  // With an artifact client a build is ready only if the artifact call of one of its own
  // handlers succeeded, and a request is accepted only if its own did.
  lemma ReadyMeansMade(events: seq<Event>)
    ensures var s := Run(true, NOTHING, events);
            && (forall key :: key in s.rows && s.rows[key] == Ready ==> MadeFor(s, key))
            && (forall i :: 0 <= i < |s.handlers| && s.handlers[i].pc == Done(Accepted) ==> s.handlers[i].artifactMade)
  {
    RunOk(true, events);
    var s := Run(true, NOTHING, events);
    hide Run, MadeFor;
    assert forall i :: 0 <= i < |s.handlers| ==> HandlerOk(true, s, s.handlers[i]);
  }

  // In every reachable system, whatever others have done meanwhile: a handler whose build is
  // still there when it leaves settles it, ready or in error.
  lemma ExitSettles(client: bool, events: seq<Event>, i: nat)
    requires var s := Run(client, NOTHING, events);
             i < |s.handlers| && s.handlers[i].key in s.rows && (s.handlers[i].pc.Built? || s.handlers[i].pc.Broken?)
    ensures var s := Run(client, NOTHING, events);
            var h, f, a := s.handlers[i], Step(client, s, Finish(i, Works)), Step(client, s, Abandon(i, Works));
            && (h.pc.Built? ==> f.rows == s.rows[h.key := Ready] && f.handlers[i].pc == Done(Accepted))
            && (h.pc.Broken? ==> a.rows == s.rows[h.key := Error] && a.handlers[i].pc == Done(Internal))
  {
    RunOk(client, events);
    var s := Run(client, NOTHING, events);
    assert HandlerOk(client, s, s.handlers[i]);
    hide Run, Ok;
  }

  // A fresh build waits; deleting a template takes its builds and no others.
  lemma BuildsComeAndGo(client: bool, s: System, key: Key, template: string)
    ensures key.build !in s.ever ==> Step(client, s, CreateBuild(key)).rows == s.rows[key := Waiting]
    ensures var rows := Step(client, s, DeleteTemplate(template)).rows;
            forall k :: (k in rows <==> k in s.rows && k.template != template) && (k in rows ==> rows[k] == s.rows[k])
  {
  }
}

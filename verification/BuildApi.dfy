// One StartTemplateBuildV2 handler on the shared store, with whatever the other handlers
// do between its own steps.
module BuildApi {
  import opened Machine
  import opened BuildProtocol

  // Events of anyone but handler i.
  predicate OfOthers(events: seq<Event>, i: nat) {
    forall e :: e in events ==>
      e.Arrive? || e.CreateBuild? || e.DeleteTemplate? || e.i != i
  }

  lemma {:induction false} OthersLeaveHandler(client: bool, s: System, events: seq<Event>, i: nat)
    requires i < |s.handlers| && OfOthers(events, i)
    ensures |s.handlers| <= |Run(client, s, events).handlers|
    ensures Run(client, s, events).handlers[i] == s.handlers[i]
  {
    if events != [] {
      OthersLeaveHandler(client, s, events[..|events| - 1], i);
      assert events[|events| - 1] in events;
    }
  }

  lemma {:induction false} RunAppend(client: bool, s: System, a: seq<Event>, b: seq<Event>)
    ensures Run(client, s, a + b) == Run(client, Run(client, s, a), b)
  {
    if b == [] {
      assert a + b == a;
    } else {
      assert (a + b)[..|a + b| - 1] == a + b[..|b| - 1];
      RunAppend(client, s, a, b[..|b| - 1]);
    }
  }

  lemma RunOne(client: bool, s: System, a: seq<Event>, e: Event)
    ensures Run(client, s, a + [e]) == Step(client, Run(client, s, a), e)
  {
    assert (a + [e])[..|a|] == a;
  }

  // The order of one handler's own steps, with the others' in between; a handler that
  // stops early has run a prefix of this.
  datatype Plan = Plan(key: Key, gap0: seq<Event>, gap1: seq<Event>, gap2: seq<Event>, gap3: seq<Event>,
                       loadFails: bool, claimDb: Db, artifactSucceeds: bool, exitDb: Db) {
    ghost function Loaded(i: nat): seq<Event> {
      [Arrive(key)] + gap0 + [Load(i, loadFails)]
    }

    ghost function Claimed(i: nat): seq<Event> {
      Loaded(i) + gap1 + [Claim(i, claimDb)]
    }

    ghost function Called(i: nat): seq<Event> {
      Claimed(i) + gap2 + [Call(i, artifactSucceeds)]
    }

    ghost function Exited(client: bool, i: nat): seq<Event> {
      Called(i) + gap3 + [if client && !artifactSucceeds then Abandon(i, exitDb) else Finish(i, exitDb)]
    }

    // Nobody else does anything, and the store works.
    predicate Undisturbed() {
      && gap0 == gap1 == gap2 == gap3 == []
      && !loadFails && claimDb.Works? && exitDb.Works?
    }

    ghost predicate Valid(i: nat) {
      OfOthers(gap0, i) && OfOthers(gap1, i) && OfOthers(gap2, i) && OfOthers(gap3, i)
    }
  }

  function StatusOf(rows: Rows, key: Key): Option<Status> {
    if key in rows then Some(rows[key]) else None
  }

  // The template_builds table, and where each handler stands.
  class Store {
    const client: bool
    var system: System

    constructor (client: bool)
      ensures this.client == client && system == NOTHING
    {
      this.client, system := client, NOTHING;
    }

    // The query may fail.
    method GetTemplateBuild(key: Key, fails: bool) returns (ok: bool, status: Option<Status>)
      ensures ok <==> !fails
      ensures ok ==> status == if key in system.rows then Some(system.rows[key]) else None
    {
      ok := !fails;
      status := if ok && key in system.rows then Some(system.rows[key]) else None;
    }

    method UpdateTemplateBuildStatus(key: Key, from: Status, to: Status, db: Db) returns (ok: bool)
      modifies this
      ensures system == old(system).(rows := Swapped(old(system).rows, key, from, to, db))
      ensures ok == SwapSucceeds(old(system).rows, key, from, db)
    {
      ok := false;
      if db.Fails? {
        return;
      }
      var affected := key in system.rows && system.rows[key] == from;
      if affected {
        system := system.(rows := system.rows[key := to]);
      }
      ok := affected && db.Works?;
    }

    // Handler i is now at pc.
    method Reach(i: nat, pc: Pc)
      requires i < |system.handlers|
      modifies this
      ensures system == Advance(old(system), i, old(system).rows, pc)
    {
      system := system.(handlers := system.handlers[i := system.handlers[i].(pc := pc)]);
    }

    // Meanwhile, the other handlers.
    method Others(events: seq<Event>, ghost i: nat, ghost start: System, ghost done: seq<Event>)
      requires i < |system.handlers| && OfOthers(events, i) && system == Run(client, start, done)
      modifies this
      ensures system == Run(client, start, done + events)
      ensures i < |system.handlers| && system.handlers[i] == old(system).handlers[i]
      ensures events == [] ==> system == old(system)
    {
      OthersLeaveHandler(client, system, events, i);
      RunAppend(client, start, done, events);
      RunNone(client, system);
      system := Run(client, system, events);
    }

    method StartTemplateBuildV2(plan: Plan) returns (response: Response, ghost done: seq<Event>)
      requires plan.Valid(|system.handlers|)
      modifies this
      ensures var i := |old(system).handlers|;
              && system == Run(client, old(system), done) && done <= plan.Exited(client, i)
              && i < |system.handlers| && system.handlers[i].key == plan.key && system.handlers[i].pc == Done(response)
      // What it answers to the row it reads.
      ensures var read := StatusOf(Run(client, old(system), [Arrive(plan.key)] + plan.gap0).rows, plan.key);
              && (plan.loadFails ==> response == Internal)
              && (!plan.loadFails ==> (response == NotFound <==> read == None))
              && (!plan.loadFails ==> (response == NotRetryable <==> read == Some(Building) || read == Some(Ready)))
      // Left alone, with a store that works, it starts waiting and failed builds and finishes them.
      ensures plan.Undisturbed() && StatusOf(old(system).rows, plan.key) in {Some(Waiting), Some(Error)} ==>
                if client && !plan.artifactSucceeds
                then response == Internal && system.rows == old(system).rows[plan.key := Error]
                else response == Accepted && system.rows == old(system).rows[plan.key := Ready]
      ensures plan.Undisturbed() && StatusOf(old(system).rows, plan.key) !in {Some(Waiting), Some(Error)} ==>
                system.rows == old(system).rows
    {
      hide Run, Swapped, SwapSucceeds;
      ghost var start := system;
      var i := |system.handlers|;
      system := system.(handlers := system.handlers + [Handler(plan.key, Idle, false)]);
      RunOne(client, start, [], Arrive(plan.key));
      RunNone(client, start);
      assert [] + [Arrive(plan.key)] == [Arrive(plan.key)];
      Others(plan.gap0, i, start, [Arrive(plan.key)]);
      assert StatusOf(system.rows, plan.key) == StatusOf(Run(client, start, [Arrive(plan.key)] + plan.gap0).rows, plan.key);

      var loaded, status := GetTemplateBuild(plan.key, plan.loadFails);
      done := plan.Loaded(i);
      RunOne(client, start, [Arrive(plan.key)] + plan.gap0, Load(i, plan.loadFails));
      if !loaded {
        Reach(i, Done(Internal));
        return Internal, done;
      }
      if status.None? {
        Reach(i, Done(NotFound));
        return NotFound, done;
      }
      if status.value != Waiting && status.value != Error {
        Reach(i, Done(NotRetryable));
        return NotRetryable, done;
      }
      Reach(i, Pc.Loaded(status.value));
      response, done := ClaimAndBuild(plan, i, status.value, start);
    }

    method ClaimAndBuild(plan: Plan, i: nat, seen: Status, ghost start: System) returns (response: Response, ghost done: seq<Event>)
      requires plan.Valid(i) && system == Run(client, start, plan.Loaded(i))
      requires i < |system.handlers| && system.handlers[i] == Handler(plan.key, Pc.Loaded(seen), false)
      modifies this
      ensures system == Run(client, start, done) && done <= plan.Exited(client, i)
      ensures i < |system.handlers| && system.handlers[i].key == plan.key && system.handlers[i].pc == Done(response)
      ensures response == Accepted || response == Internal
      ensures plan.Undisturbed() && StatusOf(old(system).rows, plan.key) == Some(seen) ==>
                if client && !plan.artifactSucceeds
                then response == Internal && system.rows == old(system).rows[plan.key := Error]
                else response == Accepted && system.rows == old(system).rows[plan.key := Ready]
    {
      hide Run, Swapped, SwapSucceeds;
      Others(plan.gap1, i, start, plan.Loaded(i));
      done := plan.Claimed(i);
      RunOne(client, start, plan.Loaded(i) + plan.gap1, Claim(i, plan.claimDb));
      SwapLaw(system.rows, plan.key, seen, Building, plan.claimDb);
      var started := UpdateTemplateBuildStatus(plan.key, seen, Building, plan.claimDb);
      if !started {
        Reach(i, Done(Internal));
        return Internal, done;
      }
      Reach(i, Pc.Claimed);
      response, done := Build(plan, i, start);
    }

    method Build(plan: Plan, i: nat, ghost start: System) returns (response: Response, ghost done: seq<Event>)
      requires plan.Valid(i) && system == Run(client, start, plan.Claimed(i))
      requires i < |system.handlers| && system.handlers[i] == Handler(plan.key, Pc.Claimed, false)
      modifies this
      ensures system == Run(client, start, done) && done == plan.Exited(client, i)
      ensures i < |system.handlers| && system.handlers[i].key == plan.key && system.handlers[i].pc == Done(response)
      ensures response == Accepted || response == Internal
      ensures plan.Undisturbed() && StatusOf(old(system).rows, plan.key) == Some(Building) ==>
                if client && !plan.artifactSucceeds
                then response == Internal && system.rows == old(system).rows[plan.key := Error]
                else response == Accepted && system.rows == old(system).rows[plan.key := Ready]
    {
      hide Run, Swapped, SwapSucceeds;
      Others(plan.gap2, i, start, plan.Claimed(i));
      RunOne(client, start, plan.Claimed(i) + plan.gap2, Call(i, plan.artifactSucceeds));
      if client {
        system := system.(handlers := system.handlers[i := Handler(plan.key, if plan.artifactSucceeds then Built else Broken,
                                                                   plan.artifactSucceeds)]);
      } else {
        Reach(i, Built);
      }
      Others(plan.gap3, i, start, plan.Called(i));
      done := plan.Exited(client, i);
      SwapLaw(system.rows, plan.key, Building, Error, plan.exitDb);
      SwapLaw(system.rows, plan.key, Building, Ready, plan.exitDb);
      if client && !plan.artifactSucceeds {
        RunOne(client, start, plan.Called(i) + plan.gap3, Abandon(i, plan.exitDb));
        var marked := UpdateTemplateBuildStatus(plan.key, Building, Error, plan.exitDb);
        Reach(i, Done(Internal));
        return Internal, done;
      }
      RunOne(client, start, plan.Called(i) + plan.gap3, Finish(i, plan.exitDb));
      var finished := UpdateTemplateBuildStatus(plan.key, Building, Ready, plan.exitDb);
      response := if finished then Accepted else Internal;
      Reach(i, Done(response));
    }
  }

  // A swap that works goes through exactly when the row is in the expected status.
  lemma SwapLaw(rows: Rows, key: Key, from: Status, to: Status, db: Db)
    ensures SwapSucceeds(rows, key, from, db) <==> db == Works && StatusOf(rows, key) == Some(from)
    ensures Swapped(rows, key, from, to, db) == if db != Fails && StatusOf(rows, key) == Some(from) then rows[key := to] else rows
  {
  }

  lemma RunNone(client: bool, s: System)
    ensures Run(client, s, []) == s
  {
  }
}

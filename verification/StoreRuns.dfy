// What holds over every run of store calls, whoever makes them and in whatever order.
module StoreRuns {
  import opened Machine
  import opened SandboxStore
  import Seqs
  import opened Slots
  import opened Subsequences

  datatype Call = Call(op: Op, dbFails: bool)

  function Step(t: Tables, call: Call): Reply {
    Commit(call.dbFails, t, Effect(t, call.op))
  }

  function Run(t: Tables, calls: seq<Call>): Tables {
    if calls == [] then t else Step(Run(t, calls[..|calls| - 1]), calls[|calls| - 1]).tables
  }

  // A rejected call, a failed compare-and-swap among them, changes nothing; any other
  // touches one row, and the log grows by one entry for a change of state and not otherwise.
  lemma StepFrame(t: Tables, call: Call)
    ensures var r := Step(t, call);
            && (r.outcome.Rejected? ==> r.tables == t)
            && (forall other :: other != call.op.id ==>
                  && (other in r.tables.rows <==> other in t.rows)
                  && (other in t.rows ==> r.tables.rows[other] == t.rows[other]))
            && t.log <= r.tables.log
            && |r.tables.log| == |t.log| + (if call.op.UpdateState? && r.outcome.Done? then 1 else 0)
            && (call.op.id in t.rows && call.op.id in r.tables.rows ==>
                  r.tables.rows[call.op.id].state == t.rows[call.op.id].state || (call.op.UpdateState? && r.outcome.Done?))
  {
    hide FirstFree, UsedSlots;
  }

  // ---------- slots ----------

  // No two records hold one positive slot.
  ghost predicate SlotsUnique(rows: map<Id, Record>) {
    forall a, b :: a in rows && b in rows && a != b && rows[a].slot > 0 ==> rows[a].slot != rows[b].slot
  }

  lemma StepKeepsUnique(t: Tables, call: Call)
    requires SlotsUnique(t.rows)
    ensures SlotsUnique(Step(t, call).tables.rows)
  {
    hide FirstFree;
    if call.op.AssignSlot? {
      assert forall id :: id in t.rows && t.rows[id].slot > 0 ==> t.rows[id].slot in UsedSlots(t.rows);
    }
  }

  lemma {:induction false} SlotsStayUnique(t: Tables, calls: seq<Call>)
    requires SlotsUnique(t.rows)
    ensures SlotsUnique(Run(t, calls).rows)
  {
    if calls != [] {
      SlotsStayUnique(t, calls[..|calls| - 1]);
      StepKeepsUnique(Run(t, calls[..|calls| - 1]), calls[|calls| - 1]);
    }
  }

  // The records that hold one of the slots 1..maxSlot.
  function Holders(rows: map<Id, Record>, maxSlot: uint32): set<Id> {
    set id | id in rows && 1 <= rows[id].slot <= maxSlot
  }

  function SlotsOf(rows: map<Id, Record>, ids: set<Id>): set<uint32> {
    set id | id in ids && id in rows :: rows[id].slot
  }

  lemma {:induction false} OneSlotEach(rows: map<Id, Record>, ids: set<Id>)
    requires SlotsUnique(rows) && forall id :: id in ids ==> id in rows && rows[id].slot > 0
    ensures |SlotsOf(rows, ids)| == |ids|
    decreases ids
  {
    if ids != {} {
      var id :| id in ids;
      OneSlotEach(rows, ids - {id});
      assert SlotsOf(rows, ids) == SlotsOf(rows, ids - {id}) + {rows[id].slot};
    } else {
      assert SlotsOf(rows, ids) == {};
    }
  }

  lemma HeldWithin(rows: map<Id, Record>, maxSlot: uint32)
    ensures SlotsOf(rows, Holders(rows, maxSlot)) == UsedSlots(rows) * SlotsUpTo(maxSlot)
  {
  }

  lemma {:induction false} OnlySlotsInRangeMatter(used: set<uint32>, from: nat, maxSlot: uint32)
    requires from >= 1
    ensures FirstFree(used, from, maxSlot) == FirstFree(used * SlotsUpTo(maxSlot), from, maxSlot)
    decreases maxSlot + 1 - from
  {
    if from <= maxSlot {
      OnlySlotsInRangeMatter(used, from + 1, maxSlot);
    }
  }

  lemma ExhaustedIff(rows: map<Id, Record>, maxSlot: uint32)
    requires SlotsUnique(rows)
    ensures FirstFree(UsedSlots(rows), 1, maxSlot) == 0 <==> |Holders(rows, maxSlot)| == maxSlot
  {
    OnlySlotsInRangeMatter(UsedSlots(rows), 1, maxSlot);
    HeldWithin(rows, maxSlot);
    OneSlotEach(rows, Holders(rows, maxSlot));
    FullIff(UsedSlots(rows) * SlotsUpTo(maxSlot), maxSlot);
  }

  ghost predicate Held(rows: map<Id, Record>, slot: uint32) {
    exists id :: id in rows && rows[id].slot == slot
  }

  lemma UsedAreHeld(rows: map<Id, Record>, slot: uint32)
    requires slot > 0
    ensures slot in UsedSlots(rows) <==> Held(rows, slot)
  {
    if Held(rows, slot) {
      var id :| id in rows && rows[id].slot == slot;
      assert rows[id].slot in UsedSlots(rows);
    }
  }

  // The allocator: an existing slot comes back unchanged; otherwise the least free
  // one, and exhaustion is reported exactly when maxSlot records hold a slot each.
  lemma AssignsLeastFree(t: Tables, id: Id, maxSlot: uint32)
    requires SlotsUnique(t.rows) && id in t.rows && maxSlot > 0
    ensures var r := SlotAssigned(t, id, maxSlot);
            && (t.rows[id].slot > 0 ==> r == Reply(t, Slot(t.rows[id].slot)))
            && (t.rows[id].slot == 0 ==>
                  && (r.outcome == Rejected(NoSlots) <==> |Holders(t.rows, maxSlot)| == maxSlot)
                  && (r.outcome == Rejected(NoSlots) || r.outcome.Slot?))
            && (t.rows[id].slot == 0 && r.outcome.Slot? ==>
                  && 1 <= r.outcome.slot <= maxSlot && !Held(t.rows, r.outcome.slot)
                  && (forall s: uint32 :: 1 <= s < r.outcome.slot ==> Held(t.rows, s))
                  && r.tables == WithSlot(t, id, r.outcome.slot))
  {
    ExhaustedIff(t.rows, maxSlot);
    forall s: uint32 | s > 0
      ensures s in UsedSlots(t.rows) <==> Held(t.rows, s)
    {
      UsedAreHeld(t.rows, s);
    }
    hide SlotsUnique, Holders, UsedSlots, Held;
  }

  // So a sandbox always gets a slot while there are no more records than slots.
  lemma EnoughSlotsForAll(t: Tables, id: Id, maxSlot: uint32)
    requires SlotsUnique(t.rows) && id in t.rows && maxSlot > 0 && |t.rows| <= maxSlot
    ensures SlotAssigned(t, id, maxSlot).outcome.Slot?
  {
    AssignsLeastFree(t, id, maxSlot);
    if t.rows[id].slot == 0 {
      assert Holders(t.rows, maxSlot) <= t.rows.Keys - {id};
      SubsetSize(Holders(t.rows, maxSlot), t.rows.Keys - {id});
      assert |t.rows.Keys - {id}| == |t.rows.Keys| - 1;
    }
    hide SlotAssigned;
  }

  // ---------- the log ----------

  // Each step starts where the one before ended.
  predicate Path(steps: seq<Transition>, start: State, end: State) {
    if steps == [] then start == end
    else steps[|steps| - 1].to == end && Path(steps[..|steps| - 1], start, steps[|steps| - 1].from)
  }

  // One sandbox under an id, from its creation to its deletion or to now.
  datatype Life = Life(start: State, end: State, steps: seq<Transition>) {
    ghost predicate IsPath() {
      Path(steps, start, end)
    }
  }

  // An observer of the calls on one id and of their outcomes; it never looks at the tables.
  function Observe(lives: seq<Life>, id: Id, op: Op, outcome: Outcome): seq<Life> {
    if outcome.Rejected? then lives
    else match op
      case Create(i, record) => if i == id then lives + [Life(record.state, record.state, [])] else lives
      case UpdateState(i, from, to, action) =>
        if i != id || lives == [] then lives
        else
          var now := lives[|lives| - 1];
          lives[..|lives| - 1] + [Life(now.start, to, now.steps + [Transition("sandbox", id, from, to, action)])]
      case _ => lives
  }

  function Lives(t: Tables, calls: seq<Call>, id: Id): seq<Life> {
    if calls == [] then []
    else
      var before := calls[..|calls| - 1];
      var last := calls[|calls| - 1];
      Observe(Lives(t, before, id), id, last.op, Step(Run(t, before), last).outcome)
  }

  function AllSteps(lives: seq<Life>): seq<Transition> {
    if lives == [] then [] else AllSteps(lives[..|lives| - 1]) + lives[|lives| - 1].steps
  }

  // What the tables know of an id agrees with what the observer saw.
  ghost predicate Recorded(t: Tables, id: Id, lives: seq<Life>) {
    && Listed(t.log, "sandbox", id) == AllSteps(lives)
    && (forall i :: 0 <= i < |lives| ==> lives[i].IsPath())
    && (id in t.rows ==> lives != [] && lives[|lives| - 1].end == t.rows[id].state)
  }

  lemma {:induction false} StepKeepsRecord(t: Tables, id: Id, lives: seq<Life>, call: Call)
    requires Recorded(t, id, lives)
    ensures var r := Step(t, call);
            Recorded(r.tables, id, Observe(lives, id, call.op, r.outcome))
  {
    var r := Step(t, call);
    if r.outcome.Rejected? {
    } else if call.op.UpdateState? {
      UpdateKeepsRecord(t, id, lives, call.op.id, call.op.from, call.op.to, call.op.action);
    } else if call.op.Create? && call.op.id == id {
      var now := Life(call.op.record.state, call.op.record.state, []);
      assert (lives + [now])[..|lives|] == lives;
    }
  }

  // A listing leaves out the entries of other resources, and no more.
  lemma ListedIs(log: seq<Transition>, resourceType: string, id: Id)
    ensures Subsequence(Listed(log, resourceType, id), log)
    ensures forall tr: Transition ::
              tr in Listed(log, resourceType, id) <==> tr in log && tr.resourceType == resourceType && tr.id == id
  {
    ListedInOrder(log, resourceType, id);
    forall tr: Transition
      ensures tr in Listed(log, resourceType, id) <==> tr in log && tr.resourceType == resourceType && tr.id == id
    {
      ListedIff(log, resourceType, id, tr);
    }
  }

  lemma {:induction false} ListedInOrder(log: seq<Transition>, resourceType: string, id: Id)
    ensures Subsequence(Listed(log, resourceType, id), log)
  {
    if log != [] {
      hide Subsequence;
      var before, last := log[..|log| - 1], log[|log| - 1];
      var listed := Listed(before, resourceType, id);
      ListedInOrder(before, resourceType, id);
      assert log == before + [last];
      if last.resourceType == resourceType && last.id == id {
        SubsequenceBoth(listed, before, last);
      } else {
        SubsequenceRight(listed, before, last);
        assert Listed(log, resourceType, id) == listed;
      }
    }
  }

  lemma {:induction false} ListedIff(log: seq<Transition>, resourceType: string, id: Id, tr: Transition)
    ensures tr in Listed(log, resourceType, id) <==> tr in log && tr.resourceType == resourceType && tr.id == id
  {
    if log != [] {
      ListedIff(log[..|log| - 1], resourceType, id, tr);
      assert log == log[..|log| - 1] + [log[|log| - 1]];
    }
  }

  lemma ListedAppend(log: seq<Transition>, tr: Transition, id: Id)
    requires tr.resourceType == "sandbox"
    ensures Listed(log + [tr], "sandbox", id) == Listed(log, "sandbox", id) + if tr.id == id then [tr] else []
  {
    assert (log + [tr])[..|log|] == log;
  }

  lemma PathAppend(steps: seq<Transition>, tr: Transition, start: State)
    requires Path(steps, start, tr.from)
    ensures Path(steps + [tr], start, tr.to)
  {
    assert (steps + [tr])[..|steps|] == steps;
  }

  lemma {:induction false} AllStepsGrow(lives: seq<Life>, next: Life, tr: Transition)
    requires lives != [] && next.steps == lives[|lives| - 1].steps + [tr]
    ensures AllSteps(lives[..|lives| - 1] + [next]) == AllSteps(lives) + [tr]
  {
    var before := lives[..|lives| - 1];
    assert (before + [next])[..|before|] == before;
    Seqs.AppendAssoc(AllSteps(before), lives[|lives| - 1].steps, [tr]);
  }

  lemma UpdateKeepsRecord(t: Tables, id: Id, lives: seq<Life>, who: Id, from: State, to: State, action: string)
    requires Recorded(t, id, lives) && who in t.rows && t.rows[who].state == from
    ensures var r := StateUpdated(t, who, from, to, action);
            Recorded(r.tables, id, Observe(lives, id, UpdateState(who, from, to, action), r.outcome))
  {
    hide Listed, AllSteps, Path;
    var tr := Transition("sandbox", who, from, to, action);
    ListedAppend(t.log, tr, id);
    if who == id {
      var now := lives[|lives| - 1];
      PathAppend(now.steps, tr, now.start);
      AllStepsGrow(lives, Life(now.start, to, now.steps + [tr]), tr);
    }
  }

  // The log of an id is, life by life, the paths its sandboxes took; the last of
  // them ends in the state the row is in now.
  lemma {:induction false} LogIsPathPerLife(t: Tables, calls: seq<Call>, id: Id)
    requires id !in t.rows && Listed(t.log, "sandbox", id) == []
    ensures Recorded(Run(t, calls), id, Lives(t, calls, id))
  {
    if calls != [] {
      var before := calls[..|calls| - 1];
      LogIsPathPerLife(t, before, id);
      StepKeepsRecord(Run(t, before), id, Lives(t, before, id), calls[|calls| - 1]);
    }
  }

  lemma OneLife(lives: seq<Life>)
    requires |lives| == 1
    ensures AllSteps(lives) == lives[0].steps
  {
    assert lives[..0] == [];
  }

  // With the id never reused the whole log of it is one path from the creation
  // state to the current state.
  lemma LogIsPathWithoutReuse(t: Tables, calls: seq<Call>, id: Id)
    requires id !in t.rows && Listed(t.log, "sandbox", id) == []
    requires |Lives(t, calls, id)| <= 1 && id in Run(t, calls).rows
    ensures var now := Run(t, calls);
            && |Lives(t, calls, id)| == 1
            && Path(Listed(now.log, "sandbox", id), Lives(t, calls, id)[0].start, now.rows[id].state)
  {
    hide Lives, Path, Listed, AllSteps, Run;
    LogIsPathPerLife(t, calls, id);
    OneLife(Lives(t, calls, id));
  }

  // What boxlet asks of the store: sandboxes start in creating and never go back to it.
  predicate BoxletOp(op: Op) {
    && (op.Create? ==> op.record.state == Creating)
    && (op.UpdateState? ==> op.to != Creating)
  }

  predicate BoxletCalls(calls: seq<Call>) {
    forall call :: call in calls ==> BoxletOp(call.op)
  }

  predicate LeavesCreating(steps: seq<Transition>) {
    forall tr :: tr in steps ==> tr.to != Creating
  }

  predicate BoxletLife(life: Life) {
    life.start == Creating && LeavesCreating(life.steps)
  }

  lemma ObserveBoxlet(lives: seq<Life>, id: Id, op: Op, outcome: Outcome)
    requires forall life :: life in lives ==> BoxletLife(life)
    requires BoxletOp(op)
    ensures forall life :: life in Observe(lives, id, op, outcome) ==> BoxletLife(life)
  {
    if lives != [] {
      assert lives[|lives| - 1] in lives;
    }
  }

  lemma {:induction false} BoxletLives(t: Tables, calls: seq<Call>, id: Id)
    requires BoxletCalls(calls)
    ensures forall life :: life in Lives(t, calls, id) ==> BoxletLife(life)
  {
    if calls != [] {
      var before, last := calls[..|calls| - 1], calls[|calls| - 1];
      BoxletLives(t, before, id);
      assert last in calls;
      ObserveBoxlet(Lives(t, before, id), id, last.op, Step(Run(t, before), last).outcome);
    }
  }

  lemma {:induction false} BoxletSteps(lives: seq<Life>)
    requires forall life :: life in lives ==> BoxletLife(life)
    ensures LeavesCreating(AllSteps(lives))
  {
    if lives != [] {
      BoxletSteps(lives[..|lives| - 1]);
      assert lives[|lives| - 1] in lives;
    }
  }

  lemma {:induction false} PathSplits(a: seq<Transition>, b: seq<Transition>, start: State, end: State)
    requires Path(a + b, start, end) && a != []
    ensures Path(b, a[|a| - 1].to, end)
  {
    if b == [] {
      assert a + b == a;
    } else {
      var last := |b| - 1;
      assert (a + b)[..|a + b| - 1] == a + b[..last];
      PathSplits(a, b[..last], start, b[last].from);
    }
  }

  lemma {:induction false} OneStartPerPath(steps: seq<Transition>, start: State, other: State, end: State)
    requires Path(steps, start, end) && Path(steps, other, end)
    ensures start == other
  {
    if steps != [] {
      OneStartPerPath(steps[..|steps| - 1], start, other, steps[|steps| - 1].from);
    }
  }

  lemma PathFromCreatingIff(earlier: seq<Transition>, steps: seq<Transition>, end: State)
    requires LeavesCreating(earlier) && Path(steps, Creating, end)
    ensures Path(earlier + steps, Creating, end) <==> earlier == []
  {
    hide Path;
    if earlier == [] {
      assert earlier + steps == steps;
    } else if Path(earlier + steps, Creating, end) {
      PathSplits(earlier, steps, Creating, end);
      OneStartPerPath(steps, Creating, earlier[|earlier| - 1].to, end);
    }
  }

  // With reuse, the log of an id is a path from creating to the current state
  // exactly when no earlier sandbox of that id ever changed state.
  lemma LogIsPathIff(t: Tables, calls: seq<Call>, id: Id)
    requires id !in t.rows && Listed(t.log, "sandbox", id) == [] && BoxletCalls(calls)
    requires id in Run(t, calls).rows
    ensures Lives(t, calls, id) != []
    ensures var now, lives := Run(t, calls), Lives(t, calls, id);
            Path(Listed(now.log, "sandbox", id), Creating, now.rows[id].state) <==>
            AllSteps(lives[..|lives| - 1]) == []
  {
    hide Lives, Listed, Run, BoxletCalls, Path;
    LogIsPathPerLife(t, calls, id);
    BoxletLives(t, calls, id);
    var lives := Lives(t, calls, id);
    var earlier, life := lives[..|lives| - 1], lives[|lives| - 1];
    assert life in lives && life.IsPath();
    BoxletSteps(earlier);
    PathFromCreatingIff(AllSteps(earlier), life.steps, life.end);
  }

  lemma ReusedIdBreaksPath()
    ensures var blank := Record(Creating, 0, false, "", "");
            var calls := [Call(Create("a", blank), false), Call(UpdateState("a", Creating, Killed, "kill"), false),
                          Call(Delete("a"), false), Call(Create("a", blank), false)];
            var now := Run(Tables(map[], []), calls);
            && BoxletCalls(calls) && "a" in now.rows
            && !Path(Listed(now.log, "sandbox", "a"), Creating, now.rows["a"].state)
  {
    var blank := Record(Creating, 0, false, "", "");
    var c0, c1 := Call(Create("a", blank), false), Call(UpdateState("a", Creating, Killed, "kill"), false);
    var c2 := Call(Delete("a"), false);
    var tr := Transition("sandbox", "a", Creating, Killed, "kill");
    var t1 := Tables(map["a" := blank], []);
    var t2 := Tables(map["a" := blank.(state := Killed)], [tr]);
    assert [c0, c1, c2, c0][..3] == [c0, c1, c2] && [c0, c1, c2][..2] == [c0, c1] && [c0, c1][..1] == [c0] && [c0][..0] == [];
    assert Run(Tables(map[], []), [c0]) == t1;
    assert Run(Tables(map[], []), [c0, c1]) == t2;
    assert Run(Tables(map[], []), [c0, c1, c2]) == Tables(map[], [tr]);
    assert [tr][..0] == [];
  }
}

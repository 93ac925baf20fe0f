// The sandbox table and its transition log.  Each call is one transaction: it takes
// effect as a whole or, when the database fails, not at all.
module SandboxStore {
  import opened Machine
  import opened Slots

  type Id = string

  datatype State = Creating | Running | Pausing | Paused | Resuming | Stopping | Stopped
                 | Starting | Rebooting | Killing | Killed | Failed | Unknown

  // overlayBD: RootfsProvider is "overlaybd", otherwise "directory".
  datatype Record = Record(state: State, slot: uint32, overlayBD: bool, snapshotKey: string, digest: string)

  datatype Transition = Transition(resourceType: string, id: Id, from: State, to: State, action: string)

  datatype Tables = Tables(rows: map<Id, Record>, log: seq<Transition>)

  datatype Error = Conflict | NotFound | NoMaxSlot | NoSlots | Database

  datatype Outcome = Done | Slot(slot: uint32) | Rejected(error: Error)

  datatype Op = Create(id: Id, record: Record)
              | UpdateState(id: Id, from: State, to: State, action: string)
              | AssignSlot(id: Id, maxSlot: uint32)
              | ReleaseSlot(id: Id)
              | UpdateDigest(id: Id, digest: string)
              | Delete(id: Id)

  datatype Reply = Reply(tables: Tables, outcome: Outcome)

  function UsedSlots(rows: map<Id, Record>): set<uint32> {
    set id | id in rows && rows[id].slot > 0 :: rows[id].slot
  }

  function Created(t: Tables, id: Id, record: Record): Reply {
    if id in t.rows || record.slot in UsedSlots(t.rows) then Reply(t, Rejected(Conflict))
    else Reply(t.(rows := t.rows[id := record]), Done)
  }

  // The compare-and-swap: nothing happens unless the row is there in state `from`.
  function StateUpdated(t: Tables, id: Id, from: State, to: State, action: string): Reply {
    if id !in t.rows || t.rows[id].state != from then Reply(t, Rejected(NotFound))
    else Reply(Tables(t.rows[id := t.rows[id].(state := to)],
                      t.log + [Transition("sandbox", id, from, to, action)]), Done)
  }

  function WithSlot(t: Tables, id: Id, slot: uint32): Tables
    requires id in t.rows
  {
    t.(rows := t.rows[id := t.rows[id].(slot := slot)])
  }

  function SlotAssigned(t: Tables, id: Id, maxSlot: uint32): Reply {
    if maxSlot == 0 then Reply(t, Rejected(NoMaxSlot))
    else if id !in t.rows then Reply(t, Rejected(NotFound))
    else if t.rows[id].slot > 0 then Reply(t, Slot(t.rows[id].slot))
    else
      var slot := FirstFree(UsedSlots(t.rows), 1, maxSlot);
      if slot == 0 then Reply(t, Rejected(NoSlots)) else Reply(WithSlot(t, id, slot), Slot(slot))
  }

  function SlotReleased(t: Tables, id: Id): Reply {
    if id in t.rows then Reply(WithSlot(t, id, 0), Done) else Reply(t, Rejected(NotFound))
  }

  function DigestUpdated(t: Tables, id: Id, digest: string): Reply {
    if id !in t.rows then Reply(t, Rejected(NotFound))
    else Reply(t.(rows := t.rows[id := t.rows[id].(digest := digest)]), Done)
  }

  function Deleted(t: Tables, id: Id): Reply {
    if id in t.rows then Reply(t.(rows := t.rows - {id}), Done) else Reply(t, Rejected(NotFound))
  }

  function Effect(t: Tables, op: Op): Reply {
    match op
    case Create(id, record) => Created(t, id, record)
    case UpdateState(id, from, to, action) => StateUpdated(t, id, from, to, action)
    case AssignSlot(id, maxSlot) => SlotAssigned(t, id, maxSlot)
    case ReleaseSlot(id) => SlotReleased(t, id)
    case UpdateDigest(id, digest) => DigestUpdated(t, id, digest)
    case Delete(id) => Deleted(t, id)
  }

  // A failed transaction is rolled back.
  function Commit(dbFails: bool, t: Tables, reply: Reply): Reply {
    if dbFails then Reply(t, Rejected(Database)) else reply
  }

  // The entries of one resource, oldest first.
  function Listed(log: seq<Transition>, resourceType: string, id: Id): seq<Transition> {
    if log == [] then []
    else
      var last := log[|log| - 1];
      Listed(log[..|log| - 1], resourceType, id)
      + if last.resourceType == resourceType && last.id == id then [last] else []
  }

  class Store {
    var rows: map<Id, Record>
    var log: seq<Transition>

    function Value(): Tables
      reads this
    {
      Tables(rows, log)
    }

    constructor ()
      ensures Value() == Tables(map[], [])
    {
      rows, log := map[], [];
    }

    method CreateSandbox(id: Id, record: Record, dbFails: bool) returns (r: Outcome)
      modifies this
      ensures Reply(Value(), r) == Commit(dbFails, old(Value()), Created(old(Value()), id, record))
    {
      if dbFails {
        return Rejected(Database);
      }
      if id in rows || record.slot in UsedSlots(rows) {
        return Rejected(Conflict);
      }
      rows := rows[id := record];
      r := Done;
    }

    method UpdateSandboxState(id: Id, from: State, to: State, action: string, dbFails: bool) returns (r: Outcome)
      modifies this
      ensures Reply(Value(), r) == Commit(dbFails, old(Value()), StateUpdated(old(Value()), id, from, to, action))
    {
      if dbFails {
        return Rejected(Database);
      }
      if id !in rows || rows[id].state != from {
        return Rejected(NotFound);
      }
      rows := rows[id := rows[id].(state := to)];
      log := log + [Transition("sandbox", id, from, to, action)];
      r := Done;
    }

    method ListUsed() returns (used: set<uint32>)
      ensures used == UsedSlots(rows)
    {
      used := {};
      var rest := rows.Keys;
      while rest != {}
        invariant rest <= rows.Keys
        invariant used == set id | id in rows.Keys - rest && rows[id].slot > 0 :: rows[id].slot
      {
        var id :| id in rest;
        rest := rest - {id};
        if rows[id].slot > 0 {
          used := used + {rows[id].slot};
        }
      }
    }

    method AssignSandboxNetworkSlot(id: Id, maxSlot: uint32, dbFails: bool) returns (r: Outcome)
      modifies this
      ensures Reply(Value(), r) == Commit(dbFails, old(Value()), SlotAssigned(old(Value()), id, maxSlot))
    {
      if dbFails {
        return Rejected(Database);
      }
      if maxSlot == 0 {
        return Rejected(NoMaxSlot);
      }
      if id !in rows {
        return Rejected(NotFound);
      }
      if rows[id].slot > 0 {
        return Slot(rows[id].slot);
      }
      var used := ListUsed();
      var slot := FindFree(used, maxSlot);
      if slot == 0 {
        return Rejected(NoSlots);
      }
      rows := rows[id := rows[id].(slot := slot)];
      r := Slot(slot);
    }

    method ReleaseSandboxNetworkSlot(id: Id, dbFails: bool) returns (r: Outcome)
      modifies this
      ensures Reply(Value(), r) == Commit(dbFails, old(Value()), SlotReleased(old(Value()), id))
    {
      if dbFails {
        return Rejected(Database);
      }
      if id !in rows {
        return Rejected(NotFound);
      }
      rows := rows[id := rows[id].(slot := 0)];
      r := Done;
    }

    method UpdateSandboxRootfsDigest(id: Id, digest: string, dbFails: bool) returns (r: Outcome)
      modifies this
      ensures Reply(Value(), r) == Commit(dbFails, old(Value()), DigestUpdated(old(Value()), id, digest))
    {
      if dbFails {
        return Rejected(Database);
      }
      if id !in rows {
        return Rejected(NotFound);
      }
      rows := rows[id := rows[id].(digest := digest)];
      r := Done;
    }

    method DeleteSandbox(id: Id, dbFails: bool) returns (r: Outcome)
      modifies this
      ensures Reply(Value(), r) == Commit(dbFails, old(Value()), Deleted(old(Value()), id))
    {
      if dbFails {
        return Rejected(Database);
      }
      if id !in rows {
        return Rejected(NotFound);
      }
      rows := rows - {id};
      r := Done;
    }

    method ListTransitions(resourceType: string, id: Id) returns (records: seq<Transition>)
      ensures records == Listed(log, resourceType, id)
    {
      records := [];
      for i := 0 to |log|
        invariant records == Listed(log[..i], resourceType, id)
      {
        assert log[..i + 1][..i] == log[..i];
        if log[i].resourceType == resourceType && log[i].id == id {
          records := records + [log[i]];
        }
      }
      assert log[..|log|] == log;
    }
  }
}

// Running an image export on a writable copy of a template's root filesystem:
// the original is moved aside, the copy takes its place, and the original is
// moved back afterwards.
module TemplateRootfs {
  import opened Machine
  import opened Disk

  // A failing copy may leave a partial file behind.
  datatype Copy = Copied | CopyFailed(partial: Option<Content>)

  // What the export leaves at the root filesystem's path, and whether it fails.
  datatype Export = Export(leaves: Option<Content>, failed: bool)

  // One call of the export: the path it is given and the disk it finds.
  datatype Call = Call(root: Path, disk: Files)

  datatype Ran = Ran(trace: Trace, ok: bool, calls: seq<Call>)

  datatype Faults = Faults(
    dropBackup: bool, dropWork: bool, copy: Copy,
    moveAside: bool, activate: bool, discardWork: bool, revert: bool,
    restoreRemove: bool, restoreRename: bool,
    deferRemove: bool, deferRename: bool, deferDropWork: bool)

  datatype Paths = Paths(root: Path, backup: Path, work: Path) {
    predicate Distinct() {
      root != backup && root != work && backup != work
    }
  }

  function CopyFile(t: Trace, src: Path, dst: Path, copy: Copy): (d: Done)
    ensures t.Current() ==> d.trace.Current()
  {
    if src !in t.now then Done(t, false)
    else
      match copy
      case Copied => Done(t.Then(t.now[dst := t.now[src]]), true)
      case CopyFailed(None) => Done(t, false)
      case CopyFailed(Some(part)) => Done(t.Then(t.now[dst := part]), false)
  }

  function RunExport(t: Trace, root: Path, e: Export): Trace {
    match e.leaves
    case None => t.Then(t.now - {root})
    case Some(c) => t.Then(t.now[root := c])
  }

  // The deferred restore of the source, on every path that did not restore.
  function Deferred(t: Trace, p: Paths, f: Faults): Trace {
    var t1 := Remove(t, p.root, f.deferRemove).trace;
    var t2 := Rename(t1, p.backup, p.root, f.deferRename).trace;
    Remove(t2, p.work, f.deferDropWork).trace
  }

  function Restore(t: Trace, p: Paths, f: Faults): Done {
    var gone := Remove(t, p.root, f.restoreRemove);
    if !gone.ok then gone else Rename(gone.trace, p.backup, p.root, f.restoreRename)
  }

  function Activated(t: Trace, p: Paths, f: Faults, e: Export): Ran {
    var calls := [Call(p.root, t.now)];
    var restored := Restore(RunExport(t, p.root, e), p, f);
    if restored.ok then Ran(restored.trace, !e.failed, calls) else Ran(Deferred(restored.trace, p, f), false, calls)
  }

  function Activate(t: Trace, p: Paths, f: Faults, e: Export): Ran {
    var aside := Rename(t, p.root, p.backup, f.moveAside);
    if !aside.ok then Ran(Deferred(Remove(aside.trace, p.work, f.discardWork).trace, p, f), false, [])
    else
      var active := Rename(aside.trace, p.work, p.root, f.activate);
      if !active.ok then Ran(Deferred(Rename(active.trace, p.backup, p.root, f.revert).trace, p, f), false, [])
      else Activated(active.trace, p, f, e)
  }

  function ExportRun(t: Trace, p: Paths, f: Faults, e: Export): Ran {
    var backup := Remove(t, p.backup, f.dropBackup);
    if !backup.ok then Ran(backup.trace, false, [])
    else
      var work := Remove(backup.trace, p.work, f.dropWork);
      if !work.ok then Ran(work.trace, false, [])
      else
        var copied := CopyFile(work.trace, p.root, p.work, f.copy);
        if !copied.ok then Ran(copied.trace, false, []) else Activate(copied.trace, p, f, e)
  }

  // ---------- the code ----------

  method CopyOnDisk(disk: Device, src: Path, dst: Path, copy: Copy) returns (ok: bool)
    modifies disk
    ensures Done(disk.State(), ok) == CopyFile(old(disk.State()), src, dst, copy)
  {
    if src !in disk.files {
      return false;
    }
    match copy {
      case Copied =>
        disk.WriteFile(dst, disk.files[src]);
        ok := true;
      case CopyFailed(None) =>
        ok := false;
      case CopyFailed(Some(part)) =>
        disk.WriteFile(dst, part);
        ok := false;
    }
  }

  method RestoreTemplateRootfs(disk: Device, p: Paths, f: Faults) returns (ok: bool)
    modifies disk
    ensures Done(disk.State(), ok) == Restore(old(disk.State()), p, f)
  {
    ok := disk.RemovePath(p.root, f.restoreRemove);
    if ok {
      ok := disk.RenamePath(p.backup, p.root, f.restoreRename);
    }
  }

  method UndoOnReturn(disk: Device, p: Paths, f: Faults)
    modifies disk
    ensures disk.State() == Deferred(old(disk.State()), p, f)
  {
    var _ := disk.RemovePath(p.root, f.deferRemove);
    var _ := disk.RenamePath(p.backup, p.root, f.deferRename);
    var _ := disk.RemovePath(p.work, f.deferDropWork);
  }

  // The function to run, and the calls made of it.
  class Exporter {
    var calls: seq<Call>

    constructor ()
      ensures calls == []
    {
      calls := [];
    }

    method Run(disk: Device, root: Path, e: Export)
      modifies this, disk
      ensures calls == old(calls) + [Call(root, old(disk.files))]
      ensures disk.State() == RunExport(old(disk.State()), root, e)
    {
      calls := calls + [Call(root, disk.files)];
      disk.files := if e.leaves.Some? then disk.files[root := e.leaves.value] else disk.files - {root};
      disk.seen := disk.seen + [disk.files];
    }
  }

  // The part of the source that runs under its deferred block.
  method ActivateOnDisk(disk: Device, p: Paths, f: Faults, fn: Exporter, e: Export) returns (ok: bool)
    modifies disk, fn
    ensures var r := Activate(old(disk.State()), p, f, e);
            disk.State() == r.trace && ok == r.ok && fn.calls == old(fn.calls) + r.calls
  {
    hide Remove, Rename, RunExport, Restore, Deferred, Trace.Current;
    var restored := false;
    ok := disk.RenamePath(p.root, p.backup, f.moveAside);
    if !ok {
      var _ := disk.RemovePath(p.work, f.discardWork);
    } else {
      ok := disk.RenamePath(p.work, p.root, f.activate);
      if !ok {
        var _ := disk.RenamePath(p.backup, p.root, f.revert);
      } else {
        fn.Run(disk, p.root, e);
        restored := RestoreTemplateRootfs(disk, p, f);
        ok := restored && !e.failed;
      }
    }
    if !restored {
      UndoOnReturn(disk, p, f);
    }
  }

  method WithWritableTemplateRootfs(disk: Device, p: Paths, f: Faults, fn: Exporter, e: Export) returns (ok: bool)
    modifies disk, fn
    ensures var r := ExportRun(old(disk.State()), p, f, e);
            disk.State() == r.trace && ok == r.ok && fn.calls == old(fn.calls) + r.calls
  {
    hide Remove, CopyFile, Activate, Device.State, Trace.Current;
    ok := disk.RemovePath(p.backup, f.dropBackup);
    if !ok {
      return;
    }
    ok := disk.RemovePath(p.work, f.dropWork);
    if !ok {
      return;
    }
    ok := CopyOnDisk(disk, p.root, p.work, f.copy);
    if ok {
      ok := ActivateOnDisk(disk, p, f, fn, e);
    }
  }

  // ---------- what happens to the original ----------

  datatype Stage = NotCopied | NotAside | NotActivated | Exported

  function StageOf(before: Files, p: Paths, f: Faults): Stage {
    if f.dropBackup || f.dropWork || p.root !in before || f.copy.CopyFailed? then NotCopied
    else if f.moveAside then NotAside
    else if f.activate then NotActivated
    else Exported
  }

  // Exactly the runs that leave the original where it was, if the export
  // changed it.  Where activation fails, the deferred block removes the very
  // file the failing branch kept or put back.
  predicate Survives(before: Files, p: Paths, f: Faults) {
    match StageOf(before, p, f)
    case NotCopied => true
    case NotAside => f.deferRemove
    case NotActivated => if f.revert then !f.deferRename else f.deferRemove
    case Exported => (!f.restoreRemove && !f.restoreRename) || !f.deferRename
  }

  lemma CopiedFacts(before: Files, p: Paths, f: Faults, e: Export)
    requires p.Distinct() && p.root in before
    ensures var r := ExportRun(Start(before), p, f, e);
            && (StageOf(before, p, f) == NotCopied ==>
                  At(r.trace.now, p.root) == At(before, p.root) && r.trace.now - {p.backup, p.work} == before - {p.backup, p.work})
            && (StageOf(before, p, f) != NotCopied ==>
                  exists t: Trace :: t.now == (before - {p.backup})[p.work := before[p.root]] && r == Activate(t, p, f, e))
  {
    hide Activate;
    var backup := Remove(Start(before), p.backup, f.dropBackup);
    var work := Remove(backup.trace, p.work, f.dropWork);
    var copied := CopyFile(work.trace, p.root, p.work, f.copy);
    if StageOf(before, p, f) != NotCopied {
      assert copied.trace.now == (before - {p.backup})[p.work := before[p.root]];
      assert ExportRun(Start(before), p, f, e) == Activate(copied.trace, p, f, e);
    }
  }

  lemma NotAsideFacts(t: Trace, p: Paths, f: Faults, e: Export, before: Files)
    requires p.Distinct() && p.root in before && StageOf(before, p, f) == NotAside
    requires t.now == (before - {p.backup})[p.work := before[p.root]]
    ensures var r := Activate(t, p, f, e);
            !r.ok && At(r.trace.now, p.root) == if f.deferRemove then At(before, p.root) else None
  {
  }

  lemma NotActivatedFacts(t: Trace, p: Paths, f: Faults, e: Export, before: Files)
    requires p.Distinct() && p.root in before && StageOf(before, p, f) == NotActivated
    requires t.now == (before - {p.backup})[p.work := before[p.root]]
    ensures var r := Activate(t, p, f, e);
            !r.ok && At(r.trace.now, p.root) == if Survives(before, p, f) then At(before, p.root) else None
  {
  }

  // What the restore leaves once the export has run.
  lemma ExportedFacts(t: Trace, p: Paths, f: Faults, e: Export, before: Files)
    requires p.Distinct() && p.root in before && StageOf(before, p, f) == Exported
    requires t.now == (before - {p.backup})[p.work := before[p.root]]
    ensures var r := Activate(t, p, f, e);
            && (r.ok <==> !e.failed && !f.restoreRemove && !f.restoreRename)
            && At(r.trace.now, p.root) ==
               (if Survives(before, p, f) then At(before, p.root)
                else if f.restoreRemove && f.deferRemove then e.leaves
                else None)
            && (Survives(before, p, f) ==> r.trace.now == before - {p.backup, p.work})
  {
    var aside := Rename(t, p.root, p.backup, f.moveAside);
    var active := Rename(aside.trace, p.work, p.root, f.activate);
    assert active.trace.now - {p.root, p.backup, p.work} == before - {p.root, p.backup, p.work};
    assert p.work !in active.trace.now && active.trace.now[p.backup] == before[p.root];
    assert Activate(t, p, f, e) == Activated(active.trace, p, f, e);
    ActivatedFacts(active.trace, p, f, e, before);
  }

  lemma ActivatedFacts(t: Trace, p: Paths, f: Faults, e: Export, before: Files)
    requires p.Distinct() && p.root in before
    requires t.now - {p.root, p.backup, p.work} == before - {p.root, p.backup, p.work}
    requires p.work !in t.now && p.backup in t.now && t.now[p.backup] == before[p.root]
    ensures var r := Activated(t, p, f, e);
            var restored := !f.restoreRemove && !f.restoreRename;
            && (r.ok <==> !e.failed && restored)
            && At(r.trace.now, p.root) ==
               (if restored || !f.deferRename then At(before, p.root)
                else if f.restoreRemove && f.deferRemove then e.leaves
                else None)
            && (restored || !f.deferRename ==> r.trace.now == before - {p.backup, p.work})
  {
    var run := RunExport(t, p.root, e);
    assert run.now - {p.root, p.backup, p.work} == before - {p.root, p.backup, p.work};
    assert At(run.now, p.root) == e.leaves;
    RestoreFacts(run, p, f, before);
    var restored := Restore(run, p, f);
    hide Restore, RunExport;
    if !restored.ok {
      DeferredFacts(restored.trace, p, f, before);
    }
  }

  // The original waits at the backup and there is no work file.
  ghost predicate Waiting(d: Files, p: Paths, before: Files) {
    && p.root in before && p.work !in d && At(d, p.backup) == Some(before[p.root])
    && d - {p.root, p.backup, p.work} == before - {p.root, p.backup, p.work}
  }

  lemma Returned(d: Files, p: Paths, before: Files)
    requires p.Distinct() && p.root in before
    requires d - {p.root, p.backup, p.work} == before - {p.root, p.backup, p.work}
    requires At(d, p.root) == At(before, p.root) && p.backup !in d && p.work !in d
    ensures d == before - {p.backup, p.work}
  {
    var others := before - {p.root, p.backup, p.work};
    assert d == others[p.root := before[p.root]];
    assert before - {p.backup, p.work} == others[p.root := before[p.root]];
  }

  lemma RestoreFacts(t: Trace, p: Paths, f: Faults, before: Files)
    requires p.Distinct() && Waiting(t.now, p, before)
    ensures var r := Restore(t, p, f);
            && (r.ok <==> !f.restoreRemove && !f.restoreRename)
            && (r.ok ==> r.trace.now == before - {p.backup, p.work} && At(r.trace.now, p.root) == At(before, p.root))
            && (!r.ok ==> Waiting(r.trace.now, p, before)
                          && At(r.trace.now, p.root) == if f.restoreRemove then At(t.now, p.root) else None)
  {
    var r := Restore(t, p, f);
    if r.ok {
      Returned(r.trace.now, p, before);
    }
  }

  lemma DeferredFacts(t: Trace, p: Paths, f: Faults, before: Files)
    requires p.Distinct() && Waiting(t.now, p, before)
    ensures var d := Deferred(t, p, f).now;
            && (!f.deferRename ==> d == before - {p.backup, p.work} && At(d, p.root) == At(before, p.root))
            && (f.deferRename ==> At(d, p.root) == if f.deferRemove then At(t.now, p.root) else None)
  {
    var d := Deferred(t, p, f).now;
    if !f.deferRename {
      Returned(d, p, before);
    }
  }

  // Whether every step before the export works.
  predicate Reached(before: Files, p: Paths, f: Faults) {
    !f.dropBackup && !f.dropWork && p.root in before && f.copy.Copied? && !f.moveAside && !f.activate
  }

  lemma NotReachedFacts(t: Trace, p: Paths, f: Faults, e: Export)
    requires f.moveAside || f.activate
    ensures Activate(t, p, f, e).calls == [] && !Activate(t, p, f, e).ok
  {
  }

  // A run that reaches the export calls it once, with the root filesystem's path, on a disk
  // that has the original both there and at the backup, no work file, and all else as it
  // was; any other run never calls it.  The run succeeds exactly when the export does and
  // the restore works.
  lemma ExportSeesCopyIff(before: Files, p: Paths, f: Faults, e: Export)
    requires p.Distinct()
    ensures var r := ExportRun(Start(before), p, f, e);
            && (!Reached(before, p, f) ==> r.calls == [])
            && (Reached(before, p, f) ==>
                  && |r.calls| == 1 && r.calls[0].root == p.root
                  && var disk := r.calls[0].disk;
                     && At(disk, p.root) == Some(before[p.root]) == At(disk, p.backup) && p.work !in disk
                     && disk - {p.root, p.backup, p.work} == before - {p.root, p.backup, p.work})
            && (r.ok <==> Reached(before, p, f) && !e.failed && !f.restoreRemove && !f.restoreRename)
  {
    var r := ExportRun(Start(before), p, f, e);
    if p.root in before && StageOf(before, p, f) != NotCopied {
      CopiedFacts(before, p, f, e);
      hide Activate, ExportRun;
      var t: Trace :| t.now == (before - {p.backup})[p.work := before[p.root]] && r == Activate(t, p, f, e);
      if StageOf(before, p, f) == Exported {
        ExportedFacts(t, p, f, e, before);
        ExportedCall(t, p, f, e, before);
      } else {
        NotReachedFacts(t, p, f, e);
      }
    } else {
      hide Activate;
    }
  }

  lemma ExportedCall(t: Trace, p: Paths, f: Faults, e: Export, before: Files)
    requires p.Distinct() && p.root in before && !f.moveAside && !f.activate
    requires t.now == (before - {p.backup})[p.work := before[p.root]]
    ensures var calls := Activate(t, p, f, e).calls;
            && |calls| == 1 && calls[0].root == p.root
            && var disk := calls[0].disk;
               && At(disk, p.root) == Some(before[p.root]) == At(disk, p.backup) && p.work !in disk
               && disk - {p.root, p.backup, p.work} == before - {p.root, p.backup, p.work}
  {
    hide Restore, RunExport, Deferred;
  }

  // The original is at its path when the function returns exactly in the
  // surviving runs, for every export that changed the file there.
  lemma OriginalSurvivesIff(before: Files, p: Paths, f: Faults, e: Export)
    requires p.Distinct() && p.root in before
    requires e.leaves != Some(before[p.root])
    ensures At(ExportRun(Start(before), p, f, e).trace.now, p.root) == Some(before[p.root]) <==> Survives(before, p, f)
  {
    CopiedFacts(before, p, f, e);
    var r := ExportRun(Start(before), p, f, e);
    if StageOf(before, p, f) != NotCopied {
      hide Activate, ExportRun;
      var t: Trace :| t.now == (before - {p.backup})[p.work := before[p.root]] && r == Activate(t, p, f, e);
      match StageOf(before, p, f)
      case NotAside => NotAsideFacts(t, p, f, e, before);
      case NotActivated => NotActivatedFacts(t, p, f, e, before);
      case Exported => ExportedFacts(t, p, f, e, before);
    }
  }

  // Once the copy is active, no outcome of the export and no single failing call
  // of the restore costs the original or leaves a backup or work file.
  lemma RestoredDespiteOneFault(before: Files, p: Paths, f: Faults, e: Export)
    requires p.Distinct() && StageOf(before, p, f) == Exported
    requires f.restoreRemove || f.restoreRename ==> !f.deferRename
    ensures ExportRun(Start(before), p, f, e).trace.now == before - {p.backup, p.work}
  {
    CopiedFacts(before, p, f, e);
    var r := ExportRun(Start(before), p, f, e);
    hide Activate, ExportRun;
    var t: Trace :| t.now == (before - {p.backup})[p.work := before[p.root]] && r == Activate(t, p, f, e);
    ExportedFacts(t, p, f, e, before);
  }

  // A single failing rename before the export is enough to lose the template.
  lemma OneFailedRenameLosesOriginal(before: Files, p: Paths, f: Faults, e: Export)
    requires p.Distinct() && p.root in before && e.leaves != Some(before[p.root])
    requires f == Faults(false, false, Copied, true, false, false, false, false, false, false, false, false)
    ensures p.root !in ExportRun(Start(before), p, f, e).trace.now
  {
    CopiedFacts(before, p, f, e);
    var r := ExportRun(Start(before), p, f, e);
    hide Activate, ExportRun;
    var t: Trace :| t.now == (before - {p.backup})[p.work := before[p.root]] && r == Activate(t, p, f, e);
    NotAsideFacts(t, p, f, e, before);
  }
}

// The two-file snapshot commit of the Firecracker driver: new memfile and
// snapfile replace the old pair, with backups and rollback.
module SnapshotCommit {
  import opened Machine
  import opened Disk

  datatype Paths = Paths(mem: Path, snap: Path, tmpMem: Path, tmpSnap: Path, oldMem: Path, oldSnap: Path) {
    function Temporaries(): set<Path> {
      {tmpMem, tmpSnap, oldMem, oldSnap}
    }

    predicate Distinct() {
      && mem != snap && mem !in Temporaries() && snap !in Temporaries()
      && tmpMem != tmpSnap && tmpMem != oldMem && tmpMem != oldSnap
      && tmpSnap != oldMem && tmpSnap != oldSnap && oldMem != oldSnap
    }
  }

  function Derive(mem: Path, snap: Path, suffix: string): Paths {
    Paths(mem, snap, mem + suffix, snap + suffix, mem + ".old" + suffix, snap + ".old" + suffix)
  }

  lemma SuffixCancels(a: string, b: string, suffix: string)
    ensures a + suffix == b + suffix <==> a == b
    ensures suffix != "" ==> a + suffix != a
  {
    if a + suffix == b + suffix {
      assert |a| == |b|;
      assert a == (a + suffix)[..|a|] == (b + suffix)[..|b|] == b;
    }
    assert |a + suffix| == |a| + |suffix|;
  }

  // When the derived names can clash, in terms of the two target names only.
  lemma DerivedPathsDistinct(mem: Path, snap: Path, suffix: string)
    requires suffix != ""
    ensures Derive(mem, snap, suffix).Distinct() <==>
            && mem != snap
            && mem != snap + suffix && mem != snap + ".old" && mem != snap + ".old" + suffix
            && snap != mem + suffix && snap != mem + ".old" && snap != mem + ".old" + suffix
  {
    SuffixCancels(mem, snap, suffix);
    SuffixCancels(mem, snap + ".old", suffix);
    SuffixCancels(mem + ".old", snap, suffix);
    SuffixCancels(mem + ".old", snap + ".old", suffix);
    SuffixCancels(mem, snap, ".old");
    assert |mem + ".old" + suffix| > |mem + suffix| > |mem|;
    assert |snap + ".old" + suffix| > |snap + suffix| > |snap|;
  }

  // Which calls fail, named after what they do.  A stat fault is an error other
  // than "does not exist".
  datatype Faults = Faults(
    statTmpMem: bool, statTmpSnap: bool,
    statMem: bool, backupMem: bool,
    statSnap: bool, backupSnap: bool,
    installMem: bool, installSnap: bool,
    dropOldMem: bool, dropOldSnap: bool,
    undoRemoveMem: bool, undoRenameMem: bool,
    undoRemoveSnap: bool, undoRenameSnap: bool)

  // ---------- what each step does to the disk ----------

  datatype Moved = Moved(trace: Trace, had: bool, failed: bool)

  function MoveIfExists(t: Trace, src: Path, dst: Path, statFails: bool, renameFails: bool): (m: Moved)
    ensures t.Current() ==> m.trace.Current()
  {
    match Stat(t, src, statFails)
    case Unknown => Moved(t, false, true)
    case Absent => Moved(t, false, false)
    case Present =>
      var r := Rename(t, src, dst, renameFails);
      Moved(r.trace, r.ok, !r.ok)
  }

  function RollbackMove(t: Trace, src: Path, dst: Path, had: bool, removeFails: bool, renameFails: bool): (u: Trace)
    ensures t.Current() ==> u.Current()
  {
    if !had then t else Rename(Remove(t, dst, removeFails).trace, src, dst, renameFails).trace
  }

  function Ready(t: Trace, p: Paths, f: Faults): bool {
    Stat(t, p.tmpMem, f.statTmpMem) == Present && Stat(t, p.tmpSnap, f.statTmpSnap) == Present
  }

  function BackupMem(t: Trace, p: Paths, f: Faults): Moved {
    MoveIfExists(t, p.mem, p.oldMem, f.statMem, f.backupMem)
  }

  function BackupSnap(t: Trace, p: Paths, f: Faults): Moved {
    MoveIfExists(t, p.snap, p.oldSnap, f.statSnap, f.backupSnap)
  }

  function UndoMem(t: Trace, p: Paths, f: Faults, had: bool): Trace {
    RollbackMove(t, p.oldMem, p.mem, had, f.undoRemoveMem, f.undoRenameMem)
  }

  function UndoSnap(t: Trace, p: Paths, f: Faults, had: bool): Trace {
    RollbackMove(t, p.oldSnap, p.snap, had, f.undoRemoveSnap, f.undoRenameSnap)
  }

  // Installing the two new files once the old ones are out of the way.
  function Install(t: Trace, p: Paths, f: Faults, memHad: bool, snapHad: bool): (d: Done)
    ensures t.Current() ==> d.trace.Current()
  {
    var mem := Rename(t, p.tmpMem, p.mem, f.installMem);
    if !mem.ok then Done(UndoSnap(UndoMem(mem.trace, p, f, memHad), p, f, snapHad), false)
    else
      var snap := Rename(mem.trace, p.tmpSnap, p.snap, f.installSnap);
      if !snap.ok then Done(UndoSnap(UndoMem(snap.trace, p, f, memHad), p, f, snapHad), false)
      else Done(Remove(Remove(snap.trace, p.oldMem, f.dropOldMem).trace, p.oldSnap, f.dropOldSnap).trace, true)
  }

  function CommitRun(t: Trace, p: Paths, f: Faults): (d: Done)
    ensures t.Current() ==> d.trace.Current()
  {
    if !Ready(t, p, f) then Done(t, false)
    else
      var mem := BackupMem(t, p, f);
      if mem.failed then Done(mem.trace, false)
      else
        var snap := BackupSnap(mem.trace, p, f);
        if snap.failed then Done(UndoMem(snap.trace, p, f, mem.had), false)
        else Install(snap.trace, p, f, mem.had, snap.had)
  }

  // The same definition with its calls written out.
  lemma CommitRunUnfolds(t: Trace, p: Paths, f: Faults)
    ensures Stat(t, p.tmpMem, f.statTmpMem) != Present ==> CommitRun(t, p, f) == Done(t, false)
    ensures Stat(t, p.tmpSnap, f.statTmpSnap) != Present ==> CommitRun(t, p, f) == Done(t, false)
    ensures Stat(t, p.tmpMem, f.statTmpMem) == Stat(t, p.tmpSnap, f.statTmpSnap) == Present ==>
              CommitRun(t, p, f) ==
              var mem := MoveIfExists(t, p.mem, p.oldMem, f.statMem, f.backupMem);
              if mem.failed then Done(mem.trace, false)
              else
                var snap := MoveIfExists(mem.trace, p.snap, p.oldSnap, f.statSnap, f.backupSnap);
                if snap.failed then
                  Done(RollbackMove(snap.trace, p.oldMem, p.mem, mem.had, f.undoRemoveMem, f.undoRenameMem), false)
                else Install(snap.trace, p, f, mem.had, snap.had)
  {
    hide Stat, MoveIfExists, RollbackMove, Install;
  }

  function CleanupRun(t: Trace, p: Paths, fails: Path -> bool): Trace {
    var t1 := Remove(t, p.tmpMem, fails(p.tmpMem)).trace;
    var t2 := Remove(t1, p.tmpSnap, fails(p.tmpSnap)).trace;
    var t3 := Remove(t2, p.oldMem, fails(p.oldMem)).trace;
    Remove(t3, p.oldSnap, fails(p.oldSnap)).trace
  }

  // ---------- the driver's object ----------

  class AtomicSnapshotPaths {
    const paths: Paths
    var committed: bool

    constructor (paths: Paths)
      ensures this.paths == paths && !committed
    {
      this.paths := paths;
      committed := false;
    }

    static method MoveFileIfExists(disk: Device, src: Path, dst: Path, statFails: bool, renameFails: bool)
      returns (had: bool, failed: bool)
      modifies disk
      ensures Moved(disk.State(), had, failed) == MoveIfExists(old(disk.State()), src, dst, statFails, renameFails)
    {
      var p := disk.StatPath(src, statFails);
      if p != Present {
        return false, p == Unknown;
      }
      had := disk.RenamePath(src, dst, renameFails);
      failed := !had;
    }

    static method RollbackAtomicMove(disk: Device, src: Path, dst: Path, had: bool, removeFails: bool, renameFails: bool)
      modifies disk
      ensures disk.State() == RollbackMove(old(disk.State()), src, dst, had, removeFails, renameFails)
    {
      if had {
        var _ := disk.RemovePath(dst, removeFails);
        var _ := disk.RenamePath(src, dst, renameFails);
      }
    }

    // Removes what an earlier attempt may have left under the temporary names.
    static method Prepare(disk: Device, mem: Path, snap: Path, suffix: string, fails: Path -> bool)
      returns (r: Option<AtomicSnapshotPaths>)
      modifies disk
      ensures var p := Derive(mem, snap, suffix);
              && (r.Some? <==> forall q :: q in p.Temporaries() ==> !fails(q))
              && (r.Some? ==> fresh(r.value) && r.value.paths == p && !r.value.committed
                              && disk.files == old(disk.files) - p.Temporaries())
      ensures disk.files - Derive(mem, snap, suffix).Temporaries() == old(disk.files) - Derive(mem, snap, suffix).Temporaries()
    {
      var p := Derive(mem, snap, suffix);
      var stale := [p.tmpMem, p.tmpSnap, p.oldMem, p.oldSnap];
      for i := 0 to 4
        invariant forall j :: 0 <= j < i ==> !fails(stale[j])
        invariant disk.files == old(disk.files) - (set j | 0 <= j < i :: stale[j])
      {
        var ok := disk.RemovePath(stale[i], fails(stale[i]));
        if !ok {
          return None;
        }
      }
      var paths := new AtomicSnapshotPaths(p);
      assert (set j | 0 <= j < 4 :: stale[j]) == p.Temporaries() by {
        assert stale[0] == p.tmpMem && stale[1] == p.tmpSnap && stale[2] == p.oldMem && stale[3] == p.oldSnap;
      }
      r := Some(paths);
    }

    // The deferred rollback of the source runs before each failing return.
    method Commit(disk: Device, f: Faults) returns (ok: bool)
      modifies this, disk
      ensures Done(disk.State(), ok) == CommitRun(old(disk.State()), paths, f)
      ensures committed == (old(committed) || ok)
    {
      hide Rename, Remove, Stat, MoveIfExists, RollbackMove, Device.State, Install, BackupMem, BackupSnap, UndoMem, CommitRun, Ready, Trace.Current;
      CommitRunUnfolds(disk.State(), paths, f);
      ghost var t := disk.State();
      var tmpMem := disk.StatPath(paths.tmpMem, f.statTmpMem);
      if tmpMem != Present {
        return false;
      }
      var tmpSnap := disk.StatPath(paths.tmpSnap, f.statTmpSnap);
      if tmpSnap != Present {
        return false;
      }
      var memHad, memFailed := MoveFileIfExists(disk, paths.mem, paths.oldMem, f.statMem, f.backupMem);
      if memFailed {
        return false;
      }
      var snapHad, snapFailed := MoveFileIfExists(disk, paths.snap, paths.oldSnap, f.statSnap, f.backupSnap);
      if snapFailed {
        RollbackAtomicMove(disk, paths.oldMem, paths.mem, memHad, f.undoRemoveMem, f.undoRenameMem);
        return false;
      }
      ok := InstallFiles(disk, f, memHad, snapHad);
      committed := committed || ok;
    }

    method InstallFiles(disk: Device, f: Faults, memHad: bool, snapHad: bool) returns (ok: bool)
      modifies disk
      ensures Done(disk.State(), ok) == Install(old(disk.State()), paths, f, memHad, snapHad)
    {
      hide Rename, Remove, RollbackMove, Device.State, Trace.Current;
      ok := disk.RenamePath(paths.tmpMem, paths.mem, f.installMem);
      if !ok {
        RollbackAtomicMove(disk, paths.oldMem, paths.mem, memHad, f.undoRemoveMem, f.undoRenameMem);
        RollbackAtomicMove(disk, paths.oldSnap, paths.snap, snapHad, f.undoRemoveSnap, f.undoRenameSnap);
        return;
      }
      ok := disk.RenamePath(paths.tmpSnap, paths.snap, f.installSnap);
      if !ok {
        RollbackAtomicMove(disk, paths.oldMem, paths.mem, memHad, f.undoRemoveMem, f.undoRenameMem);
        RollbackAtomicMove(disk, paths.oldSnap, paths.snap, snapHad, f.undoRemoveSnap, f.undoRenameSnap);
        return;
      }
      var dropped := disk.RemovePath(paths.oldMem, f.dropOldMem);
      dropped := disk.RemovePath(paths.oldSnap, f.dropOldSnap);
    }

    method Cleanup(disk: Device, fails: Path -> bool)
      modifies disk
      ensures disk.State() == if committed then old(disk.State()) else CleanupRun(old(disk.State()), paths, fails)
    {
      if committed {
        return;
      }
      var _ := disk.RemovePath(paths.tmpMem, fails(paths.tmpMem));
      var _ := disk.RemovePath(paths.tmpSnap, fails(paths.tmpSnap));
      var _ := disk.RemovePath(paths.oldMem, fails(paths.oldMem));
      var _ := disk.RemovePath(paths.oldSnap, fails(paths.oldSnap));
    }
  }

  // ---------- what holds on every disk passed through ----------

  // The file a target had before is still at the target or at its backup.
  ghost predicate Kept(d: Files, before: Files, target: Path, backup: Path) {
    target in before ==>
      (target in d && d[target] == before[target]) || (backup in d && d[backup] == before[target])
  }

  ghost predicate IsAt(d: Files, path: Path, content: Content) {
    path in d && d[path] == content
  }

  ghost predicate BothNew(d: Files, before: Files, p: Paths)
    requires p.tmpMem in before && p.tmpSnap in before
  {
    IsAt(d, p.mem, before[p.tmpMem]) && IsAt(d, p.snap, before[p.tmpSnap])
  }

  ghost predicate BothOld(d: Files, before: Files, p: Paths) {
    p.mem in before && p.snap in before && IsAt(d, p.mem, before[p.mem]) && IsAt(d, p.snap, before[p.snap])
  }

  // Both targets present, and not as a pair that was ever written together.
  ghost predicate Torn(d: Files, before: Files, p: Paths)
    requires p.tmpMem in before && p.tmpSnap in before
  {
    p.mem in d && p.snap in d && !BothOld(d, before, p) && !BothNew(d, before, p)
  }

  // One side of the rollback.
  lemma UndoOne(t: Trace, target: Path, backup: Path, had: bool, removeFails: bool, renameFails: bool, before: Files)
    requires target != backup
    requires had ==> target in before && IsAt(t.now, backup, before[target])
    ensures var u := RollbackMove(t, backup, target, had, removeFails, renameFails);
            && u.now - {target, backup} == t.now - {target, backup}
            && t.seen <= u.seen
            && (!had ==> u == t)
            && (had && !renameFails ==> IsAt(u.now, target, before[target]) && backup !in u.now)
            && (had && renameFails ==> IsAt(u.now, backup, before[target]))
            && (had && renameFails && !removeFails ==> target !in u.now)
            && (had && renameFails && removeFails ==> u == t)
            && (forall i :: |t.seen| <= i < |u.seen| ==>
                  && u.seen[i] - {target, backup} == t.now - {target, backup}
                  && (target in u.seen[i] ==> !renameFails && u.seen[i][target] == before[target])
                  && Kept(u.seen[i], before, target, backup))
  {
  }

  // One side of the backup.
  lemma BackupOne(t: Trace, target: Path, backup: Path, statFails: bool, renameFails: bool)
    requires target != backup
    ensures var m := MoveIfExists(t, target, backup, statFails, renameFails);
            && m.trace.now - {target, backup} == t.now - {target, backup}
            && (m.failed ==> m.trace == t && !m.had)
            && (!m.failed ==> (m.had <==> target in t.now) && target !in m.trace.now)
            && (m.had ==> IsAt(m.trace.now, backup, t.now[target]) && m.trace.seen == t.seen + [m.trace.now])
            && (!m.had ==> m.trace == t)
  {
  }

  // Both old files are kept, and a file at a target is the old one.
  ghost predicate Calm(d: Files, before: Files, p: Paths) {
    && Kept(d, before, p.mem, p.oldMem) && Kept(d, before, p.snap, p.oldSnap)
    && (p.mem in d ==> p.mem in before && d[p.mem] == before[p.mem])
    && (p.snap in d ==> p.snap in before && d[p.snap] == before[p.snap])
  }

  // Both targets empty, the old files at their backups, all else as before.
  ghost predicate Aside(d: Files, before: Files, p: Paths) {
    && p.mem !in d && p.snap !in d
    && (p.mem in before ==> IsAt(d, p.oldMem, before[p.mem]))
    && (p.snap in before ==> IsAt(d, p.oldSnap, before[p.snap]))
    && d - Touched(p) == before - Touched(p)
  }

  ghost function Touched(p: Paths): set<Path> {
    {p.mem, p.oldMem, p.snap, p.oldSnap}
  }

  // Every disk of u that t had not passed yet.
  ghost predicate Since(t: Trace, u: Trace, good: Files -> bool) {
    t.seen <= u.seen && forall i :: |t.seen| <= i < |u.seen| ==> good(u.seen[i])
  }

  lemma BackupsFacts(before: Files, p: Paths, f: Faults)
    requires p.Distinct()
    ensures var t := Start(before);
            var mem := BackupMem(t, p, f);
            && Since(t, mem.trace, d => Calm(d, before, p))
            && (mem.failed ==> mem.trace == t)
            && (!mem.failed ==>
                  var snap := BackupSnap(mem.trace, p, f);
                  && (mem.had <==> p.mem in before)
                  && (snap.failed ==> snap.trace == mem.trace && p.mem !in snap.trace.now
                                      && snap.trace.now - {p.mem, p.oldMem} == before - {p.mem, p.oldMem}
                                      && (mem.had ==> IsAt(snap.trace.now, p.oldMem, before[p.mem])))
                  && (!snap.failed ==>
                        && (snap.had <==> p.snap in before)
                        && Since(t, snap.trace, d => Calm(d, before, p))
                        && Aside(snap.trace.now, before, p)))
  {
    hide MoveIfExists, Trace.Current;
    var t := Start(before);
    BackupOne(t, p.mem, p.oldMem, f.statMem, f.backupMem);
    var mem := BackupMem(t, p, f);
    if !mem.failed {
      SameElsewhere(mem.trace.now, before, {p.mem, p.oldMem}, p.snap);
      SameElsewhere(mem.trace.now, before, {p.mem, p.oldMem}, p.oldSnap);
      BackupOne(mem.trace, p.snap, p.oldSnap, f.statSnap, f.backupSnap);
      var snap := BackupSnap(mem.trace, p, f);
      SameElsewhere(snap.trace.now, mem.trace.now, {p.snap, p.oldSnap}, p.mem);
      SameElsewhere(snap.trace.now, mem.trace.now, {p.snap, p.oldSnap}, p.oldMem);
      SameOutsideBoth(snap.trace.now, mem.trace.now, before, {p.mem, p.oldMem}, {p.snap, p.oldSnap}, Touched(p));
    }
  }

  lemma SameElsewhere(d: Files, e: Files, touched: set<Path>, q: Path)
    requires d - touched == e - touched && q !in touched
    ensures q in d <==> q in e
    ensures q in d ==> d[q] == e[q]
  {
    assert q in d <==> q in d - touched;
    assert q in e <==> q in e - touched;
  }

  lemma SameOutsideBoth(d: Files, e: Files, g: Files, first: set<Path>, second: set<Path>, all: set<Path>)
    requires d - second == e - second && e - first == g - first
    requires all == first + second
    ensures d - all == g - all
  {
    assert d - all == (d - second) - first;
    assert e - all == (e - first) - second == (e - second) - first;
    assert g - all == (g - first) - second;
  }

  // The rollback after a failed install: t has no file at the snapfile target.
  lemma UndoBoth(t: Trace, p: Paths, f: Faults, before: Files, memHad: bool, snapHad: bool)
    requires p.Distinct()
    requires memHad == (p.mem in before) && snapHad == (p.snap in before)
    requires p.snap !in t.now
    requires memHad ==> IsAt(t.now, p.oldMem, before[p.mem])
    requires snapHad ==> IsAt(t.now, p.oldSnap, before[p.snap])
    ensures var u := UndoMem(t, p, f, memHad);
            var w := UndoSnap(u, p, f, snapHad);
            && Since(t, u, d => p.snap !in d && Kept(d, before, p.mem, p.oldMem) && Kept(d, before, p.snap, p.oldSnap))
            && Since(u, w, d => At(d, p.mem) == At(u.now, p.mem)
                                && (p.snap in d ==> snapHad && d[p.snap] == before[p.snap] && IsAt(w.now, p.snap, before[p.snap]))
                                && Kept(d, before, p.mem, p.oldMem) && Kept(d, before, p.snap, p.oldSnap))
            && At(w.now, p.mem) == At(u.now, p.mem)
            && At(u.now, p.mem) == AfterUndo(t.now, p.mem, before, memHad, f.undoRemoveMem, f.undoRenameMem)
            && At(w.now, p.snap) == AfterUndo(t.now, p.snap, before, snapHad, f.undoRemoveSnap, f.undoRenameSnap)
            && w.now - Touched(p) == t.now - Touched(p)
  {
    hide RollbackMove, Trace.Current;
    UndoOne(t, p.mem, p.oldMem, memHad, f.undoRemoveMem, f.undoRenameMem, before);
    var u := UndoMem(t, p, f, memHad);
    forall d: Files | d - {p.mem, p.oldMem} == t.now - {p.mem, p.oldMem}
      ensures p.snap !in d && At(d, p.oldSnap) == At(t.now, p.oldSnap)
    {
      SameElsewhere(d, t.now, {p.mem, p.oldMem}, p.snap);
      SameElsewhere(d, t.now, {p.mem, p.oldMem}, p.oldSnap);
    }
    UndoOne(u, p.snap, p.oldSnap, snapHad, f.undoRemoveSnap, f.undoRenameSnap, before);
    var w := UndoSnap(u, p, f, snapHad);
    forall d: Files | d - {p.snap, p.oldSnap} == u.now - {p.snap, p.oldSnap}
      ensures At(d, p.mem) == At(u.now, p.mem) && At(d, p.oldMem) == At(u.now, p.oldMem)
    {
      SameElsewhere(d, u.now, {p.snap, p.oldSnap}, p.mem);
      SameElsewhere(d, u.now, {p.snap, p.oldSnap}, p.oldMem);
    }
    SameOutsideBoth(w.now, u.now, t.now, {p.mem, p.oldMem}, {p.snap, p.oldSnap}, Touched(p));
  }

  // What one side of the rollback leaves at its target.
  function AfterUndo(d: Files, target: Path, before: Files, had: bool, removeFails: bool, renameFails: bool): Option<Content>
    requires had ==> target in before
  {
    if !had then At(d, target)
    else if !renameFails then Some(before[target])
    else if !removeFails then None
    else At(d, target)
  }

  ghost predicate KeptBoth(d: Files, before: Files, p: Paths) {
    Kept(d, before, p.mem, p.oldMem) && Kept(d, before, p.snap, p.oldSnap)
  }

  ghost predicate SafeDisk(d: Files, before: Files, p: Paths)
    requires p.tmpMem in before && p.tmpSnap in before
  {
    KeptBoth(d, before, p) || BothNew(d, before, p)
  }

  // The two installing renames, from a disk where the old pair is aside.
  lemma InstallStep(t: Trace, p: Paths, f: Faults, before: Files)
    requires p.Distinct() && Aside(t.now, before, p)
    requires p.tmpMem in before && p.tmpSnap in before
    ensures var mem := Rename(t, p.tmpMem, p.mem, f.installMem);
            && mem.ok == !f.installMem
            && (!mem.ok ==> mem.trace == t)
            && (mem.ok ==>
                  && mem.trace.seen == t.seen + [mem.trace.now]
                  && mem.trace.now == (t.now - {p.tmpMem})[p.mem := before[p.tmpMem]]
                  && p.snap !in mem.trace.now && KeptBoth(mem.trace.now, before, p)
                  && IsAt(mem.trace.now, p.tmpSnap, before[p.tmpSnap]))
  {
    SameElsewhere(t.now, before, Touched(p), p.tmpMem);
    SameElsewhere(t.now, before, Touched(p), p.tmpSnap);
  }

  lemma InstallBoth(t: Trace, p: Paths, f: Faults, before: Files)
    requires p.Distinct() && Aside(t.now, before, p)
    requires p.tmpMem in before && p.tmpSnap in before
    requires !f.installMem
    ensures var mem := Rename(t, p.tmpMem, p.mem, f.installMem);
            var snap := Rename(mem.trace, p.tmpSnap, p.snap, f.installSnap);
            && snap.ok == !f.installSnap
            && (!snap.ok ==> snap.trace == mem.trace)
            && (snap.ok ==>
                  && snap.trace.seen == mem.trace.seen + [snap.trace.now]
                  && snap.trace.now == (t.now - {p.tmpMem, p.tmpSnap})[p.mem := before[p.tmpMem]][p.snap := before[p.tmpSnap]]
                  && BothNew(snap.trace.now, before, p))
  {
    InstallStep(t, p, f, before);
  }

  // Success: the new pair, the old files and the temporary ones gone (an old
  // file stays at its backup if dropping it fails), everything else untouched.
  lemma InstallSucceeds(t: Trace, p: Paths, f: Faults, before: Files, memHad: bool, snapHad: bool)
    requires p.Distinct() && Aside(t.now, before, p)
    requires p.tmpMem in before && p.tmpSnap in before
    requires !f.installMem && !f.installSnap
    ensures var r := Install(t, p, f, memHad, snapHad);
            && r.ok
            && Since(t, r.trace, d => SafeDisk(d, before, p))
            && Since(t, r.trace, d => !Torn(d, before, p))
            && r.trace.now - {p.oldMem, p.oldSnap} ==
               (before - p.Temporaries())[p.mem := before[p.tmpMem]][p.snap := before[p.tmpSnap]]
            && (!f.dropOldMem ==> p.oldMem !in r.trace.now) && (!f.dropOldSnap ==> p.oldSnap !in r.trace.now)
  {
    hide Rename, Trace.Current;
    InstallStep(t, p, f, before);
    InstallBoth(t, p, f, before);
    var mem := Rename(t, p.tmpMem, p.mem, f.installMem);
    var snap := Rename(mem.trace, p.tmpSnap, p.snap, f.installSnap);
    var one := Remove(snap.trace, p.oldMem, f.dropOldMem);
    var two := Remove(one.trace, p.oldSnap, f.dropOldSnap);
    assert BothNew(one.trace.now, before, p) && BothNew(two.trace.now, before, p);
    assert Install(t, p, f, memHad, snapHad) == Done(two.trace, true);
    InstalledFiles(t.now, snap.trace.now, two.trace.now, before, p);
  }

  lemma InstalledFiles(aside: Files, installed: Files, d: Files, before: Files, p: Paths)
    requires p.Distinct() && Aside(aside, before, p)
    requires p.tmpMem in before && p.tmpSnap in before
    requires installed == (aside - {p.tmpMem, p.tmpSnap})[p.mem := before[p.tmpMem]][p.snap := before[p.tmpSnap]]
    requires d - {p.oldMem, p.oldSnap} == installed - {p.oldMem, p.oldSnap}
    ensures d - {p.oldMem, p.oldSnap} ==
            (before - p.Temporaries())[p.mem := before[p.tmpMem]][p.snap := before[p.tmpSnap]]
  {
    var all := Touched(p) + {p.tmpMem, p.tmpSnap};
    assert aside - all == before - all by {
      assert aside - all == (aside - Touched(p)) - {p.tmpMem, p.tmpSnap};
      assert before - all == (before - Touched(p)) - {p.tmpMem, p.tmpSnap};
    }
    assert installed - {p.oldMem, p.oldSnap} == (aside - all)[p.mem := before[p.tmpMem]][p.snap := before[p.tmpSnap]];
    assert (before - p.Temporaries())[p.mem := before[p.tmpMem]][p.snap := before[p.tmpSnap]] ==
           (before - all)[p.mem := before[p.tmpMem]][p.snap := before[p.tmpSnap]];
  }

  // How far a commit gets, from the disk it starts on and the calls that fail.
  datatype Stage = NotReady | MemNotBackedUp | SnapNotBackedUp | MemNotInstalled | SnapNotInstalled | Committed

  function StageOf(before: Files, p: Paths, f: Faults): Stage {
    if p.tmpMem !in before || p.tmpSnap !in before || f.statTmpMem || f.statTmpSnap then NotReady
    else if f.statMem || (p.mem in before && f.backupMem) then MemNotBackedUp
    else if f.statSnap || (p.snap in before && f.backupSnap) then SnapNotBackedUp
    else if f.installMem then MemNotInstalled
    else if f.installSnap then SnapNotInstalled
    else Committed
  }

  // What a commit leaves at the two targets.
  function FinalMem(before: Files, p: Paths, f: Faults): Option<Content> {
    match StageOf(before, p, f)
    case NotReady => At(before, p.mem)
    case MemNotBackedUp => At(before, p.mem)
    case SnapNotBackedUp => if p.mem in before && f.undoRenameMem then None else At(before, p.mem)
    case MemNotInstalled => if p.mem in before && f.undoRenameMem then None else At(before, p.mem)
    case SnapNotInstalled =>
      if p.mem in before && !f.undoRenameMem then Some(before[p.mem])
      else if p.mem in before && !f.undoRemoveMem then None
      else Some(before[p.tmpMem])
    case Committed => Some(before[p.tmpMem])
  }

  function FinalSnap(before: Files, p: Paths, f: Faults): Option<Content> {
    match StageOf(before, p, f)
    case MemNotInstalled => if p.snap in before && f.undoRenameSnap then None else At(before, p.snap)
    case SnapNotInstalled => if p.snap in before && f.undoRenameSnap then None else At(before, p.snap)
    case Committed => Some(before[p.tmpSnap])
    case _ => At(before, p.snap)
  }

  ghost function AllSix(p: Paths): set<Path> {
    p.Temporaries() + {p.mem, p.snap}
  }

  // The commit's result and final disk, for every disk and every set of faults.
  ghost predicate Outcome(d: Files, before: Files, p: Paths, f: Faults) {
    && At(d, p.mem) == FinalMem(before, p, f)
    && At(d, p.snap) == FinalSnap(before, p, f)
    && d - AllSix(p) == before - AllSix(p)
  }

  // The disk on which a failed install starts its rollback.
  ghost function Midway(t: Trace, p: Paths, f: Faults): Trace {
    Rename(t, p.tmpMem, p.mem, f.installMem).trace
  }

  lemma InstallFailsFrom(t: Trace, p: Paths, f: Faults, before: Files, memHad: bool, snapHad: bool)
    requires p.Distinct() && Aside(t.now, before, p)
    requires StageOf(before, p, f) == MemNotInstalled || StageOf(before, p, f) == SnapNotInstalled
    requires memHad == (p.mem in before) && snapHad == (p.snap in before)
    ensures var mid := Midway(t, p, f);
            && Install(t, p, f, memHad, snapHad) == Done(UndoSnap(UndoMem(mid, p, f, memHad), p, f, snapHad), false)
            && At(mid.now, p.mem) == (if f.installMem then None else Some(before[p.tmpMem]))
            && p.snap !in mid.now
            && (memHad ==> IsAt(mid.now, p.oldMem, before[p.mem]))
            && (snapHad ==> IsAt(mid.now, p.oldSnap, before[p.snap]))
            && Since(t, mid, d => KeptBoth(d, before, p) && p.snap !in d)
            && mid.now - AllSix(p) == before - AllSix(p)
  {
    InstallStep(t, p, f, before);
    if !f.installMem {
      InstallBoth(t, p, f, before);
    }
    hide Rename, RollbackMove;
    var mid := Midway(t, p, f);
    assert t.now - AllSix(p) == (t.now - Touched(p)) - {p.tmpMem, p.tmpSnap};
    assert before - AllSix(p) == (before - Touched(p)) - {p.tmpMem, p.tmpSnap};
    assert mid.now - AllSix(p) == t.now - AllSix(p);
  }

  lemma InstallFails(t: Trace, p: Paths, f: Faults, before: Files, memHad: bool, snapHad: bool)
    requires p.Distinct() && Aside(t.now, before, p)
    requires StageOf(before, p, f) == MemNotInstalled || StageOf(before, p, f) == SnapNotInstalled
    requires memHad == (p.mem in before) && snapHad == (p.snap in before)
    ensures var r := Install(t, p, f, memHad, snapHad);
            && !r.ok && Outcome(r.trace.now, before, p, f)
            && Since(t, r.trace, d => KeptBoth(d, before, p))
            && (!Torn(r.trace.now, before, p) ==> Since(t, r.trace, d => !Torn(d, before, p)))
  {
    hide Install, UndoMem, UndoSnap, Midway, Trace.Current;
    InstallFailsFrom(t, p, f, before, memHad, snapHad);
    var mid := Midway(t, p, f);
    UndoBothTraced(mid, p, f, before, memHad, snapHad);
    var w := UndoSnap(UndoMem(mid, p, f, memHad), p, f, snapHad);
    assert w.now - AllSix(p) == mid.now - AllSix(p) by {
      assert w.now - AllSix(p) == (w.now - Touched(p)) - {p.tmpMem, p.tmpSnap};
      assert mid.now - AllSix(p) == (mid.now - Touched(p)) - {p.tmpMem, p.tmpSnap};
    }
  }

  // The rollback as one piece: a pair it passes through is the pair it ends on.
  lemma UndoBothTraced(t: Trace, p: Paths, f: Faults, before: Files, memHad: bool, snapHad: bool)
    requires p.Distinct()
    requires memHad == (p.mem in before) && snapHad == (p.snap in before)
    requires p.tmpMem in before && p.tmpSnap in before
    requires p.snap !in t.now
    requires memHad ==> IsAt(t.now, p.oldMem, before[p.mem])
    requires snapHad ==> IsAt(t.now, p.oldSnap, before[p.snap])
    ensures var w := UndoSnap(UndoMem(t, p, f, memHad), p, f, snapHad);
            && Since(t, w, d => KeptBoth(d, before, p))
            && (!Torn(w.now, before, p) ==> Since(t, w, d => !Torn(d, before, p)))
            && At(w.now, p.mem) == AfterUndo(t.now, p.mem, before, memHad, f.undoRemoveMem, f.undoRenameMem)
            && At(w.now, p.snap) == AfterUndo(t.now, p.snap, before, snapHad, f.undoRemoveSnap, f.undoRenameSnap)
            && w.now - Touched(p) == t.now - Touched(p)
  {
    hide UndoMem, UndoSnap;
    UndoBoth(t, p, f, before, memHad, snapHad);
  }

  lemma BackupStage(before: Files, p: Paths, f: Faults)
    requires p.Distinct()
    ensures var t := Start(before);
            && (Ready(t, p, f) <==> StageOf(before, p, f) != NotReady)
            && (Ready(t, p, f) ==>
                  var mem := BackupMem(t, p, f);
                  && (mem.failed <==> StageOf(before, p, f) == MemNotBackedUp)
                  && (!mem.failed ==>
                        (BackupSnap(mem.trace, p, f).failed <==> StageOf(before, p, f) == SnapNotBackedUp)))
  {
  }

  lemma SnapBackupFails(before: Files, p: Paths, f: Faults)
    requires p.Distinct() && StageOf(before, p, f) == SnapNotBackedUp
    ensures var r := CommitRun(Start(before), p, f);
            && !r.ok && Outcome(r.trace.now, before, p, f)
            && Since(Start(before), r.trace, d => Calm(d, before, p))
  {
    var t := Start(before);
    BackupStage(before, p, f);
    BackupsFacts(before, p, f);
    hide MoveIfExists, RollbackMove;
    var mem := BackupMem(t, p, f);
    var snap := BackupSnap(mem.trace, p, f);
    UndoOne(snap.trace, p.mem, p.oldMem, mem.had, f.undoRemoveMem, f.undoRenameMem, before);
    var u := UndoMem(snap.trace, p, f, mem.had);
    assert CommitRun(t, p, f) == Done(u, false);
    forall d: Files | d - {p.mem, p.oldMem} == before - {p.mem, p.oldMem}
      ensures At(d, p.snap) == At(before, p.snap) && At(d, p.oldSnap) == At(before, p.oldSnap)
    {
      SameElsewhere(d, before, {p.mem, p.oldMem}, p.snap);
      SameElsewhere(d, before, {p.mem, p.oldMem}, p.oldSnap);
    }
    assert u.now - AllSix(p) == (u.now - {p.mem, p.oldMem}) - AllSix(p);
    assert before - AllSix(p) == (before - {p.mem, p.oldMem}) - AllSix(p);
  }

  // Every run of the commit: when it succeeds, what it leaves at the targets
  // and that it touches nothing else; and on every disk it passes through the
  // old files still exist, or both new ones are in place.
  lemma CommitOutcome(before: Files, p: Paths, f: Faults)
    requires p.Distinct()
    ensures var r := CommitRun(Start(before), p, f);
            && (r.ok <==> StageOf(before, p, f) == Committed)
            && Outcome(r.trace.now, before, p, f)
            && (r.ok ==>
                  r.trace.now - {p.oldMem, p.oldSnap} ==
                  (before - p.Temporaries())[p.mem := before[p.tmpMem]][p.snap := before[p.tmpSnap]])
            && (p.tmpMem in before && p.tmpSnap in before ==>
                  forall d :: d in r.trace.seen ==> SafeDisk(d, before, p))
  {
    var t := Start(before);
    BackupStage(before, p, f);
    BackupsFacts(before, p, f);
    var stage := StageOf(before, p, f);
    if stage == SnapNotBackedUp {
      SnapBackupFails(before, p, f);
    } else if stage == Committed {
      CommitSucceeds(before, p, f);
    } else if stage != NotReady && stage != MemNotBackedUp {
      CommitRollsBack(before, p, f);
    }
  }

  lemma CommitSucceeds(before: Files, p: Paths, f: Faults)
    requires p.Distinct()
    requires StageOf(before, p, f) == Committed
    ensures var r := CommitRun(Start(before), p, f);
            && r.ok && Outcome(r.trace.now, before, p, f)
            && r.trace.now - {p.oldMem, p.oldSnap} ==
               (before - p.Temporaries())[p.mem := before[p.tmpMem]][p.snap := before[p.tmpSnap]]
            && Since(Start(before), r.trace, d => !Torn(d, before, p))
            && Since(Start(before), r.trace, d => SafeDisk(d, before, p))
  {
    var t := Start(before);
    BackupStage(before, p, f);
    BackupsFacts(before, p, f);
    hide BackupMem, BackupSnap, Install, Trace.Current;
    var mem := BackupMem(t, p, f);
    var snap := BackupSnap(mem.trace, p, f);
    assert CommitRun(t, p, f) == Install(snap.trace, p, f, mem.had, snap.had);
    InstallSucceeds(snap.trace, p, f, before, mem.had, snap.had);
    SuccessOutcome(CommitRun(t, p, f).trace.now, before, p, f);
  }

  lemma CommitRollsBack(before: Files, p: Paths, f: Faults)
    requires p.Distinct()
    requires StageOf(before, p, f) == MemNotInstalled || StageOf(before, p, f) == SnapNotInstalled
    ensures var r := CommitRun(Start(before), p, f);
            && !r.ok && Outcome(r.trace.now, before, p, f)
            && (!Torn(r.trace.now, before, p) ==> Since(Start(before), r.trace, d => !Torn(d, before, p)))
            && Since(Start(before), r.trace, d => SafeDisk(d, before, p))
  {
    var t := Start(before);
    BackupStage(before, p, f);
    BackupsFacts(before, p, f);
    hide BackupMem, BackupSnap, Install, Trace.Current;
    var mem := BackupMem(t, p, f);
    var snap := BackupSnap(mem.trace, p, f);
    assert CommitRun(t, p, f) == Install(snap.trace, p, f, mem.had, snap.had);
    InstallFails(snap.trace, p, f, before, mem.had, snap.had);
    CalmIsSafe(before, p);
    var r := CommitRun(t, p, f).trace;
    hide Torn, Calm, SafeDisk, KeptBoth;
    SinceTransitive(t, snap.trace, r, d => SafeDisk(d, before, p));
    if !Torn(r.now, before, p) {
      SinceTransitive(t, snap.trace, r, d => !Torn(d, before, p));
    }
  }

  lemma SinceTransitive(t: Trace, u: Trace, w: Trace, good: Files -> bool)
    requires Since(t, u, good) && Since(u, w, good)
    ensures Since(t, w, good)
  {
  }

  lemma CalmIsSafe(before: Files, p: Paths)
    requires p.tmpMem in before && p.tmpSnap in before
    ensures forall d :: Calm(d, before, p) ==> SafeDisk(d, before, p)
    ensures forall d :: Calm(d, before, p) ==> !Torn(d, before, p)
    ensures forall d :: KeptBoth(d, before, p) ==> SafeDisk(d, before, p)
  {
  }

  lemma SuccessOutcome(d: Files, before: Files, p: Paths, f: Faults)
    requires p.Distinct() && StageOf(before, p, f) == Committed
    requires d - {p.oldMem, p.oldSnap} ==
             (before - p.Temporaries())[p.mem := before[p.tmpMem]][p.snap := before[p.tmpSnap]]
    ensures Outcome(d, before, p, f)
  {
    var e := (before - p.Temporaries())[p.mem := before[p.tmpMem]][p.snap := before[p.tmpSnap]];
    assert e - {p.oldMem, p.oldSnap} == e;
    SameElsewhere(d, e, {p.oldMem, p.oldSnap}, p.mem);
    SameElsewhere(d, e, {p.oldMem, p.oldSnap}, p.snap);
    assert d - AllSix(p) == (d - {p.oldMem, p.oldSnap}) - AllSix(p);
    assert e - AllSix(p) == before - AllSix(p);
  }

  // The one way to mix the pairs: the second install fails, the old snapfile is
  // put back, and the new memfile stays - there was none before it, or neither
  // of the calls that would take it away succeeds.
  predicate MixesPairs(before: Files, p: Paths, f: Faults) {
    && StageOf(before, p, f) == SnapNotInstalled
    && p.snap in before && !f.undoRenameSnap && before[p.snap] != before[p.tmpSnap]
    && (p.mem in before ==> f.undoRemoveMem && f.undoRenameMem && before[p.mem] != before[p.tmpMem])
  }

  // No disk the commit passes through, rollback included, holds one old and one
  // new file, except in exactly that case.
  lemma NeverTornIff(before: Files, p: Paths, f: Faults)
    requires p.Distinct() && p.tmpMem in before && p.tmpSnap in before
    ensures (forall d :: d in CommitRun(Start(before), p, f).trace.seen ==> !Torn(d, before, p)) <==>
            !MixesPairs(before, p, f)
  {
    var t := Start(before);
    var r := CommitRun(t, p, f);
    CommitOutcome(before, p, f);
    var stage := StageOf(before, p, f);
    BackupStage(before, p, f);
    if stage == SnapNotBackedUp {
      SnapBackupFails(before, p, f);
    } else if stage == Committed {
      CommitSucceeds(before, p, f);
    } else if stage != NotReady && stage != MemNotBackedUp {
      CommitRollsBack(before, p, f);
    }
    assert r.trace.now in r.trace.seen;
    hide CommitRun, Torn;
    TornOutcome(r.trace.now, before, p, f);
  }

  lemma TornOutcome(d: Files, before: Files, p: Paths, f: Faults)
    requires p.Distinct() && p.tmpMem in before && p.tmpSnap in before
    requires Outcome(d, before, p, f)
    ensures Torn(d, before, p) <==> MixesPairs(before, p, f)
  {
  }

  // With a memfile to fall back on, one failing call is not enough to mix them.
  lemma NeverTornUnlessRollbackFails(before: Files, p: Paths, f: Faults)
    requires p.Distinct() && p.tmpMem in before && p.tmpSnap in before
    requires p.mem in before && !(f.undoRemoveMem && f.undoRenameMem)
    ensures forall d :: d in CommitRun(Start(before), p, f).trace.seen ==> !Torn(d, before, p)
  {
    NeverTornIff(before, p, f);
  }

  const EXAMPLE := Paths("m", "s", "m.tmp", "s.tmp", "m.old.tmp", "s.old.tmp")

  const NO_FAULTS := Faults(false, false, false, false, false, false, false, false, false, false, false, false, false, false)

  lemma ExampleIsDistinct()
    ensures EXAMPLE.Distinct()
  {
    assert |"m.tmp"| == |"s.tmp"| == 5 && |"m.old.tmp"| == |"s.old.tmp"| == 9;
    assert "m.tmp"[0] != "s.tmp"[0] && "m.old.tmp"[0] != "s.old.tmp"[0];
  }

  // A first snapshot whose snapfile cannot be installed next to a left-over one: at the
  // end the new memfile stands beside the old snapfile.
  lemma FirstMemfileCanBeMixed()
    ensures var before := map["s" := [1], "m.tmp" := [2], "s.tmp" := [3]];
            var r := CommitRun(Start(before), EXAMPLE, NO_FAULTS.(installSnap := true));
            !r.ok && At(r.trace.now, "m") == Some([2]) && At(r.trace.now, "s") == Some([1])
  {
    var before: Files := map["s" := [1], "m.tmp" := [2], "s.tmp" := [3]];
    var f := NO_FAULTS.(installSnap := true);
    ExampleIsDistinct();
    assert StageOf(before, EXAMPLE, f) == SnapNotInstalled;
    CommitOutcome(before, EXAMPLE, f);
    hide CommitRun, StageOf;
  }

  ghost predicate RollbackWorks(f: Faults) {
    !f.undoRenameMem && !f.undoRenameSnap
  }

  lemma CleanupRemovesTemporaries(t: Trace, p: Paths)
    ensures CleanupRun(t, p, (q: Path) => false).now == t.now - p.Temporaries()
  {
  }

  // A failed commit followed by the cleanup puts both targets back as they were
  // and leaves nothing else behind - exactly unless a memfile that did not exist
  // before was already installed.
  lemma FailedCommitRestoresIff(before: Files, p: Paths, f: Faults)
    requires p.Distinct() && RollbackWorks(f)
    requires StageOf(before, p, f) != Committed
    ensures CleanupRun(CommitRun(Start(before), p, f).trace, p, (q: Path) => false).now == before - p.Temporaries() <==>
            !(StageOf(before, p, f) == SnapNotInstalled && p.mem !in before)
  {
    CommitOutcome(before, p, f);
    CleanupRemovesTemporaries(CommitRun(Start(before), p, f).trace, p);
    hide CommitRun, CleanupRun;
    RestoredIff(CommitRun(Start(before), p, f).trace.now, before, p, f);
  }

  lemma RestoredIff(d: Files, before: Files, p: Paths, f: Faults)
    requires p.Distinct() && Outcome(d, before, p, f)
    ensures d - p.Temporaries() == before - p.Temporaries() <==>
            FinalMem(before, p, f) == At(before, p.mem) && FinalSnap(before, p, f) == At(before, p.snap)
  {
    hide FinalMem, FinalSnap;
    var after, goal := d - p.Temporaries(), before - p.Temporaries();
    assert At(after, p.mem) == At(d, p.mem) && At(after, p.snap) == At(d, p.snap);
    assert At(goal, p.mem) == At(before, p.mem) && At(goal, p.snap) == At(before, p.snap);
    assert after - {p.mem, p.snap} == d - AllSix(p);
    assert goal - {p.mem, p.snap} == before - AllSix(p);
    if At(after, p.mem) == At(goal, p.mem) && At(after, p.snap) == At(goal, p.snap) {
      SameByParts(after, goal, p.mem, p.snap);
    }
  }

  lemma SameByParts(d: Files, e: Files, a: Path, b: Path)
    requires At(d, a) == At(e, a) && At(d, b) == At(e, b) && d - {a, b} == e - {a, b}
    ensures d == e
  {
    forall q
      ensures At(d, q) == At(e, q)
    {
      if q != a && q != b {
        SameElsewhere(d, e, {a, b}, q);
      }
    }
    assert forall q :: q in d <==> At(d, q).Some?;
    assert forall q :: q in e <==> At(e, q).Some?;
  }

  lemma RemoveKeepsOther(t: Trace, path: Path, fails: bool, q: Path)
    requires q != path
    ensures At(Remove(t, path, fails).trace.now, q) == At(t.now, q)
  {
  }

  // Whichever removals of the cleanup fail, the targets are not among them.
  lemma CleanupKeepsTargets(t: Trace, p: Paths, fails: Path -> bool)
    requires p.Distinct()
    ensures At(CleanupRun(t, p, fails).now, p.mem) == At(t.now, p.mem)
    ensures At(CleanupRun(t, p, fails).now, p.snap) == At(t.now, p.snap)
  {
    var t1 := Remove(t, p.tmpMem, fails(p.tmpMem)).trace;
    var t2 := Remove(t1, p.tmpSnap, fails(p.tmpSnap)).trace;
    var t3 := Remove(t2, p.oldMem, fails(p.oldMem)).trace;
    hide Remove, At;
    forall q | q in {p.mem, p.snap}
      ensures At(CleanupRun(t, p, fails).now, q) == At(t.now, q)
    {
      RemoveKeepsOther(t, p.tmpMem, fails(p.tmpMem), q);
      RemoveKeepsOther(t1, p.tmpSnap, fails(p.tmpSnap), q);
      RemoveKeepsOther(t2, p.oldMem, fails(p.oldMem), q);
      RemoveKeepsOther(t3, p.oldSnap, fails(p.oldSnap), q);
    }
  }

  // When the rollback's own rename fails, the old memfile is not at its target any more -
  // and the cleanup deletes its last copy.  In every failing commit it is back at its
  // target exactly if it had not been moved, or that rename worked, or the installed new
  // one could not be removed and has the same content.
  lemma CleanupKeepsOldMemIff(before: Files, p: Paths, f: Faults, fails: Path -> bool)
    requires p.Distinct() && p.mem in before && StageOf(before, p, f) != Committed
    ensures At(CleanupRun(CommitRun(Start(before), p, f).trace, p, fails).now, p.mem) == At(before, p.mem) <==>
            || StageOf(before, p, f) == NotReady || StageOf(before, p, f) == MemNotBackedUp
            || !f.undoRenameMem
            || (StageOf(before, p, f) == SnapNotInstalled && f.undoRemoveMem && before[p.mem] == before[p.tmpMem])
  {
    CommitOutcome(before, p, f);
    CleanupKeepsTargets(CommitRun(Start(before), p, f).trace, p, fails);
    hide CommitRun, CleanupRun;
  }

  // The old snapfile is lost in the same way, once it had been moved.
  lemma CleanupKeepsOldSnapIff(before: Files, p: Paths, f: Faults, fails: Path -> bool)
    requires p.Distinct() && p.snap in before && StageOf(before, p, f) != Committed
    ensures At(CleanupRun(CommitRun(Start(before), p, f).trace, p, fails).now, p.snap) == At(before, p.snap) <==>
            (StageOf(before, p, f) != MemNotInstalled && StageOf(before, p, f) != SnapNotInstalled) || !f.undoRenameSnap
  {
    CommitOutcome(before, p, f);
    CleanupKeepsTargets(CommitRun(Start(before), p, f).trace, p, fails);
    hide CommitRun, CleanupRun;
  }

  // Two failing renames, the snapfile's backup and the memfile's return, and no copy of
  // the old memfile is left after the cleanup.
  lemma OldMemfileCanBeLost()
    ensures var before := map["m" := [1], "s" := [1], "m.tmp" := [2], "s.tmp" := [3]];
            var f := NO_FAULTS.(backupSnap := true, undoRenameMem := true);
            CleanupRun(CommitRun(Start(before), EXAMPLE, f).trace, EXAMPLE, (q: Path) => false).now == map["s" := [1]]
  {
    var before: Files := map["m" := [1], "s" := [1], "m.tmp" := [2], "s.tmp" := [3]];
    var f := NO_FAULTS.(backupSnap := true, undoRenameMem := true);
    ExampleIsDistinct();
    assert StageOf(before, EXAMPLE, f) == SnapNotBackedUp;
    CommitOutcome(before, EXAMPLE, f);
    var t := CommitRun(Start(before), EXAMPLE, f).trace;
    CleanupRemovesTemporaries(t, EXAMPLE);
    hide CommitRun, CleanupRun, StageOf;
    LeftOver(t.now, before);
  }

  lemma LeftOver(d: Files, before: Files)
    requires before == map["m" := [1], "s" := [1], "m.tmp" := [2], "s.tmp" := [3]]
    requires At(d, "m") == None && At(d, "s") == Some([1]) && d - AllSix(EXAMPLE) == before - AllSix(EXAMPLE)
    ensures d - EXAMPLE.Temporaries() == map["s" := [1]]
  {
    assert (before - AllSix(EXAMPLE)).Keys == {};
    assert (d - AllSix(EXAMPLE)).Keys == d.Keys - AllSix(EXAMPLE);
  }
}

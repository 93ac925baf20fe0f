// A disk whose operations may fail, and the record of every disk passed through.
module Disk {
  import opened Machine

  type Path = string
  type Content = seq<byte>
  type Files = map<Path, Content>

  // now is the disk; seen lists every disk since the start, now last.
  datatype Trace = Trace(now: Files, seen: seq<Files>) {
    function Then(d: Files): Trace {
      Trace(d, seen + [d])
    }

    ghost predicate Current() {
      seen != [] && seen[|seen| - 1] == now
    }
  }

  function Start(d: Files): Trace {
    Trace(d, [d])
  }

  // What is at a path, if anything.
  function At(d: Files, path: Path): Option<Content> {
    if path in d then Some(d[path]) else None
  }

  datatype Done = Done(trace: Trace, ok: bool)

  datatype Presence = Present | Absent | Unknown

  // Each `fails` is the environment's choice for that one call.

  function Stat(t: Trace, path: Path, fails: bool): Presence {
    if fails then Unknown else if path in t.now then Present else Absent
  }

  // os.Rename replaces the destination in one step.
  function Rename(t: Trace, src: Path, dst: Path, fails: bool): (d: Done)
    ensures t.Current() ==> d.trace.Current()
  {
    if fails || src !in t.now then Done(t, false)
    else Done(t.Then((t.now - {src})[dst := t.now[src]]), true)
  }

  // ok is also true when there was nothing to remove (os.IsNotExist).
  function Remove(t: Trace, path: Path, fails: bool): (d: Done)
    ensures t.Current() ==> d.trace.Current()
  {
    if fails then Done(t, false)
    else if path !in t.now then Done(t, true)
    else Done(t.Then(t.now - {path}), true)
  }

  class Device {
    var files: Files
    ghost var seen: seq<Files>

    ghost function State(): Trace
      reads this
    {
      Trace(files, seen)
    }

    method StatPath(path: Path, fails: bool) returns (p: Presence)
      ensures p == Stat(State(), path, fails)
    {
      p := if fails then Unknown else if path in files then Present else Absent;
    }

    method RenamePath(src: Path, dst: Path, fails: bool) returns (ok: bool)
      modifies this
      ensures Done(State(), ok) == Rename(old(State()), src, dst, fails)
    {
      ok := !fails && src in files;
      if ok {
        files := (files - {src})[dst := files[src]];
        seen := seen + [files];
      }
    }

    method RemovePath(path: Path, fails: bool) returns (ok: bool)
      modifies this
      ensures Done(State(), ok) == Remove(old(State()), path, fails)
    {
      ok := !fails;
      if ok && path in files {
        files := files - {path};
        seen := seen + [files];
      }
    }

    method WriteFile(path: Path, content: Content)
      modifies this
      ensures State() == old(State()).Then(old(files)[path := content])
    {
      files := files[path := content];
      seen := seen + [files];
    }
  }
}

// The jailer's bind mounts, and the translation of host paths into the jail.
module Jailer {
  import opened Machine
  import opened FilePaths

  // guest paths are absolute; only their elements are kept.
  datatype Mapping = Mapping(host: Path, guest: seq<Name>, isDir: bool)

  datatype Drive = Drive(id: string, path: string, readonly: bool)

  datatype Spec = Spec(kernel: string, rootfs: string, rootfsReadonly: bool, drives: seq<Drive>,
                       memfile: string, snapfile: string)

  // ---------- what prepareMounts asks for ----------

  function DriveGuest(d: Drive): seq<Name> {
    if d.id == "agent" then ["agent", "boxd.ext4"]
    else Cleaned(true, ["extra-drives"] + Split(d.id + Ext(d.path)))
  }

  function FileMapping(path: string, guest: seq<Name>): seq<Mapping> {
    if path == "" then [] else [Mapping(Clean(path), guest, false)]
  }

  function DriveMappings(drives: seq<Drive>): seq<Mapping> {
    if drives == [] then []
    else
      var d := drives[|drives| - 1];
      DriveMappings(drives[..|drives| - 1])
      + if d.path == "" || d.id == "" then [] else [Mapping(Clean(d.path), DriveGuest(d), false)]
  }

  predicate SplitDirs(s: Spec) {
    s.memfile != "" && s.snapfile != "" && Dir(s.memfile) != Dir(s.snapfile)
  }

  function SnapshotMappings(s: Spec): seq<Mapping> {
    if SplitDirs(s) then
      [Mapping(Dir(s.memfile), ["snapshot", "mem"], true), Mapping(Dir(s.snapfile), ["snapshot", "snap"], true)]
    else if s.memfile != "" then [Mapping(Dir(s.memfile), ["snapshot"], true)]
    else if s.snapfile != "" then [Mapping(Dir(s.snapfile), ["snapshot"], true)]
    else []
  }

  function Mappings(s: Spec): seq<Mapping> {
    FileMapping(s.kernel, ["kernel"]) + FileMapping(s.rootfs, ["rootfs.ext4"]) + DriveMappings(s.drives) + SnapshotMappings(s)
  }

  // ---------- what changes hands ----------

  function DriveOwned(d: Drive): set<Path> {
    if d.path != "" && d.id != "" && !d.readonly then {Clean(d.path)} else {}
  }

  // The drives whose files the jailed process may write.
  function DrivesOwned(drives: seq<Drive>): (r: set<Path>)
    ensures forall p :: p in r <==> exists i :: 0 <= i < |drives| && p in DriveOwned(drives[i])
  {
    set i, p | 0 <= i < |drives| && p in DriveOwned(drives[i]) :: p
  }

  function RootfsOwned(s: Spec): set<Path> {
    if s.rootfs != "" && !s.rootfsReadonly then {Clean(s.rootfs)} else {}
  }

  function SnapshotOwned(s: Spec): set<Path> {
    (if s.memfile != "" then {Dir(s.memfile)} else {}) + (if s.snapfile != "" then {Dir(s.snapfile)} else {})
  }

  // All that the jailed process writes: writable files and snapshot directories.
  function Owned(s: Spec): set<Path> {
    RootfsOwned(s) + DrivesOwned(s.drives) + SnapshotOwned(s)
  }

  // A binding already there is not made again.
  function Bound(table: seq<Mapping>, m: Mapping): seq<Mapping> {
    if m in table then table else table + [m]
  }

  function BoundAll(table: seq<Mapping>, ms: seq<Mapping>): seq<Mapping> {
    if ms == [] then table else Bound(BoundAll(table, ms[..|ms| - 1]), ms[|ms| - 1])
  }

  // ---------- translation and resolution ----------

  predicate Matches(m: Mapping, path: Path) {
    || path == m.host
    || (m.isDir && path.rooted == m.host.rooted && m.host.parts < path.parts
        && !StartsUp(path.parts[|m.host.parts|..]))
  }

  // The first mapping that matches, with what is left of the path below it.
  function Translated(table: seq<Mapping>, path: Path): Path {
    if table == [] then path
    else if Matches(table[0], path) then Path(true, table[0].guest + path.parts[|table[0].host.parts|..])
    else Translated(table[1..], path)
  }

  // An empty path stays empty.
  function InJail(table: seq<Mapping>, text: string): Option<Path> {
    if text == "" then None else Some(Translated(table, Clean(text)))
  }

  // What the kernel finds at a path below root: the latest mount on the way wins, and
  // nothing lies below a mounted file.
  function Resolved(mounts: seq<Mapping>, path: seq<Name>): Option<Path> {
    if mounts == [] then None
    else
      var m := mounts[|mounts| - 1];
      if !(m.guest <= path) then Resolved(mounts[..|mounts| - 1], path)
      else if m.isDir || m.guest == path then Some(Path(m.host.rooted, m.host.parts + path[|m.guest|..]))
      else None
  }

  function UnderRoot(root: seq<Name>, m: Mapping): Mapping {
    m.(guest := root + m.guest)
  }

  function Mounts(root: seq<Name>, table: seq<Mapping>): (r: seq<Mapping>)
    ensures |r| == |table| && forall i :: 0 <= i < |table| ==> r[i] == UnderRoot(root, table[i])
  {
    seq(|table|, i requires 0 <= i < |table| => UnderRoot(root, table[i]))
  }

  class JailerRuntime {
    const rootDir: seq<Name>
    const privileged: bool  // uid and gid 0
    var bindMounts: seq<Mapping>
    var pathMap: seq<Mapping>
    ghost var owned: set<Path>  // what has been given to the jailed process

    ghost predicate Valid()
      reads this
    {
      bindMounts == Mounts(rootDir, pathMap)
    }

    constructor (rootDir: seq<Name>, privileged: bool)
      ensures Valid() && pathMap == [] && owned == {} && this.rootDir == rootDir && this.privileged == privileged
    {
      this.rootDir, this.privileged, bindMounts, pathMap, owned := rootDir, privileged, [], [], {};
    }

    // Of these paths all or, after a failure, some have changed hands, and no others; none
    // for a privileged process, which can write them anyway.
    ghost predicate Handed(before: set<Path>, paths: set<Path>, ok: bool)
      reads this
    {
      if privileged then owned == before else before <= owned <= before + paths && (ok ==> owned == before + paths)
    }

    // The mount command and the creation of its target may fail.
    method Bind(host: Path, guest: seq<Name>, isDir: bool, fails: bool) returns (ok: bool)
      requires Valid()
      modifies this`bindMounts, this`pathMap
      ensures Valid()
      ensures ok ==> pathMap == Bound(old(pathMap), Mapping(host, guest, isDir))
      ensures !ok ==> fails && pathMap == old(pathMap)
    {
      for i := 0 to |pathMap|
        invariant Mapping(host, guest, isDir) !in pathMap[..i]
        invariant pathMap == old(pathMap) && bindMounts == old(bindMounts)
      {
        var m := pathMap[i];
        if m.host == host && m.guest == guest && m.isDir == isDir {
          return true;
        }
      }
      if fails {
        return false;
      }
      bindMounts := bindMounts + [Mapping(host, rootDir + guest, isDir)];
      pathMap := pathMap + [Mapping(host, guest, isDir)];
      ok := true;
    }

    method RuntimePath(text: string) returns (r: Option<Path>)
      ensures r == InJail(pathMap, text)
    {
      if text == "" {
        return None;
      }
      var path := Clean(text);
      for i := 0 to |pathMap|
        invariant Translated(pathMap, path) == Translated(pathMap[i..], path)
      {
        var m := pathMap[i];
        assert pathMap[i..][1..] == pathMap[i + 1..];
        if m.isDir {
          if path == m.host {
            assert m.guest + path.parts[|m.host.parts|..] == m.guest;
            return Some(Path(true, m.guest));
          }
          RelIsBelowIff(m.host, path);
          var rel := Rel(m.host, path);
          if rel.Some? && rel.value != [] && !StartsUp(rel.value) {
            return Some(Path(true, m.guest + rel.value));
          }
        } else if path == m.host {
          assert m.guest + path.parts[|m.host.parts|..] == m.guest;
          return Some(Path(true, m.guest));
        }
      }
      r := Some(path);
    }

    method EnsureWritable(path: Path, fails: bool) returns (ok: bool)
      modifies this`owned
      ensures ok == (privileged || !fails)
      ensures Handed(old(owned), {path}, ok) && (!ok ==> owned == old(owned))
    {
      if privileged {
        return true;
      }
      if fails {
        return false;
      }
      owned := owned + {path};
      ok := true;
    }

    // One file of the spec; a writable one first changes hands.
    method BindFile(path: string, readonly: bool, guest: seq<Name>, chownFails: bool, bindFails: bool) returns (ok: bool)
      requires Valid()
      modifies this
      ensures Valid()
      ensures ok ==> pathMap == Bound(old(pathMap), Mapping(Clean(path), guest, false))
      ensures !ok ==> (chownFails || bindFails) && pathMap == old(pathMap)
      ensures Handed(old(owned), if readonly then {} else {Clean(path)}, ok)
    {
      hide Clean;
      if !readonly {
        ok := EnsureWritable(Clean(path), chownFails);
        if !ok {
          return;
        }
      }
      ok := Bind(Clean(path), guest, false, bindFails);
    }

    method BindDir(dir: Path, guest: seq<Name>, bindFails: bool) returns (ok: bool)
      requires Valid()
      modifies this`bindMounts, this`pathMap
      ensures Valid()
      ensures ok ==> pathMap == Bound(old(pathMap), Mapping(dir, guest, true))
      ensures !ok ==> bindFails && pathMap == old(pathMap)
    {
      ok := Bind(dir, guest, true, bindFails);
    }

    method BindDrives(drives: seq<Drive>, fails: nat -> bool) returns (ok: bool)
      requires Valid()
      modifies this
      ensures Valid() && SomeBound(old(pathMap), pathMap, DriveMappings(drives))
      ensures ok ==> pathMap == BoundAll(old(pathMap), DriveMappings(drives))
      ensures !ok ==> exists k: nat :: fails(k)
      ensures Handed(old(owned), DrivesOwned(drives), ok)
    {
      hide DriveGuest, Clean, DriveMappings, BoundAll, SomeBound, DrivesOwned, DriveOwned;
      NoDrives(old(pathMap));
      for i := 0 to |drives|
        invariant Valid() && pathMap == BoundAll(old(pathMap), DriveMappings(drives[..i]))
        invariant Handed(old(owned), DrivesOwned(drives[..i]), true)
      {
        OneMoreOwned(drives, i);
        DrivesSoFar(old(pathMap), drives, i);
        var d := drives[i];
        OneMoreDrive(old(pathMap), drives, i);
        if d.path != "" && d.id != "" {
          ok := BindFile(d.path, d.readonly, DriveGuest(d), fails(2 * i), fails(2 * i + 1));
          if !ok {
            return;
          }
        }
      }
      assert drives[..|drives|] == drives;
      AllBound(old(pathMap), DriveMappings(drives));
      ok := true;
    }

    method BindSnapshot(s: Spec, fails: nat -> bool) returns (ok: bool)
      requires Valid()
      modifies this
      ensures Valid() && SomeBound(old(pathMap), pathMap, SnapshotMappings(s))
      ensures ok ==> pathMap == BoundAll(old(pathMap), SnapshotMappings(s))
      ensures !ok ==> exists k: nat :: fails(k)
      ensures Handed(old(owned), SnapshotOwned(s), ok)
    {
      hide Dir, SomeBound;
      ok := true;
      NoneBound(pathMap, SnapshotMappings(s));
      if SplitDirs(s) {
        ok := EnsureWritable(Dir(s.memfile), fails(0));
        if ok {
          ok := EnsureWritable(Dir(s.snapfile), fails(1));
        }
        if ok {
          ok := BindDir(Dir(s.memfile), ["snapshot", "mem"], fails(2));
        }
        if ok {
          ok := BindDir(Dir(s.snapfile), ["snapshot", "snap"], fails(3));
        }
        BoundTwo(old(pathMap), SnapshotMappings(s));
        OneBound(old(pathMap), SnapshotMappings(s));
        AllBound(old(pathMap), SnapshotMappings(s));
      } else if s.memfile != "" || s.snapfile != "" {
        var dir := if s.memfile != "" then Dir(s.memfile) else Dir(s.snapfile);
        ok := EnsureWritable(dir, fails(0));
        if ok {
          ok := BindDir(dir, ["snapshot"], fails(1));
        }
        BoundOne(old(pathMap), SnapshotMappings(s));
        AllBound(old(pathMap), SnapshotMappings(s));
      }
    }

    method BindFiles(s: Spec, fails: nat -> bool) returns (ok: bool)
      requires Valid()
      modifies this
      ensures var files := FileMapping(s.kernel, ["kernel"]) + FileMapping(s.rootfs, ["rootfs.ext4"]);
              && Valid() && SomeBound(old(pathMap), pathMap, files)
              && (ok ==> pathMap == BoundAll(old(pathMap), files))
      ensures !ok ==> exists k: nat :: fails(k)
      ensures Handed(old(owned), RootfsOwned(s), ok)
    {
      hide Clean, BoundAll, SomeBound;
      ghost var before := pathMap;
      ghost var kernel, rootfs := FileMapping(s.kernel, ["kernel"]), FileMapping(s.rootfs, ["rootfs.ext4"]);
      NoneBound(before, kernel + rootfs);
      BoundFile(before, s.kernel, ["kernel"]);
      if s.kernel != "" {
        ok := Bind(Clean(s.kernel), ["kernel"], false, fails(0));
        if !ok {
          return;
        }
      }
      SomeOfMore(before, pathMap, kernel, rootfs, kernel + rootfs);
      BoundFile(pathMap, s.rootfs, ["rootfs.ext4"]);
      if s.rootfs != "" {
        ok := BindFile(s.rootfs, s.rootfsReadonly, ["rootfs.ext4"], fails(1), fails(2));
        if !ok {
          return;
        }
      }
      BoundAppend(before, kernel, rootfs);
      AllBound(before, kernel + rootfs);
      ok := true;
    }

    // Each fails is the environment's answer, call by call; link is the root link.
    method PrepareMounts(s: Spec, link: bool, fails: nat -> bool, drives: nat -> bool, snapshot: nat -> bool) returns (ok: bool)
      requires Valid()
      modifies this
      ensures Valid() && SomeBound(old(pathMap), pathMap, Mappings(s))
      ensures ok ==> pathMap == BoundAll(old(pathMap), Mappings(s))
      ensures !ok ==> link || exists k: nat :: fails(k) || drives(k) || snapshot(k)
      ensures Handed(old(owned), Owned(s), ok)
    {
      hide Bound, BoundAll, FileMapping, DriveMappings, SnapshotMappings, SomeBound, RootfsOwned, DrivesOwned, SnapshotOwned;
      ghost var before := pathMap;
      ghost var files := FileMapping(s.kernel, ["kernel"]) + FileMapping(s.rootfs, ["rootfs.ext4"]);
      NoneBound(before, Mappings(s));
      if link {
        return false;
      }
      ok := BindFiles(s, fails);
      SomeOfFirst(before, pathMap, files, DriveMappings(s.drives) + SnapshotMappings(s), Mappings(s));
      if !ok {
        return;
      }
      ok := BindDrives(s.drives, drives);
      SomeAfter(before, files, pathMap, DriveMappings(s.drives), SnapshotMappings(s), Mappings(s));
      if !ok {
        return;
      }
      BoundAppend(before, files, DriveMappings(s.drives));
      ok := BindSnapshot(s, snapshot);
      SomeAfter(before, files + DriveMappings(s.drives), pathMap, SnapshotMappings(s), [], Mappings(s));
      BoundAppend(before, files + DriveMappings(s.drives), SnapshotMappings(s));
    }

    // The spec handed to Firecracker.
    method RuntimeSpec(s: Spec) returns (kernel: Option<Path>, rootfs: Option<Path>, memfile: Option<Path>,
                                         snapfile: Option<Path>, drives: seq<Option<Path>>)
      ensures kernel == InJail(pathMap, s.kernel) && rootfs == InJail(pathMap, s.rootfs)
      ensures memfile == InJail(pathMap, s.memfile) && snapfile == InJail(pathMap, s.snapfile)
      ensures |drives| == |s.drives| && forall i :: 0 <= i < |drives| ==> drives[i] == InJail(pathMap, s.drives[i].path)
    {
      hide InJail;
      kernel := RuntimePath(s.kernel);
      rootfs := RuntimePath(s.rootfs);
      memfile := RuntimePath(s.memfile);
      snapfile := RuntimePath(s.snapfile);
      drives := [];
      for i := 0 to |s.drives|
        invariant |drives| == i && forall k :: 0 <= k < i ==> drives[k] == InJail(pathMap, s.drives[k].path)
      {
        var d := RuntimePath(s.drives[i].path);
        drives := drives + [d];
      }
    }
  }

  lemma NoDrives(table: seq<Mapping>)
    ensures DriveMappings([]) == [] && BoundAll(table, []) == table && DrivesOwned([]) == {}
  {
  }

  lemma OneMoreOwned(drives: seq<Drive>, i: nat)
    requires i < |drives|
    ensures DrivesOwned(drives[..i + 1]) == DrivesOwned(drives[..i])
            + (if drives[i].path != "" && drives[i].id != "" && !drives[i].readonly then {Clean(drives[i].path)} else {})
    ensures DrivesOwned(drives[..i + 1]) <= DrivesOwned(drives)
  {
    hide Clean;
    var a, b := drives[..i], drives[..i + 1];
    forall p | p in DrivesOwned(b)
      ensures p in DrivesOwned(a) + DriveOwned(drives[i])
    {
      var k :| 0 <= k < |b| && p in DriveOwned(b[k]);
      if k < i {
        assert p in DriveOwned(a[k]);
      }
    }
    forall p | p in DrivesOwned(a) + DriveOwned(drives[i])
      ensures p in DrivesOwned(b)
    {
      if p in DrivesOwned(a) {
        var k :| 0 <= k < |a| && p in DriveOwned(a[k]);
        assert p in DriveOwned(b[k]);
      } else {
        assert p in DriveOwned(b[i]);
      }
    }
    forall p | p in DrivesOwned(b)
      ensures p in DrivesOwned(drives)
    {
      var k :| 0 <= k < |b| && p in DriveOwned(b[k]);
      assert p in DriveOwned(drives[k]);
    }
  }

  // ---------- binding lists ----------

  // Of these mappings the first few, all or none among them, have been bound.
  ghost predicate SomeBound(table: seq<Mapping>, table': seq<Mapping>, ms: seq<Mapping>) {
    exists n :: 0 <= n <= |ms| && table' == BoundAll(table, ms[..n])
  }

  lemma NoneBound(table: seq<Mapping>, ms: seq<Mapping>)
    ensures SomeBound(table, table, ms)
  {
    assert table == BoundAll(table, ms[..0]);
  }

  lemma OneBound(table: seq<Mapping>, ms: seq<Mapping>)
    requires ms != []
    ensures SomeBound(table, Bound(table, ms[0]), ms)
  {
    BoundOne(table, ms[..1]);
  }

  lemma AllBound(table: seq<Mapping>, ms: seq<Mapping>)
    ensures SomeBound(table, BoundAll(table, ms), ms)
  {
    assert ms[..|ms|] == ms;
  }

  // Having bound a part is having bound some of the whole.
  lemma SomeOfMore(table: seq<Mapping>, table': seq<Mapping>, a: seq<Mapping>, b: seq<Mapping>, all: seq<Mapping>)
    requires table' == BoundAll(table, a) && all == a + b
    ensures SomeBound(table, table', all)
  {
    assert all[..|a|] == a;
  }

  lemma SomeOfFirst(table: seq<Mapping>, table': seq<Mapping>, a: seq<Mapping>, b: seq<Mapping>, all: seq<Mapping>)
    requires SomeBound(table, table', a) && all == a + b
    ensures SomeBound(table, table', all)
  {
    var n :| 0 <= n <= |a| && table' == BoundAll(table, a[..n]);
    assert all[..n] == a[..n];
  }

  lemma SomeAfter(table: seq<Mapping>, a: seq<Mapping>, table': seq<Mapping>, b: seq<Mapping>, c: seq<Mapping>, all: seq<Mapping>)
    requires SomeBound(BoundAll(table, a), table', b) && all == a + b + c
    ensures SomeBound(table, table', all)
  {
    var n :| 0 <= n <= |b| && table' == BoundAll(BoundAll(table, a), b[..n]);
    BoundAppend(table, a, b[..n]);
    assert all[..|a| + n] == a + b[..n];
  }

  lemma {:induction false} DrivesSoFar(table: seq<Mapping>, drives: seq<Drive>, i: nat)
    requires i <= |drives|
    ensures SomeBound(table, BoundAll(table, DriveMappings(drives[..i])), DriveMappings(drives))
  {
    hide DriveGuest, Clean;
    DrivePrefix(drives, i);
    var n := |DriveMappings(drives[..i])|;
    assert DriveMappings(drives)[..n] == DriveMappings(drives[..i]);
  }

  lemma {:induction false} DrivePrefix(drives: seq<Drive>, i: nat)
    requires i <= |drives|
    ensures DriveMappings(drives[..i]) <= DriveMappings(drives)
  {
    hide DriveGuest, Clean;
    if i < |drives| {
      DrivePrefix(drives[..|drives| - 1], i);
      assert drives[..|drives| - 1][..i] == drives[..i];
    } else {
      assert drives[..i] == drives;
    }
  }

  lemma {:induction false} BoundAppend(table: seq<Mapping>, a: seq<Mapping>, b: seq<Mapping>)
    ensures BoundAll(table, a + b) == BoundAll(BoundAll(table, a), b)
  {
    if b == [] {
      assert a + b == a;
    } else {
      assert (a + b)[..|a + b| - 1] == a + b[..|b| - 1];
      BoundAppend(table, a, b[..|b| - 1]);
    }
  }

  lemma BoundOne(table: seq<Mapping>, ms: seq<Mapping>)
    requires |ms| == 1
    ensures BoundAll(table, ms) == Bound(table, ms[0])
  {
    assert ms[..0] == [];
  }

  lemma BoundTwo(table: seq<Mapping>, ms: seq<Mapping>)
    requires |ms| == 2
    ensures BoundAll(table, ms) == Bound(Bound(table, ms[0]), ms[1])
  {
    BoundOne(table, ms[..1]);
  }

  lemma BoundFile(table: seq<Mapping>, path: string, guest: seq<Name>)
    ensures BoundAll(table, FileMapping(path, guest)) == if path == "" then table else Bound(table, Mapping(Clean(path), guest, false))
  {
    if path != "" {
      BoundOne(table, FileMapping(path, guest));
    }
  }

  lemma OneMoreDrive(table: seq<Mapping>, drives: seq<Drive>, i: nat)
    requires i < |drives|
    ensures var d, before := drives[i], BoundAll(table, DriveMappings(drives[..i]));
            BoundAll(table, DriveMappings(drives[..i + 1]))
            == if d.path == "" || d.id == "" then before else Bound(before, Mapping(Clean(d.path), DriveGuest(d), false))
  {
    var d := drives[i];
    hide DriveGuest, Clean;
    assert drives[..i + 1][..i] == drives[..i];
    var more := if d.path == "" || d.id == "" then [] else [Mapping(Clean(d.path), DriveGuest(d), false)];
    BoundAppend(table, DriveMappings(drives[..i]), more);
    if more != [] {
      BoundOne(BoundAll(table, DriveMappings(drives[..i])), more);
    }
  }
}

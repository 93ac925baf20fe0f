// Translating a host path into the jail and following the bind mounts leads back to it.
module JailerPaths {
  import opened Machine
  import opened FilePaths
  import opened Jailer

  predicate Comparable(a: seq<Name>, b: seq<Name>) {
    a <= b || b <= a
  }

  // No guest target lies at or below another.
  predicate Separate(table: seq<Mapping>) {
    forall k, l :: 0 <= k < l < |table| ==> !Comparable(table[k].guest, table[l].guest)
  }

  predicate Covered(table: seq<Mapping>, path: Path) {
    exists k :: 0 <= k < |table| && Matches(table[k], path)
  }

  lemma {:induction false} FirstMatch(table: seq<Mapping>, path: Path) returns (k: nat)
    requires Covered(table, path)
    ensures k < |table| && Matches(table[k], path)
    ensures Translated(table, path) == Path(true, table[k].guest + path.parts[|table[k].host.parts|..])
  {
    if Matches(table[0], path) {
      k := 0;
    } else {
      var at :| 0 <= at < |table| && Matches(table[at], path);
      assert Matches(table[1..][at - 1], path);
      k := FirstMatch(table[1..], path);
      k := k + 1;
    }
  }

  lemma {:induction false} OnlyMount(mounts: seq<Mapping>, k: nat, path: seq<Name>)
    requires k < |mounts| && mounts[k].guest <= path && (mounts[k].isDir || mounts[k].guest == path)
    requires forall l :: 0 <= l < |mounts| && l != k ==> !(mounts[l].guest <= path)
    ensures Resolved(mounts, path) == Some(Path(mounts[k].host.rooted, mounts[k].host.parts + path[|mounts[k].guest|..]))
  {
    if k < |mounts| - 1 {
      OnlyMount(mounts[..|mounts| - 1], k, path);
    }
  }

  lemma PrefixesCompare(a: seq<Name>, b: seq<Name>, c: seq<Name>)
    requires a <= c && b <= c
    ensures Comparable(a, b)
  {
    assert a == c[..|a|] && b == c[..|b|];
    if |a| <= |b| {
      assert a == b[..|a|];
    } else {
      assert b == a[..|b|];
    }
  }

  lemma NotOnTheWay(a: seq<Name>, b: seq<Name>, c: seq<Name>)
    requires !Comparable(a, b) && b <= c
    ensures !(a <= c)
  {
    if a <= c {
      PrefixesCompare(a, b, c);
    }
  }

  lemma BelowRoot(root: seq<Name>, a: seq<Name>, b: seq<Name>)
    ensures root + a <= root + b <==> a <= b
    ensures root + a == root + b <==> a == b
    ensures (root + b)[|root|..] == b
    ensures a <= b ==> (root + b)[|root + a|..] == b[|a|..]
  {
    assert (root + a)[|root|..] == a && (root + b)[|root|..] == b;
    if root + a <= root + b {
      assert root + a == (root + b)[..|root + a|];
      assert a == b[..|a|];
    }
  }

  // The translated path leads to the original through the mounts below root.
  ghost predicate Preserved(root: seq<Name>, table: seq<Mapping>, path: Path) {
    var g := Translated(table, path);
    g.rooted && Resolved(Mounts(root, table), root + g.parts) == Some(path)
  }

  lemma TranslationIsPreserved(root: seq<Name>, table: seq<Mapping>, path: Path)
    requires Separate(table) && Covered(table, path)
    ensures Preserved(root, table, path)
  {
    var k := FirstMatch(table, path);
    var m := table[k];
    var rest := path.parts[|m.host.parts|..];
    var g := m.guest + rest;
    var mounts := Mounts(root, table);
    BelowRoot(root, m.guest, g);
    assert !m.isDir ==> g == m.guest;
    forall l | 0 <= l < |mounts| && l != k
      ensures !(mounts[l].guest <= root + g)
    {
      BelowRoot(root, table[l].guest, g);
      assert !Comparable(table[l].guest, m.guest);
      NotOnTheWay(table[l].guest, m.guest, g);
    }
    OnlyMount(mounts, k, root + g);
    assert (root + g)[|root + m.guest|..] == rest;
    assert path.parts == m.host.parts + rest;
    hide Separate, Translated, Resolved;
  }

  lemma CoveredTail(table: seq<Mapping>, path: Path)
    requires table != []
    ensures Covered(table[1..], path) ==> Covered(table, path)
  {
    if Covered(table[1..], path) {
      var k :| 0 <= k < |table[1..]| && Matches(table[1..][k], path);
      assert Matches(table[k + 1], path);
    }
  }

  // A path no mapping covers stays as it is.
  lemma {:induction false} UncoveredIsUnchanged(table: seq<Mapping>, path: Path)
    requires !Covered(table, path)
    ensures Translated(table, path) == path
  {
    if table != [] {
      assert !Matches(table[0], path);
      CoveredTail(table, path);
      UncoveredIsUnchanged(table[1..], path);
    }
  }

  // ---------- the table prepareMounts builds ----------

  lemma {:induction false} BoundAllIs(ms: seq<Mapping>)
    ensures var table := BoundAll([], ms);
            && (forall m :: m in table <==> m in ms)
            && (forall k, l :: 0 <= k < l < |table| ==> table[k] != table[l])
  {
    if ms != [] {
      BoundAllIs(ms[..|ms| - 1]);
      assert forall m :: m in ms <==> m in ms[..|ms| - 1] || m == ms[|ms| - 1];
    }
  }

  predicate Apart(ms: seq<Mapping>) {
    forall a, b :: a in ms && b in ms && a != b ==> !Comparable(a.guest, b.guest)
  }

  lemma ApartIsSeparate(ms: seq<Mapping>)
    requires Apart(ms)
    ensures Separate(BoundAll([], ms))
  {
    BoundAllIs(ms);
    var table := BoundAll([], ms);
    forall k, l | 0 <= k < l < |table|
      ensures !Comparable(table[k].guest, table[l].guest)
    {
      assert table[k] in table && table[l] in table;
    }
    hide BoundAll;
  }

  predicate PlainName(name: string) {
    '/' !in name && name !in {"", ".", ".."}
  }

  // A drive that gets a target of its own directly under /extra-drives, or the agent's.
  predicate PlainDrive(d: Drive) {
    d.id != "" && (d.id == "agent" || PlainName(d.id + Ext(d.path)))
  }

  predicate PlainDrives(drives: seq<Drive>) {
    forall d :: d in drives && d.path != "" ==> PlainDrive(d)
  }

  // Every drive is plain, and drives with one target have one path.
  predicate DrivesApart(drives: seq<Drive>) {
    && PlainDrives(drives)
    && (forall d, e :: d in drives && e in drives && d.path != "" && e.path != "" && DriveGuest(d) == DriveGuest(e) ==>
          Clean(d.path) == Clean(e.path))
  }

  lemma PlainGuest(d: Drive)
    requires PlainDrive(d)
    ensures |DriveGuest(d)| == 2 && DriveGuest(d)[0] in {"agent", "extra-drives"}
  {
    if d.id != "agent" {
      var name := d.id + Ext(d.path);
      SplitPlain(name);
      assert ["extra-drives"] + [name] == ["extra-drives", name];
      PlainCleaned("extra-drives", name);
    }
    hide Ext;
  }

  lemma PlainCleaned(dir: Name, name: Name)
    requires dir !in {"", ".", ".."} && name !in {"", ".", ".."}
    ensures Cleaned(true, [dir, name]) == [dir, name]
  {
    assert [dir, name][..1] == [dir] && [dir][..0] == [];
    assert Cleaned(true, [dir]) == [dir];
  }

  predicate OfDrive(m: Mapping, drives: seq<Drive>) {
    exists d :: d in drives && d.path != "" && d.id != "" && m == Mapping(Clean(d.path), DriveGuest(d), false)
  }

  lemma {:induction false} DriveMappingsAre(drives: seq<Drive>, m: Mapping)
    ensures m in DriveMappings(drives) <==> OfDrive(m, drives)
  {
    hide Clean, DriveGuest;
    if drives != [] {
      var before, d := drives[..|drives| - 1], drives[|drives| - 1];
      DriveMappingsAre(before, m);
      assert drives == before + [d];
    }
  }

  lemma DriveTarget(drives: seq<Drive>, m: Mapping)
    requires PlainDrives(drives) && m in DriveMappings(drives)
    ensures |m.guest| == 2 && m.guest[0] in {"agent", "extra-drives"} && !m.isDir
  {
    DriveMappingsAre(drives, m);
    hide Clean, DriveGuest, PlainDrive, DriveMappings;
    var d :| d in drives && d.path != "" && d.id != "" && m == Mapping(Clean(d.path), DriveGuest(d), false);
    PlainGuest(d);
  }

  lemma SharedDriveTargets(drives: seq<Drive>, a: Mapping, b: Mapping)
    requires DrivesApart(drives) && a in DriveMappings(drives) && b in DriveMappings(drives) && a.guest == b.guest
    ensures a == b
  {
    DriveMappingsAre(drives, a);
    DriveMappingsAre(drives, b);
    hide Clean, DriveGuest, PlainDrives, DriveMappings;
    var d :| d in drives && d.path != "" && d.id != "" && a == Mapping(Clean(d.path), DriveGuest(d), false);
    var e :| e in drives && e.path != "" && e.id != "" && b == Mapping(Clean(e.path), DriveGuest(e), false);
  }

  // Whether a target is the kernel's, the rootfs's, a drive's or the snapshot's.
  lemma TargetsByHead(s: Spec, m: Mapping)
    requires m in Mappings(s) && PlainDrives(s.drives)
    ensures m.guest != []
    ensures m.guest[0] == "kernel" ==> m == Mapping(Clean(s.kernel), ["kernel"], false) && s.kernel != ""
    ensures m.guest[0] == "rootfs.ext4" ==> m == Mapping(Clean(s.rootfs), ["rootfs.ext4"], false) && s.rootfs != ""
    ensures m.guest[0] in {"agent", "extra-drives"} ==> m in DriveMappings(s.drives)
    ensures m.guest[0] == "snapshot" ==> m in SnapshotMappings(s)
    ensures m.guest[0] in {"kernel", "rootfs.ext4", "agent", "extra-drives", "snapshot"}
  {
    hide Clean, Dir, PlainDrives, DriveMappings;
    if m in DriveMappings(s.drives) {
      DriveTarget(s.drives, m);
    }
  }

  lemma SnapshotTargets(s: Spec, a: Mapping, b: Mapping)
    requires a in SnapshotMappings(s) && b in SnapshotMappings(s) && a != b
    ensures !Comparable(a.guest, b.guest)
  {
    hide Dir;
    assert a.guest[1] != b.guest[1] && |a.guest| == |b.guest| == 2;
  }

  // Only drives can have comparable targets, and then they are the same.
  lemma ComparableTargets(s: Spec, a: Mapping, b: Mapping)
    requires PlainDrives(s.drives) && a in Mappings(s) && b in Mappings(s) && a != b && Comparable(a.guest, b.guest)
    ensures a in DriveMappings(s.drives) && b in DriveMappings(s.drives)
    ensures a.guest == b.guest && !a.isDir && !b.isDir
  {
    hide Clean, PlainDrives, Mappings, SnapshotMappings, DriveMappings;
    TargetsByHead(s, a);
    TargetsByHead(s, b);
    if a.guest[0] in {"agent", "extra-drives"} && b.guest[0] in {"agent", "extra-drives"} {
      DriveTarget(s.drives, a);
      DriveTarget(s.drives, b);
    } else if a.guest[0] == b.guest[0] == "snapshot" {
      SnapshotTargets(s, a, b);
    }
  }

  // With plain drives that share no target the targets of a spec never nest.
  lemma MappingsApart(s: Spec)
    requires DrivesApart(s.drives)
    ensures Apart(Mappings(s))
  {
    hide Clean, DriveGuest, Mappings, DriveMappings, Comparable, PlainDrives;
    forall a, b | a in Mappings(s) && b in Mappings(s) && a != b
      ensures !Comparable(a.guest, b.guest)
    {
      if Comparable(a.guest, b.guest) {
        ComparableTargets(s, a, b);
        SharedDriveTargets(s.drives, a, b);
      }
    }
  }

  // ---------- the spec and the temporary snapshot files ----------

  // Not a directory reference, and nothing that Rel's answer could be mistaken for "..".
  predicate FileName(name: Name) {
    name !in {"", "."} && !(".." <= name)
  }

  lemma CoveredBy(table: seq<Mapping>, m: Mapping, path: Path)
    requires m in table && Matches(m, path)
    ensures Covered(table, path)
  {
    var k :| 0 <= k < |table| && table[k] == m;
  }

  lemma BoundPathPreserved(root: seq<Name>, s: Spec, m: Mapping, path: Path)
    requires Apart(Mappings(s)) && m in Mappings(s) && Matches(m, path)
    ensures Preserved(root, BoundAll([], Mappings(s)), path)
  {
    hide Mappings, Apart, Matches, BoundAll, Preserved;
    BoundAllIs(Mappings(s));
    ApartIsSeparate(Mappings(s));
    CoveredBy(BoundAll([], Mappings(s)), m, path);
    TranslationIsPreserved(root, BoundAll([], Mappings(s)), path);
  }

  // Kernel, rootfs and every drive with an id lead back to their host files.
  lemma FilesArePreserved(root: seq<Name>, s: Spec, path: string)
    requires Apart(Mappings(s)) && path != ""
    requires path == s.kernel || path == s.rootfs || exists d :: d in s.drives && d.path == path && d.id != ""
    ensures Preserved(root, BoundAll([], Mappings(s)), Clean(path))
  {
    hide Clean, DriveGuest, Dir, BoundAll, Preserved, Apart;
    var guest := if path == s.kernel then ["kernel"] else ["rootfs.ext4"];
    if path == s.kernel || path == s.rootfs {
      var m := Mapping(Clean(path), guest, false);
      assert m in FileMapping(path, guest);
      BoundPathPreserved(root, s, m, Clean(path));
    } else {
      var d :| d in s.drives && d.path == path && d.id != "";
      var m := Mapping(Clean(path), DriveGuest(d), false);
      DriveMappingsAre(s.drives, m);
      BoundPathPreserved(root, s, m, Clean(path));
    }
  }

  lemma {:induction false} BoundAllExtends(table: seq<Mapping>, ms: seq<Mapping>)
    ensures table <= BoundAll(table, ms)
  {
    if ms != [] {
      BoundAllExtends(table, ms[..|ms| - 1]);
    }
  }

  lemma FilesAreBound(kernel: string, rootfs: string, k: seq<Name>, r: seq<Name>)
    requires k != r
    ensures BoundAll([], FileMapping(kernel, k) + FileMapping(rootfs, r)) == FileMapping(kernel, k) + FileMapping(rootfs, r)
  {
    BoundAppend([], FileMapping(kernel, k), FileMapping(rootfs, r));
    BoundFile([], kernel, k);
    hide Clean, BoundAll;
    assert BoundAll([], FileMapping(kernel, k)) == FileMapping(kernel, k);
    BoundFile(FileMapping(kernel, k), rootfs, r);
  }

  lemma FirstStayFirst(first: seq<Mapping>, a: seq<Mapping>, b: seq<Mapping>)
    requires BoundAll([], first) == first
    ensures first <= BoundAll([], first + a + b)
  {
    assert first + a + b == first + (a + b);
    BoundAppend([], first, a + b);
    BoundAllExtends(first, a + b);
  }

  lemma FilesComeFirst(s: Spec)
    ensures FileMapping(s.kernel, ["kernel"]) + FileMapping(s.rootfs, ["rootfs.ext4"]) <= BoundAll([], Mappings(s))
  {
    hide DriveMappings, SnapshotMappings, FileMapping, BoundAll;
    assert ["kernel"] != ["rootfs.ext4"] by {
      assert |["kernel"][0]| != |["rootfs.ext4"][0]|;
    }
    FilesAreBound(s.kernel, s.rootfs, ["kernel"], ["rootfs.ext4"]);
    FirstStayFirst(FileMapping(s.kernel, ["kernel"]) + FileMapping(s.rootfs, ["rootfs.ext4"]),
                   DriveMappings(s.drives), SnapshotMappings(s));
  }

  lemma {:induction false} FirstMatchTranslates(table: seq<Mapping>, path: Path, k: nat)
    requires k < |table| && table[k].host == path && forall j :: 0 <= j < k ==> !Matches(table[j], path)
    ensures Translated(table, path) == Path(true, table[k].guest)
  {
    if k > 0 {
      FirstMatchTranslates(table[1..], path, k - 1);
    } else {
      assert table[0].guest + path.parts[|path.parts|..] == table[0].guest;
    }
  }

  // The spec handed over names the kernel /kernel and the rootfs /rootfs.ext4, unless the
  // two are one file.
  lemma KernelAndRootfsTargets(s: Spec)
    ensures var table := BoundAll([], Mappings(s));
            && (s.kernel != "" ==> InJail(table, s.kernel) == Some(Path(true, ["kernel"])))
            && (s.rootfs != "" && (s.kernel == "" || Clean(s.rootfs) != Clean(s.kernel)) ==>
                  InJail(table, s.rootfs) == Some(Path(true, ["rootfs.ext4"])))
  {
    FilesComeFirst(s);
    hide Clean, Mappings, BoundAll, Translated;
    var table := BoundAll([], Mappings(s));
    if s.kernel != "" {
      FirstMatchTranslates(table, Clean(s.kernel), 0);
    }
    if s.rootfs != "" && (s.kernel == "" || Clean(s.rootfs) != Clean(s.kernel)) {
      FirstMatchTranslates(table, Clean(s.rootfs), if s.kernel == "" then 0 else 1);
    }
  }

  // So does every file directly in the directory of the memfile or the snapfile, whether
  // the two share it or not.
  lemma SnapshotFilesArePreserved(root: seq<Name>, s: Spec, path: string)
    requires Apart(Mappings(s)) && FileName(Last(path))
    requires (s.memfile != "" && Dir(path) == Dir(s.memfile)) || (s.snapfile != "" && Dir(path) == Dir(s.snapfile))
    ensures Preserved(root, BoundAll([], Mappings(s)), Clean(path))
  {
    CleanFromDir(path);
    hide Clean, Dir, Last, BoundAll, Preserved, DriveMappings, FileMapping, Apart;
    var shared := Mapping(Dir(path), ["snapshot"], true);
    var mem, snap := Mapping(Dir(path), ["snapshot", "mem"], true), Mapping(Dir(path), ["snapshot", "snap"], true);
    var m := if !SplitDirs(s) then shared else if Dir(path) == Dir(s.memfile) then mem else snap;
    assert m in SnapshotMappings(s);
    assert Matches(m, Clean(path)) by {
      assert Clean(path).parts[|Dir(path).parts|..] == [Last(path)];
    }
    BoundPathPreserved(root, s, m, Clean(path));
  }

  // In particular the memfile, the snapfile and the temporary files next to them.
  lemma SnapshotPathsArePreserved(root: seq<Name>, s: Spec, suffix: string)
    requires Apart(Mappings(s)) && '/' !in suffix && suffix != ""
    ensures forall file :: file in {s.memfile, s.snapfile} && file != "" && FileName(Last(file)) ==>
              && Preserved(root, BoundAll([], Mappings(s)), Clean(file))
              && Preserved(root, BoundAll([], Mappings(s)), Clean(file + suffix))
  {
    hide Clean, Dir, Last, BoundAll, Preserved, Mappings, Apart;
    forall file | file in {s.memfile, s.snapfile} && file != "" && FileName(Last(file))
      ensures Preserved(root, BoundAll([], Mappings(s)), Clean(file))
      ensures Preserved(root, BoundAll([], Mappings(s)), Clean(file + suffix))
    {
      SnapshotFilesArePreserved(root, s, file);
      SiblingBySuffix(file, suffix);
      StillFileName(Last(file), suffix);
      SnapshotFilesArePreserved(root, s, file + suffix);
    }
  }

  lemma Dots(name: Name)
    requires name != ""
    ensures |name| == 1 ==> (name == "." <==> name[0] == '.') && !(".." <= name)
    ensures |name| >= 2 ==> (".." <= name <==> name[0] == '.' && name[1] == '.')
  {
    assert |name| == 1 && name[0] == '.' ==> name == ".";
  }

  lemma StillFileName(name: Name, suffix: string)
    requires FileName(name) && suffix != ""
    ensures FileName(name + suffix)
  {
    Dots(name);
    Dots(name + suffix);
    assert |name + suffix| >= 2 && (name + suffix)[0] == name[0];
    assert |name| >= 2 ==> (name + suffix)[1] == name[1];
  }

  // ---------- targets that clash ----------

  // Mappings are distinct, and targets that are not apart are one file target.
  predicate ClashesAreFiles(table: seq<Mapping>) {
    forall k, l :: 0 <= k < l < |table| ==>
      && table[k] != table[l]
      && (Comparable(table[k].guest, table[l].guest) ==>
            table[k].guest == table[l].guest && !table[k].isDir && !table[l].isDir)
  }

  predicate MatchedBefore(table: seq<Mapping>, k: nat)
    requires k < |table|
  {
    exists j :: 0 <= j < k && Matches(table[j], table[k].host)
  }

  // A file whose target is taken again later is bound before under another target.
  predicate ClashesAreHarmless(table: seq<Mapping>) {
    forall k, l :: 0 <= k < l < |table| && table[k].guest == table[l].guest ==> MatchedBefore(table, k)
  }

  lemma {:induction false} FirstMatchIsFirst(table: seq<Mapping>, path: Path) returns (k: nat)
    requires Covered(table, path)
    ensures k < |table| && Matches(table[k], path) && forall j :: 0 <= j < k ==> !Matches(table[j], path)
    ensures Translated(table, path) == Path(true, table[k].guest + path.parts[|table[k].host.parts|..])
  {
    if Matches(table[0], path) {
      k := 0;
    } else {
      var at :| 0 <= at < |table| && Matches(table[at], path);
      assert Matches(table[1..][at - 1], path);
      k := FirstMatchIsFirst(table[1..], path);
      forall j | 0 <= j < k + 1
        ensures !Matches(table[j], path)
      {
        assert j > 0 ==> table[j] == table[1..][j - 1];
      }
      k := k + 1;
    }
  }

  // The latest of the mounts with exactly this target decides.
  lemma {:induction false} LastMountDecides(mounts: seq<Mapping>, k: nat, path: seq<Name>)
    requires k < |mounts| && mounts[k].guest <= path && (mounts[k].isDir || mounts[k].guest == path)
    requires forall l :: k < l < |mounts| ==> !(mounts[l].guest <= path)
    ensures Resolved(mounts, path) == Some(Path(mounts[k].host.rooted, mounts[k].host.parts + path[|mounts[k].guest|..]))
  {
    if k < |mounts| - 1 {
      LastMountDecides(mounts[..|mounts| - 1], k, path);
    }
  }

  lemma ResolvedBelowRoot(root: seq<Name>, table: seq<Mapping>, k: nat, g: seq<Name>)
    requires k < |table| && table[k].guest <= g && (table[k].isDir || table[k].guest == g)
    requires forall l :: k < l < |table| ==> !(table[l].guest <= g)
    ensures Resolved(Mounts(root, table), root + g) == Some(Path(table[k].host.rooted, table[k].host.parts + g[|table[k].guest|..]))
  {
    hide Resolved;
    forall l | k <= l < |table|
      ensures Mounts(root, table)[l].guest <= root + g <==> table[l].guest <= g
    {
      BelowRoot(root, table[l].guest, g);
    }
    BelowRoot(root, table[k].guest, g);
    LastMountDecides(Mounts(root, table), k, root + g);
  }

  // A path whose first match is not overmounted leads back to itself.
  lemma LastTargetPreserves(root: seq<Name>, table: seq<Mapping>, path: Path, k: nat)
    requires ClashesAreFiles(table) && k < |table| && Matches(table[k], path)
    requires Translated(table, path) == Path(true, table[k].guest + path.parts[|table[k].host.parts|..])
    requires forall l :: k < l < |table| ==> table[l].guest != table[k].guest
    ensures Preserved(root, table, path)
  {
    var m := table[k];
    var rest := path.parts[|m.host.parts|..];
    var g := m.guest + rest;
    forall l | k < l < |table|
      ensures !(table[l].guest <= g)
    {
      assert !Comparable(m.guest, table[l].guest);
      NotOnTheWay(table[l].guest, m.guest, g);
    }
    ResolvedBelowRoot(root, table, k, g);
    assert path.parts == m.host.parts + rest && g[|m.guest|..] == rest;
    hide ClashesAreFiles, Translated, Resolved;
  }

  lemma {:induction false} LatestWithTarget(table: seq<Mapping>, guest: seq<Name>, l: nat) returns (last: nat)
    requires l < |table| && table[l].guest == guest
    ensures l <= last < |table| && table[last].guest == guest && forall m :: last < m < |table| ==> table[m].guest != guest
    decreases |table| - l
  {
    if m :| l < m < |table| && table[m].guest == guest {
      last := LatestWithTarget(table, guest, m);
    } else {
      last := l;
    }
  }

  // A file that is its own first match and whose target is taken again leads elsewhere.
  lemma OvermountedIsLost(root: seq<Name>, table: seq<Mapping>, k: nat, l: nat)
    requires ClashesAreFiles(table) && k < l < |table| && table[k].guest == table[l].guest && !MatchedBefore(table, k)
    ensures Covered(table, table[k].host) && !Preserved(root, table, table[k].host)
  {
    var path, guest := table[k].host, table[k].guest;
    assert Matches(table[k], path);
    var first := FirstMatchIsFirst(table, path);
    assert first == k;
    assert guest + path.parts[|path.parts|..] == guest;
    var last := LatestWithTarget(table, guest, l);
    forall m | last < m < |table|
      ensures !(table[m].guest <= guest)
    {
      assert !Comparable(table[last].guest, table[m].guest);
    }
    ResolvedBelowRoot(root, table, last, guest);
    assert table[last].host.parts + guest[|guest|..] == table[last].host.parts;
    assert table[k] != table[last] && !table[k].isDir && !table[last].isDir;
    hide ClashesAreFiles, Translated, Resolved;
  }

  // Every bound path leads back to itself exactly when no clash of targets does harm.
  lemma AllPreservedIff(root: seq<Name>, table: seq<Mapping>)
    requires ClashesAreFiles(table)
    ensures (forall path :: Covered(table, path) ==> Preserved(root, table, path)) <==> ClashesAreHarmless(table)
  {
    if ClashesAreHarmless(table) {
      forall path | Covered(table, path)
        ensures Preserved(root, table, path)
      {
        var k := FirstMatchIsFirst(table, path);
        forall l | k < l < |table|
          ensures table[l].guest != table[k].guest
        {
          if table[l].guest == table[k].guest {
            MatchedBeforeTakenAgain(table, path, k, l);
          }
        }
        LastTargetPreserves(root, table, path, k);
      }
    } else {
      var k, l :| 0 <= k < l < |table| && table[k].guest == table[l].guest && !MatchedBefore(table, k);
      OvermountedIsLost(root, table, k, l);
    }
    hide ClashesAreFiles, Preserved, Covered;
  }

  lemma MatchedBeforeTakenAgain(table: seq<Mapping>, path: Path, k: nat, l: nat)
    requires ClashesAreFiles(table) && ClashesAreHarmless(table) && k < l < |table| && Matches(table[k], path)
    requires table[l].guest == table[k].guest
    ensures exists j :: 0 <= j < k && Matches(table[j], path)
  {
    assert Comparable(table[k].guest, table[l].guest);
    assert table[k].host == path && MatchedBefore(table, k);
  }

  lemma PlainClashes(s: Spec)
    requires PlainDrives(s.drives)
    ensures ClashesAreFiles(BoundAll([], Mappings(s)))
  {
    BoundAllIs(Mappings(s));
    var table := BoundAll([], Mappings(s));
    hide BoundAll, Mappings, Comparable, PlainDrives, DriveMappings;
    forall k, l | 0 <= k < l < |table| && Comparable(table[k].guest, table[l].guest)
      ensures table[k].guest == table[l].guest && !table[k].isDir && !table[l].isDir
    {
      assert table[k] in table && table[l] in table;
      ComparableTargets(s, table[k], table[l]);
    }
  }

  // A file the spec has bound.
  predicate SpecFile(s: Spec, text: string) {
    text != "" && (text == s.kernel || text == s.rootfs || exists d :: d in s.drives && d.path == text && d.id != "")
  }

  lemma BoundIsCovered(s: Spec, m: Mapping, path: Path)
    requires m in Mappings(s) && Matches(m, path)
    ensures Covered(BoundAll([], Mappings(s)), path)
  {
    hide BoundAll, Mappings, Matches, Covered;
    BoundAllIs(Mappings(s));
    CoveredBy(BoundAll([], Mappings(s)), m, path);
  }

  lemma SpecFileIsCovered(s: Spec, text: string)
    requires SpecFile(s, text)
    ensures Covered(BoundAll([], Mappings(s)), Clean(text))
  {
    hide Clean, DriveGuest, SnapshotMappings, BoundAll, Covered;
    var path := Clean(text);
    if text == s.kernel || text == s.rootfs {
      var m := Mapping(path, if text == s.kernel then ["kernel"] else ["rootfs.ext4"], false);
      assert m in FileMapping(text, m.guest);
      BoundIsCovered(s, m, path);
    } else {
      var d :| d in s.drives && d.path == text && d.id != "";
      var m := Mapping(path, DriveGuest(d), false);
      DriveMappingsAre(s.drives, m);
      BoundIsCovered(s, m, path);
    }
  }

  lemma DriveMappingIsSpecFile(s: Spec, m: Mapping) returns (text: string)
    requires m in DriveMappings(s.drives)
    ensures SpecFile(s, text) && m.host == Clean(text)
  {
    DriveMappingsAre(s.drives, m);
    hide Clean, DriveGuest, DriveMappings;
    var d :| d in s.drives && d.path != "" && d.id != "" && m == Mapping(Clean(d.path), DriveGuest(d), false);
    text := d.path;
  }

  // With plain drive names: kernel, rootfs and drives all lead back to their host files
  // exactly when every drive whose target is taken again later is bound before elsewhere.
  lemma SpecFilesPreservedIff(root: seq<Name>, s: Spec)
    requires PlainDrives(s.drives)
    ensures var table := BoundAll([], Mappings(s));
            (forall text :: SpecFile(s, text) ==> Preserved(root, table, Clean(text))) <==> ClashesAreHarmless(table)
  {
    var table := BoundAll([], Mappings(s));
    PlainClashes(s);
    BoundAllIs(Mappings(s));
    AllPreservedIff(root, table);
    hide BoundAll, Mappings, Clean, Preserved, Covered, PlainDrives, DriveMappings, SpecFile, Comparable, MatchedBefore;
    if ClashesAreHarmless(table) {
      forall text | SpecFile(s, text)
        ensures Preserved(root, table, Clean(text))
      {
        SpecFileIsCovered(s, text);
      }
    } else {
      var k, l :| 0 <= k < l < |table| && table[k].guest == table[l].guest && !MatchedBefore(table, k);
      OvermountedIsLost(root, table, k, l);
      assert table[k] in table && table[l] in table && table[k] != table[l];
      SameIsComparable(table[k].guest);
      ComparableTargets(s, table[k], table[l]);
      var text := DriveMappingIsSpecFile(s, table[k]);
    }
  }

  lemma SameIsComparable(guest: seq<Name>)
    ensures Comparable(guest, guest)
  {
  }

  const CLASHING := Spec("", "", false, [Drive("x", "/a", false), Drive("x", "/b", false)], "", "")

  lemma ClashingTable()
    ensures var a := Mapping(Path(true, ["a"]), ["extra-drives", "x"], false);
            var b := Mapping(Path(true, ["b"]), ["extra-drives", "x"], false);
            BoundAll([], Mappings(CLASHING)) == [a, b] && a.host == Clean("/a") && b.host == Clean("/b")
  {
    var d, e := Drive("x", "/a", false), Drive("x", "/b", false);
    OneElement("a");
    OneElement("b");
    OneElementGuest(d);
    OneElementGuest(e);
    hide Clean, DriveGuest;
    ClashingMappings(d, e);
    hide Mappings, BoundAll, DriveMappings;
    BoundTwo([], [Mapping(Clean("/a"), DriveGuest(d), false), Mapping(Clean("/b"), DriveGuest(e), false)]);
  }

  lemma ClashingMappings(d: Drive, e: Drive)
    requires CLASHING.drives == [d, e] && d.path != "" && d.id != "" && e.path != "" && e.id != ""
    ensures Mappings(CLASHING) == [Mapping(Clean(d.path), DriveGuest(d), false), Mapping(Clean(e.path), DriveGuest(e), false)]
  {
    hide Clean, DriveGuest, Dir;
    assert [d, e][..1] == [d] && [d][..0] == [];
    assert DriveMappings([d]) == [Mapping(Clean(d.path), DriveGuest(d), false)];
  }

  // Two drives with one target: the first one's path leads to the second one's file.
  lemma SharedTargetMisleads(root: seq<Name>)
    ensures var table := BoundAll([], Mappings(CLASHING));
            && Translated(table, Clean("/a")) == Path(true, ["extra-drives", "x"])
            && Resolved(Mounts(root, table), root + ["extra-drives", "x"]) == Some(Clean("/b"))
            && Clean("/a") != Clean("/b")
  {
    ClashingTable();
    hide Clean, DriveGuest, Mappings, BoundAll, Resolved;
    var table := BoundAll([], Mappings(CLASHING));
    assert ["a"][|["a"]|..] == [] && ["extra-drives", "x"] + [] == ["extra-drives", "x"];
    ResolvedBelowRoot(root, table, 1, ["extra-drives", "x"]);
    assert ["b"] + ["extra-drives", "x"][|["extra-drives", "x"]|..] == ["b"];
  }

  lemma OneElement(name: Name)
    requires PlainName(name)
    ensures Clean("/" + name) == Path(true, [name])
  {
    SplitCons('/', name);
    SplitPlain(name);
    var raw := ["", name];
    assert Split("/" + name) == raw;
    assert raw[..1] == [""] && [""][..0] == [];
    assert Cleaned(true, [""]) == [];
  }

  lemma OneElementGuest(d: Drive)
    requires d.id == "x" && d.path in {"/a", "/b"}
    ensures DriveGuest(d) == ["extra-drives", "x"]
  {
    assert d.path[..1] == "/" && Ext("/") == "" && Ext(d.path) == "";
    SplitPlain("x");
    assert "x" + "" == "x" && ["extra-drives"] + ["x"] == ["extra-drives", "x"];
    PlainCleaned("extra-drives", "x");
  }

  // A path that no binding covers, a drive's without an id for one, is not translated, and
  // finds nothing unless it happens to lie at or below a target.
  lemma UncoveredIsLost(root: seq<Name>, table: seq<Mapping>, path: Path)
    requires !Covered(table, path) && forall m :: m in table ==> !(m.guest <= path.parts)
    ensures !Preserved(root, table, path)
  {
    UncoveredIsUnchanged(table, path);
    forall l | 0 <= l < |table|
      ensures !(Mounts(root, table)[l].guest <= root + path.parts)
    {
      BelowRoot(root, table[l].guest, path.parts);
      assert table[l] in table;
    }
    NothingMounted(Mounts(root, table), root + path.parts);
    hide Translated, Resolved;
  }

  lemma {:induction false} NothingMounted(mounts: seq<Mapping>, path: seq<Name>)
    requires forall l :: 0 <= l < |mounts| ==> !(mounts[l].guest <= path)
    ensures Resolved(mounts, path) == None
  {
    if mounts != [] {
      NothingMounted(mounts[..|mounts| - 1], path);
    }
  }
}

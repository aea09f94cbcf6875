/** Restoring an archive: extraction into a staging folder, then a rename per file. */
module Restore {
  import opened Wrappers
  import opened Sorting
  import opened FileTree
  import opened Backup

  // ---------- what an archive holds ----------

  predicate IsManifest(e: Entry) {
    e.rel == Some([MANIFEST])
  }

  predicate IsFolder(e: Entry) {
    e.rel.Some? && !IsManifest(e) && e.folder
  }

  predicate IsFile(e: Entry) {
    e.rel.Some? && !IsManifest(e) && !e.folder && e.rel.value != []
  }

  ghost function ContentFiles(a: Archive): map<Path, Bytes> {
    if a == [] then map[]
    else
      var rest, e := ContentFiles(a[..|a| - 1]), a[|a| - 1];
      if IsFile(e) then rest[e.rel.value := e.data] else rest
  }

  ghost function NeededDirs(e: Entry): set<Path> {
    if IsFolder(e) then Prefixes(e.rel.value)
    else if IsFile(e) then Prefixes(Parent(e.rel.value))
    else {}
  }

  ghost function ContentDirs(a: Archive): set<Path> {
    if a == [] then {[]} else ContentDirs(a[..|a| - 1]) + NeededDirs(a[|a| - 1])
  }

  ghost function Contents(a: Archive): Tree {
    Tree(ContentFiles(a), ContentDirs(a))
  }

  /** Every entry can be extracted: no path is both a file and a folder, no file entry names the root. */
  ghost predicate Coherent(a: Archive) {
    && ContentFiles(a).Keys !! ContentDirs(a)
    && forall e | e in a :: e.rel == Some([]) ==> e.folder
  }

  // ---------- what a restore does to the live tree ----------

  ghost function Overlay(live: Tree, t: Tree): Tree {
    Tree(live.files + t.files, live.dirs + t.dirs)
  }

  /** No file of one side is a folder of the other. */
  ghost predicate NoClash(live: Tree, t: Tree) {
    live.files.Keys !! t.dirs && t.files.Keys !! live.dirs
  }

  /** Each live file has its old content or the archive's, and nothing outside the archive changed. */
  ghost predicate PartlyApplied(before: Tree, t: Tree, after: Tree) {
    && before.files.Keys <= after.files.Keys <= before.files.Keys + t.files.Keys
    && (forall p | p in after.files ::
          (p in before.files && after.files[p] == before.files[p]) || (p in t.files && after.files[p] == t.files[p]))
    && before.dirs <= after.dirs <= before.dirs + t.dirs
  }

  /** The live tree once a staging folder left by a crashed restore is gone. */
  ghost function Cleared(t: Tree, stage: string): Tree {
    if [stage] in t.dirs then Without(t, [stage]) else t
  }

  /** The archive may hold a file of the staging folder's name, but no folder of that name and nothing below it. */
  ghost predicate NothingBelow(a: Archive, stage: string) {
    forall e | e in a && e.rel.Some? && e.rel.value != [] && e.rel.value[0] == stage ::
      e.rel.value == [stage] && !e.folder
  }

  /** The same of a tree. */
  ghost predicate Outside(t: Tree, stage: string) {
    && (forall p | p in t.files :: p != [] && (p == [stage] || p[0] != stage))
    && (forall p | p in t.dirs :: p == [] || p[0] != stage)
  }

  datatype RestoreError = NotABackup | NoStaging | ExtractFailed | MoveFailed

  // ---------- phase 1: extraction ----------

  lemma {:induction false} ContentsOutside(a: Archive, stage: string)
    requires NothingBelow(a, stage)
    ensures Outside(Contents(a), stage)
  {
    if a != [] {
      var front, e := a[..|a| - 1], a[|a| - 1];
      assert forall x | x in front :: x in a;
      assert e in a;
      ContentsOutside(front, stage);
    }
  }

  lemma {:induction false} ContentsGrow(a: Archive, i: nat)
    requires i <= |a|
    ensures ContentFiles(a[..i]).Keys <= ContentFiles(a).Keys && ContentDirs(a[..i]) <= ContentDirs(a)
    decreases |a|
  {
    if i < |a| {
      ContentsGrow(a[..|a| - 1], i);
      assert a[..|a| - 1][..i] == a[..i];
    } else {
      assert a[..i] == a;
    }
  }

  lemma NextEntry(a: Archive, i: nat)
    requires i < |a|
    ensures ContentFiles(a[..i + 1]) ==
              if IsFile(a[i]) then ContentFiles(a[..i])[a[i].rel.value := a[i].data] else ContentFiles(a[..i])
    ensures ContentDirs(a[..i + 1]) == ContentDirs(a[..i]) + NeededDirs(a[i])
  {
    var b := a[..i + 1];
    assert b[..|b| - 1] == a[..i] && b[|b| - 1] == a[i];
  }

  method Extract(staging: FileSystem, a: Archive) returns (ok: bool)
    requires staging.tree == Tree(map[], {[]})
    modifies staging
    ensures ok ==> WellFormed(staging.tree) && staging.tree == Contents(a) && Coherent(a)
    ensures staging.quiet && Coherent(a) ==> ok
  {
    var i := 0;
    while i < |a|
      invariant 0 <= i <= |a|
      invariant Extracted(staging.tree, a, i)
    {
      var cancel := *;
      if !staging.quiet && cancel {
        return false;
      }
      ok := ExtractNext(staging, a, i);
      if !ok {
        return false;
      }
      i := i + 1;
    }
    assert a[..i] == a;
    return true;
  }

  /** The staging folder holds the first `i` entries. */
  ghost predicate Extracted(t: Tree, a: Archive, i: nat)
    requires i <= |a|
  {
    WellFormed(t) && t == Contents(a[..i]) && forall e | e in a[..i] :: e.rel == Some([]) ==> e.folder
  }

  method ExtractNext(staging: FileSystem, a: Archive, i: nat) returns (ok: bool)
    requires i < |a| && Extracted(staging.tree, a, i)
    modifies staging
    ensures ok ==> Extracted(staging.tree, a, i + 1)
    ensures staging.quiet && Coherent(a) ==> ok
  {
    NextEntry(a, i);
    ContentsGrow(a, i + 1);
    assert a[..i + 1] == a[..i] + [a[i]];
    ok := ExtractEntry(staging, a[i]);
  }

  method ExtractEntry(staging: FileSystem, e: Entry) returns (ok: bool)
    requires WellFormed(staging.tree)
    modifies staging
    ensures ok ==> WellFormed(staging.tree) && (e.rel == Some([]) ==> e.folder)
    ensures ok ==> staging.tree.dirs == old(staging.tree.dirs) + NeededDirs(e)
    ensures ok ==> staging.tree.files ==
                   if IsFile(e) then old(staging.tree.files)[e.rel.value := e.data] else old(staging.tree.files)
    ensures && staging.quiet
            && (e.rel == Some([]) ==> e.folder)
            && old(staging.tree.files).Keys !! NeededDirs(e)
            && (IsFile(e) ==> e.rel.value !in old(staging.tree.dirs) + NeededDirs(e))
            ==> ok
  {
    if e.rel == None || IsManifest(e) {
      return true;
    }
    var out := e.rel.value;
    if e.folder {
      ok := staging.CreateDirAll(out);
      return;
    }
    if out == [] {
      return false;
    }
    ok := staging.CreateDirAll(Parent(out));
    if ok {
      assert Parent(out) in Prefixes(Parent(out)) by { assert Parent(out) == Parent(out)[..|out| - 1]; }
      ok := staging.WriteFile(out, e.data);
    }
  }

  // ---------- phase 2: the move ----------

  /** Each file of `s` is either still staged or already live, over what was live `before`. */
  ghost predicate FilesMoving<K, V>(before: map<K, V>, s: map<K, V>, staged: map<K, V>, live: map<K, V>) {
    && staged.Keys <= s.Keys && (forall p | p in staged :: staged[p] == s[p])
    && live.Keys == before.Keys + (s.Keys - staged.Keys)
    && ValuesMoving(before, s, staged, live)
  }

  ghost predicate ValuesMoving<K, V>(before: map<K, V>, s: map<K, V>, staged: map<K, V>, live: map<K, V>) {
    forall p | p in live ::
      if p in s && p !in staged then live[p] == s[p] else p in before && live[p] == before[p]
  }

  /** Staging and live tree while files of the staged tree `s` move over the live tree `before`. */
  ghost predicate Moving(before: Tree, s: Tree, staged: Tree, live: Tree) {
    && staged.dirs == s.dirs && FilesMoving(before.files, s.files, staged.files, live.files)
    && before.dirs <= live.dirs <= before.dirs + s.dirs
  }

  class Mover {
    const staging: FileSystem
    const live: FileSystem
    ghost const before: Tree
    ghost const staged: Tree
    var dirs: seq<Path>
    var moved: nat

    ghost predicate Valid()
      reads this, staging, live
    {
      && staging != live && staging.quiet == live.quiet
      && WellFormed(staging.tree) && WellFormed(live.tree) && WellFormed(staged)
      && Moving(before, staged, staging.tree, live.tree)
      && moved + |staging.tree.files| == |staged.files|
    }

    constructor (staging: FileSystem, live: FileSystem)
      requires staging != live && staging.quiet == live.quiet
      requires WellFormed(staging.tree) && WellFormed(live.tree)
      ensures Valid() && this.staging == staging && this.live == live
      ensures before == live.tree && staged == staging.tree && dirs == [] && moved == 0
    {
      this.staging := staging;
      this.live := live;
      before := live.tree;
      staged := staging.tree;
      dirs := [];
      moved := 0;
    }

    /** The walk so far took the staged files `gone` and remembered exactly the folders `seen`. */
    ghost predicate Took(files0: set<Path>, dirs0: seq<Path>, gone: set<Path>, seen: set<Path>)
      reads this, staging
    {
      && staging.tree.files.Keys == files0 - gone
      && dirs0 <= dirs && Lists(dirs[|dirs0|..], seen)
    }

    /**
     Rename every staged file below `dir` onto its live path and remember every folder below it.
     A quiet file system lets it finish whenever nothing clashes; any stop leaves `Valid()`.
     */
    method CollectStaged(dir: Path, ghost height: nat) returns (ok: bool)
      requires Valid() && dir in staged.dirs && |dir| <= height && forall p | p in staged.dirs :: |p| <= height
      modifies this, staging, live
      ensures Valid()
      ensures ok ==> Took(old(staging.tree.files.Keys), old(dirs),
                          Below(old(staging.tree.files.Keys), dir), Below(staged.dirs, dir))
      ensures live.quiet && NoClash(before, staged) ==> ok
      decreases height - |dir|, 2
    {
      ghost var start, dirs0 := staging.tree, dirs;
      var names := ReadDir(staging.tree, dir);
      var i := 0;
      TookNone(dir, names);
      while i < |names|
        invariant 0 <= i <= |names|
        invariant Valid()
        invariant TookFirst(start.files.Keys, dirs0, dir, names, i)
      {
        ok := WalkChild(dir, names, i, start, dirs0, height);
        if !ok {
          return;
        }
        i := i + 1;
      }
      TookEvery(start, dirs0, dir, names);
      return true;
    }

    /** `Took`, for the first `i` children of `dir`. */
    ghost predicate TookFirst(files0: set<Path>, dirs0: seq<Path>, dir: Path, names: seq<string>, i: nat)
      reads this, staging
      requires i <= |names|
    {
      Took(files0, dirs0, BelowChildren(files0, dir, names[..i]), BelowChildren(staged.dirs, dir, names[..i]))
    }

    lemma TookNone(dir: Path, names: seq<string>)
      ensures TookFirst(staging.tree.files.Keys, dirs, dir, names, 0)
    {
      assert names[..0] == [];
      assert forall all: set<Path> :: BelowChildren(all, dir, []) == {};
    }

    lemma TookEvery(start: Tree, dirs0: seq<Path>, dir: Path, names: seq<string>)
      requires WellFormed(start) && start.dirs == staged.dirs && Lists(names, NamesIn(start, dir))
      requires TookFirst(start.files.Keys, dirs0, dir, names, |names|)
      ensures Took(start.files.Keys, dirs0, Below(start.files.Keys, dir), Below(staged.dirs, dir))
    {
      assert names[..|names|] == names;
      AllChildren(start, start.files.Keys, dir, names);
      AllChildren(start, staged.dirs, dir, names);
    }

    /** One turn of the loop, on the `i`th child. */
    method WalkChild(dir: Path, names: seq<string>, i: nat, ghost start: Tree, ghost dirs0: seq<Path>,
                     ghost height: nat)
      returns (ok: bool)
      requires Valid() && dir in staged.dirs && |dir| <= height && forall p | p in staged.dirs :: |p| <= height
      requires i < |names| && Lists(names, NamesIn(start, dir)) && start.dirs == staged.dirs
      requires TookFirst(start.files.Keys, dirs0, dir, names, i)
      modifies this, staging, live
      ensures Valid()
      ensures ok ==> TookFirst(start.files.Keys, dirs0, dir, names, i + 1)
      ensures live.quiet && NoClash(before, staged) ==> ok
      decreases height - |dir|, 1
    {
      StillThere(start, staging.tree, dir, names, i);
      ghost var files1, dirs1 := staging.tree.files.Keys, dirs;
      ok := MoveChild(dir, names[i], height);
      if ok {
        TookNext(start.files.Keys, dirs0, files1, dirs1, dir, names, i);
      }
    }

    lemma TookNext(files0: set<Path>, dirs0: seq<Path>, files1: set<Path>, dirs1: seq<Path>, dir: Path,
                   names: seq<string>, i: nat)
      requires Distinct(names) && i < |names|
      requires files1 == files0 - BelowChildren(files0, dir, names[..i])
      requires dirs0 <= dirs1 && Lists(dirs1[|dirs0|..], BelowChildren(staged.dirs, dir, names[..i]))
      requires Took(files1, dirs1, AtChild(files1, dir, names[i]), AtChild(staged.dirs, dir, names[i]))
      ensures Took(files0, dirs0, BelowChildren(files0, dir, names[..i + 1]),
                   BelowChildren(staged.dirs, dir, names[..i + 1]))
    {
      NextChild(files0, dir, names, i);
      NextChild(staged.dirs, dir, names, i);
      ExtendListing(dirs1[|dirs0|..], BelowChildren(staged.dirs, dir, names[..i]),
                    dirs[|dirs1|..], AtChild(staged.dirs, dir, names[i]));
      assert dirs[|dirs0|..] == dirs1[|dirs0|..] + dirs[|dirs1|..];
    }

    /** A folder is remembered and walked, a file is moved. */
    method MoveChild(dir: Path, name: string, ghost height: nat) returns (ok: bool)
      requires Valid() && dir in staged.dirs && name in NamesIn(staging.tree, dir)
      requires |dir| <= height && forall p | p in staged.dirs :: |p| <= height
      modifies this, staging, live
      ensures Valid()
      ensures ok ==> Took(old(staging.tree.files.Keys), old(dirs),
                          AtChild(old(staging.tree.files.Keys), dir, name), AtChild(staged.dirs, dir, name))
      ensures live.quiet && NoClash(before, staged) ==> ok
      decreases height - |dir|, 0
    {
      var cancel := *;
      if !live.quiet && cancel {
        return false;
      }
      var path := dir + [name];
      IsChild(staging.tree, dir, name);
      if path in staging.tree.dirs {
        ChildOfFolder(staging.tree, dir, name);
        ok := MoveFolder(path, height);
      } else {
        ChildOfFile(staging.tree, dir, name);
        ok := MoveFile(path);
      }
    }

    method MoveFolder(path: Path, ghost height: nat) returns (ok: bool)
      requires Valid() && path in staged.dirs && |path| <= height && forall p | p in staged.dirs :: |p| <= height
      modifies this, staging, live
      ensures Valid()
      ensures ok ==> Took(old(staging.tree.files.Keys), old(dirs),
                          Below(old(staging.tree.files.Keys), path), {path} + Below(staged.dirs, path))
      ensures live.quiet && NoClash(before, staged) ==> ok
      decreases height - |path|, 3
    {
      dirs := dirs + [path];
      ok := CollectStaged(path, height);
      if ok {
        Remembered(old(staging.tree.files.Keys), old(dirs), path);
      }
    }

    /** The folder itself comes before what is below it. */
    lemma Remembered(files0: set<Path>, dirs0: seq<Path>, path: Path)
      requires Took(files0, dirs0 + [path], Below(files0, path), Below(staged.dirs, path))
      ensures Took(files0, dirs0, Below(files0, path), {path} + Below(staged.dirs, path))
    {
      var n := |dirs0| + 1;
      ExtendListing([path], {path}, dirs[n..], Below(staged.dirs, path));
      assert dirs[..n] == dirs0 + [path];
      assert dirs[|dirs0|..] == [path] + dirs[n..];
    }

    method MoveFile(path: Path) returns (ok: bool)
      requires Valid() && path in staging.tree.files
      modifies this, staging, live
      ensures Valid() && dirs == old(dirs)
      ensures ok ==> staging.tree.files.Keys == old(staging.tree.files.Keys) - {path}
      ensures live.quiet && NoClash(before, staged) ==> ok
    {
      ParentIsReady(path);
      ok := live.CreateDirAll(Parent(path));
      if ok {
        ghost var from, to := staging.tree, live.tree;
        ok := live.MoveFrom(staging, path);
        if ok {
          MovedOne(before, staged, from, to, path);
          LessOne(from.files, path);
          moved := moved + 1;
        }
      }
    }

    lemma ParentIsReady(path: Path)
      requires Valid() && path in staging.tree.files
      ensures path != [] && Parent(path) in Prefixes(Parent(path)) && Prefixes(Parent(path)) <= staged.dirs
      ensures NoClash(before, staged) ==>
              Prefixes(Parent(path)) !! live.tree.files.Keys && path !in before.dirs + staged.dirs
    {
      assert Parent(path) == Parent(path)[..|path| - 1];
      PrefixesAreDirs(staged, Parent(path));
    }

    lemma WalkFinished(all: set<Path>)
      requires Valid() && Took(all, [], all, Below(staged.dirs, []))
      ensures staging.tree.files.Keys == {} && moved == |staged.files| && Lists(dirs, Below(staged.dirs, []))
    {
      assert |staging.tree.files| == |staging.tree.files.Keys|;
      assert dirs == dirs[0..];
    }

    lemma BelowRoot(all: set<Path>)
      requires [] !in all
      ensures Below(all, []) == all
    {
    }

    /** The move phase: walk the staging folder, then create the folders. */
    method MoveAll() returns (ok: bool)
      requires Valid() && dirs == [] && staging.tree == staged
      modifies this, staging, live
      ensures Valid()
      ensures ok ==> staging.tree.files.Keys == {} && live.tree.dirs == before.dirs + staged.dirs
      ensures ok ==> moved == |staged.files|
      ensures live.quiet && NoClash(before, staged) ==> ok
    {
      BelowRoot(staged.files.Keys);
      ok := CollectStaged([], MaxLength(staged.dirs));
      if ok {
        WalkFinished(staged.files.Keys);
        ok := CreateFolders();
      }
    }

    /** Empty folders have no files to carry them. */
    method CreateFolders() returns (ok: bool)
      requires Valid() && Lists(dirs, Below(staged.dirs, []))
      modifies live
      ensures Valid() && live.tree.files == old(live.tree.files)
      ensures ok ==> live.tree.dirs == before.dirs + staged.dirs
      ensures live.quiet && NoClash(before, staged) ==> ok
    {
      var i := 0;
      while i < |dirs|
        invariant 0 <= i <= |dirs|
        invariant Valid() && live.tree.files == old(live.tree.files)
        invariant forall d | d in dirs[..i] :: d in live.tree.dirs
      {
        assert dirs[i] in Below(staged.dirs, []);
        PrefixesAreDirs(staged, dirs[i]);
        ok := live.CreateDirAll(dirs[i]);
        if !ok {
          return;
        }
        assert dirs[i] in Prefixes(dirs[i]) by { assert dirs[i] == dirs[i][..|dirs[i]|]; }
        i := i + 1;
      }
      assert forall d | d in staged.dirs :: d == [] || d in Below(staged.dirs, []);
      return true;
    }
  }

  /** One rename keeps the correspondence between the two trees. */
  lemma MovedOne(before: Tree, s: Tree, from: Tree, to: Tree, path: Path)
    requires Moving(before, s, from, to) && path in from.files
    ensures Moving(before, s, Tree(from.files - {path}, from.dirs), Tree(to.files[path := from.files[path]], to.dirs))
  {
    FileMoved(before.files, s.files, from.files, to.files, path);
  }

  lemma FileMoved<K, V>(before: map<K, V>, s: map<K, V>, from: map<K, V>, to: map<K, V>, k: K)
    requires FilesMoving(before, s, from, to) && k in from
    ensures FilesMoving(before, s, from - {k}, to[k := from[k]])
  {
    LessOne(from, k);
    KeysAfterMove(before.Keys, s.Keys, from.Keys, to.Keys, k);
    ValuesAfterMove(before, s, from, to, k);
  }

  lemma ValuesAfterMove<K, V>(before: map<K, V>, s: map<K, V>, from: map<K, V>, to: map<K, V>, k: K)
    requires ValuesMoving(before, s, from, to) && k in from && k in s && from[k] == s[k]
    ensures ValuesMoving(before, s, from - {k}, to[k := from[k]])
  {
  }

  lemma LessOne<K, V>(m: map<K, V>, k: K)
    requires k in m
    ensures (m - {k}).Keys == m.Keys - {k} && |m - {k}| == |m| - 1
  {
    assert (m - {k}).Keys == m.Keys - {k};
    assert |m| == |m.Keys| && |m - {k}| == |(m - {k}).Keys|;
  }

  lemma KeysAfterMove<K>(before: set<K>, s: set<K>, from: set<K>, to: set<K>, k: K)
    requires k in from && from <= s && to == before + (s - from)
    ensures to + {k} == before + (s - (from - {k}))
  {
  }

  lemma IsChild(t: Tree, dir: Path, name: string)
    requires name in NamesIn(t, dir)
    ensures dir + [name] in t.files.Keys + t.dirs
  {
    var p :| p in t.files.Keys + t.dirs && |p| == |dir| + 1 && dir <= p && p[|dir|] == name;
    assert p == dir + [name];
  }

  lemma StillThere(start: Tree, now: Tree, dir: Path, names: seq<string>, i: nat)
    requires Lists(names, NamesIn(start, dir)) && i < |names| && now.dirs == start.dirs
    requires now.files.Keys == start.files.Keys - BelowChildren(start.files.Keys, dir, names[..i])
    ensures names[i] in NamesIn(now, dir)
    ensures AtChild(now.files.Keys, dir, names[i]) == AtChild(start.files.Keys, dir, names[i])
  {
    assert names[i] in NamesIn(start, dir);
    assert names[i] !in names[..i];
    IsChild(start, dir, names[i]);
    var p := dir + [names[i]];
    assert p[|dir|] == names[i];
    assert p in now.files.Keys + now.dirs;
  }

  lemma ChildOfFolder(t: Tree, dir: Path, name: string)
    requires WellFormed(t) && dir + [name] in t.dirs
    ensures AtChild(t.files.Keys, dir, name) == Below(t.files.Keys, dir + [name])
    ensures AtChild(t.dirs, dir, name) == {dir + [name]} + Below(t.dirs, dir + [name])
  {
    forall p | dir < p && p[|dir|] == name ensures p == dir + [name] || dir + [name] < p {
      assert p[..|dir| + 1] == dir + [name];
    }
  }

  lemma ChildOfFile(t: Tree, dir: Path, name: string)
    requires WellFormed(t) && dir + [name] in t.files
    ensures AtChild(t.files.Keys, dir, name) == {dir + [name]}
    ensures AtChild(t.dirs, dir, name) == {}
  {
    var child := dir + [name];
    forall p | p in t.files.Keys + t.dirs && dir < p && p[|dir|] == name ensures p == child && p !in t.dirs {
      assert p[..|child|] == child;
      if |child| < |p| {
        PrefixIsDir(t, p, |child|);
      }
    }
  }

  // ---------- the whole restore ----------

  ghost predicate HasManifest(a: Archive) {
    exists e :: e in a && IsManifest(e)
  }

  method FindManifest(a: Archive) returns (found: bool)
    ensures found <==> HasManifest(a)
  {
    var i := 0;
    while i < |a|
      invariant 0 <= i <= |a|
      invariant forall e | e in a[..i] :: !IsManifest(e)
    {
      if IsManifest(a[i]) {
        return true;
      }
      i := i + 1;
    }
    assert a[..i] == a;
    return false;
  }

  ghost function MaxLength(dirs: set<Path>): (n: nat)
    ensures forall p | p in dirs :: |p| <= n
  {
    if dirs == {} then 0
    else
      var p :| p in dirs;
      var rest := MaxLength(dirs - {p});
      if |p| <= rest then rest else |p|
  }

  lemma NothingStaged(t: Tree, stage: string)
    requires WellFormed(t) && [stage] !in t.files && [stage] !in t.dirs
    ensures forall p | p in t.files.Keys + t.dirs :: !Under([stage], p)
  {
    forall p | p in t.files.Keys + t.dirs && Under([stage], p) ensures |p| > 1 {
      assert p[..1] == [stage];
      assert |p| == 1 ==> p == [stage];
    }
    forall p | p in t.files.Keys + t.dirs ensures !Under([stage], p) {
      if Under([stage], p) {
        PrefixIsDir(t, p, 1);
      }
    }
  }

  /** The staging folder itself is in the way of one file only. */
  lemma StageClashesWithItsName(before: Tree, stage: string, s: Tree)
    requires Outside(s, stage)
    ensures NoClash(before.(dirs := before.dirs + {[stage]}), s) <==> NoClash(before, s) && [stage] !in s.files
  {
    var p := [stage];
    assert p[0] == stage;
  }

  /** Removing the staging folder takes the folder itself and nothing else. */
  lemma OnlyTheFolderGoes(before: Tree, stage: string, s: Tree, live: Tree)
    requires [stage] !in before.files && [stage] !in before.dirs && WellFormed(before) && Outside(s, stage)
    requires live.files.Keys <= before.files.Keys + s.files.Keys && live.dirs <= before.dirs + {[stage]} + s.dirs
    requires [stage] !in live.files
    ensures Without(live, [stage]) == Tree(live.files, live.dirs - {[stage]})
  {
    NothingStaged(before, stage);
    forall p | p in live.files ensures !Under([stage], p) {
      NotStaged(before, stage, s, p);
    }
    forall p | p in live.dirs ensures Under([stage], p) <==> p == [stage] {
      if p != [stage] {
        NotStaged(before, stage, s, p);
      }
    }
    assert Without(live, [stage]).files == live.files;
  }

  lemma NotStaged(before: Tree, stage: string, s: Tree, p: Path)
    requires [stage] !in before.files && [stage] !in before.dirs && WellFormed(before) && Outside(s, stage)
    requires p in before.files.Keys + before.dirs + s.files.Keys + s.dirs && p != [stage]
    ensures !Under([stage], p)
  {
    NothingStaged(before, stage);
    if p !in before.files.Keys + before.dirs {
      assert p in s.files.Keys + s.dirs;
      assert p == [] || p[0] != stage;
    }
  }

  lemma ContentsAreApplied(before: Tree, stage: string, s: Tree, staged: Tree, live: Tree)
    requires [stage] !in before.files && [stage] !in before.dirs && WellFormed(before) && Outside(s, stage)
    requires WellFormed(live) && Moving(before.(dirs := before.dirs + {[stage]}), s, staged, live)
    ensures PartlyApplied(before, s, Without(live, [stage]))
    ensures staged.files.Keys == {} && live.dirs == before.dirs + {[stage]} + s.dirs ==>
              Without(live, [stage]) == Overlay(before, s) && [stage] !in s.files
  {
    assert [stage] !in live.files;
    OnlyTheFolderGoes(before, stage, s, live);
    if staged.files.Keys == {} && live.dirs == before.dirs + {[stage]} + s.dirs {
      AllMoved(before.files, s.files, staged.files, live.files);
      var p := [stage];
      assert p[0] == stage;
      assert live.dirs - {[stage]} == before.dirs + s.dirs;
    }
  }

  lemma AllMoved<K, V>(before: map<K, V>, s: map<K, V>, staged: map<K, V>, live: map<K, V>)
    requires FilesMoving(before, s, staged, live) && staged.Keys == {}
    ensures live == before + s && s.Keys <= live.Keys
  {
  }

  lemma UnstagedIsBefore(before: Tree, stage: string)
    requires WellFormed(before) && [stage] !in before.files && [stage] !in before.dirs
    ensures Without(before.(dirs := before.dirs + {[stage]}), [stage]) == before
  {
    NothingStaged(before, stage);
  }

  lemma ClearedIsClear(t: Tree, whole: Tree, stage: string)
    requires WellFormed(whole) && t == Cleared(whole, stage)
    ensures WellFormed(t) && [stage] !in t.dirs && ([stage] in t.files <==> [stage] in whole.files)
  {
    WithoutIsWellFormed(whole, [stage]);
  }

  lemma OverlayFits(before: Tree, t: Tree)
    requires WellFormed(Overlay(before, t))
    ensures NoClash(before, t)
  {
    assert before.files.Keys <= Overlay(before, t).files.Keys && t.files.Keys <= Overlay(before, t).files.Keys;
  }

  /**
   Restore `a` over `live`. Whatever fails or is cancelled while extracting leaves the live tree
   as it was; a stop in the move phase leaves every file old or new; the staging folder is gone
   in every case. Undisturbed, it succeeds exactly when the archive fits the live tree and holds no
   file of the staging folder's name.
   */
  method RestoreArchive(live: FileSystem, stage: string, a: Archive) returns (r: Result<nat, RestoreError>)
    requires WellFormed(live.tree) && NothingBelow(a, stage)
    modifies live
    ensures WellFormed(live.tree)
    ensures r != Err(NotABackup) ==> [stage] !in live.tree.dirs
    ensures r.Ok? ==> live.tree == Overlay(Cleared(old(live.tree), stage), Contents(a))
    ensures r.Ok? ==> r.value == |ContentFiles(a)| && [stage] !in ContentFiles(a)
    ensures r == Err(NotABackup) <==> !HasManifest(a)
    ensures r == Err(NotABackup) ==> live.tree == old(live.tree)
    ensures r == Err(NoStaging) || r == Err(ExtractFailed) ==> live.tree == Cleared(old(live.tree), stage)
    ensures r == Err(MoveFailed) ==> PartlyApplied(Cleared(old(live.tree), stage), Contents(a), live.tree)
    ensures r.Ok? || r == Err(MoveFailed) ==> Coherent(a)
    ensures live.quiet ==>
              (r.Ok? <==> && HasManifest(a) && Coherent(a)
                          && [stage] !in old(live.tree).files && [stage] !in ContentFiles(a)
                          && NoClash(Cleared(old(live.tree), stage), Contents(a)))
  {
    var gate := FindManifest(a);
    if !gate {
      return Err(NotABackup);
    }
    ghost var before := Cleared(live.tree, stage);
    live.RemoveDirAll([stage]);
    ClearedIsClear(live.tree, old(live.tree), stage);
    StagePrefixes(stage);
    var ok := live.CreateDirAll([stage]);
    if !ok {
      assert live.tree.dirs == before.dirs;
      return Err(NoStaging);
    }
    assert live.tree == before.(dirs := before.dirs + {[stage]});
    r := RestoreStaged(live, stage, a, before);
    if r.Ok? {
      OverlayFits(before, Contents(a));
    }
  }

  /** Both phases, once the empty staging folder exists. */
  method RestoreStaged(live: FileSystem, stage: string, a: Archive, ghost before: Tree)
    returns (r: Result<nat, RestoreError>)
    requires WellFormed(live.tree) && WellFormed(before) && NothingBelow(a, stage) && HasManifest(a)
    requires [stage] !in before.files && [stage] !in before.dirs
    requires live.tree == before.(dirs := before.dirs + {[stage]})
    modifies live
    ensures WellFormed(live.tree) && [stage] !in live.tree.dirs
    ensures r.Ok? ==> live.tree == Overlay(before, Contents(a)) && r.value == |ContentFiles(a)|
    ensures r != Err(ExtractFailed) ==> Coherent(a)
    ensures r.Ok? ==> [stage] !in ContentFiles(a)
    ensures r.Err? ==> r.error == ExtractFailed || r.error == MoveFailed
    ensures r == Err(ExtractFailed) ==> live.tree == before
    ensures r == Err(MoveFailed) ==> PartlyApplied(before, Contents(a), live.tree)
    ensures live.quiet && Coherent(a) && NoClash(before, Contents(a)) && [stage] !in ContentFiles(a) ==> r.Ok?
  {
    var staging := new FileSystem(Tree(map[], {[]}), live.quiet);
    var ok := Extract(staging, a);
    if !ok {
      UnstagedIsBefore(before, stage);
      live.RemoveDirAll([stage]);
      return Err(ExtractFailed);
    }
    ContentsOutside(a, stage);
    StageClashesWithItsName(before, stage, Contents(a));
    var mover := new Mover(staging, live);
    ok := mover.MoveAll();
    ContentsAreApplied(before, stage, Contents(a), staging.tree, live.tree);
    live.RemoveDirAll([stage]);
    if !ok {
      return Err(MoveFailed);
    }
    r := Ok(mover.moved);
  }

  // ---------- after a failed move ----------

  /**
   Restoring over what a failed move left ends where restoring over the original would have, and fits
   exactly when that does.
   */
  lemma ResumedRestore(before: Tree, t: Tree, after: Tree)
    requires PartlyApplied(before, t, after) && t.files.Keys !! t.dirs
    ensures Overlay(after, t) == Overlay(before, t)
    ensures NoClash(after, t) <==> NoClash(before, t)
  {
    assert Overlay(after, t).files.Keys == Overlay(before, t).files.Keys;
  }

  /** Moves that fail one after the other leave what one of them could have left. */
  lemma PartlyAppliedAgain(before: Tree, t: Tree, middle: Tree, after: Tree)
    requires PartlyApplied(before, t, middle) && PartlyApplied(middle, t, after)
    ensures PartlyApplied(before, t, after)
  {
  }

  lemma OverlayIsApplied(before: Tree, t: Tree)
    ensures PartlyApplied(before, t, Overlay(before, t))
  {
  }

  lemma StillFits(before: Tree, t: Tree, middle: Tree, stage: string)
    requires PartlyApplied(before, t, middle) && t.files.Keys !! t.dirs
    ensures [stage] !in middle.files && [stage] !in t.files <==> [stage] !in before.files && [stage] !in t.files
    ensures NoClash(middle, t) <==> NoClash(before, t)
  {
    ResumedRestore(before, t, middle);
  }

  lemma SameEnd(before: Tree, t: Tree, middle: Tree, after: Tree)
    requires PartlyApplied(before, t, middle) && t.files.Keys !! t.dirs
    ensures after == Overlay(middle, t) ==> after == Overlay(before, t)
    ensures after == Overlay(middle, t) || after == middle || PartlyApplied(middle, t, after) ==>
              PartlyApplied(before, t, after)
  {
    ResumedRestore(before, t, middle);
    if after == Overlay(middle, t) {
      OverlayIsApplied(before, t);
    } else if after != middle && PartlyApplied(middle, t, after) {
      PartlyAppliedAgain(before, t, middle, after);
    }
  }

  /**
   One more attempt, `before` being the live tree of the first one: however many moves failed in
   between, a restore that succeeds ends in the tree the first would have made, and one that fails
   leaves the live tree fit for the next attempt.
   */
  method RestoreAgain(live: FileSystem, stage: string, a: Archive, ghost before: Tree)
    returns (r: Result<nat, RestoreError>)
    requires WellFormed(live.tree) && NothingBelow(a, stage) && Coherent(a)
    requires PartlyApplied(before, Contents(a), live.tree) && [stage] !in live.tree.dirs
    modifies live
    ensures WellFormed(live.tree) && [stage] !in live.tree.dirs
    ensures r.Ok? ==> live.tree == Overlay(before, Contents(a)) && r.value == |ContentFiles(a)|
    ensures PartlyApplied(before, Contents(a), live.tree)
    ensures live.quiet ==>
              (r.Ok? <==> && HasManifest(a) && [stage] !in before.files && [stage] !in ContentFiles(a)
                          && NoClash(before, Contents(a)))
  {
    ghost var first := live.tree;
    assert Cleared(first, stage) == first;
    r := RestoreArchive(live, stage, a);
    assert live.tree == Overlay(first, Contents(a)) || live.tree == first || r == Err(MoveFailed) by {
      if r.Err? {
        match r.error
        case NotABackup =>
        case NoStaging =>
        case ExtractFailed =>
        case MoveFailed =>
      }
    }
    StillFits(before, Contents(a), first, stage);
    SameEnd(before, Contents(a), first, live.tree);
  }

  lemma StagePrefixes(stage: string)
    ensures Prefixes([stage]) == {[], [stage]}
  {
    assert [stage][..0] == [] && [stage][..1] == [stage];
  }

  // ---------- entries below the staging folder's name ----------

  ghost function Renamed(t: Tree, from: Path, to: Path): Tree
    requires from in t.files
  {
    Tree((t.files - {from})[to := t.files[from]], t.dirs)
  }

  /** The one tree of the data root, with `c` extracted below `stage` and nothing else in it. */
  ghost predicate StagedBelow(t: Tree, stage: string, c: Tree) {
    && (forall p | p in c.files :: [stage] + p in t.files && t.files[[stage] + p] == c.files[p])
    && (forall p | p in c.dirs :: [stage] + p in t.dirs)
    && (forall p | p in t.files :: [stage] <= p && p[1..] in c.files)
    && (forall p | p in t.dirs :: p == [] || ([stage] <= p && p[1..] in c.dirs))
  }

  ghost function MixedArchive(stage: string, name: string, x: Bytes, y: Bytes): Archive {
    [Entry(Some([MANIFEST]), false, []), Entry(Some([name]), false, x), Entry(Some([stage, name]), false, y)]
  }

  ghost function MixedTree(stage: string, name: string, x: Bytes, y: Bytes): Tree {
    Tree(map[[stage, name] := x, [stage, stage, name] := y], {[], [stage], [stage, stage]})
  }

  /**
   Why archives with such entries are set apart: a file below a folder of that name is renamed into
   the folder being walked. Here it replaces a staged file, which then arrives with the wrong
   content, while its own path goes with the staging folder; no rename failed.
   */
  lemma EntriesBelowStagingCanMix(stage: string, name: string, x: Bytes, y: Bytes)
    requires name != stage && name != MANIFEST && stage != MANIFEST && x != y
    ensures var a, t := MixedArchive(stage, name, x, y), MixedTree(stage, name, x, y);
            && HasManifest(a) && Coherent(a) && StagedBelow(t, stage, Contents(a)) && WellFormed(t)
            && [name] in ContentFiles(a) && ContentFiles(a)[[name]] == x
            && [stage, stage, name] in t.files && [stage, name] in t.files
            && var end := Renamed(Renamed(t, [stage, stage, name], [stage, name]), [stage, name], [name]);
               Without(end, [stage]) == Tree(map[[name] := y], {[]})
  {
    MixedContents(stage, name, x, y);
    MixedIsStaged(stage, name, x, y);
    MixedEnd(stage, name, x, y);
  }

  lemma MixedContents(stage: string, name: string, x: Bytes, y: Bytes)
    requires name != stage && name != MANIFEST && stage != MANIFEST
    ensures var a := MixedArchive(stage, name, x, y);
            HasManifest(a) && Coherent(a) && Contents(a) == Tree(map[[name] := x, [stage, name] := y], {[], [stage]})
  {
    var a := MixedArchive(stage, name, x, y);
    assert a[0] in a && IsManifest(a[0]);
    assert a[..0] == [] && a[..3] == a;
    NextEntry(a, 0);
    NextEntry(a, 1);
    NextEntry(a, 2);
    StagePrefixes(stage);
    assert Parent([name]) == [] && Parent([stage, name]) == [stage];
    assert forall q | q in Prefixes([]) :: q == [];
    assert [MANIFEST][0] != [name][0] && [stage, name] != [MANIFEST];
  }

  lemma MixedIsStaged(stage: string, name: string, x: Bytes, y: Bytes)
    requires name != stage
    ensures StagedBelow(MixedTree(stage, name, x, y), stage, Tree(map[[name] := x, [stage, name] := y], {[], [stage]}))
    ensures WellFormed(MixedTree(stage, name, x, y))
  {
    assert [stage] + [name] == [stage, name] && [stage] + [stage, name] == [stage, stage, name];
    assert [stage] + [] == [stage] && [stage] + [stage] == [stage, stage];
    assert [stage, name][1..] == [name] && [stage, stage, name][1..] == [stage, name];
    assert [stage][1..] == [] && [stage, stage][1..] == [stage];
    assert Parent([stage, stage, name]) == [stage, stage] && Parent([stage, stage]) == [stage] && Parent([stage]) == [];
    assert Parent([stage, name]) == [stage];
    assert [stage, name][1] != [stage, stage][1];
  }

  lemma MixedEnd(stage: string, name: string, x: Bytes, y: Bytes)
    requires name != stage
    ensures var t := MixedTree(stage, name, x, y);
            && [stage, stage, name] in t.files && [stage, name] in t.files
            && var end := Renamed(Renamed(t, [stage, stage, name], [stage, name]), [stage, name], [name]);
               Without(end, [stage]) == Tree(map[[name] := y], {[]})
  {
    var t := MixedTree(stage, name, x, y);
    var once := Renamed(t, [stage, stage, name], [stage, name]);
    assert [stage, stage, name] != [stage, name];
    assert once.files == map[[stage, name] := y];
    assert [stage, name] != [name];
    assert Renamed(once, [stage, name], [name]).files == map[[name] := y];
    assert [name][0] != [stage][0];
    assert Under([stage], [stage]) && Under([stage], [stage, stage]) && !Under([stage], [name]) && !Under([stage], []);
  }
}

/** Packing the data root into an archive: the filtered tree walk and the archive it builds. */
module Backup {
  import opened Wrappers
  import opened Sorting
  import opened FileTree

  const BACKUP_STEM := "codifa-backup"
  const STAGING_STEM := ".restore-staging"
  const MANIFEST := "backup.json"
  const EXCLUDED_DIRS := ["traces", "checkpoints", "memory", "cache", "browser-profile", "vector-db"]
  const EXCLUDED_FILES := ["rust.log", "panic.log", "settings.json.bak", ".DS_Store"]
  const MAX_DEPTH := 64

  predicate EndsWith(s: string, tail: string) {
    |tail| <= |s| && s[|s| - |tail|..] == tail
  }

  predicate SkippedDir(name: string) {
    name in EXCLUDED_DIRS || STAGING_STEM <= name
  }

  predicate SkippedFile(name: string) {
    name in EXCLUDED_FILES || (BACKUP_STEM <= name && EndsWith(name, ".zip"))
  }

  /** The names a backup passes over, one by one. */
  lemma FilterIs(name: string)
    ensures SkippedDir(name) <==>
            || name in ["traces", "checkpoints", "memory", "cache", "browser-profile", "vector-db"]
            || ".restore-staging" <= name
    ensures SkippedFile(name) <==>
            || name in ["rust.log", "panic.log", "settings.json.bak", ".DS_Store"]
            || ("codifa-backup" <= name && |name| >= 4 && name[|name| - 4..] == ".zip")
  {
  }

  // ---------- which paths a backup holds ----------

  /** No folder on the way is excluded, and the walk's depth cap reaches the path. */
  ghost predicate Reached(p: Path) {
    1 <= |p| <= MAX_DEPTH + 1 && forall k | 0 <= k < |p| - 1 :: !SkippedDir(p[k])
  }

  ghost predicate PackedFile(t: Tree, p: Path) {
    p in t.files && Reached(p) && !SkippedFile(p[|p| - 1])
  }

  ghost predicate PackedDir(t: Tree, p: Path) {
    p in t.dirs && Reached(p) && !SkippedDir(p[|p| - 1])
  }

  ghost function PackedFiles(t: Tree): set<Path> {
    set p | p in t.files && PackedFile(t, p)
  }

  ghost function PackedDirs(t: Tree): set<Path> {
    set p | p in t.dirs && PackedDir(t, p)
  }

  // ---------- the walk ----------

  ghost function Below(all: set<Path>, dir: Path): set<Path> {
    set p | p in all && dir < p
  }

  /** The part of `all` in or below the children `names` of `dir`. */
  ghost function BelowChildren(all: set<Path>, dir: Path, names: seq<string>): set<Path> {
    set p | p in all && dir < p && p[|dir|] in names
  }

  ghost function AtChild(all: set<Path>, dir: Path, name: string): set<Path> {
    set p | p in all && dir < p && p[|dir|] == name
  }

  lemma ExtendListing<T>(s: seq<T>, a: set<T>, more: seq<T>, b: set<T>)
    requires Lists(s, a) && Lists(more, b) && a !! b
    ensures Lists(s + more, a + b)
  {
    forall i, j | 0 <= i < j < |s + more| ensures (s + more)[i] != (s + more)[j] {
      if i < |s| <= j {
        assert s[i] in a && more[j - |s|] in b;
      }
    }
  }

  lemma NextChild(all: set<Path>, dir: Path, names: seq<string>, i: nat)
    requires Distinct(names) && i < |names|
    ensures BelowChildren(all, dir, names[..i + 1]) == BelowChildren(all, dir, names[..i]) + AtChild(all, dir, names[i])
    ensures BelowChildren(all, dir, names[..i]) !! AtChild(all, dir, names[i])
  {
    assert names[..i + 1] == names[..i] + [names[i]];
  }

  lemma AllChildren(t: Tree, all: set<Path>, dir: Path, names: seq<string>)
    requires WellFormed(t) && Lists(names, NamesIn(t, dir)) && all <= t.files.Keys + t.dirs
    ensures BelowChildren(all, dir, names) == Below(all, dir)
  {
    forall p | p in all && dir < p ensures p[|dir|] in names {
      var child := p[..|dir| + 1];
      assert child in t.files.Keys + t.dirs by {
        if child != p {
          PrefixIsDir(t, p, |dir| + 1);
        }
      }
      assert child[|dir|] == p[|dir|];
    }
  }

  /** A child folder that is kept contributes itself and all below it; a skipped one nothing. */
  lemma FolderChild(t: Tree, dir: Path, name: string)
    requires WellFormed(t) && dir + [name] in t.dirs && |dir| <= MAX_DEPTH
    requires forall k | 0 <= k < |dir| :: !SkippedDir(dir[k])
    ensures SkippedDir(name) ==> AtChild(PackedFiles(t), dir, name) == {} && AtChild(PackedDirs(t), dir, name) == {}
    ensures !SkippedDir(name) ==> AtChild(PackedFiles(t), dir, name) == Below(PackedFiles(t), dir + [name])
    ensures !SkippedDir(name) ==>
            AtChild(PackedDirs(t), dir, name) == Below(PackedDirs(t), dir + [name]) + {dir + [name]}
  {
    var child := dir + [name];
    forall p | dir < p && p[|dir|] == name ensures p == child || child < p {
      assert p[..|child|] == child;
    }
  }

  lemma FileChild(t: Tree, dir: Path, name: string)
    requires WellFormed(t) && dir + [name] in t.files && |dir| <= MAX_DEPTH
    requires forall k | 0 <= k < |dir| :: !SkippedDir(dir[k])
    ensures AtChild(PackedFiles(t), dir, name) == if SkippedFile(name) then {} else {dir + [name]}
    ensures AtChild(PackedDirs(t), dir, name) == {}
  {
    var child := dir + [name];
    forall p | p in t.files.Keys + t.dirs && dir < p && p[|dir|] == name ensures p == child && p !in t.dirs {
      assert p[..|child|] == child;
      if |child| < |p| {
        PrefixIsDir(t, p, |child|);
      }
    }
  }

  /** The two accumulators the walk pushes into. */
  class PackList {
    var files: seq<Path>
    var dirs: seq<Path>

    constructor ()
      ensures files == [] && dirs == []
    {
      files, dirs := [], [];
    }

    /**
     Push every packable file and folder below `dir`, itself a folder to keep: each exactly once,
     whatever the order in which the file system lists names.
     */
    method Collect(t: Tree, dir: Path, depth: nat)
      requires WellFormed(t) && dir in t.dirs && depth == |dir| <= MAX_DEPTH + 1
      requires forall k | 0 <= k < |dir| :: !SkippedDir(dir[k])
      modifies this
      ensures old(files) <= files && Lists(files[|old(files)|..], Below(PackedFiles(t), dir))
      ensures old(dirs) <= dirs && Lists(dirs[|old(dirs)|..], Below(PackedDirs(t), dir))
      decreases MAX_DEPTH + 1 - depth
    {
      if depth > MAX_DEPTH {
        return;
      }
      var names := ReadDir(t, dir);
      var i := 0;
      while i < |names|
        invariant 0 <= i <= |names|
        invariant old(files) <= files
        invariant Lists(files[|old(files)|..], BelowChildren(PackedFiles(t), dir, names[..i]))
        invariant old(dirs) <= dirs
        invariant Lists(dirs[|old(dirs)|..], BelowChildren(PackedDirs(t), dir, names[..i]))
      {
        ghost var files0, dirs0 := files, dirs;
        assert names[i] in NamesIn(t, dir);
        CollectChild(t, dir, names[i], depth);
        NextChild(PackedFiles(t), dir, names, i);
        NextChild(PackedDirs(t), dir, names, i);
        ExtendListing(files0[|old(files)|..], BelowChildren(PackedFiles(t), dir, names[..i]),
                      files[|files0|..], AtChild(PackedFiles(t), dir, names[i]));
        ExtendListing(dirs0[|old(dirs)|..], BelowChildren(PackedDirs(t), dir, names[..i]),
                      dirs[|dirs0|..], AtChild(PackedDirs(t), dir, names[i]));
        assert files[|old(files)|..] == files0[|old(files)|..] + files[|files0|..];
        assert dirs[|old(dirs)|..] == dirs0[|old(dirs)|..] + dirs[|dirs0|..];
        i := i + 1;
      }
      assert names[..i] == names;
      AllChildren(t, PackedFiles(t), dir, names);
      AllChildren(t, PackedDirs(t), dir, names);
    }

    /** One turn of the walk's loop. */
    method CollectChild(t: Tree, dir: Path, name: string, depth: nat)
      requires WellFormed(t) && name in NamesIn(t, dir) && depth == |dir| <= MAX_DEPTH
      requires forall k | 0 <= k < |dir| :: !SkippedDir(dir[k])
      modifies this
      ensures old(files) <= files && Lists(files[|old(files)|..], AtChild(PackedFiles(t), dir, name))
      ensures old(dirs) <= dirs && Lists(dirs[|old(dirs)|..], AtChild(PackedDirs(t), dir, name))
      decreases MAX_DEPTH + 1 - depth, 0
    {
      var path := dir + [name];
      assert path in t.files.Keys + t.dirs by {
        var p :| p in t.files.Keys + t.dirs && |p| == |dir| + 1 && dir <= p && p[|dir|] == name;
        assert p == path;
      }
      if path in t.dirs {
        FolderChild(t, dir, name);
        if SkippedDir(name) {
          return;
        }
        Collect(t, path, depth + 1);
        ghost var below := dirs[|old(dirs)|..];
        dirs := dirs + [path];
        assert dirs[|old(dirs)|..] == below + [path];
        ExtendListing(below, Below(PackedDirs(t), path), [path], {path});
      } else {
        FileChild(t, dir, name);
        if SkippedFile(name) {
          return;
        }
        files := files + [path];
      }
    }
  }

  // ---------- the archive ----------

  /** `rel` is the path after the traversal guard: `None` for a name that escapes the root. */
  datatype Entry = Entry(rel: Option<Path>, folder: bool, data: Bytes)

  type Archive = seq<Entry>

  function FolderEntries(dirs: seq<Path>): Archive {
    seq(|dirs|, i requires 0 <= i < |dirs| => Entry(Some(dirs[i]), true, []))
  }

  function FileEntries(t: Tree, files: seq<Path>): Archive
    requires forall p | p in files :: p in t.files
  {
    seq(|files|, i requires 0 <= i < |files| => Entry(Some(files[i]), false, t.files[files[i]]))
  }

  /** The manifest, then every packable folder, then every packable file with its content; no name twice. */
  ghost predicate PacksAs(a: Archive, t: Tree, manifest: Bytes, dirs: seq<Path>, files: seq<Path>) {
    && [MANIFEST] !in t.files
    && Lists(dirs, PackedDirs(t))
    && Lists(files, PackedFiles(t))
    && a == [Entry(Some([MANIFEST]), false, manifest)] + FolderEntries(dirs) + FileEntries(t, files)
  }

  ghost predicate Packs(a: Archive, t: Tree) {
    exists manifest, dirs, files :: PacksAs(a, t, manifest, dirs, files)
  }

  lemma PackedAs(a: Archive, t: Tree, manifest: Bytes, dirs: seq<Path>, files: seq<Path>)
    requires PacksAs(a, t, manifest, dirs, files)
    ensures Packs(a, t)
  {
  }

  /** Nothing in the filter keeps a root-level file of the manifest's name out. */
  lemma ManifestIsPackable(t: Tree)
    ensures [MANIFEST] in t.files <==> [MANIFEST] in PackedFiles(t)
  {
    assert MANIFEST[0] == 'b' && BACKUP_STEM[0] == 'c';
    assert forall k | 0 <= k < |EXCLUDED_FILES| :: EXCLUDED_FILES[k][0] != 'b';
  }

  /** `CannotCreate` is any failure before the archive file exists, the walk included. */
  datatype BackupError = CannotCreate | Cancelled | CannotPack

  /** The archive file on disk when a backup returns. */
  datatype OutFile = Absent | Partial | Complete(archive: Archive)

  /** The loop over the folders. */
  method AddFolders(head: Archive, dirs: seq<Path>, quiet: bool) returns (ok: bool, writer: Archive)
    ensures ok ==> writer == head + FolderEntries(dirs)
    ensures quiet ==> ok
  {
    writer := head;
    var i := 0;
    while i < |dirs|
      invariant 0 <= i <= |dirs|
      invariant writer == head + FolderEntries(dirs[..i])
    {
      var fault := *;
      if !quiet && fault {
        return false, writer;
      }
      assert FolderEntries(dirs[..i + 1]) == FolderEntries(dirs[..i]) + [Entry(Some(dirs[i]), true, [])];
      writer := writer + [Entry(Some(dirs[i]), true, [])];
      i := i + 1;
    }
    assert dirs[..i] == dirs;
    return true, writer;
  }

  /**
   Build the archive of `t`. Only a cancel removes the unfinished file: a failure to write the
   manifest, a folder, a file or the archive's end returns at once and leaves it behind, whatever
   the original's comment says. One failure no quiet disk prevents: the zip writer refuses a second
   entry of the manifest's name.
   */
  method BuildBackup(t: Tree, quiet: bool) returns (r: Result<nat, BackupError>, out: OutFile)
    requires WellFormed(t)
    ensures r.Ok? ==> out.Complete? && Packs(out.archive, t) && r.value == |PackedFiles(t)|
    ensures r == Err(CannotCreate) || r == Err(Cancelled) ==> out == Absent
    ensures r == Err(CannotPack) ==> out == Partial
    ensures r.Ok? ==> [MANIFEST] !in t.files
    ensures quiet ==> r == if [MANIFEST] in t.files then Err(CannotPack) else Ok(|PackedFiles(t)|)
  {
    var list := new PackList();
    list.Collect(t, [], 0);
    var files, dirs := list.files, list.dirs;
    assert files == files[0..] && dirs == dirs[0..];
    assert Below(PackedFiles(t), []) == PackedFiles(t) && Below(PackedDirs(t), []) == PackedDirs(t);
    ListsCount(files, PackedFiles(t));
    assert forall p | p in files :: p in PackedFiles(t);
    var fault := *;
    if !quiet && fault {
      return Err(CannotCreate), Absent;
    }
    var manifest: Bytes := *;
    fault := *;
    if !quiet && fault {
      return Err(CannotPack), Partial;
    }
    var ok, writer := AddFolders([Entry(Some([MANIFEST]), false, manifest)], dirs, quiet);
    if !ok {
      return Err(CannotPack), Partial;
    }
    ghost var head := writer;
    var i := 0;
    while i < |files|
      invariant 0 <= i <= |files|
      invariant forall p | p in files[..i] :: p in t.files
      invariant writer == head + FileEntries(t, files[..i])
      invariant [MANIFEST] !in files[..i]
    {
      var cancel := *;
      if !quiet && cancel {
        return Err(Cancelled), Absent;
      }
      fault := *;
      if (!quiet && fault) || files[i] == [MANIFEST] {
        assert files[i] in files;
        return Err(CannotPack), Partial;
      }
      assert files[i] in files;
      writer := writer + [Entry(Some(files[i]), false, t.files[files[i]])];
      i := i + 1;
    }
    assert files[..i] == files;
    fault := *;
    if !quiet && fault {
      return Err(CannotPack), Partial;
    }
    ManifestIsPackable(t);
    PackedAs(writer, t, manifest, dirs, files);
    return Ok(|files|), Complete(writer);
  }
}

/** Backup followed by restore: what comes back is the filtered tree, laid over what was there. */
module RoundTrip {
  import opened Wrappers
  import opened Sorting
  import opened FileTree
  import opened Backup
  import opened Restore

  /** Something packable lies below a root-level folder of the manifest's name. */
  ghost predicate BelowManifest(t: Tree) {
    exists p :: p in PackedFiles(t) + PackedDirs(t) && [MANIFEST] < p
  }

  /**
   The folders that come back. A folder of the manifest's name has no entry of its own that is read:
   it comes with what it holds.
   */
  ghost function KeptDirs(t: Tree): set<Path> {
    set d | d in PackedDirs(t) && (d == [MANIFEST] ==> BelowManifest(t))
  }

  /** What a backup of `t` carries. */
  ghost function Kept(t: Tree): Tree {
    Tree(map p | p in t.files && PackedFile(t, p) :: t.files[p], KeptDirs(t) + {[]})
  }

  lemma {:induction false} DirOfContents(a: Archive, q: Path)
    ensures q in ContentDirs(a) <==> q == [] || exists e :: e in a && q in NeededDirs(e)
  {
    if a != [] {
      DirOfContents(a[..|a| - 1], q);
      assert forall e :: e in a <==> e in a[..|a| - 1] || e == a[|a| - 1];
    }
  }

  lemma {:induction false} FileOfContents(a: Archive, p: Path)
    ensures p in ContentFiles(a) <==> exists e :: e in a && IsFile(e) && e.rel.value == p
    ensures p in ContentFiles(a) ==> exists e :: e in a && IsFile(e) && e.rel.value == p && e.data == ContentFiles(a)[p]
  {
    if a != [] {
      FileOfContents(a[..|a| - 1], p);
      assert forall e :: e in a <==> e in a[..|a| - 1] || e == a[|a| - 1];
    }
  }

  lemma PackedPrefix(t: Tree, p: Path, i: nat)
    requires WellFormed(t) && (PackedFile(t, p) || PackedDir(t, p)) && 0 < i < |p|
    ensures p[..i] in PackedDirs(t)
  {
    PrefixIsDir(t, p, i);
  }

  /** The folders an archive of `t` creates are the packable folders; every parent is among them. */
  lemma PackedDirsAreClosed(t: Tree, p: Path, q: Path)
    requires WellFormed(t)
    requires (p in PackedDirs(t) && q in Prefixes(p)) || (p in PackedFiles(t) && q in Prefixes(Parent(p)))
    ensures q == [] || q in PackedDirs(t)
  {
    var i :| 0 <= i <= |p| && q == p[..i] && (i == |p| ==> p in PackedDirs(t)) by {
      if p in PackedDirs(t) && q in Prefixes(p) {
        var i :| 0 <= i <= |p| && q == p[..i];
      } else {
        var i :| 0 <= i <= |p| - 1 && q == Parent(p)[..i];
        assert q == p[..i];
      }
    }
    if 0 < i < |p| {
      PackedPrefix(t, p, i);
    } else if i == |p| {
      assert q == p;
    }
  }

  ghost predicate EntryOf(t: Tree, e: Entry) {
    || IsManifest(e)
    || (e.folder && e.rel.Some? && e.rel.value in PackedDirs(t))
    || (!e.folder && e.rel.Some? && e.rel.value in PackedFiles(t) && e.data == t.files[e.rel.value])
  }

  lemma EntriesOf(a: Archive, t: Tree, manifest: Bytes, dirs: seq<Path>, files: seq<Path>)
    requires WellFormed(t) && PacksAs(a, t, manifest, dirs, files)
    ensures forall e | e in a :: EntryOf(t, e)
    ensures forall d | d in PackedDirs(t) :: Entry(Some(d), true, []) in a
    ensures forall p | p in PackedFiles(t) :: Entry(Some(p), false, t.files[p]) in a
  {
    var ds, fs := FolderEntries(dirs), FileEntries(t, files);
    forall e | e in a ensures EntryOf(t, e) {
      if e in ds {
        var i :| 0 <= i < |ds| && ds[i] == e;
        assert dirs[i] in dirs;
      } else if e in fs {
        var i :| 0 <= i < |fs| && fs[i] == e;
        assert files[i] in files;
      }
    }
    forall d | d in PackedDirs(t) ensures Entry(Some(d), true, []) in a {
      var i :| 0 <= i < |dirs| && dirs[i] == d;
      assert ds[i] in ds;
    }
    forall p | p in PackedFiles(t) ensures Entry(Some(p), false, t.files[p]) in a {
      var i :| 0 <= i < |files| && files[i] == p;
      assert fs[i] in fs;
    }
  }

  /** An archive of `t` extracts to exactly the kept part of `t`. */
  lemma ContentsOfBackup(a: Archive, t: Tree)
    requires WellFormed(t) && Packs(a, t)
    ensures Contents(a) == Kept(t) && Coherent(a) && HasManifest(a)
  {
    var manifest, dirs, files :| PacksAs(a, t, manifest, dirs, files);
    EntriesOf(a, t, manifest, dirs, files);
    FilesOfBackup(a, t);
    FoldersOfBackup(a, t);
    BackupIsCoherent(a, t, manifest, dirs, files);
  }

  lemma BackupIsCoherent(a: Archive, t: Tree, manifest: Bytes, dirs: seq<Path>, files: seq<Path>)
    requires PacksAs(a, t, manifest, dirs, files) && forall e | e in a :: EntryOf(t, e)
    requires WellFormed(t) && Contents(a) == Kept(t)
    ensures Coherent(a) && HasManifest(a)
  {
    assert a[0] in a && IsManifest(a[0]);
    forall e | e in a ensures e.rel == Some([]) ==> e.folder {
      assert EntryOf(t, e);
    }
  }

  lemma FoldersOfBackup(a: Archive, t: Tree)
    requires WellFormed(t)
    requires forall e | e in a :: EntryOf(t, e)
    requires forall d | d in PackedDirs(t) :: Entry(Some(d), true, []) in a
    requires forall p | p in PackedFiles(t) :: Entry(Some(p), false, t.files[p]) in a
    ensures ContentDirs(a) == Kept(t).dirs
  {
    forall q ensures q in ContentDirs(a) <==> q in Kept(t).dirs {
      DirOfContents(a, q);
      if e :| e in a && q in NeededDirs(e) {
        DirOfEntry(t, e, q);
      }
      if q in KeptDirs(t) {
        EntryOfDir(a, t, q);
      }
    }
  }

  lemma FilesOfBackup(a: Archive, t: Tree)
    requires WellFormed(t) && [MANIFEST] !in t.files
    requires forall e | e in a :: EntryOf(t, e)
    requires forall p | p in PackedFiles(t) :: Entry(Some(p), false, t.files[p]) in a
    ensures ContentFiles(a) == Kept(t).files
  {
    forall p ensures p in ContentFiles(a) <==> p in Kept(t).files
             ensures p in ContentFiles(a) ==> ContentFiles(a)[p] == t.files[p] {
      FileOfContents(a, p);
      if p in Kept(t).files {
        var e := Entry(Some(p), false, t.files[p]);
        assert e in a && IsFile(e);
      }
    }
  }

  lemma DirOfEntry(t: Tree, e: Entry, q: Path)
    requires WellFormed(t) && EntryOf(t, e) && q in NeededDirs(e)
    ensures q == [] || q in KeptDirs(t)
  {
    PackedDirsAreClosed(t, e.rel.value, q);
    if q == [MANIFEST] {
      var p := e.rel.value;
      assert p in PackedFiles(t) + PackedDirs(t) && |p| > 0 && q <= p;
      assert q != p by { assert e.folder ==> p != [MANIFEST]; }
      assert [MANIFEST] < p;
    }
  }

  lemma EntryOfDir(a: Archive, t: Tree, q: Path)
    requires WellFormed(t) && q in KeptDirs(t)
    requires forall d | d in PackedDirs(t) :: Entry(Some(d), true, []) in a
    requires forall p | p in PackedFiles(t) :: Entry(Some(p), false, t.files[p]) in a
    ensures exists e :: e in a && q in NeededDirs(e)
  {
    if q == [MANIFEST] {
      var p :| p in PackedFiles(t) + PackedDirs(t) && [MANIFEST] < p;
      var e := if p in PackedDirs(t) then Entry(Some(p), true, []) else Entry(Some(p), false, t.files[p]);
      assert q == p[..1] && q == Parent(p)[..1];
      assert e in a && q in NeededDirs(e);
    } else {
      var e := Entry(Some(q), true, []);
      assert q == q[..|q|];
      assert e in a && q in NeededDirs(e);
    }
  }

  /** No archive of `t` reaches into the staging folder; it has a file of its name exactly when `t` has. */
  lemma BackupAvoidsStaging(a: Archive, t: Tree, stage: string)
    requires WellFormed(t) && Packs(a, t) && STAGING_STEM <= stage
    ensures NothingBelow(a, stage)
    ensures [stage] in ContentFiles(a) <==> [stage] in t.files
  {
    var manifest, dirs, files :| PacksAs(a, t, manifest, dirs, files);
    EntriesOf(a, t, manifest, dirs, files);
    assert MANIFEST[0] == 'b' && STAGING_STEM[0] == '.';
    forall e | e in a && e.rel.Some? && e.rel.value != [] && e.rel.value[0] == stage
      ensures e.rel.value == [stage] && !e.folder
    {
      assert EntryOf(t, e);
      EntryAvoidsStaging(t, e, stage);
    }
    ContentsOfBackup(a, t);
    StagedNameIsPacked(t, stage);
  }

  lemma EntryAvoidsStaging(t: Tree, e: Entry, stage: string)
    requires EntryOf(t, e) && STAGING_STEM <= stage && stage != MANIFEST
    requires e.rel.Some? && e.rel.value != [] && e.rel.value[0] == stage
    ensures e.rel.value == [stage] && !e.folder
  {
    var p := e.rel.value;
    assert SkippedDir(p[0]);
    assert |p| == 1 ==> p == [p[0]];
  }

  /** The filter keeps no file of that name out. */
  lemma StagedNameIsPacked(t: Tree, stage: string)
    requires STAGING_STEM <= stage
    ensures [stage] in t.files <==> [stage] in PackedFiles(t)
  {
    assert stage[0] == '.' && stage[1] == 'r' && BACKUP_STEM[0] == 'c';
    assert forall k | 0 <= k < |EXCLUDED_FILES| :: EXCLUDED_FILES[k][0] != '.' || EXCLUDED_FILES[k][1] != 'r';
  }

  /** The filter is settled after one pass: backing up what was restored packs the same entries. */
  lemma KeptIsSettled(t: Tree)
    requires WellFormed(t)
    ensures PackedFiles(Kept(t)) == Kept(t).files.Keys && KeptDirs(Kept(t)) == KeptDirs(t)
    ensures Kept(Kept(t)) == Kept(t)
  {
    assert PackedFiles(Kept(t)) == PackedFiles(t) && PackedDirs(Kept(t)) == KeptDirs(t);
    assert BelowManifest(Kept(t)) <==> BelowManifest(t) by {
      if p :| p in PackedFiles(t) + PackedDirs(t) && [MANIFEST] < p {
        assert p in PackedFiles(Kept(t)) + PackedDirs(Kept(t));
      }
    }
  }

  lemma KeptIsWellFormed(t: Tree)
    requires WellFormed(t)
    ensures WellFormed(Kept(t))
  {
    forall p | p in Kept(t).files || (p in Kept(t).dirs && p != []) ensures p != [] && Parent(p) in Kept(t).dirs {
      if |p| > 1 {
        PackedPrefix(t, p, |p| - 1);
        assert p in PackedFiles(t) + PackedDirs(t) && Parent(p) < p;
      } else {
        assert Parent(p) == [];
      }
    }
  }

  /** Restored onto an empty root, a tree comes back as its kept part, and a second backup holds the same. */
  lemma BackupOfRestored(a: Archive, b: Archive, t: Tree)
    requires WellFormed(t) && Packs(a, t)
    requires Packs(b, Overlay(Tree(map[], {[]}), Contents(a)))
    ensures Overlay(Tree(map[], {[]}), Contents(a)) == Kept(t)
    ensures Contents(b) == Contents(a)
  {
    ContentsOfBackup(a, t);
    assert Overlay(Tree(map[], {[]}), Kept(t)) == Kept(t);
    KeptIsWellFormed(t);
    KeptIsSettled(t);
    ContentsOfBackup(b, Kept(t));
  }

  datatype TransferError = NoBackup(why: BackupError) | NoRestore(failed: RestoreError)

  /**
   Back up `t`, then restore the archive over `live`: every path of `live` stays unless the kept
   part of `t` has it too, every kept file and folder is there, and the count is right.
   */
  method Transfer(t: Tree, live: FileSystem, stage: string) returns (r: Result<nat, TransferError>)
    requires WellFormed(t) && WellFormed(live.tree)
    requires STAGING_STEM <= stage
    modifies live
    ensures WellFormed(live.tree)
    ensures r.Ok? ==> live.tree == Overlay(Cleared(old(live.tree), stage), Kept(t)) && r.value == |PackedFiles(t)|
    ensures [stage] in t.files ==> r.Err?
    ensures r.Err? && r.error.NoBackup? ==> live.tree == old(live.tree)
    ensures live.quiet ==>
              (r.Ok? <==> && [MANIFEST] !in t.files && [stage] !in t.files && [stage] !in old(live.tree).files
                          && NoClash(Cleared(old(live.tree), stage), Kept(t)))
    ensures live.quiet && [MANIFEST] in t.files ==> r == Err(NoBackup(CannotPack))
  {
    var packed, out := BuildBackup(t, live.quiet);
    if packed.Err? {
      return Err(NoBackup(packed.error));
    }
    var a := out.archive;
    ContentsOfBackup(a, t);
    BackupAvoidsStaging(a, t, stage);
    var restored := RestoreArchive(live, stage, a);
    KeptCount(t);
    r := if restored.Ok? then Ok(restored.value) else Err(NoRestore(restored.error));
  }

  lemma KeptCount(t: Tree)
    ensures |Kept(t).files| == |PackedFiles(t)|
  {
    assert Kept(t).files.Keys == PackedFiles(t);
  }
}

/** A directory tree relative to one root, and the file operations a restore uses on it. */
module FileTree {
  import opened Sorting

  type Path = seq<string>
  type Bytes = seq<bv8>

  datatype Tree = Tree(files: map<Path, Bytes>, dirs: set<Path>)

  function Prefixes(p: Path): set<Path> {
    set i | 0 <= i <= |p| :: p[..i]
  }

  function Parent(p: Path): Path
    requires p != []
  {
    p[..|p| - 1]
  }

  ghost predicate WellFormed(t: Tree) {
    && [] in t.dirs
    && t.files.Keys !! t.dirs
    && (forall p | p in t.files :: p != [] && Parent(p) in t.dirs)
    && (forall p | p in t.dirs && p != [] :: Parent(p) in t.dirs)
  }

  lemma {:induction false} PrefixesAreDirs(t: Tree, p: Path)
    requires WellFormed(t) && p in t.dirs
    ensures Prefixes(p) <= t.dirs
    decreases |p|
  {
    if p != [] {
      PrefixesAreDirs(t, Parent(p));
      forall q | q in Prefixes(p) ensures q in t.dirs {
        var i :| 0 <= i <= |p| && q == p[..i];
        if i < |p| {
          assert q == Parent(p)[..i];
        } else {
          assert q == p;
        }
      }
    }
  }

  lemma PrefixIsDir(t: Tree, p: Path, i: nat)
    requires WellFormed(t) && p in t.files.Keys + t.dirs && i < |p|
    ensures p[..i] in t.dirs
  {
    PrefixesAreDirs(t, Parent(p));
    assert p[..i] == Parent(p)[..i];
  }

  /** Everything under `dir`, the folder itself included. */
  ghost predicate Under(dir: Path, p: Path) {
    dir <= p
  }

  ghost function Without(t: Tree, dir: Path): Tree {
    Tree(map p | p in t.files && !Under(dir, p) :: t.files[p], set p | p in t.dirs && !Under(dir, p))
  }

  lemma WithoutIsWellFormed(t: Tree, dir: Path)
    requires WellFormed(t) && dir != []
    ensures WellFormed(Without(t, dir))
  {
  }

  /** Names in a folder; the file system lists them in any order. */
  ghost function NamesIn(t: Tree, dir: Path): set<string> {
    set p | p in t.files.Keys + t.dirs && |p| == |dir| + 1 && dir <= p :: p[|dir|]
  }

  method ReadDir(t: Tree, dir: Path) returns (names: seq<string>)
    ensures Lists(names, NamesIn(t, dir))
  {
    names := [];
    var todo := set p | p in t.files.Keys + t.dirs && |p| == |dir| + 1 && dir <= p :: p[|dir|];
    ghost var all := todo;
    while todo != {}
      invariant todo <= all
      invariant Lists(names, all - todo)
    {
      var name :| name in todo;
      todo := todo - {name};
      names := names + [name];
    }
  }

  /** The live file system. A `quiet` one fails only where the operation cannot succeed. */
  class FileSystem {
    var tree: Tree
    const quiet: bool

    constructor (tree: Tree, quiet: bool)
      ensures this.tree == tree && this.quiet == quiet
    {
      this.tree := tree;
      this.quiet := quiet;
    }

    /** Create a folder and its parents; a failure may leave some of them behind. */
    method CreateDirAll(p: Path) returns (ok: bool)
      requires WellFormed(tree)
      modifies this
      ensures WellFormed(tree) && tree.files == old(tree.files)
      ensures old(tree.dirs) <= tree.dirs <= old(tree.dirs) + Prefixes(p)
      ensures ok ==> Prefixes(p) <= tree.dirs
      ensures !ok ==> (p in tree.dirs ==> p in old(tree.dirs))
      ensures quiet && Prefixes(p) !! old(tree.files).Keys ==> ok
    {
      ghost var before := tree;
      var i := 0;
      while i <= |p|
        invariant 0 <= i <= |p| + 1
        invariant i > 0 ==> p[..i - 1] in tree.dirs
        invariant WellFormed(tree) && tree.files == before.files
        invariant before.dirs <= tree.dirs <= before.dirs + Prefixes(p)
        invariant forall k | 0 <= k < i :: p[..k] in tree.dirs
        invariant i <= |p| ==> (p in tree.dirs ==> p in before.dirs)
      {
        if p[..i] in tree.files {
          assert p[..i] in Prefixes(p);
          return false;
        }
        var fault := *;
        if !quiet && fault {
          return false;
        }
        assert i > 0 ==> Parent(p[..i]) == p[..i - 1];
        assert p[..i] in Prefixes(p);
        tree := tree.(dirs := tree.dirs + {p[..i]});
        i := i + 1;
      }
      return true;
    }

    /** Create or overwrite a file; a failure may leave any partial content behind. */
    method WriteFile(p: Path, data: Bytes) returns (ok: bool)
      requires WellFormed(tree)
      modifies this
      ensures WellFormed(tree) && tree.dirs == old(tree.dirs)
      ensures ok ==> p !in tree.dirs && tree.files == old(tree.files)[p := data]
      ensures !ok ==> tree.files == old(tree.files)
                      || (p in tree.files && tree.files == old(tree.files)[p := tree.files[p]])
      ensures quiet && p != [] && Parent(p) in tree.dirs && p !in tree.dirs ==> ok
    {
      if p == [] || p in tree.dirs || Parent(p) !in tree.dirs {
        return false;
      }
      var fault := *;
      if !quiet && fault {
        var partial: Bytes := *;
        var created := *;
        if created {
          tree := tree.(files := tree.files[p := partial]);
        }
        return false;
      }
      tree := tree.(files := tree.files[p := data]);
      return true;
    }

    /** Atomically move `p` of another tree on the same volume onto `p` here. */
    method MoveFrom(other: FileSystem, p: Path) returns (ok: bool)
      requires other != this && WellFormed(tree) && WellFormed(other.tree) && p in other.tree.files
      modifies this, other
      ensures WellFormed(tree) && tree.dirs == old(tree.dirs)
      ensures WellFormed(other.tree) && other.tree.dirs == old(other.tree.dirs)
      ensures ok ==> tree.files == old(tree.files)[p := old(other.tree.files)[p]] && p !in tree.dirs
      ensures ok ==> other.tree.files == old(other.tree.files) - {p}
      ensures !ok ==> tree == old(tree) && other.tree == old(other.tree)
      ensures quiet && Parent(p) in tree.dirs && p !in tree.dirs ==> ok
    {
      if p in tree.dirs || Parent(p) !in tree.dirs {
        return false;
      }
      var fault := *;
      if !quiet && fault {
        return false;
      }
      tree := tree.(files := tree.files[p := other.tree.files[p]]);
      other.tree := other.tree.(files := other.tree.files - {p});
      return true;
    }

    /** Delete a folder and all below it; on a plain file, or nothing at all, it does nothing. */
    method RemoveDirAll(dir: Path)
      requires WellFormed(tree) && dir != []
      modifies this
      ensures WellFormed(tree)
      ensures tree == if dir in old(tree).dirs then Without(old(tree), dir) else old(tree)
    {
      if dir in tree.dirs {
        WithoutIsWellFormed(tree, dir);
        tree := Tree(map p | p in tree.files && !(dir <= p) :: tree.files[p], set p | p in tree.dirs && !(dir <= p));
      }
    }
  }
}

/**
 * The part of Node's `fs` module the coverage module calls: `existsSync`,
 * recursive `rmdir` and recursive `mkdir`. The disk is the set of absolute
 * paths that exist; it is closed under taking a parent.
 */
module Fs {
  import opened Paths

  /** Every ancestor of an existing path exists. */
  ghost predicate PrefixClosed(entries: set<Path>) {
    forall p, k :: p in entries && 0 <= k <= |p| ==> p[..k] in entries
  }

  /** The path itself and every directory above it, the root included. */
  function Ancestors(t: Path): (a: set<Path>)
    ensures forall q :: q in a <==> q <= t
  {
    var a := set k | 0 <= k <= |t| :: t[..k];
    assert forall q :: q <= t ==> q == t[..|q|];
    a
  }

  /** The existing paths at or below `d`. */
  function Subtree(entries: set<Path>, d: Path): (s: set<Path>)
    ensures forall p :: p in s <==> p in entries && d <= p
  {
    set p | p in entries && d <= p
  }

  /** A directory that does not exist has nothing below it. */
  lemma MissingHasNoSubtree(entries: set<Path>, d: Path)
    requires PrefixClosed(entries) && d !in entries
    ensures Subtree(entries, d) == {}
  {
    forall p | p in entries && d <= p
      ensures p[..|d|] == d && p[..|d|] in entries
    {
    }
  }

  /** A path that exists brings all its ancestors with it. */
  lemma PresentHasAncestors(entries: set<Path>, t: Path)
    requires PrefixClosed(entries) && t in entries
    ensures Ancestors(t) <= entries
  {
  }

  /** Removing a whole subtree and adding a chain of ancestors keep the disk closed under parents. */
  lemma RemoveAddClosed(entries: set<Path>, d: Path, t: Path)
    requires PrefixClosed(entries)
    ensures PrefixClosed(entries - Subtree(entries, d))
    ensures PrefixClosed(entries + Ancestors(t))
  {
  }

  /** Whether `path`, taken against `cwd`, names an existing entry. */
  predicate Exists(entries: set<Path>, cwd: Path, path: string)
    requires Normal(cwd)
  {
    path != "" && Locate(cwd, path) in entries
  }

  class FileSystem {
    /** The current working directory, against which relative paths are taken. */
    const cwd: Path
    var entries: set<Path>

    ghost predicate Valid()
      reads this
    {
      Normal(cwd) && PrefixClosed(entries)
    }

    constructor (cwd: Path, entries: set<Path>)
      requires Normal(cwd) && PrefixClosed(entries)
      ensures Valid() && this.cwd == cwd && this.entries == entries
    {
      this.cwd := cwd;
      this.entries := entries;
    }

    /** `existsSync(path)`: the empty string names no file, whatever the working directory. */
    predicate ExistsSync(path: string): (r: bool)
      requires Normal(cwd)
      reads this
      ensures path == "" ==> !r
      ensures r ==> Locate(cwd, path) in entries
      ensures r && PrefixClosed(entries) ==> Ancestors(Locate(cwd, path)) <= entries
    {
      Exists(entries, cwd, path)
    }

    /** `fs.rmdir(path, { recursive: true })`: the path and everything below it disappear. */
    method RemoveRecursive(path: string)
      requires Valid()
      modifies this
      ensures Valid()
      ensures entries == old(entries) - Subtree(old(entries), Locate(cwd, path))
    {
      RemoveAddClosed(entries, Locate(cwd, path), []);
      entries := entries - Subtree(entries, Locate(cwd, path));
    }

    /** `fs.mkdir(path, { recursive: true })`: the path and every missing ancestor are created. */
    method MakeDirectory(path: string)
      requires Valid()
      modifies this
      ensures Valid()
      ensures entries == old(entries) + Ancestors(Locate(cwd, path))
    {
      RemoveAddClosed(entries, [], Locate(cwd, path));
      entries := entries + Ancestors(Locate(cwd, path));
    }
  }
}

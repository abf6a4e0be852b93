/** The part of the file system the server touches, kept in memory: a map
    from paths (sequences of names) to files and directories, with the
    synchronous calls `cleanupDirectory` makes, and `cleanupDirectory` itself
    (apk-tools-server/src/index.ts, lines 127-147). */
module Files {

  type Path = seq<string>

  datatype Node = File(content: string) | Dir

  /** `p` lies strictly inside the directory `dir`. */
  predicate Below(dir: Path, p: Path) {
    |dir| < |p| && p[..|dir|] == dir
  }

  /** A tree: every entry but the root sits in a directory that exists. */
  predicate Tree(entries: map<Path, Node>) {
    forall p :: p in entries && p != [] ==> p[..|p| - 1] in entries && entries[p[..|p| - 1]].Dir?
  }

  /** The entries strictly inside `dir`. */
  function Inside(entries: map<Path, Node>, dir: Path): set<Path> {
    set p | p in entries && Below(dir, p)
  }

  /** The names `readdirSync(dir)` lists. */
  function Children(entries: map<Path, Node>, dir: Path): set<string> {
    set p | p in entries && |p| == |dir| + 1 && p[..|dir|] == dir :: p[|dir|]
  }

  /** What purging `dir` leaves: everything strictly inside an existing
      directory `dir` is gone; `dir` itself and everything else stay. A
      missing `dir`, or a file, is left alone. */
  function Purged(entries: map<Path, Node>, dir: Path): map<Path, Node> {
    if dir in entries && entries[dir].Dir? then
      map p | p in entries && !Below(dir, p) :: entries[p]
    else entries
  }

  /** The entries without the subtrees of the children of `dir` named in `names`. */
  function WithoutSubtrees(entries: map<Path, Node>, dir: Path, names: set<string>): map<Path, Node> {
    map p | p in entries && !(Below(dir, p) && p[|dir|] in names) :: entries[p]
  }

  /** In a tree, every path inside `dir` lies under one of its children. */
  lemma {:induction false} UnderSomeChild(entries: map<Path, Node>, dir: Path, p: Path)
    requires Tree(entries) && p in entries && Below(dir, p)
    ensures p[|dir|] in Children(entries, dir)
    decreases |p|
  {
    var parent := p[..|p| - 1];
    if |p| == |dir| + 1 {
      assert p[..|dir|] == dir;
    } else {
      assert parent[..|dir|] == p[..|dir|];
      UnderSomeChild(entries, dir, parent);
    }
  }

  /** In a tree whatever contains an entry is a directory. */
  lemma {:induction false} ContainerIsDir(entries: map<Path, Node>, f: Path, p: Path)
    requires Tree(entries) && p in entries && Below(f, p)
    ensures f in entries && entries[f].Dir?
    decreases |p|
  {
    var parent := p[..|p| - 1];
    if |p| == |f| + 1 {
      assert parent == f;
    } else {
      assert parent[..|f|] == p[..|f|];
      ContainerIsDir(entries, f, parent);
    }
  }

  /** In a tree nothing lies inside a file. */
  lemma NothingInsideFile(entries: map<Path, Node>, f: Path)
    requires Tree(entries) && f in entries && entries[f].File?
    ensures Inside(entries, f) == {}
  {
    forall p | p in Inside(entries, f) ensures entries[f].Dir? {
      ContainerIsDir(entries, f, p);
    }
  }

  /** The entries without `q` and without everything inside `q`. */
  function Pruned(entries: map<Path, Node>, q: Path): map<Path, Node> {
    map p | p in entries && p != q && !Below(q, p) :: entries[p]
  }

  /** Pruning a node with nothing inside it removes just that node. */
  lemma PruneLeaf(entries: map<Path, Node>, q: Path)
    requires Inside(entries, q) == {}
    ensures Pruned(entries, q) == map p | p in entries && p != q :: entries[p]
  {
    assert forall p :: p in entries && Below(q, p) ==> p in Inside(entries, q);
  }

  lemma ParentInside(q: Path, p: Path)
    requires p != []
    ensures p[..|p| - 1] == q || Below(q, p[..|p| - 1]) ==> Below(q, p)
  {
    if Below(q, p[..|p| - 1]) {
      assert p[..|q|] == p[..|p| - 1][..|q|];
    }
  }

  /** Pruning keeps a tree a tree. */
  lemma PruneKeepsTree(entries: map<Path, Node>, q: Path)
    requires Tree(entries)
    ensures Tree(Pruned(entries, q))
  {
    var m := Pruned(entries, q);
    forall p | p in m && p != [] ensures p[..|p| - 1] in m && m[p[..|p| - 1]].Dir? {
      ParentInside(q, p);
    }
  }

  lemma {:induction false} ProperSubsetSmaller(a: set<Path>, b: set<Path>)
    requires a < b
    ensures |a| < |b|
  {
    var x :| x in b && x !in a;
    assert a <= b - {x};
    assert |b - {x}| == |b| - 1;
    SubsetNoLarger(a, b - {x});
  }

  lemma {:induction false} SubsetNoLarger(a: set<Path>, b: set<Path>)
    requires a <= b
    ensures |a| <= |b|
    decreases |b|
  {
    if a != {} {
      var x :| x in a;
      SubsetNoLarger(a - {x}, b - {x});
    }
  }

  /** The host file system, as `fs`'s synchronous calls see it. */
  class FileSystem {
    var entries: map<Path, Node>

    constructor (entries: map<Path, Node>)
      requires Tree(entries)
      ensures this.entries == entries && Valid()
    {
      this.entries := entries;
    }

    predicate Valid()
      reads this
    {
      Tree(entries)
    }

    /** `fs.unlinkSync(p)` on a file. */
    method Unlink(p: Path)
      requires Valid() && p in entries && entries[p].File?
      modifies this
      ensures Valid()
      ensures entries == map q | q in old(entries) && q != p :: old(entries)[q]
    {
      NothingInsideFile(entries, p);
      PruneKeepsTree(entries, p);
      PruneLeaf(entries, p);
      entries := map q | q in entries && q != p :: entries[q];
    }

    /** Writing the file `p`, new or replacing a file, in an existing directory. */
    method WriteFile(p: Path, content: string)
      requires Valid() && p != [] && p[..|p| - 1] in entries && entries[p[..|p| - 1]].Dir?
      requires p !in entries || entries[p].File?
      modifies this
      ensures Valid()
      ensures entries == old(entries)[p := File(content)]
    {
      entries := entries[p := File(content)];
    }

    /** `fs.rmdirSync(p)` on an empty directory. */
    method Rmdir(p: Path)
      requires Valid() && p in entries && entries[p].Dir? && Inside(entries, p) == {}
      modifies this
      ensures Valid()
      ensures entries == map q | q in old(entries) && q != p :: old(entries)[q]
    {
      PruneKeepsTree(entries, p);
      PruneLeaf(entries, p);
      entries := map q | q in entries && q != p :: entries[q];
    }
  }

  /** `cleanupDirectory(dir)`: removes everything inside `dir`, deepest first,
      and keeps `dir`. A missing `dir` is left alone, and so is a file (the
      source's `readdirSync` fails on it and the error is swallowed). */
  method Cleanup(fs: FileSystem, dir: Path)
    requires fs.Valid()
    modifies fs
    ensures fs.Valid()
    ensures fs.entries == Purged(old(fs.entries), dir)
    decreases |Inside(fs.entries, dir)|, 1
  {
    if dir !in fs.entries || fs.entries[dir].File? {
      return;
    }
    ghost var start := fs.entries;
    var names := Children(fs.entries, dir);
    ghost var done: set<string> := {};
    while names != {}
      invariant fs.Valid()
      invariant names !! done && names + done == Children(start, dir)
      invariant fs.entries == WithoutSubtrees(start, dir, done)
      decreases |names|
    {
      var name :| name in names;
      var child := dir + [name];
      ghost var before := fs.entries;
      ChildInStart(start, dir, name);
      InsideChildSmaller(start, before, dir, child);
      RemoveEntry(fs, child);
      PruneChild(start, dir, done, name);
      names := names - {name};
      done := done + {name};
    }
    AllSubtreesPurge(start, dir);
  }

  /** One entry of the directory being purged: a directory is purged and
      then removed, a file is unlinked. */
  method RemoveEntry(fs: FileSystem, p: Path)
    requires fs.Valid() && p in fs.entries
    modifies fs
    ensures fs.Valid()
    ensures fs.entries == Pruned(old(fs.entries), p)
    decreases |Inside(fs.entries, p)|, 2
  {
    ghost var before := fs.entries;
    if fs.entries[p].Dir? {
      Cleanup(fs, p);
      PurgeThenRemove(before, p);
      fs.Rmdir(p);
    } else {
      NothingInsideFile(before, p);
      PruneLeaf(before, p);
      fs.Unlink(p);
    }
  }

  /** Removing the subtrees of all children of an existing directory purges it. */
  lemma AllSubtreesPurge(entries: map<Path, Node>, dir: Path)
    requires Tree(entries) && dir in entries && entries[dir].Dir?
    ensures WithoutSubtrees(entries, dir, Children(entries, dir)) == Purged(entries, dir)
  {
    forall q | q in entries && Below(dir, q) ensures q[|dir|] in Children(entries, dir) {
      UnderSomeChild(entries, dir, q);
    }
  }

  lemma ChildInStart(start: map<Path, Node>, dir: Path, name: string)
    requires name in Children(start, dir)
    ensures dir + [name] in start
  {
    var p :| p in start && |p| == |dir| + 1 && p[..|dir|] == dir && p[|dir|] == name;
    assert p == dir + [name];
  }

  /** The recursion on a child directory works on fewer entries. */
  lemma InsideChildSmaller(start: map<Path, Node>, current: map<Path, Node>, dir: Path, child: Path)
    requires current.Keys <= start.Keys && child in current && Below(dir, child)
    ensures |Inside(current, child)| < |Inside(start, dir)|
  {
    forall q | q in Inside(current, child) ensures q in Inside(start, dir) {
      assert q[..|dir|] == q[..|child|][..|dir|];
    }
    assert child in Inside(start, dir);
    ProperSubsetSmaller(Inside(current, child), Inside(start, dir));
  }

  /** Purging a directory and then removing it prunes it. */
  lemma PurgeThenRemove(entries: map<Path, Node>, q: Path)
    requires q in entries && entries[q].Dir?
    ensures Inside(Purged(entries, q), q) == {}
    ensures (map p | p in Purged(entries, q) && p != q :: Purged(entries, q)[p]) == Pruned(entries, q)
  {
  }

  /** Removing one more child subtree. */
  lemma PruneChild(start: map<Path, Node>, dir: Path, done: set<string>, name: string)
    ensures Pruned(WithoutSubtrees(start, dir, done), dir + [name])
         == WithoutSubtrees(start, dir, done + {name})
  {
    var child := dir + [name];
    forall q | q in start
      ensures (q != child && !Below(child, q)) <==> !(Below(dir, q) && q[|dir|] == name)
    {
      if Below(dir, q) && q[|dir|] == name {
        assert q[..|child|] == child;
      }
      if q == child || Below(child, q) {
        assert q[..|dir|] == q[..|child|][..|dir|];
      }
    }
  }

  /** Purging a directory twice is purging it once. */
  lemma PurgeIdempotent(entries: map<Path, Node>, dir: Path)
    ensures Purged(Purged(entries, dir), dir) == Purged(entries, dir)
  {
  }

  /** Purging never touches a path outside the directory. */
  lemma PurgeKeepsOutside(entries: map<Path, Node>, dir: Path, p: Path)
    requires !Below(dir, p)
    ensures p in Purged(entries, dir) <==> p in entries
    ensures p in entries ==> Purged(entries, dir)[p] == entries[p]
  {
  }

  /** After purging an existing directory it remains and has no entries. */
  lemma PurgeEmpties(entries: map<Path, Node>, dir: Path)
    requires dir in entries && entries[dir].Dir?
    ensures dir in Purged(entries, dir) && Purged(entries, dir)[dir].Dir?
    ensures Inside(Purged(entries, dir), dir) == {}
  {
  }
}

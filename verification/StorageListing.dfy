/**
  The two walks of packages/components/src/storage/LocalStorageProvider.ts over a storage tree:
  the listing of its files and the sum of their sizes.
 */
module StorageListing {
  import opened Common
  import opened LocalStorage

  datatype FileInfo = FileInfo(name: Name, path: Path, size: nat)

  /** The files at `p` or below it. */
  function FilesUnder(t: Tree, p: Path): set<Path> {
    set q | q in t && t[q].File? && p <= q
  }

  /** Everything strictly below `p`. */
  function Below(t: Tree, p: Path): set<Path> {
    set q | q in t && p < q
  }

  /** The files below `p`, but for those at or below one of `rest`. */
  function FilesBelowBut(t: Tree, p: Path, rest: set<Path>): set<Path> {
    set q | q in t && t[q].File? && p < q && q[..|p| + 1] !in rest
  }

  // ---------- sums over sets of files ----------

  function SizeAt(t: Tree, p: Path): nat {
    if IsFile(t, p) then |t[p].bytes| else 0
  }

  ghost function Total(t: Tree, s: set<Path>): nat {
    if s == {} then 0
    else
      var p :| p in s;
      SizeAt(t, p) + Total(t, s - {p})
  }

  lemma {:induction false} TotalPick(t: Tree, s: set<Path>, p: Path)
    requires p in s
    ensures Total(t, s) == SizeAt(t, p) + Total(t, s - {p})
    decreases |s|
  {
    var q :| q in s && Total(t, s) == SizeAt(t, q) + Total(t, s - {q});
    if q != p {
      TotalPick(t, s - {q}, p);
      TotalPick(t, s - {p}, q);
      assert s - {q} - {p} == s - {p} - {q};
    }
  }

  lemma {:induction false} TotalUnion(t: Tree, a: set<Path>, b: set<Path>)
    requires a !! b
    ensures Total(t, a + b) == Total(t, a) + Total(t, b)
    decreases |a|
  {
    if a == {} {
      assert a + b == b;
    } else {
      var p :| p in a;
      TotalPick(t, a, p);
      TotalPick(t, a + b, p);
      assert (a + b) - {p} == (a - {p}) + b;
      TotalUnion(t, a - {p}, b);
    }
  }

  lemma {:induction false} TotalSame(t: Tree, t': Tree, s: set<Path>)
    requires forall p | p in s :: SizeAt(t, p) == SizeAt(t', p)
    ensures Total(t, s) == Total(t', s)
    decreases |s|
  {
    if s != {} {
      var p :| p in s;
      TotalPick(t, s, p);
      TotalPick(t', s, p);
      TotalSame(t, t', s - {p});
    }
  }

  // ---------- how a walk covers a directory ----------

  lemma ChildIsBelow(t: Tree, dir: Path, child: Path)
    requires child in Children(t, dir)
    ensures |child| == |dir| + 1 && child[..|dir|] == dir
    ensures Below(t, child) < Below(t, dir)
  {
    assert child in Below(t, dir) && child !in Below(t, child);
    forall q | q in Below(t, child) ensures q in Below(t, dir) {
      assert q[..|dir|] == child[..|dir|];
    }
  }

  /** Before the first child nothing is covered, behind the last one everything below the directory. */
  lemma Covered(t: Tree, dir: Path)
    requires WellFormed(t)
    ensures FilesBelowBut(t, dir, Children(t, dir)) == {}
    ensures FilesBelowBut(t, dir, {}) == FilesUnder(t, dir) - {dir}
  {
    forall q | q in t && dir < q ensures q[..|dir| + 1] in Children(t, dir) {
      PrefixInTree(t, q, |dir| + 1);
      assert Parent(q[..|dir| + 1]) == dir;
    }
    forall q ensures q in FilesBelowBut(t, dir, {}) <==> q in FilesUnder(t, dir) - {dir} {
      assert |q| == |dir| && dir <= q ==> q == dir by { assert q[..|q|] == q; }
    }
  }

  /** A child adds the files at it and below it. */
  lemma CoversChild(t: Tree, dir: Path, rest: set<Path>, child: Path)
    requires child in rest && rest <= Children(t, dir)
    ensures FilesBelowBut(t, dir, rest - {child}) == FilesBelowBut(t, dir, rest) + FilesUnder(t, child)
    ensures FilesBelowBut(t, dir, rest) !! FilesUnder(t, child)
  {
    ChildIsBelow(t, dir, child);
    forall q | q in t && child <= q ensures dir < q && q[..|dir| + 1] == child {
      assert q[..|dir|] == child[..|dir|];
    }
  }

  /** Nothing is below a file or below a missing path. */
  lemma NothingBelow(t: Tree, p: Path)
    requires WellFormed(t) && !IsDir(t, p)
    ensures FilesUnder(t, p) - {p} == {}
  {
    forall q | q in FilesUnder(t, p) ensures q == p {
      assert q[..|p|] == p && q[..|q|] == q;
      PrefixInTree(t, q, |p|);
    }
  }

  // ---------- listing ----------

  function PathsOf(infos: seq<FileInfo>): set<Path> {
    set i | i in infos :: i.path
  }

  /** Each of the files once, with its name and size. */
  ghost predicate Lists(t: Tree, infos: seq<FileInfo>, files: set<Path>) {
    && PathsOf(infos) == files && |infos| == |files|
    && forall i | i in infos :: IsFile(t, i.path) && i.path != [] && i.name == i.path[|i.path| - 1] && i.size == SizeAt(t, i.path)
  }

  lemma ListsConcat(t: Tree, a: seq<FileInfo>, fs: set<Path>, b: seq<FileInfo>, gs: set<Path>)
    requires Lists(t, a, fs) && Lists(t, b, gs) && fs !! gs
    ensures Lists(t, a + b, fs + gs)
  {
    assert PathsOf(a + b) == PathsOf(a) + PathsOf(b);
  }

  function SizeSum(infos: seq<FileInfo>): nat {
    if infos == [] then 0 else SizeSum(infos[..|infos| - 1]) + infos[|infos| - 1].size
  }

  /** The sizes in a listing add up to the size of its files. */
  lemma {:induction false} ListingTotal(t: Tree, infos: seq<FileInfo>, files: set<Path>)
    requires Lists(t, infos, files)
    ensures SizeSum(infos) == Total(t, files)
  {
    if infos == [] {
      assert files == {};
    } else {
      var front, last := infos[..|infos| - 1], infos[|infos| - 1];
      FrontLists(t, infos, files);
      ListingTotal(t, front, files - {last.path});
      TotalPick(t, files, last.path);
    }
  }

  lemma FrontLists(t: Tree, infos: seq<FileInfo>, files: set<Path>)
    requires Lists(t, infos, files) && infos != []
    ensures Lists(t, infos[..|infos| - 1], files - {infos[|infos| - 1].path})
    ensures infos[|infos| - 1].path in files && infos[|infos| - 1].size == SizeAt(t, infos[|infos| - 1].path)
  {
    var front, last := infos[..|infos| - 1], infos[|infos| - 1];
    assert infos == front + [last];
    assert PathsOf(infos) == PathsOf(front) + {last.path};
    PathsBound(front);
    AddPath(PathsOf(front), last.path);
    assert PathsOf(front) == files - {last.path};
  }

  lemma AddPath(s: set<Path>, p: Path)
    ensures |s + {p}| == |s| + if p in s then 0 else 1
  {
    if p in s { assert s + {p} == s; }
  }

  lemma {:induction false} PathsBound(infos: seq<FileInfo>)
    ensures |PathsOf(infos)| <= |infos|
  {
    if infos != [] {
      var front, last := infos[..|infos| - 1], infos[|infos| - 1];
      PathsBound(front);
      assert infos == front + [last];
      assert PathsOf(infos) == PathsOf(front) + {last.path};
    }
  }

  // ---------- the walks ----------

  lemma Rejoin<T>(a: seq<T>, b: seq<T>, c: seq<T>)
    ensures (a + b) + c == a + (b + c)
  {
  }

  /** The accumulators of the two walks over one tree; the order within a directory is the file system's. */
  class Walk {
    const tree: Tree
    var results: seq<FileInfo>
    var totalSize: nat

    constructor (tree: Tree)
      ensures this.tree == tree && results == [] && totalSize == 0
    {
      this.tree, results, totalSize := tree, [], 0;
    }

    /** The step of `readDirectory` for one entry. */
    method ReadEntry(filePath: Path) returns (ghost found: seq<FileInfo>)
      requires WellFormed(tree) && filePath in tree && filePath != []
      modifies this`results
      ensures results == old(results) + found && Lists(tree, found, FilesUnder(tree, filePath))
      decreases Below(tree, filePath), 1
    {
      if IsDir(tree, filePath) {
        found := ReadDirectory(filePath);
        assert FilesUnder(tree, filePath) - {filePath} == FilesUnder(tree, filePath);
      } else {
        var info := FileInfo(filePath[|filePath| - 1], filePath, SizeAt(tree, filePath));
        results := results + [info];
        found := [info];
        OneFile(tree, filePath);
      }
    }

    /** `readDirectory` of `getFilePaths`. */
    method ReadDirectory(directory: Path) returns (ghost found: seq<FileInfo>)
      requires WellFormed(tree)
      modifies this`results
      ensures results == old(results) + found && Lists(tree, found, FilesUnder(tree, directory) - {directory})
      decreases Below(tree, directory), 0
    {
      found := [];
      assert results + [] == results;
      if !IsDir(tree, directory) {
        NothingBelow(tree, directory);
        return;
      }
      Covered(tree, directory);
      var list := Children(tree, directory);
      while list != {}
        invariant list <= Children(tree, directory)
        invariant results == old(results) + found
        invariant Lists(tree, found, FilesBelowBut(tree, directory, list))
        decreases |list|
      {
        var filePath :| filePath in list;
        CoversChild(tree, directory, list, filePath);
        ChildIsBelow(tree, directory, filePath);
        ghost var more := ReadEntry(filePath);
        Rejoin(old(results), found, more);
        ListsConcat(tree, found, FilesBelowBut(tree, directory, list), more, FilesUnder(tree, filePath));
        found := found + more;
        list := list - {filePath};
      }
      assert FilesUnder(tree, directory) - {directory} == FilesBelowBut(tree, directory, {});
    }

    /** `calculateSize` of `dirSize`. */
    method CalculateSize(itemPath: Path)
      requires WellFormed(tree)
      modifies this`totalSize
      ensures totalSize == old(totalSize) + Total(tree, FilesUnder(tree, itemPath))
      decreases Below(tree, itemPath)
    {
      if IsFile(tree, itemPath) {
        OneFile(tree, itemPath);
        totalSize := totalSize + |tree[itemPath].bytes|;
      } else if IsDir(tree, itemPath) {
        Covered(tree, itemPath);
        var files := Children(tree, itemPath);
        while files != {}
          invariant files <= Children(tree, itemPath)
          invariant totalSize == old(totalSize) + Total(tree, FilesBelowBut(tree, itemPath, files))
          decreases |files|
        {
          var file :| file in files;
          CoversChild(tree, itemPath, files, file);
          ChildIsBelow(tree, itemPath, file);
          TotalUnion(tree, FilesBelowBut(tree, itemPath, files), FilesUnder(tree, file));
          CalculateSize(file);
          files := files - {file};
        }
        assert FilesUnder(tree, itemPath) - {itemPath} == FilesUnder(tree, itemPath);
      } else {
        NothingBelow(tree, itemPath);
        assert FilesUnder(tree, itemPath) == {};
      }
    }
  }

  lemma OneFile(t: Tree, p: Path)
    requires WellFormed(t) && IsFile(t, p)
    ensures FilesUnder(t, p) == {p} && Total(t, FilesUnder(t, p)) == SizeAt(t, p)
    ensures p != []
    ensures Lists(t, [FileInfo(p[|p| - 1], p, SizeAt(t, p))], FilesUnder(t, p))
  {
    NothingBelow(t, p);
    assert FilesUnder(t, p) == {p};
    TotalPick(t, {p}, p);
    assert {p} - {p} == {};
    assert PathsOf([FileInfo(p[|p| - 1], p, SizeAt(t, p))]) == {p};
  }

  /** `getFilePaths`: every file below the directory, once. */
  method GetFilePaths(tree: Tree, dir: Path) returns (results: seq<FileInfo>)
    requires WellFormed(tree)
    ensures Lists(tree, results, FilesUnder(tree, dir) - {dir})
  {
    var walk := new Walk(tree);
    ghost var found := walk.ReadDirectory(dir);
    assert [] + found == found;
    results := walk.results;
  }

  /** `dirSize`: the bytes of every file at the path or below it. */
  method DirSize(tree: Tree, directoryPath: Path) returns (totalSize: nat)
    requires WellFormed(tree)
    ensures totalSize == Total(tree, FilesUnder(tree, directoryPath))
  {
    var walk := new Walk(tree);
    walk.CalculateSize(directoryPath);
    totalSize := walk.totalSize;
  }

  /** Listing and size agree on every directory. */
  lemma ListingAgreesWithSize(t: Tree, dir: Path, infos: seq<FileInfo>)
    requires !IsFile(t, dir) && Lists(t, infos, FilesUnder(t, dir) - {dir})
    ensures SizeSum(infos) == Total(t, FilesUnder(t, dir))
  {
    ListingTotal(t, infos, FilesUnder(t, dir) - {dir});
    assert FilesUnder(t, dir) - {dir} == FilesUnder(t, dir);
  }

  /** A repair moves bytes and makes none: the size of the whole storage stays. */
  lemma RepairKeepsSize(t: Tree, t': Tree, primary: Path, legacy: Path, from: Path)
    requires Repaired(t, t', primary, legacy, from) && primary !in t && primary != legacy
    ensures Total(t', FilesUnder(t', [])) == Total(t, FilesUnder(t, []))
  {
    var before, after := FilesUnder(t, []), FilesUnder(t', []);
    assert legacy in before && primary in after;
    assert after - {primary} == before - {legacy};
    TotalPick(t, before, legacy);
    TotalPick(t', after, primary);
    TotalSame(t, t', before - {legacy});
  }

  /** So a read, with or without a repair, leaves the size of the storage as it was. */
  lemma ReadKeepsSize(t: Tree, paths: seq<Name>, file: Name)
    requires WellFormed(t) && GetFile(t, paths, file).1.Contents?
    ensures var t' := GetFile(t, paths, file).0; Total(t', FilesUnder(t', [])) == Total(t, FilesUnder(t, []))
  {
    ReadRepair(t, paths, file);
    if !IsFile(t, PrimaryPath(paths, file)) {
      var primary, legacy := PrimaryPath(paths, file), LegacyPath(paths, file);
      assert |primary| != |legacy|;
      RepairKeepsSize(t, GetFile(t, paths, file).0, primary, legacy, paths[1..|paths| - 1]);
    }
  }

  /** The size of some files: nothing for none, and one more file adds its bytes. */
  lemma TotalMeans(t: Tree, files: set<Path>, p: Path)
    requires p !in files && p in t && t[p].File?
    ensures Total(t, {}) == 0 && Total(t, files + {p}) == Total(t, files) + |t[p].bytes|
  {
    TotalPick(t, files + {p}, p);
    assert files + {p} - {p} == files;
  }

  /** The files under a path: those whose names begin with its names. */
  lemma FilesUnderMean(t: Tree, p: Path, q: Path)
    ensures q in FilesUnder(t, p) <==> q in t && t[q].File? && |q| >= |p| && forall i | 0 <= i < |p| :: q[i] == p[i]
  {
  }

  /** What a listing says: each of the files in one place, under its own name and with its size. */
  lemma ListsMean(t: Tree, infos: seq<FileInfo>, files: set<Path>)
    requires Lists(t, infos, files)
    ensures forall p :: p in files <==> exists i :: 0 <= i < |infos| && infos[i].path == p
    ensures forall i, j | 0 <= i < j < |infos| :: infos[i].path != infos[j].path
    ensures forall i | 0 <= i < |infos| ::
              var p := infos[i].path;
              p != [] && infos[i].name == p[|p| - 1] && p in t && t[p].File? && infos[i].size == |t[p].bytes|
  {
    forall p | p in files ensures exists i :: 0 <= i < |infos| && infos[i].path == p {
      assert p in PathsOf(infos);
    }
    forall i | 0 <= i < |infos| ensures infos[i].path in files { assert infos[i] in infos; }
    forall i, j | 0 <= i < j < |infos| ensures infos[i].path != infos[j].path { NoPathTwice(t, infos, files, i, j); }
  }

  lemma {:induction false} NoPathTwice(t: Tree, infos: seq<FileInfo>, files: set<Path>, i: nat, j: nat)
    requires Lists(t, infos, files) && i < j < |infos|
    ensures infos[i].path != infos[j].path
  {
    var n := |infos| - 1;
    FrontLists(t, infos, files);
    if j < n {
      NoPathTwice(t, infos[..n], files - {infos[n].path}, i, j);
    } else {
      assert infos[..n][i] in infos[..n];
      assert infos[i].path in PathsOf(infos[..n]);
    }
  }
}

/**
  Read-repair in packages/components/src/storage/LocalStorageProvider.ts: a file missing under
  its organization is looked up at its legacy path, moved, and the folders that become empty
  are pruned. Paths are lists of sanitized names below the storage root, which is [].
 */
module LocalStorage {
  import opened Common

  type Name = string
  type Path = seq<Name>
  type Bytes = seq<bv8>

  datatype Node = Dir | File(bytes: Bytes)
  type Tree = map<Path, Node>

  function Parent(p: Path): Path
    requires p != []
  {
    p[..|p| - 1]
  }

  /** The root is a directory, and everything else lies in a directory. */
  ghost predicate WellFormed(t: Tree) {
    && [] in t && t[[]].Dir?
    && forall p | p in t && p != [] :: Parent(p) in t && t[Parent(p)].Dir?
  }

  predicate IsFile(t: Tree, p: Path) {
    p in t && t[p].File?
  }

  predicate IsDir(t: Tree, p: Path) {
    p in t && t[p].Dir?
  }

  // ---------- file system calls ----------

  function Children(t: Tree, dir: Path): set<Path> {
    set p | p in t && p != [] && Parent(p) == dir
  }

  function Prefixes(p: Path): set<Path> {
    set i | 0 <= i <= |p| :: p[..i]
  }

  /** `mkdirSync` with `recursive`; None where it throws. */
  function MakeDirs(t: Tree, p: Path): Option<Tree> {
    if exists q | q in Prefixes(p) :: IsFile(t, q) then None
    else Some(t + map q | q in Prefixes(p) :: Dir)
  }

  function Copy(t: Tree, src: Path, dst: Path): Option<Tree> {
    if IsFile(t, src) && dst != [] && IsDir(t, Parent(dst)) && !IsDir(t, dst) then Some(t[dst := t[src]]) else None
  }

  function Unlink(t: Tree, p: Path): Option<Tree> {
    if IsFile(t, p) then Some(t - {p}) else None
  }

  // ---------- the operations as functions ----------

  /** `cleanEmptyLocalFolders`: from `dir` upwards as long as folders are empty. */
  function Cleaned(t: Tree, dir: Path): Tree
    decreases |dir|
  {
    if dir == [] || !IsDir(t, dir) || Children(t, dir) != {} then t
    else Cleaned(t - {dir}, Parent(dir))
  }

  /** Move `legacy` to `primary`, then prune from `from`; the first component is the tree even where a call throws. */
  function Migrate(t: Tree, primary: Path, legacy: Path, from: Path): (Tree, bool)
    requires primary != []
  {
    var made := if Parent(primary) in t then Some(t) else MakeDirs(t, Parent(primary));
    if made.None? then (t, false)
    else
      var copied := Copy(made.value, legacy, primary);
      if copied.None? then (made.value, false)
      else
        var unlinked := Unlink(copied.value, legacy);
        if unlinked.None? then (copied.value, false) else (Cleaned(unlinked.value, from), true)
  }

  datatype Read = Contents(bytes: Bytes) | Failed

  function PrimaryPath(paths: seq<Name>, file: Name): Path {
    paths + [file]
  }

  function LegacyPath(paths: seq<Name>, file: Name): Path
    requires |paths| > 0
  {
    paths[1..] + [file]
  }

  /** `getFileFromStorage`: the tree afterwards and what is returned. */
  function GetFile(t: Tree, paths: seq<Name>, file: Name): (Tree, Read) {
    var primary := PrimaryPath(paths, file);
    if IsFile(t, primary) then (t, Contents(t[primary].bytes))
    else if |paths| <= 1 || LegacyPath(paths, file) !in t then (t, Failed)
    else
      var (t', moved) := Migrate(t, primary, LegacyPath(paths, file), paths[1..|paths| - 1]);
      (t', if moved && IsFile(t', primary) then Contents(t'[primary].bytes) else Failed)
  }

  /** `buildPath` skips empty components; a sanitized file name is never empty. */
  function BuildPath(names: seq<Name>, file: Name): (p: Path)
    ensures p != []
  {
    if names == [] then [file] else (if names[0] == "" then [] else [names[0]]) + BuildPath(names[1..], file)
  }

  /** `streamStorageFile`: the tree afterwards and whether a stream on the primary path is returned. */
  function StreamFile(t: Tree, orgId: Name, chatflowId: Name, chatId: Name, file: Name): (Tree, bool) {
    var primary, legacy := BuildPath([orgId, chatflowId, chatId], file), BuildPath([chatflowId, chatId], file);
    if primary in t then (t, true)
    else if legacy !in t then (t, false)
    else Migrate(t, primary, legacy, Parent(legacy))
  }

  // ---------- the provider ----------

  class Provider {
    var tree: Tree

    constructor ()
      ensures tree == map[[] := Dir] && WellFormed(tree)
    {
      tree := map[[] := Dir];
    }

    method CleanEmptyLocalFolders(dirPath: Path)
      modifies this
      ensures tree == Cleaned(old(tree), dirPath)
      decreases |dirPath|
    {
      if dirPath == [] { return; }
      if dirPath !in tree { return; }
      if tree[dirPath].File? { return; }
      var files := Children(tree, dirPath);
      if |files| == 0 {
        tree := tree - {dirPath};
        CleanEmptyLocalFolders(Parent(dirPath));
      }
    }

    /** The repair both readers share. */
    method MoveFromLegacy(primary: Path, legacy: Path, from: Path) returns (ok: bool)
      requires primary != []
      modifies this
      ensures (tree, ok) == Migrate(old(tree), primary, legacy, from)
    {
      ok := false;
      if Parent(primary) !in tree {
        var made := MakeDirs(tree, Parent(primary));
        if made.None? { return; }
        tree := made.value;
      }
      var copied := Copy(tree, legacy, primary);
      if copied.None? { return; }
      tree := copied.value;
      var unlinked := Unlink(tree, legacy);
      if unlinked.None? { return; }
      tree := unlinked.value;
      CleanEmptyLocalFolders(from);
      ok := true;
    }

    method GetFileFromStorage(file: Name, paths: seq<Name>) returns (r: Read)
      modifies this
      ensures (tree, r) == GetFile(old(tree), paths, file)
    {
      var fileInStorage := PrimaryPath(paths, file);
      if fileInStorage in tree && tree[fileInStorage].File? {
        return Contents(tree[fileInStorage].bytes);
      }
      if |paths| > 1 {
        var fallbackPath := LegacyPath(paths, file);
        if fallbackPath in tree {
          var ok := MoveFromLegacy(fileInStorage, fallbackPath, paths[1..|paths| - 1]);
          if ok && fileInStorage in tree && tree[fileInStorage].File? {
            return Contents(tree[fileInStorage].bytes);
          }
        }
      }
      r := Failed;
    }

    method StreamStorageFile(chatflowId: Name, chatId: Name, fileName: Name, orgId: Name) returns (ok: bool)
      modifies this
      ensures (tree, ok) == StreamFile(old(tree), orgId, chatflowId, chatId, fileName)
    {
      var filePath := BuildPath([orgId, chatflowId, chatId], fileName);
      var fallbackPath := BuildPath([chatflowId, chatId], fileName);
      if filePath in tree { return true; }
      if fallbackPath !in tree { return false; }
      ok := MoveFromLegacy(filePath, fallbackPath, Parent(fallbackPath));
    }
  }

  // ---------- pruning ----------

  /** Pruning removes nothing but empty directories on the way from `dir` to the root, and keeps the tree well-formed. */
  lemma {:induction false} CleanedKeeps(t: Tree, dir: Path)
    requires WellFormed(t)
    ensures WellFormed(Cleaned(t, dir))
    ensures Cleaned(t, dir).Keys <= t.Keys
    ensures forall p | p in Cleaned(t, dir) :: Cleaned(t, dir)[p] == t[p]
    ensures forall p | p in t && p !in Cleaned(t, dir) :: t[p].Dir? && p != [] && p <= dir
    decreases |dir|
  {
    if dir != [] && IsDir(t, dir) && Children(t, dir) == {} {
      var t' := t - {dir};
      assert WellFormed(t') by {
        forall p | p in t' && p != [] ensures Parent(p) in t' && t'[Parent(p)].Dir? {
          assert p !in Children(t, dir);
        }
      }
      CleanedKeeps(t', Parent(dir));
    }
  }

  /** ... and it stops only at the root or at a folder that still holds something. */
  lemma {:induction false} CleanedIsComplete(t: Tree, dir: Path)
    requires WellFormed(t) && IsDir(t, dir)
    ensures forall q | q <= dir && q != [] && q in Cleaned(t, dir) :: Children(Cleaned(t, dir), q) != {}
    decreases |dir|
  {
    if dir != [] && Children(t, dir) == {} {
      CleanedKeeps(t, dir);
      var t' := t - {dir};
      assert WellFormed(t') by {
        forall p | p in t' && p != [] ensures Parent(p) in t' && t'[Parent(p)].Dir? {
          assert p !in Children(t, dir);
        }
      }
      CleanedIsComplete(t', Parent(dir));
      CleanedKeeps(t', Parent(dir));
      forall q | q <= dir && q != [] && q in Cleaned(t, dir) ensures Children(Cleaned(t, dir), q) != {} {
        assert q != dir;
        assert q <= Parent(dir);
      }
    } else if dir != [] {
      forall q | q <= dir && q != [] ensures Children(t, q) != {} {
        if q != dir {
          PrefixInTree(t, dir, |q| + 1);
          assert dir[..|q| + 1] in Children(t, q);
        }
      }
    }
  }

  lemma {:induction false} PrefixInTree(t: Tree, p: Path, n: nat)
    requires WellFormed(t) && p in t && n <= |p|
    ensures p[..n] in t && (n < |p| ==> t[p[..n]].Dir?)
    decreases |p| - n
  {
    if n == |p| {
      assert p[..n] == p;
    } else {
      PrefixInTree(t, p, n + 1);
      assert Parent(p[..n + 1]) == p[..n];
    }
  }

  // ---------- moving a file ----------

  /** Creating directories adds only directories, on the way to `p`. */
  lemma MadeDirs(t: Tree, p: Path)
    requires WellFormed(t) && MakeDirs(t, p).Some?
    ensures var t' := MakeDirs(t, p).value;
            && WellFormed(t') && IsDir(t', p)
            && (forall q | q in t :: q in t' && t'[q] == t[q])
            && (forall q | q in t' && q !in t :: t'[q].Dir? && q <= p)
  {
    var t' := MakeDirs(t, p).value;
    assert p[..|p|] == p && p[..0] == [];
    assert p in Prefixes(p) && [] in Prefixes(p);
    forall q | q in t' && q != [] ensures Parent(q) in t' && t'[Parent(q)].Dir? {
      if q in Prefixes(p) {
        var i :| 0 <= i <= |p| && q == p[..i];
        assert Parent(q) == p[..i - 1];
        assert Parent(q) in Prefixes(p);
      }
    }
    forall q | q in t ensures q in t' && t'[q] == t[q] {
      if q in Prefixes(p) { assert !IsFile(t, q); }
    }
  }

  /**
    What a repair does: the bytes are at the primary path, the legacy path is gone, every other
    file is as before, new nodes are directories above the primary path, and what was pruned were
    directories at or above `from`.
   */
  ghost predicate Repaired(t: Tree, t': Tree, primary: Path, legacy: Path, from: Path) {
    && WellFormed(t')
    && IsFile(t, legacy) && t'.Keys >= {primary} && t'[primary] == t[legacy]
    && legacy !in t'
    && (forall p | p in t && t[p].File? && p != primary && p != legacy :: p in t' && t'[p] == t[p])
    && (forall p | p in t && p in t' && p != primary :: t'[p] == t[p])
    && (forall p | p in t' && p !in t && p != primary :: t'[p].Dir? && p < primary)
    && (forall p | p in t && p !in t' && p != legacy :: t[p].Dir? && p != [] && p <= from)
  }

  lemma UnlinkKeeps(t: Tree, f: Path)
    requires WellFormed(t) && IsFile(t, f)
    ensures WellFormed(t - {f})
  {
  }

  /** A step of the repair that fails loses no file; a repair that completes is a `Repaired` tree. */
  lemma MigrateRepairs(t: Tree, primary: Path, legacy: Path, from: Path)
    requires WellFormed(t) && primary != [] && primary != legacy
    ensures var (t', moved) := Migrate(t, primary, legacy, from);
            && WellFormed(t')
            && (moved ==> Repaired(t, t', primary, legacy, from))
            && (!moved ==> forall p | p in t :: p in t' && t'[p] == t[p])
  {
    var up := Parent(primary);
    if up !in t && MakeDirs(t, up).Some? { MadeDirs(t, up); }
    var made := if up in t then Some(t) else MakeDirs(t, up);
    if made.Some? && Copy(made.value, legacy, primary).Some? {
      CopyUnlinkClean(t, made.value, primary, legacy, from);
    }
  }

  lemma CopyUnlinkClean(t: Tree, made: Tree, primary: Path, legacy: Path, from: Path)
    requires WellFormed(t) && WellFormed(made) && primary != [] && primary != legacy
    requires forall q | q in t :: q in made && made[q] == t[q]
    requires forall q | q in made && q !in t :: made[q].Dir? && q <= Parent(primary)
    requires Copy(made, legacy, primary).Some?
    ensures var copied := Copy(made, legacy, primary).value;
            Unlink(copied, legacy).Some? && Repaired(t, Cleaned(Unlink(copied, legacy).value, from), primary, legacy, from)
  {
    var copied := Copy(made, legacy, primary).value;
    assert WellFormed(copied);
    var unlinked := copied - {legacy};
    UnlinkKeeps(copied, legacy);
    CleanedKeeps(unlinked, from);
    var t' := Cleaned(unlinked, from);
    assert primary in unlinked && unlinked[primary].File?;
    assert IsFile(t, legacy);
  }

  /** Exactly when a repair goes through. */
  predicate Movable(t: Tree, primary: Path, legacy: Path)
    requires primary != []
  {
    IsFile(t, legacy) && !IsDir(t, primary) && forall q | q in Prefixes(Parent(primary)) :: !IsFile(t, q)
  }

  lemma MigrateSucceeds(t: Tree, primary: Path, legacy: Path, from: Path)
    requires WellFormed(t) && primary != [] && primary != legacy
    ensures Migrate(t, primary, legacy, from).1 <==> Movable(t, primary, legacy)
  {
    var up := Parent(primary);
    assert up[..|up|] == up && up in Prefixes(up);
    if up in t {
      forall q | q in Prefixes(up) && q != up ensures !IsFile(t, q) {
        var i :| 0 <= i <= |up| && q == up[..i];
        PrefixInTree(t, up, i);
      }
    } else if MakeDirs(t, up).Some? {
      MadeDirs(t, up);
      assert primary !in t;
      assert forall q | q in MakeDirs(t, up).value && q !in t :: q <= up;
    }
  }

  /** A read returns the primary file, or else the legacy file after moving it; a failed read loses nothing. */
  lemma ReadRepair(t: Tree, paths: seq<Name>, file: Name)
    requires WellFormed(t)
    ensures var (t', r) := GetFile(t, paths, file);
            var primary := PrimaryPath(paths, file);
            && WellFormed(t')
            && (IsFile(t, primary) ==> t' == t && r == Contents(t[primary].bytes))
            && (r.Contents? && !IsFile(t, primary) ==>
                  && |paths| > 1 && r.bytes == t[LegacyPath(paths, file)].bytes
                  && Repaired(t, t', primary, LegacyPath(paths, file), paths[1..|paths| - 1]))
            && (r.Failed? ==> forall p | p in t :: p in t' && t'[p] == t[p])
            && (r.Contents? <==> IsFile(t, primary) || (|paths| > 1 && Movable(t, primary, LegacyPath(paths, file))))
  {
    var primary := PrimaryPath(paths, file);
    if !IsFile(t, primary) && |paths| > 1 {
      var legacy := LegacyPath(paths, file);
      assert |primary| != |legacy|;
      MigrateRepairs(t, primary, legacy, paths[1..|paths| - 1]);
      MigrateSucceeds(t, primary, legacy, paths[1..|paths| - 1]);
    }
  }

  /** A repeated read gives the same bytes and changes nothing more. */
  lemma ReadTwice(t: Tree, paths: seq<Name>, file: Name)
    requires WellFormed(t) && GetFile(t, paths, file).1.Contents?
    ensures var (t', r) := GetFile(t, paths, file); GetFile(t', paths, file) == (t', r)
  {
    ReadRepair(t, paths, file);
  }

  /** Pruning from above a folder that is still there removes nothing. */
  lemma CleanedAbove(t: Tree, folder: Path)
    requires folder != [] && folder in t
    ensures Cleaned(t, Parent(folder)) == t
  {
    assert folder in Children(t, Parent(folder));
  }

  lemma MoveKeepsDirs(t: Tree, made: Tree, primary: Path, legacy: Path, folder: Path)
    requires folder != [] && IsDir(made, folder) && IsFile(made, legacy)
    requires forall p | IsDir(t, p) :: IsDir(made, p)
    requires Copy(made, legacy, primary).Some?
    ensures var unlinked := Copy(made, legacy, primary).value - {legacy};
            Cleaned(unlinked, Parent(folder)) == unlinked && forall p | IsDir(t, p) :: IsDir(unlinked, p)
  {
    CleanedAbove(Copy(made, legacy, primary).value - {legacy}, folder);
  }

  lemma MigrateKeepsDirs(t: Tree, primary: Path, legacy: Path, folder: Path)
    requires WellFormed(t) && primary != [] && folder != [] && IsDir(t, folder) && IsFile(t, legacy)
    ensures forall p | IsDir(t, p) :: IsDir(Migrate(t, primary, legacy, Parent(folder)).0, p)
  {
    var up := Parent(primary);
    if up !in t && MakeDirs(t, up).Some? { MadeDirs(t, up); }
    var made := if up in t then Some(t) else MakeDirs(t, up);
    if made.Some? && Copy(made.value, legacy, primary).Some? {
      MoveKeepsDirs(t, made.value, primary, legacy, folder);
    }
  }

  /**
    `getFileFromStorage` prunes one level too high: it starts at the parent of the folder that
    held the file, which still contains that folder, so no directory is ever removed.
   */
  lemma GetFileRemovesNoDirectory(t: Tree, paths: seq<Name>, file: Name)
    requires WellFormed(t)
    ensures forall p | IsDir(t, p) :: IsDir(GetFile(t, paths, file).0, p)
  {
    if !IsFile(t, PrimaryPath(paths, file)) && |paths| > 1 {
      var legacy, folder := LegacyPath(paths, file), paths[1..];
      assert Parent(legacy) == folder && Parent(folder) == paths[1..|paths| - 1];
      if IsFile(t, legacy) {
        MigrateKeepsDirs(t, PrimaryPath(paths, file), legacy, folder);
      } else {
        MigrateRepairs(t, PrimaryPath(paths, file), legacy, Parent(folder));
      }
    }
  }

  /** What a completed repair of this reader leaves: nothing is pruned. */
  lemma GetFileMoves(t: Tree, paths: seq<Name>, file: Name)
    requires WellFormed(t) && !IsFile(t, PrimaryPath(paths, file)) && GetFile(t, paths, file).1.Contents?
    ensures var t', primary := GetFile(t, paths, file).0, PrimaryPath(paths, file);
            && |paths| > 1 && WellFormed(t') && IsFile(t, LegacyPath(paths, file)) && IsDir(t', paths[1..])
            && (forall p :: p in t' <==> (p in t && p != LegacyPath(paths, file)) || p in Prefixes(primary))
  {
    var primary, legacy, folder := PrimaryPath(paths, file), LegacyPath(paths, file), paths[1..];
    var up := Parent(primary);
    assert |primary| != |legacy| && Parent(legacy) == folder && Parent(folder) == paths[1..|paths| - 1];
    ReadRepair(t, paths, file);
    if up !in t { MadeDirs(t, up); }
    var made := if up in t then t else MakeDirs(t, up).value;
    MoveKeepsDirs(t, made, primary, legacy, folder);
    forall p ensures p in Prefixes(primary) <==> p == primary || p in Prefixes(up) { PrefixesUp(primary, p); }
    if up in t {
      forall q | q in Prefixes(up) ensures q in t {
        var i :| 0 <= i <= |up| && q == up[..i];
        PrefixInTree(t, up, i);
      }
    }
  }

  lemma PrefixesUp(p: Path, q: Path)
    requires p != []
    ensures q in Prefixes(p) <==> q == p || q in Prefixes(Parent(p))
  {
    if q in Prefixes(p) && q != p {
      var i :| 0 <= i <= |p| && q == p[..i];
      assert Parent(p)[..i] == q;
    }
    if q in Prefixes(Parent(p)) {
      var i :| 0 <= i <= |p| - 1 && q == Parent(p)[..i];
      assert p[..i] == q;
    }
    assert p[..|p|] == p;
  }

  /** A folder on the way to `p` has exactly one child on this way. */
  lemma ChildOnTheWay(p: Path, folder: Path)
    ensures folder < p ==> p[..|folder| + 1] in Prefixes(p) && Parent(p[..|folder| + 1]) == folder
    ensures !(folder < p) ==> forall q | q in Prefixes(p) && q != [] :: Parent(q) != folder
  {
    forall q | q in Prefixes(p) && q != [] && Parent(q) == folder ensures folder < p {
      var i :| 0 <= i <= |p| && q == p[..i];
      assert folder == p[..i - 1];
    }
  }

  /**
    The folder of a repaired file stays behind as an empty folder exactly if the file was all it
    held and it is not on the way to the primary path.
   */
  lemma FolderLeftEmpty(t: Tree, paths: seq<Name>, file: Name)
    requires WellFormed(t) && !IsFile(t, PrimaryPath(paths, file)) && GetFile(t, paths, file).1.Contents?
    ensures var t', folder := GetFile(t, paths, file).0, paths[1..];
            && IsDir(t', folder)
            && (Children(t', folder) == {}
                <==> Children(t, folder) == {LegacyPath(paths, file)} && !(folder < PrimaryPath(paths, file)))
  {
    var t', folder := GetFile(t, paths, file).0, paths[1..];
    var primary, legacy := PrimaryPath(paths, file), LegacyPath(paths, file);
    GetFileMoves(t, paths, file);
    ChildOnTheWay(primary, folder);
    assert Parent(legacy) == folder;
    assert legacy in Children(t, folder);
    if folder < primary {
      assert primary[..|folder| + 1] in Children(t', folder);
    } else {
      assert Children(t', folder) == Children(t, folder) - {legacy};
    }
  }

  /** A chat folder with one file, below the root instead of below its organization. */
  const OLD_LAYOUT: Tree := map[[] := Dir, ["chat"] := Dir, ["chat", "file"] := File([])]

  /** The file moves below its organization, and the empty chat folder stays. */
  lemma EmptyFolderStays()
    ensures WellFormed(OLD_LAYOUT)
    ensures var (t', r) := GetFile(OLD_LAYOUT, ["org", "chat"], "file");
            r == Contents([]) && IsFile(t', ["org", "chat", "file"]) && IsDir(t', ["chat"]) && Children(t', ["chat"]) == {}
  {
    var paths := ["org", "chat"];
    assert PrimaryPath(paths, "file") == ["org", "chat", "file"] && LegacyPath(paths, "file") == ["chat", "file"];
    OldLayout();
    OldFileMoves();
    ReadRepair(OLD_LAYOUT, paths, "file");
    FolderLeftEmpty(OLD_LAYOUT, paths, "file");
    assert paths[1..] == ["chat"] && ["chat"][0] != "org";
  }

  lemma OldLayout()
    ensures WellFormed(OLD_LAYOUT) && Children(OLD_LAYOUT, ["chat"]) == {["chat", "file"]}
  {
    assert Parent(["chat"]) == [] && Parent(["chat", "file"]) == ["chat"];
  }

  lemma OldFileMoves()
    ensures Movable(OLD_LAYOUT, ["org", "chat", "file"], ["chat", "file"])
  {
    var up := Parent(["org", "chat", "file"]);
    assert up == ["org", "chat"];
    forall q | q in Prefixes(up) ensures !IsFile(OLD_LAYOUT, q) {
      var i :| 0 <= i <= |up| && q == up[..i];
      assert i > 0 ==> q[0] == "org";
    }
  }

  /** `streamStorageFile` starts in the right folder: no folder on the way up is left empty. */
  lemma StreamRepairPrunes(t: Tree, orgId: Name, chatflowId: Name, chatId: Name, file: Name)
    requires WellFormed(t)
    ensures var (t', ok) := StreamFile(t, orgId, chatflowId, chatId, file);
            var primary, legacy := BuildPath([orgId, chatflowId, chatId], file), BuildPath([chatflowId, chatId], file);
            && WellFormed(t')
            && (primary in t ==> t' == t && ok)
            && (ok && primary !in t ==>
                  && Repaired(t, t', primary, legacy, Parent(legacy))
                  && forall q | q <= Parent(legacy) && q != [] && q in t' :: Children(t', q) != {})
            && (!ok ==> forall p | p in t :: p in t' && t'[p] == t[p])
  {
    var primary, legacy := BuildPath([orgId, chatflowId, chatId], file), BuildPath([chatflowId, chatId], file);
    assert [orgId, chatflowId, chatId][1..] == [chatflowId, chatId];
    if primary !in t && legacy in t {
      assert primary != legacy;
      MigrateRepairs(t, primary, legacy, Parent(legacy));
      if Migrate(t, primary, legacy, Parent(legacy)).1 {
        var up := Parent(primary);
        if up !in t { MadeDirs(t, up); }
        var made := if up in t then t else MakeDirs(t, up).value;
        CopyUnlinkClean(t, made, primary, legacy, Parent(legacy));
        var unlinked := Copy(made, legacy, primary).value - {legacy};
        UnlinkKeeps(Copy(made, legacy, primary).value, legacy);
        CleanedIsComplete(unlinked, Parent(legacy));
      }
    }
  }

  // ---------- the two readers on written-out paths ----------

  /** A file can be put at `p`: no directory is there and no file above it. */
  predicate Free(t: Tree, p: Path) {
    !(p in t && t[p].Dir?) && forall n | 0 <= n < |p| :: !(p[..n] in t && t[p[..n]].File?)
  }

  lemma FreeIsMovable(t: Tree, primary: Path, legacy: Path)
    requires primary != []
    ensures Movable(t, primary, legacy) <==> legacy in t && t[legacy].File? && Free(t, primary)
  {
    var up := Parent(primary);
    forall n | 0 <= n < |primary| ensures primary[..n] in Prefixes(up) { assert up[..n] == primary[..n]; }
    forall q | q in Prefixes(up) ensures exists n :: 0 <= n < |primary| && q == primary[..n] {
      var n :| 0 <= n <= |up| && q == up[..n];
      assert q == primary[..n];
    }
  }

  /**
    Where `getFileFromStorage` finds a file: under all of the given names, or else under them
    without the first, if there is another one and the file can be put where it belongs. It is
    under all names afterwards, and nowhere else.
   */
  lemma FoundAt(t: Tree, paths: seq<Name>, file: Name)
    requires WellFormed(t)
    ensures var (t', r) := GetFile(t, paths, file);
            var primary := paths + [file];
            if primary in t && t[primary].File? then t' == t && r == Contents(t[primary].bytes)
            else if |paths| > 1 && paths[1..] + [file] in t && t[paths[1..] + [file]].File? && Free(t, primary) then
              && r == Contents(t[paths[1..] + [file]].bytes)
              && primary in t' && t'[primary] == t[paths[1..] + [file]] && paths[1..] + [file] !in t'
            else r == Failed
  {
    ReadRepair(t, paths, file);
    if |paths| > 1 { FreeIsMovable(t, paths + [file], paths[1..] + [file]); }
  }

  function Given(name: Name): Path {
    if name == "" then [] else [name]
  }

  lemma PathOfFour(a: Name, b: Name, c: Name, file: Name)
    ensures BuildPath([a, b, c], file) == Given(a) + Given(b) + Given(c) + [file]
    ensures BuildPath([b, c], file) == Given(b) + Given(c) + [file]
  {
    assert [c][1..] == [] && [b, c][1..] == [c] && [a, b, c][1..] == [b, c];
    assert BuildPath([c], file) == Given(c) + BuildPath([], file);
    assert BuildPath([b, c], file) == Given(b) + BuildPath([c], file);
    assert BuildPath([a, b, c], file) == Given(a) + BuildPath([b, c], file);
  }

  /**
    Where `streamStorageFile` finds a file: below organization, flow and chat, or else below flow
    and chat, if it can be put where it belongs; names that are empty take no part.
   */
  lemma StreamedAt(t: Tree, orgId: Name, chatflowId: Name, chatId: Name, file: Name)
    requires WellFormed(t)
    ensures var (t', ok) := StreamFile(t, orgId, chatflowId, chatId, file);
            var legacy := Given(chatflowId) + Given(chatId) + [file];
            var primary := Given(orgId) + Given(chatflowId) + Given(chatId) + [file];
            && (ok <==> primary in t || (legacy in t && t[legacy].File? && Free(t, primary)))
            && (ok && primary !in t ==> primary in t' && t'[primary] == t[legacy] && legacy !in t')
            && (primary in t ==> t' == t)
  {
    var primary, legacy := BuildPath([orgId, chatflowId, chatId], file), BuildPath([chatflowId, chatId], file);
    PathOfFour(orgId, chatflowId, chatId, file);
    StreamRepairPrunes(t, orgId, chatflowId, chatId, file);
    FreeIsMovable(t, primary, legacy);
    if primary !in t && legacy in t {
      MigrateSucceeds(t, primary, legacy, Parent(legacy));
    }
  }
}

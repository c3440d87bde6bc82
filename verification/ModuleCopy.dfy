/** The copy of a module's import graph: `resolvePackageRoot` and
    `copyModuleImportGraphWithoutNodeModules` of scripts/load-channel-config-surface.ts. */
module ModuleCopy {
  import opened Options
  import opened ImportGraph
  import opened CommonAncestor

  predicate Named(p: Path) {
    forall i :: 0 <= i < |p| ==> p[i] != "" && p[i] != "." && p[i] != ".."
  }

  function Ups(n: nat): Path {
    if n == 0 then [] else [".."] + Ups(n - 1)
  }

  /** `path.relative(a, b).split("/")` */
  function Relative(a: Path, b: Path): Path {
    Ups(|a| - |Shared(a, b)|) + b[|Shared(a, b)|..]
  }

  lemma {:induction false} ResolveDown(dir: Path, names: Path)
    requires Named(names)
    ensures ResolveFrom(dir, names) == dir + names
    decreases |names|
  {
    if names != [] {
      ResolveDown(dir + [names[0]], names[1..]);
    }
  }

  lemma {:induction false} ResolveUp(dir: Path, n: nat, names: Path)
    requires n <= |dir| && Named(names)
    ensures ResolveFrom(dir, Ups(n) + names) == dir[..|dir| - n] + names
  {
    if n == 0 {
      assert Ups(0) + names == names;
      ResolveDown(dir, names);
    } else {
      assert (Ups(n) + names)[1..] == Ups(n - 1) + names;
      ResolveUp(Dirname(dir), n - 1, names);
    }
  }

  /** The relative path from `a` to `b` leads from `a` to `b`. */
  lemma {:induction false} RelativeLeadsThere(a: Path, b: Path)
    requires Named(b)
    ensures ResolveFrom(a, Relative(a, b)) == b
  {
    var s := Shared(a, b);
    ResolveUp(a, |a| - |s|, b[|s|..]);
    assert b == s + b[|s|..] && a[..|s|] == s;
  }

  /** Where the copy of `source` goes. */
  function Target(root: Path, isolated: Path, source: Path): Path
    requires root <= source
  {
    isolated + source[|root|..]
  }

  lemma {:induction false} TargetIsBelow(root: Path, isolated: Path, source: Path)
    requires root <= source && Named(source)
    ensures ResolveFrom(isolated, Relative(root, source)) == Target(root, isolated, source)
  {
    SharedIsLongest(root, source, root);
    assert Relative(root, source) == source[|root|..];
    ResolveDown(isolated, source[|root|..]);
  }

  // ---------------------------------------------------------------- the package

  predicate IsPackage(files: Files, dir: Path) {
    dir + ["package.json"] in files
  }

  /** `resolvePackageRoot(modulePath)`: the innermost directory around the module that has a
      package.json; None stands for the error of finding none. */
  method ResolvePackageRoot(files: Files, modulePath: Path) returns (root: Option<Path>)
    requires modulePath != []
    ensures root.Some? ==> root.value < modulePath && IsPackage(files, root.value)
    ensures forall n :: (if root.Some? then |root.value| else -1) < n < |modulePath| ==>
              !IsPackage(files, modulePath[..n])
  {
    var cursor := Dirname(modulePath);
    while true
      invariant cursor < modulePath
      invariant forall n :: |cursor| < n < |modulePath| ==> !IsPackage(files, modulePath[..n])
      decreases |cursor|
    {
      assert cursor == modulePath[..|cursor|];
      if IsPackage(files, cursor) {
        return Some(cursor);
      }
      var parent := Dirname(cursor);
      if parent == cursor {
        return None;
      }
      cursor := parent;
    }
  }

  // ---------------------------------------------------------------- the copy

  /** What lies at or below a file is that file. */
  ghost predicate FilesAreLeaves(files: Files) {
    forall f, g :: f in files && g in files && f <= g ==> f == g
  }

  ghost predicate AllBelow(found: set<Path>, root: Path) {
    forall f :: f in found ==> root < f
  }

  predicate CopiedAt(files: Files, root: Path, isolated: Path, copied: Files, f: Path)
    requires root <= f && f in files
  {
    var at := Target(root, isolated, f);
    at in copied && copied[at] == files[f]
  }

  predicate CopyOf(found: set<Path>, root: Path, isolated: Path, g: Path) {
    isolated <= g && root + g[|isolated|..] in found
  }

  /** `copied` holds a copy of each file in `found`, at its target, and nothing else. */
  ghost predicate IsCopy(files: Files, found: set<Path>, root: Path, isolated: Path, copied: Files) {
    && found <= files.Keys && AllBelow(found, root)
    && (forall f :: f in found ==> CopiedAt(files, root, isolated, copied, f))
    && (forall g :: g in copied ==> CopyOf(found, root, isolated, g))
  }

  lemma {:induction false} CopyOneMore(files: Files, found: set<Path>, f: Path, root: Path, isolated: Path,
                                       copied: Files)
    requires IsCopy(files, found, root, isolated, copied) && f in files && root < f
    ensures IsCopy(files, found + {f}, root, isolated, copied[Target(root, isolated, f) := files[f]])
  {
    var at := Target(root, isolated, f);
    var next := copied[at := files[f]];
    forall g | g in found ensures CopiedAt(files, root, isolated, next, g) {
      assert CopiedAt(files, root, isolated, copied, g);
      if Target(root, isolated, g) == at {
        assert g == root + at[|isolated|..] == f;
      }
    }
    forall g | g in next ensures CopyOf(found + {f}, root, isolated, g) {
      if g == at {
        assert root + at[|isolated|..] == f;
      } else {
        assert CopyOf(found, root, isolated, g);
      }
    }
  }

  /** With the package's directory in front, the ancestor search always finds the deepest directory
      of them all: a listed file is never a directory of another path. */
  lemma {:induction false} PackageInFront(files: Files, packageRoot: Path, read: seq<Path>, modulePath: Path)
    requires modulePath in read && packageRoot < modulePath
    requires FilesAreLeaves(files) && forall f :: f in read ==> f in files
    ensures var paths := [packageRoot] + read;
            ClimbedAll(paths) == SharedByAll(paths) <= packageRoot && forall f :: f in read ==> SharedByAll(paths) < f
  {
    var paths := [packageRoot] + read;
    var shared := SharedByAll(paths);
    SharedIsShared(paths, packageRoot);
    SharedIsShared(paths, modulePath);
    assert shared !in read;
    forall f | f in read ensures shared < f {
      SharedIsShared(paths, f);
    }
    assert !StuckAt(paths, shared);
    AncestorIsDeepest(paths);
  }

  ghost predicate IsAround(p: Path, packageRoot: Path, found: set<Path>) {
    p <= packageRoot && forall f :: f in found ==> p <= f
  }

  /** No directory further down has the package and all the files. */
  ghost predicate IsDeepest(root: Path, packageRoot: Path, found: set<Path>) {
    forall p :: IsAround(p, packageRoot, found) ==> p <= root
  }

  lemma {:induction false} SharedIsDeepest(packageRoot: Path, read: seq<Path>, found: set<Path>)
    requires forall f :: f in read ==> f in found
    ensures IsDeepest(SharedByAll([packageRoot] + read), packageRoot, found)
  {
    var paths := [packageRoot] + read;
    forall p | IsAround(p, packageRoot, found) ensures p <= SharedByAll(paths) {
      assert forall i :: 0 <= i < |paths| ==> paths[i] == packageRoot || paths[i] in read;
      SharedByAllIsDeepest(paths, p);
    }
  }

  function Listed(read: seq<Path>, n: nat): set<Path>
    requires n <= |read|
  {
    set f | f in read[..n]
  }

  /** The loop that copies. */
  method CopyFiles(files: Files, read: seq<Path>, copyRoot: Path, isolated: Path) returns (copied: Files)
    requires forall f :: f in read ==> f in files && Named(f) && copyRoot < f
    ensures IsCopy(files, Listed(read, |read|), copyRoot, isolated, copied)
  {
    copied := map[];
    for index := 0 to |read|
      invariant IsCopy(files, Listed(read, index), copyRoot, isolated, copied)
    {
      var sourcePath := read[index];
      assert sourcePath in read;
      var targetPath := ResolveFrom(isolated, Relative(copyRoot, sourcePath));
      TargetIsBelow(copyRoot, isolated, sourcePath);
      CopyOneMore(files, Listed(read, index), sourcePath, copyRoot, isolated, copied);
      assert Listed(read, index + 1) == Listed(read, index) + {sourcePath};
      copied := copied[targetPath := files[sourcePath]];
    }
  }

  /** What a copy comes to: where it starts, what is written, and where the module itself went. */
  datatype ModuleCopy = ModuleCopy(copyRoot: Path, copied: Files, copiedModulePath: Path)

  /** `c` is a copy of all that the module reaches, below `isolated`, in the shape it has below the
      deepest directory that contains the package and all of it. */
  ghost predicate CopiesGraph(files: Files, packageRoot: Path, modulePath: Path, isolated: Path, found: set<Path>,
                              c: ModuleCopy) {
    && packageRoot < modulePath && modulePath in found
    && (forall f :: f in found <==> Reachable(files, modulePath, f))
    && c.copyRoot <= packageRoot && IsDeepest(c.copyRoot, packageRoot, found)
    && IsCopy(files, found, c.copyRoot, isolated, c.copied)
    && c.copyRoot < modulePath && c.copiedModulePath == Target(c.copyRoot, isolated, modulePath)
  }

  method CopyGraph(files: Files, packageRoot: Path, modulePath: Path, isolated: Path, read: seq<Path>)
    returns (c: ModuleCopy)
    requires packageRoot < modulePath && modulePath in read && FilesAreLeaves(files)
    requires forall f :: f in read ==> f in files && Named(f)
    requires forall f :: f in Listed(read, |read|) <==> Reachable(files, modulePath, f)
    ensures CopiesGraph(files, packageRoot, modulePath, isolated, Listed(read, |read|), c)
  {
    var ancestor := ResolveCommonAncestor([packageRoot] + read);
    var copyRoot := ancestor.value;
    PackageInFront(files, packageRoot, read, modulePath);
    SharedIsDeepest(packageRoot, read, Listed(read, |read|));
    var copied := CopyFiles(files, read, copyRoot, isolated);
    TargetIsBelow(copyRoot, isolated, modulePath);
    return ModuleCopy(copyRoot, copied, ResolveFrom(isolated, Relative(copyRoot, modulePath)));
  }

  /** `copyModuleImportGraphWithoutNodeModules`: None stands for the errors of a module that is not
      there or is in no package. `isolated` is the fresh directory. */
  method CopyModuleImportGraph(files: Files, modulePath: Path, isolated: Path)
    returns (result: Option<ModuleCopy>, ghost packageRoot: Path, ghost found: set<Path>)
    requires modulePath != [] && FilesAreLeaves(files) && forall f :: f in files ==> Named(f)
    ensures result.None? <==>
              modulePath !in files || (forall n :: 0 <= n < |modulePath| ==> !IsPackage(files, modulePath[..n]))
    ensures result.Some? ==> IsPackage(files, packageRoot)
    ensures result.Some? ==> forall n :: |packageRoot| < n < |modulePath| ==> !IsPackage(files, modulePath[..n])
    ensures result.Some? ==> CopiesGraph(files, packageRoot, modulePath, isolated, found, result.value)
  {
    packageRoot, found := [], {};
    var package := ResolvePackageRoot(files, modulePath);
    if package.None? {
      return None, packageRoot, found;
    }
    packageRoot := package.value;
    assert packageRoot == modulePath[..|packageRoot|];
    var graph, read := CollectRelativeImportGraph(files, modulePath);
    if graph.None? {
      return None, packageRoot, found;
    }
    found := Listed(read, |read|);
    assert read[..|read|] == read;
    EntryIsReachable(files, modulePath);
    var c := CopyGraph(files, package.value, modulePath, isolated, read);
    return Some(c), packageRoot, found;
  }
}

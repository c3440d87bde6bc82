/** What imports mean inside a module copy of scripts/load-channel-config-surface.ts. */
module CopiedImports {
  import opened Options
  import opened ImportGraph
  import opened ModuleCopy

  function Up(p: Path, n: nat): Path {
    if n >= |p| then [] else p[..|p| - n]
  }

  /** A relative path in normal form: first so many steps up, then names down. */
  datatype Walk = Walk(up: nat, down: Path)

  function NormalFrom(walk: Walk, parts: seq<string>): Walk
    decreases |parts|
  {
    if parts == [] then walk
    else if parts[0] == "" || parts[0] == "." then NormalFrom(walk, parts[1..])
    else if parts[0] == ".." then
      NormalFrom(if walk.down == [] then Walk(walk.up + 1, []) else Walk(walk.up, Dirname(walk.down)), parts[1..])
    else NormalFrom(Walk(walk.up, walk.down + [parts[0]]), parts[1..])
  }

  function Normal(specifier: string): Walk {
    NormalFrom(Walk(0, []), SplitSlash(specifier))
  }

  lemma {:induction false} NormalResolves(dir: Path, walk: Walk, parts: seq<string>)
    ensures var w := NormalFrom(walk, parts);
            ResolveFrom(Up(dir, walk.up) + walk.down, parts) == Up(dir, w.up) + w.down
    decreases |parts|
  {
    if parts == [] {
    } else if parts[0] == "" || parts[0] == "." {
      NormalResolves(dir, walk, parts[1..]);
    } else if parts[0] == ".." {
      var next := if walk.down == [] then Walk(walk.up + 1, []) else Walk(walk.up, Dirname(walk.down));
      assert Dirname(Up(dir, walk.up) + walk.down) == Up(dir, next.up) + next.down;
      NormalResolves(dir, next, parts[1..]);
    } else {
      assert Up(dir, walk.up) + walk.down + [parts[0]] == Up(dir, walk.up) + (walk.down + [parts[0]]);
      NormalResolves(dir, Walk(walk.up, walk.down + [parts[0]]), parts[1..]);
    }
  }

  lemma {:induction false} NormalHasItsParts(walk: Walk, parts: seq<string>, name: string)
    requires name in NormalFrom(walk, parts).down
    ensures name in walk.down || name in parts
    decreases |parts|
  {
    if parts != [] {
      var rest := parts[1..];
      if parts[0] == "" || parts[0] == "." {
        NormalHasItsParts(walk, rest, name);
      } else if parts[0] == ".." {
        var next := if walk.down == [] then Walk(walk.up + 1, []) else Walk(walk.up, Dirname(walk.down));
        NormalHasItsParts(next, rest, name);
      } else {
        NormalHasItsParts(Walk(walk.up, walk.down + [parts[0]]), rest, name);
      }
    }
  }

  /** What a specifier comes to in a file: its steps up, and then its names down. */
  lemma {:induction false} ResolvesTo(from: Path, specifier: string)
    ensures ResolveFrom(Dirname(from), SplitSlash(specifier)) ==
              Up(Dirname(from), Normal(specifier).up) + Normal(specifier).down
  {
    assert Up(Dirname(from), 0) + [] == Dirname(from);
    NormalResolves(Dirname(from), Walk(0, []), SplitSlash(specifier));
  }

  /** The directory of the copy is new: nothing is at or below it, nor beside it under a name that
      starts with its name; and its name is no part of the specifier. */
  ghost predicate IsFresh(files: Files, isolated: Path) {
    isolated != [] && forall f :: f in files ==> !Beside(isolated, f)
  }

  predicate Beside(isolated: Path, f: Path)
    requires isolated != []
  {
    var n := |isolated| - 1;
    |f| > n && f[..n] == isolated[..n] && isolated[n] <= f[n]
  }

  /** When an import has the same meaning in the copy: it does not step up out of the copied tree,
      and if it comes to the top of that tree, the new directory's name has no extension. */
  predicate KeepsItsMeaning(root: Path, isolated: Path, from: Path, specifier: string)
    requires root < from && isolated != []
  {
    var w, depth := Normal(specifier), |from| - |root| - 1;
    var name := isolated[|isolated| - 1];
    w.up <= depth && (w.up < depth || w.down != [] || StemLength(name) == |name|)
  }

  /** The files there are once the copy is made. */
  ghost predicate Copied(files: Files, found: set<Path>, root: Path, isolated: Path, copied: Files, all: Files) {
    IsFresh(files, isolated) && IsCopy(files, found, root, isolated, copied) && all == files + copied
  }

  lemma {:induction false} BelowIsCopied(files: Files, found: set<Path>, root: Path, isolated: Path, copied: Files,
                                         all: Files, rest: Path)
    requires Copied(files, found, root, isolated, copied, all)
    ensures isolated + rest in all <==> root + rest in found
    ensures root + rest in found ==> rest != [] && all[isolated + rest] == files[root + rest]
  {
    var g, f := isolated + rest, root + rest;
    assert g[|isolated|..] == rest && f[|root|..] == rest;
    assert Beside(isolated, g);
    if f in found {
      assert CopiedAt(files, root, isolated, copied, f);
      assert root < f;
    } else {
      assert !CopyOf(found, root, isolated, g);
    }
  }

  // ---------------------------------------------------------------- imports that stay below

  /** The search below a copied directory goes the way of the search in the original. */
  lemma {:induction false} SameSearch(files: Files, found: set<Path>, root: Path, isolated: Path, copied: Files,
                                      all: Files, dir: Path, names: seq<Path>, to: Path)
    requires Copied(files, found, root, isolated, copied, all)
    requires FirstFile(files, root + dir, names) == Some(to) && to in found
    ensures root < to && FirstFile(all, isolated + dir, names) == Some(Target(root, isolated, to))
  {
    var rest := dir + names[0];
    assert root + dir + names[0] == root + rest && isolated + dir + names[0] == isolated + rest;
    BelowIsCopied(files, found, root, isolated, copied, all, rest);
    if root + rest in files {
      assert to == root + rest && to[|root|..] == rest;
    } else {
      SameSearch(files, found, root, isolated, copied, all, dir, names[1..], to);
    }
  }

  /** The path a walk from a file with `tail` below some top comes to, below that top. */
  function Within(tail: Path, w: Walk): Path
    requires w.up < |tail|
  {
    tail[..|tail| - 1 - w.up] + w.down
  }

  lemma {:induction false} WalkWithin(top: Path, tail: Path, w: Walk)
    requires w.up < |tail|
    ensures Up(Dirname(top + tail), w.up) + w.down == top + Within(tail, w)
  {
    assert Dirname(top + tail) == top + tail[..|tail| - 1];
  }

  /** An import that comes to `rest` below the top of the original comes to `rest` below the copy's. */
  lemma {:induction false} SameRest(files: Files, found: set<Path>, root: Path, isolated: Path, copied: Files,
                                    all: Files, rest: Path, to: Path)
    requires Copied(files, found, root, isolated, copied, all) && rest != [] && to in found
    requires FirstFile(files, Dirname(root + rest), CandidateNames(rest[|rest| - 1])) == Some(to)
    ensures root < to
    ensures FirstFile(all, Dirname(isolated + rest), CandidateNames(rest[|rest| - 1])) ==
              Some(Target(root, isolated, to))
  {
    assert Dirname(root + rest) == root + Dirname(rest) && Dirname(isolated + rest) == isolated + Dirname(rest);
    SameSearch(files, found, root, isolated, copied, all, Dirname(rest), CandidateNames(rest[|rest| - 1]), to);
  }

  lemma {:induction false} StaysBelow(files: Files, found: set<Path>, root: Path, isolated: Path, copied: Files,
                                      all: Files, from: Path, specifier: string, to: Path)
    requires Copied(files, found, root, isolated, copied, all)
    requires from in found && to in found && Resolution(files, from, specifier) == Some(to)
    requires root < from && root < to
    requires var w, depth := Normal(specifier), |from| - |root| - 1; w.up <= depth && (w.up < depth || w.down != [])
    ensures Resolution(all, Target(root, isolated, from), specifier) == Some(Target(root, isolated, to))
  {
    var w, copy := Normal(specifier), Target(root, isolated, from);
    ResolvesTo(from, specifier);
    ResolvesTo(copy, specifier);
    var tail := from[|root|..];
    assert root + tail == from;
    WalkWithin(root, tail, w);
    WalkWithin(isolated, tail, w);
    SameRest(files, found, root, isolated, copied, all, Within(tail, w), to);
  }

  // ---------------------------------------------------------------- imports that come to the top

  lemma {:induction false} FirstFileIsCandidate(files: Files, dir: Path, names: seq<Path>) returns (i: nat)
    requires FirstFile(files, dir, names).Some?
    ensures i < |names| && FirstFile(files, dir, names) == Some(dir + names[i])
  {
    if dir + names[0] in files {
      i := 0;
    } else {
      i := FirstFileIsCandidate(files, dir, names[1..]);
      i := i + 1;
    }
  }

  predicate InPlaceOf(name: string, candidate: Path) {
    || |candidate| == 1
    || (|candidate| == 2 && candidate[0] == name && StemLength(name) == |name|)
  }

  lemma {:induction false} SourceNamesReplace(name: string, exts: seq<string>, i: nat)
    requires i < |SourceNames(name, exts)|
    ensures InPlaceOf(name, SourceNames(name, exts)[i])
  {
    if exts != [] {
      var first := if StemLength(name) < |name| then 1 else 2;
      if i >= first {
        SourceNamesReplace(name, exts[1..], i - first);
      }
    }
  }

  /** What an import leads to has another last name than the path it comes to, or, if that has no
      extension, one name more. */
  lemma {:induction false} FoundInPlace(files: Files, base: Path) returns (candidate: Path)
    requires base != [] && FirstFile(files, Dirname(base), CandidateNames(base[|base| - 1])).Some?
    ensures InPlaceOf(base[|base| - 1], candidate)
    ensures FirstFile(files, Dirname(base), CandidateNames(base[|base| - 1])) == Some(Dirname(base) + candidate)
  {
    var name := base[|base| - 1];
    var i := FirstFileIsCandidate(files, Dirname(base), CandidateNames(name));
    candidate := CandidateNames(name)[i];
    if i > 0 {
      SourceNamesReplace(name, SOURCE_FILE_EXTENSIONS, i - 1);
    }
  }

  lemma {:induction false} NotBeside(files: Files, found: set<Path>, root: Path, isolated: Path, copied: Files,
                                     all: Files, name: string)
    requires Copied(files, found, root, isolated, copied, all)
    requires isolated[|isolated| - 1] <= name
    ensures Dirname(isolated) + [name] !in all
  {
    var g := Dirname(isolated) + [name];
    assert Beside(isolated, g);
    assert !CopyOf(found, root, isolated, g) by {
      if isolated <= g {
        assert g[|isolated|..] == [] && root + [] == root;
      }
    }
  }

  lemma {:induction false} TwoCandidates(files: Files, dir: Path, name: string, exts: seq<string>)
    requires exts != [] && StemLength(name) == |name|
    ensures FirstFile(files, dir, SourceNames(name, exts)) ==
              if dir + [name + exts[0]] in files then Some(dir + [name + exts[0]])
              else if dir + [name, "index" + exts[0]] in files then Some(dir + [name, "index" + exts[0]])
              else FirstFile(files, dir, SourceNames(name, exts[1..]))
  {
    var names := SourceNames(name, exts);
    assert names[1..][1..] == SourceNames(name, exts[1..]);
  }

  lemma {:induction false} InDirectory(dir: Path, name: string)
    requires dir != []
    ensures Dirname(dir) + [dir[|dir| - 1], name] == dir + [name]
    ensures (dir + [name])[|dir|..] == [name]
  {
  }

  lemma {:induction false} SameIndexFile(files: Files, found: set<Path>, root: Path, isolated: Path, copied: Files,
                                         all: Files, exts: seq<string>, to: Path)
    requires Copied(files, found, root, isolated, copied, all) && root != [] && root < to && to in found
    requires StemLength(root[|root| - 1]) == |root[|root| - 1]|
            && StemLength(isolated[|isolated| - 1]) == |isolated[|isolated| - 1]|
    requires FirstFile(files, Dirname(root), SourceNames(root[|root| - 1], exts)) == Some(to)
    ensures FirstFile(all, Dirname(isolated), SourceNames(isolated[|isolated| - 1], exts)) ==
              Some(Target(root, isolated, to))
  {
    var name, newName := root[|root| - 1], isolated[|isolated| - 1];
    var ext := exts[0];
    TwoCandidates(files, Dirname(root), name, exts);
    TwoCandidates(all, Dirname(isolated), newName, exts);
    assert Dirname(root) + [name + ext] !in files;
    NotBeside(files, found, root, isolated, copied, all, newName + ext);
    InDirectory(root, "index" + ext);
    InDirectory(isolated, "index" + ext);
    BelowIsCopied(files, found, root, isolated, copied, all, ["index" + ext]);
    if root + ["index" + ext] !in files {
      SameIndexFile(files, found, root, isolated, copied, all, exts[1..], to);
    }
  }

  lemma {:induction false} ComesToTheTop(files: Files, found: set<Path>, root: Path, isolated: Path, copied: Files,
                                         all: Files, from: Path, specifier: string, to: Path)
    requires Copied(files, found, root, isolated, copied, all)
    requires from in found && to in found && Resolution(files, from, specifier) == Some(to)
    requires root < from && root < to && Normal(specifier) == Walk(|from| - |root| - 1, [])
    ensures Resolution(all, Target(root, isolated, from), specifier) == Some(Target(root, isolated, to)) <==>
              StemLength(isolated[|isolated| - 1]) == |isolated[|isolated| - 1]|
  {
    var w, copy := Normal(specifier), Target(root, isolated, from);
    ResolvesTo(from, specifier);
    ResolvesTo(copy, specifier);
    assert Up(Dirname(from), w.up) + w.down == root;
    assert Up(Dirname(copy), w.up) + w.down == isolated;
    var _ := FoundInPlace(files, root);
    var name, newName := root[|root| - 1], isolated[|isolated| - 1];
    if StemLength(newName) == |newName| {
      assert Dirname(root) + [name] == root;
      NotBeside(files, found, root, isolated, copied, all, newName);
      SameIndexFile(files, found, root, isolated, copied, all, SOURCE_FILE_EXTENSIONS, to);
    } else if Resolution(all, copy, specifier).Some? {
      var _ := FoundInPlace(all, isolated);
    }
  }

  // ---------------------------------------------------------------- imports that step out

  lemma {:induction false} StepsOut(files: Files, found: set<Path>, root: Path, isolated: Path, copied: Files,
                                    all: Files, from: Path, specifier: string, to: Path)
    requires Copied(files, found, root, isolated, copied, all)
    requires root < from && root < to && Normal(specifier).up > |from| - |root| - 1
    requires Resolution(all, Target(root, isolated, from), specifier) == Some(Target(root, isolated, to))
    ensures isolated[|isolated| - 1] in SplitSlash(specifier)
  {
    var w, copy := Normal(specifier), Target(root, isolated, from);
    ResolvesTo(copy, specifier);
    var top := Up(Dirname(copy), w.up);
    assert |top| < |isolated|;
    var candidate := FoundInPlace(all, top + w.down);
    var n := |isolated| - 1;
    var leadsTo := Dirname(top + w.down) + candidate;
    assert leadsTo == Target(root, isolated, to);
    assert leadsTo[n] == isolated[n] && |leadsTo| > n + 1;
    assert w.down != [];
    assert isolated[n] == w.down[n - |top|];
    NormalHasItsParts(Walk(0, []), SplitSlash(specifier), isolated[n]);
  }

  // ---------------------------------------------------------------- the copy means what the original means

  /** An import of a copied file leads to the copy of what it led to if and only if it keeps its
      meaning in the sense above. */
  lemma {:induction false} CopiedImportLeadsToTheCopy(files: Files, found: set<Path>, root: Path, isolated: Path,
                                                      copied: Files, all: Files, from: Path, specifier: string,
                                                      to: Path)
    requires Copied(files, found, root, isolated, copied, all)
    requires from in found && to in found && Resolution(files, from, specifier) == Some(to)
    requires isolated[|isolated| - 1] !in SplitSlash(specifier)
    ensures root < from && root < to
    ensures Resolution(all, Target(root, isolated, from), specifier) == Some(Target(root, isolated, to)) <==>
              KeepsItsMeaning(root, isolated, from, specifier)
  {
    var w, depth := Normal(specifier), |from| - |root| - 1;
    if w.up > depth {
      if Resolution(all, Target(root, isolated, from), specifier) == Some(Target(root, isolated, to)) {
        StepsOut(files, found, root, isolated, copied, all, from, specifier, to);
      }
    } else if w.up < depth || w.down != [] {
      StaysBelow(files, found, root, isolated, copied, all, from, specifier, to);
    } else {
      ComesToTheTop(files, found, root, isolated, copied, all, from, specifier, to);
    }
  }

  /** All imports among the found files keep their meaning. */
  ghost predicate AllKeep(files: Files, found: set<Path>, root: Path, isolated: Path)
    requires found <= files.Keys && AllBelow(found, root) && isolated != []
  {
    forall f, i: nat :: f in found && i < |files[f]| ==> Keeps(files, root, isolated, f, files[f][i])
  }

  predicate Keeps(files: Files, root: Path, isolated: Path, from: Path, specifier: string)
    requires root < from && isolated != []
  {
    IsRelative(specifier) && Resolution(files, from, specifier).Some? ==>
      isolated[|isolated| - 1] !in SplitSlash(specifier) && KeepsItsMeaning(root, isolated, from, specifier)
  }

  /** Whatever the module reaches, the copied module reaches the copy of. */
  lemma {:induction false} CopyReachesCopies(files: Files, found: set<Path>, root: Path, isolated: Path,
                                             copied: Files, all: Files, entry: Path, route: seq<Path>, to: Path)
    requires Copied(files, found, root, isolated, copied, all) && AllKeep(files, found, root, isolated)
    requires forall f :: f in found <==> Reachable(files, entry, f)
    requires IsRoute(files, entry, route, to)
    ensures to in found && entry in found
    ensures Reachable(all, Target(root, isolated, entry), Target(root, isolated, to))
  {
    EntryIsReachable(files, entry);
    assert Reachable(files, entry, to);
    if |route| == 1 {
      EntryIsReachable(all, Target(root, isolated, to));
    } else {
      var n := |route| - 1;
      var from := route[n - 1];
      assert Imports(files, route[n - 1], route[n - 1 + 1]);
      assert IsRoute(files, entry, route[..n], from);
      CopyReachesCopies(files, found, root, isolated, copied, all, entry, route[..n], from);
      CopyImports(files, found, root, isolated, copied, all, from, to);
      OneImportFurther(all, Target(root, isolated, entry), Target(root, isolated, from), Target(root, isolated, to));
    }
  }

  lemma {:induction false} CopyImports(files: Files, found: set<Path>, root: Path, isolated: Path, copied: Files,
                                       all: Files, from: Path, to: Path)
    requires Copied(files, found, root, isolated, copied, all) && AllKeep(files, found, root, isolated)
    requires from in found && to in found && Imports(files, from, to)
    ensures root < from && root < to && Imports(all, Target(root, isolated, from), Target(root, isolated, to))
  {
    var i: nat :| i < |files[from]| && ImportsAt(files, from, to, i);
    assert Keeps(files, root, isolated, from, files[from][i]);
    CopiedImportLeadsToTheCopy(files, found, root, isolated, copied, all, from, files[from][i], to);
    assert CopiedAt(files, root, isolated, copied, from);
    assert ImportsAt(all, Target(root, isolated, from), Target(root, isolated, to), i);
  }

  // ---------------------------------------------------------------- the directory is named after the package

  predicate HasExtension(name: string) {
    StemLength(name) < |name|
  }

  /** `path.basename(p)` */
  function Basename(p: Path): string {
    if p == [] then "" else p[|p| - 1]
  }

  /** The new directory is called like the package, with a dash and random letters and digits. */
  predicate IsNamedAfter(isolated: Path, packageRoot: Path, suffix: string) {
    isolated != [] && isolated[|isolated| - 1] == Basename(packageRoot) + "-" + suffix && '.' !in suffix
  }

  lemma {:induction false} LastDotInFront(name: string, rest: string)
    requires '.' !in rest
    ensures LastDot(name + rest) == LastDot(name)
  {
    if rest != "" {
      assert (name + rest)[..|name + rest| - 1] == name + rest[..|rest| - 1];
      LastDotInFront(name, rest[..|rest| - 1]);
    } else {
      assert name + rest == name;
    }
  }

  lemma {:induction false} SuffixAddsNoExtension(name: string, suffix: string)
    requires '.' !in suffix
    ensures HasExtension(name + "-" + suffix) <==> HasExtension(name)
  {
    assert name + "-" + suffix == name + ("-" + suffix);
    LastDotInFront(name, "-" + suffix);
  }

  predicate ComesToTop(root: Path, from: Path, specifier: string)
    requires root < from
  {
    Normal(specifier) == Walk(|from| - |root| - 1, [])
  }

  /** An import that comes to the top of the copied tree and leads to a file in it: the top's own
      name has no extension. */
  lemma {:induction false} TopHasNoExtension(files: Files, root: Path, from: Path, specifier: string, to: Path)
    requires root < from && root < to && ComesToTop(root, from, specifier)
    requires Resolution(files, from, specifier) == Some(to)
    ensures !HasExtension(Basename(root))
  {
    ResolvesTo(from, specifier);
    assert Up(Dirname(from), Normal(specifier).up) + [] == root;
    var candidate := FoundInPlace(files, root);
  }

  /** So an import within the tree is lost if and only if it comes to the top, the tree starts above
      the package, and the package's name has an extension. */
  lemma {:induction false} LostExactlyWhenPackageHasExtension(files: Files, found: set<Path>, root: Path,
      packageRoot: Path, isolated: Path, suffix: string, copied: Files, all: Files, from: Path, specifier: string,
      to: Path)
    requires Copied(files, found, root, isolated, copied, all)
    requires root <= packageRoot && IsNamedAfter(isolated, packageRoot, suffix)
    requires from in found && to in found && Resolution(files, from, specifier) == Some(to)
    requires isolated[|isolated| - 1] !in SplitSlash(specifier)
    requires root < from && Normal(specifier).up <= |from| - |root| - 1
    ensures root < to
    ensures Resolution(all, Target(root, isolated, from), specifier) != Some(Target(root, isolated, to)) <==>
              ComesToTop(root, from, specifier) && root < packageRoot && HasExtension(Basename(packageRoot))
    ensures ComesToTop(root, from, specifier) ==> !HasExtension(Basename(root))
  {
    CopiedImportLeadsToTheCopy(files, found, root, isolated, copied, all, from, specifier, to);
    SuffixAddsNoExtension(Basename(packageRoot), suffix);
    if ComesToTop(root, from, specifier) {
      TopHasNoExtension(files, root, from, specifier, to);
    }
  }

  // ---------------------------------------------------------------- an import that is lost

  const PACKAGE: Path := ["w", "a.b"]
  const MANIFEST: Path := ["w", "a.b", "package.json"]
  const MAIN: Path := ["w", "a.b", "m.ts"]
  const OUTSIDE: Path := ["w", "x.ts"]
  const INDEX: Path := ["w", "index.ts"]

  /** A package with a dot in its name, whose module imports a file beside the package that imports
      the index of its own directory, as "." */
  const SAMPLE: Files := map[MANIFEST := [], MAIN := ["../x"], OUTSIDE := ["."], INDEX := []]

  lemma {:induction false} SampleHolds()
    ensures SAMPLE[MAIN] == ["../x"] && SAMPLE[OUTSIDE] == ["."]
    ensures MANIFEST == PACKAGE + ["package.json"]
  {
    assert MAIN[2] != MANIFEST[2] by {
      assert |MAIN[2]| == 4 && |MANIFEST[2]| == 12;
    }
    assert OUTSIDE[1] != INDEX[1] by {
      assert |OUTSIDE[1]| == 4 && |INDEX[1]| == 8;
    }
  }

  lemma {:induction false} SampleIsWellFormed()
    ensures FilesAreLeaves(SAMPLE) && forall f :: f in SAMPLE ==> Named(f)
  {
    assert |MAIN[2]| == 4 && |MANIFEST[2]| == 12 && |OUTSIDE[1]| == 4 && |INDEX[1]| == 8 && |MAIN[1]| == 3;
    assert MANIFEST[1] == MAIN[1] && |MAIN[0]| == 1 && MAIN[0][0] == 'w';
  }

  lemma {:induction false} DotIsOnePart()
    ensures SplitSlash(".") == ["."] && Normal(".") == Walk(0, [])
  {
    SplitsAtSlash(".", "");
    assert ["."][1..] == [];
  }

  lemma {:induction false} SplitsAtSlash(name: string, rest: string)
    requires '/' !in name
    ensures SplitSlash(name + "/" + rest) == [name] + SplitSlash(rest)
    ensures SplitSlash(name) == [name]
  {
    var whole := name + "/" + rest;
    if name == "" {
      assert whole[1..] == rest;
    } else {
      assert whole[1..] == name[1..] + "/" + rest && [name[0]] + name[1..] == name;
      SplitsAtSlash(name[1..], rest);
    }
  }

  lemma {:induction false} UpToX()
    ensures SplitSlash("../x") == ["..", "x"]
  {
    SplitsAtSlash("..", "x");
    SplitsAtSlash("x", "");
    assert "../x" == ".." + "/" + "x";
  }

  lemma {:induction false} NoExtensions()
    ensures StemLength("w") == 1 && StemLength("x") == 1
  {
    assert LastDot("w"[..0]) == -1 && LastDot("x"[..0]) == -1;
  }

  lemma {:induction false} PackageHasExtension()
    ensures HasExtension("a.b")
  {
    assert "a.b"[..2] == "a." && LastDot("a.") == 1;
  }

  lemma {:induction false} NotInSample(name: string)
    requires |name| == 1
    ensures ["w"] + [name] !in SAMPLE
  {
    assert (["w"] + [name])[1] == name && |OUTSIDE[1]| == 4 && |INDEX[1]| == 8;
  }

  lemma {:induction false} UpAndDown(a: string, b: string, name: string)
    requires name != "" && name != "." && name != ".."
    ensures ResolveFrom([a, b], ["..", name]) == [a, name]
  {
    assert ["..", name][1..] == [name] && [name][1..] == [] && Dirname([a, b]) == [a];
    assert ResolveFrom([a], [name]) == ResolveFrom([a] + [name], []) == [a, name];
  }

  /** The module leads to the file beside the package ... */
  lemma {:induction false} MainLeadsOutside()
    ensures Resolution(SAMPLE, MAIN, "../x") == Some(OUTSIDE)
  {
    UpToX();
    UpAndDown("w", "a.b", "x");
    assert Dirname(MAIN) == PACKAGE;
    XIsOutside();
    assert Dirname(["w", "x"]) == ["w"];
  }

  lemma {:induction false} XIsOutside()
    ensures FirstFile(SAMPLE, ["w"], CandidateNames("x")) == Some(OUTSIDE)
  {
    NoExtensions();
    NotInSample("x");
    assert "x" + ".ts" == "x.ts";
    FirstIsSource(SAMPLE, ["w"], "x", OUTSIDE);
  }

  lemma {:induction false} FirstIsSource(files: Files, dir: Path, name: string, to: Path)
    requires StemLength(name) == |name| && dir + [name] !in files && to in files && to == dir + [name + ".ts"]
    ensures FirstFile(files, dir, CandidateNames(name)) == Some(to)
  {
    TwoCandidates(files, dir, name, SOURCE_FILE_EXTENSIONS);
    assert CandidateNames(name)[1..] == SourceNames(name, SOURCE_FILE_EXTENSIONS);
  }

  lemma {:induction false} FirstIsIndex(files: Files, dir: Path, name: string, to: Path)
    requires StemLength(name) == |name| && dir + [name] !in files && dir + [name + ".ts"] !in files
    requires to in files && to == dir + [name, "index" + ".ts"]
    ensures FirstFile(files, dir, CandidateNames(name)) == Some(to)
  {
    TwoCandidates(files, dir, name, SOURCE_FILE_EXTENSIONS);
    assert CandidateNames(name)[1..] == SourceNames(name, SOURCE_FILE_EXTENSIONS);
  }

  /** ... and that leads to the index file. */
  lemma {:induction false} DotLeadsToIndex()
    ensures Resolution(SAMPLE, OUTSIDE, ".") == Some(INDEX)
  {
    DotIsOnePart();
    assert ["."][1..] == [];
    assert Dirname(OUTSIDE) == ["w"] && Dirname(["w"]) == [];
    FirstIsIndex(SAMPLE, [], "w", INDEX) by {
      NoExtensions();
      assert "index" + ".ts" == "index.ts";
      assert |[] + ["w"]| == 1 && |[] + ["w" + ".ts"]| == 1;
    }
  }

  lemma {:induction false} SampleIsReached()
    ensures Reachable(SAMPLE, MAIN, OUTSIDE) && Reachable(SAMPLE, MAIN, INDEX)
  {
    SampleHolds();
    MainLeadsOutside();
    DotLeadsToIndex();
    assert ImportsAt(SAMPLE, MAIN, OUTSIDE, 0);
    assert ImportsAt(SAMPLE, OUTSIDE, INDEX, 0);
    EntryIsReachable(SAMPLE, MAIN);
    OneImportFurther(SAMPLE, MAIN, MAIN, OUTSIDE);
    OneImportFurther(SAMPLE, MAIN, OUTSIDE, INDEX);
  }

  /** The package is the innermost directory with a manifest, the copy starts one above it. */
  lemma {:induction false} SampleRoots(packageRoot: Path, isolated: Path, found: set<Path>, c: ModuleCopy)
    requires CopiesGraph(SAMPLE, packageRoot, MAIN, isolated, found, c)
    requires forall n :: |packageRoot| < n < |MAIN| ==> !IsPackage(SAMPLE, MAIN[..n])
    ensures packageRoot == PACKAGE && c.copyRoot == ["w"] && OUTSIDE in found && INDEX in found
  {
    SampleIsReached();
    SampleHolds();
    assert MAIN[..2] == PACKAGE && IsPackage(SAMPLE, PACKAGE);
    assert packageRoot == PACKAGE by {
      assert packageRoot == MAIN[..|packageRoot|];
    }
    forall f | f in found ensures ["w"] <= f {
      assert f in SAMPLE;
    }
    assert IsAround(["w"], PACKAGE, found);
    assert |c.copyRoot| < 2 by {
      assert c.copyRoot < OUTSIDE;
    }
  }

  /** What the copy of that module does, whatever its new directory: that has a dot in its name, and
      the file beside the package no longer finds the index. */
  method CopyOfSampleLosesImport(isolated: Path, suffix: string) returns (c: ModuleCopy)
    requires IsFresh(SAMPLE, isolated) && IsNamedAfter(isolated, PACKAGE, suffix)
    ensures c.copyRoot == ["w"]
    ensures isolated + ["x.ts"] in c.copied && isolated + ["index.ts"] in c.copied
    ensures Resolution(SAMPLE, OUTSIDE, ".") == Some(INDEX)
    ensures Resolution(SAMPLE + c.copied, isolated + ["x.ts"], ".") != Some(isolated + ["index.ts"])
  {
    SampleIsWellFormed();
    SampleHolds();
    var result;
    ghost var packageRoot, found;
    result, packageRoot, found := CopyModuleImportGraph(SAMPLE, MAIN, isolated);
    assert IsPackage(SAMPLE, MAIN[..2]) by {
      assert MAIN[..2] == PACKAGE;
    }
    c := result.value;
    SampleRoots(packageRoot, isolated, found, c);
    SampleLoses(isolated, suffix, found, c.copied);
  }

  lemma {:induction false} SampleLoses(isolated: Path, suffix: string, found: set<Path>, copied: Files)
    requires IsFresh(SAMPLE, isolated) && IsNamedAfter(isolated, PACKAGE, suffix)
    requires IsCopy(SAMPLE, found, ["w"], isolated, copied) && OUTSIDE in found && INDEX in found
    ensures isolated + ["x.ts"] in copied && isolated + ["index.ts"] in copied
    ensures Resolution(SAMPLE, OUTSIDE, ".") == Some(INDEX)
    ensures Resolution(SAMPLE + copied, isolated + ["x.ts"], ".") != Some(isolated + ["index.ts"])
  {
    DotLeadsToIndex();
    DotIsOnePart();
    PackageHasExtension();
    assert Target(["w"], isolated, OUTSIDE) == isolated + ["x.ts"];
    assert Target(["w"], isolated, INDEX) == isolated + ["index.ts"];
    assert CopiedAt(SAMPLE, ["w"], isolated, copied, OUTSIDE) && CopiedAt(SAMPLE, ["w"], isolated, copied, INDEX);
    LostExactlyWhenPackageHasExtension(SAMPLE, found, ["w"], PACKAGE, isolated, suffix, copied, SAMPLE + copied,
                                       OUTSIDE, ".", INDEX);
  }
}

/** The import graph a module copy is made from: `resolveRelativeImportPath` and
    `collectRelativeImportGraph` of scripts/load-channel-config-surface.ts. */
module ImportGraph {
  import opened Options

  /** An absolute path, resolved: its names from the root down. */
  type Path = seq<string>

  /** The regular files there are, each with the import specifiers found in it, in order. */
  type Files = map<Path, seq<string>>

  const SOURCE_FILE_EXTENSIONS := [".ts", ".tsx", ".mts", ".cts", ".js", ".jsx", ".mjs", ".cjs"]

  /** `s.split("/")` */
  function SplitSlash(s: string): (parts: seq<string>)
    ensures |parts| >= 1
  {
    if s == "" then [""]
    else
      var rest := SplitSlash(s[1..]);
      if s[0] == '/' then [""] + rest else [[s[0]] + rest[0]] + rest[1..]
  }

  function Dirname(p: Path): Path {
    if p == [] then [] else p[..|p| - 1]
  }

  /** `path.resolve(dir, parts.join("/"))` for a specifier that does not start with a slash. */
  function ResolveFrom(dir: Path, parts: seq<string>): Path
    decreases |parts|
  {
    if parts == [] then dir
    else if parts[0] == "" || parts[0] == "." then ResolveFrom(dir, parts[1..])
    else if parts[0] == ".." then ResolveFrom(Dirname(dir), parts[1..])
    else ResolveFrom(dir + [parts[0]], parts[1..])
  }

  function LastDot(name: string): int
    ensures -1 <= LastDot(name) < |name|
  {
    if name == "" then -1
    else if name[|name| - 1] == '.' then |name| - 1
    else LastDot(name[..|name| - 1])
  }

  /** Length of `name` without `path.extname(name)`: a dot in front does not count. */
  function StemLength(name: string): (n: nat)
    ensures n <= |name|
  {
    if LastDot(name) <= 0 then |name| else LastDot(name)
  }

  /** The candidates after the path itself, as changes to the last name. */
  function SourceNames(name: string, exts: seq<string>): seq<Path> {
    if exts == [] then []
    else if StemLength(name) < |name|
    then [[name[..StemLength(name)] + exts[0]]] + SourceNames(name, exts[1..])
    else [[name + exts[0]], [name, "index" + exts[0]]] + SourceNames(name, exts[1..])
  }

  /** What can stand in place of the last name of an import. */
  function CandidateNames(name: string): seq<Path> {
    [[name]] + SourceNames(name, SOURCE_FILE_EXTENSIONS)
  }

  /** The first of the candidates below `dir` that is a file. */
  function FirstFile(files: Files, dir: Path, names: seq<Path>): Option<Path> {
    if names == [] then None
    else if dir + names[0] in files then Some(dir + names[0])
    else FirstFile(files, dir, names[1..])
  }

  /** What `specifier` means in the file `from`. An import that resolves to the file system root
      leads to no file. */
  function Resolution(files: Files, from: Path, specifier: string): Option<Path> {
    var base := ResolveFrom(Dirname(from), SplitSlash(specifier));
    if base == [] then None else FirstFile(files, Dirname(base), CandidateNames(base[|base| - 1]))
  }

  // ---------------------------------------------------------------- what is tried, and in which order

  /** The last dot of a name. */
  lemma {:induction false} LastDotIsLast(name: string)
    ensures LastDot(name) >= 0 ==> name[LastDot(name)] == '.'
    ensures forall i :: LastDot(name) < i < |name| ==> name[i] != '.'
  {
    if name != "" && name[|name| - 1] != '.' {
      LastDotIsLast(name[..|name| - 1]);
    }
  }

  /** A name has an extension if and only if there is a dot behind its first letter; it starts at the last one. */
  lemma {:induction false} ExtensionStartsAtLastDot(name: string)
    ensures StemLength(name) < |name| <==> exists i :: 0 < i < |name| && name[i] == '.'
    ensures StemLength(name) < |name| ==>
              && 0 < StemLength(name) && name[StemLength(name)] == '.'
              && forall i :: StemLength(name) < i < |name| ==> name[i] != '.'
  {
    LastDotIsLast(name);
  }

  lemma {:induction false} SourceNamesAt(name: string, exts: seq<string>, i: nat)
    requires i < |exts|
    ensures StemLength(name) < |name| ==>
              |SourceNames(name, exts)| == |exts| && SourceNames(name, exts)[i] == [name[..StemLength(name)] + exts[i]]
    ensures StemLength(name) == |name| ==>
              && |SourceNames(name, exts)| == 2 * |exts|
              && SourceNames(name, exts)[2 * i] == [name + exts[i]]
              && SourceNames(name, exts)[2 * i + 1] == [name, "index" + exts[i]]
  {
    if i > 0 {
      SourceNamesAt(name, exts[1..], i - 1);
    } else if |exts| > 1 {
      SourceNamesAt(name, exts[1..], 0);
    } else {
      assert SourceNames(name, exts[1..]) == [];
    }
  }

  /** The first thing tried for an import is the name as it stands. Then, in the order of the list: if the
      name has an extension, the name with each source extension in place of it; if not, the name with
      each appended, and each time the index file in the directory of that name. Nothing else is tried. */
  lemma {:induction false} CandidatesInOrder(name: string, i: nat)
    requires i < 8
    ensures var ext := [".ts", ".tsx", ".mts", ".cts", ".js", ".jsx", ".mjs", ".cjs"][i];
            && CandidateNames(name)[0] == [name]
            && (if StemLength(name) < |name| then
                  |CandidateNames(name)| == 9 && CandidateNames(name)[1 + i] == [name[..StemLength(name)] + ext]
                else
                  && |CandidateNames(name)| == 17 && CandidateNames(name)[1 + 2 * i] == [name + ext]
                  && CandidateNames(name)[2 + 2 * i] == [name, "index" + ext])
  {
    SourceNamesAt(name, SOURCE_FILE_EXTENSIONS, i);
  }

  /** An import leads to the first of the candidates that is a file. */
  lemma {:induction false} FirstFileIsFirst(files: Files, dir: Path, names: seq<Path>)
    ensures match FirstFile(files, dir, names)
            case None => forall i :: 0 <= i < |names| ==> dir + names[i] !in files
            case Some(f) => exists i :: IsFirstFile(files, dir, names, i) && f == dir + names[i]
  {
    if names != [] && dir + names[0] !in files {
      FirstFileIsFirst(files, dir, names[1..]);
      if FirstFile(files, dir, names[1..]).Some? {
        var i :| IsFirstFile(files, dir, names[1..], i)
                 && FirstFile(files, dir, names[1..]).value == dir + names[1..][i];
        assert IsFirstFile(files, dir, names, i + 1) by {
          assert forall j :: 0 < j < i + 1 ==> names[j] == names[1..][j - 1];
        }
      }
    } else if names != [] {
      assert IsFirstFile(files, dir, names, 0);
    }
  }

  ghost predicate IsFirstFile(files: Files, dir: Path, names: seq<Path>, i: int) {
    0 <= i < |names| && dir + names[i] in files && forall j :: 0 <= j < i ==> dir + names[j] !in files
  }

  /** So an import of "./x.js" finds the source file x.ts beside it, where there is no x.js. */
  lemma {:induction false} ScriptNameFindsSource(files: Files, dir: Path)
    requires dir + ["x.js"] !in files && dir + ["x.ts"] in files
    ensures FirstFile(files, dir, CandidateNames("x.js")) == Some(dir + ["x.ts"])
  {
    assert "x.js"[..2] == "x." && "x.js"[..3] == "x.j";
    assert LastDot("x.") == 1 && LastDot("x.j") == 1 && LastDot("x.js") == 1;
    assert StemLength("x.js") == 1 && "x.js"[..1] == "x";
    CandidatesInOrder("x.js", 0);
    assert "x" + ".ts" == "x.ts";
    var names := CandidateNames("x.js");
    assert names[1..][0] == ["x.ts"];
  }

  predicate IsRelative(specifier: string) {
    specifier != "" && specifier[0] == '.'
  }

  /** `resolveRelativeImportPath(from, specifier)` */
  method ResolveRelativeImportPath(files: Files, from: Path, specifier: string) returns (resolved: Option<Path>)
    ensures resolved == Resolution(files, from, specifier)
  {
    var base := ResolveFrom(Dirname(from), SplitSlash(specifier));
    if base == [] {
      return None;
    }
    var names := CandidateNames(base[|base| - 1]);
    for index := 0 to |names|
      invariant FirstFile(files, Dirname(base), names) == FirstFile(files, Dirname(base), names[index..])
    {
      var candidate := Dirname(base) + names[index];
      if candidate in files {
        return Some(candidate);
      }
    }
    return None;
  }

  // ---------------------------------------------------------------- the graph

  ghost predicate Imports(files: Files, from: Path, to: Path) {
    from in files && exists i :: 0 <= i < |files[from]| && ImportsAt(files, from, to, i)
  }

  predicate ImportsAt(files: Files, from: Path, to: Path, i: nat)
    requires from in files && i < |files[from]|
  {
    IsRelative(files[from][i]) && Resolution(files, from, files[from][i]) == Some(to)
  }

  /** One of the first `n` import specifiers of `from` leads to `to`. */
  predicate ImportsBefore(files: Files, from: Path, to: Path, n: nat)
    requires from in files && n <= |files[from]|
  {
    n > 0 && (ImportsBefore(files, from, to, n - 1) || ImportsAt(files, from, to, n - 1))
  }

  lemma {:induction false} ImportsBeforeIs(files: Files, from: Path, to: Path, n: nat)
    requires from in files && n <= |files[from]|
    ensures ImportsBefore(files, from, to, n) <==> exists i :: 0 <= i < n && ImportsAt(files, from, to, i)
  {
    if n > 0 {
      ImportsBeforeIs(files, from, to, n - 1);
    }
  }

  ghost predicate IsRoute(files: Files, entry: Path, route: seq<Path>, to: Path)
  {
    && route != [] && route[0] == entry && route[|route| - 1] == to
    && forall i :: 0 <= i < |route| - 1 ==> Imports(files, route[i], route[i + 1])
  }

  ghost predicate Reachable(files: Files, entry: Path, to: Path) {
    exists route :: IsRoute(files, entry, route, to)
  }

  lemma {:induction false} EntryIsReachable(files: Files, entry: Path)
    ensures Reachable(files, entry, entry)
  {
    assert IsRoute(files, entry, [entry], entry);
  }

  lemma {:induction false} OneImportFurther(files: Files, entry: Path, from: Path, to: Path)
    requires Reachable(files, entry, from) && Imports(files, from, to)
    ensures Reachable(files, entry, to)
  {
    var route :| IsRoute(files, entry, route, from);
    assert IsRoute(files, entry, route + [to], to);
  }

  /** A set that has the entry and whatever its members import has everything reachable. */
  lemma {:induction false} ClosedHasAll(files: Files, entry: Path, found: set<Path>, route: seq<Path>, to: Path)
    requires entry in found && forall f, t :: f in found && Imports(files, f, t) ==> t in found
    requires IsRoute(files, entry, route, to)
    ensures to in found
  {
    if |route| > 1 {
      var n := |route| - 1;
      assert IsRoute(files, entry, route[..n], route[n - 1]);
      ClosedHasAll(files, entry, found, route[..n], route[n - 1]);
      assert Imports(files, route[n - 1], route[n - 1 + 1]);
    }
  }

  /** What is queued or found is reachable, and what found files import is found or queued. */
  ghost predicate Exploring(files: Files, entry: Path, discovered: set<Path>, queue: seq<Path>) {
    && (entry in discovered || entry in queue)
    && (forall f :: f in discovered || f in queue ==> Reachable(files, entry, f) && (f in files || f == entry))
    && discovered <= files.Keys
    && (forall f, t :: f in discovered && Imports(files, f, t) ==> t in discovered || t in queue)
  }

  lemma {:induction false} FirstFileIsFile(files: Files, dir: Path, names: seq<Path>)
    ensures FirstFile(files, dir, names).Some? ==> FirstFile(files, dir, names).value in files
  {
    if names != [] {
      FirstFileIsFile(files, dir, names[1..]);
    }
  }

  lemma {:induction false} ResolutionIsFile(files: Files, from: Path, specifier: string)
    ensures Resolution(files, from, specifier).Some? ==> Resolution(files, from, specifier).value in files
  {
    var base := ResolveFrom(Dirname(from), SplitSlash(specifier));
    if base != [] {
      FirstFileIsFile(files, Dirname(base), CandidateNames(base[|base| - 1]));
    }
  }

  /** The loop over one file's imports: all it imports goes on the queue. */
  method QueueImports(files: Files, current: Path, queue0: seq<Path>) returns (queue: seq<Path>)
    requires current in files
    ensures forall t :: t in queue <==> t in queue0 || Imports(files, current, t)
  {
    queue := queue0;
    for index := 0 to |files[current]|
      invariant forall t :: t in queue <==> t in queue0 || ImportsBefore(files, current, t, index)
    {
      var specifier := files[current][index];
      if !IsRelative(specifier) {
        continue;
      }
      var resolved := ResolveRelativeImportPath(files, current, specifier);
      if resolved.Some? {
        queue := queue + [resolved.value];
      }
    }
    forall t ensures ImportsBefore(files, current, t, |files[current]|) <==> Imports(files, current, t) {
      ImportsBeforeIs(files, current, t, |files[current]|);
    }
  }

  /** `collectRelativeImportGraph(entry)`. `filesRead` lists the files read, in order; None stands for
      the error of reading an entry that is not there. */
  method CollectRelativeImportGraph(files: Files, entry: Path) returns (result: Option<set<Path>>, filesRead: seq<Path>)
    ensures result.None? <==> entry !in files
    ensures result.Some? ==> forall f :: f in result.value <==> Reachable(files, entry, f)
    ensures result.Some? ==> result.value <= files.Keys
    ensures result.Some? ==> (forall f :: f in filesRead <==> f in result.value)
                             && forall i, j :: 0 <= i < j < |filesRead| ==> filesRead[i] != filesRead[j]
  {
    var discovered: set<Path> := {};
    var queue := [entry];
    filesRead := [];
    EntryIsReachable(files, entry);
    while queue != []
      invariant Exploring(files, entry, discovered, queue)
      invariant entry !in files ==> queue == [entry]
      invariant forall f :: f in filesRead <==> f in discovered
      invariant forall i, j :: 0 <= i < j < |filesRead| ==> filesRead[i] != filesRead[j]
      decreases files.Keys - discovered, |queue|
    {
      var current := queue[|queue| - 1];
      var rest := queue[..|queue| - 1];
      assert queue == rest + [current];
      if current in discovered {
        queue := rest;
        continue;
      }
      if current !in files {
        return None, filesRead;
      }
      queue := QueueImports(files, current, rest);
      StepExplores(files, entry, discovered, rest, current, queue);
      discovered := discovered + {current};
      filesRead := filesRead + [current];
    }
    forall f | Reachable(files, entry, f) ensures f in discovered {
      var route :| IsRoute(files, entry, route, f);
      ClosedHasAll(files, entry, discovered, route, f);
    }
    return Some(discovered), filesRead;
  }

  lemma {:induction false} StepExplores(files: Files, entry: Path, discovered: set<Path>, rest: seq<Path>,
                                        current: Path, queue: seq<Path>)
    requires Exploring(files, entry, discovered, rest + [current]) && current in files
    requires forall t :: t in queue <==> t in rest || Imports(files, current, t)
    ensures Exploring(files, entry, discovered + {current}, queue)
  {
    assert current in rest + [current];
    forall f | f in discovered + {current} || f in queue
      ensures Reachable(files, entry, f) && (f in files || f == entry)
    {
      if f in rest || f in discovered {
        assert f in discovered || f in rest + [current];
      } else if f != current {
        OneImportFurther(files, entry, current, f);
        var i :| 0 <= i < |files[current]| && ImportsAt(files, current, f, i);
        ResolutionIsFile(files, current, files[current][i]);
      }
    }
    forall f, t | f in discovered + {current} && Imports(files, f, t)
      ensures t in discovered + {current} || t in queue
    {
      if f != current {
        assert t in discovered || t in rest + [current];
      }
    }
  }
}

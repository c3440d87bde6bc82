/** The directory a module copy starts at: `resolveCommonAncestor` of
    scripts/load-channel-config-surface.ts. */
module CommonAncestor {
  import opened Options
  import opened ImportGraph

  /** The longest path that both lie at or below. */
  function Shared(a: Path, b: Path): (r: Path)
    ensures r <= a && r <= b
    ensures |r| < |a| && |r| < |b| ==> a[|r|] != b[|r|]
  {
    if a != [] && b != [] && a[0] == b[0] then [a[0]] + Shared(a[1..], b[1..]) else []
  }

  function SharedByAll(paths: seq<Path>): Path
    requires paths != []
  {
    if |paths| == 1 then paths[0] else Shared(SharedByAll(paths[..|paths| - 1]), paths[|paths| - 1])
  }

  lemma {:induction false} SharedIsLongest(a: Path, b: Path, p: Path)
    requires p <= a && p <= b
    ensures p <= Shared(a, b)
  {
    var r := Shared(a, b);
    assert r == a[..|r|] && p == a[..|p|];
  }

  /** SharedByAll is the deepest directory that contains every path. */
  lemma {:induction false} SharedByAllIsDeepest(paths: seq<Path>, p: Path)
    requires paths != []
    ensures p <= SharedByAll(paths) <==> forall i :: 0 <= i < |paths| ==> p <= paths[i]
  {
    if |paths| > 1 {
      var n := |paths| - 1;
      SharedByAllIsDeepest(paths[..n], p);
      if p <= SharedByAll(paths[..n]) && p <= paths[n] {
        SharedIsLongest(SharedByAll(paths[..n]), paths[n], p);
      }
      assert forall i :: 0 <= i < n ==> paths[..n][i] == paths[i];
    }
  }

  /** `path.relative(ancestor, candidate).startsWith("../")`: at least one step up, and something
      after it. */
  predicate ClimbsOut(ancestor: Path, candidate: Path) {
    var up, down := |ancestor| - |Shared(ancestor, candidate)|, |candidate| - |Shared(ancestor, candidate)|;
    up >= 1 && up + down >= 2
  }

  /** Where the inner loop stops. */
  function Climbed(ancestor: Path, candidate: Path): Path {
    if candidate <= ancestor && candidate != ancestor then ancestor[..|candidate| + 1]
    else Shared(ancestor, candidate)
  }

  lemma {:induction false} SharedOfPrefix(a: Path, b: Path, n: nat)
    requires |Shared(a, b)| <= n <= |a|
    ensures Shared(a[..n], b) == Shared(a, b)
  {
    var r, s := Shared(a, b), Shared(a[..n], b);
    SharedIsLongest(a[..n], b, r);
    SharedIsLongest(a, b, s);
  }

  function ClimbedAll(paths: seq<Path>): Path
    requires paths != []
  {
    if |paths| == 1 then paths[0] else Climbed(ClimbedAll(paths[..|paths| - 1]), paths[|paths| - 1])
  }

  /** `resolveCommonAncestor(paths)`; None stands for the error on an empty list. */
  method ResolveCommonAncestor(paths: seq<Path>) returns (result: Option<Path>)
    ensures result == if paths == [] then None else Some(ClimbedAll(paths))
  {
    if paths == [] {
      return None;
    }
    var ancestor := paths[0];
    assert paths[..1] == [paths[0]];
    for index := 1 to |paths|
      invariant ancestor == ClimbedAll(paths[..index])
    {
      var candidate := paths[index];
      ghost var start := ancestor;
      while ClimbsOut(ancestor, candidate)
        invariant |Shared(start, candidate)| <= |ancestor| <= |start| && ancestor == start[..|ancestor|]
        invariant candidate <= start && candidate != start ==> |candidate| < |ancestor|
        decreases |ancestor|
      {
        SharedOfPrefix(start, candidate, |ancestor|);
        if ancestor == [] {
          assert false;  // the file system root never climbs out
        } else {
          ancestor := Dirname(ancestor);
        }
      }
      SharedOfPrefix(start, candidate, |ancestor|);
      ClimbEnds(start, candidate, ancestor);
      assert paths[..index + 1][..index] == paths[..index];
    }
    assert paths[..|paths|] == paths;
    return Some(ancestor);
  }

  lemma {:induction false} ClimbEnds(start: Path, candidate: Path, ancestor: Path)
    requires ancestor <= start && Shared(start, candidate) <= ancestor && !ClimbsOut(ancestor, candidate)
    requires candidate <= start && candidate != start ==> |candidate| < |ancestor|
    ensures ancestor == Climbed(start, candidate)
  {
    SharedOfPrefix(start, candidate, |ancestor|);
    if candidate <= start {
      SharedIsLongest(start, candidate, candidate);
    }
  }

  // ---------------------------------------------------------------- when it is the deepest directory

  /** The one way to go wrong: the deepest directory is itself listed, not in first place, and all
      paths below it, the first one among them, go through one and the same entry of it. */
  ghost predicate IsStuck(paths: seq<Path>)
    requires paths != []
  {
    StuckAt(paths, SharedByAll(paths))
  }

  ghost predicate StuckAt(paths: seq<Path>, shared: Path)
    requires paths != []
  {
    |shared| < |paths[0]| && shared in paths && AllThrough(paths, shared, paths[0][..|shared| + 1])
  }

  ghost predicate AllThrough(paths: seq<Path>, shared: Path, entry: Path) {
    forall i :: 0 <= i < |paths| ==> Through(shared, entry, paths[i])
  }

  predicate Through(shared: Path, entry: Path, p: Path) {
    p == shared || entry <= p
  }

  lemma {:induction false} AllThroughOneMore(paths: seq<Path>, c: Path, shared: Path, entry: Path)
    ensures AllThrough(paths + [c], shared, entry) <==> AllThrough(paths, shared, entry) && Through(shared, entry, c)
  {
    var all := paths + [c];
    assert all[|paths|] == c && forall i :: 0 <= i < |paths| ==> all[i] == paths[i];
  }

  lemma {:induction false} SharedIsShared(paths: seq<Path>, p: Path)
    requires paths != [] && p in paths
    ensures SharedByAll(paths) <= p
  {
    SharedByAllIsDeepest(paths, SharedByAll(paths));
    var i :| 0 <= i < |paths| && paths[i] == p;
  }

  lemma {:induction false} OneMore(paths: seq<Path>, c: Path)
    requires paths != []
    ensures SharedByAll(paths + [c]) == Shared(SharedByAll(paths), c)
    ensures ClimbedAll(paths + [c]) == Climbed(ClimbedAll(paths), c)
    ensures forall p :: p in paths + [c] <==> p in paths || p == c
  {
    assert (paths + [c])[..|paths|] == paths;
  }

  /** A listed directory above all the others gets the search stuck right below it. */
  lemma {:induction false} StuckBelowHigher(paths: seq<Path>, c: Path)
    requires paths != [] && c <= SharedByAll(paths) && c != SharedByAll(paths)
    ensures Shared(SharedByAll(paths), c) == c && StuckAt(paths + [c], c)
  {
    var s := SharedByAll(paths);
    SharedIsLongest(s, c, c);
    OneMore(paths, c);
    SharedIsShared(paths, paths[0]);
    var entry := s[..|c| + 1];
    assert paths[0][..|c| + 1] == entry;
    forall i | 0 <= i < |paths| ensures Through(c, entry, paths[i]) {
      SharedIsShared(paths, paths[i]);
    }
    AllThroughOneMore(paths, c, c, entry);
  }

  /** A path below the deepest directory does not get a free list stuck. */
  lemma {:induction false} FreeStaysFree(paths: seq<Path>, c: Path)
    requires paths != [] && SharedByAll(paths) <= c && !IsStuck(paths)
    ensures !StuckAt(paths + [c], SharedByAll(paths))
  {
    var s := SharedByAll(paths);
    OneMore(paths, c);
    if |s| < |paths[0]| {
      var entry := paths[0][..|s| + 1];
      AllThroughOneMore(paths, c, s, entry);
      SharedByAllIsDeepest(paths, entry);
      var i :| 0 <= i < |paths| && !(entry <= paths[i]);
      assert s !in paths ==> !Through(s, entry, paths[i]);
    }
  }

  /** Neither does one that leads elsewhere. */
  lemma {:induction false} ElsewhereIsFree(paths: seq<Path>, c: Path)
    requires paths != [] && !(SharedByAll(paths) <= c) && !(c <= SharedByAll(paths))
    ensures !StuckAt(paths + [c], Shared(SharedByAll(paths), c))
  {
    var s := SharedByAll(paths);
    var next := Shared(s, c);
    OneMore(paths, c);
    if next in paths {
      SharedIsShared(paths, next);
    }
  }

  /** A stuck list stays stuck as long as paths go through the same entry. */
  lemma {:induction false} StuckStays(paths: seq<Path>, c: Path)
    requires paths != [] && SharedByAll(paths) <= c && IsStuck(paths)
    ensures StuckAt(paths + [c], SharedByAll(paths)) <==>
              Through(SharedByAll(paths), paths[0][..|SharedByAll(paths)| + 1], c)
  {
    AllThroughOneMore(paths, c, SharedByAll(paths), paths[0][..|SharedByAll(paths)| + 1]);
    OneMore(paths, c);
  }

  /** What one more path makes of the deepest directory `s`. */
  function DeeperOr(s: Path, c: Path): Path {
    if c <= s then c else if s <= c then s else Shared(s, c)
  }

  /** What one more path makes of being stuck. */
  predicate StuckWith(first: Path, s: Path, stuck: bool, c: Path) {
    || (c <= s && c != s)
    || (s <= c && stuck && (c == s || (|s| < |first| && first[..|s| + 1] <= c)))
  }

  /** Where the search stands: at the deepest directory, or stuck one name below it. */
  function Standing(first: Path, s: Path, stuck: bool): Path {
    if stuck && |s| < |first| then first[..|s| + 1] else s
  }

  lemma {:induction false} Verdict(paths: seq<Path>, c: Path)
    requires paths != []
    ensures SharedByAll(paths + [c]) == DeeperOr(SharedByAll(paths), c)
    ensures IsStuck(paths + [c]) <==> StuckWith(paths[0], SharedByAll(paths), IsStuck(paths), c)
  {
    var s := SharedByAll(paths);
    OneMore(paths, c);
    SharedIsShared(paths, paths[0]);
    if c <= s && c != s {
      StuckBelowHigher(paths, c);
    } else if s <= c {
      SharedIsLongest(s, c, s);
      if IsStuck(paths) {
        StuckStays(paths, c);
      } else {
        FreeStaysFree(paths, c);
      }
    } else {
      ElsewhereIsFree(paths, c);
    }
  }

  /** Where the search goes from the deepest directory, and from one name below it. */
  lemma {:induction false} ClimbedFrom(s: Path, at: Path, c: Path)
    requires s <= at && |at| == |s| + 1
    ensures Climbed(s, c) == if c <= s && c != s then s[..|c| + 1] else DeeperOr(s, c)
    ensures Climbed(at, c) == if c <= s then at[..|c| + 1] else if at <= c then at else DeeperOr(s, c)
  {
    assert at[..|s|] == s;
    if s <= c {
      SharedIsLongest(s, c, s);
    }
    if at <= c {
      SharedIsLongest(at, c, at);
    } else if !(c <= s) {
      SharedOfPrefix(at, c, |s|);
    }
  }

  /** One more path moves the search from where it stands for the old list to where it stands for
      the new. */
  lemma {:induction false} SearchMoves(first: Path, s: Path, stuck: bool, c: Path)
    requires s <= first && (stuck ==> |s| < |first|)
    ensures StuckWith(first, s, stuck, c) ==> |DeeperOr(s, c)| < |first|
    ensures Climbed(Standing(first, s, stuck), c) == Standing(first, DeeperOr(s, c), StuckWith(first, s, stuck, c))
  {
    if stuck {
      var at := first[..|s| + 1];
      ClimbedFrom(s, at, c);
      if c <= s {
        assert at[..|c| + 1] == first[..|c| + 1];
      }
    } else {
      ClimbedFrom(s, s + [""], c);
      if c <= s && c != s {
        assert s[..|c| + 1] == first[..|c| + 1];
      }
    }
  }

  lemma {:induction false} SearchStands(paths: seq<Path>)
    requires paths != []
    ensures ClimbedAll(paths) == Standing(paths[0], SharedByAll(paths), IsStuck(paths))
  {
    if |paths| > 1 {
      var n := |paths| - 1;
      var before, c := paths[..n], paths[n];
      SearchStands(before);
      assert paths == before + [c];
      SharedIsShared(before, before[0]);
      SearchMoves(before[0], SharedByAll(before), IsStuck(before), c);
      Verdict(before, c);
    }
  }

  /** The computed ancestor is the deepest directory containing every path, if and only if the
      list is not stuck; otherwise it is one name too deep and misses the listed directory. */
  lemma {:induction false} AncestorIsDeepest(paths: seq<Path>)
    requires paths != []
    ensures ClimbedAll(paths) ==
              if IsStuck(paths) then paths[0][..|SharedByAll(paths)| + 1] else SharedByAll(paths)
    ensures ClimbedAll(paths) == SharedByAll(paths) <==> !IsStuck(paths)
  {
    SearchStands(paths);
  }
}

/** Nested translation objects and their dotted keys: `flattenTranslations` and
    `setNestedValue` of scripts/control-ui-i18n.ts, on objects updated in place. */
module TranslationTree {
  import opened JsStrings
  import opened Options

  /** One JavaScript object of a translation map. `path` records where in the tree it hangs. */
  class MapNode {
    var props: map<string, PropValue>
    ghost const path: seq<string>

    constructor (ghost p: seq<string>)
      ensures props == map[] && path == p
    {
      props := map[];
      path := p;
    }
  }

  datatype PropValue = Text(text: string) | Nested(node: MapNode)

  /** A picture of the objects at one moment, and the strings of a tree by path. */
  type Store = map<MapNode, map<string, PropValue>>
  type Leaves = map<seq<string>, string>

  ghost function StoreOf(nodes: set<MapNode>): Store
    reads nodes
  {
    map n | n in nodes :: n.props
  }

  /** Every child is known and hangs where its path says. */
  ghost predicate IsTree(store: Store) {
    forall n, k :: n in store && k in store[n] && store[n][k].Nested? ==>
      store[n][k].node in store && store[n][k].node.path == n.path + [k]
  }

  /** The string found by following property names from `n`. */
  ghost function Lookup(store: Store, n: MapNode, p: seq<string>): Option<string>
    requires IsTree(store) && n in store
    decreases |p|
  {
    if p == [] || p[0] !in store[n] then None
    else match store[n][p[0]]
      case Text(t) => if |p| == 1 then Some(t) else None
      case Nested(child) => Lookup(store, child, p[1..])
  }

  /** The object found by following property names from `n`. */
  ghost function Walk(store: Store, n: MapNode, p: seq<string>): Option<MapNode>
    requires IsTree(store) && n in store
    decreases |p|
  {
    if p == [] then Some(n)
    else if p[0] in store[n] && store[n][p[0]].Nested? then Walk(store, store[n][p[0]].node, p[1..])
    else None
  }

  ghost function LeafAt(leaves: Leaves, p: seq<string>): Option<string> {
    if p in leaves then Some(leaves[p]) else None
  }

  /** The tree under `root` holds exactly the strings `leaves`, each at its path. */
  ghost predicate Represents(store: Store, root: MapNode, leaves: Leaves) {
    && IsTree(store) && root in store && root.path == []
    && forall p :: Lookup(store, root, p) == LeafAt(leaves, p)
  }

  // ---------------------------------------------------------------- setNestedValue

  /** Writing a leaf: whatever sits above or below the path is lost. */
  ghost function Put(leaves: Leaves, p: seq<string>, text: string): Leaves {
    (map q | q in leaves && !(q <= p) && !(p <= q) :: leaves[q])[p := text]
  }

  /** Of the objects there were, nothing but property `key` of `cursor` changed. */
  ghost predicate OnlyChanged(before: Store, after: Store, cursor: MapNode, key: string) {
    && before.Keys <= after.Keys
    && (forall m :: m in before && m != cursor ==> after[m] == before[m])
    && (cursor in before ==> after[cursor] - {key} == before[cursor] - {key})
  }

  /** Assigning one property leaves alone every lookup that does not go through it. */
  lemma {:induction false} LookupElsewhere(before: Store, after: Store, n: MapNode, p: seq<string>,
                                           cursor: MapNode, key: string)
    requires IsTree(before) && IsTree(after) && n in before && OnlyChanged(before, after, cursor, key)
    requires !(cursor.path + [key] <= n.path + p)
    ensures Lookup(after, n, p) == Lookup(before, n, p)
    ensures Walk(after, n, p) == Walk(before, n, p)
    decreases |p|
  {
    if p != [] {
      assert n.path + p == n.path + [p[0]] + p[1..];
      assert p[0] in before[n] - {key} <==> p[0] in before[n] && p[0] != key;
      assert p[0] in after[n] - {key} <==> p[0] in after[n] && p[0] != key;
      if p[0] in before[n] && before[n][p[0]].Nested? {
        LookupElsewhere(before, after, before[n][p[0]].node, p[1..], cursor, key);
      }
    }
  }

  /** A lookup continues from wherever a walk along its first part ended. */
  lemma {:induction false} LookupAfterWalk(store: Store, n: MapNode, p: seq<string>, q: seq<string>, m: MapNode)
    requires IsTree(store) && n in store && Walk(store, n, p) == Some(m)
    ensures m in store && m.path == n.path + p
    ensures Lookup(store, n, p + q) == Lookup(store, m, q) && Walk(store, n, p + q) == Walk(store, m, q)
    decreases |p|
  {
    if p == [] {
      assert p + q == q;
    } else {
      var child := store[n][p[0]].node;
      LookupAfterWalk(store, child, p[1..], q, m);
      assert (p + q)[1..] == p[1..] + q;
      assert p == [p[0]] + p[1..] && n.path + p == (n.path + [p[0]]) + p[1..];
    }
  }

  /** What `root` shows at `p` once the cursor has gone `i` names down: strings on the way
      to the target have disappeared. */
  ghost function Cleared(leaves: Leaves, target: seq<string>, i: nat, p: seq<string>): Option<string> {
    if |p| <= i && p <= target then None else LeafAt(leaves, p)
  }

  ghost predicate AtCursor(store: Store, root: MapNode, leaves: Leaves, target: seq<string>, i: nat,
                           cursor: MapNode)
  {
    && IsTree(store) && root in store && root.path == [] && i <= |target|
    && Walk(store, root, target[..i]) == Some(cursor)
    && cursor in store && cursor.path == target[..i]
    && forall p :: Lookup(store, root, p) == Cleared(leaves, target, i, p)
  }

  /** Every path either continues through the assigned property or is untouched. */
  lemma {:induction false} AssignedLookup(before: Store, after: Store, root: MapNode, w: seq<string>, cursor: MapNode,
                                          key: string, p: seq<string>)
    requires IsTree(before) && IsTree(after) && OnlyChanged(before, after, cursor, key)
    requires root in before && cursor in before && root.path == []
    requires Walk(before, root, w) == Some(cursor)
    ensures Walk(after, root, w) == Some(cursor) && cursor.path == w
    ensures !(w + [key] <= p) ==> Lookup(after, root, p) == Lookup(before, root, p)
    ensures w + [key] <= p ==> Lookup(after, root, p) == Lookup(after, cursor, p[|w|..])
  {
    WalkedPath(before, root, w, cursor);
    ElsewhereFromRoot(before, after, root, w, cursor, key);
    if w + [key] <= p {
      var rest := p[|w|..];
      assert p == w + rest;
      LookupAfterWalk(after, root, w, rest, cursor);
    } else {
      ElsewhereFromRoot(before, after, root, p, cursor, key);
    }
  }

  lemma {:induction false} WalkedPath(store: Store, root: MapNode, w: seq<string>, cursor: MapNode)
    requires IsTree(store) && root in store && root.path == [] && Walk(store, root, w) == Some(cursor)
    ensures cursor.path == w
  {
    LookupAfterWalk(store, root, w, [], cursor);
    assert [] + w == w;
  }

  lemma {:induction false} ElsewhereFromRoot(before: Store, after: Store, root: MapNode, p: seq<string>,
                                             cursor: MapNode, key: string)
    requires IsTree(before) && IsTree(after) && root in before && OnlyChanged(before, after, cursor, key)
    requires root.path == [] && !(cursor.path + [key] <= p)
    ensures Lookup(after, root, p) == Lookup(before, root, p)
    ensures Walk(after, root, p) == Walk(before, root, p)
  {
    assert [] + p == p;
    LookupElsewhere(before, after, root, p, cursor, key);
  }

  /** The cursor moves into an object that is already there. */
  lemma {:induction false} StepInto(store: Store, root: MapNode, leaves: Leaves, target: seq<string>, i: nat,
                                    cursor: MapNode)
    requires AtCursor(store, root, leaves, target, i, cursor) && i < |target|
    requires target[i] in store[cursor] && store[cursor][target[i]].Nested?
    ensures AtCursor(store, root, leaves, target, i + 1, store[cursor][target[i]].node)
    ensures target[..i + 1] !in leaves
  {
    var t := target[..i + 1];
    assert t == target[..i] + [target[i]];
    LookupAfterWalk(store, root, target[..i], [target[i]], cursor);
    assert Lookup(store, root, t) == None == Cleared(leaves, target, i, t);
    forall p ensures Lookup(store, root, p) == Cleared(leaves, target, i + 1, p) {
      assert Lookup(store, root, p) == Cleared(leaves, target, i, p);
      if |p| == i + 1 && p <= target {
        assert p == t;
      }
    }
  }

  /** `after` is `before` with a new, empty object at `key` of the cursor, where there was nothing
      or a string. */
  ghost predicate PutsNew(before: Store, after: Store, cursor: MapNode, key: string, next: MapNode) {
    && cursor in before && (key in before[cursor] ==> before[cursor][key].Text?)
    && next !in before && next.path == cursor.path + [key]
    && after == before[cursor := before[cursor][key := Nested(next)]][next := map[]]
  }

  lemma {:induction false} NewIsTree(before: Store, after: Store, cursor: MapNode, key: string, next: MapNode)
    requires IsTree(before) && PutsNew(before, after, cursor, key, next)
    ensures IsTree(after) && OnlyChanged(before, after, cursor, key)
  {
  }

  /** What is seen at one path once the new object is there. */
  lemma {:induction false} NewLookup(before: Store, after: Store, root: MapNode, leaves: Leaves, target: seq<string>,
                                     i: nat, cursor: MapNode, next: MapNode, p: seq<string>)
    requires AtCursor(before, root, leaves, target, i, cursor) && i < |target|
    requires PutsNew(before, after, cursor, target[i], next) && IsTree(after)
    ensures Lookup(after, root, p) == Cleared(leaves, target, i + 1, p)
  {
    var w, key, t := target[..i], target[i], target[..i + 1];
    assert t == w + [key];
    assert Lookup(before, root, p) == Cleared(leaves, target, i, p);
    AssignedLookup(before, after, root, w, cursor, key, p);
    if t <= p {
      assert p[|w|..][0] == key;
      StringBlocks(before, root, w, cursor, key, p);
    }
  }

  /** The cursor moves into a new object put in place of nothing or of a string. */
  lemma {:induction false} StepIntoNew(before: Store, after: Store, root: MapNode, leaves: Leaves, target: seq<string>,
                                       i: nat, cursor: MapNode, next: MapNode)
    requires AtCursor(before, root, leaves, target, i, cursor) && i < |target|
    requires PutsNew(before, after, cursor, target[i], next)
    ensures AtCursor(after, root, leaves, target, i + 1, next)
    ensures target[..i + 1] in leaves <==> target[i] in before[cursor]
  {
    var w, key, t := target[..i], target[i], target[..i + 1];
    assert t == w + [key];
    NewIsTree(before, after, cursor, key, next);
    AssignedLookup(before, after, root, w, cursor, key, t);
    LookupAfterWalk(after, root, w, [key], cursor);
    assert ([key])[1..] == [];
    forall p ensures Lookup(after, root, p) == Cleared(leaves, target, i + 1, p) {
      NewLookup(before, after, root, leaves, target, i, cursor, next, p);
    }
    LookupAfterWalk(before, root, w, [key], cursor);
    assert Lookup(before, root, t) == Cleared(leaves, target, i, t);
  }

  /** Nothing hangs below a missing property or a string. */
  lemma {:induction false} StringBlocks(store: Store, root: MapNode, w: seq<string>, cursor: MapNode, key: string,
                                        p: seq<string>)
    requires IsTree(store) && root in store && Walk(store, root, w) == Some(cursor)
    requires w + [key] <= p
    ensures cursor in store
    ensures (key in store[cursor] ==> store[cursor][key].Text?) && p != w + [key] ==> Lookup(store, root, p) == None
  {
    assert p == w + p[|w|..];
    LookupAfterWalk(store, root, w, p[|w|..], cursor);
    assert p[|w|..][0] == p[|w|];
    if |p[|w|..]| == 1 {
      assert p == w + [key];
    }
  }

  lemma {:induction false} WrittenLookup(before: Store, after: Store, root: MapNode, leaves: Leaves,
                                         target: seq<string>, cursor: MapNode, text: string, p: seq<string>)
    requires |target| >= 1 && AtCursor(before, root, leaves, target, |target| - 1, cursor)
    requires IsTree(after) && OnlyChanged(before, after, cursor, target[|target| - 1])
    requires target[|target| - 1] in after[cursor] && after[cursor][target[|target| - 1]] == Text(text)
    ensures Lookup(after, root, p) == LeafAt(Put(leaves, target, text), p)
  {
    var w, key := target[..|target| - 1], target[|target| - 1];
    assert target == w + [key];
    assert Lookup(before, root, p) == Cleared(leaves, target, |w|, p);
    AssignedLookup(before, after, root, w, cursor, key, p);
    if target <= p {
      assert p[|w|..][0] == key;
      if |p| == |target| {
        assert p == target;
      } else {
        StringBlocks(after, root, w, cursor, key, p);
      }
    } else if p <= target {
      assert |p| <= |w|;
    }
  }

  /** Assigning the last name of the path writes exactly that leaf. */
  lemma {:induction false} WriteLeaf(before: Store, after: Store, root: MapNode, leaves: Leaves, target: seq<string>,
                  cursor: MapNode, text: string)
    requires |target| >= 1 && AtCursor(before, root, leaves, target, |target| - 1, cursor)
    requires after == before[cursor := before[cursor][target[|target| - 1] := Text(text)]]
    ensures Represents(after, root, Put(leaves, target, text))
  {
    assert IsTree(after);
    forall p ensures Lookup(after, root, p) == LeafAt(Put(leaves, target, text), p) {
      WrittenLookup(before, after, root, leaves, target, cursor, text, p);
    }
  }

  /** One turn of the loop in `setNestedValue`: `cursor` moves to the object at `parts[index]`,
      which is created when there is nothing, or a string, in its place. */
  method StepDown(cursor: MapNode, parts: seq<string>, index: nat, ghost root: MapNode,
                  ghost nodes: set<MapNode>, ghost leaves: Leaves)
    returns (next: MapNode, ghost nodes': set<MapNode>, ghost overwrote: bool)
    requires index < |parts| && AtCursor(StoreOf(nodes), root, leaves, parts, index, cursor)
    modifies nodes
    ensures nodes <= nodes' && fresh(nodes' - nodes)
    ensures AtCursor(StoreOf(nodes'), root, leaves, parts, index + 1, next)
    ensures overwrote <==> parts[..index + 1] in leaves
  {
    var key := parts[index];
    ghost var before: Store := StoreOf(nodes);
    if key in cursor.props && cursor.props[key].Nested? {
      next, nodes', overwrote := cursor.props[key].node, nodes, false;
      StepInto(before, root, leaves, parts, index, cursor);
    } else {
      overwrote := key in cursor.props;
      var replacement := new MapNode(parts[..index] + [key]);
      cursor.props := cursor.props[key := Nested(replacement)];
      next, nodes' := replacement, nodes + {replacement};
      ghost var after: Store := StoreOf(nodes');
      assert after == before[cursor := before[cursor][key := Nested(replacement)]][replacement := map[]];
      StepIntoNew(before, after, root, leaves, parts, index, cursor, replacement);
    }
  }

  /** A string sits on one of the first `n` prefixes of the path. */
  ghost predicate StringOnTheWay(leaves: Leaves, p: seq<string>, n: nat)
    requires n <= |p|
  {
    n > 0 && (StringOnTheWay(leaves, p, n - 1) || p[..n] in leaves)
  }

  lemma {:induction false} StringOnTheWayIs(leaves: Leaves, p: seq<string>, n: nat)
    requires n <= |p|
    ensures StringOnTheWay(leaves, p, n) <==> exists j :: 0 < j <= n && p[..j] in leaves
  {
    if n > 0 {
      StringOnTheWayIs(leaves, p, n - 1);
    }
  }

  /** The assignment at the end of `setNestedValue`. */
  method WriteLast(cursor: MapNode, parts: seq<string>, text: string, ghost root: MapNode,
                   ghost nodes: set<MapNode>, ghost leaves: Leaves)
    requires |parts| >= 1 && AtCursor(StoreOf(nodes), root, leaves, parts, |parts| - 1, cursor)
    modifies nodes
    ensures Represents(StoreOf(nodes), root, Put(leaves, parts, text))
  {
    ghost var before: Store := StoreOf(nodes);
    cursor.props := cursor.props[parts[|parts| - 1] := Text(text)];
    WriteLeaf(before, StoreOf(nodes), root, leaves, parts, cursor, text);
  }

  /** The loop of `setNestedValue` and the assignment behind it, for the key's parts. */
  method SetAt(root: MapNode, parts: seq<string>, text: string, ghost nodes: set<MapNode>, ghost leaves: Leaves)
    returns (ghost nodes': set<MapNode>, ghost overwrote: bool)
    requires |parts| >= 1 && Represents(StoreOf(nodes), root, leaves)
    modifies nodes
    ensures nodes <= nodes' && fresh(nodes' - nodes)
    ensures Represents(StoreOf(nodes'), root, Put(leaves, parts, text))
    ensures overwrote <==> StringOnTheWay(leaves, parts, |parts| - 1)
  {
    var cursor := root;
    var index := 0;
    nodes', overwrote := nodes, false;
    while index < |parts| - 1
      invariant 0 <= index <= |parts| - 1
      invariant nodes <= nodes' && fresh(nodes' - nodes)
      invariant AtCursor(StoreOf(nodes'), root, leaves, parts, index, cursor)
      invariant overwrote <==> StringOnTheWay(leaves, parts, index)
    {
      ghost var here: bool;
      cursor, nodes', here := StepDown(cursor, parts, index, root, nodes', leaves);
      overwrote := overwrote || here;
      index := index + 1;
    }
    WriteLast(cursor, parts, text, root, nodes', leaves);
  }

  /** `setNestedValue(root, dottedKey, text)`. `overwrote` says whether some string on the way
      was replaced by an object. */
  method SetNestedValue(root: MapNode, dottedKey: string, text: string,
                        ghost nodes: set<MapNode>, ghost leaves: Leaves)
    returns (ghost nodes': set<MapNode>, ghost overwrote: bool)
    requires Represents(StoreOf(nodes), root, leaves)
    modifies nodes
    ensures nodes <= nodes' && fresh(nodes' - nodes)
    ensures Represents(StoreOf(nodes'), root, Put(leaves, Split(dottedKey), text))
    ensures overwrote <==> StringOnTheWay(leaves, Split(dottedKey), |Split(dottedKey)| - 1)
  {
    var parts := Split(dottedKey);
    nodes', overwrote := SetAt(root, parts, text, nodes, leaves);
  }

  // ---------------------------------------------------------------- flattenTranslations

  function ExtendPrefix(prefix: string, name: string): string {
    if prefix != "" then prefix + "." + name else name
  }

  /** The dotted key `flattenTranslations` builds on its way down a path. */
  function FlatKey(prefix: string, p: seq<string>): string
    decreases |p|
  {
    if p == [] then prefix else FlatKey(ExtendPrefix(prefix, p[0]), p[1..])
  }

  /** `text` sits below `n`, behind one of the properties `names`, and flattens to `key`. */
  ghost predicate Hit(store: Store, n: MapNode, names: set<string>, prefix: string, key: string, text: string)
    requires IsTree(store) && n in store
  {
    exists p :: HitAt(store, n, names, prefix, key, text, p)
  }

  ghost predicate HitAt(store: Store, n: MapNode, names: set<string>, prefix: string, key: string, text: string,
                        p: seq<string>)
    requires IsTree(store) && n in store
  {
    p != [] && p[0] in names && FlatKey(prefix, p) == key && Lookup(store, n, p) == Some(text)
  }

  /** `out` is `out0` with the strings behind `names` entered under their flat keys; when
      several share a key, one of them stands there. */
  ghost predicate Entered(store: Store, n: MapNode, names: set<string>, prefix: string,
                          out0: map<string, string>, out: map<string, string>)
    requires IsTree(store) && n in store
  {
    && out0.Keys <= out.Keys
    && (forall key, text :: Hit(store, n, names, prefix, key, text) ==>
          key in out && Hit(store, n, names, prefix, key, out[key]))
    && (forall key :: key in out ==>
          Hit(store, n, names, prefix, key, out[key]) || (key in out0 && out[key] == out0[key]))
  }

  /** What one more property contributes. */
  lemma {:induction false} HitMore(store: Store, n: MapNode, names: set<string>, name: string, prefix: string,
                key: string, text: string)
    requires IsTree(store) && n in store && name in store[n] && name !in names
    ensures Hit(store, n, names + {name}, prefix, key, text) <==>
              || Hit(store, n, names, prefix, key, text)
              || match store[n][name]
                 case Text(t) => key == ExtendPrefix(prefix, name) && t == text
                 case Nested(c) => Hit(store, c, store[c].Keys, ExtendPrefix(prefix, name), key, text)
  {
    if p :| HitAt(store, n, names + {name}, prefix, key, text, p) {
      if p[0] == name {
        if store[n][name].Nested? {
          var c := store[n][name].node;
          assert Lookup(store, c, p[1..]) == Some(text);
          assert p[1..] != [] && p[1..][0] in store[c].Keys;
          assert HitAt(store, c, store[c].Keys, ExtendPrefix(prefix, name), key, text, p[1..]);
        } else {
          assert p[1..] == [] && FlatKey(prefix, p) == FlatKey(ExtendPrefix(prefix, name), []);
        }
      } else {
        assert HitAt(store, n, names, prefix, key, text, p);
      }
    }
    if p :| HitAt(store, n, names, prefix, key, text, p) {
      assert HitAt(store, n, names + {name}, prefix, key, text, p);
    }
    match store[n][name]
    case Text(t) =>
      assert [name][0] == name && [name][1..] == [] && Lookup(store, n, [name]) == Some(t);
      assert FlatKey(prefix, [name]) == ExtendPrefix(prefix, name);
      if key == ExtendPrefix(prefix, name) && t == text {
        assert HitAt(store, n, names + {name}, prefix, key, text, [name]);
      }
    case Nested(c) =>
      if p :| HitAt(store, c, store[c].Keys, ExtendPrefix(prefix, name), key, text, p) {
        assert ([name] + p)[1..] == p;
        assert HitAt(store, n, names + {name}, prefix, key, text, [name] + p);
      }
  }

  lemma {:induction false} EnterText(store: Store, n: MapNode, names: set<string>, name: string, prefix: string,
                  out0: map<string, string>, out: map<string, string>)
    requires IsTree(store) && n in store && name in store[n] && name !in names && store[n][name].Text?
    requires Entered(store, n, names, prefix, out0, out)
    ensures Entered(store, n, names + {name}, prefix, out0, out[ExtendPrefix(prefix, name) := store[n][name].text])
  {
    forall key, text
      ensures Hit(store, n, names + {name}, prefix, key, text) <==>
                || Hit(store, n, names, prefix, key, text)
                || (key == ExtendPrefix(prefix, name) && store[n][name].text == text)
    {
      HitMore(store, n, names, name, prefix, key, text);
    }
  }

  lemma {:induction false} EnterNested(store: Store, n: MapNode, names: set<string>, name: string, prefix: string,
                    out0: map<string, string>, out: map<string, string>, out': map<string, string>)
    requires IsTree(store) && n in store && name in store[n] && name !in names && store[n][name].Nested?
    requires Entered(store, n, names, prefix, out0, out)
    requires var c := store[n][name].node;
             Entered(store, c, store[c].Keys, ExtendPrefix(prefix, name), out, out')
    ensures Entered(store, n, names + {name}, prefix, out0, out')
  {
    var c := store[n][name].node;
    forall key, text
      ensures Hit(store, n, names + {name}, prefix, key, text) <==>
                || Hit(store, n, names, prefix, key, text)
                || Hit(store, c, store[c].Keys, ExtendPrefix(prefix, name), key, text)
    {
      HitMore(store, n, names, name, prefix, key, text);
    }
  }

  /** The objects at or below `n`. */
  ghost function Below(nodes: set<MapNode>, n: MapNode): set<MapNode> {
    set m | m in nodes && n.path <= m.path
  }

  /** `flattenTranslations(value, prefix, out)`, with the properties in any order. */
  method FlattenTranslations(value: MapNode, prefix: string, out0: map<string, string>, ghost nodes: set<MapNode>)
    returns (out: map<string, string>)
    requires IsTree(StoreOf(nodes)) && value in nodes
    ensures Entered(StoreOf(nodes), value, value.props.Keys, prefix, out0, out)
    decreases Below(nodes, value)
  {
    out := out0;
    var todo := value.props.Keys;
    ghost var store: Store := StoreOf(nodes);
    while todo != {}
      invariant todo <= value.props.Keys
      invariant Entered(store, value, value.props.Keys - todo, prefix, out0, out)
      decreases todo
    {
      var name :| name in todo;
      ghost var done := value.props.Keys - todo;
      assert value.props.Keys - (todo - {name}) == done + {name};
      match value.props[name] {
      case Text(text) =>
        EnterText(store, value, done, name, prefix, out0, out);
        out := out[ExtendPrefix(prefix, name) := text];
      case Nested(child) =>
        assert store[value][name].node == child;
        assert child.path == value.path + [name] && value.path <= child.path && |child.path| > |value.path|;
        assert value in Below(nodes, value) && value !in Below(nodes, child);
        assert Below(nodes, child) <= Below(nodes, value);
        ghost var before := out;
        out := FlattenTranslations(child, ExtendPrefix(prefix, name), out, nodes);
        EnterNested(store, value, done, name, prefix, out0, before, out);
      }
      todo := todo - {name};
    }
    assert value.props.Keys - todo == value.props.Keys;
  }

  /** `flattenTranslations(root)` on a tree that holds `leaves`. */
  ghost predicate IsFlattening(leaves: Leaves, out: map<string, string>) {
    && (forall p :: p in leaves ==> FlatKey("", p) in out)
    && (forall key :: key in out ==> exists p :: p in leaves && FlatKey("", p) == key && leaves[p] == out[key])
  }

  lemma {:induction false} EnteredIsFlattening(store: Store, root: MapNode, leaves: Leaves, out: map<string, string>)
    requires Represents(store, root, leaves)
    requires Entered(store, root, store[root].Keys, "", map[], out)
    ensures IsFlattening(leaves, out)
  {
    forall p | p in leaves ensures FlatKey("", p) in out {
      assert Lookup(store, root, p) == LeafAt(leaves, p);
      assert HitAt(store, root, store[root].Keys, "", FlatKey("", p), leaves[p], p);
      assert Hit(store, root, store[root].Keys, "", FlatKey("", p), leaves[p]);
    }
    forall key | key in out
      ensures exists p :: p in leaves && FlatKey("", p) == key && leaves[p] == out[key]
    {
      var p :| HitAt(store, root, store[root].Keys, "", key, out[key], p);
      assert Lookup(store, root, p) == LeafAt(leaves, p);
    }
  }

  // ---------------------------------------------------------------- rebuilding

  /** The leaves left after `setNestedValue` ran for each key in turn. */
  ghost function Rebuild(keys: seq<string>, values: map<string, string>): Leaves
    requires forall k :: k in keys ==> k in values
  {
    if keys == [] then map[]
    else
      var last := keys[|keys| - 1];
      Put(Rebuild(keys[..|keys| - 1], values), Split(last), values[last])
  }

  /** How many of the keys make `setNestedValue` replace a string on its way. */
  ghost function Overwrites(keys: seq<string>, values: map<string, string>): nat
    requires forall k :: k in keys ==> k in values
  {
    if keys == [] then 0
    else
      var n := |keys| - 1;
      Overwrites(keys[..n], values) +
      if StringOnTheWay(Rebuild(keys[..n], values), Split(keys[n]), |Split(keys[n])| - 1) then 1 else 0
  }

  /** What one more key comes to. */
  lemma {:induction false} RebuildOneMore(keys: seq<string>, n: nat, values: map<string, string>)
    requires n < |keys| && forall k :: k in keys ==> k in values
    ensures Rebuild(keys[..n + 1], values) == Put(Rebuild(keys[..n], values), Split(keys[n]), values[keys[n]])
    ensures Overwrites(keys[..n + 1], values) == Overwrites(keys[..n], values) +
              if StringOnTheWay(Rebuild(keys[..n], values), Split(keys[n]), |Split(keys[n])| - 1) then 1 else 0
  {
    assert keys[..n + 1][..n] == keys[..n];
  }

  /** One turn of the loop that builds `nextMap`. */
  method RebuildOne(root: MapNode, keys: seq<string>, index: nat, values: map<string, string>,
                    ghost nodes: set<MapNode>)
    returns (ghost nodes': set<MapNode>, ghost overwrote: bool)
    requires index < |keys| && forall k :: k in keys ==> k in values
    requires Represents(StoreOf(nodes), root, Rebuild(keys[..index], values))
    modifies nodes
    ensures nodes <= nodes' && fresh(nodes' - nodes)
    ensures Represents(StoreOf(nodes'), root, Rebuild(keys[..index + 1], values))
    ensures Overwrites(keys[..index + 1], values) == Overwrites(keys[..index], values) + if overwrote then 1 else 0
  {
    RebuildOneMore(keys, index, values);
    nodes', overwrote := SetNestedValue(root, keys[index], values[keys[index]], nodes, Rebuild(keys[..index], values));
  }

  /** The loop that builds `nextMap`. `overwrites` counts the strings lost to objects on the way. */
  method RebuildTranslations(keys: seq<string>, values: map<string, string>)
    returns (root: MapNode, ghost nodes: set<MapNode>, ghost overwrites: nat)
    requires forall k :: k in keys ==> k in values
    ensures fresh(nodes) && Represents(StoreOf(nodes), root, Rebuild(keys, values))
    ensures overwrites == Overwrites(keys, values)
  {
    root := new MapNode([]);
    nodes, overwrites := {root}, 0;
    for index := 0 to |keys|
      invariant fresh(nodes) && Represents(StoreOf(nodes), root, Rebuild(keys[..index], values))
      invariant overwrites == Overwrites(keys[..index], values)
    {
      ghost var overwrote: bool;
      nodes, overwrote := RebuildOne(root, keys, index, values, nodes);
      overwrites := overwrites + if overwrote then 1 else 0;
    }
    assert keys[..|keys|] == keys;
  }

  /** No key starts with a dot, and no key's path leads through another key. */
  ghost predicate Rebuildable(keys: seq<string>) {
    && (forall i :: 0 <= i < |keys| ==> !StartsWith(keys[i], "."))
    && (forall i, j :: 0 <= i < |keys| && 0 <= j < |keys| && i != j ==> !(Split(keys[i]) <= Split(keys[j])))
  }

  /** Every leaf of a rebuilt tree comes from some key. */
  lemma {:induction false} LeafHasAKey(keys: seq<string>, values: map<string, string>, p: seq<string>)
    returns (i: nat)
    requires forall k :: k in keys ==> k in values
    requires p in Rebuild(keys, values)
    ensures i < |keys| && p == Split(keys[i]) && Rebuild(keys, values)[p] == values[keys[i]]
  {
    i := |keys| - 1;
    if p != Split(keys[i]) {
      i := LeafHasAKey(keys[..i], values, p);
    }
  }

  lemma {:induction false} LeavesDoNotNest(keys: seq<string>, values: map<string, string>, p: seq<string>,
                                           q: seq<string>)
    requires forall k :: k in keys ==> k in values
    requires p in Rebuild(keys, values) && q in Rebuild(keys, values) && p <= q
    ensures p == q
  {
    var last := keys[|keys| - 1];
    if p != Split(last) && q != Split(last) {
      LeavesDoNotNest(keys[..|keys| - 1], values, p, q);
    }
  }

  lemma {:induction false} NothingInTheWay(keys: seq<string>, index: nat, values: map<string, string>)
    requires forall k :: k in keys ==> k in values
    requires index < |keys| && Rebuildable(keys)
    ensures !StringOnTheWay(Rebuild(keys[..index], values), Split(keys[index]), |Split(keys[index])| - 1)
  {
    var target := Split(keys[index]);
    StringOnTheWayIs(Rebuild(keys[..index], values), target, |target| - 1);
    forall j | 0 < j < |target| ensures target[..j] !in Rebuild(keys[..index], values) {
      if target[..j] in Rebuild(keys[..index], values) {
        var i := LeafHasAKey(keys[..index], values, target[..j]);
      }
    }
  }

  /** The branch of `setNestedValue` that replaces a string is never taken for such keys. */
  lemma {:induction false} NothingOverwritten(keys: seq<string>, values: map<string, string>)
    requires Rebuildable(keys) && forall k :: k in keys ==> k in values
    ensures Overwrites(keys, values) == 0
  {
    if keys != [] {
      var n := |keys| - 1;
      NothingOverwritten(keys[..n], values);
      NothingInTheWay(keys, n, values);
    }
  }

  // ---------------------------------------------------------------- the round trip

  lemma {:induction false} FlatKeyJoins(prefix: string, p: seq<string>)
    requires prefix != ""
    ensures FlatKey(prefix, p) == if p == [] then prefix else prefix + "." + JoinDots(p)
    decreases |p|
  {
    if p != [] {
      FlatKeyJoins(prefix + "." + p[0], p[1..]);
    }
  }

  lemma {:induction false} FlatKeyHasNoLeadingDot(p: seq<string>)
    requires DotFree(p)
    ensures !StartsWith(FlatKey("", p), ".")
    decreases |p|
  {
    if p != [] {
      if p[0] == "" {
        FlatKeyHasNoLeadingDot(p[1..]);
      } else {
        FlatKeyJoins(p[0], p[1..]);
        assert p[0][0] in p[0];
      }
    }
  }

  /** Splitting a key and flattening the path gives the key back, unless a dot leads. */
  lemma {:induction false} FlatKeyOfSplit(key: string)
    ensures FlatKey("", Split(key)) == key <==> !StartsWith(key, ".")
  {
    var parts := Split(key);
    JoinSplit(key);
    FlatKeyHasNoLeadingDot(parts);
    if !StartsWith(key, ".") {
      if key == "" {
        assert parts == [""] && parts[1..] == [];
        assert FlatKey("", parts) == FlatKey("", []);
      } else {
        assert parts[0] != "";
        FlatKeyJoins(parts[0], parts[1..]);
      }
    }
  }

  lemma {:induction false} RebuildKeeps(keys: seq<string>, values: map<string, string>, i: nat)
    requires forall k :: k in keys ==> k in values
    requires Rebuildable(keys) && i < |keys|
    ensures Split(keys[i]) in Rebuild(keys, values) && Rebuild(keys, values)[Split(keys[i])] == values[keys[i]]
  {
    var n := |keys| - 1;
    if i < n {
      RebuildKeeps(keys[..n], values, i);
      assert !(Split(keys[i]) <= Split(keys[n])) && !(Split(keys[n]) <= Split(keys[i]));
    }
  }

  ghost predicate Distinct(keys: seq<string>) {
    forall i, j :: 0 <= i < j < |keys| ==> keys[i] != keys[j]
  }

  /** `out` holds exactly the given keys with their values. */
  ghost predicate ComesBack(keys: seq<string>, values: map<string, string>, out: map<string, string>) {
    && (forall i :: 0 <= i < |keys| ==> keys[i] in values && keys[i] in out && out[keys[i]] == values[keys[i]])
    && (forall key :: key in out ==> key in keys)
  }

  lemma {:induction false} RebuildableComesBack(keys: seq<string>, values: map<string, string>,
                                                out: map<string, string>)
    requires forall k :: k in keys ==> k in values
    requires IsFlattening(Rebuild(keys, values), out) && Rebuildable(keys)
    ensures ComesBack(keys, values, out)
  {
    var leaves := Rebuild(keys, values);
    forall i | 0 <= i < |keys| ensures keys[i] in out {
      RebuildKeeps(keys, values, i);
      FlatKeyOfSplit(keys[i]);
    }
    forall key | key in out ensures key in keys && out[key] == values[key] {
      var p :| p in leaves && FlatKey("", p) == key && leaves[p] == out[key];
      var i := LeafHasAKey(keys, values, p);
      FlatKeyOfSplit(keys[i]);
    }
  }

  /** Rebuildable keys and values are the flattening of what is rebuilt from them. */
  lemma {:induction false} RebuildableFlattens(keys: seq<string>, values: map<string, string>)
    requires Rebuildable(keys) && forall k :: k in keys <==> k in values
    ensures IsFlattening(Rebuild(keys, values), values)
  {
    var leaves := Rebuild(keys, values);
    forall p | p in leaves ensures FlatKey("", p) in values {
      var i := LeafHasAKey(keys, values, p);
      FlatKeyOfSplit(keys[i]);
    }
    forall key | key in values ensures exists p :: p in leaves && FlatKey("", p) == key && leaves[p] == values[key] {
      var i :| 0 <= i < |keys| && keys[i] == key;
      RebuildKeeps(keys, values, i);
      FlatKeyOfSplit(key);
    }
  }

  lemma {:induction false} ComingBackIsRebuildable(keys: seq<string>, values: map<string, string>,
                                                   out: map<string, string>)
    requires Distinct(keys) && forall k :: k in keys ==> k in values
    requires IsFlattening(Rebuild(keys, values), out) && ComesBack(keys, values, out)
    ensures Rebuildable(keys)
  {
    forall i | 0 <= i < |keys| ensures !StartsWith(keys[i], ".") {
      SurvivorIsALeaf(keys, values, out, i);
    }
    forall i, j | 0 <= i < |keys| && 0 <= j < |keys| && i != j
      ensures !(Split(keys[i]) <= Split(keys[j]))
    {
      SurvivorIsALeaf(keys, values, out, i);
      SurvivorIsALeaf(keys, values, out, j);
      JoinSplit(keys[i]);
      JoinSplit(keys[j]);
      if Split(keys[i]) <= Split(keys[j]) {
        LeavesDoNotNest(keys, values, Split(keys[i]), Split(keys[j]));
      }
    }
  }

  /** Rebuilding from keys and flattening again gives exactly the key-to-value map back, if and
      only if no key starts with a dot or runs through another key. The order in which the keys
      are set, and in which properties are listed, plays no part. */
  lemma {:induction false} RoundTrip(keys: seq<string>, values: map<string, string>, out: map<string, string>)
    requires Distinct(keys) && forall k :: k in keys ==> k in values
    requires IsFlattening(Rebuild(keys, values), out)
    ensures ComesBack(keys, values, out) <==> Rebuildable(keys)
  {
    if Rebuildable(keys) {
      RebuildableComesBack(keys, values, out);
    }
    if ComesBack(keys, values, out) {
      ComingBackIsRebuildable(keys, values, out);
    }
  }

  /** A key that comes back from flattening has no leading dot and still sits at its own path. */
  lemma {:induction false} SurvivorIsALeaf(keys: seq<string>, values: map<string, string>, out: map<string, string>,
                                           i: nat)
    requires i < |keys| && forall k :: k in keys ==> k in values
    requires IsFlattening(Rebuild(keys, values), out) && ComesBack(keys, values, out)
    ensures !StartsWith(keys[i], ".") && Split(keys[i]) in Rebuild(keys, values)
  {
    var leaves := Rebuild(keys, values);
    var p :| p in leaves && FlatKey("", p) == keys[i] && leaves[p] == out[keys[i]];
    var j := LeafHasAKey(keys, values, p);
    JoinSplit(keys[j]);
    FlatKeyHasNoLeadingDot(p);
    FlatKeyOfSplit(keys[j]);
    if StartsWith(keys[j], ".") {
      // keys[j] itself has to come back, but no flattened key starts with a dot
      var q :| q in leaves && FlatKey("", q) == keys[j] && leaves[q] == out[keys[j]];
      var l := LeafHasAKey(keys, values, q);
      JoinSplit(keys[l]);
      FlatKeyHasNoLeadingDot(q);
    }
  }

  /** Build the next translation map from `values` and read it back. */
  method RebuildAndFlatten(keys: seq<string>, values: map<string, string>) returns (out: map<string, string>)
    requires Distinct(keys) && forall k :: k in keys ==> k in values
    ensures IsFlattening(Rebuild(keys, values), out)
    ensures ComesBack(keys, values, out) <==> Rebuildable(keys)
  {
    ghost var nodes, overwrites;
    var root;
    root, nodes, overwrites := RebuildTranslations(keys, values);
    out := FlattenTranslations(root, "", map[], nodes);
    EnteredIsFlattening(StoreOf(nodes), root, Rebuild(keys, values), out);
    RoundTrip(keys, values, out);
  }

  // ---------------------------------------------------------------- source trees

  /** Every property name of the tree is non-empty and has no dot. */
  ghost predicate PlainNames(store: Store) {
    forall n, k :: n in store && k in store[n] ==> PlainName(k)
  }

  predicate PlainName(name: string) {
    name != "" && '.' !in name
  }

  predicate PlainPath(p: seq<string>) {
    forall i :: 0 <= i < |p| ==> PlainName(p[i])
  }

  lemma {:induction false} LookupShape(store: Store, n: MapNode, p: seq<string>)
    requires IsTree(store) && n in store && Lookup(store, n, p).Some?
    ensures p != []
    ensures PlainNames(store) ==> PlainPath(p)
    decreases |p|
  {
    if store[n][p[0]].Nested? {
      LookupShape(store, store[n][p[0]].node, p[1..]);
    }
    forall i | 0 <= i < |p| && PlainNames(store) ensures PlainName(p[i]) {
      if i > 0 {
        assert p[i] == p[1..][i - 1];
      }
    }
  }

  lemma {:induction false} NothingBelowALeaf(store: Store, n: MapNode, p: seq<string>, q: seq<string>)
    requires IsTree(store) && n in store && Lookup(store, n, p).Some?
    requires p <= q && p != q
    ensures Lookup(store, n, q) == None
    decreases |p|
  {
    if store[n][p[0]].Nested? {
      NothingBelowALeaf(store, store[n][p[0]].node, p[1..], q[1..]);
    }
  }

  lemma {:induction false} PlainPathSplits(p: seq<string>)
    requires p != [] && PlainPath(p)
    ensures !StartsWith(FlatKey("", p), ".") && Split(FlatKey("", p)) == p
  {
    FlatKeyHasNoLeadingDot(p);
    FlatKeyJoins(p[0], p[1..]);
    assert FlatKey("", p) == JoinDots(p);
    SplitJoin(p);
  }

  lemma {:induction false} SourceKeyPath(store: Store, root: MapNode, leaves: Leaves, source: map<string, string>,
                                         key: string)
    requires Represents(store, root, leaves) && PlainNames(store) && IsFlattening(leaves, source)
    requires key in source
    ensures !StartsWith(key, ".") && Lookup(store, root, Split(key)).Some? && FlatKey("", Split(key)) == key
  {
    var p :| p in leaves && FlatKey("", p) == key;
    assert Lookup(store, root, p) == LeafAt(leaves, p);
    LookupShape(store, root, p);
    PlainPathSplits(p);
  }

  /** The flattened keys of a tree with plain names can be rebuilt without loss. */
  lemma {:induction false} SourceKeysRebuildable(store: Store, root: MapNode, leaves: Leaves,
                                                 source: map<string, string>, keys: seq<string>)
    requires Represents(store, root, leaves) && PlainNames(store) && IsFlattening(leaves, source)
    requires Distinct(keys) && forall i :: 0 <= i < |keys| ==> keys[i] in source
    ensures Rebuildable(keys)
  {
    forall i | 0 <= i < |keys| ensures !StartsWith(keys[i], ".") {
      SourceKeyPath(store, root, leaves, source, keys[i]);
    }
    forall i, j | 0 <= i < |keys| && 0 <= j < |keys| && i != j
      ensures !(Split(keys[i]) <= Split(keys[j]))
    {
      SourceKeyPath(store, root, leaves, source, keys[i]);
      SourceKeyPath(store, root, leaves, source, keys[j]);
      if Split(keys[i]) <= Split(keys[j]) {
        NothingBelowALeaf(store, root, Split(keys[i]), Split(keys[j]));
      }
    }
  }

  /** Source trees with plain names survive translation: set every flattened key to any new
      value, in any order, flatten again, and exactly those values come back. */
  lemma {:induction false} SourceRoundTrip(store: Store, root: MapNode, leaves: Leaves, source: map<string, string>,
                        keys: seq<string>, values: map<string, string>, out: map<string, string>)
    requires Represents(store, root, leaves) && PlainNames(store) && IsFlattening(leaves, source)
    requires Distinct(keys) && forall i :: 0 <= i < |keys| ==> keys[i] in source && keys[i] in values
    requires IsFlattening(Rebuild(keys, values), out)
    ensures ComesBack(keys, values, out)
  {
    SourceKeysRebuildable(store, root, leaves, source, keys);
    RoundTrip(keys, values, out);
  }

  /** A concrete loss: a name with a dot in it, next to the object it seems to run through. */
  lemma {:induction false} DottedNameLosesAKey(out: map<string, string>)
    requires IsFlattening(Rebuild(["a", "a.b"], map["a" := "x", "a.b" := "y"]), out)
    ensures !ComesBack(["a", "a.b"], map["a" := "x", "a.b" := "y"], out)
  {
    var keys := ["a", "a.b"];
    SplitDotFree("a");
    SplitDotFree("b");
    SplitPrefixDot("a", "b");
    assert "a" + "." + "b" == "a.b";
    assert Split(keys[0]) <= Split(keys[1]);
    RoundTrip(keys, map["a" := "x", "a.b" := "y"], out);
  }
}

/** JSON configuration as the objects it is at run time, and `mergeMissing` as it updates them in
    place: extensions/amazon-bedrock/config-compat.ts, and the same helper in
    extensions/elevenlabs/config-compat.ts. */
module ConfigObjects {
  import opened JsonMerge

  class JsonObject {
    var props: map<string, Slot>

    constructor (p: map<string, Slot>)
      ensures props == p
    {
      props := p;
    }
  }

  datatype Slot = Undef | Prim(text: string) | Ref(obj: JsonObject)

  /** A picture of some objects at one moment. */
  type Store = map<JsonObject, map<string, Slot>>

  ghost function StoreOf(nodes: set<JsonObject>): Store
    reads nodes
  {
    map o | o in nodes :: o.props
  }

  /** The graph below `o` unfolds to the record `j`; in particular it has no cycles. */
  ghost predicate Denotes(store: Store, o: JsonObject, j: Json)
    decreases j, 0
  {
    && j.Record? && o in store && store[o].Keys == j.fields.Keys
    && forall key :: key in j.fields ==> SlotDenotes(store, store[o][key], j.fields[key])
  }

  ghost predicate SlotDenotes(store: Store, slot: Slot, j: Json)
    decreases j, 1
  {
    match slot
    case Undef => j == Undefined
    case Prim(text) => j == Leaf(text)
    case Ref(obj) => Denotes(store, obj, j)
  }

  /** All objects of the graph. */
  ghost function Reach(store: Store, o: JsonObject, j: Json): set<JsonObject>
    requires Denotes(store, o, j)
    decreases j, 0
  {
    {o} + set key, x | key in j.fields && x in SlotReach(store, store[o][key], j.fields[key]) :: x
  }

  ghost function SlotReach(store: Store, slot: Slot, j: Json): set<JsonObject>
    requires SlotDenotes(store, slot, j)
    decreases j, 1
  {
    if slot.Ref? then Reach(store, slot.obj, j) else {}
  }

  /** No object of the graph can be reached in two ways. */
  ghost predicate NoSharing(store: Store, o: JsonObject, j: Json)
    requires Denotes(store, o, j)
    decreases j, 0
  {
    && (forall key :: key in j.fields ==>
          o !in SlotReach(store, store[o][key], j.fields[key]) && SlotNoSharing(store, store[o][key], j.fields[key]))
    && (forall k, l :: k in j.fields && l in j.fields && k != l ==>
          SlotReach(store, store[o][k], j.fields[k]) !! SlotReach(store, store[o][l], j.fields[l]))
  }

  ghost predicate SlotNoSharing(store: Store, slot: Slot, j: Json)
    requires SlotDenotes(store, slot, j)
    decreases j, 1
  {
    slot.Ref? ==> NoSharing(store, slot.obj, j)
  }

  ghost predicate SameOn(a: Store, b: Store, nodes: set<JsonObject>) {
    forall x :: x in nodes && x in a ==> x in b && b[x] == a[x]
  }

  /** A graph none of whose objects changed is the same graph. */
  lemma {:induction false} SameGraph(a: Store, b: Store, o: JsonObject, j: Json)
    requires Denotes(a, o, j) && SameOn(a, b, Reach(a, o, j))
    ensures Denotes(b, o, j) && Reach(b, o, j) == Reach(a, o, j)
    ensures NoSharing(a, o, j) ==> NoSharing(b, o, j)
    decreases j, 0
  {
    forall key | key in j.fields
      ensures SlotDenotes(b, b[o][key], j.fields[key])
      ensures SlotReach(b, b[o][key], j.fields[key]) == SlotReach(a, a[o][key], j.fields[key])
      ensures SlotNoSharing(a, a[o][key], j.fields[key]) ==> SlotNoSharing(b, b[o][key], j.fields[key])
    {
      SlotInReach(a, o, j, key);
      SameSlot(a, b, a[o][key], j.fields[key]);
    }
  }

  lemma {:induction false} SlotInReach(store: Store, o: JsonObject, j: Json, key: string)
    requires Denotes(store, o, j) && key in j.fields
    ensures SlotReach(store, store[o][key], j.fields[key]) <= Reach(store, o, j)
  {
  }

  lemma {:induction false} SameSlot(a: Store, b: Store, slot: Slot, j: Json)
    requires SlotDenotes(a, slot, j) && SameOn(a, b, SlotReach(a, slot, j))
    ensures SlotDenotes(b, slot, j) && SlotReach(b, slot, j) == SlotReach(a, slot, j)
    ensures SlotNoSharing(a, slot, j) ==> SlotNoSharing(b, slot, j)
    decreases j, 1
  {
    if slot.Ref? {
      SameGraph(a, b, slot.obj, j);
    }
  }

  // ---------------------------------------------------------------- mergeMissing

  /** `o[key]` */
  function SlotAt(props: map<string, Slot>, key: string): Slot {
    if key in props then props[key] else Undef
  }

  lemma {:induction false} SlotAtDenotes(store: Store, o: JsonObject, j: Json, key: string)
    requires Denotes(store, o, j)
    ensures SlotDenotes(store, SlotAt(store[o], key), Get(j, key))
    ensures SlotReach(store, SlotAt(store[o], key), Get(j, key)) <= Reach(store, o, j)
    ensures NoSharing(store, o, j) ==>
              o !in SlotReach(store, SlotAt(store[o], key), Get(j, key))
              && SlotNoSharing(store, SlotAt(store[o], key), Get(j, key))
  {
  }

  /** Two graphs about to be merged: the target is a tree, and they have no object in common. */
  ghost predicate Mergeable(store: Store, target: JsonObject, source: JsonObject, tj: Json, sj: Json) {
    && Denotes(store, target, tj) && Denotes(store, source, sj)
    && NoSharing(store, target, tj)
    && Reach(store, target, tj) !! Reach(store, source, sj)
  }

  /** Where the merged field may lead: below the old field, or below the source's. */
  ghost function Domain(store: Store, target: JsonObject, source: JsonObject, tj: Json, sj: Json,
                        key: string): set<JsonObject>
    requires Mergeable(store, target, source, tj, sj)
  {
    SlotAtDenotes(store, target, tj, key);
    SlotAtDenotes(store, source, sj, key);
    SlotReach(store, SlotAt(store[target], key), Get(tj, key)) +
              SlotReach(store, SlotAt(store[source], key), Get(sj, key))
  }

  ghost predicate Untouched(was: Store, store: Store, target: JsonObject, tj: Json, key: string)
    requires Denotes(was, target, tj)
  {
    SlotAtDenotes(was, target, tj, key);
    && target in store && (key in store[target] <==> key in was[target])
    && SlotAt(store[target], key) == SlotAt(was[target], key)
    && SameOn(was, store, SlotReach(was, SlotAt(was[target], key), Get(tj, key)))
  }

  ghost predicate IsMerged(was: Store, store: Store, target: JsonObject, source: JsonObject, tj: Json, sj: Json,
                           key: string)
    requires Mergeable(was, target, source, tj, sj)
  {
    && target in store && (key in store[target] <==> key in FillMissing(tj, sj).fields)
    && SlotDenotes(store, SlotAt(store[target], key), FilledField(tj, sj, key))
    && SlotReach(store, SlotAt(store[target], key), FilledField(tj, sj, key)) <=
              Domain(was, target, source, tj, sj, key)
    && (SlotAt(was[target], key) != Undef ==> SlotAt(store[target], key) == SlotAt(was[target], key))
  }

  lemma {:induction false} DomainsApart(store: Store, target: JsonObject, source: JsonObject, tj: Json, sj: Json,
                                        k: string, l: string)
    requires Mergeable(store, target, source, tj, sj) && k != l
    ensures SlotDenotes(store, SlotAt(store[target], k), Get(tj, k))
    ensures SlotReach(store, SlotAt(store[target], k), Get(tj, k)) !! Domain(store, target, source, tj, sj, l)
    ensures target !in Domain(store, target, source, tj, sj, l)
  {
    SlotAtDenotes(store, target, tj, k);
    SlotAtDenotes(store, target, tj, l);
    SlotAtDenotes(store, source, sj, l);
  }

  /** A field the source has nothing for is merged as it stands. */
  lemma {:induction false} NothingToMerge(was: Store, store: Store, target: JsonObject, source: JsonObject, tj: Json,
                                          sj: Json, key: string)
    requires Mergeable(was, target, source, tj, sj)
    requires Untouched(was, store, target, tj, key)
    requires FilledField(tj, sj, key) == Get(tj, key) && (key in FillMissing(tj, sj).fields <==> key in tj.fields)
    ensures IsMerged(was, store, target, source, tj, sj, key)
  {
    SlotAtDenotes(was, target, tj, key);
    SameSlot(was, store, SlotAt(was[target], key), Get(tj, key));
  }

  /** A missing field that is assigned the source's value is merged. */
  lemma {:induction false} AssignedIsMerged(was: Store, store: Store, after: Store, target: JsonObject,
                                            source: JsonObject, tj: Json, sj: Json, key: string)
    requires Mergeable(was, target, source, tj, sj) && key in sj.fields && Get(tj, key) == Undefined
    requires SlotAt(was[target], key) == Undef && sj.fields[key] != Undefined && !IsBlockedObjectKey(key)
    requires SlotDenotes(store, was[source][key], sj.fields[key])
    requires SlotReach(store, was[source][key], sj.fields[key]) <= SlotReach(was, was[source][key], sj.fields[key])
    requires target !in SlotReach(store, was[source][key], sj.fields[key])
    requires target in store && after == store[target := store[target][key := was[source][key]]]
    ensures IsMerged(was, after, target, source, tj, sj, key)
  {
    SlotAtDenotes(was, source, sj, key);
    SameSlot(store, after, was[source][key], sj.fields[key]);
  }

  /** A field whose record took in the source's record is merged. */
  lemma {:induction false} RecursedIsMerged(was: Store, before: Store, after: Store, target: JsonObject,
                                            source: JsonObject, tj: Json, sj: Json, key: string)
    requires Mergeable(was, target, source, tj, sj) && Untouched(was, before, target, tj, key) && key in sj.fields
    requires SlotAt(was[target], key).Ref? && was[source][key].Ref? && !IsBlockedObjectKey(key)
    requires target in after && after[target] == before[target] && Get(tj, key).Record? && sj.fields[key].Record?
    requires SlotDenotes(after, SlotAt(was[target], key), FillMissing(Get(tj, key), sj.fields[key]))
    requires SlotReach(after, SlotAt(was[target], key), FillMissing(Get(tj, key), sj.fields[key]))
               <= Domain(was, target, source, tj, sj, key)
    ensures IsMerged(was, after, target, source, tj, sj, key)
  {
    SlotAtDenotes(was, target, tj, key);
    SlotAtDenotes(was, source, sj, key);
  }

  /** Work on one field leaves the others as they are. */
  lemma {:induction false} OthersStay(was: Store, before: Store, after: Store, target: JsonObject, source: JsonObject,
                   tj: Json, sj: Json, key: string)
    requires Mergeable(was, target, source, tj, sj) && target in before && target in after
    requires SlotAt(after[target], key) == SlotAt(before[target], key)
            && (key in after[target] <==> key in before[target])
    requires SameOn(before, after, Domain(was, target, source, tj, sj, key))
    ensures IsMerged(was, before, target, source, tj, sj, key) ==> IsMerged(was, after, target, source, tj, sj, key)
    ensures Untouched(was, before, target, tj, key) ==> Untouched(was, after, target, tj, key)
  {
    SlotAtDenotes(was, target, tj, key);
    if IsMerged(was, before, target, source, tj, sj, key) {
      SameSlot(before, after, SlotAt(before[target], key), FilledField(tj, sj, key));
    }
  }

  /** When every field is merged, so is the record. */
  lemma {:induction false} AllMerged(was: Store, store: Store, target: JsonObject, source: JsonObject, tj: Json,
                                     sj: Json)
    requires Mergeable(was, target, source, tj, sj) && target in store
    requires forall key :: IsMerged(was, store, target, source, tj, sj, key)
    ensures Denotes(store, target, FillMissing(tj, sj))
    ensures Reach(store, target, FillMissing(tj, sj)) <= Reach(was, target, tj) + Reach(was, source, sj)
  {
    var filled := FillMissing(tj, sj);
    forall key ensures key in store[target] <==> key in filled.fields {
      assert IsMerged(was, store, target, source, tj, sj, key);
    }
    forall key | key in filled.fields
      ensures SlotDenotes(store, store[target][key], filled.fields[key])
      ensures SlotReach(store, store[target][key], filled.fields[key]) <=
                Reach(was, target, tj) + Reach(was, source, sj)
    {
      assert IsMerged(was, store, target, source, tj, sj, key);
      SlotAtDenotes(was, target, tj, key);
      SlotAtDenotes(was, source, sj, key);
    }
  }

  /** One turn of the loop in `mergeMissing`. */
  method MergeField(target: JsonObject, source: JsonObject, key: string,
                    ghost nodes: set<JsonObject>, ghost was: Store, ghost tj: Json, ghost sj: Json)
    requires was.Keys == nodes && Mergeable(was, target, source, tj, sj) && key in sj.fields
    requires Untouched(was, StoreOf(nodes), target, tj, key)
    requires SameOn(was, StoreOf(nodes), Reach(was, source, sj))
    requires SlotDenotes(was, SlotAt(was[target], key), Get(tj, key))
    modifies {target} + SlotReach(was, SlotAt(was[target], key), Get(tj, key))
    ensures IsMerged(was, StoreOf(nodes), target, source, tj, sj, key)
    ensures forall l :: l != key ==> SlotAt(target.props, l) == old(SlotAt(target.props, l))
                                     && (l in target.props <==> l in old(target.props))
    decreases sj, 0
  {
    ghost var before := StoreOf(nodes);
    SlotAtDenotes(was, target, tj, key);
    SlotAtDenotes(was, source, sj, key);
    SlotInReach(was, source, sj, key);
    assert source.props == was[source];
    var value := source.props[key];
    SameSlot(was, before, value, sj.fields[key]);
    SameSlot(was, before, SlotAt(was[target], key), Get(tj, key));
    if value == Undef || IsBlockedObjectKey(key) {
      NothingToMerge(was, before, target, source, tj, sj, key);
      return;
    }
    var existing := SlotAt(target.props, key);
    if existing == Undef {
      target.props := target.props[key := value];
      AssignedIsMerged(was, before, StoreOf(nodes), target, source, tj, sj, key);
      return;
    }
    if existing.Ref? && value.Ref? {
      MergeMissing(existing.obj, value.obj, nodes, Get(tj, key), sj.fields[key]);
      RecursedIsMerged(was, before, StoreOf(nodes), target, source, tj, sj, key);
    } else {
      NothingToMerge(was, before, target, source, tj, sj, key);
    }
  }

  /** The loop of `mergeMissing`: the fields `todo` are as they were, the others are merged, and the
      source is as it was. */
  ghost predicate MergedBut(was: Store, store: Store, target: JsonObject, source: JsonObject, tj: Json, sj: Json,
                            todo: set<string>)
    requires Mergeable(was, target, source, tj, sj)
  {
    && (forall key :: key in todo ==> Untouched(was, store, target, tj, key))
    && (forall key :: key !in todo ==> IsMerged(was, store, target, source, tj, sj, key))
    && SameOn(was, store, Reach(was, source, sj))
  }

  lemma {:induction false} NothingMergedYet(was: Store, target: JsonObject, source: JsonObject, tj: Json, sj: Json)
    requires Mergeable(was, target, source, tj, sj)
    ensures MergedBut(was, was, target, source, tj, sj, sj.fields.Keys)
  {
    forall key | key !in sj.fields ensures IsMerged(was, was, target, source, tj, sj, key) {
      NothingToMerge(was, was, target, source, tj, sj, key);
    }
  }

  lemma {:induction false} OneMoreMerged(was: Store, before: Store, after: Store, target: JsonObject,
                                         source: JsonObject, tj: Json, sj: Json, key: string, todo: set<string>)
    requires Mergeable(was, target, source, tj, sj) && MergedBut(was, before, target, source, tj, sj, todo)
    requires SlotDenotes(was, SlotAt(was[target], key), Get(tj, key))
    requires target in before && before.Keys == after.Keys
    requires forall x :: x in before && x != target && x !in SlotReach(was, SlotAt(was[target], key), Get(tj, key)) ==>
               after[x] == before[x]
    requires forall l :: l != key ==> SlotAt(after[target], l) == SlotAt(before[target], l)
                                      && (l in after[target] <==> l in before[target])
    requires IsMerged(was, after, target, source, tj, sj, key)
    ensures MergedBut(was, after, target, source, tj, sj, todo - {key})
  {
    forall l | l != key
      ensures IsMerged(was, before, target, source, tj, sj, l) ==> IsMerged(was, after, target, source, tj, sj, l)
      ensures Untouched(was, before, target, tj, l) ==> Untouched(was, after, target, tj, l)
    {
      DomainsApart(was, target, source, tj, sj, key, l);
      OthersStay(was, before, after, target, source, tj, sj, l);
    }
    SlotAtDenotes(was, target, tj, key);
    assert SameOn(before, after, Reach(was, source, sj));
  }

  /** `mergeMissing(target, source)`. Only objects of the target's own graph are written to. */
  method MergeMissing(target: JsonObject, source: JsonObject,
                      ghost nodes: set<JsonObject>, ghost tj: Json, ghost sj: Json)
    requires Mergeable(StoreOf(nodes), target, source, tj, sj)
    modifies Reach(StoreOf(nodes), target, tj)
    ensures Denotes(StoreOf(nodes), target, FillMissing(tj, sj))
    ensures Reach(StoreOf(nodes), target, FillMissing(tj, sj))
              <= old(Reach(StoreOf(nodes), target, tj)) + old(Reach(StoreOf(nodes), source, sj))
    ensures forall key :: SlotAt(old(target.props), key) != Undef ==>
              SlotAt(target.props, key) == SlotAt(old(target.props), key)
    decreases sj, 1
  {
    ghost var was: Store := StoreOf(nodes);
    var todo := source.props.Keys;
    NothingMergedYet(was, target, source, tj, sj);
    while todo != {}
      invariant todo <= sj.fields.Keys
      invariant MergedBut(was, StoreOf(nodes), target, source, tj, sj, todo)
      decreases todo
    {
      var key :| key in todo;
      ghost var before := StoreOf(nodes);
      SlotAtDenotes(was, target, tj, key);
      MergeField(target, source, key, nodes, was, tj, sj);
      OneMoreMerged(was, before, StoreOf(nodes), target, source, tj, sj, key, todo);
      todo := todo - {key};
    }
    AllMerged(was, StoreOf(nodes), target, source, tj, sj);
  }

  // ---------------------------------------------------------------- structuredClone

  /** Some fields have been copied, each into objects of its own. */
  ghost predicate Copied(store: Store, props: map<string, Slot>, j: Json, news: set<JsonObject>) {
    && j.Record? && props.Keys <= j.fields.Keys
    && (forall key :: key in props ==>
          SlotDenotes(store, props[key], j.fields[key]) && SlotNoSharing(store, props[key], j.fields[key])
          && SlotReach(store, props[key], j.fields[key]) <= news)
    && (forall k, l :: k in props && l in props && k != l ==>
          SlotReach(store, props[k], j.fields[k]) !! SlotReach(store, props[l], j.fields[l]))
  }

  lemma {:induction false} CopiedStays(a: Store, b: Store, props: map<string, Slot>, j: Json, news: set<JsonObject>,
                                       more: set<JsonObject>)
    requires Copied(a, props, j, news) && SameOn(a, b, a.Keys) && news <= a.Keys && news <= more
    ensures Copied(b, props, j, more)
  {
    forall key | key in props
      ensures SlotDenotes(b, props[key], j.fields[key]) && SlotNoSharing(b, props[key], j.fields[key])
      ensures SlotReach(b, props[key], j.fields[key]) == SlotReach(a, props[key], j.fields[key])
    {
      SameSlot(a, b, props[key], j.fields[key]);
    }
  }

  lemma {:induction false} CopyOneMore(a: Store, b: Store, props: map<string, Slot>, j: Json, news: set<JsonObject>,
                                       more: set<JsonObject>, key: string, slot: Slot)
    requires Copied(a, props, j, news) && SameOn(a, b, a.Keys) && news <= a.Keys && news <= more
    requires key in j.fields && key !in props
    requires SlotDenotes(b, slot, j.fields[key]) && SlotNoSharing(b, slot, j.fields[key])
    requires SlotReach(b, slot, j.fields[key]) <= more - news
    ensures Copied(b, props[key := slot], j, more)
  {
    CopiedStays(a, b, props, j, news, more);
    forall k | k in props ensures SlotReach(b, props[k], j.fields[k]) <= news {
      SameSlot(a, b, props[k], j.fields[k]);
    }
  }

  method CloneSlot(slot: Slot, ghost nodes: set<JsonObject>, ghost j: Json)
    returns (copy: Slot, ghost nodes': set<JsonObject>)
    requires SlotDenotes(StoreOf(nodes), slot, j) && SlotNoSharing(StoreOf(nodes), slot, j)
    ensures nodes <= nodes' && fresh(nodes' - nodes)
    ensures SlotDenotes(StoreOf(nodes'), copy, j) && SlotNoSharing(StoreOf(nodes'), copy, j)
    ensures SlotReach(StoreOf(nodes'), copy, j) <= nodes' - nodes
    decreases j, 1
  {
    copy, nodes' := slot, nodes;
    if slot.Ref? {
      var c;
      c, nodes' := StructuredClone(slot.obj, nodes, j);
      copy := Ref(c);
    }
  }

  /** `structuredClone(o)`, for a record without shared parts: a copy that is a tree of new objects. */
  method StructuredClone(o: JsonObject, ghost nodes: set<JsonObject>, ghost j: Json)
    returns (copy: JsonObject, ghost nodes': set<JsonObject>)
    requires Denotes(StoreOf(nodes), o, j) && NoSharing(StoreOf(nodes), o, j)
    ensures nodes <= nodes' && fresh(nodes' - nodes)
    ensures Denotes(StoreOf(nodes'), copy, j) && NoSharing(StoreOf(nodes'), copy, j)
    ensures Reach(StoreOf(nodes'), copy, j) <= nodes' - nodes
    decreases j, 0
  {
    var props: map<string, Slot> := map[];
    var todo := o.props.Keys;
    nodes' := nodes;
    while todo != {}
      invariant todo <= j.fields.Keys && props.Keys == j.fields.Keys - todo
      invariant nodes <= nodes' && fresh(nodes' - nodes)
      invariant Copied(StoreOf(nodes'), props, j, nodes' - nodes)
      decreases todo
    {
      var key :| key in todo;
      ghost var before := nodes';
      SlotInReach(StoreOf(nodes), o, j, key);
      SameSlot(StoreOf(nodes), StoreOf(before), o.props[key], j.fields[key]);
      var slot;
      slot, nodes' := CloneSlot(o.props[key], before, j.fields[key]);
      CopyOneMore(StoreOf(before), StoreOf(nodes'), props, j, before - nodes, nodes' - nodes, key, slot);
      props := props[key := slot];
      todo := todo - {key};
    }
    copy := new JsonObject(props);
    ghost var news := nodes' - nodes;
    CopiedStays(StoreOf(nodes'), StoreOf(nodes' + {copy}), props, j, news, news);
    nodes' := nodes' + {copy};
    CopiedIsTree(StoreOf(nodes'), copy, props, j, news);
  }

  lemma {:induction false} CopiedIsTree(store: Store, copy: JsonObject, props: map<string, Slot>, j: Json,
                                        news: set<JsonObject>)
    requires Copied(store, props, j, news) && props.Keys == j.fields.Keys
    requires copy in store && store[copy] == props && copy !in news
    ensures Denotes(store, copy, j) && NoSharing(store, copy, j)
    ensures Reach(store, copy, j) <= news + {copy}
  {
  }

  // ---------------------------------------------------------------- writing along a path

  /** One property of `parent` now leads to a new graph, and nothing else of its graph changed. */
  lemma {:induction false} LevelUp(a: Store, b: Store, parent: JsonObject, pj: Json, key: string, child: JsonObject,
                                   cj: Json, news: set<JsonObject>)
    requires Denotes(a, parent, pj) && NoSharing(a, parent, pj)
    requires SlotDenotes(a, SlotAt(a[parent], key), Get(pj, key))
    requires parent in b && b[parent] == a[parent][key := Ref(child)]
    requires SameOn(a, b, Reach(a, parent, pj) - {parent} - SlotReach(a, SlotAt(a[parent], key), Get(pj, key)))
    requires Denotes(b, child, cj) && Reach(b, child, cj) <= SlotReach(a, SlotAt(a[parent], key), Get(pj, key)) + news
    requires news !! Reach(a, parent, pj)
    ensures Denotes(b, parent, SetField(pj, key, cj))
    ensures Reach(b, parent, SetField(pj, key, cj)) <= Reach(a, parent, pj) + news
    ensures NoSharing(b, child, cj) ==> NoSharing(b, parent, SetField(pj, key, cj))
  {
    var j := SetField(pj, key, cj);
    SlotAtDenotes(a, parent, pj, key);
    forall k | k in j.fields
      ensures SlotDenotes(b, b[parent][k], j.fields[k])
      ensures k != key ==> SlotReach(b, b[parent][k], j.fields[k]) == SlotReach(a, a[parent][k], pj.fields[k])
      ensures k != key ==> SlotNoSharing(b, b[parent][k], j.fields[k])
    {
      if k != key {
        SlotInReach(a, parent, pj, k);
        OtherSlot(a, parent, pj, key, k);
        SameSlot(a, b, a[parent][k], pj.fields[k]);
      }
    }
    assert Denotes(b, parent, j);
    assert SlotReach(b, b[parent][key], j.fields[key]) == Reach(b, child, cj);
    if NoSharing(b, child, cj) {
      forall k, l | k in j.fields && l in j.fields && k != l
        ensures SlotReach(b, b[parent][k], j.fields[k]) !! SlotReach(b, b[parent][l], j.fields[l])
      {
        SlotsApart(a, b, parent, pj, key, j, news, k, l);
      }
    }
  }

  lemma {:induction false} OtherSlot(store: Store, o: JsonObject, j: Json, key: string, other: string)
    requires Denotes(store, o, j) && NoSharing(store, o, j) && other in j.fields && other != key
    ensures SlotDenotes(store, SlotAt(store[o], key), Get(j, key))
    ensures SlotReach(store, SlotAt(store[o], key), Get(j, key)) !! SlotReach(store, store[o][other], j.fields[other])
    ensures o !in SlotReach(store, store[o][other], j.fields[other])
  {
    SlotAtDenotes(store, o, j, key);
  }

  lemma {:induction false} SlotsApart(a: Store, b: Store, parent: JsonObject, pj: Json, key: string, j: Json,
                                      news: set<JsonObject>, k: string, l: string)
    requires Denotes(a, parent, pj) && NoSharing(a, parent, pj) && Denotes(b, parent, j)
    requires SlotDenotes(a, SlotAt(a[parent], key), Get(pj, key))
    requires j.fields.Keys == pj.fields.Keys + {key} && k in j.fields && l in j.fields && k != l
    requires forall m :: m in j.fields && m != key ==>
               SlotReach(b, b[parent][m], j.fields[m]) == SlotReach(a, a[parent][m], pj.fields[m])
    requires SlotReach(b, b[parent][key], j.fields[key]) <= SlotReach(a, SlotAt(a[parent], key), Get(pj, key)) + news
    requires news !! Reach(a, parent, pj)
    ensures SlotReach(b, b[parent][k], j.fields[k]) !! SlotReach(b, b[parent][l], j.fields[l])
  {
    if k != key {
      SlotInReach(a, parent, pj, k);
      OtherSlot(a, parent, pj, key, k);
    }
    if l != key {
      SlotInReach(a, parent, pj, l);
      OtherSlot(a, parent, pj, key, l);
    }
  }

  /** A record that is a tree of objects. */
  ghost predicate IsTree(store: Store, o: JsonObject, j: Json) {
    Denotes(store, o, j) && NoSharing(store, o, j)
  }

  ghost predicate WalksTo(store: Store, o: JsonObject, path: seq<string>, last: JsonObject)
    decreases |path|
  {
    if path == [] then o == last
    else o in store && path[0] in store[o] && store[o][path[0]].Ref?
            && WalksTo(store, store[o][path[0]].obj, path[1..], last)
  }

  /** A property that is an object already. */
  lemma {:induction false} OldChild(store: Store, root: JsonObject, j: Json, key: string)
    requires IsTree(store, root, j) && SlotAt(store[root], key).Ref?
    ensures IsTree(store, SlotAt(store[root], key).obj, Ensure(j, key))
    ensures SetField(j, key, Ensure(j, key)) == j
  {
    SlotAtDenotes(store, root, j, key);
    SetSame(j, key);
  }

  /** A new empty object in place of a property that was no object. */
  lemma {:induction false} NewChild(before: Store, after: Store, root: JsonObject, j: Json, key: string,
                                    next: JsonObject)
    requires IsTree(before, root, j) && !SlotAt(before[root], key).Ref?
    requires next !in before && after == before[next := map[]][root := before[root][key := Ref(next)]]
    ensures Ensure(j, key) == EMPTY_RECORD && IsTree(after, next, EMPTY_RECORD)
    ensures IsTree(after, root, SetField(j, key, EMPTY_RECORD))
    ensures Reach(after, root, SetField(j, key, EMPTY_RECORD)) <= Reach(before, root, j) + {next}
  {
    ReachIsKnown(before, root, j);
    SlotAtDenotes(before, root, j, key);
    LevelUp(before, after, root, j, key, next, EMPTY_RECORD, {next});
  }

  /** `ensureRecord(root, key)` */
  method EnsureRecord(root: JsonObject, key: string, ghost nodes: set<JsonObject>, ghost j: Json)
    returns (child: JsonObject, ghost nodes': set<JsonObject>)
    requires IsTree(StoreOf(nodes), root, j)
    modifies root
    ensures nodes <= nodes' && fresh(nodes' - nodes)
    ensures SlotAt(root.props, key) == Ref(child)
    ensures IsTree(StoreOf(nodes'), root, SetField(j, key, Ensure(j, key)))
    ensures IsTree(StoreOf(nodes'), child, Ensure(j, key))
    ensures Reach(StoreOf(nodes'), root, SetField(j, key, Ensure(j, key))) <=
              old(Reach(StoreOf(nodes), root, j)) + (nodes' - nodes)
  {
    ghost var before: Store := StoreOf(nodes);
    var existing := SlotAt(root.props, key);
    if existing.Ref? {
      OldChild(before, root, j, key);
      return existing.obj, nodes;
    }
    var next := new JsonObject(map[]);
    root.props := root.props[key := Ref(next)];
    child := next;
    nodes' := nodes + {next};
    NewChild(before, StoreOf(nodes'), root, j, key, next);
  }

  /** Records ensured below a child, in the graph of its parent. */
  lemma {:induction false} EnsuredBelow(mid: Store, after: Store, root: JsonObject, j: Json, path: seq<string>,
                                        child: JsonObject, last: JsonObject, news: set<JsonObject>)
    requires path != [] && j.Record?
    requires var key, c := path[0], Ensure(j, path[0]);
             && IsTree(mid, root, SetField(j, key, c)) && SlotAt(mid[root], key) == Ref(child) && IsTree(mid, child, c)
             && IsTree(after, child, EnsureAll(c, path[1..])) && WalksTo(after, child, path[1..], last)
             && SameOn(mid, after, mid.Keys - Reach(mid, child, c)) && news !! mid.Keys
             && Reach(after, child, EnsureAll(c, path[1..])) <= Reach(mid, child, c) + news
    ensures IsTree(after, root, EnsureAll(j, path)) && WalksTo(after, root, path, last)
    ensures Reach(after, root, EnsureAll(j, path)) <= Reach(mid, root, SetField(j, path[0], Ensure(j, path[0]))) + news
  {
    var key, c := path[0], Ensure(j, path[0]);
    var grown := EnsureAll(c, path[1..]);
    GrownChild(mid, after, root, SetField(j, key, c), key, child, c, grown, news);
    SetTwice(j, key, c, grown);
    ChildTree(mid, root, SetField(j, key, c), key, child, c);
    assert after[root] == mid[root] by {
      ReachIsKnown(mid, root, SetField(j, key, c));
    }
  }

  /** The nested `ensureRecord` calls that lead down a path. */
  method EnsureRecords(root: JsonObject, path: seq<string>, ghost nodes: set<JsonObject>, ghost j: Json)
    returns (last: JsonObject, ghost nodes': set<JsonObject>)
    requires IsTree(StoreOf(nodes), root, j)
    modifies Reach(StoreOf(nodes), root, j)
    ensures nodes <= nodes' && fresh(nodes' - nodes)
    ensures IsTree(StoreOf(nodes'), root, EnsureAll(j, path))
    ensures WalksTo(StoreOf(nodes'), root, path, last)
    ensures Reach(StoreOf(nodes'), root, EnsureAll(j, path)) <= old(Reach(StoreOf(nodes), root, j)) + (nodes' - nodes)
    decreases |path|, 1
  {
    if path == [] {
      return root, nodes;
    }
    ghost var reach := Reach(StoreOf(nodes), root, j);
    ghost var mj := SetField(j, path[0], Ensure(j, path[0]));
    var child;
    ghost var known;
    child, known := EnsureRecord(root, path[0], nodes, j);
    ghost var between := Reach(StoreOf(known), root, mj);
    ChildTree(StoreOf(known), root, mj, path[0], child, Ensure(j, path[0]));
    assert Reach(StoreOf(known), child, Ensure(j, path[0])) <= reach + (known - nodes);
    last, nodes' := EnsureBelow(root, child, path, known, j);
    NewsAddUp(nodes, known, nodes', reach, between, Reach(StoreOf(nodes'), root, EnsureAll(j, path)));
  }

  /** The calls from the second on. */
  method EnsureBelow(root: JsonObject, child: JsonObject, path: seq<string>, ghost nodes: set<JsonObject>,
                     ghost j: Json)
    returns (last: JsonObject, ghost nodes': set<JsonObject>)
    requires path != [] && j.Record?
    requires IsTree(StoreOf(nodes), root, SetField(j, path[0], Ensure(j, path[0])))
    requires SlotAt(root.props, path[0]) == Ref(child) && IsTree(StoreOf(nodes), child, Ensure(j, path[0]))
    modifies Reach(StoreOf(nodes), child, Ensure(j, path[0]))
    ensures nodes <= nodes' && fresh(nodes' - nodes)
    ensures IsTree(StoreOf(nodes'), root, EnsureAll(j, path)) && WalksTo(StoreOf(nodes'), root, path, last)
    ensures Reach(StoreOf(nodes'), root, EnsureAll(j, path)) <=
              old(Reach(StoreOf(nodes), root, SetField(j, path[0], Ensure(j, path[0])))) + (nodes' - nodes)
    decreases |path|, 0
  {
    ghost var was: Store := StoreOf(nodes);
    ghost var c := Ensure(j, path[0]);
    last, nodes' := EnsureRecords(child, path[1..], nodes, c);
    assert SameOn(was, StoreOf(nodes'), was.Keys - Reach(was, child, c));
    EnsuredBelow(was, StoreOf(nodes'), root, j, path, child, last, nodes' - nodes);
  }

  lemma {:induction false} NewsAddUp(a: set<JsonObject>, b: set<JsonObject>, c: set<JsonObject>,
                  r: set<JsonObject>, s: set<JsonObject>, t: set<JsonObject>)
    requires a <= b <= c && s <= r + (b - a) && t <= s + (c - b)
    ensures c - a == (b - a) + (c - b)
    ensures t <= r + (c - a)
  {
  }

  lemma {:induction false} SetSame(j: Json, key: string)
    requires j.Record? && key in j.fields
    ensures SetField(j, key, j.fields[key]) == j
  {
    assert j.fields[key := j.fields[key]] == j.fields;
  }

  lemma {:induction false} SetTwice(j: Json, key: string, once: Json, twice: Json)
    requires j.Record?
    ensures SetField(SetField(j, key, once), key, twice) == SetField(j, key, twice)
  {
    assert j.fields[key := once][key := twice] == j.fields[key := twice];
  }

  lemma {:induction false} ChildTree(store: Store, o: JsonObject, j: Json, key: string, child: JsonObject, c: Json)
    requires IsTree(store, o, j) && key in j.fields && SlotAt(store[o], key) == Ref(child) && j.fields[key] == c
    ensures IsTree(store, child, c) && Reach(store, child, c) <= Reach(store, o, j) && o !in Reach(store, child, c)
  {
    SlotInReach(store, o, j, key);
    assert SlotNoSharing(store, store[o][key], c) && SlotReach(store, store[o][key], c) == Reach(store, child, c);
  }

  /** A child that grew within its own graph, in the graph of its parent. */
  lemma {:induction false} GrownChild(a: Store, b: Store, parent: JsonObject, pj: Json, key: string,
                                      child: JsonObject, c: Json, grown: Json, news: set<JsonObject>)
    requires IsTree(a, parent, pj) && key in pj.fields && SlotAt(a[parent], key) == Ref(child) && pj.fields[key] == c
    requires IsTree(a, child, c) && IsTree(b, child, grown)
    requires SameOn(a, b, a.Keys - Reach(a, child, c))
    requires Reach(b, child, grown) <= Reach(a, child, c) + news && news !! a.Keys
    ensures IsTree(b, parent, SetField(pj, key, grown))
    ensures Reach(b, parent, SetField(pj, key, grown)) <= Reach(a, parent, pj) + news
  {
    ChildTree(a, parent, pj, key, child, c);
    ReachIsKnown(a, parent, pj);
    SlotAtDenotes(a, parent, pj, key);
    assert a[parent] == a[parent][key := Ref(child)];
    LevelUp(a, b, parent, pj, key, child, grown, news);
  }

  lemma {:induction false} ReachIsKnown(store: Store, o: JsonObject, j: Json)
    requires Denotes(store, o, j)
    ensures Reach(store, o, j) <= store.Keys
    decreases j
  {
    forall key | key in j.fields ensures SlotReach(store, store[o][key], j.fields[key]) <= store.Keys {
      if store[o][key].Ref? {
        ReachIsKnown(store, store[o][key].obj, j.fields[key]);
      }
    }
  }

  lemma {:induction false} WalkedTree(store: Store, root: JsonObject, j: Json, path: seq<string>, last: JsonObject)
    requires IsTree(store, root, j) && WalksTo(store, root, path, last)
    ensures IsTree(store, last, At(j, path)) && Reach(store, last, At(j, path)) <= Reach(store, root, j)
    decreases |path|
  {
    if path != [] {
      SlotInReach(store, root, j, path[0]);
      assert SlotNoSharing(store, store[root][path[0]], j.fields[path[0]]);
      WalkedTree(store, store[root][path[0]].obj, j.fields[path[0]], path[1..], last);
    }
  }

  /** A change below `last` shows at the root as a change at the path that leads there. */
  lemma {:induction false} ChangeBelow(a: Store, b: Store, root: JsonObject, j: Json, path: seq<string>,
                                       last: JsonObject, lj: Json, news: set<JsonObject>)
    requires IsTree(a, root, j) && WalksTo(a, root, path, last)
    requires IsTree(a, last, At(j, path))
    requires SameOn(a, b, Reach(a, root, j) - Reach(a, last, At(j, path)))
    requires Denotes(b, last, lj) && Reach(b, last, lj) <= Reach(a, last, At(j, path)) + news
    requires news !! Reach(a, root, j)
    ensures Denotes(b, root, ReplaceAt(j, path, lj))
    ensures Reach(b, root, ReplaceAt(j, path, lj)) <= Reach(a, root, j) + news
    decreases |path|
  {
    if path != [] {
      var key := path[0];
      var child, c := a[root][key].obj, j.fields[key];
      SlotInReach(a, root, j, key);
      assert SlotNoSharing(a, a[root][key], j.fields[key]);
      WalkedTree(a, child, c, path[1..], last);
      assert root !in SlotReach(a, a[root][key], j.fields[key]);
      ChangeBelow(a, b, child, c, path[1..], last, lj, news);
      assert b[root] == a[root] == a[root][key := Ref(child)];
      LevelUp(a, b, root, j, key, child, ReplaceAt(c, path[1..], lj), news);
    }
  }
}

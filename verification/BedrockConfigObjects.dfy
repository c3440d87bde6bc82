/** `migrateAmazonBedrockLegacyConfig` of extensions/amazon-bedrock/config-compat.ts on the
    configuration's own objects: it returns what `BedrockMigration.Migrate` describes, and writes
    to nothing the caller had. */
module BedrockConfigObjects {
  import opened JsonMerge
  import opened ConfigObjects
  import opened BedrockMigration

  /** `{ ...o }`: a new object whose properties lead where the old ones do. */
  lemma {:induction false} ShallowCopy(a: Store, b: Store, o: JsonObject, j: Json, copy: JsonObject)
    requires IsTree(a, o, j) && copy !in a.Keys
    requires b == a[copy := a[o]]
    ensures IsTree(b, copy, j)
    ensures Reach(b, copy, j) == Reach(a, o, j) - {o} + {copy}
  {
    ReachIsKnown(a, o, j);
    forall key | key in j.fields
      ensures SlotDenotes(b, b[copy][key], j.fields[key]) && SlotNoSharing(b, b[copy][key], j.fields[key])
      ensures SlotReach(b, b[copy][key], j.fields[key]) == SlotReach(a, a[o][key], j.fields[key])
    {
      SlotInReach(a, o, j, key);
      SameSlot(a, b, a[o][key], j.fields[key]);
    }
  }

  /** Deleting a property of one object. */
  lemma {:induction false} RemovedProperty(a: Store, b: Store, o: JsonObject, j: Json, key: string)
    requires IsTree(a, o, j) && o in b && b[o] == a[o] - {key} && SameOn(a, b, a.Keys - {o})
    ensures IsTree(b, o, RemoveField(j, key))
    ensures Reach(b, o, RemoveField(j, key)) <= Reach(a, o, j)
  {
    ReachIsKnown(a, o, j);
    var rest := RemoveField(j, key);
    forall k | k in rest.fields
      ensures SlotDenotes(b, b[o][k], rest.fields[k]) && SlotNoSharing(b, b[o][k], rest.fields[k])
      ensures SlotReach(b, b[o][k], rest.fields[k]) == SlotReach(a, a[o][k], j.fields[k])
    {
      SlotInReach(a, o, j, k);
      SameSlot(a, b, a[o][k], j.fields[k]);
    }
  }

  method PruneEmptyModelsRoot(root: JsonObject, ghost nodes: set<JsonObject>, ghost j: Json)
    requires IsTree(StoreOf(nodes), root, j)
    modifies root
    ensures IsTree(StoreOf(nodes), root, PruneEmptyModels(j))
    ensures Reach(StoreOf(nodes), root, PruneEmptyModels(j)) <= old(Reach(StoreOf(nodes), root, j))
  {
    ghost var before: Store := StoreOf(nodes);
    SlotAtDenotes(before, root, j, "models");
    var models := SlotAt(root.props, "models");
    if models.Ref? {
      assert before[models.obj].Keys == Get(j, "models").fields.Keys;
      if models.obj.props == map[] {
        root.props := root.props - {"models"};
        RemovedProperty(before, StoreOf(nodes), root, j, "models");
      }
    }
  }

  /** `delete models.bedrockDiscovery`, and of `models` itself when that leaves it empty. */
  method RemoveLegacy(root: JsonObject, ghost nodes: set<JsonObject>, ghost j: Json)
    returns (ghost nodes': set<JsonObject>)
    requires IsTree(StoreOf(nodes), root, j)
    modifies Reach(StoreOf(nodes), root, j)
    ensures nodes <= nodes' && fresh(nodes' - nodes)
    ensures IsTree(StoreOf(nodes'), root, WithoutLegacy(j))
    ensures Reach(StoreOf(nodes'), root, WithoutLegacy(j)) <= old(Reach(StoreOf(nodes), root, j)) + (nodes' - nodes)
  {
    var models;
    models, nodes' := EnsureRecord(root, "models", nodes, j);
    ghost var mj, mid: Store := Ensure(j, "models"), StoreOf(nodes');
    ghost var left := RemoveField(mj, "bedrockDiscovery");
    ChildTree(mid, root, SetField(j, "models", mj), "models", models, mj);
    models.props := models.props - {"bedrockDiscovery"};
    RemovedProperty(mid, StoreOf(nodes'), models, mj, "bedrockDiscovery");
    GrownChild(mid, StoreOf(nodes'), root, SetField(j, "models", mj), "models", models, mj, left, {});
    SetTwice(j, "models", mj, left);
    PruneEmptyModelsRoot(root, nodes', SetField(j, "models", left));
  }

  /** `JSON.stringify(o)`, up to layout. */
  method Stringify(o: JsonObject, ghost nodes: set<JsonObject>, ghost j: Json) returns (text: Json)
    requires Denotes(StoreOf(nodes), o, j)
    ensures text == Printed(j)
    decreases j
  {
    var out: map<string, Json> := map[];
    var todo := o.props.Keys;
    while todo != {}
      invariant todo <= j.fields.Keys
      invariant out == map key | key in j.fields && key !in todo && j.fields[key] != Undefined :: Printed(j.fields[key])
      decreases todo
    {
      var key :| key in todo;
      assert SlotDenotes(StoreOf(nodes), o.props[key], j.fields[key]);
      match o.props[key] {
        case Undef =>
        case Prim(value) => out := out[key := Leaf(value)];
        case Ref(child) =>
          var part := Stringify(child, nodes, j.fields[key]);
          out := out[key := part];
      }
      todo := todo - {key};
    }
    text := Record(out);
  }

  /** After `mergeMissing` on a shallow copy, the record that was copied shows whatever was filled
      in below it. */
  lemma {:induction false} ExistingShowsNestedMerge(was: Store, before: Store, after: Store, existing: JsonObject,
                                                    ej: Json, merged: JsonObject, lj: Json)
    requires ej.Record? && lj.Record? && Denotes(was, existing, ej)
    requires existing in after && after[existing] == was[existing]
    requires merged in before && before[merged] == was[existing]
    requires Denotes(after, merged, FillMissing(ej, lj))
    requires forall key :: SlotAt(before[merged], key) != Undef ==>
              SlotAt(after[merged], key) == SlotAt(before[merged], key)
    ensures Denotes(after, existing, ExistingAfterMerge(ej, lj))
  {
    var shown := ExistingAfterMerge(ej, lj);
    forall key | key in shown.fields ensures SlotDenotes(after, after[existing][key], shown.fields[key]) {
      assert SlotDenotes(was, was[existing][key], ej.fields[key]);
      if ej.fields[key] != Undefined {
        GetFilled(ej, lj, key);
        assert SlotAt(after[merged], key) == was[existing][key];
        assert SlotDenotes(after, after[merged][key], FillMissing(ej, lj).fields[key]);
      }
    }
  }

  /** A shallow copy of the plugin's record is ready to be merged into. */
  lemma {:induction false} CopyIsMergeable(was: Store, before: Store, existing: JsonObject, ej: Json,
                                           legacy: JsonObject, lj: Json, merged: JsonObject)
    requires IsTree(was, existing, ej) && Denotes(was, legacy, lj)
    requires Reach(was, existing, ej) !! Reach(was, legacy, lj)
    requires merged !in was.Keys && before == was[merged := was[existing]]
    ensures Mergeable(before, merged, legacy, ej, lj)
    ensures Reach(before, merged, ej) == Reach(was, existing, ej) - {existing} + {merged}
    ensures Reach(before, legacy, lj) == Reach(was, legacy, lj)
  {
    ShallowCopy(was, before, existing, ej, merged);
    ReachIsKnown(was, legacy, lj);
    SameGraph(was, before, legacy, lj);
  }

  /** The comparison behind the message. */
  method ReportMerge(merged: JsonObject, existing: JsonObject, ghost nodes: set<JsonObject>, ghost ej: Json,
                     ghost lj: Json)
    returns (change: Change)
    requires ej.Record? && lj.Record?
    requires Denotes(StoreOf(nodes), merged, FillMissing(ej, lj))
    requires Denotes(StoreOf(nodes), existing, ExistingAfterMerge(ej, lj))
    ensures change == ReportedChange(ej, lj)
  {
    var mergedText := Stringify(merged, nodes, FillMissing(ej, lj));
    var existingText := Stringify(existing, nodes, ExistingAfterMerge(ej, lj));
    change := if mergedText != existingText then Merged else AlreadySet;
  }

  /** The merge: a shallow copy of the plugin's record takes what is missing from the legacy one. */
  method MergeDiscovery(existing: JsonObject, legacy: JsonObject, ghost nodes: set<JsonObject>, ghost ej: Json,
                        ghost lj: Json)
    returns (merged: JsonObject, change: Change)
    requires IsTree(StoreOf(nodes), existing, ej) && Denotes(StoreOf(nodes), legacy, lj)
    requires Reach(StoreOf(nodes), existing, ej) !! Reach(StoreOf(nodes), legacy, lj)
    modifies Reach(StoreOf(nodes), existing, ej) - {existing}
    ensures fresh(merged)
    ensures Denotes(StoreOf(nodes + {merged}), merged, FillMissing(ej, lj))
    ensures Reach(StoreOf(nodes + {merged}), merged, FillMissing(ej, lj)) <=
              old(Reach(StoreOf(nodes), existing, ej)) + old(Reach(StoreOf(nodes), legacy, lj)) + {merged}
    ensures change == ReportedChange(ej, lj)
  {
    ghost var was: Store := StoreOf(nodes);
    merged := new JsonObject(existing.props);
    ghost var known := nodes + {merged};
    ghost var before: Store := StoreOf(known);
    CopyIsMergeable(was, before, existing, ej, legacy, lj, merged);
    MergeMissing(merged, legacy, known, ej, lj);
    ExistingShowsNestedMerge(was, before, StoreOf(known), existing, ej, merged, lj);
    change := ReportMerge(merged, existing, known, ej, lj);
  }

  /** What `config.discovery` is to become: the merged record, or a shallow copy of the legacy one. */
  method PrepareDiscovery(slot: Slot, legacy: JsonObject, ghost nodes: set<JsonObject>, ghost ej: Json, ghost lj: Json)
    returns (next: JsonObject, change: Change)
    requires SlotDenotes(StoreOf(nodes), slot, ej) && SlotNoSharing(StoreOf(nodes), slot, ej)
    requires IsTree(StoreOf(nodes), legacy, lj)
    requires SlotReach(StoreOf(nodes), slot, ej) !! Reach(StoreOf(nodes), legacy, lj)
    modifies SlotReach(StoreOf(nodes), slot, ej)
    ensures fresh(next)
    ensures Denotes(StoreOf(nodes + {next}), next, NewDiscovery(ej, lj))
    ensures Reach(StoreOf(nodes + {next}), next, NewDiscovery(ej, lj)) <=
              old(SlotReach(StoreOf(nodes), slot, ej)) + old(Reach(StoreOf(nodes), legacy, lj)) + {next}
    ensures change == ReportedChange(ej, lj)
  {
    ghost var was: Store := StoreOf(nodes);
    if slot.Ref? {
      next, change := MergeDiscovery(slot.obj, legacy, nodes, ej, lj);
    } else {
      next := new JsonObject(legacy.props);
      ShallowCopy(was, StoreOf(nodes + {next}), legacy, lj, next);
      change := Moved;
    }
  }

  /** `config.discovery = ...` */
  method InstallDiscovery(config: JsonObject, legacy: JsonObject, ghost nodes: set<JsonObject>,
                          ghost cj: Json, ghost lj: Json)
    returns (change: Change, ghost nodes': set<JsonObject>)
    requires IsTree(StoreOf(nodes), config, cj) && IsTree(StoreOf(nodes), legacy, lj)
    requires Reach(StoreOf(nodes), config, cj) !! Reach(StoreOf(nodes), legacy, lj)
    modifies Reach(StoreOf(nodes), config, cj)
    ensures nodes <= nodes' && fresh(nodes' - nodes)
    ensures Denotes(StoreOf(nodes'), config, SetField(cj, "discovery", NewDiscovery(Get(cj, "discovery"), lj)))
    ensures Reach(StoreOf(nodes'), config, SetField(cj, "discovery", NewDiscovery(Get(cj, "discovery"), lj))) <=
              old(Reach(StoreOf(nodes), config, cj)) + old(Reach(StoreOf(nodes), legacy, lj)) + (nodes' - nodes)
    ensures change == ReportedChange(Get(cj, "discovery"), lj)
  {
    ghost var was: Store := StoreOf(nodes);
    ghost var ej := Get(cj, "discovery");
    SlotAtDenotes(was, config, cj, "discovery");
    ReachIsKnown(was, config, cj);
    var slot := SlotAt(config.props, "discovery");
    var next;
    next, change := PrepareDiscovery(slot, legacy, nodes, ej, lj);
    nodes' := nodes + {next};
    ghost var mid: Store := StoreOf(nodes');
    config.props := config.props["discovery" := Ref(next)];
    Installed(was, mid, StoreOf(nodes'), config, cj, next, NewDiscovery(ej, lj), Reach(was, legacy, lj) + {next});
  }

  lemma {:induction false} Installed(was: Store, mid: Store, after: Store, config: JsonObject, cj: Json,
                                     next: JsonObject, dj: Json, news: set<JsonObject>)
    requires IsTree(was, config, cj) && SlotDenotes(was, SlotAt(was[config], "discovery"), Get(cj, "discovery"))
    requires config in mid && after == mid[config := was[config]["discovery" := Ref(next)]]
    requires SameOn(was, mid, was.Keys - SlotReach(was, SlotAt(was[config], "discovery"), Get(cj, "discovery")))
    requires Denotes(mid, next, dj)
    requires Reach(mid, next, dj) <= SlotReach(was, SlotAt(was[config], "discovery"), Get(cj, "discovery")) + news
    requires news !! Reach(was, config, cj)
    ensures Denotes(after, config, SetField(cj, "discovery", dj))
    ensures Reach(after, config, SetField(cj, "discovery", dj)) <= Reach(was, config, cj) + news
  {
    SlotAtDenotes(was, config, cj, "discovery");
    SameGraph(mid, after, next, dj);
    LevelUp(was, after, config, cj, "discovery", next, dj, news);
  }

  /** The discovery settings are put in place below the record that `path` leads to. */
  method MoveDiscovery(root: JsonObject, path: seq<string>, legacy: JsonObject,
                       ghost nodes: set<JsonObject>, ghost j: Json, ghost lj: Json)
    returns (change: Change, ghost nodes': set<JsonObject>)
    requires IsTree(StoreOf(nodes), root, j) && IsTree(StoreOf(nodes), legacy, lj)
    requires Reach(StoreOf(nodes), root, j) !! Reach(StoreOf(nodes), legacy, lj)
    modifies Reach(StoreOf(nodes), root, j)
    ensures nodes <= nodes' && fresh(nodes' - nodes)
    ensures Denotes(StoreOf(nodes'), root, DiscoveryMoved(j, path, lj))
    ensures change == ReportedChange(At(j, path + ["discovery"]), lj)
  {
    ghost var was: Store := StoreOf(nodes);
    ReachIsKnown(was, legacy, lj);
    var config;
    ghost var known;
    config, known := EnsureRecords(root, path, nodes, j);
    ghost var mid: Store := StoreOf(known);
    ghost var rj := EnsureAll(j, path);
    SameGraph(was, mid, legacy, lj);
    WalkedTree(mid, root, rj, path, config);
    EnsuredShowsTheSame(j, path, "discovery");
    change, nodes' := InstallDiscovery(config, legacy, known, At(rj, path), lj);
    assert fresh(nodes' - nodes) by {
      assert forall o :: o in nodes' - nodes ==> o in nodes' - known || o in known - nodes;
    }
    Settled(mid, StoreOf(nodes'), root, j, path, config, legacy, lj, nodes' - known);
  }

  ghost function DiscoveryMoved(j: Json, path: seq<string>, lj: Json): Json
    requires j.Record? && lj.Record?
  {
    PutAt(j, path + ["discovery"], NewDiscovery(At(j, path + ["discovery"]), lj))
  }

  lemma {:induction false} Settled(mid: Store, after: Store, root: JsonObject, j: Json, path: seq<string>,
                                   config: JsonObject, legacy: JsonObject, lj: Json, news: set<JsonObject>)
    requires j.Record? && lj.Record?
    requires var rj := EnsureAll(j, path);
             var cj := At(rj, path);
             && IsTree(mid, root, rj) && IsTree(mid, config, cj) && Denotes(mid, legacy, lj)
             && WalksTo(mid, root, path, config)
             && Reach(mid, root, rj) !! Reach(mid, legacy, lj)
             && SameOn(mid, after, mid.Keys - Reach(mid, config, cj))
             && cj.Record?
             && Denotes(after, config, SetField(cj, "discovery", NewDiscovery(Get(cj, "discovery"), lj)))
             && Reach(after, config, SetField(cj, "discovery", NewDiscovery(Get(cj, "discovery"), lj))) <=
                  Reach(mid, config, cj) + Reach(mid, legacy, lj) + news
    requires news !! mid.Keys
    ensures Denotes(after, root, DiscoveryMoved(j, path, lj))
  {
    var rj := EnsureAll(j, path);
    var cj := At(rj, path);
    var dj := NewDiscovery(Get(cj, "discovery"), lj);
    ReachIsKnown(mid, root, rj);
    ChangeBelow(mid, after, root, rj, path, config, SetField(cj, "discovery", dj), Reach(mid, legacy, lj) + news);
    EnsuredShowsTheSame(j, path, "discovery");
    EnsureThenAssign(j, path, "discovery", dj);
  }

  /** `migrateAmazonBedrockLegacyConfig(raw)`. There is no `modifies` clause: every object the
      caller passed in is left as it was, although the result shares parts of the legacy settings
      with it and is filled in place. */
  method MigrateAmazonBedrockLegacyConfig(raw: JsonObject, ghost nodes: set<JsonObject>, ghost j: Json)
    returns (config: JsonObject, change: Change, ghost nodes': set<JsonObject>)
    requires IsTree(StoreOf(nodes), raw, j)
    ensures nodes <= nodes' && fresh(nodes' - nodes)
    ensures Denotes(StoreOf(nodes'), config, Migrate(j).0)
    ensures change == Migrate(j).1
  {
    LegacyShows(StoreOf(nodes), raw, j);
    var models := SlotAt(raw.props, "models");
    if !models.Ref? {
      return raw, Unchanged, nodes;
    }
    var found := SlotAt(models.obj.props, "bedrockDiscovery");
    if !found.Ref? {
      return raw, Unchanged, nodes;
    }
    config, change, nodes' := MigrateFrom(raw, found.obj, nodes, j);
  }

  /** A deep copy of the configuration, freed of the legacy entry. */
  method CloneWithoutLegacy(raw: JsonObject, ghost nodes: set<JsonObject>, ghost j: Json)
    returns (root: JsonObject, ghost nodes': set<JsonObject>)
    requires IsTree(StoreOf(nodes), raw, j)
    ensures nodes <= nodes' && fresh(nodes' - nodes)
    ensures IsTree(StoreOf(nodes'), root, WithoutLegacy(j))
    ensures Reach(StoreOf(nodes'), root, WithoutLegacy(j)) <= nodes' - nodes
  {
    ghost var known;
    root, known := StructuredClone(raw, nodes, j);
    nodes' := RemoveLegacy(root, known, j);
  }

  /** The legacy settings are moved over, unless there are none. */
  method MoveLegacy(root: JsonObject, legacy: JsonObject, ghost nodes: set<JsonObject>, ghost rj: Json, ghost lj: Json)
    returns (change: Change, ghost nodes': set<JsonObject>)
    requires IsTree(StoreOf(nodes), root, rj) && IsTree(StoreOf(nodes), legacy, lj)
    requires Reach(StoreOf(nodes), root, rj) !! Reach(StoreOf(nodes), legacy, lj)
    modifies Reach(StoreOf(nodes), root, rj)
    ensures nodes <= nodes' && fresh(nodes' - nodes)
    ensures Denotes(StoreOf(nodes'), root, if lj == EMPTY_RECORD then rj else DiscoveryMoved(rj, CONFIG_PATH, lj))
    ensures change == if lj == EMPTY_RECORD then RemovedEmpty
                      else ReportedChange(At(rj, CONFIG_PATH + ["discovery"]), lj)
  {
    assert legacy.props.Keys == lj.fields.Keys;
    if legacy.props == map[] {
      return RemovedEmpty, nodes;
    }
    change, nodes' := MoveDiscovery(root, CONFIG_PATH, legacy, nodes, rj, lj);
  }

  /** The rest of the migration, once legacy settings are found. */
  method MigrateFrom(raw: JsonObject, legacy: JsonObject, ghost nodes: set<JsonObject>, ghost j: Json)
    returns (root: JsonObject, change: Change, ghost nodes': set<JsonObject>)
    requires IsTree(StoreOf(nodes), raw, j) && IsTree(StoreOf(nodes), legacy, At(j, LEGACY_PATH))
    ensures nodes <= nodes' && fresh(nodes' - nodes)
    ensures Denotes(StoreOf(nodes'), root, Migrate(j).0)
    ensures change == Migrate(j).1
  {
    ghost var lj := At(j, LEGACY_PATH);
    ghost var cleared;
    ghost var was: Store := StoreOf(nodes);
    ReachIsKnown(was, legacy, lj);
    root, cleared := CloneWithoutLegacy(raw, nodes, j);
    SameGraph(was, StoreOf(cleared), legacy, lj);
    change, nodes' := MoveLegacy(root, legacy, cleared, WithoutLegacy(j), lj);
    TargetIsDiscovery();
    assert fresh(nodes' - nodes) by {
      assert forall o :: o in nodes' - nodes ==> o in nodes' - cleared || o in cleared - nodes;
    }
  }

  lemma {:induction false} TargetIsDiscovery()
    ensures CONFIG_PATH + ["discovery"] == TARGET_PATH
  {
  }

  /** Where the legacy settings are found among the objects. */
  lemma {:induction false} LegacyShows(store: Store, raw: JsonObject, j: Json)
    requires IsTree(store, raw, j)
    ensures SlotAt(store[raw], "models").Ref? <==> Get(j, "models").Record?
    ensures Get(j, "models").Record? ==>
              var m := SlotAt(store[raw], "models").obj;
              m in store && (SlotAt(store[m], "bedrockDiscovery").Ref? <==> At(j, LEGACY_PATH).Record?)
    ensures !Get(j, "models").Record? ==> !At(j, LEGACY_PATH).Record?
    ensures At(j, LEGACY_PATH).Record? ==>
              var m := SlotAt(store[raw], "models").obj;
              m in store && SlotAt(store[m], "bedrockDiscovery").Ref? &&
              IsTree(store, SlotAt(store[m], "bedrockDiscovery").obj, At(j, LEGACY_PATH))
  {
    assert LEGACY_PATH[1..] == ["bedrockDiscovery"] && ["bedrockDiscovery"][1..] == [];
    SlotAtDenotes(store, raw, j, "models");
    if Get(j, "models").Record? {
      var m := SlotAt(store[raw], "models").obj;
      ChildTree(store, raw, j, "models", m, Get(j, "models"));
      SlotAtDenotes(store, m, Get(j, "models"), "bedrockDiscovery");
    } else if Get(j, "models").Leaf? {
      AtLeaf(Get(j, "models").text, ["bedrockDiscovery"]);
    } else {
      AtUndefined(["bedrockDiscovery"]);
    }
  }
}

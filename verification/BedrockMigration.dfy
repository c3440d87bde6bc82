/** `migrateAmazonBedrockLegacyConfig` of extensions/amazon-bedrock/config-compat.ts on JSON
    values, against the settings extensions/amazon-bedrock/discovery.ts reads at run time. */
module BedrockMigration {
  import opened JsonMerge

  const LEGACY_PATH := ["models", "bedrockDiscovery"]
  const CONFIG_PATH := ["plugins", "entries", "amazon-bedrock", "config"]
  const TARGET_PATH := ["plugins", "entries", "amazon-bedrock", "config", "discovery"]

  datatype Change = Unchanged | RemovedEmpty | Moved | Merged | AlreadySet

  /** `pruneEmptyModelsRoot` */
  function PruneEmptyModels(root: Json): (r: Json)
    requires root.Record?
    ensures r.Record?
  {
    if Get(root, "models") == EMPTY_RECORD then RemoveField(root, "models") else root
  }

  /** The configuration without the legacy entry; a `models` root left empty goes as a whole. */
  function WithoutLegacy(raw: Json): (r: Json)
    requires raw.Record?
    ensures r.Record?
  {
    PruneEmptyModels(SetField(raw, "models", RemoveField(Ensure(raw, "models"), "bedrockDiscovery")))
  }

  /** What `JSON.stringify` shows of a value: undefined fields are left out. */
  function Printed(j: Json): Json {
    match j
    case Record(fields) =>
      Record(map key | key in fields && fields[key] != Undefined :: Printed(fields[key]))
    case _ => j
  }

  /** The old plugin record after the merge: records inside it are shared with the merged copy,
      so what was filled in there shows in it as well. */
  function ExistingAfterMerge(existing: Json, legacy: Json): Json
    requires existing.Record? && legacy.Record?
  {
    Record(map key | key in existing.fields ::
             if existing.fields[key] == Undefined then Undefined else FilledField(existing, legacy, key))
  }

  /** What the plugin's discovery settings become. */
  function NewDiscovery(existing: Json, legacy: Json): Json
    requires legacy.Record?
  {
    if existing.Record? then FillMissing(existing, legacy) else legacy
  }

  function ReportedChange(existing: Json, legacy: Json): Change
    requires legacy.Record?
  {
    if !existing.Record? then Moved
    else if Printed(FillMissing(existing, legacy)) != Printed(ExistingAfterMerge(existing, legacy)) then Merged
    else AlreadySet
  }

  function Migrate(raw: Json): (Json, Change) {
    var legacy := At(raw, LEGACY_PATH);
    if !legacy.Record? then (raw, Unchanged)
    else
      var root := WithoutLegacy(raw);
      var existing := At(root, TARGET_PATH);
      if legacy == EMPTY_RECORD then (root, RemovedEmpty)
      else (PutAt(root, TARGET_PATH, NewDiscovery(existing, legacy)), ReportedChange(existing, legacy))
  }

  /** The setting the running plugin sees: its own configuration spread over the legacy one. */
  function Setting(raw: Json, key: string): Json {
    var plugin := At(raw, TARGET_PATH);
    if plugin.Record? && key in plugin.fields then plugin.fields[key] else Get(At(raw, LEGACY_PATH), key)
  }

  lemma {:induction false} LegacyIsGone(raw: Json)
    requires raw.Record?
    ensures At(WithoutLegacy(raw), LEGACY_PATH) == Undefined
    ensures At(WithoutLegacy(raw), TARGET_PATH) == At(raw, TARGET_PATH)
  {
    var root := WithoutLegacy(raw);
    assert LEGACY_PATH[1..] == ["bedrockDiscovery"] && ["bedrockDiscovery"][1..] == [];
    assert At(root, LEGACY_PATH) == Get(Get(root, "models"), "bedrockDiscovery");
    assert Get(root, "plugins") == Get(raw, "plugins");
  }

  /** Once migrated, a configuration has no legacy entry, and migrating again leaves it alone. */
  lemma {:induction false} MigrationSettles(raw: Json)
    ensures !At(Migrate(raw).0, LEGACY_PATH).Record?
    ensures Migrate(Migrate(raw).0) == (Migrate(raw).0, Unchanged)
  {
    var legacy := At(raw, LEGACY_PATH);
    if legacy.Record? {
      assert raw.Record? by {
        if !raw.Record? {
          AtUndefined(LEGACY_PATH[1..]);
        }
      }
      var root := WithoutLegacy(raw);
      LegacyIsGone(raw);
      if legacy != EMPTY_RECORD {
        var existing := At(root, TARGET_PATH);
        var value := if existing.Record? then FillMissing(existing, legacy) else legacy;
        PutElsewhere(root, TARGET_PATH, value, LEGACY_PATH);
      }
    }
  }

  // ---------------------------------------------------------------- the settings survive

  /** What keeps the migrated setting from being what the running plugin saw before: an explicit
      undefined that the legacy value now replaces, a blocked name that is not carried over, or a
      nested record that gets filled in where the spread took one side whole. */
  ghost predicate KeepsSetting(plugin: Json, legacy: Json, key: string)
    requires plugin.Record? && legacy.Record?
  {
    if key in plugin.fields then
      Offers(legacy, key) ==>
        && plugin.fields[key] != Undefined
        && (plugin.fields[key].Record? && Get(legacy, key).Record? ==> Covers(plugin.fields[key], Get(legacy, key)))
    else Get(legacy, key) != Undefined ==> !IsBlockedObjectKey(key)
  }

  lemma {:induction false} MigratedSetting(raw: Json, key: string)
    requires At(raw, LEGACY_PATH).Record?
    ensures var legacy, plugin := At(raw, LEGACY_PATH), At(raw, TARGET_PATH);
            Setting(Migrate(raw).0, key) ==
              if legacy == EMPTY_RECORD || !plugin.Record? then Setting(raw, key)
              else FilledField(plugin, legacy, key)
  {
    assert raw.Record? by {
      if !raw.Record? {
        AtUndefined(LEGACY_PATH[1..]);
      }
    }
    var legacy, plugin := At(raw, LEGACY_PATH), At(raw, TARGET_PATH);
    var root := WithoutLegacy(raw);
    LegacyIsGone(raw);
    if legacy != EMPTY_RECORD {
      var value := if plugin.Record? then FillMissing(plugin, legacy) else legacy;
      PutThenGet(root, TARGET_PATH, value);
      PutElsewhere(root, TARGET_PATH, value, LEGACY_PATH);
      if plugin.Record? {
        GetFilled(plugin, legacy, key);
      }
    }
  }

  /** The migration leaves a setting as the running plugin saw it if and only if nothing of the
      above is the case for it. */
  lemma {:induction false} SettingsPreserved(raw: Json, key: string)
    requires At(raw, LEGACY_PATH).Record?
    ensures var legacy, plugin := At(raw, LEGACY_PATH), At(raw, TARGET_PATH);
            Setting(Migrate(raw).0, key) == Setting(raw, key) <==>
              (plugin.Record? ==> KeepsSetting(plugin, legacy, key))
  {
    MigratedSetting(raw, key);
    var legacy, plugin := At(raw, LEGACY_PATH), At(raw, TARGET_PATH);
    if plugin.Record? && Get(plugin, key).Record? && Get(legacy, key).Record? {
      FillingChangesNothing(Get(plugin, key), Get(legacy, key));
    }
  }

  /** No nested records, no explicit undefined and no blocked names. */
  predicate IsFlat(j: Json) {
    j.Record? && forall key :: key in j.fields ==> j.fields[key].Leaf? && !IsBlockedObjectKey(key)
  }

  /** Discovery settings as they are documented are flat; for those every setting is preserved. */
  lemma {:induction false} FlatSettingsPreserved(raw: Json, key: string)
    requires IsFlat(At(raw, LEGACY_PATH))
    requires At(raw, TARGET_PATH).Record? ==> IsFlat(At(raw, TARGET_PATH))
    ensures Setting(Migrate(raw).0, key) == Setting(raw, key)
  {
    SettingsPreserved(raw, key);
  }

  /** Nothing else in the configuration moves: a path that neither leads to the legacy entry or the
      plugin's discovery settings, nor away from them, shows what it showed before. */
  lemma {:induction false} TheRestIsUntouched(raw: Json, path: seq<string>)
    requires !(path <= LEGACY_PATH) && !(LEGACY_PATH <= path)
    requires !(path <= TARGET_PATH) && !(TARGET_PATH <= path)
    ensures At(Migrate(raw).0, path) == At(raw, path)
  {
    var legacy := At(raw, LEGACY_PATH);
    if legacy.Record? {
      assert raw.Record? by {
        if !raw.Record? {
          AtUndefined(LEGACY_PATH[1..]);
        }
      }
      var root := WithoutLegacy(raw);
      LegacyElsewhere(raw, path);
      if legacy != EMPTY_RECORD {
        var existing := At(root, TARGET_PATH);
        PutElsewhere(root, TARGET_PATH, if existing.Record? then FillMissing(existing, legacy) else legacy, path);
      }
    }
  }

  lemma {:induction false} LegacyElsewhere(raw: Json, path: seq<string>)
    requires raw.Record? && !(path <= LEGACY_PATH) && !(LEGACY_PATH <= path)
    ensures At(WithoutLegacy(raw), path) == At(raw, path)
  {
    if path[0] == "models" {
      var rest := path[1..];
      assert rest != [] && rest[0] != "bedrockDiscovery";
      var models := RemoveField(Ensure(raw, "models"), "bedrockDiscovery");
      assert At(models, rest) == At(Ensure(raw, "models"), rest);
      AtUndefined(rest);
      AtUndefined(rest[1..]);
      if Get(raw, "models").Leaf? {
        AtLeaf(Get(raw, "models").text, rest);
      }
    }
  }

  /** The message says "merged" exactly when a field of the plugin's own record was missing; what
      was filled in deeper down goes unreported. */
  lemma {:induction false} MergedMeansTopLevel(raw: Json)
    requires At(raw, LEGACY_PATH).Record? && At(raw, LEGACY_PATH) != EMPTY_RECORD && At(raw, TARGET_PATH).Record?
    ensures Migrate(raw).1 == Merged <==>
              exists key :: Offers(At(raw, LEGACY_PATH), key) && Get(At(raw, TARGET_PATH), key) == Undefined
  {
    assert raw.Record? by {
      if !raw.Record? {
        AtUndefined(LEGACY_PATH[1..]);
      }
    }
    LegacyIsGone(raw);
    PrintsTheSame(At(raw, TARGET_PATH), At(raw, LEGACY_PATH));
  }

  /** What is printed before and after filling differs exactly when a top-level field was missing. */
  lemma {:induction false} PrintsTheSame(existing: Json, legacy: Json)
    requires legacy.Record? && existing.Record?
    ensures Printed(FillMissing(existing, legacy)) != Printed(ExistingAfterMerge(existing, legacy)) <==>
              exists key :: Offers(legacy, key) && Get(existing, key) == Undefined
  {
    var merged, after := FillMissing(existing, legacy), ExistingAfterMerge(existing, legacy);
    if key :| Offers(legacy, key) && Get(existing, key) == Undefined {
      GetFilled(existing, legacy, key);
      assert key in Printed(merged).fields && key !in Printed(after).fields;
    } else {
      forall key
        ensures key in Printed(merged).fields <==> key in Printed(after).fields
        ensures key in Printed(merged).fields ==> Printed(merged).fields[key] == Printed(after).fields[key]
      {
        GetFilled(existing, legacy, key);
      }
      assert Printed(merged).fields == Printed(after).fields;
    }
  }

  /** The report "already set" goes with settings that did change exactly when something is missing
      further down and nothing at the top level. */
  lemma {:induction false} AlreadySetHidesNestedChange(raw: Json)
    requires At(raw, LEGACY_PATH).Record? && At(raw, LEGACY_PATH) != EMPTY_RECORD && At(raw, TARGET_PATH).Record?
    ensures var legacy, plugin := At(raw, LEGACY_PATH), At(raw, TARGET_PATH);
            Migrate(raw).1 == AlreadySet && At(Migrate(raw).0, TARGET_PATH) != plugin <==>
              !Covers(plugin, legacy) && forall key :: Offers(legacy, key) ==> Get(plugin, key) != Undefined
  {
    var legacy, plugin := At(raw, LEGACY_PATH), At(raw, TARGET_PATH);
    assert raw.Record? by {
      if !raw.Record? {
        AtUndefined(LEGACY_PATH[1..]);
      }
    }
    LegacyIsGone(raw);
    MergedMeansTopLevel(raw);
    FillingChangesNothing(plugin, legacy);
    PutThenGet(WithoutLegacy(raw), TARGET_PATH, FillMissing(plugin, legacy));
  }

  function One(key: string, value: Json): Json {
    Record(map[key := value])
  }

  /** The plugin has a record `a` with `x`, the legacy entry one with `y`. */
  function NestedSample(): Json {
    Record(map[
      "models" := One("bedrockDiscovery", One("a", One("y", Leaf("2")))),
      "plugins" := One("entries",
        One("amazon-bedrock", One("config", One("discovery", One("a", One("x", Leaf("1")))))))])
  }

  lemma {:induction false} SampleShows()
    ensures At(NestedSample(), LEGACY_PATH) == One("a", One("y", Leaf("2")))
    ensures At(NestedSample(), TARGET_PATH) == One("a", One("x", Leaf("1")))
  {
    assert LEGACY_PATH[1..] == ["bedrockDiscovery"] && ["bedrockDiscovery"][1..] == [];
    assert TARGET_PATH[1..] == ["entries", "amazon-bedrock", "config", "discovery"];
    assert TARGET_PATH[1..][1..] == ["amazon-bedrock", "config", "discovery"];
    assert ["amazon-bedrock", "config", "discovery"][1..] == ["config", "discovery"];
    assert ["config", "discovery"][1..] == ["discovery"] && ["discovery"][1..] == [];
  }

  lemma {:induction false} NotCovered()
    ensures !Covers(One("a", One("x", Leaf("1"))), One("a", One("y", Leaf("2"))))
  {
    assert !Covers(One("x", Leaf("1")), One("y", Leaf("2"))) by {
      assert Offers(One("y", Leaf("2")), "y") && Get(One("x", Leaf("1")), "y") == Undefined;
    }
    assert Offers(One("a", One("y", Leaf("2"))), "a");
  }

  /** It is filled in, and reported as already set. */
  lemma {:induction false} NestedChangeGoesUnreported()
    ensures Migrate(NestedSample()).1 == AlreadySet
    ensures At(Migrate(NestedSample()).0, TARGET_PATH) != At(NestedSample(), TARGET_PATH)
  {
    SampleShows();
    NotCovered();
    AlreadySetHidesNestedChange(NestedSample());
  }

  // ---------------------------------------------------------------- what is reported, and what becomes of `models`

  lemma {:induction false} LegacyNeedsModels(raw: Json)
    ensures At(raw, LEGACY_PATH) == Get(Get(raw, "models"), "bedrockDiscovery")
    ensures At(raw, LEGACY_PATH).Record? ==> raw.Record? && Get(raw, "models").Record?
  {
    assert LEGACY_PATH[1..] == ["bedrockDiscovery"] && ["bedrockDiscovery"][1..] == [];
  }

  /** The message for every configuration: nothing is said without legacy settings; empty ones are removed;
      others are moved where the plugin has no record of its own, and then the plugin's settings are the
      legacy ones; where it has one they are merged, or were set already. */
  lemma {:induction false} ReportedAs(raw: Json)
    ensures var legacy, plugin := At(raw, LEGACY_PATH), At(raw, TARGET_PATH);
            var (config, change) := Migrate(raw);
            && (change == Unchanged <==> !legacy.Record?)
            && (change == RemovedEmpty <==> legacy == EMPTY_RECORD)
            && (change == Moved <==> legacy.Record? && legacy != EMPTY_RECORD && !plugin.Record?)
            && (change == Unchanged ==> config == raw)
            && (change == RemovedEmpty ==> At(config, TARGET_PATH) == plugin)
            && (change == Moved ==> At(config, TARGET_PATH) == legacy)
            && (change in {Merged, AlreadySet} ==> At(config, TARGET_PATH) == FillMissing(plugin, legacy))
  {
    var legacy := At(raw, LEGACY_PATH);
    LegacyNeedsModels(raw);
    if legacy.Record? {
      var root := WithoutLegacy(raw);
      LegacyIsGone(raw);
      if legacy != EMPTY_RECORD {
        PutThenGet(root, TARGET_PATH, NewDiscovery(At(root, TARGET_PATH), legacy));
      }
    }
  }

  lemma {:induction false} OnlyField(j: Json, key: string)
    requires j.Record? && key in j.fields
    ensures RemoveField(j, key) == EMPTY_RECORD <==> j.fields.Keys == {key}
  {
    var left := RemoveField(j, key).fields;
    assert left.Keys == j.fields.Keys - {key};
    assert left == map[] <==> left.Keys == {};
    forall k | k in j.fields ensures k == key || k in j.fields.Keys - {key} {
    }
  }

  /** What is left of the models record: nothing if it held the legacy entry alone, and otherwise all but
      that entry. */
  lemma {:induction false} ModelsLeft(raw: Json)
    requires At(raw, LEGACY_PATH).Record?
    ensures Get(raw, "models").Record?
    ensures var models := Get(raw, "models");
            Get(Migrate(raw).0, "models") ==
              if models.fields.Keys == {"bedrockDiscovery"} then Undefined
              else Record(models.fields - {"bedrockDiscovery"})
  {
    LegacyNeedsModels(raw);
    var models, root := Get(raw, "models"), WithoutLegacy(raw);
    var left := RemoveField(models, "bedrockDiscovery");
    OnlyField(models, "bedrockDiscovery");
    assert Get(root, "models") == if left == EMPTY_RECORD then Undefined else left;
    if At(raw, LEGACY_PATH) != EMPTY_RECORD {
      var value := NewDiscovery(At(root, TARGET_PATH), At(raw, LEGACY_PATH));
      assert Get(PutAt(root, TARGET_PATH, value), "models") == Get(root, "models");
    }
  }
}

/** Filling missing fields of one configuration tree from another: `mergeMissing` of
    extensions/amazon-bedrock/config-compat.ts and extensions/elevenlabs/config-compat.ts,
    on JSON values. */
module JsonMerge {

  /** A JSON value; strings, numbers, arrays and the like are leaves. `Undefined` can also stand
      as the explicit value of a field. */
  datatype Json = Undefined | Leaf(text: string) | Record(fields: map<string, Json>)

  const EMPTY_RECORD := Record(map[])

  predicate IsBlockedObjectKey(key: string) {
    key == "__proto__" || key == "prototype" || key == "constructor"
  }

  /** `record[key]` */
  function Get(j: Json, key: string): Json {
    if j.Record? && key in j.fields then j.fields[key] else Undefined
  }

  /** The source has something to fill in under `key`. */
  predicate Offers(source: Json, key: string) {
    Get(source, key) != Undefined && !IsBlockedObjectKey(key)
  }

  function FillMissing(target: Json, source: Json): Json
    requires target.Record? && source.Record?
    decreases source
  {
    Record(map key | key in target.fields.Keys + source.fields.Keys && (key in target.fields || Offers(source, key)) ::
             FilledField(target, source, key))
  }

  function FilledField(target: Json, source: Json, key: string): Json
    requires target.Record? && source.Record?
    decreases source, 0
  {
    var existing := Get(target, key);
    if !Offers(source, key) then existing
    else if existing == Undefined then source.fields[key]
    else if existing.Record? && source.fields[key].Record? then FillMissing(existing, source.fields[key])
    else existing
  }

  /** `root.a.b.c` */
  function At(j: Json, path: seq<string>): Json
    decreases |path|
  {
    if path == [] then j else At(Get(j, path[0]), path[1..])
  }

  predicate AllUnblocked(path: seq<string>) {
    forall i :: 0 <= i < |path| ==> !IsBlockedObjectKey(path[i])
  }

  lemma {:induction false} GetFilled(target: Json, source: Json, key: string)
    requires target.Record? && source.Record?
    ensures Get(FillMissing(target, source), key) == FilledField(target, source, key)
  {
  }

  /** What is missing is filled in, unless it has one of three names. */
  lemma {:induction false} BlockedNamesStayOut(target: Json, source: Json, key: string)
    requires target.Record? && source.Record? && Get(target, key) == Undefined && Get(source, key) != Undefined
    ensures Get(FillMissing(target, source), key) ==
              if key in ["__proto__", "prototype", "constructor"] then Undefined else Get(source, key)
  {
    GetFilled(target, source, key);
  }

  lemma {:induction false} AtUndefined(path: seq<string>)
    ensures At(Undefined, path) == Undefined
    decreases |path|
  {
    if path != [] {
      AtUndefined(path[1..]);
    }
  }

  lemma {:induction false} AtLeaf(text: string, path: seq<string>)
    requires path != []
    ensures At(Leaf(text), path) == Undefined
  {
    AtUndefined(path[1..]);
  }

  /** At every path: an explicit setting survives, a record stays a record, and where the target
      has nothing there is either still nothing or what the source has there. */
  lemma {:induction false} FillingOnlyFills(target: Json, source: Json, path: seq<string>)
    requires target.Record? && source.Record?
    ensures var before, after := At(target, path), At(FillMissing(target, source), path);
            match before
            case Undefined => after == Undefined || after == At(source, path)
            case Leaf(_) => after == before
            case Record(_) => after.Record?
    decreases |path|
  {
    if path != [] {
      GetFilled(target, source, path[0]);
      var t, s := Get(target, path[0]), Get(source, path[0]);
      if t.Record? && s.Record? && Offers(source, path[0]) {
        FillingOnlyFills(t, s, path[1..]);
      } else if t == Undefined {
        AtUndefined(path[1..]);
      } else if t.Leaf? && path[1..] != [] {
        AtLeaf(t.text, path[1..]);
      }
    }
  }

  /** And everything missing is filled: a path whose names are not blocked, which the target could
      hold but does not, gets the source's value. */
  lemma {:induction false} FillingFills(target: Json, source: Json, path: seq<string>)
    requires target.Record? && source.Record? && path != [] && AllUnblocked(path)
    requires forall i :: 0 < i < |path| ==> At(target, path[..i]).Record? || At(target, path[..i]) == Undefined
    requires At(target, path) == Undefined
    ensures At(FillMissing(target, source), path) == At(source, path)
    decreases |path|
  {
    var key, rest := path[0], path[1..];
    GetFilled(target, source, key);
    var t, s := Get(target, key), Get(source, key);
    assert !IsBlockedObjectKey(path[0]);
    if rest != [] {
      assert At(target, path[..1]) == t by {
        assert path[..1][1..] == [] && path[..1][0] == key;
      }
      if s == Undefined {
        AtUndefined(rest);
      } else if s.Leaf? {
        AtLeaf(s.text, rest);
      } else if t.Record? {
        forall i | 0 < i < |rest| ensures At(t, rest[..i]).Record? || At(t, rest[..i]) == Undefined {
          assert path[..i + 1][1..] == rest[..i] && path[..i + 1][0] == key;
          assert At(target, path[..i + 1]) == At(t, rest[..i]);
        }
        assert AllUnblocked(rest) by {
          assert forall i :: 0 <= i < |rest| ==> rest[i] == path[i + 1];
        }
        FillingFills(t, s, rest);
      }
    }
  }

  /** The target already has everything the source would fill in. */
  ghost predicate Covers(target: Json, source: Json)
    requires target.Record? && source.Record?
    decreases source
  {
    forall key :: key in source.fields && Offers(source, key) ==>
      var existing := Get(target, key);
      existing != Undefined &&
      (existing.Record? && source.fields[key].Record? ==> Covers(existing, source.fields[key]))
  }

  /** Filling changes nothing exactly when nothing is missing. */
  lemma {:induction false} FillingChangesNothing(target: Json, source: Json)
    requires target.Record? && source.Record?
    ensures FillMissing(target, source) == target <==> Covers(target, source)
    decreases source
  {
    var filled := FillMissing(target, source);
    forall key | key in source.fields && Get(target, key).Record? && source.fields[key].Record?
      ensures FillMissing(Get(target, key), source.fields[key]) == Get(target, key) <==>
              Covers(Get(target, key), source.fields[key])
    {
      FillingChangesNothing(Get(target, key), source.fields[key]);
    }
    if Covers(target, source) {
      forall key ensures Get(filled, key) == Get(target, key) && (key in filled.fields <==> key in target.fields) {
        GetFilled(target, source, key);
      }
      assert filled.fields == target.fields;
    }
    if filled == target {
      forall key | key in source.fields && Offers(source, key)
        ensures Get(target, key) != Undefined
        ensures Get(target, key).Record? && source.fields[key].Record? ==> Covers(Get(target, key), source.fields[key])
      {
        GetFilled(target, source, key);
      }
    }
  }

  lemma {:induction false} CoversItself(j: Json)
    requires j.Record?
    ensures Covers(j, j)
    decreases j
  {
    forall key | key in j.fields && j.fields[key].Record? ensures Covers(j.fields[key], j.fields[key]) {
      CoversItself(j.fields[key]);
    }
  }

  lemma {:induction false} FilledCovers(target: Json, source: Json)
    requires target.Record? && source.Record?
    ensures Covers(FillMissing(target, source), source)
    decreases source
  {
    forall key | key in source.fields && Offers(source, key)
      ensures var now := Get(FillMissing(target, source), key);
              now != Undefined && (now.Record? && source.fields[key].Record? ==> Covers(now, source.fields[key]))
    {
      GetFilled(target, source, key);
      if source.fields[key].Record? {
        CoversItself(source.fields[key]);
        if Get(target, key).Record? {
          FilledCovers(Get(target, key), source.fields[key]);
        }
      }
    }
  }

  /** Filling twice from the same source is filling once. */
  lemma {:induction false} FillingTwice(target: Json, source: Json)
    requires target.Record? && source.Record?
    ensures FillMissing(FillMissing(target, source), source) == FillMissing(target, source)
  {
    FilledCovers(target, source);
    FillingChangesNothing(FillMissing(target, source), source);
  }

  // ---------------------------------------------------------------- writing along a path

  /** `ensureRecord(root, key)` as a value: the record there, or a new empty one. */
  function Ensure(j: Json, key: string): (r: Json)
    ensures r.Record?
  {
    if Get(j, key).Record? then Get(j, key) else EMPTY_RECORD
  }

  function SetField(j: Json, key: string, value: Json): Json
    requires j.Record?
  {
    Record(j.fields[key := value])
  }

  function RemoveField(j: Json, key: string): Json
    requires j.Record?
  {
    Record(j.fields - {key})
  }

  /** `ensureRecord` along all but the last name of the path, then an assignment. */
  function PutAt(j: Json, path: seq<string>, value: Json): (r: Json)
    requires j.Record? && path != []
    ensures r.Record?
    decreases |path|
  {
    if |path| == 1 then SetField(j, path[0], value)
    else SetField(j, path[0], PutAt(Ensure(j, path[0]), path[1..], value))
  }

  lemma {:induction false} PutThenGet(j: Json, path: seq<string>, value: Json)
    requires j.Record? && path != []
    ensures At(PutAt(j, path, value), path) == value
    decreases |path|
  {
    if |path| > 1 {
      PutThenGet(Ensure(j, path[0]), path[1..], value);
    }
  }

  lemma {:induction false} AtEmptyRecord(path: seq<string>)
    requires path != []
    ensures At(EMPTY_RECORD, path) == Undefined
  {
    AtUndefined(path[1..]);
  }

  /** Paths that part ways with the one written to show what they showed before. */
  lemma {:induction false} PutElsewhere(j: Json, path: seq<string>, value: Json, q: seq<string>)
    requires j.Record? && path != []
    requires !(q <= path) && !(path <= q)
    ensures At(PutAt(j, path, value), q) == At(j, q)
    decreases |path|
  {
    if q[0] == path[0] {
      assert q == [q[0]] + q[1..] && path == [path[0]] + path[1..];
      PutElsewhere(Ensure(j, path[0]), path[1..], value, q[1..]);
      match Get(j, path[0])
      case Undefined => AtUndefined(q[1..]); AtEmptyRecord(q[1..]);
      case Leaf(text) => AtLeaf(text, q[1..]); AtEmptyRecord(q[1..]);
      case Record(_) =>
    }
  }

  /** `ensureRecord` along a path. */
  function EnsureAll(j: Json, path: seq<string>): (r: Json)
    requires j.Record?
    ensures r.Record?
    decreases |path|
  {
    if path == [] then j else SetField(j, path[0], EnsureAll(Ensure(j, path[0]), path[1..]))
  }

  /** Replacing what is at a path of records. */
  function ReplaceAt(j: Json, path: seq<string>, value: Json): Json
    decreases |path|
  {
    if path == [] then value
    else if !j.Record? then j
    else SetField(j, path[0], ReplaceAt(Get(j, path[0]), path[1..], value))
  }

  lemma {:induction false} EnsuredShowsTheSame(j: Json, path: seq<string>, key: string)
    requires j.Record?
    ensures At(EnsureAll(j, path), path).Record?
    ensures Get(At(EnsureAll(j, path), path), key) == At(j, path + [key])
    decreases |path|
  {
    if path == [] {
      assert [key][1..] == [] && path + [key] == [key];
    } else {
      assert (path + [key])[1..] == path[1..] + [key];
      EnsuredShowsTheSame(Ensure(j, path[0]), path[1..], key);
      match Get(j, path[0])
      case Undefined => AtUndefined(path[1..] + [key]); AtEmptyRecord(path[1..] + [key]);
      case Leaf(text) => AtLeaf(text, path[1..] + [key]); AtEmptyRecord(path[1..] + [key]);
      case Record(_) =>
    }
  }

  /** Assigning below the ensured records is writing along the path. */
  lemma {:induction false} EnsureThenAssign(j: Json, path: seq<string>, key: string, value: Json)
    requires j.Record?
    ensures At(EnsureAll(j, path), path).Record?
    ensures ReplaceAt(EnsureAll(j, path), path, SetField(At(EnsureAll(j, path), path), key, value))
              == PutAt(j, path + [key], value)
    decreases |path|
  {
    if path == [] {
      assert path + [key] == [key];
    } else {
      assert (path + [key])[1..] == path[1..] + [key];
      EnsureThenAssign(Ensure(j, path[0]), path[1..], key, value);
    }
  }
}

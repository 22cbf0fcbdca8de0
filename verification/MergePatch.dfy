/**
 JSON Merge Patch as the preference store applies it: the in-place loop over the patch's
 keys, the MergePatch function of section 2 of RFC 7396 it must compute, and the
 validate-then-commit update built on it.
 */
module MergePatch {
  import opened Prelude

  datatype Json =
    | Null
    | Bool(b: bool)
    | Num(n: real)
    | Str(s: string)
    | Arr(items: seq<Json>)
    | Obj(fields: map<string, Json>)

  function FieldsOf(j: Json): map<string, Json> {
    if j.Obj? then j.fields else map[]
  }

  function FieldOrNull(fields: map<string, Json>, key: string): Json {
    if key in fields then fields[key] else Null
  }

  /** Section 2 of RFC 7396. A missing target member behaves like `Null`: neither is an object. */
  function Merge(target: Json, patch: Json): Json
    decreases patch
  {
    match patch
    case Obj(named) =>
      var fields := FieldsOf(target);
      Obj(map key | key in fields.Keys + named.Keys && !(key in named && named[key].Null?) ::
        if key in named then Merge(FieldOrNull(fields, key), named[key]) else fields[key])
    case _ => patch
  }

  /** The target's members after only the keys in `done` have been applied. */
  ghost function PartlyMerged(fields: map<string, Json>, named: map<string, Json>, done: set<string>): map<string, Json>
    requires done <= named.Keys
  {
    map key | key in fields.Keys + done && !(key in done && named[key].Null?) ::
      if key in done then Merge(FieldOrNull(fields, key), named[key]) else fields[key]
  }

  lemma {:induction false} PartlyMergedStep(fields: map<string, Json>, named: map<string, Json>, done: set<string>, key: string)
    requires done <= named.Keys && key in named && key !in done
    ensures FieldOrNull(PartlyMerged(fields, named, done), key) == FieldOrNull(fields, key)
    ensures PartlyMerged(fields, named, done + {key}) ==
            if named[key].Null? then PartlyMerged(fields, named, done) - {key}
            else PartlyMerged(fields, named, done)[key := Merge(FieldOrNull(fields, key), named[key])]
  {
  }

  /** `apply_merge_patch`: the keys of the patch come in any order. */
  method ApplyMergePatch(target: Json, patch: Json) returns (result: Json)
    ensures result == Merge(target, patch)
    decreases patch
  {
    if !patch.Obj? {
      return patch;
    }
    var targetMap := FieldsOf(target);
    ghost var original := targetMap;
    var remaining := patch.fields.Keys;
    while remaining != {}
      invariant remaining <= patch.fields.Keys
      invariant targetMap == PartlyMerged(original, patch.fields, patch.fields.Keys - remaining)
    {
      var key :| key in remaining;
      var value := patch.fields[key];
      PartlyMergedStep(original, patch.fields, patch.fields.Keys - remaining, key);
      if value.Null? {
        targetMap := targetMap - {key};
      } else if value.Obj? {
        var entry := FieldOrNull(targetMap, key);
        var merged := ApplyMergePatch(entry, value);
        targetMap := targetMap[key := merged];
      } else {
        targetMap := targetMap[key := value];
      }
      assert patch.fields.Keys - (remaining - {key}) == patch.fields.Keys - remaining + {key};
      remaining := remaining - {key};
    }
    result := Obj(targetMap);
  }

  /** Applying the same patch a second time changes nothing. */
  lemma {:induction false} MergeIsIdempotent(target: Json, patch: Json)
    ensures Merge(Merge(target, patch), patch) == Merge(target, patch)
    decreases patch
  {
    if patch.Obj? {
      var once := Merge(target, patch);
      var fields := FieldsOf(target);
      forall key | key in patch.fields && !patch.fields[key].Null?
        ensures Merge(once.fields[key], patch.fields[key]) == once.fields[key]
      {
        MergeIsIdempotent(FieldOrNull(fields, key), patch.fields[key]);
      }
      assert Merge(once, patch).fields == once.fields;
    }
  }

  /** The value reached by following member names from the root. */
  function At(j: Json, path: seq<string>): Option<Json>
    decreases |path|
  {
    if path == [] then Some(j)
    else if j.Obj? && path[0] in j.fields then At(j.fields[path[0]], path[1..])
    else None
  }

  /** The patch is an object along `path` up to a member it does not name. */
  predicate LeavesAlone(patch: Json, path: seq<string>)
    decreases |path|
  {
    path != [] && patch.Obj? &&
    (path[0] in patch.fields ==> LeavesAlone(patch.fields[path[0]], path[1..]))
  }

  /** `null` in the patch for the member at `path`, inside nothing but objects. */
  predicate Removes(patch: Json, path: seq<string>)
    decreases |path|
  {
    path != [] && patch.Obj? && path[0] in patch.fields &&
    (if |path| == 1 then patch.fields[path[0]].Null? else Removes(patch.fields[path[0]], path[1..]))
  }

  /** At any depth, a member the patch does not name keeps its old value, or stays absent. */
  lemma {:induction false} UnnamedMembersUntouched(target: Json, patch: Json, path: seq<string>)
    requires LeavesAlone(patch, path)
    ensures At(Merge(target, patch), path) ==
            (if target.Obj? then At(target, path) else None)
    decreases |path|
  {
    var fields := FieldsOf(target);
    var key := path[0];
    if key in patch.fields {
      UnnamedMembersUntouched(FieldOrNull(fields, key), patch.fields[key], path[1..]);
      assert path[1..] != [];
    }
  }

  /** At any depth, a `null` in the patch removes exactly that member. */
  lemma {:induction false} NullRemoves(target: Json, patch: Json, path: seq<string>)
    requires Removes(patch, path)
    ensures At(Merge(target, patch), path) == None
    decreases |path|
  {
    if |path| > 1 {
      NullRemoves(FieldOrNull(FieldsOf(target), path[0]), patch.fields[path[0]], path[1..]);
    }
  }

  /** At any depth, a value in the patch that is no object is the value afterwards, whatever was there before. */
  lemma {:induction false} ValueIsSet(target: Json, patch: Json, path: seq<string>, v: Json)
    requires At(patch, path) == Some(v) && !v.Obj? && (v.Null? ==> path == [])
    ensures At(Merge(target, patch), path) == Some(v)
    decreases |path|
  {
    if path != [] {
      ValueIsSet(FieldOrNull(FieldsOf(target), path[0]), patch.fields[path[0]], path[1..], v);
    }
  }

  /**
   At any depth, an object in the patch leaves an object with exactly these members: those it
   names with a value that is not `null`, and those it does not name that were there before.
   Over anything that is no object only the former remain.
   */
  lemma {:induction false} ObjectMembers(target: Json, patch: Json, path: seq<string>, named: map<string, Json>)
    requires At(patch, path) == Some(Obj(named))
    ensures var merged := At(Merge(target, patch), path);
            merged.Some? && merged.value.Obj? &&
            forall key :: key in merged.value.fields <==>
              if key in named then !named[key].Null? else At(target, path + [key]).Some?
    decreases |path|
  {
    if path == [] {
      forall key: string ensures At(target, path + [key]).Some? <==> target.Obj? && key in target.fields {
        assert path + [key] == [key] && [key][1..] == [];
      }
    } else {
      var below := FieldOrNull(FieldsOf(target), path[0]);
      ObjectMembers(below, patch.fields[path[0]], path[1..], named);
      forall key: string ensures At(target, path + [key]) == At(below, path[1..] + [key]) {
        assert (path + [key])[0] == path[0] && (path + [key])[1..] == path[1..] + [key];
      }
    }
  }

  datatype PatchError = InvalidState | NotSaved

  /**
   `PreferencesStore`: the preferences in memory and the file behind them. The typed schema is
   an encoding to JSON and a decoder that may reject.
   */
  class PreferencesStore<T(!new)> {
    const encode: T -> Json
    const decode: Json -> Option<T>
    var preferences: T
    var onDisk: Option<T>

    constructor (encode: T -> Json, decode: Json -> Option<T>, loaded: T, onDisk: Option<T>)
      ensures this.encode == encode && this.decode == decode
      ensures preferences == loaded && this.onDisk == onDisk
    {
      this.encode, this.decode := encode, decode;
      this.preferences, this.onDisk := loaded, onDisk;
    }

    /** What stands at `path` survives decoding and encoding: the schema knows the preference. */
    ghost predicate Knows(path: seq<string>) {
      forall j, prefs :: decode(j) == Some(prefs) && At(j, path).Some? ==> At(encode(prefs), path) == At(j, path)
    }

    /** `merge_patch`: validate, save, and only then replace the preferences in memory. */
    method MergePatch(patch: Json, saveSucceeds: bool) returns (result: Result<T, PatchError>)
      modifies this
      ensures
        var merged := decode(Merge(encode(old(preferences)), patch));
        match merged
        case None => result == Err(InvalidState) && preferences == old(preferences) && onDisk == old(onDisk)
        case Some(prefs) =>
          if saveSucceeds then result == Ok(prefs) && preferences == prefs && onDisk == Some(prefs)
          else result == Err(NotSaved) && preferences == old(preferences) && onDisk == old(onDisk)
      ensures forall path, v :: result.Ok? && Knows(path) && At(patch, path) == Some(v) && !v.Obj? && !v.Null? ==>
                At(encode(preferences), path) == Some(v)
      ensures forall path :: result.Ok? && Knows(path) && LeavesAlone(patch, path) && At(encode(old(preferences)), path).Some? ==>
                At(encode(preferences), path) == At(encode(old(preferences)), path)
    {
      var current := encode(preferences);
      current := ApplyMergePatch(current, patch);
      var merged := decode(current);
      if merged.None? {
        return Err(InvalidState);
      }
      if !saveSucceeds {
        return Err(NotSaved);
      }
      forall path, v | At(patch, path) == Some(v) && !v.Obj? && !v.Null? ensures At(current, path) == Some(v) {
        ValueIsSet(encode(preferences), patch, path, v);
      }
      forall path | LeavesAlone(patch, path) && At(encode(preferences), path).Some?
        ensures At(current, path) == At(encode(preferences), path)
      {
        UnnamedMembersUntouched(encode(preferences), patch, path);
      }
      onDisk := Some(merged.value);
      preferences := merged.value;
      result := Ok(merged.value);
    }
  }
}

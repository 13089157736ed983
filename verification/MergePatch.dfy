/** Settings patches: the server's merge of JSON objects against section 2 of RFC 7396 (JSON Merge Patch), and the
    validation around it. */
module MergePatch {
  import opened Entities

  datatype Json =
    | Null
    | Bool(b: bool)
    | Number(n: real)
    | Text(s: string)
    | Array(items: seq<Json>)
    | Object(fields: map<string, Json>)

  // ---------- the server's merge ----------

  /** A null deletes, two objects merge, anything else replaces. */
  function Merge(current: Json, patch: Json): (r: Json)
    requires current.Object? && patch.Object?
    ensures r.Object?
    decreases patch
  {
    Object(map k | k in current.fields.Keys + patch.fields.Keys && !(k in patch.fields && patch.fields[k].Null?) ::
      if k !in patch.fields then current.fields[k]
      else if patch.fields[k].Object? && k in current.fields && current.fields[k].Object?
      then Merge(current.fields[k], patch.fields[k])
      else patch.fields[k])
  }

  method CopyFields(fields: map<string, Json>) returns (copy: map<string, Json>)
    ensures copy == fields
  {
    copy := map[];
    var keys := fields.Keys;
    while keys != {}
      invariant keys <= fields.Keys
      invariant copy == map k | k in fields && k !in keys :: fields[k]
      decreases |keys|
    {
      var key :| key in keys;
      copy := copy[key := fields[key]];
      keys := keys - {key};
    }
  }

  /** One turn of the merge loop. */
  method MergeEntry(merged: map<string, Json>, key: string, value: Json) returns (r: map<string, Json>)
    ensures r == Turn(merged, key, value)
    decreases value, 1
  {
    if value.Null? {
      return merged - {key};
    }
    if value.Object? && key in merged && merged[key].Object? {
      var nested := MergeJSONObject(merged[key], value);
      return merged[key := Object(nested)];
    }
    return merged[key := value];
  }

  method MergeJSONObject(current: Json, patch: Json) returns (merged: map<string, Json>)
    requires current.Object? && patch.Object?
    ensures Object(merged) == Merge(current, patch)
    decreases patch, 0
  {
    merged := CopyFields(current.fields);
    var done: set<string> := {};
    NothingMerged(current, patch);
    while done != patch.fields.Keys
      invariant done <= patch.fields.Keys
      invariant merged == PartlyMerged(current, patch, done)
      decreases |patch.fields.Keys - done|
    {
      var key :| key in patch.fields.Keys - done;
      PartlyMergedStep(current, patch, done, key);
      merged := MergeEntry(merged, key, patch.fields[key]);
      done := done + {key};
    }
    FullyMerged(current, patch);
  }

  lemma NothingMerged(current: Json, patch: Json)
    requires current.Object? && patch.Object?
    ensures PartlyMerged(current, patch, {}) == current.fields
  {
  }

  lemma FullyMerged(current: Json, patch: Json)
    requires current.Object? && patch.Object?
    ensures Object(PartlyMerged(current, patch, patch.fields.Keys)) == Merge(current, patch)
  {
  }

  /** The local map of the merge after the patch keys in `done`. */
  ghost function PartlyMerged(current: Json, patch: Json, done: set<string>): map<string, Json>
    requires current.Object? && patch.Object? && done <= patch.fields.Keys
  {
    map k | k in current.fields.Keys + done && !(k in done && patch.fields[k].Null?) ::
      if k !in done then current.fields[k]
      else if patch.fields[k].Object? && k in current.fields && current.fields[k].Object?
      then Merge(current.fields[k], patch.fields[k])
      else patch.fields[k]
  }

  /** What the loop does with one patch entry. */
  function Turn(merged: map<string, Json>, key: string, value: Json): map<string, Json> {
    if value.Null? then merged - {key}
    else if value.Object? && key in merged && merged[key].Object? then merged[key := Merge(merged[key], value)]
    else merged[key := value]
  }

  lemma PartlyMergedStep(current: Json, patch: Json, done: set<string>, key: string)
    requires current.Object? && patch.Object? && done <= patch.fields.Keys && key in patch.fields && key !in done
    ensures PartlyMerged(current, patch, done + {key}) == Turn(PartlyMerged(current, patch, done), key, patch.fields[key])
  {
  }

  // ---------- the standard ----------

  /** MergePatch of section 2 of RFC 7396. */
  function Standard(target: Json, patch: Json): (r: Json)
    ensures patch.Object? ==> r.Object?
    decreases patch
  {
    if !patch.Object? then patch
    else
      var base := if target.Object? then target.fields else map[];
      Object(map k | k in base.Keys + patch.fields.Keys && !(k in patch.fields && patch.fields[k].Null?) ::
        if k !in patch.fields then base[k]
        else Standard(if k in base then base[k] else Null, patch.fields[k]))
  }

  /** No null sits in the object, at any depth that is reached through objects. */
  predicate NoNulls(j: Json) {
    j.Object? ==> forall k :: k in j.fields ==> !j.fields[k].Null? && NoNulls(j.fields[k])
  }

  /** No null sits inside a patch object that lands on a missing or non-object value. */
  predicate Clean(current: Json, patch: Json)
    requires current.Object? && patch.Object?
    decreases patch
  {
    forall k :: k in patch.fields && patch.fields[k].Object? ==>
      if k in current.fields && current.fields[k].Object? then Clean(current.fields[k], patch.fields[k])
      else NoNulls(patch.fields[k])
  }

  /** On anything but an object, the standard drops nulls; so it is the patch itself exactly if there are none. */
  lemma {:induction false} LandsAsIs(target: Json, patch: Json)
    requires patch.Object? && !target.Object?
    ensures Standard(target, patch) == patch <==> NoNulls(patch)
    decreases patch
  {
    var r := Standard(target, patch);
    forall k | k in patch.fields && !patch.fields[k].Null?
      ensures k in r.fields && (r.fields[k] == patch.fields[k] <==> NoNulls(patch.fields[k]))
    {
      assert r.fields[k] == Standard(Null, patch.fields[k]);
      if patch.fields[k].Object? { LandsAsIs(Null, patch.fields[k]); }
    }
    if NoNulls(patch) {
      assert r.fields == patch.fields;
    } else {
      var k :| k in patch.fields && (patch.fields[k].Null? || !NoNulls(patch.fields[k]));
      assert patch.fields[k].Null? ==> k !in r.fields;
    }
  }

  lemma StandardAt(current: Json, patch: Json, k: string)
    requires current.Object? && patch.Object? && k in Standard(current, patch).fields
    ensures Standard(current, patch).fields[k]
            == if k !in patch.fields then current.fields[k]
               else if !patch.fields[k].Object? then patch.fields[k]
               else Standard(if k in current.fields then current.fields[k] else Null, patch.fields[k])
  {
  }

  /** The server's merge is the standard's exactly on clean patches, at every depth. */
  lemma {:induction false} MergeIsStandardExactly(current: Json, patch: Json)
    requires current.Object? && patch.Object?
    ensures Merge(current, patch) == Standard(current, patch) <==> Clean(current, patch)
    decreases patch
  {
    var m, r := Merge(current, patch), Standard(current, patch);
    assert m.fields.Keys == r.fields.Keys;
    forall k | k in m.fields
      ensures m.fields[k] == r.fields[k] <==>
                (k in patch.fields && patch.fields[k].Object? ==>
                   if k in current.fields && current.fields[k].Object? then Clean(current.fields[k], patch.fields[k])
                   else NoNulls(patch.fields[k]))
    {
      StandardAt(current, patch, k);
      if k in patch.fields && patch.fields[k].Object? {
        if k in current.fields && current.fields[k].Object? {
          MergeIsStandardExactly(current.fields[k], patch.fields[k]);
        } else {
          LandsAsIs(if k in current.fields then current.fields[k] else Null, patch.fields[k]);
        }
      }
    }
    assert m == r <==> forall k :: k in m.fields ==> m.fields[k] == r.fields[k];
    assert forall k :: k in patch.fields && patch.fields[k].Object? ==> k in m.fields;
  }

  // ---------- idempotence ----------

  /** Merging an object into itself drops its nulls. */
  lemma {:induction false} SelfMerge(patch: Json)
    requires patch.Object?
    ensures Merge(patch, patch) == patch <==> NoNulls(patch)
    decreases patch
  {
    var m := Merge(patch, patch);
    forall k | k in patch.fields && !patch.fields[k].Null?
      ensures k in m.fields && (m.fields[k] == patch.fields[k] <==> NoNulls(patch.fields[k]))
    {
      if patch.fields[k].Object? { SelfMerge(patch.fields[k]); }
    }
    if NoNulls(patch) {
      assert m.fields == patch.fields;
    } else {
      var k :| k in patch.fields && (patch.fields[k].Null? || !NoNulls(patch.fields[k]));
      assert patch.fields[k].Null? ==> k !in m.fields;
    }
  }

  /** Sending a patch again changes nothing, exactly if the patch is clean. */
  lemma {:induction false} MergeIsIdempotentExactly(current: Json, patch: Json)
    requires current.Object? && patch.Object?
    ensures Merge(Merge(current, patch), patch) == Merge(current, patch) <==> Clean(current, patch)
    decreases patch
  {
    var once := Merge(current, patch);
    var twice := Merge(once, patch);
    assert twice.fields.Keys == once.fields.Keys;
    forall k | k in once.fields
      ensures twice.fields[k] == once.fields[k] <==>
                (k in patch.fields && patch.fields[k].Object? ==>
                   if k in current.fields && current.fields[k].Object? then Clean(current.fields[k], patch.fields[k])
                   else NoNulls(patch.fields[k]))
    {
      if k in patch.fields && patch.fields[k].Object? {
        if k in current.fields && current.fields[k].Object? {
          MergeIsIdempotentExactly(current.fields[k], patch.fields[k]);
        } else {
          SelfMerge(patch.fields[k]);
        }
      }
    }
    assert twice == once <==> forall k :: k in once.fields ==> twice.fields[k] == once.fields[k];
    assert forall k :: k in patch.fields && patch.fields[k].Object? ==> k in once.fields;
  }

  // ---------- validation ----------

  const FLAGS: set<string> := {"aiEnabled", "remindersEnabled", "onboardingCompleted", "localOnly"}
  const PERMISSIONS: set<string> := {"goals", "calendar", "records", "privateNotes"}

  predicate WholeEnergy(raw: Json) {
    raw.Number? && 1.0 <= raw.n <= 5.0 && raw.n.Floor as real == raw.n
  }

  predicate FocusAreas(raw: Json) {
    raw.Array? && |raw.items| <= 20 && forall i :: 0 <= i < |raw.items| ==> raw.items[i].Text? && 1 <= |raw.items[i].s| <= 40
  }

  predicate Permissions(raw: Json, patch: bool) {
    raw.Object? && forall k :: k in raw.fields ==> k in PERMISSIONS && (raw.fields[k].Bool? || (patch && raw.fields[k].Null?))
  }

  predicate ValidSetting(key: string, raw: Json, patch: bool) {
    || (patch && raw.Null? && (key in FLAGS || key in {"energy", "dataMode", "focusAreas", "permissions"}))
    || (key == "energy" && WholeEnergy(raw))
    || (key in FLAGS && raw.Bool?)
    || (key == "dataMode" && (raw == Text("local") || raw == Text("selected")))
    || (key == "focusAreas" && FocusAreas(raw))
    || (key == "permissions" && Permissions(raw, patch))
  }

  predicate ValidSettings(value: Json, patch: bool) {
    value.Object? && forall k :: k in value.fields ==> ValidSetting(k, value.fields[k], patch)
  }

  /** The settings after a patch; errors leave them as they are. */
  function Patched(current: Json, patch: Json): Option<Json> {
    if !ValidSettings(patch, true) then None
    else
      var merged := Merge(if current.Object? then current else Object(map[]), patch);
      if ValidSettings(merged, false) then Some(merged) else None
  }

  lemma AcceptedIsClean(current: Json, patch: Json)
    requires current.Object? && ValidSettings(patch, true) && ValidSettings(Merge(current, patch), false)
    ensures Clean(current, patch)
  {
    var merged := Merge(current, patch);
    forall k | k in patch.fields && patch.fields[k].Object?
      ensures if k in current.fields && current.fields[k].Object? then Clean(current.fields[k], patch.fields[k])
              else NoNulls(patch.fields[k])
    {
      assert ValidSetting(k, patch.fields[k], true) && k == "permissions";
      assert ValidSetting(k, merged.fields[k], false);
    }
  }

  /** Every patch that is accepted acts as a merge patch of the standard, and can be sent again; a null that would
      land inside a missing permissions object is refused by the second validation. */
  lemma AcceptedPatchesFollowTheStandard(current: Json, patch: Json)
    requires current.Object? && Patched(current, patch).Some?
    ensures Patched(current, patch) == Some(Standard(current, patch))
    ensures Patched(Patched(current, patch).value, patch) == Patched(current, patch)
  {
    AcceptedIsClean(current, patch);
    MergeIsStandardExactly(current, patch);
    MergeIsIdempotentExactly(current, patch);
  }

  lemma PermissionsMerge(current: Json, patch: Json)
    requires Permissions(current, false) && Permissions(patch, true)
    ensures Permissions(Merge(current, patch), false)
  {
  }

  /** A patch on valid settings is accepted exactly if it is valid and clean. */
  lemma AcceptedExactly(current: Json, patch: Json)
    requires ValidSettings(current, false)
    ensures Patched(current, patch).Some? <==> ValidSettings(patch, true) && Clean(current, patch)
  {
    if ValidSettings(patch, true) {
      var merged := Merge(current, patch);
      if Clean(current, patch) {
        forall k | k in merged.fields ensures ValidSetting(k, merged.fields[k], false) {
          if k !in patch.fields {
            assert ValidSetting(k, current.fields[k], false);
          } else {
            assert ValidSetting(k, patch.fields[k], true);
            if k == "permissions" {
              if k in current.fields && current.fields[k].Object? {
                assert ValidSetting(k, current.fields[k], false);
                PermissionsMerge(current.fields[k], patch.fields[k]);
              } else {
                assert NoNulls(patch.fields[k]);
              }
            }
          }
        }
      } else if ValidSettings(merged, false) {
        AcceptedIsClean(current, patch);
      }
    }
  }

  /** A patch of one plain setting is accepted on valid settings exactly for: a null, an energy of one to five, a flag, one
      of two data modes, or at most twenty focus areas of one to forty characters. */
  lemma PlainSettingExactly(current: Json, key: string, raw: Json)
    requires ValidSettings(current, false) && key != "permissions"
    ensures Patched(current, Object(map[key := raw])).Some?
            <==> match raw
                 case Null => key in {"energy", "dataMode", "focusAreas", "aiEnabled", "remindersEnabled", "onboardingCompleted", "localOnly"}
                 case Number(n) => key == "energy" && n in {1.0, 2.0, 3.0, 4.0, 5.0}
                 case Bool(_) => key in {"aiEnabled", "remindersEnabled", "onboardingCompleted", "localOnly"}
                 case Text(s) => key == "dataMode" && (s == "local" || s == "selected")
                 case Array(items) =>
                   key == "focusAreas" && |items| <= 20 && forall i :: 0 <= i < |items| ==> items[i].Text? && 1 <= |items[i].s| <= 40
                 case Object(_) => false
  {
    var patch := Object(map[key := raw]);
    AcceptedExactly(current, patch);
    assert key in patch.fields && patch.fields[key] == raw;
    assert ValidSettings(patch, true) <==> ValidSetting(key, raw, true);
    if raw.Number? { WholeIsOneToFive(raw.n); }
  }

  lemma WholeIsOneToFive(n: real)
    ensures WholeEnergy(Number(n)) <==> n in {1.0, 2.0, 3.0, 4.0, 5.0}
  {
    if WholeEnergy(Number(n)) {
      var whole := n.Floor;
      assert 1 <= whole <= 5;
    }
  }
}

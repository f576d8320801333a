/**
 * What the add-on does to one object and to a whole traversal: the snapshot of
 * slot material names (`store_original_materials`), the substitution under the
 * exclude set (`apply_override_material`), the replay of the snapshot by name
 * (`revert_original_materials`) and the Generic backfill
 * (`tag_objects_with_generic_material`), with the properties that relate them.
 */
module Override {
  import opened Optional
  import opened Scene

  // ---------------------------------------------------------------- one slot

  /**
   * The entry stored for one slot: its material's name, or null for an empty
   * slot. A valid document names every material a slot holds, so the last
   * branch only covers slots the document does not describe.
   */
  function SlotName(s: Option<MatId>, nameOf: map<MatId, string>): Option<string>
  {
    if s.Some? && s.value in nameOf then Some(nameOf[s.value]) else None
  }

  function SlotNames(slots: seq<Option<MatId>>, nameOf: map<MatId, string>): seq<Option<string>>
  {
    seq(|slots|, j requires 0 <= j < |slots| => SlotName(slots[j], nameOf))
  }

  /** The substitution rule: a slot keeps an excluded material, or the override itself; anything else becomes the override. */
  function Substitute(s: Option<MatId>, override: MatId, exclude: set<Option<MatId>>): Option<MatId>
  {
    if s !in exclude && s != Some(override) then Some(override) else s
  }

  function Substituted(slots: seq<Option<MatId>>, override: MatId, exclude: set<Option<MatId>>): seq<Option<MatId>>
  {
    seq(|slots|, j requires 0 <= j < |slots| => Substitute(slots[j], override, exclude))
  }

  /** `if mat_name:` a stored entry names a material only when it is a non-empty string. */
  predicate Named(e: Option<string>)
  {
    e.Some? && e.value != ""
  }

  /** `bpy.data.materials.get(name)`. */
  function Lookup(name: string, library: map<string, MatId>): Option<MatId>
  {
    if name in library then Some(library[name]) else None
  }

  /** The slots after replaying `rec`: a named entry sets its slot to whatever its name now resolves to. */
  function Restored(slots: seq<Option<MatId>>, rec: seq<Option<string>>, library: map<string, MatId>): seq<Option<MatId>>
  {
    seq(|slots|, j requires 0 <= j < |slots| =>
      if j < |rec| && Named(rec[j]) then Lookup(rec[j].value, library) else slots[j])
  }

  /** The materials whose fake-user flag a replay of `rec` clears: those its names still resolve to. */
  function Released(rec: seq<Option<string>>, library: map<string, MatId>): set<MatId>
  {
    set e | e in rec && Named(e) && e.value in library :: library[e.value]
  }

  /** The materials held by some slot: those whose fake-user flag a snapshot sets. */
  function Retained(slots: seq<Option<MatId>>): set<MatId>
  {
    set s | s in slots && s.Some? :: s.value
  }

  /** `any(slot.material for slot in obj.material_slots)`. */
  predicate AnyFilled(slots: seq<Option<MatId>>)
  {
    exists j :: 0 <= j < |slots| && slots[j].Some?
  }

  /** Replaying the record never indexes past the slot list: every entry beyond it is null or empty. */
  predicate Fits(o: Object)
  {
    o.record.Some? ==> forall i :: |o.slots| <= i < |o.record.value| ==> !Named(o.record.value[i])
  }

  // ---------------------------------------------------------- one object

  /** One pass of the add-on over the meshes of a traversal, with what it reads from the document. */
  datatype Pass =
    | Snapshot(nameOf: map<MatId, string>)
    | Substitution(override: MatId, exclude: set<Option<MatId>>)
    | Revert(library: map<string, MatId>)
    | Backfill(generic: MatId)

  /**
   * What a pass does to one mesh. No pass changes the kind or the instance
   * collection; a snapshot keeps the slots, a substitution keeps the record and
   * the number of slots, a revert drops the record and keeps the number of
   * slots, and a backfill keeps the record and leaves some slot filled.
   */
  function Visit(p: Pass, o: Object): (r: Object)
    ensures r.kind == o.kind && r.instances == o.instances
    ensures p.Snapshot? ==> r.slots == o.slots && r.record.Some? && |r.record.value| == |o.slots|
    ensures p.Substitution? ==> r.record == o.record && |r.slots| == |o.slots|
    ensures p.Revert? ==> r.record.None? && |r.slots| == |o.slots|
    ensures p.Backfill? ==> r.record == o.record && AnyFilled(r.slots) && |r.slots| == if |o.slots| == 0 then 1 else |o.slots|
  {
    match p
    case Snapshot(nameOf) =>
      o.(record := Some(SlotNames(o.slots, nameOf)))
    case Substitution(override, exclude) =>
      o.(slots := Substituted(o.slots, override, exclude))
    case Revert(library) =>
      if o.record.None? then o
      else o.(slots := Restored(o.slots, o.record.value, library), record := None)
    case Backfill(generic) =>
      if |o.slots| == 0 then
        var filled := [Some(generic)];
        assert filled[0].Some?;
        o.(slots := filled)
      else if !AnyFilled(o.slots) then
        var filled := o.slots[0 := Some(generic)];
        assert filled[0].Some?;
        o.(slots := filled)
      else o
  }

  /** Every pass is idempotent on one object. */
  lemma VisitIdempotent(p: Pass, o: Object)
    ensures Visit(p, Visit(p, o)) == Visit(p, o)
  {
    match p
    case Snapshot(nameOf) =>
    case Substitution(override, exclude) =>
      var once := Substituted(o.slots, override, exclude);
      assert Substituted(once, override, exclude) == once;
    case Revert(library) =>
    case Backfill(generic) =>
      var v := Visit(p, o);
      if |o.slots| == 0 {
        assert v.slots[0].Some?;
      } else if !AnyFilled(o.slots) {
        assert v.slots[0].Some?;
      }
  }

  // ---------------------------------------------------------- a traversal

  /**
   * A pass over a traversal: every mesh listed in `ids` is visited, everything
   * else is left alone. Stated set-wise: an object listed twice is visited
   * twice, which the idempotence of `Visit` makes the same as once.
   */
  function MapMeshes(objs: map<ObjId, Object>, ids: seq<ObjId>, p: Pass): (r: map<ObjId, Object>)
    ensures r.Keys == objs.Keys
  {
    map id | id in objs :: if id in ids && objs[id].kind == Mesh then Visit(p, objs[id]) else objs[id]
  }

  /** Visiting the next object of the traversal, in its current state, extends the pass by one step. */
  lemma MapMeshesStep(objs: map<ObjId, Object>, ids: seq<ObjId>, i: nat, p: Pass)
    requires i < |ids| && ids[i] in objs
    ensures var cur := MapMeshes(objs, ids[..i], p);
            MapMeshes(objs, ids[..i + 1], p)
            == if cur[ids[i]].kind == Mesh then cur[ids[i] := Visit(p, cur[ids[i]])] else cur
  {
    var cur := MapMeshes(objs, ids[..i], p);
    var id := ids[i];
    var next := MapMeshes(objs, ids[..i + 1], p);
    var want := if cur[id].kind == Mesh then cur[id := Visit(p, cur[id])] else cur;
    forall x | x in objs
      ensures next[x] == want[x]
    {
      MapMeshesStepAt(objs, ids, i, p, x);
    }
    assert next.Keys == want.Keys;
  }

  /** The step of `MapMeshesStep` for one object: only the next object of the traversal can change. */
  lemma MapMeshesStepAt(objs: map<ObjId, Object>, ids: seq<ObjId>, i: nat, p: Pass, x: ObjId)
    requires i < |ids| && ids[i] in objs && x in objs
    ensures var cur := MapMeshes(objs, ids[..i], p);
            MapMeshes(objs, ids[..i + 1], p)[x]
            == if x == ids[i] && cur[x].kind == Mesh then Visit(p, cur[x]) else cur[x]
  {
    assert ids[..i + 1] == ids[..i] + [ids[i]];
    if x == ids[i] {
      VisitIdempotent(p, objs[x]);
    } else {
      assert x in ids[..i + 1] <==> x in ids[..i];
    }
  }

  /** Running a pass a second time over the same traversal changes nothing. */
  lemma MapMeshesIdempotent(objs: map<ObjId, Object>, ids: seq<ObjId>, p: Pass)
    ensures MapMeshes(MapMeshes(objs, ids, p), ids, p) == MapMeshes(objs, ids, p)
  {
    var once := MapMeshes(objs, ids, p);
    forall id | id in objs
      ensures MapMeshes(once, ids, p)[id] == once[id]
    {
      VisitIdempotent(p, objs[id]);
    }
  }

  /** A pass changes no instance collection, so it leaves the traversal of the scene as it was. */
  lemma MapMeshesTraversal(scene: seq<ObjId>, objs: map<ObjId, Object>, ids: seq<ObjId>, p: Pass)
    requires Contained(scene, objs) && Closed(objs)
    ensures Closed(MapMeshes(objs, ids, p))
    ensures AllObjects(scene, MapMeshes(objs, ids, p)) == AllObjects(scene, objs)
  {
    var after := MapMeshes(objs, ids, p);
    forall id | id in objs
      ensures Members(after[id]) == Members(objs[id])
    {
      VisitIdempotent(p, objs[id]);
    }
    AllObjectsSameMembers(scene, after, objs);
  }

  // ------------------------------------------- fake-user effects of a traversal

  function RetainedBy(objs: map<ObjId, Object>, id: ObjId): set<MatId>
  {
    if id in objs && objs[id].kind == Mesh then Retained(objs[id].slots) else {}
  }

  /** The materials a snapshot over `ids` marks with a fake user. */
  function RetainedAll(objs: map<ObjId, Object>, ids: seq<ObjId>): set<MatId>
    decreases |ids|
  {
    if ids == [] then {}
    else RetainedAll(objs, ids[..|ids| - 1]) + RetainedBy(objs, ids[|ids| - 1])
  }

  function ReleasedBy(objs: map<ObjId, Object>, id: ObjId, library: map<string, MatId>): set<MatId>
  {
    if id in objs && objs[id].kind == Mesh && objs[id].record.Some?
    then Released(objs[id].record.value, library)
    else {}
  }

  /** The materials a revert over `ids` clears the fake user of: those the records of its meshes name. */
  function ReleasedAll(objs: map<ObjId, Object>, ids: seq<ObjId>, library: map<string, MatId>): set<MatId>
    decreases |ids|
  {
    if ids == [] then {}
    else ReleasedAll(objs, ids[..|ids| - 1], library) + ReleasedBy(objs, ids[|ids| - 1], library)
  }

  /** A mesh listed anywhere in the traversal contributes its released materials. */
  lemma {:induction false} ReleasedAllCovers(objs: map<ObjId, Object>, ids: seq<ObjId>, library: map<string, MatId>, id: ObjId)
    requires id in ids
    ensures ReleasedBy(objs, id, library) <= ReleasedAll(objs, ids, library)
    decreases |ids|
  {
    var n := |ids| - 1;
    if ids[n] != id {
      assert ids == ids[..n] + [ids[n]];
      ReleasedAllCovers(objs, ids[..n], library, id);
    }
  }

  /** One step of the store loop: the next object records its slots and its materials join the fake users. */
  lemma SnapshotStep(objs: map<ObjId, Object>, ids: seq<ObjId>, i: nat, nameOf: map<MatId, string>)
    requires i < |ids| && ids[i] in objs
    ensures var cur, id := MapMeshes(objs, ids[..i], Snapshot(nameOf)), ids[i];
      cur[id].kind == objs[id].kind && cur[id].slots == objs[id].slots &&
      MapMeshes(objs, ids[..i + 1], Snapshot(nameOf))
        == (if cur[id].kind == Mesh then cur[id := cur[id].(record := Some(SlotNames(cur[id].slots, nameOf)))] else cur) &&
      RetainedAll(objs, ids[..i + 1])
        == RetainedAll(objs, ids[..i]) + (if cur[id].kind == Mesh then Retained(cur[id].slots) else {})
  {
    MapMeshesStep(objs, ids, i, Snapshot(nameOf));
    assert ids[..i + 1][..i] == ids[..i];
    VisitIdempotent(Snapshot(nameOf), objs[ids[i]]);
  }

  /** A snapshot keeps every slot list, and afterwards every mesh of the traversal can be reverted. */
  lemma SnapshotKeepsSlots(objs: map<ObjId, Object>, ids: seq<ObjId>, nameOf: map<MatId, string>)
    ensures forall id :: id in objs ==> MapMeshes(objs, ids, Snapshot(nameOf))[id].slots == objs[id].slots
    ensures RecordsFit(MapMeshes(objs, ids, Snapshot(nameOf)), ids)
  {
    forall id | id in objs
      ensures MapMeshes(objs, ids, Snapshot(nameOf))[id].slots == objs[id].slots
    {
      VisitIdempotent(Snapshot(nameOf), objs[id]);
    }
  }

  /**
   * One step of the revert loop. An object met again has already lost its
   * record, so only a first visit replays a record and releases materials.
   */
  lemma RevertStep(objs: map<ObjId, Object>, ids: seq<ObjId>, i: nat, library: map<string, MatId>)
    requires i < |ids| && ids[i] in objs && RecordsFit(objs, ids)
    ensures var cur, id := MapMeshes(objs, ids[..i], Revert(library)), ids[i];
      var replays := cur[id].kind == Mesh && cur[id].record.Some?;
      (replays ==> cur[id] == objs[id] && Fits(cur[id])) &&
      MapMeshes(objs, ids[..i + 1], Revert(library))
        == (if replays then cur[id := cur[id].(slots := Restored(cur[id].slots, cur[id].record.value, library), record := None)]
            else cur) &&
      ReleasedAll(objs, ids[..i + 1], library)
        == ReleasedAll(objs, ids[..i], library) + (if replays then Released(cur[id].record.value, library) else {})
  {
    var id := ids[i];
    MapMeshesStep(objs, ids, i, Revert(library));
    assert ids[..i + 1][..i] == ids[..i];
    VisitIdempotent(Revert(library), objs[id]);
    if id in ids[..i] {
      ReleasedAllCovers(objs, ids[..i], library, id);
    }
  }

  /** Every mesh of the traversal can be reverted without indexing past its slots. */
  ghost predicate RecordsFit(objs: map<ObjId, Object>, ids: seq<ObjId>)
  {
    forall id :: id in ids && id in objs && objs[id].kind == Mesh ==> Fits(objs[id])
  }

  // ------------------------------------------------ the loops over one mesh's slots

  /** The list comprehension of `store_original_materials`: one entry per slot, in slot order. */
  method RecordNames(slots: seq<Option<MatId>>, nameOf: map<MatId, string>) returns (names: seq<Option<string>>)
    ensures names == SlotNames(slots, nameOf)
  {
    names := [];
    var i := 0;
    while i < |slots|
      invariant 0 <= i <= |slots|
      invariant |names| == i
      invariant forall k :: 0 <= k < i ==> names[k] == SlotName(slots[k], nameOf)
    {
      var entry := if slots[i].Some? && slots[i].value in nameOf then Some(nameOf[slots[i].value]) else None;
      names := names + [entry];
      i := i + 1;
    }
  }

  /** The fake-user loop of `store_original_materials`: the materials found in non-empty slots. */
  method SlotMaterials(slots: seq<Option<MatId>>) returns (found: set<MatId>)
    ensures found == Retained(slots)
  {
    found := {};
    var i := 0;
    while i < |slots|
      invariant 0 <= i <= |slots|
      invariant found == Retained(slots[..i])
    {
      assert slots[..i + 1] == slots[..i] + [slots[i]];
      if slots[i].Some? {
        found := found + {slots[i].value};
      }
      i := i + 1;
    }
    assert slots[..i] == slots;
  }

  /** The slot loop of `apply_override_material`, in place on the slot list. */
  method SubstituteSlots(slots: seq<Option<MatId>>, override: MatId, exclude: set<Option<MatId>>) returns (r: seq<Option<MatId>>)
    ensures r == Substituted(slots, override, exclude)
  {
    r := slots;
    var i := 0;
    while i < |r|
      invariant 0 <= i <= |r| == |slots|
      invariant forall k :: 0 <= k < i ==> r[k] == Substitute(slots[k], override, exclude)
      invariant forall k :: i <= k < |r| ==> r[k] == slots[k]
    {
      if r[i] !in exclude && r[i] != Some(override) {
        r := r[i := Some(override)];
      }
      i := i + 1;
    }
  }

  /**
   * The enumerate loop of `revert_original_materials`: each named entry sets its
   * slot to the material its name resolves to (empty when it resolves to none)
   * and clears that material's fake user.
   */
  method RestoreSlots(slots: seq<Option<MatId>>, rec: seq<Option<string>>, library: map<string, MatId>)
    returns (r: seq<Option<MatId>>, released: set<MatId>)
    requires forall i :: |slots| <= i < |rec| ==> !Named(rec[i])
    ensures r == Restored(slots, rec, library)
    ensures released == Released(rec, library)
  {
    r := slots;
    released := {};
    var i := 0;
    while i < |rec|
      invariant 0 <= i <= |rec|
      invariant |r| == |slots|
      invariant forall k :: 0 <= k < |slots| ==>
        r[k] == if k < i && Named(rec[k]) then Lookup(rec[k].value, library) else slots[k]
      invariant released == Released(rec[..i], library)
    {
      assert rec[..i + 1] == rec[..i] + [rec[i]];
      if rec[i].Some? && rec[i].value != "" {
        var m := if rec[i].value in library then Some(library[rec[i].value]) else None;
        r := r[i := m];
        if r[i].Some? {
          released := released + {r[i].value};
        }
      }
      i := i + 1;
    }
    assert rec[..i] == rec;
  }

  // ------------------------------------------------ the loops over a traversal

  /** The object loop of `store_original_materials`, with the fake users it sets along the way. */
  method StoreAll(objs: map<ObjId, Object>, ids: seq<ObjId>, nameOf: map<MatId, string>, fake: set<MatId>)
    returns (r: map<ObjId, Object>, fake': set<MatId>)
    requires Contained(ids, objs)
    ensures r == MapMeshes(objs, ids, Snapshot(nameOf))
    ensures fake' == fake + RetainedAll(objs, ids)
  {
    r, fake' := objs, fake;
    var i := 0;
    while i < |ids|
      invariant 0 <= i <= |ids|
      invariant r == MapMeshes(objs, ids[..i], Snapshot(nameOf))
      invariant fake' == fake + RetainedAll(objs, ids[..i])
    {
      var id := ids[i];
      SnapshotStep(objs, ids, i, nameOf);
      var obj := r[id];
      if obj.kind == Mesh {
        var names := RecordNames(obj.slots, nameOf);
        r := r[id := obj.(record := Some(names))];
        var found := SlotMaterials(obj.slots);
        fake' := fake' + found;
      }
      i := i + 1;
    }
    assert ids[..i] == ids;
  }

  /** The object loop of `apply_override_material`. */
  method SubstituteAll(objs: map<ObjId, Object>, ids: seq<ObjId>, override: MatId, exclude: set<Option<MatId>>)
    returns (r: map<ObjId, Object>)
    requires Contained(ids, objs)
    ensures r == MapMeshes(objs, ids, Substitution(override, exclude))
  {
    r := objs;
    var i := 0;
    while i < |ids|
      invariant 0 <= i <= |ids|
      invariant r == MapMeshes(objs, ids[..i], Substitution(override, exclude))
    {
      var id := ids[i];
      MapMeshesStep(objs, ids, i, Substitution(override, exclude));
      var obj := r[id];
      if obj.kind == Mesh {
        var slots := SubstituteSlots(obj.slots, override, exclude);
        r := r[id := obj.(slots := slots)];
      }
      i := i + 1;
    }
    assert ids[..i] == ids;
  }

  /** The object loop of `revert_original_materials`, with the fake users it clears along the way. */
  method RevertAll(objs: map<ObjId, Object>, ids: seq<ObjId>, library: map<string, MatId>, fake: set<MatId>)
    returns (r: map<ObjId, Object>, fake': set<MatId>)
    requires Contained(ids, objs) && RecordsFit(objs, ids)
    ensures r == MapMeshes(objs, ids, Revert(library))
    ensures fake' == fake - ReleasedAll(objs, ids, library)
  {
    r, fake' := objs, fake;
    var i := 0;
    while i < |ids|
      invariant 0 <= i <= |ids|
      invariant r == MapMeshes(objs, ids[..i], Revert(library))
      invariant fake' == fake - ReleasedAll(objs, ids[..i], library)
    {
      var id := ids[i];
      RevertStep(objs, ids, i, library);
      var obj := r[id];
      if obj.kind == Mesh && obj.record.Some? {
        var slots, released := RestoreSlots(obj.slots, obj.record.value, library);
        r := r[id := obj.(slots := slots, record := None)];
        fake' := fake' - released;
      }
      i := i + 1;
    }
    assert ids[..i] == ids;
  }

  /** The object loop of `tag_objects_with_generic_material`. */
  method BackfillAll(objs: map<ObjId, Object>, ids: seq<ObjId>, generic: MatId) returns (r: map<ObjId, Object>)
    requires Contained(ids, objs)
    ensures r == MapMeshes(objs, ids, Backfill(generic))
  {
    r := objs;
    var i := 0;
    while i < |ids|
      invariant 0 <= i <= |ids|
      invariant r == MapMeshes(objs, ids[..i], Backfill(generic))
    {
      var id := ids[i];
      MapMeshesStep(objs, ids, i, Backfill(generic));
      var obj := r[id];
      if obj.kind == Mesh {
        if |obj.slots| == 0 {
          assert obj.slots + [Some(generic)] == [Some(generic)];
          r := r[id := obj.(slots := obj.slots + [Some(generic)])];
        } else if !AnyFilled(obj.slots) {
          r := r[id := obj.(slots := obj.slots[0 := Some(generic)])];
        }
      }
      i := i + 1;
    }
    assert ids[..i] == ids;
  }
}

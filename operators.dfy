/**
 * The effect on the objects of the two operators' `execute` bodies, stated on
 * values, and the properties of their composition: what each pass does slot by
 * slot, the round trip, the backfill that runs after the substitution, and the
 * snapshot that a second store overwrites.
 */
module Operators {
  import opened Optional
  import opened Scene
  import opened Override

  /**
   * `tag_objects_with_generic_material`: a backfill pass when a material named
   * "Generic" exists, nothing otherwise. Either way the records are kept, and
   * with Generic every mesh of the traversal ends up with a filled slot.
   */
  function BackfillIfPresent(objs: map<ObjId, Object>, ids: seq<ObjId>, library: map<string, MatId>): (r: map<ObjId, Object>)
    ensures r.Keys == objs.Keys
    ensures "Generic" !in library ==> r == objs
    ensures forall id :: id in objs ==> r[id].kind == objs[id].kind && r[id].record == objs[id].record
    ensures "Generic" in library ==> forall id :: id in ids && id in objs && objs[id].kind == Mesh ==> AnyFilled(r[id].slots)
  {
    if "Generic" in library then MapMeshes(objs, ids, Backfill(library["Generic"])) else objs
  }

  /**
   * `OBJECT_OT_apply_advanced_material_override.execute`: store, substitute,
   * then backfill. Every mesh of the traversal is left holding the record of
   * the slots it had before.
   */
  function ApplyPasses(objs: map<ObjId, Object>, ids: seq<ObjId>, nameOf: map<MatId, string>,
                       library: map<string, MatId>, override: MatId, exclude: set<Option<MatId>>): (r: map<ObjId, Object>)
    ensures r.Keys == objs.Keys
    ensures forall id :: id in ids && id in objs && objs[id].kind == Mesh ==>
              r[id].kind == Mesh && r[id].record == Some(SlotNames(objs[id].slots, nameOf)) &&
              |r[id].slots| >= |objs[id].slots|
  {
    var stored := MapMeshes(objs, ids, Snapshot(nameOf));
    BackfillIfPresent(MapMeshes(stored, ids, Substitution(override, exclude)), ids, library)
  }

  /** `OBJECT_OT_cancel_advanced_material_override.execute`: revert, then backfill; no mesh of the traversal keeps a record. */
  function CancelPasses(objs: map<ObjId, Object>, ids: seq<ObjId>, library: map<string, MatId>): (r: map<ObjId, Object>)
    ensures r.Keys == objs.Keys
    ensures forall id :: id in ids && id in objs && objs[id].kind == Mesh ==> r[id].kind == Mesh && r[id].record.None?
  {
    BackfillIfPresent(MapMeshes(objs, ids, Revert(library)), ids, library)
  }

  /** The backfill of one mesh, as `BackfillIfPresent` performs it. */
  function BackfillObject(o: Object, library: map<string, MatId>): Object
  {
    if "Generic" in library then Visit(Backfill(library["Generic"]), o) else o
  }

  /** Each slot's material is named, non-empty, and its name still finds that very material. */
  ghost predicate Resolvable(slots: seq<Option<MatId>>, nameOf: map<MatId, string>, library: map<string, MatId>)
  {
    forall j :: 0 <= j < |slots| && slots[j].Some? ==>
      slots[j].value in nameOf && nameOf[slots[j].value] != "" && Lookup(nameOf[slots[j].value], library) == slots[j]
  }

  // ------------------------------------------------------- each pass, slot by slot

  /**
   * `store_original_materials`: every mesh of the traversal records exactly its
   * current slots (a name per filled slot, null per empty one), whatever it
   * recorded before, and keeps its slots; all other objects are unchanged.
   */
  lemma StoreEffect(objs: map<ObjId, Object>, ids: seq<ObjId>, nameOf: map<MatId, string>, id: ObjId)
    requires id in objs
    requires forall j :: 0 <= j < |objs[id].slots| && objs[id].slots[j].Some? ==> objs[id].slots[j].value in nameOf
    ensures var o, r := objs[id], MapMeshes(objs, ids, Snapshot(nameOf))[id];
      if id in ids && o.kind == Mesh then
        r.slots == o.slots && r.record.Some? && |r.record.value| == |o.slots| &&
        forall j :: 0 <= j < |o.slots| ==>
          r.record.value[j] == if o.slots[j].Some? then Some(nameOf[o.slots[j].value]) else None
      else r == o
  {
  }

  /**
   * `apply_override_material`: on every mesh of the traversal a slot whose
   * material is excluded, or is the override, keeps it, and every other slot,
   * empty ones included, holds the override; all other objects are unchanged.
   */
  lemma SubstitutionEffect(objs: map<ObjId, Object>, ids: seq<ObjId>, override: MatId, exclude: set<Option<MatId>>, id: ObjId)
    requires id in objs
    ensures var o, r := objs[id], MapMeshes(objs, ids, Substitution(override, exclude))[id];
      if id in ids && o.kind == Mesh then
        r.record == o.record && |r.slots| == |o.slots| &&
        forall j :: 0 <= j < |o.slots| ==>
          r.slots[j] == if o.slots[j] in exclude || o.slots[j] == Some(override) then o.slots[j] else Some(override)
      else r == o
  {
  }

  /**
   * `revert_original_materials`: a mesh of the traversal with a record gets
   * each named entry's slot set to what the name now resolves to (empty if it
   * resolves to nothing), keeps the slots of null entries, and loses its
   * record; meshes without a record and other objects are unchanged.
   */
  lemma RevertEffect(objs: map<ObjId, Object>, ids: seq<ObjId>, library: map<string, MatId>, id: ObjId)
    requires id in objs
    ensures var o, r := objs[id], MapMeshes(objs, ids, Revert(library))[id];
      if id in ids && o.kind == Mesh && o.record.Some? then
        r.record.None? && |r.slots| == |o.slots| &&
        forall j :: 0 <= j < |o.slots| ==>
          r.slots[j] == if j < |o.record.value| && Named(o.record.value[j])
                        then (if o.record.value[j].value in library then Some(library[o.record.value[j].value]) else None)
                        else o.slots[j]
      else r == o
  {
  }

  /**
   * `tag_objects_with_generic_material`: without a "Generic" material nothing
   * changes; otherwise a mesh of the traversal without slots gets one slot
   * holding Generic, a mesh whose slots are all empty gets Generic in slot 0,
   * and a mesh with a filled slot is unchanged.
   */
  lemma BackfillEffect(objs: map<ObjId, Object>, ids: seq<ObjId>, library: map<string, MatId>, id: ObjId)
    requires id in objs
    ensures var o, r := objs[id], BackfillIfPresent(objs, ids, library)[id];
      if id in ids && o.kind == Mesh && "Generic" in library then
        r.record == o.record &&
        if |o.slots| == 0 then r.slots == [Some(library["Generic"])]
        else if forall j :: 0 <= j < |o.slots| ==> o.slots[j].None? then r.slots == o.slots[0 := Some(library["Generic"])]
        else r == o
      else r == o
  {
  }

  // ----------------------------------------------------------------- round trips

  /** One mesh through store, apply and revert: filled slots come back, empty ones keep what apply put there. */
  lemma ObjectRoundTrip(o: Object, nameOf: map<MatId, string>, library: map<string, MatId>, override: MatId, exclude: set<Option<MatId>>)
    requires Resolvable(o.slots, nameOf, library)
    ensures var applied := Visit(Substitution(override, exclude), Visit(Snapshot(nameOf), o));
            var reverted := Visit(Revert(library), applied);
            reverted.record.None? && |reverted.slots| == |o.slots| &&
            forall j :: 0 <= j < |o.slots| ==>
              reverted.slots[j] == if o.slots[j].Some? then o.slots[j] else applied.slots[j]
  {
    var applied := Visit(Substitution(override, exclude), Visit(Snapshot(nameOf), o));
    assert applied.record == Some(SlotNames(o.slots, nameOf));
  }

  /**
   * Store, then apply, then revert over the same traversal returns every
   * originally filled slot of a mesh to its original material, provided its
   * name still resolves to it; an originally empty slot keeps its value after
   * apply, and the record is gone.
   */
  lemma StoreApplyRevert(objs: map<ObjId, Object>, ids: seq<ObjId>, nameOf: map<MatId, string>,
                         library: map<string, MatId>, override: MatId, exclude: set<Option<MatId>>, id: ObjId)
    requires id in ids && id in objs && objs[id].kind == Mesh
    requires Resolvable(objs[id].slots, nameOf, library)
    ensures var applied := MapMeshes(MapMeshes(objs, ids, Snapshot(nameOf)), ids, Substitution(override, exclude));
            var reverted := MapMeshes(applied, ids, Revert(library));
            reverted[id].record.None? && |reverted[id].slots| == |objs[id].slots| &&
            forall j :: 0 <= j < |objs[id].slots| ==>
              reverted[id].slots[j] == if objs[id].slots[j].Some? then objs[id].slots[j] else applied[id].slots[j]
  {
    var o := objs[id];
    VisitIdempotent(Snapshot(nameOf), o);
    VisitIdempotent(Substitution(override, exclude), Visit(Snapshot(nameOf), o));
    ObjectRoundTrip(o, nameOf, library, override, exclude);
  }

  /** One mesh through the Apply operator and then the Cancel operator. */
  lemma ObjectOperatorRoundTrip(o: Object, nameOf: map<MatId, string>, library: map<string, MatId>,
                                override: MatId, exclude: set<Option<MatId>>)
    requires Resolvable(o.slots, nameOf, library)
    ensures var applied := BackfillObject(Visit(Substitution(override, exclude), Visit(Snapshot(nameOf), o)), library);
            var cancelled := BackfillObject(Visit(Revert(library), applied), library);
            cancelled.record.None? && |cancelled.slots| == |applied.slots| &&
            forall j :: 0 <= j < |applied.slots| ==>
              cancelled.slots[j] == if j < |o.slots| && o.slots[j].Some? then o.slots[j] else applied.slots[j]
  {
    var stored := Visit(Snapshot(nameOf), o);
    var substituted := Visit(Substitution(override, exclude), stored);
    var applied := BackfillObject(substituted, library);
    var reverted := Visit(Revert(library), applied);
    ObjectRoundTrip(o, nameOf, library, override, exclude);
    assert stored.record == Some(SlotNames(o.slots, nameOf));
    if AnyFilled(o.slots) {
      var k :| 0 <= k < |o.slots| && o.slots[k].Some?;
      assert substituted.slots[k].Some?;
      assert applied == substituted;
      assert reverted.slots[k].Some?;
    } else {
      assert forall j :: 0 <= j < |stored.record.value| ==> !Named(stored.record.value[j]);
      assert reverted.slots == applied.slots;
      if "Generic" in library {
        VisitIdempotent(Backfill(library["Generic"]), substituted);
        assert reverted == applied.(record := None);
      }
    }
  }

  /**
   * The Apply operator followed by the Cancel operator returns every originally
   * filled slot of every mesh of the traversal to its material (names still
   * resolving); every other slot keeps the value Apply left there, and no
   * record remains.
   */
  lemma OperatorRoundTrip(objs: map<ObjId, Object>, ids: seq<ObjId>, nameOf: map<MatId, string>,
                          library: map<string, MatId>, override: MatId, exclude: set<Option<MatId>>, id: ObjId)
    requires id in ids && id in objs && objs[id].kind == Mesh
    requires Resolvable(objs[id].slots, nameOf, library)
    ensures var applied := ApplyPasses(objs, ids, nameOf, library, override, exclude);
            var cancelled := CancelPasses(applied, ids, library);
            cancelled[id].record.None? && |cancelled[id].slots| == |applied[id].slots| &&
            forall j :: 0 <= j < |applied[id].slots| ==>
              cancelled[id].slots[j] ==
                if j < |objs[id].slots| && objs[id].slots[j].Some? then objs[id].slots[j] else applied[id].slots[j]
  {
    var o := objs[id];
    var stored := Visit(Snapshot(nameOf), o);
    var substituted := Visit(Substitution(override, exclude), stored);
    var applied := BackfillObject(substituted, library);
    VisitIdempotent(Snapshot(nameOf), o);
    VisitIdempotent(Substitution(override, exclude), stored);
    if "Generic" in library {
      VisitIdempotent(Backfill(library["Generic"]), substituted);
      VisitIdempotent(Backfill(library["Generic"]), Visit(Revert(library), applied));
    }
    VisitIdempotent(Revert(library), applied);
    assert ApplyPasses(objs, ids, nameOf, library, override, exclude)[id] == applied;
    ObjectOperatorRoundTrip(o, nameOf, library, override, exclude);
  }

  // --------------------------------------------------------- what Apply leaves

  /** After Apply every mesh of the traversal can be reverted without indexing past its slots. */
  lemma ApplyRecordsFit(objs: map<ObjId, Object>, ids: seq<ObjId>, nameOf: map<MatId, string>,
                        library: map<string, MatId>, override: MatId, exclude: set<Option<MatId>>)
    ensures RecordsFit(ApplyPasses(objs, ids, nameOf, library, override, exclude), ids)
  {
    var applied := ApplyPasses(objs, ids, nameOf, library, override, exclude);
    forall id | id in ids && id in applied && applied[id].kind == Mesh
      ensures Fits(applied[id])
    {
      assert objs[id].kind == Mesh;
    }
  }

  /**
   * When a "Generic" material exists, after Apply every mesh of the traversal
   * has a filled slot, and a mesh that had no slots holds Generic in its one
   * new slot, never the override: the backfill runs after the substitution.
   */
  lemma ApplyFillsEveryMesh(objs: map<ObjId, Object>, ids: seq<ObjId>, nameOf: map<MatId, string>,
                            library: map<string, MatId>, override: MatId, exclude: set<Option<MatId>>, id: ObjId)
    requires "Generic" in library
    requires id in ids && id in objs && objs[id].kind == Mesh
    ensures AnyFilled(ApplyPasses(objs, ids, nameOf, library, override, exclude)[id].slots)
    ensures objs[id].slots == [] ==>
      ApplyPasses(objs, ids, nameOf, library, override, exclude)[id].slots == [Some(library["Generic"])]
  {
    var o := objs[id];
    var stored := Visit(Snapshot(nameOf), o);
    var substituted := Visit(Substitution(override, exclude), stored);
    var generic := library["Generic"];
    VisitIdempotent(Snapshot(nameOf), o);
    VisitIdempotent(Substitution(override, exclude), stored);
    VisitIdempotent(Backfill(generic), substituted);
    var applied := Visit(Backfill(generic), substituted);
    assert ApplyPasses(objs, ids, nameOf, library, override, exclude)[id] == applied;
    assert applied.slots[0].Some? || AnyFilled(substituted.slots);
  }

  /**
   * A second store while the override is applied overwrites the snapshot: a
   * substituted slot is now recorded under the override's name, so a revert
   * leaves the override there instead of the original material.
   */
  lemma SecondStoreForgetsOriginal(o: Object, nameOf: map<MatId, string>, library: map<string, MatId>,
                                   override: MatId, exclude: set<Option<MatId>>, j: nat)
    requires j < |o.slots| && o.slots[j].Some? && o.slots[j] !in exclude && o.slots[j] != Some(override)
    requires Resolvable(o.slots, nameOf, library)
    requires override in nameOf && Lookup(nameOf[override], library) == Some(override)
    ensures var again := Visit(Snapshot(nameOf), Visit(Substitution(override, exclude), Visit(Snapshot(nameOf), o)));
            again.record.value[j] == Some(nameOf[override]) &&
            again.record.value[j] != Some(nameOf[o.slots[j].value]) &&
            Visit(Revert(library), again).slots[j] == Some(override) != o.slots[j]
  {
  }

  /**
   * One mesh with slots [Red, empty], override White, nothing excluded, no
   * Generic material: Apply records [Red, null] and fills both slots with
   * White; Cancel brings Red back and leaves White in the slot that was empty.
   */
  lemma RedEmptyScenario()
    ensures var objs := map[0 := Object(Mesh, [Some(1), None], None, None)];
            var nameOf, library := map[1 := "Red", 2 := "White"], map["Red" := 1, "White" := 2];
            var applied := ApplyPasses(objs, [0], nameOf, library, 2, {});
            applied[0] == Object(Mesh, [Some(2), Some(2)], Some([Some("Red"), None]), None) &&
            CancelPasses(applied, [0], library)[0] == Object(Mesh, [Some(1), Some(2)], None, None)
  {
    var o := Object(Mesh, [Some(1), None], None, None);
    var nameOf, library := map[1 := "Red", 2 := "White"], map["Red" := 1, "White" := 2];
    var names := SlotNames(o.slots, nameOf);
    assert names[0] == Some("Red") && names[1] == None;
    assert names == [Some("Red"), None];
    var stored := Visit(Snapshot(nameOf), o);
    var substituted := Visit(Substitution(2, {}), stored);
    assert substituted.slots[0] == Some(2) && substituted.slots[1] == Some(2);
    assert substituted.slots == [Some(2), Some(2)];
    var reverted := Visit(Revert(library), substituted);
    assert reverted.slots[0] == Some(1) && reverted.slots[1] == Some(2);
    assert reverted.slots == [Some(1), Some(2)];
  }

  /**
   * A store marks every mesh of the scene with a record, so afterwards the
   * Cancel poll holds whenever the scene has a mesh, whether or not a session
   * is active.
   */
  lemma StoreEnablesCancel(scene: seq<ObjId>, objs: map<ObjId, Object>, nameOf: map<MatId, string>, id: ObjId)
    requires Contained(scene, objs) && id in scene && objs[id].kind == Mesh
    ensures MapMeshes(objs, AllObjects(scene, objs), Snapshot(nameOf))[id].record.Some?
  {
  }

  /** After Cancel no mesh of the scene itself carries a record. */
  lemma CancelClearsScene(scene: seq<ObjId>, objs: map<ObjId, Object>, library: map<string, MatId>)
    requires Contained(scene, objs)
    ensures var after := CancelPasses(objs, AllObjects(scene, objs), library);
            forall id :: id in scene && after[id].kind == Mesh ==> after[id].record.None?
  {
    var ids := AllObjects(scene, objs);
    assert forall id :: id in scene ==> id in ids;
  }
}

/**
 * The add-on's state as the host holds it, updated in place: the objects and
 * materials of the open document, the scene's object list, the module-level
 * `override_active` flag and the scene's `MaterialOverrideSettings`. Each
 * method is one function or operator of the add-on, proved against the value
 * level passes of the `Override` and `Operators` modules.
 */
module Addon {
  import opened Optional
  import opened Scene
  import opened Override
  import opened Operators
  import opened ExcludeList

  /** `MaterialOverrideSettings`: override, exclude list with its cursor, material picked for exclusion. */
  datatype Settings = Settings(
    overrideMaterial: Option<MatId>,
    excludeMaterials: seq<Option<MatId>>,
    excludeIndex: int,
    selectedMaterial: Option<MatId>)

  /** `{item.material for item in settings.exclude_materials}`: an item whose material is gone counts as None. */
  function ExcludeSet(items: seq<Option<MatId>>): set<Option<MatId>>
  {
    set x | x in items
  }

  /**
   * Apply under the exclude list: a slot of a mesh of the traversal keeps its
   * value exactly when that value appears in the list (an empty slot when an
   * item is None) or is the override; every other slot gets the override.
   */
  lemma ExcludedSlotsKept(objs: map<ObjId, Object>, ids: seq<ObjId>, override: MatId,
                          items: seq<Option<MatId>>, id: ObjId, j: nat)
    requires id in ids && id in objs && objs[id].kind == Mesh && j < |objs[id].slots|
    ensures var s := objs[id].slots[j];
            MapMeshes(objs, ids, Substitution(override, ExcludeSet(items)))[id].slots[j]
              == if s in items || s == Some(override) then s else Some(override)
  {
  }

  /** Material names are unique and non-empty: `library` and `nameOf` are inverse tables. */
  ghost predicate NamesConsistent(library: map<string, MatId>, nameOf: map<MatId, string>)
  {
    (forall m :: m in nameOf ==> nameOf[m] != "" && nameOf[m] in library && library[nameOf[m]] == m) &&
    (forall n :: n in library ==> library[n] in nameOf && nameOf[library[n]] == n)
  }

  /** Every filled slot holds a material of the document. */
  ghost predicate SlotsIn(slots: seq<Option<MatId>>, nameOf: map<MatId, string>)
  {
    forall j :: 0 <= j < |slots| && slots[j].Some? ==> slots[j].value in nameOf
  }

  /** A pass that only writes materials of the document keeps every slot on a material of the document. */
  lemma VisitKeepsMaterials(p: Pass, o: Object, library: map<string, MatId>, nameOf: map<MatId, string>)
    requires NamesConsistent(library, nameOf) && SlotsIn(o.slots, nameOf)
    requires p.Substitution? ==> p.override in nameOf
    requires p.Revert? ==> p.library == library
    requires p.Backfill? ==> p.generic in nameOf
    ensures SlotsIn(Visit(p, o).slots, nameOf)
  {
    var v := Visit(p, o);
    forall j | 0 <= j < |v.slots| && v.slots[j].Some?
      ensures v.slots[j].value in nameOf
    {
      if p.Revert? && o.record.Some? && j < |o.record.value| && Named(o.record.value[j]) {
        assert o.record.value[j].value in library;
      }
    }
  }

  lemma MapMeshesKeepsMaterials(objs: map<ObjId, Object>, ids: seq<ObjId>, p: Pass,
                                library: map<string, MatId>, nameOf: map<MatId, string>)
    requires NamesConsistent(library, nameOf)
    requires forall id :: id in objs ==> SlotsIn(objs[id].slots, nameOf)
    requires p.Substitution? ==> p.override in nameOf
    requires p.Revert? ==> p.library == library
    requires p.Backfill? ==> p.generic in nameOf
    ensures forall id :: id in objs ==> SlotsIn(MapMeshes(objs, ids, p)[id].slots, nameOf)
  {
    forall id | id in objs
      ensures SlotsIn(MapMeshes(objs, ids, p)[id].slots, nameOf)
    {
      VisitKeepsMaterials(p, objs[id], library, nameOf);
    }
  }

  class Document {
    /** bpy.data.objects, by identity. */
    var objects: map<ObjId, Object>
    /** scene.objects, in order. */
    var sceneObjects: seq<ObjId>
    /** bpy.data.materials, by name. */
    var library: map<string, MatId>
    /** The name of each material. */
    var nameOf: map<MatId, string>
    /** The materials whose `use_fake_user` is set. */
    var fakeUser: set<MatId>
    /** The module-level `override_active` flag. */
    var overrideActive: bool
    /** scene.advanced_material_override_settings. */
    var settings: Settings

    ghost predicate Valid()
      reads this`library, this`nameOf, this`sceneObjects, this`objects, this`settings
    {
      NamesConsistent(library, nameOf) &&
      Contained(sceneObjects, objects) && Closed(objects) &&
      (forall id :: id in objects ==> SlotsIn(objects[id].slots, nameOf)) &&
      (settings.overrideMaterial.Some? ==> settings.overrideMaterial.value in nameOf)
    }

    /** What `get_all_objects` returns for the current scene. */
    ghost function Traversal(): seq<ObjId>
      reads this`sceneObjects, this`objects
      requires Contained(sceneObjects, objects)
    {
      AllObjects(sceneObjects, objects)
    }

    /**
     * The state right after the add-on is registered on a new scene: the
     * module flag as imported and every setting at its property default.
     */
    constructor (objects: map<ObjId, Object>, sceneObjects: seq<ObjId>, library: map<string, MatId>,
                 nameOf: map<MatId, string>, fakeUser: set<MatId>)
      requires NamesConsistent(library, nameOf) && Contained(sceneObjects, objects) && Closed(objects)
      requires forall id :: id in objects ==> SlotsIn(objects[id].slots, nameOf)
      ensures Valid()
      ensures this.objects == objects && this.sceneObjects == sceneObjects && this.library == library
      ensures this.nameOf == nameOf && this.fakeUser == fakeUser
      ensures !overrideActive && settings == Settings(None, [], 0, None)
    {
      this.objects := objects;
      this.sceneObjects := sceneObjects;
      this.library := library;
      this.nameOf := nameOf;
      this.fakeUser := fakeUser;
      overrideActive := false;
      settings := Settings(None, [], 0, None);
    }

    /** `get_all_objects`: the scene's objects, then the objects of each instanced collection, in scene order. */
    method GetAllObjects() returns (all: seq<ObjId>)
      requires Contained(sceneObjects, objects)
      ensures all == AllObjects(sceneObjects, objects)
    {
      all := sceneObjects;
      var i := 0;
      while i < |sceneObjects|
        invariant 0 <= i <= |sceneObjects|
        invariant all == sceneObjects + Instanced(sceneObjects[..i], objects)
      {
        assert sceneObjects[..i + 1][..i] == sceneObjects[..i];
        var obj := objects[sceneObjects[i]];
        if obj.instances.Some? {
          all := all + obj.instances.value;
        }
        i := i + 1;
      }
      assert sceneObjects[..i] == sceneObjects;
    }

    /**
     * `store_original_materials`: every mesh of the traversal records its slot
     * material names, replacing any earlier record, and every material in a
     * filled slot gets a fake user.
     */
    method StoreOriginalMaterials()
      requires Valid()
      modifies this
      ensures Valid()
      ensures objects == MapMeshes(old(objects), old(Traversal()), Snapshot(nameOf))
      ensures fakeUser == old(fakeUser) + RetainedAll(old(objects), old(Traversal()))
      ensures Traversal() == old(Traversal()) && RecordsFit(objects, Traversal())
      ensures sceneObjects == old(sceneObjects) && library == old(library) && nameOf == old(nameOf)
      ensures overrideActive == old(overrideActive) && settings == old(settings)
      ensures (exists id :: id in sceneObjects && objects[id].kind == Mesh) ==> CanCancel()
    {
      var all := GetAllObjects();
      AllObjectsContained(sceneObjects, objects);
      ghost var objs0 := objects;
      objects, fakeUser := StoreAll(objects, all, nameOf, fakeUser);
      MapMeshesTraversal(sceneObjects, objs0, all, Snapshot(nameOf));
      SnapshotKeepsSlots(objs0, all, nameOf);
      if id :| id in sceneObjects && objects[id].kind == Mesh {
        StoreEnablesCancel(sceneObjects, objs0, nameOf, id);
      }
    }

    /**
     * `apply_override_material`: nothing unless an override is set and the
     * session is active; then every mesh slot of the traversal that holds
     * neither an excluded material nor the override gets the override.
     */
    method ApplyOverrideMaterial()
      requires Valid()
      modifies this
      ensures Valid()
      ensures fakeUser == old(fakeUser) && sceneObjects == old(sceneObjects)
      ensures library == old(library) && nameOf == old(nameOf)
      ensures overrideActive == old(overrideActive) && settings == old(settings)
      ensures if settings.overrideMaterial.Some? && overrideActive
              then objects == MapMeshes(old(objects), old(Traversal()),
                                        Substitution(settings.overrideMaterial.value, ExcludeSet(settings.excludeMaterials)))
              else objects == old(objects)
      ensures Traversal() == old(Traversal())
    {
      var override := settings.overrideMaterial;
      if override.None? || !overrideActive {
        return;
      }
      var exclude := ExcludeSet(settings.excludeMaterials);
      ghost var p := Substitution(override.value, exclude);
      var all := GetAllObjects();
      AllObjectsContained(sceneObjects, objects);
      ghost var objs0 := objects;
      objects := SubstituteAll(objects, all, override.value, exclude);
      MapMeshesTraversal(sceneObjects, objs0, all, p);
      MapMeshesKeepsMaterials(objs0, all, p, library, nameOf);
    }

    /**
     * `revert_original_materials`: every mesh of the traversal with a record
     * replays it by name, clears the fake user of each material found, and
     * loses the record.
     */
    method RevertOriginalMaterials()
      requires Valid() && RecordsFit(objects, Traversal())
      modifies this
      ensures Valid()
      ensures objects == MapMeshes(old(objects), old(Traversal()), Revert(library))
      ensures fakeUser == old(fakeUser) - ReleasedAll(old(objects), old(Traversal()), library)
      ensures Traversal() == old(Traversal())
      ensures sceneObjects == old(sceneObjects) && library == old(library) && nameOf == old(nameOf)
      ensures overrideActive == old(overrideActive) && settings == old(settings)
    {
      var all := GetAllObjects();
      AllObjectsContained(sceneObjects, objects);
      ghost var objs0 := objects;
      objects, fakeUser := RevertAll(objects, all, library, fakeUser);
      MapMeshesTraversal(sceneObjects, objs0, all, Revert(library));
      MapMeshesKeepsMaterials(objs0, all, Revert(library), library, nameOf);
    }

    /** `create_generic_material`: adds a material named "Generic" only when there is none; `newId` is the identity the host allocates. */
    method CreateGenericMaterial(newId: MatId)
      requires Valid() && newId !in nameOf
      modifies this
      ensures Valid()
      ensures "Generic" in library
      ensures if "Generic" in old(library) then library == old(library) && nameOf == old(nameOf)
              else library == old(library)["Generic" := newId] && nameOf == old(nameOf)[newId := "Generic"]
      ensures objects == old(objects) && sceneObjects == old(sceneObjects) && fakeUser == old(fakeUser)
      ensures overrideActive == old(overrideActive) && settings == old(settings)
    {
      if "Generic" !in library {
        library := library["Generic" := newId];
        nameOf := nameOf[newId := "Generic"];
      }
    }

    /**
     * `tag_objects_with_generic_material`: with a "Generic" material, a mesh of
     * the traversal without slots gets one holding Generic, and a mesh whose
     * slots are all empty gets Generic in its first slot.
     */
    method TagObjectsWithGenericMaterial()
      requires Valid()
      modifies this
      ensures Valid()
      ensures objects == BackfillIfPresent(old(objects), old(Traversal()), library)
      ensures Traversal() == old(Traversal())
      ensures fakeUser == old(fakeUser) && sceneObjects == old(sceneObjects)
      ensures library == old(library) && nameOf == old(nameOf)
      ensures overrideActive == old(overrideActive) && settings == old(settings)
    {
      if "Generic" !in library {
        return;
      }
      var generic := library["Generic"];
      var all := GetAllObjects();
      AllObjectsContained(sceneObjects, objects);
      ghost var objs0 := objects;
      objects := BackfillAll(objects, all, generic);
      MapMeshesTraversal(sceneObjects, objs0, all, Backfill(generic));
      MapMeshesKeepsMaterials(objs0, all, Backfill(generic), library, nameOf);
    }

    // ----------------------------------------------------------------- operators

    /** `OBJECT_OT_apply_advanced_material_override.poll`: refused during a session and without an override. */
    function CanApply(): (r: bool)
      reads this`overrideActive, this`settings
      ensures r ==> settings.overrideMaterial.Some?
      ensures overrideActive ==> !r
      ensures !overrideActive && settings.overrideMaterial.Some? ==> r
    {
      !overrideActive && settings.overrideMaterial.Some?
    }

    /** `OBJECT_OT_cancel_advanced_material_override.poll`: active, or a direct scene mesh still carries a record. */
    function CanCancel(): (r: bool)
      reads this`overrideActive, this`sceneObjects, this`objects
      requires Contained(sceneObjects, objects)
      ensures overrideActive ==> r
      ensures !r <==> !overrideActive && forall id :: id in sceneObjects && objects[id].kind == Mesh ==> objects[id].record.None?
    {
      overrideActive || exists id :: id in sceneObjects && objects[id].kind == Mesh && objects[id].record.Some?
    }

    /**
     * `OBJECT_OT_apply_advanced_material_override.execute`, which Blender runs
     * only once the poll has held: store, activate, substitute, backfill.
     * Afterwards the session is active, Apply is refused and Cancel allowed.
     */
    method ExecuteApply()
      requires Valid() && CanApply()
      modifies this
      ensures Valid()
      ensures sceneObjects == old(sceneObjects) && library == old(library) && nameOf == old(nameOf)
      ensures settings == old(settings)
      ensures overrideActive && !CanApply() && CanCancel()
      ensures objects == ApplyPasses(old(objects), old(Traversal()), nameOf, library,
                                     settings.overrideMaterial.value, ExcludeSet(settings.excludeMaterials))
      ensures fakeUser == old(fakeUser) + RetainedAll(old(objects), old(Traversal()))
      ensures Traversal() == old(Traversal()) && RecordsFit(objects, Traversal())
    {
      ghost var objs0, ids := objects, Traversal();
      ghost var p := Substitution(settings.overrideMaterial.value, ExcludeSet(settings.excludeMaterials));
      ApplyRecordsFit(objs0, ids, nameOf, library, p.override, p.exclude);
      StoreOriginalMaterials();
      ghost var stored := objects;
      overrideActive := true;
      ApplyOverrideMaterial();
      assert objects == MapMeshes(stored, ids, p);
      TagObjectsWithGenericMaterial();
    }

    /** The Apply button: the poll, then `execute` when it holds; when refused nothing changes. */
    method ApplyOverride() returns (ran: bool)
      requires Valid()
      modifies this
      ensures Valid()
      ensures sceneObjects == old(sceneObjects) && library == old(library) && nameOf == old(nameOf)
      ensures settings == old(settings)
      ensures ran == old(CanApply())
      ensures ran ==> overrideActive && !CanApply() && CanCancel()
      ensures ran ==> objects == ApplyPasses(old(objects), old(Traversal()), nameOf, library,
                                             settings.overrideMaterial.value, ExcludeSet(settings.excludeMaterials))
      ensures ran ==> fakeUser == old(fakeUser) + RetainedAll(old(objects), old(Traversal()))
      ensures ran ==> RecordsFit(objects, Traversal())
      ensures !ran ==> objects == old(objects) && fakeUser == old(fakeUser) && overrideActive == old(overrideActive)
      ensures Traversal() == old(Traversal())
    {
      ran := CanApply();
      if ran {
        ExecuteApply();
      }
    }

    /**
     * `OBJECT_OT_cancel_advanced_material_override.execute`, which Blender runs
     * only once the poll has held: revert, backfill, deactivate. Right
     * afterwards no direct scene mesh carries a record, so Cancel is refused;
     * any later store, an Apply or not, allows it again.
     */
    method ExecuteCancel()
      requires Valid() && RecordsFit(objects, Traversal()) && CanCancel()
      modifies this
      ensures Valid()
      ensures !overrideActive && !CanCancel() && CanApply() == settings.overrideMaterial.Some?
      ensures objects == CancelPasses(old(objects), old(Traversal()), library)
      ensures fakeUser == old(fakeUser) - ReleasedAll(old(objects), old(Traversal()), library)
      ensures Traversal() == old(Traversal())
      ensures sceneObjects == old(sceneObjects) && library == old(library) && nameOf == old(nameOf)
      ensures settings == old(settings)
    {
      CancelClearsScene(sceneObjects, objects, library);
      RevertOriginalMaterials();
      TagObjectsWithGenericMaterial();
      overrideActive := false;
    }

    /** The Cancel button: the poll, then `execute` when it holds; when refused nothing changes. */
    method CancelOverride() returns (ran: bool)
      requires Valid() && RecordsFit(objects, Traversal())
      modifies this
      ensures Valid()
      ensures ran == old(CanCancel())
      ensures ran ==> !overrideActive && !CanCancel() && CanApply() == settings.overrideMaterial.Some?
      ensures ran ==> objects == CancelPasses(old(objects), old(Traversal()), library)
      ensures ran ==> fakeUser == old(fakeUser) - ReleasedAll(old(objects), old(Traversal()), library)
      ensures !ran ==> objects == old(objects) && fakeUser == old(fakeUser) && overrideActive == old(overrideActive)
      ensures Traversal() == old(Traversal())
      ensures sceneObjects == old(sceneObjects) && library == old(library) && nameOf == old(nameOf)
      ensures settings == old(settings)
    {
      ran := CanCancel();
      if ran {
        ExecuteCancel();
      }
    }

    /** `MATERIAL_OT_add_exclude_material.poll`: refused during a session and without a selected material. */
    function CanAddExclude(): (r: bool)
      reads this`overrideActive, this`settings
      ensures r ==> settings.selectedMaterial.Some?
      ensures overrideActive ==> !r
      ensures !overrideActive && settings.selectedMaterial.Some? ==> r
    {
      !overrideActive && settings.selectedMaterial.Some?
    }

    /** The add-exclude operator: appends the selected material to the exclude list, duplicates allowed, and clears the selection. */
    method AddExcludeMaterial() returns (ran: bool)
      requires Valid()
      modifies this
      ensures Valid()
      ensures ran == old(CanAddExclude())
      ensures ran ==> settings == old(settings).(excludeMaterials := old(settings.excludeMaterials) + [old(settings.selectedMaterial)],
                                                 selectedMaterial := None)
      ensures !ran ==> settings == old(settings)
      ensures objects == old(objects) && sceneObjects == old(sceneObjects) && fakeUser == old(fakeUser)
      ensures library == old(library) && nameOf == old(nameOf) && overrideActive == old(overrideActive)
    {
      ran := CanAddExclude();
      if !ran {
        return;
      }
      if settings.selectedMaterial.Some? {
        settings := settings.(excludeMaterials := settings.excludeMaterials + [settings.selectedMaterial]);
        settings := settings.(selectedMaterial := None);
      }
    }

    /**
     * `MATERIAL_OT_list_action.invoke`: REMOVE, UP or DOWN on the exclude list
     * and its cursor. `raised` reports the collection refusing an index off the
     * list, in which case nothing changed.
     */
    method ListAction(action: Action) returns (raised: bool)
      requires Valid()
      modifies this
      ensures Valid()
      ensures match Invoke(old(settings.excludeMaterials), old(settings.excludeIndex), action)
              case OutOfRange => raised && settings == old(settings)
              case Finished(items, index) =>
                !raised && settings == old(settings).(excludeMaterials := items, excludeIndex := index)
      ensures objects == old(objects) && sceneObjects == old(sceneObjects) && fakeUser == old(fakeUser)
      ensures library == old(library) && nameOf == old(nameOf) && overrideActive == old(overrideActive)
    {
      var idx := settings.excludeIndex;
      var items := settings.excludeMaterials;
      raised := false;
      if action == Remove {
        if !(0 <= idx < |items|) {
          raised := true;
          return;
        }
        items := RemoveAt(items, idx);
        if idx > 0 {
          idx := idx - 1;
        }
      } else if action == Up && idx > 0 {
        if idx >= |items| {
          raised := true;
          return;
        }
        items := Move(items, idx, idx - 1);
        idx := idx - 1;
      } else if action == Down && idx < |items| - 1 {
        if idx < 0 {
          raised := true;
          return;
        }
        items := Move(items, idx, idx + 1);
        idx := idx + 1;
      }
      settings := settings.(excludeMaterials := items, excludeIndex := idx);
    }

    // -------------------------------------------- handlers defined but never registered

    /** `clear_addon_data`: ends the session flag and resets the settings. */
    method ClearAddonData()
      requires Valid()
      modifies this
      ensures Valid()
      ensures !overrideActive && settings == Settings(None, [], 0, None)
      ensures objects == old(objects) && sceneObjects == old(sceneObjects) && fakeUser == old(fakeUser)
      ensures library == old(library) && nameOf == old(nameOf)
    {
      overrideActive := false;
      settings := settings.(overrideMaterial := None);
      settings := settings.(excludeMaterials := []);
      settings := settings.(excludeIndex := 0);
      settings := settings.(selectedMaterial := None);
    }

    /** `pre_render_handler`: a store followed by a substitution, which does nothing while the session is inactive. */
    method PreRenderHandler()
      requires Valid()
      modifies this
      ensures Valid()
      ensures var stored := MapMeshes(old(objects), old(Traversal()), Snapshot(nameOf));
              objects == if overrideActive && settings.overrideMaterial.Some?
                         then MapMeshes(stored, old(Traversal()),
                                        Substitution(settings.overrideMaterial.value, ExcludeSet(settings.excludeMaterials)))
                         else stored
      ensures fakeUser == old(fakeUser) + RetainedAll(old(objects), old(Traversal()))
      ensures Traversal() == old(Traversal()) && RecordsFit(objects, Traversal())
      ensures sceneObjects == old(sceneObjects) && library == old(library) && nameOf == old(nameOf)
      ensures overrideActive == old(overrideActive) && settings == old(settings)
    {
      StoreOriginalMaterials();
      ghost var stored := objects;
      ApplyOverrideMaterial();
      if overrideActive && settings.overrideMaterial.Some? {
        forall id | id in objects && id in Traversal() && objects[id].kind == Mesh
          ensures Fits(objects[id])
        {
          assert stored[id].kind == Mesh;
        }
      }
    }

    /** `post_render_handler`: a revert. */
    method PostRenderHandler()
      requires Valid() && RecordsFit(objects, Traversal())
      modifies this
      ensures Valid()
      ensures objects == MapMeshes(old(objects), old(Traversal()), Revert(library))
      ensures fakeUser == old(fakeUser) - ReleasedAll(old(objects), old(Traversal()), library)
      ensures sceneObjects == old(sceneObjects) && library == old(library) && nameOf == old(nameOf)
      ensures overrideActive == old(overrideActive) && settings == old(settings)
    {
      RevertOriginalMaterials();
    }
  }
}

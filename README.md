# Advanced Material Override — a Dafny model

This project models the Blender add-on "Advanced Material Override" (`__init__.py`). The add-on replaces the materials of every mesh in a scene with one override material, except for the materials on an exclude list. It remembers each mesh's original materials by name in the custom property `_original_materials`, and puts them back on Cancel. It also fills meshes that have no material with a material named "Generic".

The model has five modules:

- `Scene` models the document and the traversal `get_all_objects`. Objects are known by identity (`ObjId`), the scene is an ordered list of identities, and an object may instance a collection that is itself a list of identities. The traversal lists the scene's objects, then the members of each instanced collection. It goes one level deep and keeps duplicates.
- `Override` describes each of the four passes on one object (`Visit`): snapshot, substitution, revert and backfill. A pass over a whole traversal is `MapMeshes`. The module also holds the fake-user sets a pass sets or clears, and the loops of the add-on as methods proved against those functions. Materials are known by identity (`MatId`). `bpy.data.materials` is a name-to-identity table, and `nameOf` gives each material's name.
- `Operators` composes the passes into what the Apply and Cancel operators do. It proves what each pass does slot by slot, the store/apply/revert and Apply/Cancel round trips, and the consequences of two ordering choices in the code: the backfill runs after the substitution, and a second store overwrites the record.
- `ExcludeList` models `MATERIAL_OT_list_action.invoke` on the exclude list and its cursor. It covers REMOVE, UP and DOWN, and the error that the host's collection is assumed to raise for an index off the list.
- `Addon` holds the class `Document`: the document's objects and materials, the fake-user flags, the module-level `override_active` flag and the scene's `MaterialOverrideSettings`. Its methods are the add-on's functions, its three operators with their polls and `execute` bodies, and its handlers. Each method updates the fields in place and is proved equal to the value-level passes.

## Model

| member | source | states |
|---|---|---|
| Scene.AllObjects | __init__.py:44-49 | the traversal starts with the scene's own objects, in scene order |
| Scene.AllObjectsLength | __init__.py:44-49 | the traversal's length is the scene size plus the sizes of all instanced collections, so nothing is deduplicated |
| Scene.InstancedMembership | __init__.py:46-48 | an object comes after the scene part exactly when some scene object's instance collection holds it (both directions) |
| Scene.AllObjectsContained | __init__.py:44-49 | in a closed document every object of the traversal is an object of the document |
| Scene.AllObjectsSameMembers | __init__.py:44-49 | the traversal depends on the objects only through their instance collections |
| Scene.NoDeduplication | __init__.py:45-48 | a scene object that is also an instanced member is visited twice ([1, 2] with 2 instancing 1 gives [1, 2, 1]) |
| Override.Visit | __init__.py:53-145 | no pass changes an object's kind or instance collection; a snapshot keeps the slots and records one entry per slot; a substitution keeps the record and the slot count; a revert drops the record and keeps the slot count; a backfill keeps the record, leaves some slot filled, and adds a slot only to a mesh that had none |
| Override.MapMeshes | __init__.py:53-54 | a pass over a traversal keeps the set of objects |
| Override.VisitIdempotent | __init__.py:51-145 | each pass applied twice to one object equals applying it once |
| Override.MapMeshesStep | __init__.py:53-54 | visiting the next object of the traversal in its current state extends the pass by one element, even when that object was visited before |
| Override.MapMeshesIdempotent | __init__.py:51-145 | running a pass twice over the same traversal changes nothing further |
| Override.MapMeshesTraversal | __init__.py:44-49 | no pass changes an instance collection, so the traversal and the closedness of the document are unchanged after it |
| Override.ReleasedAllCovers | __init__.py:85-91 | every mesh listed anywhere in a traversal contributes the materials its record frees |
| Override.SnapshotStep | __init__.py:53-59 | one store step records the next mesh's slots and adds that mesh's slot materials to the fake users |
| Override.SnapshotKeepsSlots | __init__.py:51-59 | a store keeps every slot list, and afterwards every mesh of the traversal has a record that fits its slots |
| Override.RevertStep | __init__.py:84-92 | one revert step replays only on the first visit of a mesh; a visit after that finds no record and changes nothing |
| Override.RecordNames | __init__.py:55 | the stored list has one entry per slot, in slot order: the material's name, or null for an empty slot |
| Override.SlotMaterials | __init__.py:57-59 | the store loop gives a fake user to exactly the materials held by some slot |
| Override.SubstituteSlots | __init__.py:76-78 | a slot keeps its material when the material is excluded or is the override; every other slot, empty ones included, gets the override |
| Override.RestoreSlots | __init__.py:87-91 | each non-empty entry sets its slot to what its name resolves to now, or empties the slot when the name resolves to nothing; null entries leave their slot alone; the fake users cleared are exactly the resolved materials |
| Override.StoreAll | __init__.py:52-59 | the store loop over the traversal equals the snapshot pass and adds the RetainedAll set to the fake users |
| Override.SubstituteAll | __init__.py:73-78 | the apply loop over the traversal equals the substitution pass |
| Override.RevertAll | __init__.py:83-92 | the revert loop over the traversal equals the revert pass and removes the ReleasedAll set from the fake users |
| Override.BackfillAll | __init__.py:137-145 | the tag loop over the traversal equals the backfill pass |
| ExcludeList.RemoveAt | __init__.py:220 | `remove(i)` shortens the list by one, keeps the items before `i`, shifts the later ones down, and removes one occurrence of the item at `i` from the multiset |
| ExcludeList.Move | __init__.py:225 | `move(from, to)` keeps the length and the multiset and puts the moved item at `to` |
| ExcludeList.MoveNeighbourSwaps | __init__.py:225-229 | moving an item to a neighbouring position swaps the two items |
| ExcludeList.Invoke | __init__.py:215-233 | the action fails exactly when it reaches the collection with the cursor off the list; UP and DOWN keep the multiset of items, and REMOVE takes out exactly the item under the cursor |
| ExcludeList.RemoveEffect | __init__.py:219-222 | REMOVE fails exactly when the cursor is off the list; otherwise it deletes the item under the cursor and moves the cursor up unless it is at 0 |
| ExcludeList.MoveEffect | __init__.py:224-230 | with the cursor on the list, UP and DOWN swap the item under the cursor with its neighbour and leave every other item where it was (so length and multiset are kept), carry the cursor with its item, and do nothing at the ends |
| ExcludeList.InvokeKeepsCursor | __init__.py:215-233 | a cursor on the list stays on the list after any action, or rests at 0 once the list is empty |
| Operators.BackfillIfPresent | __init__.py:132-145 | without Generic nothing changes; kinds and records are always kept; with Generic every mesh of the traversal ends up with a filled slot |
| Operators.ApplyPasses | __init__.py:158-163 | after Apply every mesh of the traversal holds the record of the slots it had before, and has at least as many slots |
| Operators.CancelPasses | __init__.py:178-181 | after Cancel no mesh of the traversal carries a record |
| Operators.StoreEffect | __init__.py:53-56 | a stored mesh records a name per filled slot and null per empty slot, replacing any earlier record, and keeps its slots; other objects are unchanged |
| Operators.SubstitutionEffect | __init__.py:74-78 | slot by slot: an excluded material or the override stays, everything else becomes the override; records are untouched; other objects are unchanged |
| Operators.RevertEffect | __init__.py:84-92 | a recorded mesh loses its record; each named entry's slot gets what the name resolves to (empty if nothing); null entries keep their slot; other objects are unchanged |
| Operators.BackfillEffect | __init__.py:132-145 | without Generic nothing changes; otherwise a mesh without slots gets one slot holding Generic, a mesh whose slots are all empty gets Generic in slot 0, and any other mesh is unchanged |
| Operators.ObjectRoundTrip | __init__.py:51-92 | store, apply, revert on one mesh brings back every filled slot whose name still resolves to it; an originally empty slot keeps what apply put there |
| Operators.StoreApplyRevert | __init__.py:51-92 | the same round trip over a whole traversal, for each mesh listed in it |
| Operators.ObjectOperatorRoundTrip | __init__.py:158-185 | Apply then Cancel on one mesh brings back every originally filled slot; every other slot keeps the value Apply left there, Generic included; no record remains |
| Operators.OperatorRoundTrip | __init__.py:158-185 | the same round trip for each mesh of a traversal, through the operators' pass sequences |
| Operators.ApplyRecordsFit | __init__.py:158-163 | after Apply every record fits its slot list, so a revert cannot index past the slots |
| Operators.ApplyFillsEveryMesh | __init__.py:160-163 | when Generic exists, every mesh has a filled slot after Apply, and a mesh that had no slots holds Generic rather than the override, because the backfill runs after the substitution |
| Operators.SecondStoreForgetsOriginal | __init__.py:51-56 | a store while the override is applied records the override's name for a substituted slot, so a revert then leaves the override there |
| Operators.StoreEnablesCancel | __init__.py:51-56 | a store puts a record on every mesh of the scene, so afterwards the Cancel poll holds whenever the scene has a mesh, whether or not a session is active |
| Operators.CancelClearsScene | __init__.py:174-185 | after Cancel no mesh of the scene itself carries a record, so the Cancel poll then depends on the session flag alone |
| Operators.RedEmptyScenario | __init__.py:158-185 | slots [Red, empty], override White: Apply gives [White, White] with record [Red, null]; Cancel gives [Red, White] |
| Addon.ExcludedSlotsKept | __init__.py:71-78 | under Apply a mesh slot keeps its value exactly when that value appears in the exclude list (an empty slot when some item's material is gone) or is the override; every other slot gets the override |
| Addon.VisitKeepsMaterials | __init__.py:51-145 | a pass that writes only materials of the document leaves every slot of an object holding a material of the document |
| Addon.MapMeshesKeepsMaterials | __init__.py:51-145 | the same over a whole traversal |
| Addon.Document.constructor | __init__.py:22-31 | the state right after registration on a new scene: the module flag as imported, every setting at its property default |
| Addon.Document.GetAllObjects | __init__.py:44-49 | the loop returns exactly the traversal of the current scene |
| Addon.Document.StoreOriginalMaterials | __init__.py:51-59 | the objects become the snapshot pass over the traversal, the fake users grow by RetainedAll, every record fits, nothing else changes; afterwards the Cancel poll holds whenever the scene has a mesh |
| Addon.Document.ApplyOverrideMaterial | __init__.py:63-78 | nothing changes unless an override is set and the session is active; then the objects become the substitution pass under the exclude set |
| Addon.Document.RevertOriginalMaterials | __init__.py:82-92 | the objects become the revert pass over the traversal, the fake users lose ReleasedAll, nothing else changes |
| Addon.Document.CreateGenericMaterial | __init__.py:124-128 | afterwards a material named "Generic" exists; it is added with the new identity only when none existed |
| Addon.Document.TagObjectsWithGenericMaterial | __init__.py:132-145 | the objects become the backfill pass when Generic exists, and stay the same otherwise |
| Addon.Document.CanApply | __init__.py:153-156 | Apply is allowed exactly when no session is active and an override is set |
| Addon.Document.CanCancel | __init__.py:174-176 | Cancel is allowed during a session, and otherwise exactly when some mesh of the scene itself carries a record |
| Addon.Document.CanAddExclude | __init__.py:192-194 | adding to the exclude list is allowed exactly when no session is active and a material is selected |
| Addon.Document.ExecuteApply | __init__.py:158-166 | the objects become store, substitute, backfill; the fake users grow by RetainedAll; the session is active, Apply is refused and Cancel is allowed |
| Addon.Document.ApplyOverride | __init__.py:153-166 | runs exactly when its poll holds, with the effect of ExecuteApply; when refused nothing changes |
| Addon.Document.ExecuteCancel | __init__.py:178-185 | the objects become revert, backfill; the fake users lose ReleasedAll; the session is inactive and Cancel is refused right after it runs |
| Addon.Document.CancelOverride | __init__.py:174-185 | runs exactly when its poll holds, with the effect of ExecuteCancel; when refused nothing changes |
| Addon.Document.AddExcludeMaterial | __init__.py:192-203 | runs exactly when its poll holds; then it appends the selected material (duplicates allowed) and clears the selection |
| Addon.Document.ListAction | __init__.py:215-233 | the settings become what `Invoke` gives, or are unchanged when the collection raises |
| Addon.Document.ClearAddonData | __init__.py:113-121 | the session is inactive and every setting is reset |
| Addon.Document.PreRenderHandler | __init__.py:96-98 | a store followed by a substitution that applies only while the session is active |
| Addon.Document.PostRenderHandler | __init__.py:100-101 | a revert |

Behaviours of the code worth knowing, each stated by a member above:

- A store overwrites the record on every call. A store while the override is applied therefore records the override, and a revert then keeps it (`StoreEffect`, `SecondStoreForgetsOriginal`).
- Cancel does not clear a slot that was empty before Apply. That slot keeps the override or Generic (`ObjectOperatorRoundTrip`, `RedEmptyScenario`).
- The backfill runs after the substitution, and it fills only slot 0 of a mesh whose slots are all empty. A mesh can keep empty slots after Apply, for example when an exclude item's material is gone (`ApplyFillsEveryMesh`, `BackfillEffect`, `ExcludedSlotsKept`).
- A recorded name that no longer resolves empties its slot on revert (`RevertEffect`).
- The Cancel poll looks only at the scene's direct meshes, not at instanced members (`CanCancel`).
- Any store puts a record on every mesh of the scene, so it allows Cancel again while no session is active. The pre-render handler does this, and so does the delayed store that `load_post_handler` requests, for as long as the host keeps that handler registered after a load (`StoreEnablesCancel`, `StoreOriginalMaterials`).

## Left out

- Drawing: the UI list, the panel, the preferences panel and `update_override_button` (a redraw request).
- Registration: `register` and `unregister`.
- `load_post_handler` and its timers. The delayed store is the same as `StoreOriginalMaterials`, and the timer that creates Generic is the same as `CreateGenericMaterial`. The handler is registered without `@persistent` (line 293); whether the host still calls it after a load is the host's behaviour and is not modelled.
- `context.view_layer.update()`, `print` and the operators' UNDO support. None of them changes what the add-on stores.
- `_original_materials` is a JSON string in the source. Here it is held as the decoded list, so JSON encoding and decoding, and a property that fails to decode, are not modelled.
- Mesh data shared between objects is not modelled. `tag_objects_with_generic_material` appends to `obj.data.materials`, which every object sharing that mesh data would see; here each object has its own slot list.
- `use_nodes` on the new Generic material is not modelled. `CreateGenericMaterial` takes the new material's identity as the parameter `newId`, because the host allocates it.
- Object kinds other than mesh are one kind, `Other`, because the add-on only tests for 'MESH'.
- Override.SlotName: a slot holding a material outside `nameOf` is recorded as null. A valid document rules this case out (`SlotsIn`), since in Blender every material has a name.
- Addon.Document.RevertOriginalMaterials: it requires that no record entry past the last slot is a non-empty name (`RecordsFit`). In the source such an entry raises IndexError partway through the revert, and that partial state is not modelled. Every store establishes this requirement, and so does Apply (`ApplyRecordsFit`).
- Addon.Document.ListAction: the model assumes that the host's collection `remove` and `move` raise for an index off the list, so that the operator stops with nothing changed and `raised` reports it. The host's collection code is not part of this model; if it ignored such an index instead, the cursor adjustments after the call would still run.
- Addon.Document.ExecuteApply and Addon.Document.ExecuteCancel require their operator's poll, because Blender runs `execute` only after `poll` holds. A script that calls the bodies without the poll is not modelled.
- Loading a file resets neither `override_active` nor the settings. The flag is a module global that is set to False on import, by Cancel (`ExecuteCancel`) and by `clear_addon_data` (`ClearAddonData`), and never by a file load; `load_post_handler` only prints that the override is disabled. The settings are saved with the scene. The constructor therefore stands for registration on a new scene, a loaded file is any valid `Document` state, and every method accepts such a state.

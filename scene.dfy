/**
 * The abstract Blender document the add-on works on: objects known by identity,
 * the scene's ordered object list, and the flattening of that list through
 * collection-instance references (`get_all_objects`).
 */
module Scene {
  import opened Optional

  /** Identity of an object datablock (bpy.data.objects). */
  type ObjId = nat
  /** Identity of a material datablock (bpy.data.materials). */
  type MatId = nat

  /** `obj.type`: the add-on only distinguishes 'MESH' from everything else. */
  datatype Kind = Mesh | Other

  /**
   * One object: its kind, its material slots in order (each empty or holding a
   * material), the `_original_materials` custom property if it is set (one
   * material name or null per slot), and the objects of its instance
   * collection if it has one.
   */
  datatype Object = Object(
    kind: Kind,
    slots: seq<Option<MatId>>,
    record: Option<seq<Option<string>>>,
    instances: Option<seq<ObjId>>)

  /** `obj.instance_collection.objects`, or nothing when the object instances no collection. */
  function Members(o: Object): seq<ObjId>
  {
    if o.instances.Some? then o.instances.value else []
  }

  /** Every identity of `ids` names an object of `objs`. */
  ghost predicate Contained(ids: seq<ObjId>, objs: map<ObjId, Object>)
  {
    forall id :: id in ids ==> id in objs
  }

  /** Every instance collection refers only to objects of the document. */
  ghost predicate Closed(objs: map<ObjId, Object>)
  {
    forall id :: id in objs ==> Contained(Members(objs[id]), objs)
  }

  /** The members of the instance collections of `scene`'s objects, in scene order. */
  function Instanced(scene: seq<ObjId>, objs: map<ObjId, Object>): seq<ObjId>
    requires Contained(scene, objs)
    decreases |scene|
  {
    if scene == [] then []
    else Instanced(scene[..|scene| - 1], objs) + Members(objs[scene[|scene| - 1]])
  }

  /**
   * `get_all_objects`: the scene's objects in order, then, for each of them that
   * instances a collection, that collection's objects. One level only, and
   * nothing is deduplicated.
   */
  function AllObjects(scene: seq<ObjId>, objs: map<ObjId, Object>): (r: seq<ObjId>)
    requires Contained(scene, objs)
    ensures |r| >= |scene| && r[..|scene|] == scene
  {
    scene + Instanced(scene, objs)
  }

  /** Sum of the sizes of the instance collections referenced from `scene`. */
  function MemberCount(scene: seq<ObjId>, objs: map<ObjId, Object>): nat
    requires Contained(scene, objs)
    decreases |scene|
  {
    if scene == [] then 0
    else MemberCount(scene[..|scene| - 1], objs) + |Members(objs[scene[|scene| - 1]])|
  }

  /** The traversal keeps every occurrence: its length is the scene size plus all collection sizes. */
  lemma {:induction false} AllObjectsLength(scene: seq<ObjId>, objs: map<ObjId, Object>)
    requires Contained(scene, objs)
    ensures |AllObjects(scene, objs)| == |scene| + MemberCount(scene, objs)
  {
    InstancedLength(scene, objs);
  }

  lemma {:induction false} InstancedLength(scene: seq<ObjId>, objs: map<ObjId, Object>)
    requires Contained(scene, objs)
    ensures |Instanced(scene, objs)| == MemberCount(scene, objs)
    decreases |scene|
  {
    if scene != [] {
      InstancedLength(scene[..|scene| - 1], objs);
    }
  }

  /** An object is reached through instancing exactly when some scene object's collection holds it. */
  lemma {:induction false} InstancedMembership(scene: seq<ObjId>, objs: map<ObjId, Object>, id: ObjId)
    requires Contained(scene, objs)
    ensures id in Instanced(scene, objs) <==> exists k :: 0 <= k < |scene| && id in Members(objs[scene[k]])
    decreases |scene|
  {
    if scene != [] {
      var n := |scene| - 1;
      var front := scene[..n];
      InstancedMembership(front, objs, id);
      assert forall k :: 0 <= k < n ==> front[k] == scene[k];
      if id in Instanced(scene, objs) && id !in Instanced(front, objs) {
        assert id in Members(objs[scene[n]]);
      }
    }
  }

  /** Every object of the traversal is an object of the document. */
  lemma {:induction false} AllObjectsContained(scene: seq<ObjId>, objs: map<ObjId, Object>)
    requires Contained(scene, objs) && Closed(objs)
    ensures Contained(AllObjects(scene, objs), objs)
  {
    forall id | id in AllObjects(scene, objs)
      ensures id in objs
    {
      if id !in scene {
        InstancedMembership(scene, objs, id);
        var k :| 0 <= k < |scene| && id in Members(objs[scene[k]]);
        assert scene[k] in objs;
      }
    }
  }

  /** The traversal depends on the objects only through their instance collections. */
  lemma {:induction false} AllObjectsSameMembers(scene: seq<ObjId>, objs: map<ObjId, Object>, objs': map<ObjId, Object>)
    requires Contained(scene, objs) && Contained(scene, objs')
    requires forall id :: id in scene ==> Members(objs[id]) == Members(objs'[id])
    ensures AllObjects(scene, objs) == AllObjects(scene, objs')
  {
    InstancedSameMembers(scene, objs, objs');
  }

  lemma {:induction false} InstancedSameMembers(scene: seq<ObjId>, objs: map<ObjId, Object>, objs': map<ObjId, Object>)
    requires Contained(scene, objs) && Contained(scene, objs')
    requires forall id :: id in scene ==> Members(objs[id]) == Members(objs'[id])
    ensures Instanced(scene, objs) == Instanced(scene, objs')
    decreases |scene|
  {
    if scene != [] {
      InstancedSameMembers(scene[..|scene| - 1], objs, objs');
      assert scene[|scene| - 1] in scene;
    }
  }

  /** A scene object that is also a member of an instanced collection is visited twice. */
  lemma NoDeduplication()
    ensures AllObjects([1, 2], map[1 := Object(Mesh, [], None, None), 2 := Object(Other, [], None, Some([1]))]) == [1, 2, 1]
  {
    var objs := map[1 := Object(Mesh, [], None, None), 2 := Object(Other, [], None, Some([1]))];
    assert [1, 2][..1] == [1];
    assert [1, 2][..1][..0] == [];
    assert Instanced([1, 2], objs) == [1];
  }
}

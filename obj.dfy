/**
 * Turning a parsed Wavefront OBJ file into meshes. Every object becomes one
 * `Polygon`: each face (a list of position indices) is closed into a cycle of
 * edges, the cycles of all faces of all groups are concatenated in order, and
 * the vertex map keeps exactly the file positions that some edge touches,
 * under their index in the file.
 */
module ObjImport {
  import opened Wrappers
  import opened Vectors
  import opened Rendering

  /** A group of the object: its faces, each the position indices of its corners in order. */
  datatype Group = Group(polys: seq<seq<nat>>)

  datatype Object = Object(groups: seq<Group>)

  /** The parsed file: every position of the file and the objects that refer to them. */
  datatype ObjData = ObjData(position: seq<Vector3>, objects: seq<Object>)

  /** Some edge has `v` as one of its ends. */
  predicate Touches(edges: seq<Edge>, v: nat)
  {
    exists i :: 0 <= i < |edges| && (edges[i].0 == v || edges[i].1 == v)
  }

  /** `v` is a corner of one of `faces`. */
  predicate Corner(faces: seq<seq<nat>>, v: nat)
  {
    exists f :: f in faces && v in f
  }

  /** The number of corners over all faces. */
  function CornerCount(faces: seq<seq<nat>>): nat
  {
    if faces == [] then 0 else |faces[0]| + CornerCount(faces[1..])
  }

  /** Edge `k` of the closed cycle through `face`: from the previous corner (the last one, for `k == 0`) to corner `k`. */
  function CycleEdge(last: nat, face: seq<nat>, k: nat): Edge
    requires k < |face|
  {
    if k == 0 then (last, face[0]) else (face[k - 1], face[k])
  }

  /**
   * The fold of `simple_polygon_to_edges` from position `i` on: the first
   * edge starts at `last`, every later one at the end of the edge pushed
   * before it. Started from edges that already follow the cycle, it pushes
   * one edge per remaining corner, each the cycle's edge into that corner.
   */
  function EdgeFold(last: nat, face: seq<nat>, i: nat, acc: seq<Edge>): (r: seq<Edge>)
    requires i <= |face| && |acc| == i
    ensures |r| == |face|
    ensures (forall k :: 0 <= k < i ==> acc[k] == CycleEdge(last, face, k)) ==>
              forall k :: 0 <= k < |face| ==> r[k] == CycleEdge(last, face, k)
    decreases |face| - i
  {
    if i == |face| then acc
    else
      var e := if i == 0 then (last, face[0]) else (acc[|acc| - 1].1, face[i]);
      EdgeFold(last, face, i + 1, acc + [e])
  }

  /** Every corner of a face is touched by the face's cycle, and every end of the cycle is a corner. */
  lemma CycleTouches(face: seq<nat>, edges: seq<Edge>)
    requires |face| > 0 && |edges| == |face|
    requires forall k :: 0 <= k < |face| ==> edges[k] == CycleEdge(face[|face| - 1], face, k)
    ensures forall v :: Touches(edges, v) <==> v in face
  {
    forall v | v in face
      ensures Touches(edges, v)
    {
      var k :| 0 <= k < |face| && face[k] == v;
      assert edges[k].1 == v;
    }
  }

  /**
   * `simple_polygon_to_edges`: the face closed into a cycle, one edge per
   * corner, the first from the last corner to the first. `None` is the panic
   * on a face with no corners.
   */
  function FaceEdges(face: seq<nat>): (r: Option<seq<Edge>>)
    ensures r.None? <==> face == []
    ensures r.Some? ==> |r.value| == |face|
    ensures r.Some? ==> r.value[0] == (face[|face| - 1], face[0])
    ensures r.Some? ==> forall k :: 0 < k < |face| ==> r.value[k] == (face[k - 1], face[k])
    ensures r.Some? ==> forall v :: Touches(r.value, v) <==> v in face
  {
    if face == [] then None
    else
      var edges := EdgeFold(face[|face| - 1], face, 0, []);
      CycleTouches(face, edges);
      Some(edges)
  }

  /** Consecutive edges of a face share their common corner, and the last edge ends where the first begins. */
  lemma FaceEdgesFormCycle(face: seq<nat>)
    requires face != []
    ensures var edges := FaceEdges(face).value;
      (forall k :: 0 < k < |edges| ==> edges[k].0 == edges[k - 1].1) && edges[0].0 == edges[|edges| - 1].1
  {
    var edges := FaceEdges(face).value;
    forall k | 1 < k < |edges|
      ensures edges[k].0 == edges[k - 1].1
    {
      assert edges[k - 1] == (face[k - 2], face[k - 1]);
    }
    if |edges| > 1 {
      assert edges[|edges| - 1] == (face[|face| - 2], face[|face| - 1]);
    }
  }

  lemma {:induction false} TouchesAppend(a: seq<Edge>, b: seq<Edge>)
    ensures forall v :: Touches(a + b, v) <==> Touches(a, v) || Touches(b, v)
  {
    forall v | Touches(a + b, v)
      ensures Touches(a, v) || Touches(b, v)
    {
      var i :| 0 <= i < |a + b| && ((a + b)[i].0 == v || (a + b)[i].1 == v);
      if i >= |a| {
        assert b[i - |a|] == (a + b)[i];
      }
    }
    forall v | Touches(a, v)
      ensures Touches(a + b, v)
    {
      var i :| 0 <= i < |a| && (a[i].0 == v || a[i].1 == v);
      assert (a + b)[i] == a[i];
    }
    forall v | Touches(b, v)
      ensures Touches(a + b, v)
    {
      var i :| 0 <= i < |b| && (b[i].0 == v || b[i].1 == v);
      assert (a + b)[|a| + i] == b[i];
    }
  }

  lemma CornerCons(faces: seq<seq<nat>>)
    requires faces != []
    ensures forall v :: Corner(faces, v) <==> v in faces[0] || Corner(faces[1..], v)
    ensures [] in faces <==> faces[0] == [] || [] in faces[1..]
  {
    assert faces == [faces[0]] + faces[1..];
  }

  /**
   * The face cycles one after another, in face order. `None` exactly when a
   * face has no corners; otherwise one edge per corner, and the values the
   * edges touch are exactly the faces' corners.
   */
  function FacesEdges(faces: seq<seq<nat>>): (r: Option<seq<Edge>>)
    ensures r.None? <==> [] in faces
    ensures r.Some? ==> |r.value| == CornerCount(faces)
    ensures r.Some? ==> forall v :: Touches(r.value, v) <==> Corner(faces, v)
  {
    if faces == [] then Some([])
    else
      var head := FaceEdges(faces[0]);
      var tail := FacesEdges(faces[1..]);
      CornerCons(faces);
      if head.None? || tail.None? then None
      else
        TouchesAppend(head.value, tail.value);
        Some(head.value + tail.value)
  }

  /** The faces of all groups, group by group. */
  function Faces(groups: seq<Group>): (r: seq<seq<nat>>)
    ensures forall f :: f in r <==> exists g :: g in groups && f in g.polys
  {
    if groups == [] then []
    else
      assert groups == [groups[0]] + groups[1..];
      groups[0].polys + Faces(groups[1..])
  }

  /** One face on its own gives exactly that face's cycle. */
  lemma FacesEdgesOfOne(face: seq<nat>)
    ensures FacesEdges([face]) == FaceEdges(face)
  {
    assert [face][1..] == [];
    if face != [] {
      assert FaceEdges(face).value + [] == FaceEdges(face).value;
    }
  }

  /**
   * The edges of consecutive faces are the first faces' edges followed by the
   * rest's, and a panic in either part is a panic of the whole. With
   * `FacesEdgesOfOne` and `FacesEdges([]) == Some([])`, this fixes the edges:
   * each face's cycle, concatenated in face order.
   */
  lemma {:induction false} FacesEdgesAppend(a: seq<seq<nat>>, b: seq<seq<nat>>)
    ensures FacesEdges(a + b) ==
              if FacesEdges(a).Some? && FacesEdges(b).Some? then Some(FacesEdges(a).value + FacesEdges(b).value) else None
  {
    if a == [] {
      assert a + b == b;
      if FacesEdges(b).Some? {
        assert [] + FacesEdges(b).value == FacesEdges(b).value;
      }
    } else {
      assert (a + b)[0] == a[0] && (a + b)[1..] == a[1..] + b;
      FacesEdgesAppend(a[1..], b);
      var head, rest, tail := FaceEdges(a[0]), FacesEdges(a[1..]), FacesEdges(b);
      if head.Some? && rest.Some? && tail.Some? {
        assert head.value + (rest.value + tail.value) == (head.value + rest.value) + tail.value;
      }
    }
  }

  /** One group on its own gives exactly its faces. */
  lemma FacesOfOne(g: Group)
    ensures Faces([g]) == g.polys
  {
    assert [g][1..] == [];
  }

  /** The faces of consecutive groups are the first groups' faces followed by the rest's. */
  lemma {:induction false} FacesAppend(a: seq<Group>, b: seq<Group>)
    ensures Faces(a + b) == Faces(a) + Faces(b)
  {
    if a == [] {
      assert a + b == b;
    } else {
      assert (a + b)[0] == a[0] && (a + b)[1..] == a[1..] + b;
      FacesAppend(a[1..], b);
    }
  }

  /**
   * The edges of an object's mesh: the cycles of the faces of all its groups.
   * A panic exactly when some face of some group is empty; otherwise one edge
   * per corner, touching exactly the corners of the object's faces.
   */
  function ObjectEdges(obj: Object): (r: Option<seq<Edge>>)
    ensures r.None? <==> exists g :: g in obj.groups && [] in g.polys
    ensures r.Some? ==> |r.value| == CornerCount(Faces(obj.groups))
    ensures r.Some? ==> forall v :: Touches(r.value, v) <==> exists g, f :: g in obj.groups && f in g.polys && v in f
  {
    FacesEdges(Faces(obj.groups))
  }

  /** The edges of an object whose groups are `a` then `b`: those of the `a` groups, then those of the `b` groups. */
  lemma ObjectEdgesAppend(a: seq<Group>, b: seq<Group>)
    ensures ObjectEdges(Object(a + b)) ==
              if ObjectEdges(Object(a)).Some? && ObjectEdges(Object(b)).Some?
              then Some(ObjectEdges(Object(a)).value + ObjectEdges(Object(b)).value)
              else None
  {
    FacesAppend(a, b);
    FacesEdgesAppend(Faces(a), Faces(b));
  }

  /** The edges touch `v` exactly when the first one does or the rest do. */
  lemma TouchesCons(edges: seq<Edge>, v: nat)
    requires edges != []
    ensures Touches(edges, v) <==> edges[0].0 == v || edges[0].1 == v || Touches(edges[1..], v)
  {
    if Touches(edges[1..], v) {
      var i :| 0 <= i < |edges[1..]| && (edges[1..][i].0 == v || edges[1..][i].1 == v);
      assert edges[i + 1] == edges[1..][i];
    }
    if Touches(edges, v) && !(edges[0].0 == v || edges[0].1 == v) {
      var i :| 0 <= i < |edges| && (edges[i].0 == v || edges[i].1 == v);
      assert edges[1..][i - 1] == edges[i];
    }
  }

  /**
   * `edges_contains_index` as written: a left fold that becomes `true` at an
   * edge touching `v` and otherwise carries the accumulator on. It ends `true`
   * exactly when it started `true` or some edge touches `v`.
   */
  function ContainsFold(edges: seq<Edge>, v: nat, acc: bool): (r: bool)
    ensures r <==> acc || Touches(edges, v)
  {
    if edges == [] then acc
    else
      TouchesCons(edges, v);
      ContainsFold(edges[1..], v, if edges[0].0 == v || edges[0].1 == v then true else acc)
  }

  /** `edges_contains_index`: some edge has `v` as one of its ends. */
  function EdgesContainsIndex(edges: seq<Edge>, v: nat): (r: bool)
    ensures r <==> Touches(edges, v)
  {
    ContainsFold(edges, v, false)
  }

  /**
   * The positions fold from index `i` on: every index whose edge test holds
   * is inserted with its position. It adds exactly the touched indices from
   * `i` on, each with its position, and keeps the rest of `acc`.
   */
  function KeepFrom(position: seq<Vector3>, edges: seq<Edge>, i: nat, acc: map<nat, Vector3>): (m: map<nat, Vector3>)
    requires i <= |position|
    ensures forall j :: j in m <==> j in acc || (i <= j < |position| && Touches(edges, j))
    ensures forall j :: j in m ==> m[j] == if i <= j < |position| && Touches(edges, j) then position[j] else acc[j]
    decreases |position| - i
  {
    if i == |position| then acc
    else
      var acc' := if EdgesContainsIndex(edges, i) then acc[i := position[i]] else acc;
      KeepFrom(position, edges, i + 1, acc')
  }

  /** The vertex map of an imported mesh: every file position some edge touches, under its index, and nothing else. */
  function KeptPositions(position: seq<Vector3>, edges: seq<Edge>): (m: map<nat, Vector3>)
    ensures forall j: nat :: j in m <==> j < |position| && Touches(edges, j)
    ensures forall j :: j in m ==> m[j] == position[j]
  {
    KeepFrom(position, edges, 0, map[])
  }

  /**
   * `Into<Vec<Mesh>>`: one fresh mesh per object, in object order, with the
   * default transform and glyph, the object's edges and the positions those
   * edges touch. An object with an empty face panics, so the meshes stop
   * there and `panicked` is set.
   */
  method ToMeshes(data: ObjData) returns (meshes: seq<Polygon>, panicked: bool)
    ensures |meshes| <= |data.objects|
    ensures panicked <==> |meshes| < |data.objects|
    ensures panicked ==> ObjectEdges(data.objects[|meshes|]).None?
    ensures forall i :: 0 <= i < |meshes| ==>
              fresh(meshes[i]) && ObjectEdges(data.objects[i]) == Some(meshes[i].edges)
              && meshes[i].vertices == KeptPositions(data.position, meshes[i].edges)
              && meshes[i].rotation == Zero3 && meshes[i].position == Zero3
              && meshes[i].scale == One3 && meshes[i].glyph == '+'
    ensures forall i, j :: 0 <= i < j < |meshes| ==> meshes[i] != meshes[j]
  {
    meshes, panicked := [], false;
    var i := 0;
    while i < |data.objects|
      invariant i == |meshes| <= |data.objects|
      invariant forall k :: 0 <= k < i ==>
                  fresh(meshes[k]) && ObjectEdges(data.objects[k]) == Some(meshes[k].edges)
                  && meshes[k].vertices == KeptPositions(data.position, meshes[k].edges)
                  && meshes[k].rotation == Zero3 && meshes[k].position == Zero3
                  && meshes[k].scale == One3 && meshes[k].glyph == '+'
      invariant forall k, j :: 0 <= k < j < i ==> meshes[k] != meshes[j]
    {
      var edges := ObjectEdges(data.objects[i]);
      if edges.None? {
        panicked := true;
        return;
      }
      var positions := KeptPositions(data.position, edges.value);
      var mesh := new Polygon();
      mesh.edges := edges.value;
      mesh.vertices := positions;
      meshes := meshes + [mesh];
      i := i + 1;
    }
  }

  /**
   * An imported mesh can be drawn without a panic exactly when every corner
   * of every face of its object indexes a position of the file.
   */
  lemma ImportedMeshResolves(data: ObjData, obj: Object)
    requires ObjectEdges(obj).Some?
    ensures var edges := ObjectEdges(obj).value;
      EdgesResolve(edges, KeptPositions(data.position, edges).Keys)
      <==> forall f, v :: f in Faces(obj.groups) && v in f ==> v < |data.position|
  {
    var faces := Faces(obj.groups);
    var edges := ObjectEdges(obj).value;
    var kept := KeptPositions(data.position, edges);
    if EdgesResolve(edges, kept.Keys) {
      forall f, v | f in faces && v in f
        ensures v < |data.position|
      {
        assert Corner(faces, v);
        var i :| 0 <= i < |edges| && (edges[i].0 == v || edges[i].1 == v);
      }
    }
    if forall f, v :: f in faces && v in f ==> v < |data.position| {
      forall i | 0 <= i < |edges|
        ensures edges[i].0 in kept && edges[i].1 in kept
      {
        assert Touches(edges, edges[i].0) && Touches(edges, edges[i].1);
      }
    }
  }
}

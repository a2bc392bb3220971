/**
 * `create_cube`: the 2 x 2 x 2 sample cube centred on the origin, built
 * through the mesh's own operations, and what makes it a cube: eight
 * distinct corners at (+-1, +-1, +-1), twelve edges that are exactly the
 * cube's sides, three sides at every corner, and no edge that would make
 * drawing panic.
 */
module Shapes {
  import opened Vectors
  import opened Rendering

  /** The corners: ids 0-3 on the face z = 1, ids 4-7 below them on z = -1. */
  function CubeVertices(): map<nat, Vector3>
  {
    map[][0 := Vector3(1.0, 1.0, 1.0)][1 := Vector3(-1.0, 1.0, 1.0)]
         [2 := Vector3(-1.0, -1.0, 1.0)][3 := Vector3(1.0, -1.0, 1.0)]
         [4 := Vector3(1.0, 1.0, -1.0)][5 := Vector3(-1.0, 1.0, -1.0)]
         [6 := Vector3(-1.0, -1.0, -1.0)][7 := Vector3(1.0, -1.0, -1.0)]
  }

  /** The top square, the bottom square, then the four uprights, in the order they are added. */
  function CubeEdges(): seq<Edge>
  {
    [(0, 1), (1, 2), (2, 3), (3, 0),
     (4, 5), (5, 6), (6, 7), (7, 4),
     (0, 4), (1, 5), (2, 6), (3, 7)]
  }

  /** Builds the cube on a default polygon: default transform and glyph, the corners and sides above. */
  method CreateCube() returns (cube: Polygon)
    ensures fresh(cube)
    ensures cube.vertices == CubeVertices() && cube.edges == CubeEdges()
    ensures cube.rotation == Zero3 && cube.position == Zero3 && cube.scale == One3 && cube.glyph == '+'
  {
    cube := new Polygon();
    var _ := cube.InsertVertex(0, Vector3(1.0, 1.0, 1.0));
    var _ := cube.InsertVertex(1, Vector3(-1.0, 1.0, 1.0));
    var _ := cube.InsertVertex(2, Vector3(-1.0, -1.0, 1.0));
    var _ := cube.InsertVertex(3, Vector3(1.0, -1.0, 1.0));

    cube.AddEdge((0, 1));
    cube.AddEdge((1, 2));
    cube.AddEdge((2, 3));
    cube.AddEdge((3, 0));

    var _ := cube.InsertVertex(4, Vector3(1.0, 1.0, -1.0));
    var _ := cube.InsertVertex(5, Vector3(-1.0, 1.0, -1.0));
    var _ := cube.InsertVertex(6, Vector3(-1.0, -1.0, -1.0));
    var _ := cube.InsertVertex(7, Vector3(1.0, -1.0, -1.0));

    cube.AddEdge((4, 5));
    cube.AddEdge((5, 6));
    cube.AddEdge((6, 7));
    cube.AddEdge((7, 4));

    cube.AddEdge((0, 4));
    cube.AddEdge((1, 5));
    cube.AddEdge((2, 6));
    cube.AddEdge((3, 7));
    CubeEdgesInOrder();
  }

  /** The edges as `CreateCube` appends them, one at a time. */
  lemma CubeEdgesInOrder()
    ensures [] + [(0, 1)] + [(1, 2)] + [(2, 3)] + [(3, 0)] + [(4, 5)] + [(5, 6)] + [(6, 7)] + [(7, 4)]
              + [(0, 4)] + [(1, 5)] + [(2, 6)] + [(3, 7)] == CubeEdges()
  {
  }

  predicate Unit(c: real)
  {
    c == 1.0 || c == -1.0
  }

  /** `a` and `b` are joined by a side of the cube: they differ in exactly one coordinate. */
  predicate Side(a: Vector3, b: Vector3)
  {
    (a.x != b.x && a.y == b.y && a.z == b.z)
    || (a.x == b.x && a.y != b.y && a.z == b.z)
    || (a.x == b.x && a.y == b.y && a.z != b.z)
  }

  /** The ids are 0 to 7, every corner is at (+-1, +-1, +-1), and no two corners coincide. */
  lemma CubeCorners()
    ensures forall i: nat :: i in CubeVertices() <==> i < 8
    ensures forall i :: i in CubeVertices() ==>
              Unit(CubeVertices()[i].x) && Unit(CubeVertices()[i].y) && Unit(CubeVertices()[i].z)
    ensures forall i, j :: i in CubeVertices() && j in CubeVertices() && i != j ==>
              CubeVertices()[i] != CubeVertices()[j]
  {
    var m := CubeVertices();
    assert m.Keys == {0, 1, 2, 3, 4, 5, 6, 7};
  }

  /** The edges are exactly the cube's sides: every edge is a side, and every side is an edge one way round. */
  lemma CubeEdgesAreSides()
    ensures forall i :: 0 <= i < |CubeEdges()| ==>
              CubeEdges()[i].0 in CubeVertices() && CubeEdges()[i].1 in CubeVertices()
              && Side(CubeVertices()[CubeEdges()[i].0], CubeVertices()[CubeEdges()[i].1])
    ensures forall a, b :: a in CubeVertices() && b in CubeVertices() && Side(CubeVertices()[a], CubeVertices()[b]) ==>
              (a, b) in CubeEdges() || (b, a) in CubeEdges()
  {
    var m, es := CubeVertices(), CubeEdges();
    assert m.Keys == {0, 1, 2, 3, 4, 5, 6, 7};
  }

  /** No edge is added twice, in either direction: with the lemma above, the twelve edges are the twelve sides, once each. */
  lemma CubeEdgesDistinct()
    ensures |CubeEdges()| == 12
    ensures forall i, j :: 0 <= i < j < |CubeEdges()| ==>
              CubeEdges()[i] != CubeEdges()[j] && CubeEdges()[i] != (CubeEdges()[j].1, CubeEdges()[j].0)
  {
  }

  /** The positions in `edges` of the edges that have `v` as an end. */
  function Incident(edges: seq<Edge>, v: nat): set<nat>
  {
    set i: nat | i < |edges| && (edges[i].0 == v || edges[i].1 == v)
  }

  /** Each top corner is the end of exactly three edges: the two sides of the top square that meet there and its upright. */
  lemma TopCornerEdges()
    ensures Incident(CubeEdges(), 0) == {0, 3, 8} && Incident(CubeEdges(), 1) == {0, 1, 9}
    ensures Incident(CubeEdges(), 2) == {1, 2, 10} && Incident(CubeEdges(), 3) == {2, 3, 11}
  {
  }

  /** Each bottom corner is the end of exactly three edges: two sides of the bottom square and its upright. */
  lemma BottomCornerEdges()
    ensures Incident(CubeEdges(), 4) == {4, 7, 8} && Incident(CubeEdges(), 5) == {4, 5, 9}
    ensures Incident(CubeEdges(), 6) == {5, 6, 10} && Incident(CubeEdges(), 7) == {6, 7, 11}
  {
  }

  /** Drawing the cube never panics: it yields its twelve lines, each drawn with the cube's glyph. */
  lemma CubeDraws(camera: Camera, cube: Polygon, project: Projection, rotate: Rotation, dimensions: (nat, nat))
    requires cube.vertices == CubeVertices() && cube.edges == CubeEdges()
    ensures DrawPolygon(camera, cube, project, rotate, dimensions).Some?
    ensures |DrawPolygon(camera, cube, project, rotate, dimensions).value| == 12
  {
    CubeEdgesAreSides();
  }
}

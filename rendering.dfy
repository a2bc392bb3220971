/**
 * Meshes and the structural part of rendering. A `Polygon` owns a vertex map
 * keyed by id and an ordered list of edges (pairs of ids) plus a transform and
 * a glyph. Drawing a polygon turns every edge, in order, into one `Line`
 * between the projected positions of its two vertices. The rotation
 * (`Vector3::rotate`) and the camera projection (`Camera::map_point_uv`) are
 * floating-point trigonometry and are passed in as functions.
 */
module Rendering {
  import opened Wrappers
  import opened Vectors
  import opened CharBuffers

  /** An edge: the ids of the two vertices it joins. */
  type Edge = (nat, nat)

  /** `Vector3::rotate(point, rotation)`: rotation about x, then y, then z. */
  type Rotation = (Vector3, Vector3) -> Vector3

  datatype Camera = Camera(position: Vector3, rotation: Vector3, fov: Vector2)

  /** `Camera::map_point_uv(camera, point)`: a world point to screen UV coordinates. */
  type Projection = (Camera, Vector3) -> Vector2

  /** What `draw_polygon` hands on for one edge: the glyph and its two endpoints in grid units. */
  datatype Line = Line(ch: char, points: (Vector2, Vector2))

  /** The renderer: the polygons it draws, in order, and the camera it draws them through. */
  datatype Renderer = Renderer(polygons: seq<Polygon>, camera: Camera)

  /** `s` without its first occurrence of `e`; `s` itself when there is none. */
  function RemoveFirst(s: seq<Edge>, e: Edge): seq<Edge>
  {
    if s == [] then []
    else if s[0] == e then s[1..]
    else [s[0]] + RemoveFirst(s[1..], e)
  }

  /** Without an occurrence there is nothing to remove. */
  lemma {:induction false} RemoveFirstAbsent(s: seq<Edge>, e: Edge)
    requires e !in s
    ensures RemoveFirst(s, e) == s
  {
    if s != [] {
      RemoveFirstAbsent(s[1..], e);
    }
  }

  /** With its first occurrence at `i`, exactly the element at `i` goes and the rest keep their order. */
  lemma {:induction false} RemoveFirstAt(s: seq<Edge>, e: Edge, i: nat)
    requires i < |s| && s[i] == e && e !in s[..i]
    ensures RemoveFirst(s, e) == s[..i] + s[i + 1..]
  {
    if i > 0 {
      assert s[0] in s[..i];
      assert s[1..][..i - 1] == s[..i][1..];
      RemoveFirstAt(s[1..], e, i - 1);
      assert s[1..][i..] == s[i + 1..];
      assert [s[0]] + (s[1..][..i - 1] + s[i + 1..]) == s[..i] + s[i + 1..];
    }
  }

  /** Removing the first occurrence takes one copy of `e` out of the multiset of edges and nothing else. */
  lemma {:induction false} RemoveFirstMultiset(s: seq<Edge>, e: Edge)
    ensures multiset(RemoveFirst(s, e)) == multiset(s) - multiset{e}
    ensures |RemoveFirst(s, e)| == if e in s then |s| - 1 else |s|
  {
    if s != [] {
      RemoveFirstMultiset(s[1..], e);
      assert s == [s[0]] + s[1..];
    }
  }

  /**
   * `uv` scaled by the grid's width and height, as `draw_polygon` does before
   * building lines: a point on screen, with UV coordinates in `[0, 1]`, lands
   * inside the `width x height` box of the grid.
   */
  function ToGrid(uv: Vector2, dimensions: (nat, nat)): (p: Vector2)
    ensures 0.0 <= uv.x <= 1.0 ==> 0.0 <= p.x <= dimensions.0 as real
    ensures 0.0 <= uv.y <= 1.0 ==> 0.0 <= p.y <= dimensions.1 as real
  {
    Vector2(uv.x * dimensions.0 as real, uv.y * dimensions.1 as real)
  }

  /** Every vertex projected through the camera and scaled to the grid, under the same id. */
  function PointMap(global: map<nat, Vector3>, camera: Camera, project: Projection, dimensions: (nat, nat)): map<nat, Vector2>
  {
    map k | k in global :: ToGrid(project(camera, global[k]), dimensions)
  }

  /**
   * The `fold(HashMap::new(), insert)` that builds `draw_polygon`'s point map,
   * over the ids in `order`, the order the vertex map's iterator yields them.
   * It adds every id of `order` with its projected grid point and keeps the
   * rest of `acc`.
   */
  function InsertPoints(order: seq<nat>, global: map<nat, Vector3>, camera: Camera, project: Projection,
                        dimensions: (nat, nat), acc: map<nat, Vector2>): (m: map<nat, Vector2>)
    requires forall i :: 0 <= i < |order| ==> order[i] in global
    ensures forall k :: k in m <==> k in acc || k in order
    ensures forall k :: k in m ==> m[k] == if k in order then ToGrid(project(camera, global[k]), dimensions) else acc[k]
  {
    if order == [] then acc
    else
      var k := order[0];
      assert forall j :: j in order <==> j == k || j in order[1..];
      InsertPoints(order[1..], global, camera, project, dimensions, acc[k := ToGrid(project(camera, global[k]), dimensions)])
  }

  /**
   * Whatever order the vertex map yields its ids in, the fold builds the same
   * point map: every vertex under its own id, projected and scaled to the grid.
   */
  lemma PointMapFold(order: seq<nat>, global: map<nat, Vector3>, camera: Camera, project: Projection, dimensions: (nat, nat))
    requires forall k :: k in order <==> k in global
    ensures InsertPoints(order, global, camera, project, dimensions, map[]) == PointMap(global, camera, project, dimensions)
  {
    var m := InsertPoints(order, global, camera, project, dimensions, map[]);
    var p := PointMap(global, camera, project, dimensions);
    assert m.Keys == p.Keys;
  }

  /** Both ends of every edge name a vertex that is in `ids`. */
  predicate EdgesResolve(edges: seq<Edge>, ids: set<nat>)
  {
    forall i :: 0 <= i < |edges| ==> edges[i].0 in ids && edges[i].1 in ids
  }

  /**
   * One line per edge, in edge order, each with glyph `ch`; `None` stands for
   * the panic at the first edge whose id has no point.
   */
  function EdgeLines(edges: seq<Edge>, points: map<nat, Vector2>, ch: char): (r: Option<seq<Line>>)
    ensures r.Some? <==> EdgesResolve(edges, points.Keys)
    ensures r.Some? ==> |r.value| == |edges|
    ensures r.Some? ==> forall i :: 0 <= i < |edges| ==>
              r.value[i] == Line(ch, (points[edges[i].0], points[edges[i].1]))
  {
    if edges == [] then Some([])
    else if edges[0].0 !in points || edges[0].1 !in points then None
    else
      match EdgeLines(edges[1..], points, ch)
      case None => None
      case Some(rest) =>
        Some([Line(ch, (points[edges[0].0], points[edges[0].1]))] + rest)
  }

  /**
   * `draw_polygon`, up to the call of `draw_lines`: the lines for the
   * polygon's edges, in order, each carrying the polygon's glyph, or `None`
   * (a panic) exactly when some edge names an id that is not a vertex.
   */
  function DrawPolygon(camera: Camera, polygon: Polygon, project: Projection, rotate: Rotation, dimensions: (nat, nat)): (r: Option<seq<Line>>)
    reads polygon
    ensures r.Some? <==> EdgesResolve(polygon.edges, polygon.vertices.Keys)
    ensures r.Some? ==> |r.value| == |polygon.edges|
    ensures r.Some? ==> forall i :: 0 <= i < |r.value| ==> r.value[i].ch == polygon.glyph
    ensures r.Some? ==> forall i :: 0 <= i < |r.value| ==>
              r.value[i].points == (ToGrid(project(camera, polygon.Place(polygon.vertices[polygon.edges[i].0], rotate)), dimensions),
                                    ToGrid(project(camera, polygon.Place(polygon.vertices[polygon.edges[i].1], rotate)), dimensions))
  {
    var points := PointMap(polygon.GlobalVertices(rotate), camera, project, dimensions);
    EdgeLines(polygon.edges, points, polygon.glyph)
  }

  /**
   * `Renderer::draw`: the polygons in list order, each turned into the batch
   * of lines it hands to `draw_lines`. A polygon with a dangling edge panics,
   * so the batches stop there and `panicked` is set.
   */
  method Draw(renderer: Renderer, buffer: CharBuffer, project: Projection, rotate: Rotation)
    returns (batches: seq<seq<Line>>, panicked: bool)
    ensures |batches| <= |renderer.polygons|
    ensures forall i :: 0 <= i < |batches| ==>
              DrawPolygon(renderer.camera, renderer.polygons[i], project, rotate, buffer.dimensions) == Some(batches[i])
    ensures panicked <==> |batches| < |renderer.polygons|
    ensures panicked ==>
              DrawPolygon(renderer.camera, renderer.polygons[|batches|], project, rotate, buffer.dimensions).None?
  {
    batches, panicked := [], false;
    var i := 0;
    while i < |renderer.polygons|
      invariant i == |batches| <= |renderer.polygons|
      invariant forall j :: 0 <= j < i ==>
                  DrawPolygon(renderer.camera, renderer.polygons[j], project, rotate, buffer.dimensions) == Some(batches[j])
    {
      var lines := DrawPolygon(renderer.camera, renderer.polygons[i], project, rotate, buffer.dimensions);
      if lines.None? {
        panicked := true;
        return;
      }
      batches := batches + [lines.value];
      i := i + 1;
    }
  }

  /** A mesh: vertices keyed by id, edges between ids, a transform and the glyph its edges are drawn with. */
  class Polygon {
    var vertices: map<nat, Vector3>
    var edges: seq<Edge>
    var rotation: Vector3
    var position: Vector3
    var scale: Vector3
    var glyph: char

    /** `Polygon::default()`: no vertices, no edges, the identity transform and `'+'`. */
    constructor ()
      ensures vertices == map[] && edges == []
      ensures rotation == Zero3 && position == Zero3 && scale == One3 && glyph == '+'
    {
      vertices, edges := map[], [];
      rotation, position, scale := Zero3, Zero3, One3;
      glyph := '+';
    }

    /** `insert_vertex`: maps `index` to `vertex`, returning what was stored there before, if anything. */
    method InsertVertex(index: nat, vertex: Vector3) returns (previous: Option<Vector3>)
      modifies this
      ensures vertices == old(vertices)[index := vertex]
      ensures edges == old(edges)
      ensures rotation == old(rotation) && position == old(position) && scale == old(scale) && glyph == old(glyph)
      ensures previous == if index in old(vertices) then Some(old(vertices)[index]) else None
    {
      previous := if index in vertices then Some(vertices[index]) else None;
      vertices := vertices[index := vertex];
    }

    /** `remove_vertex`: deletes `index`, returning its vertex, or `None` when it was absent. */
    method RemoveVertex(index: nat) returns (removed: Option<Vector3>)
      modifies this
      ensures vertices == old(vertices) - {index}
      ensures edges == old(edges)
      ensures rotation == old(rotation) && position == old(position) && scale == old(scale) && glyph == old(glyph)
      ensures removed == if index in old(vertices) then Some(old(vertices)[index]) else None
    {
      removed := if index in vertices then Some(vertices[index]) else None;
      vertices := vertices - {index};
    }

    /** `add_edge`: appends, duplicates included. */
    method AddEdge(edge: Edge)
      modifies this
      ensures edges == old(edges) + [edge]
      ensures vertices == old(vertices)
      ensures rotation == old(rotation) && position == old(position) && scale == old(scale) && glyph == old(glyph)
    {
      edges := edges + [edge];
    }

    /** `remove_edge`: removes the first equal edge and returns it; `None` and no change when there is none. */
    method RemoveEdge(edge: Edge) returns (removed: Option<Edge>)
      modifies this
      ensures edges == RemoveFirst(old(edges), edge)
      ensures vertices == old(vertices)
      ensures rotation == old(rotation) && position == old(position) && scale == old(scale) && glyph == old(glyph)
      ensures removed == if edge in old(edges) then Some(edge) else None
    {
      var i := 0;
      while i < |edges| && edges[i] != edge
        invariant 0 <= i <= |edges|
        invariant edge !in edges[..i]
      {
        i := i + 1;
      }
      if i == |edges| {
        assert edges[..i] == edges;
        RemoveFirstAbsent(edges, edge);
        return None;
      }
      RemoveFirstAt(edges, edge, i);
      edges := edges[..i] + edges[i + 1..];
      removed := Some(edge);
    }

    /**
     * One vertex moved to world space: scaled component-wise, rotated, then
     * translated. Under the default transform, with a rotation that leaves a
     * point alone when every angle is 0, the vertex stays where it is.
     */
    function Place(v: Vector3, rotate: Rotation): (w: Vector3)
      reads this
      ensures scale == One3 && rotation == Zero3 && position == Zero3 && (forall u :: rotate(u, Zero3) == u) ==> w == v
    {
      Add(rotate(Scale(v, scale), rotation), position)
    }

    /** Every vertex in world space, under its own id. */
    function GlobalVertices(rotate: Rotation): (m: map<nat, Vector3>)
      reads this
      ensures m.Keys == vertices.Keys
    {
      map k | k in vertices :: Place(vertices[k], rotate)
    }

    /**
     * `get_global_verticies`: a copy of the vertex map with every entry moved
     * to world space in place; the key set is the polygon's and the polygon is
     * left as it was.
     */
    method GetGlobalVertices(rotate: Rotation) returns (ret: map<nat, Vector3>)
      ensures ret.Keys == vertices.Keys
      ensures forall k :: k in ret ==> ret[k] == Place(vertices[k], rotate)
      ensures ret == GlobalVertices(rotate)
    {
      ret := vertices;
      var todo := vertices.Keys;
      while todo != {}
        invariant todo <= vertices.Keys == ret.Keys
        invariant forall k :: k in ret ==> ret[k] == if k in todo then vertices[k] else Place(vertices[k], rotate)
        decreases todo
      {
        var k :| k in todo;
        ret := ret[k := Place(ret[k], rotate)];
        todo := todo - {k};
      }
    }
  }

  /**
   * With the default transform (scale 1, no rotation, no translation) and a
   * rotation that leaves a point alone when every angle is 0, world space is
   * local space.
   */
  lemma DefaultTransformIsIdentity(p: Polygon, rotate: Rotation)
    requires p.scale == One3 && p.rotation == Zero3 && p.position == Zero3
    requires forall v :: rotate(v, Zero3) == v
    ensures p.GlobalVertices(rotate) == p.vertices
  {
    forall k | k in p.vertices
      ensures p.GlobalVertices(rotate)[k] == p.vertices[k]
    {
      var v := p.vertices[k];
      assert Scale(v, One3) == v;
      assert Add(v, Zero3) == v;
    }
  }
}

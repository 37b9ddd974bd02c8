/** What both Metal canvases draw on their top layer: the triangles of
    `TriangleNode` (runtime-swift/Inertia/Sources/Inertia/VibeShapes.swift)
    for the shape objects that sit at the highest z-index, and the sorted
    list of distinct z-indices. Vertex positions are kept symbolic: a
    vertex names its corner of the triangle of the given side centred at
    the given point, since the corners lie at irrational offsets. */
module Canvas {
  import opened Schema

  datatype Corner = Apex | BaseLeft | BaseRight

  /** The vertex at `corner` of the triangle of side `size` centred on
      `center`, drawn in `color`. */
  datatype Vertex = Vertex(corner: Corner, center: Point, size: real, color: seq<real>)

  /** `TriangleNode(...).vertices` for a schema object: side `width`,
      centre at the position scaled by the object's size. */
  function TriangleVertices(o: Shape): (r: seq<Vertex>)
    ensures |r| == 3
    ensures r[0].corner == Apex && r[1].corner == BaseLeft && r[2].corner == BaseRight
    ensures forall i :: 0 <= i < 3 ==>
      r[i].size == o.width && r[i].color == o.color &&
      r[i].center == Point(o.position.x * o.width, o.position.y * o.height)
  {
    var center := Point(o.position.x * o.width, o.position.y * o.height);
    [Vertex(Apex, center, o.width, o.color),
     Vertex(BaseLeft, center, o.width, o.color),
     Vertex(BaseRight, center, o.width, o.color)]
  }

  /** `objects.map { $0.zIndex }.max() ?? .zero`. */
  function MaxZIndex(objects: seq<Shape>): (m: int)
    ensures objects == [] ==> m == 0
    ensures forall i :: 0 <= i < |objects| ==> objects[i].zIndex <= m
    ensures objects != [] ==> exists i :: 0 <= i < |objects| && objects[i].zIndex == m
  {
    if objects == [] then 0
    else if |objects| == 1 then objects[0].zIndex
    else
      var rest := MaxZIndex(objects[..|objects| - 1]);
      var last := objects[|objects| - 1].zIndex;
      if last > rest then last else rest
  }

  /** The object is drawn on the top layer whose z-index is `top`. */
  predicate IsTopTriangle(o: Shape, top: int)
  {
    o.objectType == ShapeObject && o.zIndex == top && o.shape == "triangle"
  }

  /** The vertices one object adds to the top layer. */
  function Contribution(o: Shape, top: int): seq<Vertex>
  {
    if IsTopTriangle(o, top) then TriangleVertices(o) else []
  }

  /** The top-layer vertices of the objects, in the order given. */
  function TopVerticesOf(objects: seq<Shape>, top: int): seq<Vertex>
  {
    if objects == [] then []
    else TopVerticesOf(objects[..|objects| - 1], top) + Contribution(objects[|objects| - 1], top)
  }

  /** The vertex list both canvases build: the top is the highest z-index
      over all objects, shape or not. */
  function TopVertices(objects: seq<Shape>): seq<Vertex>
  {
    TopVerticesOf(objects, MaxZIndex(objects))
  }

  /** The objects that are drawn, in schema order. */
  function TopObjects(objects: seq<Shape>, top: int): (r: seq<Shape>)
    ensures forall o :: o in r <==> o in objects && IsTopTriangle(o, top)
  {
    if objects == [] then []
    else
      var last := objects[|objects| - 1];
      assert objects == objects[..|objects| - 1] + [last];
      TopObjects(objects[..|objects| - 1], top) + (if IsTopTriangle(last, top) then [last] else [])
  }

  /** Each drawn object adds exactly its three vertices, in schema order:
      the k-th drawn object owns vertices 3k, 3k+1 and 3k+2. */
  lemma {:induction false} TopVerticesInSchemaOrder(objects: seq<Shape>, top: int)
    ensures |TopVerticesOf(objects, top)| == 3 * |TopObjects(objects, top)|
    ensures forall k :: 0 <= k < |TopObjects(objects, top)| ==>
      TopVerticesOf(objects, top)[3 * k .. 3 * k + 3] == TriangleVertices(TopObjects(objects, top)[k])
  {
    if objects != [] {
      var init := objects[..|objects| - 1];
      TopVerticesInSchemaOrder(init, top);
      var vs, os := TopVerticesOf(init, top), TopObjects(init, top);
      var last := objects[|objects| - 1];
      var all, drawn := TopVerticesOf(objects, top), TopObjects(objects, top);
      assert all == vs + Contribution(last, top);
      assert drawn == os + (if IsTopTriangle(last, top) then [last] else []);
      forall k | 0 <= k < |drawn|
        ensures all[3 * k .. 3 * k + 3] == TriangleVertices(drawn[k])
      {
        if k < |os| {
          assert drawn[k] == os[k];
          assert all[3 * k .. 3 * k + 3] == vs[3 * k .. 3 * k + 3];
        } else {
          assert IsTopTriangle(last, top) && k == |os| && drawn[k] == last;
          assert all[3 * k .. 3 * k + 3] == TriangleVertices(last);
        }
      }
    }
  }

  /** A vertex is drawn exactly when it is a corner of a drawn object, and
      every drawn object lies on or above every other object. */
  lemma {:induction false} TopVerticesMembers(objects: seq<Shape>, v: Vertex)
    ensures v in TopVertices(objects) <==>
      exists i :: 0 <= i < |objects| && IsTopTriangle(objects[i], MaxZIndex(objects)) && v in TriangleVertices(objects[i])
  {
    var top := MaxZIndex(objects);
    TopVerticesMembersOf(objects, top, v);
  }

  lemma {:induction false} TopVerticesMembersOf(objects: seq<Shape>, top: int, v: Vertex)
    ensures v in TopVerticesOf(objects, top) <==>
      exists i :: 0 <= i < |objects| && IsTopTriangle(objects[i], top) && v in TriangleVertices(objects[i])
  {
    if objects != [] {
      var n := |objects| - 1;
      var init := objects[..n];
      TopVerticesMembersOf(init, top, v);
      var last := objects[n];
      assert TopVerticesOf(objects, top) == TopVerticesOf(init, top) + Contribution(last, top);
      assert v in TopVerticesOf(objects, top) <==> v in TopVerticesOf(init, top) || v in Contribution(last, top);
      if v in TopVerticesOf(init, top) {
        var i :| 0 <= i < |init| && IsTopTriangle(init[i], top) && v in TriangleVertices(init[i]);
        assert objects[i] == init[i];
      }
      if exists i :: 0 <= i < |objects| && IsTopTriangle(objects[i], top) && v in TriangleVertices(objects[i]) {
        var i :| 0 <= i < |objects| && IsTopTriangle(objects[i], top) && v in TriangleVertices(objects[i]);
        if i < n {
          assert init[i] == objects[i];
        }
      }
    }
  }

  /** Every drawn object is at the top: nothing in the schema lies above it. */
  lemma DrawnObjectsAreOnTop(objects: seq<Shape>, o: Shape)
    requires o in TopObjects(objects, MaxZIndex(objects))
    ensures forall p :: p in objects ==> p.zIndex <= o.zIndex
  {
  }

  /** An animation object above the only triangle hides it: the top is
      taken over all objects, not only the shapes. */
  lemma AnimationAboveHidesTriangle(triangle: Shape, animation: Shape)
    requires IsTopTriangle(triangle, triangle.zIndex)
    requires animation.objectType == AnimationObject && animation.zIndex > triangle.zIndex
    ensures TopVertices([triangle, animation]) == []
  {
    var top := MaxZIndex([triangle, animation]);
    assert top == animation.zIndex;
    assert [triangle, animation][..1] == [triangle];
    assert [triangle][..0] == [];
    assert Contribution(triangle, top) == [] && Contribution(animation, top) == [];
    assert TopVerticesOf([triangle], top) == [];
    assert TopVerticesOf([triangle, animation], top) == TopVerticesOf([triangle], top) + [];
  }

  /** The top list of objects concatenated is the concatenation of theirs. */
  lemma {:induction false} TopVerticesOfAppend(a: seq<Shape>, b: seq<Shape>, top: int)
    ensures TopVerticesOf(a + b, top) == TopVerticesOf(a, top) + TopVerticesOf(b, top)
  {
    if b == [] {
      assert a + b == a;
    } else {
      var n := |b| - 1;
      assert (a + b)[..|a + b| - 1] == a + b[..n];
      TopVerticesOfAppend(a, b[..n], top);
    }
  }

  /** The loop both canvases run: every shape object recomputes the top
      z-index and, if it is a triangle on top, adds its vertices. */
  method BuildTopVertices(objects: seq<Shape>) returns (topViewVertices: seq<Vertex>)
    ensures topViewVertices == TopVertices(objects)
    ensures |topViewVertices| == 3 * |TopObjects(objects, MaxZIndex(objects))|
  {
    topViewVertices := [];
    for i := 0 to |objects|
      invariant topViewVertices == TopVerticesOf(objects[..i], MaxZIndex(objects))
    {
      var obj := objects[i];
      assert objects[..i + 1][..i] == objects[..i];
      if obj.objectType == ShapeObject {
        var maxZIndex := MaxZIndex(objects);
        if obj.zIndex == maxZIndex && obj.shape == "triangle" {
          topViewVertices := topViewVertices + TriangleVertices(obj);
        }
      }
    }
    assert objects[..|objects|] == objects;
    TopVerticesInSchemaOrder(objects, MaxZIndex(objects));
  }

  /** Strictly ascending. */
  predicate Ascending(xs: seq<int>)
  {
    forall i, j :: 0 <= i < j < |xs| ==> xs[i] < xs[j]
  }

  /** `x` put into its place in an ascending list, unless already there. */
  function InsertDistinct(xs: seq<int>, x: int): (r: seq<int>)
    requires Ascending(xs)
    ensures Ascending(r)
    ensures forall y :: y in r <==> y in xs || y == x
  {
    if xs == [] then [x]
    else if x < xs[0] then [x] + xs
    else if x == xs[0] then xs
    else
      var rest := InsertDistinct(xs[1..], x);
      assert forall k :: 0 <= k < |rest| ==> xs[0] < rest[k] by {
        forall k | 0 <= k < |rest|
          ensures xs[0] < rest[k]
        {
          assert rest[k] in rest;
          if rest[k] != x {
            var m :| 0 <= m < |xs[1..]| && xs[1..][m] == rest[k];
            assert xs[m + 1] == rest[k];
          }
        }
      }
      [xs[0]] + rest
  }

  /** `Set(xs).sorted(by: <)`: each value once, ascending. */
  function SortedDistinct(xs: seq<int>): (r: seq<int>)
    ensures Ascending(r)
    ensures forall y :: y in r <==> y in xs
  {
    if xs == [] then []
    else
      assert xs == xs[..|xs| - 1] + [xs[|xs| - 1]];
      InsertDistinct(SortedDistinct(xs[..|xs| - 1]), xs[|xs| - 1])
  }

  /** An ascending list is fixed by its elements: any two with the same
      elements are equal, so the sorted z-indices do not depend on the
      order the objects were visited in. */
  lemma {:induction false} AscendingUnique(a: seq<int>, b: seq<int>)
    requires Ascending(a) && Ascending(b)
    requires forall x :: x in a <==> x in b
    ensures a == b
  {
    if a != [] {
      assert a[0] in a;
    }
    if b != [] {
      assert b[0] in b;
    }
    if a != [] && b != [] {
      assert a[0] == b[0] by {
        assert forall y :: y in b ==> b[0] <= y;
        assert forall y :: y in a ==> a[0] <= y;
      }
      forall x
        ensures x in a[1..] <==> x in b[1..]
      {
        if x in a[1..] {
          assert x in b && x != b[0];
        }
        if x in b[1..] {
          assert x in a && x != a[0];
        }
      }
      AscendingUnique(a[1..], b[1..]);
      assert a == [a[0]] + a[1..] && b == [b[0]] + b[1..];
    }
  }

  /** The z-indices of the objects, in their order. */
  function ZIndices(objects: seq<Shape>): (r: seq<int>)
    ensures |r| == |objects|
    ensures forall i :: 0 <= i < |r| ==> r[i] == objects[i].zIndex
  {
    seq(|objects|, i requires 0 <= i < |objects| => objects[i].zIndex)
  }

  /** The canvas's top-layer renderer; its vertex list is what is drawn. */
  class VertexRenderer {
    var vertices: seq<Vertex>

    constructor (vertices: seq<Vertex>)
      ensures this.vertices == vertices
    {
      this.vertices := vertices;
    }
  }

  /** The canvas coordinator, which holds the renderer once the view exists. */
  class Coordinator {
    var topVertexRenderer: VertexRenderer?

    constructor ()
      ensures topVertexRenderer == null
    {
      topVertexRenderer := null;
    }
  }
}

/** The Vibe runtime's Metal canvas
    (runtime-swift/Inertia/Sources/Vibe/VibeCanvas.swift). It draws the
    same top layer as the Inertia canvas, but over the values of the view
    model's object dictionary, so the vertex order follows the
    dictionary's iteration order; what is fixed is the multiset of
    vertices, and the sorted z-indices. */
module VibeCanvas {
  import opened Sets
  import opened Schema
  import opened Canvas

  /** The objects visited in the key order `keys`. */
  function ValuesIn(objects: map<string, Shape>, keys: seq<string>): (r: seq<Shape>)
    requires forall i :: 0 <= i < |keys| ==> keys[i] in objects
    ensures |r| == |keys|
    ensures forall i :: 0 <= i < |r| ==> r[i] == objects[keys[i]]
  {
    seq(|keys|, i requires 0 <= i < |keys| => objects[keys[i]])
  }

  /** The keys visit every entry of the dictionary once. */
  ghost predicate Enumerates(objects: map<string, Shape>, keys: seq<string>)
  {
    (forall k :: k in keys <==> k in objects) &&
    (forall i, j :: 0 <= i < j < |keys| ==> keys[i] != keys[j])
  }

  /** The highest z-index in the dictionary, 0 when it is empty. */
  ghost predicate IsTopZIndex(objects: map<string, Shape>, top: int)
  {
    if objects == map[] then top == 0
    else (exists k :: k in objects && objects[k].zIndex == top) &&
         (forall k :: k in objects ==> objects[k].zIndex <= top)
  }

  /** Whatever order the values are visited in, their maximum is the
      dictionary's top z-index. */
  lemma MaxZIndexIsTop(objects: map<string, Shape>, keys: seq<string>)
    requires Enumerates(objects, keys)
    ensures IsTopZIndex(objects, MaxZIndex(ValuesIn(objects, keys)))
  {
    var vals := ValuesIn(objects, keys);
    var m := MaxZIndex(vals);
    if keys != [] {
      assert keys[0] in keys;
    }
    if objects != map[] {
      var k0 :| k0 in objects;
      assert k0 in keys;
      var i :| 0 <= i < |vals| && vals[i].zIndex == m;
      assert keys[i] in objects && objects[keys[i]].zIndex == m;
      forall k | k in objects
        ensures objects[k].zIndex <= m
      {
        var j :| 0 <= j < |keys| && keys[j] == k;
        assert vals[j] == objects[k];
      }
    }
  }

  /** The dictionary's top z-index. */
  ghost function TopZIndex(objects: map<string, Shape>): (top: int)
    ensures IsTopZIndex(objects, top)
  {
    var keys := Keys(objects);
    MaxZIndexIsTop(objects, keys);
    MaxZIndex(ValuesIn(objects, keys))
  }

  /** Some enumeration of the dictionary's keys. */
  ghost function Keys(objects: map<string, Shape>): (keys: seq<string>)
    ensures Enumerates(objects, keys)
    decreases objects.Keys
  {
    if objects == map[] then []
    else
      var k := PickKey(objects);
      var rest := Keys(objects - {k});
      assert forall x :: x in rest ==> x != k;
      rest + [k]
  }

  ghost function PickKey(objects: map<string, Shape>): (k: string)
    requires objects != map[]
    ensures k in objects
  {
    var k :| k in objects; k
  }

  /** The multiset of top-layer vertices of the dictionary: each object's
      contribution, in no particular order. */
  ghost function TopBag(objects: map<string, Shape>, top: int): multiset<Vertex>
    decreases objects.Keys
  {
    if objects == map[] then multiset{}
    else
      var k := PickKey(objects);
      multiset(Contribution(objects[k], top)) + TopBag(objects - {k}, top)
  }

  /** Removing one object from a visiting order removes its contribution,
      and only it, from the multiset of vertices. */
  lemma RemoveOne(objects: seq<Shape>, j: nat, top: int)
    requires j < |objects|
    ensures multiset(TopVerticesOf(objects, top)) ==
      multiset(TopVerticesOf(objects[..j] + objects[j + 1..], top)) + multiset(Contribution(objects[j], top))
  {
    var before, after := objects[..j], objects[j + 1..];
    assert objects == before + [objects[j]] + after;
    TopVerticesOfAppend(before + [objects[j]], after, top);
    TopVerticesOfAppend(before, [objects[j]], top);
    TopVerticesOfAppend(before, after, top);
    assert [objects[j]][..0] == [];
    assert TopVerticesOf([objects[j]], top) == Contribution(objects[j], top);
  }

  /** Any visiting order of the dictionary draws the same multiset. */
  lemma {:induction false} EnumerationBag(objects: map<string, Shape>, keys: seq<string>, top: int)
    requires Enumerates(objects, keys)
    ensures multiset(TopVerticesOf(ValuesIn(objects, keys), top)) == TopBag(objects, top)
    decreases objects.Keys
  {
    var vals := ValuesIn(objects, keys);
    if keys != [] {
      assert keys[0] in keys;
    }
    if objects != map[] {
      var k := PickKey(objects);
      var j :| 0 <= j < |keys| && keys[j] == k;
      RemoveKey(objects, keys, j);
      EnumerationBag(objects - {k}, keys[..j] + keys[j + 1..], top);
      RemoveOne(vals, j, top);
    }
  }

  /** Dropping the j-th key from an enumeration enumerates the dictionary
      without that key, and visits the other values in the same order. */
  lemma RemoveKey(objects: map<string, Shape>, keys: seq<string>, j: nat)
    requires Enumerates(objects, keys) && j < |keys|
    ensures Enumerates(objects - {keys[j]}, keys[..j] + keys[j + 1..])
    ensures ValuesIn(objects - {keys[j]}, keys[..j] + keys[j + 1..]) ==
      ValuesIn(objects, keys)[..j] + ValuesIn(objects, keys)[j + 1..]
  {
    RemoveKeyEnumerates(objects, keys, j);
    var restKeys := keys[..j] + keys[j + 1..];
    var rest := objects - {keys[j]};
    var vals := ValuesIn(objects, keys);
    var restVals := ValuesIn(rest, restKeys);
    var expected := vals[..j] + vals[j + 1..];
    forall i | 0 <= i < |restKeys|
      ensures restVals[i] == expected[i]
    {
      var i' := if i < j then i else i + 1;
      assert restKeys[i] == keys[i'] && keys[i'] != keys[j];
      assert rest[keys[i']] == objects[keys[i']];
      assert expected[i] == vals[i'];
    }
  }

  lemma RemoveKeyEnumerates(objects: map<string, Shape>, keys: seq<string>, j: nat)
    requires Enumerates(objects, keys) && j < |keys|
    ensures Enumerates(objects - {keys[j]}, keys[..j] + keys[j + 1..])
  {
    var k := keys[j];
    var restKeys := keys[..j] + keys[j + 1..];
    var rest := objects - {k};
    forall x
      ensures x in restKeys <==> x in rest
    {
      if x in restKeys {
        var i :| 0 <= i < |restKeys| && restKeys[i] == x;
        if i < j {
          assert x == keys[i];
        } else {
          assert x == keys[i + 1];
        }
      }
      if x in rest {
        var i :| 0 <= i < |keys| && keys[i] == x;
        if i < j {
          assert restKeys[i] == x;
        } else {
          assert i != j;
          assert restKeys[i - 1] == x;
        }
      }
    }
    forall a, b | 0 <= a < b < |restKeys|
      ensures restKeys[a] != restKeys[b]
    {
      var a' := if a < j then a else a + 1;
      var b' := if b < j then b else b + 1;
      assert restKeys[a] == keys[a'] && restKeys[b] == keys[b'];
    }
  }

  /** The view model's data model: the object dictionary the canvas reads. */
  class DataModel {
    var objects: map<string, Shape>

    constructor (objects: map<string, Shape>)
      ensures this.objects == objects
    {
      this.objects := objects;
    }
  }

  /** Any enumeration of the dictionary gives its top z-index as the
      maximum of the values it visits. */
  lemma EnumerationTop(objects: map<string, Shape>, keys: seq<string>)
    requires Enumerates(objects, keys)
    ensures MaxZIndex(ValuesIn(objects, keys)) == TopZIndex(objects)
  {
    MaxZIndexIsTop(objects, keys);
    var top, top' := MaxZIndex(ValuesIn(objects, keys)), TopZIndex(objects);
    if objects != map[] {
      var k :| k in objects && objects[k].zIndex == top;
      var k' :| k' in objects && objects[k'].zIndex == top';
      assert objects[k].zIndex <= top' && objects[k'].zIndex <= top;
    }
  }

  /** A vertex is drawn from an enumeration exactly when it is a corner of
      a top triangle of the dictionary. */
  lemma EnumerationMembers(objects: map<string, Shape>, keys: seq<string>, top: int, v: Vertex)
    requires Enumerates(objects, keys)
    ensures v in TopVerticesOf(ValuesIn(objects, keys), top) <==>
      exists k :: k in objects && IsTopTriangle(objects[k], top) && v in TriangleVertices(objects[k])
  {
    var values := ValuesIn(objects, keys);
    TopVerticesMembersOf(values, top, v);
    if v in TopVerticesOf(values, top) {
      var i :| 0 <= i < |values| && IsTopTriangle(values[i], top) && v in TriangleVertices(values[i]);
      assert keys[i] in objects && objects[keys[i]] == values[i];
    }
    if exists k :: k in objects && IsTopTriangle(objects[k], top) && v in TriangleVertices(objects[k]) {
      var k :| k in objects && IsTopTriangle(objects[k], top) && v in TriangleVertices(objects[k]);
      var i :| 0 <= i < |keys| && keys[i] == k;
      assert values[i] == objects[k];
    }
  }

  /** The loop of `makeUIView` and `updateUIView` over the dictionary's
      values: the vertices drawn are, as a multiset, the contributions of
      the objects at the dictionary's top z-index. */
  method BuildTopVerticesOfValues(objects: map<string, Shape>) returns (topViewVertices: seq<Vertex>)
    ensures multiset(topViewVertices) == TopBag(objects, TopZIndex(objects))
    ensures forall v :: v in topViewVertices <==>
      exists k :: k in objects && IsTopTriangle(objects[k], TopZIndex(objects)) && v in TriangleVertices(objects[k])
  {
    var keys := Enumerate(objects.Keys);
    var values := ValuesIn(objects, keys);
    topViewVertices := BuildTopVertices(values);
    EnumerationTop(objects, keys);
    EnumerationBag(objects, keys, TopZIndex(objects));
    forall v
      ensures v in topViewVertices <==>
        exists k :: k in objects && IsTopTriangle(objects[k], TopZIndex(objects)) && v in TriangleVertices(objects[k])
    {
      EnumerationMembers(objects, keys, TopZIndex(objects), v);
    }
  }

  class VibeCanvas {
    /** `vm.dataModel`. */
    const dataModel: DataModel

    constructor (dataModel: DataModel)
      ensures this.dataModel == dataModel
    {
      this.dataModel := dataModel;
    }

    /** `makeUIView`: a renderer of the top-layer vertices is always
        created and handed to the coordinator. */
    method MakeUIView(coordinator: Coordinator)
      modifies coordinator
      ensures coordinator.topVertexRenderer != null && fresh(coordinator.topVertexRenderer)
      ensures multiset(coordinator.topVertexRenderer.vertices) ==
        TopBag(dataModel.objects, TopZIndex(dataModel.objects))
    {
      var topViewVertices := BuildTopVerticesOfValues(dataModel.objects);
      var topVertexRenderer := new VertexRenderer(topViewVertices);
      coordinator.topVertexRenderer := topVertexRenderer;
    }

    /** `updateUIView`: the coordinator's renderer, if any, gets the rebuilt
        vertex list in place of its old one. */
    method UpdateUIView(coordinator: Coordinator)
      modifies if coordinator.topVertexRenderer != null then {coordinator.topVertexRenderer} else {}
      ensures coordinator.topVertexRenderer != null ==>
        multiset(coordinator.topVertexRenderer.vertices) ==
          TopBag(dataModel.objects, TopZIndex(dataModel.objects))
    {
      var topViewVertices := BuildTopVerticesOfValues(dataModel.objects);
      if coordinator.topVertexRenderer != null {
        coordinator.topVertexRenderer.vertices := topViewVertices;
      }
    }

    /** `collateZIndices`: the distinct z-indices of the dictionary's
        values, ascending; by `AscendingUnique` the result does not depend
        on the visiting order. */
    method CollateZIndices() returns (r: seq<int>)
      ensures Ascending(r)
      ensures forall z :: z in r <==> exists k :: k in dataModel.objects && dataModel.objects[k].zIndex == z
    {
      var keys := Enumerate(dataModel.objects.Keys);
      var values := ValuesIn(dataModel.objects, keys);
      var zs := ZIndices(values);
      r := SortedDistinct(zs);
      forall z
        ensures z in r <==> exists k :: k in dataModel.objects && dataModel.objects[k].zIndex == z
      {
        if z in r {
          var i :| 0 <= i < |zs| && zs[i] == z;
          assert keys[i] in dataModel.objects;
        }
        if exists k :: k in dataModel.objects && dataModel.objects[k].zIndex == z {
          var k :| k in dataModel.objects && dataModel.objects[k].zIndex == z;
          var i :| 0 <= i < |keys| && keys[i] == k;
          assert zs[i] == z;
        }
      }
    }
  }
}

/** The React runtime's message converters (runtime-web/vibe-react): each
    `*ToJSON` builds a plain object and each `*FromJSON` reads one back.
    Most fields are copied without any check, so they are modelled as raw
    JavaScript values; a decoder's `None` is the `TypeError` JavaScript
    throws when it reads a property of `undefined` or `null` or maps over
    something that is not an array. */
module VibeReact {
  import opened Wrappers
  import opened Json
  import VibeBaseTree

  type JsValue = Json

  /** Reading property `k`: throws (`None`) on `undefined` and `null`. */
  function Prop(v: JsValue, k: string): (r: Option<JsValue>)
    ensures r.None? <==> Nullish(v)
    ensures r.Some? ==> r.value == Get(v, k)
  {
    if Nullish(v) then None else Some(Get(v, k))
  }

  /** An object literal. */
  function Obj(props: map<string, JsValue>): Json
  {
    JObj(props)
  }

  lemma ObjProp(props: map<string, JsValue>, k: string)
    requires k in props
    ensures Prop(Obj(props), k) == Some(props[k])
  {
  }

  // ---------------------------------------------------------------------
  // Messages

  datatype MessageActionable = MessageActionable(isActionable: JsValue)

  function MessageActionableToJson(m: MessageActionable): Json
  {
    Obj(map["isActionable" := m.isActionable])
  }

  function MessageActionableFromJson(j: JsValue): Option<MessageActionable>
  {
    var a := Prop(j, "isActionable");
    if a.None? then None else Some(MessageActionable(a.value))
  }

  lemma MessageActionableRoundTrip(m: MessageActionable)
    ensures MessageActionableFromJson(MessageActionableToJson(m)) == Some(m)
  {
    ObjProp(map["isActionable" := m.isActionable], "isActionable");
  }

  predicate NoDup(xs: seq<string>)
  {
    forall i, j :: 0 <= i < j < |xs| ==> xs[i] != xs[j]
  }

  /** `new Set(xs)`: the first occurrence of each element, in order. */
  function Dedup(xs: seq<string>): (r: seq<string>)
    ensures NoDup(r)
    ensures forall x :: x in r <==> x in xs
    decreases |xs|
  {
    if xs == [] then []
    else
      var d := Dedup(xs[..|xs| - 1]);
      var x := xs[|xs| - 1];
      if x in d then d else d + [x]
  }

  lemma {:induction false} DedupOfDistinct(xs: seq<string>)
    requires NoDup(xs)
    ensures Dedup(xs) == xs
    decreases |xs|
  {
    if xs != [] {
      var init := xs[..|xs| - 1];
      var x := xs[|xs| - 1];
      assert NoDup(init) by {
        forall i, j | 0 <= i < j < |init| ensures init[i] != init[j] {
          assert init[i] == xs[i] && init[j] == xs[j];
        }
      }
      DedupOfDistinct(init);
      assert x !in init by {
        forall i | 0 <= i < |init| ensures init[i] != x {
          assert init[i] == xs[i];
        }
      }
      assert init + [x] == xs;
    }
  }

  /** The strings of an array, or `None` for anything the typed model does
      not cover (an element that is not a string). */
  function Strings(items: seq<Json>): (r: Option<seq<string>>)
    ensures r.Some? ==> |r.value| == |items| && forall i :: 0 <= i < |items| ==> items[i] == JStr(r.value[i])
    decreases |items|
  {
    if items == [] then Some([])
    else
      var init := Strings(items[..|items| - 1]);
      var last := items[|items| - 1];
      if init.None? || !last.JStr? then None else Some(init.value + [last.s])
  }

  function StringArray(xs: seq<string>): (r: Json)
    ensures r.JArr? && |r.items| == |xs|
  {
    JArr(seq(|xs|, i requires 0 <= i < |xs| => JStr(xs[i])))
  }

  lemma {:induction false} StringsOfArray(xs: seq<string>)
    ensures Strings(StringArray(xs).items) == Some(xs)
    decreases |xs|
  {
    if xs != [] {
      var init := xs[..|xs| - 1];
      StringsOfArray(init);
      assert StringArray(xs).items[..|xs| - 1] == StringArray(init).items;
      assert StringArray(xs).items[|xs| - 1] == JStr(xs[|xs| - 1]);
      assert init + [xs[|xs| - 1]] == xs;
    }
  }

  /** `new Set<string>(v)`: no argument gives the empty set, an array its
      distinct elements in order. */
  function SetFromJs(v: JsValue): Option<seq<string>>
  {
    if Nullish(v) then Some([])
    else if v.JArr? && Strings(v.items).Some? then Some(Dedup(Strings(v.items).value))
    else None
  }

  lemma SetRoundTrip(xs: seq<string>)
    requires NoDup(xs)
    ensures SetFromJs(StringArray(xs)) == Some(xs)
  {
    StringsOfArray(xs);
    DedupOfDistinct(xs);
  }

  /** `MessageSelected`; a JavaScript `Set` keeps insertion order and has
      no repeats. */
  datatype MessageSelected = MessageSelected(selectedIds: seq<string>)

  function MessageSelectedToJson(m: MessageSelected): Json
  {
    Obj(map["selectedIds" := StringArray(m.selectedIds)])
  }

  function MessageSelectedFromJson(j: JsValue): Option<MessageSelected>
  {
    var ids := Prop(j, "selectedIds");
    if ids.None? then None
    else
      var s := SetFromJs(ids.value);
      if s.None? then None else Some(MessageSelected(s.value))
  }

  lemma MessageSelectedRoundTrip(m: MessageSelected)
    requires NoDup(m.selectedIds)
    ensures MessageSelectedFromJson(MessageSelectedToJson(m)) == Some(m)
  {
    ObjProp(map["selectedIds" := StringArray(m.selectedIds)], "selectedIds");
    SetRoundTrip(m.selectedIds);
  }

  /** A message without `selectedIds` selects nothing. */
  lemma MissingSelectionIsEmpty()
    ensures MessageSelectedFromJson(JObj(map[])) == Some(MessageSelected([]))
  {
  }

  /** Decoding keeps each listed id once, whatever the repeats. */
  lemma SelectedIdsDistinct(j: JsValue)
    requires MessageSelectedFromJson(j).Some?
    ensures NoDup(MessageSelectedFromJson(j).value.selectedIds)
  {
  }

  datatype MessageSchema = MessageSchema(schemaWrappers: JsValue)

  function MessageSchemaToJson(m: MessageSchema): Json
  {
    Obj(map["schemaWrappers" := m.schemaWrappers])
  }

  function MessageSchemaFromJson(j: JsValue): Option<MessageSchema>
  {
    var w := Prop(j, "schemaWrappers");
    if w.None? then None else Some(MessageSchema(w.value))
  }

  lemma MessageSchemaRoundTrip(m: MessageSchema)
    ensures MessageSchemaFromJson(MessageSchemaToJson(m)) == Some(m)
  {
    ObjProp(map["schemaWrappers" := m.schemaWrappers], "schemaWrappers");
  }

  datatype MessageActionables = MessageActionables(tree: VibeBaseTree.TreeValue, actionableIds: seq<string>)

  function MessageActionablesToJson(m: MessageActionables): Json
  {
    Obj(map["tree" := VibeBaseTree.TreeToJson(m.tree), "actionableIds" := StringArray(m.actionableIds)])
  }

  function MessageActionablesFromJson(j: JsValue): Option<MessageActionables>
  {
    var t := Prop(j, "tree");
    var ids := Prop(j, "actionableIds");
    if t.None? || ids.None? || Nullish(t.value) then None
    else
      var tree := VibeBaseTree.DecodedTree(t.value);
      var s := SetFromJs(ids.value);
      if tree.None? || s.None? then None else Some(MessageActionables(tree.value, s.value))
  }

  /** The ids come back as they were; the tree as `Tree.fromJSON` rebuilds
      it, with its id, keys and root id. */
  lemma MessageActionablesRoundTrip(m: MessageActionables)
    requires NoDup(m.actionableIds)
    ensures var r := MessageActionablesFromJson(MessageActionablesToJson(m));
      r.Some? && r.value.actionableIds == m.actionableIds &&
      Some(r.value.tree) == VibeBaseTree.DecodedTree(VibeBaseTree.TreeToJson(m.tree)) &&
      r.value.tree.id == m.tree.id && r.value.tree.nodeMap.Keys == m.tree.nodeMap.Keys
  {
    var props := map["tree" := VibeBaseTree.TreeToJson(m.tree), "actionableIds" := StringArray(m.actionableIds)];
    ObjProp(props, "tree");
    ObjProp(props, "actionableIds");
    SetRoundTrip(m.actionableIds);
    VibeBaseTree.TreeRoundTrip(m.tree);
  }

  // ---------------------------------------------------------------------
  // Schema types

  datatype AnimationContainer = AnimationContainer(actionableId: JsValue, containerId: JsValue)

  function AnimationContainerToJson(c: AnimationContainer): Json
  {
    Obj(map["actionableId" := c.actionableId, "containerId" := c.containerId])
  }

  function AnimationContainerFromJson(j: JsValue): Option<AnimationContainer>
  {
    var a := Prop(j, "actionableId");
    var c := Prop(j, "containerId");
    if a.None? || c.None? then None else Some(AnimationContainer(a.value, c.value))
  }

  lemma AnimationContainerRoundTrip(c: AnimationContainer)
    ensures AnimationContainerFromJson(AnimationContainerToJson(c)) == Some(c)
  {
    var props := map["actionableId" := c.actionableId, "containerId" := c.containerId];
    ObjProp(props, "actionableId");
    ObjProp(props, "containerId");
  }

  datatype Point = Point(x: JsValue, y: JsValue)

  /** `VibeShape`: ten fields; `position` is rebuilt as a fresh `{x, y}`
      while the others, `animation` included, are copied as they are. */
  datatype VibeShape = VibeShape(
    id: JsValue, containerId: JsValue, width: JsValue, height: JsValue, position: Point,
    color: JsValue, shape: JsValue, objectType: JsValue, zIndex: JsValue, animation: JsValue)

  function PointToJson(p: Point): Json
  {
    Obj(map["x" := p.x, "y" := p.y])
  }

  function ShapeProps(s: VibeShape): map<string, JsValue>
  {
    map["id" := s.id, "containerId" := s.containerId, "width" := s.width, "height" := s.height,
        "position" := PointToJson(s.position), "color" := s.color, "shape" := s.shape,
        "objectType" := s.objectType, "zIndex" := s.zIndex, "animation" := s.animation]
  }

  function VibeShapeToJson(s: VibeShape): Json
  {
    Obj(ShapeProps(s))
  }

  /** `vibeShapeFromJSON`: throws when the value or its `position` is
      `undefined` or `null`. */
  function VibeShapeFromJson(j: JsValue): (r: Option<VibeShape>)
    ensures r.None? <==> Nullish(j) || Nullish(Get(j, "position"))
  {
    if Nullish(j) then None
    else
      var pos := Get(j, "position");
      if Nullish(pos) then None
      else
        Some(VibeShape(Get(j, "id"), Get(j, "containerId"), Get(j, "width"),
                       Get(j, "height"), Point(Get(pos, "x"), Get(pos, "y")),
                       Get(j, "color"), Get(j, "shape"), Get(j, "objectType"),
                       Get(j, "zIndex"), Get(j, "animation")))
  }

  /** All ten fields survive, `position.x` and `position.y` included. */
  lemma VibeShapeRoundTrip(s: VibeShape)
    ensures VibeShapeFromJson(VibeShapeToJson(s)) == Some(s)
  {
    var props := ShapeProps(s);
    ObjProp(props, "position");
    ObjProp(map["x" := s.position.x, "y" := s.position.y], "x");
    ObjProp(map["x" := s.position.x, "y" := s.position.y], "y");
    assert Get(VibeShapeToJson(s), "id") == s.id;
    assert Get(VibeShapeToJson(s), "containerId") == s.containerId;
    assert Get(VibeShapeToJson(s), "width") == s.width;
    assert Get(VibeShapeToJson(s), "height") == s.height;
    assert Get(VibeShapeToJson(s), "color") == s.color;
    assert Get(VibeShapeToJson(s), "shape") == s.shape;
    assert Get(VibeShapeToJson(s), "objectType") == s.objectType;
    assert Get(VibeShapeToJson(s), "zIndex") == s.zIndex;
    assert Get(VibeShapeToJson(s), "animation") == s.animation;
  }

  /** `xs.map(decode)` over `v ?? []`: a missing list is empty; anything
      but an array throws, and so does any element that throws. */
  function ListOr<T>(v: JsValue, decode: Json -> Option<T>): (r: Option<seq<T>>)
    ensures Nullish(v) ==> r == Some([])
  {
    if Nullish(v) then Some([])
    else if !v.JArr? then None
    else MapAll(v.items, decode)
  }

  function MapAll<T>(items: seq<Json>, decode: Json -> Option<T>): (r: Option<seq<T>>)
    ensures r.Some? ==> |r.value| == |items| && forall i :: 0 <= i < |items| ==> decode(items[i]) == Some(r.value[i])
    decreases |items|
  {
    if items == [] then Some([])
    else
      var init := MapAll(items[..|items| - 1], decode);
      var last := decode(items[|items| - 1]);
      if init.None? || last.None? then None else Some(init.value + [last.value])
  }

  /** `xs.map(encode)`. */
  function EncodeAll<T>(xs: seq<T>, encode: T -> Json): (r: seq<Json>)
    ensures |r| == |xs| && forall i :: 0 <= i < |xs| ==> r[i] == encode(xs[i])
    decreases |xs|
  {
    if xs == [] then [] else EncodeAll(xs[..|xs| - 1], encode) + [encode(xs[|xs| - 1])]
  }

  /** Decoding each element undoes encoding it, so decoding the list undoes
      encoding the list. */
  lemma {:induction false} MapAllInverse<T>(xs: seq<T>, encode: T -> Json, decode: Json -> Option<T>)
    requires forall x :: decode(encode(x)) == Some(x)
    ensures MapAll(EncodeAll(xs, encode), decode) == Some(xs)
    decreases |xs|
  {
    if xs != [] {
      var init := xs[..|xs| - 1];
      var items := EncodeAll(xs, encode);
      MapAllInverse(init, encode, decode);
      assert items[..|xs| - 1] == EncodeAll(init, encode);
      assert init + [xs[|xs| - 1]] == xs;
    }
  }

  datatype VibeSchema = VibeSchema(id: JsValue, objects: seq<VibeShape>)

  function VibeSchemaToJson(s: VibeSchema): Json
  {
    Obj(map["id" := s.id,
            "objects" := JArr(EncodeAll(s.objects, VibeShapeToJson))])
  }

  function VibeSchemaFromJson(j: JsValue): Option<VibeSchema>
  {
    if Nullish(j) then None
    else
      var objs := ListOr(Get(j, "objects"), VibeShapeFromJson);
      if objs.None? then None else Some(VibeSchema(Get(j, "id"), objs.value))
  }

  lemma VibeSchemaRoundTrip(s: VibeSchema)
    ensures VibeSchemaFromJson(VibeSchemaToJson(s)) == Some(s)
  {
    var props := map["id" := s.id, "objects" := JArr(EncodeAll(s.objects, VibeShapeToJson))];
    ObjProp(props, "id");
    ObjProp(props, "objects");
    forall x ensures VibeShapeFromJson(VibeShapeToJson(x)) == Some(x) {
      VibeShapeRoundTrip(x);
    }
    MapAllInverse(s.objects, VibeShapeToJson, VibeShapeFromJson);
  }

  /** A schema without `objects` decodes with an empty list. */
  lemma MissingObjectsAreEmpty(id: Json)
    ensures VibeSchemaFromJson(JObj(map["id" := id])) == Some(VibeSchema(id, []))
  {
  }

  datatype VibeSchemaWrapper = VibeSchemaWrapper(
    schema: VibeSchema, actionableId: JsValue, container: AnimationContainer, animationId: JsValue)

  function WrapperProps(w: VibeSchemaWrapper): map<string, JsValue>
  {
    map["schema" := VibeSchemaToJson(w.schema), "actionableId" := w.actionableId,
        "container" := AnimationContainerToJson(w.container), "animationId" := w.animationId]
  }

  function VibeSchemaWrapperToJson(w: VibeSchemaWrapper): Json
  {
    Obj(WrapperProps(w))
  }

  function VibeSchemaWrapperFromJson(j: JsValue): Option<VibeSchemaWrapper>
  {
    if Nullish(j) then None
    else
      var schema := VibeSchemaFromJson(Get(j, "schema"));
      var container := AnimationContainerFromJson(Get(j, "container"));
      if schema.None? || container.None? then None
      else Some(VibeSchemaWrapper(schema.value, Get(j, "actionableId"), container.value, Get(j, "animationId")))
  }

  lemma VibeSchemaWrapperRoundTrip(w: VibeSchemaWrapper)
    ensures VibeSchemaWrapperFromJson(VibeSchemaWrapperToJson(w)) == Some(w)
  {
    var props := WrapperProps(w);
    ObjProp(props, "schema");
    ObjProp(props, "container");
    ObjProp(props, "actionableId");
    ObjProp(props, "animationId");
    VibeSchemaRoundTrip(w.schema);
    AnimationContainerRoundTrip(w.container);
  }

  datatype Keyframe = Keyframe(id: JsValue, values: JsValue, duration: JsValue)

  function KeyframeToJson(k: Keyframe): Json
  {
    Obj(map["id" := k.id, "values" := k.values, "duration" := k.duration])
  }

  function KeyframeFromJson(j: JsValue): Option<Keyframe>
  {
    if Nullish(j) then None
    else Some(Keyframe(Get(j, "id"), Get(j, "values"), Get(j, "duration")))
  }

  lemma KeyframeRoundTrip(k: Keyframe)
    ensures KeyframeFromJson(KeyframeToJson(k)) == Some(k)
  {
    var props := map["id" := k.id, "values" := k.values, "duration" := k.duration];
    ObjProp(props, "id");
    ObjProp(props, "values");
    ObjProp(props, "duration");
  }

  datatype AnimationSchema = AnimationSchema(id: JsValue, initialValues: JsValue, invokeType: JsValue,
                                             keyframes: seq<Keyframe>)

  function AnimationSchemaToJson(s: AnimationSchema): Json
  {
    Obj(map["id" := s.id, "initialValues" := s.initialValues, "invokeType" := s.invokeType,
            "keyframes" := JArr(EncodeAll(s.keyframes, KeyframeToJson))])
  }

  function AnimationSchemaFromJson(j: JsValue): Option<AnimationSchema>
  {
    if Nullish(j) then None
    else
      var kfs := ListOr(Get(j, "keyframes"), KeyframeFromJson);
      if kfs.None? then None
      else Some(AnimationSchema(Get(j, "id"), Get(j, "initialValues"), Get(j, "invokeType"), kfs.value))
  }

  lemma AnimationSchemaRoundTrip(s: AnimationSchema)
    ensures AnimationSchemaFromJson(AnimationSchemaToJson(s)) == Some(s)
  {
    var props := map["id" := s.id, "initialValues" := s.initialValues, "invokeType" := s.invokeType,
                     "keyframes" := JArr(EncodeAll(s.keyframes, KeyframeToJson))];
    ObjProp(props, "id");
    ObjProp(props, "initialValues");
    ObjProp(props, "invokeType");
    ObjProp(props, "keyframes");
    forall x ensures KeyframeFromJson(KeyframeToJson(x)) == Some(x) {
      KeyframeRoundTrip(x);
    }
    MapAllInverse(s.keyframes, KeyframeToJson, KeyframeFromJson);
  }

  /** An animation without `keyframes` decodes with an empty list. */
  lemma MissingKeyframesAreEmpty(id: Json)
    ensures AnimationSchemaFromJson(JObj(map["id" := id])) == Some(AnimationSchema(id, JUndefined, JUndefined, []))
  {
  }
}

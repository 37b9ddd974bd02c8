/** The web runtime's data model (runtime-web/vibe-base): the schema a
    container loads and the per-object maps `init` builds from it. The
    schema is loaded over HTTP by `load`; here it is a parameter. */
module VibeBaseModel {
  import opened Wrappers
  import opened Schema
  import VibeBaseTree

  datatype Keyframe = Keyframe(values: AnimationValues, duration: real)

  /** An animation's `invokeType` as the parsed JSON holds it. The schemas
      the Swift side writes carry the raw value of a string enum, "trigger"
      or "auto"; the TypeScript enum `VibeAnimationInvokeType` is numeric,
      with `trigger` the number 0 and `auto` the number 1. */
  datatype InvokeValue = InvokeString(name: string) | InvokeNumber(n: real)

  /** `VibeAnimationInvokeType.trigger`, the first member of a numeric enum. */
  const TriggerMember: real := 0.0

  datatype Animation = Animation(id: string, initialValues: AnimationValues, invokeType: InvokeValue,
                                 keyframes: seq<Keyframe>)

  /** An entry of a schema's `objects`. `container` is declared by the
      runtime's type only; the editor-side copy leaves it out. */
  datatype ObjectSchema = ObjectSchema(
    id: string, container: Option<AnimationContainer>, width: real, height: real, position: real,
    color: seq<real>, shape: string, zIndex: real, animation: Animation)

  datatype VibeSchema = VibeSchema(id: string, objects: Option<seq<ObjectSchema>>)

  /** The animation state `init` gives an object: `invokeType ===
      VibeAnimationInvokeType.trigger` is a strict comparison with the
      number 0, so only an `invokeType` that is that number gets `trigger`
      false; every other object gets null. */
  function StateFor(o: ObjectSchema): (r: AnimationState)
    ensures r.id == o.id && !r.isCancelled
    ensures r.trigger.Some? <==> o.animation.invokeType == InvokeNumber(TriggerMember)
    ensures r.trigger.Some? ==> !r.trigger.value
  {
    AnimationState(o.id, if o.animation.invokeType == InvokeNumber(TriggerMember) then Some(false) else None, false)
  }

  /** As written, an object whose schema names its invoke type by string,
      as the Swift schemas do, never gets a trigger state, "trigger"
      included. */
  lemma StringInvokeTypeGetsNoTrigger(o: ObjectSchema)
    requires o.animation.invokeType.InvokeString?
    ensures StateFor(o).trigger.None?
  {
  }

  /** The invoke type names a trigger animation: the string "trigger" the
      schemas carry, or the enum's own number. */
  predicate IsTrigger(v: InvokeValue)
  {
    v == InvokeString("trigger") || v == InvokeNumber(TriggerMember)
  }

  /** The state `init` evidently means to give: `trigger` false for every
      trigger animation, however its invoke type is written. */
  function IntendedStateFor(o: ObjectSchema): (r: AnimationState)
    ensures r.id == o.id && !r.isCancelled
    ensures r.trigger.Some? <==> IsTrigger(o.animation.invokeType)
    ensures r.trigger.Some? ==> !r.trigger.value
  {
    AnimationState(o.id, if IsTrigger(o.animation.invokeType) then Some(false) else None, false)
  }

  /** The intended state arms a trigger animation written as the string
      "trigger", and agrees with the written one on numeric invoke types. */
  lemma IntendedStateForTrigger(o: ObjectSchema)
    ensures o.animation.invokeType == InvokeString("trigger") ==>
              IntendedStateFor(o).trigger == Some(false) && StateFor(o).trigger.None?
    ensures o.animation.invokeType.InvokeNumber? ==> IntendedStateFor(o) == StateFor(o)
  {
  }

  /** Objects keyed by id after setting them in order: a later object with
      an id already seen replaces the earlier one. */
  function ObjectsById(objs: seq<ObjectSchema>): (r: map<string, ObjectSchema>)
    ensures r.Keys == set i | 0 <= i < |objs| :: objs[i].id
    decreases |objs|
  {
    if objs == [] then map[]
    else
      var o := objs[|objs| - 1];
      ObjectsById(objs[..|objs| - 1])[o.id := o]
  }

  /** The entry for an id is the last object carrying it. */
  lemma {:induction false} ObjectsByIdLastWins(objs: seq<ObjectSchema>, i: nat)
    requires i < |objs|
    requires forall j :: i < j < |objs| ==> objs[j].id != objs[i].id
    ensures ObjectsById(objs)[objs[i].id] == objs[i]
    decreases |objs|
  {
    if i < |objs| - 1 {
      var init := objs[..|objs| - 1];
      assert init[i] == objs[i];
      ObjectsByIdLastWins(init, i);
    }
  }

  /** The entry under each key has that key as its id. */
  lemma {:induction false} ObjectsByIdKeyed(objs: seq<ObjectSchema>, k: string)
    requires k in ObjectsById(objs)
    ensures ObjectsById(objs)[k].id == k
    decreases |objs|
  {
    var o := objs[|objs| - 1];
    if o.id != k {
      ObjectsByIdKeyed(objs[..|objs| - 1], k);
    }
  }

  /** The states `init` records for a map of objects. */
  function StatesFor(objects: map<string, ObjectSchema>): (r: map<string, AnimationState>)
    ensures r.Keys == objects.Keys
    ensures forall k :: k in r ==> !r[k].isCancelled && r[k].id == objects[k].id
    ensures forall k :: k in r ==>
      (r[k].trigger == Some(false) <==> objects[k].animation.invokeType == InvokeNumber(TriggerMember)) &&
      (r[k].trigger.None? <==> objects[k].animation.invokeType != InvokeNumber(TriggerMember))
  {
    map k | k in objects :: StateFor(objects[k])
  }

  /** Setting one object updates exactly that object's state. */
  lemma StatesForUpdate(objects: map<string, ObjectSchema>, k: string, o: ObjectSchema)
    requires o.id == k
    ensures StatesFor(objects[k := o]) == StatesFor(objects)[k := StateFor(o)]
  {
  }

  class DataModel {
    const containerId: string
    const baseURL: string
    var objects: Option<map<string, ObjectSchema>>
    var tree: VibeBaseTree.Tree
    var selectedIds: seq<string>
    var states: Option<map<string, AnimationState>>
    var canvasSizes: Option<map<string, Size>>

    constructor (containerId: string, baseURL: string, tree: VibeBaseTree.Tree)
      ensures this.containerId == containerId && this.baseURL == baseURL && this.tree == tree
      ensures objects.None? && states.None? && canvasSizes.None? && selectedIds == []
    {
      this.containerId := containerId;
      this.baseURL := baseURL;
      this.tree := tree;
      objects := None;
      states := None;
      canvasSizes := None;
      selectedIds := [];
    }

    /** `getId`: the container id. The older package's twin is
        `WebVibeBase.DataModel.GetId`. */
    function GetId(): (r: string)
      ensures r == containerId
    {
      containerId
    }

    /** `init`, given what `load` returned: nothing happens when objects
        are already set, or when the loaded schema or its `objects` is
        missing (an empty list is still used). Otherwise the objects are
        keyed by id and each gets its initial state. */
    method Init(loaded: Option<VibeSchema>)
      modifies this`objects, this`states
      ensures old(objects).Some? || loaded.None? || loaded.value.objects.None? ==>
                objects == old(objects) && states == old(states)
      ensures old(objects).None? && loaded.Some? && loaded.value.objects.Some? ==>
                objects == Some(ObjectsById(loaded.value.objects.value)) &&
                states == Some(StatesFor(ObjectsById(loaded.value.objects.value)))
    {
      if objects.Some? {
        return;
      }
      if loaded.None? || loaded.value.objects.None? {
        return;
      }
      var objs := loaded.value.objects.value;
      var tmpObjects: map<string, ObjectSchema> := map[];
      var tmpStates: map<string, AnimationState> := map[];
      for i := 0 to |objs|
        invariant tmpObjects == ObjectsById(objs[..i])
        invariant tmpStates == StatesFor(tmpObjects)
      {
        var o := objs[i];
        assert objs[..i + 1][..i] == objs[..i];
        StatesForUpdate(tmpObjects, o.id, o);
        tmpObjects := tmpObjects[o.id := o];
        tmpStates := tmpStates[o.id := StateFor(o)];
      }
      assert objs[..|objs|] == objs;
      objects := Some(tmpObjects);
      states := Some(tmpStates);
    }
  }
}

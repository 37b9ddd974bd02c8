/** The older web data model (web/vibe-base): `init` fills the maps from
    the editor's global schema when the editor has set one, and from the
    container's loaded schema otherwise. Both the global schema and the
    loaded one are parameters here. */
module WebVibeBase {
  import opened Wrappers
  import opened Schema
  import opened VibeBaseModel

  /** The object literal `init` stores: the eight listed fields of the
      source object and nothing else. */
  function Copied(o: ObjectSchema): (r: ObjectSchema)
    ensures r.id == o.id && r.width == o.width && r.height == o.height && r.position == o.position
    ensures r.color == o.color && r.zIndex == o.zIndex && r.shape == o.shape && r.animation == o.animation
    ensures r.container.None?
  {
    ObjectSchema(o.id, None, o.width, o.height, o.position, o.color, o.shape, o.zIndex, o.animation)
  }

  /** The objects map built from `objs`: keyed by id, later entries
      replacing earlier ones, each a copy of the listed fields. */
  function CopiedById(objs: seq<ObjectSchema>): (r: map<string, ObjectSchema>)
    ensures r.Keys == set i | 0 <= i < |objs| :: objs[i].id
  {
    var byId := ObjectsById(objs);
    map k | k in byId :: Copied(byId[k])
  }

  /** Keying one more object: its copy lands under its id. */
  lemma CopiedByIdSnoc(objs: seq<ObjectSchema>, o: ObjectSchema)
    ensures CopiedById(objs + [o]) == CopiedById(objs)[o.id := Copied(o)]
  {
    assert (objs + [o])[..|objs|] == objs;
  }

  /** The schema `init` reads: the editor's, when there is one, else the
      loaded one. */
  function Source(editorSchema: Option<VibeSchema>, loaded: Option<VibeSchema>): Option<VibeSchema>
  {
    if editorSchema.Some? then editorSchema else loaded
  }

  class DataModel {
    const containerId: string
    const baseURL: string
    var objects: Option<map<string, ObjectSchema>>
    var states: Option<map<string, AnimationState>>
    var canvasSizes: Option<map<string, Size>>

    constructor (containerId: string, baseURL: string)
      ensures this.containerId == containerId && this.baseURL == baseURL
      ensures objects.None? && states.None? && canvasSizes.None?
    {
      this.containerId := containerId;
      this.baseURL := baseURL;
      objects := None;
      states := None;
      canvasSizes := None;
    }

    /** `getId`: the container id. The newer package's twin is
        `VibeBaseModel.DataModel.GetId`. */
    function GetId(): (r: string)
      ensures r == containerId
    {
      containerId
    }

    /** `init`: when the chosen schema has objects (an empty list counts),
        both maps are rebuilt from them; otherwise both keep their values.
        There is no guard against running twice. */
    method Init(editorSchema: Option<VibeSchema>, loaded: Option<VibeSchema>)
      modifies this`objects, this`states
      ensures var src := Source(editorSchema, loaded);
        if src.Some? && src.value.objects.Some? then
          objects == Some(CopiedById(src.value.objects.value)) &&
          states == Some(StatesFor(CopiedById(src.value.objects.value)))
        else objects == old(objects) && states == old(states)
    {
      var src := if editorSchema.Some? then editorSchema else loaded;
      if src.None? || src.value.objects.None? {
        return;
      }
      var objs := src.value.objects.value;
      var tmpObjects: map<string, ObjectSchema> := map[];
      var tmpStates: map<string, AnimationState> := map[];
      for i := 0 to |objs|
        invariant tmpObjects == CopiedById(objs[..i])
        invariant tmpStates == StatesFor(tmpObjects)
      {
        var o := objs[i];
        assert objs[..i + 1] == objs[..i] + [o];
        CopiedByIdSnoc(objs[..i], o);
        StatesForUpdate(tmpObjects, o.id, Copied(o));
        tmpObjects := tmpObjects[o.id := Copied(o)];
        tmpStates := tmpStates[o.id := StateFor(Copied(o))];
      }
      assert objs[..|objs|] == objs;
      objects := Some(tmpObjects);
      states := Some(tmpStates);
    }
  }

  /** Every state `init` records starts uncancelled, with `trigger` false
      exactly for an invoke type equal to the number 0 and null for every
      other, the string "trigger" included. */
  lemma InitialStates(objs: seq<ObjectSchema>, k: string)
    requires k in CopiedById(objs)
    ensures var s := StatesFor(CopiedById(objs))[k];
            var o := CopiedById(objs)[k];
            !s.isCancelled && s.id == k &&
            (o.animation.invokeType == InvokeNumber(TriggerMember) ==> s.trigger == Some(false)) &&
            (o.animation.invokeType != InvokeNumber(TriggerMember) ==> s.trigger.None?)
  {
    ObjectsByIdKeyed(objs, k);
  }
}

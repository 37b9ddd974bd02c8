/** The React runtime for the Inertia schema (runtime-web/inertia-react):
    the container's data model and its schema handling, the loading of
    the published animations, and an `Inertiaable`'s hierarchy id,
    selection test and click handler. */
module InertiaReact {
  import opened Wrappers
  import opened Schema
  import HierarchyIds

  /** A schema wrapper as the editor sends it to the web runtime: it carries
      one animation schema. */
  datatype Wrapper = Wrapper(
    schema: AnimationSchema, actionableId: string, container: AnimationContainer, animationId: string)

  /** An element of `actionableIdPairs`. */
  datatype ActionableIdPair = ActionableIdPair(hierarchyIdPrefix: string, hierarchyId: string)

  predicate Addressed(w: Wrapper, containerId: string)
  {
    w.container.containerId == containerId
  }

  /** The wrapper at `i` is the last one addressed to the container whose
      `key` is the same as its own. */
  predicate LastWith(ws: seq<Wrapper>, containerId: string, i: int, key: Wrapper -> string)
    requires 0 <= i < |ws|
  {
    Addressed(ws[i], containerId) &&
    forall j :: i < j < |ws| && Addressed(ws[j], containerId) ==> key(ws[j]) != key(ws[i])
  }

  function ActionableKey(w: Wrapper): string { w.actionableId }
  function AnimationKey(w: Wrapper): string { w.animationId }

  /** `actionableIdToAnimationIdMap` after the wrappers `ws`, applied in
      order; the twin of `InertiaModel.RoutedAnimationIds` in the Swift
      runtime. */
  function RoutedAnimationIds(m: map<string, string>, ws: seq<Wrapper>, containerId: string): (r: map<string, string>)
    ensures r.Keys == m.Keys + set i | 0 <= i < |ws| && Addressed(ws[i], containerId) :: ws[i].actionableId
    decreases |ws|
  {
    if ws == [] then m
    else
      var before := RoutedAnimationIds(m, ws[..|ws| - 1], containerId);
      var w := ws[|ws| - 1];
      if Addressed(w, containerId) then before[w.actionableId := w.animationId] else before
  }

  /** `inertiaSchemas` after the wrappers `ws`, applied in order. */
  function RoutedSchemas(m: map<string, AnimationSchema>, ws: seq<Wrapper>, containerId: string): (r: map<string, AnimationSchema>)
    ensures r.Keys == m.Keys + set i | 0 <= i < |ws| && Addressed(ws[i], containerId) :: ws[i].animationId
    decreases |ws|
  {
    if ws == [] then m
    else
      var before := RoutedSchemas(m, ws[..|ws| - 1], containerId);
      var w := ws[|ws| - 1];
      if Addressed(w, containerId) then before[w.animationId := w.schema] else before
  }

  /** The last addressed wrapper for an actionable id decides its animation id. */
  lemma {:induction false} RoutedAnimationIdLastWins(m: map<string, string>, ws: seq<Wrapper>, containerId: string, i: nat)
    requires i < |ws| && LastWith(ws, containerId, i, ActionableKey)
    ensures RoutedAnimationIds(m, ws, containerId)[ws[i].actionableId] == ws[i].animationId
    decreases |ws|
  {
    if i < |ws| - 1 {
      var init := ws[..|ws| - 1];
      assert init[i] == ws[i];
      assert LastWith(init, containerId, i, ActionableKey);
      RoutedAnimationIdLastWins(m, init, containerId, i);
    }
  }

  /** The last addressed wrapper for an animation id decides its schema. */
  lemma {:induction false} RoutedSchemaLastWins(m: map<string, AnimationSchema>, ws: seq<Wrapper>, containerId: string, i: nat)
    requires i < |ws| && LastWith(ws, containerId, i, AnimationKey)
    ensures RoutedSchemas(m, ws, containerId)[ws[i].animationId] == ws[i].schema
    decreases |ws|
  {
    if i < |ws| - 1 {
      var init := ws[..|ws| - 1];
      assert init[i] == ws[i];
      assert LastWith(init, containerId, i, AnimationKey);
      RoutedSchemaLastWins(m, init, containerId, i);
    }
  }

  /** Wrappers addressed to another container change neither map. */
  lemma {:induction false} UnaddressedChangesNothing(ids: map<string, string>, schemas: map<string, AnimationSchema>,
                                                     ws: seq<Wrapper>, containerId: string)
    requires forall i :: 0 <= i < |ws| ==> !Addressed(ws[i], containerId)
    ensures RoutedAnimationIds(ids, ws, containerId) == ids
    ensures RoutedSchemas(schemas, ws, containerId) == schemas
    decreases |ws|
  {
    if ws != [] {
      UnaddressedChangesNothing(ids, schemas, ws[..|ws| - 1], containerId);
    }
  }

  /** `schemaMap` built by `loadAnimations`: every schema under its id. */
  function SchemaMap(ss: seq<AnimationSchema>): (r: map<string, AnimationSchema>)
    ensures r.Keys == set i | 0 <= i < |ss| :: ss[i].id
    decreases |ss|
  {
    if ss == [] then map[] else SchemaMap(ss[..|ss| - 1])[ss[|ss| - 1].id := ss[|ss| - 1]]
  }

  /** The `actionableIdToAnimationIdMap` built by `loadAnimations`: every
      loaded id maps to itself. */
  function IdentityIds(ss: seq<AnimationSchema>): (r: map<string, string>)
    ensures r.Keys == set i | 0 <= i < |ss| :: ss[i].id
    ensures forall k :: k in r ==> r[k] == k
    decreases |ss|
  {
    if ss == [] then map[] else IdentityIds(ss[..|ss| - 1])[ss[|ss| - 1].id := ss[|ss| - 1].id]
  }

  /** A later schema with the same id overwrites an earlier one. */
  lemma {:induction false} SchemaMapLastWins(ss: seq<AnimationSchema>, i: nat)
    requires i < |ss| && forall j :: i < j < |ss| ==> ss[j].id != ss[i].id
    ensures SchemaMap(ss)[ss[i].id] == ss[i]
    decreases |ss|
  {
    if i < |ss| - 1 {
      var init := ss[..|ss| - 1];
      assert init[i] == ss[i];
      SchemaMapLastWins(init, i);
    }
  }

  /** The container's data model. */
  class DataModel {
    const containerId: string
    var actionableIdToAnimationIdMap: map<string, string>
    var inertiaSchemas: map<string, AnimationSchema>
    /** A JavaScript `Set` of pair objects, in insertion order; `None` when unset. */
    var actionableIdPairs: Option<seq<ActionableIdPair>>
    var isActionable: bool

    constructor (containerId: string)
      ensures this.containerId == containerId
      ensures actionableIdToAnimationIdMap == map[] && inertiaSchemas == map[]
      ensures actionableIdPairs.None? && !isActionable
    {
      this.containerId := containerId;
      actionableIdToAnimationIdMap := map[];
      inertiaSchemas := map[];
      actionableIdPairs := None;
      isActionable := false;
    }

    /** `loadAnimations` after the fetch: a failed response, or dev mode,
        leaves the maps alone; otherwise both are replaced by maps built
        from the loaded schemas. */
    method LoadAnimations(dev: bool, loaded: Option<seq<AnimationSchema>>)
      modifies this`inertiaSchemas, this`actionableIdToAnimationIdMap
      ensures dev || loaded.None? ==>
        inertiaSchemas == old(inertiaSchemas) && actionableIdToAnimationIdMap == old(actionableIdToAnimationIdMap)
      ensures !dev && loaded.Some? ==>
        inertiaSchemas == SchemaMap(loaded.value) && actionableIdToAnimationIdMap == IdentityIds(loaded.value)
    {
      if dev || loaded.None? {
        return;
      }
      var schemas := loaded.value;
      var schemaMap: map<string, AnimationSchema> := map[];
      var idMap: map<string, string> := map[];
      for i := 0 to |schemas|
        invariant schemaMap == SchemaMap(schemas[..i]) && idMap == IdentityIds(schemas[..i])
      {
        assert schemas[..i + 1][..i] == schemas[..i];
        schemaMap := schemaMap[schemas[i].id := schemas[i]];
        idMap := idMap[schemas[i].id := schemas[i].id];
      }
      assert schemas[..|schemas|] == schemas;
      inertiaSchemas := schemaMap;
      actionableIdToAnimationIdMap := idMap;
    }
  }

  /** `handleMessageSchema`: without a data model nothing happens; every
      wrapper addressed to the model's container records its animation id
      and stores its schema under that id. */
  method HandleMessageSchema(schemaWrappers: seq<Wrapper>, model: DataModel?)
    modifies model
    ensures model != null ==>
      model.actionableIdToAnimationIdMap ==
        RoutedAnimationIds(old(model.actionableIdToAnimationIdMap), schemaWrappers, model.containerId) &&
      model.inertiaSchemas == RoutedSchemas(old(model.inertiaSchemas), schemaWrappers, model.containerId) &&
      model.actionableIdPairs == old(model.actionableIdPairs) && model.isActionable == old(model.isActionable)
  {
    if model == null {
      return;
    }
    for i := 0 to |schemaWrappers|
      invariant model.actionableIdToAnimationIdMap ==
                RoutedAnimationIds(old(model.actionableIdToAnimationIdMap), schemaWrappers[..i], model.containerId)
      invariant model.inertiaSchemas ==
                RoutedSchemas(old(model.inertiaSchemas), schemaWrappers[..i], model.containerId)
      invariant model.actionableIdPairs == old(model.actionableIdPairs) && model.isActionable == old(model.isActionable)
    {
      var w := schemaWrappers[i];
      assert schemaWrappers[..i + 1][..i] == schemaWrappers[..i];
      if w.container.containerId == model.containerId {
        model.actionableIdToAnimationIdMap := model.actionableIdToAnimationIdMap[w.actionableId := w.animationId];
        model.inertiaSchemas := model.inertiaSchemas[w.animationId := w.schema];
      }
    }
    assert schemaWrappers[..|schemaWrappers|] == schemaWrappers;
  }

  /** Some pair of `pairs` belongs to the view `hierarchyId`. */
  predicate HasPair(pairs: seq<ActionableIdPair>, hierarchyId: string)
  {
    exists i :: 0 <= i < |pairs| && pairs[i].hierarchyId == hierarchyId
  }

  /** The pairs that do not belong to `hierarchyId`, in order. */
  function Without(pairs: seq<ActionableIdPair>, hierarchyId: string): (r: seq<ActionableIdPair>)
    ensures !HasPair(r, hierarchyId)
    ensures forall q :: q in r <==> q in pairs && q.hierarchyId != hierarchyId
    ensures !HasPair(pairs, hierarchyId) ==> r == pairs
    decreases |pairs|
  {
    if pairs == [] then []
    else
      var init := Without(pairs[..|pairs| - 1], hierarchyId);
      var last := pairs[|pairs| - 1];
      assert pairs == pairs[..|pairs| - 1] + [last];
      if last.hierarchyId == hierarchyId then init else init + [last]
  }

  /** Removing the pairs of an id ignores a pair of that id appended last. */
  lemma {:induction false} WithoutAppended(pairs: seq<ActionableIdPair>, pair: ActionableIdPair)
    ensures Without(pairs + [pair], pair.hierarchyId) == Without(pairs, pair.hierarchyId)
  {
    assert (pairs + [pair])[..|pairs + [pair]| - 1] == pairs;
  }

  /** `isSelected`: the view has a (truthy) hierarchy id and some pair
      belongs to it. */
  predicate IsSelected(hierarchyId: Option<string>, pairs: Option<seq<ActionableIdPair>>)
  {
    hierarchyId.Some? && hierarchyId.value != "" && HasPair(pairs.UnwrapOr([]), hierarchyId.value)
  }

  /** The new pair set of `handleClick`: the view's pairs are removed when
      it has any, otherwise its pair is appended. */
  function ClickedPairs(pairs: Option<seq<ActionableIdPair>>, prefix: string, hierarchyId: string): (r: seq<ActionableIdPair>)
    ensures HasPair(r, hierarchyId) <==> !HasPair(pairs.UnwrapOr([]), hierarchyId)
  {
    var current := pairs.UnwrapOr([]);
    if HasPair(current, hierarchyId) then Without(current, hierarchyId)
    else
      assert (current + [ActionableIdPair(prefix, hierarchyId)])[|current|].hierarchyId == hierarchyId;
      current + [ActionableIdPair(prefix, hierarchyId)]
  }

  /** A click flips the view's selection. */
  lemma ClickFlipsSelection(pairs: Option<seq<ActionableIdPair>>, prefix: string, hierarchyId: string)
    requires hierarchyId != ""
    ensures IsSelected(Some(hierarchyId), Some(ClickedPairs(pairs, prefix, hierarchyId))) ==
            !IsSelected(Some(hierarchyId), pairs)
  {
  }

  /** A click keeps every pair of other views, in order. */
  lemma ClickKeepsOthers(pairs: Option<seq<ActionableIdPair>>, prefix: string, hierarchyId: string)
    ensures Without(ClickedPairs(pairs, prefix, hierarchyId), hierarchyId) == Without(pairs.UnwrapOr([]), hierarchyId)
  {
    var current := pairs.UnwrapOr([]);
    if !HasPair(current, hierarchyId) {
      WithoutAppended(current, ActionableIdPair(prefix, hierarchyId));
    }
  }

  /** Clicking an unselected view twice restores its pair set. */
  lemma ClickTwiceRestores(pairs: seq<ActionableIdPair>, prefix: string, hierarchyId: string)
    requires !HasPair(pairs, hierarchyId)
    ensures ClickedPairs(Some(ClickedPairs(Some(pairs), prefix, hierarchyId)), prefix, hierarchyId) == pairs
  {
    WithoutAppended(pairs, ActionableIdPair(prefix, hierarchyId));
  }

  /** An `Inertiaable` component: its prefix and the hierarchy id it
      received. */
  class Inertiaable {
    const hierarchyIdPrefix: string
    var hierarchyId: Option<string>

    constructor (hierarchyIdPrefix: string)
      ensures this.hierarchyIdPrefix == hierarchyIdPrefix && hierarchyId.None?
    {
      this.hierarchyIdPrefix := hierarchyIdPrefix;
      hierarchyId := None;
    }

    /** The id effect: the next id for the prefix from the shared counter. */
    method AssignHierarchyId(indexManager: HierarchyIds.IndexManager)
      modifies this`hierarchyId, indexManager
      ensures hierarchyId == Some(HierarchyIds.MakeId(hierarchyIdPrefix,
                                  HierarchyIds.Counter(old(indexManager.indexMap), hierarchyIdPrefix)))
      ensures indexManager.indexMap == old(indexManager.indexMap)[hierarchyIdPrefix :=
                                  HierarchyIds.Counter(old(indexManager.indexMap), hierarchyIdPrefix) + 1]
    {
      var newId := indexManager.UpdateHierarchyId(hierarchyIdPrefix);
      hierarchyId := Some(newId);
    }

    /** `handleClick`: with an id, a prefix and edit mode, the view's pairs
        are toggled and the new pair list is sent with the tree; `sent` is
        that list, `None` when the click is ignored. */
    method HandleClick(model: DataModel?) returns (sent: Option<seq<ActionableIdPair>>)
      modifies model
      ensures model != null && model.isActionable && hierarchyId.Some? && hierarchyId.value != "" &&
              hierarchyIdPrefix != "" ==>
        sent == Some(ClickedPairs(old(model.actionableIdPairs), hierarchyIdPrefix, hierarchyId.value)) &&
        model.actionableIdPairs == sent
      ensures !(model != null && model.isActionable && hierarchyId.Some? && hierarchyId.value != "" &&
                hierarchyIdPrefix != "") ==>
        sent.None? && (model != null ==> model.actionableIdPairs == old(model.actionableIdPairs))
      ensures model != null ==>
        model.isActionable == old(model.isActionable) && model.inertiaSchemas == old(model.inertiaSchemas) &&
        model.actionableIdToAnimationIdMap == old(model.actionableIdToAnimationIdMap)
    {
      if hierarchyId.None? || hierarchyId.value == "" || hierarchyIdPrefix == "" || model == null || !model.isActionable {
        return None;
      }
      var newPairs := ClickedPairs(model.actionableIdPairs, hierarchyIdPrefix, hierarchyId.value);
      model.actionableIdPairs := Some(newPairs);
      sent := Some(newPairs);
    }
  }
}

/** The Compose runtime's data model (MainActivity.kt): `copyMutable`, the
    container's message handlers that replace the model by an updated
    copy, and a `Vibeable`'s hierarchy id, registration and click. */
module ComposeModel {
  import opened Wrappers
  import opened Sets
  import opened Schema
  import ComposeTree
  import HierarchyIds
  import InertiaModel

  /** The fields of a model that `copyMutable` copies by value. */
  datatype Fields = Fields(vibeSchema: InertiaSchema, actionableIds: set<string>,
                           states: map<string, AnimationState>,
                           actionableIdToAnimationIdMap: map<string, string>, isActionable: bool)

  /** The blocks the runtime passes to `copyMutable`. */
  datatype Block =
    | ReplaceActionableIds(ids: set<string>)
    | InstallSchema(schema: InertiaSchema, actionableId: string, animationId: string)
    | SetActionable(value: bool)

  /** The effect of a block on the copied fields. */
  function Applied(f: Fields, b: Block): (r: Fields)
    ensures r.states == f.states
    ensures b.ReplaceActionableIds? ==> r == f.(actionableIds := b.ids)
    ensures b.InstallSchema? ==>
      r == f.(vibeSchema := b.schema,
              actionableIdToAnimationIdMap := f.actionableIdToAnimationIdMap[b.actionableId := b.animationId])
    ensures b.SetActionable? ==> r == f.(isActionable := b.value)
  {
    match b
    case ReplaceActionableIds(ids) => f.(actionableIds := ids)
    case InstallSchema(s, a, n) =>
      f.(vibeSchema := s, actionableIdToAnimationIdMap := f.actionableIdToAnimationIdMap[a := n])
    case SetActionable(v) => f.(isActionable := v)
  }

  class DataModel {
    const containerId: string
    var vibeSchema: InertiaSchema
    var tree: ComposeTree.Tree
    var actionableIds: set<string>
    var states: map<string, AnimationState>
    var actionableIdToAnimationIdMap: map<string, string>
    var isActionable: bool

    function State(): Fields
      reads this
    {
      Fields(vibeSchema, actionableIds, states, actionableIdToAnimationIdMap, isActionable)
    }

    constructor (containerId: string, vibeSchema: InertiaSchema, tree: ComposeTree.Tree, actionableIds: set<string>)
      ensures this.containerId == containerId && this.tree == tree
      ensures State() == Fields(vibeSchema, actionableIds, map[], map[], false)
    {
      this.containerId := containerId;
      this.vibeSchema := vibeSchema;
      this.tree := tree;
      this.actionableIds := actionableIds;
      states := map[];
      actionableIdToAnimationIdMap := map[];
      isActionable := false;
    }

    /** `copyMutable(block)`: a new model sharing this one's tree and
        schema, with copies of its collections, and the block applied to
        the copy only; this model is not changed. */
    method CopyMutable(block: Block) returns (copy: DataModel)
      ensures fresh(copy)
      ensures copy.containerId == containerId && copy.tree == tree
      ensures copy.State() == Applied(State(), block)
    {
      copy := new DataModel(containerId, vibeSchema, tree, actionableIds);
      copy.states := states;
      copy.actionableIdToAnimationIdMap := actionableIdToAnimationIdMap;
      copy.isActionable := isActionable;
      match block
      case ReplaceActionableIds(ids) =>
        copy.actionableIds := ids;
      case InstallSchema(s, a, n) =>
        copy.vibeSchema := s;
        copy.actionableIdToAnimationIdMap := copy.actionableIdToAnimationIdMap[a := n];
      case SetActionable(v) =>
        copy.isActionable := v;
    }
  }

  /** The container's schema handler: every wrapper addressed to the
      container replaces the model by a copy holding its schema and its
      animation id, like the Swift runtime's handler. */
  method OnSchema(model: DataModel, wrappers: seq<SchemaWrapper>) returns (result: DataModel)
    ensures result.containerId == model.containerId && result.tree == model.tree
    ensures result.actionableIdToAnimationIdMap ==
            InertiaModel.RoutedAnimationIds(model.actionableIdToAnimationIdMap, wrappers, model.containerId)
    ensures result.vibeSchema == InertiaModel.RoutedSchema(model.vibeSchema, wrappers, model.containerId)
    ensures result.actionableIds == model.actionableIds && result.states == model.states &&
            result.isActionable == model.isActionable
  {
    result := model;
    for i := 0 to |wrappers|
      invariant result.containerId == model.containerId && result.tree == model.tree
      invariant result.actionableIdToAnimationIdMap ==
                InertiaModel.RoutedAnimationIds(model.actionableIdToAnimationIdMap, wrappers[..i], model.containerId)
      invariant result.vibeSchema == InertiaModel.RoutedSchema(model.vibeSchema, wrappers[..i], model.containerId)
      invariant result.actionableIds == model.actionableIds && result.states == model.states &&
                result.isActionable == model.isActionable
    {
      var w := wrappers[i];
      assert wrappers[..i + 1][..i] == wrappers[..i];
      if w.container.containerId == result.containerId {
        result := result.CopyMutable(InstallSchema(w.schema, w.actionableId, w.animationId));
      }
    }
    assert wrappers[..|wrappers|] == wrappers;
  }

  /** A `Vibeable` composable: its prefix and the hierarchy id it received. */
  class Vibeable {
    const hierarchyIdPrefix: string
    var hierarchyId: Option<string>

    constructor (hierarchyIdPrefix: string)
      ensures this.hierarchyIdPrefix == hierarchyIdPrefix && hierarchyId.None?
    {
      this.hierarchyIdPrefix := hierarchyIdPrefix;
      hierarchyId := None;
    }

    /** The id effect: `"<prefix>--<next>"` with the shared counter (0
        when unset), which is bumped. */
    method AssignHierarchyId(indexManager: HierarchyIds.IndexManager)
      modifies this`hierarchyId, indexManager
      ensures hierarchyId == Some(HierarchyIds.MakeId(hierarchyIdPrefix,
                                  HierarchyIds.Counter(old(indexManager.indexMap), hierarchyIdPrefix)))
      ensures indexManager.indexMap == old(indexManager.indexMap)[hierarchyIdPrefix :=
                                  HierarchyIds.Counter(old(indexManager.indexMap), hierarchyIdPrefix) + 1]
    {
      var next := indexManager.UpdateHierarchyId(hierarchyIdPrefix);
      hierarchyId := Some(next);
    }

    /** The registration effect: once an id is assigned, the view is added
        below the parent from the composition. */
    method Register(model: DataModel?, parentId: Option<string>, isContainer: bool)
      modifies if model != null then {model.tree} else {}
      ensures model != null && hierarchyId.Some? ==>
        model.tree.State() ==
          ComposeTree.WithRelationshipOnce(old(model.tree.State()), hierarchyId.value, parentId, isContainer)
      ensures model != null && hierarchyId.None? ==> model.tree.State() == old(model.tree.State())
    {
      if hierarchyId.Some? && model != null {
        model.tree.AddRelationship(hierarchyId.value, parentId, isContainer);
      }
    }

    /** The click handler, enabled in edit mode only: it sends the
        actionable ids with this view's id toggled, taken from a copy of
        the model; the model itself is never replaced, so it keeps the
        old selection. `sent` is `None` when nothing is sent. */
    method Click(model: DataModel?) returns (sent: Option<set<string>>)
      ensures model != null && model.isActionable && hierarchyId.Some? ==>
        sent == Some(Toggle(model.actionableIds, hierarchyId.value))
      ensures !(model != null && model.isActionable && hierarchyId.Some?) ==> sent.None?
    {
      if model == null || !model.isActionable {
        return None;
      }
      if hierarchyId.None? {
        return None;
      }
      var id := hierarchyId.value;
      var ids := model.actionableIds;
      if id in ids {
        ids := ids - {id};
      } else {
        ids := ids + {id};
      }
      var newModel := model.CopyMutable(ReplaceActionableIds(ids));
      sent := Some(newModel.actionableIds);
    }
  }
}

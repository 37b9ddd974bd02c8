/** The React runtime's components (runtime-web/vibe-react): the context
    hooks' guards, a `Vibeable`'s registration in the tree and the effect
    meant to link the tree. Rendering, React's scheduling of effects and
    the animation setup are not modelled. */
module VibeReactHooks {
  import opened Wrappers
  import VibeBaseTree
  import InertiaTree
  import HierarchyIds

  /** The error each hook throws. */
  datatype HookError = NoDataModel | NoParentId | NoContainerId | NotContainer

  /** The context values a component sees. */
  datatype Context = Context(hasDataModel: bool, parentId: Option<string>, containerId: Option<string>,
                             isContainer: bool)

  /** `useVibeParentId` and `useVibeContainerId`: a falsy value (undefined
      or "") throws. */
  function UseStringContext(v: Option<string>, e: HookError): (r: Result<string, HookError>)
    ensures r.Failure? <==> v.None? || v.value == ""
    ensures r.Failure? ==> r.error == e
    ensures r.Success? ==> Some(r.value) == v
  {
    if v.None? || v.value == "" then Failure(e) else Success(v.value)
  }

  /** `useVibeIsContainer`: throws unless the value is `true`. */
  function UseVibeIsContainer(v: bool): (r: Result<bool, HookError>)
    ensures r.Failure? <==> !v
  {
    if v then Success(true) else Failure(NotContainer)
  }

  /** The hooks a `Vibeable` calls, in order; the first to throw decides. */
  function VibeableHooks(c: Context): (r: Result<Context, HookError>)
    ensures r.Success? <==> c.hasDataModel && VibeBaseTree.Truthy(c.parentId) &&
                            VibeBaseTree.Truthy(c.containerId) && c.isContainer
    ensures r.Failure? && !c.hasDataModel ==> r.error == NoDataModel
  {
    if !c.hasDataModel then Failure(NoDataModel)
    else
      var p := UseStringContext(c.parentId, NoParentId);
      if p.Failure? then Failure(p.error)
      else
        var k := UseStringContext(c.containerId, NoContainerId);
        if k.Failure? then Failure(k.error)
        else
          var ic := UseVibeIsContainer(c.isContainer);
          if ic.Failure? then Failure(ic.error) else Success(c)
  }

  /** What `VibeContainer` provides to its children. */
  function ContainerProvides(id: string): Context
  {
    Context(true, Some(id), Some(id), true)
  }

  /** What a `Vibeable` provides to its children: its (possibly not yet
      assigned) hierarchy id as parent, and `false` as container flag. */
  function VibeableProvides(c: Context, hierarchyId: Option<string>): Context
  {
    c.(parentId := hierarchyId, isContainer := false)
  }

  /** A `Vibeable` directly inside a container with a non-empty id passes
      every guard. */
  lemma VibeableInContainerRenders(id: string)
    requires id != ""
    ensures VibeableHooks(ContainerProvides(id)).Success?
  {
  }

  /** A `Vibeable` nested in another always throws. */
  lemma NestedVibeableThrows(c: Context, hierarchyId: Option<string>)
    ensures VibeableHooks(VibeableProvides(c, hierarchyId)).Failure?
  {
  }

  /** The registration effect's body, given the value `hierarchyId` has
      when it runs: a truthy id adds the view below the parent from the
      context. */
  method RegisterEffect(tree: VibeBaseTree.Tree?, hierarchyId: Option<string>, parentId: string, isContainer: bool)
    modifies tree
    ensures tree != null && VibeBaseTree.Truthy(hierarchyId) ==>
      tree.State() == VibeBaseTree.WithRelationship(old(tree.State()), hierarchyId.value, Some(parentId), isContainer)
    ensures tree != null && !VibeBaseTree.Truthy(hierarchyId) ==> tree.State() == old(tree.State())
  {
    if tree != null && hierarchyId.Some? && hierarchyId.value != "" {
      tree.AddRelationship(hierarchyId.value, Some(parentId), isContainer);
    }
  }

  /** A `Vibeable`'s first commit, its effects in declaration order (the
      animation effect aside). `hierarchyId` is a plain variable that
      every render declares anew as `undefined`; the registration effect
      reads it before the next effect assigns it, and since no render
      ever sees an assigned value, the effect's dependency never changes
      and it never runs again. So the view is never registered, while its
      id is still drawn from the shared counter. */
  method MountEffects(tree: VibeBaseTree.Tree?, indexManager: HierarchyIds.IndexManager, prefix: string,
                      parentId: string, isContainer: bool)
    returns (hierarchyId: string)
    modifies tree, indexManager
    ensures tree != null ==> tree.State() == old(tree.State())
    ensures hierarchyId == HierarchyIds.MakeId(prefix, HierarchyIds.Counter(old(indexManager.indexMap), prefix))
    ensures indexManager.indexMap ==
              old(indexManager.indexMap)[prefix := HierarchyIds.Counter(old(indexManager.indexMap), prefix) + 1]
  {
    var renderId: Option<string> := None;
    RegisterEffect(tree, renderId, parentId, isContainer);
    hierarchyId := indexManager.UpdateHierarchyId(prefix);
  }

  /** Every id the counter issues is truthy. */
  lemma MadeIdTruthy(prefix: string, k: nat)
    ensures VibeBaseTree.Truthy(Some(HierarchyIds.MakeId(prefix, k)))
  {
    assert |HierarchyIds.MakeId(prefix, k)| >= 2;
  }

  /** The intended first commit: the id is assigned first and kept across
      renders, so the registration effect sees it and adds the view below
      its parent. */
  method IntendedMountEffects(tree: VibeBaseTree.Tree?, indexManager: HierarchyIds.IndexManager, prefix: string,
                              parentId: string, isContainer: bool)
    returns (hierarchyId: string)
    modifies tree, indexManager
    ensures tree != null ==>
              tree.State() == VibeBaseTree.WithRelationship(old(tree.State()), hierarchyId, Some(parentId), isContainer)
    ensures hierarchyId == HierarchyIds.MakeId(prefix, HierarchyIds.Counter(old(indexManager.indexMap), prefix))
    ensures indexManager.indexMap ==
              old(indexManager.indexMap)[prefix := HierarchyIds.Counter(old(indexManager.indexMap), prefix) + 1]
  {
    hierarchyId := indexManager.UpdateHierarchyId(prefix);
    MadeIdTruthy(prefix, HierarchyIds.Counter(old(indexManager.indexMap), prefix));
    RegisterEffect(tree, Some(hierarchyId), parentId, isContainer);
  }

  /** `Object.values` of a JavaScript `Map`: a `Map` keeps its entries
      out of its own properties, so there are none to list. */
  function MapObjectValues(m: map<string, InertiaTree.Node>): (r: seq<string>)
    ensures r == []
  {
    []
  }

  /** The link effect as written: it walks `Object.values(tree.nodeMap)`,
      which is empty, so no node is linked. */
  method LinkEffectAsWritten(tree: VibeBaseTree.Tree?)
    modifies tree
    ensures tree != null ==> tree.State() == old(tree.State())
  {
    if tree != null {
      var nodes := MapObjectValues(tree.nodeMap);
      for i := 0 to |nodes|
        invariant tree.State() == old(tree.State())
      {
        assert false;
      }
    }
  }

  /** The link effect as intended: every node of the map linked. */
  method LinkEffect(tree: VibeBaseTree.Tree?)
    modifies tree
    ensures tree != null ==> tree.State() == VibeBaseTree.LiveLinked(old(tree.State()))
  {
    if tree != null {
      tree.LinkAll();
    }
  }

  /** A tree where the two differ: "a" records parent "p", which exists,
      but has no link yet. */
  lemma LinkEffectMissesLinks()
    ensures var t := InertiaTree.TreeState(map["a" := InertiaTree.Node(Some("p"), None, []),
                                               "p" := InertiaTree.Node(None, None, ["a"])], None);
            VibeBaseTree.LiveLinked(t).nodeMap["a"].parent == Some("p") && t.nodeMap["a"].parent.None?
  {
  }
}

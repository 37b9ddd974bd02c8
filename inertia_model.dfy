/** The Swift runtime's data model (Inertia.swift) and the handlers that
    change it: the tap on an actionable view, the messages the editor
    sends, and the registration of a view in the tree. */
module InertiaModel {
  import opened Wrappers
  import opened Sets
  import opened Schema
  import opened Strings
  import InertiaTree
  import NameServer

  class DataModel {
    const containerId: string
    var inertiaSchema: InertiaSchema
    var tree: InertiaTree.Tree
    var actionableIds: set<string>
    var states: map<string, AnimationState>
    var actionableIdToAnimationIdMap: map<string, string>
    var isActionable: bool

    constructor (containerId: string, inertiaSchema: InertiaSchema, tree: InertiaTree.Tree, actionableIds: set<string>)
      ensures this.containerId == containerId && this.inertiaSchema == inertiaSchema
      ensures this.tree == tree && this.actionableIds == actionableIds
      ensures states == map[] && actionableIdToAnimationIdMap == map[] && !isActionable
    {
      this.containerId := containerId;
      this.inertiaSchema := inertiaSchema;
      this.tree := tree;
      this.actionableIds := actionableIds;
      states := map[];
      actionableIdToAnimationIdMap := map[];
      isActionable := false;
    }

    /** `handleMessage(selectedIds:)`: the editor's selection replaces ours. */
    method HandleSelectedIds(selectedIds: set<string>)
      modifies this`actionableIds
      ensures actionableIds == selectedIds
    {
      actionableIds := selectedIds;
    }

    method HandleMessageActionable(isActionable: bool)
      modifies this`isActionable
      ensures this.isActionable == isActionable
    {
      this.isActionable := isActionable;
    }

    /** `handleMessageSchema(schemaWrappers:)`: wrappers addressed to this
        container record their animation id and install their schema. */
    method HandleMessageSchema(schemaWrappers: seq<SchemaWrapper>)
      modifies this`actionableIdToAnimationIdMap, this`inertiaSchema
      ensures actionableIdToAnimationIdMap ==
              RoutedAnimationIds(old(actionableIdToAnimationIdMap), schemaWrappers, containerId)
      ensures inertiaSchema == RoutedSchema(old(inertiaSchema), schemaWrappers, containerId)
    {
      for i := 0 to |schemaWrappers|
        invariant actionableIdToAnimationIdMap ==
                  RoutedAnimationIds(old(actionableIdToAnimationIdMap), schemaWrappers[..i], containerId)
        invariant inertiaSchema == RoutedSchema(old(inertiaSchema), schemaWrappers[..i], containerId)
      {
        var w := schemaWrappers[i];
        assert schemaWrappers[..i + 1][..i] == schemaWrappers[..i];
        if w.container.containerId == containerId {
          actionableIdToAnimationIdMap := actionableIdToAnimationIdMap[w.actionableId := w.animationId];
          inertiaSchema := w.schema;
        }
      }
      assert schemaWrappers[..|schemaWrappers|] == schemaWrappers;
    }
  }

  predicate Addressed(w: SchemaWrapper, containerId: string)
  {
    w.container.containerId == containerId
  }

  /** Some wrapper of `ws` addressed to the container names `k`. */
  predicate Routes(ws: seq<SchemaWrapper>, containerId: string, k: string)
  {
    exists i :: 0 <= i < |ws| && Addressed(ws[i], containerId) && ws[i].actionableId == k
  }

  /** The wrapper at `i` is the last one addressed to the container for
      its actionable id. */
  predicate LastFor(ws: seq<SchemaWrapper>, containerId: string, i: int)
    requires 0 <= i < |ws|
  {
    Addressed(ws[i], containerId) &&
    forall j :: i < j < |ws| && Addressed(ws[j], containerId) ==> ws[j].actionableId != ws[i].actionableId
  }

  /** The animation-id map after the wrappers `ws` were applied in order.
      The web runtime's loop is the same; its twin is
      `InertiaReact.RoutedAnimationIds`, over that runtime's own wrappers. */
  function RoutedAnimationIds(m: map<string, string>, ws: seq<SchemaWrapper>, containerId: string): (r: map<string, string>)
    ensures r.Keys == m.Keys + set i | 0 <= i < |ws| && Addressed(ws[i], containerId) :: ws[i].actionableId
    decreases |ws|
  {
    if ws == [] then m
    else
      var before := RoutedAnimationIds(m, ws[..|ws| - 1], containerId);
      var w := ws[|ws| - 1];
      if Addressed(w, containerId) then before[w.actionableId := w.animationId] else before
  }

  /** The last addressed wrapper for an actionable id decides its animation id. */
  lemma {:induction false} RoutedLastWins(m: map<string, string>, ws: seq<SchemaWrapper>, containerId: string, i: nat)
    requires i < |ws| && LastFor(ws, containerId, i)
    ensures RoutedAnimationIds(m, ws, containerId)[ws[i].actionableId] == ws[i].animationId
    decreases |ws|
  {
    if i < |ws| - 1 {
      var init := ws[..|ws| - 1];
      assert init[i] == ws[i];
      assert LastFor(init, containerId, i);
      RoutedLastWins(m, init, containerId, i);
    }
  }

  /** Ids no addressed wrapper names keep their entry, or their absence. */
  lemma {:induction false} RoutedLeavesOthers(m: map<string, string>, ws: seq<SchemaWrapper>, containerId: string, k: string)
    requires !Routes(ws, containerId, k)
    ensures var r := RoutedAnimationIds(m, ws, containerId);
            (k in r <==> k in m) && (k in m ==> r[k] == m[k])
    decreases |ws|
  {
    if ws != [] {
      RoutedLeavesOthers(m, ws[..|ws| - 1], containerId, k);
    }
  }

  /** Wrappers for other containers can be dropped without effect. */
  lemma {:induction false} RoutedIgnoresOthers(m: map<string, string>, ws: seq<SchemaWrapper>, containerId: string)
    ensures RoutedAnimationIds(m, ws, containerId) == RoutedAnimationIds(m, AddressedOnly(ws, containerId), containerId)
    decreases |ws|
  {
    if ws != [] {
      var init := ws[..|ws| - 1];
      var w := ws[|ws| - 1];
      RoutedIgnoresOthers(m, init, containerId);
      var fi := AddressedOnly(init, containerId);
      var before := RoutedAnimationIds(m, fi, containerId);
      if Addressed(w, containerId) {
        var f := fi + [w];
        assert AddressedOnly(ws, containerId) == f;
        assert f[..|f| - 1] == fi;
        assert RoutedAnimationIds(m, f, containerId) == before[w.actionableId := w.animationId];
      } else {
        assert AddressedOnly(ws, containerId) == fi;
        assert RoutedAnimationIds(m, ws, containerId) == RoutedAnimationIds(m, init, containerId);
      }
    }
  }

  /** The wrappers addressed to the container, in order. */
  function AddressedOnly(ws: seq<SchemaWrapper>, containerId: string): (r: seq<SchemaWrapper>)
    ensures forall i :: 0 <= i < |r| ==> Addressed(r[i], containerId)
    decreases |ws|
  {
    if ws == [] then []
    else
      var init := AddressedOnly(ws[..|ws| - 1], containerId);
      if Addressed(ws[|ws| - 1], containerId) then init + [ws[|ws| - 1]] else init
  }

  /** The schema after the wrappers `ws`: that of the last addressed one,
      or the current one when none is addressed to this container. */
  function RoutedSchema(current: InertiaSchema, ws: seq<SchemaWrapper>, containerId: string): InertiaSchema
    decreases |ws|
  {
    if ws == [] then current
    else
      var w := ws[|ws| - 1];
      if Addressed(w, containerId) then w.schema
      else RoutedSchema(current, ws[..|ws| - 1], containerId)
  }

  lemma {:induction false} RoutedSchemaLastWins(current: InertiaSchema, ws: seq<SchemaWrapper>, containerId: string, i: nat)
    requires i < |ws| && Addressed(ws[i], containerId)
    requires forall j :: i < j < |ws| ==> !Addressed(ws[j], containerId)
    ensures RoutedSchema(current, ws, containerId) == ws[i].schema
    decreases |ws|
  {
    if i < |ws| - 1 {
      RoutedSchemaLastWins(current, ws[..|ws| - 1], containerId, i);
    }
  }

  lemma {:induction false} RoutedSchemaUnaddressed(current: InertiaSchema, ws: seq<SchemaWrapper>, containerId: string)
    requires forall i :: 0 <= i < |ws| ==> !Addressed(ws[i], containerId)
    ensures RoutedSchema(current, ws, containerId) == current
    decreases |ws|
  {
    if ws != [] {
      RoutedSchemaUnaddressed(current, ws[..|ws| - 1], containerId);
    }
  }

  /** `WebSocketClient.MessageActionables`: the tree, as it is encoded when
      the message is sent, and the selection. */
  datatype MessageActionables = MessageActionables(tree: InertiaTree.TreeState, actionableIds: set<string>)

  /** The editor's address as the runtime finds it: the first valid
      nameserver of resolv.conf. The runtime connects to it on port 8060. */
  function EditorHost(resolvContents: string): Option<string>
  {
    NameServer.FirstValidAddress(SplitOn(resolvContents, '\n'))
  }

  /** The shared `WebSocketClient`: the messages it was handed, in order. */
  class WebSocketClient {
    var outbox: seq<MessageActionables>

    constructor ()
      ensures outbox == []
    {
      outbox := [];
    }

    method SendMessage(message: MessageActionables)
      modifies this`outbox
      ensures outbox == old(outbox) + [message]
    {
      outbox := outbox + [message];
    }
  }

  /** The view's tap handler: it needs a data model, edit mode and an
      assigned hierarchy id, and then flips that one id's membership; when
      resolv.conf names the editor's host, the tree and the new selection
      are sent to it. */
  method Tap(model: DataModel?, hierarchyId: Option<string>, manager: WebSocketClient, resolvContents: string)
    modifies model, manager`outbox
    ensures model != null ==>
      model.actionableIds ==
        (if old(model.isActionable) && hierarchyId.Some?
         then Toggle(old(model.actionableIds), hierarchyId.value)
         else old(model.actionableIds))
    ensures model != null ==>
      model.isActionable == old(model.isActionable) && model.tree == old(model.tree) &&
      model.inertiaSchema == old(model.inertiaSchema) && model.states == old(model.states) &&
      model.actionableIdToAnimationIdMap == old(model.actionableIdToAnimationIdMap)
    ensures manager.outbox == old(manager.outbox) +
      (if model != null && model.isActionable && hierarchyId.Some? && EditorHost(resolvContents).Some?
       then [MessageActionables(model.tree.State(), model.actionableIds)]
       else [])
  {
    if model == null {
      return;
    }
    if !model.isActionable {
      return;
    }
    if hierarchyId.None? {
      return;
    }
    var id := hierarchyId.value;
    if id in model.actionableIds {
      model.actionableIds := model.actionableIds - {id};
    } else {
      model.actionableIds := model.actionableIds + {id};
    }
    var ip := NameServer.HostFromResolvConf(resolvContents);
    if ip.Some? {
      manager.SendMessage(MessageActionables(model.tree.State(), model.actionableIds));
    }
  }

  /** The `onChange(of: hierarchyId)` handler: the first id a view receives
      registers it under its parent, and then every node is re-linked; when
      resolv.conf names the editor's host and there is a data model, the
      tree and the selection are sent to it. */
  method OnHierarchyIdChange(model: DataModel?, oldValue: Option<string>, hierarchyId: Option<string>,
                             parentId: Option<string>, isContainer: bool,
                             manager: WebSocketClient, resolvContents: string)
    modifies if model != null then {model.tree} else {}, manager`outbox
    ensures model != null && oldValue.None? && hierarchyId.Some? ==>
      model.tree.State() ==
        InertiaTree.Linked(InertiaTree.WithRelationship(old(model.tree.State()), hierarchyId.value, parentId, isContainer))
    ensures model != null && (oldValue.Some? || hierarchyId.None?) ==>
      model.tree.State() == old(model.tree.State())
    ensures manager.outbox == old(manager.outbox) +
      (if model != null && oldValue.None? && hierarchyId.Some? && EditorHost(resolvContents).Some?
       then [MessageActionables(model.tree.State(), model.actionableIds)]
       else [])
  {
    if oldValue.Some? {
      return;
    }
    if hierarchyId.None? {
      return;
    }
    if model != null {
      model.tree.AddRelationship(hierarchyId.value, parentId, isContainer);
      model.tree.LinkAll();
    }
    var ip := NameServer.HostFromResolvConf(resolvContents);
    if ip.Some? && model != null {
      manager.SendMessage(MessageActionables(model.tree.State(), model.actionableIds));
    }
  }
}

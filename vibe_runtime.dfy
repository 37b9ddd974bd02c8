/** The Vibe flavour of the Swift runtime (Vibe.swift): a tree whose nodes
    carry only their children, a different root rule, and a tap handler
    that needs no edit mode. Nodes are named by their key in `nodeMap`. */
module VibeRuntime {
  import opened Wrappers
  import opened Sets
  import opened Strings
  import NameServer

  /** The children of every node, by node id. */
  datatype TreeState = TreeState(nodeMap: map<string, seq<string>>, rootNode: Option<string>)

  function ChildrenOf(m: map<string, seq<string>>, k: string): seq<string>
  {
    if k in m then m[k] else []
  }

  /** `Tree.addRelationship(id:parentId:root:)`. */
  function WithRelationship(t: TreeState, id: string, parentId: Option<string>, root: bool): (r: TreeState)
    // nodes are reused, never replaced, and only ever added
    ensures r.nodeMap.Keys == t.nodeMap.Keys + {id} + (if parentId.Some? then {parentId.value} else {})
    ensures forall k :: k in t.nodeMap && Some(k) != parentId ==> r.nodeMap[k] == t.nodeMap[k]
    // without a parent only the current node's existence is ensured
    ensures parentId.None? ==> r.rootNode == t.rootNode && (id !in t.nodeMap ==> r.nodeMap[id] == [])
    // with one, the parent gains the child (again, if it had it) and the
    // root becomes the parent for a container and the child otherwise
    ensures parentId.Some? ==> r.nodeMap[parentId.value] == ChildrenOf(t.nodeMap, parentId.value) + [id]
    ensures parentId.Some? ==> r.rootNode == Some(if root then parentId.value else id)
  {
    var m0 := if id in t.nodeMap then t.nodeMap else t.nodeMap[id := []];
    if parentId.None? then TreeState(m0, t.rootNode)
    else
      var p := parentId.value;
      var m1 := if p in m0 then m0 else m0[p := []];
      var m2 := m1[p := m1[p] + [id]];
      if root then TreeState(m2, Some(p)) else TreeState(m2, Some(id))
  }

  /** One view's registration: its id, its parent's id and whether that
      parent is a container. */
  datatype Registration = Registration(id: string, parentId: Option<string>, root: bool)

  function Registered(t: TreeState, calls: seq<Registration>): TreeState
    decreases |calls|
  {
    if calls == [] then t
    else
      var c := calls[|calls| - 1];
      WithRelationship(Registered(t, calls[..|calls| - 1]), c.id, c.parentId, c.root)
  }

  /** The root after a series of registrations is decided by the last one
      that had a parent: its parent for a container, itself otherwise. */
  lemma {:induction false} LastParentedCallDecidesRoot(t: TreeState, calls: seq<Registration>, i: nat)
    requires i < |calls| && calls[i].parentId.Some?
    requires forall j :: i < j < |calls| ==> calls[j].parentId.None?
    ensures Registered(t, calls).rootNode ==
            Some(if calls[i].root then calls[i].parentId.value else calls[i].id)
    decreases |calls|
  {
    if i < |calls| - 1 {
      LastParentedCallDecidesRoot(t, calls[..|calls| - 1], i);
    }
  }

  lemma {:induction false} UnparentedCallsKeepRoot(t: TreeState, calls: seq<Registration>)
    requires forall j :: 0 <= j < |calls| ==> calls[j].parentId.None?
    ensures Registered(t, calls).rootNode == t.rootNode
    decreases |calls|
  {
    if calls != [] {
      UnparentedCallsKeepRoot(t, calls[..|calls| - 1]);
    }
  }

  class Tree {
    var nodeMap: map<string, seq<string>>
    var rootNode: Option<string>

    function State(): TreeState
      reads this
    {
      TreeState(nodeMap, rootNode)
    }

    constructor ()
      ensures State() == TreeState(map[], None)
    {
      nodeMap := map[];
      rootNode := None;
    }

    method AddRelationship(id: string, parentId: Option<string>, root: bool)
      modifies this
      ensures State() == WithRelationship(old(State()), id, parentId, root)
    {
      if id !in nodeMap {
        nodeMap := nodeMap[id := []];
      }
      if parentId.Some? {
        var p := parentId.value;
        if p !in nodeMap {
          nodeMap := nodeMap[p := []];
        }
        nodeMap := nodeMap[p := nodeMap[p] + [id]];
        if root {
          rootNode := Some(p);
        } else {
          rootNode := Some(id);
        }
      }
    }
  }

  class DataModel {
    const containerId: string
    var tree: Tree
    var actionableIds: set<string>

    constructor (containerId: string, tree: Tree, actionableIds: set<string>)
      ensures this.containerId == containerId && this.tree == tree && this.actionableIds == actionableIds
    {
      this.containerId := containerId;
      this.tree := tree;
      this.actionableIds := actionableIds;
    }
  }

  /** `WebSocketSharedManager.MessageItem`: the tree, as it is encoded when
      the message is sent, and the selection. */
  datatype MessageItem = MessageItem(tree: TreeState, actionableIds: set<string>)

  /** The editor's address as the runtime finds it: the first valid
      nameserver of resolv.conf. The runtime connects to it on port 8060. */
  function EditorHost(resolvContents: string): Option<string>
  {
    NameServer.FirstValidAddress(SplitOn(resolvContents, '\n'))
  }

  /** The shared `WebSocketSharedManager`: the messages it was handed, in order. */
  class WebSocketSharedManager {
    var outbox: seq<MessageItem>

    constructor ()
      ensures outbox == []
    {
      outbox := [];
    }

    method SendData(message: MessageItem)
      modifies this`outbox
      ensures outbox == old(outbox) + [message]
    {
      outbox := outbox + [message];
    }
  }

  /** A view wrapped by `vibeHello`: its hierarchy id and its border flag. */
  class HelloView {
    const hierarchyID: string
    var showSelectedBorder: bool

    constructor (hierarchyID: string)
      ensures this.hierarchyID == hierarchyID && !showSelectedBorder
    {
      this.hierarchyID := hierarchyID;
      showSelectedBorder := false;
    }

    /** The tap: the border always flips; with a data model, this view's
        id flips its membership in the selection, and when resolv.conf names
        the editor's host the tree and the new selection are sent to it. */
    method Tap(model: DataModel?, manager: WebSocketSharedManager, resolvContents: string)
      modifies this, model, manager`outbox
      ensures showSelectedBorder == !old(showSelectedBorder)
      ensures model != null ==>
        model.actionableIds == Toggle(old(model.actionableIds), hierarchyID) && model.tree == old(model.tree)
      ensures manager.outbox == old(manager.outbox) +
        (if model != null && EditorHost(resolvContents).Some?
         then [MessageItem(model.tree.State(), model.actionableIds)]
         else [])
    {
      showSelectedBorder := !showSelectedBorder;
      if model == null {
        return;
      }
      if hierarchyID in model.actionableIds {
        model.actionableIds := model.actionableIds - {hierarchyID};
      } else {
        model.actionableIds := model.actionableIds + {hierarchyID};
      }
      var ip := NameServer.HostFromResolvConf(resolvContents);
      if ip.Some? {
        manager.SendData(MessageItem(model.tree.State(), model.actionableIds));
      }
    }

    /** `onAppear`: register this view below the parent it inherits; when
        resolv.conf names the editor's host and there is a data model, the
        tree and the selection are sent to it. */
    method OnAppear(model: DataModel?, inertiaParentID: Option<string>, isInertiaContainer: bool,
                    manager: WebSocketSharedManager, resolvContents: string)
      modifies if model != null then {model.tree} else {}, manager`outbox
      ensures model != null ==>
        model.tree.State() == WithRelationship(old(model.tree.State()), hierarchyID, inertiaParentID, isInertiaContainer)
      ensures manager.outbox == old(manager.outbox) +
        (if model != null && EditorHost(resolvContents).Some?
         then [MessageItem(model.tree.State(), model.actionableIds)]
         else [])
    {
      if model != null {
        model.tree.AddRelationship(hierarchyID, inertiaParentID, isInertiaContainer);
      }
      var ip := NameServer.HostFromResolvConf(resolvContents);
      if ip.Some? && model != null {
        manager.SendData(MessageItem(model.tree.State(), model.actionableIds));
      }
    }
  }
}

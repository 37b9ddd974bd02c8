/** The earlier editor screen (editor/EditorView.swift): its single-client
    server, the model of attached containers and animations, the join
    that prepares playback, the list of available animations and the
    conversions of a received tree for the view-hierarchy panel. */
module LegacyEditor {
  import opened Wrappers
  import opened Schema
  import opened EditorTypes
  import EditorTreeView

  // ---------------------------------------------------------------------
  // The embedded server

  /** The decoded `MessageItem`: a tree and the views selected in it. */
  datatype MessageItem = MessageItem(tree: STree, actionableIds: set<string>)

  /** What one `receiveMessage` callback delivers. */
  datatype Received = ReceiveError | NoData | Undecodable | Decoded(item: MessageItem)

  /** A `MessageItem2` sent on a connection. */
  datatype Sent = Sent(connection: nat, selectedIds: set<string>)

  class WebSocketServer {
    /** The one id every connection is stored under. */
    const clientId: nat
    var clients: map<nat, nat>
    var tree: Option<STree>
    var actionableIds: set<string>
    var outbox: seq<Sent>

    /** No connection is kept under another id than `clientId`. */
    predicate Valid()
      reads this
    {
      clients.Keys <= {clientId}
    }

    constructor (clientId: nat)
      ensures Valid() && this.clientId == clientId
      ensures clients == map[] && tree.None? && actionableIds == {} && outbox == []
    {
      this.clientId := clientId;
      clients := map[];
      tree := None;
      actionableIds := {};
      outbox := [];
    }

    /** `handleNewConnection`: the connection replaces whichever one was
        there. */
    method HandleNewConnection(connection: nat)
      requires Valid()
      modifies this`clients
      ensures Valid() && clients == map[clientId := connection]
    {
      clients := clients[clientId := connection];
    }

    /** The `receiveMessage` callback. An error drops the client; a decoded
        message replaces the tree and the selection; undecodable data
        changes nothing and, like an error, stops listening. */
    method ReceiveMessage(r: Received) returns (listening: bool)
      requires Valid()
      modifies this`clients, this`tree, this`actionableIds
      ensures Valid()
      ensures listening <==> r.NoData? || r.Decoded?
      ensures r.ReceiveError? ==> clients == map[] && tree == old(tree) && actionableIds == old(actionableIds)
      ensures r.Decoded? ==> clients == old(clients) && tree == Some(r.item.tree) &&
                             actionableIds == r.item.actionableIds
      ensures r.NoData? || r.Undecodable? ==>
                clients == old(clients) && tree == old(tree) && actionableIds == old(actionableIds)
    {
      match r
      case ReceiveError =>
        clients := clients - {clientId};
        return false;
      case NoData =>
        return true;
      case Undecodable =>
        return false;
      case Decoded(msg) =>
        tree := Some(msg.tree);
        actionableIds := msg.actionableIds;
        return true;
    }

    /** `sendSelectedIds`: sent on the stored connection, if any. */
    method SendSelectedIds(ids: set<string>)
      modifies this`outbox
      ensures outbox == old(outbox) + if clientId in clients then [Sent(clients[clientId], ids)] else []
    {
      if clientId !in clients {
        return;
      }
      outbox := outbox + [Sent(clients[clientId], ids)];
    }

    /** The panel writing the bound selection; the `onChange` observer sends
        the new set whenever it differs from the old one. */
    method SelectionChanged(newIds: set<string>)
      modifies this`actionableIds, this`outbox
      ensures actionableIds == newIds
      ensures outbox == old(outbox) +
                if newIds != old(actionableIds) && clientId in clients then [Sent(clients[clientId], newIds)] else []
    {
      var changed := newIds != actionableIds;
      actionableIds := newIds;
      if changed {
        SendSelectedIds(newIds);
      }
    }
  }

  /** The server never holds more than one connection. */
  lemma AtMostOneClient(clients: map<nat, nat>, clientId: nat)
    requires clients.Keys <= {clientId}
    ensures |clients| <= 1
  {
    if clients != map[] {
      assert clients.Keys == {clientId};
      assert |clients.Keys| == 1;
    }
  }

  // ---------------------------------------------------------------------
  // Attached animations and the playback join

  const BodyId := "body-vibe-id"

  datatype ContainerAssociater = ContainerAssociater(actionableIds: set<string>, containerId: string)

  datatype AnimationAssociater = AnimationAssociater(actionableIds: set<string>, containerId: string, animationId: string)

  /** One animation to play: a selected view, its container, the view that
      hosts the container and the animation. */
  datatype Animation = Animation(actionableId: string, containerId: string, containerActionableId: string,
                                 animationId: string)

  /** `Set.first`: some element, or none for the empty set. */
  ghost function First(s: set<string>): (r: Option<string>)
    ensures r.Some? <==> s != {}
    ensures r.Some? ==> r.value in s
  {
    if s == {} then None else var x :| x in s; Some(x)
  }

  /** `containers.first(where: { $0.containerId == containerId })`, as an
      index; the same search over animations is `KeyframeHandler.FirstIndex`. */
  function FirstContainer(cs: seq<ContainerAssociater>, containerId: string): (r: Option<nat>)
    ensures r.Some? ==> r.value < |cs| && cs[r.value].containerId == containerId &&
                        forall i :: 0 <= i < r.value ==> cs[i].containerId != containerId
    ensures r.None? ==> forall i :: 0 <= i < |cs| ==> cs[i].containerId != containerId
  {
    if cs == [] then None
    else if cs[0].containerId == containerId then Some(0)
    else match FirstContainer(cs[1..], containerId)
      case None => None
      case Some(j) => Some(j + 1)
  }

  /** The view hosting a container: some view of the first associater for
      it, or the page body when there is none or it has no views. */
  ghost function HostOf(cs: seq<ContainerAssociater>, containerId: string): string
  {
    match FirstContainer(cs, containerId)
    case Some(j) => First(cs[j].actionableIds).UnwrapOr(BodyId)
    case None => BodyId
  }

  /** The `relavantAnimations` set of `runInvokePlayback`: one animation
      per attached animation and selected view, hosted by its container's
      first associater. */
  ghost function Joined(cs: seq<ContainerAssociater>, animations: seq<AnimationAssociater>): (r: set<Animation>)
    ensures forall a :: a in r ==> (a.containerActionableId == HostOf(cs, a.containerId) &&
              exists e :: e in animations && a.actionableId in e.actionableIds &&
                          a.containerId == e.containerId && a.animationId == e.animationId)
    ensures forall e, x :: e in animations && x in e.actionableIds ==>
              Animation(x, e.containerId, HostOf(cs, e.containerId), e.animationId) in r
  {
    set e, x | e in animations && x in e.actionableIds :: Animation(x, e.containerId, HostOf(cs, e.containerId), e.animationId)
  }

  /** A host is a view of an associater for that container, or the body. */
  lemma HostIsAttached(cs: seq<ContainerAssociater>, containerId: string)
    ensures HostOf(cs, containerId) == BodyId ||
            exists i :: 0 <= i < |cs| && cs[i].containerId == containerId && HostOf(cs, containerId) in cs[i].actionableIds
  {
  }

  /** `animations.first(where: { $0.id == id })` over schemas; the same
      search over objects is `FirstObject`. */
  function FirstSchema(schemas: seq<InertiaSchema>, id: string): (r: Option<InertiaSchema>)
    ensures r.Some? ==> r.value in schemas && r.value.id == id
    ensures r.None? ==> forall i :: 0 <= i < |schemas| ==> schemas[i].id != id
  {
    if schemas == [] then None
    else if schemas[0].id == id then Some(schemas[0])
    else FirstSchema(schemas[1..], id)
  }

  /** Looking the found schema up again by its own id finds it again, so
      the wrapper's container is the schema itself. */
  lemma {:induction false} SecondLookupFindsSame(schemas: seq<InertiaSchema>, id: string)
    requires FirstSchema(schemas, id).Some?
    ensures FirstSchema(schemas, FirstSchema(schemas, id).value.id) == FirstSchema(schemas, id)
  {
    assert FirstSchema(schemas, id).value.id == id;
  }

  /** The wrappers sent to `invokePlayback`: an animation whose container
      names a schema is sent with that schema, addressed to the hosting
      view and the schema; the others are dropped. */
  ghost function PlaybackArgs(joined: set<Animation>, schemas: seq<InertiaSchema>): (r: set<SchemaWrapper>)
    ensures forall w :: w in r ==>
              w.container.containerId == w.schema.id && w.schema in schemas &&
              exists a :: a in joined && FirstSchema(schemas, a.containerId) == Some(w.schema) &&
                          w == SchemaWrapper(w.schema, a.actionableId, AnimationContainer(a.containerActionableId, w.schema.id), a.animationId)
    ensures forall a :: a in joined && FirstSchema(schemas, a.containerId).Some? ==>
              var s := FirstSchema(schemas, a.containerId).value;
              SchemaWrapper(s, a.actionableId, AnimationContainer(a.containerActionableId, s.id), a.animationId) in r
  {
    set a | a in joined && FirstSchema(schemas, a.containerId).Some? ::
      var s := FirstSchema(schemas, a.containerId).value;
      var container := FirstSchema(schemas, s.id).value;
      SchemaWrapper(s, a.actionableId, AnimationContainer(a.containerActionableId, container.id), a.animationId)
  }

  /** The objects of every schema, in schema order. */
  function AllObjects(schemas: seq<InertiaSchema>): (r: seq<Shape>)
    ensures forall o :: o in r <==> exists i :: 0 <= i < |schemas| && o in schemas[i].objects
  {
    if schemas == [] then []
    else
      var r := AllObjects(schemas[..|schemas| - 1]) + schemas[|schemas| - 1].objects;
      assert forall i :: 0 <= i < |schemas| - 1 ==> schemas[..|schemas| - 1][i] == schemas[i];
      r
  }

  /** `first(where: { $0.id == id })` over objects; the same search over
      schemas is `FirstSchema`. */
  function FirstObject(objects: seq<Shape>, id: string): (r: Option<Shape>)
    ensures r.Some? ==> r.value in objects && r.value.id == id
    ensures r.None? ==> forall i :: 0 <= i < |objects| ==> objects[i].id != id
  {
    if objects == [] then None
    else if objects[0].id == id then Some(objects[0])
    else FirstObject(objects[1..], id)
  }

  class EditorModel {
    var containers: seq<ContainerAssociater>
    var animations: seq<AnimationAssociater>

    constructor ()
      ensures containers == [] && animations == []
    {
      containers := [];
      animations := [];
    }

    /** The attach action: a schema id attaches the schema as a container
        to the selected views; an object id attaches the object's
        container to the body and the object as an animation to the
        selected views; any other id changes nothing. */
    method Attach(schemas: seq<InertiaSchema>, id: string, actionableIds: set<string>)
      modifies this
      ensures FirstSchema(schemas, id).Some? ==>
        containers == old(containers) + [ContainerAssociater(actionableIds, id)] && animations == old(animations)
      ensures FirstSchema(schemas, id).None? && FirstObject(AllObjects(schemas), id).Some? ==>
        var o := FirstObject(AllObjects(schemas), id).value;
        containers == old(containers) + [ContainerAssociater({BodyId}, o.containerId)] &&
        animations == old(animations) + [AnimationAssociater(actionableIds, o.containerId, id)]
      ensures FirstSchema(schemas, id).None? && FirstObject(AllObjects(schemas), id).None? ==>
        containers == old(containers) && animations == old(animations)
    {
      var container := FirstSchema(schemas, id);
      if container.Some? {
        containers := containers + [ContainerAssociater(actionableIds, container.value.id)];
        return;
      }
      var animation := FirstObject(AllObjects(schemas), id);
      if animation.Some? {
        containers := containers + [ContainerAssociater({BodyId}, animation.value.containerId)];
        animations := animations + [AnimationAssociater(actionableIds, animation.value.containerId, animation.value.id)];
      }
    }
  }

  /** After attaching an object, playback plays it on every selected view,
      inside the object's container; a container seen for the first time
      is hosted by the body. */
  lemma AttachedObjectPlays(cs: seq<ContainerAssociater>, animations: seq<AnimationAssociater>,
                            o: Shape, actionableIds: set<string>, x: string)
    requires x in actionableIds
    ensures var cs' := cs + [ContainerAssociater({BodyId}, o.containerId)];
      var as' := animations + [AnimationAssociater(actionableIds, o.containerId, o.id)];
      Animation(x, o.containerId, HostOf(cs', o.containerId), o.id) in Joined(cs', as') &&
      (FirstContainer(cs, o.containerId).None? ==> HostOf(cs', o.containerId) == BodyId)
  {
    var cs' := cs + [ContainerAssociater({BodyId}, o.containerId)];
    var as' := animations + [AnimationAssociater(actionableIds, o.containerId, o.id)];
    assert as'[|animations|] in as';
    if FirstContainer(cs, o.containerId).None? {
      assert cs'[|cs|].containerId == o.containerId;
      forall i | 0 <= i < |cs|
        ensures cs'[i].containerId != o.containerId
      {
        assert cs'[i] == cs[i];
      }
      assert FirstContainer(cs', o.containerId) == Some(|cs|);
      assert First({BodyId}) == Some(BodyId);
    }
  }

  // ---------------------------------------------------------------------
  // Available animations

  /** String order: lexicographic by character. */
  predicate LessEq(a: string, b: string)
  {
    a == [] || (b != [] && (a[0] < b[0] || (a[0] == b[0] && LessEq(a[1..], b[1..]))))
  }

  lemma {:induction false} LessEqTotal(a: string, b: string)
    ensures LessEq(a, b) || LessEq(b, a)
  {
    if a != [] && b != [] && a[0] == b[0] {
      LessEqTotal(a[1..], b[1..]);
    }
  }

  predicate Sorted(s: seq<string>)
  {
    forall i :: 0 < i < |s| ==> LessEq(s[i - 1], s[i])
  }

  /** Insertion into a sorted list. */
  function Insert(x: string, s: seq<string>): (r: seq<string>)
    requires Sorted(s)
    ensures Sorted(r) && multiset(r) == multiset(s) + multiset{x} && |r| == |s| + 1
    ensures r[0] == x || (s != [] && r[0] == s[0])
  {
    if s == [] then [x]
    else if LessEq(x, s[0]) then [x] + s
    else
      LessEqTotal(x, s[0]);
      var rest := Insert(x, s[1..]);
      assert s == [s[0]] + s[1..];
      [s[0]] + rest
  }

  /** `sorted()`: the same names in ascending order. */
  function Sort(s: seq<string>): (r: seq<string>)
    ensures Sorted(r) && multiset(r) == multiset(s)
  {
    if s == [] then []
    else
      assert s == s[..|s| - 1] + [s[|s| - 1]];
      Insert(s[|s| - 1], Sort(s[..|s| - 1]))
  }

  function ObjectIds(schema: InertiaSchema): (r: seq<string>)
    ensures |r| == |schema.objects| && forall i :: 0 <= i < |r| ==> r[i] == schema.objects[i].id
  {
    seq(|schema.objects|, i requires 0 <= i < |schema.objects| => schema.objects[i].id)
  }

  /** The map `animationsAvailableContents` builds, schema by schema. */
  function AvailableContents(schemas: seq<InertiaSchema>): map<string, seq<string>>
  {
    if schemas == [] then map[]
    else AvailableContents(schemas[..|schemas| - 1])[schemas[|schemas| - 1].id := Sort(ObjectIds(schemas[|schemas| - 1]))]
  }

  /** The position of the last schema with an id. */
  function LastIndex(schemas: seq<InertiaSchema>, id: string): (r: Option<nat>)
    ensures r.Some? ==> r.value < |schemas| && schemas[r.value].id == id &&
                        forall j :: r.value < j < |schemas| ==> schemas[j].id != id
    ensures r.None? ==> forall i :: 0 <= i < |schemas| ==> schemas[i].id != id
  {
    if schemas == [] then None
    else if schemas[|schemas| - 1].id == id then Some(|schemas| - 1)
    else LastIndex(schemas[..|schemas| - 1], id)
  }

  /** Exactly the schema ids are keys, and each entry holds the object ids
      of the last schema with that id, sorted. */
  lemma {:induction false} AvailableContentsLastWins(schemas: seq<InertiaSchema>, id: string)
    ensures id in AvailableContents(schemas) <==> LastIndex(schemas, id).Some?
    ensures id in AvailableContents(schemas) ==>
      AvailableContents(schemas)[id] == Sort(ObjectIds(schemas[LastIndex(schemas, id).value]))
  {
    if schemas != [] {
      var front := schemas[..|schemas| - 1];
      AvailableContentsLastWins(front, id);
      if schemas[|schemas| - 1].id != id && LastIndex(front, id).Some? {
        assert schemas[LastIndex(front, id).value] == front[LastIndex(front, id).value];
      }
    }
  }

  /** The entry of the last schema with an id is sorted and names the same
      objects as that schema, each as often. */
  lemma AvailableContentsSorted(schemas: seq<InertiaSchema>, i: nat)
    requires i < |schemas| && forall j :: i < j < |schemas| ==> schemas[j].id != schemas[i].id
    ensures schemas[i].id in AvailableContents(schemas)
    ensures Sorted(AvailableContents(schemas)[schemas[i].id])
    ensures multiset(AvailableContents(schemas)[schemas[i].id]) == multiset(ObjectIds(schemas[i]))
  {
    var id := schemas[i].id;
    AvailableContentsLastWins(schemas, id);
    var k := LastIndex(schemas, id).value;
    assert !(k < i);
    assert !(k > i);
  }

  /** `animationsAvailableContents`. */
  method AnimationsAvailableContents(animations: seq<InertiaSchema>) returns (m: map<string, seq<string>>)
    ensures m == AvailableContents(animations)
  {
    m := map[];
    for i := 0 to |animations|
      invariant m == AvailableContents(animations[..i])
    {
      assert animations[..i + 1][..i] == animations[..i];
      m := m[animations[i].id := Sort(ObjectIds(animations[i]))];
    }
    assert animations[..|animations|] == animations;
  }

  // ---------------------------------------------------------------------
  // Trees for the view-hierarchy panel

  /** `convertNodeToTreeItem`: children converted once, an empty list
      becoming nil. */
  function ConvertNodeToTreeItem(n: SNode): (r: TreeItem)
    ensures ItemShape(r) == NodeShape(n) && Named(r) && Compact(r)
    ensures r.id == n.id && (r.children.Nil? <==> n.children.OrEmpty() == [])
  {
    var cs := n.children.OrEmpty();
    var children := seq(|cs|, i requires 0 <= i < |cs| => ConvertNodeToTreeItem(cs[i]));
    var r := TreeItem(n.id, n.id, if children == [] then Nil else List(children));
    assert forall i :: 0 <= i < |cs| ==> ItemShape(children[i]) == NodeShape(cs[i]);
    assert ItemShape(r).children == NodeShape(n).children;
    r
  }

  /** Both editors show the same item for a node. */
  lemma {:induction false} ConvertNodeAgrees(n: SNode)
    ensures ConvertNodeToTreeItem(n) == EditorTreeView.ItemOfNode(n)
    decreases n
  {
    var cs := n.children.OrEmpty();
    forall i | 0 <= i < |cs|
      ensures ConvertNodeToTreeItem(cs[i]) == EditorTreeView.ItemOfNode(cs[i])
    {
      ConvertNodeAgrees(cs[i]);
    }
    if cs != [] {
      EditorTreeView.ItemOfNodeConvertsOnce(n);
    }
  }

  /** `convertTreeToTreeItem`: nothing without a root. */
  function ConvertTreeToTreeItem(tree: STree): (r: Option<TreeItem>)
    ensures r.None? <==> tree.rootNode.None?
    ensures r.Some? ==> ItemShape(r.value) == NodeShape(tree.rootNode.value) && Named(r.value) && Compact(r.value)
  {
    match tree.rootNode
    case None => None
    case Some(root) => Some(ConvertNodeToTreeItem(root))
  }

  /** The loop of `transformTreeToTreeItems` with the children list
      starting nil (as written) or empty (`startEmpty`). An append through
      optional chaining, argument included, runs only on a non-nil list. */
  method TransformFrom(node: SNode, startEmpty: bool) returns (item: TreeItem)
    ensures item.id == node.id && item.displayName == node.id
    ensures !startEmpty ==> item.children == Nil
    ensures startEmpty ==> item.children.List? && ItemShape(item) == NodeShape(node) && Named(item)
    decreases node
  {
    var childrenOut: ItemList := if startEmpty then List([]) else Nil;
    var cs := node.children.OrEmpty();
    for i := 0 to |cs|
      invariant !startEmpty ==> childrenOut == Nil
      invariant startEmpty ==> (childrenOut.List? && |childrenOut.items| == i &&
        forall j :: 0 <= j < i ==> ItemShape(childrenOut.items[j]) == NodeShape(cs[j]) && Named(childrenOut.items[j]))
    {
      if childrenOut.List? {
        var child := TransformFrom(cs[i], startEmpty);
        childrenOut := List(childrenOut.items + [child]);
      }
    }
    item := TreeItem(node.id, node.id, childrenOut);
    if startEmpty {
      assert ItemShape(item).children == NodeShape(node).children;
    }
  }

  /** `transformTreeToTreeItems` as written: the list is nil and stays nil,
      so every node becomes a leaf. */
  method TransformTreeToTreeItems(node: SNode) returns (item: TreeItem)
    ensures item == TreeItem(node.id, node.id, Nil)
  {
    item := TransformFrom(node, false);
  }

  /** `transformTreeToTreeItems` with the list starting empty: the ordered
      id tree is kept. */
  method TransformTreeToTreeItemsFromEmpty(node: SNode) returns (item: TreeItem)
    ensures item.id == node.id && ItemShape(item) == NodeShape(node) && Named(item)
  {
    item := TransformFrom(node, true);
  }

  /** A node with a child loses it in the written transform, and keeps it
      in the conversion the panel uses. */
  lemma TransformLosesChildren(n: SNode)
    requires n.children.OrEmpty() != []
    ensures ItemShape(TreeItem(n.id, n.id, Nil)) != NodeShape(n)
    ensures ItemShape(ConvertNodeToTreeItem(n)) == NodeShape(n)
  {
    assert |NodeShape(n).children| == |n.children.nodes|;
  }
}

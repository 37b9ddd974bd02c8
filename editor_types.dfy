/** Values the macOS editor works with: the trees the SwiftUI runtime
    sends (decoded `Node`/`Tree`), the actionable id pairs, the wrappers it
    sends back, and the items its view-hierarchy panel shows. */
module EditorTypes {
  import opened Wrappers
  import opened Schema

  /** A decoded `Node`. Its `children` key is optional when decoding, so
      the list may be absent. */
  datatype SNode = SNode(id: string, parentId: Option<string>, children: NodeList)

  datatype NodeList = Absent | Present(nodes: seq<SNode>)
  {
    function OrEmpty(): seq<SNode>
    {
      if Absent? then [] else nodes
    }
  }

  /** A decoded `Tree`: its id, its node entries and its optional root. */
  datatype STree = STree(id: string, nodeMap: map<string, SNode>, rootNode: Option<SNode>)

  /** A selected view: the prefix its id was built from and the id itself. */
  datatype ActionableIdPair = ActionableIdPair(hierarchyIdPrefix: string, hierarchyId: string)

  /** The wrapper the editor sends: an animation schema addressed to a
      container. */
  datatype AnimationWrapper = AnimationWrapper(
    schema: AnimationSchema, actionableId: string, container: AnimationContainer, animationId: string)

  /** An item of the view-hierarchy panel; `children` is optional. */
  datatype TreeItem = TreeItem(id: string, displayName: string, children: ItemList)

  datatype ItemList = Nil | List(items: seq<TreeItem>)
  {
    function OrEmpty(): seq<TreeItem>
    {
      if Nil? then [] else items
    }
  }

  /** Concatenation of a sequence of id lists. */
  function Flatten(ss: seq<seq<string>>): (r: seq<string>)
    ensures forall x :: x in r <==> exists i :: 0 <= i < |ss| && x in ss[i]
  {
    if ss == [] then []
    else
      var r := Flatten(ss[..|ss| - 1]) + ss[|ss| - 1];
      assert forall i :: 0 <= i < |ss| - 1 ==> ss[..|ss| - 1][i] == ss[i];
      r
  }

  /** Every id below and including `n`, in pre-order: the node first, then
      each child's ids in child order. */
  function PreOrder(n: SNode): (r: seq<string>)
    ensures |r| > 0 && r[0] == n.id
  {
    match n.children
    case Absent => [n.id]
    case Present(cs) => [n.id] + Flatten(seq(|cs|, i requires 0 <= i < |cs| => PreOrder(cs[i])))
  }

  /** `n` holds a node with id `x`, itself or one of its descendants. */
  predicate Holds(n: SNode, x: string)
  {
    match n.children
    case Absent => x == n.id
    case Present(cs) => x == n.id || exists i :: 0 <= i < |cs| && Holds(cs[i], x)
  }

  /** The pre-order list names exactly the nodes of the subtree. */
  lemma {:induction false} PreOrderNamesSubtree(n: SNode, x: string)
    ensures x in PreOrder(n) <==> Holds(n, x)
    decreases n
  {
    match n.children
    case Absent =>
    case Present(cs) =>
      var ss := seq(|cs|, i requires 0 <= i < |cs| => PreOrder(cs[i]));
      assert PreOrder(n) == [n.id] + Flatten(ss);
      forall i | 0 <= i < |cs|
        ensures x in ss[i] <==> Holds(cs[i], x)
      {
        PreOrderNamesSubtree(cs[i], x);
      }
  }

  /** The ids of a tree: its root's subtree, or none without a root. */
  function TreeIds(t: STree): (r: set<string>)
    ensures t.rootNode.None? ==> r == {}
    ensures t.rootNode.Some? ==> t.rootNode.value.id in r
  {
    if t.rootNode.None? then {} else set x | x in PreOrder(t.rootNode.value)
  }

  /** The ordered tree of ids below and including a node or an item. */
  datatype IdTree = IdTree(id: string, children: seq<IdTree>)

  function NodeShape(n: SNode): IdTree
  {
    match n.children
    case Absent => IdTree(n.id, [])
    case Present(cs) => IdTree(n.id, seq(|cs|, i requires 0 <= i < |cs| => NodeShape(cs[i])))
  }

  function ItemShape(t: TreeItem): IdTree
  {
    match t.children
    case Nil => IdTree(t.id, [])
    case List(cs) => IdTree(t.id, seq(|cs|, i requires 0 <= i < |cs| => ItemShape(cs[i])))
  }

  /** Every item below and including `t` shows its id as its name. */
  predicate Named(t: TreeItem)
  {
    t.displayName == t.id &&
    match t.children
    case Nil => true
    case List(cs) => forall i :: 0 <= i < |cs| ==> Named(cs[i])
  }

  /** No item below and including `t` has an empty child list. */
  predicate Compact(t: TreeItem)
  {
    match t.children
    case Nil => true
    case List(cs) => cs != [] && forall i :: 0 <= i < |cs| ==> Compact(cs[i])
  }
}

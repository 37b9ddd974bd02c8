/** The Swift runtime's view-hierarchy tree (Inertia.swift): nodes keyed by
    hierarchy id, each with the parent id it records, a weak `parent` link
    and its `children`. A node is identified with its key in `nodeMap`, so
    `parent`, `children` and `rootNode` name nodes by id. */
module InertiaTree {
  import opened Wrappers

  datatype Node = Node(parentId: Option<string>, parent: Option<string>, children: seq<string>)

  datatype TreeState = TreeState(nodeMap: map<string, Node>, rootNode: Option<string>)

  /** `Node(id:parentId:)`: no parent link and no children yet. */
  function NewNode(parentId: Option<string>): Node
  {
    Node(parentId, None, [])
  }

  function ChildrenOf(m: map<string, Node>, k: string): seq<string>
  {
    if k in m then m[k].children else []
  }

  function ParentLinkOf(m: map<string, Node>, k: string): Option<string>
  {
    if k in m then m[k].parent else None
  }

  /** Every child id has a node. */
  ghost predicate ChildrenClosed(m: map<string, Node>)
  {
    forall k, i :: k in m && 0 <= i < |m[k].children| ==> m[k].children[i] in m
  }

  /** A node's recorded parent exists and lists it among its children. */
  ghost predicate ParentsListed(m: map<string, Node>)
  {
    forall k :: k in m && m[k].parentId.Some? ==>
      m[k].parentId.value in m && k in m[m[k].parentId.value].children
  }

  /** A parent link, once made, names the recorded parent. */
  ghost predicate LinksMatch(m: map<string, Node>)
  {
    forall k :: k in m && m[k].parent.Some? ==> m[k].parent == m[k].parentId
  }

  /** The invariant every tree the runtime builds satisfies. */
  ghost predicate Wf(t: TreeState)
  {
    ChildrenClosed(t.nodeMap) && ParentsListed(t.nodeMap) && LinksMatch(t.nodeMap) &&
    (t.rootNode.Some? ==> t.rootNode.value in t.nodeMap)
  }

  /** `Node.addChild`: the child's `parent` and `parentId` become the
      parent, and the child is appended to the parent's `children` (with no
      check for an earlier copy). */
  function WithChild(m: map<string, Node>, parent: string, child: string): (r: map<string, Node>)
    requires parent in m && child in m
    ensures r.Keys == m.Keys
    ensures r[child].parent == Some(parent) && r[child].parentId == Some(parent)
    ensures r[parent].children == m[parent].children + [child]
    ensures child != parent ==> r[child].children == m[child].children
    ensures child != parent ==> r[parent].parent == m[parent].parent && r[parent].parentId == m[parent].parentId
    ensures forall k :: k in m && k != parent && k != child ==> r[k] == m[k]
  {
    var m1 := m[child := m[child].(parent := Some(parent), parentId := Some(parent))];
    m1[parent := m1[parent].(children := m1[parent].children + [child])]
  }

  /** `Tree.addRelationship(id:parentId:parentIsContainer:)`. */
  function WithRelationship(t: TreeState, id: string, parentId: Option<string>, parentIsContainer: bool): (r: TreeState)
    // nodes are only ever added, and a node is created only when missing
    ensures r.nodeMap.Keys == t.nodeMap.Keys + {id} + (if parentId.Some? then {parentId.value} else {})
    ensures forall k :: k in t.nodeMap && k != id && Some(k) != parentId ==> r.nodeMap[k] == t.nodeMap[k]
    // without a parent nothing but the current node's existence changes
    ensures parentId.None? ==> r.rootNode == t.rootNode
    ensures parentId.None? && id in t.nodeMap ==> r == t
    ensures parentId.None? && id !in t.nodeMap ==> r.nodeMap[id] == NewNode(None)
    // with a parent, the current node is (re)linked below it and appended to its children
    ensures parentId.Some? ==>
      var p := parentId.value;
      r.nodeMap[p].children == ChildrenOf(t.nodeMap, p) + [id] &&
      r.nodeMap[id].parent == Some(p) && r.nodeMap[id].parentId == Some(p) &&
      (id != p ==> r.nodeMap[id].children == ChildrenOf(t.nodeMap, id)) &&
      (id != p ==> r.nodeMap[p].parent == ParentLinkOf(t.nodeMap, p))
    // the root rule: a container parent always becomes the root; any other
    // parent only when there is no root yet and the parent, after the link
    // was made, has no parent of its own
    ensures parentId.Some? ==>
      var p := parentId.value;
      r.rootNode == if parentIsContainer || (t.rootNode.None? && id != p && ParentLinkOf(t.nodeMap, p).None?)
                    then Some(p) else t.rootNode
  {
    var m0 := if id in t.nodeMap then t.nodeMap else t.nodeMap[id := NewNode(parentId)];
    if parentId.None? then TreeState(m0, t.rootNode)
    else
      var p := parentId.value;
      var m1 := if p in m0 then m0 else m0[p := NewNode(None)];
      var m2 := WithChild(m1, p, id);
      if parentIsContainer then TreeState(m2, Some(p))
      else if t.rootNode.None? && m2[p].parent.None? then TreeState(m2, Some(p))
      else TreeState(m2, t.rootNode)
  }

  lemma AddRelationshipKeepsWf(t: TreeState, id: string, parentId: Option<string>, parentIsContainer: bool)
    requires Wf(t)
    ensures Wf(WithRelationship(t, id, parentId, parentIsContainer))
  {
    if parentId.Some? {
      var r := WithRelationship(t, id, parentId, parentIsContainer);
      ChildrenStayClosed(t, id, parentId.value, parentIsContainer);
      ParentsStayListed(t, id, parentId.value, parentIsContainer);
      LinksStayMatched(t, id, parentId.value, parentIsContainer);
    }
  }

  lemma LinksStayMatched(t: TreeState, id: string, p: string, parentIsContainer: bool)
    requires LinksMatch(t.nodeMap)
    ensures LinksMatch(WithRelationship(t, id, Some(p), parentIsContainer).nodeMap)
  {
    var m := t.nodeMap;
    var m0 := if id in m then m else m[id := NewNode(Some(p))];
    var m1 := if p in m0 then m0 else m0[p := NewNode(None)];
    var r := WithRelationship(t, id, Some(p), parentIsContainer).nodeMap;
    assert r == WithChild(m1, p, id);
    forall k | k in r && r[k].parent.Some?
      ensures r[k].parent == r[k].parentId
    {
      if k != id {
        assert r[k].parent == m1[k].parent && r[k].parentId == m1[k].parentId;
      }
    }
  }

  lemma ChildrenStayClosed(t: TreeState, id: string, p: string, parentIsContainer: bool)
    requires ChildrenClosed(t.nodeMap)
    ensures ChildrenClosed(WithRelationship(t, id, Some(p), parentIsContainer).nodeMap)
  {
    var r := WithRelationship(t, id, Some(p), parentIsContainer).nodeMap;
    forall k, i | k in r && 0 <= i < |r[k].children|
      ensures r[k].children[i] in r
    {
      if k == p {
        var cs := ChildrenOf(t.nodeMap, p);
        if i < |cs| {
          assert r[k].children[i] == cs[i];
        }
      } else if k in t.nodeMap {
        assert r[k].children == t.nodeMap[k].children;
      }
    }
  }

  lemma ParentsStayListed(t: TreeState, id: string, p: string, parentIsContainer: bool)
    requires ParentsListed(t.nodeMap)
    ensures ParentsListed(WithRelationship(t, id, Some(p), parentIsContainer).nodeMap)
  {
    var m := t.nodeMap;
    var r := WithRelationship(t, id, Some(p), parentIsContainer).nodeMap;
    assert ChildrenOf(m, p) <= r[p].children;
    forall k | k in r && r[k].parentId.Some?
      ensures r[k].parentId.value in r && k in r[r[k].parentId.value].children
    {
      if k == id {
        assert r[p].children[|r[p].children| - 1] == id;
      } else {
        var q := m[k].parentId.value;
        assert r[k].parentId == m[k].parentId;
        assert k in m[q].children;
        if q == p {
          assert m[q].children == ChildrenOf(m, p);
        } else if q == id {
          assert r[q].children == m[q].children;
        } else {
          assert r[q] == m[q];
        }
      }
    }
  }

  /** A rank that strictly drops from every node to each of its children.
      One exists exactly when following children never leads back to a
      node; the encoders, which recurse through the child objects, end only
      on such trees. */
  ghost predicate Ranked(m: map<string, Node>, rank: map<string, nat>)
  {
    m.Keys <= rank.Keys && ChildrenClosed(m) &&
    forall k, i :: k in m && 0 <= i < |m[k].children| ==> rank[m[k].children[i]] < rank[k]
  }

  /** Registering a fresh id keeps the tree acyclic: every old node moves
      one rank up, the new node sits at rank 0 and a new parent at rank 1. */
  lemma FreshChildKeepsRanked(t: TreeState, id: string, parentId: Option<string>,
                              parentIsContainer: bool, rank: map<string, nat>)
    requires Ranked(t.nodeMap, rank) && id !in t.nodeMap && parentId != Some(id)
    ensures Ranked(WithRelationship(t, id, parentId, parentIsContainer).nodeMap, Raised(t.nodeMap, rank, id, parentId))
  {
    var r := WithRelationship(t, id, parentId, parentIsContainer).nodeMap;
    var rank2 := Raised(t.nodeMap, rank, id, parentId);
    if parentId.Some? {
      var p := parentId.value;
      ChildrenStayClosed(t, id, p, parentIsContainer);
      forall k, i | k in r && 0 <= i < |r[k].children|
        ensures rank2[r[k].children[i]] < rank2[k]
      {
        RaisedStep(t, id, p, parentIsContainer, rank, k, i);
      }
    }
  }

  /** One child of the grown tree ranks below its parent. */
  lemma RaisedStep(t: TreeState, id: string, p: string, parentIsContainer: bool,
                   rank: map<string, nat>, k: string, i: int)
    requires Ranked(t.nodeMap, rank) && id !in t.nodeMap && p != id
    requires var r := WithRelationship(t, id, Some(p), parentIsContainer).nodeMap;
             k in r && 0 <= i < |r[k].children|
    ensures var r := WithRelationship(t, id, Some(p), parentIsContainer).nodeMap;
            var rank2 := Raised(t.nodeMap, rank, id, Some(p));
            r[k].children[i] in rank2 && k in rank2 && rank2[r[k].children[i]] < rank2[k]
  {
    var m := t.nodeMap;
    var r := WithRelationship(t, id, Some(p), parentIsContainer).nodeMap;
    var c := r[k].children[i];
    if k == p {
      var cs := ChildrenOf(m, p);
      if i < |cs| {
        assert c == cs[i] && p in m;
        assert c in m && c != id;
      } else {
        assert c == id;
      }
    } else {
      assert k != id;
      assert r[k] == m[k];
      assert c == m[k].children[i];
      assert c in m && c != id;
    }
  }

  /** The rank `FreshChildKeepsRanked` gives the grown tree. */
  function Raised(m: map<string, Node>, rank: map<string, nat>, id: string, parentId: Option<string>): (r: map<string, nat>)
    requires m.Keys <= rank.Keys
    ensures r.Keys == m.Keys + {id} + (if parentId.Some? then {parentId.value} else {})
    ensures r[id] == 0 && forall k :: k in m && k != id ==> r[k] == rank[k] + 1
    ensures parentId.Some? && parentId.value !in m && parentId.value != id ==> r[parentId.value] == 1
  {
    map k | k in m.Keys + {id} + (if parentId.Some? then {parentId.value} else {}) ::
      if k == id then 0 else if k in m then rank[k] + 1 else 1
  }

  /** `addRelationship(x, x)` lists `x` among its own children, so the tree
      has no rank and encoding it never ends. */
  lemma SelfParentHasNoRank(t: TreeState, x: string, parentIsContainer: bool, rank: map<string, nat>)
    ensures !Ranked(WithRelationship(t, x, Some(x), parentIsContainer).nodeMap, rank)
  {
    var cs := WithRelationship(t, x, Some(x), parentIsContainer).nodeMap[x].children;
    assert cs[|cs| - 1] == x;
  }

  /** `Node.link` with the node's `tree` set: the parent link becomes the
      map's entry for the recorded parent id, or nil when that id has no
      entry; a node without a parent id keeps its link. */
  function LinkNode(keys: set<string>, n: Node): Node
  {
    if n.parentId.None? then n
    else n.(parent := if n.parentId.value in keys then n.parentId else None)
  }

  /** Every node of the map linked, as the runtime does after each change. */
  function Linked(t: TreeState): (r: TreeState)
    ensures r.nodeMap.Keys == t.nodeMap.Keys && r.rootNode == t.rootNode
  {
    TreeState(map k | k in t.nodeMap :: LinkNode(t.nodeMap.Keys, t.nodeMap[k]), t.rootNode)
  }

  /** On a well-formed tree, linking keeps it well formed, leaves ids and
      children alone, and makes every node's parent link name exactly the
      parent id it records. */
  lemma LinkedWf(t: TreeState)
    requires Wf(t)
    ensures Wf(Linked(t))
    ensures forall k :: k in t.nodeMap ==>
      Linked(t).nodeMap[k].parent == t.nodeMap[k].parentId &&
      Linked(t).nodeMap[k].parentId == t.nodeMap[k].parentId &&
      Linked(t).nodeMap[k].children == t.nodeMap[k].children
  {
  }

  /** A repeated call appends the child a second time. */
  lemma RepeatedRelationshipAppendsTwice(t: TreeState, id: string, p: string, parentIsContainer: bool)
    ensures var r := WithRelationship(WithRelationship(t, id, Some(p), parentIsContainer), id, Some(p), parentIsContainer);
            r.nodeMap[p].children == ChildrenOf(t.nodeMap, p) + [id, id]
  {
    var r1 := WithRelationship(t, id, Some(p), parentIsContainer);
    assert ChildrenOf(r1.nodeMap, p) == ChildrenOf(t.nodeMap, p) + [id];
  }

  class Tree {
    const id: string
    var nodeMap: map<string, Node>
    var rootNode: Option<string>

    function State(): TreeState
      reads this
    {
      TreeState(nodeMap, rootNode)
    }

    constructor (id: string)
      ensures this.id == id && State() == TreeState(map[], None)
    {
      this.id := id;
      nodeMap := map[];
      rootNode := None;
    }

    method AddChild(parent: string, child: string)
      requires parent in nodeMap && child in nodeMap
      modifies this
      ensures nodeMap == WithChild(old(nodeMap), parent, child)
      ensures rootNode == old(rootNode)
    {
      var c := nodeMap[child];
      nodeMap := nodeMap[child := c.(parent := Some(parent), parentId := Some(parent))];
      var p := nodeMap[parent];
      nodeMap := nodeMap[parent := p.(children := p.children + [child])];
    }

    method AddRelationship(id: string, parentId: Option<string>, parentIsContainer: bool)
      modifies this
      ensures State() == WithRelationship(old(State()), id, parentId, parentIsContainer)
    {
      if id !in nodeMap {
        nodeMap := nodeMap[id := NewNode(parentId)];
      }
      if parentId.Some? {
        var p := parentId.value;
        if p !in nodeMap {
          nodeMap := nodeMap[p := NewNode(None)];
        }
        if parentIsContainer {
          AddChild(p, id);
          rootNode := Some(p);
        } else {
          AddChild(p, id);
          if rootNode.None? && nodeMap[p].parent.None? {
            rootNode := Some(p);
          }
        }
      }
    }

    /** The loop the runtime runs after every change: link each node. */
    method LinkAll()
      modifies this
      ensures State() == Linked(old(State()))
    {
      var keys := nodeMap.Keys;
      var pending := keys;
      ghost var m0 := nodeMap;
      while pending != {}
        invariant pending <= keys && nodeMap.Keys == keys && rootNode == old(rootNode)
        invariant forall k :: k in keys ==>
          nodeMap[k] == if k in pending then m0[k] else LinkNode(keys, m0[k])
        decreases pending
      {
        var k :| k in pending;
        nodeMap := nodeMap[k := LinkNode(nodeMap.Keys, nodeMap[k])];
        pending := pending - {k};
      }
    }
  }
}

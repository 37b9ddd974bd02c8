/** The Compose runtime's tree (MainActivity.kt): the builder, whose
    `addChild` keeps one copy of each child, and the `toDTO`/`fromDTO`
    serialisers. The live tree the builder grows is modelled by id on the
    Swift runtime's node records; the trees `fromDTO` rebuilds hold their
    own nested copies of every node, so they are modelled as nested
    values. */
module ComposeTree {
  import opened Wrappers
  import opened InertiaTree

  // ---------------------------------------------------------------------
  // The builder

  /** `Node.addChild`: the child's `parent` and `parentId` become the
      parent; the child is appended only when the parent has no child with
      its id yet. */
  function WithChildOnce(m: map<string, Node>, parent: string, child: string): (r: map<string, Node>)
    requires parent in m && child in m
    ensures r.Keys == m.Keys
    ensures r[child].parent == Some(parent) && r[child].parentId == Some(parent)
    ensures r[parent].children ==
            if child in m[parent].children then m[parent].children else m[parent].children + [child]
    ensures child != parent ==> r[child].children == m[child].children
    ensures child != parent ==> r[parent].parent == m[parent].parent && r[parent].parentId == m[parent].parentId
    ensures forall k :: k in m && k != parent && k != child ==> r[k] == m[k]
  {
    var m1 := m[child := m[child].(parent := Some(parent), parentId := Some(parent))];
    if child in m[parent].children then m1
    else m1[parent := m1[parent].(children := m1[parent].children + [child])]
  }

  /** `Tree.addRelationship(id, parentId, parentIsContainer)`. */
  function WithRelationshipOnce(t: TreeState, id: string, parentId: Option<string>, parentIsContainer: bool): (r: TreeState)
    ensures r.nodeMap.Keys == t.nodeMap.Keys + {id} + (if parentId.Some? then {parentId.value} else {})
    ensures forall k :: k in t.nodeMap && k != id && Some(k) != parentId ==> r.nodeMap[k] == t.nodeMap[k]
    ensures parentId.None? ==> r.rootNode == t.rootNode
    ensures parentId.None? && id in t.nodeMap ==> r == t
    ensures parentId.None? && id !in t.nodeMap ==> r.nodeMap[id] == NewNode(None)
    ensures parentId.Some? ==>
      var p := parentId.value;
      r.nodeMap[p].children ==
        (if id in ChildrenOf(t.nodeMap, p) then ChildrenOf(t.nodeMap, p) else ChildrenOf(t.nodeMap, p) + [id]) &&
      r.nodeMap[id].parent == Some(p) && r.nodeMap[id].parentId == Some(p) &&
      (id != p ==> r.nodeMap[id].children == ChildrenOf(t.nodeMap, id)) &&
      (id != p ==> r.nodeMap[p].parent == ParentLinkOf(t.nodeMap, p))
    ensures parentId.Some? ==>
      var p := parentId.value;
      r.rootNode == if parentIsContainer || (t.rootNode.None? && id != p && ParentLinkOf(t.nodeMap, p).None?)
                    then Some(p) else t.rootNode
  {
    var m0 := if id in t.nodeMap then t.nodeMap else t.nodeMap[id := NewNode(parentId)];
    if parentId.None? then TreeState(m0, t.rootNode)
    else
      var p := parentId.value;
      var m1 := if p in m0 then m0 else m0[p := NewNode(None)];
      var m2 := WithChildOnce(m1, p, id);
      if parentIsContainer || (t.rootNode.None? && m2[p].parent.None?) then TreeState(m2, Some(p))
      else TreeState(m2, t.rootNode)
  }

  /** No child list holds the same id twice. */
  ghost predicate ChildrenDistinct(m: map<string, Node>)
  {
    forall k :: k in m ==> NoRepeats(m[k].children)
  }

  /** No id occurs twice. */
  ghost predicate NoRepeats(ids: seq<string>)
  {
    forall i, j :: 0 <= i < j < |ids| ==> ids[i] != ids[j]
  }

  /** A call that adds a new child agrees with the Swift builder. */
  lemma FirstCallAgreesWithSwift(t: TreeState, id: string, p: string, parentIsContainer: bool)
    requires id !in ChildrenOf(t.nodeMap, p)
    ensures WithRelationshipOnce(t, id, Some(p), parentIsContainer) ==
            InertiaTree.WithRelationship(t, id, Some(p), parentIsContainer)
  {
    var a := WithRelationshipOnce(t, id, Some(p), parentIsContainer);
    var b := InertiaTree.WithRelationship(t, id, Some(p), parentIsContainer);
    assert a.nodeMap.Keys == b.nodeMap.Keys;
    forall k | k in a.nodeMap
      ensures a.nodeMap[k] == b.nodeMap[k]
    {
    }
  }

  /** The builder keeps the tree well formed and its child lists free of
      repeats. */
  lemma AddRelationshipKeepsInvariants(t: TreeState, id: string, parentId: Option<string>, parentIsContainer: bool)
    requires Wf(t) && ChildrenDistinct(t.nodeMap)
    ensures var r := WithRelationshipOnce(t, id, parentId, parentIsContainer);
            Wf(r) && ChildrenDistinct(r.nodeMap)
  {
    if parentId.Some? {
      var p := parentId.value;
      if id !in ChildrenOf(t.nodeMap, p) {
        FirstChildKeepsInvariants(t, id, p, parentIsContainer);
      } else {
        RepeatedChildKeepsInvariants(t, id, p, parentIsContainer);
      }
    }
  }

  lemma FirstChildKeepsInvariants(t: TreeState, id: string, p: string, parentIsContainer: bool)
    requires Wf(t) && ChildrenDistinct(t.nodeMap) && id !in ChildrenOf(t.nodeMap, p)
    ensures var r := WithRelationshipOnce(t, id, Some(p), parentIsContainer);
            Wf(r) && ChildrenDistinct(r.nodeMap)
  {
    var r := WithRelationshipOnce(t, id, Some(p), parentIsContainer);
    FirstCallAgreesWithSwift(t, id, p, parentIsContainer);
    InertiaTree.AddRelationshipKeepsWf(t, id, Some(p), parentIsContainer);
    var cs := ChildrenOf(t.nodeMap, p);
    assert r.nodeMap[p].children == cs + [id];
    forall k | k in r.nodeMap
      ensures NoRepeats(r.nodeMap[k].children)
    {
      if k == p {
        assert NoRepeats(cs);
      } else if k == id {
        assert r.nodeMap[k].children == ChildrenOf(t.nodeMap, id);
      } else {
        assert k in t.nodeMap && r.nodeMap[k] == t.nodeMap[k];
      }
    }
  }

  lemma RepeatedChildKeepsInvariants(t: TreeState, id: string, p: string, parentIsContainer: bool)
    requires Wf(t) && ChildrenDistinct(t.nodeMap) && id in ChildrenOf(t.nodeMap, p)
    ensures var r := WithRelationshipOnce(t, id, Some(p), parentIsContainer);
            Wf(r) && ChildrenDistinct(r.nodeMap)
  {
    var r := WithRelationshipOnce(t, id, Some(p), parentIsContainer);
    assert p in t.nodeMap && id in t.nodeMap;
    forall k | k in r.nodeMap
      ensures r.nodeMap[k].children == t.nodeMap[k].children
    {
    }
    forall k | k in r.nodeMap && r.nodeMap[k].parentId.Some?
      ensures r.nodeMap[k].parentId.value in r.nodeMap && k in r.nodeMap[r.nodeMap[k].parentId.value].children
    {
      if k != id {
        assert r.nodeMap[k].parentId == t.nodeMap[k].parentId;
      }
    }
  }

  /** Repeating a call changes nothing more: the child is not added twice. */
  lemma RepeatedRelationshipIsIdempotent(t: TreeState, id: string, parentId: Option<string>, parentIsContainer: bool)
    ensures var r := WithRelationshipOnce(t, id, parentId, parentIsContainer);
            WithRelationshipOnce(r, id, parentId, parentIsContainer) == r
  {
    var r := WithRelationshipOnce(t, id, parentId, parentIsContainer);
    var r2 := WithRelationshipOnce(r, id, parentId, parentIsContainer);
    if parentId.Some? {
      var p := parentId.value;
      assert id in ChildrenOf(r.nodeMap, p);
      assert r2.nodeMap.Keys == r.nodeMap.Keys;
      forall k | k in r.nodeMap
        ensures r2.nodeMap[k] == r.nodeMap[k]
      {
      }
    }
  }

  /** The live tree of the Compose runtime. */
  class Tree {
    const id: string
    var nodeMap: map<string, Node>
    var rootNode: Option<string>

    function State(): TreeState
      reads this
    {
      TreeState(nodeMap, rootNode)
    }

    constructor (id: string)
      ensures this.id == id && State() == TreeState(map[], None)
    {
      this.id := id;
      nodeMap := map[];
      rootNode := None;
    }

    method AddChild(parent: string, child: string)
      requires parent in nodeMap && child in nodeMap
      modifies this
      ensures nodeMap == WithChildOnce(old(nodeMap), parent, child)
      ensures rootNode == old(rootNode)
    {
      var present := child in nodeMap[parent].children;
      var c := nodeMap[child];
      nodeMap := nodeMap[child := c.(parent := Some(parent), parentId := Some(parent))];
      if present {
        return;
      }
      var p := nodeMap[parent];
      nodeMap := nodeMap[parent := p.(children := p.children + [child])];
    }

    method AddRelationship(id: string, parentId: Option<string>, parentIsContainer: bool)
      modifies this
      ensures State() == WithRelationshipOnce(old(State()), id, parentId, parentIsContainer)
    {
      if id !in nodeMap {
        nodeMap := nodeMap[id := NewNode(parentId)];
      }
      if parentId.Some? {
        var p := parentId.value;
        if p !in nodeMap {
          nodeMap := nodeMap[p := NewNode(None)];
        }
        AddChild(p, id);
        if parentIsContainer || (rootNode.None? && nodeMap[p].parent.None?) {
          rootNode := Some(p);
        }
      }
    }
  }

  // ---------------------------------------------------------------------
  // Nested nodes and their transfer form

  /** A node as `fromDTO` builds it: id, recorded parent id, parent link
      (the map key it resolved to) and its own copies of its children.
      Every such node has its `tree` set. */
  datatype KNode = KNode(id: string, parentId: Option<string>, parent: Option<string>, children: seq<KNode>)

  datatype NodeDTO = NodeDTO(id: string, parentId: Option<string>, children: DtoChildren)

  /** `NodeDTO.children`, a nullable list: `Omitted` is `null`. */
  datatype DtoChildren = Omitted | Listed(items: seq<NodeDTO>)
  {
    function OrEmpty(): seq<NodeDTO>
    {
      if Omitted? then [] else items
    }
  }

  datatype KTree = KTree(id: string, nodeMap: map<string, KNode>, rootNode: Option<KNode>)

  datatype TreeDTO = TreeDTO(id: string, nodeMap: map<string, NodeDTO>, rootNode: Option<NodeDTO>)

  /** The ordered tree of ids and recorded parent ids below a node. */
  datatype IdTree = IdTree(id: string, parentId: Option<string>, children: seq<IdTree>)

  function Ids(n: KNode): IdTree
  {
    IdTree(n.id, n.parentId, seq(|n.children|, i requires 0 <= i < |n.children| => Ids(n.children[i])))
  }

  /** `Node.toDTO`: the child list is left out exactly when it is empty. */
  function NodeToDTO(n: KNode): (d: NodeDTO)
    ensures d.id == n.id && d.parentId == n.parentId
    ensures d.children.Omitted? <==> n.children == []
  {
    NodeDTO(n.id, n.parentId,
            if n.children == [] then Omitted
            else Listed(seq(|n.children|, i requires 0 <= i < |n.children| => NodeToDTO(n.children[i]))))
  }

  /** `build` inside `fromDTO`: a fresh node with no parent link. */
  function Build(d: NodeDTO): (n: KNode)
    ensures n.id == d.id && n.parentId == d.parentId && n.parent.None?
  {
    match d.children
    case Omitted => KNode(d.id, d.parentId, None, [])
    case Listed(cs) =>
      KNode(d.id, d.parentId, None, seq(|cs|, i requires 0 <= i < |cs| => Build(cs[i])))
  }

  /** Building an encoded node gives back its ordered id tree. */
  lemma {:induction false} NodeRoundTrip(n: KNode)
    ensures Ids(Build(NodeToDTO(n))) == Ids(n)
    decreases n
  {
    var d := NodeToDTO(n);
    var b := Build(d);
    var cs := d.children.OrEmpty();
    assert |cs| == |n.children|;
    forall i | 0 <= i < |n.children|
      ensures Ids(b.children[i]) == Ids(n.children[i])
    {
      assert cs[i] == NodeToDTO(n.children[i]);
      NodeRoundTrip(n.children[i]);
    }
    assert seq(|b.children|, i requires 0 <= i < |b.children| => Ids(b.children[i])) ==
           seq(|n.children|, i requires 0 <= i < |n.children| => Ids(n.children[i]));
  }

  /** `Node.link` on a built node, whose `tree` is set: with a parent id the
      link becomes that id's entry (nil when missing), then every child is
      linked. */
  function Link(keys: set<string>, n: KNode): (r: KNode)
    ensures Ids(r) == Ids(n)
    ensures r.parent == if n.parentId.Some? then (if n.parentId.value in keys then n.parentId else None) else n.parent
  {
    var r := KNode(n.id, n.parentId,
                   if n.parentId.Some? then (if n.parentId.value in keys then n.parentId else None) else n.parent,
                   seq(|n.children|, i requires 0 <= i < |n.children| => Link(keys, n.children[i])));
    assert seq(|r.children|, i requires 0 <= i < |r.children| => Ids(r.children[i])) ==
           seq(|n.children|, i requires 0 <= i < |n.children| => Ids(n.children[i]));
    r
  }

  /** `Tree.toDTO`: every entry and the root encoded. */
  function TreeToDTO(t: KTree): (d: TreeDTO)
    ensures d.id == t.id && d.nodeMap.Keys == t.nodeMap.Keys && d.rootNode.Some? == t.rootNode.Some?
  {
    TreeDTO(t.id, map k | k in t.nodeMap :: NodeToDTO(t.nodeMap[k]),
            if t.rootNode.Some? then Some(NodeToDTO(t.rootNode.value)) else None)
  }

  /** The tree `fromDTO` returns: each entry built and then linked against
      the map's keys; the root built separately and left unlinked. */
  function DecodedTree(d: TreeDTO): (t: KTree)
    ensures t.id == d.id && t.nodeMap.Keys == d.nodeMap.Keys && t.rootNode.Some? == d.rootNode.Some?
  {
    KTree(d.id, DecodedNodes(d), if d.rootNode.Some? then Some(Build(d.rootNode.value)) else None)
  }

  function DecodedNodes(d: TreeDTO): (r: map<string, KNode>)
    ensures r.Keys == d.nodeMap.Keys
  {
    map k | k in d.nodeMap :: Link(d.nodeMap.Keys, Build(d.nodeMap[k]))
  }

  /** The round trip keeps the tree id, the key set, the root's id and
      every node's ordered id tree. */
  lemma TreeRoundTrip(t: KTree)
    ensures var r := DecodedTree(TreeToDTO(t));
      r.id == t.id && r.nodeMap.Keys == t.nodeMap.Keys &&
      (forall k :: k in t.nodeMap ==> Ids(r.nodeMap[k]) == Ids(t.nodeMap[k])) &&
      (r.rootNode.Some? <==> t.rootNode.Some?) &&
      (t.rootNode.Some? ==> Ids(r.rootNode.value) == Ids(t.rootNode.value) && r.rootNode.value.parent.None?)
  {
    var d := TreeToDTO(t);
    var r := DecodedTree(d);
    forall k | k in t.nodeMap
      ensures Ids(r.nodeMap[k]) == Ids(t.nodeMap[k])
    {
      NodeRoundTrip(t.nodeMap[k]);
    }
    if t.rootNode.Some? {
      NodeRoundTrip(t.rootNode.value);
    }
  }

  /** A rebuilt map entry is linked to its recorded parent whenever that
      parent has an entry. */
  lemma DecodedEntriesLinked(d: TreeDTO, k: string)
    requires k in d.nodeMap && d.nodeMap[k].parentId.Some? && d.nodeMap[k].parentId.value in d.nodeMap
    ensures DecodedTree(d).nodeMap[k].parent == d.nodeMap[k].parentId
  {
  }

  // ---------------------------------------------------------------------
  // Encoding the live tree

  /** The nested node `Node.toDTO` walks from the live node `k`: its id
      (its key), recorded parent id and parent link, and its child objects
      unfolded in order. The twin of `VibeBaseTree.UnfoldNode`. */
  function UnfoldNode(m: map<string, Node>, rank: map<string, nat>, k: string): (r: KNode)
    requires Ranked(m, rank) && k in m
    ensures r.id == k && r.parentId == m[k].parentId && r.parent == m[k].parent
    ensures |r.children| == |m[k].children|
    ensures forall i :: 0 <= i < |r.children| ==> r.children[i].id == m[k].children[i]
    decreases rank[k]
  {
    var cs := m[k].children;
    KNode(k, m[k].parentId, m[k].parent, seq(|cs|, i requires 0 <= i < |cs| => UnfoldNode(m, rank, cs[i])))
  }

  /** The live tree as `Tree.toDTO` sees it: every entry unfolded, and the
      root the same object as its map entry. */
  function Unfold(t: TreeState, id: string, rank: map<string, nat>): (r: KTree)
    requires Ranked(t.nodeMap, rank) && (t.rootNode.Some? ==> t.rootNode.value in t.nodeMap)
    ensures r.id == id && r.nodeMap.Keys == t.nodeMap.Keys
    ensures r.rootNode.Some? <==> t.rootNode.Some?
    ensures t.rootNode.Some? ==> r.rootNode.value == r.nodeMap[t.rootNode.value]
  {
    var nodes := map k | k in t.nodeMap :: UnfoldNode(t.nodeMap, rank, k);
    KTree(id, nodes, if t.rootNode.Some? then Some(nodes[t.rootNode.value]) else None)
  }

  /** Two nodes with the same id tree agree on id, parent id and child ids. */
  lemma IdsDetermine(a: KNode, b: KNode)
    requires Ids(a) == Ids(b)
    ensures a.id == b.id && a.parentId == b.parentId && |a.children| == |b.children|
    ensures forall i :: 0 <= i < |a.children| ==> a.children[i].id == b.children[i].id
  {
    assert |Ids(a).children| == |a.children|;
    forall i | 0 <= i < |a.children|
      ensures a.children[i].id == b.children[i].id
    {
      assert Ids(a).children[i] == Ids(a.children[i]);
      assert Ids(b).children[i] == Ids(b.children[i]);
    }
  }

  /** What the receiver of a live tree gets back: `fromDTO` of its DTO keeps
      the tree id and the keys, gives every entry its own id, parent id and
      ordered child ids, and keeps the root's id. */
  lemma LiveTreeRoundTrip(t: TreeState, id: string, rank: map<string, nat>)
    requires Ranked(t.nodeMap, rank) && (t.rootNode.Some? ==> t.rootNode.value in t.nodeMap)
    ensures var r := DecodedTree(TreeToDTO(Unfold(t, id, rank)));
      r.id == id && r.nodeMap.Keys == t.nodeMap.Keys &&
      (forall k :: k in t.nodeMap ==>
         r.nodeMap[k].id == k && r.nodeMap[k].parentId == t.nodeMap[k].parentId &&
         |r.nodeMap[k].children| == |t.nodeMap[k].children| &&
         forall i :: 0 <= i < |t.nodeMap[k].children| ==> r.nodeMap[k].children[i].id == t.nodeMap[k].children[i]) &&
      (r.rootNode.Some? <==> t.rootNode.Some?) &&
      (t.rootNode.Some? ==> r.rootNode.value.id == t.rootNode.value)
  {
    var u := Unfold(t, id, rank);
    TreeRoundTrip(u);
    var r := DecodedTree(TreeToDTO(u));
    forall k | k in t.nodeMap
      ensures r.nodeMap[k].id == k && r.nodeMap[k].parentId == t.nodeMap[k].parentId &&
              |r.nodeMap[k].children| == |t.nodeMap[k].children| &&
              forall i :: 0 <= i < |t.nodeMap[k].children| ==> r.nodeMap[k].children[i].id == t.nodeMap[k].children[i]
    {
      IdsDetermine(r.nodeMap[k], u.nodeMap[k]);
    }
    if t.rootNode.Some? {
      IdsDetermine(r.rootNode.value, u.rootNode.value);
    }
  }

  /** Registering a fresh id keeps the tree acyclic, as in the Swift
      builder, so trees grown from fresh ids can always be sent. */
  lemma FreshChildKeepsRanked(t: TreeState, id: string, parentId: Option<string>,
                              parentIsContainer: bool, rank: map<string, nat>)
    requires Ranked(t.nodeMap, rank) && id !in t.nodeMap && parentId != Some(id)
    ensures Ranked(WithRelationshipOnce(t, id, parentId, parentIsContainer).nodeMap, Raised(t.nodeMap, rank, id, parentId))
  {
    if parentId.Some? {
      var p := parentId.value;
      FirstCallAgreesWithSwift(t, id, p, parentIsContainer);
    } else {
      var r := WithRelationshipOnce(t, id, parentId, parentIsContainer).nodeMap;
      assert forall k :: k in r && k != id ==> r[k] == t.nodeMap[k];
    }
    InertiaTree.FreshChildKeepsRanked(t, id, parentId, parentIsContainer, rank);
  }

  /** `addRelationship(x, x)` lists `x` among its own children (once), so
      the tree has no rank and `toDTO` never returns for it. */
  lemma SelfParentHasNoRank(t: TreeState, x: string, parentIsContainer: bool, rank: map<string, nat>)
    ensures !Ranked(WithRelationshipOnce(t, x, Some(x), parentIsContainer).nodeMap, rank)
  {
    var cs := WithRelationshipOnce(t, x, Some(x), parentIsContainer).nodeMap[x].children;
    assert x in cs;
  }

  /** `Tree.fromDTO`: the loop that fills the map, the separate root and
      the final linking pass. */
  method FromDTO(dto: TreeDTO) returns (t: KTree)
    ensures t == DecodedTree(dto)
  {
    var nodeMap := BuildEntries(dto);
    var rootNode := if dto.rootNode.Some? then Some(Build(dto.rootNode.value)) else None;
    nodeMap := LinkEntries(nodeMap);
    assert nodeMap == DecodedNodes(dto);
    t := KTree(dto.id, nodeMap, rootNode);
  }

  /** The first loop of `fromDTO`: every entry built, unlinked. */
  method BuildEntries(dto: TreeDTO) returns (nodeMap: map<string, KNode>)
    ensures nodeMap.Keys == dto.nodeMap.Keys
    ensures forall k :: k in nodeMap ==> nodeMap[k] == Build(dto.nodeMap[k])
  {
    nodeMap := map[];
    var pending := dto.nodeMap.Keys;
    while pending != {}
      invariant pending <= dto.nodeMap.Keys
      invariant nodeMap.Keys == dto.nodeMap.Keys - pending
      invariant forall k :: k in nodeMap ==> nodeMap[k] == Build(dto.nodeMap[k])
      decreases pending
    {
      var k :| k in pending;
      nodeMap := nodeMap[k := Build(dto.nodeMap[k])];
      pending := pending - {k};
    }
  }

  /** The linking pass of `fromDTO`: every entry linked against the keys of
      the map it sits in. */
  method LinkEntries(built: map<string, KNode>) returns (nodeMap: map<string, KNode>)
    ensures nodeMap.Keys == built.Keys
    ensures forall k :: k in built ==> nodeMap[k] == Link(built.Keys, built[k])
  {
    nodeMap := built;
    var keys := built.Keys;
    var unlinked := keys;
    while unlinked != {}
      invariant unlinked <= keys && nodeMap.Keys == keys
      invariant forall k :: k in keys ==>
        nodeMap[k] == if k in unlinked then built[k] else Link(keys, built[k])
      decreases unlinked
    {
      var k :| k in unlinked;
      nodeMap := nodeMap[k := Link(keys, nodeMap[k])];
      unlinked := unlinked - {k};
    }
  }
}

/** The web runtime's tree (runtime-web/vibe-base): `Node` and `Tree`
    objects with `toJSON`/`fromJSON`, and the builder `addRelationship`.
    The live tree the builder grows shares one node object per id, so it
    is modelled by id on the Swift runtime's node records; the trees that
    `fromJSON` rebuilds are nested copies, so they are modelled as nested
    values. */
module VibeBaseTree {
  import opened Wrappers
  import opened Json
  import InertiaTree

  // ---------------------------------------------------------------------
  // Nested nodes and their JSON form

  /** A node object as `Node.fromJSON` builds it: its id, the parent id it
      records, its `parent` link (the map key it was resolved to), whether
      its `tree` is set, and its own copies of its children. */
  datatype TsNode = TsNode(id: string, parentId: Option<string>, parent: Option<string>,
                           hasTree: bool, children: seq<TsNode>)

  /** `Node.toJSON`: id, parent id (left out when undefined) and children. */
  function NodeToJson(n: TsNode): Json
  {
    var kids := seq(|n.children|, i requires 0 <= i < |n.children| => NodeToJson(n.children[i]));
    JObj(map["id" := JStr(n.id), "parentId" := FromOptString(n.parentId), "children" := JArr(kids)])
  }

  /** `Node.fromJSON(json, tree)`: a fresh node with no parent link, whose
      children default to none when the property is missing. `None` when a
      field has a type the model cannot hold. */
  function NodeFromJson(j: Json, tree: bool): (r: Option<TsNode>)
    decreases j
  {
    match j
    case JObj(f) =>
      if "id" !in f || !f["id"].JStr? || OptString(Get(j, "parentId")).None? then None
      else
        var id := f["id"].s;
        var pid := OptString(Get(j, "parentId")).value;
        if Nullish(Get(j, "children")) then Some(TsNode(id, pid, None, tree, []))
        else
          (match f["children"]
           case JArr(items) =>
             var cs := seq(|items|, i requires 0 <= i < |items| => NodeFromJson(items[i], tree));
             if forall i :: 0 <= i < |cs| ==> cs[i].Some? then
               Some(TsNode(id, pid, None, tree, seq(|cs|, i requires 0 <= i < |cs| => cs[i].UnwrapOr(TsNode("", None, None, false, [])))))
             else None
           case _ => None)
    case _ => None
  }

  /** No node below and including `n` has a parent link, and all have
      `tree` set exactly when `tree` holds. */
  predicate Detached(n: TsNode, tree: bool)
  {
    n.parent.None? && n.hasTree == tree &&
    forall i :: 0 <= i < |n.children| ==> Detached(n.children[i], tree)
  }

  /** Decoding an encoded node gives back its id, parent id and ordered
      child tree, as fresh unlinked nodes. */
  lemma {:induction false} NodeRoundTrip(n: TsNode, tree: bool)
    ensures NodeFromJson(NodeToJson(n), tree).Some?
    ensures var m := NodeFromJson(NodeToJson(n), tree).value;
            NodeToJson(m) == NodeToJson(n) && Detached(m, tree) && m.id == n.id && m.parentId == n.parentId
    decreases n
  {
    var j := NodeToJson(n);
    var items := seq(|n.children|, i requires 0 <= i < |n.children| => NodeToJson(n.children[i]));
    assert j.fields["children"] == JArr(items);
    OptStringRoundTrip(n.parentId);
    forall i | 0 <= i < |items|
      ensures NodeFromJson(items[i], tree).Some?
      ensures NodeToJson(NodeFromJson(items[i], tree).value) == items[i]
      ensures Detached(NodeFromJson(items[i], tree).value, tree)
    {
      NodeRoundTrip(n.children[i], tree);
    }
    var m := NodeFromJson(j, tree).value;
    assert m.id == n.id && m.parentId == n.parentId;
    assert |m.children| == |n.children|;
    forall i | 0 <= i < |m.children|
      ensures NodeToJson(m.children[i]) == items[i]
    {
      assert m.children[i] == NodeFromJson(items[i], tree).value;
    }
    assert seq(|m.children|, i requires 0 <= i < |m.children| => NodeToJson(m.children[i])) == items;
  }

  // ---------------------------------------------------------------------
  // Linking

  /** JavaScript truthiness of an optional string: defined and non-empty. */
  predicate Truthy(s: Option<string>)
  {
    s.Some? && s.value != ""
  }

  /** `Node.link`: with a truthy parent id and the tree set, the parent
      link becomes the map's entry for that id, or `undefined` when there is
      none; then every child is linked the same way. */
  function Link(keys: set<string>, n: TsNode): (r: TsNode)
    ensures NodeToJson(r) == NodeToJson(n)
    ensures r.parent == if Truthy(n.parentId) && n.hasTree
                        then (if n.parentId.value in keys then n.parentId else None)
                        else n.parent
    decreases n
  {
    var p := if Truthy(n.parentId) && n.hasTree then (if n.parentId.value in keys then n.parentId else None) else n.parent;
    var r := TsNode(n.id, n.parentId, p, n.hasTree,
                    seq(|n.children|, i requires 0 <= i < |n.children| => Link(keys, n.children[i])));
    assert seq(|r.children|, i requires 0 <= i < |r.children| => NodeToJson(r.children[i])) ==
           seq(|n.children|, i requires 0 <= i < |n.children| => NodeToJson(n.children[i]));
    r
  }

  // ---------------------------------------------------------------------
  // Trees and their JSON form

  /** A tree as `Tree.fromJSON` leaves it. */
  datatype TreeValue = TreeValue(id: string, nodeMap: map<string, TsNode>, rootNode: Option<TsNode>)

  /** `Tree.toJSON`: the id, every map entry encoded, and the root encoded
      (left out when there is none). */
  function TreeToJson(t: TreeValue): Json
  {
    var base := map["id" := JStr(t.id), "nodeMap" := JObj(EncodedNodes(t))];
    JObj(base["rootNode" := if t.rootNode.Some? then NodeToJson(t.rootNode.value) else JUndefined])
  }

  function EncodedNodes(t: TreeValue): (r: map<string, Json>)
    ensures r.Keys == t.nodeMap.Keys
  {
    map k | k in t.nodeMap :: NodeToJson(t.nodeMap[k])
  }

  /** The entries of `nodeMap` in a tree's JSON (`json.nodeMap ?? {}`). */
  function NodeMapFields(json: Json): Option<map<string, Json>>
  {
    var v := Get(json, "nodeMap");
    if Nullish(v) then Some(map[])
    else if v.JObj? then Some(v.fields)
    else None
  }

  /** `Tree.fromJSON`: every entry decoded with the tree set, the root (if
      the JSON has one) decoded as a further, separate copy, and then every
      map entry linked against the map's keys. The root is not linked. */
  function DecodedTree(json: Json): (r: Option<TreeValue>)
    ensures r.Some? ==> NodeMapFields(json).Some? && r.value.nodeMap.Keys == NodeMapFields(json).value.Keys
  {
    var id := Get(json, "id");
    var fields := NodeMapFields(json);
    var rootJ := Get(json, "rootNode");
    if !json.JObj? || !id.JStr? || fields.None? then None
    else if exists k :: k in fields.value && NodeFromJson(fields.value[k], true).None? then None
    else if !Nullish(rootJ) && NodeFromJson(rootJ, true).None? then None
    else
      var f := fields.value;
      var root := if Nullish(rootJ) then None else NodeFromJson(rootJ, true);
      Some(TreeValue(id.s, map k | k in f :: Link(f.Keys, NodeFromJson(f[k], true).value), root))
  }

  /** `Tree.fromJSON(t.toJSON())` keeps the tree id, the key set, the id of
      the root, and every node's id, parent id and ordered child tree; map
      entries come back linked and the root as an unlinked copy. */
  lemma TreeRoundTrip(t: TreeValue)
    ensures DecodedTree(TreeToJson(t)).Some?
    ensures var r := DecodedTree(TreeToJson(t)).value;
      r.id == t.id && r.nodeMap.Keys == t.nodeMap.Keys &&
      (forall k :: k in t.nodeMap ==> NodeToJson(r.nodeMap[k]) == NodeToJson(t.nodeMap[k])) &&
      (r.rootNode.Some? <==> t.rootNode.Some?) &&
      (t.rootNode.Some? ==> r.rootNode.value.id == t.rootNode.value.id &&
                            NodeToJson(r.rootNode.value) == NodeToJson(t.rootNode.value) &&
                            Detached(r.rootNode.value, true))
  {
    var json := TreeToJson(t);
    var f := EncodedNodes(t);
    TreeJsonParts(t);
    EncodedEntriesDecode(t);
    if t.rootNode.Some? {
      NodeRoundTrip(t.rootNode.value, true);
    }
    var nodes := map k | k in f :: Link(f.Keys, NodeFromJson(f[k], true).value);
    var root := if t.rootNode.None? then None else NodeFromJson(NodeToJson(t.rootNode.value), true);
    assert DecodedTree(json) == Some(TreeValue(t.id, nodes, root));
    forall k | k in t.nodeMap
      ensures NodeToJson(nodes[k]) == NodeToJson(t.nodeMap[k])
    {
      assert nodes[k] == Link(f.Keys, NodeFromJson(f[k], true).value);
    }
  }

  /** Every encoded map entry decodes back to a node with the same JSON. */
  lemma EncodedEntriesDecode(t: TreeValue)
    ensures forall k :: k in EncodedNodes(t) ==>
      NodeFromJson(EncodedNodes(t)[k], true).Some? &&
      NodeToJson(NodeFromJson(EncodedNodes(t)[k], true).value) == NodeToJson(t.nodeMap[k])
  {
    var f := EncodedNodes(t);
    forall k | k in f
      ensures NodeFromJson(f[k], true).Some?
      ensures NodeToJson(NodeFromJson(f[k], true).value) == NodeToJson(t.nodeMap[k])
    {
      NodeRoundTrip(t.nodeMap[k], true);
    }
  }

  /** What `fromJSON` reads from the JSON `toJSON` writes. */
  lemma TreeJsonParts(t: TreeValue)
    ensures TreeToJson(t).JObj? && Get(TreeToJson(t), "id") == JStr(t.id)
    ensures NodeMapFields(TreeToJson(t)) == Some(EncodedNodes(t))
    ensures Nullish(Get(TreeToJson(t), "rootNode")) <==> t.rootNode.None?
    ensures t.rootNode.Some? ==> Get(TreeToJson(t), "rootNode") == NodeToJson(t.rootNode.value)
  {
    if t.rootNode.Some? {
      assert NodeToJson(t.rootNode.value).JObj?;
    }
  }

  /** `Tree.equals`: false when this tree has no root; otherwise whether
      the roots' ids agree, an absent other root counting as id "". */
  function TreeEquals(thisRoot: Option<string>, otherRoot: Option<string>): (r: bool)
    ensures r ==> thisRoot.Some?
  {
    match thisRoot
    case None => false
    case Some(a) => a == otherRoot.UnwrapOr("")
  }

  /** `equals` is neither reflexive nor symmetric: a rootless tree differs
      from itself, and a tree whose root id is "" equals a rootless one but
      not the other way round. */
  lemma TreeEqualsIsNotAnEquivalence()
    ensures !TreeEquals(None, None)
    ensures TreeEquals(Some(""), None) && !TreeEquals(None, Some(""))
  {
  }

  lemma TreeEqualsByRootId(a: string, b: string)
    ensures TreeEquals(Some(a), Some(b)) <==> a == b
  {
  }

  // ---------------------------------------------------------------------
  // The live tree

  /** `Tree.addRelationship(id, parentId, parentIsContainer)`. A falsy
      parent id (undefined or "") counts as no parent: only the current
      node's existence is ensured, and a node created then records the
      given (empty) parent id. Any other parent is handled as in the Swift
      runtime. */
  function WithRelationship(t: InertiaTree.TreeState, id: string, parentId: Option<string>,
                            parentIsContainer: bool): (r: InertiaTree.TreeState)
    ensures !Truthy(parentId) ==>
      r.rootNode == t.rootNode && r.nodeMap.Keys == t.nodeMap.Keys + {id} &&
      (forall k :: k in t.nodeMap ==> r.nodeMap[k] == t.nodeMap[k]) &&
      (id !in t.nodeMap ==> r.nodeMap[id] == InertiaTree.NewNode(parentId))
    ensures Truthy(parentId) ==> r == InertiaTree.WithRelationship(t, id, parentId, parentIsContainer)
  {
    if Truthy(parentId) then InertiaTree.WithRelationship(t, id, parentId, parentIsContainer)
    else
      var m := if id in t.nodeMap then t.nodeMap else t.nodeMap[id := InertiaTree.NewNode(parentId)];
      InertiaTree.TreeState(m, t.rootNode)
  }

  /** The tree invariant survives every call except one that creates a
      node with the empty parent id: that node records a parent id naming
      no node that lists it. */
  lemma AddRelationshipKeepsWf(t: InertiaTree.TreeState, id: string, parentId: Option<string>, parentIsContainer: bool)
    requires InertiaTree.Wf(t)
    requires parentId != Some("") || id in t.nodeMap
    ensures InertiaTree.Wf(WithRelationship(t, id, parentId, parentIsContainer))
  {
    InertiaTree.AddRelationshipKeepsWf(t, id, parentId, parentIsContainer);
  }

  lemma EmptyParentBreaksWf(id: string)
    ensures !InertiaTree.Wf(WithRelationship(InertiaTree.TreeState(map[], None), id, Some(""), false))
  {
    var r := WithRelationship(InertiaTree.TreeState(map[], None), id, Some(""), false);
    assert r.nodeMap[id].parentId == Some("");
    assert !InertiaTree.ParentsListed(r.nodeMap);
  }

  /** `Node.link` on a node of the live tree (every such node has its
      `tree` set): with a truthy parent id the parent link becomes that
      id's entry, or `undefined` when there is none. The source's `link()`
      then recurses into the children; here each entry is linked on its
      own. The two agree: the live tree shares one node object per id, so
      every child is also its own map entry, and a node's new link
      depends only on its own parent id and the map's keys, so linking it
      again changes nothing. */
  function LiveLink(keys: set<string>, n: InertiaTree.Node): (r: InertiaTree.Node)
    ensures r.parentId == n.parentId && r.children == n.children
    ensures Truthy(n.parentId) ==> (r.parent == n.parentId <==> n.parentId.value in keys)
    ensures Truthy(n.parentId) && n.parentId.value !in keys ==> r.parent.None?
    ensures !Truthy(n.parentId) ==> r == n
  {
    if Truthy(n.parentId) then n.(parent := if n.parentId.value in keys then n.parentId else None) else n
  }

  /** Every entry of the live tree linked. */
  function LiveLinked(t: InertiaTree.TreeState): (r: InertiaTree.TreeState)
    ensures r.nodeMap.Keys == t.nodeMap.Keys && r.rootNode == t.rootNode
  {
    InertiaTree.TreeState(map k | k in t.nodeMap :: LiveLink(t.nodeMap.Keys, t.nodeMap[k]), t.rootNode)
  }

  /** After linking, a node whose recorded parent exists points at it. */
  lemma LiveLinkedPointsAtParents(t: InertiaTree.TreeState, k: string)
    requires k in t.nodeMap && Truthy(t.nodeMap[k].parentId) && t.nodeMap[k].parentId.value in t.nodeMap
    ensures LiveLinked(t).nodeMap[k].parent == t.nodeMap[k].parentId
  {
  }

  // ---------------------------------------------------------------------
  // Encoding the live tree

  /** The ids of a nested node's children, in order. */
  function ChildIds(n: TsNode): seq<string>
  {
    seq(|n.children|, i requires 0 <= i < |n.children| => n.children[i].id)
  }

  /** The nested value `Node.toJSON` walks from the live node `k`: the
      node's id (its key), parent id and parent link, with `tree` set, and
      its child objects unfolded in order. */
  function UnfoldNode(m: map<string, InertiaTree.Node>, rank: map<string, nat>, k: string): (r: TsNode)
    requires InertiaTree.Ranked(m, rank) && k in m
    ensures r.id == k && r.parentId == m[k].parentId && r.parent == m[k].parent && r.hasTree
    ensures ChildIds(r) == m[k].children
    decreases rank[k]
  {
    var cs := m[k].children;
    var r := TsNode(k, m[k].parentId, m[k].parent, true,
                    seq(|cs|, i requires 0 <= i < |cs| => UnfoldNode(m, rank, cs[i])));
    assert ChildIds(r) == cs;
    r
  }

  /** The live tree as `Tree.toJSON` sees it: every entry unfolded, and the
      root the same object as its map entry. */
  function Unfold(t: InertiaTree.TreeState, id: string, rank: map<string, nat>): (r: TreeValue)
    requires InertiaTree.Ranked(t.nodeMap, rank) && (t.rootNode.Some? ==> t.rootNode.value in t.nodeMap)
    ensures r.id == id && r.nodeMap.Keys == t.nodeMap.Keys
    ensures r.rootNode.Some? <==> t.rootNode.Some?
    ensures t.rootNode.Some? ==> r.rootNode.value == r.nodeMap[t.rootNode.value]
  {
    var nodes := map k | k in t.nodeMap :: UnfoldNode(t.nodeMap, rank, k);
    TreeValue(id, nodes, if t.rootNode.Some? then Some(nodes[t.rootNode.value]) else None)
  }

  /** The unfolding does not depend on which rank shows the tree acyclic,
      so the JSON of the live tree is determined by the tree alone. */
  lemma {:induction false} UnfoldNodeRankFree(m: map<string, InertiaTree.Node>, r1: map<string, nat>,
                                              r2: map<string, nat>, k: string)
    requires InertiaTree.Ranked(m, r1) && InertiaTree.Ranked(m, r2) && k in m
    ensures UnfoldNode(m, r1, k) == UnfoldNode(m, r2, k)
    decreases r1[k]
  {
    var cs := m[k].children;
    forall i | 0 <= i < |cs|
      ensures UnfoldNode(m, r1, cs[i]) == UnfoldNode(m, r2, cs[i])
    {
      UnfoldNodeRankFree(m, r1, r2, cs[i]);
    }
  }

  lemma UnfoldRankFree(t: InertiaTree.TreeState, id: string, r1: map<string, nat>, r2: map<string, nat>)
    requires InertiaTree.Ranked(t.nodeMap, r1) && InertiaTree.Ranked(t.nodeMap, r2) && (t.rootNode.Some? ==> t.rootNode.value in t.nodeMap)
    ensures Unfold(t, id, r1) == Unfold(t, id, r2)
  {
    forall k | k in t.nodeMap
      ensures UnfoldNode(t.nodeMap, r1, k) == UnfoldNode(t.nodeMap, r2, k)
    {
      UnfoldNodeRankFree(t.nodeMap, r1, r2, k);
    }
  }

  /** Two nodes with the same JSON agree on id, parent id and child ids. */
  lemma NodeJsonDetermines(a: TsNode, b: TsNode)
    requires NodeToJson(a) == NodeToJson(b)
    ensures a.id == b.id && a.parentId == b.parentId && ChildIds(a) == ChildIds(b)
  {
    assert NodeToJson(a).fields["id"] == JStr(a.id);
    OptStringRoundTrip(a.parentId);
    OptStringRoundTrip(b.parentId);
    assert FromOptString(a.parentId) == NodeToJson(a).fields["parentId"];
    var ka := seq(|a.children|, i requires 0 <= i < |a.children| => NodeToJson(a.children[i]));
    var kb := seq(|b.children|, i requires 0 <= i < |b.children| => NodeToJson(b.children[i]));
    assert JArr(ka) == NodeToJson(a).fields["children"] && JArr(kb) == NodeToJson(b).fields["children"];
    assert |a.children| == |b.children|;
    forall i | 0 <= i < |a.children|
      ensures a.children[i].id == b.children[i].id
    {
      assert ka[i] == kb[i];
      assert ka[i].fields["id"] == JStr(a.children[i].id);
    }
  }

  /** What the receiver of a live tree gets back: `Tree.fromJSON` of the
      tree's JSON keeps the tree id and the keys, gives every entry its own
      id, parent id and ordered child ids, and keeps the root's id. */
  lemma LiveTreeRoundTrip(t: InertiaTree.TreeState, id: string, rank: map<string, nat>)
    requires InertiaTree.Ranked(t.nodeMap, rank) && (t.rootNode.Some? ==> t.rootNode.value in t.nodeMap)
    ensures DecodedTree(TreeToJson(Unfold(t, id, rank))).Some?
    ensures var r := DecodedTree(TreeToJson(Unfold(t, id, rank))).value;
      r.id == id && r.nodeMap.Keys == t.nodeMap.Keys &&
      (forall k :: k in t.nodeMap ==>
         r.nodeMap[k].id == k && r.nodeMap[k].parentId == t.nodeMap[k].parentId &&
         ChildIds(r.nodeMap[k]) == t.nodeMap[k].children) &&
      (r.rootNode.Some? <==> t.rootNode.Some?) &&
      (t.rootNode.Some? ==> r.rootNode.value.id == t.rootNode.value)
  {
    var u := Unfold(t, id, rank);
    TreeRoundTrip(u);
    var r := DecodedTree(TreeToJson(u)).value;
    forall k | k in t.nodeMap
      ensures r.nodeMap[k].id == k && r.nodeMap[k].parentId == t.nodeMap[k].parentId &&
              ChildIds(r.nodeMap[k]) == t.nodeMap[k].children
    {
      NodeJsonDetermines(r.nodeMap[k], u.nodeMap[k]);
    }
  }

  /** A node registered with a fresh id keeps the tree acyclic, so trees
      grown from fresh ids can always be sent. */
  lemma FreshChildKeepsRanked(t: InertiaTree.TreeState, id: string, parentId: Option<string>,
                              parentIsContainer: bool, rank: map<string, nat>)
    requires InertiaTree.Ranked(t.nodeMap, rank) && id !in t.nodeMap && parentId != Some(id)
    ensures InertiaTree.Ranked(WithRelationship(t, id, parentId, parentIsContainer).nodeMap,
                               InertiaTree.Raised(t.nodeMap, rank, id, if Truthy(parentId) then parentId else None))
  {
    if Truthy(parentId) {
      InertiaTree.FreshChildKeepsRanked(t, id, parentId, parentIsContainer, rank);
    } else {
      var r := WithRelationship(t, id, parentId, parentIsContainer).nodeMap;
      assert forall k :: k in r && k != id ==> r[k] == t.nodeMap[k];
    }
  }

  /** `addRelationship(x, x)` with a truthy `x` makes `x` a child of
      itself, so no rank exists and `toJSON` never returns for the tree. */
  lemma SelfParentHasNoRank(t: InertiaTree.TreeState, x: string, parentIsContainer: bool, rank: map<string, nat>)
    requires x != ""
    ensures !InertiaTree.Ranked(WithRelationship(t, x, Some(x), parentIsContainer).nodeMap, rank)
  {
    InertiaTree.SelfParentHasNoRank(t, x, parentIsContainer, rank);
  }

  class Tree {
    const id: string
    var nodeMap: map<string, InertiaTree.Node>
    var rootNode: Option<string>

    function State(): InertiaTree.TreeState
      reads this
    {
      InertiaTree.TreeState(nodeMap, rootNode)
    }

    constructor (id: string)
      ensures this.id == id && State() == InertiaTree.TreeState(map[], None)
    {
      this.id := id;
      nodeMap := map[];
      rootNode := None;
    }

    /** `Node.addChild`, on the parent's and child's entries. */
    method AddChild(parent: string, child: string)
      requires parent in nodeMap && child in nodeMap
      modifies this
      ensures nodeMap == InertiaTree.WithChild(old(nodeMap), parent, child)
      ensures rootNode == old(rootNode)
    {
      var c := nodeMap[child];
      nodeMap := nodeMap[child := c.(parent := Some(parent), parentId := Some(parent))];
      var p := nodeMap[parent];
      nodeMap := nodeMap[parent := p.(children := p.children + [child])];
    }

    method AddRelationship(id: string, parentId: Option<string>, parentIsContainer: bool)
      modifies this
      ensures State() == WithRelationship(old(State()), id, parentId, parentIsContainer)
    {
      if id !in nodeMap {
        nodeMap := nodeMap[id := InertiaTree.NewNode(parentId)];
      }
      if parentId.Some? && parentId.value != "" {
        var p := parentId.value;
        if p !in nodeMap {
          nodeMap := nodeMap[p := InertiaTree.NewNode(None)];
        }
        AddChild(p, id);
        if parentIsContainer || (rootNode.None? && nodeMap[p].parent.None?) {
          rootNode := Some(p);
        }
      }
    }

    /** `nodeMap.forEach(node => node.link())`: every node of the map
        linked, one entry at a time. The recursion of `link()` into the
        children reaches only nodes that are entries themselves, and
        linking is idempotent (see `LiveLink`). */
    method LinkAll()
      modifies this
      ensures State() == LiveLinked(old(State()))
    {
      var keys := nodeMap.Keys;
      var pending := keys;
      ghost var m0 := nodeMap;
      while pending != {}
        invariant pending <= keys && nodeMap.Keys == keys && rootNode == old(rootNode)
        invariant forall k :: k in keys ==>
          nodeMap[k] == if k in pending then m0[k] else LiveLink(keys, m0[k])
        decreases pending
      {
        var k :| k in pending;
        nodeMap := nodeMap[k := LiveLink(nodeMap.Keys, nodeMap[k])];
        pending := pending - {k};
      }
    }
  }
}

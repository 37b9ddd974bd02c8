/** The editor's view-hierarchy panel (editor/editor/ViewHierarchy/TreeView.swift):
    expansion and selection of tree nodes, the conversion of received
    nodes to panel items, and the selection binding that recovers each
    id's prefix by stripping the last `--<digits>`. */
module EditorTreeView {
  import opened Wrappers
  import opened Sets
  import opened Strings
  import opened EditorTypes
  import HierarchyIds
  import EditorServer

  // ---------------------------------------------------------------------
  // Selection below a node

  /** `_isDescendantSelected`: some child is selected or has a selected
      descendant. */
  predicate DescendantSelected(t: TreeItem, isSelected: set<string>)
  {
    match t.children
    case Nil => false
    case List(cs) => exists i :: 0 <= i < |cs| && (cs[i].id in isSelected || DescendantSelected(cs[i], isSelected))
  }

  /** The ids of the proper descendants of an item. */
  function Descendants(t: TreeItem): set<string>
  {
    match t.children
    case Nil => {}
    case List(cs) => set i, x | 0 <= i < |cs| && x in {cs[i].id} + Descendants(cs[i]) :: x
  }

  /** A node has a selected descendant exactly when one of the ids below
      it, not its own, is selected. */
  lemma {:induction false} DescendantSelectedIff(t: TreeItem, isSelected: set<string>)
    ensures DescendantSelected(t, isSelected) <==> Descendants(t) * isSelected != {}
    decreases t
  {
    match t.children
    case Nil =>
    case List(cs) =>
      forall i | 0 <= i < |cs|
        ensures DescendantSelected(cs[i], isSelected) <==> Descendants(cs[i]) * isSelected != {}
      {
        DescendantSelectedIff(cs[i], isSelected);
      }
      if DescendantSelected(t, isSelected) {
        var i :| 0 <= i < |cs| && (cs[i].id in isSelected || DescendantSelected(cs[i], isSelected));
        if cs[i].id in isSelected {
          assert cs[i].id in {cs[i].id} + Descendants(cs[i]);
          assert cs[i].id in Descendants(t) * isSelected;
        } else {
          var x :| x in Descendants(cs[i]) * isSelected;
          assert x in {cs[i].id} + Descendants(cs[i]);
          assert x in Descendants(t) * isSelected;
        }
      }
      if Descendants(t) * isSelected != {} {
        var x :| x in Descendants(t) * isSelected;
        var i :| 0 <= i < |cs| && x in {cs[i].id} + Descendants(cs[i]);
        if x != cs[i].id {
          assert x in Descendants(cs[i]) * isSelected;
        }
      }
  }

  /** A node in the panel. The two sets are the panel's bindings, shared
      with every node; `isDescendantSelected` is the node's cached state. */
  class TreeNode {
    const item: TreeItem
    var isExpanded: set<string>
    var isSelected: set<string>
    var isDescendantSelected: bool

    constructor (item: TreeItem, isExpanded: set<string>, isSelected: set<string>)
      ensures this.item == item && this.isExpanded == isExpanded && this.isSelected == isSelected
      ensures isDescendantSelected == DescendantSelected(item, isSelected)
    {
      this.item := item;
      this.isExpanded := isExpanded;
      this.isSelected := isSelected;
      isDescendantSelected := DescendantSelected(item, isSelected);
    }

    predicate IsNodeSelected()
      reads this
    {
      item.id in isSelected
    }

    /** Expanded by the user, selected, or above a selected node. */
    predicate IsNodeExpanded()
      reads this
    {
      item.id in isExpanded || IsNodeSelected() || isDescendantSelected
    }

    /** `onAppear`: the cached state is recomputed. */
    method Appear()
      modifies this`isDescendantSelected
      ensures isDescendantSelected == DescendantSelected(item, isSelected)
    {
      isDescendantSelected := DescendantSelected(item, isSelected);
    }

    /** The chevron: removes the id when the node shows as expanded and
        inserts it otherwise, so a selected node stays expanded and any
        other node flips. */
    method ToggleExpanded()
      modifies this`isExpanded
      ensures old(IsNodeExpanded()) ==> isExpanded == old(isExpanded) - {item.id}
      ensures !old(IsNodeExpanded()) ==> isExpanded == old(isExpanded) + {item.id}
      ensures IsNodeSelected() || isDescendantSelected ==> IsNodeExpanded()
      ensures !(IsNodeSelected() || isDescendantSelected) ==> IsNodeExpanded() == !old(IsNodeExpanded())
    {
      if IsNodeExpanded() {
        isExpanded := isExpanded - {item.id};
      } else {
        isExpanded := isExpanded + {item.id};
      }
    }

    /** A tap flips the selection of this node's id and of no other. */
    method ToggleSelected()
      modifies this`isSelected
      ensures item.id in isSelected <==> item.id !in old(isSelected)
      ensures forall y :: y != item.id ==> (y in isSelected <==> y in old(isSelected))
    {
      if IsNodeSelected() {
        isSelected := isSelected - {item.id};
      } else {
        isSelected := isSelected + {item.id};
      }
    }
  }

  // ---------------------------------------------------------------------
  // Nodes to panel items

  /** `convertNodeToTreeItem(treeItem:)`: children are converted, then
      converted a second time; an empty list becomes nil. */
  function ItemOfItem(t: TreeItem): (r: TreeItem)
    ensures ItemShape(r) == ItemShape(t) && Named(r) && Compact(r)
    ensures r.children.Nil? <==> t.children.OrEmpty() == []
    decreases ItemShape(t)
  {
    match t.children
    case Nil => TreeItem(t.id, t.id, Nil)
    case List(cs) =>
      assert forall i :: 0 <= i < |cs| ==> ItemShape(cs[i]) == ItemShape(t).children[i];
      assert forall i :: 0 <= i < |cs| ==> ItemShape(cs[i]) < ItemShape(t);
      var kids := seq(|cs|, i requires 0 <= i < |cs| => ItemOfItem(cs[i]));
      assert forall i :: 0 <= i < |cs| ==> ItemShape(kids[i]) == ItemShape(cs[i]) == ItemShape(t).children[i];
      var again := seq(|kids|, i requires 0 <= i < |kids| => ItemOfItem(kids[i]));
      assert forall i :: 0 <= i < |again| ==>
        ItemShape(again[i]) == ItemShape(t).children[i] && Named(again[i]) && Compact(again[i]);
      var r := TreeItem(t.id, t.id, if kids == [] then Nil else List(again));
      assert |ItemShape(r).children| == |ItemShape(t).children|;
      assert ItemShape(r).children == ItemShape(t).children;
      r
  }

  /** An item already in converted form converts to itself. */
  lemma {:induction false} ItemOfItemFixes(t: TreeItem)
    requires Named(t) && Compact(t)
    ensures ItemOfItem(t) == t
    decreases t
  {
    match t.children
    case Nil =>
    case List(cs) =>
      forall i | 0 <= i < |cs|
        ensures ItemOfItem(cs[i]) == cs[i]
      {
        ItemOfItemFixes(cs[i]);
      }
      var kids := seq(|cs|, i requires 0 <= i < |cs| => ItemOfItem(cs[i]));
      assert kids == cs;
      var again := seq(|kids|, i requires 0 <= i < |kids| => ItemOfItem(kids[i]));
      assert again == cs;
  }

  /** `convertNodeToTreeItem(node:)`: the ordered id tree is kept, every
      name is the id, and nil or empty child lists become nil. */
  function ItemOfNode(n: SNode): (r: TreeItem)
    ensures ItemShape(r) == NodeShape(n) && Named(r) && Compact(r)
    ensures r.id == n.id && (r.children.Nil? <==> n.children.OrEmpty() == [])
  {
    match n.children
    case Absent => TreeItem(n.id, n.id, Nil)
    case Present(cs) =>
      var kids := seq(|cs|, i requires 0 <= i < |cs| => ItemOfNode(cs[i]));
      var again := seq(|kids|, i requires 0 <= i < |kids| => ItemOfItem(kids[i]));
      var r := TreeItem(n.id, n.id, if kids == [] then Nil else List(again));
      assert forall i :: 0 <= i < |cs| ==> ItemShape(again[i]) == NodeShape(cs[i]);
      assert ItemShape(r).children == NodeShape(n).children;
      r
  }

  /** The second conversion of the children changes nothing. */
  lemma ItemOfNodeConvertsOnce(n: SNode)
    requires n.children.OrEmpty() != []
    ensures ItemOfNode(n).children.items ==
            seq(|n.children.nodes|, i requires 0 <= i < |n.children.nodes| => ItemOfNode(n.children.nodes[i]))
  {
    var cs := n.children.nodes;
    forall i | 0 <= i < |cs|
      ensures ItemOfItem(ItemOfNode(cs[i])) == ItemOfNode(cs[i])
    {
      ItemOfItemFixes(ItemOfNode(cs[i]));
    }
  }

  /** Item equality (`==`) compares ids only. */
  predicate SameItem(a: TreeItem, b: TreeItem)
  {
    a.id == b.id
  }

  /** A converted node equals any item with its id, whatever its children
      and name. */
  lemma ConvertedEqualsById(n: SNode, displayName: string)
    ensures SameItem(ItemOfNode(n), TreeItem(n.id, displayName, Nil))
  {
  }

  // ---------------------------------------------------------------------
  // Stripping the counter from a hierarchy id

  /** The characters ICU treats as line ends: `.` does not match them
      unless the dot-all option is set. */
  predicate IsLineTerminator(c: char)
  {
    c == '\n' || c == '\U{0B}' || c == '\U{0C}' || c == '\r' || c == '\U{85}' || c == '\U{2028}' || c == '\U{2029}'
  }

  /** `--` followed by a digit starts at `j`. */
  predicate DashesDigitAt(s: string, j: nat)
  {
    j + 2 < |s| && s[j] == '-' && s[j + 1] == '-' && IsDigit(s[j + 2])
  }

  /** The end of the run of digits starting at `j` (`\d+`, greedy). */
  function RunEnd(s: string, j: nat): (r: nat)
    requires j <= |s|
    ensures j <= r <= |s| && (r == |s| || !IsDigit(s[r]))
    ensures forall m :: j <= m < r ==> IsDigit(s[m])
    decreases |s| - j
  {
    if j < |s| && IsDigit(s[j]) then RunEnd(s, j + 1) else j
  }

  /** `.*--\d+` matches at `e`: a `--<digit>` lies ahead, with no line
      end before it unless `dotAll`. */
  predicate Ahead(s: string, e: nat, dotAll: bool)
    requires e <= |s|
    decreases |s| - e
  {
    e < |s| && (DashesDigitAt(s, e) || ((dotAll || !IsLineTerminator(s[e])) && Ahead(s, e + 1, dotAll)))
  }

  /** `--\d+(?!.*--\d+)` matches at `i`. Backtracking to a shorter digit
      run cannot help, since the lookahead then sees a longer text. */
  predicate MatchAt(s: string, i: nat, dotAll: bool)
  {
    DashesDigitAt(s, i) && !Ahead(s, RunEnd(s, i + 2), dotAll)
  }

  /** `replacingOccurrences(of:with:"",options:.regularExpression)` from
      position `i`: each match is dropped and the scan resumes after it. */
  function StripFrom(s: string, i: nat, dotAll: bool): string
    requires i <= |s|
    decreases |s| - i
  {
    if i == |s| then []
    else if MatchAt(s, i, dotAll) then StripFrom(s, RunEnd(s, i + 2), dotAll)
    else [s[i]] + StripFrom(s, i + 1, dotAll)
  }

  /** The prefix recovery as written: the pattern without options. */
  function StripCounter(s: string): string
  {
    StripFrom(s, 0, false)
  }

  /** The intended prefix recovery: the same pattern with dot-all. */
  function StripCounterDotAll(s: string): string
  {
    StripFrom(s, 0, true)
  }

  /** A `--<digit>` at `j`, seen from `e` across no line end (or any, with
      dot-all), makes the lookahead succeed at `e`. */
  lemma {:induction false} AheadReaches(s: string, e: nat, j: nat, dotAll: bool)
    requires e <= j && DashesDigitAt(s, j)
    requires forall m :: e <= m < j ==> dotAll || !IsLineTerminator(s[m])
    ensures Ahead(s, e, dotAll)
    decreases j - e
  {
    if e < j {
      AheadReaches(s, e + 1, j, dotAll);
    }
  }

  /** Stripping an id built by the counter scheme, from inside its prefix,
      gives the rest of the prefix. */
  lemma {:induction false} StripFromPrefix(prefix: string, k: nat, i: nat, dotAll: bool)
    requires i <= |prefix|
    requires dotAll || forall m :: 0 <= m < |prefix| ==> !IsLineTerminator(prefix[m])
    ensures StripFrom(HierarchyIds.MakeId(prefix, k), i, dotAll) == prefix[i..]
    decreases |prefix| - i
  {
    var s := HierarchyIds.MakeId(prefix, k);
    var p := |prefix|;
    var d := Decimal(k);
    assert s == prefix + "--" + d;
    assert DashesDigitAt(s, p) by { assert s[p + 2] == d[0]; }
    assert forall m :: p + 2 <= m < |s| ==> IsDigit(s[m]) by {
      forall m | p + 2 <= m < |s| ensures IsDigit(s[m]) { assert s[m] == d[m - p - 2]; }
    }
    if i == p {
      RunEndAllDigits(s, p + 2);
      assert !Ahead(s, |s|, dotAll);
      assert MatchAt(s, p, dotAll);
      assert StripFrom(s, |s|, dotAll) == [];
    } else {
      StripFromPrefix(prefix, k, i + 1, dotAll);
      if DashesDigitAt(s, i) {
        assert s[p] == '-' && s[p + 1] == '-';
        assert i + 2 <= p;
        var e := RunEnd(s, i + 2);
        assert e <= p;
        forall m | e <= m < p
          ensures dotAll || !IsLineTerminator(s[m])
        {
          assert s[m] == prefix[m];
        }
        AheadReaches(s, e, p, dotAll);
      }
      assert s[i] == prefix[i];
      assert prefix[i..] == [prefix[i]] + prefix[i + 1..];
    }
  }

  lemma {:induction false} RunEndAllDigits(s: string, j: nat)
    requires j <= |s| && forall m :: j <= m < |s| ==> IsDigit(s[m])
    ensures RunEnd(s, j) == |s|
    decreases |s| - j
  {
    if j < |s| {
      RunEndAllDigits(s, j + 1);
    }
  }

  /** The written recovery gives back the prefix of every id whose prefix
      has no line end. */
  lemma StripCounterRoundTrip(prefix: string, k: nat)
    requires forall m :: 0 <= m < |prefix| ==> !IsLineTerminator(prefix[m])
    ensures StripCounter(HierarchyIds.MakeId(prefix, k)) == prefix
  {
    StripFromPrefix(prefix, k, 0, false);
  }

  /** With dot-all the recovery gives back every prefix. */
  lemma StripCounterDotAllRoundTrip(prefix: string, k: nat)
    ensures StripCounterDotAll(HierarchyIds.MakeId(prefix, k)) == prefix
  {
    StripFromPrefix(prefix, k, 0, true);
  }

  /** Without dot-all the lookahead stops at a line end, so a prefix
      `"x--5\n"` loses its own `--5` as well. */
  lemma StripCounterAcrossLines()
    ensures HierarchyIds.MakeId("x--5\n", 0) == "x--5\n--0"
    ensures StripCounter("x--5\n--0") == "x\n"
  {
    var s := "x--5\n--0";
    assert Decimal(0) == "0";
    assert RunEnd(s, 8) == 8;
    assert RunEnd(s, 7) == 8;
    assert !Ahead(s, 8, false);
    assert MatchAt(s, 5, false);
    assert StripFrom(s, 5, false) == [];
    assert StripFrom(s, 4, false) == "\n";
    assert RunEnd(s, 4) == 4;
    assert RunEnd(s, 3) == 4;
    assert !Ahead(s, 4, false);
    assert MatchAt(s, 1, false);
    assert StripFrom(s, 1, false) == "\n";
    assert !DashesDigitAt(s, 0);
  }

  // ---------------------------------------------------------------------
  // The panel container

  /** The selection a packet shows: the ids of its pairs. */
  function SelectedIds(pairs: set<ActionableIdPair>): set<string>
  {
    set p | p in pairs :: p.hierarchyId
  }

  /** The pairs the binding's setter builds from the selected ids, with
      the pattern as written. */
  function PairsFor(ids: set<string>): (r: set<ActionableIdPair>)
    ensures forall p :: p in r <==> p.hierarchyId in ids && p.hierarchyIdPrefix == StripCounter(p.hierarchyId)
  {
    set id | id in ids :: ActionableIdPair(StripCounter(id), id)
  }

  /** Reading the selection back after setting it gives the set ids, and
      an id built from a prefix without a line end is paired with that
      prefix. */
  lemma PairsForRoundTrip(ids: set<string>, prefix: string, k: nat)
    requires forall m :: 0 <= m < |prefix| ==> !IsLineTerminator(prefix[m])
    ensures SelectedIds(PairsFor(ids)) == ids
    ensures HierarchyIds.MakeId(prefix, k) in ids ==>
              ActionableIdPair(prefix, HierarchyIds.MakeId(prefix, k)) in PairsFor(ids)
  {
    forall id | id in ids
      ensures id in SelectedIds(PairsFor(ids))
    {
      assert ActionableIdPair(StripCounter(id), id) in PairsFor(ids);
    }
    StripCounterRoundTrip(prefix, k);
  }

  /** As written, selecting the id of prefix `x--5\n` pairs it with `x\n`
      and not with its own prefix. */
  lemma PairsForAcrossLines()
    ensures PairsFor({"x--5\n--0"}) == {ActionableIdPair("x\n", "x--5\n--0")}
    ensures ActionableIdPair("x--5\n", HierarchyIds.MakeId("x--5\n", 0)) !in PairsFor({HierarchyIds.MakeId("x--5\n", 0)})
  {
    StripCounterAcrossLines();
  }

  /** The intended pairs: the prefix recovered with dot-all. */
  function IntendedPairsFor(ids: set<string>): (r: set<ActionableIdPair>)
    ensures forall p :: p in r <==> p.hierarchyId in ids && p.hierarchyIdPrefix == StripCounterDotAll(p.hierarchyId)
  {
    set id | id in ids :: ActionableIdPair(StripCounterDotAll(id), id)
  }

  /** With the intended pairs every id built from a prefix is paired with
      that prefix, and the selection reads back as set. */
  lemma IntendedPairsForRoundTrip(ids: set<string>, prefix: string, k: nat)
    ensures SelectedIds(IntendedPairsFor(ids)) == ids
    ensures HierarchyIds.MakeId(prefix, k) in ids ==>
              ActionableIdPair(prefix, HierarchyIds.MakeId(prefix, k)) in IntendedPairsFor(ids)
  {
    forall id | id in ids
      ensures id in SelectedIds(IntendedPairsFor(ids))
    {
      assert ActionableIdPair(StripCounterDotAll(id), id) in IntendedPairsFor(ids);
    }
    StripCounterDotAllRoundTrip(prefix, k);
  }

  class TreeViewContainer {
    var treeItemCache: map<string, TreeItem>
    /** The selections passed to `updateDelegates`, in order. */
    var delegateUpdates: seq<set<ActionableIdPair>>

    constructor ()
      ensures treeItemCache == map[] && delegateUpdates == []
    {
      treeItemCache := map[];
      delegateUpdates := [];
    }

    /** `convertTreeToTreeItem`: a cached item is returned as it is; on a
        miss the root is converted and cached, and a tree without a root
        traps (`fatalError`). */
    method ConvertTreeToTreeItem(tree: STree) returns (r: Result<TreeItem, string>)
      modifies this`treeItemCache
      ensures tree.id in old(treeItemCache) ==>
                r == Success(old(treeItemCache)[tree.id]) && treeItemCache == old(treeItemCache)
      ensures tree.id !in old(treeItemCache) && tree.rootNode.None? ==>
                r.Failure? && treeItemCache == old(treeItemCache)
      ensures tree.id !in old(treeItemCache) && tree.rootNode.Some? ==>
                r == Success(ItemOfNode(tree.rootNode.value)) &&
                treeItemCache == old(treeItemCache)[tree.id := ItemOfNode(tree.rootNode.value)]
    {
      if tree.id in treeItemCache {
        return Success(treeItemCache[tree.id]);
      }
      if tree.rootNode.None? {
        return Failure("rootNode is nil");
      }
      var item := ItemOfNode(tree.rootNode.value);
      treeItemCache := treeItemCache[tree.id := item];
      r := Success(item);
    }

    /** The selection binding's setter for the packet at `index`: the new
        pairs are sent to every client, stored in the packet and passed to
        the delegates. */
    method SetSelection(server: EditorServer.Server, index: nat, newIds: set<string>)
      requires index < |server.treePackets|
      modifies server`outbox, server`treePackets, this`delegateUpdates
      ensures server.treePackets == old(server.treePackets)[index := old(server.treePackets)[index].(actionableIds := PairsFor(newIds))]
      ensures delegateUpdates == old(delegateUpdates) + [PairsFor(newIds)]
      ensures |server.outbox| == |old(server.outbox)| + |server.clients.Keys|
      ensures server.outbox[..|old(server.outbox)|] == old(server.outbox)
      ensures forall o :: o in server.outbox[|old(server.outbox)|..] <==>
                o.to in server.clients && o.payload == EditorServer.SelectedIds(PairsFor(newIds), old(server.treePackets)[index].tree)
    {
      var idPairs := set id | id in newIds :: ActionableIdPair(StripCounter(id), id);
      assert idPairs == PairsFor(newIds);
      var tree := server.treePackets[index].tree;
      var payload := EditorServer.SelectedIds(idPairs, tree);
      SendToEveryClient(server, payload);
      server.treePackets := server.treePackets[index := server.treePackets[index].(actionableIds := idPairs)];
      delegateUpdates := delegateUpdates + [idPairs];
    }
  }

  /** The setter's loop over the server's clients: the payload sent once to
      each of them, in some order. */
  method SendToEveryClient(server: EditorServer.Server, payload: EditorServer.Payload)
    modifies server`outbox
    ensures |server.outbox| == |old(server.outbox)| + |server.clients.Keys|
    ensures server.outbox[..|old(server.outbox)|] == old(server.outbox)
    ensures forall o :: o in server.outbox[|old(server.outbox)|..] <==> o.to in server.clients && o.payload == payload
  {
    var pending := server.clients.Keys;
    ghost var sent: set<EditorServer.ClientId> := {};
    ghost var start := server.outbox;
    while pending != {}
      invariant pending + sent == server.clients.Keys && pending !! sent
      invariant |server.outbox| == |start| + |sent| && server.outbox[..|start|] == start
      invariant forall o :: o in server.outbox[|start|..] <==> o.to in sent && o.payload == payload
      decreases pending
    {
      var client :| client in pending;
      ghost var before := server.outbox;
      server.Send(payload, client);
      assert server.outbox == before + [EditorServer.Outgoing(client, payload)];
      assert server.outbox[|start|..] == before[|start|..] + [EditorServer.Outgoing(client, payload)];
      pending := pending - {client};
      sent := sent + {client};
    }
  }
}

/** The earlier view-hierarchy panel (editor/ViewHierarchy/TreeView.swift),
    whose descendant test follows first children only. */
module LegacyTreeView {
  import opened EditorTypes
  import EditorTreeView

  /** The ids down the first-child chain below an item, nearest first. */
  function FirstChain(t: TreeItem): (r: seq<string>)
    ensures t.children.OrEmpty() == [] <==> r == []
  {
    match t.children
    case Nil => []
    case List(cs) => if cs == [] then [] else [cs[0].id] + FirstChain(cs[0])
  }

  /** The loop of `_isDescendantSelected` as a value: its first turn
      returns, on the first child. */
  predicate FirstChainSelected(t: TreeItem, isSelected: set<string>)
  {
    match t.children
    case Nil => false
    case List(cs) => cs != [] && (cs[0].id in isSelected || FirstChainSelected(cs[0], isSelected))
  }

  /** The written test holds exactly when a node of the first-child chain
      is selected; items with nil or empty children report false. */
  lemma {:induction false} FirstChainSelectedIff(t: TreeItem, isSelected: set<string>)
    ensures FirstChainSelected(t, isSelected) <==> exists i :: 0 <= i < |FirstChain(t)| && FirstChain(t)[i] in isSelected
    decreases t
  {
    match t.children
    case Nil =>
    case List(cs) =>
      if cs != [] {
        FirstChainSelectedIff(cs[0], isSelected);
        var rest := FirstChain(cs[0]);
        assert FirstChain(t) == [cs[0].id] + rest;
        if exists i :: 0 <= i < |FirstChain(t)| && FirstChain(t)[i] in isSelected {
          var i :| 0 <= i < |FirstChain(t)| && FirstChain(t)[i] in isSelected;
          if i > 0 {
            assert rest[i - 1] in isSelected;
          }
        }
        if cs[0].id in isSelected {
          assert FirstChain(t)[0] in isSelected;
        } else if FirstChainSelected(cs[0], isSelected) {
          var i :| 0 <= i < |rest| && rest[i] in isSelected;
          assert FirstChain(t)[i + 1] in isSelected;
        }
      }
  }

  /** Whatever the first-child test finds, the full test finds too. */
  lemma {:induction false} FirstChainSelectedSound(t: TreeItem, isSelected: set<string>)
    requires FirstChainSelected(t, isSelected)
    ensures EditorTreeView.DescendantSelected(t, isSelected)
    decreases t
  {
    var cs := t.children.items;
    if cs[0].id !in isSelected {
      FirstChainSelectedSound(cs[0], isSelected);
    }
    assert cs[0].id in isSelected || EditorTreeView.DescendantSelected(cs[0], isSelected);
  }

  /** A selected second child goes unnoticed. */
  lemma FirstChainMissesSecondChild()
    ensures var t := TreeItem("0", "Zero", List([TreeItem("1", "One", Nil), TreeItem("3", "Three", Nil)]));
            !FirstChainSelected(t, {"3"}) && EditorTreeView.DescendantSelected(t, {"3"})
  {
    var t := TreeItem("0", "Zero", List([TreeItem("1", "One", Nil), TreeItem("3", "Three", Nil)]));
    assert t.children.items[1].id in {"3"};
  }

  class TreeNode {
    const item: TreeItem
    var isExpanded: set<string>
    var isSelected: set<string>

    constructor (item: TreeItem, isExpanded: set<string>, isSelected: set<string>)
      ensures this.item == item && this.isExpanded == isExpanded && this.isSelected == isSelected
    {
      this.item := item;
      this.isExpanded := isExpanded;
      this.isSelected := isSelected;
    }

    /** `_isDescendantSelected(node:)`, the loop with its early returns. */
    method IsDescendantSelected(node: TreeItem) returns (b: bool)
      ensures b == FirstChainSelected(node, isSelected)
      decreases node
    {
      match node.children
      case Nil =>
        return false;
      case List(children) =>
        for i := 0 to |children|
          invariant i == 0
        {
          if children[i].id in isSelected {
            return true;
          } else {
            b := IsDescendantSelected(children[i]);
            return;
          }
        }
        return false;
    }

    predicate IsNodeSelected()
      reads this
    {
      item.id in isSelected
    }

    /** Expanded by the user or above a first-chain selection; being
        selected itself does not count. */
    predicate IsNodeExpanded()
      reads this
    {
      item.id in isExpanded || FirstChainSelected(item, isSelected)
    }

    method ToggleExpanded()
      modifies this`isExpanded
      ensures old(IsNodeExpanded()) ==> isExpanded == old(isExpanded) - {item.id}
      ensures !old(IsNodeExpanded()) ==> isExpanded == old(isExpanded) + {item.id}
      ensures FirstChainSelected(item, isSelected) ==> IsNodeExpanded()
      ensures !FirstChainSelected(item, isSelected) ==> IsNodeExpanded() == !old(IsNodeExpanded())
    {
      var expanded := IsDescendantSelected(item);
      if item.id in isExpanded || expanded {
        isExpanded := isExpanded - {item.id};
      } else {
        isExpanded := isExpanded + {item.id};
      }
    }

    method ToggleSelected()
      modifies this`isSelected
      ensures item.id in isSelected <==> item.id !in old(isSelected)
      ensures forall y :: y != item.id ==> (y in isSelected <==> y in old(isSelected))
    {
      if IsNodeSelected() {
        isSelected := isSelected - {item.id};
      } else {
        isSelected := isSelected + {item.id};
      }
    }
  }
}

/** The compile-time preprocessor (preprocessor-swift/compile-time/Sources/main.swift):
    which files of a project directory it collects, and how it puts an
    `import Inertia` line into a source file. A directory tree is a value
    whose nodes carry a name and their children; a URL is the list of its
    path components. */
module Preprocessor {
  import opened Strings

  /** A directory entry: its name and, for a directory, its entries. */
  datatype Node = Node(name: string, children: seq<Node>)

  /** `skipsHiddenFiles`: hidden entries are not yielded or entered. */
  predicate Hidden(name: string)
  {
    |name| > 0 && name[0] == '.'
  }

  /** The skip test of `findSwiftFiles`: the last component is "build" or
      "Pods", or some component of the whole path starts with "build"
      without being "build". */
  predicate Skipped(path: seq<string>)
  {
    |path| > 0 &&
    (path[|path| - 1] == "build" || path[|path| - 1] == "Pods" ||
     exists i :: 0 <= i < |path| && StartsWith(path[i], "build") && path[i] != "build")
  }

  /** `pathExtension == "swift"` for a non-hidden last component: the name
      ends in ".swift" after at least one other character. */
  predicate IsSwiftPath(path: seq<string>)
  {
    |path| > 0 &&
    var name := path[|path| - 1];
    |name| > 6 && name[|name| - 6..] == ".swift"
  }

  /** The URLs `findSwiftFiles` collects under `prefix`, in the order the
      enumerator visits them (depth first, parents before children). */
  function CollectNodes(prefix: seq<string>, nodes: seq<Node>): seq<seq<string>>
    decreases nodes
  {
    if nodes == [] then []
    else CollectNode(prefix, nodes[0]) + CollectNodes(prefix, nodes[1..])
  }

  function CollectNode(prefix: seq<string>, node: Node): seq<seq<string>>
    decreases node
  {
    var path := prefix + [node.name];
    if Hidden(node.name) || Skipped(path) then []
    else (if IsSwiftPath(path) then [path] else []) + CollectNodes(path, node.children)
  }

  /** `p` names an entry the enumerator can reach under `prefix`. */
  predicate InTreeNodes(p: seq<string>, prefix: seq<string>, nodes: seq<Node>)
    decreases nodes
  {
    nodes != [] && (InTreeNode(p, prefix, nodes[0]) || InTreeNodes(p, prefix, nodes[1..]))
  }

  predicate InTreeNode(p: seq<string>, prefix: seq<string>, node: Node)
    decreases node
  {
    !Hidden(node.name) &&
    (p == prefix + [node.name] || InTreeNodes(p, prefix + [node.name], node.children))
  }

  /** No ancestor of `p` below `prefix`, nor `p` itself, is skipped. */
  ghost predicate Allowed(p: seq<string>, prefix: seq<string>)
  {
    forall k :: |prefix| < k <= |p| ==> !Skipped(p[..k])
  }

  lemma {:induction false} InTreeNodesExtends(p: seq<string>, prefix: seq<string>, nodes: seq<Node>)
    requires InTreeNodes(p, prefix, nodes)
    ensures |p| > |prefix| && p[..|prefix|] == prefix
    decreases nodes
  {
    if InTreeNode(p, prefix, nodes[0]) {
      InTreeNodeExtends(p, prefix, nodes[0]);
    } else {
      InTreeNodesExtends(p, prefix, nodes[1..]);
    }
  }

  lemma {:induction false} InTreeNodeExtends(p: seq<string>, prefix: seq<string>, node: Node)
    requires InTreeNode(p, prefix, node)
    ensures |p| > |prefix| && p[..|prefix| + 1] == prefix + [node.name]
    decreases node
  {
    var path := prefix + [node.name];
    if p != path {
      InTreeNodesExtends(p, path, node.children);
      assert p[..|prefix| + 1] == p[..|path|][..|prefix| + 1];
    }
  }

  /** A URL is collected exactly when the enumerator reaches it, its
      extension is "swift", and neither it nor any directory above it
      (below the root) is skipped. */
  lemma {:induction false} CollectNodesMembers(p: seq<string>, prefix: seq<string>, nodes: seq<Node>)
    ensures p in CollectNodes(prefix, nodes) <==>
      InTreeNodes(p, prefix, nodes) && IsSwiftPath(p) && Allowed(p, prefix)
    decreases nodes
  {
    if nodes != [] {
      CollectNodeMembers(p, prefix, nodes[0]);
      CollectNodesMembers(p, prefix, nodes[1..]);
    }
  }

  lemma {:induction false} CollectNodeMembers(p: seq<string>, prefix: seq<string>, node: Node)
    ensures p in CollectNode(prefix, node) <==>
      InTreeNode(p, prefix, node) && IsSwiftPath(p) && Allowed(p, prefix)
    decreases node
  {
    var path := prefix + [node.name];
    if InTreeNode(p, prefix, node) {
      InTreeNodeExtends(p, prefix, node);
      assert p[..|prefix| + 1] == path;
    }
    if !Hidden(node.name) && !Skipped(path) {
      CollectNodesMembers(p, path, node.children);
      if InTreeNodes(p, path, node.children) {
        InTreeNodesExtends(p, path, node.children);
        assert p != path;
        if Allowed(p, path) {
          assert Allowed(p, prefix) by {
            forall k | |prefix| < k <= |p|
              ensures !Skipped(p[..k])
            {
              if k == |path| {
                assert p[..k] == path;
              }
            }
          }
        }
      }
      if p == path {
        assert p[..|p|] == p;
        assert !InTreeNodes(p, path, node.children) by {
          if InTreeNodes(p, path, node.children) {
            InTreeNodesExtends(p, path, node.children);
          }
        }
      }
    }
  }

  /** The skip conditions, put in terms of the URL's own components: no
      component below the root is "build" or "Pods", and no component at
      all, the root's included, starts with "build" without being "build". */
  lemma AllowedComponents(p: seq<string>, prefix: seq<string>)
    requires |p| > |prefix|
    ensures Allowed(p, prefix) <==>
      (forall i :: |prefix| <= i < |p| ==> p[i] != "build" && p[i] != "Pods") &&
      (forall i :: 0 <= i < |p| ==> !(StartsWith(p[i], "build") && p[i] != "build"))
  {
    if Allowed(p, prefix) {
      forall i | |prefix| <= i < |p|
        ensures p[i] != "build" && p[i] != "Pods"
      {
        assert !Skipped(p[..i + 1]);
      }
      forall i | 0 <= i < |p|
        ensures !(StartsWith(p[i], "build") && p[i] != "build")
      {
        assert !Skipped(p[..|p|]);
        assert p[..|p|][i] == p[i];
      }
    }
  }

  /** A root whose own path has a component such as "builds" yields no
      files at all. */
  lemma BuildPrefixedRootCollectsNothing(root: seq<string>, nodes: seq<Node>, i: nat)
    requires i < |root| && StartsWith(root[i], "build") && root[i] != "build"
    ensures CollectNodes(root, nodes) == []
  {
    if CollectNodes(root, nodes) != [] {
      var p := CollectNodes(root, nodes)[0];
      CollectNodesMembers(p, root, nodes);
      InTreeNodesExtends(p, root, nodes);
      assert p[i] == root[i];
      AllowedComponents(p, root);
    }
  }

  /** A pending part of the walk: the siblings still to visit under `prefix`. */
  datatype Frame = Frame(prefix: seq<string>, nodes: seq<Node>)

  function CollectStack(stack: seq<Frame>): seq<seq<string>>
  {
    if stack == [] then []
    else CollectNodes(stack[0].prefix, stack[0].nodes) + CollectStack(stack[1..])
  }

  function ForestSize(nodes: seq<Node>): nat
    decreases nodes
  {
    if nodes == [] then 0 else 1 + ForestSize(nodes[0].children) + ForestSize(nodes[1..])
  }

  function StackWeight(stack: seq<Frame>): nat
  {
    if stack == [] then 0 else 2 * ForestSize(stack[0].nodes) + 1 + StackWeight(stack[1..])
  }

  /** Popping a frame's first node: the frame's URLs are that node's URLs
      followed by the rest of the frame. */
  lemma {:induction false} CollectStackPop(stack: seq<Frame>)
    requires stack != [] && stack[0].nodes != []
    ensures var top := stack[0];
      CollectStack(stack) ==
        CollectNode(top.prefix, top.nodes[0]) + CollectStack([Frame(top.prefix, top.nodes[1..])] + stack[1..])
  {
    var rest := [Frame(stack[0].prefix, stack[0].nodes[1..])] + stack[1..];
    assert rest[1..] == stack[1..];
  }

  /** Pushing a node's children in front of the rest of its frame. */
  lemma {:induction false} CollectStackPush(fileURL: seq<string>, children: seq<Node>, below: seq<Frame>)
    ensures CollectStack([Frame(fileURL, children)] + below) == CollectNodes(fileURL, children) + CollectStack(below)
  {
    assert ([Frame(fileURL, children)] + below)[1..] == below;
  }

  /** Both continuations of a step weigh less than the stack they came from. */
  lemma {:induction false} StepWeight(stack: seq<Frame>)
    requires stack != [] && stack[0].nodes != []
    ensures var top := stack[0];
      var node, rest := top.nodes[0], Frame(top.prefix, top.nodes[1..]);
      StackWeight([rest] + stack[1..]) < StackWeight(stack) &&
      StackWeight([Frame(top.prefix + [node.name], node.children)] + ([rest] + stack[1..])) < StackWeight(stack)
  {
    var top := stack[0];
    var node, rest := top.nodes[0], Frame(top.prefix, top.nodes[1..]);
    assert ForestSize(top.nodes) == 1 + ForestSize(node.children) + ForestSize(rest.nodes);
    var popped := [rest] + stack[1..];
    assert popped[1..] == stack[1..];
    var next := [Frame(top.prefix + [node.name], node.children)] + popped;
    assert next[1..] == popped;
  }

  /** `findSwiftFiles(in:)` over the directory whose URL has components
      `root`: the enumerator's walk, with `skipDescendants` leaving a
      skipped directory's entries out. */
  method FindSwiftFiles(root: seq<string>, contents: seq<Node>) returns (swiftFiles: seq<seq<string>>)
    ensures swiftFiles == CollectNodes(root, contents)
    ensures forall p :: p in swiftFiles <==>
      InTreeNodes(p, root, contents) && IsSwiftPath(p) && Allowed(p, root)
  {
    swiftFiles := [];
    var stack := [Frame(root, contents)];
    assert CollectStack(stack) == CollectNodes(root, contents) + CollectStack([]);
    while stack != []
      invariant swiftFiles + CollectStack(stack) == CollectNodes(root, contents)
      decreases StackWeight(stack)
    {
      var found;
      found, stack := EnumerateNext(stack);
      swiftFiles := swiftFiles + found;
    }
    forall p
      ensures p in swiftFiles <==> InTreeNodes(p, root, contents) && IsSwiftPath(p) && Allowed(p, root)
    {
      CollectNodesMembers(p, root, contents);
    }
  }

  /** One step of the enumerator: the next entry is visited (and, when it
      is a Swift file, reported), and its entries are queued unless it is
      hidden or skipped. */
  method EnumerateNext(stack: seq<Frame>) returns (found: seq<seq<string>>, next: seq<Frame>)
    requires stack != []
    ensures found + CollectStack(next) == CollectStack(stack)
    ensures StackWeight(next) < StackWeight(stack)
  {
    var top := stack[0];
    if top.nodes == [] {
      found, next := [], stack[1..];
      return;
    }
    StepWeight(stack);
    var node := top.nodes[0];
    var below := [Frame(top.prefix, top.nodes[1..])] + stack[1..];
    var fileURL := top.prefix + [node.name];
    if Hidden(node.name) || Skipped(fileURL) {
      SkipStep(stack);
      found, next := [], below;
    } else {
      VisitStep(stack);
      found := if IsSwiftPath(fileURL) then [fileURL] else [];
      next := [Frame(fileURL, node.children)] + below;
    }
  }

  /** A hidden or skipped entry adds nothing, and its entries are not
      visited. */
  lemma SkipStep(stack: seq<Frame>)
    requires stack != [] && stack[0].nodes != []
    requires var top := stack[0];
      Hidden(top.nodes[0].name) || Skipped(top.prefix + [top.nodes[0].name])
    ensures var top := stack[0];
      CollectStack([Frame(top.prefix, top.nodes[1..])] + stack[1..]) == CollectStack(stack)
  {
    var top := stack[0];
    CollectStackPop(stack);
    assert CollectNode(top.prefix, top.nodes[0]) == [];
  }

  /** Any other entry is reported when it is a Swift file, and its entries
      are visited next, before the rest of its frame. */
  lemma VisitStep(stack: seq<Frame>)
    requires stack != [] && stack[0].nodes != []
    requires var top := stack[0];
      !(Hidden(top.nodes[0].name) || Skipped(top.prefix + [top.nodes[0].name]))
    ensures var top := stack[0];
      var fileURL := top.prefix + [top.nodes[0].name];
      (if IsSwiftPath(fileURL) then [fileURL] else []) +
        CollectStack([Frame(fileURL, top.nodes[0].children)] + ([Frame(top.prefix, top.nodes[1..])] + stack[1..]))
      == CollectStack(stack)
  {
    var top := stack[0];
    var node := top.nodes[0];
    var fileURL := top.prefix + [node.name];
    var below := [Frame(top.prefix, top.nodes[1..])] + stack[1..];
    CollectStackPop(stack);
    var found := if IsSwiftPath(fileURL) then [fileURL] else [];
    assert CollectNode(top.prefix, node) == found + CollectNodes(fileURL, node.children);
    CollectStackPush(fileURL, node.children, below);
  }

  const ImportLine := "import Inertia"

  predicate IsImport(line: string)
  {
    StartsWith(line, "import ")
  }

  /** A line that ends the scan for the insertion point: not an import, not
      empty, and not a `//` comment once trimmed. */
  predicate EndsScan(line: string)
  {
    !IsImport(line) && !StartsWith(Trim(line), "//") && line != ""
  }

  /** `r` is where the new import goes: just after an import line, or at
      the top; only imports, comments and empty lines come before it; and
      every import after it comes after a line that ended the scan. */
  ghost predicate IsInsertionIndex(lines: seq<string>, r: int)
  {
    0 <= r <= |lines| &&
    (r > 0 ==> IsImport(lines[r - 1])) &&
    (forall i :: 0 <= i < r ==> !EndsScan(lines[i])) &&
    (forall i :: r <= i < |lines| && IsImport(lines[i]) ==>
       exists j :: r <= j < i && EndsScan(lines[j]))
  }

  /** The insertion point is determined by the lines. */
  lemma InsertionIndexUnique(lines: seq<string>, r: int, s: int)
    requires IsInsertionIndex(lines, r) && IsInsertionIndex(lines, s)
    ensures r == s
  {
  }

  /** What the scan knows after `index` lines: `insertIndex` is one past
      the last import seen (or 0), and no line so far ended the scan. */
  ghost predicate ScanInv(lines: seq<string>, insertIndex: int, index: int)
  {
    0 <= insertIndex <= index <= |lines| &&
    (insertIndex > 0 ==> IsImport(lines[insertIndex - 1])) &&
    (forall i :: 0 <= i < index ==> !EndsScan(lines[i])) &&
    (forall i :: insertIndex <= i < index ==> !IsImport(lines[i]))
  }

  /** An import line moves the insertion point past it. */
  lemma ScanImport(lines: seq<string>, insertIndex: int, index: int)
    requires ScanInv(lines, insertIndex, index) && index < |lines| && IsImport(lines[index])
    ensures ScanInv(lines, index + 1, index + 1)
  {
  }

  /** A comment or an empty line is passed over. */
  lemma ScanSkip(lines: seq<string>, insertIndex: int, index: int)
    requires ScanInv(lines, insertIndex, index) && index < |lines|
    requires !IsImport(lines[index]) && !EndsScan(lines[index])
    ensures ScanInv(lines, insertIndex, index + 1)
  {
  }

  lemma ScanStop(lines: seq<string>, insertIndex: int, index: int)
    requires ScanInv(lines, insertIndex, index) && index < |lines| && EndsScan(lines[index])
    ensures IsInsertionIndex(lines, insertIndex)
  {
    forall i | insertIndex <= i < |lines| && IsImport(lines[i])
      ensures exists j :: insertIndex <= j < i && EndsScan(lines[j])
    {
      assert index < i && EndsScan(lines[index]);
    }
  }

  /** The scan of `appendVibeModifier`: remember one past each import,
      stop at the first line that is neither import, comment nor empty. */
  method InsertionIndex(lines: seq<string>) returns (insertIndex: int)
    ensures IsInsertionIndex(lines, insertIndex)
  {
    insertIndex := 0;
    var index := 0;
    while index < |lines|
      invariant ScanInv(lines, insertIndex, index)
    {
      var line := lines[index];
      if IsImport(line) {
        ScanImport(lines, insertIndex, index);
        insertIndex := index + 1;
      } else if !StartsWith(Trim(line), "//") && line != "" {
        ScanStop(lines, insertIndex, index);
        return;
      } else {
        ScanSkip(lines, insertIndex, index);
      }
      index := index + 1;
    }
  }

  lemma {:induction false} ContainsAfter(pre: string, s: string, sub: string)
    requires Contains(s, sub)
    ensures Contains(pre + s, sub)
    decreases |pre|
  {
    if pre != [] {
      assert (pre + s)[1..] == pre[1..] + s;
      ContainsAfter(pre[1..], s, sub);
      assert Contains((pre + s)[1..], sub);
    } else {
      assert pre + s == s;
    }
  }

  lemma {:induction false} ContainsBefore(s: string, post: string, sub: string)
    requires Contains(s, sub)
    ensures Contains(s + post, sub)
    decreases |s|
  {
    if StartsWith(s, sub) {
      assert (s + post)[..|sub|] == s[..|sub|];
    } else {
      assert (s + post)[1..] == s[1..] + post;
      ContainsBefore(s[1..], post, sub);
    }
  }

  /** Each piece of a joined list is a substring of the result. */
  lemma {:induction false} ContainsJoined(pieces: seq<string>, i: nat, sep: char)
    requires i < |pieces|
    ensures Contains(Join(pieces, sep), pieces[i])
    decreases |pieces|
  {
    if i == 0 {
      assert StartsWith(pieces[0], pieces[0]);
      if |pieces| > 1 {
        ContainsBefore(pieces[0], [sep] + Join(pieces[1..], sep), pieces[0]);
        assert pieces[0] + [sep] + Join(pieces[1..], sep) == pieces[0] + ([sep] + Join(pieces[1..], sep));
      }
    } else {
      ContainsJoined(pieces[1..], i - 1, sep);
      ContainsAfter(pieces[0] + [sep], Join(pieces[1..], sep), pieces[i]);
    }
  }

  /** `updated` is `content` with the import line inserted as line `r`,
      the insertion point of its lines. */
  ghost predicate ImportInsertedAt(content: string, updated: string, r: int)
  {
    var lines := SplitOn(content, '\n');
    IsInsertionIndex(lines, r) &&
    SplitOn(updated, '\n') == lines[..r] + [ImportLine] + lines[r..]
  }

  /** The import step of `appendVibeModifier` on the rewritten source: a
      file that mentions "import Inertia" anywhere is left as it is;
      otherwise exactly one line "import Inertia" is inserted at the
      insertion point and every other line keeps its text and order. The
      result always mentions "import Inertia", so a second run leaves it
      unchanged. */
  method AppendImport(sourceFileContent: string) returns (updated: string)
    ensures Contains(sourceFileContent, ImportLine) ==> updated == sourceFileContent
    ensures !Contains(sourceFileContent, ImportLine) ==>
      exists r :: ImportInsertedAt(sourceFileContent, updated, r)
    ensures Contains(updated, ImportLine)
  {
    if Contains(sourceFileContent, ImportLine) {
      return sourceFileContent;
    }
    var lines := SplitOn(sourceFileContent, '\n');
    var insertIndex := InsertionIndex(lines);
    var inserted := lines[..insertIndex] + [ImportLine] + lines[insertIndex..];
    updated := Join(inserted, '\n');
    assert forall i :: 0 <= i < |inserted| ==> Excludes(inserted[i], '\n') by {
      forall i | 0 <= i < |inserted|
        ensures Excludes(inserted[i], '\n')
      {
        if i < insertIndex {
          assert inserted[i] == lines[i];
        } else if i > insertIndex {
          assert inserted[i] == lines[i - 1];
        }
      }
    }
    SplitJoin(inserted, '\n');
    assert inserted[insertIndex] == ImportLine;
    ContainsJoined(inserted, insertIndex, '\n');
    assert ImportInsertedAt(sourceFileContent, updated, insertIndex);
  }
}

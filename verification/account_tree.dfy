/**
 * The chart-of-accounts tree: each node renders its own line, indented by
 * its level, then (while expanded) its children one level deeper, or (while
 * collapsed) a "+ Add Category" line. Every node keeps its own expanded flag,
 * which starts true and lives only while the node is mounted, so collapsing a
 * node forgets the flags of everything under it. Here the flags are held as
 * the set of collapsed nodes, each named by its path of child positions from
 * the root list.
 */
module AccountTree {
  import opened Wrappers

  datatype AccountKind = Debit | Credit | DebitOrCredit

  /** An account node; `children` is the empty sequence when the source leaves it out. */
  datatype Node = Node(
    id: string,
    name: string,
    accountCode: Option<string>,
    kind: Option<AccountKind>,
    isLocked: bool,
    children: seq<Node>)

  type Path = seq<nat>

  /** `hasChildren`: the node is a parent exactly when it has at least one child. */
  predicate HasChildren(n: Node) {
    |n.children| > 0
  }

  /** A node's own line: the controls it shows and its left padding. */
  datatype Controls = Controls(toggle: bool, addCategory: bool, edit: bool, viewDetail: bool, spacer: bool)

  datatype Line =
    | NodeLine(node: Node, path: Path, level: nat, paddingPx: nat, controls: Controls)
    | AddCategoryLine(path: Path, level: nat)

  /** The controls on a node's line: parents get the toggle and "Add Category", leaves get "Edit" and "View Detail". */
  function ControlsOf(n: Node, level: nat): (c: Controls)
    ensures c.toggle <==> HasChildren(n)
    ensures c.addCategory <==> HasChildren(n)
    ensures c.edit <==> !HasChildren(n)
    ensures c.viewDetail <==> !HasChildren(n)
    ensures c.spacer <==> !HasChildren(n) && level > 0
  {
    var parent := HasChildren(n);
    Controls(parent, parent, !parent, !parent, !parent && level > 0)
  }

  /** No node offers both the parent actions and the leaf actions. */
  lemma ParentOrLeafActions(n: Node, level: nat)
    ensures var c := ControlsOf(n, level); !(c.addCategory && c.edit) && (c.addCategory || c.edit)
  {
  }

  predicate Expanded(collapsed: set<Path>, p: Path) {
    p !in collapsed
  }

  /** `q` names a node strictly inside the subtree of the node named `p`. */
  predicate Below(p: Path, q: Path) {
    |q| > |p| && q[..|p|] == p
  }

  /** The flags that survive when the subtree under `p` unmounts: everything not strictly below `p`. */
  function Forget(collapsed: set<Path>, p: Path): (r: set<Path>)
    ensures forall q :: q in r <==> q in collapsed && !Below(p, q)
  {
    set q | q in collapsed && !Below(p, q)
  }

  /**
   * The toggle button flips the node's own flag. Collapsing a node unmounts
   * its descendants, and they mount again with the flag `true`, so collapsing
   * also forgets every flag strictly below it.
   */
  function Toggle(collapsed: set<Path>, p: Path): (r: set<Path>)
    ensures Expanded(r, p) <==> !Expanded(collapsed, p)
    ensures forall q :: q != p && !Below(p, q) ==> (Expanded(r, q) <==> Expanded(collapsed, q))
    ensures !Expanded(r, p) ==> forall q :: Below(p, q) ==> Expanded(r, q)
    ensures Expanded(r, p) ==> forall q :: Below(p, q) ==> (Expanded(r, q) <==> Expanded(collapsed, q))
  {
    if p in collapsed then collapsed - {p} else Forget(collapsed, p) + {p}
  }

  /**
   * Collapsing and re-expanding a node (or the reverse) leaves every flag as
   * it was except those strictly below it, which are reset to expanded; when
   * none of those was collapsed, the state is restored exactly.
   */
  lemma ToggleTwice(collapsed: set<Path>, p: Path)
    ensures Toggle(Toggle(collapsed, p), p) == Forget(collapsed, p)
    ensures (forall q :: q in collapsed ==> !Below(p, q)) ==> Toggle(Toggle(collapsed, p), p) == collapsed
  {
  }

  /**
   * The flags of mounted nodes only: no collapsed node lies inside the subtree
   * of another collapsed node, because that subtree is not mounted.
   */
  ghost predicate Mounted(collapsed: set<Path>) {
    forall q, r :: q in collapsed && r in collapsed ==> !Below(q, r)
  }

  /**
   * The toggle button is on screen only when no ancestor of the node is
   * collapsed; the root list itself (the empty path) is never collapsed.
   */
  ghost predicate OnScreen(collapsed: set<Path>, p: Path) {
    forall k :: 0 <= k < |p| ==> Expanded(collapsed, p[..k])
  }

  /** Toggling a node on screen keeps the flags those of mounted nodes. */
  lemma TogglePreservesMounted(collapsed: set<Path>, p: Path)
    requires Mounted(collapsed) && OnScreen(collapsed, p)
    ensures Mounted(Toggle(collapsed, p))
  {
  }

  /** The lines of one node rendered at `level` under `path`. */
  function RenderNode(n: Node, path: Path, level: nat, collapsed: set<Path>): (lines: seq<Line>)
    ensures |lines| >= 1 && lines[0] == NodeLine(n, path, level, level * 20, ControlsOf(n, level))
    decreases n
  {
    var open := Expanded(collapsed, path);
    [NodeLine(n, path, level, level * 20, ControlsOf(n, level))]
    + (if open && HasChildren(n) then RenderList(n.children, path, 0, level + 1, collapsed) else [])
    + (if HasChildren(n) && !open then [AddCategoryLine(path, level)] else [])
  }

  /** The lines of `nodes`, the children of `parent` from position `first` on. */
  function RenderList(nodes: seq<Node>, parent: Path, first: nat, level: nat, collapsed: set<Path>): seq<Line>
    decreases nodes
  {
    if |nodes| == 0 then []
    else RenderNode(nodes[0], parent + [first], level, collapsed) + RenderList(nodes[1..], parent, first + 1, level, collapsed)
  }

  /** The whole chart: the root list at level 0. */
  function Render(roots: seq<Node>, collapsed: set<Path>): seq<Line> {
    RenderList(roots, [], 0, 0, collapsed)
  }

  /**
   * Every line below a node is rendered at the node's level plus its depth
   * below the node, and is padded by 20px per level: rendered from the root
   * list, a line's level is its depth in the tree.
   */
  lemma {:induction false} LevelIsDepthList(nodes: seq<Node>, parent: Path, first: nat, level: nat, collapsed: set<Path>)
    requires level == |parent|
    ensures forall i :: 0 <= i < |RenderList(nodes, parent, first, level, collapsed)| ==>
      var l := RenderList(nodes, parent, first, level, collapsed)[i];
      |l.path| > |parent| && l.path[..|parent|] == parent &&
      (l.NodeLine? ==> l.level == |l.path| - 1 && l.paddingPx == l.level * 20) &&
      (l.AddCategoryLine? ==> l.level == |l.path| - 1)
    decreases nodes
  {
    if |nodes| > 0 {
      var p := parent + [first];
      LevelIsDepthNode(nodes[0], p, level, collapsed);
      LevelIsDepthList(nodes[1..], parent, first + 1, level, collapsed);
      var a := RenderNode(nodes[0], p, level, collapsed);
      var b := RenderList(nodes[1..], parent, first + 1, level, collapsed);
      forall i | 0 <= i < |a| ensures a[i].path[..|parent|] == parent {
        assert a[i].path[..|p|] == p;
        assert a[i].path[..|parent|] == a[i].path[..|p|][..|parent|];
      }
    }
  }

  lemma {:induction false} LevelIsDepthNode(n: Node, path: Path, level: nat, collapsed: set<Path>)
    requires level + 1 == |path|
    ensures forall i :: 0 <= i < |RenderNode(n, path, level, collapsed)| ==>
      var l := RenderNode(n, path, level, collapsed)[i];
      |l.path| >= |path| && l.path[..|path|] == path &&
      (l.NodeLine? ==> l.level == |l.path| - 1 && l.paddingPx == l.level * 20) &&
      (l.AddCategoryLine? ==> l.level == |l.path| - 1)
    decreases n
  {
    if Expanded(collapsed, path) && HasChildren(n) {
      LevelIsDepthList(n.children, path, 0, level + 1, collapsed);
    }
  }

  /** In the whole chart every line sits at its node's depth below the root list, padded 20px per level. */
  lemma RenderedLevelIsDepth(roots: seq<Node>, collapsed: set<Path>)
    ensures forall i :: 0 <= i < |Render(roots, collapsed)| ==>
      var l := Render(roots, collapsed)[i];
      |l.path| > 0 && l.level == |l.path| - 1 && (l.NodeLine? ==> l.paddingPx == 20 * l.level)
  {
    LevelIsDepthList(roots, [], 0, 0, collapsed);
  }

  /** A collapsed parent renders its own line and the "+ Add Category" line, and none of its descendants. */
  lemma CollapsedParent(n: Node, path: Path, level: nat, collapsed: set<Path>)
    requires HasChildren(n) && !Expanded(collapsed, path)
    ensures RenderNode(n, path, level, collapsed) ==
      [NodeLine(n, path, level, level * 20, ControlsOf(n, level)), AddCategoryLine(path, level)]
  {
  }

  /** A leaf renders one line whatever its flag says. */
  lemma LeafIsOneLine(n: Node, path: Path, level: nat, collapsed: set<Path>)
    requires !HasChildren(n)
    ensures RenderNode(n, path, level, collapsed) == [NodeLine(n, path, level, level * 20, ControlsOf(n, level))]
  {
  }

  /** Every node of the forest, in pre-order. */
  function Flatten(nodes: seq<Node>): seq<Node>
    decreases nodes
  {
    if |nodes| == 0 then [] else FlattenNode(nodes[0]) + Flatten(nodes[1..])
  }

  function FlattenNode(n: Node): seq<Node>
    decreases n
  {
    [n] + Flatten(n.children)
  }

  /** The nodes whose own lines appear, in order. */
  function NodesOf(lines: seq<Line>): (nodes: seq<Node>)
    ensures |nodes| <= |lines|
    decreases |lines|
  {
    if |lines| == 0 then []
    else (if lines[0].NodeLine? then [lines[0].node] else []) + NodesOf(lines[1..])
  }

  lemma {:induction false} NodesOfConcat(a: seq<Line>, b: seq<Line>)
    ensures NodesOf(a + b) == NodesOf(a) + NodesOf(b)
    decreases |a|
  {
    if |a| > 0 {
      assert (a + b)[0] == a[0];
      assert (a + b)[1..] == a[1..] + b;
      NodesOfConcat(a[1..], b);
    } else {
      assert a + b == b;
    }
  }

  /** No collapsed flag at `p` or anywhere inside its subtree. */
  predicate OpenFrom(collapsed: set<Path>, p: Path) {
    forall q :: q in collapsed ==> !(|q| >= |p| && q[..|p|] == p)
  }

  /** A subtree with no collapsed flag has none in the subtree of any child either. */
  lemma OpenFromChild(collapsed: set<Path>, parent: Path, j: nat)
    requires OpenFrom(collapsed, parent)
    ensures OpenFrom(collapsed, parent + [j])
  {
    forall q | q in collapsed
      ensures !(|q| >= |parent| + 1 && q[..|parent| + 1] == parent + [j])
    {
      if |q| >= |parent| + 1 {
        assert q[..|parent|] == q[..|parent| + 1][..|parent|];
      }
    }
  }

  /**
   * With no flag collapsed in a subtree, the subtree is shown whole, in
   * pre-order, with no "+ Add Category" line.
   */
  lemma {:induction false} OpenSubtreeList(nodes: seq<Node>, parent: Path, first: nat, level: nat, collapsed: set<Path>)
    requires OpenFrom(collapsed, parent)
    ensures var lines := RenderList(nodes, parent, first, level, collapsed);
      NodesOf(lines) == Flatten(nodes) && |lines| == |Flatten(nodes)|
    decreases nodes
  {
    if |nodes| > 0 {
      OpenFromChild(collapsed, parent, first);
      OpenSubtreeNode(nodes[0], parent + [first], level, collapsed);
      OpenSubtreeList(nodes[1..], parent, first + 1, level, collapsed);
      NodesOfConcat(RenderNode(nodes[0], parent + [first], level, collapsed), RenderList(nodes[1..], parent, first + 1, level, collapsed));
    }
  }

  lemma {:induction false} OpenSubtreeNode(n: Node, path: Path, level: nat, collapsed: set<Path>)
    requires OpenFrom(collapsed, path)
    ensures var lines := RenderNode(n, path, level, collapsed);
      NodesOf(lines) == FlattenNode(n) && |lines| == |FlattenNode(n)|
    decreases n
  {
    assert path[..|path|] == path;
    assert Expanded(collapsed, path);
    var head := [NodeLine(n, path, level, level * 20, ControlsOf(n, level))];
    if HasChildren(n) {
      OpenSubtreeList(n.children, path, 0, level + 1, collapsed);
      var rest := RenderList(n.children, path, 0, level + 1, collapsed);
      assert RenderNode(n, path, level, collapsed) == head + rest;
      NodesOfConcat(head, rest);
    } else {
      assert n.children == [];
      assert RenderNode(n, path, level, collapsed) == head;
    }
  }

  /** Every flag starts true, so the chart as first shown lists every account, parents before their children. */
  lemma InitialRender(roots: seq<Node>)
    ensures NodesOf(Render(roots, {})) == Flatten(roots)
    ensures |Render(roots, {})| == |Flatten(roots)|
  {
    OpenSubtreeList(roots, [], 0, 0, {});
  }

  /** Collapsing an expanded node and expanding it again shows its whole subtree, every descendant expanded. */
  lemma ReopenShowsWholeSubtree(n: Node, path: Path, level: nat, collapsed: set<Path>)
    requires Expanded(collapsed, path)
    ensures NodesOf(RenderNode(n, path, level, Toggle(Toggle(collapsed, path), path))) == FlattenNode(n)
  {
    ToggleTwice(collapsed, path);
    var r := Toggle(Toggle(collapsed, path), path);
    forall q | q in r
      ensures !(|q| >= |path| && q[..|path|] == path)
    {
      if |q| == |path| {
        assert q[..|path|] == q;
      }
    }
    OpenSubtreeNode(n, path, level, r);
  }

  /** Expanding a collapsed node whose flags are those of mounted nodes shows its whole subtree. */
  lemma ExpandShowsWholeSubtree(n: Node, path: Path, level: nat, collapsed: set<Path>)
    requires Mounted(collapsed) && !Expanded(collapsed, path)
    ensures NodesOf(RenderNode(n, path, level, Toggle(collapsed, path))) == FlattenNode(n)
  {
    var r := Toggle(collapsed, path);
    forall q | q in r
      ensures !(|q| >= |path| && q[..|path|] == path)
    {
      if |q| == |path| {
        assert q[..|path|] == q;
      } else {
        assert q in collapsed && path in collapsed;
      }
    }
    OpenSubtreeNode(n, path, level, r);
  }

  /** Collapsing nodes never shows more account lines than the fully open tree. */
  lemma {:induction false} CollapsingShowsFewerList(nodes: seq<Node>, parent: Path, first: nat, level: nat, collapsed: set<Path>)
    ensures |NodesOf(RenderList(nodes, parent, first, level, collapsed))| <= |Flatten(nodes)|
    decreases nodes
  {
    if |nodes| > 0 {
      CollapsingShowsFewerNode(nodes[0], parent + [first], level, collapsed);
      CollapsingShowsFewerList(nodes[1..], parent, first + 1, level, collapsed);
      NodesOfConcat(RenderNode(nodes[0], parent + [first], level, collapsed), RenderList(nodes[1..], parent, first + 1, level, collapsed));
    }
  }

  lemma {:induction false} CollapsingShowsFewerNode(n: Node, path: Path, level: nat, collapsed: set<Path>)
    ensures |NodesOf(RenderNode(n, path, level, collapsed))| <= |FlattenNode(n)|
    decreases n
  {
    var head := [NodeLine(n, path, level, level * 20, ControlsOf(n, level))];
    var open := Expanded(collapsed, path);
    var mid := if open && HasChildren(n) then RenderList(n.children, path, 0, level + 1, collapsed) else [];
    var tail := if HasChildren(n) && !open then [AddCategoryLine(path, level)] else [];
    assert RenderNode(n, path, level, collapsed) == head + mid + tail;
    NodesOfConcat(head + mid, tail);
    NodesOfConcat(head, mid);
    assert NodesOf(tail) == [] by {
      if tail != [] {
        assert tail[1..] == [];
      }
    }
    if open && HasChildren(n) {
      CollapsingShowsFewerList(n.children, path, 0, level + 1, collapsed);
    }
  }
}

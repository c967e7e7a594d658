/**
 * The interactive skills web (src/components/NodeWebVisualization.jsx): the
 * set of expanded node ids, the zoom level, the pan state, and the effect
 * that lays the tree out again whenever the expanded set changes.
 *
 * The component's `useState` hooks are the fields of a class, each handler
 * is a method, and the `useEffect` on the expanded set is the method
 * `Recompute`, which the component runs after every change of that set.
 */
module NodeWebView {
  import opened Geometry
  import opened SkillTree
  import opened TreeLayoutUtils

  const MinZoom: real := 0.3
  const MaxZoom: real := 3.0
  const ZoomStep: real := 0.2

  /** `Math.min(zoom + 0.2, 3)`. */
  function ZoomIn(zoom: real): (r: real)
    ensures r <= zoom + ZoomStep && r <= MaxZoom
    ensures r == zoom + ZoomStep || r == MaxZoom
  {
    if zoom + ZoomStep <= MaxZoom then zoom + ZoomStep else MaxZoom
  }

  /** `Math.max(zoom - 0.2, 0.3)`. */
  function ZoomOut(zoom: real): (r: real)
    ensures zoom - ZoomStep <= r && MinZoom <= r
    ensures r == zoom - ZoomStep || r == MinZoom
  {
    if zoom - ZoomStep >= MinZoom then zoom - ZoomStep else MinZoom
  }

  /** The zoom buttons: in, out, and reset. */
  datatype ZoomButton = In | Out | Reset

  /** The zoom level after pressing the buttons in order, from `zoom`. */
  function ZoomAfter(zoom: real, presses: seq<ZoomButton>): real
  {
    if presses == [] then zoom
    else
      var z := ZoomAfter(zoom, presses[..|presses| - 1]);
      match presses[|presses| - 1]
      case In => ZoomIn(z)
      case Out => ZoomOut(z)
      case Reset => 1.0
  }

  /** From the initial zoom of 1, no sequence of presses leaves [0.3, 3]. */
  lemma {:induction false} ZoomStaysInRange(presses: seq<ZoomButton>)
    ensures MinZoom <= ZoomAfter(1.0, presses) <= MaxZoom
  {
    if presses != [] {
      ZoomStaysInRange(presses[..|presses| - 1]);
    }
  }

  /** The ids of the proper descendants of `n`. */
  function DescendantIds(n: Node): set<string> {
    set m | m in SubtreesUpTo(n, |n.children|) :: m.id
  }

  /**
   * The ids `collapseChildren(n.id)` deletes when `positions` holds the
   * layout: nothing when `n` has no position, and otherwise each child's
   * id together with what collapsing that child deletes.
   */
  function Collapsed(n: Node, positions: map<string, Position>): set<string>
    decreases n, 1
  {
    if n.id in positions then CollapsedUpTo(n, positions, |n.children|) else {}
  }

  /** What the first `k` iterations of the `forEach` over `n`'s children delete. */
  function CollapsedUpTo(n: Node, positions: map<string, Position>, k: nat): set<string>
    requires k <= |n.children|
    decreases n, 0, k
  {
    if k == 0 then {}
    else CollapsedUpTo(n, positions, k - 1) + {n.children[k - 1].id} + Collapsed(n.children[k - 1], positions)
  }

  /** Collapsing deletes only ids of the node's proper descendants. */
  lemma {:induction false} CollapsedBelow(n: Node, positions: map<string, Position>)
    ensures Collapsed(n, positions) <= DescendantIds(n)
    decreases n, 1
  {
    if n.id in positions {
      CollapsedUpToBelow(n, positions, |n.children|);
    }
  }

  lemma {:induction false} CollapsedUpToBelow(n: Node, positions: map<string, Position>, k: nat)
    requires k <= |n.children|
    ensures CollapsedUpTo(n, positions, k) <= DescendantIds(n)
    decreases n, 0, k
  {
    if k > 0 {
      var child := n.children[k - 1];
      CollapsedUpToBelow(n, positions, k - 1);
      CollapsedBelow(child, positions);
      SubtreesUpToMono(n, |n.children|, k - 1, child);
      forall x | x in DescendantIds(child) ensures x in DescendantIds(n) {
        var m :| m in SubtreesUpTo(child, |child.children|) && m.id == x;
        SubtreesUpToMono(n, |n.children|, k - 1, m);
      }
    }
  }

  /** Collapsing a node that has a position deletes every child's id. */
  lemma {:induction false} CollapsedChildren(n: Node, positions: map<string, Position>, k: nat)
    requires n.id in positions && k <= |n.children|
    ensures forall i :: 0 <= i < k ==> n.children[i].id in CollapsedUpTo(n, positions, k)
  {
    if k > 0 {
      CollapsedChildren(n, positions, k - 1);
    }
  }

  /**
   * Expanding a node and collapsing it again restores the expanded set,
   * when none of the node's descendants was expanded before.
   */
  lemma ExpandThenCollapse(expanded: set<string>, n: Node, positions: map<string, Position>)
    requires n.id !in expanded
    requires forall x :: x in DescendantIds(n) ==> x !in expanded
    ensures (expanded + {n.id}) - {n.id} - Collapsed(n, positions) == expanded
  {
    CollapsedBelow(n, positions);
  }

  class NodeWebVisualization {
    /** The tree shown: `nodeWebData`. */
    const root: Node
    /** `Math.cos`, `Math.sin` and `Math.atan2`. */
    const trig: Trig

    var expandedNodes: set<string>
    var nodePositions: map<string, Position>
    var connections: seq<Connection>
    var viewBox: ViewBox
    var zoomLevel: real
    var panOffset: Point
    var isPanning: bool
    var panStart: Point

    /** The tree's ids are distinct and the zoom stays in [0.3, 3]. */
    ghost predicate Valid()
      reads this
    {
      DistinctIds(root) && MinZoom <= zoomLevel <= MaxZoom
    }

    /** Positions and connections are the layout of the tree for the current expanded set. */
    ghost predicate Synced()
      reads this
    {
      && nodePositions == LayoutPositions(root, expandedNodes, trig)
      && connections == LayoutConnections(root, expandedNodes, trig)
    }

    /** The "click the centre node" hint is shown while nothing is expanded. */
    predicate ShowsStartHint()
      reads this
    {
      |expandedNodes| == 0
    }

    /** Mounting: the initial state followed by the first run of the effect. */
    constructor (root: Node, trig: Trig)
      requires DistinctIds(root)
      ensures Valid() && Synced()
      ensures this.root == root && this.trig == trig
      ensures expandedNodes == {} && ShowsStartHint()
      ensures nodePositions == map[root.id := RootPosition(root)] && connections == []
      ensures viewBox == DefaultViewBox
      ensures zoomLevel == 1.0 && panOffset == Origin && !isPanning && panStart == Origin
    {
      this.root := root;
      this.trig := trig;
      expandedNodes := {};
      nodePositions := map[];
      connections := [];
      viewBox := ViewBox(-600.0, -500.0, 1200.0, 1000.0);
      zoomLevel := 1.0;
      panOffset := Origin;
      isPanning := false;
      panStart := Origin;
      new;
      Recompute();
    }

    /**
     * The effect: lays the tree out from scratch for the current expanded
     * set and fits the view box to the new positions.
     */
    method Recompute()
      requires Valid()
      modifies this
      ensures Valid() && Synced()
      ensures expandedNodes == old(expandedNodes) && zoomLevel == old(zoomLevel)
      ensures panOffset == old(panOffset) && isPanning == old(isPanning) && panStart == old(panStart)
      ensures |nodePositions| <= 1 ==> viewBox == DefaultViewBox
      ensures |nodePositions| > 1 ==> forall id :: id in nodePositions ==>
        && viewBox.minX + DefaultPadding <= nodePositions[id].x <= viewBox.minX + viewBox.width - DefaultPadding
        && viewBox.minY + DefaultPadding <= nodePositions[id].y <= viewBox.minY + viewBox.height - DefaultPadding
      ensures |nodePositions| > 1 ==>
        && (exists id :: id in nodePositions && nodePositions[id].x == viewBox.minX + DefaultPadding)
        && (exists id :: id in nodePositions && nodePositions[id].x == viewBox.minX + viewBox.width - DefaultPadding)
        && (exists id :: id in nodePositions && nodePositions[id].y == viewBox.minY + DefaultPadding)
        && (exists id :: id in nodePositions && nodePositions[id].y == viewBox.minY + viewBox.height - DefaultPadding)
    {
      var positions, newConnections := CalculateTreeLayout(root, expandedNodes, trig);
      nodePositions := positions;
      connections := newConnections;
      var newViewBox := CalculateTreeViewBox(positions, DefaultPadding);
      viewBox := newViewBox;
    }

    /**
     * `handleNodeClick` on a rendered node. A node that is not expanded is
     * added to the expanded set and nothing else changes. An expanded node
     * is removed together with every id `collapseChildren` reaches through
     * the current positions; ids outside the node's subtree stay.
     */
    method HandleNodeClick(node: Node)
      requires Valid() && Synced()
      requires node.id in nodePositions && nodePositions[node.id].node == node
      modifies this
      ensures node.id !in old(expandedNodes) ==> expandedNodes == old(expandedNodes) + {node.id}
      ensures node.id in old(expandedNodes) ==>
        && expandedNodes == old(expandedNodes) - {node.id} - Collapsed(node, nodePositions)
        && node.id !in expandedNodes
        && (forall c :: c in node.children ==> c.id !in expandedNodes)
        && (forall x :: x in old(expandedNodes) && x != node.id && x !in DescendantIds(node) ==> x in expandedNodes)
      ensures nodePositions == old(nodePositions) && connections == old(connections) && viewBox == old(viewBox)
      ensures zoomLevel == old(zoomLevel) && panOffset == old(panOffset)
      ensures isPanning == old(isPanning) && panStart == old(panStart)
      ensures Valid()
    {
      var newExpanded := expandedNodes;
      if node.id !in newExpanded {
        newExpanded := newExpanded + {node.id};
        expandedNodes := newExpanded;
      } else {
        newExpanded := newExpanded - {node.id};
        LayoutEntriesInTree(root, expandedNodes, trig);
        newExpanded := CollapseChildren(node.id, node, newExpanded);
        expandedNodes := newExpanded;
        CollapsedBelow(node, nodePositions);
        CollapsedChildren(node, nodePositions, |node.children|);
      }
    }

    /**
     * `collapseChildren`: deletes the id of each child of the node stored
     * under `nodeId`, and recurses into that child. `n` is that node.
     */
    method CollapseChildren(nodeId: string, ghost n: Node, newExpanded: set<string>) returns (newExpanded': set<string>)
      requires Valid() && Synced()
      requires n in Subtrees(root) && n.id == nodeId
      ensures newExpanded' == newExpanded - Collapsed(n, nodePositions)
      decreases n
    {
      newExpanded' := newExpanded;
      if nodeId in nodePositions {
        var nodePos := nodePositions[nodeId];
        LayoutEntriesInTree(root, expandedNodes, trig);
        SameIdSameNode(root, nodePos.node, n);
        var children := nodePos.node.children;
        for i := 0 to |children|
          invariant newExpanded' == newExpanded - CollapsedUpTo(n, nodePositions, i)
        {
          var child := children[i];
          newExpanded' := newExpanded' - {child.id};
          SubtreesClosed(root, n, child);
          newExpanded' := CollapseChildren(child.id, child, newExpanded');
        }
      }
    }

    method HandleZoomIn()
      requires Valid()
      modifies this
      ensures zoomLevel == ZoomIn(old(zoomLevel)) && Valid()
      ensures expandedNodes == old(expandedNodes) && nodePositions == old(nodePositions)
      ensures connections == old(connections) && viewBox == old(viewBox)
      ensures panOffset == old(panOffset) && isPanning == old(isPanning) && panStart == old(panStart)
    {
      zoomLevel := ZoomIn(zoomLevel);
    }

    method HandleZoomOut()
      requires Valid()
      modifies this
      ensures zoomLevel == ZoomOut(old(zoomLevel)) && Valid()
      ensures expandedNodes == old(expandedNodes) && nodePositions == old(nodePositions)
      ensures connections == old(connections) && viewBox == old(viewBox)
      ensures panOffset == old(panOffset) && isPanning == old(isPanning) && panStart == old(panStart)
    {
      zoomLevel := ZoomOut(zoomLevel);
    }

    /** Back to zoom 1 and no pan offset. */
    method HandleResetView()
      requires Valid()
      modifies this
      ensures zoomLevel == 1.0 && panOffset == Origin && Valid()
      ensures expandedNodes == old(expandedNodes) && nodePositions == old(nodePositions)
      ensures connections == old(connections) && viewBox == old(viewBox)
      ensures isPanning == old(isPanning) && panStart == old(panStart)
    {
      zoomLevel := 1.0;
      panOffset := Origin;
    }

    /** The pan offset a pointer at `pointer` gives while dragging. */
    function DragOffset(pointer: Point): Point
      reads this
    {
      Point(pointer.x - panStart.x, pointer.y - panStart.y)
    }

    /**
     * `handleMouseDown`: a press on the svg itself starts a drag, anchored
     * so that the pointer back at the press point gives the current offset.
     * A press on anything else changes nothing.
     */
    method HandleMouseDown(targetIsSvg: bool, clientX: real, clientY: real)
      modifies this
      ensures targetIsSvg ==> isPanning && DragOffset(Point(clientX, clientY)) == panOffset
      ensures !targetIsSvg ==> isPanning == old(isPanning) && panStart == old(panStart)
      ensures panOffset == old(panOffset) && zoomLevel == old(zoomLevel)
      ensures expandedNodes == old(expandedNodes) && nodePositions == old(nodePositions)
      ensures connections == old(connections) && viewBox == old(viewBox)
    {
      if targetIsSvg {
        isPanning := true;
        panStart := Point(clientX - panOffset.x, clientY - panOffset.y);
      }
    }

    /** `handleMouseMove`: while dragging, the offset follows the pointer. */
    method HandleMouseMove(clientX: real, clientY: real)
      modifies this
      ensures old(isPanning) ==> panOffset == DragOffset(Point(clientX, clientY))
      ensures !old(isPanning) ==> panOffset == old(panOffset)
      ensures isPanning == old(isPanning) && panStart == old(panStart) && zoomLevel == old(zoomLevel)
      ensures expandedNodes == old(expandedNodes) && nodePositions == old(nodePositions)
      ensures connections == old(connections) && viewBox == old(viewBox)
    {
      if isPanning {
        panOffset := Point(clientX - panStart.x, clientY - panStart.y);
      }
    }

    /** `handleMouseUp`, also run when the pointer leaves: the drag ends. */
    method HandleMouseUp()
      modifies this
      ensures !isPanning
      ensures panOffset == old(panOffset) && panStart == old(panStart) && zoomLevel == old(zoomLevel)
      ensures expandedNodes == old(expandedNodes) && nodePositions == old(nodePositions)
      ensures connections == old(connections) && viewBox == old(viewBox)
    {
      isPanning := false;
    }
  }

  /**
   * A press on the svg and a move back to the press point leave the pan
   * offset where it was.
   */
  method DragToPressPoint(view: NodeWebVisualization, x: real, y: real)
    modifies view
    ensures view.panOffset == old(view.panOffset) && view.isPanning
  {
    view.HandleMouseDown(true, x, y);
    view.HandleMouseMove(x, y);
  }
}

/**
 * The layout of the expandable skills tree (src/utils/treeLayoutUtils.js).
 *
 * `calculateTreeLayout` walks the tree depth first. It enters the children
 * of a node only when the node's id is in the expanded set. It stores one
 * position per child in a map keyed by id, and it appends one connection
 * per parent-to-child edge. The walk is the recursive method `ProcessNode`.
 * It is proved against `Visits`, the list of child visits in the order the
 * walk makes them. The lemmas below state what that list, and so the
 * layout, looks like.
 */
module TreeLayoutUtils {
  import opened JsValues
  import opened Geometry
  import opened SkillTree

  /** Distance from a parent to each child, at every depth. */
  const Radius: real := 280.0

  /** Total angle over which the children of a deeper node are spread. */
  const ArcSpread: real := PI / 3.0

  datatype Position = Position(id: string, x: real, y: real, node: Node, level: nat)

  datatype Connection = Connection(id: string, start: Point, end: Point, color: string, delay: real)

  /**
   * One iteration of `children.forEach` in `processNode`: child number
   * `index` of `parent`, at depth `level`, placed at `at` around the
   * parent's position `from`.
   */
  datatype Visit = Visit(parent: Node, child: Node, from: Point, at: Point, level: nat, index: nat)

  function At(p: Position): Point {
    Point(p.x, p.y)
  }

  function RootPosition(root: Node): Position {
    Position(root.id, 0.0, 0.0, root, 0)
  }

  // ---------------------------------------------------------------------
  // Placement of one child

  /** The direction in which child `index` of `count` is placed. */
  function ChildAngle(t: Trig, from: Point, level: nat, index: nat, count: nat): real
    requires index < count
  {
    if level == 1 then
      -PI / 2.0 + index as real * ((2.0 * PI) / count as real)
    else
      var direction := t.atan2(from.y, from.x);
      if count == 1 then direction
      else direction - ArcSpread / 2.0 + index as real * (ArcSpread / (count - 1) as real)
  }

  function ChildPoint(t: Trig, from: Point, level: nat, index: nat, count: nat): Point
    requires index < count
  {
    Polar(t, from, Radius, ChildAngle(t, from, level, index, count))
  }

  /**
   * First-level children sit on a circle around the root, starting straight
   * up (even when there is only one) and spaced evenly over the full turn.
   */
  lemma FirstLevelAngles(t: Trig, from: Point, count: nat, index: nat)
    requires index < count
    ensures ChildAngle(t, from, 1, 0, count) == -PI / 2.0
    ensures -PI / 2.0 <= ChildAngle(t, from, 1, index, count) < -PI / 2.0 + 2.0 * PI
    ensures index + 1 < count ==>
      ChildAngle(t, from, 1, index + 1, count) - ChildAngle(t, from, 1, index, count) == 2.0 * PI / count as real
  {
    var step := (2.0 * PI) / count as real;
    assert count as real * step == 2.0 * PI;
    assert index as real * step < count as real * step by {
      assert 0.0 < step;
      assert index as real < count as real;
    }
  }

  /**
   * Deeper down, a single child continues straight outward from the centre;
   * several children span the arc from `direction - PI/6` to
   * `direction + PI/6` in equal steps.
   */
  lemma DeeperAngles(t: Trig, from: Point, level: nat, count: nat, index: nat)
    requires level != 1 && index < count
    ensures count == 1 ==> ChildAngle(t, from, level, index, count) == t.atan2(from.y, from.x)
    ensures count > 1 ==>
      var direction := t.atan2(from.y, from.x);
      && ChildAngle(t, from, level, 0, count) == direction - PI / 6.0
      && ChildAngle(t, from, level, count - 1, count) == direction + PI / 6.0
      && direction - PI / 6.0 <= ChildAngle(t, from, level, index, count) <= direction + PI / 6.0
      && (index + 1 < count ==>
            ChildAngle(t, from, level, index + 1, count) - ChildAngle(t, from, level, index, count)
            == ArcSpread / (count - 1) as real)
  {
    if count > 1 {
      var step := ArcSpread / (count - 1) as real;
      assert (count - 1) as real * step == ArcSpread;
      assert 0.0 <= index as real * step <= (count - 1) as real * step by {
        assert 0.0 <= step;
        assert index as real <= (count - 1) as real;
      }
    }
  }

  // ---------------------------------------------------------------------
  // The walk, as a list of visits

  /** The visits `processNode(n, from, level)` makes, in order. */
  function Visits(n: Node, from: Point, level: nat, expanded: set<string>, t: Trig): seq<Visit>
    decreases n, 1
  {
    if n.id in expanded then VisitsUpTo(n, from, level, expanded, t, |n.children|) else []
  }

  /** The visits made by the first `k` iterations of the `forEach` over `n`'s children. */
  function VisitsUpTo(n: Node, from: Point, level: nat, expanded: set<string>, t: Trig, k: nat): seq<Visit>
    requires k <= |n.children|
    decreases n, 0, k
  {
    if k == 0 then []
    else
      var child := n.children[k - 1];
      var at := ChildPoint(t, from, level, k - 1, |n.children|);
      VisitsUpTo(n, from, level, expanded, t, k - 1)
        + [Visit(n, child, from, at, level, k - 1)]
        + Visits(child, at, level + 1, expanded, t)
  }

  /** The position `positions.set` stores for a visit. */
  function PositionOf(v: Visit): Position {
    Position(v.child.id, v.at.x, v.at.y, v.child, v.level)
  }

  /** The connection `connections.push` appends for a visit. */
  function LinkOf(v: Visit): Connection {
    Connection(v.parent.id + "-" + v.child.id, v.from, v.at, v.child.color, v.index as real * 0.1)
  }

  /** `positions.set` for each visit in turn; a later visit overwrites an equal id. */
  function Store(m: map<string, Position>, vs: seq<Visit>): map<string, Position>
  {
    if vs == [] then m
    else Store(m, vs[..|vs| - 1])[vs[|vs| - 1].child.id := PositionOf(vs[|vs| - 1])]
  }

  function Links(vs: seq<Visit>): (cs: seq<Connection>)
    ensures |cs| == |vs| && forall k :: 0 <= k < |vs| ==> cs[k] == LinkOf(vs[k])
  {
    seq(|vs|, k requires 0 <= k < |vs| => LinkOf(vs[k]))
  }

  /** The ids of the visited children, in visiting order. */
  function ChildIds(vs: seq<Visit>): (ids: seq<string>)
    ensures |ids| == |vs| && forall k :: 0 <= k < |vs| ==> ids[k] == vs[k].child.id
  {
    seq(|vs|, k requires 0 <= k < |vs| => vs[k].child.id)
  }

  /** The positions map `calculateTreeLayout` returns. */
  function LayoutPositions(root: Node, expanded: set<string>, t: Trig): map<string, Position> {
    Store(map[root.id := RootPosition(root)], Visits(root, Origin, 1, expanded, t))
  }

  /** The connections list `calculateTreeLayout` returns. */
  function LayoutConnections(root: Node, expanded: set<string>, t: Trig): seq<Connection> {
    Links(Visits(root, Origin, 1, expanded, t))
  }

  lemma {:induction false} StoreAppend(m: map<string, Position>, a: seq<Visit>, b: seq<Visit>)
    ensures Store(m, a + b) == Store(Store(m, a), b)
    decreases |b|
  {
    if b != [] {
      var b', v := b[..|b| - 1], b[|b| - 1];
      assert a + b == (a + b') + [v];
      assert (a + b)[..|a + b| - 1] == a + b';
      StoreAppend(m, a, b');
    } else {
      assert a + b == a;
    }
  }

  lemma LinksAppend(a: seq<Visit>, b: seq<Visit>)
    ensures Links(a + b) == Links(a) + Links(b)
  {
  }

  lemma ChildIdsAppend(a: seq<Visit>, b: seq<Visit>)
    ensures ChildIds(a + b) == ChildIds(a) + ChildIds(b)
  {
  }

  /** The visited children, in visiting order. */
  function VisitedNodes(vs: seq<Visit>): (cs: seq<Node>)
    ensures |cs| == |vs| && forall k :: 0 <= k < |vs| ==> cs[k] == vs[k].child
  {
    seq(|vs|, k requires 0 <= k < |vs| => vs[k].child)
  }

  // ---------------------------------------------------------------------
  // calculateTreeLayout

  /**
   * `processNode`: when `n` is expanded, places each child around `n`'s
   * stored position, stores it, records the connection, and recurses into
   * the child one level deeper. `positions` and `connections` are the
   * closure's shared map and list.
   */
  method ProcessNode(n: Node, parentPos: Point, level: nat, expanded: set<string>, t: Trig,
                     positions: map<string, Position>, connections: seq<Connection>)
    returns (positions': map<string, Position>, connections': seq<Connection>)
    requires n.id in positions && At(positions[n.id]) == parentPos
    ensures positions' == Store(positions, Visits(n, parentPos, level, expanded, t))
    ensures connections' == connections + Links(Visits(n, parentPos, level, expanded, t))
    decreases n, 1
  {
    positions', connections' := positions, connections;
    if n.id !in expanded {
      return;
    }
    var currentPos := if n.id in positions then At(positions[n.id]) else parentPos;
    var children := n.children;
    var childCount := |children|;
    var index := 0;
    while index < childCount
      invariant index <= childCount
      invariant positions' == Store(positions, VisitsUpTo(n, parentPos, level, expanded, t, index))
      invariant connections' == connections + Links(VisitsUpTo(n, parentPos, level, expanded, t, index))
    {
      positions', connections' :=
        ProcessChild(n, currentPos, level, expanded, t, index, positions, connections, positions', connections');
      index := index + 1;
    }
  }

  /**
   * One iteration of the `forEach` in `processNode`: child `index` is
   * placed around `currentPos`, stored, linked to `n`, and walked one level
   * deeper.
   */
  method ProcessChild(n: Node, currentPos: Point, level: nat, expanded: set<string>, t: Trig, index: nat,
                      ghost positions: map<string, Position>, ghost connections: seq<Connection>,
                      positionsSoFar: map<string, Position>, connectionsSoFar: seq<Connection>)
    returns (positions': map<string, Position>, connections': seq<Connection>)
    requires index < |n.children|
    requires positionsSoFar == Store(positions, VisitsUpTo(n, currentPos, level, expanded, t, index))
    requires connectionsSoFar == connections + Links(VisitsUpTo(n, currentPos, level, expanded, t, index))
    ensures positions' == Store(positions, VisitsUpTo(n, currentPos, level, expanded, t, index + 1))
    ensures connections' == connections + Links(VisitsUpTo(n, currentPos, level, expanded, t, index + 1))
    decreases n, 0
  {
    var child := n.children[index];
    var childPos := PlaceChild(currentPos, level, index, |n.children|, t);
    ProcessStep(n, currentPos, level, expanded, t, index, positions, connections);
    positions' := positionsSoFar[child.id := Position(child.id, childPos.x, childPos.y, child, level)];
    connections' := connectionsSoFar + [Connection(n.id + "-" + child.id, currentPos,
                                                   childPos, child.color, index as real * 0.1)];
    positions', connections' :=
      ProcessNode(child, childPos, level + 1, expanded, t, positions', connections');
  }

  /** What one iteration of the loop in `ProcessNode` adds. */
  lemma ProcessStep(n: Node, from: Point, level: nat, expanded: set<string>, t: Trig, index: nat,
                    positions: map<string, Position>, connections: seq<Connection>)
    requires index < |n.children|
    ensures var child := n.children[index];
      var at := ChildPoint(t, from, level, index, |n.children|);
      var before := VisitsUpTo(n, from, level, expanded, t, index);
      var below := Visits(child, at, level + 1, expanded, t);
      var after := VisitsUpTo(n, from, level, expanded, t, index + 1);
      && Store(Store(positions, before)[child.id := Position(child.id, at.x, at.y, child, level)], below)
         == Store(positions, after)
      && connections + Links(before)
           + [Connection(n.id + "-" + child.id, from, at, child.color, index as real * 0.1)]
           + Links(below)
         == connections + Links(after)
  {
    var child := n.children[index];
    var at := ChildPoint(t, from, level, index, |n.children|);
    var before := VisitsUpTo(n, from, level, expanded, t, index);
    var v := Visit(n, child, from, at, level, index);
    var below := Visits(child, at, level + 1, expanded, t);
    assert VisitsUpTo(n, from, level, expanded, t, index + 1) == before + [v] + below;
    StoreAppend(positions, before, [v]);
    StoreAppend(positions, before + [v], below);
    LinksAppend(before, [v]);
    LinksAppend(before + [v], below);
  }

  /**
   * The position of child `index` of `childCount` around `currentPos`:
   * evenly round the full circle at level 1, otherwise straight outward
   * from the centre, fanned over `ArcSpread` when there are several.
   */
  method PlaceChild(currentPos: Point, level: nat, index: nat, childCount: nat, t: Trig) returns (childPos: Point)
    requires index < childCount
    ensures childPos == ChildPoint(t, currentPos, level, index, childCount)
  {
    var angle: real;
    if level == 1 {
      var angleStep := (2.0 * PI) / childCount as real;
      var startAngle := -PI / 2.0;
      angle := startAngle + index as real * angleStep;
    } else {
      var directionFromCenter := t.atan2(currentPos.y, currentPos.x);
      if childCount == 1 {
        angle := directionFromCenter;
      } else {
        var angleStep := ArcSpread / (childCount - 1) as real;
        angle := directionFromCenter - ArcSpread / 2.0 + index as real * angleStep;
      }
    }
    assert angle == ChildAngle(t, currentPos, level, index, childCount);
    childPos := Point(currentPos.x + Radius * t.cos(angle), currentPos.y + Radius * t.sin(angle));
  }

  /**
   * `calculateTreeLayout`: the root at the origin with level 0, then the
   * walk from the root with level 1.
   */
  method CalculateTreeLayout(rootNode: Node, expandedNodes: set<string>, t: Trig)
    returns (positions: map<string, Position>, connections: seq<Connection>)
    ensures positions == LayoutPositions(rootNode, expandedNodes, t)
    ensures connections == LayoutConnections(rootNode, expandedNodes, t)
    ensures |connections| == |Visits(rootNode, Origin, 1, expandedNodes, t)|
  {
    positions := map[rootNode.id := RootPosition(rootNode)];
    connections := [];
    positions, connections := ProcessNode(rootNode, Origin, 1, expandedNodes, t, positions, connections);
  }

  // ---------------------------------------------------------------------
  // What the walk visits

  /** With nothing expanded, only the root is laid out. */
  lemma NothingExpanded(root: Node, t: Trig)
    ensures LayoutPositions(root, {}, t) == map[root.id := RootPosition(root)]
    ensures LayoutConnections(root, {}, t) == []
  {
  }

  /**
   * Every visit enters the children of an expanded node, names the child
   * at its index, is one level deeper than the walk started, and places the
   * child by `ChildPoint`.
   */
  lemma {:induction false} VisitsWellFormed(n: Node, from: Point, level: nat, expanded: set<string>, t: Trig)
    ensures forall v :: v in Visits(n, from, level, expanded, t) ==>
      && v.parent.id in expanded
      && v.index < |v.parent.children| && v.parent.children[v.index] == v.child
      && level <= v.level
      && v.at == ChildPoint(t, v.from, v.level, v.index, |v.parent.children|)
    decreases n, 1
  {
    if n.id in expanded {
      VisitsUpToWellFormed(n, from, level, expanded, t, |n.children|);
    }
  }

  lemma {:induction false} VisitsUpToWellFormed(n: Node, from: Point, level: nat, expanded: set<string>, t: Trig, k: nat)
    requires n.id in expanded && k <= |n.children|
    ensures forall v :: v in VisitsUpTo(n, from, level, expanded, t, k) ==>
      && v.parent.id in expanded
      && v.index < |v.parent.children| && v.parent.children[v.index] == v.child
      && level <= v.level
      && v.at == ChildPoint(t, v.from, v.level, v.index, |v.parent.children|)
    decreases n, 0, k
  {
    if k > 0 {
      VisitsUpToWellFormed(n, from, level, expanded, t, k - 1);
      var child := n.children[k - 1];
      VisitsWellFormed(child, ChildPoint(t, from, level, k - 1, |n.children|), level + 1, expanded, t);
    }
  }

  /**
   * Parents come first, and each visit starts where its parent was
   * placed. A visit either hangs off the node the walk started from (at
   * the starting level and position), or an earlier visit placed its
   * parent at its start, one level up.
   */
  ghost predicate ParentsPlacedFirst(vs: seq<Visit>, n: Node, from: Point, level: nat) {
    forall k :: 0 <= k < |vs| ==> StartsAt(vs[k], n, from, level) || exists j :: PlacedBy(vs, j, k)
  }

  /** The visit hangs off `n`, placed at `from` on `level`. */
  ghost predicate StartsAt(v: Visit, n: Node, from: Point, level: nat) {
    v.parent == n && v.level == level && v.from == from
  }

  /** Visit `j`, earlier than visit `k`, placed the parent of visit `k` where `k` starts. */
  ghost predicate PlacedBy(vs: seq<Visit>, j: int, k: int) {
    0 <= j < k < |vs| && vs[j].child == vs[k].parent && vs[j].at == vs[k].from && vs[k].level == vs[j].level + 1
  }

  lemma {:induction false} VisitsParentsPlacedFirst(n: Node, from: Point, level: nat, expanded: set<string>, t: Trig)
    ensures ParentsPlacedFirst(Visits(n, from, level, expanded, t), n, from, level)
    decreases n, 1
  {
    if n.id in expanded {
      VisitsUpToParentsPlacedFirst(n, from, level, expanded, t, |n.children|);
    }
  }

  lemma {:induction false} VisitsUpToParentsPlacedFirst(n: Node, from: Point, level: nat, expanded: set<string>, t: Trig, k: nat)
    requires k <= |n.children|
    ensures ParentsPlacedFirst(VisitsUpTo(n, from, level, expanded, t, k), n, from, level)
    decreases n, 0, k
  {
    if k > 0 {
      var child := n.children[k - 1];
      var at := ChildPoint(t, from, level, k - 1, |n.children|);
      var v := Visit(n, child, from, at, level, k - 1);
      VisitsUpToParentsPlacedFirst(n, from, level, expanded, t, k - 1);
      VisitsParentsPlacedFirst(child, at, level + 1, expanded, t);
      ParentsPlacedFirstJoin(VisitsUpTo(n, from, level, expanded, t, k - 1), v,
                             Visits(child, at, level + 1, expanded, t), n, from, level);
    }
  }

  /** A visit of `n`'s child followed by the visits below that child keeps parents first. */
  lemma ParentsPlacedFirstJoin(before: seq<Visit>, v: Visit, below: seq<Visit>, n: Node, from: Point, level: nat)
    requires ParentsPlacedFirst(before, n, from, level)
    requires StartsAt(v, n, from, level)
    requires ParentsPlacedFirst(below, v.child, v.at, level + 1)
    ensures ParentsPlacedFirst(before + [v] + below, n, from, level)
  {
    var vs := before + [v] + below;
    forall i | 0 <= i < |vs|
      ensures StartsAt(vs[i], n, from, level) || exists j :: PlacedBy(vs, j, i)
    {
      if i < |before| {
        JoinBefore(before, v, below, n, from, level, i);
      } else if i > |before| {
        JoinBelow(before, v, below, n, from, level, i - |before| - 1, i);
      } else {
        assert vs[i] == v;
      }
    }
  }

  lemma JoinBefore(before: seq<Visit>, v: Visit, below: seq<Visit>, n: Node, from: Point, level: nat, i: nat)
    requires i < |before|
    requires StartsAt(before[i], n, from, level) || exists j :: PlacedBy(before, j, i)
    ensures StartsAt((before + [v] + below)[i], n, from, level) || exists j :: PlacedBy(before + [v] + below, j, i)
  {
    var vs := before + [v] + below;
    assert vs[i] == before[i];
    if !StartsAt(before[i], n, from, level) {
      var j :| PlacedBy(before, j, i);
      assert vs[j] == before[j];
      assert PlacedBy(vs, j, i);
    }
  }

  lemma JoinBelow(before: seq<Visit>, v: Visit, below: seq<Visit>, n: Node, from: Point, level: nat, i: nat, k: nat)
    requires i < |below| && k == |before| + 1 + i && StartsAt(v, n, from, level)
    requires StartsAt(below[i], v.child, v.at, level + 1) || exists j :: PlacedBy(below, j, i)
    ensures exists j :: PlacedBy(before + [v] + below, j, k)
  {
    var vs := before + [v] + below;
    assert vs[|before| + 1 + i] == below[i];
    if StartsAt(below[i], v.child, v.at, level + 1) {
      assert vs[|before|] == v;
      assert PlacedBy(vs, |before|, |before| + 1 + i);
    } else {
      var j :| PlacedBy(below, j, i);
      assert vs[|before| + 1 + j] == below[j];
      assert PlacedBy(vs, |before| + 1 + j, |before| + 1 + i);
    }
  }

  /**
   * Expanded ids that name no node of the tree change nothing: the walk
   * depends only on which of the tree's own ids are expanded.
   */
  lemma {:induction false} OnlyTreeIdsMatter(n: Node, from: Point, level: nat, e1: set<string>, e2: set<string>, t: Trig)
    requires forall m :: m in Subtrees(n) ==> (m.id in e1 <==> m.id in e2)
    ensures Visits(n, from, level, e1, t) == Visits(n, from, level, e2, t)
    decreases n, 1
  {
    OnlyTreeIdsMatterUpTo(n, from, level, e1, e2, t, |n.children|);
  }

  lemma {:induction false} OnlyTreeIdsMatterUpTo(n: Node, from: Point, level: nat, e1: set<string>, e2: set<string>, t: Trig, k: nat)
    requires k <= |n.children|
    requires forall m :: m in Subtrees(n) ==> (m.id in e1 <==> m.id in e2)
    ensures VisitsUpTo(n, from, level, e1, t, k) == VisitsUpTo(n, from, level, e2, t, k)
    decreases n, 0, k
  {
    if k > 0 {
      OnlyTreeIdsMatterUpTo(n, from, level, e1, e2, t, k - 1);
      var child := n.children[k - 1];
      forall m | m in Subtrees(child) ensures m in Subtrees(n) {
        SubtreesUpToMono(n, |n.children|, k - 1, m);
      }
      OnlyTreeIdsMatter(child, ChildPoint(t, from, level, k - 1, |n.children|), level + 1, e1, e2, t);
    }
  }

  /**
   * With every node of the tree expanded, the walk visits the tree below
   * `n` in pre-order: each node before its children, children in array
   * order, every proper descendant once.
   */
  lemma {:induction false} AllExpandedIsPreOrder(n: Node, from: Point, level: nat, expanded: set<string>, t: Trig)
    requires AllExpanded(n, expanded)
    ensures VisitedNodes(Visits(n, from, level, expanded, t)) == PreOrderUpTo(n, |n.children|)
    decreases n, 1
  {
    AllExpandedIsPreOrderUpTo(n, from, level, expanded, t, |n.children|);
  }

  /** Every node of the tree rooted at `n` has its id in `expanded`. */
  ghost predicate AllExpanded(n: Node, expanded: set<string>) {
    forall m :: m in Subtrees(n) ==> m.id in expanded
  }

  lemma AllExpandedChild(n: Node, i: nat, expanded: set<string>)
    requires i < |n.children| && AllExpanded(n, expanded)
    ensures AllExpanded(n.children[i], expanded)
  {
    forall m | m in Subtrees(n.children[i]) ensures m.id in expanded {
      SubtreesUpToMono(n, |n.children|, i, m);
    }
  }

  lemma {:induction false} AllExpandedIsPreOrderUpTo(n: Node, from: Point, level: nat, expanded: set<string>, t: Trig, k: nat)
    requires k <= |n.children|
    requires AllExpanded(n, expanded)
    ensures VisitedNodes(VisitsUpTo(n, from, level, expanded, t, k)) == PreOrderUpTo(n, k)
    decreases n, 0, k
  {
    if k > 0 {
      var child := n.children[k - 1];
      var at := ChildPoint(t, from, level, k - 1, |n.children|);
      var before := VisitsUpTo(n, from, level, expanded, t, k - 1);
      var v := Visit(n, child, from, at, level, k - 1);
      var below := Visits(child, at, level + 1, expanded, t);
      AllExpandedChild(n, k - 1, expanded);
      AllExpandedIsPreOrderUpTo(n, from, level, expanded, t, k - 1);
      AllExpandedIsPreOrder(child, at, level + 1, expanded, t);
      assert VisitsUpTo(n, from, level, expanded, t, k) == before + [v] + below;
      PreOrderStep(n, k, before, v, below);
    }
  }

  /** One more child: its visit, then the visits below it, extend the pre-order by its subtree. */
  lemma PreOrderStep(n: Node, k: nat, before: seq<Visit>, v: Visit, below: seq<Visit>)
    requires 0 < k <= |n.children| && v.child == n.children[k - 1]
    requires VisitedNodes(before) == PreOrderUpTo(n, k - 1)
    requires VisitedNodes(below) == PreOrderUpTo(v.child, |v.child.children|)
    ensures VisitedNodes(before + [v] + below) == PreOrderUpTo(n, k)
  {
    VisitedNodesAppend(before + [v], below);
    VisitedNodesAppend(before, [v]);
    var rest := PreOrderUpTo(v.child, |v.child.children|);
    assert PreOrder(v.child) == [v.child] + rest;
    assert PreOrderUpTo(n, k) == (PreOrderUpTo(n, k - 1) + [v.child]) + rest;
  }

  lemma VisitedNodesAppend(a: seq<Visit>, b: seq<Visit>)
    ensures VisitedNodes(a + b) == VisitedNodes(a) + VisitedNodes(b)
  {
  }

  /** The layout of the whole tree therefore ignores ids outside it. */
  lemma ForeignIdsIgnored(root: Node, expanded: set<string>, t: Trig)
    ensures var own := set m | m in Subtrees(root) :: m.id;
      && LayoutPositions(root, expanded, t) == LayoutPositions(root, expanded * own, t)
      && LayoutConnections(root, expanded, t) == LayoutConnections(root, expanded * own, t)
  {
    var own := set m | m in Subtrees(root) :: m.id;
    OnlyTreeIdsMatter(root, Origin, 1, expanded, expanded * own, t);
  }

  // ---------------------------------------------------------------------
  // Connections

  /**
   * Connection `k` describes visit `k`: it is named `parent-child`, runs
   * from the parent's position to the child's, takes the child's colour
   * and is delayed by a tenth of a second per sibling before it. It starts
   * at the root's origin when it leaves the root, and otherwise at the end
   * of an earlier connection that reached its parent, one level up.
   */
  lemma ConnectionsDescribeVisits(root: Node, expanded: set<string>, t: Trig)
    ensures var vs := Visits(root, Origin, 1, expanded, t);
      var cs := LayoutConnections(root, expanded, t);
      && |cs| == |vs|
      && forall k :: 0 <= k < |cs| ==>
           && cs[k].id == vs[k].parent.id + "-" + vs[k].child.id
           && cs[k].end == vs[k].at && cs[k].color == vs[k].child.color
           && cs[k].delay == vs[k].index as real * 0.1
           && (|| (vs[k].parent == root && vs[k].level == 1 && cs[k].start == Origin)
               || exists j :: 0 <= j < k && vs[j].child == vs[k].parent &&
                              cs[j].end == cs[k].start && vs[k].level == vs[j].level + 1)
  {
    var vs := Visits(root, Origin, 1, expanded, t);
    var cs := LayoutConnections(root, expanded, t);
    VisitsParentsPlacedFirst(root, Origin, 1, expanded, t);
    forall k | 0 <= k < |cs|
      ensures || (vs[k].parent == root && vs[k].level == 1 && cs[k].start == Origin)
              || exists j :: 0 <= j < k && vs[j].child == vs[k].parent &&
                             cs[j].end == cs[k].start && vs[k].level == vs[j].level + 1
    {
      if !StartsAt(vs[k], root, Origin, 1) {
        var j :| PlacedBy(vs, j, k);
        assert cs[j].end == cs[k].start;
      }
    }
  }

  /** Every connection is exactly `Radius` long (given cos^2 + sin^2 = 1). */
  lemma ConnectionLength(root: Node, expanded: set<string>, t: Trig)
    requires Pythagorean(t)
    ensures forall c :: c in LayoutConnections(root, expanded, t) ==>
      SquaredDistance(c.start, c.end) == Radius * Radius
  {
    var vs := Visits(root, Origin, 1, expanded, t);
    VisitsWellFormed(root, Origin, 1, expanded, t);
    forall c | c in LayoutConnections(root, expanded, t)
      ensures SquaredDistance(c.start, c.end) == Radius * Radius
    {
      var k :| 0 <= k < |vs| && c == LinkOf(vs[k]);
      assert vs[k] in vs;
      var v := vs[k];
      PolarDistance(t, v.from, Radius, ChildAngle(t, v.from, v.level, v.index, |v.parent.children|));
    }
  }

  // ---------------------------------------------------------------------
  // Positions when ids are distinct

  lemma {:induction false} StoreKeys(m: map<string, Position>, vs: seq<Visit>)
    ensures Store(m, vs).Keys == m.Keys + set k | 0 <= k < |vs| :: vs[k].child.id
    decreases |vs|
  {
    if vs != [] {
      StoreKeys(m, vs[..|vs| - 1]);
    }
  }

  /** A key that no visit writes keeps its entry. */
  lemma {:induction false} StoreKeeps(m: map<string, Position>, vs: seq<Visit>, id: string)
    requires id in m && id !in ChildIds(vs)
    ensures id in Store(m, vs) && Store(m, vs)[id] == m[id]
    decreases |vs|
  {
    if vs != [] {
      assert ChildIds(vs[..|vs| - 1]) == ChildIds(vs)[..|vs| - 1];
      StoreKeeps(m, vs[..|vs| - 1], id);
    }
  }

  /** With no id written twice, each visit's entry survives. */
  lemma {:induction false} StoreFinal(m: map<string, Position>, vs: seq<Visit>, k: nat)
    requires NoDup(ChildIds(vs)) && k < |vs|
    ensures vs[k].child.id in Store(m, vs) && Store(m, vs)[vs[k].child.id] == PositionOf(vs[k])
    decreases |vs|
  {
    var init := vs[..|vs| - 1];
    assert ChildIds(init) == ChildIds(vs)[..|vs| - 1];
    if k < |vs| - 1 {
      assert NoDup(ChildIds(init));
      StoreFinal(m, init, k);
    }
  }

  lemma {:induction false} NoDupSetSize(s: seq<string>)
    requires NoDup(s)
    ensures |set k | 0 <= k < |s| :: s[k]| == |s|
    decreases |s|
  {
    if s != [] {
      var init := s[..|s| - 1];
      NoDupSetSize(init);
      var a := set k | 0 <= k < |init| :: init[k];
      var b := set k | 0 <= k < |s| :: s[k];
      assert b == a + {s[|s| - 1]};
      assert s[|s| - 1] !in a;
    }
  }

  /**
   * The ids of visited children are distinct, and none is the start node's,
   * when the tree's ids are distinct: the visits list a part of the tree's
   * pre-order.
   */
  lemma {:induction false} VisitIdsDistinct(n: Node, from: Point, level: nat, expanded: set<string>, t: Trig)
    requires NoDup(Ids(PreOrderUpTo(n, |n.children|)))
    ensures NoDup(ChildIds(Visits(n, from, level, expanded, t)))
    ensures forall id :: id in ChildIds(Visits(n, from, level, expanded, t)) ==>
              id in Ids(PreOrderUpTo(n, |n.children|))
    decreases n, 1
  {
    if n.id in expanded {
      VisitIdsDistinctUpTo(n, from, level, expanded, t, |n.children|);
    }
  }

  lemma {:induction false} VisitIdsDistinctUpTo(n: Node, from: Point, level: nat, expanded: set<string>, t: Trig, k: nat)
    requires k <= |n.children|
    requires NoDup(Ids(PreOrderUpTo(n, k)))
    ensures NoDup(ChildIds(VisitsUpTo(n, from, level, expanded, t, k)))
    ensures forall id :: id in ChildIds(VisitsUpTo(n, from, level, expanded, t, k)) ==>
              id in Ids(PreOrderUpTo(n, k))
    decreases n, 0, k
  {
    if k > 0 {
      var child := n.children[k - 1];
      var at := ChildPoint(t, from, level, k - 1, |n.children|);
      var before := VisitsUpTo(n, from, level, expanded, t, k - 1);
      var v := Visit(n, child, from, at, level, k - 1);
      var below := Visits(child, at, level + 1, expanded, t);
      var pBefore := Ids(PreOrderUpTo(n, k - 1));
      var pBelow := Ids(PreOrderUpTo(child, |child.children|));
      PreOrderIdsStep(n, k);
      NoDupAppend(pBefore, [child.id] + pBelow);
      NoDupAppend([child.id], pBelow);
      VisitIdsDistinctUpTo(n, from, level, expanded, t, k - 1);
      VisitIdsDistinct(child, at, level + 1, expanded, t);
      VisitIdsStep(n, from, level, expanded, t, k);
      JoinDistinct(pBefore, child.id, pBelow, ChildIds(before), ChildIds(below));
    }
  }

  lemma PreOrderIdsStep(n: Node, k: nat)
    requires 0 < k <= |n.children|
    ensures var child := n.children[k - 1];
      Ids(PreOrderUpTo(n, k))
      == Ids(PreOrderUpTo(n, k - 1)) + ([child.id] + Ids(PreOrderUpTo(child, |child.children|)))
  {
    var child := n.children[k - 1];
    assert PreOrderUpTo(n, k) == PreOrderUpTo(n, k - 1) + ([child] + PreOrderUpTo(child, |child.children|));
    IdsAppend(PreOrderUpTo(n, k - 1), [child] + PreOrderUpTo(child, |child.children|));
    IdsAppend([child], PreOrderUpTo(child, |child.children|));
  }

  lemma VisitIdsStep(n: Node, from: Point, level: nat, expanded: set<string>, t: Trig, k: nat)
    requires 0 < k <= |n.children|
    ensures var child := n.children[k - 1];
      var at := ChildPoint(t, from, level, k - 1, |n.children|);
      ChildIds(VisitsUpTo(n, from, level, expanded, t, k))
      == ChildIds(VisitsUpTo(n, from, level, expanded, t, k - 1))
         + ([child.id] + ChildIds(Visits(child, at, level + 1, expanded, t)))
  {
    var child := n.children[k - 1];
    var at := ChildPoint(t, from, level, k - 1, |n.children|);
    var before := VisitsUpTo(n, from, level, expanded, t, k - 1);
    var v := Visit(n, child, from, at, level, k - 1);
    var below := Visits(child, at, level + 1, expanded, t);
    assert VisitsUpTo(n, from, level, expanded, t, k) == before + ([v] + below);
    ChildIdsAppend(before, [v] + below);
    ChildIdsAppend([v], below);
  }

  /**
   * Joining a part of `a` to `x` and a part of `b` keeps the parts'
   * ids distinct when `a + [x] + b` has distinct ids.
   */
  lemma JoinDistinct(a: seq<string>, x: string, b: seq<string>, a': seq<string>, b': seq<string>)
    requires NoDup(a) && NoDup(b) && NoDup(a') && NoDup(b')
    requires x !in b && forall y :: y in a ==> y !in [x] + b
    requires forall y :: y in a' ==> y in a
    requires forall y :: y in b' ==> y in b
    ensures NoDup(a' + ([x] + b'))
    ensures forall y :: y in a' + ([x] + b') ==> y in a + ([x] + b)
  {
    NoDupAppend([x], b');
    forall y | y in a' ensures y !in [x] + b' {
      assert y in a;
    }
    NoDupAppend(a', [x] + b');
  }

  /** Under distinct ids, the visited children's ids are distinct and none is the root's. */
  lemma RootNotRevisited(root: Node, expanded: set<string>, t: Trig)
    requires DistinctIds(root)
    ensures NoDup(ChildIds(Visits(root, Origin, 1, expanded, t)))
    ensures root.id !in ChildIds(Visits(root, Origin, 1, expanded, t))
  {
    var rest := Ids(PreOrderUpTo(root, |root.children|));
    assert PreOrder(root) == [root] + PreOrderUpTo(root, |root.children|);
    IdsAppend([root], PreOrderUpTo(root, |root.children|));
    assert Ids([root]) == [root.id];
    NoDupAppend([root.id], rest);
    VisitIdsDistinct(root, Origin, 1, expanded, t);
  }

  /**
   * When the tree's ids are distinct, no position is overwritten: the root
   * stays at the origin with level 0, and there is one position more than
   * there are connections.
   */
  lemma DistinctIdsRootAndCount(root: Node, expanded: set<string>, t: Trig)
    requires DistinctIds(root)
    ensures var positions := LayoutPositions(root, expanded, t);
      && root.id in positions && positions[root.id] == RootPosition(root)
      && |positions| == |LayoutConnections(root, expanded, t)| + 1
  {
    var m := map[root.id := RootPosition(root)];
    var vs := Visits(root, Origin, 1, expanded, t);
    var ids := ChildIds(vs);
    RootNotRevisited(root, expanded, t);
    StoreKeeps(m, vs, root.id);
    StoreKeys(m, vs);
    NoDupSetSize(ids);
    var childSet := set k | 0 <= k < |vs| :: vs[k].child.id;
    assert childSet == set k | 0 <= k < |ids| :: ids[k];
    assert root.id !in childSet;
    assert Store(m, vs).Keys == {root.id} + childSet;
  }

  /**
   * When the tree's ids are distinct, each connection ends at the position
   * stored for its child and starts at the position stored for its parent.
   */
  lemma DistinctIdsEndpoints(root: Node, expanded: set<string>, t: Trig)
    requires DistinctIds(root)
    ensures var positions := LayoutPositions(root, expanded, t);
      var cs := LayoutConnections(root, expanded, t);
      var vs := Visits(root, Origin, 1, expanded, t);
      forall k :: 0 <= k < |cs| ==>
        && vs[k].child.id in positions && At(positions[vs[k].child.id]) == cs[k].end
        && vs[k].parent.id in positions && At(positions[vs[k].parent.id]) == cs[k].start
  {
    var m := map[root.id := RootPosition(root)];
    var vs := Visits(root, Origin, 1, expanded, t);
    RootNotRevisited(root, expanded, t);
    StoreKeeps(m, vs, root.id);
    VisitsParentsPlacedFirst(root, Origin, 1, expanded, t);
    forall k | 0 <= k < |vs|
      ensures vs[k].child.id in Store(m, vs) && At(Store(m, vs)[vs[k].child.id]) == vs[k].at
      ensures vs[k].parent.id in Store(m, vs) && At(Store(m, vs)[vs[k].parent.id]) == vs[k].from
    {
      StoreFinal(m, vs, k);
      if !StartsAt(vs[k], root, Origin, 1) {
        var j :| PlacedBy(vs, j, k);
        StoreFinal(m, vs, j);
      }
    }
  }

  // ---------------------------------------------------------------------
  // Exactly the nodes reachable through expanded ids are placed

  /**
   * The nodes reached below `n`: when `n` is expanded, each of its children
   * and whatever is reached below that child.
   */
  ghost function Below(n: Node, expanded: set<string>): set<Node>
    decreases n, 1
  {
    if n.id in expanded then BelowUpTo(n, expanded, |n.children|) else {}
  }

  ghost function BelowUpTo(n: Node, expanded: set<string>, k: nat): set<Node>
    requires k <= |n.children|
    decreases n, 0, k
  {
    if k == 0 then {}
    else BelowUpTo(n, expanded, k - 1) + ({n.children[k - 1]} + Below(n.children[k - 1], expanded))
  }

  /**
   * The nodes reachable from the root through expanded ids: the root, and
   * every child of a reachable node whose id is expanded.
   */
  ghost function Reachable(root: Node, expanded: set<string>): set<Node> {
    {root} + Below(root, expanded)
  }

  lemma {:induction false} BelowUpToMono(n: Node, expanded: set<string>, k: nat, i: nat)
    requires i < k <= |n.children|
    ensures n.children[i] in BelowUpTo(n, expanded, k)
    ensures Below(n.children[i], expanded) <= BelowUpTo(n, expanded, k)
    decreases k
  {
    if i < k - 1 {
      BelowUpToMono(n, expanded, k - 1, i);
    }
  }

  /** Which of the first `k` children a node reached below `n` comes from. */
  lemma {:induction false} BelowOwner(n: Node, expanded: set<string>, k: nat, m: Node) returns (i: nat)
    requires k <= |n.children| && m in BelowUpTo(n, expanded, k)
    ensures i < k && (m == n.children[i] || m in Below(n.children[i], expanded))
    decreases k
  {
    if m in BelowUpTo(n, expanded, k - 1) {
      i := BelowOwner(n, expanded, k - 1, m);
    } else {
      i := k - 1;
    }
  }

  lemma {:induction false} BelowClosed(n: Node, expanded: set<string>, m: Node, c: Node)
    requires m in Below(n, expanded) && m.id in expanded && c in m.children
    ensures c in Below(n, expanded)
    decreases n
  {
    var i := BelowOwner(n, expanded, |n.children|, m);
    var child := n.children[i];
    BelowUpToMono(n, expanded, |n.children|, i);
    if m == child {
      var j :| 0 <= j < |m.children| && m.children[j] == c;
      BelowUpToMono(m, expanded, |m.children|, j);
    } else {
      BelowClosed(child, expanded, m, c);
    }
  }

  /** A child of a reachable node whose id is expanded is reachable too. */
  lemma ReachableClosed(root: Node, expanded: set<string>, m: Node, c: Node)
    requires m in Reachable(root, expanded) && m.id in expanded && c in m.children
    ensures c in Reachable(root, expanded)
  {
    if m == root {
      var j :| 0 <= j < |root.children| && root.children[j] == c;
      BelowUpToMono(root, expanded, |root.children|, j);
    } else {
      BelowClosed(root, expanded, m, c);
    }
  }

  /** The walk below `n` visits exactly the nodes reached below `n`. */
  lemma {:induction false} VisitsReachBelow(n: Node, from: Point, level: nat, expanded: set<string>, t: Trig)
    ensures forall m :: m in VisitedNodes(Visits(n, from, level, expanded, t)) <==> m in Below(n, expanded)
    decreases n, 1
  {
    if n.id in expanded {
      VisitsUpToReachBelow(n, from, level, expanded, t, |n.children|);
    }
  }

  lemma {:induction false} VisitsUpToReachBelow(n: Node, from: Point, level: nat, expanded: set<string>, t: Trig, k: nat)
    requires k <= |n.children|
    ensures forall m :: m in VisitedNodes(VisitsUpTo(n, from, level, expanded, t, k)) <==> m in BelowUpTo(n, expanded, k)
    decreases n, 0, k
  {
    if k > 0 {
      var child := n.children[k - 1];
      var at := ChildPoint(t, from, level, k - 1, |n.children|);
      var before := VisitsUpTo(n, from, level, expanded, t, k - 1);
      var v := Visit(n, child, from, at, level, k - 1);
      var below := Visits(child, at, level + 1, expanded, t);
      VisitsUpToReachBelow(n, from, level, expanded, t, k - 1);
      VisitsReachBelow(child, at, level + 1, expanded, t);
      assert VisitsUpTo(n, from, level, expanded, t, k) == before + [v] + below;
      VisitedSplit(before, v, below);
    }
  }

  lemma VisitedSplit(before: seq<Visit>, v: Visit, below: seq<Visit>)
    ensures forall m :: m in VisitedNodes(before + [v] + below) <==>
      m in VisitedNodes(before) || m == v.child || m in VisitedNodes(below)
  {
    VisitedNodesAppend(before + [v], below);
    VisitedNodesAppend(before, [v]);
    assert VisitedNodes([v]) == [v.child];
  }

  /**
   * Every node reachable from the root through expanded ids gets a
   * position, and nothing else does.
   */
  lemma LayoutCoversReachable(root: Node, expanded: set<string>, t: Trig)
    ensures LayoutPositions(root, expanded, t).Keys == set m | m in Reachable(root, expanded) :: m.id
  {
    var m0 := map[root.id := RootPosition(root)];
    var vs := Visits(root, Origin, 1, expanded, t);
    var ns := VisitedNodes(vs);
    StoreKeys(m0, vs);
    VisitsReachBelow(root, Origin, 1, expanded, t);
    var keys := LayoutPositions(root, expanded, t).Keys;
    var ids := set m | m in Reachable(root, expanded) :: m.id;
    forall x | x in keys
      ensures x in ids
    {
      if x != root.id {
        var k :| 0 <= k < |vs| && vs[k].child.id == x;
        assert ns[k] in Below(root, expanded);
      }
    }
    forall x | x in ids
      ensures x in keys
    {
      var m :| m in Reachable(root, expanded) && m.id == x;
      if m != root {
        assert m in ns;
        var k :| 0 <= k < |ns| && ns[k] == m;
        assert vs[k].child.id == x;
      }
    }
  }

  /** Visits to children with distinct ids visit that many distinct nodes. */
  lemma {:induction false} VisitedSetSize(vs: seq<Visit>)
    requires NoDup(ChildIds(vs))
    ensures |set k | 0 <= k < |vs| :: vs[k].child| == |vs|
    decreases |vs|
  {
    if vs != [] {
      var init := vs[..|vs| - 1];
      var last := vs[|vs| - 1];
      assert NoDup(ChildIds(init)) by {
        forall i, j | 0 <= i < j < |init|
          ensures ChildIds(init)[i] != ChildIds(init)[j]
        {
          assert ChildIds(vs)[i] != ChildIds(vs)[j];
        }
      }
      VisitedSetSize(init);
      var a := set k | 0 <= k < |init| :: init[k].child;
      var b := set k | 0 <= k < |vs| :: vs[k].child;
      assert b == a + {last.child};
      assert last.child !in a;
    }
  }

  /**
   * In a tree with distinct ids, there is one connection for every
   * reachable node except the root.
   */
  lemma DistinctIdsReachableCount(root: Node, expanded: set<string>, t: Trig)
    requires DistinctIds(root)
    ensures |LayoutConnections(root, expanded, t)| + 1 == |Reachable(root, expanded)|
  {
    var vs := Visits(root, Origin, 1, expanded, t);
    var ns := VisitedNodes(vs);
    RootNotRevisited(root, expanded, t);
    VisitsReachBelow(root, Origin, 1, expanded, t);
    VisitedSetSize(vs);
    var below := set k | 0 <= k < |vs| :: vs[k].child;
    forall m
      ensures m in Below(root, expanded) <==> m in below
    {
      if m in below {
        var k :| 0 <= k < |vs| && vs[k].child == m;
        assert ns[k] == m;
      }
      if m in Below(root, expanded) {
        var k :| 0 <= k < |ns| && ns[k] == m;
      }
    }
    assert Below(root, expanded) == below;
    assert root !in below;
    assert Reachable(root, expanded) == {root} + below;
  }

  /** Every visit hangs below the node the walk started from. */
  lemma {:induction false} VisitsInTree(n: Node, from: Point, level: nat, expanded: set<string>, t: Trig)
    ensures forall v :: v in Visits(n, from, level, expanded, t) ==>
      v.parent in Subtrees(n) && v.child in SubtreesUpTo(n, |n.children|)
    decreases n, 1
  {
    if n.id in expanded {
      VisitsUpToInTree(n, from, level, expanded, t, |n.children|);
    }
  }

  lemma {:induction false} VisitsUpToInTree(n: Node, from: Point, level: nat, expanded: set<string>, t: Trig, k: nat)
    requires k <= |n.children|
    ensures forall v :: v in VisitsUpTo(n, from, level, expanded, t, k) ==>
      v.parent in Subtrees(n) && v.child in SubtreesUpTo(n, |n.children|)
    decreases n, 0, k
  {
    if k > 0 {
      var child := n.children[k - 1];
      var at := ChildPoint(t, from, level, k - 1, |n.children|);
      VisitsUpToInTree(n, from, level, expanded, t, k - 1);
      VisitsInTree(child, at, level + 1, expanded, t);
      forall m | m in Subtrees(child) ensures m in SubtreesUpTo(n, |n.children|) {
        SubtreesUpToMono(n, |n.children|, k - 1, m);
      }
    }
  }

  /** Each stored entry is the starting map's or that of a visit to a child with its id. */
  lemma {:induction false} StoreEntries(m: map<string, Position>, vs: seq<Visit>)
    ensures forall id :: id in Store(m, vs) ==>
      || (id in m && Store(m, vs)[id] == m[id])
      || exists k :: 0 <= k < |vs| && vs[k].child.id == id && Store(m, vs)[id] == PositionOf(vs[k])
    decreases |vs|
  {
    if vs != [] {
      var init := vs[..|vs| - 1];
      StoreEntries(m, init);
      forall id | id in Store(m, vs)
        ensures || (id in m && Store(m, vs)[id] == m[id])
                || exists k :: 0 <= k < |vs| && vs[k].child.id == id && Store(m, vs)[id] == PositionOf(vs[k])
      {
        if id != vs[|vs| - 1].child.id {
          assert Store(m, vs)[id] == Store(m, init)[id];
          if !(id in m && Store(m, init)[id] == m[id]) {
            var k :| 0 <= k < |init| && init[k].child.id == id && Store(m, init)[id] == PositionOf(init[k]);
            assert vs[k] == init[k];
          }
        }
      }
    }
  }

  /**
   * The layout stores each node of the tree under its own id: every entry
   * names its key and holds a node of the tree with that id.
   */
  lemma LayoutEntriesInTree(root: Node, expanded: set<string>, t: Trig)
    ensures var positions := LayoutPositions(root, expanded, t);
      forall id :: id in positions ==>
        positions[id].id == id && positions[id].node.id == id && positions[id].node in Subtrees(root)
  {
    var m := map[root.id := RootPosition(root)];
    var vs := Visits(root, Origin, 1, expanded, t);
    StoreEntries(m, vs);
    VisitsInTree(root, Origin, 1, expanded, t);
    forall id | id in Store(m, vs)
      ensures Store(m, vs)[id].id == id && Store(m, vs)[id].node.id == id && Store(m, vs)[id].node in Subtrees(root)
    {
      if !(id in m && Store(m, vs)[id] == m[id]) {
        var k :| 0 <= k < |vs| && vs[k].child.id == id && Store(m, vs)[id] == PositionOf(vs[k]);
        assert vs[k] in vs;
      }
    }
  }

  /** A leaf makes no visits, expanded or not. */
  lemma LeafVisits(n: Node, from: Point, level: nat, expanded: set<string>, t: Trig)
    requires n.children == []
    ensures Visits(n, from, level, expanded, t) == []
  {
    if n.id in expanded {
      assert Visits(n, from, level, expanded, t) == VisitsUpTo(n, from, level, expanded, t, 0);
    }
  }

  /** The visits made under an expanded root whose three children are leaves. */
  lemma ThreeLeafVisits(root: Node, e: set<string>, t: Trig)
    requires root.id in e && |root.children| == 3
    requires forall k :: 0 <= k < 3 ==> root.children[k].children == []
    ensures var vs := Visits(root, Origin, 1, e, t);
      && |vs| == 3
      && forall k :: 0 <= k < 3 ==> vs[k].parent == root && vs[k].child == root.children[k] && vs[k].from == Origin
  {
    var v := seq(3, k requires 0 <= k < 3 => Visit(root, root.children[k], Origin, ChildPoint(t, Origin, 1, k, 3), 1, k));
    LeafVisits(root.children[0], v[0].at, 2, e, t);
    LeafVisits(root.children[1], v[1].at, 2, e, t);
    LeafVisits(root.children[2], v[2].at, 2, e, t);
    assert VisitsUpTo(root, Origin, 1, e, t, 1) == v[..1];
    assert VisitsUpTo(root, Origin, 1, e, t, 2) == v[..2];
    assert VisitsUpTo(root, Origin, 1, e, t, 3) == v[..3];
  }

  /** The ids three visits write. */
  lemma ThreeVisitIds(vs: seq<Visit>)
    requires |vs| == 3
    ensures (set k | 0 <= k < |vs| :: vs[k].child.id) == {vs[0].child.id, vs[1].child.id, vs[2].child.id}
  {
    var placed := set k | 0 <= k < |vs| :: vs[k].child.id;
    forall x | x in placed ensures x == vs[0].child.id || x == vs[1].child.id || x == vs[2].child.id {
      var k :| 0 <= k < |vs| && vs[k].child.id == x;
    }
    assert vs[0].child.id in placed && vs[1].child.id in placed && vs[2].child.id in placed;
  }

  /** A root with three leaf children, only the root expanded. */
  lemma ThreeChildrenExample(a: Node, b: Node, c: Node, t: Trig)
    requires a.children == [] && b.children == [] && c.children == []
    ensures var root := Node("start", "Start", "#8B5CF6", [], [a, b, c]);
      var cs := LayoutConnections(root, {"start"}, t);
      && |cs| == 3
      && cs[0].start == cs[1].start == cs[2].start == Origin
      && cs[0].id == "start-" + a.id && cs[1].id == "start-" + b.id && cs[2].id == "start-" + c.id
      && LayoutPositions(root, {"start"}, t).Keys == {"start", a.id, b.id, c.id}
  {
    var root := Node("start", "Start", "#8B5CF6", [], [a, b, c]);
    ThreeLeafVisits(root, {"start"}, t);
    var vs := Visits(root, Origin, 1, {"start"}, t);
    assert vs[0].child == a && vs[1].child == b && vs[2].child == c;
    var cs := Links(vs);
    assert cs[0] == LinkOf(vs[0]) && cs[1] == LinkOf(vs[1]) && cs[2] == LinkOf(vs[2]);
    assert "start" + "-" == "start-";
    StoreKeys(map["start" := RootPosition(root)], vs);
    ThreeVisitIds(vs);
  }

  // ---------------------------------------------------------------------
  // calculateTreeViewBox

  /** The bounding box the SVG view is given, as numbers. */
  datatype ViewBox = ViewBox(minX: real, minY: real, width: real, height: real)

  /** The fixed box used while at most the root is laid out. */
  const DefaultViewBox: ViewBox := ViewBox(-800.0, -700.0, 1600.0, 1400.0)

  const DefaultPadding: real := 300.0

  /** `Array.from(positions.values())`, in some order. */
  method MapValues(positions: map<string, Position>) returns (values: seq<Position>)
    ensures |values| == |positions|
    ensures forall v :: v in values <==> v in positions.Values
  {
    values := [];
    var keys := positions.Keys;
    while keys != {}
      invariant keys <= positions.Keys
      invariant |values| + |keys| == |positions|
      invariant forall v :: v in values <==> exists id :: id in positions.Keys - keys && positions[id] == v
      decreases |keys|
    {
      var id :| id in keys;
      values := values + [positions[id]];
      keys := keys - {id};
    }
  }

  /**
   * `calculateTreeViewBox`: the default box while at most one position
   * exists. Otherwise it is the bounding box of the positions, widened by
   * `padding` on every side. Every position then lies at least `padding`
   * inside the box, and the box is no larger than that.
   */
  method CalculateTreeViewBox(positions: map<string, Position>, padding: real) returns (vb: ViewBox)
    ensures |positions| <= 1 ==> vb == DefaultViewBox
    ensures |positions| > 1 ==>
      && (forall id :: id in positions ==>
            && vb.minX + padding <= positions[id].x <= vb.minX + vb.width - padding
            && vb.minY + padding <= positions[id].y <= vb.minY + vb.height - padding)
      && (exists id :: id in positions && positions[id].x == vb.minX + padding)
      && (exists id :: id in positions && positions[id].x == vb.minX + vb.width - padding)
      && (exists id :: id in positions && positions[id].y == vb.minY + padding)
      && (exists id :: id in positions && positions[id].y == vb.minY + vb.height - padding)
  {
    if |positions| <= 1 {
      return DefaultViewBox;
    }
    var allPositions := MapValues(positions);
    var xs := seq(|allPositions|, k requires 0 <= k < |allPositions| => allPositions[k].x);
    var ys := seq(|allPositions|, k requires 0 <= k < |allPositions| => allPositions[k].y);
    var minX := MinOf(xs) - padding;
    var maxX := MaxOf(xs) + padding;
    var minY := MinOf(ys) - padding;
    var maxY := MaxOf(ys) + padding;
    var width := maxX - minX;
    var height := maxY - minY;
    vb := ViewBox(minX, minY, width, height);
    forall id | id in positions
      ensures vb.minX + padding <= positions[id].x <= vb.minX + vb.width - padding
      ensures vb.minY + padding <= positions[id].y <= vb.minY + vb.height - padding
    {
      assert positions[id] in positions.Values;
      var k :| 0 <= k < |allPositions| && allPositions[k] == positions[id];
      assert xs[k] == positions[id].x && ys[k] == positions[id].y;
    }
    ExtremeIsAttained(positions, allPositions, xs, MinOf(xs), true);
    ExtremeIsAttained(positions, allPositions, xs, MaxOf(xs), true);
    ExtremeIsAttained(positions, allPositions, ys, MinOf(ys), false);
    ExtremeIsAttained(positions, allPositions, ys, MaxOf(ys), false);
  }

  lemma ExtremeIsAttained(positions: map<string, Position>, values: seq<Position>, cs: seq<real>, c: real, isX: bool)
    requires forall v :: v in values <==> v in positions.Values
    requires |cs| == |values| && c in cs
    requires forall k :: 0 <= k < |values| ==> cs[k] == if isX then values[k].x else values[k].y
    ensures exists id :: id in positions && (if isX then positions[id].x else positions[id].y) == c
  {
    var k :| 0 <= k < |cs| && cs[k] == c;
    assert values[k] in positions.Values;
    var id :| id in positions && positions[id] == values[k];
  }
}

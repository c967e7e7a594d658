/**
 * The older radial layout helpers (src/utils/layoutUtils.js): children on a
 * circle around their parent, a layout of the whole tree built from it, an
 * overlap test for two round nodes, and the bounds of a set of points.
 */
module LayoutUtils {
  import opened JsValues
  import opened Geometry
  import opened SkillTree

  /** The radius of a node that has none (or a zero one). */
  const DefaultNodeRadius: real := 40.0

  /** A child spread into a new record with its coordinates, angle and level. */
  datatype Placed = Placed(node: Node, x: real, y: real, angle: real, level: nat)

  /** The callback `calculateRadialLayout` maps over the children: child `index` of `count`. */
  function RadialChild(t: Trig, parent: Point, child: Node, count: nat, radius: real, startAngle: real,
                       level: nat, index: nat): (p: Placed)
    requires count > 0
    ensures p.node == child && p.level == level
    ensures p.angle == startAngle + ((2.0 * PI) / count as real) * index as real
    ensures Point(p.x, p.y) == Polar(t, parent, radius * (1.0 + level as real * 0.3), p.angle)
  {
    var adjustedRadius := radius * (1.0 + level as real * 0.3);
    var angleIncrement := (2.0 * PI) / count as real;
    var angle := startAngle + angleIncrement * index as real;
    Placed(child, parent.x + adjustedRadius * t.cos(angle), parent.y + adjustedRadius * t.sin(angle), angle, level)
  }

  /** `calculateRadialLayout`: the children evenly round a circle about the parent. */
  function CalculateRadialLayout(t: Trig, parent: Point, children: seq<Node>, radius: real,
                                 startAngle: real, level: nat): (r: seq<Placed>)
    ensures |r| == |children|
    ensures forall k :: 0 <= k < |r| ==>
      && r[k].node == children[k] && r[k].level == level
      && r[k].angle == startAngle + ((2.0 * PI) / |children| as real) * k as real
  {
    if |children| == 0 then []
    else
      seq(|children|, index requires 0 <= index < |children| =>
        RadialChild(t, parent, children[index], |children|, radius, startAngle, level, index))
  }

  /** Child `k` lies in its direction at `radius * (1 + 0.3 * level)` from the parent. */
  lemma RadialPlacement(t: Trig, parent: Point, children: seq<Node>, radius: real, startAngle: real, level: nat, k: nat)
    requires k < |children|
    ensures var r := CalculateRadialLayout(t, parent, children, radius, startAngle, level);
      Point(r[k].x, r[k].y) == Polar(t, parent, radius * (1.0 + level as real * 0.3), r[k].angle)
  {
    var r := CalculateRadialLayout(t, parent, children, radius, startAngle, level);
    assert r[k] == RadialChild(t, parent, children[k], |children|, radius, startAngle, level, k);
  }

  /**
   * Each child lies `radius * (1 + 0.3 * level)` from the parent (given
   * cos^2 + sin^2 = 1).
   */
  lemma RadialDistance(t: Trig, parent: Point, children: seq<Node>, radius: real, startAngle: real, level: nat, k: nat)
    requires Pythagorean(t) && k < |children|
    ensures var r := CalculateRadialLayout(t, parent, children, radius, startAngle, level);
      SquaredDistance(parent, Point(r[k].x, r[k].y))
      == (radius * (1.0 + level as real * 0.3)) * (radius * (1.0 + level as real * 0.3))
  {
    var r := CalculateRadialLayout(t, parent, children, radius, startAngle, level);
    RadialPlacement(t, parent, children, radius, startAngle, level, k);
    PolarDistance(t, parent, radius * (1.0 + level as real * 0.3), r[k].angle);
  }

  /** Consecutive children are a constant angle apart, a full turn shared out evenly. */
  lemma RadialSpacing(t: Trig, parent: Point, children: seq<Node>, radius: real, startAngle: real, level: nat, k: nat)
    requires k + 1 < |children|
    ensures var r := CalculateRadialLayout(t, parent, children, radius, startAngle, level);
      r[k + 1].angle - r[k].angle == (2.0 * PI) / |children| as real
  {
    var step := (2.0 * PI) / |children| as real;
    assert step * (k + 1) as real == step * k as real + step;
  }

  /** An entry of the map `calculateTreeLayout` returns; the root has no angle. */
  datatype TreePosition = TreePosition(id: string, x: real, y: real, level: nat, angle: Option<real>, node: Node)

  /** One iteration of `childPositions.forEach` in `processNode`. */
  datatype Step = Step(parent: Node, child: Node, from: Point, placed: Placed)

  /** The radius `processNode` hands to `calculateRadialLayout` at `level`. */
  function LevelRadius(baseRadius: real, level: nat): real {
    baseRadius * (1.0 + level as real * 0.4)
  }

  function PlacedAt(p: Placed): Point {
    Point(p.x, p.y)
  }

  /** The steps of `processNode(n, from, level)`, in order. */
  function Steps(n: Node, from: Point, level: nat, baseRadius: real, t: Trig): seq<Step>
    decreases n, 1
  {
    StepsUpTo(n, from, level, baseRadius, t, |n.children|)
  }

  function StepsUpTo(n: Node, from: Point, level: nat, baseRadius: real, t: Trig, k: nat): seq<Step>
    requires k <= |n.children|
    decreases n, 0, k
  {
    if k == 0 then []
    else
      var p := CalculateRadialLayout(t, from, n.children, LevelRadius(baseRadius, level), 0.0, level)[k - 1];
      StepsUpTo(n, from, level, baseRadius, t, k - 1)
        + [Step(n, n.children[k - 1], from, p)]
        + Steps(n.children[k - 1], PlacedAt(p), level + 1, baseRadius, t)
  }

  function EntryOf(s: Step): TreePosition {
    TreePosition(s.child.id, s.placed.x, s.placed.y, s.placed.level, Some(s.placed.angle), s.child)
  }

  /** `positions.set` for each step in turn. */
  function StoreSteps(m: map<string, TreePosition>, steps: seq<Step>): map<string, TreePosition>
  {
    if steps == [] then m
    else StoreSteps(m, steps[..|steps| - 1])[steps[|steps| - 1].child.id := EntryOf(steps[|steps| - 1])]
  }

  function RootEntry(root: Node): TreePosition {
    TreePosition(root.id, 0.0, 0.0, 0, None, root)
  }

  /** The map `calculateTreeLayout` returns. */
  function TreeLayout(root: Node, baseRadius: real, t: Trig): map<string, TreePosition> {
    StoreSteps(map[root.id := RootEntry(root)], Steps(root, Origin, 1, baseRadius, t))
  }

  function Children(steps: seq<Step>): (cs: seq<Node>)
    ensures |cs| == |steps| && forall k :: 0 <= k < |steps| ==> cs[k] == steps[k].child
  {
    seq(|steps|, k requires 0 <= k < |steps| => steps[k].child)
  }

  lemma {:induction false} StoreStepsAppend(m: map<string, TreePosition>, a: seq<Step>, b: seq<Step>)
    ensures StoreSteps(m, a + b) == StoreSteps(StoreSteps(m, a), b)
    decreases |b|
  {
    if b != [] {
      var b', s := b[..|b| - 1], b[|b| - 1];
      assert a + b == (a + b') + [s];
      assert (a + b)[..|a + b| - 1] == a + b';
      StoreStepsAppend(m, a, b');
    } else {
      assert a + b == a;
    }
  }

  /**
   * `processNode`: places the children of `n` round `n`'s stored position,
   * stores each one with the current level and its angle, and recurses
   * into it one level deeper. Every node with children is entered.
   */
  method ProcessNode(n: Node, parentPos: Point, level: nat, baseRadius: real, t: Trig,
                     positions: map<string, TreePosition>)
    returns (positions': map<string, TreePosition>)
    requires n.id in positions && Point(positions[n.id].x, positions[n.id].y) == parentPos
    ensures positions' == StoreSteps(positions, Steps(n, parentPos, level, baseRadius, t))
    decreases n
  {
    positions' := positions;
    if |n.children| == 0 {
      return;
    }
    var currentPos := if n.id in positions then Point(positions[n.id].x, positions[n.id].y) else parentPos;
    var radius := baseRadius * (1.0 + level as real * 0.4);
    var childPositions := CalculateRadialLayout(t, currentPos, n.children, radius, 0.0, level);
    assert childPositions == CalculateRadialLayout(t, parentPos, n.children, LevelRadius(baseRadius, level), 0.0, level);
    for index := 0 to |childPositions|
      invariant positions' == StoreSteps(positions, StepsUpTo(n, parentPos, level, baseRadius, t, index))
    {
      var childPos := childPositions[index];
      var child := n.children[index];
      StepStore(n, parentPos, level, baseRadius, t, index, positions);
      positions' := positions'[childPos.node.id := TreePosition(childPos.node.id, childPos.x, childPos.y,
                                                                level, Some(childPos.angle), child)];
      assert child.id in positions' && Point(positions'[child.id].x, positions'[child.id].y) == Point(childPos.x, childPos.y);
      positions' := ProcessNode(child, Point(childPos.x, childPos.y), level + 1, baseRadius, t, positions');
    }
  }

  /** What one iteration of the loop in `ProcessNode` adds. */
  lemma StepStore(n: Node, from: Point, level: nat, baseRadius: real, t: Trig, index: nat,
                  positions: map<string, TreePosition>)
    requires index < |n.children|
    ensures var p := CalculateRadialLayout(t, from, n.children, LevelRadius(baseRadius, level), 0.0, level)[index];
      var child := n.children[index];
      var before := StepsUpTo(n, from, level, baseRadius, t, index);
      StoreSteps(StoreSteps(positions, before)[p.node.id := TreePosition(p.node.id, p.x, p.y, level, Some(p.angle), child)],
                 Steps(child, PlacedAt(p), level + 1, baseRadius, t))
      == StoreSteps(positions, StepsUpTo(n, from, level, baseRadius, t, index + 1))
  {
    var p := CalculateRadialLayout(t, from, n.children, LevelRadius(baseRadius, level), 0.0, level)[index];
    var child := n.children[index];
    var before := StepsUpTo(n, from, level, baseRadius, t, index);
    var s := Step(n, child, from, p);
    var below := Steps(child, PlacedAt(p), level + 1, baseRadius, t);
    assert StepsUpTo(n, from, level, baseRadius, t, index + 1) == before + [s] + below;
    StoreStepsAppend(positions, before, [s]);
    StoreStepsAppend(positions, before + [s], below);
  }

  /** `calculateTreeLayout`: the root at the origin with level 0, then every node below it. */
  method CalculateTreeLayout(rootNode: Node, baseRadius: real, t: Trig) returns (positions: map<string, TreePosition>)
    ensures positions == TreeLayout(rootNode, baseRadius, t)
  {
    positions := map[rootNode.id := RootEntry(rootNode)];
    positions := ProcessNode(rootNode, Origin, 1, baseRadius, t, positions);
  }

  /**
   * The layout steps through the whole tree below `n` in pre-order: the
   * children it places are exactly `n`'s proper descendants, each once.
   */
  lemma {:induction false} StepsArePreOrder(n: Node, from: Point, level: nat, baseRadius: real, t: Trig)
    ensures Children(Steps(n, from, level, baseRadius, t)) == PreOrderUpTo(n, |n.children|)
    decreases n, 1
  {
    StepsUpToArePreOrder(n, from, level, baseRadius, t, |n.children|);
  }

  lemma {:induction false} StepsUpToArePreOrder(n: Node, from: Point, level: nat, baseRadius: real, t: Trig, k: nat)
    requires k <= |n.children|
    ensures Children(StepsUpTo(n, from, level, baseRadius, t, k)) == PreOrderUpTo(n, k)
    decreases n, 0, k
  {
    if k > 0 {
      var p := CalculateRadialLayout(t, from, n.children, LevelRadius(baseRadius, level), 0.0, level)[k - 1];
      var child := n.children[k - 1];
      var before := StepsUpTo(n, from, level, baseRadius, t, k - 1);
      var s := Step(n, child, from, p);
      var below := Steps(child, PlacedAt(p), level + 1, baseRadius, t);
      StepsUpToArePreOrder(n, from, level, baseRadius, t, k - 1);
      StepsArePreOrder(child, PlacedAt(p), level + 1, baseRadius, t);
      assert StepsUpTo(n, from, level, baseRadius, t, k) == before + [s] + below;
      assert Children(before + [s] + below) == Children(before) + [child] + Children(below);
      assert PreOrderUpTo(n, k) == PreOrderUpTo(n, k - 1) + ([child] + PreOrderUpTo(child, |child.children|));
    }
  }

  lemma {:induction false} StoreStepsKeys(m: map<string, TreePosition>, steps: seq<Step>)
    ensures StoreSteps(m, steps).Keys == m.Keys + set k | 0 <= k < |steps| :: steps[k].child.id
    decreases |steps|
  {
    if steps != [] {
      StoreStepsKeys(m, steps[..|steps| - 1]);
    }
  }

  /** Every node of the tree gets a position, whatever its shape. */
  lemma LayoutCoversTree(root: Node, baseRadius: real, t: Trig)
    ensures TreeLayout(root, baseRadius, t).Keys == set m | m in Subtrees(root) :: m.id
  {
    var steps := Steps(root, Origin, 1, baseRadius, t);
    StoreStepsKeys(map[root.id := RootEntry(root)], steps);
    StepsArePreOrder(root, Origin, 1, baseRadius, t);
    PreOrderIsComplete(root);
    var below := PreOrderUpTo(root, |root.children|);
    assert PreOrder(root) == [root] + below;
    var placed := set k | 0 <= k < |steps| :: steps[k].child.id;
    var all := set m | m in Subtrees(root) :: m.id;
    forall x | x in all ensures x == root.id || x in placed {
      var m :| m in Subtrees(root) && m.id == x;
      if m != root {
        assert m in below;
        var k :| 0 <= k < |below| && below[k] == m;
        assert Children(steps)[k] == m;
      }
    }
    forall x | x in placed ensures x in all {
      var k :| 0 <= k < |steps| && steps[k].child.id == x;
      assert Children(steps)[k] in PreOrder(root);
    }
  }

  lemma {:induction false} StoreStepsKeeps(m: map<string, TreePosition>, steps: seq<Step>, id: string)
    requires id in m && forall k :: 0 <= k < |steps| ==> steps[k].child.id != id
    ensures id in StoreSteps(m, steps) && StoreSteps(m, steps)[id] == m[id]
    decreases |steps|
  {
    if steps != [] {
      StoreStepsKeeps(m, steps[..|steps| - 1], id);
    }
  }

  /**
   * When the tree's ids are distinct, the root keeps its entry at the
   * origin with level 0 and no angle, and there is one entry per node.
   */
  lemma DistinctIdsTreeLayout(root: Node, baseRadius: real, t: Trig)
    requires DistinctIds(root)
    ensures root.id in TreeLayout(root, baseRadius, t) && TreeLayout(root, baseRadius, t)[root.id] == RootEntry(root)
    ensures |TreeLayout(root, baseRadius, t)| == Size(root)
  {
    var steps := Steps(root, Origin, 1, baseRadius, t);
    var below := PreOrderUpTo(root, |root.children|);
    StepsArePreOrder(root, Origin, 1, baseRadius, t);
    assert PreOrder(root) == [root] + below;
    forall k | 0 <= k < |steps| ensures steps[k].child.id != root.id {
      assert Ids(PreOrder(root))[0] == root.id;
      assert Ids(PreOrder(root))[k + 1] == Children(steps)[k].id;
    }
    StoreStepsKeeps(map[root.id := RootEntry(root)], steps, root.id);
    LayoutCoversTree(root, baseRadius, t);
    DistinctTreeIdCount(root);
  }

  /** A tree with distinct ids has as many ids as nodes. */
  lemma DistinctTreeIdCount(root: Node)
    requires DistinctIds(root)
    ensures |set m | m in Subtrees(root) :: m.id| == Size(root)
  {
    var s := PreOrder(root);
    PreOrderIsComplete(root);
    IdSetSize(s);
    var treeIds := set m | m in Subtrees(root) :: m.id;
    var listed := set k | 0 <= k < |s| :: Ids(s)[k];
    forall x | x in treeIds ensures x in listed {
      var m :| m in Subtrees(root) && m.id == x;
      var k :| 0 <= k < |s| && s[k] == m;
      assert Ids(s)[k] == x;
    }
    forall x | x in listed ensures x in treeIds {
      var k :| 0 <= k < |s| && Ids(s)[k] == x;
      assert s[k] in Subtrees(root);
    }
    assert treeIds == listed;
  }

  /** A list of nodes with distinct ids has as many ids as nodes. */
  lemma {:induction false} IdSetSize(s: seq<Node>)
    requires NoDup(Ids(s))
    ensures |set k | 0 <= k < |s| :: Ids(s)[k]| == |s|
    decreases |s|
  {
    if s != [] {
      var init := s[..|s| - 1];
      assert Ids(init) == Ids(s)[..|s| - 1];
      IdSetSize(init);
      var a := set k | 0 <= k < |init| :: Ids(init)[k];
      var b := set k | 0 <= k < |s| :: Ids(s)[k];
      assert b == a + {Ids(s)[|s| - 1]};
      assert Ids(s)[|s| - 1] !in a;
    }
  }

  /** The full distance of a child placed at `level` from its parent. */
  function StepReach(baseRadius: real, level: nat): real {
    LevelRadius(baseRadius, level) * (1.0 + level as real * 0.3)
  }

  /**
   * A child placed at `level` lies `baseRadius * (1 + 0.4 * level) *
   * (1 + 0.3 * level)` from its parent: the radius is scaled twice.
   */
  lemma StepDistance(n: Node, from: Point, level: nat, baseRadius: real, t: Trig)
    requires Pythagorean(t)
    ensures forall s :: s in Steps(n, from, level, baseRadius, t) ==>
      SquaredDistance(s.from, PlacedAt(s.placed)) == StepReach(baseRadius, s.placed.level) * StepReach(baseRadius, s.placed.level)
  {
    StepsPlaced(n, from, level, baseRadius, t);
    forall s | s in Steps(n, from, level, baseRadius, t)
      ensures SquaredDistance(s.from, PlacedAt(s.placed)) == StepReach(baseRadius, s.placed.level) * StepReach(baseRadius, s.placed.level)
    {
      assert PlacedByReach(t, baseRadius, s);
      PolarDistance(t, s.from, StepReach(baseRadius, s.placed.level), s.placed.angle);
    }
  }

  /** Step `s` placed its child in its direction at `StepReach` from where it started. */
  predicate PlacedByReach(t: Trig, baseRadius: real, s: Step) {
    PlacedAt(s.placed) == Polar(t, s.from, StepReach(baseRadius, s.placed.level), s.placed.angle)
  }

  /** Every step places its child in its direction at `StepReach` from the step's start. */
  lemma {:induction false} StepsPlaced(n: Node, from: Point, level: nat, baseRadius: real, t: Trig)
    ensures forall s :: s in Steps(n, from, level, baseRadius, t) ==> PlacedByReach(t, baseRadius, s)
    decreases n, 1
  {
    StepsUpToPlaced(n, from, level, baseRadius, t, |n.children|);
  }

  lemma {:induction false} StepsUpToPlaced(n: Node, from: Point, level: nat, baseRadius: real, t: Trig, k: nat)
    requires k <= |n.children|
    ensures forall s :: s in StepsUpTo(n, from, level, baseRadius, t, k) ==> PlacedByReach(t, baseRadius, s)
    decreases n, 0, k
  {
    if k > 0 {
      var layout := CalculateRadialLayout(t, from, n.children, LevelRadius(baseRadius, level), 0.0, level);
      var p := layout[k - 1];
      var before := StepsUpTo(n, from, level, baseRadius, t, k - 1);
      var step := Step(n, n.children[k - 1], from, p);
      var below := Steps(n.children[k - 1], PlacedAt(p), level + 1, baseRadius, t);
      assert StepsUpTo(n, from, level, baseRadius, t, k) == before + [step] + below;
      StepsUpToPlaced(n, from, level, baseRadius, t, k - 1);
      StepsPlaced(n.children[k - 1], PlacedAt(p), level + 1, baseRadius, t);
      RadialPlacement(t, from, n.children, LevelRadius(baseRadius, level), 0.0, level, k - 1);
      assert StepReach(baseRadius, p.level) == LevelRadius(baseRadius, level) * (1.0 + level as real * 0.3);
      assert PlacedByReach(t, baseRadius, step);
      forall s | s in before + [step] + below ensures PlacedByReach(t, baseRadius, s) {
        if s in before {
        } else if s == step {
        } else {
          assert s in below;
        }
      }
    }
  }

  // ---------------------------------------------------------------------
  // checkOverlap

  /** A round node; `radius` may be absent. */
  datatype Disc = Disc(x: real, y: real, radius: Option<real>)

  /** `node.radius || 40`: an absent or zero radius counts as 40. */
  function EffectiveRadius(d: Disc): (r: real)
    ensures d.radius.Some? && d.radius.value != 0.0 ==> r == d.radius.value
    ensures d.radius == None || d.radius == Some(0.0) ==> r == DefaultNodeRadius
  {
    match d.radius
    case Some(r) => if r != 0.0 then r else DefaultNodeRadius
    case None => DefaultNodeRadius
  }

  /**
   * `checkOverlap`: the centres are closer than the two radii together.
   * With a true square root, that is exactly when the reach is positive
   * and the squared gap is below the squared reach.
   */
  function CheckOverlap(t: Trig, a: Disc, b: Disc): (r: bool)
    ensures IsSqrt(t) ==> var reach := EffectiveRadius(a) + EffectiveRadius(b);
      r <==> 0.0 < reach && SquaredDistance(Point(a.x, a.y), Point(b.x, b.y)) < reach * reach
  {
    var minDistance := EffectiveRadius(a) + EffectiveRadius(b);
    var squared := SquaredDistance(Point(a.x, a.y), Point(b.x, b.y));
    var distance := t.sqrt(squared);
    SqrtBelow(t, squared, minDistance);
    distance < minDistance
  }

  /** Below a bound, through a true square root: compare the squares instead. */
  lemma SqrtBelow(t: Trig, sq: real, bound: real)
    requires 0.0 <= sq
    ensures IsSqrt(t) ==> (t.sqrt(sq) < bound <==> 0.0 < bound && sq < bound * bound)
  {
    if IsSqrt(t) {
      var d := t.sqrt(sq);
      assert 0.0 <= d && d * d == sq;
      if 0.0 < bound {
        SquareMonotone(d, bound);
      }
    }
  }

  /** On non-negative numbers, squaring keeps strict order both ways. */
  lemma SquareMonotone(x: real, y: real)
    requires 0.0 <= x && 0.0 <= y
    ensures x < y <==> x * x < y * y
  {
    var xx, xy, yy := x * x, x * y, y * y;
    if x < y {
      assert xx <= xy;
      assert xy < yy;
    } else {
      assert yy <= xy;
      assert xy <= xx;
    }
  }

  // ---------------------------------------------------------------------
  // calculateViewportBounds

  datatype Bounds = Bounds(minX: real, maxX: real, minY: real, maxY: real,
                           width: real, height: real, centerX: real, centerY: real)

  const DefaultBounds: Bounds := Bounds(-400.0, 400.0, -400.0, 400.0, 800.0, 800.0, 0.0, 0.0)

  /**
   * `calculateViewportBounds`: the fixed default for no points; otherwise
   * the bounding box widened by `padding`, its size and its centre.
   */
  function CalculateViewportBounds(points: seq<Point>, padding: real): (b: Bounds)
    ensures |points| == 0 ==> b == DefaultBounds
    ensures |points| > 0 ==>
      && b.width == b.maxX - b.minX && b.height == b.maxY - b.minY
      && b.centerX == (b.minX + b.maxX) / 2.0 && b.centerY == (b.minY + b.maxY) / 2.0
      && (forall k :: 0 <= k < |points| ==>
            b.minX + padding <= points[k].x <= b.maxX - padding &&
            b.minY + padding <= points[k].y <= b.maxY - padding)
      && (exists k :: 0 <= k < |points| && points[k].x == b.minX + padding)
      && (exists k :: 0 <= k < |points| && points[k].x == b.maxX - padding)
      && (exists k :: 0 <= k < |points| && points[k].y == b.minY + padding)
      && (exists k :: 0 <= k < |points| && points[k].y == b.maxY - padding)
  {
    if |points| == 0 then DefaultBounds
    else
      var xs := Xs(points);
      var ys := Ys(points);
      var minX := MinOf(xs) - padding;
      var maxX := MaxOf(xs) + padding;
      var minY := MinOf(ys) - padding;
      var maxY := MaxOf(ys) + padding;
      Bounds(minX, maxX, minY, maxY, maxX - minX, maxY - minY, (minX + maxX) / 2.0, (minY + maxY) / 2.0)
  }
}

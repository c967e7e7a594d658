/**
 * The layout of the project-stage tree (src/utils/TreeLayout.js): where each
 * stage sits, the branch that reaches it, the junction between consecutive
 * stages, the sampled curve of a branch, and how thick a branch is drawn.
 */
module StageTreeLayout {
  import opened JsValues
  import opened Geometry

  /** A stage of the game; only the fields the layout reads. */
  datatype Stage = Stage(id: string, color: Option<string>)

  /** A stage spread into a new record with its position. */
  datatype PlacedStage = PlacedStage(stage: Stage, position: Point3)

  datatype Trunk = Trunk(start: Point3, end: Point3)

  datatype Branch = Branch(id: string, start: Point3, end: Point3, color: string, animated: bool,
                           controlPoint: Option<Point3>)

  /** The diamond drawn where two consecutive branches meet. */
  datatype Junction = Junction(id: string, position: Point3, color: string)

  /** The result; `trunk` is absent exactly when there are no stages. */
  datatype StageLayout = StageLayout(stages: seq<PlacedStage>, branches: seq<Branch>,
                                     connections: seq<Junction>, trunk: Option<Trunk>)

  const DefaultBranchColor: string := "#8B7355"
  const TrunkStart: Point3 := Point3(0.0, -8.0, 0.0)
  const TrunkEnd: Point3 := Point3(0.0, -2.0, 0.0)
  /** Where the first stage sits, for every number of stages. */
  const RootStage: Point3 := Point3(0.0, -2.0, 0.0)
  const Segments: nat := 20

  /** `stage.color || '#8B7355'`: an absent or empty colour falls back. */
  function ColorOf(s: Stage): (c: string)
    ensures s.color.Some? && s.color.value != "" ==> c == s.color.value
    ensures s.color == None || s.color == Some("") ==> c == DefaultBranchColor
  {
    match s.color
    case Some(c) => if c != "" then c else DefaultBranchColor
    case None => DefaultBranchColor
  }

  /** Position `index` of the organic spread used from six stages on. */
  function SpreadPosition(t: Trig, count: nat, index: nat): Point3
    requires count >= 6
  {
    if index == 0 then RootStage
    else
      var angleStep := (PI * 1.2) / (count - 1) as real;
      var startAngle := -PI * 0.6;
      var angle := startAngle + angleStep * (index - 1) as real;
      var radius := 5.0 + (index % 2) as real * 1.5;
      var height := -1.0 + index as real * 1.2;
      Point3(t.cos(angle) * radius, if height <= 4.0 then height else 4.0, t.sin(angle) * 2.0 - 1.0)
  }

  /** The positions assigned to `count` stages: a fixed table for 3 to 5, computed otherwise. */
  function StagePositions(t: Trig, count: nat): (ps: seq<Point3>)
    ensures |ps| == count
    ensures count > 0 ==> ps[0] == RootStage
    ensures count <= 2 ==> forall i :: 0 <= i < count ==> ps[i] == Point3(0.0, -2.0 + i as real * 3.0, 0.0)
    ensures count >= 6 ==> forall i :: 1 <= i < count ==>
      ps[i].y == if -1.0 + i as real * 1.2 <= 4.0 then -1.0 + i as real * 1.2 else 4.0
    ensures count >= 6 ==> forall i, j :: 1 <= i <= j < count ==> ps[i].y <= ps[j].y <= 4.0
  {
    if count == 3 then
      [Point3(0.0, -2.0, 0.0), Point3(-6.0, 1.0, -1.0), Point3(6.0, 1.0, -1.0)]
    else if count == 4 then
      [Point3(0.0, -2.0, 0.0), Point3(-6.0, 0.5, -1.0), Point3(6.0, 0.5, -1.0), Point3(0.0, 3.0, 0.0)]
    else if count == 5 then
      [Point3(0.0, -2.0, 0.0), Point3(-5.0, 0.0, -1.0), Point3(0.0, 1.0, 0.0), Point3(5.0, 0.0, -1.0),
       Point3(0.0, 3.5, 0.0)]
    else if count >= 6 then
      seq(count, index requires 0 <= index < count => SpreadPosition(t, count, index))
    else
      seq(count, index requires 0 <= index < count => Point3(0.0, -2.0 + index as real * 3.0, 0.0))
  }

  /** Each stage with its position, or with the fallback if the table ran short. */
  function PlaceStages(stages: seq<Stage>, positions: seq<Point3>): (placed: seq<PlacedStage>)
    ensures |placed| == |stages|
    ensures forall i :: 0 <= i < |stages| && i < |positions| ==> placed[i] == PlacedStage(stages[i], positions[i])
  {
    seq(|stages|, index requires 0 <= index < |stages| =>
      PlacedStage(stages[index],
                  if index < |positions| then positions[index]
                  else Point3(0.0, index as real * 2.0, 0.0)))
  }

  function Midpoint(a: Point3, b: Point3): Point3 {
    Point3((a.x + b.x) / 2.0, (a.y + b.y) / 2.0, (a.z + b.z) / 2.0)
  }

  /** The branch reaching stage `i`: from the trunk's end for the first, else from the stage before. */
  function BranchOf(placed: seq<PlacedStage>, i: nat): Branch
    requires i < |placed|
  {
    var stage := placed[i];
    if i == 0 then
      Branch("trunk-to-" + stage.stage.id, TrunkEnd, stage.position, ColorOf(stage.stage), true, None)
    else
      var prev := placed[i - 1];
      Branch("branch-to-" + stage.stage.id, prev.position, stage.position, ColorOf(stage.stage), true,
             Some(Midpoint(prev.position, stage.position)))
  }

  /** The junction between stage `i - 1` and stage `i`. */
  function JunctionOf(placed: seq<PlacedStage>, i: nat): Junction
    requires 0 < i < |placed|
  {
    Junction("connection-" + NatToString(i), Midpoint(placed[i - 1].position, placed[i].position),
             ColorOf(placed[i].stage))
  }

  /**
   * `layout` places `stages` in order, each with the branch that reaches
   * it; this part does not depend on the positions.
   */
  predicate LaysOut(layout: StageLayout, stages: seq<Stage>) {
    && |layout.stages| == |stages|
    && |layout.branches| == |stages|
    && (forall i :: 0 <= i < |stages| ==> layout.stages[i].stage == stages[i])
    && (forall i :: 0 <= i < |stages| ==> layout.branches[i] == BranchOf(layout.stages, i))
  }

  /**
   * What `calculateTreeLayout` returns: nothing for no stages. Otherwise
   * the trunk, each stage at its computed position, the branch reaching
   * each stage, and the junction before each stage after the first.
   */
  predicate IsTreeLayout(layout: StageLayout, stages: seq<Stage>, t: Trig) {
    && (|stages| == 0 ==> layout == StageLayout([], [], [], None))
    && (|stages| > 0 ==>
      && layout.trunk == Some(Trunk(TrunkStart, TrunkEnd))
      && LaysOut(layout, stages)
      && (forall i :: 0 <= i < |stages| ==> layout.stages[i].position == StagePositions(t, |stages|)[i])
      && |layout.connections| == |stages| - 1
      && (forall i :: 1 <= i < |stages| ==> layout.connections[i - 1] == JunctionOf(layout.stages, i)))
  }

  /** The branch reaching stage `i` is named after it: from the trunk for the first, else from the stage before. */
  lemma BranchIds(layout: StageLayout, stages: seq<Stage>)
    requires LaysOut(layout, stages)
    ensures forall i :: 0 <= i < |stages| ==>
      layout.branches[i].id == (if i == 0 then "trunk-to-" else "branch-to-") + stages[i].id
  {
    forall i | 0 <= i < |stages|
      ensures layout.branches[i].id == (if i == 0 then "trunk-to-" else "branch-to-") + stages[i].id
    {
      assert layout.branches[i] == BranchOf(layout.stages, i);
    }
  }

  /**
   * `calculateTreeLayout`: nothing for no stages. Otherwise each stage
   * with its position in order, one branch per stage, and one junction
   * per stage after the first, pushed while the branches are built.
   */
  method CalculateTreeLayout(stages: seq<Stage>, t: Trig) returns (layout: StageLayout)
    ensures IsTreeLayout(layout, stages, t)
  {
    if |stages| == 0 {
      return StageLayout([], [], [], None);
    }
    var trunk := Trunk(Point3(0.0, -8.0, 0.0), Point3(0.0, -2.0, 0.0));
    var stagePositions := StagePositions(t, |stages|);
    var placed := PlaceStages(stages, stagePositions);
    var branches, connections := GrowBranches(placed, trunk);
    layout := StageLayout(placed, branches, connections, Some(trunk));
  }

  /**
   * The branch pass of `calculateTreeLayout`: one branch per placed stage,
   * and a junction pushed for every stage after the first.
   */
  method GrowBranches(placed: seq<PlacedStage>, trunk: Trunk) returns (branches: seq<Branch>, connections: seq<Junction>)
    requires |placed| > 0 && trunk.end == TrunkEnd
    ensures |branches| == |placed|
    ensures forall i :: 0 <= i < |placed| ==> branches[i] == BranchOf(placed, i)
    ensures |connections| == |placed| - 1
    ensures forall i :: 1 <= i < |placed| ==> connections[i - 1] == JunctionOf(placed, i)
  {
    branches := [];
    connections := [];
    for index := 0 to |placed|
      invariant |branches| == index
      invariant forall i :: 0 <= i < index ==> branches[i] == BranchOf(placed, i)
      invariant |connections| == if index == 0 then 0 else index - 1
      invariant forall i :: 1 <= i < index ==> connections[i - 1] == JunctionOf(placed, i)
    {
      var stage := placed[index];
      var color := ColorOf(stage.stage);
      if index == 0 {
        branches := branches + [Branch("trunk-to-" + stage.stage.id, trunk.end, stage.position, color, true, None)];
        assert branches[index] == BranchOf(placed, index);
      } else {
        var prevStage := placed[index - 1];
        var midX := (prevStage.position.x + stage.position.x) / 2.0;
        var midY := (prevStage.position.y + stage.position.y) / 2.0;
        var midZ := (prevStage.position.z + stage.position.z) / 2.0;
        var connectionPoint := Point3(midX, midY, midZ);
        connections := connections + [Junction("connection-" + NatToString(index), connectionPoint, color)];
        branches := branches + [Branch("branch-to-" + stage.stage.id, prevStage.position, stage.position,
                                       color, true, Some(connectionPoint))];
        assert connectionPoint == Midpoint(prevStage.position, stage.position);
        assert connections[index - 1] == JunctionOf(placed, index);
        assert branches[index] == BranchOf(placed, index);
      }
    }
  }

  /**
   * The branches form one unbroken path: the first leaves the trunk's end,
   * each later one leaves where the one before arrived, and each arrives
   * at its own stage.
   */
  lemma BranchesChain(placed: seq<PlacedStage>)
    requires |placed| > 0
    ensures BranchOf(placed, 0).start == TrunkEnd
    ensures forall i :: 0 <= i < |placed| ==> BranchOf(placed, i).end == placed[i].position
    ensures forall i :: 1 <= i < |placed| ==> BranchOf(placed, i).start == BranchOf(placed, i - 1).end
  {
  }

  /** Every junction lies halfway along the branch it sits on, and their ids differ. */
  lemma JunctionsOnBranches(placed: seq<PlacedStage>)
    ensures forall i :: 0 < i < |placed| ==>
      BranchOf(placed, i).controlPoint == Some(JunctionOf(placed, i).position)
    ensures forall i, j :: 0 < i < j < |placed| ==> JunctionOf(placed, i).id != JunctionOf(placed, j).id
  {
    forall i, j | 0 < i < j < |placed| ensures JunctionOf(placed, i).id != JunctionOf(placed, j).id {
      var p := "connection-";
      if JunctionOf(placed, i).id == JunctionOf(placed, j).id {
        assert (p + NatToString(i))[|p|..] == NatToString(i);
        assert (p + NatToString(j))[|p|..] == NatToString(j);
        NatToStringInjective(i, j);
        assert false;
      }
    }
  }

  // ---------------------------------------------------------------------
  // calculateBranchCurve

  /** The curve at parameter `s`: quadratic Bezier through `control`, or the straight line. */
  function CurvePoint(start: Point3, end: Point3, control: Option<Point3>, s: real): Point3 {
    match control
    case Some(c) =>
      Point3((1.0 - s) * (1.0 - s) * start.x + 2.0 * (1.0 - s) * s * c.x + s * s * end.x,
             (1.0 - s) * (1.0 - s) * start.y + 2.0 * (1.0 - s) * s * c.y + s * s * end.y,
             (1.0 - s) * (1.0 - s) * start.z + 2.0 * (1.0 - s) * s * c.z + s * s * end.z)
    case None =>
      Point3(start.x + (end.x - start.x) * s, start.y + (end.y - start.y) * s, start.z + (end.z - start.z) * s)
  }

  /**
   * `calculateBranchCurve`: 21 samples at parameters 0, 1/20, ..., 1. The
   * first is `start` and the last is `end`, with or without a control point.
   */
  method CalculateBranchCurve(start: Point3, end: Point3, control: Option<Point3>) returns (points: seq<Point3>)
    ensures |points| == Segments + 1
    ensures points[0] == start && points[Segments] == end
    ensures forall i :: 0 <= i <= Segments ==> points[i] == CurvePoint(start, end, control, i as real / Segments as real)
  {
    points := [];
    var segments := 20;
    var i := 0;
    while i <= segments
      invariant 0 <= i <= segments + 1
      invariant |points| == i
      invariant forall k :: 0 <= k < i ==> points[k] == CurvePoint(start, end, control, k as real / Segments as real)
    {
      var s := i as real / segments as real;
      points := points + [CurvePoint(start, end, control, s)];
      i := i + 1;
    }
    CurveEndpoints(start, end, control);
  }

  /** Both kinds of curve start at `start` and end at `end`. */
  lemma CurveEndpoints(start: Point3, end: Point3, control: Option<Point3>)
    ensures CurvePoint(start, end, control, 0.0) == start
    ensures CurvePoint(start, end, control, 1.0) == end
  {
  }

  /** One coordinate of the Bezier through the midpoint equals the straight line's. */
  lemma MidpointBezier(a: real, b: real, s: real)
    ensures (1.0 - s) * (1.0 - s) * a + 2.0 * (1.0 - s) * s * ((a + b) / 2.0) + s * s * b == a + (b - a) * s
  {
    var u := 1.0 - s;
    assert 2.0 * u * s * ((a + b) / 2.0) == u * s * a + u * s * b;
    assert u * u * a + u * s * a == u * a * (u + s);
    assert u * s * b + s * s * b == s * b * (u + s);
  }

  /**
   * A branch whose control point is the midpoint of its ends, as every
   * branch after the first has, is drawn straight.
   */
  lemma MidpointControlIsStraight(start: Point3, end: Point3, s: real)
    ensures CurvePoint(start, end, Some(Midpoint(start, end)), s) == CurvePoint(start, end, None, s)
  {
    MidpointBezier(start.x, end.x, s);
    MidpointBezier(start.y, end.y, s);
    MidpointBezier(start.z, end.z, s);
  }

  // ---------------------------------------------------------------------
  // getBranchThickness

  /**
   * `getBranchThickness`: 0.15 for the first branch, then shrinking towards
   * 0.08 as the index grows, so that within a tree of `total` stages it
   * stays between 0.08 and 0.15; a zero total divides by zero and leaves
   * the thickness of every later branch infinite.
   */
  function GetBranchThickness(index: int, total: int): (r: Number)
    ensures index == 0 ==> r == Finite(0.15)
    ensures 0 <= index <= total && 0 < total ==> r.Finite? && 0.08 <= r.value <= 0.15
    ensures index != 0 && total == 0 ==> !r.Finite?
  {
    if index == 0 then Finite(0.15)
    else if total == 0 then (if index > 0 then NegInfinity else PosInfinity)
    else
      ShareBounds(index, total);
      var ratio := 1.0 - index as real / total as real;
      Finite(0.08 + ratio * 0.07)
  }

  /** The share index/total of a stage within the tree lies in [0, 1]. */
  lemma ShareBounds(index: int, total: int)
    requires total != 0
    ensures 0 <= index <= total ==> 0.0 <= index as real / total as real <= 1.0
  {
    var q := index as real / total as real;
    assert q * total as real == index as real;
  }

  /** A later branch is never thicker than an earlier one. */
  lemma ThicknessDecreases(i: int, j: int, total: int)
    requires 0 <= i <= j <= total && 0 < total
    ensures GetBranchThickness(j, total).value <= GetBranchThickness(i, total).value
  {
    if i != 0 {
      var qi, qj := i as real / total as real, j as real / total as real;
      assert qi <= qj by {
        assert qj - qi == (j - i) as real / total as real;
      }
    }
  }
}

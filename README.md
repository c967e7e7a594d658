# Skill web and project journey layouts, in Dafny

This project models the algorithmic core of a portfolio site's two
interactive visualisations and proves properties of the model.

* **The skill web.** `nodeWebData` is a hand-written tree of technologies.
  Each leaf carries the projects that use it, found in the tag index built
  by `buildProjectMapping`. `calculateTreeLayout` (treeLayoutUtils.js)
  places every child of an *expanded* node 280 units from its parent:
  - children of the root are spread over a full circle, starting straight up;
  - deeper children are spread over a 60° arc that points away from the
    centre.

  The walk records one position per placed node and one connection per
  parent–child edge. `calculateTreeViewBox` frames the result. The
  `NodeWebVisualization` component keeps four pieces of state:
  - the expanded set, which a click toggles, and a collapse also clears the
    visible descendants;
  - the zoom level, clamped to [0.3, 3];
  - the pan offset, dragged with the mouse;
  - the derived layout, recomputed whenever the expanded set changes.
* **The older radial utilities** (layoutUtils.js):
  - `calculateRadialLayout` spreads children evenly around a parent;
  - `calculateTreeLayout` applies it at every node, with a radius growing
    by level;
  - `checkOverlap` tests two discs;
  - `calculateViewportBounds` frames a set of points.
* **The project journey.** `calculateTreeLayout` (TreeLayout.js) places a
  project's stages in 3-D:
  - a fixed shape for 3, 4 or 5 stages, a spiral for 6 or more, and a
    column for 1 or 2;
  - a trunk, one branch per stage chained from the previous stage, and a
    junction halfway along each later branch.

  `calculateBranchCurve` samples a branch as 21 points on a line or a
  quadratic Bézier curve, and `getBranchThickness` tapers branches. The
  `ProjectStructureGame` component unlocks stages one by one: clicking an
  unlocked stage opens it and unlocks the next. It offers next and
  previous navigation over unlocked stages, and shows the unlocked
  fraction as a percentage.
* **The technology catalogue.** `createTechProjectMapping` lists, for every
  tag, the projects using it together with the tag's metadata. Tags without
  metadata get a default.

## How the model is built

- JavaScript numbers are exact reals.
  - `Math.cos`, `Math.sin`, `Math.atan2` and `Math.sqrt` are fields of a
    `Trig` record passed as a parameter.
  - The distance lemmas assume only `cos² + sin² = 1` (`Pythagorean`) or
    that `sqrt` is the square root (`IsSqrt`).
  - `Math.round` is `Round`.
  - NaN and ±Infinity appear as the `Number` datatype where the source can
    produce them: the progress percentage of a project without stages, and
    the branch thickness for a total of 0.
- Closures that mutate a local `Map` or array become methods:
  - `processNode` in both tree layouts, `traverse`, and the two tag-grouping
    loops.
  - Each method threads that state through in- and out-parameters and is
    proved equal to a pure specification function (`Visits`/`Store`/`Links`,
    `Steps`/`StoreSteps`, `PreOrder`, `Occurrences`).
  - The lemmas are stated about those functions.
- The two React components are classes.
  - Their fields are the component state, and each handler is a method.
  - The layout effect is `Recompute`. `HandleNodeClick` changes only the
    expanded set; the view re-runs `Recompute` after every change to that
    set, as the effect does.
- An absent `children` array behaves exactly like an empty one in every core
  path, so `Node.children` is a sequence.

Where the written behaviour differs from how the visualisation is usually
described, the model follows the code:
- At the first level, a single child is placed straight up at -π/2, not
  "outward": the outward rule applies from the second level on
  (`FirstLevelAngles`, `DeeperAngles`).
- The first-level start angle is fixed at -π/2, not configurable.
- Collapsing a node removes only the descendants currently shown, because
  the code walks the position map (`Collapsed`). Descendants left expanded
  behind an already hidden node stay in the set, which is harmless because
  of `ForeignIdsIgnored` and the walk's guard.
- "The root is at the origin" and "one connection per visible non-root
  node" hold only for trees with distinct ids. With a repeated id, a later
  `positions.set` overwrites an earlier entry. The lemmas state this
  hypothesis, and `NodeWebDataDistinctIds` proves that `nodeWebData`
  satisfies it.
- The layout does not prevent overlap between subtrees, so no such property
  is claimed.

## Model

| member | source | states |
|---|---|---|
| `TreeLayoutUtils.CalculateTreeLayout` | src/utils/treeLayoutUtils.js:13-106 | the positions and connections are those of the specified walk from the root at the origin, level 1; one connection per visit |
| `TreeLayoutUtils.ProcessNode` | src/utils/treeLayoutUtils.js:32-100 | processing a node stores exactly the walk's visits into the map and appends exactly their connections, in visiting order |
| `TreeLayoutUtils.ProcessChild` | src/utils/treeLayoutUtils.js:39-99 | one `forEach` step (set, push, recurse) extends the map and list from the first `index` children's visits to the first `index + 1` |
| `TreeLayoutUtils.ProcessStep` | src/utils/treeLayoutUtils.js:75-98 | setting the child, pushing its connection and then walking below it is the same as storing the next prefix of visits |
| `TreeLayoutUtils.PlaceChild` | src/utils/treeLayoutUtils.js:40-73 | the computed child point is the point at distance 280 in the child's angle |
| `TreeLayoutUtils.FirstLevelAngles` | src/utils/treeLayoutUtils.js:42-50 | first-level children start at -π/2, stay within one full turn and are 2π/count apart |
| `TreeLayoutUtils.DeeperAngles` | src/utils/treeLayoutUtils.js:51-73 | deeper down, a single child goes straight outward (no division); several children span direction ± π/6 in equal steps |
| `TreeLayoutUtils.NothingExpanded` | src/utils/treeLayoutUtils.js:17-33 | with nothing expanded the layout is the root alone at the origin and there are no connections |
| `TreeLayoutUtils.VisitsWellFormed` | src/utils/treeLayoutUtils.js:33-98 | every visit is from an expanded parent to its child at that index, at a level no lower than the start, at the placed child point |
| `TreeLayoutUtils.VisitsParentsPlacedFirst` | src/utils/treeLayoutUtils.js:35-98 | each visit starts at the root or at the point of an earlier visit of its parent one level up |
| `TreeLayoutUtils.OnlyTreeIdsMatter` | src/utils/treeLayoutUtils.js:33 | two expanded sets that agree on the tree's ids produce the same walk |
| `TreeLayoutUtils.ForeignIdsIgnored` | src/utils/treeLayoutUtils.js:13-106 | ids in the expanded set that are not in the tree change neither positions nor connections |
| `TreeLayoutUtils.ReachableClosed` | src/utils/treeLayoutUtils.js:33-39 | a child of a reachable node whose id is expanded is reachable as well |
| `TreeLayoutUtils.LayoutCoversReachable` | src/utils/treeLayoutUtils.js:13-106 | exactly the ids of the nodes reachable from the root through expanded ids get a position: every reachable node is placed and nothing else is |
| `TreeLayoutUtils.DistinctIdsReachableCount` | src/utils/treeLayoutUtils.js:13-106 | with distinct ids there is one connection for every reachable node except the root |
| `TreeLayoutUtils.AllExpandedIsPreOrder` | src/utils/treeLayoutUtils.js:39-99 | with every node expanded, the walk visits the tree depth first in pre-order, children in array order, each proper descendant once |
| `TreeLayoutUtils.ConnectionsDescribeVisits` | src/utils/treeLayoutUtils.js:84-91 | connection k has id `parent-child`, the child's point as end, the child's colour, delay index·0.1, and starts at the origin or at the end of an earlier connection one level up |
| `TreeLayoutUtils.ConnectionLength` | src/utils/treeLayoutUtils.js:44-72 | every connection is exactly 280 long |
| `TreeLayoutUtils.RootNotRevisited` | src/utils/treeLayoutUtils.js:76-82 | in a tree with distinct ids no node is placed twice and the root is never overwritten |
| `TreeLayoutUtils.DistinctIdsRootAndCount` | src/utils/treeLayoutUtils.js:17-24 | with distinct ids the root stays at the origin at level 0 and there is one position more than there are connections |
| `TreeLayoutUtils.DistinctIdsEndpoints` | src/utils/treeLayoutUtils.js:75-91 | with distinct ids each connection runs from its parent's stored position to its child's stored position |
| `TreeLayoutUtils.LayoutEntriesInTree` | src/utils/treeLayoutUtils.js:18-24 | every stored entry is keyed by its own id and holds a node of the tree with that id |
| `TreeLayoutUtils.ThreeChildrenExample` | src/utils/treeLayoutUtils.js:13-106 | root "start" with three leaves, expanded {start}: exactly three connections, all from the origin, ids `start-<child>`, positions {start, A, B, C} |
| `TreeLayoutUtils.MapValues` | src/utils/treeLayoutUtils.js:119 | `Array.from(positions.values())` holds one element per entry and exactly the map's values |
| `TreeLayoutUtils.CalculateTreeViewBox` | src/utils/treeLayoutUtils.js:114-133 | at most one position gives the default box; otherwise every position lies `padding` inside the box and each side is reached by some position |
| `NodeWebView.ZoomIn` | src/components/NodeWebVisualization.jsx:84-86 | zooming in adds 0.2 but never exceeds 3 |
| `NodeWebView.ZoomOut` | src/components/NodeWebVisualization.jsx:88-90 | zooming out subtracts 0.2 but never goes below 0.3 |
| `NodeWebView.ZoomStaysInRange` | src/components/NodeWebVisualization.jsx:22 | from the initial zoom 1, any sequence of zoom-in, zoom-out and reset keeps the zoom within [0.3, 3] |
| `NodeWebView.CollapsedBelow` | src/components/NodeWebVisualization.jsx:53-61 | `collapseChildren` only ever removes ids of proper descendants of the clicked node |
| `NodeWebView.CollapsedChildren` | src/components/NodeWebVisualization.jsx:54-59 | when the node is shown, all its children are removed |
| `NodeWebView.ExpandThenCollapse` | src/components/NodeWebVisualization.jsx:43-65 | expanding a node whose subtree is not expanded and then collapsing it restores the expanded set |
| `NodeWebView.NodeWebVisualization.constructor` | src/components/NodeWebVisualization.jsx:16-41 | the initial state: nothing expanded (start hint shown), zoom 1, no pan, and the layout effect's result, which is the root alone and the default box |
| `NodeWebView.NodeWebVisualization.Recompute` | src/components/NodeWebVisualization.jsx:29-41 | positions and connections are recomputed from the expanded set; with at most one position the box is the default one, otherwise every position lies `padding` inside it and each of its four sides is reached by some position; the rest of the state is unchanged |
| `NodeWebView.NodeWebVisualization.HandleNodeClick` | src/components/NodeWebVisualization.jsx:43-65 | a collapsed node is added; an expanded node is removed together with its shown descendants, all its children come out, and nothing outside its subtree changes |
| `NodeWebView.NodeWebVisualization.CollapseChildren` | src/components/NodeWebVisualization.jsx:53-61 | the recursive helper removes exactly the ids `Collapsed` specifies |
| `NodeWebView.NodeWebVisualization.HandleZoomIn` | src/components/NodeWebVisualization.jsx:84-86 | only the zoom changes, to `ZoomIn` of the old zoom |
| `NodeWebView.NodeWebVisualization.HandleZoomOut` | src/components/NodeWebVisualization.jsx:88-90 | only the zoom changes, to `ZoomOut` of the old zoom |
| `NodeWebView.NodeWebVisualization.HandleResetView` | src/components/NodeWebVisualization.jsx:92-95 | zoom back to 1 and pan back to the origin; nothing else changes |
| `NodeWebView.NodeWebVisualization.HandleMouseDown` | src/components/NodeWebVisualization.jsx:98-103 | a press on the canvas starts panning, recording the anchor so that dragging to the press point keeps the offset; elsewhere nothing changes |
| `NodeWebView.NodeWebVisualization.HandleMouseMove` | src/components/NodeWebVisualization.jsx:105-112 | while panning the offset follows the pointer relative to the anchor; otherwise nothing changes |
| `NodeWebView.NodeWebVisualization.HandleMouseUp` | src/components/NodeWebVisualization.jsx:114-116 | panning stops and nothing else changes (also the mouse-leave handler at line 129) |
| `NodeWebView.DragToPressPoint` | src/components/NodeWebVisualization.jsx:98-112 | pressing on the canvas and moving to the same point leaves the pan offset where it was |
| `SkillTree.Traverse` | src/constants/node_web_data.js:312-317 | appends the subtree's nodes to the array in pre-order |
| `SkillTree.GetAllNodes` | src/constants/node_web_data.js:309-321 | returns the pre-order of the tree: one entry per node, the root first, exactly the tree's nodes |
| `SkillTree.PreOrderIsComplete` | src/constants/node_web_data.js:312-317 | the pre-order has one entry per node and lists exactly the tree's nodes |
| `SkillTree.Find` | src/constants/node_web_data.js:326 | `Array.find`: absent iff no element has the id, otherwise the first element that has it |
| `SkillTree.FindNodeById` | src/constants/node_web_data.js:324-327 | absent iff no node has the id, otherwise the first such node in pre-order; with distinct ids, the node with that id |
| `SkillTree.SameIdSameNode` | src/constants/node_web_data.js:28-306 | in a tree with distinct ids, two nodes with the same id are the same node |
| `SkillTree.BuildProjectMapping` | src/constants/node_web_data.js:7-24 | keys are exactly the tags used, and each tag lists one summary per occurrence in project order |
| `SkillTree.GroupProjectTags` | src/constants/node_web_data.js:11-20 | the inner loop adds the project's summary once per occurrence of each of its tags |
| `SkillTree.FirstPresent` | src/constants/node_web_data.js:300 | the chain of `projectsByTech[...]` lookups joined by logical or picks the list of the first tag present, or the empty list |
| `SkillTree.NodeWebData` | src/constants/node_web_data.js:28-306 | the tree's ids in pre-order, whatever the project data: start, then the frontend, backend, devops, AI/ML and mobile groups |
| `SkillTree.NodeWebDataDistinctIds` | src/constants/node_web_data.js:28-306 | every id in `nodeWebData` is unique, whatever the project data |
| `Projects.OccurrencesCount` | src/constants/node_web_data.js:10-21 | a tag's list has one entry per occurrence of the tag, and each entry comes from a project carrying the tag |
| `LayoutUtils.CalculateRadialLayout` | src/utils/layoutUtils.js:13-39 | no children gives no placements; child k keeps its node and level and gets angle start + k·2π/count |
| `LayoutUtils.RadialChild` | src/utils/layoutUtils.js:28-38 | a placement is the polar point at radius·(1 + 0.3·level) in its angle |
| `LayoutUtils.RadialPlacement` | src/utils/layoutUtils.js:23-34 | every placement lies at the adjusted radius in its angle around the parent |
| `LayoutUtils.RadialDistance` | src/utils/layoutUtils.js:23-34 | every child is exactly the adjusted radius away from the parent |
| `LayoutUtils.RadialSpacing` | src/utils/layoutUtils.js:26-29 | consecutive children are 2π/count apart |
| `LayoutUtils.ProcessNode` | src/utils/layoutUtils.js:59-90 | processing a node stores exactly the specified placements of its subtree |
| `LayoutUtils.StepStore` | src/utils/layoutUtils.js:77-89 | one `forEach` step (set, then recurse) extends the map by the next prefix of placements |
| `LayoutUtils.CalculateTreeLayout` | src/utils/layoutUtils.js:47-96 | the result is the root at the origin followed by every placement of the walk |
| `LayoutUtils.StepsArePreOrder` | src/utils/layoutUtils.js:59-90 | the walk places the nodes below the root in pre-order |
| `LayoutUtils.LayoutCoversTree` | src/utils/layoutUtils.js:47-96 | every node of the tree, and nothing else, gets a position |
| `LayoutUtils.DistinctIdsTreeLayout` | src/utils/layoutUtils.js:50-57 | with distinct ids the root keeps its origin entry and there is one entry per node |
| `LayoutUtils.StepDistance` | src/utils/layoutUtils.js:65-74 | every node is baseRadius·(1 + 0.4·level)·(1 + 0.3·level) away from its parent |
| `LayoutUtils.EffectiveRadius` | src/utils/layoutUtils.js:105 | the radius falls back to 40 when it is absent or zero |
| `LayoutUtils.CheckOverlap` | src/utils/layoutUtils.js:104-110 | two discs overlap iff the sum of radii is positive and the centres are closer than that sum |
| `LayoutUtils.CalculateViewportBounds` | src/utils/layoutUtils.js:186-209 | no points give the default bounds; otherwise every point is `padding` inside, each side is reached, and width, height and centre follow from the sides |
| `StageTreeLayout.ColorOf` | src/utils/TreeLayout.js:104 | a non-empty stage colour is used, otherwise the default brown |
| `StageTreeLayout.StagePositions` | src/utils/TreeLayout.js:37-88 | one position per stage, the first at the root spot; for 1–2 stages a column 3 apart; for 6 or more, stage i (i ≥ 1) sits at height min(-1 + 1.2·i, 4), so heights never fall and never pass 4 |
| `StageTreeLayout.PlaceStages` | src/utils/TreeLayout.js:91-94 | each stage is paired with its computed position |
| `StageTreeLayout.CalculateTreeLayout` | src/utils/TreeLayout.js:11-137 | no stages give an empty layout; otherwise the trunk, one placed stage and one branch per stage, and one junction per later stage |
| `StageTreeLayout.BranchIds` | src/utils/TreeLayout.js:97-134 | in a layout of the stages, the first branch is `trunk-to-<id>` and every later one `branch-to-<id>` of the stage it reaches |
| `StageTreeLayout.GrowBranches` | src/utils/TreeLayout.js:97-134 | one branch per stage and one junction per later stage, as specified |
| `StageTreeLayout.BranchesChain` | src/utils/TreeLayout.js:97-134 | the first branch leaves the trunk's end, each branch ends at its stage, each later branch starts where the previous one ends |
| `StageTreeLayout.JunctionsOnBranches` | src/utils/TreeLayout.js:109-132 | each later branch bends through its junction, and junction ids are distinct |
| `StageTreeLayout.CalculateBranchCurve` | src/utils/TreeLayout.js:146-169 | 21 points at parameters i/20, starting at `start` and ending at `end` |
| `StageTreeLayout.CurveEndpoints` | src/utils/TreeLayout.js:150-165 | the curve starts at `start` and ends at `end` with or without a control point |
| `StageTreeLayout.MidpointControlIsStraight` | src/utils/TreeLayout.js:153-165 | a junction control point at the midpoint gives the same points as the straight line |
| `StageTreeLayout.GetBranchThickness` | src/utils/TreeLayout.js:177-181 | the first branch is 0.15 thick; for indices 0..total the thickness lies in [0.08, 0.15]; a total of 0 with a non-zero index gives a non-finite thickness |
| `StageTreeLayout.ThicknessDecreases` | src/utils/TreeLayout.js:177-181 | branches get thinner (never thicker) further from the trunk |
| `StageGame.FindIndex` | src/components/ProjectStructureGame.jsx:74 | `findIndex`: the first index with the id, or -1 when there is none |
| `StageGame.PrefixMembership` | src/components/ProjectStructureGame.jsx:37-39 | when the unlocked ids are a prefix of the stage ids, stage i is unlocked iff i is below the unlocked count |
| `StageGame.PercentBounds` | src/components/ProjectStructureGame.jsx:34 | the rounded percentage of k of n lies in [0, 100] and is 100 when all are unlocked |
| `StageGame.ProjectStructureGame.constructor` | src/components/ProjectStructureGame.jsx:14-30 | the layout is `calculateTreeLayout` of the stages; nothing selected; the first stage and its trunk branch unlocked when there are stages; otherwise nothing |
| `StageGame.ProjectStructureGame.VisibleBranchIds` | src/components/ProjectStructureGame.jsx:22-66 | with distinct ids, the visible branches are `trunk-to-` the first stage, then `branch-to-` each later unlocked stage, in order |
| `StageGame.ProjectStructureGame.CurrentStageIndex` | src/components/ProjectStructureGame.jsx:99-101 | the index lies in [-1, stages) |
| `StageGame.ProjectStructureGame.IsStageUnlocked` | src/components/ProjectStructureGame.jsx:37-39 | with distinct ids, stage i is unlocked iff i is below the number of unlocked stages |
| `StageGame.ProjectStructureGame.HasNext` | src/components/ProjectStructureGame.jsx:253 | "next" is offered iff a stage is open and its id occurs before the last stage |
| `StageGame.ProjectStructureGame.HasPrevious` | src/components/ProjectStructureGame.jsx:254 | "previous" is offered iff a stage is open, its id occurs among the stages, and it is not the first stage's id |
| `StageGame.ProjectStructureGame.Progress` | src/components/ProjectStructureGame.jsx:33-34 | without stages the share is not finite; otherwise a whole percentage, within [0, 100] while no more stages are unlocked than exist, and 100 once all are |
| `StageGame.ProjectStructureGame.ProgressBounds` | src/components/ProjectStructureGame.jsx:33-34 | no stages give NaN; otherwise progress is a finite percentage in [0, 100], and 100 once every stage is unlocked |
| `StageGame.ProjectStructureGame.NavigationFlags` | src/components/ProjectStructureGame.jsx:253-254 | with stage i open, the current index is i, "next" is offered iff i is not last, "previous" iff i > 0 |
| `StageGame.ProjectStructureGame.HandleStageClick` | src/components/ProjectStructureGame.jsx:42-66 | a locked stage changes nothing; an unlocked one opens and unlocks the next stage and its branch if that stage was still locked; unlocking stays a prefix |
| `StageGame.ProjectStructureGame.HandleClosePanel` | src/components/ProjectStructureGame.jsx:68-70 | closes the panel and keeps the progress |
| `StageGame.ProjectStructureGame.HandleNextStage` | src/components/ProjectStructureGame.jsx:72-81 | opens the next stage when one is open, it is not the last, and the next is unlocked; otherwise nothing changes |
| `StageGame.ProjectStructureGame.HandlePreviousStage` | src/components/ProjectStructureGame.jsx:83-89 | opens the previous stage when the open one is not the first; otherwise nothing changes |
| `TechMapping.CreateTechProjectMapping` | src/constants/techProjectMapping.js:7-70 | keys are exactly the tags used; each entry lists one summary per occurrence in project order and carries the tag's metadata |
| `TechMapping.AddProjectTags` | src/constants/techProjectMapping.js:49-66 | the inner loop creates missing entries and adds the project once per occurrence of each tag |
| `TechMapping.InfoForRange` | src/constants/techProjectMapping.js:11-58 | every proficiency lies in [70, 90]; an unlisted tag is filed under "Other" at 70 with description "<tag> technology" |
| `TechMapping.EntryCounts` | src/constants/techProjectMapping.js:48-67 | an entry lists as many projects as the tag has occurrences, and never none |
| `JsValues.Round` | src/components/ProjectStructureGame.jsx:34 | `Math.round` gives the integer within half a unit, rounding halves up |
| `Geometry.PolarDistance` | src/utils/treeLayoutUtils.js:49-50 | a point placed with `cos`/`sin` at radius r is r away from its centre |

## Left out

- Floating point: numbers are exact reals, so rounding error, NaN from `atan2` and the like are not modelled.
  - `cos`, `sin`, `atan2` and `sqrt` are uninterpreted parameters.
  - The distance lemmas assume only `cos² + sin² = 1`, or that `sqrt` is the square root.
- `adjustForOverlaps` and `calculateBezierPath` (layoutUtils.js) are not part of this model. They are unused by the visualisations' layout path and are pure floating-point geometry.
- `CalculateTreeViewBox` returns the four numbers. The formatted `viewBox` string is not built, and the same holds for the CSS transform string of `getTransform`.
- Rendering, animation, the camera and the 3-D scene are left out, as are hover previews, long-press previews and `cameraPosition`.
- First renders before the mount effect runs are not modelled; both constructors run that effect at once.
  - `NodeWebView.NodeWebVisualization.constructor`: the initial `viewBox` state '-600 -500 1200 1000' is shown only until the first effect runs.
  - `StageGame.ProjectStructureGame.constructor`: before the effect, no stage is unlocked, so stage 0 is drawn locked, progress is 0 % and a click does nothing.
- The radial helpers in layoutUtils.js have default arguments, which the model takes as explicit parameters: `calculateRadialLayout` radius 200, start angle 0 and level 1; `calculateTreeLayout` base radius 180; `calculateViewportBounds` padding 100.
- The 500 ms `setTimeout` in `handleStageClick` is treated as firing immediately. A second click before it fires could unlock a stage twice; that race is not modelled.
- `StageGame.ProjectStructureGame.HandleStageClick`: the selected stage is the entry of `project.stages`. The position that the layout attaches to the clicked stage object is not kept.
- `project.stages` being absent is treated like an empty list. The "no structure data" screen is rendering.
- Distinct stage ids are an assumption inside `Valid`, not a requirement on callers.
  - The properties that need them (`ProgressBounds`, `NavigationFlags`, the prefix invariant) hold only when the ids are distinct.
- `NodeWebView.NodeWebVisualization.constructor` requires the tree's ids to be distinct. Otherwise `collapseChildren` can follow a stale entry and need not terminate. `nodeWebData` satisfies this (`SkillTree.NodeWebDataDistinctIds`).
- Tags that name members of `Object.prototype` (such as "constructor") make `techMap[tag]` truthy before any entry exists, which the model does not reproduce. Tags are ordinary keys here.
- `StageTreeLayout.GetBranchThickness` takes integer index and total. Fractional arguments are not modelled.
- Both tag-grouping loops compute the tag's entry first and then write it with one map update. This is equivalent to the source's create-then-push.
- The static project list in src/constants/index.js is a parameter (`projects`), not its literal contents. Only the tags, id, title and image of each project are modelled.

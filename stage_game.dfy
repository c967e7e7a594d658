/**
 * The stage-unlock game (src/components/ProjectStructureGame.jsx): stages
 * are opened one after another by clicking the last one reached, and a
 * side panel walks between the stages already opened.
 */
module StageGame {
  import opened JsValues
  import opened Geometry
  import opened StageTreeLayout

  predicate DistinctStageIds(stages: seq<Stage>) {
    forall i, j :: 0 <= i < j < |stages| ==> stages[i].id != stages[j].id
  }

  /** `unlocked` holds the ids of the first `|unlocked|` stages, in order. */
  predicate IsIdPrefix(unlocked: seq<string>, stages: seq<Stage>) {
    |unlocked| <= |stages| && forall i :: 0 <= i < |unlocked| ==> unlocked[i] == stages[i].id
  }

  /** `Array.prototype.findIndex` on the stage ids: the first match, or -1. */
  function FindIndex(stages: seq<Stage>, id: string): (r: int)
    ensures -1 <= r < |stages|
    ensures r >= 0 ==> stages[r].id == id && forall j :: 0 <= j < r ==> stages[j].id != id
    ensures r == -1 ==> forall j :: 0 <= j < |stages| ==> stages[j].id != id
  {
    if |stages| == 0 then -1
    else if stages[0].id == id then 0
    else
      var r := FindIndex(stages[1..], id);
      if r == -1 then -1 else r + 1
  }

  /** With distinct ids, a stage is unlocked exactly when it lies in the unlocked prefix. */
  lemma PrefixMembership(stages: seq<Stage>, unlocked: seq<string>, i: nat)
    requires DistinctStageIds(stages) && IsIdPrefix(unlocked, stages) && i < |stages|
    ensures stages[i].id in unlocked <==> i < |unlocked|
  {
    if stages[i].id in unlocked {
      var j :| 0 <= j < |unlocked| && unlocked[j] == stages[i].id;
      assert stages[j].id == stages[i].id;
    }
  }

  lemma PrefixLookup(stages: seq<Stage>, unlocked: seq<string>, id: string)
    ensures DistinctStageIds(stages) && IsIdPrefix(unlocked, stages) ==>
      forall i :: 0 <= i < |stages| && stages[i].id == id ==> (id in unlocked <==> i < |unlocked|)
  {
    if DistinctStageIds(stages) && IsIdPrefix(unlocked, stages) {
      forall i | 0 <= i < |stages| && stages[i].id == id
        ensures id in unlocked <==> i < |unlocked|
      {
        PrefixMembership(stages, unlocked, i);
      }
    }
  }

  /** `Math.round` of a share between 0 and 1, as a percentage, lies in [0, 100]. */
  lemma PercentBounds(k: nat, n: nat)
    requires 0 < n
    ensures k <= n ==> 0 <= Round(k as real / n as real * 100.0) <= 100
    ensures k == n ==> Round(k as real / n as real * 100.0) == 100
  {
    if k <= n {
      var q := k as real / n as real;
      assert 0.0 <= q <= 1.0 by {
        assert n as real / n as real == 1.0;
        assert n as real / n as real - q == (n - k) as real / n as real;
      }
    }
  }

  class ProjectStructureGame {
    const stages: seq<Stage>
    const layout: StageLayout
    var selectedStage: Option<Stage>
    var unlockedStages: seq<string>
    var visibleBranches: seq<string>

    /**
     * The game's invariant. The layout is that of the stages, and, with
     * distinct stage ids, the unlocked stages
     * are a non-empty prefix of the stages, and the visible branches are
     * the branches that reach them. The selected stage is always one of
     * those stages.
     */
    ghost predicate Valid()
      reads this
    {
      && LaysOut(layout, stages)
      && (DistinctStageIds(stages) ==>
            && IsIdPrefix(unlockedStages, stages)
            && (|stages| > 0 ==> |unlockedStages| >= 1)
            && |visibleBranches| == |unlockedStages|
            && (forall i :: 0 <= i < |visibleBranches| ==> visibleBranches[i] == layout.branches[i].id)
            && (selectedStage.Some? ==> selectedStage.value in stages[..|unlockedStages|]))
    }

    /**
     * Mounting the game lays out the stages and, when there are any,
     * unlocks the first stage and shows the branch from the trunk.
     */
    constructor(stages: seq<Stage>, t: Trig)
      ensures this.stages == stages && Valid()
      ensures IsTreeLayout(layout, stages, t)
      ensures selectedStage == None
      ensures |stages| == 0 ==> unlockedStages == [] && visibleBranches == []
      ensures |stages| > 0 ==> unlockedStages == [stages[0].id] && visibleBranches == ["trunk-to-" + stages[0].id]
    {
      this.stages := stages;
      var treeLayout := CalculateTreeLayout(stages, t);
      layout := treeLayout;
      selectedStage := None;
      unlockedStages := [];
      visibleBranches := [];
      new;
      if |stages| > 0 {
        unlockedStages := [stages[0].id];
        visibleBranches := [layout.branches[0].id];
      }
    }

    /**
     * With distinct ids, the visible branches are the trunk's branch to the
     * first stage followed by "branch-to-" each later unlocked stage.
     */
    lemma VisibleBranchIds()
      requires Valid() && DistinctStageIds(stages)
      ensures forall i :: 0 <= i < |visibleBranches| ==>
        visibleBranches[i] == (if i == 0 then "trunk-to-" else "branch-to-") + stages[i].id
    {
      BranchIds(layout, stages);
    }

    /**
     * Whether `stageId` has been unlocked. With distinct ids, stage i is
     * unlocked exactly when it lies in the unlocked prefix.
     */
    function IsStageUnlocked(stageId: string): (r: bool)
      reads this
      ensures Valid() && DistinctStageIds(stages) ==>
        forall i :: 0 <= i < |stages| && stages[i].id == stageId ==> (r <==> i < |unlockedStages|)
    {
      PrefixLookup(stages, unlockedStages, stageId);
      stageId in unlockedStages
    }

    /** The index of the selected stage, or -1 with none selected. */
    function CurrentStageIndex(): (i: int)
      reads this
      ensures -1 <= i < |stages|
    {
      if selectedStage.Some? then FindIndex(stages, selectedStage.value.id) else -1
    }

    /**
     * Whether the panel offers a next stage: some stage is selected and its
     * id occurs before the last stage.
     */
    function HasNext(): (r: bool)
      reads this
      ensures r <==> (selectedStage.Some? &&
        exists i :: 0 <= i < |stages| - 1 && stages[i].id == selectedStage.value.id)
    {
      0 <= CurrentStageIndex() < |stages| - 1
    }

    /**
     * Whether the panel offers a previous stage: some stage is selected, its
     * id occurs among the stages, and it is not the first stage's id.
     */
    function HasPrevious(): (r: bool)
      reads this
      ensures r <==> (selectedStage.Some? && stages != [] && stages[0].id != selectedStage.value.id &&
        exists i :: 0 <= i < |stages| && stages[i].id == selectedStage.value.id)
    {
      CurrentStageIndex() > 0
    }

    /** The share of stages unlocked, as a rounded percentage. */
    /**
     * The share of stages unlocked, as a rounded percentage: a whole number
     * between 0 and 100 while no more stages are unlocked than exist,
     * reaching 100 once every stage is; without stages, 0/0 or k/0.
     */
    function Progress(): (r: Number)
      reads this
      ensures |stages| == 0 ==> !r.Finite?
      ensures |stages| > 0 ==> r.Finite? && r.value.Floor as real == r.value
      ensures 0 < |stages| && |unlockedStages| <= |stages| ==> 0.0 <= r.value <= 100.0
      ensures 0 < |stages| && |unlockedStages| == |stages| ==> r == Finite(100.0)
    {
      var totalStages := |stages|;
      if totalStages == 0 then (if |unlockedStages| == 0 then NaN else PosInfinity)
      else
        PercentBounds(|unlockedStages|, totalStages);
        Finite(Round(|unlockedStages| as real / totalStages as real * 100.0) as real)
    }

    /**
     * With distinct ids, the progress is a whole percentage between 0 and
     * 100, reaching 100 once every stage is unlocked. Without stages it is
     * NaN.
     */
    lemma ProgressBounds()
      requires Valid() && DistinctStageIds(stages)
      ensures |stages| == 0 ==> Progress() == NaN
      ensures |stages| > 0 ==> Progress().Finite? && 0.0 <= Progress().value <= 100.0
      ensures |stages| > 0 && |unlockedStages| == |stages| ==> Progress() == Finite(100.0)
    {
      if |stages| > 0 {
        PercentBounds(|unlockedStages|, |stages|);
      }
    }

    /**
     * With distinct ids, the panel's flags follow the selected stage's
     * position: there is a next stage unless it is the last, and a previous
     * one unless it is the first.
     */
    lemma NavigationFlags(i: nat)
      requires Valid() && DistinctStageIds(stages)
      requires i < |stages| && selectedStage == Some(stages[i])
      ensures CurrentStageIndex() == i
      ensures HasNext() <==> i < |stages| - 1
      ensures HasPrevious() <==> i > 0
    {
    }

    /**
     * Clicking stage `stageIndex` does nothing while the stage is locked.
     * Otherwise it selects the stage and, if the next stage is still
     * locked, unlocks it and shows the branch that reaches it.
     */
    method HandleStageClick(stageIndex: nat)
      requires Valid() && stageIndex < |stages|
      modifies this
      ensures Valid()
      ensures !old(IsStageUnlocked(stages[stageIndex].id)) ==>
        selectedStage == old(selectedStage) && unlockedStages == old(unlockedStages)
        && visibleBranches == old(visibleBranches)
      ensures old(IsStageUnlocked(stages[stageIndex].id)) ==>
        && selectedStage == Some(stages[stageIndex])
        && if stageIndex + 1 < |stages| && stages[stageIndex + 1].id !in old(unlockedStages) then
             && unlockedStages == old(unlockedStages) + [stages[stageIndex + 1].id]
             && visibleBranches == old(visibleBranches) + [layout.branches[stageIndex + 1].id]
           else
             unlockedStages == old(unlockedStages) && visibleBranches == old(visibleBranches)
    {
      var stage := stages[stageIndex];
      if !IsStageUnlocked(stage.id) {
        return;
      }
      if DistinctStageIds(stages) {
        PrefixMembership(stages, unlockedStages, stageIndex);
      }
      selectedStage := Some(stage);
      var nextIndex := stageIndex + 1;
      if nextIndex < |stages| {
        var nextStage := stages[nextIndex];
        if !IsStageUnlocked(nextStage.id) {
          if DistinctStageIds(stages) {
            PrefixMembership(stages, unlockedStages, nextIndex);
          }
          unlockedStages := unlockedStages + [nextStage.id];
          var nextBranch := layout.branches[nextIndex];
          visibleBranches := visibleBranches + [nextBranch.id];
        }
      }
    }

    method HandleClosePanel()
      requires Valid()
      modifies this
      ensures Valid()
      ensures selectedStage == None
      ensures unlockedStages == old(unlockedStages) && visibleBranches == old(visibleBranches)
    {
      selectedStage := None;
    }

    /**
     * "Next" moves the selection one stage on when there is a stage after
     * it that is already unlocked, and otherwise changes nothing.
     */
    method HandleNextStage()
      requires Valid()
      modifies this
      ensures Valid()
      ensures unlockedStages == old(unlockedStages) && visibleBranches == old(visibleBranches)
      ensures var ci := old(CurrentStageIndex());
        selectedStage == if old(selectedStage).Some? && ci < |stages| - 1 && stages[ci + 1].id in unlockedStages
                         then Some(stages[ci + 1]) else old(selectedStage)
      ensures DistinctStageIds(stages) ==> var ci := old(CurrentStageIndex());
        selectedStage == if old(HasNext()) && stages[ci + 1].id in unlockedStages
                         then Some(stages[ci + 1]) else old(selectedStage)
    {
      if selectedStage.None? {
        return;
      }
      var currentIndex := FindIndex(stages, selectedStage.value.id);
      if currentIndex < |stages| - 1 {
        var nextStage := stages[currentIndex + 1];
        if IsStageUnlocked(nextStage.id) {
          if DistinctStageIds(stages) {
            PrefixMembership(stages, unlockedStages, currentIndex + 1);
          }
          selectedStage := Some(nextStage);
        }
      }
    }

    /** "Previous" moves the selection one stage back unless it is on the first. */
    method HandlePreviousStage()
      requires Valid()
      modifies this
      ensures Valid()
      ensures unlockedStages == old(unlockedStages) && visibleBranches == old(visibleBranches)
      ensures selectedStage == if old(HasPrevious()) then Some(stages[old(CurrentStageIndex()) - 1])
                               else old(selectedStage)
    {
      if selectedStage.None? {
        return;
      }
      var currentIndex := FindIndex(stages, selectedStage.value.id);
      if currentIndex > 0 {
        if DistinctStageIds(stages) {
          var i :| 0 <= i < |unlockedStages| && stages[i] == selectedStage.value;
          PrefixMembership(stages, unlockedStages, currentIndex);
          assert stages[currentIndex].id == stages[i].id;
        }
        selectedStage := Some(stages[currentIndex - 1]);
      }
    }
  }
}

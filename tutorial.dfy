/** Tutorial indexing (src/lib/rubik/tutorial.ts): the tutorial is a list of
    phases, each a list of steps, and a flat global step index walks them in
    order.  Everything is stated for any phase list; the titles, descriptions
    and tips of the built-in tutorial are free text and are not modelled. */
module Tutorial {
  import opened CubeTypes

  datatype Step = Step(id: string, moves: seq<Move>)

  datatype Phase = Phase(id: string, steps: seq<Step>)

  /** What getStepByGlobalIndex returns for an index in range. */
  datatype Found = Found(phase: Phase, step: Step, phaseIndex: nat, stepIndex: nat)

  /** getTotalTutorialSteps: the step counts of the phases summed left to right. */
  function TotalSteps(phases: seq<Phase>): nat
    decreases |phases|
  {
    if phases == [] then 0 else TotalSteps(phases[..|phases| - 1]) + |phases[|phases| - 1].steps|
  }

  /** The reference reading: all steps of all phases, in order, as one list. */
  function AllSteps(phases: seq<Phase>): (r: seq<Step>)
    ensures |r| == TotalSteps(phases)
    decreases |phases|
  {
    if phases == [] then [] else AllSteps(phases[..|phases| - 1]) + phases[|phases| - 1].steps
  }

  /** The global index of step `s` of phase `p`. */
  function FlatIndex(phases: seq<Phase>, p: nat, s: nat): int
    requires p <= |phases|
  {
    TotalSteps(phases[..p]) + s
  }

  predicate ValidPair(phases: seq<Phase>, p: nat, s: nat)
  {
    p < |phases| && s < |phases[p].steps|
  }

  lemma TotalStepsNext(phases: seq<Phase>, p: nat)
    requires p < |phases|
    ensures TotalSteps(phases[..p + 1]) == TotalSteps(phases[..p]) + |phases[p].steps|
  {
    assert phases[..p + 1][..p] == phases[..p];
  }

  /** The count of steps before a phase grows with the phase. */
  lemma {:induction false} TotalStepsMonotone(phases: seq<Phase>, a: nat, b: nat)
    requires a <= b <= |phases|
    ensures TotalSteps(phases[..a]) <= TotalSteps(phases[..b])
    decreases b - a
  {
    if a < b {
      TotalStepsNext(phases, a);
      TotalStepsMonotone(phases, a + 1, b);
    }
  }

  /** Each (phase, step) pair sits at its flat index in the list of all steps,
      and that index is below the total. */
  lemma {:induction false} AllStepsAt(phases: seq<Phase>, p: nat, s: nat)
    requires ValidPair(phases, p, s)
    ensures 0 <= FlatIndex(phases, p, s) < TotalSteps(phases)
    ensures AllSteps(phases)[FlatIndex(phases, p, s)] == phases[p].steps[s]
    decreases |phases|
  {
    var n := |phases|;
    var init := phases[..n - 1];
    assert phases[..n] == phases;
    if p < n - 1 {
      assert init[..p] == phases[..p];
      AllStepsAt(init, p, s);
    } else {
      assert phases[..p] == init;
    }
  }

  /** Distinct (phase, step) pairs have distinct flat indices. */
  lemma FlatIndexInjective(phases: seq<Phase>, p1: nat, s1: nat, p2: nat, s2: nat)
    requires ValidPair(phases, p1, s1) && ValidPair(phases, p2, s2)
    requires FlatIndex(phases, p1, s1) == FlatIndex(phases, p2, s2)
    ensures p1 == p2 && s1 == s2
  {
    if p1 < p2 {
      TotalStepsNext(phases, p1);
      TotalStepsMonotone(phases, p1 + 1, p2);
    } else if p2 < p1 {
      TotalStepsNext(phases, p2);
      TotalStepsMonotone(phases, p2 + 1, p1);
    }
  }

  /** getStepByGlobalIndex: walks the phases and their steps with a running
      counter and returns the first pair whose counter equals `index`. */
  method GetStepByGlobalIndex(phases: seq<Phase>, index: int) returns (r: Option<Found>)
    ensures r.Some? <==> 0 <= index < TotalSteps(phases)
    ensures r.Some? ==> ValidPair(phases, r.value.phaseIndex, r.value.stepIndex)
    ensures r.Some? ==> r.value.phase == phases[r.value.phaseIndex]
    ensures r.Some? ==> r.value.step == phases[r.value.phaseIndex].steps[r.value.stepIndex]
    ensures r.Some? ==> index == FlatIndex(phases, r.value.phaseIndex, r.value.stepIndex)
    ensures r.Some? ==> r.value.step == AllSteps(phases)[index]
  {
    var currentIndex := 0;
    for phaseIndex := 0 to |phases|
      invariant currentIndex == TotalSteps(phases[..phaseIndex])
      invariant index < 0 || currentIndex <= index
    {
      var phase := phases[phaseIndex];
      for stepIndex := 0 to |phase.steps|
        invariant currentIndex == TotalSteps(phases[..phaseIndex]) + stepIndex
        invariant index < 0 || currentIndex <= index
      {
        if currentIndex == index {
          AllStepsAt(phases, phaseIndex, stepIndex);
          return Some(Found(phase, phase.steps[stepIndex], phaseIndex, stepIndex));
        }
        currentIndex := currentIndex + 1;
      }
      TotalStepsNext(phases, phaseIndex);
    }
    assert phases[..|phases|] == phases;
    return None;
  }

  /** Index 0 is the first step of the first phase when that phase has steps. */
  lemma FirstStepAtZero(phases: seq<Phase>, p: nat, s: nat)
    requires |phases| > 0 && |phases[0].steps| > 0
    requires ValidPair(phases, p, s) && FlatIndex(phases, p, s) == 0
    ensures p == 0 && s == 0
  {
    FlatIndexInjective(phases, p, s, 0, 0);
  }

  /** Index total - 1 is the last step of the last phase when that phase has steps. */
  lemma LastStepAtTotalMinusOne(phases: seq<Phase>, p: nat, s: nat)
    requires |phases| > 0 && |phases[|phases| - 1].steps| > 0
    requires ValidPair(phases, p, s) && FlatIndex(phases, p, s) == TotalSteps(phases) - 1
    ensures p == |phases| - 1 && s == |phases[|phases| - 1].steps| - 1
  {
    var last := |phases| - 1;
    assert phases[..last + 1] == phases;
    TotalStepsNext(phases, last);
    FlatIndexInjective(phases, p, s, last, |phases[last].steps| - 1);
  }
}

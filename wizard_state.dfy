/**
 * Wizard navigation: a fixed list of steps filtered by platform, the id of the
 * current step, the shared wizard state, a processing flag that blocks navigation
 * and an optional error message.
 */
module WizardState {
  import opened Nullables
  import opened WizardStep

  /** `filter`: the elements that `keep` accepts, in their original order. */
  function Filter<T>(s: seq<T>, keep: T -> bool): (r: seq<T>)
    ensures |r| <= |s|
    ensures forall i :: 0 <= i < |r| ==> keep(r[i]) && r[i] in s
    ensures forall j :: 0 <= j < |s| && keep(s[j]) ==> s[j] in r
  {
    if s == [] then []
    else (if keep(s[0]) then [s[0]] else []) + Filter(s[1..], keep)
  }

  /** Filtering a concatenation filters each part: the kept elements stay in order. */
  lemma {:induction false} FilterAppend<T>(s1: seq<T>, s2: seq<T>, keep: T -> bool)
    ensures Filter(s1 + s2, keep) == Filter(s1, keep) + Filter(s2, keep)
  {
    if s1 != [] {
      assert (s1 + s2)[0] == s1[0] && (s1 + s2)[1..] == s1[1..] + s2;
      FilterAppend(s1[1..], s2, keep);
    } else {
      assert s1 + s2 == s2;
    }
  }

  /** Filtering keeps a sequence whose elements all pass. */
  lemma {:induction false} FilterKeepsAll<T>(s: seq<T>, keep: T -> bool)
    requires forall i :: 0 <= i < |s| ==> keep(s[i])
    ensures Filter(s, keep) == s
  {
    if s != [] {
      FilterKeepsAll(s[1..], keep);
    }
  }

  /** Filtering empties a sequence whose elements all fail. */
  lemma FilterDropsAll<T>(s: seq<T>, keep: T -> bool)
    requires forall i :: 0 <= i < |s| ==> !keep(s[i])
    ensures Filter(s, keep) == []
  {
  }

  /** `indexOfFirst { it.id == id }`: the first position holding `id`, or -1. */
  function IndexOfId<S>(steps: seq<Step<S>>, id: string): (r: int)
    ensures -1 <= r < |steps|
    ensures r == -1 <==> forall j :: 0 <= j < |steps| ==> steps[j].id != id
    ensures r >= 0 ==> steps[r].id == id && forall j :: 0 <= j < r ==> steps[j].id != id
  {
    if steps == [] then -1
    else if steps[0].id == id then 0
    else
      var k := IndexOfId(steps[1..], id);
      if k == -1 then -1 else k + 1
  }

  /** `find { it.id == id }`: the first step holding `id`. */
  function FindById<S>(steps: seq<Step<S>>, id: string): (r: Option<Step<S>>)
    ensures r.None? <==> IndexOfId(steps, id) == -1
    ensures r.Some? ==> r.value == steps[IndexOfId(steps, id)]
  {
    var k := IndexOfId(steps, id);
    if k == -1 then None else Some(steps[k])
  }

  ghost predicate DistinctIds<S>(steps: seq<Step<S>>) {
    forall i, j :: 0 <= i < j < |steps| ==> steps[i].id != steps[j].id
  }

  /** The object invariant: the current id names an active step, or is "" when there is none. */
  ghost predicate NamesActiveStep<S>(active: seq<Step<S>>, id: string) {
    if active == [] then id == "" else IndexOfId(active, id) >= 0
  }

  /** The step id after `next()`. */
  function NextStepId<S>(active: seq<Step<S>>, current: string, state: S, isProcessing: bool): string {
    var k := IndexOfId(active, current);
    var canGoNext := k >= 0 && active[k].canProceed(state) && !isProcessing;
    if canGoNext && k + 1 < |active| then active[k + 1].id else current
  }

  /** The step id after `back()`. */
  function PreviousStepId<S>(active: seq<Step<S>>, current: string, isProcessing: bool): string {
    var k := IndexOfId(active, current);
    if k > 0 && !isProcessing then active[k - 1].id else current
  }

  /** The step id after `goToStep(target)`. */
  function GoToStepId<S>(active: seq<Step<S>>, current: string, target: string): string {
    if exists j :: 0 <= j < |active| && active[j].id == target then target else current
  }

  // === Navigation keeps the current id on an active step ===

  lemma NextKeepsActive<S>(active: seq<Step<S>>, current: string, state: S, isProcessing: bool)
    requires NamesActiveStep(active, current)
    ensures NamesActiveStep(active, NextStepId(active, current, state, isProcessing))
  {
    var k := IndexOfId(active, current);
    if k >= 0 && k + 1 < |active| {
      var next := active[k + 1].id;
      assert IndexOfId(active, next) >= 0 by {
        assert active[k + 1].id == next;
      }
    }
  }

  lemma PreviousKeepsActive<S>(active: seq<Step<S>>, current: string, isProcessing: bool)
    requires NamesActiveStep(active, current)
    ensures NamesActiveStep(active, PreviousStepId(active, current, isProcessing))
  {
    var k := IndexOfId(active, current);
    if k > 0 {
      assert active[k - 1].id == active[k - 1].id;
      assert IndexOfId(active, active[k - 1].id) >= 0;
    }
  }

  lemma GoToKeepsActive<S>(active: seq<Step<S>>, current: string, target: string)
    requires NamesActiveStep(active, current)
    ensures NamesActiveStep(active, GoToStepId(active, current, target))
  {
  }

  // === What each move does ===

  /** With unique ids, a permitted `next()` advances exactly one active step. */
  lemma NextAdvancesOneStep<S>(active: seq<Step<S>>, current: string, state: S)
    requires DistinctIds(active)
    requires 0 <= IndexOfId(active, current) < |active| - 1
    requires active[IndexOfId(active, current)].canProceed(state)
    ensures IndexOfId(active, NextStepId(active, current, state, false)) == IndexOfId(active, current) + 1
  {
  }

  /** `next()` is a no-op while processing, when the current step cannot proceed, or at the last step. */
  lemma NextBlocked<S>(active: seq<Step<S>>, current: string, state: S, isProcessing: bool)
    requires var k := IndexOfId(active, current);
      isProcessing || k == -1 || k == |active| - 1 || !active[k].canProceed(state)
    ensures NextStepId(active, current, state, isProcessing) == current
  {
  }

  /** With unique ids, a permitted `back()` retreats exactly one active step. */
  lemma BackRetreatsOneStep<S>(active: seq<Step<S>>, current: string)
    requires DistinctIds(active)
    requires IndexOfId(active, current) > 0
    ensures IndexOfId(active, PreviousStepId(active, current, false)) == IndexOfId(active, current) - 1
  {
  }

  /** `back()` is a no-op at the first active step and while processing. */
  lemma BackBlocked<S>(active: seq<Step<S>>, current: string, isProcessing: bool)
    requires IndexOfId(active, current) <= 0 || isProcessing
    ensures PreviousStepId(active, current, isProcessing) == current
  {
  }

  /** `goToStep` moves exactly when some active step has the target id. */
  lemma GoToMovesOnlyToActiveIds<S>(active: seq<Step<S>>, current: string, target: string)
    ensures GoToStepId(active, current, target) == target || GoToStepId(active, current, target) == current
    ensures GoToStepId(active, current, target) == target <==> IndexOfId(active, target) >= 0 || target == current
  {
  }

  /** The visible index is -1 exactly when no visible step carries the id. */
  lemma {:induction false} VisibleIndexOfHiddenStep<S>(active: seq<Step<S>>, id: string)
    ensures IndexOfId(Filter(active, (s: Step<S>) => s.isVisible), id) == -1
        <==> forall j :: 0 <= j < |active| && active[j].id == id ==> !active[j].isVisible
  {
    var visible := Filter(active, (s: Step<S>) => s.isVisible);
    if IndexOfId(visible, id) != -1 {
      var i := IndexOfId(visible, id);
      assert visible[i] in active && visible[i].isVisible;
    }
  }

  /** On an empty step list both `isFirstStep` is false and `isLastStep` is true (-1 == -1). */
  lemma NoActiveStepsIsLast<S>(active: seq<Step<S>>, id: string)
    requires active == []
    ensures IndexOfId(active, id) == |active| - 1 && IndexOfId(active, id) != 0
  {
  }

  class WizardState<S> {
    const steps: seq<Step<S>>
    const platform: Platform
    var currentStepId: string
    var state: S
    var isProcessing: bool
    var errorMessage: Option<string>

    /** The steps whose platform filter matches the running system. */
    function ActiveSteps(): seq<Step<S>> {
      Filter(steps, (s: Step<S>) => Matches(s.platformFilter, platform))
    }

    /** The active steps shown in the step indicator. */
    function VisibleSteps(): seq<Step<S>> {
      Filter(ActiveSteps(), (s: Step<S>) => s.isVisible)
    }

    ghost predicate Valid()
      reads this
    {
      NamesActiveStep(ActiveSteps(), currentStepId)
    }

    constructor (steps: seq<Step<S>>, platform: Platform, initialState: S)
      ensures this.steps == steps && this.platform == platform
      ensures currentStepId == if ActiveSteps() == [] then "" else ActiveSteps()[0].id
      ensures state == initialState && !isProcessing && errorMessage == None
      ensures Valid()
    {
      this.steps := steps;
      this.platform := platform;
      var active := Filter(steps, (s: Step<S>) => Matches(s.platformFilter, platform));
      currentStepId := if active == [] then "" else active[0].id;
      state := initialState;
      isProcessing := false;
      errorMessage := None;
    }

    function CurrentStep(): Option<Step<S>>
      reads this
    {
      FindById(ActiveSteps(), currentStepId)
    }

    function CurrentVisibleIndex(): int
      reads this
    {
      IndexOfId(VisibleSteps(), currentStepId)
    }

    function CurrentActiveIndex(): int
      reads this
    {
      IndexOfId(ActiveSteps(), currentStepId)
    }

    function CanGoBack(): bool
      reads this
    {
      CurrentActiveIndex() > 0 && !isProcessing
    }

    function CanGoNext(): bool
      reads this
    {
      match CurrentStep()
      case Some(step) => step.canProceed(state) && !isProcessing
      case None => false
    }

    function IsFirstStep(): bool
      reads this
    {
      CurrentActiveIndex() == 0
    }

    function IsLastStep(): bool
      reads this
    {
      CurrentActiveIndex() == |ActiveSteps()| - 1
    }

    method Next()
      requires Valid()
      modifies this`currentStepId
      ensures Valid()
      ensures currentStepId == NextStepId(ActiveSteps(), old(currentStepId), state, isProcessing)
      ensures old(CanGoNext()) || currentStepId == old(currentStepId)
    {
      NextKeepsActive(ActiveSteps(), currentStepId, state, isProcessing);
      if !CanGoNext() {
        return;
      }
      var nextIndex := CurrentActiveIndex() + 1;
      if nextIndex < |ActiveSteps()| {
        currentStepId := ActiveSteps()[nextIndex].id;
      }
    }

    method Back()
      requires Valid()
      modifies this`currentStepId
      ensures Valid()
      ensures currentStepId == PreviousStepId(ActiveSteps(), old(currentStepId), isProcessing)
      ensures old(CanGoBack()) || currentStepId == old(currentStepId)
    {
      PreviousKeepsActive(ActiveSteps(), currentStepId, isProcessing);
      if !CanGoBack() {
        return;
      }
      var prevIndex := CurrentActiveIndex() - 1;
      if prevIndex >= 0 {
        currentStepId := ActiveSteps()[prevIndex].id;
      }
    }

    method GoToStep(stepId: string)
      requires Valid()
      modifies this`currentStepId
      ensures Valid()
      ensures currentStepId == GoToStepId(ActiveSteps(), old(currentStepId), stepId)
    {
      GoToKeepsActive(ActiveSteps(), currentStepId, stepId);
      var active := ActiveSteps();
      if exists j :: 0 <= j < |active| && active[j].id == stepId {
        currentStepId := stepId;
      }
    }

    method UpdateState(update: S -> S)
      requires Valid()
      modifies this`state
      ensures Valid()
      ensures state == update(old(state))
    {
      state := update(state);
    }

    /** Blocks navigation. */
    method MarkProcessing()
      requires Valid()
      modifies this`isProcessing
      ensures Valid() && isProcessing
      ensures !CanGoNext() && !CanGoBack()
    {
      isProcessing := true;
    }

    method MarkComplete()
      requires Valid()
      modifies this`isProcessing
      ensures Valid() && !isProcessing
    {
      isProcessing := false;
    }

    method ShowError(message: Option<string>)
      requires Valid()
      modifies this`errorMessage
      ensures Valid() && errorMessage == message
    {
      errorMessage := message;
    }

    method ClearError()
      requires Valid()
      modifies this`errorMessage
      ensures Valid() && errorMessage == None
    {
      errorMessage := None;
    }
  }
}

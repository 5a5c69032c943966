/** The first-visit tour (client/src/components/OnboardingTour.jsx): a
    six-step dialog with Previous and Next buttons; finishing or skipping it
    records `onboardingCompleted` in local storage and hands control back to
    the page through its callbacks. */
module OnboardingTour {
  import opened Js

  datatype Placement = Center | Top | Bottom

  datatype Step = Step(title: string, placement: Placement)

  const Steps: seq<Step> := [
    Step("Welcome to Excel Analytics Platform!", Center),
    Step("Upload Your Excel Files", Top),
    Step("Create Beautiful Charts", Center),
    Step("Export and Share", Bottom),
    Step("Advanced Features", Center),
    Step("You're All Set!", Center)
  ]

  const LastStep: nat := |Steps| - 1

  /** A callback of the page that the tour invokes. */
  datatype Callback = OnComplete | OnClose

  /** The step Next leads to, or `None` when Next finishes the tour. */
  function NextStep(step: nat): (r: Option<nat>)
    ensures r.None? <==> step >= LastStep
    ensures r.Some? ==> r.value == step + 1 && r.value <= LastStep
  {
    if step < LastStep then Some(step + 1) else None
  }

  /** The step Previous leads to; on the first step it does nothing. */
  function PreviousStep(step: nat): (r: nat)
    ensures step == 0 ==> r == 0
    ensures step > 0 ==> r + 1 == step
  {
    if step > 0 then step - 1 else step
  }

  /** Previous undoes Next, and Next undoes Previous, away from the ends. */
  lemma StepsRoundTrip(step: nat)
    ensures step < LastStep ==> PreviousStep(NextStep(step).value) == step
    ensures 0 < step <= LastStep ==> NextStep(PreviousStep(step)) == Some(step)
  {
  }

  /** Walking Next from the first step reaches every step in turn and finishes
      only after the last one. */
  lemma {:induction false} NextWalk(k: nat)
    requires k <= LastStep
    ensures Walk(k) == Some(k)
  {
    if k > 0 {
      NextWalk(k - 1);
    }
  }

  /** The step after pressing Next `k` times from the first step. */
  function Walk(k: nat): Option<nat>
  {
    if k == 0 then Some(0)
    else match Walk(k - 1)
      case None => None
      case Some(s) => NextStep(s)
  }

  lemma WalkFinishes()
    ensures Walk(LastStep) == Some(LastStep) && Walk(LastStep + 1) == None
  {
    NextWalk(LastStep);
  }

  /** The label of the forward button. */
  function NextLabel(step: nat): (caption: string)
    ensures caption == "Get Started" <==> step == LastStep
  {
    if step == LastStep then "Get Started" else "Next"
  }

  /** The forward button finishes the tour exactly where it says "Get
      Started" and shows its chevron exactly where it moves on; Previous is
      disabled exactly where it does nothing. */
  lemma ButtonsMatchBehaviour(step: nat)
    requires step <= LastStep
    ensures NextLabel(step) == "Get Started" <==> NextStep(step).None?
    ensures (step < LastStep) <==> NextStep(step).Some?
    ensures (step == 0) <==> PreviousStep(step) == step
  {
  }

  class Tour {
    var currentStep: nat
    /** The browser's `localStorage` entry `onboardingCompleted`. */
    var completedFlag: Option<string>
    /** The page's callbacks the tour has invoked, in order. */
    var calls: seq<Callback>

    ghost predicate Valid()
      reads this
    {
      currentStep <= LastStep
    }

    function Current(): Step
      requires Valid()
      reads this
    {
      Steps[currentStep]
    }

    constructor (stored: Option<string>)
      ensures Valid() && currentStep == 0 && completedFlag == stored && calls == []
    {
      currentStep := 0;
      completedFlag := stored;
      calls := [];
    }

    /** `handleComplete`: mark the tour done, tell the page it was completed
        when the page asked to be told, then close. */
    method Complete(hasOnComplete: bool)
      modifies this
      ensures completedFlag == Some("true")
      ensures calls == old(calls) + (if hasOnComplete then [OnComplete] else []) + [OnClose]
      ensures currentStep == old(currentStep)
    {
      completedFlag := Some("true");
      if hasOnComplete {
        calls := calls + [OnComplete];
      }
      calls := calls + [OnClose];
    }

    /** `handleNext`. */
    method Next(hasOnComplete: bool)
      requires Valid()
      modifies this
      ensures Valid()
      ensures NextStep(old(currentStep)).Some? ==>
                currentStep == NextStep(old(currentStep)).value
                && calls == old(calls) && completedFlag == old(completedFlag)
      ensures NextStep(old(currentStep)).None? ==>
                currentStep == old(currentStep) && completedFlag == Some("true")
                && calls == old(calls) + (if hasOnComplete then [OnComplete] else []) + [OnClose]
    {
      if currentStep < LastStep {
        currentStep := currentStep + 1;
      } else {
        Complete(hasOnComplete);
      }
    }

    /** `handlePrevious`. */
    method Previous()
      requires Valid()
      modifies this
      ensures Valid() && currentStep == PreviousStep(old(currentStep))
      ensures calls == old(calls) && completedFlag == old(completedFlag)
    {
      if currentStep > 0 {
        currentStep := currentStep - 1;
      }
    }

    /** `handleSkip`, from the close button or the backdrop: mark the tour
        done and close, without the completion callback. */
    method Skip()
      requires Valid()
      modifies this
      ensures Valid() && currentStep == old(currentStep)
      ensures completedFlag == Some("true") && calls == old(calls) + [OnClose]
    {
      completedFlag := Some("true");
      calls := calls + [OnClose];
    }
  }
}

/** The signup wizard store (`useSignupStore`): the current step, moved forward
    and back one at a time (never below 0 when going back), and the account type
    picked on the first step. `currentStep` is a plain number in the source, so
    it is an `int` here. */
module SignupStore {
  import opened Wrappers
  import opened Types

  /** `state.currentStep + 1` */
  function StepAfter(step: int): (next: int)
    ensures next > step && next - step == 1
  {
    step + 1
  }

  /** `Math.max(0, state.currentStep - 1)` */
  function StepBefore(step: int): (prev: int)
    ensures prev >= 0
    ensures step >= 1 ==> prev == step - 1
    ensures step <= 1 ==> prev == 0
  {
    if step - 1 >= 0 then step - 1 else 0
  }

  /** Going forward and then back returns to any step the wizard can be on. */
  lemma BackUndoesNext(step: int)
    requires step >= 0
    ensures StepBefore(StepAfter(step)) == step
  {
  }

  /** From a negative step (reachable only through `setCurrentStep`), going
      forward and back lands on 0 instead. */
  lemma BackFromNegative(step: int)
    requires step < 0
    ensures StepBefore(StepAfter(step)) == 0 != step
  {
  }

  class Store {
    var currentStep: int
    var splitType: Option<UserRole>

    constructor ()
      ensures currentStep == 0 && splitType == None
    {
      currentStep := 0;
      splitType := None;
    }

    method SetCurrentStep(step: int)
      modifies this`currentStep
      ensures currentStep == step
    {
      currentStep := step;
    }

    method SetSplitType(t: Option<UserRole>)
      modifies this`splitType
      ensures splitType == t
    {
      splitType := t;
    }

    method NextStep()
      modifies this`currentStep
      ensures currentStep == StepAfter(old(currentStep))
    {
      currentStep := currentStep + 1;
    }

    /** At step 0 this changes nothing. */
    method PrevStep()
      modifies this`currentStep
      ensures currentStep == StepBefore(old(currentStep))
      ensures old(currentStep) == 0 ==> currentStep == 0
    {
      currentStep := if currentStep - 1 > 0 then currentStep - 1 else 0;
    }

    method ResetForm()
      modifies this
      ensures currentStep == 0 && splitType == None
    {
      currentStep := 0;
      splitType := None;
    }
  }
}

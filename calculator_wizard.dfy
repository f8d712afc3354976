/** The calculator page: a wizard that asks for the annual revenue and the
    monthly invoice volume, computes the impact of KSeF, and walks through the
    "disaster", "solution" and results screens, with a way back from each. */
module CalculatorWizard {
  import opened Wrappers
  import opened Calculator

  datatype Step = Intro | Q1 | Q2 | Loading | Disaster | Solution | Final

  /** A revenue or volume answer: its number and the text of the option. */
  datatype Choice = Choice(value: real, caption: string, description: string)

  /** The impact the page computes for the two answers (no scenario is passed). */
  function Computed(revenue: Choice, volume: Choice): Results {
    Impact(revenue.value, volume.value, None)
  }

  /** The screens that show the computed figures. */
  predicate ShowsFigures(step: Step) {
    step == Disaster || step == Solution || step == Final
  }

  /** The screen rendered for a state: the figure screens only when the
      results and both answers are there, otherwise nothing. */
  function Screen(step: Step, revenue: Option<Choice>, volume: Option<Choice>, results: Option<Results>): (s: Option<Step>)
    ensures !ShowsFigures(step) ==> s == Some(step)
    ensures ShowsFigures(step) ==> (s == Some(step) <==> results.Some? && revenue.Some? && volume.Some?)
    ensures s.None? || s == Some(step)
  {
    if ShowsFigures(step) && (results.None? || revenue.None? || volume.None?) then None else Some(step)
  }

  class Wizard {
    var step: Step
    var revenue: Option<Choice>
    var volume: Option<Choice>
    var results: Option<Results>

    /** What every reachable state satisfies: the question on volume comes
        after a revenue answer, and from the loading screen on the results are
        those of the two answers given. */
    predicate Valid()
      reads this
    {
      (step == Q2 ==> revenue.Some?)
      && (step == Loading || ShowsFigures(step) ==>
            revenue.Some? && volume.Some? && results == Some(Computed(revenue.value, volume.value)))
    }

    constructor()
      ensures Valid()
      ensures step == Intro && revenue == None && volume == None && results == None
    {
      step := Intro;
      revenue, volume, results := None, None, None;
    }

    /** `handleStartCalculator`, offered on the intro screen. */
    method Start()
      requires Valid() && step == Intro
      modifies this
      ensures Valid()
      ensures step == Q1 && revenue == old(revenue) && volume == old(volume) && results == old(results)
    {
      step := Q1;
    }

    /** `handleQ1Next(revenue)`: the answer is kept and the volume is asked. */
    method Q1Next(r: Choice)
      requires Valid() && step == Q1
      modifies this
      ensures Valid()
      ensures step == Q2 && revenue == Some(r) && volume == old(volume) && results == old(results)
    {
      revenue := Some(r);
      step := Q2;
    }

    /** `handleCalculate(volume)`: the answer is kept; with a revenue known,
        the impact is computed and the loading screen shown. */
    method Calculate(v: Choice)
      requires Valid() && step == Q2
      modifies this
      ensures Valid()
      ensures volume == Some(v) && revenue == old(revenue)
      ensures old(revenue).Some? ==> step == Loading && results == Some(Computed(old(revenue).value, v))
      ensures old(revenue).None? ==> step == Q2 && results == old(results)
    {
      volume := Some(v);
      if revenue.Some? {
        results := Some(Computed(revenue.value, v));
        step := Loading;
      }
    }

    /** `handleLoadingComplete`. */
    method LoadingComplete()
      requires Valid() && step == Loading
      modifies this
      ensures Valid()
      ensures step == Disaster && revenue == old(revenue) && volume == old(volume) && results == old(results)
    {
      step := Disaster;
    }

    /** `handleDisasterNext`. */
    method DisasterNext()
      requires Valid() && step == Disaster
      modifies this
      ensures Valid()
      ensures step == Solution && revenue == old(revenue) && volume == old(volume) && results == old(results)
    {
      step := Solution;
    }

    /** `handleSolutionFinish`. */
    method SolutionFinish()
      requires Valid() && step == Solution
      modifies this
      ensures Valid()
      ensures step == Final && revenue == old(revenue) && volume == old(volume) && results == old(results)
    {
      step := Final;
    }

    /** `handleRestart`, offered on the results screen: back to the start with nothing answered. */
    method Restart()
      requires Valid() && step == Final
      modifies this
      ensures Valid()
      ensures step == Intro && revenue == None && volume == None && results == None
    {
      step := Intro;
      revenue, volume, results := None, None, None;
    }

    /** The back buttons: each screen returns to the one before it and keeps the answers. */
    method Back()
      requires Valid() && step in {Q1, Q2, Disaster, Solution, Final}
      modifies this
      ensures Valid()
      ensures step == Previous(old(step))
      ensures revenue == old(revenue) && volume == old(volume) && results == old(results)
    {
      step := Previous(step);
    }

    /** In every reachable state the page renders its step's screen. */
    lemma ValidRendersStep()
      requires Valid()
      ensures Screen(step, revenue, volume, results) == Some(step)
    {
    }
  }

  /** Where the back button of a screen leads. */
  function Previous(step: Step): (p: Step)
    requires step in {Q1, Q2, Disaster, Solution, Final}
    ensures p == Intro <==> step == Q1
    ensures p == Q1 <==> step == Q2
    ensures p == Q2 <==> step == Disaster
    ensures p == Disaster <==> step == Solution
    ensures p == Solution <==> step == Final
  {
    match step
    case Q1 => Intro
    case Q2 => Q1
    case Disaster => Q2
    case Solution => Disaster
    case Final => Solution
  }
}

/**
 * The layout around every page: the three-step progress indicator, which
 * step it highlights for the current path, and on which paths it is shown.
 */
module Steps {
  import Text
  import Home
  import Behavioral
  import Personal

  datatype Step = Step(title: string, description: string)

  /** The steps the indicator lists, in order. */
  const Steps: seq<Step> := [
    Step("Contact Info", "Enter Name and Age"),
    Step("Behavioral", "Answer Behavioral Questions"),
    Step("Personal", "Enter Personal Info")
  ]

  const HomeRoute := "/"
  const ResultRoute := Personal.NextRoute

  /**
   * `activeStep`: the home path is step 0; otherwise a path mentioning
   * "behavior" is step 1, one mentioning "personal" step 2, and any other
   * path step 0. The test for "behavior" comes first.
   */
  function ActiveStep(pathname: string): (step: nat)
    ensures step < |Steps|
    ensures step == 1 <==> pathname != HomeRoute && Text.Contains(pathname, "behavior")
    ensures step == 2 <==> pathname != HomeRoute && !Text.Contains(pathname, "behavior") && Text.Contains(pathname, "personal")
  {
    if pathname == HomeRoute then 0
    else if Text.Contains(pathname, "behavior") then 1
    else if Text.Contains(pathname, "personal") then 2
    else 0
  }

  /** The indicator is rendered everywhere except on the home page and the result page. */
  predicate StepperVisible(pathname: string) {
    pathname != HomeRoute && pathname != ResultRoute
  }

  /** The home page and the result page show no indicator; the home page counts as step 0. */
  lemma EndsHideStepper()
    ensures !StepperVisible(HomeRoute) && ActiveStep(HomeRoute) == 0
    ensures !StepperVisible(ResultRoute)
  {
  }

  /** The behavioral-questions page shows the indicator at step 1. */
  lemma BehavioralPageIsStepOne()
    ensures StepperVisible(Home.NextRoute) && ActiveStep(Home.NextRoute) == 1
  {
    Text.ContainsMiddle("/", "behavior", "al-questions");
    assert Home.NextRoute == "/" + "behavior" + "al-questions";
  }

  /** The personal-info page shows the indicator at step 2. */
  lemma PersonalPageIsStepTwo()
    ensures StepperVisible(Behavioral.NextRoute) && ActiveStep(Behavioral.NextRoute) == 2
  {
    Text.ContainsMiddle("/", "personal", "-info");
    assert Behavioral.NextRoute == "/" + "personal" + "-info";
    Text.NoAdjacentPairNoContains(Behavioral.NextRoute, "behavior", 0);
  }

  /** A path other than the home path that mentions neither word is step 0. */
  lemma NeitherWordIsStepZero(pathname: string)
    requires !Text.Contains(pathname, "behavior") && !Text.Contains(pathname, "personal")
    ensures ActiveStep(pathname) == 0
  {
  }

  /** The result path has no `b` and no `p`, so it mentions neither word. */
  lemma ResultRouteLacksWords()
    ensures !Text.Contains(ResultRoute, "behavior") && !Text.Contains(ResultRoute, "personal")
  {
    Text.AbsentNoContains(ResultRoute, "behavior", 0);
    Text.AbsentNoContains(ResultRoute, "personal", 0);
  }

  /** The result page matches neither word, so it stays at step 0 (and shows no indicator). */
  lemma ResultPageIsStepZero()
    ensures ActiveStep(ResultRoute) == 0
  {
    ResultRouteLacksWords();
    NeitherWordIsStepZero(ResultRoute);
  }
}

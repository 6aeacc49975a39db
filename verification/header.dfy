/**
 The header: the logo restarts the visit, three navigation items jump to the
 first three steps, and a back button returns to the landing step.
 */
module Header {
  import opened Types
  import opened AppContext

  datatype NavItem = Home | Photos | TryOn

  /** The navigation items, in display order. */
  const NavItems: seq<NavItem> := [Home, Photos, TryOn]

  /** The step a navigation item sets; the results step is never one of them. */
  function NavTarget(item: NavItem): (step: AppStep)
    ensures step != Results
    ensures item == Home <==> step == Landing
    ensures item == Photos <==> step == Upload
    ensures item == TryOn <==> step == Products
  {
    match item
    case Home => Landing
    case Photos => Upload
    case TryOn => Products
  }

  /** An item is highlighted exactly when the current step is its target. */
  predicate Highlighted(current: AppStep, item: NavItem) {
    current == NavTarget(item)
  }

  /** The navigation targets are exactly the landing, upload and products steps. */
  lemma NavTargets()
    ensures (set i | 0 <= i < |NavItems| :: NavTarget(NavItems[i])) == {Landing, Upload, Products}
  {
    assert NavTarget(NavItems[0]) == Landing;
    assert NavTarget(NavItems[1]) == Upload;
    assert NavTarget(NavItems[2]) == Products;
  }

  /** On the results step nothing is highlighted; on every other step exactly one item is. */
  lemma HighlightCount(current: AppStep)
    ensures current == Results ==> forall item :: !Highlighted(current, item)
    ensures current != Results ==>
      exists item :: Highlighted(current, item) && forall other :: Highlighted(current, other) ==> other == item
  {
    if current == Landing {
      assert Highlighted(current, Home);
    } else if current == Upload {
      assert Highlighted(current, Photos);
    } else if current == Products {
      assert Highlighted(current, TryOn);
    }
  }

  predicate BackVisible(step: AppStep) {
    step != Landing
  }

  /** The logo: a full restart. */
  function ClickLogo(st: AppState): (r: AppState)
    ensures r.session == DefaultSession() && r.currentStep == Landing
  {
    ResetSession(st)
  }

  /** A navigation item: moves to its target and leaves the session alone. */
  function ClickNav(st: AppState, item: NavItem): (r: AppState)
    ensures r.session == st.session
    ensures r.currentStep == NavTarget(item) && r.currentStep != Results
  {
    SetStep(st, NavTarget(item))
  }

  /** The back button, shown off the landing step: back to landing, session kept. */
  function ClickBack(st: AppState): (r: AppState)
    ensures r.session == st.session && r.currentStep == Landing
  {
    if BackVisible(st.currentStep) then SetStep(st, Landing) else st
  }
}

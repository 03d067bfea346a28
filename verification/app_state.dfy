/** The web app as one sequential state machine: every DOM event the
    modelled handlers react to is an `Event`, and `Step` applies its
    handler to the whole state. */
module App {
  import opened Navigation
  import opened Gestures
  import opened Selection
  import opened BloodRequest

  datatype State = State(nav: Nav, touch: Touch, form: Form)

  datatype Event =
    | ShowScreenEvent(id: string)      // showScreen(id), e.g. from an onclick
    | BackEvent                        // goBack()
    | HomeEvent                        // goToHome()
    | KeyDown(ctrl: bool, key: string) // the document keydown listener
    | TouchStartEvent(x: int, y: int)
    | TouchEndEvent(x: int, y: int)
    | ChangeUnitsEvent(delta: int)     // changeUnits(delta)
    | UrgencyClick(button: nat)
    | BloodTypeClick(button: nat)
    | NavClick(button: nat)            // the setupBottomNavigation listener
    | EmergencyButtonClick             // an .emergency-btn or .nav-btn.emergency
    | ModalBackdropClick               // a click on the emergency modal itself

  /** The state invariant: the navigation and form invariants. */
  predicate Inv(s: State) {
    Consistent(s.nav) && FormConsistent(s.form)
  }

  /** The page right after loading: the splash screen is the current (and,
      if present, the only active) screen, no nav button and no choice
      button is active, no touch is in progress, the draft is the seeded
      one and the counter shows its two units. */
  function Initial(doc: Document, urgencyLevels: seq<string>, bloodTypes: seq<string>): (s: State)
    requires WellFormed(doc)
    ensures Inv(s)
    ensures s.nav.currentScreen == SplashScreen && s.form.draft == InitialDraft
  {
    State(
      Nav(doc, SplashScreen, if SplashScreen in doc.screens then {SplashScreen} else {}, {}, false),
      NoTouch,
      Form(InitialDraft, InitialDraft.units, ButtonGroup(urgencyLevels, {}), ButtonGroup(bloodTypes, {})))
  }

  /** One event, dispatched to its listener. Each listener touches only
      its own part of the state: navigation events leave the form and the
      touch alone, form events leave navigation and the touch alone, a
      touchstart only records the touch, and nothing changes the
      document. Clicks on buttons the page does not have are ignored.
      The `setupEmergencyModal` listeners open the modal from a trigger
      button and close it on a click on the modal's own backdrop, a
      listener that exists only when the page has the modal. A
      `.nav-btn.emergency` is also a nav button, and its listener from
      `setupBottomNavigation` was registered first, so its click is
      `NavClick(i)` followed by `EmergencyButtonClick`. */
  function Step(s: State, e: Event): (r: State)
    ensures r.nav.doc == s.nav.doc
    ensures e.ShowScreenEvent? || e.BackEvent? || e.HomeEvent? || e.KeyDown? || e.NavClick? ||
            e.EmergencyButtonClick? || e.ModalBackdropClick? ==>
      r.form == s.form && r.touch == s.touch
    ensures e.EmergencyButtonClick? ==>
      r.nav.(emergencyOpen := s.nav.emergencyOpen) == s.nav &&
      (r.nav.emergencyOpen <==> s.nav.emergencyOpen || HasEmergencyModal(s.nav.doc))
    ensures e.ModalBackdropClick? ==>
      r.nav.(emergencyOpen := s.nav.emergencyOpen) == s.nav &&
      (r.nav.emergencyOpen <==> s.nav.emergencyOpen && !HasEmergencyModal(s.nav.doc))
    ensures e.ChangeUnitsEvent? || e.UrgencyClick? || e.BloodTypeClick? ==>
      r.nav == s.nav && r.touch == s.touch
    ensures e.TouchStartEvent? ==>
      r.nav == s.nav && r.form == s.form && r.touch.startX == e.x && r.touch.startY == e.y
    ensures e.TouchEndEvent? ==> r.form == s.form
    ensures e.NavClick? && e.button >= s.nav.doc.navButtons ==> r == s
    ensures e.UrgencyClick? && e.button >= |s.form.urgencyButtons.values| ==> r == s
    ensures e.BloodTypeClick? && e.button >= |s.form.bloodTypeButtons.values| ==> r == s
  {
    match e
    case ShowScreenEvent(id) => s.(nav := ShowScreen(s.nav, id))
    case BackEvent => s.(nav := GoBack(s.nav))
    case HomeEvent => s.(nav := GoToHome(s.nav))
    case KeyDown(ctrl, key) => s.(nav := OnKeyDown(s.nav, ctrl, key).0)
    case TouchStartEvent(x, y) => s.(touch := OnTouchStart(x, y))
    case TouchEndEvent(x, y) =>
      var (nav', touch') := OnTouchEnd(s.nav, s.touch, x, y);
      s.(nav := nav', touch := touch')
    case ChangeUnitsEvent(delta) => s.(form := ChangeUnits(s.form, delta))
    case UrgencyClick(i) =>
      if i < |s.form.urgencyButtons.values| then s.(form := SelectUrgency(s.form, i)) else s
    case BloodTypeClick(i) =>
      if i < |s.form.bloodTypeButtons.values| then s.(form := SelectBloodType(s.form, i)) else s
    case NavClick(i) =>
      if i < s.nav.doc.navButtons then s.(nav := ClickNavButton(s.nav, i)) else s
    case EmergencyButtonClick => s.(nav := ShowEmergencyOptions(s.nav))
    case ModalBackdropClick =>
      if HasEmergencyModal(s.nav.doc) then s.(nav := CloseModal(s.nav)) else s
  }

  function Run(s: State, events: seq<Event>): State
    decreases |events|
  {
    if |events| == 0 then s else Run(Step(s, events[0]), events[1..])
  }

  /** Every handler keeps the invariant, and none changes the document. */
  lemma StepPreservesInv(s: State, e: Event)
    requires Inv(s)
    ensures Inv(Step(s, e))
    ensures Step(s, e).nav.doc == s.nav.doc
  {
  }

  /** After any sequence of events from the initial page: at most one
      screen is active and it is the current one, at most one nav button
      is active, the blood-request units lie in [1, 10] and the page shows
      them, and each choice group has at most one active button, matching
      the draft. */
  lemma {:induction false} RunPreservesInv(s: State, events: seq<Event>)
    requires Inv(s)
    ensures Inv(Run(s, events))
    ensures Run(s, events).nav.doc == s.nav.doc
    decreases |events|
  {
    if |events| > 0 {
      StepPreservesInv(s, events[0]);
      RunPreservesInv(Step(s, events[0]), events[1..]);
    }
  }

  /** The invariant spelled out for every reachable state. */
  lemma ReachableStates(doc: Document, urgencyLevels: seq<string>, bloodTypes: seq<string>, events: seq<Event>)
    requires WellFormed(doc)
    ensures var s := Run(Initial(doc, urgencyLevels, bloodTypes), events);
      && (forall x, y :: x in s.nav.activeScreens && y in s.nav.activeScreens ==> x == y)
      && (forall x :: x in s.nav.activeScreens ==> x == s.nav.currentScreen && x in doc.screens)
      && EmergencyModal !in s.nav.activeScreens
      && (forall j, k :: j in s.nav.activeNav && k in s.nav.activeNav ==> j == k)
      && MinUnits <= s.form.draft.units <= MaxUnits
      && s.form.shownUnits == s.form.draft.units
  {
    RunPreservesInv(Initial(doc, urgencyLevels, bloodTypes), events);
  }
}

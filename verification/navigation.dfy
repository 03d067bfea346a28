/** The screen router of the web app: which `.screen` element carries the
    `active` class, the `currentScreen` global, the bottom-navigation
    highlight and the emergency modal. */
module Navigation {

  const SplashScreen := "splash-screen"
  const AuthScreen := "auth-screen"
  const HomeScreen := "home-screen"
  const BloodRequestScreen := "blood-request"
  const ScanScreen := "scan-prescription"
  const SearchMedicineScreen := "search-medicine"
  const RemindersScreen := "reminders"
  const MedicalRecordsScreen := "medical-records"
  const DonorMapScreen := "donor-map"
  const ProfileScreen := "profile"
  const LoreScreen := "lore-screen"

  /** The id of the emergency modal. */
  const EmergencyModal := "emergency-modal"

  /** What the page's markup provides: the ids of all its elements, the
      ids of its `.screen` elements, and how many `.nav-btn` buttons it
      has. */
  datatype Document = Document(elements: set<string>, screens: set<string>, navButtons: nat)

  /** Every `.screen` is an element of the page, and the emergency modal
      is not a `.screen`: if it were, `showEmergencyOptions` would make a
      second `.screen` active next to the current one. */
  predicate WellFormed(doc: Document) {
    && doc.screens <= doc.elements
    && EmergencyModal !in doc.screens
  }

  /** Whether `getElementById('emergency-modal')` finds something. */
  predicate HasEmergencyModal(doc: Document) {
    EmergencyModal in doc.elements
  }

  /** Navigation state: the document, the `currentScreen` global, the
      screens and nav buttons (by index) that carry `active`, and whether
      the emergency modal carries `active`. */
  datatype Nav = Nav(
    doc: Document,
    currentScreen: string,
    activeScreens: set<string>,
    activeNav: set<nat>,
    emergencyOpen: bool)

  /** The document is well formed, only existing screens are active, no
      screen other than the current one is active, at most one existing
      nav button is active, and the modal is open only if it exists. */
  predicate Consistent(n: Nav) {
    && WellFormed(n.doc)
    && n.activeScreens <= n.doc.screens
    && n.activeScreens <= {n.currentScreen}
    && (forall k :: k in n.activeNav ==> k < n.doc.navButtons)
    && (forall j, k :: j in n.activeNav && k in n.activeNav ==> j == k)
    && (n.emergencyOpen ==> HasEmergencyModal(n.doc))
  }

  /** `screenNavMap` of `updateBottomNavForScreen`. */
  const ScreenNavMap: map<string, nat> := map[
    HomeScreen := 0,
    DonorMapScreen := 1,
    BloodRequestScreen := 2,
    MedicalRecordsScreen := 3,
    ProfileScreen := 4]

  /** The five screens that have a bottom-navigation button. */
  const MainScreens: set<string> :=
    {HomeScreen, DonorMapScreen, BloodRequestScreen, MedicalRecordsScreen, ProfileScreen}

  /** The nav buttons left active by `updateBottomNavForScreen(screen)`:
      the mapped index, provided the page has a button at that index. */
  function Highlight(screen: string, navButtons: nat): set<nat> {
    if screen in ScreenNavMap && ScreenNavMap[screen] < navButtons then
      {ScreenNavMap[screen]}
    else
      {}
  }

  /** At most one button is highlighted, always one of indices 0..4 that
      exists; with all five buttons present, a button is highlighted
      exactly for the five main screens, in bottom-bar order home, donor
      map, blood request, records, profile. */
  lemma HighlightTable(screen: string, navButtons: nat)
    ensures forall j, k :: j in Highlight(screen, navButtons) && k in Highlight(screen, navButtons) ==> j == k
    ensures forall k :: k in Highlight(screen, navButtons) ==> k < 5 && k < navButtons
    ensures navButtons >= 5 ==> (Highlight(screen, navButtons) != {} <==> screen in MainScreens)
    ensures navButtons >= 5 ==>
      Highlight(HomeScreen, navButtons) == {0} && Highlight(DonorMapScreen, navButtons) == {1} &&
      Highlight(BloodRequestScreen, navButtons) == {2} && Highlight(MedicalRecordsScreen, navButtons) == {3} &&
      Highlight(ProfileScreen, navButtons) == {4}
  {
  }

  /** Different main screens highlight different buttons. */
  lemma HighlightInjective(s1: string, s2: string, navButtons: nat)
    requires Highlight(s1, navButtons) == Highlight(s2, navButtons) != {}
    ensures s1 == s2
  {
  }

  /** `showScreen(id)`: every `.screen` loses `active` (the modal too, on
      a page that is not well formed because the modal is a `.screen`). If `getElementById(id)` finds
      an element, whether a screen or not, that element gains `active`
      (so the emergency modal opens for its id), it becomes the current
      screen and the bottom navigation follows it, which clears every nav
      button for an id outside the five main screens. If no element has
      the id, the current screen and the nav highlight stay as they were. */
  function ShowScreen(n: Nav, id: string): (r: Nav)
    ensures r.doc == n.doc
    ensures r.emergencyOpen <==>
      (id == EmergencyModal && id in n.doc.elements) || (n.emergencyOpen && EmergencyModal !in n.doc.screens)
    ensures id in n.doc.elements ==>
      && r.currentScreen == id
      && (forall s :: s in r.activeScreens <==> s == id && id in n.doc.screens)
      && r.activeNav == Highlight(id, n.doc.navButtons)
      && (id !in MainScreens ==> r.activeNav == {})
    ensures id !in n.doc.elements ==>
      && r.currentScreen == n.currentScreen
      && r.activeScreens == {}
      && r.activeNav == n.activeNav
  {
    var hidden := n.(activeScreens := {}, emergencyOpen := n.emergencyOpen && EmergencyModal !in n.doc.screens);
    if id in n.doc.elements then
      hidden.(
        activeScreens := if id in n.doc.screens then {id} else {},
        currentScreen := id,
        activeNav := Highlight(id, n.doc.navButtons),
        emergencyOpen := hidden.emergencyOpen || id == EmergencyModal)
    else
      hidden
  }

  lemma ShowScreenPreservesConsistent(n: Nav, id: string)
    requires Consistent(n)
    ensures Consistent(ShowScreen(n, id))
  {
  }

  /** Showing the same screen twice is the same as showing it once. */
  lemma ShowScreenIdempotent(n: Nav, id: string)
    ensures ShowScreen(ShowScreen(n, id), id) == ShowScreen(n, id)
  {
  }

  /** `backRoutes` of `goBack`. */
  const BackRoutes: map<string, string> := map[
    BloodRequestScreen := HomeScreen,
    ScanScreen := HomeScreen,
    SearchMedicineScreen := HomeScreen,
    RemindersScreen := HomeScreen,
    MedicalRecordsScreen := HomeScreen,
    DonorMapScreen := HomeScreen,
    ProfileScreen := HomeScreen,
    LoreScreen := HomeScreen]

  /** The properties every plain JavaScript object inherits from
      `Object.prototype`: a lookup `backRoutes[key]` finds them too. */
  const ObjectPrototypeKeys: set<string> := {
    "constructor", "__proto__", "hasOwnProperty", "isPrototypeOf",
    "propertyIsEnumerable", "toString", "toLocaleString", "valueOf",
    "__defineGetter__", "__defineSetter__", "__lookupGetter__", "__lookupSetter__"}

  /** The string `getElementById` receives when `showScreen` is handed an
      inherited member: the prototype object itself for `__proto__`,
      otherwise the source text of a built-in function as V8, the engine
      of the Android WebView, prints it. */
  function InheritedAsId(key: string): string {
    if key == "__proto__" then "[object Object]"
    else if key == "constructor" then "function Object() { [native code] }"
    else "function " + key + "() { [native code] }"
  }

  /** `backRoutes[screen] || 'home-screen'`, as the id `showScreen` then
      looks up: an own entry or a missing key gives home, an inherited
      member is truthy and wins over the default. */
  function BackRoute(screen: string): string {
    if screen in BackRoutes then BackRoutes[screen]
    else if screen in ObjectPrototypeKeys then InheritedAsId(screen)
    else HomeScreen
  }

  /** Every entry of the back-route table leads home, and so does the
      default: the back target depends on the current screen only when
      that screen's id names an inherited member, and then it is neither
      home nor the modal. */
  lemma BackRoutesLeadHome(screen: string)
    ensures forall s :: s in BackRoutes ==> BackRoutes[s] == HomeScreen
    ensures screen !in ObjectPrototypeKeys ==> BackRoute(screen) == HomeScreen
    ensures screen in ObjectPrototypeKeys ==> BackRoute(screen) != HomeScreen && BackRoute(screen) != EmergencyModal
  {
  }

  /** `goToHome()`: when the page has a `home-screen` element it becomes
      the current screen, the only active one, and the first nav button
      (if any) is the highlighted one; otherwise every screen is hidden and
      the current screen is kept. */
  function GoToHome(n: Nav): (r: Nav)
    ensures HomeScreen in n.doc.elements ==>
      && r.currentScreen == HomeScreen
      && (forall s :: s in r.activeScreens <==> s == HomeScreen && HomeScreen in n.doc.screens)
      && (forall k :: k in r.activeNav <==> k == 0 && 0 < n.doc.navButtons)
    ensures HomeScreen !in n.doc.elements ==>
      r.currentScreen == n.currentScreen && r.activeScreens == {} && r.activeNav == n.activeNav
    ensures r.doc == n.doc
    ensures r.emergencyOpen <==> n.emergencyOpen && EmergencyModal !in n.doc.screens
  {
    ShowScreen(n, HomeScreen)
  }

  /** `goBack()`: from any screen whose id is not an inherited member it
      ends on the home screen whenever the page has one (otherwise every
      screen is hidden and the current screen is kept); from a screen with
      such an id it never reaches home. The modal is never opened. */
  function GoBack(n: Nav): (r: Nav)
    ensures n.currentScreen !in ObjectPrototypeKeys && HomeScreen in n.doc.elements ==>
      r.currentScreen == HomeScreen && (forall s :: s in r.activeScreens <==> s == HomeScreen && HomeScreen in n.doc.screens)
    ensures n.currentScreen !in ObjectPrototypeKeys && HomeScreen !in n.doc.elements ==>
      r.currentScreen == n.currentScreen && r.activeScreens == {}
    ensures n.currentScreen in ObjectPrototypeKeys ==>
      r.currentScreen != HomeScreen && HomeScreen !in r.activeScreens
    ensures r.doc == n.doc
    ensures r.emergencyOpen <==> n.emergencyOpen && EmergencyModal !in n.doc.screens
  {
    BackRoutesLeadHome(n.currentScreen);
    ShowScreen(n, BackRoute(n.currentScreen))
  }

  /** There is no history stack: going back is going home, from every
      screen whose id is not an inherited member. */
  lemma GoBackIsGoToHome(n: Nav)
    ensures n.currentScreen !in ObjectPrototypeKeys ==> GoBack(n) == GoToHome(n)
  {
  }

  /** `showEmergencyOptions()`: opens the emergency modal if the page has
      one; nothing else changes. */
  function ShowEmergencyOptions(n: Nav): (r: Nav)
    ensures r.emergencyOpen <==> n.emergencyOpen || HasEmergencyModal(n.doc)
    ensures r.(emergencyOpen := n.emergencyOpen) == n
  {
    if HasEmergencyModal(n.doc) then n.(emergencyOpen := true) else n
  }

  /** `closeModal()`: every `.modal` loses `active`, the emergency modal
      among them; the dynamically created donor modals it also removes are
      not part of the navigation state. */
  function CloseModal(n: Nav): (r: Nav)
    ensures !r.emergencyOpen
    ensures r.(emergencyOpen := n.emergencyOpen) == n
  {
    n.(emergencyOpen := false)
  }

  /** Opening the emergency modal and closing it again leaves the
      navigation exactly as it was before, the modal closed; with the
      modal in the page, it is open in between. */
  lemma EmergencyOpenClose(n: Nav)
    requires !n.emergencyOpen
    ensures CloseModal(ShowEmergencyOptions(n)) == n
    ensures HasEmergencyModal(n.doc) ==> ShowEmergencyOptions(n).emergencyOpen
  {
  }

  /** The click listener of `setupBottomNavigation`: the clicked button is
      the only active one afterwards. */
  function ClickNavButton(n: Nav, i: nat): (r: Nav)
    requires i < n.doc.navButtons
    ensures forall k :: k in r.activeNav <==> k == i
    ensures r.(activeNav := n.activeNav) == n
  {
    n.(activeNav := {i})
  }
}

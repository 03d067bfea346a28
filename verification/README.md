# MediLink — a Dafny model of the app's decision logic

MediLink is a demo healthcare app: a single-page web front end (`app.js`) hosted in an
Android WebView (`MainActivity.java`). Its handlers mix a handful of pure decisions into DOM
and Android framework code. This project lifts those decisions out and models them as pure
Dafny functions over immutable records, with proofs of what they guarantee:

- **Screen router** (`navigation.dfy`, module `Navigation`): `showScreen`, `goBack`,
  `goToHome`, the bottom-navigation highlight table, the emergency modal and the nav-button
  click listener. The page markup is a `Document` parameter: the ids of all its elements,
  the ids of its `.screen` elements, and its number of `.nav-btn` buttons. A well-formed
  page has every `.screen` among its elements and the modal not among its `.screen`s. `showScreen`
  looks its id up among all elements, as `getElementById` does, so showing the
  `emergency-modal` id opens the modal and clears the nav highlight.
- **Ambient listeners** (`gestures.dfy`, module `Gestures`): the Ctrl+e / Ctrl+h / Ctrl+b
  shortcuts and the swipe-right-to-go-back gesture (`Gestures.OnTouchStart` records where a
  touch begins, `Gestures.OnTouchEnd` decides), including its early return when a start
  coordinate is 0. On that early return the coordinates are left as they were; they are
  reset to 0 only when the handler runs to the end.
- **Blood-request form** (`blood_request.dfy`, `selection.dfy`): the draft
  (`appData.bloodRequest`), the unit counter clamped to [1, 10], and the single-choice urgency
  and blood-type buttons. `changeUnits` reads the count shown on the page, not the draft, so
  the form keeps both; the invariant says they agree.
- **Search and filters** (`medicine_search.dfy`, `medical_records.dfy`, `text.dfy`): the
  medicine search over its three-entry catalogue and the medical-records filter with its
  aliases. They rely on ASCII lower-casing and substring tests. `Text.Includes` is the
  scanning loop, proved equal to the index-based definition `Text.Contains`.
- **Reminder adherence and donor lookup** (`reminders.dfy`, `donors.dfy`).
- **Whole-app state machine** (`app_state.dfy`, module `App`): every modelled DOM event as
  an `Event`, `Step`/`Run` over the combined state, and the invariant that holds in every
  reachable state.
- **Android host** (`url_routing.dfy`, `permissions.dfy`, `file_chooser.dfy`): the URL
  classification of `shouldOverrideUrlLoading`, the all-granted reduction of
  `onRequestPermissionsResult`, and the answer-once file-chooser callback.

Every entry of the back-route table leads to `home-screen` (app.js:261-270), and so does the
default. `goBack` is therefore the same as `goToHome` from every screen, except one whose id
names a member every JavaScript object inherits (`constructor`, `toString`, `__proto__` and
the like). For such a screen, `backRoutes[currentScreen]` finds the inherited member, which
is truthy, and `showScreen` receives its string form instead of `home-screen`
(`Navigation.BackRoute`, `Navigation.GoBackIsGoToHome`).

Calls to the CALL_PHONE permission check, the DOM and the Android intents become parameters
or returned effects. `shouldOverrideUrlLoading` returns the effect it would cause (a call, a
toast, an external view, or nothing) together with its boolean result.

## Model

| member | source | states |
|---|---|---|
| `Text.Lower` | app.js:544 | lower-casing keeps the length, turns each upper-case letter A-Z into its lower-case letter (32 code points on), leaves no upper-case letter and keeps every other character |
| `Text.Includes` | app.js:576-577 | the substring scan answers true exactly when some index of the string starts an occurrence of the query |
| `Text.ContainsPrefixOf` | app.js:652-654 | a string containing `p + q` contains `p` (why the plural record-filter aliases reduce to the singular word) |
| `Selection.Select` | app.js:136-151 | after a click on button i, i is the only active button of its group and carries the chosen value |
| `Selection.SelectLastClickWins` | app.js:136-151 | a later click overrides an earlier one; clicking the same button twice equals clicking it once |
| `Navigation.HighlightTable` | app.js:283-299 | at most one nav button is highlighted, always an existing index below 5; with five buttons, one is highlighted exactly for the five main screens, home through profile as indices 0 to 4 |
| `Navigation.HighlightInjective` | app.js:287-293 | different mapped screens highlight different buttons |
| `Navigation.ShowScreen` | app.js:239-257 | every screen is hidden; an id that names any element becomes the current screen, is the only active screen if it is a screen, opens the modal if it is the modal's id, and gets its nav highlight (none outside the five main screens); an id naming no element leaves the current screen and highlight unchanged |
| `Navigation.ShowScreenPreservesConsistent` | app.js:239-257 | showing any id keeps "only the current screen may be active, at most one nav button is active, the modal is open only if it exists" |
| `Navigation.ShowScreenIdempotent` | app.js:239-257 | showing the same screen twice equals showing it once |
| `Navigation.BackRoutesLeadHome` | app.js:259-272 | every back-route entry maps to home-screen, and so does the default for unmapped screens; only a screen id naming an inherited object member gets another target, which is neither home nor the modal |
| `Navigation.GoToHome` | app.js:276-278 | when the page has a home-screen element it becomes the current and only active screen with the first nav button highlighted; otherwise every screen is hidden and the current screen is kept; the modal is never opened |
| `Navigation.GoBack` | app.js:259-274 | from a screen whose id is not an inherited object member, going back ends on home-screen whenever the page has one, otherwise hides every screen and keeps the current one; from a screen with such an id it never reaches home |
| `Navigation.GoBackIsGoToHome` | app.js:259-278 | with no history stack, going back equals going home from every screen whose id is not an inherited object member |
| `Navigation.ShowEmergencyOptions` | app.js:712-717 | the emergency modal is open afterwards iff it was open or the page has it; nothing else changes |
| `Navigation.CloseModal` | app.js:734-743 | afterwards the emergency modal is closed; nothing else in the navigation state changes |
| `Navigation.EmergencyOpenClose` | app.js:712-743 | opening the emergency modal and closing it again restores the navigation state, and the modal is open in between whenever the page has it |
| `Navigation.ClickNavButton` | app.js:172-181 | the clicked nav button is the only active one; nothing else changes |
| `Gestures.OnTouchEnd` | app.js:928-947 | touchend calls goBack iff both start coordinates are nonzero, deltaX > 100, abs(deltaY) < 100 and the screen is not home, splash or auth; coordinates are reset only when the handler gets past its early return |
| `Gestures.TouchEndDisarms` | app.js:928-947 | after any touchend a start coordinate is 0, so a second touchend without a touchstart never navigates |
| `Gestures.SwipeLeadsHomeOrNowhere` | app.js:937-942 | a touchend either leaves navigation unchanged or goes back from a screen that allows it; from a screen whose id is not an inherited object member, that means going home |
| `Gestures.EdgeSwipeIgnored` | app.js:929 | a swipe starting at x = 0 or y = 0 is ignored and leaves the coordinates untouched |
| `Gestures.OnKeyDown` | app.js:897-915 | preventDefault happens iff Ctrl is held with key e, h or b; Ctrl+e opens the emergency modal, Ctrl+h shows home, Ctrl+b shows blood-request; anything else changes nothing |
| `Gestures.OnTouchEndPreservesConsistent` | app.js:928-947 | the swipe handler keeps the navigation invariant |
| `Gestures.OnKeyDownPreservesConsistent` | app.js:897-915 | the shortcut handler keeps the navigation invariant |
| `BloodRequest.ChangeUnits` | app.js:343-354 | the new count is the shown count plus delta clamped to [1, 10]; the page shows exactly the draft's units; no other draft field or button changes |
| `BloodRequest.ChangeUnitsUndo` | app.js:343-354 | a change that stays in range is undone by the opposite change |
| `BloodRequest.ChangeUnitsAllKeepsForm` | app.js:343-354 | over any sequence of counter clicks the units stay in [1, 10] and the shown count equals the draft's |
| `BloodRequest.UnitCounterExamples` | app.js:343-354 | five "+1" clicks from 2 show 7; eight "-1" clicks from 1 keep 1 |
| `BloodRequest.SelectUrgency` | app.js:136-142 | the clicked urgency button is the only active one, the group keeps its data-level values, the draft's urgency is the clicked one's, nothing else changes |
| `BloodRequest.SelectBloodType` | app.js:144-151 | the clicked blood-type button is the only active one, the group keeps its data-type values, the draft's type is the clicked one's, nothing else changes |
| `BloodRequest.FormOperationsKeepConsistent` | app.js:136-151 | counter changes and both selections keep the form invariant |
| `MedicineSearch.FilterMatches` | app.js:575-578 | the results are exactly the entries whose lower-cased name or description contains the query, each as often as in the input, in input order |
| `MedicineSearch.SearchMedicines` | app.js:552-581 | the results are the matching catalogue entries, in catalogue order, with no entry twice |
| `MedicineSearch.HandleMedicineSearch` | app.js:543-550 | a search runs iff the lower-cased input is longer than 2 characters; its results are exactly the matching catalogue entries, in catalogue order |
| `MedicineSearch.SearchIgnoresCase` | app.js:543-550 | inputs that lower-case alike give the same outcome |
| `SearchExamples.SearchHeartExample` | app.js:552-578 | searching "Heart" lists Aspirin and nothing else |
| `SearchExamples.SearchPainExample` | app.js:543-578 | "pain" lists exactly Paracetamol and Ibuprofen, in that order, and not Aspirin; "ab" starts no search |
| `MedicalRecords.FilterMedicalRecords` | app.js:643-659 | one display flag per record: `all` shows every record; prescriptions, tests and visits show the titles containing "prescription", "test", and "visits" or "exam"; any other filter shows the titles containing it after lower-casing; records with equal titles get equal flags |
| `MedicalRecords.AllShowsEverything` | app.js:647-648 | the `all` filter shows every record |
| `MedicalRecords.AliasTabs` | app.js:651-655 | prescriptions shows exactly titles containing "prescription", tests exactly those containing "test", visits those containing "visits" or "exam" |
| `MedicalRecords.OtherTabs` | app.js:651-657 | any other filter shows exactly the titles containing it; an empty filter shows everything |
| `MedicalRecords.OnFilterTab` | app.js:154-160 | the clicked tab is the only active one and the records are filtered by its data-filter |
| `MedicalRecords.FilterTabLastClickWins` | app.js:154-160 | clicking the same tab again changes neither the tabs nor the shown records, and after two clicks both are those of the second tab |
| `Reminders.CountActive` | app.js:627 | the active count is the number of `true` active flags; it is at most the list length, 0 iff none is active and the full length iff all are |
| `Reminders.AdherenceRate` | app.js:626-634 | empty list gives no number (NaN); otherwise the rate is in [0, 100] and is the whole number nearest to 100·active/total, halves rounded up |
| `Reminders.SeedAdherence` | app.js:37-62 | with the three seeded reminders all active the rate is 100 |
| `Donors.FindDonor` | app.js:478-486 | the lookup finds nothing iff no donor has the id; otherwise it is the first donor with that id |
| `Donors.SeedLookups` | app.js:63-91 | on the three seeded donors, donor1, donor2 and donor3 each find their own record and an unknown id finds none |
| `UrlRouting.ShouldOverrideUrlLoading` | app/src/main/java/com/austrianpainter/medilink/MainActivity.java:104-129 | tel: URLs are always intercepted, with a call when CALL_PHONE is granted and a toast otherwise; other http(s) URLs without localhost or 127.0.0.1 go to an external viewer and are intercepted; everything else loads in the WebView |
| `UrlRouting.InterceptedIffLeavesWebView` | app/src/main/java/com/austrianpainter/medilink/MainActivity.java:106-128 | the return value is true iff the URL leaves the WebView; the permission matters only for tel: URLs |
| `UrlRouting.EffectsNeedTheirConditions` | app/src/main/java/com/austrianpainter/medilink/MainActivity.java:106-125 | a call is placed only for a tel: URL with the permission; an external view only for a non-local web URL |
| `UrlRouting.TelTakesPriority` | app/src/main/java/com/austrianpainter/medilink/MainActivity.java:106-120 | every URL starting "tel:", including one such as "tel:http://example.com", is intercepted and never opened externally; it starts a call iff the permission is granted and shows the permission toast otherwise |
| `UrlRouting.RoutingExamples` | app/src/main/java/com/austrianpainter/medilink/MainActivity.java:120-128 | a remote https page is viewed externally; localhost and the bundled file:// asset stay in the WebView |
| `Permissions.OnRequestPermissionsResult` | app/src/main/java/com/austrianpainter/medilink/MainActivity.java:265-281 | other request codes are ignored; for 1001 the "full functionality" toast appears iff every grant result is PERMISSION_GRANTED (so also for an empty array) |
| `FileChooser.OnActivityResult` | app/src/main/java/com/austrianpainter/medilink/MainActivity.java:288-297 | for request 1002 with a pending callback, that callback gets a one-element array iff the result is OK and an intent is present, null otherwise, and is cleared; otherwise nothing happens |
| `FileChooser.AnsweredAtMostOnce` | app/src/main/java/com/austrianpainter/medilink/MainActivity.java:288-297 | right after an answer no further result reaches any callback |
| `FileChooser.ReplacedCallbackDropped` | app/src/main/java/com/austrianpainter/medilink/MainActivity.java:166 | a callback replaced by a second chooser before a result is never answered; the result goes to the newer one |
| `FileChooser.DeliveriesBoundedByShows` | app/src/main/java/com/austrianpainter/medilink/MainActivity.java:288-297 | over any run, answers plus a still-pending callback never exceed the callbacks handed over |
| `FileChooser.OnShowFileChooser` | app/src/main/java/com/austrianpainter/medilink/MainActivity.java:163-175 | the new callback becomes the pending one, replacing any earlier one, and the method returns true |
| `App.Step` | app.js:134-205 | each listener changes only its own part of the state (navigation, form or touch), a touchstart records its coordinates, clicks on missing buttons change nothing, an emergency trigger opens the modal if the page has it, a click on the modal's backdrop closes it, and only the modal flag changes for those two; no event changes the document |
| `App.Initial` | app.js:19-36 | on a well-formed page, the loaded page starts on the splash screen with the seeded draft and satisfies the invariant |
| `App.RunPreservesInv` | app.js:239-354 | every sequence of modelled events keeps the navigation and form invariants and never changes the document |
| `App.ReachableStates` | app.js:239-299 | on a well-formed page, in every reachable state at most one screen is active (the current one), the open emergency modal is never an active screen, at most one nav button is active, and the units shown are the draft's, in [1, 10] |

## Left out

- Rendering: `createDonorProfileModal`, `updateMedicineResults`, `addRecentScan`, toast markup
  and the injected CSS. They only build HTML.
- Timer-driven flows: `submitBloodRequest`, `scanPrescription`, `selectFromGallery`,
  `startVoiceSearch`, `downloadRecord`, toast auto-dismissal, the splash timeout and the
  per-screen animation hooks of `onScreenShow`. They are fire-and-forget `setTimeout` chains
  with no stateable outcome. The splash timeout's `showScreen('auth-screen')` is an ordinary
  `ShowScreenEvent`.
- `onScreenShow` is not wired into `Navigation.ShowScreen`. Its only computation,
  `updateReminderStats`, is modelled separately as `Reminders.AdherenceRate`.
- `Reminders.AdherenceRate`: computed with exact rationals, while the source uses
  floating-point division and `Math.round`. The two could differ only where a rounding error
  crosses a .5 boundary.
- `switchTab`, `closeDonorProfile`, `contactDonor`, `requestDonation`,
  `logout` (a `confirm` dialog) and the "coming soon" profile actions are outside the modelled
  core. So are the emergency actions `callEmergency`, `notifyContacts` and `shareLocation`:
  they show a toast and then close the modal as `Navigation.CloseModal` does.
  `Navigation.CloseModal` models only the emergency modal; the dynamically created donor
  modals that `closeModal` also removes are not modelled. The donor modal itself is presentation; only its lookup (`Donors.FindDonor`) is
  modelled.
- `Text.Lower`: ASCII only, whereas `toLowerCase` maps all of Unicode and can change a
  string's length.
- `MedicineSearch.HandleMedicineSearch`: counts the query's length in characters, whereas
  JavaScript counts UTF-16 code units, so the two differ for characters outside the Basic
  Multilingual Plane.
- The unit count is an integer state field rather than `parseInt` of the page's text.
  Touch coordinates are integers rather than fractional CSS pixels.
- `Navigation.GoBack`: the string an inherited member turns into (`[object Object]` for
  `__proto__`, the source text of a built-in function otherwise) is written as V8, the
  Android WebView's engine, prints it; other engines may print built-ins differently. The
  nav-index lookup needs no such case, because an inherited member never indexes a button.
- index.html is not part of this model. The element ids, screen ids, nav buttons and button
  data attributes are parameters (`Navigation.Document`, `Selection.ButtonGroup`).
- `App.Step`: assumes no `.urgency-btn` or `.blood-type-btn` has an id that is ever passed to
  `showScreen`. For such an id, app.js:246-248 would add `active` to that choice button, which
  changes the form, while the model changes only navigation. It also assumes the emergency
  modal carries the `.modal` class, so `closeModal` closes it. A `.nav-btn` id needs no such
  assumption, because `updateBottomNavForScreen` resets the nav highlight right after.
- `App.RunPreservesInv`: the form invariant (at most one active button per choice group,
  matching the draft) rests on the same markup assumption as `App.Step`. Showing a choice
  button's id would leave two buttons of its group active.
- `App.ReachableStates`: assumes the emergency modal is not a `.screen`. On a page where it
  is, `showEmergencyOptions` (app.js:712-717) would make it active next to the current screen,
  so two `.screen`s would be active at once.
- `App.Initial`: assumes the markup makes the splash screen the only active screen at load,
  with no choice or nav button active, the modal closed and the counter showing 2.
- `MedicalRecords.FilterMedicalRecords`: assumes every `.record-item` has a `.record-info h4`
  title. For one without, app.js:651 throws under every filter but `all`, and the records
  after it keep their display.
- The inline `onclick` handlers of the nav buttons are in index.html. Only their shared
  listener is modelled (`Navigation.ClickNavButton`).
- Service-worker registration, PerformanceObserver, the online/offline banners and console
  logging are browser plumbing.
- From `MainActivity.java`: WebView settings, geolocation and camera grants, `onJsAlert`,
  JavaScript injection, the `MediLinkAndroidInterface` bridge, `requestPermissions`,
  `onBackPressed` and `onDestroy`. They are Android framework calls. A failing
  `startActivity` is not modelled either.
- `SplashActivity.java` only builds a layout and runs animations.

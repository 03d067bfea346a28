/** The document-level ambient listeners: the keyboard shortcuts and the
    swipe-right-to-go-back touch gesture. */
module Gestures {
  import opened Navigation

  /** The `touchStartX` / `touchStartY` globals; 0 doubles as "no touch". */
  datatype Touch = Touch(startX: int, startY: int)

  const NoTouch := Touch(0, 0)

  /** Minimum rightward travel, and maximum vertical drift, of a swipe. */
  const SwipeMinDeltaX := 100
  const SwipeMaxDriftY := 100

  function Abs(x: int): nat {
    if x < 0 then -x else x
  }

  /** The touchstart listener records where the finger went down. */
  function OnTouchStart(x: int, y: int): Touch {
    Touch(x, y)
  }

  /** Screens on which the gesture is suppressed. */
  predicate SwipeBackAllowed(screen: string) {
    screen != HomeScreen && screen != SplashScreen && screen != AuthScreen
  }

  /** The whole condition under which a touchend calls `goBack()`, as one
      conjunction. */
  predicate IsSwipeBack(t: Touch, endX: int, endY: int, screen: string) {
    && t.startX != 0
    && t.startY != 0
    && endX - t.startX > SwipeMinDeltaX
    && Abs(endY - t.startY) < SwipeMaxDriftY
    && SwipeBackAllowed(screen)
  }

  /** The touchend listener, with its early return when a start coordinate
      is 0 (in which case the coordinates are left as they are). */
  function OnTouchEnd(n: Nav, t: Touch, endX: int, endY: int): (r: (Nav, Touch))
    ensures r.0 == (if IsSwipeBack(t, endX, endY, n.currentScreen) then GoBack(n) else n)
    ensures t.startX != 0 && t.startY != 0 ==> r.1 == NoTouch
    ensures t.startX == 0 || t.startY == 0 ==> r.1 == t
  {
    if t.startX == 0 || t.startY == 0 then
      (n, t)
    else
      var deltaX := endX - t.startX;
      var deltaY := endY - t.startY;
      var n' :=
        if deltaX > SwipeMinDeltaX && Abs(deltaY) < SwipeMaxDriftY then
          if n.currentScreen != HomeScreen && n.currentScreen != SplashScreen && n.currentScreen != AuthScreen then
            GoBack(n)
          else
            n
        else
          n;
      (n', NoTouch)
  }

  /** After any touchend at least one start coordinate is 0, so a second
      touchend without a new touchstart never navigates. */
  lemma TouchEndDisarms(n: Nav, t: Touch, endX: int, endY: int, endX2: int, endY2: int)
    ensures OnTouchEnd(n, t, endX, endY).1.startX == 0 || OnTouchEnd(n, t, endX, endY).1.startY == 0
    ensures var (n1, t1) := OnTouchEnd(n, t, endX, endY);
            OnTouchEnd(n1, t1, endX2, endY2).0 == n1
  {
  }

  /** A swipe either leaves the navigation state alone or goes back from a
      screen that allows it; from every screen whose id is not an inherited
      object member, going back is going home. */
  lemma SwipeLeadsHomeOrNowhere(n: Nav, t: Touch, endX: int, endY: int)
    ensures var r := OnTouchEnd(n, t, endX, endY).0;
            r == n || (r == GoBack(n) && SwipeBackAllowed(n.currentScreen))
    ensures var r := OnTouchEnd(n, t, endX, endY).0;
            n.currentScreen !in ObjectPrototypeKeys ==> r == n || r == GoToHome(n)
  {
    GoBackIsGoToHome(n);
  }

  /** As written, a swipe that starts on the left edge (x = 0) or the top
      edge (y = 0) of the viewport is indistinguishable from "no touch" and
      is ignored, however long it is. */
  lemma EdgeSwipeIgnored(n: Nav, y: int, endX: int, endY: int)
    ensures OnTouchEnd(n, OnTouchStart(0, y), endX, endY) == (n, OnTouchStart(0, y))
    ensures OnTouchEnd(n, OnTouchStart(y, 0), endX, endY) == (n, OnTouchStart(y, 0))
  {
  }

  /** The keydown listener. Its three `if`s run in sequence; it returns
      the new navigation state and whether `preventDefault()` was called.
      Key names are case-sensitive. */
  function OnKeyDown(n: Nav, ctrl: bool, key: string): (r: (Nav, bool))
    ensures r.1 <==> ctrl && (key == "e" || key == "h" || key == "b")
    ensures !r.1 ==> r.0 == n
    ensures ctrl && key == "e" ==> r.0 == ShowEmergencyOptions(n)
    ensures ctrl && key == "h" ==> r.0 == GoToHome(n)
    ensures ctrl && key == "b" ==> r.0 == ShowScreen(n, BloodRequestScreen)
  {
    var afterE := if ctrl && key == "e" then ShowEmergencyOptions(n) else n;
    var afterH := if ctrl && key == "h" then ShowScreen(afterE, HomeScreen) else afterE;
    var afterB := if ctrl && key == "b" then ShowScreen(afterH, BloodRequestScreen) else afterH;
    (afterB, ctrl && (key == "e" || key == "h" || key == "b"))
  }

  lemma OnTouchEndPreservesConsistent(n: Nav, t: Touch, endX: int, endY: int)
    requires Consistent(n)
    ensures Consistent(OnTouchEnd(n, t, endX, endY).0)
  {
  }

  lemma OnKeyDownPreservesConsistent(n: Nav, ctrl: bool, key: string)
    requires Consistent(n)
    ensures Consistent(OnKeyDown(n, ctrl, key).0)
  {
  }
}

/**
  The floating clock-in/clock-out button shown to employees on small
  screens: what it renders, what a tap calls, and when it is visible while
  the page scrolls.
*/
module QuickActionFab {

  /** The button is rendered for the exact role 'employee' only. */
  predicate Rendered(userRole: string)
  {
    userRole == "employee"
  }

  /** The parent callback a tap calls. */
  datatype Call = ClockInCall | ClockOutCall

  /** `handlePrimaryAction`: clock out when clocked in, clock in otherwise. */
  function PrimaryAction(isClocked: bool): (c: Call)
    ensures c == ClockOutCall <==> isClocked
    ensures c == ClockInCall <==> !isClocked
  {
    if isClocked then ClockOutCall else ClockInCall
  }

  /** The three looks of the button. */
  datatype ActionConfig = Processing | ClockOutLook | ClockInLook

  /** `getPrimaryActionConfig`: loading wins over the clocked state. */
  function PrimaryConfig(isLoading: bool, isClocked: bool): (c: ActionConfig)
    ensures c == Processing <==> isLoading
    ensures c == ClockOutLook <==> !isLoading && isClocked
    ensures c == ClockInLook <==> !isLoading && !isClocked
  {
    if isLoading then Processing
    else if isClocked then ClockOutLook
    else ClockInLook
  }

  function ConfigIcon(c: ActionConfig): string
  {
    match c
    case Processing => "Loader2"
    case ClockOutLook => "LogOut"
    case ClockInLook => "LogIn"
  }

  /**
    The button is disabled exactly while loading; when it is enabled its
    icon names the call a tap makes.
  */
  lemma EnabledButtonShowsItsAction(isLoading: bool, isClocked: bool)
    ensures var icon := ConfigIcon(PrimaryConfig(isLoading, isClocked));
      (icon == "Loader2" <==> isLoading)
      && (!isLoading ==> (icon == "LogOut" <==> PrimaryAction(isClocked) == ClockOutCall))
  {
  }

  const MobileBreakpoint := 768
  const TopZone := 100

  /** The effect's `shouldShow`: an employee on a screen narrower than 768 pixels. */
  predicate ShouldShow(userRole: string, innerWidth: int)
  {
    userRole == "employee" && innerWidth < MobileBreakpoint
  }

  /** The scroll handler's rule: visible when scrolling up or near the top. */
  predicate ScrollVisible(scrollY: int, lastScrollY: int)
  {
    scrollY < lastScrollY || scrollY < TopZone
  }

  /** The component's state; the role and the width are fixed for its lifetime. */
  class Fab {
    const userRole: string
    const innerWidth: int
    var isVisible: bool
    var lastScrollY: int
    /** Whether the scroll listener is attached. */
    var listening: bool

    /** Mounting: the state starts hidden at 0, then the effect runs once. */
    constructor (role: string, width: int)
      ensures userRole == role && innerWidth == width && lastScrollY == 0
      ensures isVisible == ShouldShow(role, width) && listening == ShouldShow(role, width)
    {
      userRole := role;
      innerWidth := width;
      isVisible := false;
      lastScrollY := 0;
      listening := false;
      new;
      RunEffect();
    }

    /** The effect: visibility reset to `shouldShow`, and the listener attached only then. */
    method RunEffect()
      modifies this`isVisible, this`listening
      ensures isVisible == ShouldShow(userRole, innerWidth) && listening == ShouldShow(userRole, innerWidth)
    {
      var shouldShow := ShouldShow(userRole, innerWidth);
      isVisible := shouldShow;
      listening := shouldShow;
    }

    /** The scroll handler alone. */
    method HandleScroll(scrollY: int)
      requires listening
      modifies this`isVisible, this`lastScrollY
      ensures isVisible == ScrollVisible(scrollY, old(lastScrollY)) && lastScrollY == scrollY
    {
      isVisible := ScrollVisible(scrollY, lastScrollY);
      lastScrollY := scrollY;
    }

    /**
      A scroll event as the component is written: the handler runs, and
      because the effect depends on `lastScrollY`, a changed position runs
      the effect again, which resets the visibility to `shouldShow`.
    */
    method ScrollAsWritten(scrollY: int)
      requires listening
      modifies this`isVisible, this`lastScrollY, this`listening
      ensures lastScrollY == scrollY
      ensures scrollY != old(lastScrollY) ==> isVisible == ShouldShow(userRole, innerWidth)
      ensures scrollY == old(lastScrollY) ==> isVisible == ScrollVisible(scrollY, old(lastScrollY))
    {
      var previous := lastScrollY;
      HandleScroll(scrollY);
      if scrollY != previous {
        RunEffect();
      }
    }
  }

  /**
    As written, scrolling an employee's small screen down past the top
    zone leaves the button visible: the effect re-run undoes the hide.
  */
  method ScrollDownAsWritten() returns (visible: bool)
    ensures visible
  {
    var fab := new Fab("employee", 400);
    fab.ScrollAsWritten(300);
    visible := fab.isVisible;
  }

  /** With the handler alone deciding, the same scroll hides the button and scrolling back up shows it. */
  method ScrollDownCorrected() returns (afterDown: bool, afterUp: bool)
    ensures !afterDown && afterUp
  {
    var fab := new Fab("employee", 400);
    fab.HandleScroll(300);
    afterDown := fab.isVisible;
    fab.HandleScroll(250);
    afterUp := fab.isVisible;
  }

  /** A handled scroll hides the button exactly when scrolling down (or staying) below the top zone. */
  lemma ScrollHidesIffDownBelowTop(scrollY: int, lastScrollY: int)
    ensures !ScrollVisible(scrollY, lastScrollY) <==> scrollY >= lastScrollY && scrollY >= TopZone
  {
  }
}

/**
 * The state kept by public/mobile-utils.js: the responsive breakpoint of `ResponsiveUtils`, the
 * sidebar of `MobileNavigation` (hamburger button, sidebar panel, overlay and body scroll
 * lock, opened and closed by clicks, the Escape key and horizontal swipes), and the
 * double-tap guard of `TouchOptimizer.preventZoom`.
 *
 * Window widths, touch coordinates and times are integers (CSS pixels, milliseconds).
 */
module MobileUtils {

  datatype Breakpoint = Xs | Sm | Md | Lg | Xl

  /** Position of a breakpoint in the order xs < sm < md < lg < xl. */
  function Rank(b: Breakpoint): nat {
    match b
    case Xs => 0
    case Sm => 1
    case Md => 2
    case Lg => 3
    case Xl => 4
  }

  /** The smallest width of each breakpoint. */
  function MinWidth(b: Breakpoint): int {
    match b
    case Xs => 0
    case Sm => 480
    case Md => 768
    case Lg => 960
    case Xl => 1200
  }

  /** The breakpoint above `b` (xl has none). */
  function Next(b: Breakpoint): Breakpoint
    requires b != Xl
  {
    match b
    case Xs => Sm
    case Sm => Md
    case Md => Lg
    case Lg => Xl
  }

  /** `getBreakpoint()` for `window.innerWidth` = `width`. */
  function GetBreakpoint(width: int): (b: Breakpoint)
    ensures b != Xs ==> MinWidth(b) <= width
    ensures b != Xl ==> width < MinWidth(Next(b))
  {
    if width < 480 then Xs
    else if width < 768 then Sm
    else if width < 960 then Md
    else if width < 1200 then Lg
    else Xl
  }

  /** The breakpoints partition the widths: a non-negative width is in breakpoint `b` exactly
      when it is at least `b`'s smallest width and below the next one's. */
  lemma BreakpointRange(width: int, b: Breakpoint)
    requires width >= 0
    ensures GetBreakpoint(width) == b <==>
      MinWidth(b) <= width && (b == Xl || width < MinWidth(Next(b)))
  {
  }

  /** A wider window never has a smaller breakpoint. */
  lemma BreakpointMonotone(w1: int, w2: int)
    requires w1 <= w2
    ensures Rank(GetBreakpoint(w1)) <= Rank(GetBreakpoint(w2))
  {
  }

  predicate IsMobileBreakpoint(b: Breakpoint) {
    b == Xs || b == Sm
  }

  /** `adjustLayout(breakpoint)`: the `.container` grid's columns and rows. */
  function Layout(b: Breakpoint): (r: (string, string))
    ensures r.0 == "1fr" <==> Rank(b) <= Rank(Md)
  {
    match b
    case Xs => ("1fr", "auto auto 1fr")
    case Sm => ("1fr", "auto auto 1fr")
    case Md => ("1fr", "auto auto 1fr")
    case _ => ("220px 1fr", "220px 1fr")
  }

  /** The content `setupViewport` gives the viewport meta tag. */
  function ViewportContent(mobile: bool): string {
    if mobile then "width=device-width, initial-scale=1.0, maximum-scale=1.0, user-scalable=no"
    else "width=device-width, initial-scale=1.0"
  }

  /** `ResponsiveUtils`: the current breakpoint, the `breakpointchange` events dispatched so
      far, the container grid (when the page has a `.container`) and the viewport meta tag. */
  class ResponsiveUtils {
    var currentBreakpoint: Breakpoint
    var changes: seq<Breakpoint>
    const hasContainer: bool
    var columns: string
    var rows: string
    var viewport: string

    /** The breakpoint of the current width, and a viewport for it. */
    constructor (width: int, hasContainer: bool, columns: string, rows: string)
      ensures currentBreakpoint == GetBreakpoint(width) && changes == []
      ensures this.hasContainer == hasContainer && this.columns == columns && this.rows == rows
      ensures viewport == ViewportContent(IsMobileBreakpoint(GetBreakpoint(width)))
    {
      currentBreakpoint := GetBreakpoint(width);
      changes := [];
      this.hasContainer := hasContainer;
      this.columns := columns;
      this.rows := rows;
      viewport := ViewportContent(IsMobileBreakpoint(GetBreakpoint(width)));
    }

    /** `isMobile()`. */
    predicate IsMobile()
      reads this
    {
      IsMobileBreakpoint(currentBreakpoint)
    }

    /** `handleResize()` at a new width: only a different breakpoint is recorded, dispatched
        and laid out; the same breakpoint changes nothing. */
    method HandleResize(width: int)
      modifies this
      ensures var b := GetBreakpoint(width);
        if b != old(currentBreakpoint) then
          && currentBreakpoint == b
          && changes == old(changes) + [b]
          && (hasContainer ==> (columns, rows) == Layout(b))
          && (!hasContainer ==> columns == old(columns) && rows == old(rows))
        else
          currentBreakpoint == old(currentBreakpoint) && changes == old(changes)
          && columns == old(columns) && rows == old(rows)
      ensures viewport == old(viewport)
    {
      var b := GetBreakpoint(width);
      if b != currentBreakpoint {
        currentBreakpoint := b;
        changes := changes + [b];
        if hasContainer {
          columns, rows := Layout(b).0, Layout(b).1;
        }
      }
    }
  }

  function Abs(x: int): nat {
    if x < 0 then -x else x
  }

  /** The touch positions `initTouchGestures` tracks between events. */
  datatype Touch = Touch(startX: int, startY: int, currentX: int, currentY: int)

  const MIN_SWIPE_DISTANCE := 50

  /** The sidebar state after a `touchend`: a mostly horizontal swipe of more than 50 pixels to
      the right that starts within 50 pixels of the left edge opens the sidebar, one of more than
      50 pixels to the left closes it, and nothing else changes it. */
  function Swipe(t: Touch, isOpen: bool): (open: bool)
    ensures open && !isOpen ==>
      t.currentX - t.startX > MIN_SWIPE_DISTANCE && Abs(t.currentY - t.startY) < Abs(t.currentX - t.startX) && t.startX < 50
    ensures !open && isOpen ==>
      t.currentX - t.startX < -MIN_SWIPE_DISTANCE && Abs(t.currentY - t.startY) < Abs(t.currentX - t.startX)
    ensures Abs(t.currentY - t.startY) >= Abs(t.currentX - t.startX) ==> open == isOpen
  {
    var dx := t.currentX - t.startX;
    var dy := t.currentY - t.startY;
    if dx > MIN_SWIPE_DISTANCE && Abs(dy) < Abs(dx) && t.startX < 50 then
      true
    else if dx < -MIN_SWIPE_DISTANCE && Abs(dy) < Abs(dx) && isOpen then
      false
    else isOpen
  }

  /** The qualifying swipes do what they are meant to. */
  lemma SwipeOpensAndCloses(t: Touch, isOpen: bool)
    ensures var dx := t.currentX - t.startX; var dy := t.currentY - t.startY;
      dx > MIN_SWIPE_DISTANCE && Abs(dy) < Abs(dx) && t.startX < 50 ==> Swipe(t, isOpen)
    ensures var dx := t.currentX - t.startX; var dy := t.currentY - t.startY;
      dx < -MIN_SWIPE_DISTANCE && Abs(dy) < Abs(dx) ==> !Swipe(t, isOpen)
  {
  }

  /** `touchstart` as written: only the start position is recorded, so the current position
      is still the one the previous gesture ended at. */
  function TouchStartAsWritten(t: Touch, x: int, y: int): (r: Touch)
    ensures r.startX == x && r.startY == y
    ensures r.currentX == t.currentX && r.currentY == t.currentY
  {
    t.(startX := x, startY := y)
  }

  /** As written, a tap (a `touchstart` and a `touchend` with no `touchmove` between them) near
      the left edge after a longer gesture is taken for a swipe and opens the sidebar. */
  lemma TapAfterGestureOpens()
    ensures var before := Touch(200, 100, 300, 100);
      !Swipe(before, false) && Swipe(TouchStartAsWritten(before, 10, 100), false)
  {
  }

  /** `touchstart` that also resets the current position to the start. */
  function TouchStart(t: Touch, x: int, y: int): (r: Touch)
    ensures r.startX == x && r.startY == y
    ensures r.currentX == r.startX && r.currentY == r.startY
  {
    Touch(x, y, x, y)
  }

  /** `touchmove`: the current position follows the finger. */
  function TouchMove(t: Touch, x: int, y: int): Touch {
    t.(currentX := x, currentY := y)
  }

  /** With the reset, a tap never opens or closes the sidebar, whatever came before it. */
  lemma TapNeverToggles(t: Touch, x: int, y: int, isOpen: bool)
    ensures Swipe(TouchStart(t, x, y), isOpen) == isOpen
  {
  }

  /** A swipe is decided by its own start and end points only. */
  lemma SwipeOwnPoints(t: Touch, u: Touch, x0: int, y0: int, x1: int, y1: int, isOpen: bool)
    ensures Swipe(TouchMove(TouchStart(t, x0, y0), x1, y1), isOpen) ==
            Swipe(TouchMove(TouchStart(u, x0, y0), x1, y1), isOpen)
  {
  }

  /** `MobileNavigation`: the sidebar's open flag and the page state it drives. `bound` is
      whether the hamburger, sidebar and overlay elements exist, without which no listener
      is installed. */
  class MobileNavigation {
    const bound: bool
    var isOpen: bool
    var hamburgerActive: bool
    var sidebarActive: bool
    var overlayActive: bool
    var bodyOverflow: string
    var sidebarTransform: string
    var touch: Touch

    /** The page state agrees with the open flag (true after every open and close). */
    predicate Shows()
      reads this
    {
      && hamburgerActive == isOpen && sidebarActive == isOpen && overlayActive == isOpen
      && bodyOverflow == (if isOpen then "hidden" else "")
      && sidebarTransform == (if isOpen then "translateX(0)" else "translateX(-100%)")
    }

    /** Starts closed; the page state is whatever the markup has, and no touch has been seen
        (all positions 0). */
    constructor (bound: bool, hamburgerActive: bool, sidebarActive: bool, overlayActive: bool,
                 bodyOverflow: string, sidebarTransform: string)
      ensures this.bound == bound && !isOpen && touch == Touch(0, 0, 0, 0)
      ensures this.hamburgerActive == hamburgerActive && this.sidebarActive == sidebarActive
      ensures this.overlayActive == overlayActive && this.bodyOverflow == bodyOverflow
      ensures this.sidebarTransform == sidebarTransform
    {
      this.bound := bound;
      isOpen := false;
      this.hamburgerActive := hamburgerActive;
      this.sidebarActive := sidebarActive;
      this.overlayActive := overlayActive;
      this.bodyOverflow := bodyOverflow;
      this.sidebarTransform := sidebarTransform;
      touch := Touch(0, 0, 0, 0);
    }

    /** `openSidebar()`. */
    method OpenSidebar()
      modifies this
      ensures isOpen && Shows() && touch == old(touch)
    {
      hamburgerActive, sidebarActive, overlayActive := true, true, true;
      bodyOverflow := "hidden";
      isOpen := true;
      sidebarTransform := "translateX(0)";
    }

    /** `closeSidebar()`. */
    method CloseSidebar()
      modifies this
      ensures !isOpen && Shows() && touch == old(touch)
    {
      hamburgerActive, sidebarActive, overlayActive := false, false, false;
      bodyOverflow := "";
      isOpen := false;
      sidebarTransform := "translateX(-100%)";
    }

    /** `toggleSidebar()`: flips the open flag. */
    method ToggleSidebar()
      modifies this
      ensures isOpen == !old(isOpen) && Shows() && touch == old(touch)
    {
      if isOpen {
        CloseSidebar();
      } else {
        OpenSidebar();
      }
    }

    /** A click on the hamburger button toggles the sidebar. */
    method ClickHamburger()
      modifies this
      ensures bound ==> isOpen == !old(isOpen) && Shows()
      ensures !bound ==> unchanged(this)
    {
      if bound {
        ToggleSidebar();
      }
    }

    /** A click on the overlay closes the sidebar. */
    method ClickOverlay()
      modifies this
      ensures bound ==> !isOpen && Shows()
      ensures !bound ==> unchanged(this)
    {
      if bound {
        CloseSidebar();
      }
    }

    /** Escape closes an open sidebar; any other key, or a closed sidebar, changes nothing. */
    method KeyDown(key: string)
      modifies this
      ensures bound && key == "Escape" && old(isOpen) ==> !isOpen && Shows()
      ensures !(bound && key == "Escape" && old(isOpen)) ==> unchanged(this)
    {
      if bound && key == "Escape" && isOpen {
        CloseSidebar();
      }
    }

    /** `touchstart` as the page installs it: only the start position is recorded. */
    method OnTouchStart(x: int, y: int)
      modifies this
      ensures bound ==> touch == TouchStartAsWritten(old(touch), x, y)
      ensures !bound ==> touch == old(touch)
      ensures isOpen == old(isOpen)
    {
      if bound {
        touch := TouchStartAsWritten(touch, x, y);
      }
    }

    /** `touchmove`: the current position follows the finger. */
    method OnTouchMove(x: int, y: int)
      modifies this
      ensures bound ==> touch == TouchMove(old(touch), x, y)
      ensures !bound ==> touch == old(touch)
      ensures isOpen == old(isOpen)
    {
      if bound {
        touch := TouchMove(touch, x, y);
      }
    }

    /** `touchend`: the sidebar opens or closes as `Swipe` decides, and is otherwise left as
        it is (page state included). */
    method OnTouchEnd()
      modifies this
      ensures bound && Swipe(touch, old(isOpen)) != old(isOpen) ==> isOpen == Swipe(touch, old(isOpen)) && Shows()
      ensures !(bound && Swipe(touch, old(isOpen)) != old(isOpen)) ==> unchanged(this)
      ensures touch == old(touch)
    {
      if bound {
        var open := Swipe(touch, isOpen);
        if open && !isOpen {
          OpenSidebar();
        } else if !open && isOpen {
          CloseSidebar();
        }
      }
    }
  }

  /** `preventZoom`: the time of the previous `touchend` (0 before the first). */
  class TouchOptimizer {
    var lastTouchEnd: int

    constructor ()
      ensures lastTouchEnd == 0
    {
      lastTouchEnd := 0;
    }

    /** A `touchend` at `now`: its default action is prevented when it comes within 300 ms of
        the previous one, and `now` becomes the previous one either way. */
    method TouchEnd(now: int) returns (prevented: bool)
      modifies this
      ensures prevented <==> now - old(lastTouchEnd) <= 300
      ensures lastTouchEnd == now
    {
      prevented := now - lastTouchEnd <= 300;
      lastTouchEnd := now;
    }
  }
}

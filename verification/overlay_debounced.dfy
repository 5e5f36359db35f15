/**
 * The cover-zoom overlay of the second grid button: gaining focus starts a
 * single-shot debounce timer, the overlay is only made when the timer fires
 * while the tile still has focus, and closing detaches the overlay at once.
 */
module DebouncedOverlay {
  import opened Values
  import opened Geometry

  /** Delay before the overlay is made, in milliseconds (`DEBOUNCE_DELAY`). */
  const DebounceDelay: nat := 100

  datatype Timer = Timer(singleShot: bool, intervalMs: nat, active: bool)

  /**
   * A tile's overlay state. `overlay` holds the end rectangle of the
   * attached overlay's zoom-in; `closing` counts detached overlays still
   * zooming out; `created` and `destroyed` count overlay widgets made and
   * deleted over the tile's life.
   */
  datatype Tile = Tile(focused: bool, timer: Timer, overlay: Option<Rect>, closing: nat, created: nat, destroyed: nat)

  /**
   * What can happen to a tile. `Timeout` is the debounce timer firing, with
   * whether the icon's pixmap is null and the button's centre in window
   * coordinates; `ExitFinished` is one detached overlay's zoom-out ending.
   */
  datatype Event = FocusIn | Timeout(iconNull: bool, centre: Point) | FocusOut | ExitFinished

  /** A new tile: a stopped single-shot timer of `DebounceDelay` ms and no overlay. */
  const Initial: Tile := Tile(false, Timer(true, DebounceDelay, false), None, 0, 0, 0)

  predicate Enabled(s: Tile, e: Event) {
    match e
    case FocusIn => !s.focused
    case Timeout(_, _) => s.timer.active
    case FocusOut => s.focused
    case ExitFinished => s.closing > 0
  }

  /** `focusInEvent`: takes focus and (re)starts the debounce timer; nothing else. */
  function FocusInEvent(s: Tile): (t: Tile)
    ensures t.focused && t.timer == s.timer.(active := true)
    ensures t.overlay == s.overlay && t.closing == s.closing
    ensures t.created == s.created && t.destroyed == s.destroyed
  {
    s.(focused := true, timer := s.timer.(active := true))
  }

  /**
   * `_show_overlay_safe`: makes an overlay zooming to the cover-sized
   * rectangle around the centre only when the tile still has focus and the
   * icon's pixmap is not null.
   */
  function ShowOverlaySafe(s: Tile, iconNull: bool, centre: Point): (t: Tile)
    ensures s.focused && !iconNull ==>
      t.overlay == Some(CoverOverlay(centre)) && t.created == s.created + 1
    ensures !(s.focused && !iconNull) ==> t == s
    ensures t.timer == s.timer && t.focused == s.focused && t.closing == s.closing && t.destroyed == s.destroyed
  {
    if !s.focused || iconNull then s
    else s.(overlay := Some(CoverOverlay(centre)), created := s.created + 1)
  }

  /** The single-shot timer fires: it stops, then runs `_show_overlay_safe`. */
  function TimeoutEvent(s: Tile, iconNull: bool, centre: Point): (t: Tile)
    ensures t.timer == s.timer.(active := false)
    ensures t.created == s.created + (if s.focused && !iconNull then 1 else 0)
    ensures s.focused && !iconNull ==> t.overlay == Some(CoverOverlay(centre))
    ensures t.overlay != s.overlay ==> s.focused && !iconNull
    ensures t.focused == s.focused && t.closing == s.closing && t.destroyed == s.destroyed
  {
    ShowOverlaySafe(s.(timer := s.timer.(active := false)), iconNull, centre)
  }

  /**
   * `_close_overlay`: with no overlay it changes nothing; otherwise it
   * detaches the overlay at once and leaves it zooming out on its own.
   */
  function CloseOverlay(s: Tile): (t: Tile)
    ensures t.overlay.None?
    ensures s.overlay.None? ==> t == s
    ensures s.overlay.Some? ==> t.closing == s.closing + 1
    ensures t.focused == s.focused && t.timer == s.timer && t.created == s.created && t.destroyed == s.destroyed
  {
    if s.overlay.None? then s
    else s.(overlay := None, closing := s.closing + 1)
  }

  /** `focusOutEvent`: gives up focus, stops a pending timer and closes the overlay. */
  function FocusOutEvent(s: Tile): (t: Tile)
    ensures !t.focused && t.timer == s.timer.(active := false) && t.overlay.None?
    ensures t.closing == s.closing + (if s.overlay.Some? then 1 else 0)
    ensures t.created == s.created && t.destroyed == s.destroyed
  {
    CloseOverlay(s.(focused := false, timer := s.timer.(active := false)))
  }

  /** A detached overlay's zoom-out ends: it is hidden and deleted. */
  function ExitFinishedEvent(s: Tile): (t: Tile)
    requires s.closing > 0
    ensures t.closing == s.closing - 1 && t.destroyed == s.destroyed + 1
    ensures t.overlay == s.overlay && t.focused == s.focused && t.timer == s.timer
    ensures t.created == s.created
  {
    s.(closing := s.closing - 1, destroyed := s.destroyed + 1)
  }

  function Step(s: Tile, e: Event): Tile
    requires Enabled(s, e)
  {
    match e
    case FocusIn => FocusInEvent(s)
    case Timeout(iconNull, centre) => TimeoutEvent(s, iconNull, centre)
    case FocusOut => FocusOutEvent(s)
    case ExitFinished => ExitFinishedEvent(s)
  }

  /** Runs a sequence of events; `None` if some event cannot happen when it arrives. */
  function Run(s: Tile, es: seq<Event>): Option<Tile>
    decreases |es|
  {
    if es == [] then Some(s)
    else if Enabled(s, es[0]) then Run(Step(s, es[0]), es[1..])
    else None
  }

  /**
   * The timer stays a single-shot timer of `DebounceDelay` ms; a running
   * timer or an attached overlay means the tile has focus; the two never
   * coexist; and the live overlay widgets are the attached one plus those
   * still zooming out.
   */
  predicate Inv(s: Tile) {
    && s.timer.singleShot && s.timer.intervalMs == DebounceDelay
    && (s.timer.active ==> s.focused && s.overlay.None?)
    && (s.overlay.Some? ==> s.focused)
    && s.created == s.destroyed + s.closing + (if s.overlay.Some? then 1 else 0)
  }

  lemma StepPreservesInv(s: Tile, e: Event)
    requires Inv(s) && Enabled(s, e)
    ensures Inv(Step(s, e))
  {
  }

  lemma {:induction false} RunPreservesInv(s: Tile, es: seq<Event>)
    requires Inv(s)
    ensures Run(s, es).Some? ==> Inv(Run(s, es).value)
    decreases |es|
  {
    if es != [] && Enabled(s, es[0]) {
      StepPreservesInv(s, es[0]);
      RunPreservesInv(Step(s, es[0]), es[1..]);
    }
  }

  /**
   * Every tile reachable from a new one keeps the invariant: in particular
   * its timer is still a single-shot timer of `DebounceDelay` ms, and a
   * running timer and an attached overlay never coexist.
   */
  lemma ReachableTilesKeepInv(es: seq<Event>)
    ensures Run(Initial, es).Some? ==> Inv(Run(Initial, es).value)
    ensures Run(Initial, es).Some? ==>
      Run(Initial, es).value.timer.singleShot && Run(Initial, es).value.timer.intervalMs == DebounceDelay
  {
    RunPreservesInv(Initial, es);
  }

  /**
   * When the timer fires there is never an attached overlay to lose, so a
   * tile has at most one attached overlay and never orphans one.
   */
  lemma TimeoutNeverReplacesOverlay(s: Tile, iconNull: bool, centre: Point)
    requires Inv(s) && Enabled(s, Timeout(iconNull, centre))
    ensures s.overlay.None?
  {
  }

  /** Passing over a tile faster than the debounce delay makes no overlay. */
  lemma QuickPassMakesNoOverlay(s: Tile)
    requires Inv(s) && !s.focused
    ensures var t := Step(Step(s, FocusIn), FocusOut);
      t.created == s.created && t.overlay.None? && !t.timer.active && t.closing == s.closing
  {
  }

  /** More generally, overlays are only ever made when the timer fires. */
  lemma {:induction false} NoTimeoutNoOverlay(s: Tile, es: seq<Event>)
    requires forall k :: 0 <= k < |es| ==> !es[k].Timeout?
    ensures Run(s, es).Some? ==> Run(s, es).value.created == s.created
    decreases |es|
  {
    if es != [] && Enabled(s, es[0]) {
      NoTimeoutNoOverlay(Step(s, es[0]), es[1..]);
    }
  }

  /**
   * Unlike the first grid button, an attached overlay and one still zooming
   * out can both be alive: two overlay widgets for one tile. The model has
   * no clock; in real time the 100 ms zoom-out starts at focus-out while the
   * 100 ms debounce starts only at the next focus-in, so this run needs the
   * tile to regain focus within about one animation frame of losing it.
   */
  lemma TwoOverlaysCanBeAlive(centre: Point)
    ensures var es := [FocusIn, Timeout(false, centre), FocusOut, FocusIn, Timeout(false, centre)];
      Run(Initial, es).Some? && Run(Initial, es).value.created - Run(Initial, es).value.destroyed == 2
  {
    var es := [FocusIn, Timeout(false, centre), FocusOut, FocusIn, Timeout(false, centre)];
    var s1 := Step(Initial, es[0]);
    var s2 := Step(s1, es[1]);
    var s3 := Step(s2, es[2]);
    var s4 := Step(s3, es[3]);
    var s5 := Step(s4, es[4]);
    assert s5.created == 2 && s5.destroyed == 0;
    assert Run(s5, es[5..]) == Some(s5);
    assert Run(s4, es[4..]) == Run(s5, es[5..]);
    assert Run(s3, es[3..]) == Run(s4, es[4..]);
    assert Run(s2, es[2..]) == Run(s3, es[3..]);
    assert Run(s1, es[1..]) == Run(s2, es[2..]);
  }
}

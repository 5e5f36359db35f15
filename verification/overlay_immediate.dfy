/**
 * The cover-zoom overlay of the first grid button: the overlay is created as
 * soon as the tile gains focus, and the tile keeps its reference until the
 * zoom-out animation has finished.
 */
module ImmediateOverlay {
  import opened Values
  import opened Geometry

  /**
   * A tile's overlay state. `overlay` holds the end rectangle of the
   * referenced overlay's current geometry animation; `exiting` says a
   * zoom-out animation is under way; `created` and `destroyed` count overlay
   * widgets made and deleted over the tile's life.
   */
  datatype Tile = Tile(focused: bool, overlay: Option<Rect>, exiting: bool, created: nat, destroyed: nat)

  /**
   * What can happen to a tile. `iconNull` says the button's icon is null;
   * `centre` is the button's centre and `button` its rectangle, both in
   * window coordinates.
   */
  datatype Event = FocusIn(iconNull: bool, centre: Point) | FocusOut(button: Rect) | ExitFinished

  const Initial: Tile := Tile(false, None, false, 0, 0)

  /**
   * Focus alternates between in and out, and an animation can only finish
   * once it has been started.
   */
  predicate Enabled(s: Tile, e: Event) {
    match e
    case FocusIn(_, _) => !s.focused
    case FocusOut(_) => s.focused
    case ExitFinished => s.exiting
  }

  /**
   * `focusInEvent`: does nothing more than take focus when an overlay is
   * already referenced or the icon is null; otherwise makes one overlay
   * zooming to the cover-sized rectangle around the button's centre.
   */
  function FocusInEvent(s: Tile, iconNull: bool, centre: Point): (t: Tile)
    ensures t.focused
    ensures s.overlay.Some? || iconNull ==> t == s.(focused := true)
    ensures s.overlay.None? && !iconNull ==>
      t.overlay == Some(CoverOverlay(centre)) && !t.exiting &&
      t.created == s.created + 1 && t.destroyed == s.destroyed
  {
    if s.overlay.Some? || iconNull then s.(focused := true)
    else s.(focused := true, overlay := Some(CoverOverlay(centre)), exiting := false, created := s.created + 1)
  }

  /**
   * `focusOutEvent`: starts the zoom-out back to the button's rectangle;
   * the overlay stays referenced until that animation finishes.
   */
  function FocusOutEvent(s: Tile, button: Rect): (t: Tile)
    ensures !t.focused
    ensures s.overlay.None? ==> t == s.(focused := false)
    ensures s.overlay.Some? ==> t.overlay == Some(button) && t.exiting
    ensures t.created == s.created && t.destroyed == s.destroyed
  {
    if s.overlay.None? then s.(focused := false)
    else s.(focused := false, overlay := Some(button), exiting := true)
  }

  /**
   * The zoom-out's `finished` callback: hides and deletes the overlay and
   * drops the reference. Every zoom-out animation is a child of the overlay,
   * so deleting the overlay also ends any other zoom-out still pending.
   */
  function ExitFinishedEvent(s: Tile): (t: Tile)
    ensures t.overlay.None? && !t.exiting
    ensures t.focused == s.focused && t.created == s.created
    ensures t.destroyed == s.destroyed + (if s.overlay.Some? then 1 else 0)
  {
    s.(overlay := None, exiting := false,
       destroyed := s.destroyed + (if s.overlay.Some? then 1 else 0))
  }

  function Step(s: Tile, e: Event): Tile
    requires Enabled(s, e)
  {
    match e
    case FocusIn(iconNull, centre) => FocusInEvent(s, iconNull, centre)
    case FocusOut(button) => FocusOutEvent(s, button)
    case ExitFinished => ExitFinishedEvent(s)
  }

  /** Runs a sequence of events; `None` if some event cannot happen when it arrives. */
  function Run(s: Tile, es: seq<Event>): Option<Tile>
    decreases |es|
  {
    if es == [] then Some(s)
    else if Enabled(s, es[0]) then Run(Step(s, es[0]), es[1..])
    else None
  }

  /**
   * A zoom-out is only ever running on a referenced overlay, and exactly the
   * referenced overlay is alive: at most one overlay widget per tile.
   */
  predicate Inv(s: Tile) {
    && (s.exiting ==> s.overlay.Some?)
    && s.created == s.destroyed + (if s.overlay.Some? then 1 else 0)
  }

  lemma StepPreservesInv(s: Tile, e: Event)
    requires Inv(s) && Enabled(s, e)
    ensures Inv(Step(s, e))
  {
  }

  lemma {:induction false} RunPreservesInv(s: Tile, es: seq<Event>)
    requires Inv(s)
    ensures Run(s, es).Some? ==> Inv(Run(s, es).value)
    decreases |es|
  {
    if es != [] && Enabled(s, es[0]) {
      StepPreservesInv(s, es[0]);
      RunPreservesInv(Step(s, es[0]), es[1..]);
    }
  }

  /** From a fresh tile, whatever happens, at most one overlay widget is alive. */
  lemma AtMostOneOverlay(es: seq<Event>)
    ensures Run(Initial, es).Some? ==> Run(Initial, es).value.created - Run(Initial, es).value.destroyed <= 1
  {
    RunPreservesInv(Initial, es);
  }

  /** Only the zoom-out's `finished` callback drops the overlay reference. */
  lemma OnlyExitFinishedDropsOverlay(s: Tile, e: Event)
    requires Enabled(s, e) && s.overlay.Some? && !e.ExitFinished?
    ensures Step(s, e).overlay.Some?
  {
  }

  /**
   * Focus that comes back while the overlay is still zooming out gets no
   * zoom of its own: once the zoom-out finishes, the tile holds focus with
   * no overlay.
   */
  lemma RefocusDuringExit(centre: Point, button: Rect)
    ensures var es := [FocusIn(false, centre), FocusOut(button), FocusIn(false, centre), ExitFinished];
      Run(Initial, es) == Some(Tile(true, None, false, 1, 1))
  {
    var es := [FocusIn(false, centre), FocusOut(button), FocusIn(false, centre), ExitFinished];
    var s1 := Step(Initial, es[0]);
    var s2 := Step(s1, es[1]);
    var s3 := Step(s2, es[2]);
    var s4 := Step(s3, es[3]);
    assert s4 == Tile(true, None, false, 1, 1);
    assert Run(s4, es[4..]) == Some(s4);
    assert Run(s3, es[3..]) == Run(s4, es[4..]);
    assert Run(s2, es[2..]) == Run(s3, es[3..]);
    assert Run(s1, es[1..]) == Run(s2, es[2..]);
  }
}

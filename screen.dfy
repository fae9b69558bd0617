/**
 * The display loop of `main`: it receives parts from the frame source and
 * ticks from the `blank` ticker. A received part re-arms the ticker to the
 * blank duration before it is decoded; a decoded part is drawn through
 * `toPixbuf` and shown in place of the "Connecting..." label; a tick hides
 * the image and shows the label again. GTK is reduced to the two visibility
 * flags and the pixbuf the image widget shows; the JPEG decoder to its
 * result; the ticker to the time left until it fires.
 */
module Screen {
  import opened Wrappers
  import opened DoubleBuffer

  /** `time.Second`, as a `time.Duration` in nanoseconds. */
  const Second: nat := 1_000_000_000

  /** `BlankDuration`. */
  const BlankDuration: nat := 15 * Second

  /** An event of the display loop: a part received and decoded (or not), or time passing. */
  datatype Event = Received(decoded: Option<Image>) | Elapsed(dt: nat)

  /** The number of `Elapsed` events in `events`: only time passing can fire the ticker. */
  function ElapsedEvents(events: seq<Event>): nat {
    if events == [] then 0
    else ElapsedEvents(events[..|events| - 1]) + (if events[|events| - 1].Elapsed? then 1 else 0)
  }

  class Display {
    var connectingVisible: bool
    var imageVisible: bool
    /** The pixbuf the image widget was last set from; null while it shows none. */
    var shown: Raster?
    /** The period of the `blank` ticker. */
    var period: nat
    /** The time left until the `blank` ticker next fires. */
    var remaining: nat
    /** The globals `buf1` and `buf2` that `toPixbuf` manages. */
    const rasters: RasterPair

    ghost var Repr: set<object>
    /** Whether a part has been received yet, and how its decode went. */
    ghost var anyPart: bool
    ghost var lastDecoded: bool
    /** The time since the last part was received. */
    ghost var sincePart: nat

    /**
     * Exactly one of the label and the image is visible; the image widget
     * shows the raster `toPixbuf` returned last, which is `buf2`; the ticker
     * runs at one second until the first part and at the blank duration
     * after it. The image is visible only within the blank duration of the
     * last part, and is visible throughout that time if that part decoded.
     */
    ghost predicate Valid()
      reads this, Repr
    {
      && this in Repr && rasters in Repr
      && (rasters.buf1 != null ==> rasters.buf1 in Repr)
      && (rasters.buf2 != null ==> rasters.buf2 in Repr)
      && rasters.Valid()
      && connectingVisible != imageVisible
      && (shown == null <==> rasters.buf1 == null)
      && (shown != null ==> shown == rasters.buf2)
      && (imageVisible ==> shown != null)
      && 0 < remaining <= period
      && period == (if anyPart then BlankDuration else Second)
      && (anyPart && sincePart < BlankDuration ==> remaining == BlankDuration - sincePart)
      && (imageVisible ==> anyPart && sincePart < BlankDuration)
      && (anyPart && lastDecoded && sincePart < BlankDuration ==> imageVisible)
    }

    /**
     * The widgets as built: the label visible, the image hidden and empty,
     * the rasters not yet allocated, and a one-second ticker.
     */
    constructor ()
      ensures Valid() && fresh(Repr)
      ensures connectingVisible && !imageVisible && shown == null
      ensures period == Second && remaining == Second
      ensures rasters.buf1 == null && rasters.buf2 == null
    {
      connectingVisible, imageVisible, shown := true, false, null;
      period, remaining := Second, Second;
      rasters := new RasterPair();
      anyPart, lastDecoded, sincePart := false, false, 0;
      new;
      Repr := {this, rasters};
    }

    /**
     * The `case b := <-parts` branch. The ticker is re-armed to the blank
     * duration whatever the decode gives. A failed decode changes nothing
     * else. A successful one is drawn by `toPixbuf` and shown: the label is
     * hidden, the image is visible and shows the returned raster, which is
     * not the raster shown before, and that raster's pixels are not written.
     */
    method OnPart(decoded: Option<Image>)
      requires Valid()
      modifies Repr
      ensures Valid() && fresh(Repr - old(Repr))
      ensures period == BlankDuration && remaining == BlankDuration
      ensures decoded.None? ==>
        && connectingVisible == old(connectingVisible) && imageVisible == old(imageVisible)
        && shown == old(shown) && rasters.buf1 == old(rasters.buf1) && rasters.buf2 == old(rasters.buf2)
        && (shown != null ==> shown.frame == old(shown.frame))
        && (rasters.buf1 != null ==> rasters.buf1.frame == old(rasters.buf1.frame))
      ensures decoded.Some? ==>
        && !connectingVisible && imageVisible
        && shown != null && shown == rasters.buf2 && shown.frame == Some(decoded.value)
      ensures decoded.Some? && old(shown) != null ==>
        && shown != old(shown) && old(shown).frame == old(shown.frame)
        && rasters.allocations == old(rasters.allocations)
    {
      period, remaining := BlankDuration, BlankDuration;  // blank.Reset(BlankDuration)
      anyPart, lastDecoded, sincePart := true, decoded.Some?, 0;
      if decoded.Some? {
        var pb := rasters.ToPixbuf(decoded.value);
        Repr := Repr + {rasters.buf1, pb};
        connectingVisible := false;
        imageVisible := true;
        shown := pb;
      }
    }

    /** The `case <-blank.C` branch: the image is hidden and the label shown. */
    method OnTick()
      modifies this`imageVisible, this`connectingVisible
      ensures !imageVisible && connectingVisible
    {
      imageVisible := false;
      connectingVisible := true;
    }

    /**
     * Time `dt` passes. The ticker fires when its time left runs out; ticks
     * that fall due while one is pending are dropped, so it is handled once,
     * and the ticker keeps its phase. Nothing else changes without a tick.
     */
    method Advance(dt: nat) returns (ticked: bool)
      requires Valid()
      modifies this
      ensures Valid() && Repr == old(Repr)
      ensures ticked == (dt >= old(remaining))
      ensures ticked ==> !imageVisible && connectingVisible && remaining == period - (dt - old(remaining)) % period
      ensures !ticked ==>
        imageVisible == old(imageVisible) && connectingVisible == old(connectingVisible)
        && remaining == old(remaining) - dt
      ensures shown == old(shown) && period == old(period)
    {
      if dt < remaining {
        remaining := remaining - dt;
        ticked := false;
      } else {
        remaining := period - (dt - remaining) % period;
        ticked := true;
        OnTick();
      }
      sincePart := sincePart + dt;
    }

    /**
     * The `for { select { ... } }` loop over a run of events. Every event
     * keeps exactly one widget visible, and the image never stays visible
     * longer than the blank duration after the last part. `ticks` counts
     * the ticks handled, at most one per `Elapsed` event.
     */
    method Run(events: seq<Event>) returns (ticks: nat)
      requires Valid()
      modifies Repr
      ensures Valid() && fresh(Repr - old(Repr))
      ensures ticks <= ElapsedEvents(events)
      ensures connectingVisible != imageVisible
    {
      ticks := 0;
      var i := 0;
      while i < |events|
        invariant i <= |events| && ticks <= ElapsedEvents(events[..i])
        invariant Valid() && fresh(Repr - old(Repr))
      {
        match events[i] {
          case Received(decoded) =>
            OnPart(decoded);
          case Elapsed(dt) =>
            var ticked := Advance(dt);
            if ticked {
              ticks := ticks + 1;
            }
        }
        assert events[..i + 1][..i] == events[..i];
        i := i + 1;
      }
      assert events[..|events|] == events;
    }
  }

  /**
   * The idle scenario: frames at 0 s and 5 s with a 15 s blank duration.
   * No tick before 20 s, the frame stays visible at 19 s, and the display
   * blanks at 20 s.
   */
  method IdleScenario(frame: Image) returns (tickBy5: bool, tickBy19: bool, shownAt19: bool, tickAt20: bool, blankAt20: bool)
    ensures !tickBy5 && !tickBy19 && shownAt19
    ensures tickAt20 && blankAt20
  {
    var d := new Display();
    d.OnPart(Some(frame));
    tickBy5 := d.Advance(5 * Second);
    d.OnPart(Some(frame));
    tickBy19 := d.Advance(14 * Second);
    shownAt19 := d.imageVisible && d.shown != null && d.shown.frame == Some(frame);
    tickAt20 := d.Advance(Second);
    blankAt20 := d.connectingVisible && !d.imageVisible;
  }

  /**
   * A part that fails to decode still re-arms the ticker and leaves the
   * picture alone: after a frame at 0 s and an undecodable part at 10 s, the
   * image widget still shows that frame at 24 s.
   */
  method UndecodableKeepsFrame(frame: Image) returns (tickBy24: bool, shownAt24: bool)
    ensures !tickBy24 && shownAt24
  {
    var d := new Display();
    d.OnPart(Some(frame));
    var t := d.Advance(10 * Second);
    d.OnPart(None);
    tickBy24 := d.Advance(14 * Second);
    tickBy24 := t || tickBy24;
    shownAt24 := d.imageVisible && d.shown != null && d.shown.frame == Some(frame);
  }
}

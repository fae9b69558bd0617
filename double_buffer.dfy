/**
 * The double-buffered raster pair behind `toPixbuf`: two package-level
 * buffers `buf1` and `buf2`, allocated together on the first call and
 * swapped on every call, so that the raster handed to the renderer is never
 * the one the renderer received on the previous call.
 */
module DoubleBuffer {
  import opened Wrappers

  /** An image rectangle, `image.Rectangle`: the points (x, y) with min <= (x, y) < max. */
  datatype Rect = Rect(minX: int, minY: int, maxX: int, maxY: int)

  /** One 32-bit RGBA pixel; the pixel layout is not modelled. */
  type Pixel = bv32

  /** A decoded frame as the JPEG decoder returns it: its bounds and its pixels. */
  datatype Image = Image(bounds: Rect, pixels: seq<Pixel>)

  /**
   * `bufImage`: an RGBA raster together with the pixbuf that wraps the same
   * memory. `frame` is the image last drawn into it (`draw.Draw` with
   * `draw.Src`), `None` while nothing has been drawn yet.
   */
  class Raster {
    const bounds: Rect
    var frame: Option<Image>

    /** `newBufImage(bounds)`. */
    constructor (bounds: Rect)
      ensures this.bounds == bounds && frame == None
    {
      this.bounds := bounds;
      frame := None;
    }

    /** `draw.Draw(m.rgba, m.rgba.Bounds(), src, b.Min, draw.Src)`: the raster now holds `src`. */
    method Draw(src: Image)
      modifies this
      ensures frame == Some(src)
    {
      frame := Some(src);
    }
  }

  /** The globals `buf1` and `buf2` and the number of rasters allocated for them. */
  class RasterPair {
    var buf1: Raster?
    var buf2: Raster?
    var allocations: nat

    /** Both rasters exist or neither does; when they exist they are distinct and exactly two were allocated. */
    ghost predicate Valid()
      reads this
    {
      && (buf1 == null <==> buf2 == null)
      && (buf1 != null ==> buf1 != buf2)
      && allocations == (if buf1 == null then 0 else 2)
    }

    /** The program start: both globals are nil. */
    constructor ()
      ensures Valid() && buf1 == null && buf2 == null && allocations == 0
    {
      buf1, buf2, allocations := null, null, 0;
    }

    /**
     * `toPixbuf(src)`: allocates both rasters with the bounds of `src` if
     * either is missing, then swaps them and draws `src` into the raster that
     * was `buf1`, which is returned and is now `buf2`. The raster that is now
     * `buf1` (the one returned by the previous call) is not written.
     */
    method ToPixbuf(src: Image) returns (pb: Raster)
      requires Valid()
      modifies this, buf1
      ensures Valid() && buf1 != null
      ensures old(buf1) == null ==>
        && fresh(pb) && fresh(buf1)
        && pb.bounds == src.bounds && buf1.bounds == src.bounds
        && buf1.frame == None
        && allocations == 2
      ensures old(buf1) != null ==>
        && pb == old(buf1) && buf1 == old(buf2)
        && buf1.frame == old(buf2.frame)
        && allocations == old(allocations)
      ensures buf2 == pb && pb.frame == Some(src)
    {
      var b := src.bounds;
      if buf1 == null || buf2 == null {
        buf1 := new Raster(b);
        buf2 := new Raster(b);
        allocations := allocations + 2;
      }
      var m := buf1;
      buf1 := buf2;
      buf2 := m;
      m.Draw(src);
      pb := m;
    }
  }

  /**
   * Three calls in a row, starting from any valid state: two consecutive
   * calls return different rasters, the third returns the first one again,
   * and the rasters are allocated at most once, on the first call.
   */
  method ThreeFrames(pair: RasterPair, a: Image, b: Image, c: Image) returns (p: Raster, q: Raster, r: Raster)
    requires pair.Valid()
    modifies pair, pair.buf1, pair.buf2
    ensures pair.Valid()
    ensures p != q && q != r && r == p
    ensures p.frame == Some(c) && q.frame == Some(b)
    ensures pair.allocations == 2
    ensures old(pair.buf1) != null ==> p == old(pair.buf1) && q == old(pair.buf2)
  {
    p := pair.ToPixbuf(a);
    q := pair.ToPixbuf(b);
    r := pair.ToPixbuf(c);
  }
}

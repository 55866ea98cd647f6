/** The drawing-target adapter: per-pixel drawing with on-screen clipping,
    filling a rectangle clipped to the screen, and clearing the screen. */
module Graphics {
  import opened Bus
  import opened Sequences
  import opened Encoding
  import opened Protocol
  import opened Geometry

  /** A BGR 5-6-5 colour, by the 16-bit word its raw storage holds. */
  datatype Color = Color(raw: u16)

  datatype Pixel = Pixel(coord: Point, color: Color)

  /** The screen plus the global offset stays addressable with 16-bit words. */
  predicate Fits(width: u32, height: u32, dx: u16, dy: u16) {
    width + dx <= 0x1_0000 && height + dy <= 0x1_0000
  }

  /** The drawable part of the target: `(0, 0)` to `(width, height)`. */
  function Screen(width: u32, height: u32): Rectangle {
    Rectangle(Point(0, 0), Size(width, height))
  }

  /** The bounds test of `draw_iter`. */
  predicate OnScreen(p: Point, width: u32, height: u32) {
    p.x >= 0 && p.y >= 0 && p.x < width && p.y < height
  }

  /** The bounds test accepts exactly the points of the screen rectangle. */
  lemma OnScreenContains(p: Point, width: u32, height: u32)
    ensures OnScreen(p, width, height) <==> Contains(Screen(width, height), p)
  {
  }

  /** Copies of one value (`repeat(v).take(n)`). */
  function Repeat<T>(v: T, n: nat): (r: seq<T>)
    ensures |r| == n && forall k :: 0 <= k < n ==> r[k] == v
  {
    seq(n, _ => v)
  }

  /** The colour words of a sequence of colours. */
  function Raws(cs: seq<Color>): (ws: seq<u16>)
    ensures |ws| == |cs| && forall k :: 0 <= k < |cs| ==> ws[k] == cs[k].raw
  {
    seq(|cs|, k requires 0 <= k < |cs| => cs[k].raw)
  }

  // ---------------------------------------------------------------- draw_iter

  /** One pixel: `set_pixel` when it is on screen, nothing otherwise. */
  function PixelPlan(op: Instructions.OpcodeTable, p: Pixel, width: u32, height: u32, dx: u16, dy: u16): seq<Event>
    requires Fits(width, height, dx, dy)
  {
    if OnScreen(p.coord, width, height)
    then SetPixelPlan(op, p.coord.x, p.coord.y, p.color.raw, dx, dy)
    else []
  }

  /** `draw_iter`: the pixels in input order. */
  function DrawPlan(op: Instructions.OpcodeTable, ps: seq<Pixel>, width: u32, height: u32, dx: u16, dy: u16): seq<Event>
    requires Fits(width, height, dx, dy)
    decreases |ps|
  {
    if ps == [] then []
    else DrawPlan(op, ps[..|ps| - 1], width, height, dx, dy) + PixelPlan(op, ps[|ps| - 1], width, height, dx, dy)
  }

  lemma {:induction false} DrawAppend(op: Instructions.OpcodeTable, a: seq<Pixel>, b: seq<Pixel>,
                                      width: u32, height: u32, dx: u16, dy: u16)
    requires Fits(width, height, dx, dy)
    ensures DrawPlan(op, a + b, width, height, dx, dy)
            == DrawPlan(op, a, width, height, dx, dy) + DrawPlan(op, b, width, height, dx, dy)
    decreases |b|
  {
    if b == [] {
      assert a + b == a;
    } else {
      var b', last := b[..|b| - 1], b[|b| - 1];
      LastOfAppend(a, b);
      DrawAppend(op, a, b', width, height, dx, dy);
      Associate(DrawPlan(op, a, width, height, dx, dy), DrawPlan(op, b', width, height, dx, dy),
                PixelPlan(op, last, width, height, dx, dy));
    }
  }

  /** Pixel i extends the plan of the pixels before it. */
  lemma DrawSnoc(op: Instructions.OpcodeTable, ps: seq<Pixel>, i: nat, width: u32, height: u32, dx: u16, dy: u16)
    requires Fits(width, height, dx, dy) && i < |ps|
    ensures DrawPlan(op, ps[..i + 1], width, height, dx, dy)
            == DrawPlan(op, ps[..i], width, height, dx, dy) + PixelPlan(op, ps[i], width, height, dx, dy)
  {
    TakeTake(ps, i);
  }

  /** The pixels drawn so far plan to a prefix of the whole drawing. */
  lemma DrawPrefix(op: Instructions.OpcodeTable, ps: seq<Pixel>, i: nat, width: u32, height: u32, dx: u16, dy: u16)
    requires Fits(width, height, dx, dy) && i <= |ps|
    ensures DrawPlan(op, ps[..i], width, height, dx, dy) <= DrawPlan(op, ps, width, height, dx, dy)
  {
    SplitAt(ps, i);
    DrawAppend(op, ps[..i], ps[i..], width, height, dx, dy);
    PrefixOfConcat(DrawPlan(op, ps[..i], width, height, dx, dy), DrawPlan(op, ps[i..], width, height, dx, dy));
  }

  /** Replay of the pixels: after pixel i, the trace holds the plan of the
      first i + 1 pixels, or, if that pixel failed, all of the drawing, failed. */
  lemma DrawAdvance(t0: seq<Event>, t1: seq<Event>, t2: seq<Event>, fails: nat -> bool,
                    op: Instructions.OpcodeTable, ps: seq<Pixel>, i: nat, width: u32, height: u32, dx: u16, dy: u16, ok: bool)
    requires Fits(width, height, dx, dy) && i < |ps|
    requires Performs(t0, t1, fails, DrawPlan(op, ps[..i], width, height, dx, dy), true)
    requires Performs(t1, t2, fails, PixelPlan(op, ps[i], width, height, dx, dy), ok)
    ensures Performs(t0, t2, fails, DrawPlan(op, ps[..i + 1], width, height, dx, dy), ok)
    ensures !ok ==> Performs(t0, t2, fails, DrawPlan(op, ps, width, height, dx, dy), false)
  {
    DrawSnoc(op, ps, i, width, height, dx, dy);
    DrawPrefix(op, ps, i + 1, width, height, dx, dy);
    PerformsStep(t0, t1, t2, fails, DrawPlan(op, ps[..i], width, height, dx, dy),
                 PixelPlan(op, ps[i], width, height, dx, dy), DrawPlan(op, ps, width, height, dx, dy), ok);
  }

  /** How many of the pixels are on screen. */
  function Visible(ps: seq<Pixel>, width: u32, height: u32): (n: nat)
    ensures n <= |ps|
    decreases |ps|
  {
    if ps == [] then 0
    else Visible(ps[..|ps| - 1], width, height) + (if OnScreen(ps[|ps| - 1].coord, width, height) then 1 else 0)
  }

  /** `set_pixel` makes eight writes: six for the window, RAMWR, the colour. */
  lemma SetPixelWrites(op: Instructions.OpcodeTable, x: u16, y: u16, c: u16, dx: u16, dy: u16)
    requires WindowFits(x, y, x, y, dx, dy)
    ensures WriteCount(SetPixelPlan(op, x, y, c, dx, dy)) == 8
  {
    WindowFraming(op, x, y, x, y, dx, dy, false);
    CommandFraming(op(Instructions.RAMWR), [], false);
    var ramwr := RamwrPlan(op);
    WriteCountAppend(CommandPlan(op(Instructions.RAMWR), []), [DcHigh]);
    FramesSingle(DcHigh, false);
    FramesSingle(Write(BigEndian(c)), true);
    assert WordWrites([c]) == [Write(BigEndian(c))];
    WriteCountAppend(ramwr, WordWrites([c]));
    WriteCountAppend(WindowPlan(op, x, y, x, y, dx, dy), PixelsPlan(op, [c]));
  }

  /** Draw count: one `set_pixel` (eight writes) per on-screen pixel and
      nothing for the others. */
  lemma {:induction false} DrawWrites(op: Instructions.OpcodeTable, ps: seq<Pixel>, width: u32, height: u32, dx: u16, dy: u16)
    requires Fits(width, height, dx, dy)
    ensures WriteCount(DrawPlan(op, ps, width, height, dx, dy)) == 8 * Visible(ps, width, height)
    decreases |ps|
  {
    if ps != [] {
      var last := ps[|ps| - 1];
      DrawWrites(op, ps[..|ps| - 1], width, height, dx, dy);
      WriteCountAppend(DrawPlan(op, ps[..|ps| - 1], width, height, dx, dy), PixelPlan(op, last, width, height, dx, dy));
      if OnScreen(last.coord, width, height) {
        SetPixelWrites(op, last.coord.x, last.coord.y, last.color.raw, dx, dy);
      }
    }
  }

  /** Drawing emits nothing at all exactly when no pixel is on screen. */
  lemma DrawNothing(op: Instructions.OpcodeTable, ps: seq<Pixel>, width: u32, height: u32, dx: u16, dy: u16)
    requires Fits(width, height, dx, dy)
    ensures DrawPlan(op, ps, width, height, dx, dy) == [] <==> Visible(ps, width, height) == 0
  {
    DrawWrites(op, ps, width, height, dx, dy);
    if Visible(ps, width, height) == 0 {
      NothingVisible(op, ps, width, height, dx, dy);
    }
  }

  lemma {:induction false} NothingVisible(op: Instructions.OpcodeTable, ps: seq<Pixel>, width: u32, height: u32, dx: u16, dy: u16)
    requires Fits(width, height, dx, dy) && Visible(ps, width, height) == 0
    ensures DrawPlan(op, ps, width, height, dx, dy) == []
    decreases |ps|
  {
    if ps != [] {
      NothingVisible(op, ps[..|ps| - 1], width, height, dx, dy);
    }
  }

  // ---------------------------------------------------------------- fill_contiguous

  /** The colour words of the colours whose paired point (the two sequences
      zipped, the shorter one deciding) lies in `d`, in order. */
  function Clip(ps: seq<Point>, cs: seq<Color>, d: Rectangle): (ws: seq<u16>)
    ensures |ws| <= |ps| && |ws| <= |cs|
    decreases |ps|
  {
    if ps == [] || cs == [] then []
    else (if Contains(d, ps[0]) then [cs[0].raw] else []) + Clip(ps[1..], cs[1..], d)
  }

  /** With a colour for every point, as many colours pass as points lie in `d`. */
  lemma {:induction false} ClipCount(ps: seq<Point>, cs: seq<Color>, d: Rectangle)
    requires |ps| <= |cs|
    ensures |Clip(ps, cs, d)| == |Select(ps, d)|
    decreases |ps|
  {
    if ps != [] {
      ClipCount(ps[1..], cs[1..], d);
    }
  }

  /** When every point lies in `d`, nothing is dropped. */
  lemma {:induction false} ClipAll(ps: seq<Point>, cs: seq<Color>, d: Rectangle)
    requires forall k :: 0 <= k < |ps| ==> Contains(d, ps[k])
    ensures Clip(ps, cs, d) == Raws(cs[..Min(|ps|, |cs|)])
    decreases |ps|
  {
    if ps != [] && cs != [] {
      ClipAll(ps[1..], cs[1..], d);
      assert cs[1..][..Min(|ps| - 1, |cs| - 1)] == cs[..Min(|ps|, |cs|)][1..];
    }
  }

  /** The corner coordinates of a non-empty rectangle on the screen. */
  predicate Drawable(d: Rectangle, width: u32, height: u32, dx: u16, dy: u16) {
    && !IsEmpty(d) && Within(d, Screen(width, height)) && Fits(width, height, dx, dy)
  }

  /** `fill_contiguous`: nothing when the area misses the screen; otherwise the
      window spanning the visible part and the colours paired with its
      points, buffered. */
  function FillPlan(op: Instructions.OpcodeTable, area: Rectangle, colors: seq<Color>,
                    width: u32, height: u32, dx: u16, dy: u16): seq<Event>
    requires Fits(width, height, dx, dy)
  {
    var d := Intersection(area, Screen(width, height));
    if d.size == Size(0, 0) then []
    else
      var x, y := d.topLeft.x, d.topLeft.y;
      SetPixelsBufferedPlan(op, x, y, x + d.size.width - 1, y + d.size.height - 1,
                            Clip(Points(area), colors, d), dx, dy)
  }

  /** The window `fill_contiguous` opens: the visible part's corners,
      addressable with the offset applied. */
  lemma FillWindow(op: Instructions.OpcodeTable, area: Rectangle, colors: seq<Color>,
                   width: u32, height: u32, dx: u16, dy: u16)
    requires Fits(width, height, dx, dy)
    ensures var d := Intersection(area, Screen(width, height));
            && (d.size == Size(0, 0) ==> FillPlan(op, area, colors, width, height, dx, dy) == [])
            && (d.size != Size(0, 0) ==>
                  var x, y := d.topLeft.x, d.topLeft.y;
                  && 0 <= x && 0 <= y && x + d.size.width <= width && y + d.size.height <= height
                  && 0 < d.size.width && 0 < d.size.height
                  && WindowFits(x, y, x + d.size.width - 1, y + d.size.height - 1, dx, dy)
                  && FillPlan(op, area, colors, width, height, dx, dy)
                     == SetPixelsBufferedPlan(op, x, y, x + d.size.width - 1, y + d.size.height - 1,
                                              Clip(Points(area), colors, d), dx, dy))
  {
  }

  /** The corners and colours `fill_contiguous` computes for a visible part
      are 16-bit, addressable with the offset, and make up its plan. */
  lemma FillCorners(op: Instructions.OpcodeTable, area: Rectangle, colors: seq<Color>,
                    width: u32, height: u32, dx: u16, dy: u16,
                    d: Rectangle, x: int, y: int, ex: int, ey: int, cs: seq<u16>)
    requires Fits(width, height, dx, dy)
    requires d == Intersection(area, Screen(width, height)) && d.size != Size(0, 0)
    requires x == d.topLeft.x && y == d.topLeft.y
    requires ex == x + d.size.width - 1 && ey == y + d.size.height - 1
    requires cs == Clip(Points(area), colors, d)
    ensures 0 <= x < 0x1_0000 && 0 <= y < 0x1_0000 && 0 <= ex < 0x1_0000 && 0 <= ey < 0x1_0000
    ensures WindowFits(x, y, ex, ey, dx, dy)
    ensures FillPlan(op, area, colors, width, height, dx, dy) == SetPixelsBufferedPlan(op, x, y, ex, ey, cs, dx, dy)
  {
    FillWindow(op, area, colors, width, height, dx, dy);
  }

  /** Fill does nothing exactly when the area has no point on the screen. */
  lemma FillNothing(op: Instructions.OpcodeTable, area: Rectangle, colors: seq<Color>,
                    width: u32, height: u32, dx: u16, dy: u16)
    requires Fits(width, height, dx, dy)
    ensures FillPlan(op, area, colors, width, height, dx, dy) == []
            <==> forall p :: Contains(area, p) ==> !OnScreen(p, width, height)
  {
    var d := Intersection(area, Screen(width, height));
    if !IsEmpty(d) {
      assert Contains(d, d.topLeft);
    }
  }

  /** Fill count: given a colour for every point of the area, the stream
      holds exactly one colour per pixel of the window it opens. */
  lemma FillCount(area: Rectangle, colors: seq<Color>, width: u32, height: u32)
    requires |colors| >= area.size.width * area.size.height
    ensures var d := Intersection(area, Screen(width, height));
            |Clip(Points(area), colors, d)| == d.size.width * d.size.height
  {
    var d := Intersection(area, Screen(width, height));
    RowsLength(area.topLeft.x, area.topLeft.y, area.size.width, area.size.height);
    ClipCount(Points(area), colors, d);
    if IsEmpty(d) {
      EmptySelect(Points(area), d);
    } else {
      SelectPoints(area, d);
      RowsLength(d.topLeft.x, d.topLeft.y, d.size.width, d.size.height);
    }
  }

  lemma {:induction false} EmptySelect(ps: seq<Point>, d: Rectangle)
    requires IsEmpty(d)
    ensures Select(ps, d) == []
    decreases |ps|
  {
    if ps != [] {
      EmptySelect(ps[1..], d);
    }
  }

  /** An area that lies on the screen is filled unclipped: its own corners
      make the window and the colours go out as given, up to its size. */
  lemma FillInside(op: Instructions.OpcodeTable, area: Rectangle, colors: seq<Color>,
                   width: u32, height: u32, dx: u16, dy: u16)
    requires Drawable(area, width, height, dx, dy)
    ensures var x, y := area.topLeft.x, area.topLeft.y;
            var n := area.size.width * area.size.height;
            FillPlan(op, area, colors, width, height, dx, dy)
            == SetPixelsBufferedPlan(op, x, y, x + area.size.width - 1, y + area.size.height - 1,
                                     Raws(colors[..Min(n, |colors|)]), dx, dy)
  {
    var d := Intersection(area, Screen(width, height));
    var n := area.size.width * area.size.height;
    IntersectionInside(area, Screen(width, height));
    RowsLength(area.topLeft.x, area.topLeft.y, area.size.width, area.size.height);
    assert |Points(area)| == n;
    PointsContained(area);
    ClipAll(Points(area), colors, area);
    assert Clip(Points(area), colors, d) == Raws(colors[..Min(n, |colors|)]);
    assert d.size != Size(0, 0);
  }

  lemma IntersectionInside(a: Rectangle, s: Rectangle)
    requires !IsEmpty(a) && Within(a, s)
    ensures Intersection(a, s) == a
  {
  }

  lemma PointsContained(r: Rectangle)
    ensures forall k :: 0 <= k < |Points(r)| ==> Contains(r, Points(r)[k])
  {
    forall k | 0 <= k < |Points(r)| ensures Contains(r, Points(r)[k]) {
      RowsContained(r.topLeft.x, r.topLeft.y, r.size.width, r.size.height, k);
    }
  }

  // ---------------------------------------------------------------- clear

  /** `clear`: the whole-screen window and `width * height` copies of the colour. */
  function ClearPlan(op: Instructions.OpcodeTable, c: Color, width: u32, height: u32, dx: u16, dy: u16): seq<Event>
    requires 0 < width < 0x1_0000 && 0 < height < 0x1_0000 && Fits(width, height, dx, dy)
  {
    SetPixelsBufferedPlan(op, 0, 0, width - 1, height - 1, Repeat(c.raw, width * height), dx, dy)
  }

  lemma RawsRepeat(c: Color, n: nat)
    ensures Raws(Repeat(c, n)[..n]) == Repeat(c.raw, n)
  {
    assert Repeat(c, n)[..n] == Repeat(c, n);
  }

  /** Clearing is filling the whole screen with one colour per pixel. */
  lemma ClearIsFill(op: Instructions.OpcodeTable, c: Color, width: u32, height: u32, dx: u16, dy: u16)
    requires 0 < width < 0x1_0000 && 0 < height < 0x1_0000 && Fits(width, height, dx, dy)
    ensures ClearPlan(op, c, width, height, dx, dy)
            == FillPlan(op, Screen(width, height), Repeat(c, width * height), width, height, dx, dy)
  {
    var n := width * height;
    FillInside(op, Screen(width, height), Repeat(c, n), width, height, dx, dy);
    RawsRepeat(c, n);
  }
}

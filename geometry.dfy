/** The small part of the drawing-library geometry the driver relies on:
    points, sizes, rectangles, containment, intersection and the row-major
    enumeration of a rectangle's points. */
module Geometry {

  datatype Point = Point(x: int, y: int)
  datatype Size = Size(width: nat, height: nat)
  datatype Rectangle = Rectangle(topLeft: Point, size: Size)

  /** The point lies in the rectangle (left and top edges inclusive, right and
      bottom exclusive). */
  predicate Contains(r: Rectangle, p: Point) {
    && r.topLeft.x <= p.x < r.topLeft.x + r.size.width
    && r.topLeft.y <= p.y < r.topLeft.y + r.size.height
  }

  /** `Rectangle::zero()`. */
  function Zero(): Rectangle {
    Rectangle(Point(0, 0), Size(0, 0))
  }

  predicate IsEmpty(r: Rectangle) {
    r.size.width == 0 || r.size.height == 0
  }

  /** `r` lies inside `s`, edges included. */
  predicate Within(r: Rectangle, s: Rectangle) {
    && s.topLeft.x <= r.topLeft.x && r.topLeft.x + r.size.width <= s.topLeft.x + s.size.width
    && s.topLeft.y <= r.topLeft.y && r.topLeft.y + r.size.height <= s.topLeft.y + s.size.height
  }

  function Max(a: int, b: int): int { if a < b then b else a }
  function Min(a: int, b: int): int { if a < b then a else b }

  /** `Rectangle::intersection`: the points both rectangles contain, or the
      zero rectangle when there are none. */
  function Intersection(a: Rectangle, b: Rectangle): (r: Rectangle)
    ensures forall p :: Contains(r, p) <==> Contains(a, p) && Contains(b, p)
    ensures IsEmpty(r) ==> r == Zero()
    ensures !IsEmpty(r) ==> Within(r, a) && Within(r, b)
  {
    var x0 := Max(a.topLeft.x, b.topLeft.x);
    var x1 := Min(a.topLeft.x + a.size.width, b.topLeft.x + b.size.width);
    var y0 := Max(a.topLeft.y, b.topLeft.y);
    var y1 := Min(a.topLeft.y + a.size.height, b.topLeft.y + b.size.height);
    if x0 < x1 && y0 < y1 then Rectangle(Point(x0, y0), Size(x1 - x0, y1 - y0)) else Zero()
  }

  // ---------------------------------------------------------------- points

  /** The points of one row, left to right. */
  function Row(x0: int, y: int, w: nat): (ps: seq<Point>)
    ensures |ps| == w
    decreases w
  {
    if w == 0 then [] else Row(x0, y, w - 1) + [Point(x0 + w - 1, y)]
  }

  /** The `k`-th point of a row is `k` to the right of its first. */
  lemma {:induction false} RowAt(x0: int, y: int, w: nat, k: nat)
    requires k < w
    ensures Row(x0, y, w)[k] == Point(x0 + k, y)
    decreases w
  {
    if k < w - 1 {
      RowAt(x0, y, w - 1, k);
    }
  }

  /** The first `h` rows of width `w` starting at `(x0, y0)`, top to bottom. */
  function Rows(x0: int, y0: int, w: nat, h: nat): seq<Point>
    decreases h
  {
    if h == 0 then [] else Rows(x0, y0, w, h - 1) + Row(x0, y0 + h - 1, w)
  }

  /** `h` rows of width `w` hold `w * h` points. */
  lemma {:induction false} RowsLength(x0: int, y0: int, w: nat, h: nat)
    ensures |Rows(x0, y0, w, h)| == w * h
    decreases h
  {
    if h > 0 {
      RowsLength(x0, y0, w, h - 1);
      assert w * (h - 1) + w == w * h;
    }
  }

  /** `Rectangle::points`: every point of the rectangle in row-major order. */
  function Points(r: Rectangle): seq<Point>
  {
    Rows(r.topLeft.x, r.topLeft.y, r.size.width, r.size.height)
  }

  /** The points, in order, that the rectangle contains. */
  function Select(ps: seq<Point>, r: Rectangle): (qs: seq<Point>)
    ensures |qs| <= |ps|
    decreases |ps|
  {
    if ps == [] then [] else (if Contains(r, ps[0]) then [ps[0]] else []) + Select(ps[1..], r)
  }

  lemma {:induction false} SelectAppend(a: seq<Point>, b: seq<Point>, r: Rectangle)
    ensures Select(a + b, r) == Select(a, r) + Select(b, r)
    decreases |a|
  {
    if a == [] {
      assert a + b == b;
    } else {
      assert (a + b)[0] == a[0];
      assert (a + b)[1..] == a[1..] + b;
      SelectAppend(a[1..], b, r);
    }
  }

  lemma SelectSingle(p: Point, r: Rectangle)
    ensures Select([p], r) == if Contains(r, p) then [p] else []
  {
    assert [p][1..] == [];
  }

  function Clamp(v: int, hi: nat): (c: nat)
    ensures c <= hi
  {
    if v < 0 then 0 else if v > hi then hi else v
  }

  /** Filtering the first `n` points of a row by `r`: the part of `r`'s row
      at height `y` that those points reach, or nothing when `r` has no such row. */
  lemma {:induction false} SelectRow(x0: int, y: int, n: nat, r: Rectangle)
    requires x0 <= r.topLeft.x
    ensures Select(Row(x0, y, n), r)
            == if r.topLeft.y <= y < r.topLeft.y + r.size.height
               then Row(r.topLeft.x, y, Clamp(x0 + n - r.topLeft.x, r.size.width))
               else []
    decreases n
  {
    if n > 0 {
      var p := Point(x0 + n - 1, y);
      SelectRow(x0, y, n - 1, r);
      SelectAppend(Row(x0, y, n - 1), [p], r);
      SelectSingle(p, r);
    }
  }

  /** The last row of a row-major enumeration. */
  lemma RowsLast(x0: int, y0: int, w: nat, h: nat, c: nat, y: int)
    requires h == c + 1 && y == y0 + c
    ensures Rows(x0, y0, w, h) == Rows(x0, y0, w, c) + Row(x0, y, w)
  {
  }

  /** Filtering `n` rows filters the first `n - 1`, then the last. */
  lemma SelectRowsLast(x0: int, y0: int, w: nat, n: nat, r: Rectangle)
    requires n > 0
    ensures Select(Rows(x0, y0, w, n), r) == Select(Rows(x0, y0, w, n - 1), r) + Select(Row(x0, y0 + n - 1, w), r)
  {
    SelectAppend(Rows(x0, y0, w, n - 1), Row(x0, y0 + n - 1, w), r);
  }

  /** One row more: the step of `SelectRows`, given its claim for `n - 1` rows. */
  lemma SelectRowsStep(x0: int, y0: int, w: nat, n: nat, r: Rectangle)
    requires x0 <= r.topLeft.x && r.topLeft.x + r.size.width <= x0 + w
    requires y0 <= r.topLeft.y && n > 0
    requires Select(Rows(x0, y0, w, n - 1), r)
             == Rows(r.topLeft.x, r.topLeft.y, r.size.width, Clamp(y0 + (n - 1) - r.topLeft.y, r.size.height))
    ensures Select(Rows(x0, y0, w, n), r)
            == Rows(r.topLeft.x, r.topLeft.y, r.size.width, Clamp(y0 + n - r.topLeft.y, r.size.height))
  {
    var y := y0 + n - 1;
    var rx, top, rw, h := r.topLeft.x, r.topLeft.y, r.size.width, r.size.height;
    var c := Clamp(y0 + (n - 1) - top, h);
    var cn := Clamp(y0 + n - top, h);
    SelectRowsLast(x0, y0, w, n, r);
    SelectRow(x0, y, w, r);
    assert Clamp(x0 + w - rx, rw) == rw;
    if top <= y < top + h {
      RowsLast(rx, top, rw, cn, c, y);
    } else {
      assert cn == c;
    }
  }

  /** Filtering the first `n` rows by a rectangle whose columns lie within
      theirs and which starts no higher: that rectangle's rows among them. */
  lemma {:induction false} SelectRows(x0: int, y0: int, w: nat, n: nat, r: Rectangle)
    requires x0 <= r.topLeft.x && r.topLeft.x + r.size.width <= x0 + w
    requires y0 <= r.topLeft.y
    ensures Select(Rows(x0, y0, w, n), r)
            == Rows(r.topLeft.x, r.topLeft.y, r.size.width, Clamp(y0 + n - r.topLeft.y, r.size.height))
    decreases n
  {
    if n > 0 {
      SelectRows(x0, y0, w, n - 1, r);
      SelectRowsStep(x0, y0, w, n, r);
    }
  }

  /** Row-major order survives clipping: the points of `area` that a
      rectangle inside it contains are that rectangle's points, in order. */
  lemma SelectPoints(area: Rectangle, r: Rectangle)
    requires Within(r, area)
    ensures Select(Points(area), r) == Points(r)
  {
    SelectRows(area.topLeft.x, area.topLeft.y, area.size.width, area.size.height, r);
  }

  /** Every point a rectangle enumerates lies in it. */
  lemma {:induction false} RowsContained(x0: int, y0: int, w: nat, h: nat, k: nat)
    requires k < |Rows(x0, y0, w, h)|
    ensures Contains(Rectangle(Point(x0, y0), Size(w, h)), Rows(x0, y0, w, h)[k])
    decreases h
  {
    var m := |Rows(x0, y0, w, h - 1)|;
    if k < m {
      RowsContained(x0, y0, w, h - 1, k);
    } else {
      RowAt(x0, y0 + h - 1, w, k - m);
    }
  }
}

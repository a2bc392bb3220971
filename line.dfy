/**
 * The line rasteriser: draws a run of one glyph between two integer grid
 * points, walking columns for shallow lines and rows for steep ones and
 * truncating each computed coordinate. The source computes slopes in `f32`;
 * here they are exact reals, with the two IEEE cases the source relies on
 * written out: a vertical line has slope +/-infinity, and a line from a point
 * to itself has slope 0/0 = NaN, which fails every comparison and truncates to 0.
 */
module Rasteriser {
  import opened CharBuffers

  /** A grid point `(x, y)`, the source's `(usize, usize)`. */
  type Coord = (nat, nat)

  /** The three loops `draw_line` can hand a line to. */
  datatype Branch = DownSteep | UpSteep | Shallow

  /** `v` lies between `a` and `b`, whichever is larger. */
  predicate Between(v: int, a: int, b: int)
  {
    if a <= b then a <= v <= b else b <= v <= a
  }

  /** The swap at the top of `draw_line`: the endpoint with the smaller x first; on equal x the order is kept. */
  function Ordered(start: Coord, end: Coord): (r: (Coord, Coord))
    ensures r.0.0 <= r.1.0
    ensures r == (start, end) || r == (end, start)
    ensures start.0 == end.0 ==> r == (start, end)
  {
    if start.0 > end.0 then (end, start) else (start, end)
  }

  /** `Δy / Δx` for a line that is not vertical. */
  function Slope(s: Coord, e: Coord): real
    requires s.0 < e.0
  {
    (e.1 - s.1) as real / (e.0 - s.0) as real
  }

  /** `Δx / Δy`, the inverse slope the steep loops use. */
  function InvSlope(s: Coord, e: Coord): real
    requires s.1 != e.1
  {
    (e.0 - s.0) as real / (e.1 - s.1) as real
  }

  /** `d / n` scaled by `t` in `[0, n]` stays between 0 and `d`. */
  lemma ScaledFraction(d: int, n: int, t: int)
    requires n > 0 && 0 <= t <= n
    ensures d >= 0 ==> 0.0 <= (d as real / n as real) * t as real <= d as real
    ensures d < 0 ==> d as real <= (d as real / n as real) * t as real <= 0.0
  {
    var q := t as real / n as real;
    assert 0.0 <= q <= 1.0;
    assert (d as real / n as real) * t as real == d as real * q;
    if d >= 0 {
      assert 0.0 <= d as real * q <= d as real * 1.0;
    } else {
      assert d as real * 1.0 <= d as real * q <= 0.0;
    }
  }

  /** A ratio `dy / dx` with `dx > 0` compared with +/-1 is `dy` compared with `-dx` and `dx`. */
  lemma RatioVersusOne(m: real, dx: real, dy: real)
    requires dx > 0.0 && m * dx == dy
    ensures m < -1.0 <==> dy < -dx
    ensures m > 1.0 <==> dy > dx
  {
    if m < -1.0 {
      assert (-1.0 - m) * dx > 0.0;
    } else {
      assert (m + 1.0) * dx >= 0.0;
    }
    if m > 1.0 {
      assert (m - 1.0) * dx > 0.0;
    } else {
      assert (1.0 - m) * dx >= 0.0;
    }
  }

  /** A slope compared with +/-1 is `Δy` compared with `∓Δx`. */
  lemma SlopeComparisons(s: Coord, e: Coord)
    requires s.0 < e.0
    ensures Slope(s, e) < -1.0 <==> e.1 - s.1 < -(e.0 - s.0)
    ensures Slope(s, e) > 1.0 <==> e.1 - s.1 > e.0 - s.0
  {
    var dxi, dyi := e.0 - s.0, e.1 - s.1;
    RatioVersusOne(Slope(s, e), dxi as real, dyi as real);
  }

  /**
   * The branch `draw_line` takes for ordered endpoints, in integer terms:
   * down-steep when `Δy < -Δx`, up-steep when `Δy > Δx`, shallow when
   * `|Δy| <= Δx`, which takes in slope exactly +/-1. A vertical line
   * (`Δx = 0`) has slope +infinity or -infinity by the sign of `Δy`; a single
   * point has slope NaN, below nothing and above nothing, so it is shallow.
   */
  function Classify(s: Coord, e: Coord): (b: Branch)
    requires s.0 <= e.0
    ensures b == DownSteep <==> e.1 - s.1 < -(e.0 - s.0)
    ensures b == UpSteep <==> e.1 - s.1 > e.0 - s.0
    ensures b == Shallow <==> -(e.0 - s.0) <= e.1 - s.1 <= e.0 - s.0
  {
    if s.0 == e.0 then
      if e.1 > s.1 then UpSteep else if e.1 < s.1 then DownSteep else Shallow
    else
      SlopeComparisons(s, e);
      if Slope(s, e) < -1.0 then DownSteep
      else if Slope(s, e) > 1.0 then UpSteep
      else Shallow
  }

  /** The row the shallow loop writes in column `x`: truncation of `slope * (x - s.x) + s.y`, or 0 when the slope is NaN. */
  function RowAt(s: Coord, e: Coord, x: int): (r: int)
    requires s.0 <= x <= e.0 && Classify(s, e) == Shallow
    ensures r >= 0
    ensures s.0 < e.0 ==> Between(r, s.1, e.1)
    ensures s.0 == e.0 ==> r == 0
  {
    if s.0 == e.0 then 0
    else
      var v := Slope(s, e) * (x - s.0) as real + s.1 as real;
      ScaledFraction(e.1 - s.1, e.0 - s.0, x - s.0);
      v.Floor
  }

  /** The column the up-steep loop writes in row `y`: truncation of `inv_slope * (y - s.y) + s.x`. */
  function UpColumn(s: Coord, e: Coord, y: int): (r: int)
    requires s.0 <= e.0 && s.1 <= y <= e.1 && Classify(s, e) == UpSteep
    ensures s.0 <= r <= e.0
  {
    var v := InvSlope(s, e) * (y - s.1) as real + s.0 as real;
    ScaledFraction(e.0 - s.0, e.1 - s.1, y - s.1);
    v.Floor
  }

  /** The column the down-steep loop writes in row `y`, measured from the end point: truncation of `inv_slope * (y - e.y) + e.x`. */
  function DownColumn(s: Coord, e: Coord, y: int): (r: int)
    requires s.0 <= e.0 && e.1 <= y <= s.1 && Classify(s, e) == DownSteep
    ensures s.0 <= r <= e.0
  {
    var v := InvSlope(s, e) * (y - e.1) as real + e.0 as real;
    assert InvSlope(s, e) == (s.0 - e.0) as real / (s.1 - e.1) as real;
    ScaledFraction(s.0 - e.0, s.1 - e.1, y - e.1);
    v.Floor
  }

  /** Cell (x, y) is one the branch for the ordered endpoints `s`, `e` writes. */
  predicate Plotted(s: Coord, e: Coord, x: int, y: int)
    requires s.0 <= e.0
  {
    var b := Classify(s, e);
    if b == Shallow then s.0 <= x <= e.0 && y == RowAt(s, e, x)
    else if b == UpSteep then s.1 <= y <= e.1 && x == UpColumn(s, e, y)
    else e.1 <= y <= s.1 && x == DownColumn(s, e, y)
  }

  /** Cell (x, y) is one `draw_line(_, _, start, end)` writes, before bounds are checked. */
  predicate OnLine(start: Coord, end: Coord, x: int, y: int)
  {
    var (s, e) := Ordered(start, end);
    Plotted(s, e, x, y)
  }

  /** A shallow line of two distinct points writes both endpoints. */
  lemma ShallowEndsDrawn(s: Coord, e: Coord)
    requires s.0 <= e.0 && s != e && Classify(s, e) == Shallow
    ensures Plotted(s, e, s.0, s.1) && Plotted(s, e, e.0, e.1)
  {
    var dx, dy := (e.0 - s.0) as real, (e.1 - s.1) as real;
    assert Slope(s, e) * dx == dy;
    assert RowAt(s, e, s.0) == s.1;
    assert RowAt(s, e, e.0) == e.1;
  }

  /** An up-steep line writes both endpoints. */
  lemma UpEndsDrawn(s: Coord, e: Coord)
    requires s.0 <= e.0 && Classify(s, e) == UpSteep
    ensures Plotted(s, e, s.0, s.1) && Plotted(s, e, e.0, e.1)
  {
    var dx, dy := (e.0 - s.0) as real, (e.1 - s.1) as real;
    assert InvSlope(s, e) * dy == dx;
    assert UpColumn(s, e, s.1) == s.0;
    assert UpColumn(s, e, e.1) == e.0;
  }

  /** A down-steep line writes both endpoints. */
  lemma DownEndsDrawn(s: Coord, e: Coord)
    requires s.0 <= e.0 && Classify(s, e) == DownSteep
    ensures Plotted(s, e, s.0, s.1) && Plotted(s, e, e.0, e.1)
  {
    var dx, dy := (e.0 - s.0) as real, (e.1 - s.1) as real;
    assert InvSlope(s, e) * dy == dx;
    assert InvSlope(s, e) * (s.1 - e.1) as real == -dx;
    assert DownColumn(s, e, e.1) == e.0;
    assert DownColumn(s, e, s.1) == s.0;
  }

  /** Both endpoints of a line of two distinct points are drawn. */
  lemma EndpointsDrawn(start: Coord, end: Coord)
    requires start != end
    ensures OnLine(start, end, start.0, start.1)
    ensures OnLine(start, end, end.0, end.1)
  {
    var (s, e) := Ordered(start, end);
    match Classify(s, e)
    case Shallow => ShallowEndsDrawn(s, e);
    case UpSteep => UpEndsDrawn(s, e);
    case DownSteep => DownEndsDrawn(s, e);
  }

  /**
   * A line from a point to itself: the slope is NaN, the shallow loop runs
   * once, and the truncated NaN puts its single glyph in row 0 of the point's
   * column, whatever the point's row.
   */
  lemma SinglePointLandsOnRowZero(p: Coord, x: int, y: int)
    ensures OnLine(p, p, x, y) <==> x == p.0 && y == 0
  {
    assert Classify(p, p) == Shallow;
  }

  /** Every drawn cell of a line of two distinct points lies in the box spanned by its endpoints. */
  lemma DrawnWithinBox(start: Coord, end: Coord, x: int, y: int)
    requires start != end
    ensures OnLine(start, end, x, y) ==> Between(x, start.0, end.0) && Between(y, start.1, end.1)
  {
    var (s, e) := Ordered(start, end);
  }

  /** The cells drawn do not depend on the order the endpoints are given in. */
  lemma OnLineSymmetric(a: Coord, b: Coord, x: int, y: int)
    ensures OnLine(a, b, x, y) <==> OnLine(b, a, x, y)
  {
    if a.0 == b.0 && a.1 != b.1 {
      var (lo, hi) := if a.1 < b.1 then (a, b) else (b, a);
      forall y' | lo.1 <= y' <= hi.1
        ensures UpColumn(lo, hi, y') == lo.0 && DownColumn(hi, lo, y') == lo.0
      {
        assert InvSlope(lo, hi) == 0.0;
        assert InvSlope(hi, lo) == 0.0;
      }
    }
  }

  /** The shallow loop of `draw_horizontal`: one glyph per column from `s.x` to `e.x`. */
  method DrawHorizontal(ch: char, buf: CharBuffer, s: Coord, e: Coord)
    requires buf.Valid() && s.0 <= e.0 && Classify(s, e) == Shallow
    modifies buf.data
    ensures forall y, x :: 0 <= y < buf.data.Length0 && 0 <= x < buf.data.Length1 ==>
              buf.data[y, x] == if Plotted(s, e, x, y) then ch else old(buf.data[y, x])
  {
    var x := s.0;
    while x <= e.0
      invariant s.0 <= x <= e.0 + 1
      invariant forall j, i :: 0 <= j < buf.data.Length0 && 0 <= i < buf.data.Length1 ==>
                  buf.data[j, i] == if s.0 <= i < x && j == RowAt(s, e, i) then ch else old(buf.data[j, i])
    {
      var _ := buf.SetChar(x, RowAt(s, e, x), ch);
      x := x + 1;
    }
  }

  /** The steep loops of `draw_vertical`: one glyph per row, upward from the start or downward measured from the end. */
  method DrawVertical(ch: char, buf: CharBuffer, s: Coord, e: Coord, isUp: bool)
    requires buf.Valid() && s.0 <= e.0 && Classify(s, e) == if isUp then UpSteep else DownSteep
    modifies buf.data
    ensures forall y, x :: 0 <= y < buf.data.Length0 && 0 <= x < buf.data.Length1 ==>
              buf.data[y, x] == if Plotted(s, e, x, y) then ch else old(buf.data[y, x])
  {
    if isUp {
      var y := s.1;
      while y <= e.1
        invariant s.1 <= y <= e.1 + 1
        invariant forall j, i :: 0 <= j < buf.data.Length0 && 0 <= i < buf.data.Length1 ==>
                    buf.data[j, i] == if s.1 <= j < y && i == UpColumn(s, e, j) then ch else old(buf.data[j, i])
      {
        var _ := buf.SetChar(UpColumn(s, e, y), y, ch);
        y := y + 1;
      }
    } else {
      var y := e.1;
      while y <= s.1
        invariant e.1 <= y <= s.1 + 1
        invariant forall j, i :: 0 <= j < buf.data.Length0 && 0 <= i < buf.data.Length1 ==>
                    buf.data[j, i] == if e.1 <= j < y && i == DownColumn(s, e, j) then ch else old(buf.data[j, i])
      {
        var _ := buf.SetChar(DownColumn(s, e, y), y, ch);
        y := y + 1;
      }
    }
  }

  /**
   * `draw_line`: writes `ch` into exactly the in-bounds cells of the line;
   * writes that fall outside the grid are dropped, every other cell keeps its
   * char, and the grid keeps its shape.
   */
  method DrawLine(ch: char, buf: CharBuffer, start: Coord, end: Coord)
    requires buf.Valid()
    modifies buf.data
    ensures forall y, x :: 0 <= y < buf.data.Length0 && 0 <= x < buf.data.Length1 ==>
              buf.data[y, x] == if OnLine(start, end, x, y) then ch else old(buf.data[y, x])
  {
    var s, e := start, end;
    if s.0 > e.0 {
      s, e := e, s;
    }
    match Classify(s, e)
    case DownSteep => DrawVertical(ch, buf, s, e, false);
    case UpSteep => DrawVertical(ch, buf, s, e, true);
    case Shallow => DrawHorizontal(ch, buf, s, e);
  }
}

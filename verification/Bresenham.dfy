/** The noise lines of the captcha image: Bresenham's algorithm for all directions at once. */
module Bresenham {
  import opened Arithmetic
  import opened Canvas

  /** `n` steps from one coordinate in the direction of another. */
  function Toward(from: int, to: int, n: int): int {
    if from < to then from + n else from - n
  }

  /** `k * d / m` rounded to the nearest integer, halves upwards. */
  function Rounded(k: int, d: int, m: int): int
    requires m >= 0
  {
    if m == 0 then 0 else Nearest(k * d, m)
  }

  /** How many moves lead from one end to the other. */
  function Moves(from: Point, to: Point): (m: int)
    ensures m >= Abs(to.x - from.x) && m >= Abs(to.y - from.y)
  {
    Max(Abs(to.x - from.x), Abs(to.y - from.y))
  }

  function PointAt(from: Point, to: Point, k: int): Point {
    var m := Moves(from, to);
    Point(Toward(from.x, to.x, Rounded(k, Abs(to.x - from.x), m)),
          Toward(from.y, to.y, Rounded(k, Abs(to.y - from.y), m)))
  }

  /** The ideal line, sampled at each step of the longer axis and rounded on the shorter one. */
  function Line(from: Point, to: Point): seq<Point> {
    seq(Moves(from, to) + 1, k => PointAt(from, to, k))
  }

  // ----- Rounding -----

  lemma RoundedIff(k: int, d: int, m: int, j: int)
    requires m > 0
    ensures j == Rounded(k, d, m) <==> -m < 2 * (j * m - k * d) <= m
  {
    NearestIff(k * d, m, j);
  }

  lemma RoundedEnds(d: int, m: int)
    requires m > 0
    ensures Rounded(0, d, m) == 0 && Rounded(m, d, m) == d
  {
    RoundedIff(0, d, m, 0);
    RoundedIff(m, d, m, d);
  }

  lemma RoundedMajor(k: int, m: int)
    requires m > 0
    ensures Rounded(k, m, m) == k
  {
    RoundedIff(k, m, m, k);
  }

  lemma RoundedGrows(k: int, d: int, m: int)
    requires m > 0 && 0 <= d <= m
    ensures Rounded(k, d, m) <= Rounded(k + 1, d, m) <= Rounded(k, d, m) + 1
  {
    var q, r := Rounded(k, d, m), Rounded(k + 1, d, m);
    RoundedIff(k, d, m, q);
    RoundedIff(k + 1, d, m, r);
    assert (k + 1) * d == k * d + d;
    if r < q { MultiplyMonotone(m, r + 1, q); MultiplyMonotone(m, r, q); }
    if r > q + 1 { MultiplyMonotone(m, q + 2, r); MultiplyMonotone(m, q + 1, r); MultiplyMonotone(m, q, r); }
  }

  lemma {:induction false} RoundedMonotone(k: int, n: int, d: int, m: int)
    requires m > 0 && 0 <= d <= m && k <= n
    ensures Rounded(k, d, m) <= Rounded(n, d, m)
    decreases n - k
  {
    if k < n {
      RoundedMonotone(k, n - 1, d, m);
      RoundedGrows(n - 1, d, m);
    }
  }

  // ----- What the line is -----

  /** It starts and ends where it should. */
  lemma LineJoinsItsEnds(from: Point, to: Point)
    ensures var line := Line(from, to); line[0] == from && line[|line| - 1] == to
    ensures |Line(from, to)| == Moves(from, to) + 1
  {
    var m := Moves(from, to);
    if m > 0 {
      RoundedEnds(Abs(to.x - from.x), m);
      RoundedEnds(Abs(to.y - from.y), m);
    }
  }

  /** Each move goes to a neighbour, by exactly one on the longer axis. */
  lemma NeighboursFollow(from: Point, to: Point, k: nat)
    requires k < Moves(from, to)
    ensures var p, q := Line(from, to)[k], Line(from, to)[k + 1];
            && Abs(q.x - p.x) <= 1 && Abs(q.y - p.y) <= 1
            && (Abs(to.x - from.x) >= Abs(to.y - from.y) ==> q.x == Toward(from.x, to.x, k + 1))
            && (Abs(to.x - from.x) <= Abs(to.y - from.y) ==> q.y == Toward(from.y, to.y, k + 1))
  {
    var m := Moves(from, to);
    RoundedGrows(k, Abs(to.x - from.x), m);
    RoundedGrows(k, Abs(to.y - from.y), m);
    RoundedMajor(k + 1, m);
  }

  predicate Between(a: int, b: int, n: int) {
    a <= n <= b || b <= n <= a
  }

  lemma RoundedStaysBelow(k: int, d: int, m: int)
    requires m > 0 && 0 <= d <= m && 0 <= k <= m
    ensures 0 <= Rounded(k, d, m) <= d
  {
    RoundedMonotone(0, k, d, m);
    RoundedMonotone(k, m, d, m);
    RoundedEnds(d, m);
  }

  /** No pixel leaves the bounding box of the two ends. */
  lemma LineStaysInBox(from: Point, to: Point, k: nat)
    requires k <= Moves(from, to)
    ensures var p := Line(from, to)[k]; Between(from.x, to.x, p.x) && Between(from.y, to.y, p.y)
  {
    var m := Moves(from, to);
    if m > 0 {
      RoundedStaysBelow(k, Abs(to.x - from.x), m);
      RoundedStaysBelow(k, Abs(to.y - from.y), m);
    }
  }

  /** Twice the cross product of the pixel's offset with the direction of the line. */
  function Deviation(from: Point, to: Point, p: Point): int {
    2 * ((p.x - from.x) * (to.y - from.y) - (p.y - from.y) * (to.x - from.x))
  }

  /** Every pixel is within half a pixel of the ideal line, measured along the shorter axis. */
  lemma LineIsWithinHalfAPixel(from: Point, to: Point, k: nat)
    requires k <= Moves(from, to)
    ensures -Moves(from, to) <= Deviation(from, to, Line(from, to)[k]) <= Moves(from, to)
  {
    var m, dx, dy := Moves(from, to), Abs(to.x - from.x), Abs(to.y - from.y);
    if m > 0 {
      var i, j, p := Rounded(k, dx, m), Rounded(k, dy, m), Line(from, to)[k];
      RoundedIff(k, dx, m, i);
      RoundedIff(k, dy, m, j);
      RoundedMajor(k, m);
      assert if dx == m then i == k else j == k && dy == m;
      assert -m <= 2 * (i * dy - j * dx) <= m;
      SignedCross(from, to, i, j);
    }
  }

  lemma SignedCross(from: Point, to: Point, i: int, j: int)
    ensures var dx, dy := Abs(to.x - from.x), Abs(to.y - from.y);
            var deviation := Deviation(from, to, Point(Toward(from.x, to.x, i), Toward(from.y, to.y, j)));
            deviation == 2 * (i * dy - j * dx) || deviation == -2 * (i * dy - j * dx)
  {
    var a, b := to.x - from.x, to.y - from.y;
    assert (-i) * b == -(i * b) && (-j) * a == -(j * a);
    assert i * (-b) == -(i * b) && j * (-a) == -(j * a);
  }

  // ----- The moves of the algorithm -----

  /** Steps taken on either axis so far, and the error term. */
  datatype Progress = Progress(i: nat, j: nat, err: int)

  function Move(p: Progress, dx: int, height: int): Progress {
    var right, down := 2 * p.err >= -height, 2 * p.err <= dx;
    Progress(if right then p.i + 1 else p.i, if down then p.j + 1 else p.j,
             p.err - (if right then height else 0) + if down then dx else 0)
  }

  function Walk(dx: int, height: int, k: nat): Progress {
    if k == 0 then Progress(0, 0, dx - height) else Move(Walk(dx, height, k - 1), dx, height)
  }

  /** `n` additions of `d`, as the error term accumulates them. */
  ghost function Times(n: nat, d: int): int {
    if n == 0 then 0 else Times(n - 1, d) + d
  }

  lemma {:induction false} TimesIsProduct(n: nat, d: int)
    ensures Times(n, d) == n * d
  {
    if n > 0 {
      TimesIsProduct(n - 1, d);
      assert n * d == (n - 1) * d + d;
    }
  }

  /** After `k` moves the error term measures the distance from the ideal line, which stays below half a pixel. */
  ghost predicate OnTrack(p: Progress, k: nat, dx: int, height: int) {
    var d := p.err - dx + height;
    && d == Times(p.j, dx) - Times(p.i, height)
    && if dx >= height then p.i == k && -dx < 2 * d <= dx else p.j == k && -height <= 2 * d < height
  }

  lemma MoveStaysOnTrack(p: Progress, k: nat, dx: int, height: int)
    requires OnTrack(p, k, dx, height) && 0 <= dx && 0 <= height
    ensures OnTrack(Move(p, dx, height), k + 1, dx, height)
  {
    assert Times(p.j + 1, dx) == Times(p.j, dx) + dx;
    assert Times(p.i + 1, height) == Times(p.i, height) + height;
    if dx >= height {
      WideMove(p.err - dx + height, dx, height);
    } else {
      TallMove(p.err - dx + height, dx, height);
    }
  }

  lemma WideMove(d: int, dx: int, height: int)
    requires dx >= height >= 0 && -dx < 2 * d <= dx
    ensures 2 * (d + dx - height) >= -height
    ensures -dx < 2 * (d - height + if 2 * (d + dx - height) <= dx then dx else 0) <= dx
  {
  }

  lemma TallMove(d: int, dx: int, height: int)
    requires height > dx >= 0 && -height <= 2 * d < height
    ensures 2 * (d + dx - height) <= dx
    ensures -height <= 2 * (d + dx - if 2 * (d + dx - height) >= -height then height else 0) < height
  {
  }

  lemma {:induction false} WalkStaysOnTrack(dx: int, height: int, k: nat)
    requires 0 <= dx && 0 <= height && Max(dx, height) > 0
    ensures OnTrack(Walk(dx, height, k), k, dx, height)
  {
    if k > 0 {
      WalkStaysOnTrack(dx, height, k - 1);
      MoveStaysOnTrack(Walk(dx, height, k - 1), k - 1, dx, height);
    }
  }

  lemma WalkIsRounded(dx: int, height: int, k: nat)
    requires 0 <= dx && 0 <= height && Max(dx, height) > 0
    ensures var p, m := Walk(dx, height, k), Max(dx, height); p.i == Rounded(k, dx, m) && p.j == Rounded(k, height, m)
  {
    var p, m := Walk(dx, height, k), Max(dx, height);
    WalkStaysOnTrack(dx, height, k);
    RoundedMajor(k, m);
    TimesIsProduct(p.j, dx);
    TimesIsProduct(p.i, height);
    if dx >= height {
      RoundedIff(k, height, m, p.j);
    } else {
      assert 2 * (p.i * m - k * dx) == -2 * (p.err - dx + height);
      RoundedIff(k, dx, m, p.i);
    }
  }

  /** The state of the algorithm after `k` moves between two points, and its next move. */
  function StateAt(from: Point, to: Point, k: nat): Progress {
    Walk(Abs(to.x - from.x), Abs(to.y - from.y), k)
  }

  function Next(from: Point, to: Point, p: Progress): Progress {
    Move(p, Abs(to.x - from.x), Abs(to.y - from.y))
  }

  lemma NextState(from: Point, to: Point, k: nat)
    ensures StateAt(from, to, k + 1) == Next(from, to, StateAt(from, to, k))
  {
  }

  /** Where the algorithm stands after `k` moves. */
  function StandsAt(from: Point, to: Point, k: nat): Point {
    var p := StateAt(from, to, k);
    Point(Toward(from.x, to.x, p.i), Toward(from.y, to.y, p.j))
  }

  lemma StandsOnRounded(from: Point, to: Point, k: nat)
    requires k <= Moves(from, to)
    ensures StandsAt(from, to, k) == PointAt(from, to, k)
  {
    if Moves(from, to) > 0 {
      WalkIsRounded(Abs(to.x - from.x), Abs(to.y - from.y), k);
    }
  }

  lemma OnlyLastIsEnd(from: Point, to: Point, k: nat)
    requires k <= Moves(from, to)
    ensures PointAt(from, to, k) == to <==> k == Moves(from, to)
  {
    var m := Moves(from, to);
    if m > 0 {
      RoundedMajor(k, m);
      RoundedEnds(Abs(to.x - from.x), m);
      RoundedEnds(Abs(to.y - from.y), m);
    }
  }

  /** After `k` moves that is pixel `k` of the line, and only after the last one its end. */
  lemma StandsOnLine(from: Point, to: Point, k: nat)
    requires k <= Moves(from, to)
    ensures StandsAt(from, to, k) == Line(from, to)[k]
    ensures StandsAt(from, to, k) == to <==> k == Moves(from, to)
  {
    StandsOnRounded(from, to, k);
    OnlyLastIsEnd(from, to, k);
  }

  lemma EndsOnlyThere(from: Point, to: Point, k: nat, p: Progress)
    requires k <= Moves(from, to) && p == StateAt(from, to, k)
    ensures StandsAt(from, to, k) == Point(Toward(from.x, to.x, p.i), Toward(from.y, to.y, p.j))
    ensures StandsAt(from, to, k) == to <==> k == Moves(from, to)
  {
    StandsOnLine(from, to, k);
  }

  function Trail(from: Point, to: Point, n: nat): (t: seq<Point>)
    ensures |t| == n
  {
    if n == 0 then [] else Trail(from, to, n - 1) + [StandsAt(from, to, n - 1)]
  }

  lemma {:induction false} TrailIsLine(from: Point, to: Point, n: nat)
    requires n <= Moves(from, to) + 1
    ensures Trail(from, to, n) == Line(from, to)[..n]
    ensures n == Moves(from, to) + 1 ==> Trail(from, to, n) == Line(from, to)
  {
    if n > 0 {
      TrailIsLine(from, to, n - 1);
      StandsOnLine(from, to, n - 1);
    }
  }

  /** `plotted` lists the pixels in the order in which they are set. */
  method DrawLine(img: Image, startX: int, startY: int, x1: int, y1: int, ink: int) returns (ghost plotted: seq<Point>)
    modifies img.pixels
    ensures plotted == Line(Point(startX, startY), Point(x1, y1))
    ensures forall a, b :: img.Contains(a, b) ==>
              img.pixels[a, b] == if Point(a, b) in plotted then ink else old(img.pixels[a, b])
  {
    var x0, y0 := startX, startY;
    var dx: int := Abs(x1 - x0);
    var dy: int := -Abs(y1 - y0);
    var sx, sy := -1, -1;
    if x0 < x1 { sx := 1; }
    if y0 < y1 { sy := 1; }
    var errValue := dx + dy;
    ghost var from, to := Point(startX, startY), Point(x1, y1);
    ghost var p, k: nat := StateAt(from, to, 0), 0;
    plotted := [];
    while true
      invariant k <= Moves(from, to) && plotted == Trail(from, to, k)
      invariant p == StateAt(from, to, k) && errValue == p.err
      invariant x0 == Toward(from.x, to.x, p.i) && y0 == Toward(from.y, to.y, p.j)
      invariant forall a, b :: img.Contains(a, b) ==>
                  img.pixels[a, b] == if Point(a, b) in plotted then ink else old(img.pixels[a, b])
      decreases Moves(from, to) - k
    {
      EndsOnlyThere(from, to, k, p);
      NextState(from, to, k);
      img.Set(x0, y0, ink);
      plotted := plotted + [Point(x0, y0)];
      k := k + 1;
      if x0 == x1 && y0 == y1 {
        TrailIsLine(from, to, k);
        return;
      }
      x0, y0, errValue, p := Advance(from, to, p, x0, y0, dx, dy, sx, sy, errValue);
    }
  }

  /** The rest of one round: a step on either axis or on both, decided by the error term as it was. */
  method Advance(ghost from: Point, ghost to: Point, ghost p: Progress,
                 x: int, y: int, dx: int, dy: int, sx: int, sy: int, err: int)
    returns (x0: int, y0: int, errValue: int, ghost q: Progress)
    requires dx == Abs(to.x - from.x) && -dy == Abs(to.y - from.y)
    requires sx == (if from.x < to.x then 1 else -1) && sy == (if from.y < to.y then 1 else -1)
    requires x == Toward(from.x, to.x, p.i) && y == Toward(from.y, to.y, p.j) && err == p.err
    ensures q == Next(from, to, p)
    ensures x0 == Toward(from.x, to.x, q.i) && y0 == Toward(from.y, to.y, q.j) && errValue == q.err
  {
    x0, y0, errValue := x, y, err;
    q := Next(from, to, p);
    var e2 := 2 * errValue;
    if e2 >= dy {
      errValue := errValue + dy;
      x0 := x0 + sx;
    }
    if e2 <= dx {
      errValue := errValue + dx;
      y0 := y0 + sy;
    }
  }
}

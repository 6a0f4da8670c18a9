/** native/scu_host.c: does a drag cross a tile? C doubles are reals here. */
module SlabTest {
  datatype Tile = Tile(x: real, y: real, width: real, height: real)

  /** rect_contains: the left and upper edges belong to the tile, the others do not. */
  predicate Contains(tile: Tile, x: real, y: real) {
    tile.x <= x < tile.x + tile.width && tile.y <= y < tile.y + tile.height
  }

  /** Where the drag is after the part `t` of its way. */
  function At(origin: real, delta: real, t: real): real {
    origin + t * delta
  }

  /** The way from `a` to `b`, without its ends, lies in the tile. */
  ghost predicate InsideBetween(tile: Tile, x: real, y: real, dx: real, dy: real, a: real, b: real) {
    forall t: real :: a < t < b ==> Contains(tile, At(x, dx, t), At(y, dy, t))
  }

  /** Some piece of the way that is more than a moment lies in the tile. */
  ghost predicate Crosses(tile: Tile, x: real, y: real, dx: real, dy: real) {
    exists a: real, b: real :: 0.0 <= a < b <= 1.0 && InsideBetween(tile, x, y, dx, dy, a, b)
  }

  function Min(a: real, b: real): real {
    if a < b then a else b
  }

  function Max(a: real, b: real): real {
    if a < b then b else a
  }

  /** When a coordinate passes a bound. */
  function Reaches(origin: real, delta: real, bound: real): real
    requires delta != 0.0
  {
    (bound - origin) / delta
  }

  lemma ReachesBound(origin: real, delta: real, bound: real)
    requires delta != 0.0
    ensures At(origin, delta, Reaches(origin, delta, bound)) == bound
  {
  }

  lemma Ordered(delta: real, s: real, t: real)
    requires s < t
    ensures delta > 0.0 ==> s * delta < t * delta
    ensures delta < 0.0 ==> s * delta > t * delta
  {
    assert (t - s) * delta == t * delta - s * delta;
    if delta > 0.0 {
      assert (t - s) * delta > 0.0;
    } else if delta < 0.0 {
      assert (t - s) * (0.0 - delta) > 0.0;
    }
  }

  /** Between the moments of its two bounds, and only there, a moving coordinate is between the bounds. */
  lemma Slab(origin: real, delta: real, low: real, high: real, t: real)
    requires delta != 0.0 && low <= high
    ensures var a, b := Reaches(origin, delta, low), Reaches(origin, delta, high);
      && (Min(a, b) < t < Max(a, b) ==> low < At(origin, delta, t) < high)
      && (low <= At(origin, delta, t) <= high ==> Min(a, b) <= t <= Max(a, b))
  {
    var a, b := Reaches(origin, delta, low), Reaches(origin, delta, high);
    ReachesBound(origin, delta, low);
    ReachesBound(origin, delta, high);
    Compare(origin, delta, a, t);
    Compare(origin, delta, t, b);
    Compare(origin, delta, b, t);
    Compare(origin, delta, t, a);
    Compare(origin, delta, a, b);
    Compare(origin, delta, b, a);
    hide At, Reaches;
  }

  lemma Compare(origin: real, delta: real, s: real, t: real)
    requires delta != 0.0
    ensures s < t && delta > 0.0 ==> At(origin, delta, s) < At(origin, delta, t)
    ensures s < t && delta < 0.0 ==> At(origin, delta, s) > At(origin, delta, t)
  {
    if s < t {
      Ordered(delta, s, t);
    }
  }

  // ---- The test ----

  /** One axis: what is left of the span, or None for an axis the drag does not move on and does not meet. */
  datatype Span = Missed | Span(enter: real, leave: real)

  function Narrowed(span: Span, origin: real, delta: real, low: real, high: real): Span
    requires span.Span?
  {
    if delta == 0.0 then if origin < low || origin >= high then Missed else span
    else
      var a, b := Reaches(origin, delta, low), Reaches(origin, delta, high);
      Span(Max(span.enter, Min(a, b)), Min(span.leave, Max(a, b)))
  }

  predicate OnAxis(origin: real, delta: real, low: real, high: real, t: real) {
    low <= At(origin, delta, t) < high
  }

  /** Inside what is left of a span the coordinate is within its bounds. */
  lemma NarrowedInside(span: Span, origin: real, delta: real, low: real, high: real, t: real)
    requires span.Span? && low <= high
    ensures var rest := Narrowed(span, origin, delta, low, high);
      rest.Span? ==> span.enter <= rest.enter && rest.leave <= span.leave
                     && (rest.enter < t < rest.leave ==> OnAxis(origin, delta, low, high, t))
  {
    if delta != 0.0 {
      Slab(origin, delta, low, high, t);
    }
  }

  /** A piece within the bounds is within what is left of the span. */
  lemma NarrowedKeeps(span: Span, origin: real, delta: real, low: real, high: real, a: real, b: real)
    requires span.Span? && low <= high && span.enter <= a < b <= span.leave
    requires forall t: real :: a < t < b ==> OnAxis(origin, delta, low, high, t)
    ensures var rest := Narrowed(span, origin, delta, low, high); rest.Span? && rest.enter <= a && b <= rest.leave
  {
    var middle := (a + b) / 2.0;
    assert OnAxis(origin, delta, low, high, middle);
    if delta != 0.0 {
      var first := Min(Reaches(origin, delta, low), Reaches(origin, delta, high));
      var last := Max(Reaches(origin, delta, low), Reaches(origin, delta, high));
      var early, late := (a + Min(first, b)) / 2.0, (Max(last, a) + b) / 2.0;
      assert a < early < b ==> OnAxis(origin, delta, low, high, early);
      assert a < late < b ==> OnAxis(origin, delta, low, high, late);
      Slab(origin, delta, low, high, early);
      Slab(origin, delta, low, high, late);
      hide Reaches, At;
    }
  }

  function Spanned(tile: Tile, x: real, y: real, dx: real, dy: real): Span {
    var first := Narrowed(Span(0.0, 1.0), x, dx, tile.x, tile.x + tile.width);
    if first.Missed? then Missed else Narrowed(first, y, dy, tile.y, tile.y + tile.height)
  }

  predicate Found(tile: Tile, x: real, y: real, dx: real, dy: real) {
    var span := Spanned(tile, x, y, dx, dy);
    span.Span? && span.enter < span.leave
  }

  lemma FoundCrosses(tile: Tile, x: real, y: real, dx: real, dy: real)
    requires tile.width >= 0.0 && tile.height >= 0.0 && Found(tile, x, y, dx, dy)
    ensures Crosses(tile, x, y, dx, dy)
  {
    var first := Narrowed(Span(0.0, 1.0), x, dx, tile.x, tile.x + tile.width);
    var span := Spanned(tile, x, y, dx, dy);
    NarrowedInside(Span(0.0, 1.0), x, dx, tile.x, tile.x + tile.width, 0.0);
    NarrowedInside(first, y, dy, tile.y, tile.y + tile.height, 0.0);
    forall t: real | span.enter < t < span.leave ensures Contains(tile, At(x, dx, t), At(y, dy, t)) {
      NarrowedInside(Span(0.0, 1.0), x, dx, tile.x, tile.x + tile.width, t);
      NarrowedInside(first, y, dy, tile.y, tile.y + tile.height, t);
    }
    assert InsideBetween(tile, x, y, dx, dy, span.enter, span.leave);
  }

  lemma CrossesFound(tile: Tile, x: real, y: real, dx: real, dy: real)
    requires tile.width >= 0.0 && tile.height >= 0.0 && Crosses(tile, x, y, dx, dy)
    ensures Found(tile, x, y, dx, dy)
  {
    var a: real, b: real :| 0.0 <= a < b <= 1.0 && InsideBetween(tile, x, y, dx, dy, a, b);
    var right, bottom := tile.x + tile.width, tile.y + tile.height;
    forall t: real | a < t < b ensures OnAxis(x, dx, tile.x, right, t) {
      assert Contains(tile, At(x, dx, t), At(y, dy, t));
    }
    forall t: real | a < t < b ensures OnAxis(y, dy, tile.y, bottom, t) {
      assert Contains(tile, At(x, dx, t), At(y, dy, t));
    }
    NarrowedKeeps(Span(0.0, 1.0), x, dx, tile.x, tile.x + tile.width, a, b);
    NarrowedKeeps(Narrowed(Span(0.0, 1.0), x, dx, tile.x, tile.x + tile.width), y, dy, tile.y, tile.y + tile.height, a, b);
  }

  /** drag_crosses_tile: true exactly when a piece of the drag, or the point that it stays at, lies in the tile. */
  method DragCrossesTile(tile: Tile, x: real, y: real, toX: real, toY: real) returns (crosses: bool)
    requires tile.width >= 0.0 && tile.height >= 0.0
    ensures crosses <==> Crosses(tile, x, y, toX - x, toY - y)
  {
    var enter, leave := 0.0, 1.0;
    var origins, deltas := [x, y], [toX - x, toY - y];
    var minimum, maximum := [tile.x, tile.y], [tile.x + tile.width, tile.y + tile.height];
    if Crosses(tile, x, y, toX - x, toY - y) {
      CrossesFound(tile, x, y, toX - x, toY - y);
    }
    if Found(tile, x, y, toX - x, toY - y) {
      FoundCrosses(tile, x, y, toX - x, toY - y);
    }
    var axis := 0;
    while axis < 2
      invariant 0 <= axis <= 2
      invariant axis == 0 ==> enter == 0.0 && leave == 1.0
      invariant axis == 1 ==> Span(enter, leave) == Narrowed(Span(0.0, 1.0), x, toX - x, tile.x, tile.x + tile.width)
      invariant axis == 2 ==> Span(enter, leave) == Spanned(tile, x, y, toX - x, toY - y)
    {
      if deltas[axis] == 0.0 {
        if origins[axis] < minimum[axis] || origins[axis] >= maximum[axis] {
          return false;
        }
      } else {
        var a := (minimum[axis] - origins[axis]) / deltas[axis];
        var b := (maximum[axis] - origins[axis]) / deltas[axis];
        enter := Max(enter, Min(a, b));
        leave := Min(leave, Max(a, b));
      }
      axis := axis + 1;
    }
    crosses := enter < leave;
  }

  /** A drag that stays where it is crosses the tile that holds its point, and no other. */
  lemma PointCrosses(tile: Tile, x: real, y: real)
    requires tile.width >= 0.0 && tile.height >= 0.0
    ensures Crosses(tile, x, y, 0.0, 0.0) <==> Contains(tile, x, y)
  {
    if Crosses(tile, x, y, 0.0, 0.0) {
      CrossesFound(tile, x, y, 0.0, 0.0);
    }
    if Contains(tile, x, y) {
      FoundCrosses(tile, x, y, 0.0, 0.0);
    }
  }
}

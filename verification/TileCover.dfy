/** The raster tiles of the merchant's map: which tiles a view is made of, where they are put, and under
    which keys.  The projected centre of the view is an input. */
module TileCover {
  import opened JsNumbers

  const TILE_SIZE := 256

  function Pow2(n: nat): (p: nat)
    ensures p >= 1
  {
    if n == 0 then 1 else 2 * Pow2(n - 1)
  }

  /** The number of tiles across the world doubles with each zoom level: m levels on, 2 to the power m times. */
  lemma {:induction false} Doubles(m: nat, n: nat)
    ensures Pow2(0) == 1 && Pow2(1) == 2
    ensures Pow2(m + n) == Pow2(m) * Pow2(n)
  {
    if m == 0 {
      assert Pow2(0) == 1 && Pow2(1) == 2 * Pow2(0);
    } else {
      Doubles(m - 1, n);
      assert Pow2(m + n) == 2 * Pow2(m - 1 + n);
    }
  }

  /** A view of the world map at a zoom level: its centre in world pixels and its size. */
  datatype View = View(centreX: real, centreY: real, zoom: nat, width: real, height: real) {
    function Left(): real { centreX - width / 2.0 }
    function Top(): real { centreY - height / 2.0 }
    function FirstX(): int { (Left() / 256.0).Floor }
    function FirstY(): int { (Top() / 256.0).Floor }
    function LastX(): int { ((Left() + width) / 256.0).Floor }
    function LastY(): int { ((Top() + height) / 256.0).Floor }
    function TileCount(): nat { Pow2(zoom) }
  }

  /** A tile's key is its zoom, column and row; `left` and `top` place it in the view. */
  datatype Tile = Tile(zoom: nat, column: int, row: int, left: real, top: real)

  function Wrapped(x: int, count: nat): int
    requires count > 0
  {
    JsRemainder(JsRemainder(x, count) + count, count)
  }

  function TileAt(v: View, x: int, y: int): Tile {
    Tile(v.zoom, Wrapped(x, v.TileCount()), y, (x * TILE_SIZE) as real - v.Left(), (y * TILE_SIZE) as real - v.Top())
  }

  // ---------------------------------------------------------------- the loops

  /** The tiles of row y up to column x, and of all rows up to y. */
  function RowTiles(v: View, x: int, y: int): seq<Tile>
    decreases x - v.FirstX()
  {
    if x < v.FirstX() then [] else RowTiles(v, x - 1, y) + [TileAt(v, x, y)]
  }

  function TilesUpTo(v: View, y: int): seq<Tile>
    decreases y - v.FirstY()
  {
    if y < v.FirstY() then []
    else TilesUpTo(v, y - 1) + (if 0 <= y < v.TileCount() then RowTiles(v, v.LastX(), y) else [])
  }

  function Tiles(v: View): seq<Tile> {
    TilesUpTo(v, v.LastY())
  }

  method TilesForPoint(v: View) returns (tiles: seq<Tile>)
    requires v.width >= 0.0 && v.height >= 0.0
    ensures tiles == Tiles(v)
  {
    var firstTileX, firstTileY, lastTileX, lastTileY := v.FirstX(), v.FirstY(), v.LastX(), v.LastY();
    var tileCount := v.TileCount();
    tiles := [];
    var tileY := firstTileY;
    FloorMonotone(v.Top() / 256.0, (v.Top() + v.height) / 256.0);
    FloorMonotone(v.Left() / 256.0, (v.Left() + v.width) / 256.0);
    while tileY <= lastTileY
      invariant firstTileY <= tileY <= lastTileY + 1
      invariant tiles == TilesUpTo(v, tileY - 1)
    {
      if 0 <= tileY < tileCount {
        var tileX := firstTileX;
        while tileX <= lastTileX
          invariant firstTileX <= tileX <= lastTileX + 1
          invariant tiles == TilesUpTo(v, tileY - 1) + RowTiles(v, tileX - 1, tileY)
        {
          tiles := tiles + [TileAt(v, tileX, tileY)];
          tileX := tileX + 1;
        }
      }
      tileY := tileY + 1;
    }
  }

  // ---------------------------------------------------------------- which tiles there are

  lemma FloorMonotone(a: real, b: real)
    requires a <= b
    ensures a.Floor <= b.Floor
  {}

  predicate Position(v: View, x: int, y: int) {
    v.FirstX() <= x <= v.LastX() && v.FirstY() <= y <= v.LastY() && 0 <= y < v.TileCount()
  }

  function Columns(v: View): int {
    v.LastX() - v.FirstX() + 1
  }

  lemma {:induction false} RowTileIs(v: View, x: int, y: int)
    requires x >= v.FirstX() - 1
    ensures |RowTiles(v, x, y)| == x - v.FirstX() + 1
    ensures forall i :: 0 <= i < |RowTiles(v, x, y)| ==> RowTiles(v, x, y)[i] == TileAt(v, v.FirstX() + i, y)
    decreases x - v.FirstX()
  {
    if x >= v.FirstX() {
      RowTileIs(v, x - 1, y);
    }
  }

  /** Index i of the tiles up to row y stands for the position it returns; distinct indices stand for
      distinct positions. */
  lemma {:induction false} TileIs(v: View, y: int, i: nat) returns (tx: int, ty: int)
    requires y <= v.LastY() && v.FirstX() <= v.LastX() + 1 && i < |TilesUpTo(v, y)|
    ensures Position(v, tx, ty) && ty <= y && TilesUpTo(v, y)[i] == TileAt(v, tx, ty)
    decreases y - v.FirstY()
  {
    var before := TilesUpTo(v, y - 1);
    if i < |before| {
      tx, ty := TileIs(v, y - 1, i);
    } else {
      RowTileIs(v, v.LastX(), y);
      tx, ty := v.FirstX() + i - |before|, y;
    }
  }

  lemma {:induction false} IndexOf(v: View, y: int, tx: int, ty: int) returns (i: nat)
    requires y <= v.LastY() && Position(v, tx, ty) && ty <= y
    ensures i < |TilesUpTo(v, y)| && TilesUpTo(v, y)[i] == TileAt(v, tx, ty)
    decreases y - v.FirstY()
  {
    if ty == y {
      RowTileIs(v, v.LastX(), y);
      i := |TilesUpTo(v, y - 1)| + (tx - v.FirstX());
    } else {
      i := IndexOf(v, y - 1, tx, ty);
    }
  }

  /** No position is emitted twice. */
  lemma {:induction false} EmittedOnce(v: View, y: int, i: nat, j: nat)
    requires y <= v.LastY() && v.FirstX() <= v.LastX() + 1 && i < j < |TilesUpTo(v, y)|
    ensures TilesUpTo(v, y)[i].left != TilesUpTo(v, y)[j].left || TilesUpTo(v, y)[i].top != TilesUpTo(v, y)[j].top
    decreases y - v.FirstY()
  {
    var before := TilesUpTo(v, y - 1);
    RowTileIs(v, v.LastX(), y);
    if j < |before| {
      EmittedOnce(v, y - 1, i, j);
    } else if i < |before| {
      var tx, ty := TileIs(v, y - 1, i);
    }
  }

  // ---------------------------------------------------------------- exact cover

  predicate Covers(t: Tile, x: real, y: real) {
    t.left <= x < t.left + 256.0 && t.top <= y < t.top + 256.0
  }

  predicate InView(v: View, x: real, y: real) {
    0.0 <= x <= v.width && 0.0 <= y <= v.height
  }

  /** The point's world row lies on the map. */
  predicate OnMap(v: View, y: real) {
    0.0 <= v.centreY - v.height / 2.0 + y < (Pow2(v.zoom) * 256) as real
  }

  /** The tile of a world coordinate is the one whose span holds it. */
  lemma Span(a: real, n: int)
    ensures (n * TILE_SIZE) as real <= a < (n * TILE_SIZE) as real + 256.0 <==> (a / 256.0).Floor == n
  {}

  lemma CoversExactly(v: View, tx: int, ty: int, x: real, y: real)
    ensures Covers(TileAt(v, tx, ty), x, y) <==>
            ((v.Left() + x) / 256.0).Floor == tx && ((v.Top() + y) / 256.0).Floor == ty
  {
    Span(v.Left() + x, tx);
    Span(v.Top() + y, ty);
  }

  lemma OnMapExactly(v: View, y: real)
    ensures OnMap(v, y) <==> 0 <= ((v.Top() + y) / 256.0).Floor < v.TileCount()
  {}

  /** Every point of the view whose world row is on the map lies in exactly one of the tiles, and that
      tile shows the part of the world the point stands for. */
  lemma ExactCover(v: View, x: real, y: real) returns (i: nat)
    requires InView(v, x, y) && OnMap(v, y)
    ensures i < |Tiles(v)| && Covers(Tiles(v)[i], x, y)
    ensures forall j: nat :: j < |Tiles(v)| && Covers(Tiles(v)[j], x, y) ==> j == i
    ensures Tiles(v)[i].zoom == v.zoom
    ensures Tiles(v)[i].row == ((v.centreY - v.height / 2.0 + y) / 256.0).Floor
    ensures Tiles(v)[i].column == ((v.centreX - v.width / 2.0 + x) / 256.0).Floor % Pow2(v.zoom)
  {
    var tx, ty := ((v.Left() + x) / 256.0).Floor, ((v.Top() + y) / 256.0).Floor;
    FloorMonotone(v.Left() / 256.0, (v.Left() + x) / 256.0);
    FloorMonotone((v.Left() + x) / 256.0, (v.Left() + v.width) / 256.0);
    FloorMonotone(v.Top() / 256.0, (v.Top() + y) / 256.0);
    FloorMonotone((v.Top() + y) / 256.0, (v.Top() + v.height) / 256.0);
    OnMapExactly(v, y);
    i := IndexOf(v, v.LastY(), tx, ty);
    CoversExactly(v, tx, ty, x, y);
    WrappedIs(tx, v.TileCount());
    forall j: nat | j < |Tiles(v)| && Covers(Tiles(v)[j], x, y) ensures j == i {
      var ux, uy := TileIs(v, v.LastY(), j);
      CoversExactly(v, ux, uy, x, y);
      if j < i {
        EmittedOnce(v, v.LastY(), j, i);
      } else if i < j {
        EmittedOnce(v, v.LastY(), i, j);
      }
    }
  }

  /** A point of the view is covered if and only if its world row is on the map. */
  lemma CoveredExactly(v: View, x: real, y: real)
    requires InView(v, x, y)
    ensures (exists i: nat :: i < |Tiles(v)| && Covers(Tiles(v)[i], x, y)) <==> OnMap(v, y)
  {
    if OnMap(v, y) {
      var i := ExactCover(v, x, y);
    } else {
      FloorMonotone(v.Left() / 256.0, (v.Left() + v.width) / 256.0);
      forall i: nat | i < |Tiles(v)| ensures !Covers(Tiles(v)[i], x, y) {
        var tx, ty := TileIs(v, v.LastY(), i);
        CoversExactly(v, tx, ty, x, y);
        OnMapExactly(v, y);
      }
    }
  }

  /** No tile is wasted: each one reaches into the view. */
  lemma TilesTouchView(v: View, i: nat)
    requires v.width >= 0.0 && v.height >= 0.0 && i < |Tiles(v)|
    ensures var t := Tiles(v)[i];
            t.left <= v.width && t.left + 256.0 > 0.0 && t.top <= v.height && t.top + 256.0 > 0.0 &&
            t.zoom == v.zoom && 0 <= t.column < Pow2(v.zoom) && 0 <= t.row < Pow2(v.zoom)
  {
    FloorMonotone(v.Left() / 256.0, (v.Left() + v.width) / 256.0);
    var tx, ty := TileIs(v, v.LastY(), i);
    WrappedIs(tx, v.TileCount());
  }

  // ---------------------------------------------------------------- keys

  lemma ModIs(x: int, q: int, r: int, n: int)
    requires 0 <= r < n && x == q * n + r
    ensures x % n == r
  {
    var k := x / n;
    assert (q - k) * n == x % n - r;
    Multiples(q - k, n);
  }

  lemma Multiples(d: int, n: int)
    requires n > 0
    ensures d >= 1 ==> d * n >= n
    ensures d <= -1 ==> d * n <= -n
  {
    if d >= 1 {
      assert (d - 1) * n >= 0;
    } else if d <= -1 {
      assert (-d - 1) * n >= 0;
    }
  }

  /** Wrapping with the truncating remainder gives the residue. */
  lemma WrappedIs(x: int, count: nat)
    requires count > 0
    ensures Wrapped(x, count) == x % count && 0 <= x % count < count
  {
    if x >= 0 {
      ModIs(x % count + count, 1, x % count, count);
    } else {
      var k, s := (-x) / count, (-x) % count;
      if s == 0 {
        ModIs(count, 1, 0, count);
        ModIs(x, -k, 0, count);
      } else {
        ModIs(count - s, 0, count - s, count);
        ModIs(x, -k - 1, count - s, count);
      }
    }
  }

  predicate SameKey(a: Tile, b: Tile) {
    a.zoom == b.zoom && a.column == b.column && a.row == b.row
  }

  ghost predicate KeysDistinct(tiles: seq<Tile>) {
    forall i: nat, j: nat :: i < j < |tiles| ==> !SameKey(tiles[i], tiles[j])
  }

  lemma ResiduesDiffer(x: int, y: int, count: nat)
    requires count > 0 && x < y < x + count
    ensures x % count != y % count
  {
    if x % count == y % count {
      var d := y / count - x / count;
      assert d * count == y - x;
      Multiples(d, count);
    }
  }

  lemma NextTurn(x: int, count: nat)
    requires count > 0
    ensures (x + count) % count == x % count
  {
    ModIs(x + count, x / count + 1, x % count, count);
  }

  /** The keys are distinct if and only if the view is at most one world wide, or shows no row of it. */
  lemma KeysDistinctExactly(v: View)
    requires v.width >= 0.0 && v.height >= 0.0
    ensures KeysDistinct(Tiles(v)) <==> Columns(v) <= v.TileCount() || Tiles(v) == []
  {
    FloorMonotone(v.Left() / 256.0, (v.Left() + v.width) / 256.0);
    if Columns(v) <= v.TileCount() {
      forall i: nat, j: nat | i < j < |Tiles(v)| ensures !SameKey(Tiles(v)[i], Tiles(v)[j]) {
        DifferentKeys(v, i, j);
      }
    } else if Tiles(v) != [] {
      var tx, ty := TileIs(v, v.LastY(), 0);
      var i := IndexOf(v, v.LastY(), v.FirstX(), ty);
      var j := IndexOf(v, v.LastY(), v.FirstX() + v.TileCount(), ty);
      WrappedIs(v.FirstX(), v.TileCount());
      WrappedIs(v.FirstX() + v.TileCount(), v.TileCount());
      NextTurn(v.FirstX(), v.TileCount());
      assert SameKey(Tiles(v)[i], Tiles(v)[j]);
      assert i != j;
      assert SameKey(Tiles(v)[j], Tiles(v)[i]);
    }
  }

  lemma DifferentKeys(v: View, i: nat, j: nat)
    requires i < j < |Tiles(v)| && v.FirstX() <= v.LastX() + 1 && Columns(v) <= v.TileCount()
    ensures !SameKey(Tiles(v)[i], Tiles(v)[j])
  {
    var ix, iy := TileIs(v, v.LastY(), i);
    var jx, jy := TileIs(v, v.LastY(), j);
    EmittedOnce(v, v.LastY(), i, j);
    WrappedIs(ix, v.TileCount());
    WrappedIs(jx, v.TileCount());
    if ix < jx {
      ResiduesDiffer(ix, jx, v.TileCount());
    } else if jx < ix {
      ResiduesDiffer(jx, ix, v.TileCount());
    }
  }
}

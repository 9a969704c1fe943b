/**
 * The rendering layers of the tile game.  A layer draws tiles of a sprite
 * sheet onto a surface; a surface is modelled by the sequence of draws made
 * on it.  `ArrayLayer` draws a terrain grid once into a cached surface and
 * redraws it only after its tileset changes; `UnitsLayer` draws every unit
 * on every frame.
 */
module AlexGameLayers {
  import opened Wrappers
  import opened AlexGameState

  /** `pygame.Rect(x, y, width, height)`. */
  datatype Rect = Rect(x: int, y: int, width: int, height: int)

  /** One `blit`: the texture rectangle `source` drawn at screen point `dest`,
      rotated by `angle` degrees when an angle is given. */
  datatype Blit = Blit(dest: Vec, source: Rect, angle: Option<int>)

  /** `Layer.renderTile`: grid cell `position` goes to screen point
      `position * cellSize`, and sprite-sheet cell `tile` is the texture
      rectangle at `tile * cellSize` of one cell's size. */
  function RenderTile(cellSize: Vec, position: Vec, tile: Vec, angle: Option<int>): Blit {
    Blit(Vec(position.x * cellSize.x, position.y * cellSize.y),
         Rect(tile.x * cellSize.x, tile.y * cellSize.y, cellSize.x, cellSize.y),
         angle)
  }

  predicate InRect(r: Rect, px: int, py: int) {
    r.x <= px < r.x + r.width && r.y <= py < r.y + r.height
  }

  /** The screen area a blit covers (before any rotation). */
  function ScreenRect(b: Blit): Rect {
    Rect(b.dest.x, b.dest.y, b.source.width, b.source.height)
  }

  /** Along one axis, coordinate `a` lies in cell `k` of width `w` exactly when `k` is `a / w`. */
  lemma CellOfCoordinate(a: int, k: int, w: int)
    requires w > 0
    ensures k * w <= a < k * w + w <==> k == a / w
  {
    var q, r := a / w, a % w;
    assert a == q * w + r && 0 <= r < w;
    if k * w <= a < k * w + w {
      var d := q - k;
      assert d * w == q * w - k * w;
    }
  }

  /** With a positive cell size, unrotated tiles drawn for different cells
      never overlap and leave no gap: a screen pixel is covered by exactly the
      cell that contains it.  Likewise each sprite-sheet pixel belongs to
      exactly one tile. */
  lemma TilesPartitionThePlane(cellSize: Vec, position: Vec, tile: Vec, px: int, py: int)
    requires cellSize.x > 0 && cellSize.y > 0
    ensures InRect(ScreenRect(RenderTile(cellSize, position, tile, None)), px, py)
        <==> position == Vec(px / cellSize.x, py / cellSize.y)
    ensures InRect(RenderTile(cellSize, position, tile, None).source, px, py)
        <==> tile == Vec(px / cellSize.x, py / cellSize.y)
  {
    CellOfCoordinate(px, position.x, cellSize.x);
    CellOfCoordinate(py, position.y, cellSize.y);
    CellOfCoordinate(px, tile.x, cellSize.x);
    CellOfCoordinate(py, tile.y, cellSize.y);
  }

  // ---------------------------------------------------------------------------
  // The terrain traversal of ArrayLayer.render
  // ---------------------------------------------------------------------------

  /** A drawn grid cell and the tile it holds. */
  datatype TileAt = TileAt(position: Vec, tile: Vec)

  /** How many values `range(n)` yields. */
  function RangeLength(n: int): nat {
    if n < 0 then 0 else n
  }

  /** `grid[y][x]` exists for every cell of a `columns` by `rows` world. */
  predicate Covers(grid: seq<seq<Option<Vec>>>, columns: nat, rows: nat) {
    rows <= |grid| && forall y :: 0 <= y < rows ==> columns <= |grid[y]|
  }

  /** Cell `(x, y)` as drawn: nothing when it is empty. */
  function CellTile(grid: seq<seq<Option<Vec>>>, y: nat, x: nat): seq<TileAt>
    requires y < |grid| && x < |grid[y]|
  {
    match grid[y][x]
    case None => []
    case Some(t) => [TileAt(Vec(x, y), t)]
  }

  /** The non-empty cells `x < n` of row `y`, left to right. */
  function RowTiles(grid: seq<seq<Option<Vec>>>, y: nat, n: nat): seq<TileAt>
    requires y < |grid| && n <= |grid[y]|
  {
    if n == 0 then [] else RowTiles(grid, y, n - 1) + CellTile(grid, y, n - 1)
  }

  /** The non-empty cells of the first `rows` rows, row by row (y outer, x inner). */
  function GridTiles(grid: seq<seq<Option<Vec>>>, columns: nat, rows: nat): seq<TileAt>
    requires Covers(grid, columns, rows)
  {
    if rows == 0 then [] else GridTiles(grid, columns, rows - 1) + RowTiles(grid, rows - 1, columns)
  }

  /** Properties of a sequence of drawn cells `g`. */

  /** Each entry is a cell of the grid, with the tile that cell holds. */
  predicate FromGrid(grid: seq<seq<Option<Vec>>>, g: seq<TileAt>) {
    forall k :: 0 <= k < |g| ==>
      var p := g[k].position;
      0 <= p.y < |grid| && 0 <= p.x < |grid[p.y]| && grid[p.y][p.x] == Some(g[k].tile)
  }

  /** Each entry lies in columns `[0, columns)` and rows `[top, bottom)`. */
  predicate Within(g: seq<TileAt>, columns: int, top: int, bottom: int) {
    forall k :: 0 <= k < |g| ==>
      0 <= g[k].position.x < columns && top <= g[k].position.y < bottom
  }

  /** Row-major order: earlier row, or same row and earlier column. */
  predicate RowMajorBefore(p: Vec, q: Vec) {
    p.y < q.y || (p.y == q.y && p.x < q.x)
  }

  /** Entries are in strictly increasing row-major order (so none repeats). */
  predicate RowMajor(g: seq<TileAt>) {
    forall k, l :: 0 <= k < l < |g| ==> RowMajorBefore(g[k].position, g[l].position)
  }

  /** Every non-empty cell in columns `[0, columns)` and rows `[top, bottom)` has an entry. */
  predicate Complete(grid: seq<seq<Option<Vec>>>, g: seq<TileAt>, columns: int, top: int, bottom: int) {
    forall y, x ::
      (top <= y < bottom && 0 <= x < columns && 0 <= y < |grid| && 0 <= x < |grid[y]| && grid[y][x].Some?)
      ==> exists k :: 0 <= k < |g| && g[k].position == Vec(x, y)
  }

  lemma FromGridAppend(grid: seq<seq<Option<Vec>>>, a: seq<TileAt>, b: seq<TileAt>)
    requires FromGrid(grid, a) && FromGrid(grid, b)
    ensures FromGrid(grid, a + b)
  {
    forall k | 0 <= k < |a + b| ensures (a + b)[k] == if k < |a| then a[k] else b[k - |a|] {}
  }

  lemma WithinAppend(a: seq<TileAt>, b: seq<TileAt>, columns: int, top: int, bottom: int)
    requires Within(a, columns, top, bottom) && Within(b, columns, top, bottom)
    ensures Within(a + b, columns, top, bottom)
  {
    forall k | 0 <= k < |a + b| ensures (a + b)[k] == if k < |a| then a[k] else b[k - |a|] {}
  }

  lemma WithinWiden(g: seq<TileAt>, columns: int, top: int, bottom: int, columns': int, top': int, bottom': int)
    requires Within(g, columns, top, bottom)
    requires columns <= columns' && top' <= top && bottom <= bottom'
    ensures Within(g, columns', top', bottom')
  {
  }

  /** Entries in rows above `middle` come before entries in rows from `middle` on. */
  lemma StackedBefore(a: seq<TileAt>, b: seq<TileAt>, columns: int, top: int, middle: int, bottom: int)
    requires Within(a, columns, top, middle) && Within(b, columns, middle, bottom)
    ensures forall k, l :: 0 <= k < |a| && 0 <= l < |b| ==> RowMajorBefore(a[k].position, b[l].position)
  {
  }

  /** Entries of row `y` left of column `x` come before the cell `(x, y)`. */
  lemma LeftOfBefore(a: seq<TileAt>, b: seq<TileAt>, x: int, y: int)
    requires Within(a, x, y, y + 1)
    requires forall l :: 0 <= l < |b| ==> b[l].position == Vec(x, y)
    ensures forall k, l :: 0 <= k < |a| && 0 <= l < |b| ==> RowMajorBefore(a[k].position, b[l].position)
  {
  }

  /** Two row-major sequences, the first wholly before the second, make one. */
  lemma RowMajorAppend(a: seq<TileAt>, b: seq<TileAt>)
    requires RowMajor(a) && RowMajor(b)
    requires forall k, l :: 0 <= k < |a| && 0 <= l < |b| ==> RowMajorBefore(a[k].position, b[l].position)
    ensures RowMajor(a + b)
  {
    forall k | 0 <= k < |a + b| ensures (a + b)[k] == if k < |a| then a[k] else b[k - |a|] {}
  }

  lemma CompleteAppend(grid: seq<seq<Option<Vec>>>, a: seq<TileAt>, b: seq<TileAt>,
                       columns: int, top: int, middle: int, bottom: int)
    requires top <= middle <= bottom
    requires Complete(grid, a, columns, top, middle) && Complete(grid, b, columns, middle, bottom)
    ensures Complete(grid, a + b, columns, top, bottom)
  {
    forall y, x |
      top <= y < bottom && 0 <= x < columns && 0 <= y < |grid| && 0 <= x < |grid[y]| && grid[y][x].Some?
      ensures exists k :: 0 <= k < |a + b| && (a + b)[k].position == Vec(x, y)
    {
      if y < middle {
        var k :| 0 <= k < |a| && a[k].position == Vec(x, y);
        assert (a + b)[k] == a[k];
      } else {
        var k :| 0 <= k < |b| && b[k].position == Vec(x, y);
        assert (a + b)[|a| + k] == b[k];
      }
    }
  }

  /** A row's last cell extends the row's completeness by one column. */
  lemma CompleteExtendColumn(grid: seq<seq<Option<Vec>>>, y: nat, n: nat)
    requires y < |grid| && 0 < n <= |grid[y]|
    requires Complete(grid, RowTiles(grid, y, n - 1), n - 1, y, y + 1)
    ensures Complete(grid, RowTiles(grid, y, n), n, y, y + 1)
  {
    var prev := RowTiles(grid, y, n - 1);
    var r := RowTiles(grid, y, n);
    forall y', x |
      y <= y' < y + 1 && 0 <= x < n && 0 <= y' < |grid| && 0 <= x < |grid[y']| && grid[y'][x].Some?
      ensures exists k :: 0 <= k < |r| && r[k].position == Vec(x, y')
    {
      if x < n - 1 {
        var k :| 0 <= k < |prev| && prev[k].position == Vec(x, y');
        assert r[k] == prev[k];
      } else {
        assert r[|prev|].position == Vec(x, y');
      }
    }
  }

  lemma {:induction false} RowTilesFromGrid(grid: seq<seq<Option<Vec>>>, y: nat, n: nat)
    requires y < |grid| && n <= |grid[y]|
    ensures FromGrid(grid, RowTiles(grid, y, n))
  {
    if n > 0 {
      RowTilesFromGrid(grid, y, n - 1);
      FromGridAppend(grid, RowTiles(grid, y, n - 1), CellTile(grid, y, n - 1));
    }
  }

  lemma {:induction false} RowTilesWithin(grid: seq<seq<Option<Vec>>>, y: nat, n: nat)
    requires y < |grid| && n <= |grid[y]|
    ensures Within(RowTiles(grid, y, n), n, y, y + 1)
  {
    if n > 0 {
      RowTilesWithin(grid, y, n - 1);
      var prev := RowTiles(grid, y, n - 1);
      WithinWiden(prev, n - 1, y, y + 1, n, y, y + 1);
      WithinAppend(prev, CellTile(grid, y, n - 1), n, y, y + 1);
    }
  }

  lemma {:induction false} RowTilesRowMajor(grid: seq<seq<Option<Vec>>>, y: nat, n: nat)
    requires y < |grid| && n <= |grid[y]|
    ensures RowMajor(RowTiles(grid, y, n))
  {
    if n > 0 {
      RowTilesRowMajor(grid, y, n - 1);
      RowTilesWithin(grid, y, n - 1);
      var prev := RowTiles(grid, y, n - 1);
      var cell := CellTile(grid, y, n - 1);
      LeftOfBefore(prev, cell, n - 1, y);
      RowMajorAppend(prev, cell);
    }
  }

  lemma {:induction false} RowTilesComplete(grid: seq<seq<Option<Vec>>>, y: nat, n: nat)
    requires y < |grid| && n <= |grid[y]|
    ensures Complete(grid, RowTiles(grid, y, n), n, y, y + 1)
  {
    if n > 0 {
      RowTilesComplete(grid, y, n - 1);
      CompleteExtendColumn(grid, y, n);
    }
  }

  /** One row of the traversal: its non-empty cells, left to right. */
  lemma RowTilesFacts(grid: seq<seq<Option<Vec>>>, y: nat, n: nat)
    requires y < |grid| && n <= |grid[y]|
    ensures FromGrid(grid, RowTiles(grid, y, n))
    ensures Within(RowTiles(grid, y, n), n, y, y + 1)
    ensures RowMajor(RowTiles(grid, y, n))
    ensures Complete(grid, RowTiles(grid, y, n), n, y, y + 1)
  {
    RowTilesFromGrid(grid, y, n);
    RowTilesWithin(grid, y, n);
    RowTilesRowMajor(grid, y, n);
    RowTilesComplete(grid, y, n);
  }

  lemma CoversFewerRows(grid: seq<seq<Option<Vec>>>, columns: nat, rows: nat, fewer: nat)
    requires Covers(grid, columns, rows) && fewer <= rows
    ensures Covers(grid, columns, fewer)
    ensures fewer < rows ==> fewer < |grid| && columns <= |grid[fewer]|
  {
  }

  lemma {:induction false} GridTilesFromGrid(grid: seq<seq<Option<Vec>>>, columns: nat, rows: nat)
    requires Covers(grid, columns, rows)
    ensures FromGrid(grid, GridTiles(grid, columns, rows))
  {
    if rows > 0 {
      CoversFewerRows(grid, columns, rows, rows - 1);
      GridTilesFromGrid(grid, columns, rows - 1);
      RowTilesFromGrid(grid, rows - 1, columns);
      FromGridAppend(grid, GridTiles(grid, columns, rows - 1), RowTiles(grid, rows - 1, columns));
    }
  }

  lemma {:induction false} GridTilesWithin(grid: seq<seq<Option<Vec>>>, columns: nat, rows: nat)
    requires Covers(grid, columns, rows)
    ensures Within(GridTiles(grid, columns, rows), columns, 0, rows)
  {
    if rows > 0 {
      CoversFewerRows(grid, columns, rows, rows - 1);
      GridTilesWithin(grid, columns, rows - 1);
      RowTilesWithin(grid, rows - 1, columns);
      var prev := GridTiles(grid, columns, rows - 1);
      var row := RowTiles(grid, rows - 1, columns);
      WithinWiden(prev, columns, 0, rows - 1, columns, 0, rows);
      WithinWiden(row, columns, rows - 1, rows, columns, 0, rows);
      WithinAppend(prev, row, columns, 0, rows);
    }
  }

  lemma {:induction false} GridTilesRowMajor(grid: seq<seq<Option<Vec>>>, columns: nat, rows: nat)
    requires Covers(grid, columns, rows)
    ensures RowMajor(GridTiles(grid, columns, rows))
  {
    if rows > 0 {
      CoversFewerRows(grid, columns, rows, rows - 1);
      GridTilesRowMajor(grid, columns, rows - 1);
      GridTilesWithin(grid, columns, rows - 1);
      RowTilesRowMajor(grid, rows - 1, columns);
      RowTilesWithin(grid, rows - 1, columns);
      var prev := GridTiles(grid, columns, rows - 1);
      var row := RowTiles(grid, rows - 1, columns);
      StackedBefore(prev, row, columns, 0, rows - 1, rows);
      RowMajorAppend(prev, row);
    }
  }

  lemma {:induction false} GridTilesComplete(grid: seq<seq<Option<Vec>>>, columns: nat, rows: nat)
    requires Covers(grid, columns, rows)
    ensures Complete(grid, GridTiles(grid, columns, rows), columns, 0, rows)
  {
    if rows > 0 {
      CoversFewerRows(grid, columns, rows, rows - 1);
      GridTilesComplete(grid, columns, rows - 1);
      RowTilesComplete(grid, rows - 1, columns);
      CompleteAppend(grid, GridTiles(grid, columns, rows - 1), RowTiles(grid, rows - 1, columns),
                     columns, 0, rows - 1, rows);
    }
  }

  /** The terrain traversal visits exactly the non-empty cells of the world,
      each with its own tile, each once, in row-major order. */
  lemma GridTilesFacts(grid: seq<seq<Option<Vec>>>, columns: nat, rows: nat)
    requires Covers(grid, columns, rows)
    ensures FromGrid(grid, GridTiles(grid, columns, rows))
    ensures Within(GridTiles(grid, columns, rows), columns, 0, rows)
    ensures RowMajor(GridTiles(grid, columns, rows))
    ensures Complete(grid, GridTiles(grid, columns, rows), columns, 0, rows)
  {
    GridTilesFromGrid(grid, columns, rows);
    GridTilesWithin(grid, columns, rows);
    GridTilesRowMajor(grid, columns, rows);
    GridTilesComplete(grid, columns, rows);
  }

  /** The draws `renderTile` makes for `tiles`, in order, without rotation. */
  function Blits(cellSize: Vec, tiles: seq<TileAt>): seq<Blit> {
    if tiles == [] then []
    else
      var last := tiles[|tiles| - 1];
      Blits(cellSize, tiles[..|tiles| - 1]) + [RenderTile(cellSize, last.position, last.tile, None)]
  }

  lemma BlitsAppend(cellSize: Vec, tiles: seq<TileAt>, t: TileAt)
    ensures Blits(cellSize, tiles + [t]) == Blits(cellSize, tiles) + [RenderTile(cellSize, t.position, t.tile, None)]
  {
    assert (tiles + [t])[..|tiles|] == tiles;
  }

  /** A drawn sequence makes one unrotated `renderTile` draw per entry, in order. */
  lemma {:induction false} BlitsAt(cellSize: Vec, tiles: seq<TileAt>, k: nat)
    requires k < |tiles|
    ensures |Blits(cellSize, tiles)| == |tiles|
    ensures Blits(cellSize, tiles)[k] == RenderTile(cellSize, tiles[k].position, tiles[k].tile, None)
  {
    var prefix := tiles[..|tiles| - 1];
    if k < |tiles| - 1 {
      BlitsAt(cellSize, prefix, k);
    } else if |prefix| > 0 {
      BlitsAt(cellSize, prefix, 0);
    }
  }

  /** Visiting cell `(x, y)` adds the cell's draw when it holds a tile, and nothing otherwise. */
  lemma RowStep(cellSize: Vec, grid: seq<seq<Option<Vec>>>, y: nat, x: nat)
    requires y < |grid| && x < |grid[y]|
    ensures Blits(cellSize, RowTiles(grid, y, x + 1))
         == Blits(cellSize, RowTiles(grid, y, x))
            + match grid[y][x]
              case None => []
              case Some(t) => [RenderTile(cellSize, Vec(x, y), t, None)]
  {
    var row := RowTiles(grid, y, x);
    assert RowTiles(grid, y, x + 1) == row + CellTile(grid, y, x);
    match grid[y][x]
    case None =>
      assert row + CellTile(grid, y, x) == row;
    case Some(t) =>
      BlitsAppend(cellSize, row, TileAt(Vec(x, y), t));
  }

  /** Drawing `a` then `b` is drawing `a + b`. */
  lemma {:induction false} BlitsConcat(cellSize: Vec, a: seq<TileAt>, b: seq<TileAt>)
    ensures Blits(cellSize, a + b) == Blits(cellSize, a) + Blits(cellSize, b)
    decreases |b|
  {
    if b == [] {
      assert a + b == a;
    } else {
      var init, last := b[..|b| - 1], b[|b| - 1];
      assert b == init + [last];
      assert a + b == (a + init) + [last];
      BlitsConcat(cellSize, a, init);
      BlitsAppend(cellSize, a + init, last);
      BlitsAppend(cellSize, init, last);
    }
  }

  /** The draws that make up the terrain surface of a `columns` by `rows` world. */
  function TerrainBlits(cellSize: Vec, grid: seq<seq<Option<Vec>>>, columns: nat, rows: nat): seq<Blit>
    requires Covers(grid, columns, rows)
  {
    Blits(cellSize, GridTiles(grid, columns, rows))
  }

  // ---------------------------------------------------------------------------
  // How often ArrayLayer rebuilds its cache
  // ---------------------------------------------------------------------------

  /** The calls a client makes on an `ArrayLayer`. */
  datatype LayerOp = SetTilesetOp | RenderOp

  /** Whether the cache holds a surface after `ops`, starting with `cached`. */
  function CachedAfter(cached: bool, ops: seq<LayerOp>): bool {
    if ops == [] then cached else ops[|ops| - 1] == RenderOp
  }

  /** How many of `ops` rebuild the surface, starting with `cached`: each render
      that finds the cache empty rebuilds it and leaves it full; each tileset
      change empties it. */
  function Rebuilds(cached: bool, ops: seq<LayerOp>): nat
    decreases |ops|
  {
    if ops == [] then 0
    else (if ops[0] == RenderOp && !cached then 1 else 0) + Rebuilds(ops[0] == RenderOp, ops[1..])
  }

  /** The number of tileset changes directly followed by a render. */
  function InvalidatedRenders(ops: seq<LayerOp>): nat {
    if |ops| < 2 then 0
    else (if ops[0] == SetTilesetOp && ops[1] == RenderOp then 1 else 0) + InvalidatedRenders(ops[1..])
  }

  function CountSetTileset(ops: seq<LayerOp>): nat {
    if ops == [] then 0 else (if ops[0] == SetTilesetOp then 1 else 0) + CountSetTileset(ops[1..])
  }

  /** Running `a` then `b` rebuilds as often as `a` and then `b` from the state `a` leaves. */
  lemma {:induction false} RebuildsAppend(cached: bool, a: seq<LayerOp>, b: seq<LayerOp>)
    decreases |a|
    ensures Rebuilds(cached, a + b) == Rebuilds(cached, a) + Rebuilds(CachedAfter(cached, a), b)
    ensures CachedAfter(cached, a + b) == CachedAfter(CachedAfter(cached, a), b)
  {
    if a == [] {
      assert a + b == b;
    } else {
      assert (a + b)[1..] == a[1..] + b;
      RebuildsAppend(a[0] == RenderOp, a[1..], b);
      assert CachedAfter(a[0] == RenderOp, a[1..]) == CachedAfter(cached, a);
    }
  }

  /** The surface is rebuilt once by the first render (when the cache starts
      empty) and once for each tileset change that a render follows; no other
      call rebuilds it. */
  lemma {:induction false} RebuildsExactly(cached: bool, ops: seq<LayerOp>)
    decreases |ops|
    ensures Rebuilds(cached, ops)
         == (if |ops| > 0 && ops[0] == RenderOp && !cached then 1 else 0) + InvalidatedRenders(ops)
  {
    if |ops| > 0 {
      RebuildsExactly(ops[0] == RenderOp, ops[1..]);
      if |ops| >= 2 {
        assert ops[1..][0] == ops[1];
      }
    }
  }

  /** At most one rebuild per tileset change, plus the first when the cache starts empty. */
  lemma {:induction false} RebuildsAtMost(cached: bool, ops: seq<LayerOp>)
    decreases |ops|
    ensures Rebuilds(cached, ops) <= (if cached then 0 else 1) + CountSetTileset(ops)
  {
    if ops != [] {
      RebuildsAtMost(ops[0] == RenderOp, ops[1..]);
    }
  }

  /** `n` frames without a tileset change: one rebuild from an empty cache, none from a full one. */
  lemma {:induction false} FramesRebuildOnce(cached: bool, n: nat)
    decreases n
    ensures Rebuilds(cached, seq(n, _ => RenderOp)) == (if n > 0 && !cached then 1 else 0)
  {
    if n > 0 {
      var frames := seq(n, _ => RenderOp);
      assert frames[1..] == seq(n - 1, _ => RenderOp);
      FramesRebuildOnce(true, n - 1);
    }
  }

  /** Neighbouring cells are drawn side by side: the draw of the next cell to
      the right (or below) starts exactly where this cell's draw ends, on the
      screen and in the sprite sheet. */
  lemma NeighbouringTilesAbut(cellSize: Vec, position: Vec, tile: Vec, angle: Option<int>)
    ensures var here := RenderTile(cellSize, position, tile, angle);
      && RenderTile(cellSize, Vec(position.x + 1, position.y), tile, angle).dest
         == Vec(here.dest.x + here.source.width, here.dest.y)
      && RenderTile(cellSize, Vec(position.x, position.y + 1), tile, angle).dest
         == Vec(here.dest.x, here.dest.y + here.source.height)
      && RenderTile(cellSize, position, Vec(tile.x + 1, tile.y), angle).source.x
         == here.source.x + here.source.width
      && RenderTile(cellSize, position, Vec(tile.x, tile.y + 1), angle).source.y
         == here.source.y + here.source.height
  {
  }

  // ---------------------------------------------------------------------------
  // The layers
  // ---------------------------------------------------------------------------

  /** `ArrayLayer`: draws `grid` (one optional tile per cell, indexed
      `grid[y][x]`) over the world of `gameState`, through a cached surface. */
  class ArrayLayer {
    var cellSize: Vec
    var imageFile: string
    const gameState: GameState
    const grid: seq<seq<Option<Vec>>>
    var surface: Option<seq<Blit>>
    ghost var rebuilds: nat

    function Columns(): nat {
      RangeLength(gameState.WorldWidth())
    }

    function Rows(): nat {
      RangeLength(gameState.WorldHeight())
    }

    /** The grid covers the world, and a cached surface is never stale: it holds
        exactly the terrain for the current tileset. */
    ghost predicate Valid()
      reads this
    {
      && Covers(grid, Columns(), Rows())
      && (surface.Some? ==> surface.value == TerrainBlits(cellSize, grid, Columns(), Rows()))
    }

    /** The cache starts empty. */
    constructor (cellSize: Vec, imageFile: string, gameState: GameState, grid: seq<seq<Option<Vec>>>)
      requires Covers(grid, RangeLength(gameState.WorldWidth()), RangeLength(gameState.WorldHeight()))
      ensures this.cellSize == cellSize && this.imageFile == imageFile
      ensures this.gameState == gameState && this.grid == grid
      ensures surface == None && rebuilds == 0
      ensures Valid()
    {
      this.cellSize := cellSize;
      this.imageFile := imageFile;
      this.gameState := gameState;
      this.grid := grid;
      surface := None;
      rebuilds := 0;
    }

    /** `setTileset`: a new cell size and texture, and an emptied cache. */
    method SetTileset(cellSize: Vec, imageFile: string)
      requires Valid()
      modifies this`cellSize, this`imageFile, this`surface
      ensures Valid()
      ensures this.cellSize == cellSize && this.imageFile == imageFile
      ensures surface == None
      ensures surface.Some? == CachedAfter(old(surface).Some?, [SetTilesetOp])
      ensures rebuilds == old(rebuilds) + Rebuilds(old(surface).Some?, [SetTilesetOp])
    {
      this.cellSize := cellSize;
      this.imageFile := imageFile;
      surface := None;
    }

    /** One pass of the inner loop of the rebuild: the draws for the
        non-empty cells of row `y`, left to right over the world's width. */
    method DrawRow(y: nat) returns (drawn: seq<Blit>)
      requires y < |grid| && Columns() <= |grid[y]|
      ensures drawn == Blits(cellSize, RowTiles(grid, y, Columns()))
    {
      var columns := Columns();
      drawn := [];
      for x := 0 to columns
        invariant drawn == Blits(cellSize, RowTiles(grid, y, x))
      {
        var tile := grid[y][x];
        RowStep(cellSize, grid, y, x);
        if tile.Some? {
          drawn := drawn + [RenderTile(cellSize, Vec(x, y), tile.value, None)];
        }
      }
    }

    /** The rebuild inside `render`: draws every non-empty cell of the grid,
        row by row over the world's height. */
    method DrawTerrain() returns (drawn: seq<Blit>)
      requires Covers(grid, Columns(), Rows())
      ensures drawn == TerrainBlits(cellSize, grid, Columns(), Rows())
    {
      var rows := Rows();
      drawn := [];
      for y := 0 to rows
        invariant Covers(grid, Columns(), y)
        invariant drawn == Blits(cellSize, GridTiles(grid, Columns(), y))
      {
        CoversFewerRows(grid, Columns(), rows, y + 1);
        var row := DrawRow(y);
        BlitsConcat(cellSize, GridTiles(grid, Columns(), y), RowTiles(grid, y, Columns()));
        drawn := drawn + row;
      }
    }

    /** `render`: rebuilds the cached surface if it is empty, then returns what
        is blitted onto the target, which is always the current terrain. */
    method Render() returns (frame: seq<Blit>)
      requires Valid()
      modifies this`surface, this`rebuilds
      ensures Valid()
      ensures surface == Some(frame)
      ensures frame == TerrainBlits(cellSize, grid, Columns(), Rows())
      ensures old(surface).Some? ==> surface == old(surface)
      ensures surface.Some? == CachedAfter(old(surface).Some?, [RenderOp])
      ensures rebuilds == old(rebuilds) + Rebuilds(old(surface).Some?, [RenderOp])
    {
      if surface.None? {
        var drawn := DrawTerrain();
        surface := Some(drawn);
        rebuilds := rebuilds + 1;
      }
      frame := surface.value;
    }
  }

  /** `UnitsLayer`: draws every unit at its position with its orientation. */
  class UnitsLayer {
    var cellSize: Vec
    var imageFile: string
    const gameState: GameState
    const units: seq<Unit>

    constructor (cellSize: Vec, imageFile: string, gameState: GameState, units: seq<Unit>)
      ensures this.cellSize == cellSize && this.imageFile == imageFile
      ensures this.gameState == gameState && this.units == units
    {
      this.cellSize := cellSize;
      this.imageFile := imageFile;
      this.gameState := gameState;
      this.units := units;
    }

    /** `Layer.setTileset`: a new cell size and texture. */
    method SetTileset(cellSize: Vec, imageFile: string)
      modifies this`cellSize, this`imageFile
      ensures this.cellSize == cellSize && this.imageFile == imageFile
    {
      this.cellSize := cellSize;
      this.imageFile := imageFile;
    }

    /** `render`: one draw per unit, in list order, always with the unit's
        orientation as the angle (an orientation of 0 still takes the rotating path). */
    method Render() returns (blits: seq<Blit>)
      ensures |blits| == |units|
      ensures forall i :: 0 <= i < |units| ==>
        blits[i] == RenderTile(cellSize, units[i].position, units[i].tile, Some(units[i].orientation))
    {
      blits := [];
      for i := 0 to |units|
        invariant |blits| == i
        invariant forall j :: 0 <= j < i ==>
          blits[j] == RenderTile(cellSize, units[j].position, units[j].tile, Some(units[j].orientation))
      {
        var unit := units[i];
        blits := blits + [RenderTile(cellSize, unit.position, unit.tile, Some(unit.orientation))];
      }
    }
  }

  /** A client driving `layer` through `ops`: the rebuilds and the cache state
      are those that `Rebuilds` and `CachedAfter` count for the call sequence. */
  method Drive(layer: ArrayLayer, ops: seq<LayerOp>, cellSize: Vec, imageFile: string)
    requires layer.Valid()
    modifies layer
    ensures layer.Valid()
    ensures layer.rebuilds == old(layer.rebuilds) + Rebuilds(old(layer.surface).Some?, ops)
    ensures layer.surface.Some? == CachedAfter(old(layer.surface).Some?, ops)
  {
    ghost var cached0, rebuilds0 := layer.surface.Some?, layer.rebuilds;
    for i := 0 to |ops|
      invariant layer.Valid()
      invariant layer.rebuilds == rebuilds0 + Rebuilds(cached0, ops[..i])
      invariant layer.surface.Some? == CachedAfter(cached0, ops[..i])
    {
      RebuildsAppend(cached0, ops[..i], [ops[i]]);
      assert ops[..i + 1] == ops[..i] + [ops[i]];
      if ops[i] == SetTilesetOp {
        layer.SetTileset(cellSize, imageFile);
      } else {
        var _ := layer.Render();
      }
    }
    assert ops[..|ops|] == ops;
  }
}

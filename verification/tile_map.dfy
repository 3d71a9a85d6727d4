/**
 * The built-in tile map: a 25x19 grid of tile codes walled on its border,
 * with two obstacle runs stamped inside, the pixel rectangle of every wall
 * tile, and the player-against-wall collision test.
 */
module TileMap {
  import opened Geometry
  import opened Players

  const Width: int := 25
  const Height: int := 19
  const TileSize: int := 32

  /** Tile codes. */
  const Empty: int := 0
  const Wall: int := 1

  predicate OnBorder(x: int, y: int)
  {
    x == 0 || x == Width - 1 || y == 0 || y == Height - 1
  }

  /** The two obstacle runs: row 5 from column 5 to 9, column 15 from row 8 to 11. */
  predicate OnObstacle(x: int, y: int)
  {
    (y == 5 && 5 <= x < 10) || (x == 15 && 8 <= y < 12)
  }

  /** The code of cell (x, y) once the map is built. */
  function Tile(x: int, y: int): int
  {
    if OnBorder(x, y) || OnObstacle(x, y) then Wall else Empty
  }

  /** The grid has the map's size, every cell holding the code `Tile` gives it. */
  ghost predicate IsBuiltGrid(g: seq<seq<int>>)
  {
    && |g| == Height
    && (forall y :: 0 <= y < Height ==> |g[y]| == Width)
    && (forall y, x :: 0 <= y < Height && 0 <= x < Width ==> g[y][x] == Tile(x, y))
  }

  /** The pixel rectangle covered by tile (x, y). */
  function TileRect(x: int, y: int): Rect
  {
    Rect(x * TileSize, y * TileSize, TileSize, TileSize)
  }

  /** The rectangles of the wall tiles among the first `n` cells of row `y`, left to right. */
  function RowWalls(row: seq<int>, y: int, n: nat): seq<Rect>
    requires n <= |row|
  {
    if n == 0 then []
    else RowWalls(row, y, n - 1) + (if row[n - 1] == Wall then [TileRect(n - 1, y)] else [])
  }

  /** The rectangles of the wall tiles in the first `m` rows of `g`, in row-major order. */
  function WallRects(g: seq<seq<int>>, m: nat): seq<Rect>
    requires m <= |g|
  {
    if m == 0 then []
    else WallRects(g, m - 1) + RowWalls(g[m - 1], m - 1, |g[m - 1]|)
  }

  /** Some rectangle of `walls` collides with `r`. */
  predicate HitsAny(r: Rect, walls: seq<Rect>)
  {
    exists i :: 0 <= i < |walls| && Overlaps(r, walls[i])
  }

  /** `r` shares area with some wall tile of the built grid. */
  predicate OverlapsWallTile(r: Rect)
  {
    exists y, x :: 0 <= y < Height && 0 <= x < Width && Tile(x, y) == Wall && Overlaps(r, TileRect(x, y))
  }

  /** The grid has the map's size and holds WALL exactly on its border. */
  ghost predicate IsArena(g: seq<seq<int>>)
  {
    && |g| == Height
    && (forall y :: 0 <= y < Height ==> |g[y]| == Width)
    && (forall y, x :: 0 <= y < Height && 0 <= x < Width ==>
          g[y][x] == (if OnBorder(x, y) then Wall else Empty))
  }

  /** Row `y` of the walled arena, built cell by cell. */
  method ArenaRow(y: int) returns (row: seq<int>)
    ensures |row| == Width
    ensures forall x :: 0 <= x < Width ==> row[x] == (if OnBorder(x, y) then Wall else Empty)
  {
    row := [];
    var x := 0;
    while x < Width
      invariant 0 <= x <= Width && |row| == x
      invariant forall i :: 0 <= i < x ==> row[i] == (if OnBorder(i, y) then Wall else Empty)
    {
      if x == 0 || x == Width - 1 || y == 0 || y == Height - 1 {
        row := row + [Wall];
      } else {
        row := row + [Empty];
      }
      x := x + 1;
    }
  }

  /** The walled arena, row by row. */
  method BuildArena() returns (grid: seq<seq<int>>)
    ensures IsArena(grid)
  {
    grid := [];
    var y := 0;
    while y < Height
      invariant 0 <= y <= Height && |grid| == y
      invariant forall j :: 0 <= j < y ==> |grid[j]| == Width
      invariant forall j, i :: 0 <= j < y && 0 <= i < Width ==>
        grid[j][i] == (if OnBorder(i, j) then Wall else Empty)
    {
      var row := ArenaRow(y);
      grid := grid + [row];
      y := y + 1;
    }
  }

  /** Stamps the two obstacle runs onto the arena. */
  method StampObstacles(arena: seq<seq<int>>) returns (grid: seq<seq<int>>)
    requires IsArena(arena)
    ensures IsBuiltGrid(grid)
  {
    grid := arena;
    var x := 5;
    while x < 10
      invariant 5 <= x <= 10 && |grid| == Height
      invariant forall j :: 0 <= j < Height ==> |grid[j]| == Width
      invariant forall j, i :: 0 <= j < Height && 0 <= i < Width ==>
        grid[j][i] == (if OnBorder(i, j) || (j == 5 && 5 <= i < x) then Wall else Empty)
    {
      grid := grid[5 := grid[5][x := Wall]];
      x := x + 1;
    }
    var y := 8;
    while y < 12
      invariant 8 <= y <= 12 && |grid| == Height
      invariant forall j :: 0 <= j < Height ==> |grid[j]| == Width
      invariant forall j, i :: 0 <= j < Height && 0 <= i < Width ==>
        grid[j][i] == (if OnBorder(i, j) || (j == 5 && 5 <= i < 10) || (i == 15 && 8 <= j < y) then Wall else Empty)
    {
      grid := grid[y := grid[y][15 := Wall]];
      y := y + 1;
    }
  }

  /** One rectangle per wall tile of a map-sized grid, in row-major order. */
  method CollectWallRects(grid: seq<seq<int>>) returns (rects: seq<Rect>)
    requires |grid| == Height
    requires forall y :: 0 <= y < Height ==> |grid[y]| == Width
    ensures rects == WallRects(grid, |grid|)
  {
    rects := [];
    var y := 0;
    while y < Height
      invariant 0 <= y <= Height
      invariant rects == WallRects(grid, y)
    {
      var x := 0;
      while x < Width
        invariant 0 <= x <= Width
        invariant rects == WallRects(grid, y) + RowWalls(grid[y], y, x)
      {
        if grid[y][x] == Wall {
          rects := rects + [Rect(x * TileSize, y * TileSize, TileSize, TileSize)];
        }
        x := x + 1;
      }
      y := y + 1;
    }
  }

  class Map {
    const width: int
    const height: int
    const tileSize: int
    var data: seq<seq<int>>
    var wallRects: seq<Rect>

    ghost predicate Valid()
      reads this
    {
      && width == Width && height == Height && tileSize == TileSize
      && IsBuiltGrid(data)
      && wallRects == WallRects(data, |data|)
    }

    constructor ()
      ensures Valid()
    {
      width, height, tileSize := Width, Height, TileSize;
      var grid := BuildArena();
      grid := StampObstacles(grid);
      var rects := CollectWallRects(grid);
      data := grid;
      wallRects := rects;
    }

    /**
     * `check_collision`: whether the player's rectangle collides with a wall.
     * The position it "restores" on a hit is the one it read on entry, so
     * the player never moves.
     */
    method CheckCollision(player: Player) returns (hit: bool)
      requires Valid()
      modifies player`rect
      ensures player.rect == old(player.rect)
      ensures hit <==> HitsAny(player.rect, wallRects)
      ensures hit <==> OverlapsWallTile(player.rect)
    {
      CollisionMeansWallTile(data, player.rect);
      var prevX := player.rect.x;
      var prevY := player.rect.y;
      var i := 0;
      while i < |wallRects|
        invariant 0 <= i <= |wallRects|
        invariant player.rect == old(player.rect)
        invariant forall k :: 0 <= k < i ==> !Overlaps(player.rect, wallRects[k])
      {
        if Overlaps(player.rect, wallRects[i]) {
          player.rect := player.rect.(x := prevX, y := prevY);
          return true;
        }
        i := i + 1;
      }
      return false;
    }

    /**
     * The collision check as its comments intend it: on a hit the player
     * goes back to (prevX, prevY), a position saved before the move, so a
     * player that started the frame clear of the walls ends it clear of them.
     */
    method ResolveCollision(player: Player, prevX: int, prevY: int) returns (hit: bool)
      requires Valid()
      requires !OverlapsWallTile(player.rect.(x := prevX, y := prevY))
      modifies player`rect
      ensures hit <==> OverlapsWallTile(old(player.rect))
      ensures player.rect == if hit then old(player.rect).(x := prevX, y := prevY) else old(player.rect)
      ensures !OverlapsWallTile(player.rect)
    {
      CollisionMeansWallTile(data, player.rect);
      var i := 0;
      while i < |wallRects|
        invariant 0 <= i <= |wallRects|
        invariant player.rect == old(player.rect)
        invariant forall k :: 0 <= k < i ==> !Overlaps(player.rect, wallRects[k])
      {
        if Overlaps(player.rect, wallRects[i]) {
          player.rect := player.rect.(x := prevX, y := prevY);
          return true;
        }
        i := i + 1;
      }
      return false;
    }
  }

  // Properties of the built grid.

  /** Border cells and obstacle cells are walls; every other cell is empty. */
  lemma BuiltGridCells(g: seq<seq<int>>, x: int, y: int)
    requires IsBuiltGrid(g) && 0 <= y < Height && 0 <= x < Width
    ensures OnBorder(x, y) ==> g[y][x] == Wall
    ensures OnObstacle(x, y) ==> g[y][x] == Wall
    ensures !OnBorder(x, y) && !OnObstacle(x, y) ==> g[y][x] == Empty
  {
  }

  /** The obstacle runs lie strictly inside the border, so the two groups of walls are disjoint. */
  lemma ObstaclesAreInterior(x: int, y: int)
    requires OnObstacle(x, y)
    ensures !OnBorder(x, y) && 0 < x < Width - 1 && 0 < y < Height - 1
  {
  }

  // Which rectangles the wall list holds.

  lemma {:induction false} RowWallsMembers(row: seq<int>, y: int, n: nat, r: Rect)
    requires n <= |row|
    ensures r in RowWalls(row, y, n) <==> exists x :: 0 <= x < n && row[x] == Wall && r == TileRect(x, y)
  {
    if n > 0 {
      RowWallsMembers(row, y, n - 1, r);
    }
  }

  lemma {:induction false} WallRectsMembers(g: seq<seq<int>>, m: nat, r: Rect)
    requires m <= |g|
    ensures r in WallRects(g, m) <==>
      exists y, x :: 0 <= y < m && 0 <= x < |g[y]| && g[y][x] == Wall && r == TileRect(x, y)
  {
    if m > 0 {
      WallRectsMembers(g, m - 1, r);
      RowWallsMembers(g[m - 1], m - 1, |g[m - 1]|, r);
    }
  }

  /** The wall list holds exactly the rectangles of the wall tiles. */
  lemma WallRectsExact(g: seq<seq<int>>, r: Rect)
    requires IsBuiltGrid(g)
    ensures r in WallRects(g, Height) <==>
      exists y, x :: 0 <= y < Height && 0 <= x < Width && Tile(x, y) == Wall && r == TileRect(x, y)
  {
    WallRectsMembers(g, Height, r);
  }

  // The order of the wall list.

  /** `a` comes strictly before `b` when the screen is read row by row, left to right. */
  predicate RowMajorBefore(a: Rect, b: Rect)
  {
    a.y < b.y || (a.y == b.y && a.x < b.x)
  }

  lemma {:induction false} RowWallsShape(row: seq<int>, y: int, n: nat)
    requires n <= |row|
    ensures forall i :: 0 <= i < |RowWalls(row, y, n)| ==>
      RowWalls(row, y, n)[i].y == y * TileSize && RowWalls(row, y, n)[i].x < n * TileSize
    ensures forall i, j :: 0 <= i < j < |RowWalls(row, y, n)| ==>
      RowWalls(row, y, n)[i].x < RowWalls(row, y, n)[j].x
  {
    if n > 0 {
      RowWallsShape(row, y, n - 1);
    }
  }

  lemma {:induction false} WallRectsShape(g: seq<seq<int>>, m: nat)
    requires m <= |g|
    ensures forall i :: 0 <= i < |WallRects(g, m)| ==> WallRects(g, m)[i].y < m * TileSize
    ensures forall i, j :: 0 <= i < j < |WallRects(g, m)| ==>
      RowMajorBefore(WallRects(g, m)[i], WallRects(g, m)[j])
  {
    if m > 0 {
      WallRectsShape(g, m - 1);
      RowWallsShape(g[m - 1], m - 1, |g[m - 1]|);
    }
  }

  /**
   * The wall list runs in row-major order with no rectangle twice, so each
   * wall tile contributes exactly one rectangle.
   */
  lemma WallRectsRowMajor(g: seq<seq<int>>)
    requires IsBuiltGrid(g)
    ensures forall i, j :: 0 <= i < j < |WallRects(g, Height)| ==>
      RowMajorBefore(WallRects(g, Height)[i], WallRects(g, Height)[j])
    ensures forall i, j :: 0 <= i < j < |WallRects(g, Height)| ==>
      WallRects(g, Height)[i] != WallRects(g, Height)[j]
  {
    WallRectsShape(g, Height);
  }

  // How many walls there are.

  lemma {:induction false} RowWallsOverWalls(row: seq<int>, y: int, lo: nat, hi: nat)
    requires lo <= hi <= |row|
    requires forall x :: lo <= x < hi ==> row[x] == Wall
    ensures |RowWalls(row, y, hi)| == |RowWalls(row, y, lo)| + (hi - lo)
  {
    if hi > lo {
      RowWallsOverWalls(row, y, lo, hi - 1);
    }
  }

  lemma {:induction false} RowWallsOverFloor(row: seq<int>, y: int, lo: nat, hi: nat)
    requires lo <= hi <= |row|
    requires forall x :: lo <= x < hi ==> row[x] != Wall
    ensures |RowWalls(row, y, hi)| == |RowWalls(row, y, lo)|
  {
    if hi > lo {
      RowWallsOverFloor(row, y, lo, hi - 1);
    }
  }

  /** The number of wall tiles in row `y` of the built grid. */
  function WallsInRow(y: int): nat
  {
    if y == 0 || y == Height - 1 then Width
    else if y == 5 then 7
    else if 8 <= y < 12 then 3
    else 2
  }

  lemma RowWallCount(g: seq<seq<int>>, y: int)
    requires IsBuiltGrid(g) && 0 <= y < Height
    ensures |RowWalls(g[y], y, Width)| == WallsInRow(y)
  {
    var row := g[y];
    if y == 0 || y == Height - 1 {
      RowWallsOverWalls(row, y, 0, Width);
    } else if y == 5 {
      RowWallsOverWalls(row, y, 0, 1);
      RowWallsOverFloor(row, y, 1, 5);
      RowWallsOverWalls(row, y, 5, 10);
      RowWallsOverFloor(row, y, 10, Width - 1);
      RowWallsOverWalls(row, y, Width - 1, Width);
    } else if 8 <= y < 12 {
      RowWallsOverWalls(row, y, 0, 1);
      RowWallsOverFloor(row, y, 1, 15);
      RowWallsOverWalls(row, y, 15, 16);
      RowWallsOverFloor(row, y, 16, Width - 1);
      RowWallsOverWalls(row, y, Width - 1, Width);
    } else {
      RowWallsOverWalls(row, y, 0, 1);
      RowWallsOverFloor(row, y, 1, Width - 1);
      RowWallsOverWalls(row, y, Width - 1, Width);
    }
  }

  lemma {:induction false} WallRectsOverRows(g: seq<seq<int>>, lo: nat, hi: nat, c: nat)
    requires IsBuiltGrid(g) && lo <= hi <= Height
    requires forall y :: lo <= y < hi ==> WallsInRow(y) == c
    ensures |WallRects(g, hi)| == |WallRects(g, lo)| + c * (hi - lo)
  {
    if hi > lo {
      WallRectsOverRows(g, lo, hi - 1, c);
      RowWallCount(g, hi - 1);
      assert c * (hi - lo) == c * (hi - 1 - lo) + c;
    }
  }

  /** 93 wall rectangles: the 84 border tiles and the 9 obstacle tiles. */
  lemma WallCount(g: seq<seq<int>>)
    requires IsBuiltGrid(g)
    ensures |WallRects(g, Height)| == 93
  {
    WallRectsOverRows(g, 0, 1, 25);
    WallRectsOverRows(g, 1, 5, 2);
    WallRectsOverRows(g, 5, 6, 7);
    WallRectsOverRows(g, 6, 8, 2);
    WallRectsOverRows(g, 8, 12, 3);
    WallRectsOverRows(g, 12, 18, 2);
    WallRectsOverRows(g, 18, 19, 25);
  }

  // What a collision means on the grid.

  /** The player collides with a wall rectangle exactly when it overlaps a wall tile's area. */
  lemma CollisionMeansWallTile(g: seq<seq<int>>, r: Rect)
    requires IsBuiltGrid(g)
    ensures HitsAny(r, WallRects(g, Height)) <==> OverlapsWallTile(r)
  {
    var walls := WallRects(g, Height);
    if HitsAny(r, walls) {
      var i :| 0 <= i < |walls| && Overlaps(r, walls[i]);
      WallRectsExact(g, walls[i]);
    }
    if exists y, x :: 0 <= y < Height && 0 <= x < Width && Tile(x, y) == Wall && Overlaps(r, TileRect(x, y)) {
      var y, x :| 0 <= y < Height && 0 <= x < Width && Tile(x, y) == Wall && Overlaps(r, TileRect(x, y));
      WallRectsExact(g, TileRect(x, y));
      var i :| 0 <= i < |walls| && walls[i] == TileRect(x, y);
    }
  }

  /**
   * A player whose rectangle reaches 12 pixels into the left border wall:
   * `CheckCollision` reports the hit and, leaving the rectangle as it was,
   * leaves the player inside the wall.
   */
  lemma CollisionLeavesPlayerInWall()
    ensures OverlapsWallTile(Rect(20, 100, 32, 32))
  {
    assert Tile(0, 3) == Wall && Overlaps(Rect(20, 100, 32, 32), TileRect(0, 3));
  }

  /**
   * The same rectangle through the modelled operations: on a freshly built
   * map, `CheckCollision` reports the hit and the player is still inside a
   * wall afterwards.
   */
  method CheckCollisionLeavesPlayerStuck() returns (hit: bool, stuck: bool)
    ensures hit && stuck
  {
    var m := new Map();
    var p := new Player(0, 0);
    p.rect := Rect(20, 100, 32, 32);
    CollisionLeavesPlayerInWall();
    hit := m.CheckCollision(p);
    stuck := OverlapsWallTile(p.rect);
  }
}

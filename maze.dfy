/**
 * The fixed tile maze of the server, point classification against it, and the
 * pellet lists derived from it.
 *
 * Positions are integers in units of 1/20 of a tile: a tile is 20 units wide,
 * so flooring a coordinate to its tile is division by 20 (Dafny's division by
 * a positive constant rounds toward negative infinity, as Math.floor does).
 */
module MazeGrid {

  /** Tile codes used in the maze. */
  const WallTile := 1
  const OpenTile := 0
  const PowerTile := 2

  /** Units per tile. */
  const TileSize := 20

  const Height := 13
  const Width := 20

  /** The 13 x 20 layout, row by row (index [row][column]). */
  function Maze(): seq<seq<int>> {
    [
      [1,1,1,1,1,1,1,1,1,1,1,1,1,1,1,1,1,1,1,1],
      [1,2,0,0,0,1,0,0,0,0,0,0,0,0,1,0,0,0,2,1],
      [1,0,1,1,0,1,1,1,1,1,1,1,1,1,1,0,1,1,0,1],
      [1,0,1,1,0,1,0,0,0,0,0,0,0,0,1,0,1,1,0,1],
      [1,0,0,0,0,1,0,1,1,1,1,1,1,0,1,0,0,0,0,1],
      [1,0,1,1,0,0,0,1,0,0,0,0,1,0,0,0,1,1,0,1],
      [1,0,0,1,0,1,1,1,0,1,1,0,1,1,1,0,1,0,0,1],
      [1,1,0,1,0,1,0,0,0,0,0,0,0,0,1,0,1,0,1,1],
      [1,0,0,0,0,1,0,1,1,1,1,1,1,0,1,0,0,0,0,1],
      [1,0,1,1,0,1,0,0,0,0,0,0,0,0,1,0,1,1,0,1],
      [1,0,1,1,0,1,1,1,1,1,1,1,1,1,1,0,1,1,0,1],
      [1,2,0,0,0,0,0,0,0,0,0,0,0,0,0,0,0,0,2,1],
      [1,1,1,1,1,1,1,1,1,1,1,1,1,1,1,1,1,1,1,1]
    ]
  }

  /** The layout is a 13 x 20 rectangle whose every cell is a wall, an open cell or a power-pellet cell. */
  lemma MazeIsRectangular()
    ensures |Maze()| == Height
    ensures forall r :: 0 <= r < Height ==> |Maze()[r]| == Width
    ensures forall r, c :: 0 <= r < Height && 0 <= c < Width ==> Maze()[r][c] in {WallTile, OpenTile, PowerTile}
  {
  }

  /** The tile containing a coordinate. */
  function TileOf(v: int): (t: int)
    ensures TileSize * t <= v < TileSize * t + TileSize
  {
    v / TileSize
  }

  /** Whether tile (tx, ty) exists in grid m and holds a wall. */
  predicate WallAt(m: seq<seq<int>>, tx: int, ty: int) {
    0 <= ty < |m| && 0 <= tx < |m[ty]| && m[ty][tx] == WallTile
  }

  /**
   * Whether the point (x, y) lies in a wall tile of grid m (the server always
   * passes its fixed Maze()). A row outside the grid, or a column beyond the end
   * of its row, is not a wall.
   */
  predicate IsWall(m: seq<seq<int>>, x: int, y: int)
    ensures IsWall(m, x, y) ==>
              0 <= TileOf(y) < |m| && 0 <= x < TileSize * |m[TileOf(y)]| && 0 <= y < TileSize * |m|
  {
    WallAt(m, TileOf(x), TileOf(y))
  }

  /** Every point of one tile classifies the same way. */
  lemma IsWallConstantOnTile(m: seq<seq<int>>, tx: int, ty: int, i: int, j: int)
    requires 0 <= i < TileSize && 0 <= j < TileSize
    ensures IsWall(m, TileSize * tx + i, TileSize * ty + j) <==> WallAt(m, tx, ty)
  {
    assert TileOf(TileSize * tx + i) == tx;
    assert TileOf(TileSize * ty + j) == ty;
  }

  /** Wall points of the fixed maze lie inside its 400 x 260 unit rectangle. */
  lemma WallsInsideMaze(x: int, y: int)
    requires IsWall(Maze(), x, y)
    ensures 0 <= x < TileSize * Width && 0 <= y < TileSize * Height
  {
    MazeIsRectangular();
  }

  /** The border of the fixed maze is wall all round. */
  lemma MazeIsEnclosed(t: int)
    ensures 0 <= t < Width ==> WallAt(Maze(), t, 0) && WallAt(Maze(), t, Height - 1)
    ensures 0 <= t < Height ==> WallAt(Maze(), 0, t) && WallAt(Maze(), Width - 1, t)
  {
  }

  /** The centre point of the spawn tile (1, 1) is not a wall. */
  lemma SpawnIsOpen()
    ensures !IsWall(Maze(), 30, 30)
  {
    assert TileOf(30) == 1;
  }

  /** A pellet or power pellet, placed at the tile (x, y). */
  datatype Pellet = Pellet(x: int, y: int)

  /** Row-major position of a tile, used to state the order of the pellet lists. */
  function RowMajor(p: Pellet): int {
    p.y * Width + p.x
  }

  /** Pellets for the cells of row y, columns 0 .. x-1, that hold `kind`, left to right. */
  function RowPrefix(m: seq<seq<int>>, y: nat, x: nat, kind: int): seq<Pellet>
    requires y < |m| && x <= |m[y]|
  {
    if x == 0 then []
    else RowPrefix(m, y, x - 1, kind) + (if m[y][x - 1] == kind then [Pellet(x - 1, y)] else [])
  }

  /** Pellets for the cells of rows 0 .. y-1 that hold `kind`, in row-major order. */
  function GridPrefix(m: seq<seq<int>>, y: nat, kind: int): seq<Pellet>
    requires y <= |m|
  {
    if y == 0 then []
    else GridPrefix(m, y - 1, kind) + RowPrefix(m, y - 1, |m[y - 1]|, kind)
  }

  /**
   * The pellets of one kind that initialisation produces from grid m, in
   * strictly increasing row-major order, so no cell is listed twice.
   */
  function PelletsOfKind(m: seq<seq<int>>, kind: int): (r: seq<Pellet>)
    ensures StrictlyRowMajor(r)
  {
    GridPrefixOrdered(m, |m|, kind);
    GridPrefix(m, |m|, kind)
  }

  /** A pellet is produced for a row prefix exactly when its cell is in the prefix and holds `kind`. */
  lemma {:induction false} RowPrefixMembers(m: seq<seq<int>>, y: nat, x: nat, kind: int, p: Pellet)
    requires y < |m| && x <= |m[y]|
    ensures p in RowPrefix(m, y, x, kind) <==> p.y == y && 0 <= p.x < x && m[y][p.x] == kind
  {
    if x > 0 {
      RowPrefixMembers(m, y, x - 1, kind, p);
    }
  }

  lemma {:induction false} GridPrefixMembers(m: seq<seq<int>>, y: nat, kind: int, p: Pellet)
    requires y <= |m|
    ensures p in GridPrefix(m, y, kind) <==>
              0 <= p.y < y && 0 <= p.x < |m[p.y]| && m[p.y][p.x] == kind
  {
    if y > 0 {
      GridPrefixMembers(m, y - 1, kind, p);
      RowPrefixMembers(m, y - 1, |m[y - 1]|, kind, p);
    }
  }

  /** One pellet per cell holding `kind`, and no other. */
  lemma PelletsOfKindMembers(m: seq<seq<int>>, kind: int, p: Pellet)
    ensures p in PelletsOfKind(m, kind) <==>
              0 <= p.y < |m| && 0 <= p.x < |m[p.y]| && m[p.y][p.x] == kind
  {
    GridPrefixMembers(m, |m|, kind, p);
  }

  /** Pellets appear in strictly increasing row-major order, so none is listed twice. */
  ghost predicate StrictlyRowMajor(s: seq<Pellet>) {
    forall i, j :: 0 <= i < j < |s| ==> Before(s[i], s[j])
  }

  /** p comes strictly before q in row-major order. */
  predicate Before(p: Pellet, q: Pellet) {
    p.y < q.y || (p.y == q.y && p.x < q.x)
  }

  lemma {:induction false} RowPrefixOrdered(m: seq<seq<int>>, y: nat, x: nat, kind: int)
    requires y < |m| && x <= |m[y]|
    ensures StrictlyRowMajor(RowPrefix(m, y, x, kind))
    ensures forall p :: p in RowPrefix(m, y, x, kind) ==> p.y == y && 0 <= p.x < x
  {
    if x > 0 {
      RowPrefixOrdered(m, y, x - 1, kind);
      forall p | p in RowPrefix(m, y, x - 1, kind) ensures p.y == y && 0 <= p.x < x - 1 {
        RowPrefixMembers(m, y, x - 1, kind, p);
      }
    }
  }

  lemma {:induction false} GridPrefixOrdered(m: seq<seq<int>>, y: nat, kind: int)
    requires y <= |m|
    ensures StrictlyRowMajor(GridPrefix(m, y, kind))
    ensures forall p :: p in GridPrefix(m, y, kind) ==> 0 <= p.y < y
  {
    if y > 0 {
      GridPrefixOrdered(m, y - 1, kind);
      RowPrefixOrdered(m, y - 1, |m[y - 1]|, kind);
      var a, b := GridPrefix(m, y - 1, kind), RowPrefix(m, y - 1, |m[y - 1]|, kind);
      var s: seq<Pellet> := a + b;
      assert GridPrefix(m, y, kind) == s;
      forall i, j | 0 <= i < j < |s| ensures Before(s[i], s[j]) {
        if j < |a| {
          assert s[i] == a[i] && s[j] == a[j];
        } else if i < |a| {
          assert s[i] in a && s[j] in b;
        } else {
          assert s[i] == b[i - |a|] && s[j] == b[j - |a|];
        }
      }
    }
  }

  /** No pellet of either kind is produced on a wall tile, and the two lists are disjoint. */
  lemma PelletListsAvoidWalls(p: Pellet)
    ensures p in PelletsOfKind(Maze(), OpenTile) ==> !WallAt(Maze(), p.x, p.y)
    ensures p in PelletsOfKind(Maze(), PowerTile) ==> !WallAt(Maze(), p.x, p.y)
    ensures !(p in PelletsOfKind(Maze(), OpenTile) && p in PelletsOfKind(Maze(), PowerTile))
  {
    PelletsOfKindMembers(Maze(), OpenTile, p);
    PelletsOfKindMembers(Maze(), PowerTile, p);
  }
}

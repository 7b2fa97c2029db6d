/**
 * The world grid: generation (main.js:365-430), lookups (main.js:934-937,
 * 1052-1071) and the chest records whose flags the tiles mirror.
 */
module WorldGrid {
  import opened Wrappers
  import opened Tiles
  import opened Geometry
  import opened Layout

  datatype ChestKind = KeyChest | RewardChest

  /** A chest record of `world.chests`: its tile, its kind and whether it was opened. */
  datatype ChestEntry = ChestEntry(x: int, y: int, kind: ChestKind, isOpen: bool)

  /** The chests of a freshly generated world (main.js:423-426). */
  function InitialChests(): seq<ChestEntry> {
    [ChestEntry(KeyChestPos.0, KeyChestPos.1, KeyChest, false),
     ChestEntry(RewardChestPos.0, RewardChestPos.1, RewardChest, false)]
  }

  /** The chests sit where generation put them; only their flags vary. */
  predicate SameSites(cs: seq<ChestEntry>) {
    |cs| == |InitialChests()| &&
    forall i :: 0 <= i < |cs| ==> cs[i].(isOpen := false) == InitialChests()[i]
  }

  /** The tile a chest record must show. */
  function ChestTileOf(c: ChestEntry): Tile {
    if c.isOpen then Tile(ChestOpen, 0) else Tile(Chest, 0)
  }

  /** A grid cell as `getTilesInRect` reports it. */
  datatype Cell = Cell(x: int, y: int, tile: Tile)

  /** An inclusive range of tile columns x1..x2 and rows y1..y2. */
  datatype Span = Span(x1: int, x2: int, y1: int, y2: int) {
    function Cols(): int { x2 - x1 + 1 }
    function Rows(): int { y2 - y1 + 1 }
    /** The number of tiles in the span. */
    function Size(): nat requires x1 <= x2 && y1 <= y2 { Cols() * Rows() }
    predicate Contains(x: int, y: int) { x1 <= x <= x2 && y1 <= y <= y2 }
    /** Position of (x, y) in row-major order. */
    function Index(x: int, y: int): int { (y - y1) * Cols() + (x - x1) }
    /** Column and row of the j-th cell in row-major order. */
    function CellX(j: int): int requires x1 <= x2 { x1 + j % Cols() }
    function CellY(j: int): int requires x1 <= x2 { y1 + j / Cols() }
  }

  /**
   * `v` is the tile index `t` pulled into 0 .. n - 1: the first tile for an
   * index before the grid, `t` itself on the grid, the last tile after it.
   */
  predicate PulledInto(v: int, t: int, n: int) {
    && (t < 0 ==> v == 0)
    && (0 <= t < n ==> v == t)
    && (n <= t ==> v == n - 1)
  }

  /**
   * The tiles `getTilesInRect` visits: the rectangle's corners mapped to
   * tiles and clamped into the grid (main.js:1061-1064).
   */
  function SpanOf(r: Rect): (s: Span)
    requires r.w >= 0.0 && r.h >= 0.0
    ensures 0 <= s.x1 <= s.x2 < Width && 0 <= s.y1 <= s.y2 < Height
    ensures PulledInto(s.x1, TileIndex(r.x), Width) && PulledInto(s.x2, TileIndex(r.x + r.w), Width)
    ensures PulledInto(s.y1, TileIndex(r.y), Height) && PulledInto(s.y2, TileIndex(r.y + r.h), Height)
  {
    Span(Clamp(TileIndex(r.x), 0, Width - 1), Clamp(TileIndex(r.x + r.w), 0, Width - 1),
         Clamp(TileIndex(r.y), 0, Height - 1), Clamp(TileIndex(r.y + r.h), 0, Height - 1))
  }

  lemma MulAtLeast(a: int, c: int)
    requires a >= 1 && c > 0
    ensures a * c >= c
  {
  }

  lemma MulMono(a: int, b: int, c: int)
    requires a >= b && c > 0
    ensures a * c >= b * c
  {
    if a > b {
      MulAtLeast(a - b, c);
      assert a * c == (a - b) * c + b * c;
    }
  }

  lemma MulStep(a: int, c: int)
    ensures a * c + c == (a + 1) * c
  {
  }

  /** Row-major positions decode uniquely into a row and a column. */
  lemma DivModOf(q: int, r: int, c: int)
    requires 0 <= q && 0 <= r < c
    ensures (q * c + r) / c == q && (q * c + r) % c == r
  {
    var k := q * c + r;
    var q', r' := k / c, k % c;
    assert k == q' * c + r';
    assert (q - q') * c == r' - r;
    if q > q' {
      MulAtLeast(q - q', c);
    } else if q < q' {
      MulAtLeast(q' - q, c);
    }
  }

  /** Every cell of a span has a row-major position below its size. */
  lemma IndexInRange(s: Span, x: int, y: int)
    requires s.x1 <= s.x2 && s.Contains(x, y)
    ensures 0 <= s.Index(x, y) < s.Size()
    ensures s.Index(x, y) / s.Cols() == y - s.y1 && s.Index(x, y) % s.Cols() == x - s.x1
  {
    DivModOf(y - s.y1, x - s.x1, s.Cols());
    assert s.Size() == (y - s.y1) * s.Cols() + (s.y2 - y + 1) * s.Cols();
    MulAtLeast(s.y2 - y + 1, s.Cols());
  }

  /** Fills the half-open box [x1, x2) x [y1, y2) with `t`, row by row. */
  method FillRect(a: array2<Tile>, x1: int, x2: int, y1: int, y2: int, t: Tile)
    requires 0 <= x1 <= x2 <= a.Length1 && 0 <= y1 <= y2 <= a.Length0
    modifies a
    ensures forall y, x :: 0 <= y < a.Length0 && 0 <= x < a.Length1 ==>
      a[y, x] == if x1 <= x < x2 && y1 <= y < y2 then t else old(a[y, x])
  {
    var y := y1;
    while y < y2
      invariant y1 <= y <= y2
      invariant forall yy, xx :: 0 <= yy < a.Length0 && 0 <= xx < a.Length1 ==>
        a[yy, xx] == if x1 <= xx < x2 && y1 <= yy < y then t else old(a[yy, xx])
    {
      var x := x1;
      while x < x2
        invariant x1 <= x <= x2
        invariant forall yy, xx :: 0 <= yy < a.Length0 && 0 <= xx < a.Length1 ==>
          a[yy, xx] == if (x1 <= xx < x2 && y1 <= yy < y) || (yy == y && x1 <= xx < x) then t else old(a[yy, xx])
      {
        a[y, x] := t;
        x := x + 1;
      }
      y := y + 1;
    }
  }

  /** The boundary walls: top and bottom rows, then left and right columns (main.js:376-383). */
  method Enclose(a: array2<Tile>)
    requires a.Length0 == Height && a.Length1 == Width
    modifies a
    ensures forall y, x :: 0 <= y < Height && 0 <= x < Width ==>
      a[y, x] == if OnBorder(x, y) then Tile(Wall, 0) else old(a[y, x])
  {
    for x := 0 to Width
      invariant forall yy, xx :: 0 <= yy < Height && 0 <= xx < Width ==>
        a[yy, xx] == if (yy == 0 || yy == Height - 1) && xx < x then Tile(Wall, 0) else old(a[yy, xx])
    {
      a[0, x] := Tile(Wall, 0);
      a[Height - 1, x] := Tile(Wall, 0);
    }
    for y := 0 to Height
      invariant forall yy, xx :: 0 <= yy < Height && 0 <= xx < Width ==>
        a[yy, xx] == if yy == 0 || yy == Height - 1 || ((xx == 0 || xx == Width - 1) && yy < y) then Tile(Wall, 0) else old(a[yy, xx])
    {
      a[y, 0] := Tile(Wall, 0);
      a[y, Width - 1] := Tile(Wall, 0);
    }
  }

  /**
   * One `scatter` pass: each drawn position becomes the resource if it still
   * holds grass; any other tile is skipped (main.js:398-404).
   */
  method ScatterPass(a: array2<Tile>, kind: TileKind, hp: int, picks: seq<Coord>)
    requires kind != Grass
    requires forall p :: p in picks ==> 0 <= p.0 < a.Length1 && 0 <= p.1 < a.Length0
    modifies a
    ensures forall y, x :: 0 <= y < a.Length0 && 0 <= x < a.Length1 ==>
      a[y, x] == if old(a[y, x]).kind == Grass && (x, y) in picks then Tile(kind, hp) else old(a[y, x])
  {
    for i := 0 to |picks|
      invariant forall y, x :: 0 <= y < a.Length0 && 0 <= x < a.Length1 ==>
        a[y, x] == if old(a[y, x]).kind == Grass && (x, y) in picks[..i] then Tile(kind, hp) else old(a[y, x])
    {
      var (x, y) := picks[i];
      assert picks[..i + 1] == picks[..i] + [picks[i]];
      if a[y, x].kind == Grass {
        a[y, x] := Tile(kind, hp);
      }
    }
    assert picks[..|picks|] == picks;
  }

  /** The dungeon box: wall on the edge, floor inside (main.js:407-413). */
  method CarveDungeon(a: array2<Tile>)
    requires a.Length0 == Height && a.Length1 == Width
    modifies a
    ensures forall y, x :: 0 <= y < Height && 0 <= x < Width ==>
      a[y, x] == if InDungeon(x, y) then DungeonTile(x, y) else old(a[y, x])
  {
    for y := 10 to 35
      invariant forall yy, xx :: 0 <= yy < Height && 0 <= xx < Width ==>
        a[yy, xx] == if InDungeon(xx, yy) && yy < y then DungeonTile(xx, yy) else old(a[yy, xx])
    {
      for x := 48 to 69
        invariant forall yy, xx :: 0 <= yy < Height && 0 <= xx < Width ==>
          a[yy, xx] == if InDungeon(xx, yy) && (yy < y || (yy == y && xx < x)) then DungeonTile(xx, yy) else old(a[yy, xx])
      {
        var edge := x == 48 || x == 68 || y == 10 || y == 34;
        a[y, x] := if edge then Tile(DWall, 0) else Tile(DFloor, 0);
      }
    }
  }

  /** The corridor to the dungeon, rows 21 and 22 from x = 44 to x = 48 (main.js:415-418). */
  method DigCorridor(a: array2<Tile>)
    requires a.Length0 == Height && a.Length1 == Width
    modifies a
    ensures forall y, x :: 0 <= y < Height && 0 <= x < Width ==>
      a[y, x] == if InCorridor(x, y) then Tile(Path, 0) else old(a[y, x])
  {
    for x := 44 to 49
      invariant forall yy, xx :: 0 <= yy < Height && 0 <= xx < Width ==>
        a[yy, xx] == if InCorridor(xx, yy) && xx < x then Tile(Path, 0) else old(a[yy, xx])
    {
      a[21, x] := Tile(Path, 0);
      a[22, x] := Tile(Path, 0);
    }
  }

  /** Grass everywhere, then the boundary walls, the village path and the lake (main.js:368-391). */
  method LayBase(a: array2<Tile>)
    requires a.Length0 == Height && a.Length1 == Width
    modifies a
    ensures forall y, x :: 0 <= y < Height && 0 <= x < Width ==> a[y, x] == BaseTile(x, y)
  {
    FillRect(a, 0, Width, 0, Height, Tile(Grass, 0));
    Enclose(a);
    FillRect(a, 2, 18, 15, 30, Tile(Path, 0));
    FillRect(a, 22, 32, 8, 18, Tile(Water, 0));
  }

  /** The four scatter passes in source order: trees, stones, ores, herbs (main.js:393-396). */
  method ScatterResources(a: array2<Tile>, sc: Scatter)
    requires a.Length0 == Height && a.Length1 == Width
    requires ValidScatter(sc)
    requires forall y, x :: 0 <= y < Height && 0 <= x < Width ==> a[y, x] == BaseTile(x, y)
    modifies a
    ensures forall y, x :: 0 <= y < Height && 0 <= x < Width ==> a[y, x] == ScatteredTile(x, y, sc)
  {
    ScatterPass(a, Tree, TreeHp, sc.trees);
    ScatterPass(a, Stone, StoneHp, sc.stones);
    ScatterPass(a, Ore, OreHp, sc.ores);
    ScatterPass(a, Herb, HerbHp, sc.herbs);
  }

  /** The dungeon, the corridor, the locked door and the two chests (main.js:407-427). */
  method PlaceStructures(a: array2<Tile>, sc: Scatter)
    requires a.Length0 == Height && a.Length1 == Width
    requires forall y, x :: 0 <= y < Height && 0 <= x < Width ==> a[y, x] == ScatteredTile(x, y, sc)
    modifies a
    ensures forall y, x :: 0 <= y < Height && 0 <= x < Width ==> a[y, x] == GeneratedTile(x, y, sc)
  {
    CarveDungeon(a);
    DigCorridor(a);
    a[DoorY, DoorX] := Tile(LockedDoor, 0);
    var cs := InitialChests();
    a[cs[0].y, cs[0].x] := Tile(Chest, 0);
    a[cs[1].y, cs[1].x] := Tile(Chest, 0);
  }

  class World {
    /** `tiles[y][x]` of the source. */
    const tiles: array2<Tile>
    var chests: seq<ChestEntry>

    /** The grid has its fixed size. */
    predicate Sized() {
      tiles.Length0 == Height && tiles.Length1 == Width
    }

    /**
     * The grid has its fixed size, the chests their fixed sites, every chest
     * tile shows its record's flag, and only harvestable tiles carry hit points.
     */
    ghost predicate Valid()
      reads this, tiles
    {
      && Sized()
      && SameSites(chests)
      && (forall i :: 0 <= i < |chests| ==>
            0 <= chests[i].x < Width && 0 <= chests[i].y < Height && tiles[chests[i].y, chests[i].x] == ChestTileOf(chests[i]))
      && (forall y, x :: 0 <= y < Height && 0 <= x < Width ==> TileOk(tiles[y, x]))
    }

    /** `generateWorld` (main.js:365-430), with the scatter draws given. */
    constructor Generate(sc: Scatter)
      requires ValidScatter(sc)
      ensures Valid() && fresh(tiles)
      ensures chests == InitialChests()
      ensures forall y, x :: 0 <= y < Height && 0 <= x < Width ==> tiles[y, x] == GeneratedTile(x, y, sc)
    {
      var a := new Tile[Height, Width];
      LayBase(a);
      ScatterResources(a, sc);
      PlaceStructures(a, sc);
      tiles := a;
      chests := InitialChests();
      new;
      forall y, x | 0 <= y < Height && 0 <= x < Width
        ensures TileOk(tiles[y, x])
      {
        GeneratedTileOk(x, y, sc);
      }
    }

    /** `getTileAt`: the tile under a pixel position, absent off the grid (main.js:1052-1057). */
    function TileAt(px: real, py: real): (r: Option<Tile>)
      reads this, tiles
      requires Sized()
      ensures r.Some? <==> 0.0 <= px < (Width * TileSize) as real && 0.0 <= py < (Height * TileSize) as real
      ensures r.Some? ==> r.value == tiles[TileIndex(py), TileIndex(px)]
    {
      var tx := TileIndex(px);
      var ty := TileIndex(py);
      if tx < 0 || ty < 0 || tx >= Width || ty >= Height then None else Some(tiles[ty, tx])
    }

    /**
     * `isBlocked`: a solid tile blocks; a position off the grid has no tile
     * and so does not block (main.js:934-937).
     */
    predicate IsBlocked(px: real, py: real): (r: bool)
      reads this, tiles
      requires Sized()
      ensures r ==> 0.0 <= px < (Width * TileSize) as real && 0.0 <= py < (Height * TileSize) as real
      ensures TileAt(px, py).Some? ==> (r <==> IsSolid(tiles[TileIndex(py), TileIndex(px)].kind))
    {
      var t := TileAt(px, py);
      t.Some? && IsSolid(t.value.kind)
    }

    /**
     * `getTilesInRect` (main.js:1059-1071): every tile of the clamped span,
     * in row-major order, each exactly once.
     */
    method TilesInRect(r: Rect) returns (cells: seq<Cell>)
      requires Sized()
      requires r.w >= 0.0 && r.h >= 0.0
      ensures |cells| == SpanOf(r).Size()
      ensures RowMajor(SpanOf(r), cells)
      ensures cells == GridCells(SpanOf(r), |cells|)
      ensures Listed(SpanOf(r), cells)
    {
      cells := CellsOf(SpanOf(r));
      RowMajorIsGridCells(SpanOf(r), cells);
      RowMajorListed(SpanOf(r), cells);
    }

    /** The nested row/column loop of `getTilesInRect` over an already clamped span. */
    method CellsOf(s: Span) returns (cells: seq<Cell>)
      requires Sized()
      requires 0 <= s.x1 <= s.x2 < Width && 0 <= s.y1 <= s.y2 < Height
      ensures |cells| == s.Size()
      ensures RowMajor(s, cells)
    {
      var c := s.Cols();
      cells := [];
      var y := s.y1;
      while y <= s.y2
        invariant s.y1 <= y <= s.y2 + 1
        invariant |cells| == (y - s.y1) * c
        invariant RowMajor(s, cells)
      {
        var x := s.x1;
        ghost var rowStart := |cells|;
        while x <= s.x2
          invariant s.x1 <= x <= s.x2 + 1
          invariant |cells| == rowStart + (x - s.x1)
          invariant RowMajor(s, cells)
        {
          DivModOf(y - s.y1, x - s.x1, c);
          RowMajorExtend(s, cells, x, y);
          cells := cells + [Cell(x, y, tiles[y, x])];
          x := x + 1;
        }
        MulStep(y - s.y1, c);
        y := y + 1;
      }
    }

    /** `cells` lists the first |cells| tiles of span `s` in row-major order. */
    ghost predicate RowMajor(s: Span, cells: seq<Cell>)
      reads this, tiles
      requires Sized()
      requires 0 <= s.x1 <= s.x2 < Width && 0 <= s.y1 <= s.y2 < Height
    {
      forall j :: 0 <= j < |cells| ==>
        s.Contains(s.CellX(j), s.CellY(j)) && cells[j] == Cell(s.CellX(j), s.CellY(j), tiles[s.CellY(j), s.CellX(j)])
    }

    /** Each listed cell holds its own tile and sits at its own row-major position of `s`. */
    ghost predicate Listed(s: Span, cells: seq<Cell>)
      reads this, tiles
      requires Sized()
      requires 0 <= s.x1 <= s.x2 < Width && 0 <= s.y1 <= s.y2 < Height
    {
      forall j :: 0 <= j < |cells| ==>
        s.Contains(cells[j].x, cells[j].y) && s.Index(cells[j].x, cells[j].y) == j && cells[j].tile == tiles[cells[j].y, cells[j].x]
    }

    lemma RowMajorListed(s: Span, cells: seq<Cell>)
      requires Sized()
      requires 0 <= s.x1 <= s.x2 < Width && 0 <= s.y1 <= s.y2 < Height
      requires RowMajor(s, cells) && |cells| <= s.Size()
      ensures Listed(s, cells)
    {
      forall j | 0 <= j < |cells|
        ensures s.Contains(cells[j].x, cells[j].y) && s.Index(cells[j].x, cells[j].y) == j
      {
        CellInSpan(s, j);
      }
    }

    lemma RowMajorExtend(s: Span, cells: seq<Cell>, x: int, y: int)
      requires Sized()
      requires 0 <= s.x1 <= s.x2 < Width && 0 <= s.y1 <= s.y2 < Height
      requires RowMajor(s, cells) && s.Contains(x, y)
      requires s.CellX(|cells|) == x && s.CellY(|cells|) == y
      ensures RowMajor(s, cells + [Cell(x, y, tiles[y, x])])
    {
    }

    /** The first `n` cells of span `s` in row-major order. */
    ghost function GridCells(s: Span, n: nat): (cells: seq<Cell>)
      reads this, tiles
      requires Sized()
      requires 0 <= s.x1 <= s.x2 < Width && 0 <= s.y1 <= s.y2 < Height
      requires n <= s.Size()
      ensures |cells| == n
    {
      if n == 0 then []
      else
        CellInSpan(s, n - 1);
        GridCells(s, n - 1) + [Cell(s.CellX(n - 1), s.CellY(n - 1), tiles[s.CellY(n - 1), s.CellX(n - 1)])]
    }

    lemma {:induction false} RowMajorIsGridCells(s: Span, cells: seq<Cell>)
      requires Sized()
      requires 0 <= s.x1 <= s.x2 < Width && 0 <= s.y1 <= s.y2 < Height
      requires RowMajor(s, cells) && |cells| <= s.Size()
      ensures cells == GridCells(s, |cells|)
    {
      if |cells| > 0 {
        var n := |cells| - 1;
        assert RowMajor(s, cells[..n]);
        RowMajorIsGridCells(s, cells[..n]);
        assert cells == cells[..n] + [cells[n]];
      }
    }

    /**
     * One tile struck by an attack (main.js:775-781): a harvestable tile
     * loses `dmg` hp and turns to grass at zero; nothing else changes.
     */
    method StrikeTile(x: int, y: int, dmg: int)
      requires Sized() && 0 <= x < Width && 0 <= y < Height
      modifies tiles
      ensures tiles[y, x] == HarvestTile(old(tiles[y, x]), dmg)
      ensures forall j, i :: 0 <= j < Height && 0 <= i < Width && (i, j) != (x, y) ==> tiles[j, i] == old(tiles[j, i])
    {
      tiles[y, x] := HarvestTile(tiles[y, x], dmg);
    }

    /** Marks chest `k` opened and shows its tile open, together (main.js:858-859). */
    method OpenChestAt(k: nat)
      requires Valid() && k < |chests|
      modifies this`chests, tiles
      ensures Valid()
      ensures chests == old(chests)[k := old(chests)[k].(isOpen := true)]
      ensures forall j, i :: 0 <= j < Height && 0 <= i < Width && (i, j) != (chests[k].x, chests[k].y) ==> tiles[j, i] == old(tiles[j, i])
    {
      var c := chests[k];
      chests := chests[k := c.(isOpen := true)];
      tiles[c.y, c.x] := Tile(ChestOpen, 0);
    }

    /** Writes a hit-point-free tile away from the chests, such as the door. */
    method PutTile(x: int, y: int, t: Tile)
      requires Valid() && 0 <= x < Width && 0 <= y < Height && TileOk(t)
      requires forall k :: 0 <= k < |chests| ==> (chests[k].x, chests[k].y) != (x, y)
      modifies tiles
      ensures Valid() && tiles[y, x] == t
      ensures forall j, i :: 0 <= j < Height && 0 <= i < Width && (i, j) != (x, y) ==> tiles[j, i] == old(tiles[j, i])
    {
      tiles[y, x] := t;
    }

    /**
     * The chest half of `loadGame` (main.js:574-579): every chest whose site
     * is listed is marked opened and its tile shown open.
     */
    method ReplayChests(sites: seq<Coord>)
      requires Valid()
      modifies this`chests, tiles
      ensures Valid()
      ensures chests == Replayed(old(chests), sites)
      ensures forall j, i :: 0 <= j < Height && 0 <= i < Width && !ChestSite(old(chests), i, j) ==> tiles[j, i] == old(tiles[j, i])
    {
      var k := 0;
      while k < |chests|
        invariant 0 <= k <= |chests| == |old(chests)| && Valid()
        invariant forall m :: 0 <= m < |chests| ==> chests[m] == if m < k then ReplayedChest(old(chests)[m], sites) else old(chests)[m]
        invariant forall j, i :: 0 <= j < Height && 0 <= i < Width && !ChestSite(old(chests), i, j) ==> tiles[j, i] == old(tiles[j, i])
      {
        if (chests[k].x, chests[k].y) in sites {
          assert ChestSite(old(chests), chests[k].x, chests[k].y) by {
            assert chests[k] == old(chests)[k];
          }
          OpenChestAt(k);
        }
        k := k + 1;
      }
    }
  }

  /** Whether (x, y) is the site of one of the chests. */
  predicate ChestSite(cs: seq<ChestEntry>, x: int, y: int) {
    exists k :: 0 <= k < |cs| && cs[k].x == x && cs[k].y == y
  }

  /** One chest after a load: opened if it was, or if its site is listed. */
  function ReplayedChest(c: ChestEntry, sites: seq<Coord>): ChestEntry {
    c.(isOpen := c.isOpen || (c.x, c.y) in sites)
  }

  /** The chests after a load replays the listed sites as opened. */
  function Replayed(cs: seq<ChestEntry>, sites: seq<Coord>): (r: seq<ChestEntry>)
    ensures |r| == |cs|
    ensures forall k :: 0 <= k < |cs| ==> r[k] == ReplayedChest(cs[k], sites)
  {
    if |cs| == 0 then []
    else Replayed(cs[..|cs| - 1], sites) + [ReplayedChest(cs[|cs| - 1], sites)]
  }

  /** The `openedChests` list `saveGame` writes: the sites of the opened chests, in order (main.js:599). */
  function OpenedSites(cs: seq<ChestEntry>): (r: seq<Coord>)
    ensures forall p :: p in r <==> exists k :: 0 <= k < |cs| && cs[k].isOpen && (cs[k].x, cs[k].y) == p
  {
    if |cs| == 0 then []
    else
      var last := cs[|cs| - 1];
      OpenedSites(cs[..|cs| - 1]) + (if last.isOpen then [(last.x, last.y)] else [])
  }

  /**
   * Saving then loading restores every chest flag: replaying the saved
   * sites onto freshly generated chests gives back the saved chests.
   */
  lemma SaveLoadChests(cs: seq<ChestEntry>)
    requires SameSites(cs)
    ensures Replayed(InitialChests(), OpenedSites(cs)) == cs
  {
    var r := Replayed(InitialChests(), OpenedSites(cs));
    forall k | 0 <= k < |cs|
      ensures r[k] == cs[k]
    {
      assert cs[k].(isOpen := false) == InitialChests()[k];
      if cs[k].isOpen {
        assert (cs[k].x, cs[k].y) in OpenedSites(cs);
      } else {
        assert (cs[k].x, cs[k].y) !in OpenedSites(cs) by {
          forall j | 0 <= j < |cs| && cs[j].isOpen
            ensures (cs[j].x, cs[j].y) != (cs[k].x, cs[k].y)
          {
            assert cs[j].(isOpen := false) == InitialChests()[j];
          }
        }
      }
    }
  }

  /** Row-major decoding of the j-th cell lands inside the span, at position j. */
  lemma CellInSpan(s: Span, j: int)
    requires s.x1 <= s.x2 && s.y1 <= s.y2 && 0 <= j < s.Size()
    ensures s.Contains(s.CellX(j), s.CellY(j)) && s.Index(s.CellX(j), s.CellY(j)) == j
  {
    var c := s.Cols();
    var q, r := j / c, j % c;
    assert j == q * c + r;
    if q >= s.Rows() {
      MulMono(q, s.Rows(), c);
      assert false;
    }
  }

  /** Within a span, no two cells share a row-major position. */
  lemma IndexUnique(s: Span, x: int, y: int)
    requires s.x1 <= s.x2 && s.Contains(x, y)
    ensures forall x', y' :: s.Contains(x', y') && s.Index(x', y') == s.Index(x, y) ==> x' == x && y' == y
  {
    IndexInRange(s, x, y);
    forall x', y' | s.Contains(x', y') && s.Index(x', y') == s.Index(x, y)
      ensures x' == x && y' == y
    {
      IndexInRange(s, x', y');
    }
  }

  /** Every cell of a span has a position below the cell count. */
  lemma SpanIndexBound(s: Span)
    requires s.x1 <= s.x2
    ensures forall x, y :: s.Contains(x, y) ==> 0 <= s.Index(x, y) < s.Size()
  {
    forall x, y | s.Contains(x, y)
      ensures 0 <= s.Index(x, y) < s.Size()
    {
      IndexInRange(s, x, y);
    }
  }
}

/**
 * The wall grid of js/maze/maze.js (`initializeWalls`): each cell (i, j) of the
 * carved graph becomes the open position (2i + 1, 2j + 1) of a (2w + 1) by (2h + 1)
 * boolean grid, `true` meaning walled. Positions with both coordinates even are
 * pillars, the positions between two cell centres are open exactly where a passage
 * was carved, and two openings are forced: the entrance at (0, 1) and the exit at
 * (2w - 1, 2h). Also the torch directions offered at an open position (`addTorches`).
 */
module Walls {
  import opened Grid
  import opened Utils

  /** The even grid coordinate of a pillar line. */
  function Even(i: int): int {
    2 * i
  }

  /** The odd grid coordinate of a cell centre. */
  function Odd(i: int): int {
    2 * i + 1
  }

  /** One entry of the grid as the loops of `initializeWalls` compute it, before the two forced openings. */
  function RawWall(horizontal: set<Cell>, vertical: set<Cell>, x: int, y: int): bool {
    if x % 2 == 0 then y % 2 == 0 || !(x > 0 && Cell(x / 2 - 1, y / 2) in vertical)
    else y % 2 == 0 && !(y > 0 && Cell((x - 1) / 2, y / 2 - 1) in horizontal)
  }

  /** `initializeWalls` for a graph of `width` by `height` cells (the generator only returns such graphs with both at least 1, see `Maze.NewMaze`). */
  function InitializeWalls(width: int, height: int, horizontal: set<Cell>, vertical: set<Cell>): (walls: seq<seq<bool>>)
    requires width >= 1 && height >= 1
    ensures |walls| == 2 * width + 1
    ensures forall x :: 0 <= x < |walls| ==> |walls[x]| == 2 * height + 1
    ensures forall i, j :: 0 <= i <= width && 0 <= j <= height ==> walls[Even(i)][Even(j)]
    ensures forall i, j :: 0 <= i < width && 0 <= j < height ==> !walls[Odd(i)][Odd(j)]
    ensures forall i, j :: 1 <= i <= width && 0 <= j < height ==>
      (walls[Even(i)][Odd(j)] <==> Cell(i - 1, j) !in vertical)
    ensures forall i, j :: 0 <= i < width && 1 <= j <= height ==>
      (walls[Odd(i)][Even(j)] <==> Cell(i, j - 1) !in horizontal && !(i == width - 1 && j == height))
    ensures forall j :: 0 <= j < height ==> (walls[0][Odd(j)] <==> j != 0)
    ensures forall i :: 0 <= i < width ==> walls[Odd(i)][0]
  {
    var raw := seq(2 * width + 1, x => seq(2 * height + 1, y => RawWall(horizontal, vertical, x, y)));
    var forced := raw[0 := raw[0][1 := false]];
    var walls := forced[2 * width - 1 := forced[2 * width - 1][2 * height := false]];
    assert forall x, y :: 0 <= x < 2 * width + 1 && 0 <= y < 2 * height + 1 ==>
      walls[x][y] == Entry(width, height, horizontal, vertical, x, y);
    CellEntries(width, height, horizontal, vertical);
    BorderEntries(width, height, horizontal, vertical);
    walls
  }

  /** An entry of the finished grid: the loop's value, except at the two forced openings. */
  predicate Entry(width: int, height: int, horizontal: set<Cell>, vertical: set<Cell>, x: int, y: int) {
    !((x == 0 && y == 1) || (x == 2 * width - 1 && y == 2 * height)) && RawWall(horizontal, vertical, x, y)
  }

  /** The parity rules of the inner entries. */
  lemma CellEntries(width: int, height: int, horizontal: set<Cell>, vertical: set<Cell>)
    requires width >= 1 && height >= 1
    ensures forall i, j :: 0 <= i <= width && 0 <= j <= height ==> Entry(width, height, horizontal, vertical, Even(i), Even(j))
    ensures forall i, j :: 0 <= i < width && 0 <= j < height ==> !Entry(width, height, horizontal, vertical, Odd(i), Odd(j))
    ensures forall i, j :: 1 <= i <= width && 0 <= j < height ==>
      (Entry(width, height, horizontal, vertical, Even(i), Odd(j)) <==> Cell(i - 1, j) !in vertical)
    ensures forall i, j :: 0 <= i < width && 1 <= j <= height ==>
      (Entry(width, height, horizontal, vertical, Odd(i), Even(j)) <==> Cell(i, j - 1) !in horizontal && !(i == width - 1 && j == height))
  {
    forall i, j | 0 <= i <= width && 0 <= j <= height
      ensures Entry(width, height, horizontal, vertical, Even(i), Even(j))
    {
      assert Even(i) % 2 == 0 && Even(j) % 2 == 0;
    }
    forall i, j | 0 <= i < width && 0 <= j < height
      ensures !Entry(width, height, horizontal, vertical, Odd(i), Odd(j))
    {
      assert Odd(i) % 2 == 1 && Odd(j) % 2 == 1;
    }
    forall i, j | 1 <= i <= width && 0 <= j < height
      ensures Entry(width, height, horizontal, vertical, Even(i), Odd(j)) <==> Cell(i - 1, j) !in vertical
    {
      assert Even(i) % 2 == 0 && Even(i) / 2 - 1 == i - 1 && Odd(j) / 2 == j && Odd(j) % 2 == 1;
    }
    forall i, j | 0 <= i < width && 1 <= j <= height
      ensures Entry(width, height, horizontal, vertical, Odd(i), Even(j)) <==> Cell(i, j - 1) !in horizontal && !(i == width - 1 && j == height)
    {
      assert Odd(i) % 2 == 1 && (Odd(i) - 1) / 2 == i && Even(j) / 2 - 1 == j - 1 && Even(j) % 2 == 0;
    }
  }

  /** The outer column and row: walled except the entrance. */
  lemma BorderEntries(width: int, height: int, horizontal: set<Cell>, vertical: set<Cell>)
    requires width >= 1 && height >= 1
    ensures forall j :: 0 <= j < height ==> (Entry(width, height, horizontal, vertical, 0, Odd(j)) <==> j != 0)
    ensures forall i :: 0 <= i < width ==> Entry(width, height, horizontal, vertical, Odd(i), 0)
  {
    forall j | 0 <= j < height
      ensures Entry(width, height, horizontal, vertical, 0, Odd(j)) <==> j != 0
    {
      assert Odd(j) % 2 == 1;
    }
    forall i | 0 <= i < width
      ensures Entry(width, height, horizontal, vertical, Odd(i), 0)
    {
      assert Odd(i) % 2 == 1;
    }
  }

  /** Every position whose coordinates are not both odd is a pillar or lies between two cells: all walled except carved passages and the two openings. */
  lemma OffCentreWalls(width: int, height: int, horizontal: set<Cell>, vertical: set<Cell>)
    requires width >= 1 && height >= 1
    requires PassagesInGrid(width, height, horizontal, vertical)
    ensures var walls := InitializeWalls(width, height, horizontal, vertical);
      (forall j :: 0 <= j < height ==> walls[Even(width)][Odd(j)])
      && (forall i :: 0 <= i < width ==> walls[Odd(i)][Even(height)] <==> i != width - 1)
  {
    var walls := InitializeWalls(width, height, horizontal, vertical);
    forall j | 0 <= j < height ensures walls[Even(width)][Odd(j)] {
      assert !InGrid(width, height, PlusX(Cell(width - 1, j)));
    }
    forall i | 0 <= i < width ensures walls[Odd(i)][Even(height)] <==> i != width - 1 {
      assert !InGrid(width, height, PlusY(Cell(i, height - 1)));
    }
  }

  /**
   * The border of the grid is walled everywhere except at the entrance (0, 1) and
   * the exit (2w - 1, 2h): the carved passages never leave the grid.
   */
  lemma BorderOpenings(width: int, height: int, horizontal: set<Cell>, vertical: set<Cell>, x: int, y: int)
    requires width >= 1 && height >= 1
    requires PassagesInGrid(width, height, horizontal, vertical)
    requires 0 <= x <= 2 * width && 0 <= y <= 2 * height
    requires x == 0 || x == 2 * width || y == 0 || y == 2 * height
    ensures !InitializeWalls(width, height, horizontal, vertical)[x][y] <==>
      (x == 0 && y == 1) || (x == 2 * width - 1 && y == 2 * height)
  {
    var walls := InitializeWalls(width, height, horizontal, vertical);
    OffCentreWalls(width, height, horizontal, vertical);
    if x % 2 == 0 && y % 2 == 0 {
      assert x == Even(x / 2) && y == Even(y / 2);
    } else if x % 2 == 0 {
      assert y == Odd(y / 2);
      if x == 0 {
        assert x == Even(0);
      } else {
        assert x == Even(width);
      }
    } else {
      assert x == Odd(x / 2);
      if y == 0 {
        assert y == Even(0);
      } else {
        assert y == Even(height);
      }
    }
  }

  /** `walls[x][y]` read with JavaScript semantics inside an existing column: a missing entry is undefined, which is falsy. */
  predicate At(walls: seq<seq<bool>>, x: int, y: int) {
    0 <= x < |walls| && 0 <= y < |walls[x]| && walls[x][y]
  }

  /** The directions `addTorches` offers for a torch at the open position (x, y): one per walled neighbour, in the order West, East, South, North. */
  function TorchOptions(walls: seq<seq<bool>>, x: int, y: int): (options: seq<Direction>)
    requires 0 <= x < |walls| && 0 <= y < |walls[x]|
    ensures West in options <==> x > 0 && At(walls, x - 1, y)
    ensures East in options <==> x < |walls| - 1 && At(walls, x + 1, y)
    ensures South in options <==> y > 0 && At(walls, x, y - 1)
    ensures North in options <==> y < |walls[x]| - 1 && At(walls, x, y + 1)
    ensures forall i, j :: 0 <= i < j < |options| ==> options[i] != options[j]
  {
    (if x > 0 && At(walls, x - 1, y) then [West] else [])
    + (if x < |walls| - 1 && At(walls, x + 1, y) then [East] else [])
    + (if y > 0 && At(walls, x, y - 1) then [South] else [])
    + (if y < |walls[x]| - 1 && At(walls, x, y + 1) then [North] else [])
  }

  /** A cell centre keeps at least one wall when at most three passages meet at its cell. */
  lemma CentreHasWall(width: int, height: int, horizontal: set<Cell>, vertical: set<Cell>, i: int, j: int)
    requires width >= 1 && height >= 1
    requires PassagesInGrid(width, height, horizontal, vertical)
    requires Degree(horizontal, vertical, Cell(i, j)) <= 3
    requires 0 <= i < width && 0 <= j < height
    ensures var walls := InitializeWalls(width, height, horizontal, vertical);
      At(walls, Even(i), Odd(j)) || At(walls, Even(i + 1), Odd(j))
      || At(walls, Odd(i), Even(j)) || At(walls, Odd(i), Even(j + 1))
  {
    var walls := InitializeWalls(width, height, horizontal, vertical);
    OffCentreWalls(width, height, horizontal, vertical);
    var c := Cell(i, j);
    if j == 0 {
      assert At(walls, Odd(i), Even(0));
    } else if i == width - 1 {
      assert At(walls, Even(width), Odd(j));
    } else if c !in vertical {
      assert At(walls, Even(i + 1), Odd(j));
    } else if c !in horizontal {
      assert At(walls, Odd(i), Even(j + 1));
    } else if Cell(i, j - 1) !in horizontal {
      assert At(walls, Odd(i), Even(j));
    } else if i == 0 {
      assert At(walls, Even(0), Odd(j));
    } else {
      assert Cell(i - 1, j) !in vertical;
      assert At(walls, Even(i), Odd(j));
    }
  }

  /** Pillars are always walled. */
  lemma PillarWalled(width: int, height: int, horizontal: set<Cell>, vertical: set<Cell>, x: int, y: int)
    requires width >= 1 && height >= 1
    requires 0 <= x <= 2 * width && 0 <= y <= 2 * height
    ensures x % 2 == 0 && y % 2 == 0 ==> InitializeWalls(width, height, horizontal, vertical)[x][y]
  {
    if x % 2 == 0 && y % 2 == 0 {
      assert x == Even(x / 2) && y == Even(y / 2);
    }
  }

  /** Away from the border, a walled neighbour is always offered. */
  lemma InnerOptions(walls: seq<seq<bool>>, x: int, y: int)
    requires 0 < x < |walls| - 1 && 0 < y < |walls[x]| - 1
    requires At(walls, x - 1, y) || At(walls, x + 1, y) || At(walls, x, y - 1) || At(walls, x, y + 1)
    ensures |TorchOptions(walls, x, y)| >= 1
  {
    var options := TorchOptions(walls, x, y);
    if At(walls, x - 1, y) {
      assert West in options;
    } else if At(walls, x + 1, y) {
      assert East in options;
    } else if At(walls, x, y - 1) {
      assert South in options;
    } else {
      assert North in options;
    }
  }

  /** Some direction is offered at every cell centre. */
  lemma CentreOptions(width: int, height: int, horizontal: set<Cell>, vertical: set<Cell>, i: int, j: int)
    requires width >= 1 && height >= 1
    requires PassagesInGrid(width, height, horizontal, vertical)
    requires Degree(horizontal, vertical, Cell(i, j)) <= 3
    requires 0 <= i < width && 0 <= j < height
    ensures |TorchOptions(InitializeWalls(width, height, horizontal, vertical), Odd(i), Odd(j))| >= 1
  {
    var walls := InitializeWalls(width, height, horizontal, vertical);
    CentreHasWall(width, height, horizontal, vertical, i, j);
    InnerOptions(walls, Odd(i), Odd(j));
  }

  /** A position with one odd and one even coordinate borders a pillar, which is always walled. */
  lemma BordersPillar(width: int, height: int, horizontal: set<Cell>, vertical: set<Cell>, x: int, y: int)
    requires width >= 1 && height >= 1
    requires 0 <= x <= 2 * width && 0 <= y <= 2 * height
    requires x % 2 != y % 2
    ensures var walls := InitializeWalls(width, height, horizontal, vertical);
      |TorchOptions(walls, x, y)| >= 1
  {
    var walls := InitializeWalls(width, height, horizontal, vertical);
    if x % 2 == 0 {
      var i, j := x / 2, y / 2;
      assert x == Even(i) && y + 1 == Even(j + 1);
      assert walls[Even(i)][Even(j + 1)];
      assert North in TorchOptions(walls, x, y);
    } else {
      var i, j := x / 2, y / 2;
      assert x - 1 == Even(i) && y == Even(j);
      assert walls[Even(i)][Even(j)];
      assert West in TorchOptions(walls, x, y);
    }
  }

  /**
   * In the grid of a carved maze in which at most three passages meet at any cell,
   * `addTorches` always has a direction to pick at an open position: `randomElement`
   * never draws from an empty list.
   */
  lemma TorchOptionsNonEmpty(width: int, height: int, horizontal: set<Cell>, vertical: set<Cell>, x: int, y: int)
    requires width >= 1 && height >= 1
    requires PassagesInGrid(width, height, horizontal, vertical)
    requires forall c :: Degree(horizontal, vertical, c) <= 3
    requires var walls := InitializeWalls(width, height, horizontal, vertical);
      0 <= x < |walls| && 0 <= y < |walls[x]| && !walls[x][y]
    ensures |TorchOptions(InitializeWalls(width, height, horizontal, vertical), x, y)| >= 1
  {
    var walls := InitializeWalls(width, height, horizontal, vertical);
    PillarWalled(width, height, horizontal, vertical, x, y);
    if x % 2 == 1 && y % 2 == 1 {
      var i, j := x / 2, y / 2;
      assert Odd(i) == x && Odd(j) == y;
      assert Degree(horizontal, vertical, Cell(i, j)) <= 3;
      CentreOptions(width, height, horizontal, vertical, i, j);
    } else {
      assert x % 2 != y % 2;
      BordersPillar(width, height, horizontal, vertical, x, y);
    }
  }
}

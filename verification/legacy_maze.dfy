/**
 * The maze half of the older single-file game, js/mazegame.js: the wall grid and
 * the two face tables (written there as loops inside the `Game` constructor) and
 * the torch placement loop. The loops are modelled as methods over sequences and
 * shown to compute exactly what the module version of js/maze/maze.js computes.
 */
module LegacyMaze {
  import opened Utils
  import opened Wrappers
  import opened Grid
  import opened Generator
  import opened Walls
  import opened Faces
  import opened Layout

  /** The wall grid loop and the two forced openings, for a graph with at least one cell in each direction. */
  method LegacyWalls(m: Maze) returns (walls: seq<seq<bool>>)
    requires m.width >= 1 && m.height >= 1
    ensures walls == InitializeWalls(m.width, m.height, m.horizontal, m.vertical)
  {
    var cols, rows := 2 * m.width + 1, 2 * m.height + 1;
    walls := [];
    var x := 0;
    while x < cols
      invariant 0 <= x <= cols && |walls| == x
      invariant forall a :: 0 <= a < x ==> |walls[a]| == rows
      invariant forall a, b :: 0 <= a < x && 0 <= b < rows ==> walls[a][b] == RawWall(m.horizontal, m.vertical, a, b)
    {
      var column := [];
      var y := 0;
      if x % 2 == 0 {
        while y < rows
          invariant 0 <= y <= rows && |column| == y
          invariant forall b :: 0 <= b < y ==> column[b] == RawWall(m.horizontal, m.vertical, x, b)
        {
          column := column + [y % 2 == 0 || !(x > 0 && Cell(x / 2 - 1, y / 2) in m.vertical)];
          y := y + 1;
        }
      } else {
        while y < rows
          invariant 0 <= y <= rows && |column| == y
          invariant forall b :: 0 <= b < y ==> column[b] == RawWall(m.horizontal, m.vertical, x, b)
        {
          column := column + [y % 2 == 0 && !(y > 0 && Cell((x - 1) / 2, y / 2 - 1) in m.horizontal)];
          y := y + 1;
        }
      }
      walls := walls + [column];
      x := x + 1;
    }
    forall a | 0 <= a < cols
      ensures walls[a] == seq(rows, b => RawWall(m.horizontal, m.vertical, a, b))
    {
    }
    assert walls == seq(cols, a => seq(rows, b => RawWall(m.horizontal, m.vertical, a, b)));
    walls := walls[0 := walls[0][1 := false]];
    walls := walls[cols - 2 := walls[cols - 2][rows - 1 := false]];
  }

  /** The pre-filling loops: `rows` lists of `cols` entries without a face. */
  method LegacyBlank(rows: nat, cols: nat) returns (t: seq<seq<Face>>)
    ensures t == Blank(rows, cols)
  {
    t := [];
    var i := 0;
    while i < rows
      invariant 0 <= i <= rows && |t| == i
      invariant forall a :: 0 <= a < i ==> t[a] == seq(cols, _ => NoFace)
    {
      var row := [];
      var j := 0;
      while j < cols
        invariant 0 <= j <= cols && row == seq(j, _ => NoFace)
      {
        row := row + [NoFace];
        j := j + 1;
      }
      t := t + [row];
      i := i + 1;
    }
  }

  /**
   * The four neighbour tests for a walled position (x, z), in the order front, back,
   * left, right, each reading its neighbour as `walls[z'][x']` with the
   * JavaScript semantics of a missing row (throws) and a missing entry (falsy).
   */
  method LegacySetWallPresence(walls: seq<seq<bool>>, aw: int, ah: int, a: AxisWalls, x: int, z: int)
    returns (r: Result<AxisWalls, GenError>)
    requires 0 <= x < aw && 0 <= z < ah && Faces.Shaped(a, aw, ah)
    ensures r == SetWallPresence(walls, aw, ah, a, x, z)
  {
    var xw, zw := a.xw, a.zw;
    if z <= 0 || !(z - 1 < |walls| && x < |walls[z - 1]| && walls[z - 1][x]) {
      if 0 < z && z - 1 >= |walls| {
        return Failure(TypeError);
      }
      xw := xw[x := xw[x][z := Face(1)]];
    }
    if z >= ah - 1 || !(z + 1 < |walls| && x < |walls[z + 1]| && walls[z + 1][x]) {
      if z < ah - 1 && z + 1 >= |walls| {
        return Failure(TypeError);
      }
      xw := xw[x := xw[x][z + 1 := Face(0)]];
    }
    assert Success(xw) == FrontBack(walls, aw, ah, a.xw, x, z);
    if x <= 0 || !(z < |walls| && 0 <= x - 1 < |walls[z]| && walls[z][x - 1]) {
      if 0 < x && z >= |walls| {
        return Failure(TypeError);
      }
      zw := zw[z := zw[z][x := Face(1)]];
    }
    if x >= aw - 1 || !(z < |walls| && x + 1 < |walls[z]| && walls[z][x + 1]) {
      if x < aw - 1 && z >= |walls| {
        return Failure(TypeError);
      }
      zw := zw[z := zw[z][x + 1 := Face(0)]];
    }
    assert Success(zw) == LeftRight(walls, aw, ah, a.zw, x, z);
    return Success(AxisWalls(xw, zw));
  }

  /** The inner face loop over column x: every row z read as `walls[z][x]`. */
  method LegacyFaceColumn(walls: seq<seq<bool>>, aw: int, ah: int, a0: AxisWalls, x: int) returns (r: Result<AxisWalls, GenError>)
    requires 0 <= x < aw && 0 <= ah && Faces.Shaped(a0, aw, ah)
    ensures r == ScanColumn(walls, aw, ah, a0, x, 0)
  {
    var a := a0;
    var z := 0;
    while z < ah
      invariant 0 <= z <= ah && Faces.Shaped(a, aw, ah)
      invariant ScanColumn(walls, aw, ah, a, x, z) == ScanColumn(walls, aw, ah, a0, x, 0)
    {
      if z >= |walls| {
        return Failure(TypeError);
      }
      if x < |walls[z]| && walls[z][x] {
        var s := LegacySetWallPresence(walls, aw, ah, a, x, z);
        if s.Failure? {
          return Failure(TypeError);
        }
        a := s.value;
      }
      z := z + 1;
    }
    return Success(a);
  }

  /**
   * The face loops: both tables pre-filled, then every position of the
   * `walls.length` by `walls[0].length` scan read as `walls[z][x]`, column by column.
   */
  method LegacyFaces(walls: seq<seq<bool>>) returns (r: Result<AxisWalls, GenError>)
    ensures r == DetermineAxisWalls(walls)
  {
    if |walls| == 0 {
      return Failure(TypeError);
    }
    var aw, ah := |walls|, |walls[0]|;
    var xw := LegacyBlank(aw + 1, ah + 2);
    var zw := LegacyBlank(ah + 1, aw + 2);
    var a := AxisWalls(xw, zw);
    assert a == InitializeAxisWalls(aw, ah);
    var x := 0;
    while x < aw
      invariant 0 <= x <= aw && Faces.Shaped(a, aw, ah)
      invariant ScanFrom(walls, aw, ah, a, x) == DetermineAxisWalls(walls)
    {
      var column := LegacyFaceColumn(walls, aw, ah, a, x);
      if column.Failure? {
        return Failure(TypeError);
      }
      a := column.value;
      x := x + 1;
    }
    return Success(a);
  }

  /** A torch: its position in the wall grid, the walled directions it could face, and the one it faces. */
  datatype Torch = Torch(x: int, y: int, options: seq<Direction>, facing: Option<Direction>)

  /**
   * The torch at open position (x, y): `options.randomElement()` is the option at
   * index `choose(x, y)` modulo the list's length, and there is none to pick from
   * an empty list.
   */
  function Site(walls: seq<seq<bool>>, choose: (int, int) -> nat, x: int, y: int): (t: Torch)
    requires 0 <= x < |walls| && 0 <= y < |walls[x]|
    ensures t.x == x && t.y == y && t.options == TorchOptions(walls, x, y)
    ensures t.facing.Some? <==> |t.options| > 0
    ensures t.facing.Some? ==> t.facing.value in t.options
  {
    var options := TorchOptions(walls, x, y);
    Torch(x, y, options, if |options| > 0 then Some(options[choose(x, y) % |options|]) else None)
  }

  /** An open position of the wall grid where the draw succeeds. */
  predicate Wanted(walls: seq<seq<bool>>, pick: (int, int) -> bool, x: int, y: int) {
    0 <= x < |walls| && 0 <= y < |walls[x]| && !walls[x][y] && pick(x, y)
  }

  /** A torch placed where it is wanted, as `Site` describes it. */
  predicate Placed(walls: seq<seq<bool>>, pick: (int, int) -> bool, choose: (int, int) -> nat, t: Torch) {
    Wanted(walls, pick, t.x, t.y) && t == Site(walls, choose, t.x, t.y)
  }

  /** The inner torch loop, over column `x`. */
  method LegacyTorchColumn(walls: seq<seq<bool>>, pick: (int, int) -> bool, choose: (int, int) -> nat, x: int)
    returns (column: seq<Torch>)
    requires 0 <= x < |walls|
    ensures forall t :: t in column ==> t.x == x && Placed(walls, pick, choose, t)
    ensures forall y :: Wanted(walls, pick, x, y) ==> Site(walls, choose, x, y) in column
  {
    column := [];
    var y := 0;
    while y < |walls[x]|
      invariant 0 <= y <= |walls[x]|
      invariant forall t :: t in column ==> t.x == x && Placed(walls, pick, choose, t)
      invariant forall b :: 0 <= b < y && Wanted(walls, pick, x, b) ==> Site(walls, choose, x, b) in column
    {
      if !walls[x][y] && pick(x, y) {
        column := column + [Site(walls, choose, x, y)];
      }
      y := y + 1;
    }
  }

  /**
   * The torch loop: a torch at every open position where the draw `pick(x, y)`
   * (standing for `rnd(10) === 0`) succeeds, and nowhere else.
   */
  method LegacyTorches(walls: seq<seq<bool>>, pick: (int, int) -> bool, choose: (int, int) -> nat)
    returns (torches: seq<Torch>)
    ensures forall t :: t in torches ==>
      0 <= t.x < |walls| && 0 <= t.y < |walls[t.x]| && !walls[t.x][t.y] && pick(t.x, t.y)
      && t == Site(walls, choose, t.x, t.y)
    ensures forall x, y :: 0 <= x < |walls| && 0 <= y < |walls[x]| && !walls[x][y] && pick(x, y) ==>
      Site(walls, choose, x, y) in torches
  {
    torches := [];
    var x := 0;
    while x < |walls|
      invariant 0 <= x <= |walls|
      invariant forall t :: t in torches ==> Placed(walls, pick, choose, t)
      invariant forall a, b :: 0 <= a < x && Wanted(walls, pick, a, b) ==> Site(walls, choose, a, b) in torches
    {
      var column := LegacyTorchColumn(walls, pick, choose, x);
      torches := torches + column;
      x := x + 1;
    }
    assert forall x, y :: Wanted(walls, pick, x, y) ==> Site(walls, choose, x, y) in torches;
  }

  /** What the constructor builds: the graph, the wall grid, the faces and the torches. */
  datatype Built = Built(graph: Maze, walls: seq<seq<bool>>, faces: AxisWalls, torches: seq<Torch>)

  /**
   * The constructor's maze work in order: generate the graph, derive the wall grid
   * (which throws for the degenerate graph, whose grid has no column 0), derive the
   * faces, place the torches. It fails exactly when the module version fails and
   * otherwise builds the same grid and faces; every torch it places has a direction
   * to face.
   */
  method LegacyBuild(width: int, height: int, start: Cell, choose: nat -> nat, pick: (int, int) -> bool, face: (int, int) -> nat)
    returns (r: Result<Built, GenError>)
    requires width >= 1 && height >= 1 ==> InGrid(width, height, start)
    ensures r.Success? <==> NewMaze(width, height, start, choose).Success?
    ensures r.Failure? ==> r.error == NewMaze(width, height, start, choose).error
    ensures r.Success? ==>
      r.value.walls == NewMaze(width, height, start, choose).value.walls
      && r.value.faces == NewMaze(width, height, start, choose).value.faces
    ensures r.Success? ==> forall t :: t in r.value.torches ==> t.facing.Some?
  {
    var g := Generate(width, height, start, choose);
    if g.Failure? {
      return Failure(g.error);
    }
    var m := g.value;
    if m.width < 1 || m.height < 1 {
      return Failure(TypeError);
    }
    var walls := LegacyWalls(m);
    var faces := LegacyFaces(walls);
    if faces.Failure? {
      return Failure(faces.error);
    }
    var torches := LegacyTorches(walls, pick, face);
    forall t | t in torches
      ensures t.facing.Some?
    {
      NewMazeTorches(width, height, start, choose, t.x, t.y);
    }
    return Success(Built(m, walls, faces.value, torches));
  }
}

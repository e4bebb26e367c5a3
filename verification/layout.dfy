/**
 * The `Maze` constructor of js/maze/maze.js: generate the cell graph, expand it into
 * the wall grid and derive the wall faces. A failure anywhere in this chain is the
 * exception the constructor throws.
 */
module Layout {
  import opened Wrappers
  import opened Grid
  import opened Generator
  import opened GeneratorProofs
  import opened Walls
  import opened Faces

  /** The fields of a constructed `Maze` this model keeps. */
  datatype MazeLayout = MazeLayout(width: int, height: int, graph: Maze, walls: seq<seq<bool>>, faces: AxisWalls)

  /**
   * `new Maze(width, height)`. A generated graph of width -1 (the only non-positive
   * width generation lets through) has no wall columns, so `walls[0][1] = false`
   * indexes undefined and throws.
   */
  function NewMaze(width: int, height: int, start: Cell, choose: nat -> nat): (r: Result<MazeLayout, GenError>)
    ensures r.Success? ==> r.value.width == width && r.value.height == height
    ensures r.Success? ==> |r.value.walls| == 2 * width + 1 && |r.value.walls[0]| == 2 * height + 1
    ensures r.Success? ==> Faces.Shaped(r.value.faces, 2 * width + 1, 2 * height + 1)
  {
    var m :- Generate(width, height, start, choose);
    if m.width < 1 || m.height < 1 then Failure(TypeError)
    else
      var walls := InitializeWalls(m.width, m.height, m.horizontal, m.vertical);
      var faces :- DetermineAxisWalls(walls);
      Success(MazeLayout(width, height, m, walls, faces))
  }

  /** Sign facts about products. */
  lemma ProductSigns(a: int, b: int)
    ensures a <= 0 && b >= 0 ==> a * b <= 0
    ensures a >= 2 && b >= 1 ==> a * b >= 2
  {
  }

  /** Two integers with product at least 1, one of them below 1, are both negative; both are -1 when the product is 1. */
  lemma ProductOne(width: int, height: int)
    requires width < 1 && width * height >= 1
    ensures width <= -1 && height <= -1
    ensures width * height == 1 ==> width == -1 && height == -1
  {
    ProductSigns(width, height);
    assert height <= -1;
    assert (-width) * (-height) == width * height;
    ProductSigns(-width, -height);
    ProductSigns(-height, -width);
  }

  /**
   * With a non-positive dimension, generation succeeds only for -1 by -1, with no
   * passages: any larger product starts the loop, and its first neighbour probes
   * read table columns that do not exist.
   */
  lemma GenerateDegenerate(width: int, height: int, start: Cell, choose: nat -> nat)
    requires width < 1 || height < 1
    ensures var r := Generate(width, height, start, choose);
      r.Success? ==> width == -1 && height == -1 && r.value.horizontal == {} && r.value.vertical == {}
  {
    if width * height - 1 >= 0 {
      if width < 1 {
        ProductOne(width, height);
      } else {
        ProductOne(height, width);
      }
      if width * height > 1 {
        var s := Init(width, height, start);
        var probe := Candidates(start);
        assert ReadUnvisited(s.unvisited, probe[0]).Failure? || ReadUnvisited(s.unvisited, probe[2]).Failure?;
        assert Step(s, choose).Failure?;
      }
    }
  }

  /** A maze with a non-positive dimension is never constructed: generation rejects it or the constructor throws. */
  lemma NewMazeNonPositive(width: int, height: int, start: Cell, choose: nat -> nat)
    requires width < 1 || height < 1
    ensures var r := NewMaze(width, height, start, choose);
      r.Failure? && (r.error == IllegalDimensions <==> width * height - 1 < 0)
  {
    GenerateDegenerate(width, height, start, choose);
  }

  /** For positive dimensions and a start cell in the grid, the constructor throws only a TypeError, and always does so for a maze taller than wide. */
  lemma NewMazeFailures(width: int, height: int, start: Cell, choose: nat -> nat)
    requires width >= 1 && height >= 1 && InGrid(width, height, start)
    ensures var r := NewMaze(width, height, start, choose);
      (r.Failure? ==> r.error == TypeError) && (height > width ==> r.Failure?)
  {
    GenerateSpanningTree(width, height, start, choose);
    var g := Generate(width, height, start, choose);
    if g.Success? && height > width {
      AxisWallsTall(InitializeWalls(width, height, g.value.horizontal, g.value.vertical));
    }
  }

  /** A constructed maze is no taller than wide and holds the wall grid of a spanning tree in which at most three passages meet at any cell. */
  lemma NewMazeGraph(width: int, height: int, start: Cell, choose: nat -> nat)
    requires width >= 1 && height >= 1 && InGrid(width, height, start)
    ensures var r := NewMaze(width, height, start, choose);
      r.Success? ==>
        var m := r.value.graph;
        height <= width
        && SpanningTree(width, height, m.horizontal, m.vertical)
        && (forall c :: Degree(m.horizontal, m.vertical, c) <= 3)
        && r.value.walls == InitializeWalls(width, height, m.horizontal, m.vertical)
  {
    NewMazeFailures(width, height, start, choose);
    GenerateSpanningTree(width, height, start, choose);
  }

  /**
   * The faces of a constructed maze lie exactly where a walled and an open position
   * of the transposed grid `walls[z][x]` meet.
   */
  lemma NewMazeFaces(width: int, height: int, start: Cell, choose: nat -> nat)
    requires width >= 1 && height >= 1
    ensures var r := NewMaze(width, height, start, choose);
      r.Success? ==>
        var walls, aw, ah := r.value.walls, 2 * width + 1, 2 * height + 1;
        (forall x, b :: 0 <= x < aw + 1 && 0 <= b < ah + 2 ==>
           r.value.faces.xw[x][b] == Between(Solid(walls, aw, ah, x, b - 1), Solid(walls, aw, ah, x, b)))
        && (forall z, b :: 0 <= z < ah + 1 && 0 <= b < aw + 2 ==>
           r.value.faces.zw[z][b] == Between(Solid(walls, aw, ah, b - 1, z), Solid(walls, aw, ah, b, z)))
  {
    var r := NewMaze(width, height, start, choose);
    if r.Success? {
      var walls := r.value.walls;
      if height > width {
        AxisWallsTall(walls);
      } else {
        AxisWallsFaces(walls);
      }
    }
  }

  /** Every open position of a constructed maze offers `addTorches` at least one direction. */
  lemma NewMazeTorches(width: int, height: int, start: Cell, choose: nat -> nat, x: int, y: int)
    requires width >= 1 && height >= 1 && InGrid(width, height, start)
    requires var r := NewMaze(width, height, start, choose);
      r.Success? && 0 <= x < |r.value.walls| && 0 <= y < |r.value.walls[x]| && !r.value.walls[x][y]
    ensures |TorchOptions(NewMaze(width, height, start, choose).value.walls, x, y)| >= 1
  {
    NewMazeGraph(width, height, start, choose);
    var m := NewMaze(width, height, start, choose).value.graph;
    TorchOptionsNonEmpty(width, height, m.horizontal, m.vertical, x, y);
  }
}

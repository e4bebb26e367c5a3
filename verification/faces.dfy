/**
 * The wall faces of js/maze/maze.js (`initializeAxisWalls`, `determineAxisWalls`,
 * `setWallPresence`): a scan over the wall grid that records, between each walled
 * and open neighbour, a face whose `flipped` flag says on which side the wall is.
 * `xw[x][b]` is the face between rows b - 1 and b of column x; `zw[z][b]` the one
 * between columns b - 1 and b of row z. The scan reads the grid as `walls[z][x]`
 * with x running over the first index's range and z over the second's.
 */
module Faces {
  import opened Wrappers
  import opened Generator

  /** An entry of a face table: `false` in the source, or an object `{ flipped }`. */
  datatype Face = NoFace | Face(flipped: int)

  /** The two face tables. */
  datatype AxisWalls = AxisWalls(xw: seq<seq<Face>>, zw: seq<seq<Face>>)

  /** `t` has `rows` entries of `cols` faces each. */
  predicate Table(t: seq<seq<Face>>, rows: int, cols: int) {
    |t| == rows && forall i :: 0 <= i < |t| ==> |t[i]| == cols
  }

  /** Both tables have the shape `initializeAxisWalls` gives them for an `aw` by `ah` scan. */
  predicate Shaped(a: AxisWalls, aw: int, ah: int) {
    Table(a.xw, aw + 1, ah + 2) && Table(a.zw, ah + 1, aw + 2)
  }

  /** A table of `rows` by `cols` entries without faces. */
  function Blank(rows: nat, cols: nat): (t: seq<seq<Face>>)
    ensures Table(t, rows, cols)
    ensures forall i, j :: 0 <= i < rows && 0 <= j < cols ==> t[i][j] == NoFace
  {
    seq(rows, _ => seq(cols, _ => NoFace))
  }

  /** `initializeAxisWalls` before the scan: both tables, one entry larger than the scan in each direction and one more along the face axis, hold no face. */
  function InitializeAxisWalls(aw: nat, ah: nat): (a: AxisWalls)
    ensures Shaped(a, aw, ah)
    ensures forall i, j :: 0 <= i < |a.xw| && 0 <= j < |a.xw[i]| ==> a.xw[i][j] == NoFace
    ensures forall i, j :: 0 <= i < |a.zw| && 0 <= j < |a.zw[i]| ==> a.zw[i][j] == NoFace
  {
    AxisWalls(Blank(aw + 1, ah + 2), Blank(ah + 1, aw + 2))
  }

  /** `t[i][j] = v` on an existing entry. */
  function Put(t: seq<seq<Face>>, i: int, j: int, v: Face): (t': seq<seq<Face>>)
    requires 0 <= i < |t| && 0 <= j < |t[i]|
    ensures |t'| == |t|
    ensures forall a :: 0 <= a < |t| ==> |t'[a]| == |t[a]|
    ensures forall a, b :: 0 <= a < |t| && 0 <= b < |t[a]| ==> t'[a][b] == if a == i && b == j then v else t[a][b]
  {
    t[i := t[i][j := v]]
  }

  /**
   * `walls[z][x]` with JavaScript semantics: a missing row is undefined and indexing
   * it throws a TypeError; a missing entry of an existing row is undefined, which is falsy.
   */
  function ReadWall(walls: seq<seq<bool>>, z: int, x: int): (r: Result<bool, GenError>)
    ensures r.Failure? <==> !(0 <= z < |walls|)
    ensures r.Failure? ==> r.error == TypeError
    ensures r.Success? ==> (r.value <==> 0 <= x < |walls[z]| && walls[z][x])
  {
    if 0 <= z < |walls| then Success(0 <= x < |walls[z]| && walls[z][x]) else Failure(TypeError)
  }

  /** Whether the scan over `aw` by `ah` positions finds a wall at (x, z): inside the scan and `walls[z][x]` exists and is true. */
  predicate Solid(walls: seq<seq<bool>>, aw: int, ah: int, x: int, z: int) {
    0 <= x < aw && 0 <= z < ah && z < |walls| && x < |walls[z]| && walls[z][x]
  }

  /** Whether a neighbour test passes: the neighbour is outside the scan (`outside`) or `read` finds it open. */
  function Exposed(outside: bool, read: Result<bool, GenError>): (r: Result<bool, GenError>)
    ensures r.Failure? <==> !outside && read.Failure?
    ensures r.Failure? ==> r == read
    ensures r.Success? ==> (r.value <==> outside || !read.value)
  {
    if outside then Success(true) else if read.Success? then Success(!read.value) else read
  }

  /** The front and back tests of `setWallPresence`, which write `xw`. */
  function FrontBack(walls: seq<seq<bool>>, aw: int, ah: int, xw: seq<seq<Face>>, x: int, z: int): (r: Result<seq<seq<Face>>, GenError>)
    requires 0 <= x < aw && 0 <= z < ah && Table(xw, aw + 1, ah + 2)
    ensures r.Failure? ==> r.error == TypeError
    ensures z < |walls| && (z + 1 < ah ==> z + 1 < |walls|) ==> r.Success?
    ensures r.Success? ==> Table(r.value, aw + 1, ah + 2)
    ensures r.Success? ==> forall i, j :: 0 <= i < aw + 1 && 0 <= j < ah + 2 ==>
      r.value[i][j] == if i == x && j == z && !Solid(walls, aw, ah, x, z - 1) then Face(1)
                       else if i == x && j == z + 1 && !Solid(walls, aw, ah, x, z + 1) then Face(0)
                       else xw[i][j]
  {
    var front :- Exposed(z <= 0, ReadWall(walls, z - 1, x));
    var t1 := if front then Put(xw, x, z, Face(1)) else xw;
    var back :- Exposed(z >= ah - 1, ReadWall(walls, z + 1, x));
    Success(if back then Put(t1, x, z + 1, Face(0)) else t1)
  }

  /** The left and right tests of `setWallPresence`, which write `zw`. */
  function LeftRight(walls: seq<seq<bool>>, aw: int, ah: int, zw: seq<seq<Face>>, x: int, z: int): (r: Result<seq<seq<Face>>, GenError>)
    requires 0 <= x < aw && 0 <= z < ah && Table(zw, ah + 1, aw + 2)
    ensures r.Failure? ==> r.error == TypeError
    ensures z < |walls| ==> r.Success?
    ensures r.Success? ==> Table(r.value, ah + 1, aw + 2)
    ensures r.Success? ==> forall i, j :: 0 <= i < ah + 1 && 0 <= j < aw + 2 ==>
      r.value[i][j] == if i == z && j == x && !Solid(walls, aw, ah, x - 1, z) then Face(1)
                       else if i == z && j == x + 1 && !Solid(walls, aw, ah, x + 1, z) then Face(0)
                       else zw[i][j]
  {
    var left :- Exposed(x <= 0, ReadWall(walls, z, x - 1));
    var t1 := if left then Put(zw, z, x, Face(1)) else zw;
    var right :- Exposed(x >= aw - 1, ReadWall(walls, z, x + 1));
    Success(if right then Put(t1, z, x + 1, Face(0)) else t1)
  }

  /**
   * `setWallPresence(x, z)`: four neighbour tests in order (front, back, left,
   * right), each writing a face when the neighbour is outside the scan or open.
   * The front and back tests write only `xw` and the left and right tests only
   * `zw`, so running them as two groups gives the same tables and the same error.
   */
  function SetWallPresence(walls: seq<seq<bool>>, aw: int, ah: int, a: AxisWalls, x: int, z: int): (r: Result<AxisWalls, GenError>)
    requires 0 <= x < aw && 0 <= z < ah && Shaped(a, aw, ah)
    ensures r.Failure? ==> r.error == TypeError
    ensures z < |walls| && (z + 1 < ah ==> z + 1 < |walls|) ==> r.Success?
    ensures r.Success? ==> Shaped(r.value, aw, ah)
    ensures r.Success? ==> forall i, j :: 0 <= i < aw + 1 && 0 <= j < ah + 2 ==>
      r.value.xw[i][j] == if i == x && j == z && !Solid(walls, aw, ah, x, z - 1) then Face(1)
                          else if i == x && j == z + 1 && !Solid(walls, aw, ah, x, z + 1) then Face(0)
                          else a.xw[i][j]
    ensures r.Success? ==> forall i, j :: 0 <= i < ah + 1 && 0 <= j < aw + 2 ==>
      r.value.zw[i][j] == if i == z && j == x && !Solid(walls, aw, ah, x - 1, z) then Face(1)
                          else if i == z && j == x + 1 && !Solid(walls, aw, ah, x + 1, z) then Face(0)
                          else a.zw[i][j]
  {
    var xw :- FrontBack(walls, aw, ah, a.xw, x, z);
    var zw :- LeftRight(walls, aw, ah, a.zw, x, z);
    Success(AxisWalls(xw, zw))
  }

  /** The inner loop of `determineAxisWalls` over column x from row z on. */
  function ScanColumn(walls: seq<seq<bool>>, aw: int, ah: int, a: AxisWalls, x: int, z: int): (r: Result<AxisWalls, GenError>)
    requires 0 <= x < aw && 0 <= z <= ah && Shaped(a, aw, ah)
    ensures r.Failure? ==> r.error == TypeError
    ensures r.Success? ==> Shaped(r.value, aw, ah)
    decreases ah - z
  {
    if z == ah then Success(a)
    else
      var here :- ReadWall(walls, z, x);
      var a' :- if here then SetWallPresence(walls, aw, ah, a, x, z) else Success(a);
      ScanColumn(walls, aw, ah, a', x, z + 1)
  }

  /** The outer loop of `determineAxisWalls` from column x on. */
  function ScanFrom(walls: seq<seq<bool>>, aw: int, ah: int, a: AxisWalls, x: int): (r: Result<AxisWalls, GenError>)
    requires 0 <= x <= aw && 0 <= ah && Shaped(a, aw, ah)
    ensures r.Failure? ==> r.error == TypeError
    ensures r.Success? ==> Shaped(r.value, aw, ah)
    decreases aw - x
  {
    if x == aw then Success(a)
    else
      var a' :- ScanColumn(walls, aw, ah, a, x, 0);
      ScanFrom(walls, aw, ah, a', x + 1)
  }

  /**
   * The faces of a wall grid (`initializeAxisWalls` and `determineAxisWalls`): the
   * scan covers `walls.length` by `walls[0].length` positions.
   */
  function DetermineAxisWalls(walls: seq<seq<bool>>): (r: Result<AxisWalls, GenError>)
    ensures r.Failure? ==> r.error == TypeError
    ensures r.Success? ==> |walls| >= 1 && Shaped(r.value, |walls|, |walls[0]|)
  {
    if |walls| == 0 then Failure(TypeError)
    else ScanFrom(walls, |walls|, |walls[0]|, InitializeAxisWalls(|walls|, |walls[0]|), 0)
  }

  /** The face between two neighbours along an axis: none unless exactly one is walled, `flipped` 1 when the wall is on the far side and 0 when on the near side. */
  function Between(before: bool, here: bool): Face {
    if here && !before then Face(1) else if before && !here then Face(0) else NoFace
  }

  /** The scan has visited (x, z) once it reaches (x0, z0). */
  predicate Done(x0: int, z0: int, x: int, z: int) {
    x < x0 || (x == x0 && z < z0)
  }

  /** The entry `xw[x][b]` once the scan reaches (x0, z0). */
  function XEntry(walls: seq<seq<bool>>, aw: int, ah: int, x0: int, z0: int, x: int, b: int): Face {
    if Done(x0, z0, x, b) && Solid(walls, aw, ah, x, b) && !Solid(walls, aw, ah, x, b - 1) then Face(1)
    else if Done(x0, z0, x, b - 1) && Solid(walls, aw, ah, x, b - 1) && !Solid(walls, aw, ah, x, b) then Face(0)
    else NoFace
  }

  /** The entry `zw[z][b]` once the scan reaches (x0, z0). */
  function ZEntry(walls: seq<seq<bool>>, aw: int, ah: int, x0: int, z0: int, z: int, b: int): Face {
    if Done(x0, z0, b, z) && Solid(walls, aw, ah, b, z) && !Solid(walls, aw, ah, b - 1, z) then Face(1)
    else if Done(x0, z0, b - 1, z) && Solid(walls, aw, ah, b - 1, z) && !Solid(walls, aw, ah, b, z) then Face(0)
    else NoFace
  }

  /** The tables hold what the scan has written by the time it reaches (x0, z0). */
  ghost predicate Matches(walls: seq<seq<bool>>, aw: int, ah: int, a: AxisWalls, x0: int, z0: int) {
    Shaped(a, aw, ah)
    && (forall i, j :: 0 <= i < aw + 1 && 0 <= j < ah + 2 ==> a.xw[i][j] == XEntry(walls, aw, ah, x0, z0, i, j))
    && (forall i, j :: 0 <= i < ah + 1 && 0 <= j < aw + 2 ==> a.zw[i][j] == ZEntry(walls, aw, ah, x0, z0, i, j))
  }

  /** Before the scan nothing is written. */
  lemma InitMatches(walls: seq<seq<bool>>, aw: nat, ah: nat)
    ensures Matches(walls, aw, ah, InitializeAxisWalls(aw, ah), 0, 0)
  {
  }

  /** One position of the inner loop keeps the tables in step with the scan. */
  lemma StepMatches(walls: seq<seq<bool>>, aw: int, ah: int, a: AxisWalls, x: int, z: int)
    requires 0 <= x < aw && 0 <= z < ah && ah <= |walls|
    requires Matches(walls, aw, ah, a, x, z)
    ensures var r := if Solid(walls, aw, ah, x, z) then SetWallPresence(walls, aw, ah, a, x, z) else Success(a);
      r.Success? && Matches(walls, aw, ah, r.value, x, z + 1)
  {
  }

  /** The rest of column x keeps the tables in step with the scan. */
  lemma {:induction false} ScanColumnMatches(walls: seq<seq<bool>>, aw: int, ah: int, a: AxisWalls, x: int, z: int)
    requires 0 <= x < aw && 0 <= z <= ah && ah <= |walls|
    requires Matches(walls, aw, ah, a, x, z)
    ensures var r := ScanColumn(walls, aw, ah, a, x, z);
      r.Success? && Matches(walls, aw, ah, r.value, x, ah)
    decreases ah - z
  {
    if z < ah {
      StepMatches(walls, aw, ah, a, x, z);
      var a' := (if Solid(walls, aw, ah, x, z) then SetWallPresence(walls, aw, ah, a, x, z) else Success(a)).value;
      assert ScanColumn(walls, aw, ah, a, x, z) == ScanColumn(walls, aw, ah, a', x, z + 1);
      ScanColumnMatches(walls, aw, ah, a', x, z + 1);
    }
  }

  /** Reaching the end of column x is reaching the start of column x + 1: the positions in between lie outside the scan. */
  lemma NextColumn(walls: seq<seq<bool>>, aw: int, ah: int, a: AxisWalls, x: int)
    requires 0 <= x < aw && Matches(walls, aw, ah, a, x, ah)
    ensures Matches(walls, aw, ah, a, x + 1, 0)
  {
    forall i, j | 0 <= i < aw + 1 && 0 <= j < ah + 2
      ensures XEntry(walls, aw, ah, x, ah, i, j) == XEntry(walls, aw, ah, x + 1, 0, i, j)
    {
    }
    forall i, j | 0 <= i < ah + 1 && 0 <= j < aw + 2
      ensures ZEntry(walls, aw, ah, x, ah, i, j) == ZEntry(walls, aw, ah, x + 1, 0, i, j)
    {
    }
  }

  /** The remaining columns keep the tables in step with the scan. */
  lemma {:induction false} ScanFromMatches(walls: seq<seq<bool>>, aw: int, ah: int, a: AxisWalls, x: int)
    requires 0 <= x <= aw && 0 <= ah <= |walls|
    requires Matches(walls, aw, ah, a, x, 0)
    ensures var r := ScanFrom(walls, aw, ah, a, x);
      r.Success? && Matches(walls, aw, ah, r.value, aw, 0)
    decreases aw - x
  {
    if x < aw {
      ScanColumnMatches(walls, aw, ah, a, x, 0);
      var a' := ScanColumn(walls, aw, ah, a, x, 0).value;
      NextColumn(walls, aw, ah, a', x);
      ScanFromMatches(walls, aw, ah, a', x + 1);
    }
  }

  /**
   * When the grid has at least as many columns as rows, the scan succeeds, and
   * each table entry holds a face exactly where a walled and an open position of
   * the scan meet: `xw[x][b]` between (x, b - 1) and (x, b), `zw[z][b]` between
   * (b - 1, z) and (b, z), where (x, z) is walled when `walls[z][x]` is true.
   */
  lemma AxisWallsFaces(walls: seq<seq<bool>>)
    requires |walls| >= 1 && |walls[0]| <= |walls|
    ensures var r := DetermineAxisWalls(walls);
      var aw, ah := |walls|, |walls[0]|;
      r.Success?
      && (forall x, b :: 0 <= x < aw + 1 && 0 <= b < ah + 2 ==>
            r.value.xw[x][b] == Between(Solid(walls, aw, ah, x, b - 1), Solid(walls, aw, ah, x, b)))
      && (forall z, b :: 0 <= z < ah + 1 && 0 <= b < aw + 2 ==>
            r.value.zw[z][b] == Between(Solid(walls, aw, ah, b - 1, z), Solid(walls, aw, ah, b, z)))
  {
    var aw, ah := |walls|, |walls[0]|;
    InitMatches(walls, aw, ah);
    ScanFromMatches(walls, aw, ah, InitializeAxisWalls(aw, ah), 0);
  }

  /** A column scan that will reach a missing row throws. */
  lemma {:induction false} ScanColumnThrows(walls: seq<seq<bool>>, aw: int, ah: int, a: AxisWalls, x: int, z: int)
    requires 0 <= x < aw && 0 <= z <= |walls| < ah && Shaped(a, aw, ah)
    ensures ScanColumn(walls, aw, ah, a, x, z) == Failure(TypeError)
    decreases ah - z
  {
    if z < |walls| {
      var r := if ReadWall(walls, z, x).value then SetWallPresence(walls, aw, ah, a, x, z) else Success(a);
      if r.Success? {
        ScanColumnThrows(walls, aw, ah, r.value, x, z + 1);
      }
    }
  }

  /** When the grid has more rows than columns, the first column scan reads `walls[walls.length]`, which is undefined, and throws. */
  lemma AxisWallsTall(walls: seq<seq<bool>>)
    requires |walls| >= 1 && |walls[0]| > |walls|
    ensures DetermineAxisWalls(walls) == Failure(TypeError)
  {
    ScanColumnThrows(walls, |walls|, |walls[0]|, InitializeAxisWalls(|walls|, |walls[0]|), 0, 0);
  }
}

/**
 * `generateMaze` of js/maze/mazeGenerator.js: a randomized depth-first search with an
 * explicit stack over a `width` by `height` grid of cells. The two random sources
 * are parameters: `start` is the cell the source draws with `rnd`, and
 * `choose(k) % m` is the index `randomElement` picks among `m` candidates at the
 * `k`-th carve. Both helpers live outside this model.
 */
module Generator {
  import opened Wrappers
  import opened Grid

  /**
   * How generation fails: the dimension check calls `console.alert`, which is not a
   * function, and an index read on `undefined` (a missing table column, or the
   * `here` taken from an empty stack) throws a TypeError.
   */
  datatype GenError = IllegalDimensions | TypeError

  /** The object `generateMaze` returns. */
  datatype Maze = Maze(width: int, height: int, horizontal: set<Cell>, vertical: set<Cell>)

  /** The local variables of the generation loop; `draws` counts the neighbour picks so far. */
  datatype State = State(
    here: Option<Cell>,
    stack: seq<Cell>,
    unvisited: seq<seq<bool>>,
    horizontal: set<Cell>,
    vertical: set<Cell>,
    n: int,
    draws: nat)

  /** The number of iterations of a `for (i = 0; i < k; i++)` loop. */
  function Iterations(k: int): nat {
    if k < 0 then 0 else k
  }

  /**
   * The `unvisited` table: `width + 2` columns of `height + 1` entries, indexed by
   * the cell coordinates plus one, so that the columns at 0 and `width + 1` and the
   * entries at 0 (and the missing entry at `height + 1`) are sentinels.
   */
  function InitUnvisited(width: int, height: int, start: Cell): (u: seq<seq<bool>>)
    ensures |u| == Iterations(width + 2)
    ensures forall i :: 0 <= i < |u| ==> |u[i]| == Iterations(height + 1)
    ensures forall i, j :: 0 <= i < |u| && 0 <= j < |u[i]| ==>
      (u[i][j] <==> InGrid(width, height, Cell(i - 1, j - 1)) && Cell(i - 1, j - 1) != start)
  {
    seq(Iterations(width + 2), i =>
      seq(Iterations(height + 1), j => i > 0 && i < width + 1 && j > 0 && (i != start.x + 1 || j != start.y + 1)))
  }

  /** The table entry of cell `c` exists and still reads true. */
  predicate Marked(u: seq<seq<bool>>, c: Cell) {
    0 <= c.x + 1 < |u| && 0 <= c.y + 1 < |u[c.x + 1]| && u[c.x + 1][c.y + 1]
  }

  /**
   * `unvisited[c.x + 1][c.y + 1]` with JavaScript semantics: a missing column is
   * `undefined` and indexing it throws; a missing entry is `undefined`, which is falsy.
   */
  function ReadUnvisited(u: seq<seq<bool>>, c: Cell): (r: Result<bool, GenError>)
    ensures r.Failure? <==> !(0 <= c.x + 1 < |u|)
    ensures r.Success? ==> (r.value <==> Marked(u, c))
  {
    if 0 <= c.x + 1 < |u| then
      Success(0 <= c.y + 1 < |u[c.x + 1]| && u[c.x + 1][c.y + 1])
    else
      Failure(TypeError)
  }

  /** The four neighbours in the order the source lists them. */
  function Candidates(c: Cell): seq<Cell> {
    [PlusX(c), PlusY(c), Cell(c.x - 1, c.y), Cell(c.x, c.y - 1)]
  }

  /** `a` and `b` are 4-neighbours. */
  predicate Adjacent(a: Cell, b: Cell) {
    b == PlusX(a) || b == PlusY(a) || a == PlusX(b) || a == PlusY(b)
  }

  /** The filtering loop: keeps, in order, the candidates whose entry reads true. */
  function Unvisited(u: seq<seq<bool>>, cs: seq<Cell>): (r: Result<seq<Cell>, GenError>)
    ensures r.Failure? <==> exists i :: 0 <= i < |cs| && ReadUnvisited(u, cs[i]).Failure?
    ensures r.Failure? ==> r.error == TypeError
    ensures r.Success? ==> |r.value| <= |cs| && forall q :: q in r.value <==> q in cs && Marked(u, q)
    decreases |cs|
  {
    if |cs| == 0 then Success([])
    else
      var keep :- ReadUnvisited(u, cs[0]);
      var rest :- Unvisited(u, cs[1..]);
      assert forall i :: 1 <= i < |cs| ==> cs[i] == cs[1..][i - 1];
      Success(if keep then [cs[0]] + rest else rest)
  }

  /** Marks cell `q` as visited. */
  function Clear(u: seq<seq<bool>>, q: Cell): (u': seq<seq<bool>>)
    requires Marked(u, q)
    ensures |u'| == |u| && forall i :: 0 <= i < |u| ==> |u'[i]| == |u[i]|
    ensures forall c :: Marked(u', c) <==> Marked(u, c) && c != q
  {
    u[q.x + 1 := u[q.x + 1][q.y + 1 := false]]
  }

  function Min(a: int, b: int): int {
    if a < b then a else b
  }

  /** The `horizontal` table after the carve from `here` to `next` (lines 64-65). */
  function CarveHorizontal(horizontal: set<Cell>, here: Cell, next: Cell): (h': set<Cell>)
    requires Adjacent(here, next)
    ensures next.x == here.x ==> h' == horizontal + {Cell(here.x, Min(here.y, next.y))}
    ensures next.x != here.x ==> h' == horizontal
  {
    if next.x == here.x then horizontal + {Cell(next.x, (next.y + here.y - 1) / 2)} else horizontal
  }

  /** The `vertical` table after the carve from `here` to `next` (lines 66-67). */
  function CarveVertical(vertical: set<Cell>, here: Cell, next: Cell): (v': set<Cell>)
    requires Adjacent(here, next)
    ensures next.x != here.x ==> v' == vertical + {Cell(Min(here.x, next.x), here.y)}
    ensures next.x == here.x ==> v' == vertical
  {
    if next.x == here.x then vertical else vertical + {Cell((next.x + here.x - 1) / 2, next.y)}
  }

  /** One iteration of the loop body when `here` has an unvisited neighbour `q`. */
  predicate IsCarve(s: State, t: State) {
    s.here.Some? && t.here.Some?
    && var c, q := s.here.value, t.here.value;
    Adjacent(c, q) && Marked(s.unvisited, q)
    && t.unvisited == Clear(s.unvisited, q)
    && t.horizontal == CarveHorizontal(s.horizontal, c, q)
    && t.vertical == CarveVertical(s.vertical, c, q)
    && t.stack == s.stack + [q]
    && t.n == s.n - 1 && t.draws == s.draws + 1
  }

  /** One iteration of the loop body when `here` has none: `here = stack.pop()`. */
  predicate IsPop(s: State, t: State) {
    s.here.Some?
    && Unvisited(s.unvisited, Candidates(s.here.value)) == Success([])
    && t.unvisited == s.unvisited && t.horizontal == s.horizontal && t.vertical == s.vertical
    && t.n == s.n && t.draws == s.draws
    && (if |s.stack| == 0 then t.here.None? && t.stack == []
        else t.here == Some(s.stack[|s.stack| - 1]) && t.stack == s.stack[..|s.stack| - 1])
  }

  /** One iteration of the `while (n > 0)` body. */
  function Step(s: State, choose: nat -> nat): (r: Result<State, GenError>)
    ensures s.here.None? ==> r == Failure(TypeError)
    ensures r.Failure? ==> r.error == TypeError
    ensures r.Success? ==> IsCarve(s, r.value) || IsPop(s, r.value)
    ensures r.Failure? && s.here.Some? ==> exists i :: 0 <= i < 4 && ReadUnvisited(s.unvisited, Candidates(s.here.value)[i]).Failure?
  {
    match s.here
    case None => Failure(TypeError)
    case Some(c) =>
      var nb :- Unvisited(s.unvisited, Candidates(c));
      if |nb| > 0 then
        var q := nb[choose(s.draws) % |nb|];
        assert q in Candidates(c);
        Success(State(Some(q), s.stack + [q], Clear(s.unvisited, q),
          CarveHorizontal(s.horizontal, c, q), CarveVertical(s.vertical, c, q), s.n - 1, s.draws + 1))
      else if |s.stack| == 0 then
        Success(s.(here := None))
      else
        Success(s.(here := Some(s.stack[|s.stack| - 1]), stack := s.stack[..|s.stack| - 1]))
  }

  /** The `while (n > 0)` loop. */
  function Run(s: State, choose: nat -> nat): (r: Result<State, GenError>)
    ensures r.Success? ==> r.value.n <= 0
    ensures r.Failure? ==> r.error == TypeError
    decreases Iterations(s.n), |s.stack|, if s.here.Some? then 1 else 0
  {
    if s.n <= 0 then Success(s)
    else
      var t :- Step(s, choose);
      Run(t, choose)
  }

  /** The state before the loop. */
  function Init(width: int, height: int, start: Cell): State {
    State(Some(start), [start], InitUnvisited(width, height, start), {}, {}, width * height - 1, 0)
  }

  /** `generateMaze(width, height)`. */
  function Generate(width: int, height: int, start: Cell, choose: nat -> nat): (r: Result<Maze, GenError>)
    ensures r == Failure(IllegalDimensions) <==> width * height - 1 < 0
    ensures r.Success? ==> r.value.width == width && r.value.height == height
  {
    if width * height - 1 < 0 then Failure(IllegalDimensions)
    else
      var fin :- Run(Init(width, height, start), choose);
      Success(Maze(width, height, fin.horizontal, fin.vertical))
  }
}

/**
 * The cell graph a maze is carved in: cells of a `width` by `height` grid and the
 * two passage tables of js/maze/mazeGenerator.js, held as the sets of their true
 * entries (the JavaScript tables are sparse, so an entry never written reads as
 * undefined, which is falsy). `horizontal[x][y]` opens the wall between (x, y)
 * and (x, y + 1); `vertical[x][y]` opens the wall between (x, y) and (x + 1, y).
 */
module Grid {

  datatype Cell = Cell(x: int, y: int)

  predicate InGrid(width: int, height: int, c: Cell) {
    0 <= c.x < width && 0 <= c.y < height
  }

  /** The cell one step along y. */
  function PlusY(c: Cell): Cell {
    Cell(c.x, c.y + 1)
  }

  /** The cell one step along x. */
  function PlusX(c: Cell): Cell {
    Cell(c.x + 1, c.y)
  }

  /** A passage of the two tables joins `a` and `b`. */
  predicate Linked(horizontal: set<Cell>, vertical: set<Cell>, a: Cell, b: Cell) {
    (b == PlusY(a) && a in horizontal) || (a == PlusY(b) && b in horizontal)
    || (b == PlusX(a) && a in vertical) || (a == PlusX(b) && b in vertical)
  }

  /** A walk through passages. */
  predicate IsPath(horizontal: set<Cell>, vertical: set<Cell>, p: seq<Cell>) {
    |p| >= 1 && forall i :: 0 <= i < |p| - 1 ==> Linked(horizontal, vertical, p[i], p[i + 1])
  }

  /** Some walk through passages leads from `a` to `b`. */
  ghost predicate Connected(horizontal: set<Cell>, vertical: set<Cell>, a: Cell, b: Cell) {
    exists p :: IsPath(horizontal, vertical, p) && p[0] == a && p[|p| - 1] == b
  }

  /** The number of passages that meet at `c`. */
  function Degree(horizontal: set<Cell>, vertical: set<Cell>, c: Cell): (d: nat)
    ensures d <= 4
  {
    (if c in horizontal then 1 else 0) + (if Cell(c.x, c.y - 1) in horizontal then 1 else 0)
    + (if c in vertical then 1 else 0) + (if Cell(c.x - 1, c.y) in vertical then 1 else 0)
  }

  /** 1 when a passage joins `a` and `b`, else 0. */
  function LinkBit(horizontal: set<Cell>, vertical: set<Cell>, a: Cell, b: Cell): nat {
    if Linked(horizontal, vertical, a, b) then 1 else 0
  }

  /**
   * The degree of a cell is the number of its four neighbours a passage joins it
   * to, and a passage joins it to nothing else.
   */
  lemma DegreeCountsLinks(horizontal: set<Cell>, vertical: set<Cell>, c: Cell)
    ensures Degree(horizontal, vertical, c)
      == LinkBit(horizontal, vertical, c, PlusX(c)) + LinkBit(horizontal, vertical, c, PlusY(c))
       + LinkBit(horizontal, vertical, c, Cell(c.x - 1, c.y)) + LinkBit(horizontal, vertical, c, Cell(c.x, c.y - 1))
    ensures forall d :: Linked(horizontal, vertical, c, d) ==>
      d == PlusX(c) || d == PlusY(c) || d == Cell(c.x - 1, c.y) || d == Cell(c.x, c.y - 1)
  {
    assert PlusY(Cell(c.x, c.y - 1)) == c;
    assert PlusX(Cell(c.x - 1, c.y)) == c;
  }

  /** Every passage joins two cells of the grid. */
  predicate PassagesInGrid(width: int, height: int, horizontal: set<Cell>, vertical: set<Cell>) {
    (forall e :: e in horizontal ==> InGrid(width, height, e) && InGrid(width, height, PlusY(e)))
    && (forall e :: e in vertical ==> InGrid(width, height, e) && InGrid(width, height, PlusX(e)))
  }

  /**
   * The passages form a spanning tree of the grid: they stay inside it, there is one
   * fewer of them than there are cells, and any two cells are connected.
   */
  ghost predicate SpanningTree(width: int, height: int, horizontal: set<Cell>, vertical: set<Cell>) {
    PassagesInGrid(width, height, horizontal, vertical)
    && |horizontal| + |vertical| == width * height - 1
    && forall a, b :: InGrid(width, height, a) && InGrid(width, height, b) ==> Connected(horizontal, vertical, a, b)
  }

  /** Passages are undirected. */
  lemma LinkedSymmetric(horizontal: set<Cell>, vertical: set<Cell>, a: Cell, b: Cell)
    ensures Linked(horizontal, vertical, a, b) <==> Linked(horizontal, vertical, b, a)
  {
  }

  /** A single cell is connected to itself. */
  lemma ConnectedRefl(horizontal: set<Cell>, vertical: set<Cell>, a: Cell)
    ensures Connected(horizontal, vertical, a, a)
  {
    assert IsPath(horizontal, vertical, [a]);
  }

  /** Carving more passages keeps every connection. */
  lemma ConnectedMono(h1: set<Cell>, v1: set<Cell>, h2: set<Cell>, v2: set<Cell>, a: Cell, b: Cell)
    requires h1 <= h2 && v1 <= v2
    requires Connected(h1, v1, a, b)
    ensures Connected(h2, v2, a, b)
  {
    var p :| IsPath(h1, v1, p) && p[0] == a && p[|p| - 1] == b;
    assert forall i :: 0 <= i < |p| - 1 ==> Linked(h1, v1, p[i], p[i + 1]);
    assert IsPath(h2, v2, p);
  }

  /** A connection followed by one more passage. */
  lemma ConnectedExtend(horizontal: set<Cell>, vertical: set<Cell>, a: Cell, b: Cell, c: Cell)
    requires Connected(horizontal, vertical, a, b)
    requires Linked(horizontal, vertical, b, c)
    ensures Connected(horizontal, vertical, a, c)
  {
    var p :| IsPath(horizontal, vertical, p) && p[0] == a && p[|p| - 1] == b;
    var q := p + [c];
    forall i | 0 <= i < |q| - 1
      ensures Linked(horizontal, vertical, q[i], q[i + 1])
    {
      if i < |p| - 1 {
        assert q[i] == p[i] && q[i + 1] == p[i + 1];
      }
    }
    assert IsPath(horizontal, vertical, q);
  }

  /** A walk read backwards is a walk. */
  lemma ConnectedSymmetric(horizontal: set<Cell>, vertical: set<Cell>, a: Cell, b: Cell)
    requires Connected(horizontal, vertical, a, b)
    ensures Connected(horizontal, vertical, b, a)
  {
    var p :| IsPath(horizontal, vertical, p) && p[0] == a && p[|p| - 1] == b;
    var q := seq(|p|, i requires 0 <= i < |p| => p[|p| - 1 - i]);
    forall i | 0 <= i < |q| - 1
      ensures Linked(horizontal, vertical, q[i], q[i + 1])
    {
      assert Linked(horizontal, vertical, p[|p| - 2 - i], p[|p| - 1 - i]);
      LinkedSymmetric(horizontal, vertical, q[i], q[i + 1]);
    }
    assert IsPath(horizontal, vertical, q);
  }

  /** Two walks that meet can be joined. */
  lemma ConnectedTransitive(horizontal: set<Cell>, vertical: set<Cell>, a: Cell, b: Cell, c: Cell)
    requires Connected(horizontal, vertical, a, b)
    requires Connected(horizontal, vertical, b, c)
    ensures Connected(horizontal, vertical, a, c)
  {
    var p :| IsPath(horizontal, vertical, p) && p[0] == a && p[|p| - 1] == b;
    var q :| IsPath(horizontal, vertical, q) && q[0] == b && q[|q| - 1] == c;
    var r := p + q[1..];
    forall i | 0 <= i < |r| - 1
      ensures Linked(horizontal, vertical, r[i], r[i + 1])
    {
      if i < |p| - 1 {
        assert r[i] == p[i] && r[i + 1] == p[i + 1];
      } else {
        var k := i - |p| + 1;
        assert r[i] == q[k] && r[i + 1] == q[k + 1];
      }
    }
    assert IsPath(horizontal, vertical, r);
  }
}

/**
 * What the generation loop of js/maze/mazeGenerator.js keeps true, for dimensions
 * of at least 1 and a start cell inside the grid: the carved passages join visited
 * cells into a tree rooted at the start, `n` counts the cells still unvisited, and
 * no cell collects more than three passages. A run that ends normally therefore
 * yields a spanning tree of the whole grid.
 */
module GeneratorProofs {
  import opened Wrappers
  import opened Grid
  import opened Generator

  // ---------------------------------------------------------------------------
  // Counting the entries that still read true.

  function CountRow(r: seq<bool>): nat
    decreases |r|
  {
    if |r| == 0 then 0 else CountRow(r[..|r| - 1]) + (if r[|r| - 1] then 1 else 0)
  }

  function CountAll(u: seq<seq<bool>>): nat
    decreases |u|
  {
    if |u| == 0 then 0 else CountAll(u[..|u| - 1]) + CountRow(u[|u| - 1])
  }

  /** Clearing a true entry lowers the row count by one. */
  lemma {:induction false} CountRowClear(r: seq<bool>, j: int)
    requires 0 <= j < |r| && r[j]
    ensures CountRow(r[j := false]) == CountRow(r) - 1
    decreases |r|
  {
    var r' := r[j := false];
    if j == |r| - 1 {
      assert r'[..|r'| - 1] == r[..|r| - 1];
    } else {
      assert r'[..|r'| - 1] == r[..|r| - 1][j := false];
      CountRowClear(r[..|r| - 1], j);
    }
  }

  /** Clearing a true entry lowers the table count by one. */
  lemma {:induction false} CountAllClear(u: seq<seq<bool>>, i: int, j: int)
    requires 0 <= i < |u| && 0 <= j < |u[i]| && u[i][j]
    ensures CountAll(u[i := u[i][j := false]]) == CountAll(u) - 1
    decreases |u|
  {
    var u' := u[i := u[i][j := false]];
    if i == |u| - 1 {
      assert u'[..|u'| - 1] == u[..|u| - 1];
      CountRowClear(u[i], j);
    } else {
      assert u'[..|u'| - 1] == u[..|u| - 1][i := u[i][j := false]];
      CountAllClear(u[..|u| - 1], i, j);
    }
  }

  /** A row counted zero holds no true entry. */
  lemma {:induction false} CountRowZero(r: seq<bool>)
    requires CountRow(r) == 0
    ensures forall j :: 0 <= j < |r| ==> !r[j]
    decreases |r|
  {
    if |r| > 0 {
      CountRowZero(r[..|r| - 1]);
      assert forall j :: 0 <= j < |r| - 1 ==> r[j] == r[..|r| - 1][j];
    }
  }

  /** A table counted zero holds no true entry. */
  lemma {:induction false} CountAllZero(u: seq<seq<bool>>)
    requires CountAll(u) == 0
    ensures forall i, j :: 0 <= i < |u| && 0 <= j < |u[i]| ==> !u[i][j]
    decreases |u|
  {
    if |u| > 0 {
      CountAllZero(u[..|u| - 1]);
      CountRowZero(u[|u| - 1]);
      assert forall i :: 0 <= i < |u| - 1 ==> u[i] == u[..|u| - 1][i];
    }
  }

  /** A row true exactly at the positions after 0 other than `skip`. */
  lemma {:induction false} CountRowInit(r: seq<bool>, skip: int)
    requires forall j :: 0 <= j < |r| ==> (r[j] <==> j > 0 && j != skip)
    ensures CountRow(r) == (if |r| == 0 then 0 else |r| - 1) - (if 0 < skip < |r| then 1 else 0)
    decreases |r|
  {
    if |r| > 0 {
      CountRowInit(r[..|r| - 1], skip);
    }
  }

  /** A row with no true entry. */
  lemma {:induction false} CountRowFalse(r: seq<bool>)
    requires forall j :: 0 <= j < |r| ==> !r[j]
    ensures CountRow(r) == 0
    decreases |r|
  {
    if |r| > 0 {
      CountRowFalse(r[..|r| - 1]);
    }
  }

  /** Column `i` of the initial table, for `1 <= i <= width`: true after entry 0, except at the start. */
  lemma InitColumn(width: int, height: int, start: Cell, i: int)
    requires width >= 1 && height >= 1 && InGrid(width, height, start)
    requires 0 <= i < width + 2
    ensures var r := InitUnvisited(width, height, start)[i];
      |r| == height + 1
      && (i == 0 || i == width + 1 ==> forall j :: 0 <= j < |r| ==> !r[j])
      && (1 <= i <= width ==>
            forall j :: 0 <= j < |r| ==> (r[j] <==> j > 0 && j != (if i == start.x + 1 then start.y + 1 else -1)))
  {
    var u := InitUnvisited(width, height, start);
    assert forall j :: 0 <= j < |u[i]| ==> (u[i][j] <==> InGrid(width, height, Cell(i - 1, j - 1)) && Cell(i - 1, j - 1) != start);
  }

  lemma AddRow(k: int, height: int)
    ensures (k - 2) * height + height == (k - 1) * height
  {
  }

  /** Counting a prefix one column longer adds that column's count. */
  lemma CountPrefixStep(u: seq<seq<bool>>, k: int)
    requires 1 <= k <= |u|
    ensures CountAll(u[..k]) == CountAll(u[..k - 1]) + CountRow(u[k - 1])
  {
    assert u[..k][..k - 1] == u[..k - 1] && u[..k][k - 1] == u[k - 1];
  }

  /** Column `i` of the initial table, for `1 <= i <= width`, counts one entry per row of the grid, less the start. */
  lemma CountInitColumn(width: int, height: int, start: Cell, i: int)
    requires width >= 1 && height >= 1 && InGrid(width, height, start)
    requires 1 <= i <= width
    ensures CountRow(InitUnvisited(width, height, start)[i]) == height - (if i == start.x + 1 then 1 else 0)
  {
    var r := InitUnvisited(width, height, start)[i];
    InitColumn(width, height, start, i);
    CountRowInit(r, if i == start.x + 1 then start.y + 1 else -1);
  }

  /** The first `k` columns of the initial table. */
  lemma {:induction false} CountInitColumns(width: int, height: int, start: Cell, k: int)
    requires width >= 1 && height >= 1 && InGrid(width, height, start)
    requires 1 <= k <= width + 1
    ensures CountAll(InitUnvisited(width, height, start)[..k]) == (k - 1) * height - (if start.x + 1 < k then 1 else 0)
    decreases k
  {
    var u := InitUnvisited(width, height, start);
    if k == 1 {
      assert u[..1][..0] == [];
      InitColumn(width, height, start, 0);
      CountRowFalse(u[0]);
    } else {
      CountInitColumns(width, height, start, k - 1);
      CountPrefixStep(u, k);
      CountInitColumn(width, height, start, k - 1);
      AddRow(k, height);
    }
  }

  /** The initial table holds one true entry per grid cell other than the start. */
  lemma CountInit(width: int, height: int, start: Cell)
    requires width >= 1 && height >= 1 && InGrid(width, height, start)
    ensures CountAll(InitUnvisited(width, height, start)) == width * height - 1
  {
    var u := InitUnvisited(width, height, start);
    CountInitColumns(width, height, start, width + 1);
    assert u[..width + 2] == u;
    assert u[..width + 2][..width + 1] == u[..width + 1];
    InitColumn(width, height, start, width + 1);
    CountRowFalse(u[width + 1]);
  }

  // ---------------------------------------------------------------------------
  // The loop invariant.

  /** A grid cell whose table entry has been cleared. */
  predicate Visited(s: State, width: int, height: int, c: Cell) {
    InGrid(width, height, c) && !Marked(s.unvisited, c)
  }

  /** The number of passages a cell may have beyond its link to its parent. */
  function Base(start: Cell, c: Cell): nat {
    if c == start then 0 else 1
  }

  ghost predicate Shaped(s: State, width: int, height: int) {
    |s.unvisited| == width + 2
    && (forall i :: 0 <= i < |s.unvisited| ==> |s.unvisited[i]| == height + 1)
    && (forall c :: Marked(s.unvisited, c) ==> InGrid(width, height, c))
  }

  ghost predicate EdgesVisited(s: State, width: int, height: int) {
    (forall e :: e in s.horizontal ==> Visited(s, width, height, e) && Visited(s, width, height, PlusY(e)))
    && (forall e :: e in s.vertical ==> Visited(s, width, height, e) && Visited(s, width, height, PlusX(e)))
  }

  ghost predicate Counted(s: State, width: int, height: int) {
    CountAll(s.unvisited) == s.n && |s.horizontal| + |s.vertical| + s.n == width * height - 1
  }

  ghost predicate Reached(s: State, width: int, height: int, start: Cell) {
    Visited(s, width, height, start)
    && forall c :: Visited(s, width, height, c) ==> Connected(s.horizontal, s.vertical, start, c)
  }

  ghost predicate StackOk(s: State, width: int, height: int) {
    (s.here.Some? ==> Visited(s, width, height, s.here.value))
    && (forall k :: 0 <= k < |s.stack| ==> Visited(s, width, height, s.stack[k]))
    && (forall i, j :: 0 <= i < j < |s.stack| ==> s.stack[i] != s.stack[j])
  }

  /**
   * A cell carves at most one child while it is on the stack, and one more after
   * it is popped; the cell being carved from, when still on the stack, is its top
   * and has carved nothing yet.
   */
  ghost predicate DegreeOk(s: State, width: int, height: int, start: Cell) {
    (forall k :: 0 <= k < |s.stack| ==> Degree(s.horizontal, s.vertical, s.stack[k]) <= Base(start, s.stack[k]) + 1)
    && (s.here.Some? && s.here.value in s.stack ==>
          s.stack[|s.stack| - 1] == s.here.value
          && Degree(s.horizontal, s.vertical, s.here.value) == Base(start, s.here.value))
    && (s.here.Some? && s.here.value !in s.stack ==>
          Degree(s.horizontal, s.vertical, s.here.value) <= Base(start, s.here.value) + 1)
    && (forall c :: Visited(s, width, height, c) ==> Degree(s.horizontal, s.vertical, c) <= Base(start, c) + 2)
  }

  ghost predicate Inv(s: State, width: int, height: int, start: Cell) {
    width >= 1 && height >= 1 && InGrid(width, height, start)
    && Shaped(s, width, height) && EdgesVisited(s, width, height) && Counted(s, width, height)
    && Reached(s, width, height, start) && StackOk(s, width, height) && DegreeOk(s, width, height, start)
  }

  /** The initial table marks exactly the grid cells other than the start. */
  lemma InitMarked(width: int, height: int, start: Cell)
    requires width >= 1 && height >= 1 && InGrid(width, height, start)
    ensures forall c :: Marked(InitUnvisited(width, height, start), c) <==> InGrid(width, height, c) && c != start
  {
    var u := InitUnvisited(width, height, start);
    forall c | InGrid(width, height, c)
      ensures Marked(u, c) <==> c != start
    {
      assert u[c.x + 1][c.y + 1] <==> Cell(c.x, c.y) != start;
    }
  }

  /** Before the loop, only the start is visited and nothing is carved. */
  lemma InitInv(width: int, height: int, start: Cell)
    requires width >= 1 && height >= 1 && InGrid(width, height, start)
    ensures Inv(Init(width, height, start), width, height, start)
    ensures forall c :: Visited(Init(width, height, start), width, height, c) <==> c == start
  {
    var s := Init(width, height, start);
    InitMarked(width, height, start);
    assert forall c :: Visited(s, width, height, c) <==> c == start;
    assert Shaped(s, width, height);
    CountInit(width, height, start);
    assert Counted(s, width, height);
    ConnectedRefl({}, {}, start);
    assert Reached(s, width, height, start);
    assert StackOk(s, width, height);
  }

  /** Adding a new horizontal passage raises the degree of its two ends only. */
  lemma DegreeAddHorizontal(horizontal: set<Cell>, vertical: set<Cell>, e: Cell, p: Cell)
    requires e !in horizontal
    ensures Degree(horizontal + {e}, vertical, p) == Degree(horizontal, vertical, p) + (if p == e || p == PlusY(e) then 1 else 0)
  {
  }

  /** Adding a new vertical passage raises the degree of its two ends only. */
  lemma DegreeAddVertical(horizontal: set<Cell>, vertical: set<Cell>, e: Cell, p: Cell)
    requires e !in vertical
    ensures Degree(horizontal, vertical + {e}, p) == Degree(horizontal, vertical, p) + (if p == e || p == PlusX(e) then 1 else 0)
  {
  }

  /** The passage a carve writes: which table, which entry, and the cells it joins. */
  lemma CarveWrites(s: State, t: State)
    requires IsCarve(s, t)
    ensures var c, q := s.here.value, t.here.value;
      Linked(t.horizontal, t.vertical, c, q)
      && s.horizontal <= t.horizontal && s.vertical <= t.vertical
      && (q.x == c.x ==> exists e :: t.horizontal == s.horizontal + {e} && t.vertical == s.vertical && {e, PlusY(e)} == {c, q})
      && (q.x != c.x ==> exists e :: t.vertical == s.vertical + {e} && t.horizontal == s.horizontal && {e, PlusX(e)} == {c, q})
  {
    var c, q := s.here.value, t.here.value;
    if q.x == c.x {
      var e := Cell(c.x, Min(c.y, q.y));
      assert t.horizontal == s.horizontal + {e};
      assert {e, PlusY(e)} == {c, q};
    } else {
      var e := Cell(Min(c.x, q.x), c.y);
      assert t.vertical == s.vertical + {e};
      assert {e, PlusX(e)} == {c, q};
    }
  }

  /** A carve visits exactly the chosen neighbour, which lies inside the grid and was unvisited. */
  lemma CarveVisitsOne(s: State, t: State, width: int, height: int)
    requires Shaped(s, width, height) && IsCarve(s, t)
    ensures InGrid(width, height, t.here.value)
    ensures !Visited(s, width, height, t.here.value) && Visited(t, width, height, t.here.value)
    ensures forall p :: p != t.here.value ==> (Visited(t, width, height, p) <==> Visited(s, width, height, p))
    ensures t.n == s.n - 1
  {
  }

  /** The passage a carve adds is new, since one of its ends was unvisited. */
  lemma CarveCountsEdge(s: State, t: State, width: int, height: int)
    requires Shaped(s, width, height) && EdgesVisited(s, width, height) && IsCarve(s, t)
    ensures |t.horizontal| + |t.vertical| == |s.horizontal| + |s.vertical| + 1
  {
    var c, q := s.here.value, t.here.value;
    CarveVisitsOne(s, t, width, height);
    CarveWrites(s, t);
    if q.x == c.x {
      var e :| t.horizontal == s.horizontal + {e} && t.vertical == s.vertical && {e, PlusY(e)} == {c, q};
      assert e == q || PlusY(e) == q;
      assert e !in s.horizontal;
    } else {
      var e :| t.vertical == s.vertical + {e} && t.horizontal == s.horizontal && {e, PlusX(e)} == {c, q};
      assert e == q || PlusX(e) == q;
      assert e !in s.vertical;
    }
  }

  /** Both ends of every passage stay visited after a carve. */
  lemma CarveKeepsEdges(s: State, t: State, width: int, height: int)
    requires Shaped(s, width, height) && EdgesVisited(s, width, height) && StackOk(s, width, height) && IsCarve(s, t)
    ensures EdgesVisited(t, width, height)
  {
    var c, q := s.here.value, t.here.value;
    CarveVisitsOne(s, t, width, height);
    CarveWrites(s, t);
    assert Visited(t, width, height, c) && Visited(t, width, height, q);
    forall e | e in t.horizontal
      ensures Visited(t, width, height, e) && Visited(t, width, height, PlusY(e))
    {
      if e in s.horizontal {
        assert Visited(s, width, height, e) && Visited(s, width, height, PlusY(e));
      } else {
        assert e == c || e == q;
      }
    }
    forall e | e in t.vertical
      ensures Visited(t, width, height, e) && Visited(t, width, height, PlusX(e))
    {
      if e in s.vertical {
        assert Visited(s, width, height, e) && Visited(s, width, height, PlusX(e));
      } else {
        assert e == c || e == q;
      }
    }
  }

  lemma CarveKeepsReach(s: State, t: State, width: int, height: int, start: Cell)
    requires Shaped(s, width, height) && Reached(s, width, height, start) && StackOk(s, width, height) && IsCarve(s, t)
    ensures Reached(t, width, height, start)
  {
    var c, q := s.here.value, t.here.value;
    CarveVisitsOne(s, t, width, height);
    CarveWrites(s, t);
    forall p | Visited(t, width, height, p)
      ensures Connected(t.horizontal, t.vertical, start, p)
    {
      if p == q {
        ConnectedMono(s.horizontal, s.vertical, t.horizontal, t.vertical, start, c);
        ConnectedExtend(t.horizontal, t.vertical, start, c, q);
      } else {
        ConnectedMono(s.horizontal, s.vertical, t.horizontal, t.vertical, start, p);
      }
    }
  }

  /** A carve raises the degree of its two ends by one and leaves every other cell alone. */
  lemma CarveDegrees(s: State, t: State, width: int, height: int)
    requires Shaped(s, width, height) && EdgesVisited(s, width, height) && IsCarve(s, t)
    ensures forall p :: (Degree(t.horizontal, t.vertical, p)
      == Degree(s.horizontal, s.vertical, p) + (if p == s.here.value || p == t.here.value then 1 else 0))
    ensures Degree(s.horizontal, s.vertical, t.here.value) == 0
  {
    var c, q := s.here.value, t.here.value;
    CarveVisitsOne(s, t, width, height);
    CarveWrites(s, t);
    assert q !in s.horizontal && q !in s.vertical;
    assert Cell(q.x, q.y - 1) !in s.horizontal by {
      assert PlusY(Cell(q.x, q.y - 1)) == q;
    }
    assert Cell(q.x - 1, q.y) !in s.vertical by {
      assert PlusX(Cell(q.x - 1, q.y)) == q;
    }
    if q.x == c.x {
      var e :| t.horizontal == s.horizontal + {e} && t.vertical == s.vertical && {e, PlusY(e)} == {c, q};
      assert e == q || PlusY(e) == q;
      forall p ensures Degree(t.horizontal, t.vertical, p)
        == Degree(s.horizontal, s.vertical, p) + (if p == c || p == q then 1 else 0)
      {
        DegreeAddHorizontal(s.horizontal, s.vertical, e, p);
      }
    } else {
      var e :| t.vertical == s.vertical + {e} && t.horizontal == s.horizontal && {e, PlusX(e)} == {c, q};
      assert e == q || PlusX(e) == q;
      forall p ensures Degree(t.horizontal, t.vertical, p)
        == Degree(s.horizontal, s.vertical, p) + (if p == c || p == q then 1 else 0)
      {
        DegreeAddVertical(s.horizontal, s.vertical, e, p);
      }
    }
  }

  lemma CarveKeepsDegrees(s: State, t: State, width: int, height: int, start: Cell)
    requires Shaped(s, width, height) && EdgesVisited(s, width, height) && StackOk(s, width, height)
    requires DegreeOk(s, width, height, start) && Visited(s, width, height, start) && IsCarve(s, t)
    ensures StackOk(t, width, height) && DegreeOk(t, width, height, start)
  {
    var c, q := s.here.value, t.here.value;
    CarveVisitsOne(s, t, width, height);
    CarveDegrees(s, t, width, height);
    assert q != start;
    assert q !in s.stack;
    forall k | 0 <= k < |t.stack|
      ensures Degree(t.horizontal, t.vertical, t.stack[k]) <= Base(start, t.stack[k]) + 1
    {
      if k < |s.stack| {
        assert t.stack[k] == s.stack[k];
        if s.stack[k] == c {
          assert c in s.stack;
        }
      }
    }
    forall p | Visited(t, width, height, p)
      ensures Degree(t.horizontal, t.vertical, p) <= Base(start, p) + 2
    {
      if p == c && c in s.stack {
        assert Degree(s.horizontal, s.vertical, c) == Base(start, c);
      }
    }
  }

  lemma CarveKeepsShape(s: State, t: State, width: int, height: int)
    requires Shaped(s, width, height) && IsCarve(s, t)
    ensures Shaped(t, width, height)
  {
  }

  lemma CarveKeepsCount(s: State, t: State, width: int, height: int)
    requires Shaped(s, width, height) && EdgesVisited(s, width, height) && Counted(s, width, height) && IsCarve(s, t)
    ensures Counted(t, width, height)
  {
    var q := t.here.value;
    CarveCountsEdge(s, t, width, height);
    CountAllClear(s.unvisited, q.x + 1, q.y + 1);
  }

  /** A carve keeps the invariant. */
  lemma CarveInv(s: State, t: State, width: int, height: int, start: Cell)
    requires Inv(s, width, height, start) && IsCarve(s, t)
    ensures Inv(t, width, height, start)
  {
    CarveKeepsShape(s, t, width, height);
    CarveKeepsEdges(s, t, width, height);
    CarveKeepsCount(s, t, width, height);
    CarveKeepsReach(s, t, width, height, start);
    CarveKeepsDegrees(s, t, width, height, start);
  }

  /** A pop leaves the table and the passages alone, so the visited cells, the counts and the degrees stay as they were. */
  lemma PopKeepsTables(s: State, t: State, width: int, height: int, start: Cell)
    requires Shaped(s, width, height) && EdgesVisited(s, width, height) && Counted(s, width, height)
    requires Reached(s, width, height, start) && IsPop(s, t)
    ensures Shaped(t, width, height) && EdgesVisited(t, width, height) && Counted(t, width, height)
    ensures Reached(t, width, height, start)
  {
    assert forall c :: Visited(t, width, height, c) == Visited(s, width, height, c);
  }

  /** A pop takes the top of the stack, which is distinct from what stays and has carved at most one child. */
  lemma PopKeepsStack(s: State, t: State, width: int, height: int, start: Cell)
    requires StackOk(s, width, height) && DegreeOk(s, width, height, start) && IsPop(s, t)
    ensures StackOk(t, width, height) && DegreeOk(t, width, height, start)
  {
    assert forall c :: Visited(t, width, height, c) == Visited(s, width, height, c);
    if |s.stack| > 0 {
      var top := s.stack[|s.stack| - 1];
      assert t.stack == s.stack[..|s.stack| - 1];
      assert forall k :: 0 <= k < |t.stack| ==> t.stack[k] == s.stack[k];
      assert top !in t.stack by {
        forall k | 0 <= k < |t.stack|
          ensures t.stack[k] != top
        {
          assert s.stack[k] != s.stack[|s.stack| - 1];
        }
      }
      assert Degree(s.horizontal, s.vertical, top) <= Base(start, top) + 1;
    }
  }

  /** A pop keeps the invariant. */
  lemma PopInv(s: State, t: State, width: int, height: int, start: Cell)
    requires Inv(s, width, height, start) && IsPop(s, t)
    ensures Inv(t, width, height, start)
  {
    PopKeepsTables(s, t, width, height, start);
    PopKeepsStack(s, t, width, height, start);
  }

  /**
   * From a state satisfying the invariant, every neighbour probe reads an existing
   * column, so the iteration cannot throw; and every candidate it keeps is an
   * unvisited cell inside the grid.
   */
  lemma ProbesStayInside(s: State, width: int, height: int, start: Cell, choose: nat -> nat)
    requires Inv(s, width, height, start) && s.here.Some?
    ensures Unvisited(s.unvisited, Candidates(s.here.value)).Success?
    ensures forall q :: q in Unvisited(s.unvisited, Candidates(s.here.value)).value ==>
      InGrid(width, height, q) && !Visited(s, width, height, q)
    ensures Step(s, choose).Success?
  {
    var cs := Candidates(s.here.value);
    assert forall i :: 0 <= i < 4 ==> ReadUnvisited(s.unvisited, cs[i]).Success?;
  }

  /**
   * Under the invariant an iteration fails exactly when `here` is undefined, that
   * is, after a pop from an empty stack; otherwise it carves or pops and keeps the
   * invariant.
   */
  lemma StepInv(s: State, width: int, height: int, start: Cell, choose: nat -> nat)
    requires Inv(s, width, height, start)
    ensures Step(s, choose).Failure? <==> s.here.None?
    ensures Step(s, choose).Success? ==> Inv(Step(s, choose).value, width, height, start)
  {
    if s.here.Some? {
      ProbesStayInside(s, width, height, start, choose);
      var t := Step(s, choose).value;
      if IsCarve(s, t) {
        CarveInv(s, t, width, height, start);
      } else {
        PopInv(s, t, width, height, start);
      }
    }
  }

  /** The loop keeps the invariant and, when it ends normally, has visited every cell. */
  lemma {:induction false} RunInv(s: State, width: int, height: int, start: Cell, choose: nat -> nat)
    requires Inv(s, width, height, start)
    ensures Run(s, choose).Success? ==> Inv(Run(s, choose).value, width, height, start) && Run(s, choose).value.n == 0
    decreases Iterations(s.n), |s.stack|, if s.here.Some? then 1 else 0
  {
    if s.n > 0 {
      StepInv(s, width, height, start, choose);
      var r := Step(s, choose);
      if r.Success? {
        RunInv(r.value, width, height, start, choose);
      }
    }
  }

  /** With nothing left to count, every grid cell is visited. */
  lemma AllVisited(s: State, width: int, height: int, start: Cell)
    requires Inv(s, width, height, start) && s.n == 0
    ensures forall c :: InGrid(width, height, c) ==> Visited(s, width, height, c)
  {
    CountAllZero(s.unvisited);
  }

  /** A cell that is not visited has no passage. */
  lemma UnvisitedHasNoPassage(s: State, width: int, height: int, start: Cell, c: Cell)
    requires Inv(s, width, height, start) && !Visited(s, width, height, c)
    ensures Degree(s.horizontal, s.vertical, c) == 0
  {
    assert PlusY(Cell(c.x, c.y - 1)) == c;
    assert PlusX(Cell(c.x - 1, c.y)) == c;
  }

  /** A finished loop state: any two grid cells are connected, and no cell has four passages. */
  lemma FinishedTree(fin: State, width: int, height: int, start: Cell)
    requires Inv(fin, width, height, start) && fin.n == 0
    ensures SpanningTree(width, height, fin.horizontal, fin.vertical)
    ensures Degree(fin.horizontal, fin.vertical, start) <= 2
    ensures forall c :: Degree(fin.horizontal, fin.vertical, c) <= 3
  {
    AllVisited(fin, width, height, start);
    forall a, b | InGrid(width, height, a) && InGrid(width, height, b)
      ensures Connected(fin.horizontal, fin.vertical, a, b)
    {
      ConnectedSymmetric(fin.horizontal, fin.vertical, start, a);
      ConnectedTransitive(fin.horizontal, fin.vertical, a, start, b);
    }
    forall c ensures Degree(fin.horizontal, fin.vertical, c) <= 3 {
      if !Visited(fin, width, height, c) {
        UnvisitedHasNoPassage(fin, width, height, start, c);
      }
    }
  }

  /**
   * For dimensions of at least 1 and a start cell inside the grid, a generation that
   * ends normally carves a spanning tree of the grid in which the start has at most
   * two passages and every other cell at most three; the only way it can fail is
   * the TypeError of a pop from an empty stack. That this pop never happens is not
   * proved here.
   */
  lemma GenerateSpanningTree(width: int, height: int, start: Cell, choose: nat -> nat)
    requires width >= 1 && height >= 1 && InGrid(width, height, start)
    ensures var r := Generate(width, height, start, choose);
      (r.Failure? ==> r.error == TypeError)
      && (r.Success? ==>
            SpanningTree(width, height, r.value.horizontal, r.value.vertical)
            && Degree(r.value.horizontal, r.value.vertical, start) <= 2
            && forall c :: Degree(r.value.horizontal, r.value.vertical, c) <= 3)
  {
    var r := Generate(width, height, start, choose);
    InitInv(width, height, start);
    RunInv(Init(width, height, start), width, height, start, choose);
    if r.Success? {
      var fin := Run(Init(width, height, start), choose).value;
      FinishedTree(fin, width, height, start);
    }
  }
}

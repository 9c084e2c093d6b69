/** The boustrophedon ("snake") sweep of a rectangle: columns are walked up and down in turn,
    from the bottom-left corner until the top-right corner is met. */
module WplSweeps {
  import opened Reals

  /** A rectangle of `width` by `height` metres cut into nx columns and ny rows. */
  datatype Grid = Grid(width: real, height: real, nx: nat, ny: nat)
  {
    ghost predicate Valid() {
      width > 0.0 && height > 0.0 && nx > 0 && ny > 0
    }

    function StepX(): real
      requires nx > 0
    {
      width / nx as real
    }

    function StepY(): real
      requires ny > 0
    {
      height / ny as real
    }

    /** Number of nodes in the first `col` columns. */
    function Start(col: nat): nat {
      if col == 0 then 0 else Start(col - 1) + ny + 1
    }

    /** Column of the n-th node of the sweep, and how many nodes of that column come before it. */
    function Col(n: nat): nat {
      if n <= ny then 0 else 1 + Col(n - (ny + 1))
    }

    function Offset(n: nat): nat {
      if n <= ny then n else Offset(n - (ny + 1))
    }

    /** Row of the n-th node: odd columns are walked downwards. */
    function Row(n: nat): int {
      if Col(n) % 2 == 0 then Offset(n) else ny - Offset(n)
    }

    /** The whole last column when nx is even, only its top node when nx is odd. */
    function Count(): nat {
      Start(nx) + (if nx % 2 == 0 then ny + 1 else 1)
    }

    function Place(col: nat, row: int): (real, real)
      requires Valid()
    {
      (Scale(col, StepX()), Scale(row, StepY()))
    }

    function Node(n: nat): (real, real)
      requires Valid()
    {
      Place(Col(n), Row(n))
    }

    /** The stop test: the node is the far corner, up to a micrometre. */
    predicate Stops(p: (real, real)) {
      Abs(p.0 - width) < STOP_TOLERANCE && Abs(p.1 - height) < STOP_TOLERANCE
    }

    /** Steps large enough for neither tolerance to blur two nodes of the sweep. */
    ghost predicate Regular()
      requires Valid()
    {
      && StepX() >= STOP_TOLERANCE
      && StepY() >= SAME_TOLERANCE
      && (nx % 2 == 0 ==> StepY() >= STOP_TOLERANCE)
    }

    predicate Inside(p: (real, real)) {
      0.0 <= p.0 <= width && 0.0 <= p.1 <= height
    }
  }

  const SAME_TOLERANCE: real := 0.000000001
  const STOP_TOLERANCE: real := 0.000001

  function Scale(k: int, s: real): real {
    k as real * s
  }

  predicate Same(p: (real, real), q: (real, real)) {
    Abs(p.0 - q.0) < SAME_TOLERANCE && Abs(p.1 - q.1) < SAME_TOLERANCE
  }

  // ----- the shape of the ideal sweep

  lemma {:induction false} LocateNode(g: Grid, n: nat)
    ensures g.Offset(n) <= g.ny && n == g.Start(g.Col(n)) + g.Offset(n)
  {
    if n > g.ny {
      LocateNode(g, n - (g.ny + 1));
    }
  }

  lemma {:induction false} ColRowOf(g: Grid, n: nat, col: nat, j: nat)
    requires j <= g.ny && n == g.Start(col) + j
    ensures g.Col(n) == col && g.Offset(n) == j && g.Row(n) == if col % 2 == 0 then j else g.ny - j
  {
    if col > 0 {
      ColRowOf(g, n - (g.ny + 1), col - 1, j);
    }
  }

  lemma {:induction false} StartGrows(g: Grid, a: nat, b: nat)
    requires a < b
    ensures g.Start(a) + g.ny + 1 <= g.Start(b)
  {
    if a + 1 < b {
      StartGrows(g, a, b - 1);
    }
  }

  /** The number of nodes in closed form. */
  lemma {:induction false} CountClosedForm(g: Grid)
    ensures g.Count() == g.nx * (g.ny + 1) + if g.nx % 2 == 0 then g.ny + 1 else 1
  {
    StartClosedForm(g, g.nx);
  }

  lemma {:induction false} StartClosedForm(g: Grid, col: nat)
    ensures g.Start(col) == col * (g.ny + 1)
  {
    if col > 0 {
      StartClosedForm(g, col - 1);
      assert col * (g.ny + 1) == (col - 1) * (g.ny + 1) + (g.ny + 1);
    }
  }

  /** Where a node of the grid sits in the sweep. */
  function IndexOf(g: Grid, col: nat, row: nat): nat
    requires row <= g.ny
  {
    g.Start(col) + if col % 2 == 0 then row else g.ny - row
  }

  lemma IndexOfNode(g: Grid, col: nat, row: nat)
    requires row <= g.ny
    ensures g.Col(IndexOf(g, col, row)) == col && g.Row(IndexOf(g, col, row)) == row
  {
    ColRowOf(g, IndexOf(g, col, row), col, if col % 2 == 0 then row else g.ny - row);
  }

  lemma NodeIndex(g: Grid, n: nat)
    ensures 0 <= g.Row(n) <= g.ny && n == IndexOf(g, g.Col(n), g.Row(n))
  {
    LocateNode(g, n);
  }

  /** No node is visited twice. */
  lemma {:induction false} SweepIsInjective(g: Grid, n: nat, m: nat)
    requires g.Col(n) == g.Col(m) && g.Row(n) == g.Row(m)
    ensures n == m
  {
    NodeIndex(g, n);
    NodeIndex(g, m);
  }

  /** A node lies at its share of the width and of the height. */
  lemma NodeIsAtItsShare(g: Grid, n: nat)
    requires g.Valid()
    ensures g.Node(n).0 * g.nx as real == g.width * g.Col(n) as real
    ensures g.Node(n).1 * g.ny as real == g.height * g.Row(n) as real
  {
    ShareOfWhole(g.width, g.nx, g.Col(n));
    ShareOfWhole(g.height, g.ny, g.Row(n));
  }

  lemma ShareOfWhole(w: real, n: nat, k: int)
    requires n > 0
    ensures Scale(k, w / n as real) * n as real == w * k as real
  {
    assert w / n as real * n as real == w;
  }

  /** Consecutive nodes are one grid step apart along exactly one axis. */
  lemma SweepMovesOneStep(g: Grid, n: nat)
    ensures (g.Col(n + 1) == g.Col(n) && (g.Row(n + 1) == g.Row(n) + 1 || g.Row(n + 1) == g.Row(n) - 1))
            || (g.Col(n + 1) == g.Col(n) + 1 && g.Row(n + 1) == g.Row(n))
  {
    LocateNode(g, n);
    var col, j := g.Col(n), g.Offset(n);
    if j < g.ny {
      ColRowOf(g, n + 1, col, j + 1);
    } else {
      ColRowOf(g, n + 1, col + 1, 0);
    }
  }

  /** The sweep runs from the near corner to the far one. */
  lemma SweepEnds(g: Grid)
    requires g.Valid()
    ensures g.Col(0) == 0 && g.Row(0) == 0
    ensures g.Col(g.Count() - 1) == g.nx && g.Row(g.Count() - 1) == g.ny
    ensures g.Node(0) == (0.0, 0.0) && g.Node(g.Count() - 1) == (g.width, g.height)
  {
    ColRowOf(g, 0, 0, 0);
    ColRowOf(g, g.Count() - 1, g.nx, if g.nx % 2 == 0 then g.ny else 0);
    PlaceInside(g, 0, 0);
    PlaceInside(g, g.nx, g.ny);
  }

  /** Exactly the nodes of every column but the last are covered, and of the last column all of
      them when nx is even but only the top one when nx is odd. */
  lemma SweepCovers(g: Grid, col: nat, row: nat)
    requires g.Valid() && row <= g.ny
    ensures (exists n: nat :: n < g.Count() && g.Col(n) == col && g.Row(n) == row)
            <==> col < g.nx || (col == g.nx && (g.nx % 2 == 0 || row == g.ny))
  {
    var n := IndexOf(g, col, row);
    IndexOfNode(g, col, row);
    if col < g.nx {
      StartGrows(g, col, g.nx);
      assert n < g.Count();
    } else if col > g.nx {
      StartGrows(g, g.nx, col);
      assert n >= g.Count();
    }
    if k: nat :| k < g.Count() && g.Col(k) == col && g.Row(k) == row {
      SweepIsInjective(g, k, n);
    }
  }

  // ----- what the tolerances do

  /** Two points pass for one when they are less than a nanometre apart along both axes, and a point for
      the far corner when it is less than a micrometre from it along both. */
  lemma TolerancesMean(g: Grid, p: (real, real), q: (real, real))
    ensures Same(p, q) <==> -0.000000001 < p.0 - q.0 < 0.000000001 && -0.000000001 < p.1 - q.1 < 0.000000001
    ensures g.Stops(p) <==> -0.000001 < p.0 - g.width < 0.000001 && -0.000001 < p.1 - g.height < 0.000001
  {
  }

  /** In numbers: columns at least a micrometre wide and rows at least a nanometre high, or a
      micrometre when the last column is walked upwards. */
  lemma RegularMeans(g: Grid)
    requires g.Valid()
    ensures g.Regular() <==> && g.width >= 0.000001 * g.nx as real
                             && g.height >= (if g.nx % 2 == 0 then 0.000001 else 0.000000001) * g.ny as real
  {
    AtLeast(g.width, g.nx, STOP_TOLERANCE);
    AtLeast(g.height, g.ny, STOP_TOLERANCE);
    AtLeast(g.height, g.ny, SAME_TOLERANCE);
  }

  lemma AtLeast(w: real, n: nat, tolerance: real)
    requires n > 0
    ensures w / n as real >= tolerance <==> w >= tolerance * n as real
  {
    assert w / n as real * n as real == w;
  }

  lemma PlaceInside(g: Grid, col: nat, row: nat)
    requires g.Valid() && col <= g.nx && row <= g.ny
    ensures g.Inside(g.Place(col, row))
    ensures g.Place(col, row).0 == g.width - Scale(g.nx - col, g.StepX())
    ensures g.Place(col, row).1 == g.height - Scale(g.ny - row, g.StepY())
  {
    Fraction(g.width, g.nx, col);
    Fraction(g.height, g.ny, row);
  }

  lemma Fraction(w: real, n: nat, k: nat)
    requires w > 0.0 && 0 < n && k <= n
    ensures w / n as real > 0.0
    ensures 0.0 <= Scale(k, w / n as real) == w - Scale(n - k, w / n as real) <= w
  {
    var s := w / n as real;
    assert n as real * s == w;
    assert (n - k) as real == n as real - k as real;
    assert k as real * s >= 0.0 && (n - k) as real * s >= 0.0;
  }

  lemma AtLeastOneStep(k: int, s: real)
    requires k >= 1 && s > 0.0
    ensures Scale(k, s) >= s
  {
    assert (k - 1) as real * s >= 0.0;
    assert (k - 1) as real == k as real - 1.0;
  }

  /** The node the sweep stops at, and only it, passes the stop test; no two consecutive nodes
      pass for the same point. */
  ghost predicate NothingBlurred(g: Grid)
    requires g.Valid()
  {
    && (forall n: nat :: n < g.Count() - 1 ==> !g.Stops(g.Node(n)))
    && (forall n: nat :: n + 1 < g.Count() ==> !Same(g.Node(n), g.Node(n + 1)))
  }

  lemma RegularNotBlurred(g: Grid)
    requires g.Valid() && g.Regular()
    ensures NothingBlurred(g)
  {
    forall n: nat | n < g.Count() - 1 ensures !g.Stops(g.Node(n)) {
      NoEarlyStop(g, n);
    }
    forall n: nat | n + 1 < g.Count() ensures !Same(g.Node(n), g.Node(n + 1)) {
      NeighboursDiffer(g, n);
    }
  }

  lemma NoEarlyStop(g: Grid, n: nat)
    requires g.Valid() && g.Regular() && n < g.Count() - 1
    ensures !g.Stops(g.Node(n))
  {
    ColBelow(g, n);
    NodeIndex(g, n);
    PlaceInside(g, g.Col(n), g.Row(n));
    if g.Col(n) < g.nx {
      AtLeastOneStep(g.nx - g.Col(n), g.StepX());
    } else if g.Row(n) < g.ny {
      SweepCovers(g, g.Col(n), g.Row(n));
      AtLeastOneStep(g.ny - g.Row(n), g.StepY());
    } else {
      assert false;
    }
  }

  lemma NeighboursDiffer(g: Grid, n: nat)
    requires g.Valid() && g.Regular()
    ensures !Same(g.Node(n), g.Node(n + 1))
  {
    SweepMovesOneStep(g, n);
    var s, t := g.StepX(), g.StepY();
    var x, x', y, y' := g.Col(n), g.Col(n + 1), g.Row(n), g.Row(n + 1);
    Shift(x, s);
    Shift(y, t);
    Shift(y', t);
    assert g.Node(n) == (Scale(x, s), Scale(y, t));
    assert g.Node(n + 1) == (Scale(x', s), Scale(y', t));
  }

  lemma Shift(a: int, s: real)
    ensures Scale(a + 1, s) == Scale(a, s) + s
  {
  }

  lemma ColBelow(g: Grid, n: nat)
    requires g.Valid() && n < g.Count()
    ensures g.Col(n) <= g.nx
  {
    NodeIndex(g, n);
    SweepCovers(g, g.Col(n), g.Row(n));
  }

  lemma BlurredWhenIrregular(g: Grid)
    requires g.Valid() && !g.Regular()
    ensures !NothingBlurred(g)
  {
    Fraction(g.width, g.nx, 0);
    Fraction(g.height, g.ny, 0);
    if g.StepX() < STOP_TOLERANCE {
      SweepCovers(g, g.nx - 1, g.ny);
      var n: nat :| n < g.Count() && g.Col(n) == g.nx - 1 && g.Row(n) == g.ny;
      SweepEnds(g);
      PlaceInside(g, g.nx - 1, g.ny);
      assert g.Stops(g.Node(n));
    } else if g.StepY() < SAME_TOLERANCE {
      ColRowOf(g, 0, 0, 0);
      ColRowOf(g, 1, 0, 1);
      assert Same(g.Node(0), g.Node(1));
    } else {
      SweepCovers(g, g.nx, g.ny - 1);
      var n: nat :| n < g.Count() && g.Col(n) == g.nx && g.Row(n) == g.ny - 1;
      SweepEnds(g);
      PlaceInside(g, g.nx, g.ny - 1);
      assert g.Stops(g.Node(n));
    }
  }

  /** The ideal sweep as a list of places. */
  ghost function Ideal(g: Grid, n: nat): seq<(real, real)>
    requires g.Valid()
  {
    seq(n, k requires 0 <= k => g.Node(k))
  }

  /** No node but the last is the far corner, and no node is the one before it. */
  ghost predicate KeepsMoving(g: Grid, nodes: seq<(real, real)>) {
    && (forall k :: 0 <= k < |nodes| - 1 ==> !g.Stops(nodes[k]))
    && (forall k :: 0 < k < |nodes| ==> !Same(nodes[k - 1], nodes[k]))
  }

  ghost predicate IsSweep(g: Grid, nodes: seq<(real, real)>)
    requires g.Valid()
  {
    && nodes != [] && nodes[0] == (0.0, 0.0) && g.Stops(nodes[|nodes| - 1])
    && (forall p <- nodes :: g.Inside(p))
    && KeepsMoving(g, nodes)
    && (nodes == Ideal(g, g.Count()) <==> g.Regular())
    && (!g.Regular() ==> |nodes| < g.Count())
    && (|nodes| == 1 <==> g.width < 0.000001 && g.height < 0.000001)
  }

  /** The nested loops. They reach the far corner for every rectangle, however small its steps;
      they produce the ideal sweep exactly when the steps are `Regular`, and fewer points otherwise;
      they end after a single point exactly when the rectangle is below the stop tolerance both ways. */
  method Sweep(g: Grid) returns (nodes: seq<(real, real)>)
    requires g.Valid()
    ensures IsSweep(g, nodes)
  {
    nodes := [];
    var reachedEnd := false;
    ghost var exact, n := true, 0;
    var col := 0;
    while col < g.nx + 1 && !reachedEnd
      invariant col <= g.nx + 1 && (!reachedEnd ==> col <= g.nx)
      invariant !reachedEnd ==> n == g.Start(col)
      invariant Walked(g, nodes, n, exact, reachedEnd)
      decreases g.nx + 1 - col
    {
      var j := 0;
      while j < g.ny + 1 && !reachedEnd
        invariant j <= g.ny + 1
        invariant !reachedEnd ==> n == g.Start(col) + j
        invariant !reachedEnd && col == g.nx ==> j == 0 || (g.nx % 2 == 0 && j <= g.ny)
        invariant Walked(g, nodes, n, exact, reachedEnd)
        decreases g.ny + 1 - j
      {
        var row := if col % 2 == 0 then j else g.ny - j;
        var p := g.Place(col, row);
        VisitKeepsWalked(g, nodes, n, exact, col, j);
        if nodes != [] && Same(nodes[|nodes| - 1], p) {
          exact := false;
        } else {
          nodes := nodes + [p];
          reachedEnd := g.Stops(p);
        }
        n := n + 1;
        j := j + 1;
      }
      col := col + 1;
    }
    Finished(g, nodes, n, exact);
  }

  /** State of the loops after visiting n nodes: nothing has been skipped while `exact`, and no
      point in the list but possibly the last passes the stop test. */
  ghost predicate Walked(g: Grid, nodes: seq<(real, real)>, n: nat, exact: bool, reachedEnd: bool)
    requires g.Valid()
  {
    && n <= g.Count()
    && (n > 0 ==> nodes != [] && nodes[0] == (0.0, 0.0))
    && (forall p <- nodes :: g.Inside(p))
    && (forall k :: 0 <= k < |nodes| ==> (g.Stops(nodes[k]) <==> reachedEnd && k == |nodes| - 1))
    && KeepsMoving(g, nodes)
    && (exact ==> nodes == Ideal(g, n) && forall k: nat :: k + 1 < n ==> !Same(g.Node(k), g.Node(k + 1)))
    && (!exact ==> |nodes| < n && !NothingBlurred(g))
    && (reachedEnd ==> n > 0)
  }

  lemma VisitKeepsWalked(g: Grid, nodes: seq<(real, real)>, n: nat, exact: bool, col: nat, j: nat)
    requires g.Valid() && Walked(g, nodes, n, exact, false)
    requires col <= g.nx && j <= g.ny && n == g.Start(col) + j
    requires col == g.nx ==> j == 0 || g.nx % 2 == 0
    ensures n < g.Count()
    ensures var row := if col % 2 == 0 then j else g.ny - j;
            var p := g.Place(col, row);
            if nodes != [] && Same(nodes[|nodes| - 1], p)
            then Walked(g, nodes, n + 1, false, false) && !(col == g.nx && row == g.ny)
            else Walked(g, nodes + [p], n + 1, exact, g.Stops(p)) && (col == g.nx && row == g.ny ==> g.Stops(p))
  {
    hide KeepsMoving;
    var p := g.Node(n);
    if nodes == [] || !Same(nodes[|nodes| - 1], p) {
      VisitKeepsMoving(g, nodes, p);
    }
    ColRowOf(g, n, col, j);
    WithinCount(g, n, col, j);
    PlaceInside(g, col, g.Row(n));
    SweepEnds(g);
    if exact {
      assert Ideal(g, n + 1) == Ideal(g, n) + [p];
      if n > 0 {
        assert nodes[n - 1] == g.Node(n - 1);
      }
    }
  }

  lemma VisitKeepsMoving(g: Grid, nodes: seq<(real, real)>, p: (real, real))
    requires KeepsMoving(g, nodes) && forall k :: 0 <= k < |nodes| ==> !g.Stops(nodes[k])
    requires nodes != [] ==> !Same(nodes[|nodes| - 1], p)
    ensures KeepsMoving(g, nodes + [p])
  {
  }

  lemma WithinCount(g: Grid, n: nat, col: nat, j: nat)
    requires g.Valid() && col <= g.nx && j <= g.ny && n == g.Start(col) + j
    requires col == g.nx ==> j == 0 || g.nx % 2 == 0
    ensures n < g.Count()
  {
    ColRowOf(g, n, col, j);
    SweepCovers(g, col, g.Row(n));
    var k: nat :| k < g.Count() && g.Col(k) == col && g.Row(k) == g.Row(n);
    SweepIsInjective(g, k, n);
  }

  lemma Finished(g: Grid, nodes: seq<(real, real)>, n: nat, exact: bool)
    requires g.Valid() && Walked(g, nodes, n, exact, true)
    ensures nodes == Ideal(g, g.Count()) <==> g.Regular()
    ensures !g.Regular() ==> |nodes| < g.Count()
    ensures |nodes| == 1 <==> g.width < STOP_TOLERANCE && g.height < STOP_TOLERANCE
  {
    if g.Regular() {
      RegularNotBlurred(g);
      assert exact;
      assert nodes[n - 1] == g.Node(n - 1);
      assert n == g.Count();
    } else {
      BlurredWhenIrregular(g);
      if n == g.Count() && exact {
        forall k: nat | k < g.Count() - 1 ensures !g.Stops(g.Node(k)) {
          assert nodes[k] == g.Node(k);
        }
        assert false;
      }
      assert |Ideal(g, g.Count())| == g.Count();
    }
  }
}

/** The dynamic program both score aligners run (computeAlignment): a grid with one row per
    transcribed note and one column per score note, each cell holding the move chosen for
    it and that move's cost. The per-note costs are parameters, so the same
    definition serves the current aligner and the legacy one. */
module EditGrid {
  import opened Results

  /** The three moves of the alignment: skip a score note, add an extra transcribed note,
      or align the two. */
  datatype Op = Skip | Add | Align

  datatype Cell = Cell(op: Op, cost: real)

  /** The per-note costs an aligner feeds the grid:
      skip(m, t)  skipping score note m while at transcribed note t,
      add(t)      an extra transcribed note t in the interior of the grid,
      edgeAdd(t)  the add cost the grid uses on column 0 for row t,
      align(t, m) pairing transcribed note t with score note m. */
  datatype Costs = Costs(
    skip: (nat, nat) -> real,
    add: nat -> real,
    edgeAdd: nat -> real,
    align: (nat, nat) -> real)

  /** Skipping every score note before column m, at row 0 (the first inner for-loop). */
  function RowPrefix(c: Costs, m: nat): real {
    if m == 0 then 0.0 else RowPrefix(c, m - 1) + c.skip(m - 1, 0)
  }

  /** Adding every transcribed note before row t (the second inner for-loop). */
  function ColPrefix(c: Costs, t: nat): real {
    if t == 0 then 0.0 else ColPrefix(c, t - 1) + c.add(t - 1)
  }

  /** Whether a move can reach cell (t, m): a skip comes from the left, an add from above,
      and an align is always possible (on the edges it pairs the two notes after skipping
      or adding everything before them). */
  predicate Available(t: nat, m: nat, op: Op) {
    match op
    case Skip => m > 0
    case Add => t > 0
    case Align => true
  }

  /** What one move costs into cell (t, m), given the cells to the left, above and
      diagonally above-left. */
  function Candidate(c: Costs, t: nat, m: nat, op: Op, left: Cell, up: Cell, diag: Cell): real {
    match op
    case Skip => c.skip(m, t) + left.cost
    case Add => (if m == 0 then c.edgeAdd(t) else c.add(t)) + up.cost
    case Align =>
      if t == 0 then RowPrefix(c, m) + c.align(0, m)
      else if m == 0 then ColPrefix(c, t) + c.align(t, 0)
      else c.align(t, m) + diag.cost
  }

  /** The body of computeAlignment's double loop for one cell. */
  function Decide(c: Costs, t: nat, m: nat, left: Cell, up: Cell, diag: Cell): (r: Cell) {
    var alignCost := Candidate(c, t, m, Align, left, up, diag);
    if t == 0 then
      if m == 0 then Cell(Align, alignCost)
      else
        var skipCost := Candidate(c, t, m, Skip, left, up, diag);
        if skipCost < alignCost then Cell(Skip, skipCost) else Cell(Align, alignCost)
    else if m == 0 then
      var addCost := Candidate(c, t, m, Add, left, up, diag);
      if addCost < alignCost then Cell(Add, addCost) else Cell(Align, alignCost)
    else
      var skipCost := Candidate(c, t, m, Skip, left, up, diag);
      var addCost := Candidate(c, t, m, Add, left, up, diag);
      if addCost < skipCost && addCost < alignCost then Cell(Add, addCost)
      else if skipCost < addCost && skipCost < alignCost then Cell(Skip, skipCost)
      else Cell(Align, alignCost)
  }

  /** Stands in for a neighbour outside the grid; Decide never reads it. */
  const Outside: Cell := Cell(Align, 0.0)

  function Left(c: Costs, t: nat, m: nat): Cell
    decreases t + m, 0
  {
    if m > 0 then CellAt(c, t, m - 1) else Outside
  }

  function Up(c: Costs, t: nat, m: nat): Cell
    decreases t + m, 0
  {
    if t > 0 then CellAt(c, t - 1, m) else Outside
  }

  function Diag(c: Costs, t: nat, m: nat): Cell
    decreases t + m, 0
  {
    if t > 0 && m > 0 then CellAt(c, t - 1, m - 1) else Outside
  }

  /** The cell the grid holds at (t, m), defined by recursion on the cells it reads. */
  function CellAt(c: Costs, t: nat, m: nat): Cell
    decreases t + m, 1
  {
    Decide(c, t, m, Left(c, t, m), Up(c, t, m), Diag(c, t, m))
  }

  /** The cost of reaching (t, m) by a given move. */
  function CostBy(c: Costs, t: nat, m: nat, op: Op): real {
    Candidate(c, t, m, op, Left(c, t, m), Up(c, t, m), Diag(c, t, m))
  }

  /** Move op is available at (t, m) and strictly cheaper than every other available move. */
  ghost predicate StrictlyCheapest(c: Costs, t: nat, m: nat, op: Op) {
    Available(t, m, op) &&
    forall o :: Available(t, m, o) && o != op ==> CostBy(c, t, m, op) < CostBy(c, t, m, o)
  }

  /** The selection rule: the chosen move is available and its cost is the one stored; a
      skip or an add is chosen exactly when it is strictly cheaper than every other
      available move, and align is chosen otherwise. */
  lemma CellSelection(c: Costs, t: nat, m: nat)
    ensures Available(t, m, CellAt(c, t, m).op)
    ensures CellAt(c, t, m).cost == CostBy(c, t, m, CellAt(c, t, m).op)
    ensures CellAt(c, t, m).op == Skip <==> StrictlyCheapest(c, t, m, Skip)
    ensures CellAt(c, t, m).op == Add <==> StrictlyCheapest(c, t, m, Add)
  {
    var l, u, d := Left(c, t, m), Up(c, t, m), Diag(c, t, m);
    assert CellAt(c, t, m) == Decide(c, t, m, l, u, d);
    assert CostBy(c, t, m, Skip) == Candidate(c, t, m, Skip, l, u, d);
    assert CostBy(c, t, m, Add) == Candidate(c, t, m, Add, l, u, d);
    assert CostBy(c, t, m, Align) == Candidate(c, t, m, Align, l, u, d);
  }

  /** When align is no dearer than any other move, the cell aligns at the least cost. */
  lemma CheapestAlignChosen(c: Costs, t: nat, m: nat)
    requires forall o :: Available(t, m, o) ==> CostBy(c, t, m, Align) <= CostBy(c, t, m, o)
    ensures CellAt(c, t, m).op == Align
    ensures CellAt(c, t, m).cost == CostBy(c, t, m, Align)
  {
    CellSelection(c, t, m);
    assert !StrictlyCheapest(c, t, m, Skip) by {
      assert Available(t, m, Align);
    }
    assert !StrictlyCheapest(c, t, m, Add) by {
      assert Available(t, m, Align);
    }
  }

  /** An interior tie between skip and add below align resolves to align, whose cost is
      stored although a cheaper move exists. */
  lemma AddSkipTieChoosesAlign(c: Costs, t: nat, m: nat)
    requires t > 0 && m > 0
    requires CostBy(c, t, m, Add) == CostBy(c, t, m, Skip) < CostBy(c, t, m, Align)
    ensures CellAt(c, t, m).op == Align
    ensures CellAt(c, t, m).cost > CostBy(c, t, m, Add)
  {
    CellSelection(c, t, m);
    assert !StrictlyCheapest(c, t, m, Skip) by {
      assert Available(t, m, Add);
    }
    assert !StrictlyCheapest(c, t, m, Add) by {
      assert Available(t, m, Skip);
    }
  }

  /** The corner cell always aligns; row 0 never adds and column 0 never skips. */
  lemma EdgeCells(c: Costs, t: nat, m: nat)
    ensures t == 0 && m == 0 ==> CellAt(c, t, m).op == Align
    ensures t == 0 ==> CellAt(c, t, m).op != Add
    ensures m == 0 ==> CellAt(c, t, m).op != Skip
  {
    CellSelection(c, t, m);
  }

  /** Every per-note cost is non-negative. */
  ghost predicate NonNegative(c: Costs) {
    (forall m: nat, t: nat :: c.skip(m, t) >= 0.0) &&
    (forall t: nat :: c.add(t) >= 0.0) &&
    (forall t: nat :: c.edgeAdd(t) >= 0.0) &&
    (forall t: nat, m: nat :: c.align(t, m) >= 0.0)
  }

  lemma {:induction false} RowPrefixNonNegative(c: Costs, m: nat)
    requires NonNegative(c)
    ensures RowPrefix(c, m) >= 0.0
  {
    if m > 0 {
      RowPrefixNonNegative(c, m - 1);
    }
  }

  lemma {:induction false} ColPrefixNonNegative(c: Costs, t: nat)
    requires NonNegative(c)
    ensures ColPrefix(c, t) >= 0.0
  {
    if t > 0 {
      ColPrefixNonNegative(c, t - 1);
    }
  }

  /** With non-negative note costs, every cell costs at least 0 and at least as much as the
      cell its move came from. */
  lemma {:induction false} CellCostMonotone(c: Costs, t: nat, m: nat)
    requires NonNegative(c)
    ensures CellAt(c, t, m).cost >= 0.0
    ensures CellAt(c, t, m).op == Skip ==> CellAt(c, t, m).cost >= CellAt(c, t, m - 1).cost
    ensures CellAt(c, t, m).op == Add ==> CellAt(c, t, m).cost >= CellAt(c, t - 1, m).cost
    ensures CellAt(c, t, m).op == Align && t > 0 && m > 0 ==>
      CellAt(c, t, m).cost >= CellAt(c, t - 1, m - 1).cost
    decreases t + m
  {
    if m > 0 {
      CellCostMonotone(c, t, m - 1);
    }
    if t > 0 {
      CellCostMonotone(c, t - 1, m);
    }
    if t > 0 && m > 0 {
      CellCostMonotone(c, t - 1, m - 1);
    }
    RowPrefixNonNegative(c, m);
    ColPrefixNonNegative(c, t);
    assert c.align(t, m) >= 0.0;
    assert c.skip(m, t) >= 0.0;
    assert c.add(t) >= 0.0 && c.edgeAdd(t) >= 0.0;
  }

  /** computeAlignment's double loop, filling the grid row by row from the cells already
      filled: it produces exactly the recursively defined cells. */
  method ComputeGrid(c: Costs, rows: nat, cols: nat) returns (g: seq<seq<Cell>>)
    ensures |g| == rows
    ensures forall t :: 0 <= t < rows ==> |g[t]| == cols
    ensures forall t, m :: 0 <= t < rows && 0 <= m < cols ==> g[t][m] == CellAt(c, t, m)
  {
    g := [];
    var t := 0;
    while t < rows
      invariant 0 <= t <= rows && |g| == t
      invariant forall i :: 0 <= i < t ==> |g[i]| == cols
      invariant forall i, m :: 0 <= i < t && 0 <= m < cols ==> g[i][m] == CellAt(c, i, m)
    {
      var row: seq<Cell> := [];
      var m := 0;
      while m < cols
        invariant 0 <= m <= cols && |row| == m
        invariant forall j :: 0 <= j < m ==> row[j] == CellAt(c, t, j)
      {
        var left := if m > 0 then row[m - 1] else Outside;
        var up := if t > 0 then g[t - 1][m] else Outside;
        var diag := if t > 0 && m > 0 then g[t - 1][m - 1] else Outside;
        row := row + [Decide(c, t, m, left, up, diag)];
        m := m + 1;
      }
      g := g + [row];
      t := t + 1;
    }
  }
}

/** How many cells a grid has, and how it divides: a grid of two lists is the grids of their parts, by rows
    and by columns. */
module GridCells {
  import opened Options
  import opened Flattening
  import opened Grids

  /** The cells of Grid, and of Row. */
  function Cells(a: seq<Leaf>, b: seq<Leaf>, fuel: nat): nat
    decreases fuel, |a| + 1
  {
    if a == [] then 0
    else
      var row := Row(a[0], b, fuel);
      RowCells(a[0], b, fuel) + if row.None? then 0 else Cells(a[1..], row.value.theirs, fuel)
  }

  function RowCells(l: Leaf, b: seq<Leaf>, fuel: nat): nat
    decreases fuel, 1
  {
    if b == [] || fuel == 0 then 0 else CellsAfter(Cell(l, b[0]), b[1..], fuel)
  }

  /** The row from its first cell on. */
  function CellsAfter(cell: Option<Crossed>, b: seq<Leaf>, fuel: nat): nat
    requires fuel > 0
    decreases fuel, 0
  {
    1 + if cell.None? then 0 else Cells(cell.value.mine, b, fuel - 1)
  }

  lemma {:induction false} CellsMoreFuel(a: seq<Leaf>, b: seq<Leaf>, f: nat, g: nat)
    requires f <= g && Grid(a, b, f).Some?
    ensures Cells(a, b, g) == Cells(a, b, f)
    decreases f, |a| + 1
  {
    if a != [] {
      RowCellsMoreFuel(a[0], b, f, g);
      RowMoreFuel(a[0], b, f, g);
      CellsMoreFuel(a[1..], Row(a[0], b, f).value.theirs, f, g);
    }
  }

  lemma {:induction false} RowCellsMoreFuel(l: Leaf, b: seq<Leaf>, f: nat, g: nat)
    requires f <= g && Row(l, b, f).Some?
    ensures RowCells(l, b, g) == RowCells(l, b, f)
    decreases f, 1
  {
    if b != [] {
      CellsAfterMoreFuel(Cell(l, b[0]), b[1..], f, g);
    }
  }

  lemma {:induction false} CellsAfterMoreFuel(cell: Option<Crossed>, b: seq<Leaf>, f: nat, g: nat)
    requires 0 < f <= g && RowAfter(cell, b, f).Some?
    ensures CellsAfter(cell, b, g) == CellsAfter(cell, b, f)
    decreases f, 0
  {
    CellsMoreFuel(cell.value.mine, b, f - 1, g - 1);
  }

  /** The lists cross after n cells. */
  ghost predicate Takes(a: seq<Leaf>, b: seq<Leaf>, n: nat) {
    exists fuel :: Grid(a, b, fuel).Some? && Cells(a, b, fuel) == n
  }

  lemma CrossesTakes(a: seq<Leaf>, b: seq<Leaf>, x: Crossed) returns (n: nat)
    requires Crosses(a, b, x)
    ensures Takes(a, b, n)
  {
    var f :| Grid(a, b, f) == Some(x);
    n := Cells(a, b, f);
  }

  lemma TakesSome(a: seq<Leaf>, b: seq<Leaf>)
    requires Takes(a, b, 0)
    ensures a == [] || b == []
  {
    var f :| Grid(a, b, f).Some? && Cells(a, b, f) == 0;
    if a != [] && b != [] {
      assert RowCells(a[0], b, f) > 0;
    }
  }

  // ----- by rows -----

  lemma {:induction false} CellsConcat(a: seq<Leaf>, c: seq<Leaf>, b: seq<Leaf>, f: nat)
    requires Grid(a, b, f).Some?
    ensures Cells(a + c, b, f) == Cells(a, b, f) + Cells(c, Grid(a, b, f).value.theirs, f)
    decreases |a|
  {
    if a == [] {
      assert a + c == c;
    } else {
      assert (a + c)[0] == a[0] && (a + c)[1..] == a[1..] + c;
      CellsConcat(a[1..], c, Row(a[0], b, f).value.theirs, f);
    }
  }

  lemma TakesRows(a: seq<Leaf>, c: seq<Leaf>, b: seq<Leaf>, n: nat) returns (x: Crossed, i: nat, j: nat)
    requires Takes(a + c, b, n)
    ensures Crosses(a, b, x) && Takes(a, b, i) && Takes(c, x.theirs, j) && i + j == n
  {
    var f :| Grid(a + c, b, f).Some? && Cells(a + c, b, f) == n;
    GridConcat(a, c, b, f);
    CellsConcat(a, c, b, f);
    x := Grid(a, b, f).value;
    i, j := Cells(a, b, f), Cells(c, x.theirs, f);
  }

  // ----- by columns -----

  /** A grid of a longer second list is one grid below the other. */
  predicate SplitsAt(a: seq<Leaf>, b: seq<Leaf>, c: seq<Leaf>, f: nat) {
    var x, whole := Grid(a, b, f), Grid(a, b + c, f);
    && x.Some? && whole.Some?
    && var y := Grid(x.value.mine, c, f);
       && y.Some? && whole.value == Crossed(x.value.theirs + y.value.theirs, y.value.mine)
       && Cells(a, b + c, f) == Cells(a, b, f) + Cells(x.value.mine, c, f)
  }

  predicate RowSplitsAt(l: Leaf, b: seq<Leaf>, c: seq<Leaf>, f: nat) {
    var x, whole := Row(l, b, f), Row(l, b + c, f);
    && x.Some? && whole.Some?
    && var y := Grid(x.value.mine, c, f);
       && y.Some? && whole.value == Crossed(x.value.theirs + y.value.theirs, y.value.mine)
       && RowCells(l, b + c, f) == RowCells(l, b, f) + Cells(x.value.mine, c, f)
  }

  lemma {:induction false} GridSplits(a: seq<Leaf>, b: seq<Leaf>, c: seq<Leaf>, f: nat)
    requires Grid(a, b + c, f).Some?
    ensures SplitsAt(a, b, c, f)
    decreases f, |a| + 1
  {
    if a != [] {
      RowSplits(a[0], b, c, f);
      var row := Row(a[0], b, f).value;
      var upper := Grid(row.mine, c, f).value;
      GridSplits(a[1..], row.theirs, upper.theirs, f);
      SplitsCons(a, b, c, f, row, upper);
    }
  }

  lemma SplitsCons(a: seq<Leaf>, b: seq<Leaf>, c: seq<Leaf>, f: nat, row: Crossed, upper: Crossed)
    requires a != [] && Row(a[0], b, f) == Some(row) && Grid(row.mine, c, f) == Some(upper)
    requires RowSplitsAt(a[0], b, c, f) && SplitsAt(a[1..], row.theirs, upper.theirs, f)
    ensures SplitsAt(a, b, c, f)
  {
    var rest := Grid(a[1..], row.theirs, f).value;
    var lower := Grid(rest.mine, upper.theirs, f).value;
    GridConcat(row.mine, rest.mine, c, f);
    CellsConcat(row.mine, rest.mine, c, f);
    assert Row(a[0], b + c, f).value.theirs == row.theirs + upper.theirs;
  }

  lemma {:induction false} RowSplits(l: Leaf, b: seq<Leaf>, c: seq<Leaf>, f: nat)
    requires Row(l, b + c, f).Some?
    ensures RowSplitsAt(l, b, c, f)
    decreases f, 1
  {
    if b == [] {
      assert b + c == c;
      GridOfOne(l, c, f);
      CellsOfOne(l, c, f);
      assert [] + Row(l, c, f).value.theirs == Row(l, c, f).value.theirs;
    } else {
      assert (b + c)[0] == b[0] && (b + c)[1..] == b[1..] + c;
      AfterSplits(Cell(l, b[0]), b[1..], c, f);
    }
  }

  predicate AfterSplitsAt(cell: Option<Crossed>, b: seq<Leaf>, c: seq<Leaf>, f: nat)
    requires f > 0
  {
    var x, whole := RowAfter(cell, b, f), RowAfter(cell, b + c, f);
    && x.Some? && whole.Some?
    && var y := Grid(x.value.mine, c, f);
       && y.Some? && whole.value == Crossed(x.value.theirs + y.value.theirs, y.value.mine)
       && CellsAfter(cell, b + c, f) == CellsAfter(cell, b, f) + Cells(x.value.mine, c, f)
  }

  lemma {:induction false} AfterSplits(cell: Option<Crossed>, b: seq<Leaf>, c: seq<Leaf>, f: nat)
    requires f > 0 && RowAfter(cell, b + c, f).Some?
    ensures AfterSplitsAt(cell, b, c, f)
    decreases f, 0
  {
    var mine, first := cell.value.mine, cell.value.theirs;
    GridSplits(mine, b, c, f - 1);
    var y := Grid(mine, b, f - 1).value;
    GridMoreFuel(y.mine, c, f - 1, f);
    CellsMoreFuel(y.mine, c, f - 1, f);
    var z := Grid(y.mine, c, f).value;
    assert first + (y.theirs + z.theirs) == first + y.theirs + z.theirs;
  }

  lemma CellsOfOne(l: Leaf, b: seq<Leaf>, f: nat)
    ensures Cells([l], b, f) == RowCells(l, b, f)
  {
    assert [l][1..] == [];
  }

  lemma TakesColumns(a: seq<Leaf>, b: seq<Leaf>, c: seq<Leaf>, n: nat) returns (x: Crossed, i: nat, j: nat)
    requires Takes(a, b + c, n)
    ensures Crosses(a, b, x) && Takes(a, b, i) && Takes(x.mine, c, j) && i + j == n
  {
    var f :| Grid(a, b + c, f).Some? && Cells(a, b + c, f) == n;
    GridSplits(a, b, c, f);
    x := Grid(a, b, f).value;
    i, j := Cells(a, b, f), Cells(x.mine, c, f);
  }
}

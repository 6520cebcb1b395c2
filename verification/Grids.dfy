/** Merging two lists of basic changes cell by cell. However the grid of pairs is walked, by rows or by
    columns, the outcome is the same, although a cell may turn one change into several. */
module Grids {
  import opened Options
  import opened Merging
  import opened Flattening

  /** What the second list becomes after the first, and the first after the second. */
  datatype Crossed = Crossed(theirs: seq<Leaf>, mine: seq<Leaf>)

  /** One pair of basic changes; the first is the receiver. */
  function Cell(l: Leaf, m: Leaf): Option<Crossed> {
    var r := MergePaths(l.path, l.change, m.path, m.change, false, 1);
    if r.Done? then Some(Crossed(Leaves(r.otherx), Leaves(r.cx))) else None
  }

  function Grid(a: seq<Leaf>, b: seq<Leaf>, fuel: nat): Option<Crossed>
    decreases fuel, |a| + 1
  {
    if a == [] then Some(Crossed(b, []))
    else
      var row :- Row(a[0], b, fuel);
      var rest :- Grid(a[1..], row.theirs, fuel);
      Some(Crossed(rest.theirs, row.mine + rest.mine))
  }

  function Row(l: Leaf, b: seq<Leaf>, fuel: nat): Option<Crossed>
    decreases fuel, 1
  {
    if b == [] then Some(Crossed([], [l]))
    else if fuel == 0 then None
    else RowAfter(Cell(l, b[0]), b[1..], fuel)
  }

  /** The row after its first cell. */
  function RowAfter(cell: Option<Crossed>, b: seq<Leaf>, fuel: nat): Option<Crossed>
    requires fuel > 0
    decreases fuel, 0
  {
    var first :- cell;
    var rest :- Grid(first.mine, b, fuel - 1);
    Some(Crossed(first.theirs + rest.theirs, rest.mine))
  }

  // ----- the bound does not matter -----

  lemma {:induction false} GridMoreFuel(a: seq<Leaf>, b: seq<Leaf>, f: nat, g: nat)
    requires f <= g && Grid(a, b, f).Some?
    ensures Grid(a, b, g) == Grid(a, b, f)
    decreases f, |a| + 1
  {
    if a != [] {
      RowMoreFuel(a[0], b, f, g);
      GridMoreFuel(a[1..], Row(a[0], b, f).value.theirs, f, g);
    }
  }

  lemma {:induction false} RowMoreFuel(l: Leaf, b: seq<Leaf>, f: nat, g: nat)
    requires f <= g && Row(l, b, f).Some?
    ensures Row(l, b, g) == Row(l, b, f)
    decreases f, 1
  {
    if b != [] {
      AfterMoreFuel(Cell(l, b[0]), b[1..], f, g);
    }
  }

  lemma {:induction false} AfterMoreFuel(cell: Option<Crossed>, b: seq<Leaf>, f: nat, g: nat)
    requires 0 < f <= g && RowAfter(cell, b, f).Some?
    ensures RowAfter(cell, b, g) == RowAfter(cell, b, f)
    decreases f, 0
  {
    GridMoreFuel(cell.value.mine, b, f - 1, g - 1);
  }

  /** The lists cross with this outcome. */
  ghost predicate Crosses(a: seq<Leaf>, b: seq<Leaf>, x: Crossed) {
    exists fuel :: Grid(a, b, fuel) == Some(x)
  }

  /** There is at most one outcome. */
  lemma CrossesOnce(a: seq<Leaf>, b: seq<Leaf>, x: Crossed, y: Crossed)
    requires Crosses(a, b, x) && Crosses(a, b, y)
    ensures x == y
  {
    var f :| Grid(a, b, f) == Some(x);
    var g :| Grid(a, b, g) == Some(y);
    if f <= g {
      GridMoreFuel(a, b, f, g);
    } else {
      GridMoreFuel(a, b, g, f);
    }
  }

  lemma NoneCross(b: seq<Leaf>)
    ensures Crosses([], b, Crossed(b, []))
  {
    assert Grid([], b, 0) == Some(Crossed(b, []));
  }

  lemma {:induction false} CrossNone(a: seq<Leaf>)
    ensures Grid(a, [], 0) == Some(Crossed([], a)) && Crosses(a, [], Crossed([], a))
    decreases |a|
  {
    if a != [] {
      CrossNone(a[1..]);
      assert a == [a[0]] + a[1..];
    }
  }

  lemma CellCrosses(l: Leaf, m: Leaf)
    requires Cell(l, m).Some?
    ensures Crosses([l], [m], Cell(l, m).value)
  {
    var x := Cell(l, m).value;
    CrossNone(x.mine);
    assert [m][1..] == [] && [l][1..] == [];
    assert Row(l, [m], 1) == Some(Crossed(x.theirs + [], x.mine));
    assert Grid([l], [m], 1) == Some(Crossed(x.theirs + [], x.mine + []));
    assert x.theirs + [] == x.theirs && x.mine + [] == x.mine;
  }

  // ----- by rows -----

  /** The grid of a longer first list is one grid after the other. */
  lemma {:induction false} GridConcat(a: seq<Leaf>, c: seq<Leaf>, b: seq<Leaf>, f: nat)
    ensures Grid(a + c, b, f) ==
            (var x := Grid(a, b, f);
             if x.None? then None
             else
               var y := Grid(c, x.value.theirs, f);
               if y.None? then None else Some(Crossed(y.value.theirs, x.value.mine + y.value.mine)))
    decreases |a|
  {
    if a == [] {
      assert a + c == c;
      assert forall s: seq<Leaf> :: [] + s == s;
    } else {
      assert (a + c)[1..] == a[1..] + c && (a + c)[0] == a[0];
      var row := Row(a[0], b, f);
      if row.Some? {
        GridConcat(a[1..], c, row.value.theirs, f);
        var x := Grid(a[1..], row.value.theirs, f);
        if x.Some? {
          var y := Grid(c, x.value.theirs, f);
          var r, s, t := row.value.mine, x.value.mine, if y.Some? then y.value.mine else [];
          assert r + (s + t) == r + s + t;
        }
      }
    }
  }

  lemma CrossRows(a: seq<Leaf>, c: seq<Leaf>, b: seq<Leaf>, x: Crossed, y: Crossed)
    requires Crosses(a, b, x) && Crosses(c, x.theirs, y)
    ensures Crosses(a + c, b, Crossed(y.theirs, x.mine + y.mine))
  {
    var f :| Grid(a, b, f) == Some(x);
    var g :| Grid(c, x.theirs, g) == Some(y);
    var h := if f <= g then g else f;
    GridMoreFuel(a, b, f, h);
    GridMoreFuel(c, x.theirs, g, h);
    GridConcat(a, c, b, h);
    assert Grid(a + c, b, h).Some?;
  }

  // ----- by columns -----

  /** The grid of a longer second list: what the first list became on the first part crosses the second. */
  lemma {:induction false} GridBelow(a: seq<Leaf>, b: seq<Leaf>, c: seq<Leaf>, f: nat, g: nat) returns (h: nat)
    requires Grid(a, b, f).Some? && Grid(Grid(a, b, f).value.mine, c, g).Some?
    ensures var x := Grid(a, b, f).value; var y := Grid(x.mine, c, g).value;
            Grid(a, b + c, h) == Some(Crossed(x.theirs + y.theirs, y.mine))
    decreases f, |a| + 1
  {
    if a == [] {
      h := 0;
    } else {
      var row := Row(a[0], b, f).value;
      var rest := Grid(a[1..], row.theirs, f).value;
      GridConcat(row.mine, rest.mine, c, g);
      var upper := Grid(row.mine, c, g).value;
      var lower := Grid(rest.mine, upper.theirs, g).value;
      var h1 := RowBelow(a[0], b, c, f, g);
      var h2 := GridBelow(a[1..], row.theirs, upper.theirs, f, g);
      h := if h1 <= h2 then h2 else h1;
      RowMoreFuel(a[0], b + c, h1, h);
      GridMoreFuel(a[1..], row.theirs + upper.theirs, h2, h);
    }
  }

  lemma {:induction false} RowBelow(l: Leaf, b: seq<Leaf>, c: seq<Leaf>, f: nat, g: nat) returns (h: nat)
    requires Row(l, b, f).Some? && Grid(Row(l, b, f).value.mine, c, g).Some?
    ensures var x := Row(l, b, f).value; var y := Grid(x.mine, c, g).value;
            Row(l, b + c, h) == Some(Crossed(x.theirs + y.theirs, y.mine))
    decreases f, 1
  {
    if b == [] {
      assert b + c == c;
      h := g;
      GridOfOne(l, c, g);
      assert [] + Row(l, c, g).value.theirs == Row(l, c, g).value.theirs;
    } else {
      var mine := Cell(l, b[0]).value.mine;
      h := GridBelow(mine, b[1..], c, f - 1, g);
      RowCons(l, b, c, h, Grid(mine, b[1..], f - 1).value.theirs, Grid(Row(l, b, f).value.mine, c, g).value);
      h := h + 1;
    }
  }

  lemma GridOfOne(l: Leaf, b: seq<Leaf>, f: nat)
    ensures Grid([l], b, f) == Row(l, b, f)
  {
    var row := Row(l, b, f);
    assert [l][1..] == [];
    if row.Some? {
      assert Grid([], row.value.theirs, f) == Some(Crossed(row.value.theirs, []));
      assert row.value.mine + [] == row.value.mine;
    }
  }

  lemma RowCons(l: Leaf, b: seq<Leaf>, c: seq<Leaf>, h: nat, theirs: seq<Leaf>, y: Crossed)
    requires b != [] && Cell(l, b[0]).Some?
    requires Grid(Cell(l, b[0]).value.mine, b[1..] + c, h) == Some(Crossed(theirs + y.theirs, y.mine))
    ensures Row(l, b + c, h + 1) == Some(Crossed(Cell(l, b[0]).value.theirs + theirs + y.theirs, y.mine))
  {
    assert (b + c)[0] == b[0] && (b + c)[1..] == b[1..] + c;
    var first := Cell(l, b[0]).value.theirs;
    assert first + (theirs + y.theirs) == first + theirs + y.theirs;
  }

  lemma CrossColumns(a: seq<Leaf>, b: seq<Leaf>, c: seq<Leaf>, x: Crossed, y: Crossed)
    requires Crosses(a, b, x) && Crosses(x.mine, c, y)
    ensures Crosses(a, b + c, Crossed(x.theirs + y.theirs, y.mine))
  {
    var f :| Grid(a, b, f) == Some(x);
    var g :| Grid(x.mine, c, g) == Some(y);
    var h := GridBelow(a, b, c, f, g);
    assert Grid(a, b + c, h).Some?;
  }
}

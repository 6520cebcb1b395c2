/** Merging two changes of one value returns exactly if the grid of their basic changes has an end. So
    whether it returns does not depend on the receiver, nor on how sets and paths are nested. */
module Completion {
  import opened Options
  import opened Changes
  import opened Merging
  import opened Convergence
  import opened Flattening
  import opened Grids
  import opened GridCells
  import opened Symmetry
  import opened MergeTermination

  // ----- the same number of cells under a path -----

  lemma {:induction false} CellsUnder(p: seq<Key>, a: seq<Leaf>, b: seq<Leaf>, f: nat)
    requires AllBasic(a) && AllBasic(b) && Grid(a, b, f).Some?
    ensures Cells(Deeper(p, a), Deeper(p, b), f) == Cells(a, b, f)
    decreases f, |a| + 1
  {
    if a != [] {
      var row := Row(a[0], b, f).value;
      RowCellsUnder(p, a[0], b, f);
      RowUnder(p, a[0], b, f);
      RowBasic(a[0], b, f);
      CellsUnder(p, a[1..], row.theirs, f);
      assert Deeper(p, a)[0] == Below(p, a[0]) && Deeper(p, a)[1..] == Deeper(p, a[1..]);
    }
  }

  lemma {:induction false} RowCellsUnder(p: seq<Key>, l: Leaf, b: seq<Leaf>, f: nat)
    requires IsBasic(l.change) && AllBasic(b) && Row(l, b, f).Some?
    ensures RowCells(Below(p, l), Deeper(p, b), f) == RowCells(l, b, f)
    decreases f, 1
  {
    if b != [] {
      CellBelow(p, l, b[0]);
      CellBasic(l, b[0]);
      CellsAfterUnder(p, Cell(l, b[0]), b[1..], f);
      assert Deeper(p, b)[0] == Below(p, b[0]) && Deeper(p, b)[1..] == Deeper(p, b[1..]);
    }
  }

  lemma {:induction false} CellsAfterUnder(p: seq<Key>, cell: Option<Crossed>, b: seq<Leaf>, f: nat)
    requires f > 0 && AllBasic(b) && RowAfter(cell, b, f).Some? && AllBasic(cell.value.mine)
    ensures CellsAfter(OptionBelow(p, cell), Deeper(p, b), f) == CellsAfter(cell, b, f)
    decreases f, 0
  {
    CellsUnder(p, cell.value.mine, b, f - 1);
  }

  lemma TakesUnder(p: seq<Key>, a: seq<Leaf>, b: seq<Leaf>, n: nat)
    requires AllBasic(a) && AllBasic(b) && Takes(Deeper(p, a), Deeper(p, b), n)
    ensures Takes(a, b, n)
  {
    var f :| Grid(Deeper(p, a), Deeper(p, b), f).Some? && Cells(Deeper(p, a), Deeper(p, b), f) == n;
    GridUnder(p, a, b, f);
    CellsUnder(p, a, b, f);
  }

  // ----- weights -----

  /** How deep sets and path elements are nested. Splitting a path in two does not count. */
  function Weight(c: Change): nat
    decreases c, 0
  {
    match c
    case PathChange(path, inner) => |path| + Weight(inner)
    case ChangeSet(changes) => 1 + WeightOfAll(changes)
    case _ => 0
  }

  function WeightOfAll(cs: seq<Change>): nat
    decreases cs, 0
  {
    if cs == [] then 0 else Max(Weight(cs[0]), WeightOfAll(cs[1..]))
  }

  function Max(i: nat, j: nat): nat { if i < j then j else i }

  /** Path changes around the change. */
  function Wraps(c: Change): nat { if c.PathChange? then 1 + Wraps(c.inner) else 0 }

  /** Among merges of equal weight the ones with a lower rank come later. */
  function Rank(c: Change): nat { if c.ChangeSet? then 0 else if c.PathChange? then 1 else 2 }

  lemma {:induction false} WeightOfConcat(cs: seq<Change>, ds: seq<Change>)
    ensures WeightOfAll(cs + ds) == Max(WeightOfAll(cs), WeightOfAll(ds))
    decreases |cs|
  {
    if cs == [] {
      assert cs + ds == ds;
    } else {
      assert (cs + ds)[1..] == cs[1..] + ds;
      WeightOfConcat(cs[1..], ds);
    }
  }

  lemma {:induction false} SimplifyWeight(c: Change)
    ensures Weight(Simplify(c)) <= Weight(c)
    decreases c, 0
  {
    match c
    case ChangeSet(changes) => SimplifySetWeight(changes);
    case PathChange(_, inner) => SimplifyWeight(inner);
    case _ =>
  }

  lemma {:induction false} SimplifySetWeight(cs: seq<Change>)
    ensures Weight(SimplifySet(cs)) <= 1 + WeightOfAll(cs)
    decreases cs, 1
  {
    SimplifyEachWeight(cs);
    var kept := SimplifyEach(cs);
    assert |kept| == 1 ==> Weight(kept[0]) <= WeightOfAll(kept);
  }

  lemma {:induction false} SimplifyEachWeight(cs: seq<Change>)
    ensures WeightOfAll(SimplifyEach(cs)) <= WeightOfAll(cs)
    decreases cs, 0
  {
    if cs != [] {
      SimplifyWeight(cs[0]);
      SimplifyEachWeight(cs[1..]);
      var cx := Simplify(cs[0]);
      var head := if cx.Noop? then [] else [cx];
      assert head != [] ==> head[1..] == [];
      WeightOfConcat(head, SimplifyEach(cs[1..]));
    }
  }

  // ----- a finished grid means a finished merge -----

  predicate Idle(l: seq<Leaf>, r: seq<Leaf>) { l == [] || r == [] }

  /** The merge is done; if one side does nothing, neither side got heavier. */
  predicate Ended(m: Merged, idle: bool, a: nat, b: nat) {
    m.Done? && (idle ==> Weight(m.cx) <= a && Weight(m.otherx) <= b)
  }

  predicate EndedRow(w: Walked, idle: bool, cs: nat, other: nat) {
    w.Walked? && (idle ==> WeightOfAll(w.results) <= cs && Weight(w.other) <= other)
  }

  /** With reverse, r is the receiver. */
  ghost predicate TakesBy(l: seq<Leaf>, r: seq<Leaf>, reverse: bool, n: nat) {
    if reverse then Takes(r, l, n) else Takes(l, r, n)
  }

  lemma MergedLeaves(a: Change, b: Change, f: nat, x: Crossed)
    requires Merge(a, b, f).Done? && Crosses(Leaves(a), Leaves(b), x)
    ensures x == Crossed(Leaves(Merge(a, b, f).otherx), Leaves(Merge(a, b, f).cx))
  {
    MergeWalks(a, b, f);
    CrossesOnce(Leaves(a), Leaves(b), x, Crossed(Leaves(Merge(a, b, f).otherx), Leaves(Merge(a, b, f).cx)));
  }

  /** If the basic changes cross after n cells, merging returns. */
  lemma {:induction false} MergeEnds(v: Value, a: Change, b: Change, n: nat) returns (fuel: nat)
    requires Takes(Leaves(a), Leaves(b), n) && Apply(v, a).Some? && Apply(v, b).Some?
    ensures Ended(Merge(a, b, fuel), Idle(Leaves(a), Leaves(b)), Weight(a), Weight(b))
    decreases n, Weight(a) + Weight(b), Wraps(a) + Wraps(b), Rank(a), 3
  {
    if a.Noop? {
      fuel := 1;
    } else if a.ChangeSet? {
      fuel := RowEnds(v, a.changes, b, n);
      SimplifySetWeight(MergeEach(a.changes, b, fuel).results);
      fuel := fuel + 1;
    } else if a.PathChange? {
      fuel := PathsEnd(v, a, b, false, n);
      fuel := fuel + 1;
    } else if b.IsComposite() {
      fuel := ReverseMergeEnds(v, b, a, n);
      fuel := fuel + 1;
    } else {
      fuel := 1;
      if !b.Noop? {
        BasicConverges(v, a, b);
      }
    }
  }

  lemma {:induction false} ReverseMergeEnds(v: Value, a: Change, b: Change, n: nat) returns (fuel: nat)
    requires Takes(Leaves(b), Leaves(a), n) && a.IsComposite() && Apply(v, a).Some? && Apply(v, b).Some?
    ensures Ended(ReverseMerge(a, b, fuel), Idle(Leaves(a), Leaves(b)), Weight(a), Weight(b))
    decreases n, Weight(a) + Weight(b), Wraps(a) + Wraps(b), Rank(a), 3
  {
    if a.ChangeSet? {
      fuel := ColumnEnds(v, a.changes, b, n);
      SimplifySetWeight(ReverseMergeEach(a.changes, b, fuel).results);
    } else {
      fuel := PathsEnd(v, a, b, true, n);
    }
    fuel := fuel + 1;
  }

  lemma {:induction false} RowEnds(v: Value, cs: seq<Change>, other: Change, n: nat) returns (fuel: nat)
    requires Takes(LeavesOf(cs), Leaves(other), n) && ApplyAll(v, cs).Some? && Apply(v, other).Some?
    ensures EndedRow(MergeEach(cs, other, fuel), Idle(LeavesOf(cs), Leaves(other)), WeightOfAll(cs), Weight(other))
    decreases n, 1 + WeightOfAll(cs) + Weight(other), 0, 0, 0, |cs|
  {
    fuel := 0;
    if cs != [] {
      var x, i, j := TakesRows(Leaves(cs[0]), LeavesOf(cs[1..]), Leaves(other), n);
      var f := MergeEnds(v, cs[0], other, i);
      MergeConverges(v, cs[0], other, f);
      MergedLeaves(cs[0], other, f, x);
      if i == 0 {
        TakesSome(Leaves(cs[0]), Leaves(other));
      }
      var m := Merge(cs[0], other, f);
      var g := RowEnds(Apply(v, cs[0]).value, cs[1..], m.otherx, j);
      fuel := Max(f, g);
      MergeMoreFuel(cs[0], other, f, fuel);
      MergeEachMoreFuel(cs[1..], m.otherx, g, fuel);
      CrossesNothing(Leaves(cs[0]), Leaves(other), x);
      var rest := MergeEach(cs[1..], m.otherx, fuel).results;
      assert ([m.cx] + rest)[1..] == rest;
    }
  }

  /** Nothing crosses as nothing. */
  lemma CrossesNothing(a: seq<Leaf>, b: seq<Leaf>, x: Crossed)
    requires Crosses(a, b, x)
    ensures a == [] ==> x == Crossed(b, [])
    ensures b == [] ==> x == Crossed([], a)
  {
    if a == [] {
      NoneCross(b);
      CrossesOnce(a, b, x, Crossed(b, []));
    } else if b == [] {
      CrossNone(a);
      CrossesOnce(a, b, x, Crossed([], a));
    }
  }

  lemma {:induction false} ColumnEnds(v: Value, cs: seq<Change>, other: Change, n: nat) returns (fuel: nat)
    requires Takes(Leaves(other), LeavesOf(cs), n) && ApplyAll(v, cs).Some? && Apply(v, other).Some?
    ensures EndedRow(ReverseMergeEach(cs, other, fuel), Idle(LeavesOf(cs), Leaves(other)), WeightOfAll(cs),
                     Weight(other))
    decreases n, 1 + WeightOfAll(cs) + Weight(other), 0, 0, 0, |cs|
  {
    fuel := 0;
    if cs != [] {
      var x, i, j := TakesColumns(Leaves(other), Leaves(cs[0]), LeavesOf(cs[1..]), n);
      var f := MergeEnds(v, other, cs[0], i);
      MergeConverges(v, other, cs[0], f);
      MergedLeaves(other, cs[0], f, x);
      if i == 0 {
        TakesSome(Leaves(other), Leaves(cs[0]));
      }
      var m := Merge(other, cs[0], f);
      var g := ColumnEnds(Apply(v, cs[0]).value, cs[1..], m.cx, j);
      fuel := Max(f, g);
      MergeMoreFuel(other, cs[0], f, fuel);
      ReverseMergeEachMoreFuel(cs[1..], m.cx, g, fuel);
      CrossesNothing(Leaves(other), Leaves(cs[0]), x);
      var rest := ReverseMergeEach(cs[1..], m.cx, fuel).results;
      assert ([m.otherx] + rest)[1..] == rest;
    }
  }

  lemma {:induction false} PathsEnd(v: Value, a: Change, b: Change, reverse: bool, n: nat) returns (fuel: nat)
    requires a.PathChange? && Apply(v, a).Some? && Apply(v, b).Some? && TakesBy(Leaves(a), Leaves(b), reverse, n)
    ensures Ended(MergePaths(a.path, a.inner, PathOf(b), InnerOf(b), reverse, fuel), Idle(Leaves(a), Leaves(b)),
                  Weight(a), Weight(b))
    decreases n, Weight(a) + Weight(b), Wraps(a) + Wraps(b), Rank(a), 2
  {
    var p, l, q, r := a.path, a.inner, PathOf(b), InnerOf(b);
    var k := CommonPrefixLen(p, q);
    PathsOf(b);
    fuel := 0;
    if |p| == k && |q| == k {
      assert p == p[..k] && q == q[..k];
      fuel := UnderEnds(v, p, l, r, reverse, n);
    } else if |p| == k {
      assert p == p[..k];
      fuel := SubPathEnds(v, p, l, q, r, reverse, n);
    } else if |q| == k {
      assert q == q[..k];
      if b.ChangeSet? {
        fuel := SetAbovePathEnds(v, b, a, !reverse, n);
      } else if b.PathChange? {
        fuel := SubPathEnds(v, q, r, p, l, !reverse, n);
      } else {
        SubPathEnded(v, q, r, p, l, !reverse);
      }
    }
  }

  /** A path change above another one. */
  lemma {:induction false} SubPathEnds(v: Value, p: seq<Key>, l: Change, q: seq<Key>, r: Change, reverse: bool, n: nat)
    returns (fuel: nat)
    requires |p| < |q| && q[..|p|] == p && ApplyAt(v, p, l).Some? && ApplyAt(v, q, r).Some?
    requires TakesBy(Deeper(p, Leaves(l)), Deeper(q, Leaves(r)), reverse, n)
    ensures Ended(MergeSubPath(p, l, q, r, reverse, fuel), Idle(Leaves(l), Leaves(r)), |p| + Weight(l), |q| + Weight(r))
    decreases n, |p| + Weight(l) + |q| + Weight(r), Wraps(l) + 1 + Wraps(r), 4
  {
    fuel := 0;
    if l.IsComposite() {
      SubPathFacts(v, p, l, q, r);
      DeeperTwice(p, q[|p|..], Leaves(r));
      fuel := UnderEnds(v, p, l, PathChange(q[|p|..], r), reverse, n);
    } else {
      SubPathEnded(v, p, l, q, r, reverse);
    }
  }

  /** A set against a path change: the set gets its turn as the receiver. */
  lemma {:induction false} SetAbovePathEnds(v: Value, members: Change, c: Change, reverse: bool, n: nat)
    returns (fuel: nat)
    requires members.ChangeSet? && c.PathChange? && c.path != [] && Apply(v, members).Some? && Apply(v, c).Some?
    requires TakesBy(Leaves(members), Leaves(c), reverse, n)
    ensures Ended(MergeSubPath([], members, c.path, c.inner, reverse, fuel), Idle(Leaves(members), Leaves(c)),
                  Weight(members), Weight(c))
    decreases n, Weight(members) + Weight(c), Wraps(members) + Wraps(c), 1, 1
  {
    assert c.path[0..] == c.path;
    if reverse {
      fuel := ReverseMergeEnds(v, members, c, n);
    } else {
      fuel := MergeEnds(v, members, c, n);
    }
  }

  lemma {:induction false} UnderEnds(v: Value, prefix: seq<Key>, l: Change, r: Change, reverse: bool, n: nat)
    returns (fuel: nat)
    requires ApplyAt(v, prefix, l).Some? && ApplyAt(v, prefix, r).Some?
    requires TakesBy(Deeper(prefix, Leaves(l)), Deeper(prefix, Leaves(r)), reverse, n)
    ensures Ended(MergeUnder(prefix, l, r, reverse, fuel), Idle(Leaves(l), Leaves(r)),
                  |prefix| + Weight(l), |prefix| + Weight(r))
    decreases n, Weight(l) + Weight(r), Wraps(l) + Wraps(r), 3
  {
    ApplyAtFocus(v, prefix, l);
    ApplyAtFocus(v, prefix, r);
    LeavesBasic(l);
    LeavesBasic(r);
    var w := Focus(v, prefix).value;
    fuel := 0;
    if reverse {
      TakesUnder(prefix, Leaves(r), Leaves(l), n);
      if l.IsComposite() {
        fuel := ReverseMergeEnds(w, l, r, n);
      } else if !r.Noop? {
        fuel := MergeEnds(w, r, l, n);
      } else {
        fuel := 1;
      }
    } else {
      TakesUnder(prefix, Leaves(l), Leaves(r), n);
      if !l.Noop? {
        fuel := MergeEnds(w, l, r, n);
      }
    }
  }

  /** A basic change above a path: no nested merge is needed. */
  lemma SubPathEnded(v: Value, p: seq<Key>, l: Change, q: seq<Key>, r: Change, reverse: bool)
    requires !l.IsComposite() && |p| < |q| && q[..|p|] == p
    requires ApplyAt(v, p, l).Some? && ApplyAt(v, q, r).Some?
    ensures Ended(MergeSubPath(p, l, q, r, reverse, 0), true, |p| + Weight(l), |q| + Weight(r))
  {
    MergeSubPathConverges(v, p, l, q, r, reverse, 0);
  }

  // ----- exactly when merging returns -----

  ghost predicate Returns(a: Change, b: Change) { exists fuel :: Merge(a, b, fuel).Done? }

  ghost predicate ReverseReturns(a: Change, b: Change)
    requires a.IsComposite()
  {
    exists fuel :: ReverseMerge(a, b, fuel).Done?
  }

  /** The grid of the two lists has an end. */
  ghost predicate HasEnd(a: seq<Leaf>, b: seq<Leaf>) { exists x :: Crosses(a, b, x) }

  lemma EndTakes(a: seq<Leaf>, b: seq<Leaf>) returns (n: nat)
    requires HasEnd(a, b)
    ensures Takes(a, b, n)
  {
    var x :| Crosses(a, b, x);
    n := CrossesTakes(a, b, x);
  }

  lemma ReturnsExactly(v: Value, a: Change, b: Change)
    requires Apply(v, a).Some? && Apply(v, b).Some?
    ensures Returns(a, b) <==> HasEnd(Leaves(a), Leaves(b))
  {
    if HasEnd(Leaves(a), Leaves(b)) {
      var n := EndTakes(Leaves(a), Leaves(b));
      var fuel := MergeEnds(v, a, b, n);
      assert Merge(a, b, fuel).Done?;
    }
    if fuel :| Merge(a, b, fuel).Done? {
      MergeWalks(a, b, fuel);
    }
  }

  lemma ReverseReturnsExactly(v: Value, a: Change, b: Change)
    requires b.IsComposite() && Apply(v, a).Some? && Apply(v, b).Some?
    ensures ReverseReturns(b, a) <==> HasEnd(Leaves(a), Leaves(b))
  {
    if HasEnd(Leaves(a), Leaves(b)) {
      var n := EndTakes(Leaves(a), Leaves(b));
      var fuel := ReverseMergeEnds(v, b, a, n);
      assert ReverseMerge(b, a, fuel).Done?;
    }
    if fuel :| ReverseMerge(b, a, fuel).Done? {
      ReverseMergeWalks(b, a, fuel);
    }
  }

  /** a.Merge(b) returns exactly if b.ReverseMerge(a) does. */
  lemma ReverseMergeReturns(v: Value, a: Change, b: Change)
    requires b.IsComposite() && Apply(v, a).Some? && Apply(v, b).Some?
    ensures Returns(a, b) <==> ReverseReturns(b, a)
  {
    ReturnsExactly(v, a, b);
    ReverseReturnsExactly(v, a, b);
  }

  /** Whether merging returns does not depend on the nesting either. */
  lemma NestingReturns(v: Value, a: Change, b: Change, a': Change, b': Change)
    requires Leaves(a) == Leaves(a') && Leaves(b) == Leaves(b')
    requires Apply(v, a).Some? && Apply(v, b).Some? && Apply(v, a').Some? && Apply(v, b').Some?
    ensures Returns(a, b) <==> Returns(a', b')
  {
    ReturnsExactly(v, a, b);
    ReturnsExactly(v, a', b');
  }
}

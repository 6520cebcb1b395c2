/** ReverseMerge is Merge with receiver and argument exchanged (changes/changes.go): both give the outcome of
    the grid of basic changes, although one walks it by rows and the other by columns. */
module Symmetry {
  import opened Options
  import opened Splices
  import opened Changes
  import opened Merging
  import opened Flattening
  import opened Grids
  import Convergence

  function Below(p: seq<Key>, l: Leaf): Leaf { Leaf(p + l.path, l.change) }

  function CrossedBelow(p: seq<Key>, x: Crossed): Crossed { Crossed(Deeper(p, x.theirs), Deeper(p, x.mine)) }

  // ----- the same under a path -----

  lemma {:induction false} PrefixLenBelow(p: seq<Key>, a: seq<Key>, b: seq<Key>)
    ensures CommonPrefixLen(p + a, p + b) == |p| + CommonPrefixLen(a, b)
    decreases |p|
  {
    if p == [] {
      assert p + a == a && p + b == b;
    } else {
      assert (p + a)[1..] == p[1..] + a && (p + b)[1..] == p[1..] + b;
      PrefixLenBelow(p[1..], a, b);
    }
  }

  lemma LeavesBelow(p: seq<Key>, q: seq<Key>, c: Change)
    ensures Leaves(PathChange(p + q, c)) == Deeper(p, Leaves(PathChange(q, c)))
  {
    DeeperTwice(p, q, Leaves(c));
  }

  /** A merged pair as lists of leaves. */
  function AsCrossed(m: Merged): Option<Crossed> {
    if m.Done? then Some(Crossed(Leaves(m.otherx), Leaves(m.cx))) else None
  }

  function OptionBelow(p: seq<Key>, x: Option<Crossed>): Option<Crossed> {
    if x.Some? then Some(CrossedBelow(p, x.value)) else None
  }

  lemma UnderBelow(p: seq<Key>, q: seq<Key>, l: Change, r: Change, reverse: bool, fuel: nat)
    ensures AsCrossed(MergeUnder(p + q, l, r, reverse, fuel)) ==
            OptionBelow(p, AsCrossed(MergeUnder(q, l, r, reverse, fuel)))
  {
    var m := MergeUnder(q, l, r, reverse, fuel);
    var n := MergeUnder(p + q, l, r, reverse, fuel);
    if m.Done? {
      LeavesBelow(p, q, m.otherx.inner);
      LeavesBelow(p, q, m.cx.inner);
    }
  }

  /** A splice or move that leaves the element alone or only moves it to another index. */
  predicate MovesElement(l: Change, i: int, j: int) {
    || (l.SpliceIn? && l.splice.MapIndex(i) == Some(j))
    || (l.MoveBy? && l.move.MapIndex(i) == j)
  }

  /** What happens to any change inside such an element. */
  lemma PassesElement(p: seq<Key>, l: Change, x: seq<Key>, c: Change, j: int, reverse: bool, fuel: nat)
    requires x != [] && x[0].Index? && MovesElement(l, x[0].i, j)
    ensures MergeSubPath(p, l, p + x, c, reverse, fuel) == Done(PathChange(p + x[0 := Index(j)], c), PathChange(p, l))
  {
    assert (p + x)[|p|..] == x && (p + x)[|p| := Index(j)] == p + x[0 := Index(j)];
    assert j == x[0].i ==> x[0 := Index(j)] == x;
  }

  lemma ReplaceBelow(p: seq<Key>, a: seq<Key>, l: Change, x: seq<Key>, r: Change, reverse: bool, fuel: nat)
    requires x != [] && l.Replace?
    ensures AsCrossed(MergeSubPath(p + a, l, p + a + x, r, reverse, fuel)) ==
            OptionBelow(p, AsCrossed(MergeSubPath(a, l, a + x, r, reverse, fuel)))
  {
    assert (p + a + x)[|p + a|..] == x && (a + x)[|a|..] == x;
    var m := MergeSubPath(a, l, a + x, r, reverse, fuel);
    if m.Done? {
      LeavesBelow(p, a, m.cx.inner);
    }
  }

  /** The element only moves, or stays. */
  lemma PassedBelow(p: seq<Key>, a: seq<Key>, l: Change, x: seq<Key>, r: Change, j: int, reverse: bool, fuel: nat)
    requires x != [] && x[0].Index? && MovesElement(l, x[0].i, j)
    ensures AsCrossed(MergeSubPath(p + a, l, p + a + x, r, reverse, fuel)) ==
            OptionBelow(p, AsCrossed(MergeSubPath(a, l, a + x, r, reverse, fuel)))
  {
    var y := x[0 := Index(j)];
    PassesElement(a, l, x, r, j, reverse, fuel);
    PassesElement(p + a, l, x, r, j, reverse, fuel);
    LeavesBelow(p, a, l);
    LeavesBelow(p, a + y, r);
    assert p + (a + y) == p + a + y;
  }

  /** The element is replaced by the splice. */
  lemma TakenBelow(p: seq<Key>, a: seq<Key>, l: Change, x: seq<Key>, r: Change, reverse: bool, fuel: nat)
    requires x != [] && l.SpliceIn? && x[0].Index? && l.splice.MapIndex(x[0].i).None?
    ensures AsCrossed(MergeSubPath(p + a, l, p + a + x, r, reverse, fuel)) ==
            OptionBelow(p, AsCrossed(MergeSubPath(a, l, a + x, r, reverse, fuel)))
  {
    assert (p + a + x)[|p + a|..] == x && (a + x)[|a|..] == x;
    var m := MergeSubPath(a, l, a + x, r, reverse, fuel);
    if m.Done? {
      LeavesBelow(p, a, m.cx.inner);
    }
  }

  lemma SubPathBelow(p: seq<Key>, a: seq<Key>, l: Change, x: seq<Key>, r: Change, reverse: bool, fuel: nat)
    requires x != [] && IsBasic(l)
    ensures AsCrossed(MergeSubPath(p + a, l, p + a + x, r, reverse, fuel)) ==
            OptionBelow(p, AsCrossed(MergeSubPath(a, l, a + x, r, reverse, fuel)))
  {
    if l.Replace? {
      ReplaceBelow(p, a, l, x, r, reverse, fuel);
    } else if !x[0].Index? {
      assert (p + a + x)[|p + a|..] == x && (a + x)[|a|..] == x;
    } else if l.MoveBy? {
      PassedBelow(p, a, l, x, r, l.move.MapIndex(x[0].i), reverse, fuel);
    } else if l.splice.MapIndex(x[0].i).Some? {
      PassedBelow(p, a, l, x, r, l.splice.MapIndex(x[0].i).value, reverse, fuel);
    } else {
      TakenBelow(p, a, l, x, r, reverse, fuel);
    }
  }

  lemma CellApart(l: Leaf, m: Leaf)
    requires IsBasic(l.change) && IsBasic(m.change)
    requires var n := CommonPrefixLen(l.path, m.path); n < |l.path| && n < |m.path|
    ensures Cell(l, m) == Some(Crossed([m], [l]))
  {
    LeavesAt(l.path, l.change);
    LeavesAt(m.path, m.change);
  }

  lemma LeavesAt(p: seq<Key>, c: Change)
    requires IsBasic(c)
    ensures Leaves(PathChange(p, c)) == [Leaf(p, c)]
  {
    DeeperOne(p, Leaf([], c));
    assert p + [] == p;
  }

  lemma CellAbove(p: seq<Key>, l: Change, x: seq<Key>, c: Change)
    requires IsBasic(l) && IsBasic(c) && x != []
    ensures var m := MergeSubPath(p, l, p + x, c, false, 1);
            && Cell(Leaf(p, l), Leaf(p + x, c)) == AsCrossed(m)
            && Cell(Leaf(p + x, c), Leaf(p, l)) == AsCrossed(m.Swap())
  {
    PrefixLenBelow(p, [], x);
    PrefixLenBelow(p, x, []);
    assert p + [] == p;
  }

  lemma CellSame(p: seq<Key>, l: Change, c: Change)
    requires IsBasic(l) && IsBasic(c)
    ensures Cell(Leaf(p, l), Leaf(p, c)) == AsCrossed(MergeUnder(p, l, c, false, 1))
  {
    CommonPrefixIs(p, p, |p|);
  }

  lemma CellSameBelow(p: seq<Key>, a: seq<Key>, l: Change, c: Change)
    requires IsBasic(l) && IsBasic(c)
    ensures Cell(Leaf(p + a, l), Leaf(p + a, c)) == OptionBelow(p, Cell(Leaf(a, l), Leaf(a, c)))
  {
    CellSame(a, l, c);
    CellSame(p + a, l, c);
    UnderBelow(p, a, l, c, false, 1);
  }

  lemma CellAboveBelow(p: seq<Key>, a: seq<Key>, l: Change, x: seq<Key>, c: Change)
    requires IsBasic(l) && IsBasic(c) && x != []
    ensures Cell(Leaf(p + a, l), Leaf(p + a + x, c)) == OptionBelow(p, Cell(Leaf(a, l), Leaf(a + x, c)))
    ensures Cell(Leaf(p + a + x, c), Leaf(p + a, l)) == OptionBelow(p, Cell(Leaf(a + x, c), Leaf(a, l)))
  {
    CellAbove(a, l, x, c);
    CellAbove(p + a, l, x, c);
    SubPathBelow(p, a, l, x, c, false, 1);
  }

  lemma CellApartBelow(p: seq<Key>, l: Leaf, m: Leaf)
    requires IsBasic(l.change) && IsBasic(m.change)
    requires var n := CommonPrefixLen(l.path, m.path); n < |l.path| && n < |m.path|
    ensures Cell(Below(p, l), Below(p, m)) == OptionBelow(p, Cell(l, m))
  {
    CellApart(l, m);
    PrefixLenBelow(p, l.path, m.path);
    CellApart(Below(p, l), Below(p, m));
    DeeperOne(p, l);
    DeeperOne(p, m);
  }

  lemma Extends(a: seq<Key>, b: seq<Key>, p: seq<Key>) returns (x: seq<Key>)
    requires CommonPrefixLen(a, b) == |a|
    ensures b == a + x && p + b == p + a + x
  {
    x := b[|a|..];
    assert b == b[..|a|] + x && a == a[..|a|];
    assert p + (a + x) == p + a + x;
  }

  lemma CellBelowFirst(p: seq<Key>, l: Leaf, m: Leaf)
    requires IsBasic(l.change) && IsBasic(m.change) && CommonPrefixLen(l.path, m.path) == |l.path|
    ensures Cell(Below(p, l), Below(p, m)) == OptionBelow(p, Cell(l, m))
  {
    var x := Extends(l.path, m.path, p);
    if x == [] {
      assert m.path == l.path;
      CellSameBelow(p, l.path, l.change, m.change);
    } else {
      CellAboveBelow(p, l.path, l.change, x, m.change);
    }
  }

  lemma CellBelowSecond(p: seq<Key>, l: Leaf, m: Leaf)
    requires IsBasic(l.change) && IsBasic(m.change) && CommonPrefixLen(m.path, l.path) == |m.path| < |l.path|
    ensures Cell(Below(p, l), Below(p, m)) == OptionBelow(p, Cell(l, m))
  {
    var x := Extends(m.path, l.path, p);
    CellAboveBelow(p, m.path, m.change, x, l.change);
  }

  /** A pair of basic changes merges under a path as it does at the top. */
  lemma CellBelow(p: seq<Key>, l: Leaf, m: Leaf)
    requires IsBasic(l.change) && IsBasic(m.change)
    ensures Cell(Below(p, l), Below(p, m)) == OptionBelow(p, Cell(l, m))
  {
    var n := CommonPrefixLen(l.path, m.path);
    if n == |l.path| {
      CellBelowFirst(p, l, m);
    } else if n == |m.path| {
      CommonPrefixIs(m.path, l.path, n);
      CellBelowSecond(p, l, m);
    } else {
      CellApartBelow(p, l, m);
    }
  }

  lemma {:induction false} GridBasic(a: seq<Leaf>, b: seq<Leaf>, f: nat)
    requires AllBasic(a) && AllBasic(b) && Grid(a, b, f).Some?
    ensures AllBasic(Grid(a, b, f).value.theirs) && AllBasic(Grid(a, b, f).value.mine)
    decreases f, |a| + 1
  {
    if a != [] {
      RowBasic(a[0], b, f);
      var row := Row(a[0], b, f).value;
      GridBasic(a[1..], row.theirs, f);
      BasicConcat(row.mine, Grid(a[1..], row.theirs, f).value.mine);
    }
  }

  lemma {:induction false} RowBasic(l: Leaf, b: seq<Leaf>, f: nat)
    requires IsBasic(l.change) && AllBasic(b) && Row(l, b, f).Some?
    ensures AllBasic(Row(l, b, f).value.theirs) && AllBasic(Row(l, b, f).value.mine)
    decreases f, 1
  {
    if b != [] {
      CellBasic(l, b[0]);
      var cell := Cell(l, b[0]).value;
      GridBasic(cell.mine, b[1..], f - 1);
      BasicConcat(cell.theirs, Grid(cell.mine, b[1..], f - 1).value.theirs);
    }
  }

  lemma CellBasic(l: Leaf, m: Leaf)
    requires Cell(l, m).Some?
    ensures AllBasic(Cell(l, m).value.theirs) && AllBasic(Cell(l, m).value.mine)
  {
    var r := MergePaths(l.path, l.change, m.path, m.change, false, 1);
    LeavesBasic(r.otherx);
    LeavesBasic(r.cx);
  }

  lemma {:induction false} GridUnder(p: seq<Key>, a: seq<Leaf>, b: seq<Leaf>, f: nat)
    requires AllBasic(a) && AllBasic(b)
    ensures Grid(Deeper(p, a), Deeper(p, b), f) == OptionBelow(p, Grid(a, b, f))
    decreases f, |a| + 1
  {
    if a != [] {
      RowUnder(p, a[0], b, f);
      var row := Row(a[0], b, f);
      assert Deeper(p, a)[0] == Below(p, a[0]) && Deeper(p, a)[1..] == Deeper(p, a[1..]);
      if row.Some? {
        RowBasic(a[0], b, f);
        GridUnder(p, a[1..], row.value.theirs, f);
        var rest := Grid(a[1..], row.value.theirs, f);
        if rest.Some? {
          DeeperConcat(p, row.value.mine, rest.value.mine);
        }
      }
    }
  }

  lemma {:induction false} RowUnder(p: seq<Key>, l: Leaf, b: seq<Leaf>, f: nat)
    requires IsBasic(l.change) && AllBasic(b)
    ensures Row(Below(p, l), Deeper(p, b), f) == OptionBelow(p, Row(l, b, f))
    decreases f, 1
  {
    if b == [] {
      DeeperOne(p, l);
    } else if f > 0 {
      CellBelow(p, l, b[0]);
      if Cell(l, b[0]).Some? {
        CellBasic(l, b[0]);
        RowRestUnder(p, l, b, f, Cell(l, b[0]).value);
      } else {
        assert Deeper(p, b)[0] == Below(p, b[0]);
      }
    }
  }

  lemma {:induction false} RowRestUnder(p: seq<Key>, l: Leaf, b: seq<Leaf>, f: nat, cell: Crossed)
    requires f > 0 && b != [] && AllBasic(b) && AllBasic(cell.mine)
    requires Cell(l, b[0]) == Some(cell) && Cell(Below(p, l), Below(p, b[0])) == Some(CrossedBelow(p, cell))
    ensures Row(Below(p, l), Deeper(p, b), f) == OptionBelow(p, Row(l, b, f))
    decreases f, 0
  {
    GridUnder(p, cell.mine, b[1..], f - 1);
    RowStepUnder(p, l, b, f, cell, Grid(cell.mine, b[1..], f - 1));
  }

  lemma RowStepUnder(p: seq<Key>, l: Leaf, b: seq<Leaf>, f: nat, cell: Crossed, rest: Option<Crossed>)
    requires f > 0 && b != [] && Cell(l, b[0]) == Some(cell)
    requires Cell(Below(p, l), Below(p, b[0])) == Some(CrossedBelow(p, cell))
    requires Grid(cell.mine, b[1..], f - 1) == rest
    requires Grid(Deeper(p, cell.mine), Deeper(p, b[1..]), f - 1) == OptionBelow(p, rest)
    ensures Row(Below(p, l), Deeper(p, b), f) == OptionBelow(p, Row(l, b, f))
  {
    assert Deeper(p, b)[0] == Below(p, b[0]) && Deeper(p, b)[1..] == Deeper(p, b[1..]);
    if rest.Some? {
      DeeperConcat(p, cell.theirs, rest.value.theirs);
    }
  }

  lemma CrossesUnder(p: seq<Key>, a: seq<Leaf>, b: seq<Leaf>, x: Crossed)
    requires AllBasic(a) && AllBasic(b) && Crosses(a, b, x)
    ensures Crosses(Deeper(p, a), Deeper(p, b), CrossedBelow(p, x))
  {
    var f :| Grid(a, b, f) == Some(x);
    GridUnder(p, a, b, f);
  }

  // ----- paths that branch off -----

  lemma ApartBelow(p: seq<Key>, q: seq<Key>, x: seq<Key>, y: seq<Key>)
    requires var n := CommonPrefixLen(p, q); n < |p| && n < |q|
    ensures CommonPrefixLen(p + x, q + y) == CommonPrefixLen(p, q)
  {
    var n := CommonPrefixLen(p, q);
    assert (p + x)[..n] == p[..n] && (q + y)[..n] == q[..n];
    CommonPrefixIs(p + x, q + y, n);
  }

  lemma {:induction false} RowApart(p: seq<Key>, q: seq<Key>, l: Leaf, b: seq<Leaf>)
    requires var n := CommonPrefixLen(p, q); n < |p| && n < |q|
    requires IsBasic(l.change) && AllBasic(b)
    ensures Crosses([Below(p, l)], Deeper(q, b), Crossed(Deeper(q, b), [Below(p, l)]))
    decreases |b|
  {
    var l1 := Below(p, l);
    if b == [] {
      CrossNone([l1]);
    } else {
      var m1 := Below(q, b[0]);
      ApartBelow(p, q, l.path, b[0].path);
      CellApart(l1, m1);
      CellCrosses(l1, m1);
      RowApart(p, q, l, b[1..]);
      CrossColumns([l1], [m1], Deeper(q, b[1..]), Crossed([m1], [l1]), Crossed(Deeper(q, b[1..]), [l1]));
    }
  }

  /** Changes at paths that branch off pass each other. */
  lemma {:induction false} ApartCross(p: seq<Key>, q: seq<Key>, a: seq<Leaf>, b: seq<Leaf>)
    requires var n := CommonPrefixLen(p, q); n < |p| && n < |q|
    requires AllBasic(a) && AllBasic(b)
    ensures Crosses(Deeper(p, a), Deeper(q, b), Crossed(Deeper(q, b), Deeper(p, a)))
    decreases |a|
  {
    if a == [] {
      NoneCross(Deeper(q, b));
    } else {
      RowApart(p, q, a[0], b);
      ApartCross(p, q, a[1..], b);
      CrossRows([Below(p, a[0])], Deeper(p, a[1..]), Deeper(q, b),
                Crossed(Deeper(q, b), [Below(p, a[0])]), Crossed(Deeper(q, b), Deeper(p, a[1..])));
    }
  }

  // ----- a basic change above other changes -----

  /** What l at the end of p and the leaves below p become, one leaf after another. */
  datatype Passage = Passage(l: Change, leaves: seq<Leaf>)

  function Through(p: seq<Key>, l: Change, ls: seq<Leaf>): Option<Passage>
    requires IsBasic(l)
    decreases |ls|
  {
    if ls == [] then Some(Passage(l, []))
    else if ls[0].path == [] then None
    else
      var m := MergeSubPath(p, l, p + ls[0].path, ls[0].change, false, 1);
      if !m.Done? || !m.cx.PathChange? || m.cx.path != p || !IsBasic(m.cx.inner) then None
      else
        var rest :- Through(p, m.cx.inner, ls[1..]);
        Some(Passage(rest.l, Leaves(m.otherx) + rest.leaves))
  }

  /** Whichever side is the receiver. */
  lemma {:induction false} ThroughCrosses(p: seq<Key>, l: Change, ls: seq<Leaf>)
    requires IsBasic(l) && AllBasic(ls) && Through(p, l, ls).Some?
    ensures var t := Through(p, l, ls).value;
            && Crosses([Leaf(p, l)], Deeper(p, ls), Crossed(t.leaves, [Leaf(p, t.l)]))
            && Crosses(Deeper(p, ls), [Leaf(p, l)], Crossed([Leaf(p, t.l)], t.leaves))
    decreases |ls|
  {
    if ls == [] {
      CrossNone([Leaf(p, l)]);
      NoneCross([Leaf(p, l)]);
    } else {
      var x, c, m := ls[0].path, ls[0].change, MergeSubPath(p, l, p + ls[0].path, ls[0].change, false, 1);
      var above, below, l1 := Leaf(p, l), Leaf(p + x, c), m.cx.inner;
      var rest := Through(p, l1, ls[1..]).value;
      CellAbove(p, l, x, c);
      LeavesAt(p, l1);
      CellCrosses(above, below);
      CellCrosses(below, above);
      ThroughCrosses(p, l1, ls[1..]);
      var first, last := Leaves(m.otherx), Leaf(p, rest.l);
      CrossColumns([above], [below], Deeper(p, ls[1..]), Crossed(first, [Leaf(p, l1)]), Crossed(rest.leaves, [last]));
      CrossRows([below], Deeper(p, ls[1..]), [above], Crossed([Leaf(p, l1)], first), Crossed([last], rest.leaves));
    }
  }

  lemma ThroughCons(p: seq<Key>, l: Change, x: seq<Key>, c: Change, ls: seq<Leaf>, l1: Change, other: Change,
                    rest: Passage)
    requires IsBasic(l) && IsBasic(l1) && x != []
    requires MergeSubPath(p, l, p + x, c, false, 1) == Done(other, PathChange(p, l1))
    requires Through(p, l1, ls) == Some(rest)
    ensures Through(p, l, [Leaf(x, c)] + ls) == Some(Passage(rest.l, Leaves(other) + rest.leaves))
  {
    assert ([Leaf(x, c)] + ls)[1..] == ls;
  }

  lemma {:induction false} ThroughReplace(p: seq<Key>, before: Value, after: Value, sub: seq<Key>, ls: seq<Leaf>)
    requires sub != [] && ApplyLeaves(before, Deeper(sub, ls)).Some?
    ensures Through(p, Replace(before, after), Deeper(sub, ls))
         == Some(Passage(Replace(ApplyLeaves(before, Deeper(sub, ls)).value, after), []))
    decreases |ls|
  {
    if ls != [] {
      var x, c := sub + ls[0].path, ls[0].change;
      var b := ApplyAt(before, x, c).value;
      assert (p + x)[|p|..] == x;
      ThroughReplace(p, b, after, sub, ls[1..]);
      var rest := Through(p, Replace(b, after), Deeper(sub, ls[1..])).value;
      ThroughCons(p, Replace(before, after), x, c, Deeper(sub, ls[1..]), Replace(b, after), Noop, rest);
      assert Leaves(Noop) + rest.leaves == [];
    }
  }

  /** One change inside an element that the splice replaces. */
  lemma SpliceTakes(p: seq<Key>, s: Splice<Value>, x: seq<Key>, c: Change, y: seq<Key>)
    requires x != [] && x[0].Index? && s.offset <= x[0].i < s.offset + |s.before|
    requires y == x[0 := Index(x[0].i - s.offset)] && ApplyAt(Val(Arr(s.before)), y, c).Some?
    ensures var b := ApplyAt(Val(Arr(s.before)), y, c).value;
            && IsArr(b) && |b.node.items| == |s.before|
            && MergeSubPath(p, SpliceIn(s), p + x, c, false, 1) ==
               Done(Noop, PathChange(p, SpliceIn(s.(before := b.node.items))))
  {
    assert (p + x)[|p|..] == x;
    Convergence.ElementChange(s.before, y, c);
  }

  lemma {:induction false} ThroughSplice(p: seq<Key>, s: Splice<Value>, sub: seq<Key>, ls: seq<Leaf>, inner: seq<Key>)
    requires sub != [] && sub[0].Index? && s.offset <= sub[0].i < s.offset + |s.before|
    requires inner == sub[0 := Index(sub[0].i - s.offset)] && ApplyLeaves(Val(Arr(s.before)), Deeper(inner, ls)).Some?
    ensures var b := ApplyLeaves(Val(Arr(s.before)), Deeper(inner, ls)).value;
            && IsArr(b)
            && Through(p, SpliceIn(s), Deeper(sub, ls)) == Some(Passage(SpliceIn(s.(before := b.node.items)), []))
    decreases |ls|
  {
    if ls != [] {
      var x, y, c := sub + ls[0].path, inner + ls[0].path, ls[0].change;
      assert y == x[0 := Index(x[0].i - s.offset)];
      SpliceTakes(p, s, x, c, y);
      var s1 := s.(before := ApplyAt(Val(Arr(s.before)), y, c).value.node.items);
      ThroughSplice(p, s1, sub, ls[1..], inner);
      var rest := Through(p, SpliceIn(s1), Deeper(sub, ls[1..])).value;
      ThroughCons(p, SpliceIn(s), x, c, Deeper(sub, ls[1..]), SpliceIn(s1), Noop, rest);
      assert Leaves(Noop) + rest.leaves == [];
    }
  }

  lemma {:induction false} ThroughBeside(p: seq<Key>, l: Change, sub: seq<Key>, ls: seq<Leaf>, j: int)
    requires IsBasic(l) && AllBasic(ls) && sub != [] && sub[0].Index? && MovesElement(l, sub[0].i, j)
    ensures Through(p, l, Deeper(sub, ls)) == Some(Passage(l, Deeper(p + sub[0 := Index(j)], ls)))
    decreases |ls|
  {
    if ls != [] {
      var x, c, to := sub + ls[0].path, ls[0].change, p + sub[0 := Index(j)];
      assert p + x[0 := Index(j)] == to + ls[0].path;
      PassesElement(p, l, x, c, j, false, 1);
      LeavesAt(to + ls[0].path, c);
      ThroughBeside(p, l, sub, ls[1..], j);
      ThroughCons(p, l, x, c, Deeper(sub, ls[1..]), l, PathChange(to + ls[0].path, c), Passage(l, Deeper(to, ls[1..])));
    }
  }

  // ----- every merge gives the outcome of the grid -----

  /** A merge of l and r gives the outcome of the grid; with reverse, r is the receiver. */
  ghost predicate Walks(l: seq<Leaf>, r: seq<Leaf>, reverse: bool, m: Merged) {
    m.Done? ==>
      if reverse then Crosses(r, l, Crossed(Leaves(m.cx), Leaves(m.otherx)))
      else Crosses(l, r, Crossed(Leaves(m.otherx), Leaves(m.cx)))
  }

  lemma WalksSwapped(l: seq<Leaf>, r: seq<Leaf>, reverse: bool, m: Merged)
    requires Walks(l, r, reverse, m)
    ensures Walks(r, l, !reverse, m.Swap())
  {
  }

  lemma BasicWalks(a: Change, b: Change)
    requires IsBasic(a) && IsBasic(b)
    ensures Walks(Leaves(a), Leaves(b), false, MergeBasic(a, b))
  {
    var m := MergeBasic(a, b);
    var l, r := Leaf([], a), Leaf([], b);
    assert MergeUnder([], a, b, false, 1) == Wrap([], m);
    if m.Done? {
      DeeperNowhere(Leaves(m.otherx));
      DeeperNowhere(Leaves(m.cx));
      CellCrosses(l, r);
    }
  }

  lemma {:induction false} MergeWalks(a: Change, b: Change, fuel: nat)
    ensures Walks(Leaves(a), Leaves(b), false, Merge(a, b, fuel))
    decreases fuel, 0
  {
    if fuel == 0 {
    } else if a.Noop? {
      NoneCross(Leaves(b));
    } else if a.ChangeSet? {
      EachWalks(a.changes, b, fuel - 1);
      var w := MergeEach(a.changes, b, fuel - 1);
      if w.Walked? {
        SimplifySetKeepsLeaves(w.results);
      }
    } else if a.PathChange? {
      PathsOf(b);
      PathsWalk(a.path, a.inner, PathOf(b), InnerOf(b), false, fuel - 1);
    } else if b.Noop? {
      CrossNone(Leaves(a));
    } else if b.IsComposite() {
      ReverseMergeWalks(b, a, fuel - 1);
      WalksSwapped(Leaves(b), Leaves(a), true, ReverseMerge(b, a, fuel - 1));
    } else {
      BasicWalks(a, b);
    }
  }

  lemma {:induction false} ReverseMergeWalks(a: Change, b: Change, fuel: nat)
    requires a.IsComposite()
    ensures Walks(Leaves(a), Leaves(b), true, ReverseMerge(a, b, fuel))
    decreases fuel, 0
  {
    if fuel == 0 {
    } else if a.ChangeSet? {
      ReverseEachWalks(a.changes, b, fuel - 1);
      var w := ReverseMergeEach(a.changes, b, fuel - 1);
      if w.Walked? {
        SimplifySetKeepsLeaves(w.results);
      }
    } else {
      PathsOf(b);
      PathsWalk(a.path, a.inner, PathOf(b), InnerOf(b), true, fuel - 1);
    }
  }

  lemma PathsOf(b: Change)
    ensures Leaves(b) == Deeper(PathOf(b), Leaves(InnerOf(b)))
  {
    if !b.PathChange? {
      DeeperNowhere(Leaves(b));
    }
  }

  /** ChangeSet.Merge goes through the grid row by row. */
  lemma {:induction false} EachWalks(cs: seq<Change>, other: Change, fuel: nat)
    ensures var w := MergeEach(cs, other, fuel);
            w.Walked? ==> Crosses(LeavesOf(cs), Leaves(other), Crossed(Leaves(w.other), LeavesOf(w.results)))
    decreases fuel, 1, |cs|
  {
    if cs == [] {
      NoneCross(Leaves(other));
    } else if MergeEach(cs, other, fuel).Walked? {
      var m := Merge(cs[0], other, fuel);
      var rest := MergeEach(cs[1..], m.otherx, fuel);
      MergeWalks(cs[0], other, fuel);
      EachWalks(cs[1..], m.otherx, fuel);
      CrossRows(Leaves(cs[0]), LeavesOf(cs[1..]), Leaves(other),
                Crossed(Leaves(m.otherx), Leaves(m.cx)), Crossed(Leaves(rest.other), LeavesOf(rest.results)));
      assert ([m.cx] + rest.results)[1..] == rest.results;
    }
  }

  /** ChangeSet.ReverseMerge goes through it column by column. */
  lemma {:induction false} ReverseEachWalks(cs: seq<Change>, other: Change, fuel: nat)
    ensures var w := ReverseMergeEach(cs, other, fuel);
            w.Walked? ==> Crosses(Leaves(other), LeavesOf(cs), Crossed(LeavesOf(w.results), Leaves(w.other)))
    decreases fuel, 1, |cs|
  {
    if cs == [] {
      CrossNone(Leaves(other));
    } else if ReverseMergeEach(cs, other, fuel).Walked? {
      var m := Merge(other, cs[0], fuel);
      var rest := ReverseMergeEach(cs[1..], m.cx, fuel);
      MergeWalks(other, cs[0], fuel);
      ReverseEachWalks(cs[1..], m.cx, fuel);
      CrossColumns(Leaves(other), Leaves(cs[0]), LeavesOf(cs[1..]),
                   Crossed(Leaves(m.otherx), Leaves(m.cx)), Crossed(LeavesOf(rest.results), Leaves(rest.other)));
      assert ([m.otherx] + rest.results)[1..] == rest.results;
    }
  }

  lemma {:induction false} PathsWalk(p: seq<Key>, l: Change, q: seq<Key>, r: Change, reverse: bool, fuel: nat)
    ensures Walks(Deeper(p, Leaves(l)), Deeper(q, Leaves(r)), reverse, MergePaths(p, l, q, r, reverse, fuel))
    decreases fuel, 5
  {
    var n := CommonPrefixLen(p, q);
    var left, right := Deeper(p, Leaves(l)), Deeper(q, Leaves(r));
    LeavesBasic(l);
    LeavesBasic(r);
    if |p| != n && |q| != n {
      if reverse {
        CommonPrefixIs(q, p, n);
        ApartCross(q, p, Leaves(r), Leaves(l));
      } else {
        ApartCross(p, q, Leaves(l), Leaves(r));
      }
    } else if |p| == n && |q| == n {
      assert p == p[..n] && q == q[..n];
      UnderWalks(p, l, r, reverse, fuel);
    } else if |p| == n {
      assert p == p[..n];
      SubPathWalks(p, l, q, r, reverse, fuel);
    } else {
      assert q == q[..n];
      SubPathWalks(q, r, p, l, !reverse, fuel);
      WalksSwapped(right, left, !reverse, MergeSubPath(q, r, p, l, !reverse, fuel));
    }
  }

  lemma WrapWalks(prefix: seq<Key>, l: Change, r: Change, reverse: bool, m: Merged)
    requires Walks(Leaves(l), Leaves(r), reverse, m)
    ensures Walks(Deeper(prefix, Leaves(l)), Deeper(prefix, Leaves(r)), reverse, Wrap(prefix, m))
  {
    LeavesBasic(l);
    LeavesBasic(r);
    if m.Done? {
      if reverse {
        CrossesUnder(prefix, Leaves(r), Leaves(l), Crossed(Leaves(m.cx), Leaves(m.otherx)));
      } else {
        CrossesUnder(prefix, Leaves(l), Leaves(r), Crossed(Leaves(m.otherx), Leaves(m.cx)));
      }
    }
  }

  lemma {:induction false} UnderWalks(prefix: seq<Key>, l: Change, r: Change, reverse: bool, fuel: nat)
    ensures Walks(Deeper(prefix, Leaves(l)), Deeper(prefix, Leaves(r)), reverse,
                  MergeUnder(prefix, l, r, reverse, fuel))
    decreases fuel, 3
  {
    if reverse && l.IsComposite() {
      ReverseMergeWalks(l, r, fuel);
      WrapWalks(prefix, l, r, reverse, ReverseMerge(l, r, fuel));
    } else if reverse && !r.Noop? {
      MergeWalks(r, l, fuel);
      WalksSwapped(Leaves(r), Leaves(l), false, Merge(r, l, fuel));
      WrapWalks(prefix, l, r, reverse, Merge(r, l, fuel).Swap());
    } else if !l.Noop? {
      // with reverse, r is nil here
      MergeWalks(l, r, fuel);
      NilWalks(l, r, reverse, fuel);
      WrapWalks(prefix, l, r, reverse, Merge(l, r, fuel));
    } else if !reverse {
      NoneCross(Leaves(r));
      WrapWalks(prefix, l, r, reverse, Done(r, l));
    } else {
      NoneCross(Leaves(l));
      WrapWalks(prefix, l, r, reverse, Done(l, r));
    }
  }

  lemma NilWalks(l: Change, r: Change, reverse: bool, fuel: nat)
    requires Walks(Leaves(l), Leaves(r), false, Merge(l, r, fuel))
    requires reverse ==> r.Noop? && !l.IsComposite() && !l.Noop?
    ensures Walks(Leaves(l), Leaves(r), reverse, Merge(l, r, fuel))
  {
    if reverse {
      NoneCross(Leaves(l));
    }
  }

  lemma {:induction false} SubPathWalks(p: seq<Key>, l: Change, q: seq<Key>, r: Change, reverse: bool, fuel: nat)
    requires |p| < |q| && q[..|p|] == p
    ensures Walks(Deeper(p, Leaves(l)), Deeper(q, Leaves(r)), reverse, MergeSubPath(p, l, q, r, reverse, fuel))
    decreases fuel, 4
  {
    var sub := q[|p|..];
    assert q == p + sub;
    DeeperTwice(p, sub, Leaves(r));
    if l.Noop? {
      NoneCross(Deeper(q, Leaves(r)));
      CrossNone(Deeper(q, Leaves(r)));
    } else if l.IsComposite() {
      UnderWalks(p, l, PathChange(sub, r), reverse, fuel);
    } else {
      AboveWalks(p, l, sub, r, reverse, fuel);
    }
  }

  /** A basic change above any other change. */
  lemma AboveWalks(p: seq<Key>, l: Change, sub: seq<Key>, r: Change, reverse: bool, fuel: nat)
    requires IsBasic(l) && sub != []
    ensures Walks(Deeper(p, Leaves(l)), Deeper(p + sub, Leaves(r)), reverse,
                  MergeSubPath(p, l, p + sub, r, reverse, fuel))
  {
    var m := MergeSubPath(p, l, p + sub, r, reverse, fuel);
    if m.Done? {
      var ls := Deeper(sub, Leaves(r));
      AbovePasses(p, l, sub, r, reverse, fuel);
      LeavesBasic(r);
      DeeperBasic(sub, Leaves(r));
      ThroughCrosses(p, l, ls);
      LeavesAt(p, l);
      LeavesAt(p, m.cx.inner);
      DeeperTwice(p, sub, Leaves(r));
    }
  }

  lemma AbovePasses(p: seq<Key>, l: Change, sub: seq<Key>, r: Change, reverse: bool, fuel: nat)
    requires IsBasic(l) && sub != [] && MergeSubPath(p, l, p + sub, r, reverse, fuel).Done?
    ensures var m := MergeSubPath(p, l, p + sub, r, reverse, fuel);
            && m.cx.PathChange? && m.cx.path == p && IsBasic(m.cx.inner)
            && Through(p, l, Deeper(sub, Leaves(r))) == Some(Passage(m.cx.inner, Leaves(m.otherx)))
  {
    assert (p + sub)[|p|..] == sub;
    if l.Replace? {
      EffectBelow(l.before, sub, r);
      ThroughReplace(p, l.before, l.after, sub, Leaves(r));
    } else {
      var i := sub[0].i;
      if l.SpliceIn? && l.splice.MapIndex(i).None? {
        var inner := sub[0 := Index(i - l.splice.offset)];
        EffectBelow(Val(Arr(l.splice.before)), inner, r);
        ThroughSplice(p, l.splice, sub, Leaves(r), inner);
      } else {
        var j := if l.SpliceIn? then l.splice.MapIndex(i).value else l.move.MapIndex(i);
        LeavesBasic(r);
        PassesElement(p, l, sub, r, j, reverse, fuel);
        ThroughBeside(p, l, sub, Leaves(r), j);
      }
    }
  }

  lemma EffectBelow(v: Value, sub: seq<Key>, r: Change)
    requires ApplyAt(v, sub, r).Some?
    ensures ApplyLeaves(v, Deeper(sub, Leaves(r))) == ApplyAt(v, sub, r)
  {
    LeavesApply(v, PathChange(sub, r));
  }

  /** b.ReverseMerge(a) is a.Merge(b) with the results exchanged, up to dropped nils and nesting. */
  lemma ReverseMergeIsMerge(a: Change, b: Change, f: nat, g: nat)
    requires b.IsComposite() && Merge(a, b, f).Done? && ReverseMerge(b, a, g).Done?
    ensures var forth, back := Merge(a, b, f), ReverseMerge(b, a, g);
            Leaves(forth.cx) == Leaves(back.otherx) && Leaves(forth.otherx) == Leaves(back.cx)
  {
    MergeWalks(a, b, f);
    ReverseMergeWalks(b, a, g);
    var forth, back := Merge(a, b, f), ReverseMerge(b, a, g);
    CrossesOnce(Leaves(a), Leaves(b), Crossed(Leaves(forth.otherx), Leaves(forth.cx)),
                Crossed(Leaves(back.cx), Leaves(back.otherx)));
  }

  /** How the two sides are nested into sets does not matter for what merging them gives. */
  lemma NestingIsIrrelevant(a: Change, b: Change, a': Change, b': Change, f: nat, g: nat)
    requires Leaves(a) == Leaves(a') && Leaves(b) == Leaves(b') && Merge(a, b, f).Done? && Merge(a', b', g).Done?
    ensures var one, two := Merge(a, b, f), Merge(a', b', g);
            Leaves(one.cx) == Leaves(two.cx) && Leaves(one.otherx) == Leaves(two.otherx)
  {
    MergeWalks(a, b, f);
    MergeWalks(a', b', g);
    var one, two := Merge(a, b, f), Merge(a', b', g);
    CrossesOnce(Leaves(a), Leaves(b), Crossed(Leaves(one.otherx), Leaves(one.cx)),
                Crossed(Leaves(two.otherx), Leaves(two.cx)));
  }
}

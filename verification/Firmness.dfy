/** Merging always returns when the basic changes of one side are firm against those of the other: no
    merge ever splits them. The other side may come apart as often as it likes. */
module Firmness {
  import opened Options
  import opened Moves
  import opened Splices
  import opened SpliceMoves
  import opened Changes
  import opened Merging
  import opened Convergence
  import opened Flattening
  import opened Grids
  import opened GridCells
  import opened Symmetry
  import opened Completion

  /** What the firm side does and what the other side may do.
      Text: both replace and splice. Reorder: both replace and move single elements.
      Insert: one replaces and inserts, the other does anything at all.
      Arrange: one replaces, inserts and moves single elements, the other replaces, deletes and moves. */
  datatype Kind = Text | Reorder | Insert | Arrange {

    predicate Firm(c: Change) {
      match c
      case Replace(_, _) => true
      case SpliceIn(s) => Text? || ((Insert? || Arrange?) && s.before == [])
      case MoveBy(m) => (Reorder? || Arrange?) && m.count <= 1
      case _ => false
    }

    predicate Free(c: Change) {
      match c
      case Replace(_, _) => true
      case SpliceIn(s) => Text? || Insert? || (Arrange? && s.after == [])
      case MoveBy(m) => Insert? || Arrange? || (Reorder? && m.count <= 1)
      case _ => false
    }

    predicate Has(firm: bool, c: Change) { if firm then Firm(c) else Free(c) }

    predicate AllHave(firm: bool, ls: seq<Leaf>) { ls != [] ==> Has(firm, ls[0].change) && AllHave(firm, ls[1..]) }

    /** All basic changes of c are of this kind. */
    predicate Holds(firm: bool, c: Change) { AllHave(firm, Leaves(c)) }
  }

  lemma {:induction false} AllHaveConcat(k: Kind, firm: bool, ls: seq<Leaf>, ms: seq<Leaf>)
    ensures k.AllHave(firm, ls + ms) <==> k.AllHave(firm, ls) && k.AllHave(firm, ms)
    decreases |ls|
  {
    if ls == [] {
      assert ls + ms == ms;
    } else {
      assert (ls + ms)[1..] == ls[1..] + ms;
      AllHaveConcat(k, firm, ls[1..], ms);
    }
  }

  lemma {:induction false} AllHaveDeeper(k: Kind, firm: bool, q: seq<Key>, ls: seq<Leaf>)
    ensures k.AllHave(firm, Deeper(q, ls)) <==> k.AllHave(firm, ls)
    decreases |ls|
  {
    if ls != [] {
      AllHaveDeeper(k, firm, q, ls[1..]);
    }
  }

  // ----- one pair -----

  /** What a basic change became: firm ones stay in one piece. */
  predicate Stays(k: Kind, firm: bool, ls: seq<Leaf>) { k.AllHave(firm, ls) && (firm ==> |ls| <= 1) }

  predicate PairStays(k: Kind, firm: bool, m: Merged) {
    m.Done? && Stays(k, firm, Leaves(m.cx)) && Stays(k, !firm, Leaves(m.otherx))
  }

  lemma OneLeaf(k: Kind, firm: bool, c: Change)
    requires c.Noop? || k.Has(firm, c)
    ensures Stays(k, firm, Leaves(c))
  {
    assert [Leaf([], c)][1..] == [];
  }

  /** The moves that do something, as leaves. */
  function MoveLeaves(ms: seq<Move>): seq<Leaf> {
    if ms == [] then [] else (if ms[0].IsNoop() then [] else [Leaf([], MoveBy(ms[0]))]) + MoveLeaves(ms[1..])
  }

  lemma {:induction false} RealMovesLeaves(ms: seq<Move>)
    ensures LeavesOf(RealMoves(ms)) == MoveLeaves(ms)
    decreases |ms|
  {
    if ms != [] {
      RealMovesLeaves(ms[1..]);
      LeavesOfConcat(if ms[0].IsNoop() then [] else [MoveBy(ms[0])], RealMoves(ms[1..]));
      LeavesOfOne(MoveBy(ms[0]));
    }
  }

  lemma {:induction false} NilLeaves(n: nat)
    ensures LeavesOf(seq(n, _ => Noop)) == []
    decreases n
  {
    if n > 0 {
      assert seq(n, _ => Noop)[1..] == seq(n - 1, _ => Noop);
      NilLeaves(n - 1);
    }
  }

  lemma MovesToChangeLeaves(ms: seq<Move>)
    ensures Leaves(MovesToChange(ms)) == MoveLeaves(ms)
  {
    var nils := seq(|ms|, _ => Noop);
    var result := nils + RealMoves(ms);
    NilLeaves(|ms|);
    RealMovesLeaves(ms);
    LeavesOfConcat(nils, RealMoves(ms));
    if |result| == 1 {
      assert result == [result[0]];
      LeavesOfOne(result[0]);
    }
  }

  /** Moves of which one side moves single elements: neither comes apart. */
  lemma MovesStay(m: Move, o: Move)
    requires m.count >= 0 && o.count >= 0 && (m.count <= 1 || o.count <= 1)
    ensures var p := MergeMoves(m, o);
            && |p.mine| <= 1 && (m.count <= 1 && p.mine != [] ==> p.mine[0].count <= 1)
            && |p.theirs| <= 1 && (o.count <= 1 && p.theirs != [] ==> p.theirs[0].count <= 1)
  {
  }

  lemma MovesKept(k: Kind, firm: bool, m: Move, o: Move)
    requires m.count >= 0 && o.count >= 0 && k.Has(firm, MoveBy(m)) && k.Has(!firm, MoveBy(o))
    ensures PairStays(k, firm, MergeBasic(MoveBy(m), MoveBy(o)))
  {
    MovesStay(m, o);
    var p := MergeMoves(m, o);
    MovesToChangeLeaves(p.mine);
    MovesToChangeLeaves(p.theirs);
    OneMoveLeaves(p.mine);
    OneMoveLeaves(p.theirs);
  }

  lemma OneMoveLeaves(ms: seq<Move>)
    requires |ms| <= 1
    ensures MoveLeaves(ms) == if ms == [] || ms[0].IsNoop() then [] else [Leaf([], MoveBy(ms[0]))]
  {
    assert ms != [] ==> ms[1..] == [];
  }

  lemma InsertionStays(s: Splice<Value>, o: Move)
    requires s.before == [] && o.count >= 0
    ensures var p := MergeSpliceMove(s, o);
            && |p.mine| == 1 && p.mine[0].BySplice? && p.mine[0].splice.before == []
            && (p.theirs.Some? && p.theirs.value.BySplice? ==> p.theirs.value.splice.after == [])
  {
  }

  lemma DeletionStays(s: Splice<Value>, o: Move)
    requires s.after == [] && 0 <= o.count <= 1
    ensures var p := MergeSpliceMove(s, o);
            && 1 <= |p.mine| <= 2 && p.mine[0].BySplice? && p.mine[0].splice.after == []
            && (|p.mine| == 2 ==> p.mine[1].BySplice? && p.mine[1].splice.after == [])
            && (p.theirs.Some? ==>
                  match p.theirs.value
                  case ByMove(m) => m.count <= 1
                  case BySplice(c) => c.before == [])
  {
  }

  /** A splice against a move. */
  lemma SpliceMoveKept(k: Kind, firm: bool, s: Splice<Value>, o: Move)
    requires o.count >= 0 && k.Has(firm, SpliceIn(s)) && k.Has(!firm, MoveBy(o))
    ensures PairStays(k, firm, SpliceMerged(s, o))
  {
    var p := MergeSpliceMove(s, o);
    if firm {
      InsertionStays(s, o);
      assert p.theirs.Some? ==> k.Free(EditToChange(p.theirs.value));
      OneLeaf(k, true, EditToChange(p.mine[0]));
    } else {
      DeletionOrAny(k, s, o);
    }
    OneLeaf(k, !firm, if p.theirs.None? then Noop else EditToChange(p.theirs.value));
  }

  lemma DeletionOrAny(k: Kind, s: Splice<Value>, o: Move)
    requires k.Free(SpliceIn(s)) && k.Firm(MoveBy(o)) && o.count >= 0
    ensures var p := MergeSpliceMove(s, o);
            && k.AllHave(false, Leaves(if |p.mine| == 1 then EditToChange(p.mine[0])
                                       else ChangeSet(EditsToChanges(p.mine))))
            && (p.theirs.Some? ==> k.Firm(EditToChange(p.theirs.value)))
  {
    DeletionStays(s, o);
    var p := MergeSpliceMove(s, o);
    OneLeaf(k, false, EditToChange(p.mine[0]));
    if |p.mine| == 2 {
      var c, d := EditToChange(p.mine[0]), EditToChange(p.mine[1]);
      OneLeaf(k, false, d);
      TwoEdits(p.mine);
      LeavesOfConcat([c], [d]);
      LeavesOfOne(c);
      LeavesOfOne(d);
      AllHaveConcat(k, false, Leaves(c), Leaves(d));
    }
  }

  lemma TwoEdits(es: seq<Edit<Value>>)
    requires |es| == 2
    ensures EditsToChanges(es) == [EditToChange(es[0])] + [EditToChange(es[1])]
  {
    assert EditsToChanges(es[1..]) == [EditToChange(es[1])] + EditsToChanges(es[1..][1..]);
    assert es[1..][1..] == [] && EditsToChanges([]) == [];
  }

  lemma SplicesKept(k: Kind, firm: bool, s: Splice<Value>, o: Splice<Value>)
    requires k.Has(firm, SpliceIn(s)) && k.Has(!firm, SpliceIn(o))
    ensures PairStays(k, firm, MergeBasic(SpliceIn(s), SpliceIn(o)))
  {
    var p := MergeSplices(s, o);
    assert p.mine.Some? ==> k.Has(firm, SpliceIn(p.mine.value));
    assert p.theirs.Some? ==> k.Has(!firm, SpliceIn(p.theirs.value));
    OneLeaf(k, firm, MaybeSplice(p.mine));
    OneLeaf(k, !firm, MaybeSplice(p.theirs));
  }

  lemma SwapStays(k: Kind, firm: bool, m: Merged)
    requires PairStays(k, firm, m)
    ensures PairStays(k, !firm, m.Swap())
  {
  }

  lemma BasicKept(v: Value, k: Kind, firm: bool, a: Change, b: Change)
    requires Apply(v, a).Some? && Apply(v, b).Some? && k.Has(firm, a) && k.Has(!firm, b)
    ensures PairStays(k, firm, MergeBasic(a, b))
  {
    BasicConverges(v, a, b);
    if a.Replace? || b.Replace? {
      OneLeaf(k, firm, MergeBasic(a, b).cx);
      OneLeaf(k, !firm, MergeBasic(a, b).otherx);
    } else if a.SpliceIn? && b.SpliceIn? {
      SplicesKept(k, firm, a.splice, b.splice);
    } else if a.SpliceIn? {
      SpliceMoveKept(k, firm, a.splice, b.move);
    } else if b.SpliceIn? {
      SpliceMoveKept(k, !firm, b.splice, a.move);
      SwapStays(k, !firm, SpliceMerged(b.splice, a.move));
    } else {
      MovesKept(k, firm, a.move, b.move);
    }
  }

  lemma AboveShape(k: Kind, firm: bool, p: seq<Key>, l: Change, q: seq<Key>, r: Change, reverse: bool)
    requires |p| < |q| && IsBasic(l) && k.Has(firm, l) && MergeSubPath(p, l, q, r, reverse, 1).Done?
    ensures var m := MergeSubPath(p, l, q, r, reverse, 1);
            && m.cx.PathChange? && m.cx.path == p && k.Has(firm, m.cx.inner)
            && (m.otherx.Noop? || (m.otherx.PathChange? && m.otherx.inner == r))
  {
    if l.SpliceIn? {
    } else if l.MoveBy? {
    }
  }

  /** A basic change above another one: both stay what they are. */
  lemma AboveKept(v: Value, k: Kind, firm: bool, p: seq<Key>, l: Change, q: seq<Key>, r: Change, reverse: bool)
    requires |p| < |q| && q[..|p|] == p && k.Has(firm, l) && k.Has(!firm, r)
    requires ApplyAt(v, p, l).Some? && ApplyAt(v, q, r).Some?
    ensures PairStays(k, firm, MergeSubPath(p, l, q, r, reverse, 1))
  {
    var m := MergeSubPath(p, l, q, r, reverse, 1);
    MergeSubPathConverges(v, p, l, q, r, reverse, 1);
    AboveShape(k, firm, p, l, q, r, reverse);
    LeavesAt(p, m.cx.inner);
    if m.otherx.PathChange? {
      LeavesAt(m.otherx.path, r);
    }
  }

  /** The pair of leaves: it merges, stays of its kind, and each side applies after the other. */
  ghost predicate CellKeeps(v: Value, k: Kind, firm: bool, l: Leaf, m: Leaf)
    requires ApplyAt(v, l.path, l.change).Some? && ApplyAt(v, m.path, m.change).Some?
  {
    var x := Cell(l, m);
    && x.Some? && Stays(k, firm, x.value.mine) && Stays(k, !firm, x.value.theirs)
    && ApplyLeaves(ApplyAt(v, l.path, l.change).value, x.value.theirs).Some?
    && ApplyLeaves(ApplyAt(v, l.path, l.change).value, x.value.theirs)
    == ApplyLeaves(ApplyAt(v, m.path, m.change).value, x.value.mine)
  }

  lemma CellKept(v: Value, k: Kind, firm: bool, l: Leaf, m: Leaf)
    requires k.Has(firm, l.change) && k.Has(!firm, m.change)
    requires ApplyAt(v, l.path, l.change).Some? && ApplyAt(v, m.path, m.change).Some?
    ensures CellKeeps(v, k, firm, l, m)
  {
    var r := MergePaths(l.path, l.change, m.path, m.change, false, 1);
    PathsKept(v, k, firm, l, m);
    MergePathsConverges(v, l.path, l.change, m.path, m.change, false, 1);
    LeavesApply(ApplyAt(v, l.path, l.change).value, r.otherx);
    LeavesApply(ApplyAt(v, m.path, m.change).value, r.cx);
  }

  lemma PathsKept(v: Value, k: Kind, firm: bool, l: Leaf, m: Leaf)
    requires k.Has(firm, l.change) && k.Has(!firm, m.change)
    requires ApplyAt(v, l.path, l.change).Some? && ApplyAt(v, m.path, m.change).Some?
    ensures PairStays(k, firm, MergePaths(l.path, l.change, m.path, m.change, false, 1))
  {
    var p, q := l.path, m.path;
    var n := CommonPrefixLen(p, q);
    if |p| != n && |q| != n {
      LeavesAt(p, l.change);
      LeavesAt(q, m.change);
    } else if |p| == n && |q| == n {
      assert p == p[..n] && q == q[..n];
      SamePathKept(v, k, firm, p, l.change, m.change);
    } else if |p| == n {
      assert p == p[..n];
      AboveKept(v, k, firm, p, l.change, q, m.change, false);
    } else {
      assert q == q[..n];
      AboveKept(v, k, !firm, q, m.change, p, l.change, true);
      SwapStays(k, !firm, MergeSubPath(q, m.change, p, l.change, true, 1));
    }
  }

  lemma SamePathKept(v: Value, k: Kind, firm: bool, p: seq<Key>, a: Change, b: Change)
    requires k.Has(firm, a) && k.Has(!firm, b) && ApplyAt(v, p, a).Some? && ApplyAt(v, p, b).Some?
    ensures PairStays(k, firm, MergeUnder(p, a, b, false, 1))
  {
    ApplyAtFocus(v, p, a);
    ApplyAtFocus(v, p, b);
    BasicKept(Focus(v, p).value, k, firm, a, b);
    WrapKept(k, firm, p, MergeBasic(a, b));
  }

  lemma WrapKept(k: Kind, firm: bool, p: seq<Key>, m: Merged)
    requires PairStays(k, firm, m)
    ensures PairStays(k, firm, Wrap(p, m))
  {
    AllHaveDeeper(k, firm, p, Leaves(m.cx));
    AllHaveDeeper(k, !firm, p, Leaves(m.otherx));
  }

  // ----- whole lists -----

  lemma AppliedConcat(v: Value, ls: seq<Leaf>, ms: seq<Leaf>)
    requires ApplyLeaves(v, ls).Some? && ApplyLeaves(ApplyLeaves(v, ls).value, ms).Some?
    ensures ApplyLeaves(v, ls + ms).Some?
  {
    ApplyLeavesConcat(v, ls, ms);
  }

  /** The lists cross, and what becomes of them is of the same kinds. */
  predicate Keeps(k: Kind, firm: bool, x: Option<Crossed>) {
    x.Some? && k.AllHave(firm, x.value.mine) && k.AllHave(!firm, x.value.theirs)
  }

  /** If the columns are firm, every row leaves at most as many of them. */
  lemma {:induction false} GridEnds(v: Value, k: Kind, firm: bool, a: seq<Leaf>, b: seq<Leaf>) returns (f: nat)
    requires k.AllHave(firm, a) && k.AllHave(!firm, b) && ApplyLeaves(v, a).Some? && ApplyLeaves(v, b).Some?
    ensures Keeps(k, firm, Grid(a, b, f))
    ensures !firm ==> |Grid(a, b, f).value.theirs| <= |b|
    ensures firm ==> |Grid(a, b, f).value.mine| <= |a|
    ensures ApplyLeaves(ApplyLeaves(v, a).value, Grid(a, b, f).value.theirs).Some?
    decreases if firm then |a| else |b|, if firm then |b| else |a|, 1
  {
    f := 0;
    if a != [] {
      var w := ApplyAt(v, a[0].path, a[0].change).value;
      var g := RowEnds(v, k, firm, a[0], b);
      var row := Row(a[0], b, g).value;
      var h := GridEnds(w, k, firm, a[1..], row.theirs);
      f := Max(g, h);
      RowMoreFuel(a[0], b, g, f);
      GridMoreFuel(a[1..], row.theirs, h, f);
      AllHaveConcat(k, firm, row.mine, Grid(a[1..], row.theirs, f).value.mine);
    }
  }

  lemma {:induction false} RowEnds(v: Value, k: Kind, firm: bool, l: Leaf, b: seq<Leaf>) returns (f: nat)
    requires k.Has(firm, l.change) && k.AllHave(!firm, b)
    requires ApplyAt(v, l.path, l.change).Some? && ApplyLeaves(v, b).Some?
    ensures Keeps(k, firm, Row(l, b, f))
    ensures !firm ==> |Row(l, b, f).value.theirs| <= |b|
    ensures firm ==> |Row(l, b, f).value.mine| <= 1
    ensures ApplyLeaves(ApplyAt(v, l.path, l.change).value, Row(l, b, f).value.theirs).Some?
    decreases if firm then 1 else |b|, if firm then |b| else 0, 0
  {
    f := 0;
    if b != [] {
      var w := ApplyAt(v, b[0].path, b[0].change).value;
      CellKept(v, k, firm, l, b[0]);
      var x := Cell(l, b[0]).value;
      f := GridEnds(w, k, firm, x.mine, b[1..]);
      var rest := Grid(x.mine, b[1..], f).value;
      AllHaveConcat(k, !firm, x.theirs, rest.theirs);
      AppliedConcat(ApplyAt(v, l.path, l.change).value, x.theirs, rest.theirs);
      f := f + 1;
    }
  }

  /** Merging a change of the firm kind and one of the free kind always returns, whichever is the
      receiver and however deeply they are nested; the kinds stay the same. */
  lemma MergeEnds(v: Value, k: Kind, firm: bool, a: Change, b: Change) returns (fuel: nat)
    requires k.Holds(firm, a) && k.Holds(!firm, b) && Apply(v, a).Some? && Apply(v, b).Some?
    ensures var m := Merge(a, b, fuel); m.Done? && k.Holds(firm, m.cx) && k.Holds(!firm, m.otherx)
  {
    LeavesApply(v, a);
    LeavesApply(v, b);
    var f := GridEnds(v, k, firm, Leaves(a), Leaves(b));
    var x := Grid(Leaves(a), Leaves(b), f).value;
    assert Takes(Leaves(a), Leaves(b), Cells(Leaves(a), Leaves(b), f));
    fuel := Completion.MergeEnds(v, a, b, Cells(Leaves(a), Leaves(b), f));
    MergedLeaves(a, b, fuel, x);
  }
}

/** The contract of Merge (changes/changes.go): whatever two changes apply to a value, applying either one
    and then the other's transformed version gives the same value; and merging them never panics. */
module Convergence {
  import opened Options
  import opened Moves
  import opened Splices
  import opened SpliceMoves
  import opened Changes
  import opened Merging

  /** A merge of two changes of v either needs more fuel or joins them. */
  predicate Converges(v: Value, a: Change, b: Change, m: Merged)
    requires Apply(v, a).Some? && Apply(v, b).Some?
  {
    m.OutOfFuel? || (m.Done? && Joins(v, a, b, m.otherx, m.cx))
  }

  lemma SwapConverges(v: Value, a: Change, b: Change, m: Merged)
    requires Apply(v, a).Some? && Apply(v, b).Some? && Converges(v, a, b, m)
    ensures Converges(v, b, a, m.Swap())
  {
  }

  // ----- Simplify keeps the meaning -----

  /** ApplyAt sees a change only through its effect at the end of the path. */
  lemma {:induction false} ApplyAtCongruent(v: Value, p: seq<Key>, c: Change, d: Change)
    requires Focus(v, p).Some? ==> Apply(Focus(v, p).value, c) == Apply(Focus(v, p).value, d)
    ensures ApplyAt(v, p, c) == ApplyAt(v, p, d)
    decreases |p|
  {
    if p != [] && Get(v, p[0]).Some? {
      ApplyAtCongruent(Get(v, p[0]).value, p[1..], c, d);
    }
  }

  lemma {:induction false} ApplyAllConcat(v: Value, cs: seq<Change>, ds: seq<Change>)
    ensures ApplyAll(v, cs + ds) == (var w := ApplyAll(v, cs); if w.Some? then ApplyAll(w.value, ds) else None)
    decreases |cs|
  {
    if cs == [] {
      assert cs + ds == ds;
    } else {
      assert (cs + ds)[1..] == cs[1..] + ds;
      if Apply(v, cs[0]).Some? {
        ApplyAllConcat(Apply(v, cs[0]).value, cs[1..], ds);
      }
    }
  }

  lemma ApplyAllOne(v: Value, c: Change)
    ensures ApplyAll(v, [c]) == Apply(v, c)
  {
    if Apply(v, c).Some? {
      assert ApplyAll(Apply(v, c).value, []) == Apply(v, c);
    }
  }

  /** Simplify does not change what a change does. */
  lemma {:induction false} SimplifyPreserves(v: Value, c: Change)
    requires Apply(v, c).Some?
    ensures Apply(v, Simplify(c)) == Apply(v, c)
    decreases c, 0
  {
    match c
    case ChangeSet(changes) => SimplifySetPreserves(v, changes);
    case PathChange(path, inner) =>
      ApplyAtFocus(v, path, inner);
      var cx, w := Simplify(inner), Focus(v, path).value;
      SimplifyPreserves(w, inner);
      ApplyAtCongruent(v, path, inner, cx);
      if cx.Noop? {
        ApplyAtNoop(v, path, inner);
      } else if path != [] && cx.PathChange? {
        ApplyAtSplit(v, path, cx.path, cx.inner);
      }
    case _ =>
  }

  lemma {:induction false} SimplifySetPreserves(v: Value, cs: seq<Change>)
    requires ApplyAll(v, cs).Some?
    ensures Apply(v, SimplifySet(cs)) == ApplyAll(v, cs)
    decreases cs, 1
  {
    SimplifyEachPreserves(v, cs);
    var kept := SimplifyEach(cs);
    if |kept| == 1 {
      assert kept == [kept[0]];
      ApplyAllOne(v, kept[0]);
    }
  }

  lemma {:induction false} SimplifyEachPreserves(v: Value, cs: seq<Change>)
    requires ApplyAll(v, cs).Some?
    ensures ApplyAll(v, SimplifyEach(cs)) == ApplyAll(v, cs)
    decreases cs, 0
  {
    if cs != [] {
      SimplifyPreserves(v, cs[0]);
      var w, cx := Apply(v, cs[0]).value, Simplify(cs[0]);
      SimplifyEachPreserves(w, cs[1..]);
      ApplyAllConcat(v, [cx], SimplifyEach(cs[1..]));
      ApplyAllOne(v, cx);
      assert cx.Noop? ==> SimplifyEach(cs) == SimplifyEach(cs[1..]);
    }
  }

  // ----- basic pairs -----

  lemma NoopShift<T>(s: seq<T>, m: Move)
    requires m.Fits(|s|) && m.IsNoop()
    ensures Shift(s, m) == s
  {
  }

  lemma {:induction false} RealMovesApply(s: seq<Value>, ms: seq<Move>)
    requires Moves.FitAll(|s|, ms)
    ensures ApplyAll(Val(Arr(s)), RealMoves(ms)) == Some(Val(Arr(ShiftAll(s, ms))))
    decreases |ms|
  {
    if ms != [] {
      var m, rest := ms[0], ms[1..];
      RealMovesApply(Shift(s, m), rest);
      if m.IsNoop() {
        NoopShift(s, m);
        assert RealMoves(ms) == RealMoves(rest);
      } else {
        ApplyAllConcat(Val(Arr(s)), [MoveBy(m)], RealMoves(rest));
        ApplyAllOne(Val(Arr(s)), MoveBy(m));
      }
    }
  }

  lemma {:induction false} NoopsApply(v: Value, n: nat)
    ensures ApplyAll(v, seq(n, _ => Noop)) == Some(v)
  {
    if n != 0 {
      assert seq(n, _ => Noop)[1..] == seq(n - 1, _ => Noop);
      NoopsApply(v, n - 1);
    }
  }

  lemma MovesToChangeApplies(s: seq<Value>, ms: seq<Move>)
    requires Moves.FitAll(|s|, ms)
    ensures Apply(Val(Arr(s)), MovesToChange(ms)) == Some(Val(Arr(ShiftAll(s, ms))))
  {
    var v, nils := Val(Arr(s)), seq(|ms|, _ => Noop);
    RealMovesApply(s, ms);
    NoopsApply(v, |ms|);
    ApplyAllConcat(v, nils, RealMoves(ms));
    var result := nils + RealMoves(ms);
    if |result| == 1 {
      assert result == [result[0]];
      ApplyAllOne(v, result[0]);
    }
  }

  lemma EditApplies(s: seq<Value>, e: Edit<Value>)
    requires e.Fits(s)
    ensures Apply(Val(Arr(s)), EditToChange(e)) == Some(Val(Arr(e.Do(s))))
  {
  }

  lemma {:induction false} EditsApply(s: seq<Value>, es: seq<Edit<Value>>)
    requires SpliceMoves.FitAll(s, es)
    ensures ApplyAll(Val(Arr(s)), EditsToChanges(es)) == Some(Val(Arr(DoAll(s, es))))
    decreases |es|
  {
    if es != [] {
      EditApplies(s, es[0]);
      EditsApply(es[0].Do(s), es[1..]);
      var cs := EditsToChanges(es);
      assert cs[0] == EditToChange(es[0]) && cs[1..] == EditsToChanges(es[1..]);
    }
  }

  lemma SpliceMoveConverges(v: Value, s: Splice<Value>, o: Move)
    requires Apply(v, SpliceIn(s)).Some? && Apply(v, MoveBy(o)).Some?
    ensures Converges(v, SpliceIn(s), MoveBy(o), SpliceMerged(s, o))
  {
    var items, p := v.node.items, MergeSpliceMove(s, o);
    SpliceMoves.SpliceMoveConverges(items, s, o);
    EditsApply(Shift(items, o), p.mine);
    if p.theirs.Some? {
      EditApplies(Cut(items, s), p.theirs.value);
    }
    if |p.mine| == 1 {
      assert EditsToChanges(p.mine[1..]) == [];
      assert EditsToChanges(p.mine) == [EditToChange(p.mine[0])];
      ApplyAllOne(Val(Arr(Shift(items, o))), EditToChange(p.mine[0]));
    }
  }

  lemma MoveMoveConverges(v: Value, m: Move, o: Move)
    requires Apply(v, MoveBy(m)).Some? && Apply(v, MoveBy(o)).Some?
    ensures Converges(v, MoveBy(m), MoveBy(o), MergeBasic(MoveBy(m), MoveBy(o)))
  {
    var items, p := v.node.items, MergeMoves(m, o);
    Moves.MovesConverge(items, m, o);
    MovesToChangeApplies(Shift(items, m), p.theirs);
    MovesToChangeApplies(Shift(items, o), p.mine);
  }

  lemma SpliceSpliceConverges(v: Value, s: Splice<Value>, o: Splice<Value>)
    requires Apply(v, SpliceIn(s)).Some? && Apply(v, SpliceIn(o)).Some?
    ensures Converges(v, SpliceIn(s), SpliceIn(o), MergeBasic(SpliceIn(s), SpliceIn(o)))
  {
    Splices.SplicesConverge(v.node.items, s, o);
  }

  /** Replace, Splice and Move against each other: an answer at once, and a joining one. */
  lemma BasicConverges(v: Value, a: Change, b: Change)
    requires IsBasic(a) && IsBasic(b) && Apply(v, a).Some? && Apply(v, b).Some?
    ensures MergeBasic(a, b).Done? && Converges(v, a, b, MergeBasic(a, b))
  {
    match (a, b)
    case (SpliceIn(s), SpliceIn(o)) => SpliceSpliceConverges(v, s, o);
    case (SpliceIn(s), MoveBy(o)) => SpliceMoveConverges(v, s, o);
    case (MoveBy(m), SpliceIn(o)) =>
      SpliceMoveConverges(v, o, m);
      SwapConverges(v, b, a, SpliceMerged(o, m));
    case (MoveBy(m), MoveBy(o)) => MoveMoveConverges(v, m, o);
    case _ =>
  }

  // ----- a change of a list against a change of one of its elements -----

  lemma CutUpdateLeft<T>(items: seq<T>, s: Splice<T>, i: nat, x: T)
    requires s.Fits(items) && i < s.offset
    ensures s.Fits(items[i := x]) && Cut(items[i := x], s) == Cut(items, s)[i := x]
  {
    assert items[i := x][s.offset..s.offset + |s.before|] == s.before;
  }

  lemma CutUpdateRight<T>(items: seq<T>, s: Splice<T>, i: nat, x: T)
    requires s.Fits(items) && s.offset + |s.before| <= i < |items|
    ensures s.Fits(items[i := x]) && Cut(items[i := x], s) == Cut(items, s)[i + s.Growth() := x]
  {
    assert items[i := x][s.offset..s.offset + |s.before|] == s.before;
  }

  lemma CutUpdateInside<T>(items: seq<T>, s: Splice<T>, i: nat, x: T)
    requires s.Fits(items) && s.offset <= i < s.offset + |s.before|
    ensures var s1 := s.(before := s.before[i - s.offset := x]);
            s1.Fits(items[i := x]) && Cut(items[i := x], s1) == Cut(items, s)
  {
    var s1 := s.(before := s.before[i - s.offset := x]);
    assert items[i := x][s.offset..s.offset + |s.before|] == s1.before;
  }

  lemma ShiftUpdate<T>(items: seq<T>, m: Move, i: nat, x: T)
    requires m.Fits(|items|) && i < |items|
    ensures 0 <= m.MapIndex(i) < |items|
    ensures Shift(items[i := x], m) == Shift(items, m)[m.MapIndex(i) := x]
    ensures Shift(items, m)[m.MapIndex(i)] == items[i]
  {
    ShiftMapsIndex(items, m, i);
    var l, r := Shift(items[i := x], m), Shift(items, m)[m.MapIndex(i) := x];
    forall at | 0 <= at < |items| ensures l[at] == r[at] {
      ShiftSource(items, m, at);
      ShiftSource(items[i := x], m, at);
      SourceInverse(|items|, m, i, at);
    }
  }

  lemma SourceInverse(n: nat, m: Move, i: int, at: int)
    requires m.Fits(n) && 0 <= i < n && 0 <= at < n
    ensures m.Source(at) == i <==> m.MapIndex(i) == at
  {
  }

  /** What a change below element idx of an array does. */
  lemma ElementChange(items: seq<Value>, sub: seq<Key>, r: Change)
    requires sub != [] && ApplyAt(Val(Arr(items)), sub, r).Some?
    ensures sub[0].Index? && 0 <= sub[0].i < |items|
    ensures ApplyAt(items[sub[0].i], sub[1..], r).Some?
    ensures ApplyAt(Val(Arr(items)), sub, r)
         == Some(Val(Arr(items[sub[0].i := ApplyAt(items[sub[0].i], sub[1..], r).value])))
  {
  }

  /** The same change on the same element of another array. */
  lemma ElementChangeAt(items: seq<Value>, idx: int, sub: seq<Key>, r: Change, element: Value, changed: Value)
    requires sub != [] && 0 <= idx < |items| && items[idx] == element
    requires ApplyAt(element, sub[1..], r) == Some(changed)
    ensures ApplyAt(Val(Arr(items)), sub[0 := Index(idx)], r) == Some(Val(Arr(items[idx := changed])))
  {
    assert sub[0 := Index(idx)][1..] == sub[1..];
  }

  /** A splice against a change below one of its elements; the three cases of mergeSubPath. */
  lemma SpliceOverElement(w: Value, s: Splice<Value>, sub: seq<Key>, r: Change)
    requires sub != [] && Apply(w, SpliceIn(s)).Some? && ApplyAt(w, sub, r).Some?
    ensures sub[0].Index?
    ensures var idx := sub[0].i;
      if idx < s.offset then Joins(w, SpliceIn(s), PathChange(sub, r), PathChange(sub, r), SpliceIn(s))
      else if idx >= s.offset + |s.before| then
        Joins(w, SpliceIn(s), PathChange(sub, r), PathChange(sub[0 := Index(idx + s.Growth())], r), SpliceIn(s))
      else
        var b := ApplyAt(Val(Arr(s.before)), sub[0 := Index(idx - s.offset)], r);
        && b.Some? && IsArr(b.value)
        && Joins(w, SpliceIn(s), PathChange(sub, r), Noop, SpliceIn(s.(before := b.value.node.items)))
  {
    var items := w.node.items;
    ElementChange(items, sub, r);
    var idx := sub[0].i;
    var element, changed := items[idx], ApplyAt(items[idx], sub[1..], r).value;
    if idx < s.offset {
      CutUpdateLeft(items, s, idx, changed);
      assert sub[0 := Index(idx)] == sub;
      ElementChangeAt(Cut(items, s), idx, sub, r, element, changed);
    } else if idx >= s.offset + |s.before| {
      CutUpdateRight(items, s, idx, changed);
      ElementChangeAt(Cut(items, s), idx + s.Growth(), sub, r, element, changed);
    } else {
      CutUpdateInside(items, s, idx, changed);
      assert s.before[idx - s.offset] == element;
      ElementChangeAt(s.before, idx - s.offset, sub, r, element, changed);
    }
  }

  /** A move against a change below one of its elements: the change follows the element. */
  lemma MoveOverElement(w: Value, m: Move, sub: seq<Key>, r: Change)
    requires sub != [] && Apply(w, MoveBy(m)).Some? && ApplyAt(w, sub, r).Some?
    ensures sub[0].Index?
    ensures Joins(w, MoveBy(m), PathChange(sub, r), PathChange(sub[0 := Index(m.MapIndex(sub[0].i))], r), MoveBy(m))
  {
    var items := w.node.items;
    ElementChange(items, sub, r);
    var idx := sub[0].i;
    var element, changed := items[idx], ApplyAt(items[idx], sub[1..], r).value;
    ShiftUpdate(items, m, idx, changed);
    ElementChangeAt(Shift(items, m), m.MapIndex(idx), sub, r, element, changed);
  }

  // ----- paths -----

  /** Changes below different keys of the same value commute. */
  lemma ApartJoin(w: Value, p: seq<Key>, l: Change, q: seq<Key>, r: Change)
    requires p != [] && q != [] && p[0] != q[0]
    requires ApplyAt(w, p, l).Some? && ApplyAt(w, q, r).Some?
    ensures Joins(w, PathChange(p, l), PathChange(q, r), PathChange(q, r), PathChange(p, l))
  {
    var x := ApplyAt(Get(w, p[0]).value, p[1..], l).value;
    var y := ApplyAt(Get(w, q[0]).value, q[1..], r).value;
    GetElsewhere(w, p[0], x, q[0]);
    GetElsewhere(w, q[0], y, p[0]);
    PutElsewhere(w, p[0], x, q[0], y);
  }

  lemma MergePathsApart(v: Value, p: seq<Key>, l: Change, q: seq<Key>, r: Change, n: nat)
    requires n < |p| && n < |q| && p[..n] == q[..n] && p[n] != q[n]
    requires ApplyAt(v, p, l).Some? && ApplyAt(v, q, r).Some?
    ensures Joins(v, PathChange(p, l), PathChange(q, r), PathChange(q, r), PathChange(p, l))
  {
    var pre := p[..n];
    assert p == pre + p[n..] && q == pre + q[n..];
    var a, b := PathChange(p[n..], l), PathChange(q[n..], r);
    ApplyAtSplit(v, pre, p[n..], l);
    ApplyAtSplit(v, pre, q[n..], r);
    ApplyAtFocus(v, pre, a);
    ApplyAtFocus(v, pre, b);
    ApartJoin(Focus(v, pre).value, p[n..], l, q[n..], r);
    LiftJoin(v, pre, a, b, b, a);
    ApplyAtSplit(ApplyAt(v, p, l).value, pre, q[n..], r);
    ApplyAtSplit(ApplyAt(v, q, r).value, pre, p[n..], l);
  }

  lemma WrapConverges(v: Value, prefix: seq<Key>, l: Change, r: Change, m: Merged)
    requires ApplyAt(v, prefix, l).Some? && ApplyAt(v, prefix, r).Some?
    requires Focus(v, prefix).Some? && Apply(Focus(v, prefix).value, l).Some? && Apply(Focus(v, prefix).value, r).Some?
    requires Converges(Focus(v, prefix).value, l, r, m)
    ensures Converges(v, PathChange(prefix, l), PathChange(prefix, r), Wrap(prefix, m))
  {
    if m.Done? {
      LiftJoin(v, prefix, l, r, m.otherx, m.cx);
    }
  }

  /** A join at the end of p of l with a change below it, in the shape mergeSubPath returns it. */
  lemma LiftSubPath(v: Value, p: seq<Key>, l: Change, sub: seq<Key>, r: Change, sub': seq<Key>, l': Change)
    requires ApplyAt(v, p, l).Some? && ApplyAt(v, p + sub, r).Some?
    requires Focus(v, p).Some? && Apply(Focus(v, p).value, l).Some? && ApplyAt(Focus(v, p).value, sub, r).Some?
    requires Joins(Focus(v, p).value, l, PathChange(sub, r), PathChange(sub', r), l')
    ensures Joins(v, PathChange(p, l), PathChange(p + sub, r), PathChange(p + sub', r), PathChange(p, l'))
  {
    ApplyAtSplit(v, p, sub, r);
    LiftJoin(v, p, l, PathChange(sub, r), PathChange(sub', r), l');
    ApplyAtSplit(ApplyAt(v, p, l).value, p, sub', r);
  }

  /** The same when l swallows the change below it. */
  lemma LiftSwallowed(v: Value, p: seq<Key>, l: Change, sub: seq<Key>, r: Change, l': Change)
    requires ApplyAt(v, p, l).Some? && ApplyAt(v, p + sub, r).Some?
    requires Focus(v, p).Some? && Apply(Focus(v, p).value, l).Some? && ApplyAt(Focus(v, p).value, sub, r).Some?
    requires Joins(Focus(v, p).value, l, PathChange(sub, r), Noop, l')
    ensures Joins(v, PathChange(p, l), PathChange(p + sub, r), Noop, PathChange(p, l'))
  {
    ApplyAtSplit(v, p, sub, r);
    LiftJoin(v, p, l, PathChange(sub, r), Noop, l');
    ApplyAtNoop(ApplyAt(v, p, l).value, p, Noop);
  }

  lemma SubPathFacts(v: Value, p: seq<Key>, l: Change, q: seq<Key>, r: Change)
    requires |p| < |q| && q[..|p|] == p
    requires ApplyAt(v, p, l).Some? && ApplyAt(v, q, r).Some?
    ensures q == p + q[|p|..] && ApplyAt(v, p, PathChange(q[|p|..], r)) == ApplyAt(v, q, r)
    ensures Focus(v, p).Some? && Apply(Focus(v, p).value, l).Some? && ApplyAt(Focus(v, p).value, q[|p|..], r).Some?
  {
    assert q == p + q[|p|..];
    ApplyAtSplit(v, p, q[|p|..], r);
    ApplyAtFocus(v, p, l);
    ApplyAtFocus(v, p, PathChange(q[|p|..], r));
  }

  lemma SpliceSubPathConverges(v: Value, p: seq<Key>, s: Splice<Value>, q: seq<Key>, r: Change, reverse: bool,
                               fuel: nat)
    requires |p| < |q| && q[..|p|] == p
    requires ApplyAt(v, p, SpliceIn(s)).Some? && ApplyAt(v, q, r).Some?
    ensures Converges(v, PathChange(p, SpliceIn(s)), PathChange(q, r),
                      MergeSubPath(p, SpliceIn(s), q, r, reverse, fuel))
  {
    var l, sub := SpliceIn(s), q[|p|..];
    SubPathFacts(v, p, l, q, r);
    var w := Focus(v, p).value;
    SpliceOverElement(w, s, sub, r);
    var idx := sub[0].i;
    if idx < s.offset {
      LiftSubPath(v, p, l, sub, r, sub, l);
    } else if idx >= s.offset + |s.before| {
      var sub' := sub[0 := Index(idx + s.Growth())];
      LiftSubPath(v, p, l, sub, r, sub', l);
      assert q[|p| := Index(idx + s.Growth())] == p + sub';
    } else {
      var b := ApplyAt(Val(Arr(s.before)), sub[0 := Index(idx - s.offset)], r);
      LiftSwallowed(v, p, l, sub, r, SpliceIn(s.(before := b.value.node.items)));
    }
  }

  lemma MoveSubPathConverges(v: Value, p: seq<Key>, m: Move, q: seq<Key>, r: Change, reverse: bool, fuel: nat)
    requires |p| < |q| && q[..|p|] == p
    requires ApplyAt(v, p, MoveBy(m)).Some? && ApplyAt(v, q, r).Some?
    ensures Converges(v, PathChange(p, MoveBy(m)), PathChange(q, r), MergeSubPath(p, MoveBy(m), q, r, reverse, fuel))
  {
    var l, sub := MoveBy(m), q[|p|..];
    SubPathFacts(v, p, l, q, r);
    MoveOverElement(Focus(v, p).value, m, sub, r);
    var idx := m.MapIndex(sub[0].i);
    var sub' := sub[0 := Index(idx)];
    LiftSubPath(v, p, l, sub, r, sub', l);
    assert q[|p| := Index(idx)] == p + sub';
    assert idx == sub[0].i ==> sub' == sub;
  }

  lemma ReplaceSubPathConverges(v: Value, p: seq<Key>, l: Change, q: seq<Key>, r: Change, reverse: bool, fuel: nat)
    requires |p| < |q| && q[..|p|] == p && l.Replace?
    requires ApplyAt(v, p, l).Some? && ApplyAt(v, q, r).Some?
    ensures Converges(v, PathChange(p, l), PathChange(q, r), MergeSubPath(p, l, q, r, reverse, fuel))
  {
    var sub := q[|p|..];
    SubPathFacts(v, p, l, q, r);
    var b := ApplyAt(l.before, sub, r);
    assert l.before.Val?;
    LiftSwallowed(v, p, l, sub, r, Replace(b.value, l.after));
  }

  // ----- the whole merge -----

  /** Convergence for all changes: the law stated in changes/changes.go. */
  lemma {:induction false} MergeConverges(v: Value, a: Change, b: Change, fuel: nat)
    requires Apply(v, a).Some? && Apply(v, b).Some?
    ensures Converges(v, a, b, Merge(a, b, fuel))
    decreases fuel, 0
  {
    if fuel == 0 || a.Noop? {
    } else if a.ChangeSet? {
      MergeEachConverges(v, a.changes, b, fuel - 1);
      var w := MergeEach(a.changes, b, fuel - 1);
      if w.Walked? {
        SimplifySetPreserves(Apply(v, b).value, w.results);
      }
    } else if a.PathChange? {
      MergePathsConverges(v, a.path, a.inner, PathOf(b), InnerOf(b), false, fuel - 1);
    } else if b.Noop? {
    } else if b.IsComposite() {
      ReverseMergeConverges(v, b, a, fuel - 1);
      SwapConverges(v, b, a, ReverseMerge(b, a, fuel - 1));
    } else {
      BasicConverges(v, a, b);
    }
  }

  lemma {:induction false} ReverseMergeConverges(v: Value, a: Change, b: Change, fuel: nat)
    requires a.IsComposite() && Apply(v, a).Some? && Apply(v, b).Some?
    ensures Converges(v, a, b, ReverseMerge(a, b, fuel))
    decreases fuel, 0
  {
    if fuel == 0 {
    } else if a.ChangeSet? {
      ReverseMergeEachConverges(v, a.changes, b, fuel - 1);
      var w := ReverseMergeEach(a.changes, b, fuel - 1);
      if w.Walked? {
        SimplifySetPreserves(Apply(v, b).value, w.results);
      }
    } else {
      MergePathsConverges(v, a.path, a.inner, PathOf(b), InnerOf(b), true, fuel - 1);
    }
  }

  /** A walk through the members of a set against one other change closes the whole row. */
  ghost predicate RowConverges(v: Value, cs: seq<Change>, other: Change, w: Walked)
    requires ApplyAll(v, cs).Some? && Apply(v, other).Some?
  {
    && (w.Stopped? ==> w.why.OutOfFuel?)
    && (w.Walked? ==>
        && Apply(ApplyAll(v, cs).value, w.other).Some?
        && Apply(ApplyAll(v, cs).value, w.other) == ApplyAll(Apply(v, other).value, w.results))
  }

  lemma RowStep(v: Value, cs: seq<Change>, other: Change, otherx: Change, cx: Change, rest: Walked)
    requires cs != [] && ApplyAll(v, cs).Some? && Apply(v, other).Some?
    requires Joins(v, cs[0], other, otherx, cx)
    requires RowConverges(Apply(v, cs[0]).value, cs[1..], otherx, rest)
    ensures rest.Walked? ==> RowConverges(v, cs, other, Walked(rest.other, [cx] + rest.results))
  {
    assert rest.Walked? ==> ([cx] + rest.results)[1..] == rest.results;
  }

  lemma {:induction false} MergeEachConverges(v: Value, cs: seq<Change>, other: Change, fuel: nat)
    requires ApplyAll(v, cs).Some? && Apply(v, other).Some?
    ensures RowConverges(v, cs, other, MergeEach(cs, other, fuel))
    decreases fuel, 1, |cs|
  {
    if cs != [] {
      MergeConverges(v, cs[0], other, fuel);
      var m := Merge(cs[0], other, fuel);
      if m.Done? {
        MergeEachConverges(Apply(v, cs[0]).value, cs[1..], m.otherx, fuel);
        RowStep(v, cs, other, m.otherx, m.cx, MergeEach(cs[1..], m.otherx, fuel));
      }
    }
  }

  lemma {:induction false} ReverseMergeEachConverges(v: Value, cs: seq<Change>, other: Change, fuel: nat)
    requires ApplyAll(v, cs).Some? && Apply(v, other).Some?
    ensures RowConverges(v, cs, other, ReverseMergeEach(cs, other, fuel))
    decreases fuel, 1, |cs|
  {
    if cs != [] {
      MergeConverges(v, other, cs[0], fuel);
      var m := Merge(other, cs[0], fuel);
      if m.Done? {
        ReverseMergeEachConverges(Apply(v, cs[0]).value, cs[1..], m.cx, fuel);
        RowStep(v, cs, other, m.cx, m.otherx, ReverseMergeEach(cs[1..], m.cx, fuel));
      }
    }
  }

  lemma {:induction false} MergePathsConverges(v: Value, p: seq<Key>, l: Change, q: seq<Key>, r: Change,
                                               reverse: bool, fuel: nat)
    requires ApplyAt(v, p, l).Some? && ApplyAt(v, q, r).Some?
    ensures Converges(v, PathChange(p, l), PathChange(q, r), MergePaths(p, l, q, r, reverse, fuel))
    decreases fuel, 5
  {
    var n := CommonPrefixLen(p, q);
    if |p| != n && |q| != n {
      MergePathsApart(v, p, l, q, r, n);
    } else if |p| == n && |q| == n {
      assert p == p[..n] && q == q[..n];
      MergeUnderConverges(v, p, l, r, reverse, fuel);
    } else if |p| == n {
      assert p == p[..n];
      MergeSubPathConverges(v, p, l, q, r, reverse, fuel);
    } else {
      assert q == q[..n];
      MergeSubPathConverges(v, q, r, p, l, !reverse, fuel);
      SwapConverges(v, PathChange(q, r), PathChange(p, l), MergeSubPath(q, r, p, l, !reverse, fuel));
    }
  }

  lemma {:induction false} MergeUnderConverges(v: Value, prefix: seq<Key>, l: Change, r: Change, reverse: bool,
                                               fuel: nat)
    requires ApplyAt(v, prefix, l).Some? && ApplyAt(v, prefix, r).Some?
    ensures Converges(v, PathChange(prefix, l), PathChange(prefix, r), MergeUnder(prefix, l, r, reverse, fuel))
    decreases fuel, 3
  {
    ApplyAtFocus(v, prefix, l);
    ApplyAtFocus(v, prefix, r);
    var w := Focus(v, prefix).value;
    if reverse && l.IsComposite() {
      ReverseMergeConverges(w, l, r, fuel);
      WrapConverges(v, prefix, l, r, ReverseMerge(l, r, fuel));
    } else if reverse && !r.Noop? {
      MergeConverges(w, r, l, fuel);
      SwapConverges(w, r, l, Merge(r, l, fuel));
      WrapConverges(v, prefix, l, r, Merge(r, l, fuel).Swap());
    } else if !l.Noop? {
      MergeConverges(w, l, r, fuel);
      WrapConverges(v, prefix, l, r, Merge(l, r, fuel));
    } else if !reverse {
      WrapConverges(v, prefix, l, r, Done(r, l));
    } else {
      WrapConverges(v, prefix, l, r, Done(l, r));
    }
  }

  lemma {:induction false} MergeSubPathConverges(v: Value, p: seq<Key>, l: Change, q: seq<Key>, r: Change,
                                                 reverse: bool, fuel: nat)
    requires |p| < |q| && q[..|p|] == p
    requires ApplyAt(v, p, l).Some? && ApplyAt(v, q, r).Some?
    ensures Converges(v, PathChange(p, l), PathChange(q, r), MergeSubPath(p, l, q, r, reverse, fuel))
    decreases fuel, 4
  {
    match l
    case Noop => ApplyAtNoop(v, p, l);
    case Replace(_, _) => ReplaceSubPathConverges(v, p, l, q, r, reverse, fuel);
    case SpliceIn(s) => SpliceSubPathConverges(v, p, s, q, r, reverse, fuel);
    case MoveBy(m) => MoveSubPathConverges(v, p, m, q, r, reverse, fuel);
    case _ =>
      SubPathFacts(v, p, l, q, r);
      MergeUnderConverges(v, p, l, PathChange(q[|p|..], r), reverse, fuel);
  }
}

/** What becomes of two basic changes at any two paths (changes/replace.go, changes/path.go): which of two
    replacements stays, which change is lost with its value, and where a change goes whose value moves. */
module MergeOutcomes {
  import opened Options
  import opened Changes
  import opened Merging
  import opened Refs
  import Convergence
  import Moves
  import Splices
  import SpliceMoves
  import SpliceOutcomes
  import SpliceMoveOutcomes

  /** The merged value, c being the receiver. A replacement takes everything; of two the argument's stays,
      unless both delete. Runs and blocks of arrays: SpliceOutcomes, SpliceMoveOutcomes and, for two moves,
      MoveOrders. */
  function Outcome(v: Value, c: Change, other: Change): Value
    requires IsBasic(c) && IsBasic(other) && !(c.MoveBy? && other.MoveBy?)
    requires Apply(v, c).Some? && Apply(v, other).Some?
  {
    if other.Replace? then other.after
    else if c.Replace? then c.after
    else if c.MoveBy? then Val(Arr(SpliceMoveOutcomes.Outcome(v.node.items, other.splice, c.move)))
    else if other.MoveBy? then Val(Arr(SpliceMoveOutcomes.Outcome(v.node.items, c.splice, other.move)))
    else Val(Arr(SpliceOutcomes.Outcome(v.node.items, c.splice, other.splice)))
  }

  lemma SpliceAndMove(v: Value, s: Splices.Splice<Value>, o: Moves.Move)
    requires Apply(v, SpliceIn(s)).Some? && Apply(v, MoveBy(o)).Some?
    ensures var m := SpliceMerged(s, o);
            && m.Done? && Apply(Apply(v, SpliceIn(s)).value, m.otherx)
                       == Some(Val(Arr(SpliceMoveOutcomes.Outcome(v.node.items, s, o))))
  {
    SpliceMoveOutcomes.MergeOutcome(v.node.items, s, o, SpliceMoves.MergeSpliceMove(s, o));
  }

  /** Whichever side came first, the value in the end is that outcome. */
  lemma BasicOutcome(v: Value, c: Change, other: Change)
    requires IsBasic(c) && IsBasic(other) && !(c.MoveBy? && other.MoveBy?)
    requires Apply(v, c).Some? && Apply(v, other).Some?
    ensures var m := MergeBasic(c, other);
            && m.Done? && Apply(Apply(v, c).value, m.otherx) == Some(Outcome(v, c, other))
            && Apply(Apply(v, other).value, m.cx) == Some(Outcome(v, c, other))
  {
    Convergence.BasicConverges(v, c, other);
    if c.SpliceIn? && other.SpliceIn? {
      SpliceOutcomes.MergeOutcome(v.node.items, c.splice, other.splice);
    } else if c.SpliceIn? && other.MoveBy? {
      SpliceAndMove(v, c.splice, other.move);
    } else if c.MoveBy? && other.SpliceIn? {
      SpliceAndMove(v, other.splice, c.move);
    }
  }

  // ----- different paths -----

  /** Paths that branch off: both changes stay as they are, in both roles. */
  lemma MergeApart(p: seq<Key>, l: Change, q: seq<Key>, r: Change, fuel: nat)
    requires var n := CommonPrefixLen(p, q); n < |p| && n < |q|
    requires fuel >= 2
    ensures Merge(PathChange(p, l), PathChange(q, r), fuel) == Done(PathChange(q, r), PathChange(p, l))
    ensures ReverseMerge(PathChange(p, l), PathChange(q, r), fuel) == Done(PathChange(q, r), PathChange(p, l))
  {
  }

  /** The same path: what the changes become where it leads. */
  lemma MergeSame(p: seq<Key>, l: Change, r: Change, fuel: nat)
    requires IsBasic(l) && IsBasic(r) && fuel >= 3
    ensures Merge(PathChange(p, l), PathChange(p, r), fuel) == Wrap(p, MergeBasic(l, r))
    ensures ReverseMerge(PathChange(p, l), PathChange(p, r), fuel) == Wrap(p, MergeBasic(r, l).Swap())
  {
    CommonPrefixIs(p, p, |p|);
    assert Merge(l, r, fuel - 1) == MergeBasic(l, r) && Merge(r, l, fuel - 1) == MergeBasic(r, l);
    assert MergePaths(p, l, p, r, false, fuel - 1) == Wrap(p, MergeBasic(l, r));
    assert MergePaths(p, l, p, r, true, fuel - 1) == Wrap(p, MergeBasic(r, l).Swap());
  }

  /** A change of part of a value, against a change of the whole: it follows its element, the other change staying
      as it is, or it is lost with it, and then the value is what the other change alone makes of it. */
  lemma MergeBelow(v: Value, p: seq<Key>, l: Change, k: Key, sub: seq<Key>, r: Change, reverse: bool, fuel: nat)
    requires IsBasic(l) && Apply(v, PathChange(p, l)).Some? && Apply(v, PathChange(p + [k] + sub, r)).Some?
    ensures var m, j := MergePaths(p, l, p + [k] + sub, r, reverse, fuel), MappedKey(k, l);
            if j.Some? then m == Done(PathChange(p + [j.value] + sub, r), PathChange(p, l))
            else
              && m.Done? && m.otherx == Noop
              && Apply(Apply(v, PathChange(p + [k] + sub, r)).value, m.cx) == Apply(v, PathChange(p, l))
  {
    var q := p + [k] + sub;
    Convergence.SubPathFacts(v, p, l, q, r);
    assert q[|p|..] == [k] + sub;
    if MappedKey(k, l).Some? {
      KeptBelow(p, l, k, sub, r, reverse, fuel);
    } else {
      Convergence.MergePathsConverges(v, p, l, q, r, reverse, fuel);
      LostBelow(p, l, k, sub, r, reverse, fuel);
    }
  }

  lemma KeptBelow(p: seq<Key>, l: Change, k: Key, sub: seq<Key>, r: Change, reverse: bool, fuel: nat)
    requires IsBasic(l) && MappedKey(k, l).Some?
    ensures MergePaths(p, l, p + [k] + sub, r, reverse, fuel)
         == Done(PathChange(p + [MappedKey(k, l).value] + sub, r), PathChange(p, l))
  {
    var q, j := p + [k] + sub, MappedKey(k, l).value;
    CommonPrefixIs(p, q, |p|);
    assert q[|p|..] == [k] + sub;
    assert q[|p| := j] == p + [j] + sub;
  }

  lemma LostBelow(p: seq<Key>, l: Change, k: Key, sub: seq<Key>, r: Change, reverse: bool, fuel: nat)
    requires IsBasic(l) && MappedKey(k, l).None?
    requires MergePaths(p, l, p + [k] + sub, r, reverse, fuel).Done?
    ensures MergePaths(p, l, p + [k] + sub, r, reverse, fuel).otherx == Noop
  {
    var q := p + [k] + sub;
    CommonPrefixIs(p, q, |p|);
    assert q[|p|..] == [k] + sub;
  }

  /** With the receiver and the argument exchanged, the results are. */
  lemma BelowExchanged(p: seq<Key>, l: Change, q: seq<Key>, r: Change, reverse: bool, fuel: nat)
    requires |p| < |q| && q[..|p|] == p
    ensures MergePaths(q, r, p, l, !reverse, fuel) == MergePaths(p, l, q, r, reverse, fuel).Swap()
  {
    CommonPrefixIs(p, q, |p|);
    CommonPrefixIs(q, p, |p|);
  }
}

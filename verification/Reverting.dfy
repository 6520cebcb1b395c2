/** Revert for every kind of change (package changes): it undoes the change it came from. */
module Reverting {
  import opened Options
  import opened Moves
  import opened Splices
  import opened Changes
  import opened Merging
  import opened Convergence

  function Revert(c: Change): Change
    decreases c, 0
  {
    match c
    case Noop => Noop
    case Replace(before, after) => Replace(after, before)
    case SpliceIn(s) => SpliceIn(s.Revert())
    case MoveBy(m) => MoveBy(m.Revert())
    case PathChange(path, inner) => if inner.Noop? then Noop else PathChange(path, Revert(inner))
    case ChangeSet(changes) => SimplifySet(RevertEach(changes))
  }

  /** The reverts of the members that are not nil, last member first. */
  function RevertEach(cs: seq<Change>): seq<Change>
    decreases cs, 0
  {
    if cs == [] then [] else RevertEach(cs[1..]) + (if cs[0].Noop? then [] else [Revert(cs[0])])
  }

  /** Reverting undoes any change that applies. */
  lemma {:induction false} RevertUndoes(v: Value, c: Change)
    requires Apply(v, c).Some?
    ensures Apply(Apply(v, c).value, Revert(c)) == Some(v)
    decreases c, 0
  {
    match c
    case Noop =>
    case Replace(_, _) =>
    case SpliceIn(s) => CutRevert(v.node.items, s);
    case MoveBy(m) => ShiftRevert(v.node.items, m);
    case PathChange(path, inner) =>
      ApplyAtNoop(v, path, inner);
      if !inner.Noop? {
        ApplyAtFocus(v, path, inner);
        var w := Focus(v, path).value;
        RevertUndoes(w, inner);
        LiftSteps(v, path, inner, Revert(inner), Noop, Noop);
      }
    case ChangeSet(changes) =>
      RevertEachUndoes(v, changes);
      SimplifySetPreserves(ApplyAll(v, changes).value, RevertEach(changes));
  }

  lemma {:induction false} RevertEachUndoes(v: Value, cs: seq<Change>)
    requires ApplyAll(v, cs).Some?
    ensures ApplyAll(ApplyAll(v, cs).value, RevertEach(cs)) == Some(v)
    decreases cs, 0
  {
    if cs != [] {
      var w := Apply(v, cs[0]).value;
      RevertUndoes(v, cs[0]);
      RevertEachUndoes(w, cs[1..]);
      var last := if cs[0].Noop? then [] else [Revert(cs[0])];
      ApplyAllConcat(ApplyAll(v, cs).value, RevertEach(cs[1..]), last);
      ApplyAllOne(w, Revert(cs[0]));
    }
  }
}

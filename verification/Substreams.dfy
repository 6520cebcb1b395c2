/** Substreams (streams/substream.go): a stream of the changes of one value inside a larger one. */
module Substreams {
  import opened Options
  import opened Changes
  import opened Flattening
  import opened Merging
  import opened Refs

  /** The reference of a substream; Dry once its value is lost. */
  datatype Substream = Dry | At(path: seq<Key>)

  /** Next: where the substream is after the parent's change, and its own change. */
  function Next(s: Substream, parent: Change): (Substream, Change) {
    if s.Dry? then (Dry, Noop)
    else
      match Follow(s.path, parent)
      case Kept(path, scoped, _, _) => (At(path), scoped)
      case _ => (Dry, Noop)
  }

  /** Append and ReverseAppend hand this change to the parent, merged or reverse-merged there. */
  function ParentChange(s: Substream, c: Change): Change
    requires s.At?
  {
    PathChange(s.path, c)
  }

  /** Following the parent for a while: where the substream ends up and which changes it emitted. */
  function NextAll(s: Substream, parent: seq<Change>): (Substream, seq<Change>)
    decreases |parent|
  {
    if parent == [] then (s, [])
    else
      var step := Next(s, parent[0]);
      var rest := NextAll(step.0, parent[1..]);
      (rest.0, [step.1] + rest.1)
  }

  /** The value of a substream, if it still has one. */
  function ValueOf(s: Substream, parent: Value): Option<Value> { if s.At? then Focus(parent, s.path) else None }

  /** A substream that is not dry always shows its parent's value at its current path, and the changes it
      emitted lead there from the value it started with. */
  lemma {:induction false} StaysInStep(v: Value, s: Substream, parent: seq<Change>)
    requires ValueOf(s, v).Some? && Changes.ApplyAll(v, parent).Some?
    ensures var (s', own) := NextAll(s, parent);
            s'.At? ==>
              && ValueOf(s', Changes.ApplyAll(v, parent).value).Some?
              && Changes.ApplyAll(ValueOf(s, v).value, own) == ValueOf(s', Changes.ApplyAll(v, parent).value)
    decreases |parent|
  {
    if parent != [] {
      PathTracks(v, s.path, parent[0]);
      var step := Next(s, parent[0]);
      if step.0.At? {
        StaysInStep(Apply(v, parent[0]).value, step.0, parent[1..]);
        var rest := NextAll(step.0, parent[1..]);
        assert ([step.1] + rest.1)[1..] == rest.1;
      } else {
        StaysDry(parent[1..]);
      }
    }
  }

  /** It dries up exactly if the parent's changes remove its value, that is if the path gets lost among their basic
      changes taken one by one; otherwise it is at the path they lead to. */
  lemma {:induction false} DriesExactly(v: Value, s: Substream, parent: seq<Change>)
    requires ValueOf(s, v).Some? && Changes.ApplyAll(v, parent).Some?
    ensures var path := PassLeaves(s.path, LeavesOf(parent));
            NextAll(s, parent).0 == if path.Some? then At(path.value) else Dry
    decreases |parent|
  {
    if parent != [] {
      PathTracks(v, s.path, parent[0]);
      FollowPassesLeaves(s.path, parent[0]);
      PassConcat(s.path, Leaves(parent[0]), LeavesOf(parent[1..]));
      var step := Next(s, parent[0]);
      if step.0.At? {
        DriesExactly(Apply(v, parent[0]).value, step.0, parent[1..]);
      } else {
        StaysDry(parent[1..]);
      }
    }
  }

  lemma {:induction false} StaysDry(parent: seq<Change>)
    ensures NextAll(Dry, parent).0 == Dry
    decreases |parent|
  {
    if parent != [] {
      StaysDry(parent[1..]);
    }
  }

  /** A change made on the substream applies to the parent exactly if it applies to the substream's value,
      and then it changes that value as intended. */
  lemma AppendReachesParent(v: Value, s: Substream, c: Change)
    requires ValueOf(s, v).Some?
    ensures Apply(v, ParentChange(s, c)).Some? <==> Apply(ValueOf(s, v).value, c).Some?
    ensures Apply(v, ParentChange(s, c)).Some? ==>
              ValueOf(s, Apply(v, ParentChange(s, c)).value) == Apply(ValueOf(s, v).value, c)
  {
    ApplyAtFocus(v, s.path, c);
  }

  /** Nothing beside the path changes. */
  lemma AppendLeavesTheRest(v: Value, s: Substream, c: Change, other: seq<Key>)
    requires s.At? && Apply(v, ParentChange(s, c)).Some?
    requires var n := CommonPrefixLen(other, s.path); n < |other| && n < |s.path|
    ensures Focus(Apply(v, ParentChange(s, c)).value, other) == Focus(v, other)
  {
    FocusElsewhere(v, other, s.path, c);
  }
}

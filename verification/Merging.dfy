/** Merge, ReverseMerge and Simplify for every kind of change (package changes).

    A basic pair with moves can turn one change into several, so merging sets has no structural measure.
    Every function here takes a bound on the depth of nested calls; FuelIrrelevant shows that the bound
    never changes an answer, only whether there is one. */
module Merging {
  import opened Options
  import opened Moves
  import opened Splices
  import opened SpliceMoves
  import opened Changes

  /** The result pair in the source's order: the argument's transformed change, then the receiver's.
      Panic stands for a failed type assertion or an Apply that does not fit. */
  datatype Merged = OutOfFuel | Panic | Done(otherx: Change, cx: Change) {
    function Swap(): Merged { if Done? then Done(cx, otherx) else this }
  }

  // ----- Simplify -----

  function Simplify(c: Change): Change
    decreases c, 0
  {
    match c
    case ChangeSet(changes) => SimplifySet(changes)
    case PathChange(path, inner) =>
      var cx := Simplify(inner);
      if cx.Noop? || path == [] then cx
      else if cx.PathChange? then PathChange(path + cx.path, cx.inner)
      else PathChange(path, cx)
    case _ => c
  }

  function SimplifySet(cs: seq<Change>): Change
    decreases cs, 1
  {
    var kept := SimplifyEach(cs);
    if |kept| == 0 then Noop else if |kept| == 1 then kept[0] else ChangeSet(kept)
  }

  /** The simplified members that are not nil. */
  function SimplifyEach(cs: seq<Change>): seq<Change>
    decreases cs, 0
  {
    if cs == [] then []
    else
      var cx := Simplify(cs[0]);
      (if cx.Noop? then [] else [cx]) + SimplifyEach(cs[1..])
  }

  // ----- basic pairs -----

  /** One nil per move, followed by the moves that do something (changes/move.go allocates the
      result with that many entries before it appends). */
  function MovesToChange(ms: seq<Move>): Change {
    var result := seq(|ms|, _ => Noop) + RealMoves(ms);
    if |result| == 0 then Noop else if |result| == 1 then result[0] else ChangeSet(result)
  }

  function RealMoves(ms: seq<Move>): seq<Change> {
    if ms == [] then [] else (if ms[0].IsNoop() then [] else [MoveBy(ms[0])]) + RealMoves(ms[1..])
  }

  function MaybeSplice(s: Option<Splice<Value>>): Change {
    if s.None? then Noop else SpliceIn(s.value)
  }

  function EditToChange(e: Edit<Value>): Change {
    match e
    case ByMove(m) => MoveBy(m)
    case BySplice(s) => SpliceIn(s)
  }

  function EditsToChanges(es: seq<Edit<Value>>): seq<Change> {
    if es == [] then [] else [EditToChange(es[0])] + EditsToChanges(es[1..])
  }

  function SpliceMerged(s: Splice<Value>, o: Move): Merged {
    var p := MergeSpliceMove(s, o);
    Done(if p.theirs.None? then Noop else EditToChange(p.theirs.value),
         if |p.mine| == 1 then EditToChange(p.mine[0]) else ChangeSet(EditsToChanges(p.mine)))
  }

  predicate IsBasic(c: Change) { c.Replace? || c.SpliceIn? || c.MoveBy? }

  function MergeBasic(c: Change, other: Change): Merged
    requires IsBasic(c) && IsBasic(other)
  {
    if c.Replace? && other.Replace? then
      if c.IsDelete() && other.IsDelete() then Done(Noop, Noop) else Done(Replace(c.after, other.after), Noop)
    else if c.Replace? then
      var b := Apply(c.before, other);
      if b.None? then Panic else Done(Noop, Replace(b.value, c.after))
    else if other.Replace? then
      var b := Apply(other.before, c);
      if b.None? then Panic else Done(Replace(b.value, other.after), Noop)
    else if c.SpliceIn? && other.SpliceIn? then
      var p := MergeSplices(c.splice, other.splice);
      Done(MaybeSplice(p.theirs), MaybeSplice(p.mine))
    else if c.SpliceIn? then SpliceMerged(c.splice, other.move)
    else if other.SpliceIn? then SpliceMerged(other.splice, c.move).Swap()
    else
      var p := MergeMoves(c.move, other.move);
      Done(MovesToChange(p.theirs), MovesToChange(p.mine))
  }

  // ----- all pairs -----

  /** c.Merge(other); the receiver may be nil. */
  function Merge(c: Change, other: Change, fuel: nat): Merged
    decreases fuel, 0
  {
    if fuel == 0 then OutOfFuel
    else if c.Noop? then Done(other, c)
    else if c.ChangeSet? then MergeSet(c.changes, other, fuel - 1)
    else if c.PathChange? then MergePaths(c.path, c.inner, PathOf(other), InnerOf(other), false, fuel - 1)
    else if other.Noop? then Done(Noop, c)
    else if other.IsComposite() then ReverseMerge(other, c, fuel - 1).Swap()
    else MergeBasic(c, other)
  }

  /** c.ReverseMerge(other): the merge in which `other` is the receiver. */
  function ReverseMerge(c: Change, other: Change, fuel: nat): Merged
    requires c.IsComposite()
    decreases fuel, 0
  {
    if fuel == 0 then OutOfFuel
    else if c.ChangeSet? then ReverseMergeSet(c.changes, other, fuel - 1)
    else MergePaths(c.path, c.inner, PathOf(other), InnerOf(other), true, fuel - 1)
  }

  function PathOf(c: Change): seq<Key> { if c.PathChange? then c.path else [] }

  function InnerOf(c: Change): Change { if c.PathChange? then c.inner else c }

  // ----- change sets -----

  /** The loop state of ChangeSet.Merge: what other became, and the transformed members. */
  datatype Walked = Stopped(why: Merged) | Walked(other: Change, results: seq<Change>)

  function MergeSet(cs: seq<Change>, other: Change, fuel: nat): Merged
    decreases fuel, 2
  {
    match MergeEach(cs, other, fuel)
    case Stopped(why) => why
    case Walked(otherx, results) => Done(otherx, SimplifySet(results))
  }

  function MergeEach(cs: seq<Change>, other: Change, fuel: nat): (w: Walked)
    ensures w.Stopped? ==> !w.why.Done?
    decreases fuel, 1, |cs|
  {
    if cs == [] then Walked(other, [])
    else
      var m := Merge(cs[0], other, fuel);
      if !m.Done? then Stopped(m)
      else
        match MergeEach(cs[1..], m.otherx, fuel)
        case Stopped(why) => Stopped(why)
        case Walked(otherx, results) => Walked(otherx, [m.cx] + results)
  }

  function ReverseMergeSet(cs: seq<Change>, other: Change, fuel: nat): Merged
    decreases fuel, 2
  {
    match ReverseMergeEach(cs, other, fuel)
    case Stopped(why) => why
    case Walked(otherx, results) => Done(otherx, SimplifySet(results))
  }

  function ReverseMergeEach(cs: seq<Change>, other: Change, fuel: nat): (w: Walked)
    ensures w.Stopped? ==> !w.why.Done?
    decreases fuel, 1, |cs|
  {
    if cs == [] then Walked(other, [])
    else
      var m := Merge(other, cs[0], fuel);
      if !m.Done? then Stopped(m)
      else
        match ReverseMergeEach(cs[1..], m.cx, fuel)
        case Stopped(why) => Stopped(why)
        case Walked(otherx, results) => Walked(otherx, [m.otherx] + results)
  }

  // ----- path changes -----

  function CommonPrefixLen(a: seq<Key>, b: seq<Key>): (n: nat)
    ensures n <= |a| && n <= |b| && a[..n] == b[..n]
    ensures n < |a| && n < |b| ==> a[n] != b[n]
  {
    if a == [] || b == [] || a[0] != b[0] then 0
    else
      var n := CommonPrefixLen(a[1..], b[1..]);
      assert a[..n + 1] == [a[0]] + a[1..][..n] && b[..n + 1] == [b[0]] + b[1..][..n];
      n + 1
  }

  lemma {:induction false} CommonPrefixIs(a: seq<Key>, b: seq<Key>, n: nat)
    requires n <= |a| && n <= |b| && a[..n] == b[..n] && (n < |a| && n < |b| ==> a[n] != b[n])
    ensures CommonPrefixLen(a, b) == n
  {
    if n > 0 {
      assert a[0] == a[..n][0] && b[0] == b[..n][0];
      assert a[1..][..n - 1] == a[..n][1..] && b[1..][..n - 1] == b[..n][1..];
      CommonPrefixIs(a[1..], b[1..], n - 1);
    }
  }

  /** PathChange{p, l} against PathChange{q, r}; with reverse, the latter is the receiver. */
  function MergePaths(p: seq<Key>, l: Change, q: seq<Key>, r: Change, reverse: bool, fuel: nat): Merged
    decreases fuel, 5
  {
    var n := CommonPrefixLen(p, q);
    if |p| != n && |q| != n then Done(PathChange(q, r), PathChange(p, l))
    else if |p| == n && |q| == n then MergeUnder(p, l, r, reverse, fuel)
    else if |p| == n then MergeSubPath(p, l, q, r, reverse, fuel)
    else MergeSubPath(q, r, p, l, !reverse, fuel).Swap()
  }

  function Wrap(prefix: seq<Key>, m: Merged): Merged {
    if m.Done? then Done(PathChange(prefix, m.otherx), PathChange(prefix, m.cx)) else m
  }

  /** Both changes sit at the same path (prefixMerge). */
  function MergeUnder(prefix: seq<Key>, l: Change, r: Change, reverse: bool, fuel: nat): Merged
    decreases fuel, 3
  {
    if reverse && l.IsComposite() then Wrap(prefix, ReverseMerge(l, r, fuel))
    else if reverse && !r.Noop? then Wrap(prefix, Merge(r, l, fuel).Swap())
    else if !l.Noop? then Wrap(prefix, Merge(l, r, fuel))
    else if !reverse then Wrap(prefix, Done(r, l))
    else Wrap(prefix, Done(l, r))
  }

  /** The element that PathChange{q, r} refers to is at another index now. */
  function Reindexed(p: seq<Key>, q: seq<Key>, r: Change, idx: int): Change
    requires |p| < |q|
  {
    PathChange(q[|p| := Index(idx)], r)
  }

  /** PathChange{p, l} against a change at a path q below p. */
  function MergeSubPath(p: seq<Key>, l: Change, q: seq<Key>, r: Change, reverse: bool, fuel: nat): Merged
    requires |p| < |q|
    decreases fuel, 4
  {
    var sub := q[|p|..];
    match l
    case Noop => Done(PathChange(q, r), Noop)
    case Replace(before, after) =>
      var b := ApplyAt(before, sub, r);
      if b.None? then Panic else Done(Noop, PathChange(p, Replace(b.value, after)))
    case SpliceIn(s) =>
      if !sub[0].Index? then Panic
      else
        var idx := sub[0].i;
        if idx < s.offset then Done(PathChange(q, r), PathChange(p, l))
        else if idx >= s.offset + |s.before| then
          Done(Reindexed(p, q, r, idx + |s.after| - |s.before|), PathChange(p, l))
        else
          var b := ApplyAt(Val(Arr(s.before)), sub[0 := Index(idx - s.offset)], r);
          if b.None? || !IsArr(b.value) then Panic
          else Done(Noop, PathChange(p, SpliceIn(s.(before := b.value.node.items))))
    case MoveBy(m) =>
      if !sub[0].Index? then Panic
      else
        var idx, dest, end := sub[0].i, m.Dest(), m.offset + m.count;
        if m.offset <= idx < end then Done(Reindexed(p, q, r, idx + m.distance), PathChange(p, l))
        else if dest <= idx < m.offset then Done(Reindexed(p, q, r, idx + m.count), PathChange(p, l))
        else if end <= idx < dest then Done(Reindexed(p, q, r, idx - m.count), PathChange(p, l))
        else Done(PathChange(q, r), PathChange(p, l))
    case _ => MergeUnder(p, l, PathChange(sub, r), reverse, fuel)
  }
}

/** References (package refs): a path follows the value it leads to through any change, together with
    the part of the change that concerns that value; substreams (streams/substream.go) are such paths
    along a stream. */
module Refs {
  import opened Options
  import opened Moves
  import opened Changes
  import opened Merging
  import opened Flattening
  import Convergence

  /** refs.MergeResult; Gone is the nil result (an InvalidRef), BadKey a failed type assertion. */
  datatype Followed = BadKey | Gone | Kept(path: seq<Key>, scoped: Change, affected: Change, unaffected: Change) {

    /** Prefix: the scoped change stays as it is. */
    function Prefix(other: seq<Key>): Followed {
      if Kept? then Kept(other + path, scoped, Under(other, affected), Under(other, unaffected)) else this
    }

    /** join: a lost path stays lost. */
    function Join(o: Followed): Followed {
      if !Kept? then this
      else if !o.Kept? then o
      else Kept(o.path, JoinChanges(scoped, o.scoped), JoinChanges(affected, o.affected),
                JoinChanges(unaffected, o.unaffected))
    }
  }

  /** pc */
  function Under(path: seq<Key>, c: Change): Change { if c.Noop? then Noop else PathChange(path, c) }

  function JoinChanges(c1: Change, c2: Change): Change {
    if c1.Noop? then c2
    else if c2.Noop? then c1
    else if c1.ChangeSet? && c2.ChangeSet? then ChangeSet(c1.changes + c2.changes)
    else if c1.ChangeSet? then ChangeSet(c1.changes + [c2])
    else if c2.ChangeSet? then ChangeSet([c1] + c2.changes)
    else ChangeSet([c1, c2])
  }

  /** refs.Merge */
  function Follow(p: seq<Key>, c: Change): Followed
    decreases c, 0
  {
    if p == [] then Kept([], c, c, Noop)
    else
      match c
      case Noop => Kept(p, Noop, Noop, c)
      case Replace(_, _) => Gone
      case SpliceIn(s) =>
        if !p[0].Index? then BadKey
        else if s.MapIndex(p[0].i).None? then Gone
        else Kept([Index(s.MapIndex(p[0].i).value)] + p[1..], Noop, Noop, c)
      case MoveBy(m) =>
        if !p[0].Index? then BadKey
        else Kept([Index(m.MapIndex(p[0].i))] + p[1..], Noop, Noop, c)
      case PathChange(q, inner) =>
        var n := CommonPrefixLen(p, q);
        if |p| == n then Kept(p, PathChange(q[n..], inner), c, Noop)
        else if |q| > n then Kept(p, Noop, Noop, c)
        else Follow(p[n..], inner).Prefix(p[..n])
      case ChangeSet(cs) => FollowEach(Kept(p, Noop, Noop, Noop), cs)
  }

  /** The members of a change set, one after another. */
  function FollowEach(r: Followed, cs: seq<Change>): Followed
    decreases cs, 0
  {
    if cs == [] || !r.Kept? then r else FollowEach(r.Join(Follow(r.path, cs[0])), cs[1..])
  }

  // ----- the value at the path -----

  /** What following must achieve: the value now at the path is the old one with the scoped change. */
  predicate Tracks(x: Value, w: Value, r: Followed) {
    r.Gone? || (r.Kept? && Apply(x, r.scoped).Some? && Focus(w, r.path) == Apply(x, r.scoped))
  }

  /** Joining two changes is doing one after the other, and fails where they fail. */
  lemma JoinChangesApply(v: Value, c1: Change, c2: Change)
    ensures Apply(v, JoinChanges(c1, c2)) ==
            (var w := Apply(v, c1); if w.Some? then Apply(w.value, c2) else None)
  {
    var l1, l2 := if c1.ChangeSet? then c1.changes else [c1], if c2.ChangeSet? then c2.changes else [c2];
    Convergence.ApplyAllOne(v, c1);
    if Apply(v, c1).Some? {
      Convergence.ApplyAllOne(Apply(v, c1).value, c2);
    }
    Convergence.ApplyAllConcat(v, l1, l2);
    assert [c1] + [c2] == [c1, c2];
  }

  lemma FocusSplit(v: Value, p: seq<Key>, q: seq<Key>)
    ensures Focus(v, p + q) == (var x := Focus(v, p); if x.Some? then Focus(x.value, q) else None)
    decreases |p|
  {
    if p == [] {
      assert p + q == q;
    } else {
      assert (p + q)[1..] == p[1..] + q;
      if Get(v, p[0]).Some? {
        FocusSplit(Get(v, p[0]).value, p[1..], q);
      }
    }
  }

  /** A change at one path leaves every path that branches off alone. */
  lemma {:induction false} FocusElsewhere(v: Value, p: seq<Key>, q: seq<Key>, c: Change)
    requires ApplyAt(v, q, c).Some?
    requires var n := CommonPrefixLen(p, q); n < |p| && n < |q|
    ensures Focus(ApplyAt(v, q, c).value, p) == Focus(v, p)
    decreases |p|
  {
    var x := ApplyAt(Get(v, q[0]).value, q[1..], c).value;
    if p[0] == q[0] {
      FocusElsewhere(Get(v, q[0]).value, p[1..], q[1..], c);
      GetPut(v, q[0], x);
    } else {
      GetElsewhere(v, q[0], x, p[0]);
    }
  }

  lemma ListTracks(items: seq<Value>, c: Change, p: seq<Key>)
    requires p != [] && (c.SpliceIn? || c.MoveBy?) && Apply(Val(Arr(items)), c).Some? && Focus(Val(Arr(items)), p).Some?
    ensures Tracks(Focus(Val(Arr(items)), p).value, Apply(Val(Arr(items)), c).value, Follow(p, c))
  {
    var i, r := p[0].i, Follow(p, c);
    if c.MoveBy? {
      ShiftMapsIndex(items, c.move, i);
    }
    if r.Kept? {
      assert r.path[1..] == p[1..];
    }
  }

  /** A path follows its value through any change: what is at the new path after the change is the old
      value with the scoped change applied. */
  lemma {:induction false} PathTracks(v: Value, p: seq<Key>, c: Change)
    requires Focus(v, p).Some? && Apply(v, c).Some?
    ensures Tracks(Focus(v, p).value, Apply(v, c).value, Follow(p, c))
    decreases c, 0
  {
    if p != [] {
      match c
      case Noop =>
      case Replace(_, _) =>
      case SpliceIn(_) => ListTracks(v.node.items, c, p);
      case MoveBy(_) => ListTracks(v.node.items, c, p);
      case PathChange(q, inner) => PathChangeTracks(v, p, q, inner);
      case ChangeSet(cs) => EachTracks(Focus(v, p).value, v, Kept(p, Noop, Noop, Noop), cs);
    }
  }

  /** The change happens at the path or below it. */
  lemma BelowTracks(v: Value, p: seq<Key>, sub: seq<Key>, inner: Change)
    requires Focus(v, p).Some? && ApplyAt(v, p + sub, inner).Some?
    ensures var x := Apply(Focus(v, p).value, PathChange(sub, inner));
            x.Some? && Focus(ApplyAt(v, p + sub, inner).value, p) == x
  {
    ApplyAtSplit(v, p, sub, inner);
    ApplyAtFocus(v, p, PathChange(sub, inner));
  }

  /** The change happens above the end of the path. */
  lemma {:induction false} AboveTracks(v: Value, q: seq<Key>, sub: seq<Key>, inner: Change)
    requires Focus(v, q + sub).Some? && ApplyAt(v, q, inner).Some?
    ensures Tracks(Focus(v, q + sub).value, ApplyAt(v, q, inner).value, Follow(sub, inner).Prefix(q))
    decreases inner, 1
  {
    FocusSplit(v, q, sub);
    ApplyAtFocus(v, q, inner);
    PathTracks(Focus(v, q).value, sub, inner);
    var r := Follow(sub, inner);
    if r.Kept? {
      FocusSplit(ApplyAt(v, q, inner).value, q, r.path);
    }
  }

  lemma {:induction false} PathChangeTracks(v: Value, p: seq<Key>, q: seq<Key>, inner: Change)
    requires p != [] && Focus(v, p).Some? && ApplyAt(v, q, inner).Some?
    ensures Tracks(Focus(v, p).value, ApplyAt(v, q, inner).value, Follow(p, PathChange(q, inner)))
    decreases inner, 2
  {
    var n := CommonPrefixLen(p, q);
    if |p| == n {
      assert q == p + q[n..];
      BelowTracks(v, p, q[n..], inner);
    } else if |q| > n {
      FocusElsewhere(v, p, q, inner);
    } else {
      assert p == q + p[n..] && p[..n] == q;
      AboveTracks(v, q, p[n..], inner);
    }
  }

  lemma {:induction false} EachTracks(x: Value, v: Value, r: Followed, cs: seq<Change>)
    requires r.Kept? && Tracks(x, v, r) && ApplyAll(v, cs).Some?
    ensures Tracks(x, ApplyAll(v, cs).value, FollowEach(r, cs))
    decreases cs, 0
  {
    if cs != [] {
      PathTracks(v, r.path, cs[0]);
      var next := Follow(r.path, cs[0]);
      if next.Kept? {
        JoinChangesApply(x, r.scoped, next.scoped);
        EachTracks(x, Apply(v, cs[0]).value, r.Join(next), cs[1..]);
      }
    }
  }

  // ----- an independent definition of where a path goes -----

  /** Key k of a value to which a basic change is applied: None if what it leads to is removed. */
  function MappedKey(k: Key, c: Change): Option<Key> {
    if c.SpliceIn? && k.Index? && c.splice.MapIndex(k.i).Some? then Some(Index(c.splice.MapIndex(k.i).value))
    else if c.MoveBy? && k.Index? then Some(Index(c.move.MapIndex(k.i)))
    else None
  }

  /** Only changes strictly above the end of the path matter. */
  function PassLeaf(p: seq<Key>, leaf: Leaf): Option<seq<Key>> {
    var n := |leaf.path|;
    if n < |p| && p[..n] == leaf.path then
      var k :- MappedKey(p[n], leaf.change);
      Some(p[n := k])
    else Some(p)
  }

  function PassLeaves(p: seq<Key>, leaves: seq<Leaf>): Option<seq<Key>>
    decreases |leaves|
  {
    if leaves == [] then Some(p)
    else
      var q :- PassLeaf(p, leaves[0]);
      PassLeaves(q, leaves[1..])
  }

  lemma {:induction false} PassConcat(p: seq<Key>, ls: seq<Leaf>, ms: seq<Leaf>)
    ensures PassLeaves(p, ls + ms) == (var q := PassLeaves(p, ls); if q.Some? then PassLeaves(q.value, ms) else None)
    decreases |ls|
  {
    if ls == [] {
      assert ls + ms == ms;
    } else {
      assert (ls + ms)[1..] == ls[1..] + ms;
      if PassLeaf(p, ls[0]).Some? {
        PassConcat(PassLeaf(p, ls[0]).value, ls[1..], ms);
      }
    }
  }

  lemma {:induction false} PassDeeper(q: seq<Key>, p: seq<Key>, leaves: seq<Leaf>)
    ensures PassLeaves(q + p, Deeper(q, leaves))
         == (var r := PassLeaves(p, leaves); if r.Some? then Some(q + r.value) else None)
    decreases |leaves|
  {
    if leaves != [] {
      var l := leaves[0];
      var n := |l.path|;
      assert (q + p)[..|q|] == q;
      if n < |p| {
        assert (q + p)[..|q| + n] == q + p[..n];
        assert (q + p[..n])[|q|..] == p[..n] && (q + l.path)[|q|..] == l.path;
        assert (q + p)[|q| + n] == p[n];
        var k := MappedKey(p[n], l.change);
        assert k.Some? ==> (q + p)[|q| + n := k.value] == q + p[n := k.value];
      }
      var next := PassLeaf(p, l);
      assert PassLeaf(q + p, Leaf(q + l.path, l.change)) == if next.Some? then Some(q + next.value) else None;
      if next.Some? {
        PassDeeper(q, next.value, leaves[1..]);
      }
    }
  }

  /** Changes at or below the path, or beside it, do not move it. */
  lemma {:induction false} PassBeside(p: seq<Key>, q: seq<Key>, leaves: seq<Leaf>)
    requires var n := CommonPrefixLen(p, q); |p| == n || n < |q|
    ensures PassLeaves(p, Deeper(q, leaves)) == Some(p)
    decreases |leaves|
  {
    if leaves != [] {
      var n, path := CommonPrefixLen(p, q), q + leaves[0].path;
      assert n < |q| && |path| <= |p| ==> p[..|path|][n] == p[n] && path[n] == q[n];
      PassBeside(p, q, leaves[1..]);
    }
  }

  function PathIn(r: Followed): Option<seq<Key>> { if r.Kept? then Some(r.path) else None }

  /** Following a path is passing it by the basic changes one after another; it is lost exactly when one
      of them replaces a value above its end or removes an element it goes through. */
  lemma {:induction false} FollowPassesLeaves(p: seq<Key>, c: Change)
    requires !Follow(p, c).BadKey?
    ensures PathIn(Follow(p, c)) == PassLeaves(p, Leaves(c))
    decreases c, 0
  {
    if c.PathChange? {
      var q := c.path;
      var n := CommonPrefixLen(p, q);
      if |p| == n || n < |q| {
        PassBeside(p, q, Leaves(c.inner));
      } else {
        assert p == q + p[n..] && p[..n] == q;
        FollowPassesLeaves(p[n..], c.inner);
        PassDeeper(q, p[n..], Leaves(c.inner));
      }
    } else if p == [] {
      EmptyPathStays(Leaves(c));
    } else if c.ChangeSet? {
      EachPassesLeaves(Kept(p, Noop, Noop, Noop), c.changes);
    } else if IsBasic(c) {
      var r := Follow(p, c);
      assert p[..0] == [] && (r.Kept? ==> r.path == p[0 := r.path[0]]);
      assert PassLeaves(p, [Leaf([], c)]) == PassLeaf(p, Leaf([], c));
    }
  }

  lemma {:induction false} EmptyPathStays(leaves: seq<Leaf>)
    ensures PassLeaves([], leaves) == Some([])
    decreases |leaves|
  {
    if leaves != [] {
      EmptyPathStays(leaves[1..]);
    }
  }

  lemma {:induction false} EachPassesLeaves(r: Followed, cs: seq<Change>)
    requires r.Kept? && !FollowEach(r, cs).BadKey?
    ensures PathIn(FollowEach(r, cs)) == PassLeaves(r.path, LeavesOf(cs))
    decreases cs, 0
  {
    if cs != [] {
      var next := Follow(r.path, cs[0]);
      assert FollowEach(r, cs) == FollowEach(r.Join(next), cs[1..]);
      FollowPassesLeaves(r.path, cs[0]);
      PassConcat(r.path, Leaves(cs[0]), LeavesOf(cs[1..]));
      if next.Kept? {
        EachPassesLeaves(r.Join(next), cs[1..]);
      }
    }
  }

  // ----- the program's form -----

  /** A merge result whose methods overwrite its fields. */
  class MergeResult {
    var p: seq<Key>
    var scoped: Change
    var affected: Change
    var unaffected: Change

    function Value(): Followed
      reads this
    {
      Kept(p, scoped, affected, unaffected)
    }

    constructor (p: seq<Key>, scoped: Change, affected: Change, unaffected: Change)
      ensures Value() == Kept(p, scoped, affected, unaffected)
    {
      this.p, this.scoped, this.affected, this.unaffected := p, scoped, affected, unaffected;
    }

    /** Adds the next member's result; nothing is left if that is nil. */
    method Join(o: MergeResult?) returns (r: MergeResult?)
      modifies this
      ensures o == null ==> r == null
      ensures o != null ==> r == this && Value() == old(Value()).Join(old(o.Value()))
    {
      if o == null {
        return null;
      }
      p := o.p;
      scoped := JoinChanges(scoped, o.scoped);
      affected := JoinChanges(affected, o.affected);
      unaffected := JoinChanges(unaffected, o.unaffected);
      r := this;
    }

    method AddPrefix(other: seq<Key>)
      modifies this
      ensures Value() == old(Value()).Prefix(other)
    {
      p := other + p;
      affected := Under(other, affected);
      unaffected := Under(other, unaffected);
    }
  }

  /** refs.Merge, with its loops over path elements and over the members of a set. Follow is BadKey where
      the program panics. */
  method MergePath(p: seq<Key>, c: Change) returns (r: MergeResult?)
    requires !Follow(p, c).BadKey?
    ensures r == null <==> Follow(p, c).Gone?
    ensures r != null ==> fresh(r) && r.Value() == Follow(p, c)
    decreases c, 0
  {
    if p == [] {
      r := new MergeResult([], c, c, Noop);
    } else {
      match c
      case Noop => r := new MergeResult(p, Noop, Noop, c);
      case Replace(_, _) => r := null;
      case MoveBy(m) => r := new MergeResult([Index(m.MapIndex(p[0].i))] + p[1..], Noop, Noop, c);
      case SpliceIn(s) =>
        var idx := s.MapIndex(p[0].i);
        if idx.None? {
          r := null;
        } else {
          r := new MergeResult([Index(idx.value)] + p[1..], Noop, Noop, c);
        }
      case PathChange(q, inner) => r := MergeBelow(p, q, inner);
      case ChangeSet(cs) => r := MergeMembers(p, cs);
    }
  }

  method MergeBelow(p: seq<Key>, q: seq<Key>, inner: Change) returns (r: MergeResult?)
    requires p != [] && !Follow(p, PathChange(q, inner)).BadKey?
    ensures r == null <==> Follow(p, PathChange(q, inner)).Gone?
    ensures r != null ==> fresh(r) && r.Value() == Follow(p, PathChange(q, inner))
    decreases inner, 1
  {
    var idx := 0;
    while |p| > idx && |q| > idx
      invariant idx <= |p| && idx <= |q| && p[..idx] == q[..idx]
      decreases |p| - idx
    {
      if p[idx] != q[idx] {
        CommonPrefixIs(p, q, idx);
        r := new MergeResult(p, Noop, Noop, PathChange(q, inner));
        return;
      }
      idx := idx + 1;
    }
    CommonPrefixIs(p, q, idx);
    if |p| == idx {
      r := new MergeResult(p, PathChange(q[idx..], inner), PathChange(q, inner), Noop);
    } else {
      r := MergePath(p[idx..], inner);
      if r != null {
        r.AddPrefix(p[..idx]);
      }
    }
  }

  method MergeMembers(p: seq<Key>, cs: seq<Change>) returns (r: MergeResult?)
    requires !FollowEach(Kept(p, Noop, Noop, Noop), cs).BadKey?
    ensures r == null <==> FollowEach(Kept(p, Noop, Noop, Noop), cs).Gone?
    ensures r != null ==> fresh(r) && r.Value() == FollowEach(Kept(p, Noop, Noop, Noop), cs)
    decreases cs, 0
  {
    var result := new MergeResult(p, Noop, Noop, Noop);
    for i := 0 to |cs|
      invariant fresh(result) && FollowEach(result.Value(), cs[i..]) == FollowEach(Kept(p, Noop, Noop, Noop), cs)
    {
      ghost var before := result.Value();
      assert cs[i..][0] == cs[i] && cs[i..][1..] == cs[i + 1..];
      assert FollowEach(before, cs[i..]) == FollowEach(before.Join(Follow(before.path, cs[i])), cs[i + 1..]);
      var next := MergePath(result.p, cs[i]);
      var joined := result.Join(next);
      if joined == null {
        return null;
      }
      result := joined;
    }
    assert cs[|cs|..] == [];
    r := result;
  }
}

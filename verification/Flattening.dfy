/** A change taken apart into basic changes and the paths at which they happen. */
module Flattening {
  import opened Options
  import opened Changes
  import opened Merging
  import Convergence

  /** A basic change and where it happens. */
  datatype Leaf = Leaf(path: seq<Key>, change: Change)

  function Deeper(q: seq<Key>, leaves: seq<Leaf>): (r: seq<Leaf>)
    ensures |r| == |leaves|
  {
    if leaves == [] then [] else [Leaf(q + leaves[0].path, leaves[0].change)] + Deeper(q, leaves[1..])
  }

  /** The basic changes in the order in which they happen; nils are dropped. */
  function Leaves(c: Change): seq<Leaf>
    decreases c, 0
  {
    match c
    case Noop => []
    case PathChange(q, inner) => Deeper(q, Leaves(inner))
    case ChangeSet(cs) => LeavesOf(cs)
    case _ => [Leaf([], c)]
  }

  function LeavesOf(cs: seq<Change>): seq<Leaf>
    decreases cs, 0
  {
    if cs == [] then [] else Leaves(cs[0]) + LeavesOf(cs[1..])
  }

  predicate AllBasic(leaves: seq<Leaf>) { leaves != [] ==> IsBasic(leaves[0].change) && AllBasic(leaves[1..]) }

  // ----- lists of leaves -----

  lemma {:induction false} DeeperConcat(q: seq<Key>, ls: seq<Leaf>, ms: seq<Leaf>)
    ensures Deeper(q, ls + ms) == Deeper(q, ls) + Deeper(q, ms)
    decreases |ls|
  {
    if ls == [] {
      assert ls + ms == ms;
    } else {
      assert (ls + ms)[1..] == ls[1..] + ms;
      DeeperConcat(q, ls[1..], ms);
    }
  }

  lemma {:induction false} DeeperTwice(p: seq<Key>, q: seq<Key>, ls: seq<Leaf>)
    ensures Deeper(p, Deeper(q, ls)) == Deeper(p + q, ls)
    decreases |ls|
  {
    if ls != [] {
      assert p + (q + ls[0].path) == p + q + ls[0].path;
      DeeperTwice(p, q, ls[1..]);
    }
  }

  lemma {:induction false} DeeperNowhere(ls: seq<Leaf>)
    ensures Deeper([], ls) == ls
    decreases |ls|
  {
    if ls != [] {
      assert [] + ls[0].path == ls[0].path;
      DeeperNowhere(ls[1..]);
    }
  }

  lemma DeeperOne(q: seq<Key>, l: Leaf)
    ensures Deeper(q, [l]) == [Leaf(q + l.path, l.change)]
  {
    assert [l][1..] == [];
  }

  lemma {:induction false} BasicConcat(ls: seq<Leaf>, ms: seq<Leaf>)
    ensures AllBasic(ls + ms) <==> AllBasic(ls) && AllBasic(ms)
    decreases |ls|
  {
    if ls == [] {
      assert ls + ms == ms;
    } else {
      assert (ls + ms)[1..] == ls[1..] + ms;
      BasicConcat(ls[1..], ms);
    }
  }

  lemma {:induction false} DeeperBasic(q: seq<Key>, ls: seq<Leaf>)
    requires AllBasic(ls)
    ensures AllBasic(Deeper(q, ls))
    decreases |ls|
  {
    if ls != [] {
      DeeperBasic(q, ls[1..]);
    }
  }

  lemma {:induction false} LeavesBasic(c: Change)
    ensures AllBasic(Leaves(c))
    decreases c, 0
  {
    match c
    case PathChange(q, inner) => LeavesBasic(inner); DeeperBasic(q, Leaves(inner));
    case ChangeSet(cs) => LeavesOfBasic(cs);
    case _ =>
  }

  lemma {:induction false} LeavesOfBasic(cs: seq<Change>)
    ensures AllBasic(LeavesOf(cs))
    decreases cs, 0
  {
    if cs != [] {
      LeavesBasic(cs[0]);
      LeavesOfBasic(cs[1..]);
      BasicConcat(Leaves(cs[0]), LeavesOf(cs[1..]));
    }
  }

  // ----- Simplify only drops nils and nesting -----

  lemma {:induction false} LeavesOfConcat(cs: seq<Change>, ds: seq<Change>)
    ensures LeavesOf(cs + ds) == LeavesOf(cs) + LeavesOf(ds)
    decreases |cs|
  {
    if cs == [] {
      assert cs + ds == ds;
    } else {
      assert (cs + ds)[1..] == cs[1..] + ds;
      LeavesOfConcat(cs[1..], ds);
    }
  }

  lemma LeavesOfOne(c: Change)
    ensures LeavesOf([c]) == Leaves(c)
  {
    assert [c][1..] == [];
  }

  /** Simplify keeps every basic change where it is. */
  lemma {:induction false} SimplifyKeepsLeaves(c: Change)
    ensures Leaves(Simplify(c)) == Leaves(c)
    decreases c, 0
  {
    match c
    case ChangeSet(cs) => SimplifySetKeepsLeaves(cs);
    case PathChange(path, inner) =>
      var cx := Simplify(inner);
      SimplifyKeepsLeaves(inner);
      if path == [] {
        DeeperNowhere(Leaves(inner));
      } else if cx.PathChange? {
        DeeperTwice(path, cx.path, Leaves(cx.inner));
      }
    case _ =>
  }

  lemma {:induction false} SimplifySetKeepsLeaves(cs: seq<Change>)
    ensures Leaves(SimplifySet(cs)) == LeavesOf(cs)
    decreases cs, 1
  {
    SimplifyEachKeepsLeaves(cs);
    var kept := SimplifyEach(cs);
    if |kept| == 1 {
      LeavesOfOne(kept[0]);
      assert kept == [kept[0]];
    }
  }

  lemma {:induction false} SimplifyEachKeepsLeaves(cs: seq<Change>)
    ensures LeavesOf(SimplifyEach(cs)) == LeavesOf(cs)
    decreases cs, 0
  {
    if cs != [] {
      var cx := Simplify(cs[0]);
      SimplifyKeepsLeaves(cs[0]);
      SimplifyEachKeepsLeaves(cs[1..]);
      LeavesOfConcat(if cx.Noop? then [] else [cx], SimplifyEach(cs[1..]));
      LeavesOfOne(cx);
    }
  }

  // ----- the effect of the leaves -----

  function ApplyLeaves(v: Value, ls: seq<Leaf>): Option<Value>
    decreases |ls|
  {
    if ls == [] then Some(v)
    else
      var w :- ApplyAt(v, ls[0].path, ls[0].change);
      ApplyLeaves(w, ls[1..])
  }

  lemma {:induction false} ApplyLeavesConcat(v: Value, ls: seq<Leaf>, ms: seq<Leaf>)
    ensures ApplyLeaves(v, ls + ms) == (var w := ApplyLeaves(v, ls); if w.Some? then ApplyLeaves(w.value, ms) else None)
    decreases |ls|
  {
    if ls == [] {
      assert ls + ms == ms;
    } else {
      assert (ls + ms)[1..] == ls[1..] + ms;
      var w := ApplyAt(v, ls[0].path, ls[0].change);
      if w.Some? {
        ApplyLeavesConcat(w.value, ls[1..], ms);
      }
    }
  }

  /** The leaves as path changes. */
  function AsChanges(ls: seq<Leaf>): seq<Change> {
    if ls == [] then [] else [PathChange(ls[0].path, ls[0].change)] + AsChanges(ls[1..])
  }

  lemma {:induction false} AsChangesApply(v: Value, ls: seq<Leaf>)
    ensures Apply(v, ChangeSet(AsChanges(ls))) == ApplyLeaves(v, ls)
    decreases |ls|
  {
    if ls != [] {
      var cs := AsChanges(ls);
      assert cs[0] == PathChange(ls[0].path, ls[0].change) && cs[1..] == AsChanges(ls[1..]);
      var w := ApplyAt(v, ls[0].path, ls[0].change);
      assert Apply(v, cs[0]) == w;
      if w.Some? {
        AsChangesApply(w.value, ls[1..]);
        assert Apply(w.value, ChangeSet(cs[1..])) == Changes.ApplyAll(w.value, cs[1..]);
      }
      assert Apply(v, ChangeSet(cs)) == Changes.ApplyAll(v, cs);
    }
  }

  /** If c does what the leaves do, then c at the end of a path does what the leaves below it do. */
  lemma {:induction false} ApplyDeeper(v: Value, q: seq<Key>, ls: seq<Leaf>, c: Change)
    requires Focus(v, q).Some? && Apply(Focus(v, q).value, c).Some?
    requires ApplyLeaves(Focus(v, q).value, ls) == Apply(Focus(v, q).value, c)
    ensures ApplyLeaves(v, Deeper(q, ls)) == ApplyAt(v, q, c)
    decreases |ls|
  {
    var x := Focus(v, q).value;
    ApplyAtFocus(v, q, c);
    if ls == [] {
      Convergence.ApplyAtCongruent(v, q, c, Noop);
      ApplyAtNoop(v, q, c);
    } else {
      var l := PathChange(ls[0].path, ls[0].change);
      var rest := ChangeSet(AsChanges(ls[1..]));
      var y := Apply(x, l).value;
      AsChangesApply(y, ls[1..]);
      ApplyAtFocus(v, q, l);
      LiftSteps(v, q, l, rest, c, Noop);
      ApplyAtFocus(ApplyAt(v, q, c).value, q, Noop);
      ApplyAtNoop(ApplyAt(v, q, c).value, q, Noop);
      ApplyAtSplit(v, q, ls[0].path, ls[0].change);
      ApplyDeeper(ApplyAt(v, q, l).value, q, ls[1..], rest);
    }
  }

  /** The leaves one after another do what the change does. */
  lemma {:induction false} LeavesApply(v: Value, c: Change)
    requires Apply(v, c).Some?
    ensures ApplyLeaves(v, Leaves(c)) == Apply(v, c)
    decreases c, 0
  {
    if c.PathChange? {
      ApplyAtFocus(v, c.path, c.inner);
      LeavesApply(Focus(v, c.path).value, c.inner);
      ApplyDeeper(v, c.path, Leaves(c.inner), c.inner);
    } else if c.ChangeSet? {
      LeavesOfApply(v, c.changes);
    } else if IsBasic(c) {
      assert [Leaf([], c)][1..] == [];
      assert ApplyLeaves(Apply(v, c).value, []) == Apply(v, c);
    }
  }

  lemma {:induction false} LeavesOfApply(v: Value, cs: seq<Change>)
    requires Changes.ApplyAll(v, cs).Some?
    ensures ApplyLeaves(v, LeavesOf(cs)) == Changes.ApplyAll(v, cs)
    decreases cs, 0
  {
    if cs != [] {
      LeavesApply(v, cs[0]);
      LeavesOfApply(Apply(v, cs[0]).value, cs[1..]);
      ApplyLeavesConcat(v, Leaves(cs[0]), LeavesOf(cs[1..]));
    }
  }
}

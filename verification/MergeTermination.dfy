/** The depth bound of Merging never changes an answer. */
module MergeTermination {
  import opened Options
  import opened Changes
  import opened Merging
  import opened Convergence

  /** More fuel gives the same answer. */
  lemma {:induction false} MergeMoreFuel(a: Change, b: Change, f: nat, g: nat)
    requires f <= g && !Merge(a, b, f).OutOfFuel?
    ensures Merge(a, b, g) == Merge(a, b, f)
    decreases f, 0
  {
    if a.Noop? {
    } else if a.ChangeSet? {
      MergeEachMoreFuel(a.changes, b, f - 1, g - 1);
    } else if a.PathChange? {
      MergePathsMoreFuel(a.path, a.inner, PathOf(b), InnerOf(b), false, f - 1, g - 1);
    } else if b.IsComposite() {
      ReverseMergeMoreFuel(b, a, f - 1, g - 1);
    }
  }

  lemma {:induction false} ReverseMergeMoreFuel(a: Change, b: Change, f: nat, g: nat)
    requires a.IsComposite() && f <= g && !ReverseMerge(a, b, f).OutOfFuel?
    ensures ReverseMerge(a, b, g) == ReverseMerge(a, b, f)
    decreases f, 0
  {
    if a.ChangeSet? {
      ReverseMergeEachMoreFuel(a.changes, b, f - 1, g - 1);
    } else {
      MergePathsMoreFuel(a.path, a.inner, PathOf(b), InnerOf(b), true, f - 1, g - 1);
    }
  }

  lemma {:induction false} MergeEachMoreFuel(cs: seq<Change>, other: Change, f: nat, g: nat)
    requires f <= g && MergeEach(cs, other, f) != Stopped(OutOfFuel)
    ensures MergeEach(cs, other, g) == MergeEach(cs, other, f)
    decreases f, 1, |cs|
  {
    if cs != [] {
      MergeMoreFuel(cs[0], other, f, g);
      var m := Merge(cs[0], other, f);
      if m.Done? {
        MergeEachMoreFuel(cs[1..], m.otherx, f, g);
      }
    }
  }

  lemma {:induction false} ReverseMergeEachMoreFuel(cs: seq<Change>, other: Change, f: nat, g: nat)
    requires f <= g && ReverseMergeEach(cs, other, f) != Stopped(OutOfFuel)
    ensures ReverseMergeEach(cs, other, g) == ReverseMergeEach(cs, other, f)
    decreases f, 1, |cs|
  {
    if cs != [] {
      MergeMoreFuel(other, cs[0], f, g);
      var m := Merge(other, cs[0], f);
      if m.Done? {
        ReverseMergeEachMoreFuel(cs[1..], m.cx, f, g);
      }
    }
  }

  lemma {:induction false} MergePathsMoreFuel(p: seq<Key>, l: Change, q: seq<Key>, r: Change, reverse: bool, f: nat,
                                              g: nat)
    requires f <= g && !MergePaths(p, l, q, r, reverse, f).OutOfFuel?
    ensures MergePaths(p, l, q, r, reverse, g) == MergePaths(p, l, q, r, reverse, f)
    decreases f, 5
  {
    var n := CommonPrefixLen(p, q);
    if |p| != n && |q| != n {
    } else if |p| == n && |q| == n {
      MergeUnderMoreFuel(p, l, r, reverse, f, g);
    } else if |p| == n {
      MergeSubPathMoreFuel(p, l, q, r, reverse, f, g);
    } else {
      MergeSubPathMoreFuel(q, r, p, l, !reverse, f, g);
    }
  }

  lemma {:induction false} MergeUnderMoreFuel(prefix: seq<Key>, l: Change, r: Change, reverse: bool, f: nat, g: nat)
    requires f <= g && !MergeUnder(prefix, l, r, reverse, f).OutOfFuel?
    ensures MergeUnder(prefix, l, r, reverse, g) == MergeUnder(prefix, l, r, reverse, f)
    decreases f, 3
  {
    if reverse && l.IsComposite() {
      ReverseMergeMoreFuel(l, r, f, g);
    } else if reverse && !r.Noop? {
      MergeMoreFuel(r, l, f, g);
    } else if !l.Noop? {
      MergeMoreFuel(l, r, f, g);
    }
  }

  lemma {:induction false} MergeSubPathMoreFuel(p: seq<Key>, l: Change, q: seq<Key>, r: Change, reverse: bool, f: nat,
                                                g: nat)
    requires |p| < |q| && f <= g && !MergeSubPath(p, l, q, r, reverse, f).OutOfFuel?
    ensures MergeSubPath(p, l, q, r, reverse, g) == MergeSubPath(p, l, q, r, reverse, f)
    decreases f, 4
  {
    if l.IsComposite() {
      MergeUnderMoreFuel(p, l, PathChange(q[|p|..], r), reverse, f, g);
    }
  }

  /** Two bounds that both give an answer give the same one. */
  lemma FuelIrrelevant(a: Change, b: Change, f: nat, g: nat)
    requires !Merge(a, b, f).OutOfFuel? && !Merge(a, b, g).OutOfFuel?
    ensures Merge(a, b, f) == Merge(a, b, g)
  {
    if f <= g {
      MergeMoreFuel(a, b, f, g);
    } else {
      MergeMoreFuel(a, b, g, f);
    }
  }

  /** What c.Merge(other) returns; OutOfFuel if it never does. */
  ghost function Returned(c: Change, other: Change): (m: Merged) {
    if fuel :| !Merge(c, other, fuel).OutOfFuel? then Merge(c, other, fuel) else OutOfFuel
  }

  lemma ReturnedAt(c: Change, other: Change, fuel: nat)
    requires !Merge(c, other, fuel).OutOfFuel?
    ensures Returned(c, other) == Merge(c, other, fuel)
  {
    var f :| !Merge(c, other, f).OutOfFuel? && Returned(c, other) == Merge(c, other, f);
    FuelIrrelevant(c, other, f, fuel);
  }

  /** Convergence, without mention of the bound. */
  lemma ReturnedConverges(v: Value, a: Change, b: Change)
    requires Apply(v, a).Some? && Apply(v, b).Some?
    ensures Converges(v, a, b, Returned(a, b))
  {
    if fuel :| !Merge(a, b, fuel).OutOfFuel? {
      ReturnedAt(a, b, fuel);
      MergeConverges(v, a, b, fuel);
    }
  }
}

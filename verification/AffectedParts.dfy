/** The affected and the unaffected part of a followed path (refs/refs.go:53-55): what they always amount to,
    and when they amount to the change itself. */
module AffectedParts {
  import opened Options
  import opened Moves
  import opened Splices
  import opened Changes
  import opened Merging
  import opened Flattening
  import opened Refs
  import Convergence
  import Reverting

  lemma ApplyTwo(v: Value, c: Change, d: Change)
    ensures Changes.ApplyAll(v, [c, d]) == (var w := Apply(v, c); if w.Some? then Apply(w.value, d) else None)
  {
    var w := Apply(v, c);
    if w.Some? {
      Convergence.ApplyAllOne(w.value, d);
    }
  }

  lemma ApplyUnder(v: Value, q: seq<Key>, c: Change)
    requires ApplyAt(v, q, c).Some?
    ensures Apply(v, Under(q, c)) == ApplyAt(v, q, c)
  {
    if c.Noop? {
      ApplyAtNoop(v, q, c);
    }
  }

  lemma ApplyBelow(u: Value, p: seq<Key>, sub: seq<Key>, inner: Change)
    ensures Apply(u, PathChange(p + sub, inner)) == ApplyAt(u, p, PathChange(sub, inner))
  {
    ApplyAtSplit(u, p, sub, inner);
  }

  lemma Extends(p: seq<Key>, q: seq<Key>)
    requires |p| <= |q| && q[..|p|] == p
    ensures q == p + q[|p|..]
  {
  }

  // ----- the unaffected part slides past changes at the path -----

  /** e at p and then un is un and then e at p1. */
  predicate Slides(v: Value, p: seq<Key>, e: Change, un: Change, p1: seq<Key>) {
    var after, moved := ApplyAt(v, p, e), Apply(v, un);
    && after.Some? && moved.Some? && Apply(after.value, un).Some?
    && Apply(after.value, un) == ApplyAt(moved.value, p1, e)
  }

  lemma MoveSlides(v: Value, p: seq<Key>, m: Move, e: Change)
    requires p != [] && Apply(v, MoveBy(m)).Some? && ApplyAt(v, p, e).Some?
    ensures p[0].Index? && Slides(v, p, e, MoveBy(m), p[0 := Index(m.MapIndex(p[0].i))])
  {
    Convergence.MoveOverElement(v, m, p, e);
  }

  lemma SpliceSlides(v: Value, p: seq<Key>, s: Splice<Value>, e: Change)
    requires p != [] && Apply(v, SpliceIn(s)).Some? && ApplyAt(v, p, e).Some?
    ensures p[0].Index?
    ensures var j := s.MapIndex(p[0].i); j.Some? ==> Slides(v, p, e, SpliceIn(s), p[0 := Index(j.value)])
  {
    Convergence.SpliceOverElement(v, s, p, e);
    assert p[0 := p[0]] == p;
  }

  lemma ElementSlides(v: Value, p: seq<Key>, c: Change, e: Change)
    requires p != [] && (c.SpliceIn? || c.MoveBy?) && Apply(v, c).Some? && ApplyAt(v, p, e).Some? && Follow(p, c).Kept?
    ensures Slides(v, p, e, c, Follow(p, c).path)
  {
    var q := Follow(p, c).path;
    if c.MoveBy? {
      MoveSlides(v, p, c.move, e);
    } else {
      SpliceSlides(v, p, c.splice, e);
    }
    assert q == p[0 := q[0]];
  }

  /** Sliding at the end of a path. */
  lemma SlidesUnder(v: Value, q: seq<Key>, sub: seq<Key>, e: Change, un: Change, sub1: seq<Key>)
    requires Focus(v, q).Some? && Slides(Focus(v, q).value, sub, e, un, sub1)
    ensures Slides(v, q + sub, e, Under(q, un), q + sub1)
  {
    var x, c, c1 := Focus(v, q).value, PathChange(sub, e), PathChange(sub1, e);
    ApplyAtFocus(v, q, c);
    ApplyAtFocus(v, q, un);
    LiftSteps(v, q, c, un, un, c1);
    var after, moved := ApplyAt(v, q, c).value, ApplyAt(v, q, un).value;
    ApplyUnder(v, q, un);
    ApplyUnder(after, q, un);
    ApplyAtSplit(v, q, sub, e);
    ApplyAtSplit(moved, q, sub1, e);
  }

  /** Whatever happens to the value at the path, the unaffected part of a change makes no difference to it
      and it makes none to the unaffected part. */
  lemma {:induction false} UnaffectedSlides(v: Value, p: seq<Key>, c: Change, e: Change)
    requires Follow(p, c).Kept? && Apply(v, Follow(p, c).unaffected).Some? && ApplyAt(v, p, e).Some?
    ensures Slides(v, p, e, Follow(p, c).unaffected, Follow(p, c).path)
    decreases c, 0
  {
    if p == [] || c.Noop? {
    } else if c.SpliceIn? || c.MoveBy? {
      ElementSlides(v, p, c, e);
    } else if c.PathChange? {
      PathUnaffectedSlides(v, p, c.path, c.inner, e);
    } else {
      EachSlides(v, p, Kept(p, Noop, Noop, Noop), c.changes, e);
    }
  }

  lemma {:induction false} PathUnaffectedSlides(v: Value, p: seq<Key>, q: seq<Key>, inner: Change, e: Change)
    requires p != [] && Follow(p, PathChange(q, inner)).Kept?
    requires Apply(v, Follow(p, PathChange(q, inner)).unaffected).Some? && ApplyAt(v, p, e).Some?
    ensures var r := Follow(p, PathChange(q, inner)); Slides(v, p, e, r.unaffected, r.path)
    decreases inner, 2
  {
    var n := CommonPrefixLen(p, q);
    if |p| == n {
    } else if |q| > n {
      Convergence.MergePathsApart(v, p, e, q, inner, n);
    } else {
      assert q[..n] == q;
      Extends(q, p);
      AboveSlides(v, q, p[n..], inner, e);
    }
  }

  lemma {:induction false} AboveSlides(v: Value, q: seq<Key>, sub: seq<Key>, inner: Change, e: Change)
    requires Follow(sub, inner).Kept? && ApplyAt(v, q + sub, e).Some?
    requires Apply(v, Under(q, Follow(sub, inner).unaffected)).Some?
    ensures Slides(v, q + sub, e, Under(q, Follow(sub, inner).unaffected), q + Follow(sub, inner).path)
    decreases inner, 1
  {
    var un := Follow(sub, inner).unaffected;
    ApplyAtSplit(v, q, sub, e);
    ApplyAtFocus(v, q, PathChange(sub, e));
    ApplyAtFocus(v, q, un);
    UnaffectedSlides(Focus(v, q).value, sub, inner, e);
    SlidesUnder(v, q, sub, e, un, Follow(sub, inner).path);
  }

  /** What is collected so far applies if what is collected in the end does. */
  lemma {:induction false} CollectedApplies(v: Value, r: Followed, cs: seq<Change>)
    requires r.Kept? && FollowEach(r, cs).Kept? && Apply(v, FollowEach(r, cs).unaffected).Some?
    ensures Apply(v, r.unaffected).Some?
    decreases |cs|
  {
    if cs != [] {
      var next := Follow(r.path, cs[0]);
      StaysKept(r, cs);
      CollectedApplies(v, r.Join(next), cs[1..]);
      JoinChangesApply(v, r.unaffected, next.unaffected);
    }
  }

  /** A lost path stays lost. */
  lemma StaysKept(r: Followed, cs: seq<Change>)
    requires r.Kept? && cs != []
    ensures FollowEach(r, cs) == FollowEach(r.Join(Follow(r.path, cs[0])), cs[1..])
    ensures !Follow(r.path, cs[0]).Kept? ==> !FollowEach(r, cs).Kept?
  {
    var next := r.Join(Follow(r.path, cs[0]));
    if !next.Kept? {
      assert FollowEach(next, cs[1..]) == next;
    }
  }

  lemma {:induction false} EachSlides(v: Value, p: seq<Key>, r: Followed, cs: seq<Change>, e: Change)
    requires r.Kept? && FollowEach(r, cs).Kept? && Apply(v, FollowEach(r, cs).unaffected).Some?
    requires Apply(v, r.unaffected).Some? && Slides(v, p, e, r.unaffected, r.path)
    ensures Slides(v, p, e, FollowEach(r, cs).unaffected, FollowEach(r, cs).path)
    decreases cs, 0
  {
    if cs != [] {
      var next := Follow(r.path, cs[0]);
      StaysKept(r, cs);
      CollectedApplies(v, r.Join(next), cs[1..]);
      JoinChangesApply(v, r.unaffected, next.unaffected);
      JoinChangesApply(ApplyAt(v, p, e).value, r.unaffected, next.unaffected);
      UnaffectedSlides(Apply(v, r.unaffected).value, r.path, cs[0], e);
      EachSlides(v, p, r.Join(next), cs[1..], e);
    }
  }

  // ----- what the unaffected and the scoped part always amount to -----

  /** The unaffected part, and then the scoped part at the final path, lead to w. */
  predicate Rebuilds(v: Value, r: Followed, w: Value)
    requires r.Kept?
  {
    Apply(v, r.unaffected).Some? && ApplyAt(Apply(v, r.unaffected).value, r.path, r.scoped) == Some(w)
  }

  /** Taking a change at a path back and making it again. */
  lemma AndAgain(v: Value, p: seq<Key>, e: Change, w: Value)
    requires ApplyAt(v, p, e) == Some(w)
    ensures ApplyAt(w, p, Reverting.Revert(e)) == Some(v)
  {
    ApplyAtFocus(v, p, e);
    Reverting.RevertUndoes(Focus(v, p).value, e);
    ApplyAtNoop(v, p, e);
    LiftSteps(v, p, e, Reverting.Revert(e), Noop, Noop);
  }

  lemma Undone(w: Value, p: seq<Key>, e: Change, x: Value)
    requires Focus(w, p).Some? && Apply(x, e) == Focus(w, p)
    ensures var back := Reverting.Revert(e);
            && ApplyAt(w, p, back).Some? && ApplyAt(ApplyAt(w, p, back).value, p, e) == Some(w)
  {
    var y, back := Focus(w, p).value, Reverting.Revert(e);
    Reverting.RevertUndoes(x, e);
    ApplyAtFocus(w, p, back);
    ApplyAtFocus(w, p, Noop);
    LiftSteps(w, p, back, e, Noop, Noop);
    ApplyAtNoop(w, p, back);
  }

  /** The unaffected part leaves the value at the path as it is: replacing that value works afterwards, too. */
  lemma FollowedFocus(v: Value, p: seq<Key>, c: Change)
    requires Follow(p, c).Kept? && Focus(v, p).Some? && Apply(v, Follow(p, c).unaffected).Some?
    ensures Focus(Apply(v, Follow(p, c).unaffected).value, Follow(p, c).path) == Focus(v, p)
  {
    var r, e := Follow(p, c), Replace(Focus(v, p).value, Val(Atom(0)));
    ApplyAtFocus(v, p, e);
    UnaffectedSlides(v, p, c, e);
    ApplyAtFocus(Apply(v, r.unaffected).value, r.path, e);
  }

  /** The next member's unaffected part applies without the earlier scoped part too, and slides past it. */
  lemma SlidesBack(u: Value, p: seq<Key>, e: Change, w: Value, c: Change)
    requires ApplyAt(u, p, e) == Some(w) && Follow(p, c).Kept? && Apply(w, Follow(p, c).unaffected).Some?
    ensures Slides(u, p, e, Follow(p, c).unaffected, Follow(p, c).path)
  {
    var r, back := Follow(p, c), Reverting.Revert(e);
    AndAgain(u, p, e, w);
    UnaffectedSlides(w, p, c, back);
    // un on w leads to w1; taking e back there leads to un on u
    var w1 := Apply(w, r.unaffected).value;
    ApplyAtFocus(u, p, e);
    FollowedFocus(w, p, c);
    Undone(w1, r.path, e, Focus(u, p).value);
  }

  /** For every change: the unaffected part and then the scoped part at the path's final place amount to the
      change. */
  lemma {:induction false} ScopedRebuilds(v: Value, p: seq<Key>, c: Change)
    requires Focus(v, p).Some? && Apply(v, c).Some? && Follow(p, c).Kept?
    ensures Rebuilds(v, Follow(p, c), Apply(v, c).value)
    decreases c, 0
  {
    if p == [] || c.Noop? {
      ApplyAtFocus(v, p, Noop);
      ApplyAtIdle(v, p);
    } else if c.SpliceIn? || c.MoveBy? {
      FollowedFocus(v, p, c);
      ApplyAtIdle(Apply(v, c).value, Follow(p, c).path);
    } else if c.PathChange? {
      PathRebuilds(v, p, c.path, c.inner);
    } else {
      ApplyAtIdle(v, p);
      EachRebuilds(v, v, Kept(p, Noop, Noop, Noop), c.changes);
    }
  }

  lemma ApplyAtIdle(v: Value, p: seq<Key>)
    requires Focus(v, p).Some?
    ensures ApplyAt(v, p, Noop) == Some(v)
  {
    ApplyAtFocus(v, p, Noop);
    ApplyAtNoop(v, p, Noop);
  }

  lemma {:induction false} PathRebuilds(v: Value, p: seq<Key>, q: seq<Key>, inner: Change)
    requires p != [] && Focus(v, p).Some? && ApplyAt(v, q, inner).Some? && Follow(p, PathChange(q, inner)).Kept?
    ensures Rebuilds(v, Follow(p, PathChange(q, inner)), ApplyAt(v, q, inner).value)
    decreases inner, 2
  {
    var n := CommonPrefixLen(p, q);
    if |p| == n {
      assert p[..n] == p;
      Extends(p, q);
      ApplyBelow(v, p, q[n..], inner);
    } else if |q| > n {
      FocusElsewhere(v, p, q, inner);
      ApplyAtIdle(ApplyAt(v, q, inner).value, p);
    } else {
      assert q[..n] == q;
      Extends(q, p);
      AboveRebuilds(v, q, p[n..], inner);
    }
  }

  lemma {:induction false} AboveRebuilds(v: Value, q: seq<Key>, sub: seq<Key>, inner: Change)
    requires Focus(v, q + sub).Some? && ApplyAt(v, q, inner).Some? && Follow(sub, inner).Kept?
    ensures Rebuilds(v, Follow(sub, inner).Prefix(q), ApplyAt(v, q, inner).value)
    decreases inner, 1
  {
    var r := Follow(sub, inner);
    var un, scoped := r.unaffected, PathChange(r.path, r.scoped);
    FocusSplit(v, q, sub);
    ApplyAtFocus(v, q, inner);
    ScopedRebuilds(Focus(v, q).value, sub, inner);
    ApplyAtFocus(v, q, un);
    LiftSteps(v, q, un, scoped, inner, Noop);
    ApplyUnder(v, q, un);
    var w := ApplyAt(v, q, inner).value;
    ApplyAtIdle(w, q);
    ApplyAtSplit(ApplyAt(v, q, un).value, q, r.path, r.scoped);
  }

  lemma {:induction false} EachRebuilds(v: Value, w: Value, r: Followed, cs: seq<Change>)
    requires r.Kept? && Rebuilds(v, r, w) && Changes.ApplyAll(w, cs).Some? && FollowEach(r, cs).Kept?
    ensures Rebuilds(v, FollowEach(r, cs), Changes.ApplyAll(w, cs).value)
    decreases cs, 0
  {
    if cs != [] {
      var next, u := Follow(r.path, cs[0]), Apply(v, r.unaffected).value;
      StaysKept(r, cs);
      ApplyAtFocus(u, r.path, r.scoped);
      ScopedRebuilds(w, r.path, cs[0]);
      SlidesBack(u, r.path, r.scoped, w, cs[0]);
      JoinRebuilds(v, u, w, r, cs[0], next);
      EachRebuilds(v, Apply(w, cs[0]).value, r.Join(next), cs[1..]);
    }
  }

  lemma JoinRebuilds(v: Value, u: Value, w: Value, r: Followed, c: Change, next: Followed)
    requires r.Kept? && next.Kept? && Apply(v, r.unaffected) == Some(u) && Apply(w, c).Some?
    requires ApplyAt(u, r.path, r.scoped) == Some(w) && Rebuilds(w, next, Apply(w, c).value)
    requires Slides(u, r.path, r.scoped, next.unaffected, next.path)
    ensures Rebuilds(v, r.Join(next), Apply(w, c).value)
  {
    var s, p := r.Join(next), next.path;
    JoinChangesApply(v, r.unaffected, next.unaffected);
    var u1 := Apply(u, next.unaffected).value;
    var w1 := Apply(w, next.unaffected).value;
    // at p, on u1: the earlier scoped part and then the next one
    ApplyAtFocus(u1, p, r.scoped);
    ApplyAtFocus(w1, p, next.scoped);
    JoinChangesApply(Focus(u1, p).value, r.scoped, next.scoped);
    ApplyAtFocus(u1, p, s.scoped);
    var done := Apply(w, c).value;
    ApplyAtFocus(done, p, Noop);
    ApplyAtIdle(ApplyAt(u1, p, s.scoped).value, p);
    LiftSteps(u1, p, r.scoped, next.scoped, s.scoped, Noop);
  }

  // ----- when the documented equation holds -----

  /** The documented reading of a result: the unaffected part and then the affected part amount to the
      change (refs.go:53-55). */
  predicate Splits(v: Value, c: Change, r: Followed)
    requires r.Kept?
  {
    Changes.ApplyAll(v, [r.unaffected, r.affected]) == Apply(v, c)
  }

  /** It holds exactly when, after the unaffected part, the affected part does what the scoped part does at
      the path's final place. */
  lemma SplitsExactly(v: Value, p: seq<Key>, c: Change)
    requires Focus(v, p).Some? && Apply(v, c).Some? && Follow(p, c).Kept?
    ensures var r := Follow(p, c);
            && Apply(v, r.unaffected).Some?
            && var u := Apply(v, r.unaffected).value;
               Splits(v, c, r) <==> Apply(u, r.affected) == ApplyAt(u, r.path, r.scoped)
  {
    var r := Follow(p, c);
    ScopedRebuilds(v, p, c);
    ApplyTwo(v, r.unaffected, r.affected);
  }

  function Inside(q: seq<Key>, sites: seq<seq<Key>>): seq<seq<Key>> {
    if sites == [] then [] else [q + sites[0]] + Inside(q, sites[1..])
  }

  /** Where the path is each time a part of the change happens at its end or below. */
  function Sites(p: seq<Key>, c: Change): seq<seq<Key>>
    decreases c, 0
  {
    if p == [] then [p]
    else if c.PathChange? then
      var n := CommonPrefixLen(p, c.path);
      if |p| == n then [p] else if |c.path| > n then [] else Inside(c.path, Sites(p[n..], c.inner))
    else if c.ChangeSet? then SitesOf(p, c.changes)
    else []
  }

  function SitesOf(p: seq<Key>, cs: seq<Change>): seq<seq<Key>>
    decreases cs, 0
  {
    if cs == [] then []
    else
      var q := PassLeaves(p, Leaves(cs[0]));
      Sites(p, cs[0]) + (if q.Some? then SitesOf(q.value, cs[1..]) else [])
  }

  predicate AllAt(sites: seq<seq<Key>>, f: seq<Key>) { sites != [] ==> sites[0] == f && AllAt(sites[1..], f) }

  /** Whenever the change touches the value at the path, the path is where it is in the end. */
  predicate Settled(p: seq<Key>, c: Change) {
    var f := PassLeaves(p, Leaves(c));
    f.Some? && AllAt(Sites(p, c), f.value)
  }

  lemma {:induction false} AllAtConcat(s: seq<seq<Key>>, t: seq<seq<Key>>, f: seq<Key>)
    ensures AllAt(s + t, f) <==> AllAt(s, f) && AllAt(t, f)
    decreases |s|
  {
    if s == [] {
      assert s + t == t;
    } else {
      assert (s + t)[1..] == s[1..] + t;
      AllAtConcat(s[1..], t, f);
    }
  }

  lemma {:induction false} AllAtInside(q: seq<Key>, sites: seq<seq<Key>>, f: seq<Key>)
    requires AllAt(Inside(q, sites), f) && sites != []
    ensures |q| <= |f| && f == q + f[|q|..] && AllAt(sites, f[|q|..])
    decreases |sites|
  {
    assert f == q + sites[0] && f[|q|..] == sites[0];
    if |sites| > 1 {
      AllAtInside(q, sites[1..], f);
    }
  }

  /** Without sites nothing is affected. */
  lemma {:induction false} NoSites(p: seq<Key>, c: Change)
    requires Follow(p, c).Kept? && Sites(p, c) == []
    ensures Follow(p, c).affected.Noop? && Follow(p, c).scoped.Noop?
    decreases c, 0
  {
    if p != [] && c.PathChange? {
      var n := CommonPrefixLen(p, c.path);
      if |p| > n && |c.path| == n {
        NoSites(p[n..], c.inner);
      }
    } else if p != [] && c.ChangeSet? {
      NoSitesIn(Kept(p, Noop, Noop, Noop), c.changes);
    }
  }

  lemma {:induction false} NoSitesIn(r: Followed, cs: seq<Change>)
    requires r.Kept? && r.affected.Noop? && r.scoped.Noop? && FollowEach(r, cs).Kept? && SitesOf(r.path, cs) == []
    ensures FollowEach(r, cs).affected.Noop? && FollowEach(r, cs).scoped.Noop?
    decreases cs, 0
  {
    if cs != [] {
      StaysKept(r, cs);
      FollowPassesLeaves(r.path, cs[0]);
      NoSites(r.path, cs[0]);
      NoSitesIn(r.Join(Follow(r.path, cs[0])), cs[1..]);
    }
  }

  /** If all sites are at f, the affected part does there what the scoped part does. */
  lemma {:induction false} InPlace(u: Value, p: seq<Key>, c: Change, f: seq<Key>)
    requires Follow(p, c).Kept? && AllAt(Sites(p, c), f) && ApplyAt(u, f, Follow(p, c).scoped).Some?
    ensures Apply(u, Follow(p, c).affected) == ApplyAt(u, f, Follow(p, c).scoped)
    decreases c, 0
  {
    if Sites(p, c) == [] {
      NoSites(p, c);
      ApplyAtNoop(u, f, Noop);
    } else if p != [] && c.PathChange? {
      PathInPlace(u, p, c.path, c.inner, f);
    } else if p != [] && c.ChangeSet? {
      ApplyAtFocus(u, f, Follow(p, c).scoped);
      ApplyAtIdle(u, f);
      EachInPlace(u, u, Kept(p, Noop, Noop, Noop), c.changes, f);
    }
  }

  lemma AllAtOne(p: seq<Key>, f: seq<Key>)
    requires AllAt([p], f)
    ensures p == f
  {
  }

  lemma {:induction false} PathInPlace(u: Value, p: seq<Key>, q: seq<Key>, inner: Change, f: seq<Key>)
    requires p != [] && Follow(p, PathChange(q, inner)).Kept? && Sites(p, PathChange(q, inner)) != []
    requires AllAt(Sites(p, PathChange(q, inner)), f)
    requires ApplyAt(u, f, Follow(p, PathChange(q, inner)).scoped).Some?
    ensures Apply(u, Follow(p, PathChange(q, inner)).affected) ==
            ApplyAt(u, f, Follow(p, PathChange(q, inner)).scoped)
    decreases inner, 2
  {
    var n := CommonPrefixLen(p, q);
    if |p| == n {
      AllAtOne(p, f);
      assert p[..n] == p;
      Extends(p, q);
      ApplyBelow(u, p, q[n..], inner);
    } else {
      assert q[..n] == q;
      Extends(q, p);
      AboveInPlace(u, q, p[n..], inner, f);
    }
  }

  lemma {:induction false} AboveInPlace(u: Value, q: seq<Key>, sub: seq<Key>, inner: Change, f: seq<Key>)
    requires Follow(sub, inner).Kept? && Sites(sub, inner) != []
    requires AllAt(Inside(q, Sites(sub, inner)), f) && ApplyAt(u, f, Follow(sub, inner).scoped).Some?
    ensures Apply(u, Under(q, Follow(sub, inner).affected)) == ApplyAt(u, f, Follow(sub, inner).scoped)
    decreases inner, 1
  {
    var r := Follow(sub, inner);
    AllAtInside(q, Sites(sub, inner), f);
    var g := f[|q|..];
    ApplyAtSplit(u, q, g, r.scoped);
    ApplyAtFocus(u, q, PathChange(g, r.scoped));
    InPlace(Focus(u, q).value, sub, inner, g);
    Convergence.ApplyAtCongruent(u, q, r.affected, PathChange(g, r.scoped));
    ApplyUnder(u, q, r.affected);
  }

  lemma {:induction false} ScopedApplies(x: Value, r: Followed, cs: seq<Change>)
    requires r.Kept? && FollowEach(r, cs).Kept? && Apply(x, FollowEach(r, cs).scoped).Some?
    ensures Apply(x, r.scoped).Some?
    decreases |cs|
  {
    if cs != [] {
      var next := Follow(r.path, cs[0]);
      StaysKept(r, cs);
      ScopedApplies(x, r.Join(next), cs[1..]);
      JoinChangesApply(x, r.scoped, next.scoped);
    }
  }

  lemma {:induction false} EachInPlace(u: Value, w: Value, r: Followed, cs: seq<Change>, f: seq<Key>)
    requires r.Kept? && FollowEach(r, cs).Kept? && AllAt(SitesOf(r.path, cs), f)
    requires Apply(u, r.affected) == Some(w) && ApplyAt(u, f, r.scoped) == Some(w)
    requires ApplyAt(u, f, FollowEach(r, cs).scoped).Some?
    ensures Apply(u, FollowEach(r, cs).affected) == ApplyAt(u, f, FollowEach(r, cs).scoped)
    decreases cs, 0
  {
    if cs != [] {
      var next, last := Follow(r.path, cs[0]), FollowEach(r, cs);
      StaysKept(r, cs);
      FollowPassesLeaves(r.path, cs[0]);
      AllAtConcat(Sites(r.path, cs[0]), SitesOf(next.path, cs[1..]), f);
      ApplyAtFocus(u, f, last.scoped);
      ScopedApplies(Focus(u, f).value, r.Join(next), cs[1..]);
      ApplyAtFocus(u, f, r.Join(next).scoped);
      JoinAt(u, f, r.scoped, next.scoped, w);
      InPlace(w, r.path, cs[0], f);
      JoinChangesApply(u, r.affected, next.affected);
      EachInPlace(u, ApplyAt(w, f, next.scoped).value, r.Join(next), cs[1..], f);
    }
  }

  lemma JoinAt(u: Value, f: seq<Key>, c1: Change, c2: Change, w: Value)
    requires ApplyAt(u, f, c1) == Some(w) && ApplyAt(u, f, JoinChanges(c1, c2)).Some?
    ensures ApplyAt(w, f, c2) == ApplyAt(u, f, JoinChanges(c1, c2))
  {
    var c := JoinChanges(c1, c2);
    ApplyAtFocus(u, f, c1);
    ApplyAtFocus(u, f, c);
    JoinChangesApply(Focus(u, f).value, c1, c2);
    ApplyAtIdle(ApplyAt(u, f, c).value, f);
    LiftSteps(u, f, c1, c2, c, Noop);
  }

  /** If the change is settled, the unaffected and then the affected part amount to it, whatever the value. */
  lemma SettledSplits(v: Value, p: seq<Key>, c: Change)
    requires Focus(v, p).Some? && Apply(v, c).Some? && Follow(p, c).Kept? && Settled(p, c)
    ensures Splits(v, c, Follow(p, c))
  {
    var r := Follow(p, c);
    SplitsExactly(v, p, c);
    ScopedRebuilds(v, p, c);
    FollowPassesLeaves(p, c);
    InPlace(Apply(v, r.unaffected).value, p, c, r.path);
  }

  lemma Insert(items: seq<Value>, x: Value)
    ensures Apply(Val(Arr(items)), SpliceIn(Splice(0, [], [x]))) == Some(Val(Arr([x] + items)))
  {
    var s := Splice(0, [], [x]);
    assert items[0..0] == [];
    assert Cut(items, s) == [x] + items;
  }

  lemma Swap(x: Value, y: Value)
    ensures Apply(Val(Arr([x, y])), MoveBy(Move(0, 1, 1))) == Some(Val(Arr([y, x])))
  {
    ShiftMapsIndex([x, y], Move(0, 1, 1), 0);
    ShiftMapsIndex([x, y], Move(0, 1, 1), 1);
    assert Shift([x, y], Move(0, 1, 1)) == [y, x];
  }

  /** Otherwise it need not: filling the first list and then swapping it with the second is not swapping
      them and then filling the first. */
  lemma DocumentedSplitFails() returns (v: Value, p: seq<Key>, c: Change)
    ensures Focus(v, p).Some? && Apply(v, c).Some? && Follow(p, c).Kept?
    ensures Changes.ApplyAll(v, [Follow(p, c).unaffected, Follow(p, c).affected]).Some? && !Splits(v, c, Follow(p, c))
  {
    var x := Val(Atom(1));
    var empty, one, two := Val(Arr([])), Val(Arr([x])), Val(Arr([x, x]));
    var fill, swap, first := SpliceIn(Splice(0, [], [x])), MoveBy(Move(0, 1, 1)), [Index(0)];
    v, p, c := Val(Arr([empty, one])), first, ChangeSet([PathChange(first, fill), swap]);
    Insert([], x);
    Insert([x], x);
    assert [x] + [] == [x] && [x] + [x] == [x, x];
    Swap(one, one);
    Swap(empty, one);
    // the change gives [[x], [x]]
    assert ApplyAt(v, first, fill) == Some(Val(Arr([empty, one][0 := one])));
    assert [empty, one][0 := one] == [one, one];
    ApplyTwo(v, PathChange(first, fill), swap);
    // the two parts in order give [[x, x], []]
    assert ApplyAt(Val(Arr([one, empty])), first, fill) == Some(Val(Arr([one, empty][0 := two])));
    ApplyTwo(v, swap, PathChange(first, fill));
    var r1, r2 := Follow(first, PathChange(first, fill)), Follow(first, swap);
    FollowTwo(first, PathChange(first, fill), swap);
    assert r1 == Kept(first, PathChange(first[1..], fill), PathChange(first, fill), Noop);
    assert r2 == Kept([Index(1)] + first[1..], Noop, Noop, swap);
  }

  /** A part at the path counts even if it is nil: it still has to find its path. After the first element is
      removed, the second place is gone, although no basic change ever happened there. */
  lemma NilPartCounts() returns (v: Value, p: seq<Key>, c: Change)
    ensures Focus(v, p).Some? && Apply(v, c).Some? && Follow(p, c).Kept?
    ensures |Leaves(c)| == 1 && Leaves(c)[0].path == [] && p != [] && !Splits(v, c, Follow(p, c))
  {
    var x := Val(Atom(1));
    var two, one := Val(Arr([x, x])), Val(Arr([x]));
    var idle, cut := PathChange([Index(1)], Noop), SpliceIn(Splice(0, [x], []));
    v, p, c := two, [Index(1)], ChangeSet([idle, cut]);
    assert [x, x][0..1] == [x] && Cut([x, x], cut.splice) == [x];
    assert Focus(two, p) == Some(x) by {
      assert p[1..] == [];
    }
    ApplyAtIdle(two, p);
    ApplyTwo(two, idle, cut);
    LeavesOfConcat([idle], [cut]);
    LeavesOfOne(idle);
    LeavesOfOne(cut);
    assert [idle] + [cut] == [idle, cut];
    // the two parts: the cut, and then nil at a place that is gone
    FollowTwo(p, idle, cut);
    assert Follow(p, idle) == Kept(p, PathChange(p[1..], Noop), idle, Noop);
    assert Follow(p, cut) == Kept([Index(0)] + p[1..], Noop, Noop, cut);
    assert Apply(two, cut) == Some(one) && ApplyAt(one, p, Noop).None?;
    ApplyTwo(two, cut, idle);
    assert Changes.ApplyAll(two, [cut, idle]).None?;
  }

  lemma FollowOne(r: Followed, c: Change)
    requires r.Kept?
    ensures FollowEach(r, [c]) == r.Join(Follow(r.path, c))
  {
    var next := r.Join(Follow(r.path, c));
    assert [c][1..] == [] && FollowEach(next, []) == next;
  }

  lemma FollowTwo(p: seq<Key>, c: Change, d: Change)
    requires p != [] && Follow(p, c).Kept?
    ensures Follow(p, ChangeSet([c, d])) ==
            Kept(p, Noop, Noop, Noop).Join(Follow(p, c)).Join(Follow(Follow(p, c).path, d))
  {
    FollowTwoEach(Kept(p, Noop, Noop, Noop), c, d);
  }

  lemma FollowTwoEach(r: Followed, c: Change, d: Change)
    requires r.Kept? && Follow(r.path, c).Kept?
    ensures FollowEach(r, [c, d]) == r.Join(Follow(r.path, c)).Join(Follow(Follow(r.path, c).path, d))
  {
    assert [c, d][1..] == [d];
    FollowOne(r.Join(Follow(r.path, c)), d);
  }
}

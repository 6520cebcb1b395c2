/** The loops of package changes: each of them computes the function that the proofs are about. */
module ChangeSets {
  import opened Options
  import opened Moves
  import opened Changes
  import opened Merging
  import opened Reverting

  lemma {:induction false} SimplifyEachConcat(cs: seq<Change>, ds: seq<Change>)
    ensures SimplifyEach(cs + ds) == SimplifyEach(cs) + SimplifyEach(ds)
    decreases |cs|
  {
    if cs == [] {
      assert cs + ds == ds;
    } else {
      assert (cs + ds)[1..] == cs[1..] + ds;
      SimplifyEachConcat(cs[1..], ds);
    }
  }

  lemma {:induction false} NilsVanish(n: nat)
    ensures SimplifyEach(seq(n, _ => Noop)) == []
  {
    if n > 0 {
      assert seq<Change>(n, _ => Noop)[1..] == seq<Change>(n - 1, _ => Noop);
      NilsVanish(n - 1);
    }
  }

  /** ChangeSet.Simplify */
  method SimplifyMembers(c: seq<Change>) returns (r: Change)
    ensures r == SimplifySet(c)
  {
    var result := [];
    for i := 0 to |c|
      invariant result == SimplifyEach(c[..i])
    {
      var cx := Simplify(c[i]);
      assert c[..i + 1] == c[..i] + [c[i]];
      SimplifyEachConcat(c[..i], [c[i]]);
      assert [c[i]][1..] == [];
      if !cx.Noop? {
        result := result + [cx];
      }
    }
    assert c[..|c|] == c;
    if |result| == 0 {
      r := Noop;
    } else if |result| == 1 {
      r := result[0];
    } else {
      r := ChangeSet(result);
    }
  }

  /** Puts x behind the idx results so far; nil results are overwritten by the next one. */
  method Store(results: array<Change>, idx: nat, x: Change, ghost all: seq<Change>) returns (idx': nat)
    requires idx < results.Length && SimplifyEach(results[..idx]) == SimplifyEach(all)
    modifies results
    ensures idx <= idx' <= idx + 1 && SimplifyEach(results[..idx']) == SimplifyEach(all + [x])
    ensures idx' == idx ==> results[idx] == Noop
    ensures forall k :: idx < k < results.Length ==> results[k] == old(results[k])
  {
    results[idx] := x;
    SimplifyEachConcat(all, [x]);
    assert [x][1..] == [];
    idx' := idx;
    if !x.Noop? {
      idx' := idx + 1;
      assert results[..idx + 1] == results[..idx] + [x];
      SimplifyEachConcat(results[..idx], [x]);
    }
  }

  /** The stored results, nils included, simplify like all the results. */
  lemma StoredSimplify(results: seq<Change>, idx: nat, all: seq<Change>)
    requires idx <= |results| && SimplifyEach(results[..idx]) == SimplifyEach(all)
    requires forall k :: idx <= k < |results| ==> results[k] == Noop
    ensures SimplifySet(results) == SimplifySet(all)
  {
    var nils := seq(|results| - idx, _ => Noop);
    assert results == results[..idx] + nils;
    SimplifyEachConcat(results[..idx], nils);
    NilsVanish(|results| - idx);
  }

  /** What is still to be walked, behind the results so far. */
  function Behind(all: seq<Change>, w: Walked): Walked {
    if w.Walked? then Walked(w.other, all + w.results) else w
  }

  lemma BehindStep(all: seq<Change>, x: Change, rest: Walked)
    ensures Behind(all, Behind([x], rest)) == Behind(all + [x], rest)
  {
    if rest.Walked? {
      assert all + ([x] + rest.results) == all + [x] + rest.results;
    }
  }

  /** ChangeSet.Merge */
  method MergeMembers(c: seq<Change>, other: Change, fuel: nat) returns (m: Merged)
    ensures m == MergeSet(c, other, fuel)
  {
    var idx, cur, results := 0, other, new Change[|c|](_ => Noop);
    ghost var all := [];
    for i := 0 to |c|
      invariant idx <= i && |all| == i && SimplifyEach(results[..idx]) == SimplifyEach(all)
      invariant forall k :: idx <= k < results.Length ==> results[k] == Noop
      invariant MergeEach(c, other, fuel) == Behind(all, MergeEach(c[i..], cur, fuel))
    {
      var p := Merge(c[i], cur, fuel);
      if !p.Done? {
        return p;
      }
      idx := Store(results, idx, p.cx, all);
      BehindStep(all, p.cx, MergeEach(c[i + 1..], p.otherx, fuel));
      cur, all := p.otherx, all + [p.cx];
    }
    assert c[|c|..] == [] && all + [] == all;
    StoredSimplify(results[..], idx, all);
    var cx := SimplifyMembers(results[..]);
    m := Done(cur, cx);
  }

  /** ChangeSet.ReverseMerge: every member is the argument of its merge. */
  method ReverseMergeMembers(c: seq<Change>, other: Change, fuel: nat) returns (m: Merged)
    ensures m == ReverseMergeSet(c, other, fuel)
  {
    var idx, cur, results := 0, other, new Change[|c|](_ => Noop);
    ghost var all := [];
    for i := 0 to |c|
      invariant idx <= i && |all| == i && SimplifyEach(results[..idx]) == SimplifyEach(all)
      invariant forall k :: idx <= k < results.Length ==> results[k] == Noop
      invariant ReverseMergeEach(c, other, fuel) == Behind(all, ReverseMergeEach(c[i..], cur, fuel))
    {
      var p := Merge(cur, c[i], fuel);
      if !p.Done? {
        return p;
      }
      idx := Store(results, idx, p.otherx, all);
      BehindStep(all, p.otherx, ReverseMergeEach(c[i + 1..], p.cx, fuel));
      cur, all := p.cx, all + [p.otherx];
    }
    assert c[|c|..] == [] && all + [] == all;
    StoredSimplify(results[..], idx, all);
    var cx := SimplifyMembers(results[..]);
    m := Done(cur, cx);
  }

  /** ChangeSet.Revert */
  method RevertMembers(c: seq<Change>) returns (r: Change)
    ensures r == Revert(ChangeSet(c))
  {
    var idx, results := 0, new Change[|c|](_ => Noop);
    for kk := 0 to |c|
      invariant idx <= kk && results[..idx] == RevertEach(c[|c| - kk..])
      invariant forall k :: idx <= k < results.Length ==> results[k] == Noop
    {
      var elt := c[|c| - kk - 1];
      assert c[|c| - kk - 1..][1..] == c[|c| - kk..];
      if !elt.Noop? {
        results[idx] := Revert(elt);
        idx := idx + 1;
      }
    }
    assert c[0..] == c;
    StoredSimplify(results[..], idx, RevertEach(c));
    r := SimplifyMembers(results[..]);
  }

  /** ChangeSet.ApplyTo; None where the value panics. */
  method ApplyTo(c: seq<Change>, v: Value) returns (r: Option<Value>)
    ensures r == Changes.ApplyAll(v, c)
  {
    r := Some(v);
    for i := 0 to |c|
      invariant r.Some? && Changes.ApplyAll(v, c) == Changes.ApplyAll(r.value, c[i..])
    {
      r := Apply(r.value, c[i]);
      if r.None? {
        return;
      }
    }
  }

  /** movesToChange: the result starts out with one nil per move. */
  method MovesToChangeLoop(ms: seq<Move>) returns (r: Change)
    ensures r == MovesToChange(ms)
  {
    var result := seq(|ms|, _ => Noop);
    ghost var nils := result;
    for i := 0 to |ms|
      invariant nils + RealMoves(ms) == result + RealMoves(ms[i..])
    {
      assert ms[i..][1..] == ms[i + 1..];
      if ms[i].count != 0 && ms[i].distance != 0 {
        result := result + [MoveBy(ms[i])];
      }
    }
    if |result| == 0 {
      r := Noop;
    } else if |result| == 1 {
      r := result[0];
    } else {
      r := ChangeSet(result);
    }
  }

  /** commonPrefixLen walks along the shorter path. */
  method CommonPrefix(a: seq<Key>, b: seq<Key>) returns (n: nat)
    ensures n == CommonPrefixLen(a, b)
  {
    var short, long := a, b;
    if |a| > |b| {
      short, long := b, a;
    }
    n := 0;
    while n < |short|
      invariant n <= |short| && a[..n] == b[..n]
    {
      if long[n] != short[n] {
        CommonPrefixIs(a, b, n);
        return;
      }
      n := n + 1;
    }
    CommonPrefixIs(a, b, n);
  }
}

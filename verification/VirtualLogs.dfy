/** A client's view is a virtual log: the prefix of the log it has pulled, followed by its own pending
    operations. Pulling a foreign operation inserts it in the middle of that virtual log; these lemmas
    say what the insertion does to the transformed operations, to their merge chains and to the states. */
module VirtualLogs {
  import opened Options
  import opened Algebras
  import opened Operations

  // ----- only the prefix matters -----

  predicate SamePrefix<C(==)>(a: seq<Op<C>>, b: seq<Op<C>>, n: nat) {
    n <= |a| && n <= |b| && a[..n] == b[..n]
  }

  lemma SameParentIndex<C>(a: seq<Op<C>>, b: seq<Op<C>>, n: nat, k: nat)
    requires WellFormed(a) && WellFormed(b) && SamePrefix(a, b, n) && k < n && a[k].parent.Some?
    ensures a[k] == b[k] && ParentIndex(a, k) == ParentIndex(b, k)
  {
    assert a[k] == a[..n][k] && b[k] == b[..n][k];
    var i, j := ParentIndex(a, k), ParentIndex(b, k);
    assert a[i] == a[..n][i] && b[i] == b[..n][i];
    assert a[j] == a[..n][j] && b[j] == b[..n][j];
  }

  lemma {:induction false} SameXform<S, C>(alg: Algebra<S, C>, a: seq<Op<C>>, b: seq<Op<C>>, n: nat, k: nat)
    requires WellFormed(a) && WellFormed(b) && SamePrefix(a, b, n) && k < n
    ensures a[k] == b[k] && Xform(alg, a, k) == Xform(alg, b, k)
    decreases k, 1
  {
    assert a[k] == a[..n][k] && b[k] == b[..n][k];
    assert Placed(a, k);
    if a[k].parent.None? {
      SameTransformed(alg, a, b, n, a[k].basis + 1, k);
    } else {
      SameParentIndex(a, b, n, k);
      var j := ParentIndex(a, k);
      SameXform(alg, a, b, n, j);
      SameTransformed(alg, a, b, n, j + 1, k);
    }
  }

  lemma {:induction false} SameTransformed<S, C>(alg: Algebra<S, C>, a: seq<Op<C>>, b: seq<Op<C>>, n: nat, lo: nat,
                                                 hi: nat)
    requires WellFormed(a) && WellFormed(b) && SamePrefix(a, b, n) && hi <= n
    ensures Transformed(alg, a, lo, hi) == Transformed(alg, b, lo, hi)
    decreases hi, 0
  {
    if lo < hi {
      SameTransformed(alg, a, b, n, lo, hi - 1);
      SameXform(alg, a, b, n, hi - 1);
    }
  }

  lemma {:induction false} SameAuthor<S, C>(alg: Algebra<S, C>, init: S, a: seq<Op<C>>, b: seq<Op<C>>, n: nat, k: nat)
    requires WellFormed(a) && WellFormed(b) && SamePrefix(a, b, n) && k < n
    ensures AuthorAfter(alg, init, a, k) == AuthorAfter(alg, init, b, k)
    decreases k
  {
    SameXform(alg, a, b, n, k);
    assert Placed(a, k);
    if a[k].parent.None? {
      SameTransformed(alg, a, b, n, 0, a[k].basis + 1);
    } else {
      SameParentIndex(a, b, n, k);
      var j := ParentIndex(a, k);
      SameXform(alg, a, b, n, j);
      SameAuthor(alg, init, a, b, n, j);
    }
  }

  lemma PrefixWellFormed<C>(log: seq<Op<C>>, n: nat)
    requires WellFormed(log) && n <= |log|
    ensures WellFormed(log[..n])
  {
    var a := log[..n];
    forall k: nat | k < n ensures Placed(a, k) {
      assert a[k] == log[k] && Placed(log, k);
      if a[k].parent.Some? {
        var j := ParentIndex(log, k);
        assert a[j] == log[j];
      }
    }
  }

  /** A prefix of an authentic log is authentic. */
  lemma PrefixAuthentic<S, C>(alg: Algebra<S, C>, init: S, log: seq<Op<C>>, n: nat)
    requires Authentic(alg, init, log) && n <= |log|
    ensures Authentic(alg, init, log[..n])
  {
    var a := log[..n];
    PrefixWellFormed(log, n);
    forall k: nat | k < n ensures AuthorAfter(alg, init, a, k).Some? {
      SameAuthor(alg, init, a, log, n, k);
      assert AuthorAfter(alg, init, log, k).Some?;
    }
  }

  // ----- pending operations -----

  /** From index n on, the log is one client's queue of pending operations: none of them knows more
      than the prefix, and each follows its predecessor. */
  predicate Queue<C>(log: seq<Op<C>>, n: nat) {
    n <= |log| && forall k {:trigger Queued(log, n, k)} :: n <= k < |log| ==> Queued(log, n, k)
  }

  predicate Queued<C>(log: seq<Op<C>>, n: nat, k: nat)
    requires n <= k < |log|
  {
    log[k].basis < n && (n < k ==> log[k].parent == Some(log[k - 1].id))
  }

  /** The parent of a queued operation other than the first is its predecessor. */
  lemma QueueParent<C>(log: seq<Op<C>>, n: nat, k: nat)
    requires WellFormed(log) && Queue(log, n) && n < k < |log|
    ensures log[k].parent.Some? && ParentIndex(log, k) == k - 1
  {
    assert Queued(log, n, k);
    var j := ParentIndex(log, k);
    assert log[j].id == log[k - 1].id;
  }

  /** So its inputs are what is left of its predecessor's chain. */
  lemma QueueInputs<S, C>(alg: Algebra<S, C>, log: seq<Op<C>>, n: nat, k: nat)
    requires WellFormed(log) && Queue(log, n) && n < k < |log|
    ensures Inputs(alg, log, k) == Since(Xform(alg, log, k - 1).chain, log[k].basis)
  {
    QueueParent(log, n, k);
    assert Transformed(alg, log, k, k) == [];
  }

  predicate VersionsBelow<C>(chain: seq<Link<C>>, n: int) {
    forall i :: 0 <= i < |chain| ==> chain[i].version < n
  }

  lemma SinceBelow<C>(chain: seq<Link<C>>, basis: int, n: int)
    requires VersionsBelow(chain, n)
    ensures VersionsBelow(Since(chain, basis), n)
  {
    if chain != [] && chain[0].version <= basis {
      SinceBelow(chain[1..], basis, n);
    }
  }

  lemma {:induction false} SinceAll<C>(chain: seq<Link<C>>, n: int)
    requires VersionsBelow(chain, n)
    ensures Since(chain, n - 1) == [] && Upto(chain, n - 1) == chain
  {
    if chain != [] {
      SinceAll(chain[1..], n);
    }
  }

  lemma {:induction false} FoldVersions<S, C>(alg: Algebra<S, C>, x: C, links: seq<Link<C>>, n: int)
    requires VersionsBelow(links, n)
    ensures VersionsBelow(Fold(alg, x, links).chain, n)
    decreases |links|
  {
    if links != [] {
      FoldVersions(alg, alg.merge(links[0].change, x).0, links[1..], n);
    }
  }

  lemma {:induction false} TransformedBelow<S, C>(alg: Algebra<S, C>, log: seq<Op<C>>, lo: nat, hi: nat)
    requires WellFormed(log) && hi <= |log|
    ensures VersionsBelow(Transformed(alg, log, lo, hi), hi)
    decreases hi
  {
    if lo < hi {
      TransformedBelow(alg, log, lo, hi - 1);
    }
  }

  /** Merge chains only mention earlier versions. */
  lemma {:induction false} ChainBelow<S, C>(alg: Algebra<S, C>, log: seq<Op<C>>, k: nat)
    requires WellFormed(log) && k < |log|
    ensures VersionsBelow(Xform(alg, log, k).chain, k)
    decreases k
  {
    var op := log[k];
    assert Placed(log, k);
    if op.parent.None? {
      TransformedBelow(alg, log, op.basis + 1, k);
    } else {
      var j := ParentIndex(log, k);
      ChainBelow(alg, log, j);
      SinceBelow(Xform(alg, log, j).chain, op.basis, j);
      TransformedBelow(alg, log, j + 1, k);
    }
    FoldVersions(alg, op.change, Inputs(alg, log, k), k);
  }

  /** The chains of queued operations mention only versions of the pulled prefix. */
  lemma {:induction false} QueueChainBelow<S, C>(alg: Algebra<S, C>, log: seq<Op<C>>, n: nat, k: nat)
    requires WellFormed(log) && Queue(log, n) && n <= k < |log|
    ensures VersionsBelow(Xform(alg, log, k).chain, n)
    decreases k
  {
    if k == n {
      ChainBelow(alg, log, k);
    } else {
      QueueInputs(alg, log, n, k);
      QueueChainBelow(alg, log, n, k - 1);
      SinceBelow(Xform(alg, log, k - 1).chain, log[k].basis, n);
      FoldVersions(alg, log[k].change, Inputs(alg, log, k), n);
    }
  }

  // ----- a foreign operation arrives -----

  /** b is a with one more operation at index n. */
  predicate Inserted<C(==)>(a: seq<Op<C>>, b: seq<Op<C>>, n: nat) {
    && n <= |a| && |b| == |a| + 1
    && a[..n] == b[..n]
    && (forall k {:trigger a[k]} :: n <= k < |a| ==> b[k + 1] == a[k])
  }

  lemma SinceSnoc<C>(chain: seq<Link<C>>, l: Link<C>, basis: int)
    requires l.version > basis
    ensures Since(chain + [l], basis) == Since(chain, basis) + [l]
    ensures Upto(chain + [l], basis) == Upto(chain, basis)
  {
    if chain != [] && chain[0].version <= basis {
      assert (chain + [l])[1..] == chain[1..] + [l];
      SinceSnoc(chain[1..], l, basis);
    }
  }

  lemma {:induction false} FoldSnoc<S, C>(alg: Algebra<S, C>, x: C, links: seq<Link<C>>, l: Link<C>)
    ensures var r := Fold(alg, x, links); var m := alg.merge(l.change, r.x);
            Fold(alg, x, links + [l]) == Xformed(m.0, r.chain + [Link(l.version, m.1)])
    decreases |links|
  {
    if links == [] {
      assert [] + [l] == [l] && [l][1..] == [];
      var m := alg.merge(l.change, x);
      assert Fold(alg, m.0, []) == Xformed(m.0, []);
    } else {
      assert (links + [l])[1..] == links[1..] + [l];
      FoldSnoc(alg, alg.merge(links[0].change, x).0, links[1..], l);
    }
  }

  lemma InsertedParentLow<C>(a: seq<Op<C>>, b: seq<Op<C>>, n: nat)
    requires WellFormed(a) && WellFormed(b) && Inserted(a, b, n) && n < |a| && a[n].parent.Some?
    ensures b[n + 1] == a[n] && ParentIndex(b, n + 1) == ParentIndex(a, n)
  {
    var j := ParentIndex(a, n);
    assert a[j] == a[..n][j] && b[j] == b[..n][j];
  }

  /** The inputs of the first queued operation grow by the transformed foreign operation. */
  lemma FirstInputs<S, C>(alg: Algebra<S, C>, a: seq<Op<C>>, b: seq<Op<C>>, n: nat)
    requires WellFormed(a) && WellFormed(b) && Inserted(a, b, n) && Queue(a, n) && n < |a|
    ensures Inputs(alg, b, n + 1) == Inputs(alg, a, n) + [Link(n, Xform(alg, b, n).x)]
  {
    var op := a[n];
    assert b[n + 1] == op && Placed(a, n);
    if op.parent.None? {
      SameTransformed(alg, a, b, n, op.basis + 1, n);
    } else {
      InsertedParentLow(a, b, n);
      var j := ParentIndex(a, n);
      SameXform(alg, a, b, n, j);
      SameTransformed(alg, a, b, n, j + 1, n);
    }
  }

  lemma InsertedQueue<C>(a: seq<Op<C>>, b: seq<Op<C>>, n: nat)
    requires Inserted(a, b, n) && Queue(a, n)
    ensures Queue(b, n + 1)
  {
    var m := n + 1;
    forall k: nat | m <= k < |b| ensures Queued(b, m, k) {
      assert Queued(a, n, k - 1) && b[k] == a[k - 1];
      assert n + 1 < k ==> b[k - 1] == a[k - 2];
    }
  }

  /** What the queued operations before k make of the arriving operation. */
  function Arriving<S, C>(alg: Algebra<S, C>, a: seq<Op<C>>, b: seq<Op<C>>, n: nat, k: nat): C
    requires WellFormed(a) && WellFormed(b) && n < |b| && n <= k <= |a|
    decreases k
  {
    if k == n then Xform(alg, b, n).x else alg.merge(Arriving(alg, a, b, n, k - 1), Xform(alg, a, k - 1).x).1
  }

  /** The queued operation k after the arriving one: one more merge, and one more link in its chain. */
  ghost predicate Passed<S, C>(alg: Algebra<S, C>, a: seq<Op<C>>, b: seq<Op<C>>, n: nat, k: nat, e: C)
    requires WellFormed(a) && WellFormed(b) && |b| == |a| + 1 && n <= k < |a|
  {
    var x := Xform(alg, a, k);
    var m := alg.merge(e, x.x);
    Xform(alg, b, k + 1) == Xformed(m.0, x.chain + [Link(n, m.1)])
  }

  lemma PassFirst<S, C>(alg: Algebra<S, C>, a: seq<Op<C>>, b: seq<Op<C>>, n: nat)
    requires WellFormed(a) && WellFormed(b) && Inserted(a, b, n) && Queue(a, n) && n < |a|
    ensures Passed(alg, a, b, n, n, Xform(alg, b, n).x)
  {
    var op := a[n];
    FirstInputs(alg, a, b, n);
    FoldSnoc(alg, op.change, Inputs(alg, a, n), Link(n, Xform(alg, b, n).x));
  }

  lemma PassNext<S, C>(alg: Algebra<S, C>, a: seq<Op<C>>, b: seq<Op<C>>, n: nat, k: nat, e: C)
    requires WellFormed(a) && WellFormed(b) && Inserted(a, b, n) && Queue(a, n) && n < k < |a|
    requires Passed(alg, a, b, n, k - 1, e)
    ensures Passed(alg, a, b, n, k, alg.merge(e, Xform(alg, a, k - 1).x).1)
  {
    var op, prev := a[k], a[k - 1];
    var m := alg.merge(e, Xform(alg, a, k - 1).x);
    InsertedQueue(a, b, n);
    assert b[k + 1] == op && Queued(a, n, k);
    QueueInputs(alg, a, n, k);
    QueueInputs(alg, b, n + 1, k + 1);
    SinceSnoc(Xform(alg, a, k - 1).chain, Link(n, m.1), op.basis);
    FoldSnoc(alg, op.change, Inputs(alg, a, k), Link(n, m.1));
  }

  lemma {:induction false} PassAll<S, C>(alg: Algebra<S, C>, a: seq<Op<C>>, b: seq<Op<C>>, n: nat, k: nat)
    requires WellFormed(a) && WellFormed(b) && Inserted(a, b, n) && Queue(a, n) && n <= k < |a|
    ensures Passed(alg, a, b, n, k, Arriving(alg, a, b, n, k))
    decreases k
  {
    if k == n {
      PassFirst(alg, a, b, n);
    } else {
      PassAll(alg, a, b, n, k - 1);
      PassNext(alg, a, b, n, k, Arriving(alg, a, b, n, k - 1));
    }
  }

  /** The transformed changes from index k on: for k = n, what the client keeps in its MergeChain. */
  function ChangesFrom<S, C>(alg: Algebra<S, C>, log: seq<Op<C>>, k: nat): (cs: seq<C>)
    requires WellFormed(log) && k <= |log|
    ensures |cs| == |log| - k
    decreases |log| - k
  {
    if k == |log| then [] else [Xform(alg, log, k).x] + ChangesFrom(alg, log, k + 1)
  }

  lemma DescendCons<S, C>(alg: Algebra<S, C>, e: C, x: C, rest: seq<C>)
    ensures var m := alg.merge(e, x); var r := Descend(alg, m.1, rest);
            Descend(alg, e, [x] + rest) == Row(r.last, [m.0] + r.list)
  {
    assert ([x] + rest)[1..] == rest;
  }

  lemma AgreeStep<S, C>(alg: Algebra<S, C>, a: seq<Op<C>>, b: seq<Op<C>>, n: nat, k: nat)
    requires WellFormed(a) && WellFormed(b) && |b| == |a| + 1 && n <= k < |a|
    requires Passed(alg, a, b, n, k, Arriving(alg, a, b, n, k))
    requires ChangesFrom(alg, b, k + 2) == Descend(alg, Arriving(alg, a, b, n, k + 1), ChangesFrom(alg, a, k + 1)).list
    ensures ChangesFrom(alg, b, k + 1) == Descend(alg, Arriving(alg, a, b, n, k), ChangesFrom(alg, a, k)).list
  {
    var e, x, rest := Arriving(alg, a, b, n, k), Xform(alg, a, k).x, ChangesFrom(alg, a, k + 1);
    var m := alg.merge(e, x);
    DescendCons(alg, e, x, rest);
    calc {
      ChangesFrom(alg, b, k + 1);
      [Xform(alg, b, k + 1).x] + ChangesFrom(alg, b, k + 2);
      [m.0] + Descend(alg, m.1, rest).list;
      Descend(alg, e, [x] + rest).list;
    }
    assert ChangesFrom(alg, a, k) == [x] + rest;
  }

  /** Carrying a foreign operation through the queue one merge at a time, as session.pull does, gives
      the changes that xform computes for the log with that operation in front of the queue. */
  lemma {:induction false} InsertAgrees<S, C>(alg: Algebra<S, C>, a: seq<Op<C>>, b: seq<Op<C>>, n: nat, k: nat)
    requires WellFormed(a) && WellFormed(b) && Inserted(a, b, n) && Queue(a, n) && n <= k <= |a|
    ensures ChangesFrom(alg, b, k + 1) == Descend(alg, Arriving(alg, a, b, n, k), ChangesFrom(alg, a, k)).list
    decreases |a| - k
  {
    if k < |a| {
      PassAll(alg, a, b, n, k);
      InsertAgrees(alg, a, b, n, k + 1);
      AgreeStep(alg, a, b, n, k);
    }
  }

  /** A queued operation's author state does not change when a foreign operation is inserted. */
  lemma {:induction false} InsertedAuthor<S, C>(alg: Algebra<S, C>, init: S, a: seq<Op<C>>, b: seq<Op<C>>, n: nat,
                                                k: nat)
    requires WellFormed(a) && WellFormed(b) && Inserted(a, b, n) && Queue(a, n) && n <= k < |a|
    ensures AuthorAfter(alg, init, b, k + 1) == AuthorAfter(alg, init, a, k)
    decreases k
  {
    if k == n {
      InsertedAuthorFirst(alg, init, a, b, n);
    } else {
      InsertedAuthor(alg, init, a, b, n, k - 1);
      InsertedAuthorNext(alg, init, a, b, n, k);
    }
  }

  /** The author of a queued operation made it after the previous one and what it had pulled since. */
  lemma QueueAuthor<S, C>(alg: Algebra<S, C>, init: S, log: seq<Op<C>>, n: nat, k: nat)
    requires WellFormed(log) && Queue(log, n) && n < k < |log|
    ensures var s := AuthorAfter(alg, init, log, k - 1);
            AuthorAfter(alg, init, log, k) ==
            AuthorStep(alg, s, Upto(Xform(alg, log, k - 1).chain, log[k].basis), log[k].change)
  {
    QueueParent(log, n, k);
  }

  function AuthorStep<S, C>(alg: Algebra<S, C>, s: Option<S>, links: seq<Link<C>>, c: C): Option<S> {
    var t :- s;
    var u :- ApplyLinks(alg, t, links);
    alg.apply(u, c)
  }

  /** The inserted operation is too new for the chain of an older operation to matter. */
  lemma InsertedChain<S, C>(alg: Algebra<S, C>, a: seq<Op<C>>, b: seq<Op<C>>, n: nat, k: nat)
    requires WellFormed(a) && WellFormed(b) && Inserted(a, b, n) && Queue(a, n) && n < k < |a|
    ensures b[k + 1] == a[k]
    ensures Upto(Xform(alg, b, k).chain, a[k].basis) == Upto(Xform(alg, a, k - 1).chain, a[k].basis)
  {
    assert Queued(a, n, k);
    PassAll(alg, a, b, n, k - 1);
    var m := alg.merge(Arriving(alg, a, b, n, k - 1), Xform(alg, a, k - 1).x);
    SinceSnoc(Xform(alg, a, k - 1).chain, Link(n, m.1), a[k].basis);
  }

  lemma InsertedAuthorNext<S, C>(alg: Algebra<S, C>, init: S, a: seq<Op<C>>, b: seq<Op<C>>, n: nat, k: nat)
    requires WellFormed(a) && WellFormed(b) && Inserted(a, b, n) && Queue(a, n) && n < k < |a|
    requires AuthorAfter(alg, init, b, k) == AuthorAfter(alg, init, a, k - 1)
    ensures AuthorAfter(alg, init, b, k + 1) == AuthorAfter(alg, init, a, k)
  {
    InsertedQueue(a, b, n);
    InsertedChain(alg, a, b, n, k);
    QueueAuthor(alg, init, a, n, k);
    QueueAuthor(alg, init, b, n + 1, k + 1);
  }

  lemma InsertedAuthorFirst<S, C>(alg: Algebra<S, C>, init: S, a: seq<Op<C>>, b: seq<Op<C>>, n: nat)
    requires WellFormed(a) && WellFormed(b) && Inserted(a, b, n) && Queue(a, n) && n < |a|
    ensures AuthorAfter(alg, init, b, n + 1) == AuthorAfter(alg, init, a, n)
  {
    var op := a[n];
    assert b[n + 1] == op && Placed(a, n);
    if op.parent.None? {
      SameTransformed(alg, a, b, n, 0, op.basis + 1);
    } else {
      InsertedParentLow(a, b, n);
      var j := ParentIndex(a, n);
      SameXform(alg, a, b, n, j);
      SameAuthor(alg, init, a, b, n, j);
    }
  }

  // ----- well-formedness of the inserted log -----

  lemma InsertedWellFormed<C>(a: seq<Op<C>>, b: seq<Op<C>>, n: nat)
    requires WellFormed(a) && Inserted(a, b, n) && Queue(a, n) && WellFormed(b[..n + 1])
    requires forall k :: n <= k < |a| ==> a[k].id != b[n].id
    ensures WellFormed(b)
  {
    forall i, j | 0 <= i < j < |b| ensures b[i].id != b[j].id {
      if j <= n {
        assert b[i] == b[..n + 1][i] && b[j] == b[..n + 1][j];
      } else {
        assert b[j] == a[j - 1];
        if i < n {
          assert a[i] == a[..n][i] && b[i] == b[..n][i];
        } else if i > n {
          assert b[i] == a[i - 1];
        }
      }
    }
    forall k: nat | k < |b| ensures Placed(b, k) {
      if k <= n {
        InsertedFoundLow(b, n, k);
      } else {
        InsertedFoundHigh(a, b, n, k - 1);
      }
    }
  }

  lemma InsertedFoundLow<C>(b: seq<Op<C>>, n: nat, k: nat)
    requires n < |b| && k <= n && WellFormed(b[..n + 1])
    ensures Placed(b, k)
  {
    var c := b[..n + 1];
    assert b[k] == c[k] && Placed(c, k);
    if c[k].parent.Some? {
      var j := ParentIndex(c, k);
      assert b[j] == c[j];
    }
  }

  lemma InsertedFoundHigh<C>(a: seq<Op<C>>, b: seq<Op<C>>, n: nat, k: nat)
    requires WellFormed(a) && Inserted(a, b, n) && Queue(a, n) && n <= k < |a|
    ensures Placed(b, k + 1)
  {
    var op := a[k];
    assert b[k + 1] == op && Placed(a, k) && Queued(a, n, k);
    if op.parent.Some? {
      if k > n {
        assert b[k] == a[k - 1];
      } else {
        var j := ParentIndex(a, n);
        assert a[j] == a[..n][j] && b[j] == b[..n][j];
      }
    }
  }

  /** Inserting an authentic foreign operation in front of a queue keeps the whole log authentic. */
  lemma InsertedAuthentic<S, C>(alg: Algebra<S, C>, init: S, a: seq<Op<C>>, b: seq<Op<C>>, n: nat)
    requires Authentic(alg, init, a) && Inserted(a, b, n) && Queue(a, n) && Authentic(alg, init, b[..n + 1])
    requires forall k :: n <= k < |a| ==> a[k].id != b[n].id
    ensures Authentic(alg, init, b) && Queue(b, n + 1)
  {
    InsertedWellFormed(a, b, n);
    InsertedQueue(a, b, n);
    forall k: nat | k < |b| ensures AuthorAfter(alg, init, b, k).Some? {
      if k <= n {
        SameAuthor(alg, init, b[..n + 1], b, n + 1, k);
        assert AuthorAfter(alg, init, b[..n + 1], k).Some?;
      } else {
        InsertedAuthor(alg, init, a, b, n, k - 1);
        assert AuthorAfter(alg, init, a, k - 1).Some?;
      }
    }
  }
}

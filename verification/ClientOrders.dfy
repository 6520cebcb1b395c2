/** Every operation knows all earlier operations of its client (ops/sync/session.go, appendChange): it names the
    last one as its parent or is based on a version that includes them. So the transformation never merges two
    operations of one client. */
module ClientOrders {
  import opened Options
  import opened Algebras
  import opened Operations
  import opened Protocol
  import opened VirtualLogs

  /** No operation of client c lies strictly between lo and hi. */
  predicate NoneOf<C>(log: seq<Op<C>>, c: nat, lo: int, hi: int) {
    forall i :: 0 <= i < |log| && lo < i < hi ==> log[i].id.client != c
  }

  predicate IsParent<C>(log: seq<Op<C>>, k: nat, j: nat)
    requires k < |log|
  {
    && j < k && log[k].parent == Some(log[j].id) && log[j].id.client == log[k].id.client
    && NoneOf(log, log[k].id.client, j, k)
  }

  /** Operation k knows the earlier ones of its client. */
  ghost predicate Knows<C>(log: seq<Op<C>>, k: nat)
    requires k < |log|
  {
    if log[k].parent.None? then NoneOf(log, log[k].id.client, log[k].basis, k)
    else exists j: nat :: IsParent(log, k, j)
  }

  ghost predicate InOrder<C>(log: seq<Op<C>>) { forall k: nat {:trigger Knows(log, k)} :: k < |log| ==> Knows(log, k) }

  /** The log, and the log with what a client has not delivered yet. */
  ghost predicate Ordered<S, C>(w: World<S, C>) {
    && InOrder(w.log)
    && forall c {:trigger w.clients[c]} :: 0 <= c < |w.clients| ==> InOrder(w.log + w.clients[c].outbox)
  }

  lemma SameParent<C>(log: seq<Op<C>>, more: seq<Op<C>>, k: nat, j: nat)
    requires k < |log|
    ensures IsParent(log + more, k, j) <==> IsParent(log, k, j)
  {
    if j < k {
      assert (log + more)[j] == log[j] && (log + more)[k] == log[k];
      SameBefore(log, more, log[k].id.client, j, k);
    }
  }

  lemma KnowsBefore<C>(log: seq<Op<C>>, more: seq<Op<C>>, k: nat)
    requires k < |log|
    ensures Knows(log + more, k) <==> Knows(log, k)
  {
    var v := log + more;
    assert v[k] == log[k];
    if log[k].parent.None? {
      SameBefore(log, more, log[k].id.client, log[k].basis, k);
    } else {
      if Knows(log, k) {
        var j: nat :| IsParent(log, k, j);
        SameParent(log, more, k, j);
      }
      if Knows(v, k) {
        var j: nat :| IsParent(v, k, j);
        SameParent(log, more, k, j);
      }
    }
  }

  lemma SameBefore<C>(log: seq<Op<C>>, more: seq<Op<C>>, c: nat, lo: int, hi: int)
    requires hi <= |log|
    ensures NoneOf(log + more, c, lo, hi) <==> NoneOf(log, c, lo, hi)
  {
    var v := log + more;
    if NoneOf(v, c, lo, hi) {
      forall i | 0 <= i < |log| && lo < i < hi ensures log[i].id.client != c { assert v[i] == log[i]; }
    }
  }

  lemma OrderBefore<C>(log: seq<Op<C>>, more: seq<Op<C>>)
    requires InOrder(log + more)
    ensures InOrder(log)
  {
    forall k: nat | k < |log| ensures Knows(log, k) {
      assert Knows(log + more, k);
      KnowsBefore(log, more, k);
    }
  }

  lemma OrderSnoc<C>(v: seq<Op<C>>, op: Op<C>)
    requires InOrder(v) && Knows(v + [op], |v|)
    ensures InOrder(v + [op])
  {
    forall k: nat | k < |v| + 1 ensures Knows(v + [op], k) {
      if k < |v| {
        KnowsBefore(v, [op], k);
      }
    }
  }

  // ----- pushing -----

  lemma {:induction false} OwnFromNone<C>(log: seq<Op<C>>, n: nat, c: nat)
    requires OwnFrom(log, n, c) == []
    ensures NoneOf(log, c, n - 1, |log|)
    decreases |log| - n
  {
    if n < |log| {
      OwnFromNone(log, n + 1, c);
    }
  }

  lemma {:induction false} OwnFromLast<C>(log: seq<Op<C>>, n: nat, c: nat) returns (j: nat)
    requires OwnFrom(log, n, c) != []
    ensures var own := OwnFrom(log, n, c); j < |log| && log[j] == own[|own| - 1]
    ensures log[j].id.client == c && NoneOf(log, c, j, |log|)
    decreases |log| - n
  {
    if OwnFrom(log, n + 1, c) == [] {
      j := n;
      OwnFromNone(log, n + 1, c);
    } else {
      j := OwnFromLast(log, n + 1, c);
    }
  }

  /** A new operation knows everything its client made before. */
  lemma NewKnows<S, C>(log: seq<Op<C>>, c: nat, cl: Client<S, C>, change: C)
    requires Tracked(log, c, cl)
    ensures var v := log + cl.outbox; Knows(v + [NewOp(c, cl, change)], |v|)
  {
    var v, op := log + cl.outbox, NewOp(c, cl, change);
    var v' := v + [op];
    if cl.pending == [] {
      OwnFromNone(log, cl.version + 1, c);
      assert cl.outbox == [] && v == log;
      SameBefore(log, [op], c, cl.version, |log|);
    } else if cl.outbox != [] {
      assert cl.pending[|cl.pending| - 1] == cl.outbox[|cl.outbox| - 1] == v'[|v| - 1];
      assert IsParent(v', |v|, |v| - 1);
    } else {
      var j := OwnFromLast(log, cl.version + 1, c);
      assert v == log && cl.pending == OwnFrom(log, cl.version + 1, c);
      SameBefore(log, [op], c, j, |log|);
      assert IsParent(v', |v|, j);
    }
  }

  // ----- delivering -----

  /** An operation of another client does not come between. */
  lemma KnowsAcross<C>(log: seq<Op<C>>, op: Op<C>, own: seq<Op<C>>, k: nat)
    requires |log| <= k < |log| + |own| && own[k - |log|].id.client != op.id.client && own[k - |log|].basis < |log|
    requires Knows(log + own, k)
    ensures Knows(log + [op] + own, k + 1)
  {
    var v, v' := log + own, log + [op] + own;
    assert v'[k + 1] == v[k];
    var c := v[k].id.client;
    if v[k].parent.None? {
      NoneAcross(log, op, own, c, v[k].basis, k, v[k].basis);
    } else {
      var j: nat :| IsParent(v, k, j);
      var j' := if j < |log| then j else j + 1;
      assert v'[j'] == v[j];
      NoneAcross(log, op, own, c, j, k, j');
      assert IsParent(v', k + 1, j');
    }
  }

  lemma NoneAcross<C>(log: seq<Op<C>>, op: Op<C>, own: seq<Op<C>>, c: nat, lo: int, hi: int, lo': int)
    requires NoneOf(log + own, c, lo, hi) && op.id.client != c
    requires hi >= |log| && lo' == (if lo < |log| then lo else lo + 1)
    ensures NoneOf(log + [op] + own, c, lo', hi + 1)
  {
    var v, v' := log + own, log + [op] + own;
    forall i | 0 <= i < |v'| && lo' < i < hi + 1 ensures v'[i].id.client != c {
      assert i < |log| ==> v'[i] == v[i];
      assert i == |log| ==> v'[i] == op;
      assert i > |log| ==> v'[i] == v[i - 1];
    }
  }

  lemma OrderAcross<C>(log: seq<Op<C>>, op: Op<C>, own: seq<Op<C>>)
    requires InOrder(log + [op]) && InOrder(log + own)
    requires forall i :: 0 <= i < |own| ==> own[i].id.client != op.id.client && own[i].basis < |log|
    ensures InOrder(log + [op] + own)
  {
    var v' := log + [op] + own;
    forall k: nat | k < |v'| ensures Knows(v', k) {
      if k <= |log| {
        KnowsBefore(log + [op], own, k);
      } else {
        assert Knows(log + own, k - 1);
        KnowsAcross(log, op, own, k - 1);
      }
    }
  }

  lemma OutboxKnown<S, C>(alg: Algebra<S, C>, init: S, log: seq<Op<C>>, c: nat, cl: Client<S, C>, i: nat)
    requires Tracked(log, c, cl) && Consistent(alg, init, log, cl) && i < |cl.outbox|
    ensures cl.outbox[i].id.client == c && cl.outbox[i].basis < |log|
  {
    var n, k := cl.version + 1, |OwnFrom(log, cl.version + 1, c)| + i;
    assert cl.outbox[i] == cl.pending[k] == View(log, cl)[n + k];
    assert Queued(View(log, cl), n, n + k);
  }

  lemma DeliverOrdered<S, C>(alg: Algebra<S, C>, init: S, w: World<S, C>, c: nat, w': World<S, C>)
    requires Inv(alg, init, w) && Ordered(w) && c < |w.clients| && Next(alg, w, Deliver(c)) == Some(w')
    ensures Ordered(w')
  {
    var cl := w.clients[c];
    if cl.outbox != [] {
      var op := cl.outbox[0];
      OutboxKnown(alg, init, w.log, c, cl, 0);
      assert w.log + cl.outbox == w.log + [op] + cl.outbox[1..];
      OrderBefore(w.log + [op], cl.outbox[1..]);
      forall d | 0 <= d < |w'.clients| ensures InOrder(w'.log + w'.clients[d].outbox) {
        if d != c {
          var own := w.clients[d].outbox;
          forall i | 0 <= i < |own| ensures own[i].id.client != op.id.client && own[i].basis < |w.log| {
            OutboxKnown(alg, init, w.log, d, w.clients[d], i);
          }
          OrderAcross(w.log, op, own);
        }
      }
    }
  }

  lemma PushOrdered<S, C>(alg: Algebra<S, C>, init: S, w: World<S, C>, c: nat, w': World<S, C>)
    requires Inv(alg, init, w) && Ordered(w) && c < |w.clients| && Next(alg, w, Push(c)) == Some(w')
    ensures Ordered(w')
  {
    var cl, change := w.clients[c], alg.join(w.clients[c].edits);
    if !alg.isNil(change) {
      NewKnows(w.log, c, cl, change);
      OrderSnoc(w.log + cl.outbox, NewOp(c, cl, change));
      assert w.log + cl.outbox + [NewOp(c, cl, change)] == w.log + w'.clients[c].outbox;
    }
  }

  lemma StepOrdered<S, C>(alg: Algebra<S, C>, init: S, w: World<S, C>, step: Step<C>)
    requires Inv(alg, init, w) && Ordered(w) && Next(alg, w, step).Some?
    ensures Ordered(Next(alg, w, step).value)
  {
    match step
    case Push(c) => PushOrdered(alg, init, w, c, Next(alg, w, step).value);
    case Deliver(c) => DeliverOrdered(alg, init, w, c, Next(alg, w, step).value);
    case _ =>
  }

  lemma {:induction false} RunOrdered<S(!new), C(!new)>(alg: Algebra<S, C>, init: S, w: World<S, C>,
                                                        steps: seq<Step<C>>)
    requires Convergent(alg) && Joining(alg) && Inv(alg, init, w) && Ordered(w) && Run(alg, w, steps).Some?
    ensures Ordered(Run(alg, w, steps).value)
    decreases |steps|
  {
    if steps != [] {
      StepKeeps(alg, init, w, steps[0]);
      StepOrdered(alg, init, w, steps[0]);
      RunOrdered(alg, init, Next(alg, w, steps[0]).value, steps[1..]);
    }
  }

  /** In every run every operation in the log knows the earlier operations of its client. */
  lemma LogInOrder<S(!new), C(!new)>(alg: Algebra<S, C>, init: S, n: nat, steps: seq<Step<C>>, w: World<S, C>)
    requires Convergent(alg) && Joining(alg) && Run(alg, Start(init, n), steps) == Some(w)
    ensures InOrder(w.log)
  {
    StartInv(alg, init, n);
    RunOrdered(alg, init, Start(init, n), steps);
  }
}

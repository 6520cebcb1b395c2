/** Nothing that a client shows or has made is lost on the way (ops/sync/session.go, ops/transformer.go):
    what each step does to the value a client shows, and what the log amounts to when no operation has to be
    adjusted for one of another client. */
module Conservation {
  import opened Options
  import opened Algebras
  import opened Operations
  import opened Protocol
  import opened ClientOrders

  /** What the user sees: the stream node's value with the edits since the last push. */
  function Shown<S, C>(alg: Algebra<S, C>, cl: Client<S, C>): Option<S> { ApplyAll(alg, cl.node, cl.edits) }

  /** The unacknowledged changes: those of the pending operations, then the edits. */
  function Unacknowledged<S, C>(cl: Client<S, C>): seq<C> { cl.chain + cl.edits }

  /** An edit is shown at once and waits behind the others. */
  predicate EditShows<S(==), C(==)>(alg: Algebra<S, C>, cl: Client<S, C>, change: C, cl': Client<S, C>) {
    && Shown(alg, cl).Some? && Shown(alg, cl').Some?
    && Shown(alg, cl') == alg.apply(Shown(alg, cl).value, change)
    && Unacknowledged(cl') == Unacknowledged(cl) + [change]
  }

  /** A push changes nothing that is shown; all edits are in the new operation, which leads from the old
      node to what is shown, or they amounted to nothing. */
  predicate PushShows<S(==), C(==)>(alg: Algebra<S, C>, cl: Client<S, C>, cl': Client<S, C>) {
    && Shown(alg, cl') == Shown(alg, cl) && cl'.edits == []
    && if cl'.made == cl.made then cl'.pending == cl.pending && cl'.outbox == cl.outbox && cl'.node == cl.node
       else
         && cl'.pending != [] && cl'.outbox != []
         && var op := cl'.pending[|cl'.pending| - 1];
            && cl'.pending == cl.pending + [op] && cl'.outbox == cl.outbox + [op] && cl'.chain == cl.chain + [op.change]
            && alg.apply(cl.node, op.change) == Some(cl'.node)
  }

  /** A pull of the client's own operation changes nothing that is shown. A foreign change x is carried past
      everything unacknowledged, which is adjusted and stays; what x then is happens to the value shown. */
  predicate PullShows<S(==), C(==)>(alg: Algebra<S, C>, own: bool, x: C, cl: Client<S, C>, cl': Client<S, C>) {
    if own then cl'.node == cl.node && cl'.edits == cl.edits
    else
      var row := Descend(alg, x, Unacknowledged(cl));
      && Shown(alg, cl).Some? && Unacknowledged(cl') == row.list && |cl'.chain| == |cl.chain|
      && Shown(alg, cl').Some? && Shown(alg, cl') == alg.apply(Shown(alg, cl).value, row.last)
  }

  lemma EditedShows<S, C>(alg: Algebra<S, C>, cl: Client<S, C>, change: C)
    requires Edited(alg, cl, change).Some?
    ensures EditShows(alg, cl, change, Edited(alg, cl, change).value)
  {
    ApplyAllSnoc(alg, cl.node, cl.edits, change);
    assert cl.chain + (cl.edits + [change]) == cl.chain + cl.edits + [change];
  }

  lemma PushedShows<S(!new), C(!new)>(alg: Algebra<S, C>, c: nat, cl: Client<S, C>)
    requires Joining(alg) && Pushed(alg, c, cl).Some?
    ensures PushShows(alg, cl, Pushed(alg, c, cl).value)
  {
    var cl', change := Pushed(alg, c, cl).value, alg.join(cl.edits);
    assert ApplyAll(alg, cl.node, cl.edits) == alg.apply(cl.node, change);
    assert ApplyAll(alg, cl'.node, []) == Some(cl'.node);
    if !alg.isNil(change) {
      var op := NewOp(c, cl, change);
      assert (cl.pending + [op])[|cl.pending|] == op;
    }
  }

  /** Merging with MergeChain and then with the edits is one row past both. */
  lemma ReceivedShows<S(!new), C(!new)>(alg: Algebra<S, C>, cl: Client<S, C>, x: C)
    requires Convergent(alg) && Shown(alg, cl).Some? && Received(alg, cl, x).Some?
    ensures PullShows(alg, false, x, cl, Received(alg, cl, x).value)
  {
    var past := Descend(alg, x, cl.chain);
    DescendConcat(alg, x, cl.chain, cl.edits);
    DescendCloses(alg, cl.node, past.last, cl.edits);
  }

  lemma PulledShows<S(!new), C(!new)>(alg: Algebra<S, C>, log: seq<Op<C>>, c: nat, cl: Client<S, C>, cl': Client<S, C>)
    requires Convergent(alg) && WellFormed(log) && Tracked(log, c, cl) && Shown(alg, cl).Some?
    requires cl.version + 1 < |log| && Pulled(alg, log, cl) == Some(cl')
    ensures cl'.version == cl.version + 1
    ensures PullShows(alg, log[cl.version + 1].id.client == c, Xform(alg, log, cl.version + 1).x, cl, cl')
  {
    OwnHead(log, c, cl);
    if log[cl.version + 1].id.client != c {
      ReceivedShows(alg, cl, Xform(alg, log, cl.version + 1).x);
    }
  }

  /** What a step does to the client that takes it, and to the log. */
  predicate StepShown<S(==), C(==)>(alg: Algebra<S, C>, log: seq<Op<C>>, step: Step<C>, cl: Client<S, C>,
                                    log': seq<Op<C>>, cl': Client<S, C>)
    requires WellFormed(log) && 0 <= cl.version + 1 <= |log|
  {
    match step
    case Edit(_, change) => log' == log && EditShows(alg, cl, change, cl')
    case Push(_) => log' == log && PushShows(alg, cl, cl')
    case Deliver(_) =>
      && cl' == cl.(outbox := cl'.outbox) && log' + cl'.outbox == log + cl.outbox
      && |log'| == if cl.outbox == [] then |log| else |log| + 1
    case Pull(c) =>
      var n := cl.version + 1;
      && log' == log
      && (n == |log| ==> cl' == cl)
      && (n < |log| ==>
           && cl'.version == n
           && PullShows(alg, log[n].id.client == c, Xform(alg, log, n).x, cl, cl'))
  }

  lemma DeliveredShows<S, C>(log: seq<Op<C>>, cl: Client<S, C>)
    requires cl.outbox != []
    ensures log + [cl.outbox[0]] + cl.outbox[1..] == log + cl.outbox
  {
  }

  /** In every world that satisfies the invariant, so in every run: what a step does to the value shown and to
      the changes underway at the client that takes it. Nothing changes at the others. */
  lemma StepShows<S(!new), C(!new)>(alg: Algebra<S, C>, init: S, w: World<S, C>, step: Step<C>, w': World<S, C>)
    requires Convergent(alg) && Joining(alg) && Inv(alg, init, w) && Next(alg, w, step) == Some(w')
    ensures step.client < |w.clients| && |w'.clients| == |w.clients|
    ensures forall d :: 0 <= d < |w.clients| && d != step.client ==> w'.clients[d] == w.clients[d]
    ensures Tracked(w.log, step.client, w.clients[step.client])
    ensures StepShown(alg, w.log, step, w.clients[step.client], w'.log, w'.clients[step.client])
  {
    var c, cl := step.client, w.clients[step.client];
    assert Tracked(w.log, c, cl) && Consistent(alg, init, w.log, cl);
    match step
    case Edit(_, change) => EditedShows(alg, cl, change);
    case Push(_) => PushedShows(alg, c, cl);
    case Deliver(_) =>
      if cl.outbox != [] {
        DeliveredShows(w.log, cl);
      }
    case Pull(_) =>
      if cl.version + 1 < |w.log| {
        PulledShows(alg, w.log, c, cl, w'.clients[c]);
      }
  }

  // ----- clients that do not get in each other's way -----

  /** No operation has to be adjusted for one of another client. */
  predicate Independent<S, C(==)>(alg: Algebra<S, C>, log: seq<Op<C>>) {
    forall i, j :: 0 <= i < |log| && 0 <= j < |log| && log[i].id.client != log[j].id.client ==>
                     Passes(alg, log[i].change, log[j].change)
  }

  function ChangesOf<C>(log: seq<Op<C>>): (cs: seq<C>)
    ensures |cs| == |log|
  {
    if log == [] then [] else ChangesOf(log[..|log| - 1]) + [log[|log| - 1].change]
  }

  /** Links of earlier operations of other clients than c, as their authors made them. */
  predicate Raw<C(==)>(log: seq<Op<C>>, c: nat, k: nat, links: seq<Link<C>>)
    requires k <= |log|
  {
    forall l :: l in links ==>
      0 <= l.version < k && l.change == log[l.version].change && log[l.version].id.client != c
  }

  lemma RawConcat<C>(log: seq<Op<C>>, c: nat, j: nat, links: seq<Link<C>>, k: nat, more: seq<Link<C>>)
    requires j <= k <= |log| && Raw(log, c, j, links) && Raw(log, c, k, more)
    ensures Raw(log, c, k, links + more)
  {
  }

  lemma {:induction false} FoldPasses<S, C>(alg: Algebra<S, C>, log: seq<Op<C>>, k: nat, links: seq<Link<C>>)
    requires k < |log| && Independent(alg, log) && Raw(log, log[k].id.client, k, links)
    ensures Fold(alg, log[k].change, links) == Xformed(log[k].change, links)
    decreases |links|
  {
    if links != [] {
      assert links[0] in links;
      assert Passes(alg, log[links[0].version].change, log[k].change);
      FoldPasses(alg, log, k, links[1..]);
      assert links == [links[0]] + links[1..];
    }
  }

  lemma {:induction false} SinceRaw<C>(log: seq<Op<C>>, c: nat, k: nat, links: seq<Link<C>>, basis: int)
    requires k <= |log| && Raw(log, c, k, links)
    ensures Raw(log, c, k, Since(links, basis))
    decreases |links|
  {
    if links != [] && links[0].version <= basis {
      SinceRaw(log, c, k, links[1..], basis);
    }
  }

  lemma {:induction false} TransformedRaw<S, C>(alg: Algebra<S, C>, log: seq<Op<C>>, c: nat, lo: nat, hi: nat)
    requires WellFormed(log) && hi <= |log| && Independent(alg, log) && InOrder(log) && NoneOf(log, c, lo - 1, hi)
    ensures Raw(log, c, hi, Transformed(alg, log, lo, hi))
    decreases hi, 0
  {
    if lo < hi {
      TransformedRaw(alg, log, c, lo, hi - 1);
      XformPasses(alg, log, hi - 1);
      RawConcat(log, c, hi - 1, Transformed(alg, log, lo, hi - 1), hi, [Link(hi - 1, log[hi - 1].change)]);
    }
  }

  /** Every operation of such a log is left as its author made it, and so are the ones it is merged with. */
  lemma {:induction false} XformPasses<S, C>(alg: Algebra<S, C>, log: seq<Op<C>>, k: nat)
    requires WellFormed(log) && k < |log| && Independent(alg, log) && InOrder(log)
    ensures Xform(alg, log, k).x == log[k].change
    ensures Raw(log, log[k].id.client, k, Xform(alg, log, k).chain)
    decreases k, 1
  {
    var c := log[k].id.client;
    assert Placed(log, k) && Knows(log, k);
    if log[k].parent.None? {
      TransformedRaw(alg, log, c, log[k].basis + 1, k);
    } else {
      var j: nat :| IsParent(log, k, j);
      assert ParentIndex(log, k) == j;
      XformPasses(alg, log, j);
      SinceRaw(log, c, j, Xform(alg, log, j).chain, log[k].basis);
      TransformedRaw(alg, log, c, j + 1, k);
      RawConcat(log, c, j, Since(Xform(alg, log, j).chain, log[k].basis), k, Transformed(alg, log, j + 1, k));
    }
    FoldPasses(alg, log, k, Inputs(alg, log, k));
  }

  /** The state of such a log is the start with every operation applied, in order. */
  lemma {:induction false} StatePasses<S, C>(alg: Algebra<S, C>, init: S, log: seq<Op<C>>, n: nat)
    requires WellFormed(log) && n <= |log| && Independent(alg, log) && InOrder(log) && State(alg, init, log, n).Some?
    ensures State(alg, init, log, n) == ApplyAll(alg, init, ChangesOf(log[..n]))
    decreases n
  {
    if n == 0 {
      assert ChangesOf(log[..0]) == [];
    } else {
      if State(alg, init, log, n - 1).None? {
        StateStaysNone(alg, init, log, n - 1, n);
      }
      StatePasses(alg, init, log, n - 1);
      StateNext(alg, init, log, n - 1);
      XformPasses(alg, log, n - 1);
      assert log[..n][..n - 1] == log[..n - 1];
      ApplyAllSnoc(alg, init, ChangesOf(log[..n - 1]), log[n - 1].change);
    }
  }

  /** In every run: if no operation has to be adjusted for one of another client, a client that is up to date shows
      the start with every operation of every client applied, in log order. */
  lemma NothingLost<S(!new), C(!new)>(alg: Algebra<S, C>, init: S, n: nat, steps: seq<Step<C>>, w: World<S, C>,
                                      c: nat)
    requires Convergent(alg) && Joining(alg) && Run(alg, Start(init, n), steps) == Some(w)
    requires c < |w.clients| && UpToDate(w.log, w.clients[c]) && Independent(alg, w.log)
    ensures Shown(alg, w.clients[c]) == ApplyAll(alg, init, ChangesOf(w.log))
  {
    UpToDateAgree(alg, init, n, steps, w, c);
    LogInOrder(alg, init, n, steps, w);
    StatePasses(alg, init, w.log, |w.log|);
    assert w.log[..|w.log|] == w.log;
  }
}

/** The distributed protocol (ops/sync/session.go over ops/transformer.go): clients edit locally, push
    operations that reach one append-only log in per-client order, and pull the transformed log one
    operation at a time. In every run all clients converge. */
module Protocol {
  import opened Options
  import opened Algebras
  import opened Operations
  import opened VirtualLogs

  datatype Client<S, C> = Client(
    version: int,             // last log version pulled, -1 at the start
    pending: seq<Op<C>>,      // own operations not pulled back yet
    chain: seq<C>,            // the changes of MergeChain, one per pending operation
    outbox: seq<Op<C>>,       // own operations not in the log yet
    made: nat,                // number of operations made so far, the next serial
    node: S,                  // the value at the session's stream node
    edits: seq<C>)            // local edits made after that node

  datatype World<S, C> = World(log: seq<Op<C>>, clients: seq<Client<S, C>>)

  datatype Step<C> = Edit(client: nat, change: C) | Push(client: nat) | Deliver(client: nat) | Pull(client: nat)

  function Start<S, C>(init: S, n: nat): World<S, C> {
    World([], seq(n, _ => Client(-1, [], [], [], 0, init, [])))
  }

  // ----- steps -----

  /** A local change on top of the edits so far. */
  function Edited<S, C>(alg: Algebra<S, C>, cl: Client<S, C>, change: C): Option<Client<S, C>> {
    var now :- ApplyAll(alg, cl.node, cl.edits);
    var _ :- alg.apply(now, change);
    Some(cl.(edits := cl.edits + [change]))
  }

  /** session.push: the edits since the last push become one operation, unless they amount to nothing. */
  function Pushed<S, C>(alg: Algebra<S, C>, c: nat, cl: Client<S, C>): Option<Client<S, C>> {
    var node :- ApplyAll(alg, cl.node, cl.edits);
    var change := alg.join(cl.edits);
    if alg.isNil(change) then Some(cl.(node := node, edits := []))
    else
      var op := NewOp(c, cl, change);
      Some(cl.(node := node, edits := [], pending := cl.pending + [op], chain := cl.chain + [change],
               outbox := cl.outbox + [op], made := cl.made + 1))
  }

  function NewOp<S, C>(c: nat, cl: Client<S, C>, change: C): Op<C> {
    Op(Id(c, cl.made), if cl.pending == [] then None else Some(cl.pending[|cl.pending| - 1].id), cl.version, change)
  }

  /** session.pull for one transformed operation; without an operation to pull, nothing happens. */
  function Pulled<S, C>(alg: Algebra<S, C>, log: seq<Op<C>>, cl: Client<S, C>): Option<Client<S, C>>
    requires WellFormed(log) && 0 <= cl.version + 1 <= |log|
  {
    var n := cl.version + 1;
    if n == |log| then Some(cl)
    else if cl.pending != [] && cl.pending[0].id == log[n].id then Some(Acknowledged(cl))
    else Received(alg, cl, Xform(alg, log, n).x)
  }

  /** The operation pulled is the client's own first pending one: drop it. */
  function Acknowledged<S, C>(cl: Client<S, C>): Client<S, C>
    requires cl.pending != []
  {
    cl.(version := cl.version + 1, pending := cl.pending[1..],
        chain := if cl.chain == [] then [] else cl.chain[1..])
  }

  /** The operation pulled is foreign: merge it with MergeChain, then with the unpushed edits. */
  function Received<S, C>(alg: Algebra<S, C>, cl: Client<S, C>, x: C): Option<Client<S, C>> {
    var row := Descend(alg, x, cl.chain);
    var node :- alg.apply(cl.node, row.last);
    Some(cl.(version := cl.version + 1, chain := row.list, node := node,
             edits := Descend(alg, row.last, cl.edits).list))
  }

  function SetClient<S, C>(w: World<S, C>, c: nat, cl: Option<Client<S, C>>): Option<World<S, C>>
    requires c < |w.clients|
  {
    if cl.None? then None else Some(w.(clients := w.clients[c := cl.value]))
  }

  /** None when the step is impossible: no such client, an edit that does not apply, or a merged change
      that does not apply. StepKeeps shows that the last never happens. */
  function Next<S, C>(alg: Algebra<S, C>, w: World<S, C>, step: Step<C>): Option<World<S, C>>
    requires WellFormed(w.log)
  {
    if step.client >= |w.clients| then None
    else
      var cl := w.clients[step.client];
      match step
      case Edit(c, change) => SetClient(w, c, Edited(alg, cl, change))
      case Push(c) => SetClient(w, c, Pushed(alg, c, cl))
      case Deliver(c) =>
        if cl.outbox == [] then Some(w)
        else Some(World(w.log + [cl.outbox[0]], w.clients[c := cl.(outbox := cl.outbox[1..])]))
      case Pull(c) =>
        if 0 <= cl.version + 1 <= |w.log| then SetClient(w, c, Pulled(alg, w.log, cl)) else None
  }

  // ----- the invariant -----

  /** The operations of client c in the log from version n on. */
  function OwnFrom<C>(log: seq<Op<C>>, n: nat, c: nat): seq<Op<C>>
    decreases |log| - n
  {
    if n >= |log| then [] else (if log[n].id.client == c then [log[n]] else []) + OwnFrom(log, n + 1, c)
  }

  /** The client's virtual log: what it has pulled, then what it has pending. */
  function View<S, C>(log: seq<Op<C>>, cl: Client<S, C>): seq<Op<C>>
    requires 0 <= cl.version + 1 <= |log|
  {
    log[..cl.version + 1] + cl.pending
  }

  predicate OwnIds<C>(ops: seq<Op<C>>, c: nat, made: nat) {
    forall i :: 0 <= i < |ops| ==> ops[i].id.client == c && ops[i].id.serial < made
  }

  predicate SerialsBelow<C>(log: seq<Op<C>>, c: nat, made: nat) {
    forall k :: 0 <= k < |log| && log[k].id.client == c ==> log[k].id.serial < made
  }

  /** The queue, the ids and the log fit together. */
  predicate Tracked<S, C(==)>(log: seq<Op<C>>, c: nat, cl: Client<S, C>) {
    && 0 <= cl.version + 1 <= |log|
    && cl.pending == OwnFrom(log, cl.version + 1, c) + cl.outbox
    && OwnIds(cl.pending, c, cl.made) && SerialsBelow(log, c, cl.made)
  }

  /** The transformed log up to the client's version, followed by its MergeChain, gives the value at its
      stream node; and MergeChain is what xform would compute if the pending operations came next. */
  ghost predicate Consistent<S, C>(alg: Algebra<S, C>, init: S, log: seq<Op<C>>, cl: Client<S, C>)
    requires 0 <= cl.version + 1 <= |log|
  {
    var v := View(log, cl);
    && Authentic(alg, init, v) && Queue(v, cl.version + 1)
    && cl.chain == ChangesFrom(alg, v, cl.version + 1)
    && State(alg, init, v, |v|) == Some(cl.node)
    && ApplyAll(alg, cl.node, cl.edits).Some?
  }

  ghost predicate Inv<S, C>(alg: Algebra<S, C>, init: S, w: World<S, C>) {
    && Authentic(alg, init, w.log)
    && forall c {:trigger w.clients[c]} :: 0 <= c < |w.clients| ==>
         Tracked(w.log, c, w.clients[c]) && Consistent(alg, init, w.log, w.clients[c])
  }

  // ----- pulling -----

  lemma OwnHead<S, C>(log: seq<Op<C>>, c: nat, cl: Client<S, C>)
    requires Tracked(log, c, cl) && cl.version + 1 < |log|
    ensures var n := cl.version + 1;
            cl.pending != [] && cl.pending[0].id == log[n].id <==> log[n].id.client == c
    ensures log[cl.version + 1].id.client == c ==> cl.pending != [] && cl.pending[0] == log[cl.version + 1]
  {
    if cl.pending != [] {
      var op := cl.pending[0];
      assert op.id.client == c;
    }
  }

  /** Acknowledging an operation leaves the virtual log as it was. */
  lemma ViewUnchanged<S, C>(log: seq<Op<C>>, c: nat, cl: Client<S, C>)
    requires Tracked(log, c, cl) && cl.version + 1 < |log| && log[cl.version + 1].id.client == c
    ensures cl.pending != [] && View(log, Acknowledged(cl)) == View(log, cl)
    ensures SamePrefix(View(log, cl), log, cl.version + 2)
    ensures Tracked(log, c, Acknowledged(cl))
  {
    var n, v := cl.version + 1, View(log, cl);
    OwnHead(log, c, cl);
    assert cl.pending == [log[n]] + cl.pending[1..];
    assert log[..n + 1] == log[..n] + [log[n]];
    assert v == log[..n + 1] + cl.pending[1..];
    assert cl.pending[1..] == OwnFrom(log, n + 1, c) + cl.outbox;
  }

  /** When a client pulls its own first pending operation back, MergeChain[0] is exactly the change that
      xform computes for that log entry: dropping it loses nothing. */
  lemma OwnOperationAgrees<S, C>(alg: Algebra<S, C>, init: S, log: seq<Op<C>>, c: nat, cl: Client<S, C>)
    requires WellFormed(log) && Tracked(log, c, cl) && Consistent(alg, init, log, cl)
    requires cl.version + 1 < |log| && log[cl.version + 1].id.client == c
    ensures cl.chain != [] && cl.chain[0] == Xform(alg, log, cl.version + 1).x
  {
    ViewUnchanged(log, c, cl);
    SameXform(alg, View(log, cl), log, cl.version + 2, cl.version + 1);
  }

  lemma QueueShrinks<C>(v: seq<Op<C>>, n: nat)
    requires Queue(v, n) && n < |v|
    ensures Queue(v, n + 1)
  {
    var m := n + 1;
    forall k: nat | m <= k < |v| ensures Queued(v, m, k) {
      assert Queued(v, n, k);
    }
  }

  lemma PullOwn<S, C>(alg: Algebra<S, C>, init: S, log: seq<Op<C>>, c: nat, cl: Client<S, C>)
    requires Authentic(alg, init, log) && Tracked(log, c, cl) && Consistent(alg, init, log, cl)
    requires cl.version + 1 < |log| && log[cl.version + 1].id.client == c
    ensures cl.pending != [] && Consistent(alg, init, log, Acknowledged(cl))
  {
    var n, v := cl.version + 1, View(log, cl);
    ViewUnchanged(log, c, cl);
    QueueShrinks(v, n);
  }

  /** The virtual log after a foreign operation: that operation inserted in front of the queue. */
  lemma ForeignInserted<S, C>(alg: Algebra<S, C>, init: S, log: seq<Op<C>>, c: nat, cl: Client<S, C>, b: seq<Op<C>>)
    requires Authentic(alg, init, log) && Tracked(log, c, cl) && Consistent(alg, init, log, cl)
    requires cl.version + 1 < |log| && log[cl.version + 1].id.client != c
    requires b == log[..cl.version + 2] + cl.pending
    ensures var a, n := View(log, cl), cl.version + 1;
            Inserted(a, b, n) && Authentic(alg, init, b) && Queue(b, n + 1)
    ensures SamePrefix(b, log, cl.version + 2)
  {
    var a, n := View(log, cl), cl.version + 1;
    assert b[..n + 1] == log[..n + 1];
    assert a[..n] == b[..n];
    PrefixAuthentic(alg, init, log, n + 1);
    forall k | n <= k < |a| ensures a[k].id != b[n].id {
      assert a[k] == cl.pending[k - n] && b[n] == log[n];
    }
    InsertedAuthentic(alg, init, a, b, n);
  }

  /** The state a log reaches, as the state after n operations followed by the changes from n on. */
  lemma {:induction false} StateAsChanges<S, C>(alg: Algebra<S, C>, init: S, log: seq<Op<C>>, n: nat)
    requires WellFormed(log) && n <= |log| && State(alg, init, log, n).Some?
    ensures State(alg, init, log, |log|) == ApplyAll(alg, State(alg, init, log, n).value, ChangesFrom(alg, log, n))
    decreases |log| - n
  {
    if n < |log| {
      StateNext(alg, init, log, n);
      var cs := ChangesFrom(alg, log, n);
      assert cs[0] == Xform(alg, log, n).x && cs[1..] == ChangesFrom(alg, log, n + 1);
      if State(alg, init, log, n + 1).Some? {
        StateAsChanges(alg, init, log, n + 1);
      } else {
        StateStaysNone(alg, init, log, n + 1, |log|);
      }
    }
  }

  lemma StateStaysNone<S, C>(alg: Algebra<S, C>, init: S, log: seq<Op<C>>, m: nat, n: nat)
    requires WellFormed(log) && m <= n <= |log| && State(alg, init, log, m).None?
    ensures State(alg, init, log, n).None?
  {
    TransformedSplit(alg, log, 0, m, n);
    ApplyLinksConcat(alg, init, Transformed(alg, log, 0, m), Transformed(alg, log, m, n));
  }

  lemma SameState<S, C>(alg: Algebra<S, C>, init: S, a: seq<Op<C>>, b: seq<Op<C>>, n: nat)
    requires WellFormed(a) && WellFormed(b) && SamePrefix(a, b, n)
    ensures State(alg, init, a, n) == State(alg, init, b, n)
  {
    SameTransformed(alg, a, b, n, 0, n);
  }

  lemma AuthenticStates<S(!new), C(!new)>(alg: Algebra<S, C>, init: S, log: seq<Op<C>>, n: nat)
    requires Convergent(alg) && Authentic(alg, init, log) && n <= |log|
    ensures State(alg, init, log, n).Some?
  {
    if n == 0 {
      assert State(alg, init, log, 0) == Some(init);
    } else {
      LogSound(alg, init, log, n - 1);
    }
  }

  /** The queue after a foreign operation: the row that session.pull computes closes. */
  lemma ForeignRow<S(!new), C(!new)>(alg: Algebra<S, C>, init: S, a: seq<Op<C>>, b: seq<Op<C>>, n: nat, node: S)
    requires Convergent(alg) && Authentic(alg, init, a) && Authentic(alg, init, b)
    requires Inserted(a, b, n) && Queue(a, n) && State(alg, init, a, |a|) == Some(node)
    ensures var row := Descend(alg, Xform(alg, b, n).x, ChangesFrom(alg, a, n));
            && ChangesFrom(alg, b, n + 1) == row.list
            && alg.apply(node, row.last).Some? && State(alg, init, b, |b|) == alg.apply(node, row.last)
  {
    var e, cs := Xform(alg, b, n).x, ChangesFrom(alg, a, n);
    AuthenticStates(alg, init, b, n);
    AuthenticStates(alg, init, b, n + 1);
    SameState(alg, init, a, b, n);
    var s := State(alg, init, b, n).value;
    StateNext(alg, init, b, n);
    StateAsChanges(alg, init, a, n);
    StateAsChanges(alg, init, b, n + 1);
    DescendCloses(alg, s, e, cs);
    assert Arriving(alg, a, b, n, n) == e;
    InsertAgrees(alg, a, b, n, n);
  }

  lemma PullForeign<S(!new), C(!new)>(alg: Algebra<S, C>, init: S, log: seq<Op<C>>, c: nat, cl: Client<S, C>)
    requires Convergent(alg)
    requires Authentic(alg, init, log) && Tracked(log, c, cl) && Consistent(alg, init, log, cl)
    requires cl.version + 1 < |log| && log[cl.version + 1].id.client != c
    ensures var r := Received(alg, cl, Xform(alg, log, cl.version + 1).x);
            r.Some? && Consistent(alg, init, log, r.value)
  {
    var n, a, b := cl.version + 1, View(log, cl), log[..cl.version + 2] + cl.pending;
    ForeignInserted(alg, init, log, c, cl, b);
    SameXform(alg, b, log, n + 1, n);
    ForeignRow(alg, init, a, b, n, cl.node);
    DescendCloses(alg, cl.node, Descend(alg, Xform(alg, log, n).x, cl.chain).last, cl.edits);
  }

  lemma ForeignTracked<S, C>(log: seq<Op<C>>, c: nat, cl: Client<S, C>, cl': Client<S, C>)
    requires Tracked(log, c, cl) && cl.version + 1 < |log| && log[cl.version + 1].id.client != c
    requires cl'.version == cl.version + 1 && cl'.pending == cl.pending
    requires cl'.outbox == cl.outbox && cl'.made == cl.made
    ensures Tracked(log, c, cl')
  {
    assert OwnFrom(log, cl.version + 1, c) == [] + OwnFrom(log, cl.version + 2, c);
  }

  /** cl' is what becomes of cl by pulling one operation. */
  ghost predicate PulledOne<S, C>(alg: Algebra<S, C>, init: S, log: seq<Op<C>>, c: nat, cl: Client<S, C>,
                                  cl': Client<S, C>) {
    && cl'.version == cl.version + 1 && cl'.outbox == cl.outbox && cl'.made == cl.made
    && Tracked(log, c, cl') && Consistent(alg, init, log, cl')
  }

  /** Pulling never fails and keeps the invariant. */
  lemma PullKeeps<S(!new), C(!new)>(alg: Algebra<S, C>, init: S, log: seq<Op<C>>, c: nat, cl: Client<S, C>)
    requires Convergent(alg)
    requires Authentic(alg, init, log) && Tracked(log, c, cl) && Consistent(alg, init, log, cl)
    ensures Pulled(alg, log, cl).Some?
    ensures var cl' := Pulled(alg, log, cl).value;
            if cl.version + 1 < |log| then PulledOne(alg, init, log, c, cl, cl') else cl' == cl
  {
    if cl.version + 1 < |log| {
      OwnHead(log, c, cl);
      if log[cl.version + 1].id.client == c {
        ViewUnchanged(log, c, cl);
        PullOwn(alg, init, log, c, cl);
      } else {
        PullForeign(alg, init, log, c, cl);
        ForeignTracked(log, c, cl, Pulled(alg, log, cl).value);
      }
    }
  }

  // ----- pushing -----

  /** A new operation on top of a virtual log: based on the pulled prefix, after the last queued one. */
  predicate OnTop<C>(v: seq<Op<C>>, n: nat, op: Op<C>) {
    && n <= |v| && op.basis == n - 1
    && op.parent == (if |v| == n then None else Some(v[|v| - 1].id))
    && forall k :: 0 <= k < |v| ==> v[k].id != op.id
  }

  lemma OnTopWellFormed<C>(v: seq<Op<C>>, n: nat, op: Op<C>)
    requires WellFormed(v) && Queue(v, n) && OnTop(v, n, op)
    ensures WellFormed(v + [op]) && Queue(v + [op], n) && SamePrefix(v, v + [op], |v|)
  {
    var v' := v + [op];
    assert v'[..|v|] == v;
    forall k: nat | k < |v'| ensures Placed(v', k) {
      if k < |v| {
        assert Placed(v, k) && v'[k] == v[k];
        if v[k].parent.Some? {
          var j := ParentIndex(v, k);
          assert v'[j] == v[j];
        }
      } else if |v| > n {
        assert v'[|v| - 1] == v[|v| - 1];
      }
    }
    forall k: nat | n <= k < |v'| ensures Queued(v', n, k) {
      assert k < |v| ==> Queued(v, n, k) && v'[k] == v[k];
      assert n < k ==> v'[k - 1] == v[k - 1];
    }
  }

  /** Nothing has to be merged into it. */
  lemma OnTopInputs<S, C>(alg: Algebra<S, C>, v: seq<Op<C>>, n: nat, op: Op<C>)
    requires WellFormed(v) && Queue(v, n) && OnTop(v, n, op) && WellFormed(v + [op]) && Queue(v + [op], n)
    ensures Inputs(alg, v + [op], |v|) == []
  {
    var v' := v + [op];
    assert v'[|v|] == op;
    if |v| > n {
      QueueInputs(alg, v', n, |v|);
      QueueChainBelow(alg, v', n, |v| - 1);
      SinceAll(Xform(alg, v', |v| - 1).chain, n);
    }
  }

  /** Its author made it on the state the virtual log reaches. */
  lemma OnTopAuthor<S(!new), C(!new)>(alg: Algebra<S, C>, init: S, v: seq<Op<C>>, n: nat, op: Op<C>)
    requires Convergent(alg) && Authentic(alg, init, v) && Queue(v, n) && OnTop(v, n, op)
    requires WellFormed(v + [op]) && Queue(v + [op], n) && SamePrefix(v, v + [op], |v|)
    ensures AuthorBefore(alg, init, v + [op], |v|) == State(alg, init, v, |v|)
  {
    var v' := v + [op];
    assert v'[|v|] == op;
    if |v| == n {
      SameState(alg, init, v, v', n);
    } else {
      var j := |v| - 1;
      QueueParent(v', n, |v|);
      SameXform(alg, v, v', |v|, j);
      SameAuthor(alg, init, v, v', |v|, j);
      QueueChainBelow(alg, v, n, j);
      SinceAll(Xform(alg, v, j).chain, n);
      LogSound(alg, init, v, j);
    }
  }

  lemma {:induction false} ChangesSnoc<S, C>(alg: Algebra<S, C>, v: seq<Op<C>>, v': seq<Op<C>>, n: nat)
    requires WellFormed(v) && WellFormed(v') && |v'| == |v| + 1 && SamePrefix(v, v', |v|) && n <= |v|
    ensures ChangesFrom(alg, v', n) == ChangesFrom(alg, v, n) + [Xform(alg, v', |v|).x]
    decreases |v| - n
  {
    if n < |v| {
      SameXform(alg, v, v', |v|, n);
      ChangesSnoc(alg, v, v', n + 1);
    } else {
      assert ChangesFrom(alg, v', n + 1) == [];
    }
  }

  lemma OnTopAuthentic<S(!new), C(!new)>(alg: Algebra<S, C>, init: S, v: seq<Op<C>>, n: nat, op: Op<C>, s: S)
    requires Convergent(alg) && Authentic(alg, init, v) && Queue(v, n) && OnTop(v, n, op)
    requires State(alg, init, v, |v|) == Some(s) && alg.apply(s, op.change).Some?
    ensures var v' := v + [op];
            && Authentic(alg, init, v') && Queue(v', n)
            && ChangesFrom(alg, v', n) == ChangesFrom(alg, v, n) + [op.change]
            && State(alg, init, v', |v'|) == alg.apply(s, op.change)
  {
    var v' := v + [op];
    OnTopWellFormed(v, n, op);
    OnTopInputs(alg, v, n, op);
    OnTopAuthor(alg, init, v, n, op);
    assert v'[|v|] == op;
    assert Xform(alg, v', |v|).x == op.change;
    forall k: nat | k < |v'| ensures AuthorAfter(alg, init, v', k).Some? {
      if k < |v| {
        SameAuthor(alg, init, v, v', |v|, k);
        assert AuthorAfter(alg, init, v, k).Some?;
      }
    }
    ChangesSnoc(alg, v, v', n);
    SameState(alg, init, v, v', |v|);
    StateNext(alg, init, v', |v|);
  }

  lemma NewOpOnTop<S, C>(log: seq<Op<C>>, c: nat, cl: Client<S, C>, change: C)
    requires Tracked(log, c, cl)
    ensures OnTop(View(log, cl), cl.version + 1, NewOp(c, cl, change))
  {
    var v, n, op := View(log, cl), cl.version + 1, NewOp(c, cl, change);
    forall k | 0 <= k < |v| ensures v[k].id != op.id {
      if k < n {
        assert v[k] == log[k];
      } else {
        assert v[k] == cl.pending[k - n];
      }
    }
    assert cl.pending != [] ==> v[|v| - 1] == cl.pending[|cl.pending| - 1];
  }

  /** Only the view, the chain and the values at the client matter. */
  lemma SameView<S, C>(alg: Algebra<S, C>, init: S, log: seq<Op<C>>, cl: Client<S, C>, log': seq<Op<C>>,
                       cl': Client<S, C>)
    requires 0 <= cl.version + 1 <= |log| && cl.version + 1 <= |log'| && Consistent(alg, init, log, cl)
    requires cl'.version == cl.version && cl'.chain == cl.chain && cl'.node == cl.node && cl'.edits == cl.edits
    requires View(log', cl') == View(log, cl)
    ensures Consistent(alg, init, log', cl')
  {
  }

  lemma PushTracked<S, C>(log: seq<Op<C>>, c: nat, cl: Client<S, C>, cl': Client<S, C>, op: Op<C>)
    requires Tracked(log, c, cl) && op.id == Id(c, cl.made) && cl'.made == cl.made + 1 && cl'.version == cl.version
    requires cl'.pending == cl.pending + [op] && cl'.outbox == cl.outbox + [op]
    ensures Tracked(log, c, cl')
  {
    assert cl'.pending == OwnFrom(log, cl.version + 1, c) + cl'.outbox;
  }

  lemma PushConsistent<S(!new), C(!new)>(alg: Algebra<S, C>, init: S, log: seq<Op<C>>, c: nat, cl: Client<S, C>,
                                         cl': Client<S, C>, change: C)
    requires Convergent(alg) && Tracked(log, c, cl) && Consistent(alg, init, log, cl)
    requires alg.apply(cl.node, change) == Some(cl'.node) && cl'.edits == []
    requires cl'.version == cl.version && cl'.pending == cl.pending + [NewOp(c, cl, change)]
    requires cl'.chain == cl.chain + [change]
    ensures Consistent(alg, init, log, cl')
  {
    var op, v := NewOp(c, cl, change), View(log, cl);
    NewOpOnTop(log, c, cl, change);
    OnTopAuthentic(alg, init, v, cl.version + 1, op, cl.node);
    assert View(log, cl') == v + [op];
    assert ApplyAll(alg, cl'.node, []).Some?;
  }

  /** Pushing never fails and keeps the invariant. */
  lemma PushKeeps<S(!new), C(!new)>(alg: Algebra<S, C>, init: S, log: seq<Op<C>>, c: nat, cl: Client<S, C>)
    requires Convergent(alg) && Joining(alg) && Tracked(log, c, cl) && Consistent(alg, init, log, cl)
    ensures Pushed(alg, c, cl).Some?
    ensures var cl' := Pushed(alg, c, cl).value; Tracked(log, c, cl') && Consistent(alg, init, log, cl')
  {
    var cl', change := Pushed(alg, c, cl).value, alg.join(cl.edits);
    assert ApplyAll(alg, cl.node, cl.edits) == alg.apply(cl.node, change);
    if alg.isNil(change) {
      assert View(log, cl') == View(log, cl);
      assert ApplyAll(alg, cl'.node, []).Some?;
    } else {
      PushTracked(log, c, cl, cl', NewOp(c, cl, change));
      PushConsistent(alg, init, log, c, cl, cl', change);
    }
  }

  // ----- delivering -----

  /** A client that pulls everything: its virtual log is the log followed by its outbox. */
  lemma {:induction false} CatchUp<S(!new), C(!new)>(alg: Algebra<S, C>, init: S, log: seq<Op<C>>, c: nat,
                                                     cl: Client<S, C>)
    returns (end: Client<S, C>)
    requires Convergent(alg)
    requires Authentic(alg, init, log) && Tracked(log, c, cl) && Consistent(alg, init, log, cl)
    ensures Tracked(log, c, end) && Consistent(alg, init, log, end)
    ensures end.version + 1 == |log| && end.pending == cl.outbox == end.outbox && View(log, end) == log + cl.outbox
    decreases |log| - cl.version
  {
    if cl.version + 1 == |log| {
      end := cl;
      assert log[..|log|] == log;
    } else {
      PullKeeps(alg, init, log, c, cl);
      end := CatchUp(alg, init, log, c, Pulled(alg, log, cl).value);
    }
  }

  lemma {:induction false} OwnFromSnoc<C>(log: seq<Op<C>>, op: Op<C>, n: nat, c: nat)
    requires n <= |log|
    ensures OwnFrom(log + [op], n, c) == OwnFrom(log, n, c) + (if op.id.client == c then [op] else [])
    decreases |log| - n
  {
    if n < |log| {
      OwnFromSnoc(log, op, n + 1, c);
      assert (log + [op])[n] == log[n];
    } else {
      assert (log + [op])[n] == op;
      assert OwnFrom(log + [op], n + 1, c) == [];
    }
  }

  /** A longer log changes nothing for a client that has not pulled the new entry. */
  lemma DeliveredElsewhere<S, C>(alg: Algebra<S, C>, init: S, log: seq<Op<C>>, op: Op<C>, c: nat, cl: Client<S, C>)
    requires Tracked(log, c, cl) && Consistent(alg, init, log, cl) && op.id.client != c
    ensures Tracked(log + [op], c, cl) && Consistent(alg, init, log + [op], cl)
  {
    OwnFromSnoc(log, op, cl.version + 1, c);
    SameView(alg, init, log, cl, log + [op], cl);
  }

  lemma DeliveredHere<S, C>(alg: Algebra<S, C>, init: S, log: seq<Op<C>>, c: nat, cl: Client<S, C>)
    requires Tracked(log, c, cl) && Consistent(alg, init, log, cl) && cl.outbox != []
    ensures var log', cl' := log + [cl.outbox[0]], cl.(outbox := cl.outbox[1..]);
            Tracked(log', c, cl') && Consistent(alg, init, log', cl')
  {
    var log', cl' := log + [cl.outbox[0]], cl.(outbox := cl.outbox[1..]);
    DeliveredTracked(log, c, cl, log', cl');
    SameView(alg, init, log, cl, log', cl');
  }

  lemma DeliveredTracked<S, C>(log: seq<Op<C>>, c: nat, cl: Client<S, C>, log': seq<Op<C>>, cl': Client<S, C>)
    requires Tracked(log, c, cl) && cl.outbox != []
    requires log' == log + [cl.outbox[0]] && cl' == cl.(outbox := cl.outbox[1..])
    ensures Tracked(log', c, cl') && View(log', cl') == View(log, cl)
  {
    var n, op := cl.version + 1, cl.outbox[0];
    assert op == cl.pending[|OwnFrom(log, n, c)|];
    OwnFromSnoc(log, op, n, c);
    assert cl.outbox == [op] + cl'.outbox;
    assert cl'.pending == OwnFrom(log', n, c) + cl'.outbox;
  }

  lemma DeliveredAuthentic<S(!new), C(!new)>(alg: Algebra<S, C>, init: S, log: seq<Op<C>>, c: nat, cl: Client<S, C>)
    requires Convergent(alg) && Authentic(alg, init, log) && Tracked(log, c, cl) && Consistent(alg, init, log, cl)
    requires cl.outbox != []
    ensures Authentic(alg, init, log + [cl.outbox[0]]) && cl.outbox[0].id.client == c
  {
    var end := CatchUp(alg, init, log, c, cl);
    FrontAuthentic(alg, init, log, end.pending);
    assert end.pending[0].id.client == c;
  }

  lemma FrontAuthentic<S(!new), C(!new)>(alg: Algebra<S, C>, init: S, log: seq<Op<C>>, more: seq<Op<C>>)
    requires Authentic(alg, init, log + more) && more != []
    ensures Authentic(alg, init, log + [more[0]])
  {
    PrefixAuthentic(alg, init, log + more, |log| + 1);
    assert (log + more)[..|log| + 1] == log + [more[0]];
  }

  lemma DeliverKeeps<S(!new), C(!new)>(alg: Algebra<S, C>, init: S, w: World<S, C>, c: nat)
    requires Convergent(alg) && Inv(alg, init, w) && c < |w.clients|
    ensures Next(alg, w, Deliver(c)).Some? && Inv(alg, init, Next(alg, w, Deliver(c)).value)
  {
    var cl := w.clients[c];
    if cl.outbox != [] {
      var op, w' := cl.outbox[0], Next(alg, w, Deliver(c)).value;
      DeliveredAuthentic(alg, init, w.log, c, cl);
      forall d | 0 <= d < |w'.clients|
        ensures Tracked(w'.log, d, w'.clients[d]) && Consistent(alg, init, w'.log, w'.clients[d])
      {
        if d == c {
          DeliveredHere(alg, init, w.log, c, cl);
        } else {
          DeliveredElsewhere(alg, init, w.log, op, d, w.clients[d]);
        }
      }
    }
  }

  // ----- runs -----

  lemma SetClientKeeps<S, C>(alg: Algebra<S, C>, init: S, w: World<S, C>, c: nat, cl: Client<S, C>)
    requires Inv(alg, init, w) && c < |w.clients| && Tracked(w.log, c, cl) && Consistent(alg, init, w.log, cl)
    ensures Inv(alg, init, w.(clients := w.clients[c := cl]))
  {
  }

  lemma EditKeeps<S, C>(alg: Algebra<S, C>, init: S, log: seq<Op<C>>, cl: Client<S, C>, change: C)
    requires 0 <= cl.version + 1 <= |log| && Consistent(alg, init, log, cl)
    requires alg.apply(ApplyAll(alg, cl.node, cl.edits).value, change).Some?
    ensures Consistent(alg, init, log, cl.(edits := cl.edits + [change]))
  {
    ApplyAllConcat(alg, cl.node, cl.edits, [change]);
    ApplyAllOne(alg, ApplyAll(alg, cl.node, cl.edits).value, change);
  }

  /** Every step keeps the invariant; only an edit that does not apply or an unknown client is refused. */
  lemma StepKeeps<S(!new), C(!new)>(alg: Algebra<S, C>, init: S, w: World<S, C>, step: Step<C>)
    requires Convergent(alg) && Joining(alg) && Inv(alg, init, w)
    ensures Next(alg, w, step).Some? ==> Inv(alg, init, Next(alg, w, step).value)
    ensures step.client < |w.clients| && !step.Edit? ==> Next(alg, w, step).Some?
  {
    if step.client < |w.clients| {
      var c, cl := step.client, w.clients[step.client];
      match step
      case Edit(_, change) =>
        if Next(alg, w, step).Some? {
          EditKeeps(alg, init, w.log, cl, change);
          SetClientKeeps(alg, init, w, c, cl.(edits := cl.edits + [change]));
        }
      case Push(_) =>
        PushKeeps(alg, init, w.log, c, cl);
        SetClientKeeps(alg, init, w, c, Pushed(alg, c, cl).value);
      case Deliver(_) => DeliverKeeps(alg, init, w, c);
      case Pull(_) =>
        PullKeeps(alg, init, w.log, c, cl);
        SetClientKeeps(alg, init, w, c, Pulled(alg, w.log, cl).value);
    }
  }

  /** The world after a run of steps; None if a step is impossible. */
  function Run<S, C>(alg: Algebra<S, C>, w: World<S, C>, steps: seq<Step<C>>): Option<World<S, C>>
    decreases |steps|
  {
    if steps == [] then Some(w)
    else if !WellFormed(w.log) then None
    else
      var w' :- Next(alg, w, steps[0]);
      Run(alg, w', steps[1..])
  }

  lemma {:induction false} RunKeeps<S(!new), C(!new)>(alg: Algebra<S, C>, init: S, w: World<S, C>, steps: seq<Step<C>>)
    requires Convergent(alg) && Joining(alg) && Inv(alg, init, w)
    ensures Run(alg, w, steps).Some? ==> Inv(alg, init, Run(alg, w, steps).value)
    decreases |steps|
  {
    if steps != [] {
      StepKeeps(alg, init, w, steps[0]);
      var next := Next(alg, w, steps[0]);
      if next.Some? {
        RunKeeps(alg, init, next.value, steps[1..]);
      }
    }
  }

  lemma StartClient<S, C>(alg: Algebra<S, C>, init: S, c: nat, cl: Client<S, C>)
    requires cl == Client(-1, [], [], [], 0, init, [])
    ensures Tracked([], c, cl) && Consistent(alg, init, [], cl)
  {
    var log: seq<Op<C>> := [];
    assert View(log, cl) == log && OwnFrom(log, 0, c) == [];
    assert State(alg, init, log, 0) == Some(init) && ApplyAll(alg, init, []) == Some(init);
  }

  lemma StartInv<S, C>(alg: Algebra<S, C>, init: S, n: nat)
    ensures Inv(alg, init, Start(init, n))
  {
    var w: World<S, C> := Start(init, n);
    forall c | 0 <= c < n
      ensures Tracked(w.log, c, w.clients[c]) && Consistent(alg, init, w.log, w.clients[c])
    {
      StartClient(alg, init, c, w.clients[c]);
    }
  }

  /** Every client of every run satisfies the invariant. */
  lemma Reached<S(!new), C(!new)>(alg: Algebra<S, C>, init: S, n: nat, steps: seq<Step<C>>, w: World<S, C>, c: nat)
    requires Convergent(alg) && Joining(alg) && Run(alg, Start(init, n), steps) == Some(w) && c < |w.clients|
    ensures Authentic(alg, init, w.log) && Tracked(w.log, c, w.clients[c]) && Consistent(alg, init, w.log, w.clients[c])
  {
    StartInv(alg, init, n);
    RunKeeps(alg, init, Start(init, n), steps);
  }

  lemma IdleAgrees<S, C>(alg: Algebra<S, C>, init: S, log: seq<Op<C>>, cl: Client<S, C>)
    requires WellFormed(log) && 0 <= cl.version + 1 <= |log| && Consistent(alg, init, log, cl) && cl.pending == []
    ensures State(alg, init, log, cl.version + 1) == Some(cl.node)
  {
    var v := View(log, cl);
    assert v == log[..cl.version + 1];
    SameState(alg, init, v, log, |v|);
  }

  /** In every run, of any number of clients: the stream node of a client with nothing pending holds the
      state of the log at its version. */
  lemma RunsAgreeWithLog<S(!new), C(!new)>(alg: Algebra<S, C>, init: S, n: nat, steps: seq<Step<C>>, w: World<S, C>,
                                           c: nat)
    requires Convergent(alg) && Joining(alg) && Run(alg, Start(init, n), steps) == Some(w) && c < |w.clients|
    ensures WellFormed(w.log) && 0 <= w.clients[c].version + 1 <= |w.log|
    ensures w.clients[c].pending == [] ==>
              State(alg, init, w.log, w.clients[c].version + 1) == Some(w.clients[c].node)
  {
    Reached(alg, init, n, steps, w, c);
    if w.clients[c].pending == [] {
      IdleAgrees(alg, init, w.log, w.clients[c]);
    }
  }

  /** Convergence: two clients at the same version with nothing pending and no unpushed edits are equal. */
  lemma RunsConverge<S(!new), C(!new)>(alg: Algebra<S, C>, init: S, n: nat, steps: seq<Step<C>>, w: World<S, C>,
                                       c: nat, d: nat)
    requires Convergent(alg) && Joining(alg) && Run(alg, Start(init, n), steps) == Some(w)
    requires c < |w.clients| && d < |w.clients|
    requires w.clients[c].version == w.clients[d].version
    requires w.clients[c].pending == [] && w.clients[d].pending == []
    requires w.clients[c].edits == [] && w.clients[d].edits == []
    ensures ApplyAll(alg, w.clients[c].node, w.clients[c].edits) == ApplyAll(alg, w.clients[d].node, w.clients[d].edits)
  {
    RunsAgreeWithLog(alg, init, n, steps, w, c);
    RunsAgreeWithLog(alg, init, n, steps, w, d);
  }

  /** Everything the client made is in the log, and it has pulled the whole log. */
  predicate UpToDate<S, C>(log: seq<Op<C>>, cl: Client<S, C>) {
    cl.outbox == [] && cl.edits == [] && cl.version + 1 == |log|
  }

  /** Once everything made is in the log and pulled, nothing is pending any more and all clients hold the
      state of the whole log. */
  lemma UpToDateAgree<S(!new), C(!new)>(alg: Algebra<S, C>, init: S, n: nat, steps: seq<Step<C>>, w: World<S, C>,
                                        c: nat)
    requires Convergent(alg) && Joining(alg) && Run(alg, Start(init, n), steps) == Some(w)
    requires c < |w.clients| && UpToDate(w.log, w.clients[c])
    ensures w.clients[c].pending == []
    ensures WellFormed(w.log) && State(alg, init, w.log, |w.log|) == Some(w.clients[c].node)
  {
    Reached(alg, init, n, steps, w, c);
    assert OwnFrom(w.log, |w.log|, c) == [];
    RunsAgreeWithLog(alg, init, n, steps, w, c);
  }
}

/** The session object (ops/sync/session.go): its in-place push and pull are the steps of Protocol. */
module Sessions {
  import opened Options
  import opened Algebras
  import opened Operations
  import opened Stores
  import opened Protocol
  import opened Streams

  function ChangesOf<C>(ops: seq<Op<C>>): (cs: seq<C>)
    ensures |cs| == |ops|
    ensures forall i :: 0 <= i < |ops| ==> cs[i] == ops[i].change
  {
    if ops == [] then [] else [ops[0].change] + ChangesOf(ops[1..])
  }

  lemma ChangesOfSnoc<C>(ops: seq<Op<C>>, op: Op<C>)
    ensures ChangesOf(ops + [op]) == ChangesOf(ops) + [op.change]
  {
  }

  /** The next transformed operation of the log. */
  function NextEntry<S, C>(alg: Algebra<S, C>, log: seq<Op<C>>, n: nat): Entry<C>
    requires WellFormed(log) && n < |log|
  {
    Entry(n, log[n].(change := Xform(alg, log, n).x))
  }

  /** The entries that the transforming store returns for the next k versions. */
  function NextEntries<S, C>(alg: Algebra<S, C>, log: seq<Op<C>>, n: nat, k: nat): (es: seq<Entry<C>>)
    requires WellFormed(log) && n + k <= |log|
    ensures |es| == k
    decreases k
  {
    if k == 0 then [] else [NextEntry(alg, log, n)] + NextEntries(alg, log, n + 1, k - 1)
  }

  lemma {:induction false} NextEntriesAt<S, C>(alg: Algebra<S, C>, log: seq<Op<C>>, n: nat, k: nat, i: nat)
    requires WellFormed(log) && n + k <= |log| && i < k
    ensures NextEntries(alg, log, n, k)[i] == NextEntry(alg, log, n + i)
    decreases k
  {
    if i > 0 {
      NextEntriesAt(alg, log, n + 1, k - 1, i - 1);
    }
  }

  /** The client after pulling the next k operations. */
  function PulledMany<S, C>(alg: Algebra<S, C>, log: seq<Op<C>>, cl: Client<S, C>, k: nat): Option<Client<S, C>>
    requires WellFormed(log) && 0 <= cl.version + 1 && cl.version + 1 + k <= |log|
    decreases k
  {
    if k == 0 then Some(cl)
    else
      var next :- Pulled(alg, log, cl);
      PulledMany(alg, log, next, k - 1)
  }

  ghost predicate CanPull<S, C>(alg: Algebra<S, C>, log: seq<Op<C>>, cl: Client<S, C>, k: nat) {
    && WellFormed(log) && 0 <= cl.version + 1 && cl.version + 1 + k <= |log|
    && PulledMany(alg, log, cl, k).Some?
  }

  /** Pulling leads from the i-th client of the trail to the next one. */
  ghost predicate PullsAt<S, C>(alg: Algebra<S, C>, log: seq<Op<C>>, trail: seq<Client<S, C>>, i: nat)
    requires WellFormed(log) && i + 1 < |trail|
  {
    && 0 <= trail[i].version + 1 < |log|
    && Pulled(alg, log, trail[i]) == Some(trail[i + 1])
  }

  ghost predicate Trail<S, C>(alg: Algebra<S, C>, log: seq<Op<C>>, trail: seq<Client<S, C>>)
    requires WellFormed(log)
  {
    forall i: nat {:trigger PullsAt(alg, log, trail, i)} :: i + 1 < |trail| ==> PullsAt(alg, log, trail, i)
  }

  lemma TrailCons<S, C>(alg: Algebra<S, C>, log: seq<Op<C>>, cl: Client<S, C>, rest: seq<Client<S, C>>)
    requires WellFormed(log) && 0 <= cl.version + 1 < |log| && rest != [] && Trail(alg, log, rest)
    requires Pulled(alg, log, cl) == Some(rest[0])
    ensures Trail(alg, log, [cl] + rest)
  {
    var trail := [cl] + rest;
    forall i: nat | i + 1 < |trail| ensures PullsAt(alg, log, trail, i) {
      if i > 0 {
        assert PullsAt(alg, log, rest, i - 1);
      }
    }
  }

  /** The clients on the way. */
  lemma {:induction false} PullTrail<S, C>(alg: Algebra<S, C>, log: seq<Op<C>>, cl: Client<S, C>, k: nat)
    returns (trail: seq<Client<S, C>>)
    requires CanPull(alg, log, cl, k)
    ensures |trail| == k + 1 && trail[0] == cl && Some(trail[k]) == PulledMany(alg, log, cl, k)
    ensures Trail(alg, log, trail)
    decreases k
  {
    trail := [cl];
    if k > 0 {
      var rest := PullTrail(alg, log, Pulled(alg, log, cl).value, k - 1);
      TrailCons(alg, log, cl, rest);
      trail := [cl] + rest;
    }
  }

  /** In a run of the protocol every client can pull whatever the log holds, and stays consistent. */
  lemma {:induction false} CanAlwaysPull<S(!new), C(!new)>(alg: Algebra<S, C>, init: S, log: seq<Op<C>>, me: nat,
                                                           cl: Client<S, C>, k: nat)
    requires Convergent(alg) && Authentic(alg, init, log) && Tracked(log, me, cl) && Consistent(alg, init, log, cl)
    requires cl.version + 1 + k <= |log|
    ensures CanPull(alg, log, cl, k)
    ensures var end := PulledMany(alg, log, cl, k).value;
            end.version == cl.version + k && Tracked(log, me, end) && Consistent(alg, init, log, end)
    decreases k
  {
    if k > 0 {
      PullKeeps(alg, init, log, me, cl);
      CanAlwaysPull(alg, init, log, me, Pulled(alg, log, cl).value, k - 1);
    }
  }

  /** The entries are the ones pulled along the trail. */
  ghost predicate Along<S, C>(alg: Algebra<S, C>, log: seq<Op<C>>, entries: seq<Entry<C>>, trail: seq<Client<S, C>>)
    requires WellFormed(log)
  {
    && |entries| + 1 == |trail| && Trail(alg, log, trail)
    && forall i: nat {:trigger entries[i]} :: i < |entries| ==>
         0 <= trail[i].version + 1 < |log| && entries[i] == NextEntry(alg, log, trail[i].version + 1)
  }

  lemma AlongAt<S, C>(alg: Algebra<S, C>, log: seq<Op<C>>, entries: seq<Entry<C>>, trail: seq<Client<S, C>>, i: nat)
    requires WellFormed(log) && Along(alg, log, entries, trail) && i < |entries|
    ensures 0 <= trail[i].version + 1 < |log| && entries[i] == NextEntry(alg, log, trail[i].version + 1)
    ensures Pulled(alg, log, trail[i]) == Some(trail[i + 1])
  {
    assert PullsAt(alg, log, trail, i);
  }

  lemma {:induction false} VersionAt<S, C>(alg: Algebra<S, C>, log: seq<Op<C>>, trail: seq<Client<S, C>>, i: nat)
    requires WellFormed(log) && Trail(alg, log, trail) && i < |trail|
    ensures trail[i].version == trail[0].version + i
    decreases i
  {
    if i > 0 {
      VersionAt(alg, log, trail, i - 1);
      assert PullsAt(alg, log, trail, i - 1);
    }
  }

  lemma NextEntriesAlong<S, C>(alg: Algebra<S, C>, log: seq<Op<C>>, entries: seq<Entry<C>>, trail: seq<Client<S, C>>,
                               n: nat)
    requires WellFormed(log) && Trail(alg, log, trail) && |entries| + 1 == |trail| && trail[0].version + 1 == n
    requires n + |entries| <= |log| && entries == NextEntries(alg, log, n, |entries|)
    ensures Along(alg, log, entries, trail)
  {
    forall i: nat | i < |entries|
      ensures 0 <= trail[i].version + 1 < |log| && entries[i] == NextEntry(alg, log, trail[i].version + 1)
    {
      VersionAt(alg, log, trail, i);
      NextEntriesAt(alg, log, n, |entries|, i);
    }
  }

  /** What a push amounts to, part by part. */
  lemma PushedParts<S, C>(alg: Algebra<S, C>, me: nat, cl: Client<S, C>, added: seq<Op<C>>, end: Client<S, C>)
    requires ApplyAll(alg, cl.node, cl.edits) == Some(end.node) && end.edits == [] && end.version == cl.version
    requires added == if alg.isNil(alg.join(cl.edits)) then [] else [NewOp(me, cl, alg.join(cl.edits))]
    requires end.pending == cl.pending + added && end.chain == cl.chain + ChangesOf(added)
    requires end.outbox == cl.outbox + added && end.made == cl.made + |added|
    ensures Pushed(alg, me, cl) == Some(end)
  {
    if added == [] {
      assert cl.pending + added == cl.pending && cl.chain + [] == cl.chain && cl.outbox + added == cl.outbox;
    } else {
      assert ChangesOf(added) == [added[0].change];
    }
  }

  lemma Replaced<T>(done: seq<T>, before: seq<T>, i: nat, now: T)
    requires i < |before| && |done| == i
    ensures (done + before[i..])[i := now] == done + [now] + before[i + 1..]
    ensures before[..i + 1] == before[..i] + [before[i]]
  {
  }

  /** One more operation of the chain handled: `now` takes its place. */
  lemma StepAlong<S, C>(alg: Algebra<S, C>, x: C, before: seq<Op<C>>, op: Op<C>, last: C, done: seq<Op<C>>, now: Op<C>)
    requires Descend(alg, x, ChangesOf(before)) == Row(last, ChangesOf(done))
    requires now.change == alg.merge(last, op.change).0
    ensures Descend(alg, x, ChangesOf(before + [op])) == Row(alg.merge(last, op.change).1, ChangesOf(done + [now]))
  {
    ChangesOfSnoc(before, op);
    ChangesOfSnoc(done, now);
    DescendSnoc(alg, x, ChangesOf(before), op.change);
  }

  /** The shape sh of the session's stream family is passed along, since no field of the program holds it. */
  class Session<S(!new), C(!new)> {
    const alg: Algebra<S, C>
    const me: nat
    var version: int
    var pending: seq<Op<C>>
    var mergeChain: seq<Op<C>>
    var out: seq<Op<C>>    // operations the store has not accepted yet
    var made: nat
    var stream: Node<C>

    /** MergeChain holds the pending operations with transformed changes. */
    ghost predicate Valid(sh: Shape<S, C>)
      reads this, sh.nodes
    {
      |mergeChain| == |pending| && Streams.Valid(alg, sh)
      && stream in sh.nodes && stream in sh.value && stream in sh.route
    }

    /** The session as a client of the protocol: its edits are the changes that follow its stream node. */
    ghost function AsClient(outbox: seq<Op<C>>, sh: Shape<S, C>): Client<S, C>
      requires stream in sh.value && stream in sh.route
      reads this
    {
      Client(version, pending, ChangesOf(mergeChain), outbox, made, sh.value[stream], sh.route[stream])
    }

    constructor (alg: Algebra<S, C>, me: nat, stream: Node<C>, ghost sh: Shape<S, C>)
      requires Streams.Valid(alg, sh) && stream == sh.last
      ensures Valid(sh) && this.alg == alg && this.me == me && out == []
      ensures AsClient([], sh) == Client(-1, [], [], [], 0, sh.value[stream], [])
    {
      this.alg, this.me, this.stream := alg, me, stream;
      version, pending, mergeChain, out, made := -1, [], [], [], 0;
    }

    /** A change appended to any node of the stream family is an edit of this client. */
    method Edit(n: Node<C>, change: C, ghost sh: Shape<S, C>, ghost outbox: seq<Op<C>>)
      returns (result: Node<C>, ghost after: Shape<S, C>, ghost x: C)
      requires Valid(sh) && Convergent(alg) && n in sh.nodes && alg.apply(sh.value[n], change).Some?
      modifies sh.last
      ensures Valid(after) && fresh(after.nodes - sh.nodes)
      ensures result in after.nodes && after.value[result] == alg.apply(sh.value[n], change).value
      ensures x == Carry(alg, change, sh.route[n], false).last
      ensures Edited(alg, AsClient(outbox, sh), x) == Some(AsClient(outbox, after))
    {
      RouteLeads(alg, sh, stream);
      result, after, x := Streams.Apply(alg, n, change, false, sh);
    }

    /** Turns the edits since the last push into an operation and offers everything not accepted yet to
        the store; `accepted` is the store's answer. */
    method Push(accepted: bool, ghost sh: Shape<S, C>, ghost outbox: seq<Op<C>>)
      returns (batch: seq<Op<C>>, ghost added: seq<Op<C>>)
      requires Valid(sh)
      modifies this
      ensures Valid(sh) && batch == old(out) + added
      ensures Pushed(alg, me, old(AsClient(outbox, sh))) == Some(AsClient(outbox + added, sh))
      ensures out == if accepted then [] else batch
    {
      ghost var cl := AsClient(outbox, sh);
      RouteLeads(alg, sh, stream);
      var end, change := Latest(alg, stream, sh);
      stream := end;
      added := AppendChange(change);
      PushedParts(alg, me, cl, added, AsClient(outbox + added, sh));
      batch := out;
      if |out| > 0 && accepted {
        out := [];
      }
    }

    /** appendChange */
    method AppendChange(change: C) returns (ghost added: seq<Op<C>>)
      requires |mergeChain| == |pending|
      modifies this`pending, this`mergeChain, this`out, this`made
      ensures |mergeChain| == |pending| && pending == old(pending) + added && out == old(out) + added
      ensures made == old(made) + |added| && ChangesOf(mergeChain) == old(ChangesOf(mergeChain)) + ChangesOf(added)
      ensures added == if alg.isNil(change) then [] else
                [Op(Id(me, old(made)),
                    if old(pending) == [] then None else Some(old(pending[|pending| - 1]).id), version, change)]
    {
      added := [];
      if !alg.isNil(change) {
        var op := Op(Id(me, made), if |pending| > 0 then Some(pending[|pending| - 1].id) else None, version, change);
        added := [op];
        ChangesOfSnoc(mergeChain, op);
        assert ChangesOf(added) == [change];
        made := made + 1;
        pending := pending + [op];
        mergeChain := mergeChain + [op];
        out := out + [op];
      }
    }

    /** Merges a foreign change with every operation of MergeChain, in place. */
    method MergeIntoChain(x: C) returns (last: C)
      modifies this`mergeChain
      ensures |mergeChain| == old(|mergeChain|)
      ensures Row(last, ChangesOf(mergeChain)) == Descend(alg, x, ChangesOf(old(mergeChain)))
    {
      last := x;
      ghost var before, done := mergeChain, [];
      for i := 0 to |mergeChain|
        invariant |done| == i && |mergeChain| == |before| && mergeChain == done + before[i..]
        invariant Descend(alg, x, ChangesOf(before[..i])) == Row(last, ChangesOf(done))
      {
        var was := mergeChain[i];
        var m := alg.merge(last, was.change);
        Replaced(done, before, i, was.(change := m.0));
        StepAlong(alg, x, before[..i], was, last, done, was.(change := m.0));
        mergeChain := mergeChain[i := was.(change := m.0)];
        last := m.1;
        done := done + [was.(change := m.0)];
      }
      assert before[..|before|] == before && mergeChain == done;
    }

    /** A foreign operation: past MergeChain, and then past the edits in the stream. */
    method MergeForeign(x: C, ghost outbox: seq<Op<C>>, ghost sh: Shape<S, C>)
      returns (ghost after: Shape<S, C>)
      requires Valid(sh) && Convergent(alg) && Received(alg, AsClient(outbox, sh), x).Some?
      modifies this`mergeChain, this`stream, sh.last
      ensures Valid(after) && fresh(after.nodes - sh.nodes) && fresh(after.last)
      ensures Some(AsClient(outbox, after).(version := version + 1)) == Received(alg, old(AsClient(outbox, sh)), x)
    {
      var last := MergeIntoChain(x);
      ghost var y;
      stream, after, y := Streams.Apply(alg, stream, last, true, sh);
    }

    /** Handles one pulled operation. */
    method PullOne(entry: Entry<C>, ghost log: seq<Op<C>>, ghost outbox: seq<Op<C>>, ghost sh: Shape<S, C>,
                   ghost cl: Client<S, C>)
      returns (ghost after: Shape<S, C>)
      requires Valid(sh) && Convergent(alg) && WellFormed(log) && 0 <= version + 1 < |log|
      requires entry == NextEntry(alg, log, version + 1)
      requires AsClient(outbox, sh) == cl && Pulled(alg, log, cl).Some?
      modifies this`version, this`pending, this`mergeChain, this`stream, sh.last
      ensures Valid(after) && fresh(after.nodes - sh.nodes) && (after.last == sh.last || fresh(after.last))
      ensures version == old(version) + 1
      ensures Some(AsClient(outbox, after)) == Pulled(alg, log, cl)
    {
      if |pending| > 0 && pending[0].id == entry.op.id {
        pending := pending[1..];
        assert ChangesOf(mergeChain[1..]) == ChangesOf(mergeChain)[1..];
        mergeChain := mergeChain[1..];
        after := sh;
      } else {
        after := MergeForeign(entry.op.change, outbox, sh);
      }
      version := version + 1;
    }

    /** Pulls the entries in order; stops with an error at the first one that is not the next version.
        The `good` entries before it lead along the trail. */
    method PullEach(entries: seq<Entry<C>>, ghost good: nat, ghost log: seq<Op<C>>, ghost outbox: seq<Op<C>>,
                    ghost sh: Shape<S, C>, ghost trail: seq<Client<S, C>>)
      returns (ok: bool, ghost after: Shape<S, C>)
      requires Valid(sh) && Convergent(alg) && WellFormed(log) && good <= |entries|
      requires Along(alg, log, entries[..good], trail) && AsClient(outbox, sh) == trail[0]
      requires good < |entries| ==> entries[good].version != trail[good].version + 1
      modifies this`version, this`pending, this`mergeChain, this`stream, sh.last
      ensures Valid(after) && fresh(after.nodes - sh.nodes) && AsClient(outbox, after) == trail[good]
      ensures ok <==> good == |entries|
    {
      after := sh;
      for i := 0 to |entries|
        invariant i <= good && Valid(after) && AsClient(outbox, after) == trail[i]
        invariant fresh(after.nodes - sh.nodes) && (after.last == sh.last || fresh(after.last))
      {
        if i < good {
          assert entries[..good][i] == entries[i];
          AlongAt(alg, log, entries[..good], trail, i);
        }
        if entries[i].version != version + 1 {
          return false, after;
        }
        after := PullOne(entries[i], log, outbox, after, trail[i]);
      }
      ok := true;
    }

    /** The entries before the first bad one come from the transforming store. */
    method Pull(entries: seq<Entry<C>>, ghost good: nat, ghost log: seq<Op<C>>, ghost outbox: seq<Op<C>>,
                ghost sh: Shape<S, C>)
      returns (ok: bool, ghost after: Shape<S, C>)
      requires Valid(sh) && Convergent(alg) && CanPull(alg, log, AsClient(outbox, sh), good)
      requires good <= |entries| && entries[..good] == NextEntries(alg, log, version + 1, good)
      requires good < |entries| ==> entries[good].version != version + 1 + good
      modifies this`version, this`pending, this`mergeChain, this`stream, sh.last
      ensures Valid(after) && fresh(after.nodes - sh.nodes)
      ensures Some(AsClient(outbox, after)) == PulledMany(alg, log, old(AsClient(outbox, sh)), good)
      ensures ok <==> good == |entries|
    {
      ghost var trail := PullTrail(alg, log, AsClient(outbox, sh), good);
      NextEntriesAlong(alg, log, entries[..good], trail, version + 1);
      VersionAt(alg, log, trail, good);
      ok, after := PullEach(entries, good, log, outbox, sh, trail);
    }
  }
}

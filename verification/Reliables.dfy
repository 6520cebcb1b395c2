/** Reliable delivery (ops/sync/reliable.go) over a deduplicating store that may apply a batch, or the
    front of it, and still report failure. Everything that touches the queue is a job, and jobs run one
    at a time; deliveries run beside them. */
module Reliables {
  import opened Options
  import opened Operations
  import opened Stores
  import Protocol

  /** What is sent to the job loop: more operations, or that the first `count` are delivered. */
  datatype Job<C> = Add(ops: seq<Op<C>>) | Remove(count: nat)

  datatype Queue<C> = Queue(
    pending: seq<Op<C>>,
    jobs: seq<Job<C>>,
    inFlight: seq<seq<Op<C>>>)  // the batch of every running delivery

  datatype World<C> = World(
    log: seq<Op<C>>,            // the store
    queue: Queue<C>,
    handed: seq<Op<C>>,         // everything ever passed to Append, in order
    closed: bool)

  datatype Step<C> =
    | Append(ops: seq<Op<C>>)
    | RunJob
    | Attempt(d: nat, applied: nat, ok: bool)  // delivery d calls the store, which applies the first operations
    | Close
    | GiveUp(d: nat)                           // delivery d ends because of Close
    | Foreign(ops: seq<Op<C>>)                 // another client's operations reach the store

  function WithJob<C>(q: Queue<C>, job: Job<C>): Queue<C> { q.(jobs := q.jobs + [job]) }

  function Without<T>(s: seq<T>, i: nat): seq<T>
    requires i < |s|
  {
    s[..i] + s[i + 1..]
  }

  /** A delivery of everything pending is started only when none can be running. */
  function Started<C>(q: Queue<C>, pending: seq<Op<C>>, start: bool): Queue<C>
    requires q.jobs != []
  {
    Queue(pending, q.jobs[1..], q.inFlight + (if start && pending != [] then [pending] else []))
  }

  function JobDone<C>(q: Queue<C>): Queue<C> {
    if q.jobs == [] then q
    else
      match q.jobs[0]
      case Add(ops) => Started(q, q.pending + ops, q.pending == [])
      case Remove(count) => Started(q, if count <= |q.pending| then q.pending[count..] else [], true)
  }

  function Delivered<C>(q: Queue<C>, d: nat): Queue<C>
    requires d < |q.inFlight|
  {
    WithJob(q.(inFlight := Without(q.inFlight, d)), Remove(|q.inFlight[d]|))
  }

  /** None if the step is impossible. */
  function Next<C>(w: World<C>, step: Step<C>): Option<World<C>> {
    var q := w.queue;
    match step
    case Append(ops) => Some(w.(queue := WithJob(q, Add(ops)), handed := w.handed + ops))
    case RunJob => Some(w.(queue := JobDone(q)))
    case Attempt(d, applied, ok) =>
      if d >= |q.inFlight| || applied > |q.inFlight[d]| || (ok && applied < |q.inFlight[d]|) then None
      else
        Some(w.(log := Appended(w.log, q.inFlight[d][..applied]), queue := if ok then Delivered(q, d) else q))
    case Close => Some(w.(closed := true))
    case GiveUp(d) =>
      if d >= |q.inFlight| || !w.closed then None else Some(w.(queue := q.(inFlight := Without(q.inFlight, d))))
    case Foreign(ops) => Some(w.(log := Appended(w.log, ops)))
  }

  // ----- the invariant -----

  function Added<C>(jobs: seq<Job<C>>): seq<Op<C>> {
    if jobs == [] then [] else (if jobs[0].Add? then jobs[0].ops else []) + Added(jobs[1..])
  }

  function Removes<C>(jobs: seq<Job<C>>): seq<nat> {
    if jobs == [] then [] else (if jobs[0].Remove? then [jobs[0].count] else []) + Removes(jobs[1..])
  }

  function Own<C>(log: seq<Op<C>>, me: nat): seq<Op<C>> { Protocol.OwnFrom(log, 0, me) }

  /** How much of what was handed over has left the queue. */
  function Gone<C>(w: World<C>): int { |w.handed| - |w.queue.pending| - |Added(w.queue.jobs)| }

  predicate Mine<C>(ops: seq<Op<C>>, me: nat) {
    DistinctIds(ops) && forall i :: 0 <= i < |ops| ==> ops[i].id.client == me
  }

  /** At most one delivery is running or reported; it holds the front of the queue. */
  ghost predicate OneDelivery<C>(q: Queue<C>, own: nat, gone: int) {
    var removes := Removes(q.jobs);
    && |q.inFlight| + |removes| <= 1
    && (q.pending == [] ==> q.inFlight == [] && removes == [])
    && (q.inFlight != [] ==> 0 < |q.inFlight[0]| && q.inFlight[0] <= q.pending)
    && (removes != [] ==> 0 < removes[0] <= |q.pending| && gone + removes[0] <= own)
  }

  ghost predicate Inv<C>(w: World<C>, me: nat) {
    var q, own, gone := w.queue, Own(w.log, me), Gone(w);
    && DistinctIds(w.log) && Mine(w.handed, me)
    && 0 <= gone && w.handed[gone..] == q.pending + Added(q.jobs)
    && own <= w.handed && gone <= |own|
    && OneDelivery(q, |own|, gone)
    && (!w.closed && q.pending != [] ==> |q.inFlight| + |Removes(q.jobs)| == 1)
  }

  // ----- the client's operations in the log -----

  lemma {:induction false} OwnIds<C>(log: seq<Op<C>>, n: nat, me: nat, id: Id)
    requires n <= |log| && id.client == me
    ensures (exists k :: n <= k < |log| && log[k].id == id) <==> id in Ids(Protocol.OwnFrom(log, n, me))
    decreases |log| - n
  {
    var own := Protocol.OwnFrom(log, n, me);
    if n < |log| {
      OwnIds(log, n + 1, me, id);
      var rest := Protocol.OwnFrom(log, n + 1, me);
      if log[n].id.client == me {
        IdsCons(log[n], rest);
        assert own == [log[n]] + rest;
      } else {
        assert own == [] + rest == rest;
      }
    }
  }

  /** One operation of a batch: it is in the log already, or it is the next one. */
  lemma OwnNext<C>(log: seq<Op<C>>, handed: seq<Op<C>>, a: nat, me: nat)
    requires Mine(handed, me) && Own(log, me) <= handed && a <= |Own(log, me)| && a < |handed|
    ensures handed[a].id in Ids(log) <==> a < |Own(log, me)|
    ensures Own(log + [handed[a]], me) == Own(log, me) + [handed[a]]
  {
    var own, op := Own(log, me), handed[a];
    OwnIds(log, 0, me, op.id);
    Protocol.OwnFromSnoc(log, op, 0, me);
    assert forall i :: 0 <= i < |own| ==> own[i] == handed[i];
  }

  /** Delivering again what is there already is harmless; the rest is added in order. */
  lemma {:induction false} OwnAppended<C>(log: seq<Op<C>>, handed: seq<Op<C>>, a: nat, k: nat, me: nat)
    requires Mine(handed, me) && Own(log, me) <= handed && a <= |Own(log, me)| && a + k <= |handed|
    ensures var m := |Own(log, me)|;
            Own(Appended(log, handed[a..a + k]), me) == handed[..if a + k < m then m else a + k]
    decreases k
  {
    var own, batch := Own(log, me), handed[a..a + k];
    if k > 0 {
      assert batch[0] == handed[a] && batch[1..] == handed[a + 1..a + k];
      OwnNext(log, handed, a, me);
      if a < |own| {
        OwnAppended(log, handed, a + 1, k - 1, me);
      } else {
        assert own + [handed[a]] == handed[..a + 1];
        OwnAppended(log + [handed[a]], handed, a + 1, k - 1, me);
      }
    }
  }

  lemma {:induction false} OwnForeign<C>(log: seq<Op<C>>, ops: seq<Op<C>>, me: nat)
    requires forall i :: 0 <= i < |ops| ==> ops[i].id.client != me
    ensures Own(Appended(log, ops), me) == Own(log, me)
    decreases |ops|
  {
    if ops != [] {
      Protocol.OwnFromSnoc(log, ops[0], 0, me);
      OwnForeign(if ops[0].id in Ids(log) then log else log + [ops[0]], ops[1..], me);
    }
  }

  // ----- jobs -----

  lemma {:induction false} JobsSnoc<C>(jobs: seq<Job<C>>, job: Job<C>)
    ensures Added(jobs + [job]) == Added(jobs) + (if job.Add? then job.ops else [])
    ensures Removes(jobs + [job]) == Removes(jobs) + (if job.Remove? then [job.count] else [])
    decreases |jobs|
  {
    if jobs == [] {
      assert (jobs + [job])[1..] == [];
    } else {
      assert (jobs + [job])[1..] == jobs[1..] + [job];
      JobsSnoc(jobs[1..], job);
    }
  }

  // ----- steps keep the invariant -----

  lemma HandOver<T>(handed: seq<T>, ops: seq<T>, gone: nat, pending: seq<T>, added: seq<T>)
    requires gone <= |handed| && handed[gone..] == pending + added
    ensures (handed + ops)[gone..] == pending + (added + ops)
  {
    assert (handed + ops)[gone..] == handed[gone..] + ops;
  }

  lemma AppendKeeps<C>(w: World<C>, ops: seq<Op<C>>, me: nat)
    requires Inv(w, me) && Mine(w.handed + ops, me)
    ensures Inv(Next(w, Append(ops)).value, me)
  {
    var q, gone := w.queue, Gone(w);
    JobsSnoc(q.jobs, Add(ops));
    HandOver(w.handed, ops, gone, q.pending, Added(q.jobs));
    assert w.handed <= w.handed + ops;
    assert Removes(q.jobs) + [] == Removes(q.jobs);
    assert Gone(Next(w, Append(ops)).value) == gone;
  }

  lemma AddedQueue<C>(q: Queue<C>, own: nat, gone: int)
    requires OneDelivery(q, own, gone) && q.jobs != [] && q.jobs[0].Add?
    ensures var q' := JobDone(q);
            && OneDelivery(q', own, gone) && q'.pending + Added(q'.jobs) == q.pending + Added(q.jobs)
            && (q.pending == [] && q'.pending != [] ==> |q'.inFlight| == 1)
            && (q.pending != [] ==> q'.inFlight == q.inFlight && Removes(q'.jobs) == Removes(q.jobs))
  {
    var ops, rest := q.jobs[0].ops, q.jobs[1..];
    assert q.pending + (ops + Added(rest)) == q.pending + ops + Added(rest);
    assert Removes(q.jobs) == [] + Removes(rest) == Removes(rest);
  }

  lemma AddRuns<C>(w: World<C>, me: nat)
    requires Inv(w, me) && w.queue.jobs != [] && w.queue.jobs[0].Add?
    ensures Inv(Next(w, RunJob).value, me)
  {
    AddedQueue(w.queue, |Own(w.log, me)|, Gone(w));
    QueueChanged(w, JobDone(w.queue), Gone(w), me);
  }

  lemma DropFront<T>(handed: seq<T>, gone: nat, count: nat, pending: seq<T>, added: seq<T>)
    requires gone <= |handed| && handed[gone..] == pending + added && count <= |pending|
    ensures gone + count <= |handed| && handed[gone + count..] == pending[count..] + added
  {
    assert handed[gone + count..] == handed[gone..][count..];
  }

  /** The queue after the front of it is removed: a new delivery has started on the rest. */
  lemma RemovedQueue<C>(q: Queue<C>, own: nat, gone: int, count: nat)
    requires OneDelivery(q, own, gone) && q.jobs != [] && q.jobs[0] == Remove(count)
    ensures var q' := JobDone(q);
            && 0 < count <= |q.pending| && gone + count <= own && OneDelivery(q', own, gone + count)
            && q'.pending == q.pending[count..] && Added(q'.jobs) == Added(q.jobs)
            && (q'.pending != [] ==> |q'.inFlight| + |Removes(q'.jobs)| == 1)
  {
    var rest := q.jobs[1..];
    assert Added(q.jobs) == [] + Added(rest) == Added(rest);
    assert Removes(q.jobs) == [count] + Removes(rest);
    assert Removes(rest) == [] && q.inFlight == [];
  }

  /** Only the queue changed, in step with what is gone from it. */
  lemma QueueChanged<C>(w: World<C>, q: Queue<C>, gone: int, me: nat)
    requires Inv(w, me) && 0 <= gone <= |Own(w.log, me)| && w.handed[gone..] == q.pending + Added(q.jobs)
    requires OneDelivery(q, |Own(w.log, me)|, gone)
    requires !w.closed && q.pending != [] ==> |q.inFlight| + |Removes(q.jobs)| == 1
    ensures Inv(w.(queue := q), me)
  {
    assert Gone(w.(queue := q)) == gone;
  }

  lemma RemoveRuns<C>(w: World<C>, me: nat)
    requires Inv(w, me) && w.queue.jobs != [] && w.queue.jobs[0].Remove?
    ensures Inv(Next(w, RunJob).value, me)
  {
    var q, count := w.queue, w.queue.jobs[0].count;
    RemovedQueue(q, |Own(w.log, me)|, Gone(w), count);
    DropFront(w.handed, Gone(w), count, q.pending, Added(q.jobs));
    QueueChanged(w, JobDone(q), Gone(w) + count, me);
  }

  lemma FrontOf<T>(handed: seq<T>, gone: nat, pending: seq<T>, added: seq<T>, batch: seq<T>, applied: nat)
    requires gone <= |handed| && handed[gone..] == pending + added && batch <= pending && applied <= |batch|
    ensures gone + |batch| <= |handed| && batch[..applied] == handed[gone..gone + applied]
  {
    assert handed[gone..][..applied] == handed[gone..gone + applied];
  }

  /** Only the log changed: the client has more operations there. */
  lemma LogChanged<C>(w: World<C>, log: seq<Op<C>>, m: nat, me: nat)
    requires Inv(w, me) && DistinctIds(log) && |Own(w.log, me)| <= m <= |w.handed| && Own(log, me) == w.handed[..m]
    ensures Inv(w.(log := log), me)
  {
  }

  lemma DeliveredQueue<C>(q: Queue<C>, own: nat, gone: int)
    requires OneDelivery(q, own, gone) && q.inFlight != [] && gone + |q.inFlight[0]| <= own
    ensures var q' := Delivered(q, 0);
            && OneDelivery(q', own, gone) && q'.pending == q.pending && Added(q'.jobs) == Added(q.jobs)
            && |q'.inFlight| + |Removes(q'.jobs)| == 1
  {
    JobsSnoc(q.jobs, Remove(|q.inFlight[0]|));
    assert Added(q.jobs) + [] == Added(q.jobs);
  }

  lemma AttemptKeeps<C>(w: World<C>, d: nat, applied: nat, ok: bool, me: nat)
    requires Inv(w, me) && Next(w, Attempt(d, applied, ok)).Some?
    ensures Inv(Next(w, Attempt(d, applied, ok)).value, me)
  {
    var q, own, gone := w.queue, |Own(w.log, me)|, Gone(w);
    var batch := q.inFlight[0];
    var log, m := Appended(w.log, batch[..applied]), if gone + applied < own then own else gone + applied;
    FrontOf(w.handed, gone, q.pending, Added(q.jobs), batch, applied);
    OwnAppended(w.log, w.handed, gone, applied, me);
    AppendedKeeps(w.log, batch[..applied]);
    LogChanged(w, log, m, me);
    if ok {
      DeliveredQueue(q, m, gone);
      QueueChanged(w.(log := log), Delivered(q, 0), gone, me);
    }
  }

  lemma ForeignKeeps<C>(w: World<C>, ops: seq<Op<C>>, me: nat)
    requires Inv(w, me) && forall i :: 0 <= i < |ops| ==> ops[i].id.client != me
    ensures Inv(Next(w, Foreign(ops)).value, me)
  {
    OwnForeign(w.log, ops, me);
    AppendedKeeps(w.log, ops);
  }

  /** The client hands over operations of its own with new ids; others hand over theirs. */
  predicate Allowed<C>(w: World<C>, step: Step<C>, me: nat) {
    match step
    case Append(ops) => Mine(w.handed + ops, me)
    case Foreign(ops) => forall i :: 0 <= i < |ops| ==> ops[i].id.client != me
    case _ => true
  }

  lemma StepKeeps<C>(w: World<C>, step: Step<C>, me: nat)
    requires Inv(w, me) && Allowed(w, step, me) && Next(w, step).Some?
    ensures Inv(Next(w, step).value, me)
  {
    match step
    case Append(ops) => AppendKeeps(w, ops, me);
    case RunJob =>
      if w.queue.jobs != [] {
        if w.queue.jobs[0].Add? { AddRuns(w, me); } else { RemoveRuns(w, me); }
      }
    case Attempt(d, applied, ok) => AttemptKeeps(w, d, applied, ok, me);
    case Close =>
    case GiveUp(_) =>
    case Foreign(ops) => ForeignKeeps(w, ops, me);
  }

  // ----- runs -----

  function Start<C>(): World<C> { World([], Queue([], [], []), [], false) }

  /** The world after the steps; None if one of them is impossible or not allowed. */
  function Run<C>(w: World<C>, steps: seq<Step<C>>, me: nat): Option<World<C>>
    decreases |steps|
  {
    if steps == [] then Some(w)
    else if !Allowed(w, steps[0], me) then None
    else
      var w' :- Next(w, steps[0]);
      Run(w', steps[1..], me)
  }

  lemma {:induction false} RunKeeps<C>(w: World<C>, steps: seq<Step<C>>, me: nat)
    requires Inv(w, me) && Run(w, steps, me).Some?
    ensures Inv(Run(w, steps, me).value, me)
    decreases |steps|
  {
    if steps != [] {
      StepKeeps(w, steps[0], me);
      RunKeeps(Next(w, steps[0]).value, steps[1..], me);
    }
  }

  /** What the client may rely on. */
  ghost predicate DeliversInOrder<C>(w: World<C>, me: nat) {
    var q, own := w.queue, Own(w.log, me);
    && |q.inFlight| <= 1 && own <= w.handed && DistinctIds(own)
    && (q.pending == [] && q.jobs == [] ==> own == w.handed)
    && (!w.closed && q.pending != [] ==> q.inFlight != [] || q.jobs != [])
  }

  lemma InvDelivers<C>(w: World<C>, me: nat)
    requires Inv(w, me)
    ensures DeliversInOrder(w, me)
  {
    var own := Own(w.log, me);
    assert forall i :: 0 <= i < |own| ==> own[i] == w.handed[i];
  }

  /** In every run at most one delivery is running, and the client's operations in the log are a prefix of
      what it handed over: in order, each exactly once, whatever the store reported. Once the queue is
      empty all of them are there, and until Close a nonempty queue is being worked on. */
  lemma DeliveredInOrder<C>(steps: seq<Step<C>>, me: nat, w: World<C>)
    requires Run(Start(), steps, me) == Some(w)
    ensures DeliversInOrder(w, me)
  {
    StartInv<C>(me);
    RunKeeps(Start(), steps, me);
    InvDelivers(w, me);
  }

  lemma StartInv<C>(me: nat)
    ensures Inv<C>(Start(), me)
  {
    var s: World<C> := Start();
    assert Own(s.log, me) == [];
  }

  // ----- the program's form -----

  class Reliable<C> {
    var pending: seq<Op<C>>
    var jobs: seq<Job<C>>
    var inFlight: seq<seq<Op<C>>>

    function AsQueue(): Queue<C>
      reads this
    {
      Queue(pending, jobs, inFlight)
    }

    constructor ()
      ensures AsQueue() == Queue([], [], [])
    {
      pending, jobs, inFlight := [], [], [];
    }

    /** Append returns at once; the work is left to a job. */
    method Append(ops: seq<Op<C>>)
      modifies this
      ensures AsQueue() == WithJob(old(AsQueue()), Add(ops))
    {
      jobs := jobs + [Add(ops)];
    }

    /** Runs the next job; starting a delivery means running it beside the jobs. */
    method RunJob()
      modifies this
      ensures AsQueue() == JobDone(old(AsQueue()))
    {
      if |jobs| == 0 {
        return;
      }
      var job := jobs[0];
      jobs := jobs[1..];
      match job {
        case Add(ops) =>
          var wasPending := |pending| > 0;
          pending := pending + ops;
          if !wasPending && |pending| > 0 {
            inFlight := inFlight + [pending];
          }
        case Remove(count) =>
          pending := if count <= |pending| then pending[count..] else [];
          if |pending| > 0 {
            inFlight := inFlight + [pending];
          }
      }
    }

    /** Delivery d calls a store that applies the first operations and reports `ok`; success ends the
        delivery and sends a job. */
    method Deliver(d: nat, store: MemStore<C>, applied: nat, ok: bool)
      requires d < |inFlight| && applied <= |inFlight[d]| && (ok ==> applied == |inFlight[d]|) && store.Valid()
      modifies this, store
      ensures store.Valid() && store.ops == Appended(old(store.ops), old(inFlight[d])[..applied])
      ensures AsQueue() == if ok then Delivered(old(AsQueue()), d) else old(AsQueue())
    {
      var batch := inFlight[d];
      store.Append(batch[..applied]);
      if ok {
        inFlight := inFlight[..d] + inFlight[d + 1..];
        jobs := jobs + [Remove(|batch|)];
      }
    }
  }
}

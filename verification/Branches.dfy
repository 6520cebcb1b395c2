/** Whole histories of a stream family (streams/stream.go) and branches between two families
    (streams/branch.go). */
module Branches {
  import opened Options
  import opened Algebras
  import opened Streams

  /** Append or ReverseAppend a change to one of the nodes returned so far. */
  datatype Request<C> = Request(node: nat, change: C, reverse: bool)

  /** The nodes returned so far stand for these values. */
  ghost predicate Held<S, C>(sh: Shape<S, C>, held: seq<Node<C>>, values: seq<S>) {
    |held| == |values| && forall i :: 0 <= i < |held| ==>
      held[i] in sh.nodes && held[i] in sh.value && sh.value[held[i]] == values[i]
  }

  lemma HeldAfter<S, C>(sh: Shape<S, C>, after: Shape<S, C>, x: C, held: seq<Node<C>>, values: seq<S>)
    requires Held(sh, held, values) && Grown(sh, after, x)
    ensures Held(after, held, values)
  {
  }

  method PlayOne<S(!new), C(!new)>(alg: Algebra<S, C>, r: Request<C>, v: S, held: seq<Node<C>>, values: seq<S>,
                                   ghost sh: Shape<S, C>)
    returns (held': seq<Node<C>>, values': seq<S>, ghost sh': Shape<S, C>)
    requires Convergent(alg) && Valid(alg, sh) && Held(sh, held, values)
    requires r.node < |held| && alg.apply(values[r.node], r.change) == Some(v)
    modifies sh.last
    ensures Valid(alg, sh') && fresh(sh'.nodes - sh.nodes) && Held(sh', held', values')
    ensures values' == values + [v] && held <= held'
  {
    ghost var x;
    var node;
    node, sh', x := Apply(alg, held[r.node], r.change, r.reverse, sh);
    HeldAfter(sh, sh', x, held, values);
    held', values' := held + [node], values + [v];
  }

  /** Any sequence of appends on any nodes of one family: there is always exactly one terminal node, and
      from every node held the changes along its route lead to the same terminal value. Requests that do
      not apply to the value of their node are skipped. */
  method Play<S(!new), C(!new)>(alg: Algebra<S, C>, filler: C, init: S, requests: seq<Request<C>>)
    returns (held: seq<Node<C>>, values: seq<S>, ghost sh: Shape<S, C>)
    requires Convergent(alg)
    ensures Valid(alg, sh) && Held(sh, held, values) && |held| > 0 && values[0] == init
    ensures forall i {:trigger held[i]} :: 0 <= i < |held| ==> Leads(alg, sh, held[i], values[i])
  {
    var n;
    n, sh := New(alg, filler, init);
    held, values := [n], [init];
    for k := 0 to |requests|
      invariant Valid(alg, sh) && fresh(sh.nodes) && Held(sh, held, values) && |held| > 0 && values[0] == init
    {
      var r := requests[k];
      if r.node < |held| && alg.apply(values[r.node], r.change).Some? {
        held, values, sh := PlayOne(alg, r, alg.apply(values[r.node], r.change).value, held, values, sh);
      }
    }
    AllLead(alg, sh, held, values);
  }

  /** The changes along the route of n lead from v to the terminal value. */
  ghost predicate Leads<S, C>(alg: Algebra<S, C>, sh: Shape<S, C>, n: Node<C>, v: S) {
    n in sh.route && sh.last in sh.value && ApplyAll(alg, v, sh.route[n]) == Some(sh.value[sh.last])
  }

  lemma AllLead<S, C>(alg: Algebra<S, C>, sh: Shape<S, C>, held: seq<Node<C>>, values: seq<S>)
    requires Valid(alg, sh) && Held(sh, held, values)
    ensures forall i {:trigger held[i]} :: 0 <= i < |held| ==> Leads(alg, sh, held[i], values[i])
  {
    forall i {:trigger held[i]} | 0 <= i < |held| ensures Leads(alg, sh, held[i], values[i]) {
      RouteLeads(alg, sh, held[i]);
    }
  }

  /** Two nodes of two families that denote the same value. */
  ghost predicate Linked<S, C>(alg: Algebra<S, C>, one: Node<C>, two: Node<C>, a: Shape<S, C>, b: Shape<S, C>)
    reads a.nodes, b.nodes
  {
    && Valid(alg, a) && Valid(alg, b) && a.nodes !! b.nodes
    && one in a.nodes && two in b.nodes && a.value[one] == b.value[two]
  }

  lemma LinkedBack<S, C>(alg: Algebra<S, C>, one: Node<C>, two: Node<C>, a: Shape<S, C>, b: Shape<S, C>)
    requires Linked(alg, one, two, a, b)
    ensures Linked(alg, two, one, b, a)
  {
  }

  /** What changes become at the end of a route: each is carried along the route that the ones before it
      leave behind. */
  ghost function CarryAll<S, C>(alg: Algebra<S, C>, cs: seq<C>, route: seq<C>, reverse: bool): (r: seq<C>)
    ensures |r| == |cs|
    decreases |cs|
  {
    if cs == [] then []
    else
      var row := Carry(alg, cs[0], route, reverse);
      [row.last] + CarryAll(alg, cs[1..], row.list, reverse)
  }

  /** What carrying the changes after `start` over to `target` leaves behind: the sender's cursor is at
      the end of its family, the receiver has the changes carried at its end and nothing else new, and if
      nothing was appended behind its cursor that cursor is at its end too. */
  ghost predicate Carried<S, C>(alg: Algebra<S, C>, start: Node<C>, target: Node<C>, reverse: bool,
                                from: Node<C>, to: Node<C>,
                                fsh: Shape<S, C>, tsh: Shape<S, C>, after: Shape<S, C>, moved: seq<C>)
  {
    && from == fsh.last && start in fsh.route && target in tsh.route
    && moved == CarryAll(alg, fsh.route[start], tsh.route[target], reverse)
    && tsh.last in tsh.value && after.last in after.value
    && ApplyAll(alg, tsh.value[tsh.last], moved) == Some(after.value[after.last])
    && (target == tsh.last ==> to == after.last)
  }

  /** The cursors denote the same value; `moved` is what the changes carried over so far became at the
      receiving terminal node, and `total` what all of them become. */
  ghost predicate Moving<S, C>(alg: Algebra<S, C>, fsh: Shape<S, C>, tsh: Shape<S, C>, from: Node<C>, to: Node<C>,
                               reverse: bool, base: S, moved: seq<C>, total: seq<C>)
  {
    && from in fsh.nodes && from in fsh.value && from in fsh.route
    && to in tsh.nodes && to in tsh.value && to in tsh.route
    && tsh.value[to] == fsh.value[from]
    && moved + CarryAll(alg, fsh.route[from], tsh.route[to], reverse) == total
    && tsh.last in tsh.value && ApplyAll(alg, base, moved) == Some(tsh.value[tsh.last])
  }

  lemma MovedOn<S, C>(alg: Algebra<S, C>, c: C, cs: seq<C>, route: seq<C>, reverse: bool, row: Row<C>,
                      moved: seq<C>, total: seq<C>)
    requires Carry(alg, c, route, reverse) == row && moved + CarryAll(alg, [c] + cs, route, reverse) == total
    ensures moved + [row.last] + CarryAll(alg, cs, row.list, reverse) == total
  {
    assert ([c] + cs)[1..] == cs;
  }

  /** One step of branchInfo.merge. */
  method TransferOne<S(!new), C(!new)>(alg: Algebra<S, C>, from: Node<C>, to: Node<C>, reverse: bool,
                                       ghost fsh: Shape<S, C>, ghost tsh: Shape<S, C>,
                                       ghost base: S, ghost moved: seq<C>, ghost total: seq<C>)
    returns (from': Node<C>, to': Node<C>, ghost tsh': Shape<S, C>, ghost moved': seq<C>)
    requires Convergent(alg) && Linked(alg, from, to, fsh, tsh)
    requires Moving(alg, fsh, tsh, from, to, reverse, base, moved, total) && from.next != null
    modifies tsh.last
    ensures Linked(alg, from', to', fsh, tsh') && fresh(tsh'.nodes - tsh.nodes) && fresh(tsh'.last)
    ensures Moving(alg, fsh, tsh', from', to', reverse, base, moved', total) && |moved'| == |moved| + 1
    ensures to == tsh.last ==> to' == tsh'.last
  {
    assert Step(alg, from, fsh);
    RouteLeads(alg, tsh, to);
    ghost var x;
    to', tsh', x := Apply(alg, to, from.c, reverse, tsh);
    RouteLeads(alg, tsh', to');
    ApplyAllSnoc(alg, base, moved, x);
    from', moved' := from.next, moved + [x];
    MovedOn(alg, from.c, fsh.route[from'], tsh.route[to], reverse, Row(x, tsh'.route[to']), moved, total);
  }

  /** branchInfo.merge: carries every change after `start` over to `target`, in order. */
  method Transfer<S(!new), C(!new)>(alg: Algebra<S, C>, start: Node<C>, target: Node<C>, reverse: bool,
                                    ghost fsh: Shape<S, C>, ghost tsh: Shape<S, C>)
    returns (from: Node<C>, to: Node<C>, ghost tsh': Shape<S, C>, ghost moved: seq<C>)
    requires Convergent(alg) && Linked(alg, start, target, fsh, tsh)
    modifies tsh.last
    ensures Linked(alg, from, to, fsh, tsh') && fresh(tsh'.nodes - tsh.nodes)
    ensures Carried(alg, start, target, reverse, from, to, fsh, tsh, tsh', moved)
  {
    from, to, tsh', moved := start, target, tsh, [];
    ghost var base, total := tsh.value[tsh.last], CarryAll(alg, fsh.route[start], tsh.route[target], reverse);
    while from.next != null
      invariant Linked(alg, from, to, fsh, tsh') && fresh(tsh'.nodes - tsh.nodes)
      invariant Moving(alg, fsh, tsh', from, to, reverse, base, moved, total)
      invariant target == tsh.last ==> to == tsh'.last
      invariant tsh'.last == tsh.last || fresh(tsh'.last)
      decreases |total| - |moved|
    {
      from, to, tsh', moved := TransferOne(alg, from, to, reverse, fsh, tsh', base, moved, total);
    }
    assert Step(alg, from, fsh);
    assert moved + [] == moved;
  }

  /** A branch: a cursor into the upstream family and one into the downstream family. The shapes u and d
      of the two families are passed along, since no field of the program holds them. */
  class Branch<S(!new), C(!new)> {
    const alg: Algebra<S, C>
    var up: Node<C>
    var down: Node<C>
    var merging: bool

    /** Both cursors denote the same value. */
    ghost predicate Valid(u: Shape<S, C>, d: Shape<S, C>)
      reads this, u.nodes, d.nodes
    {
      Linked(alg, up, down, u, d)
    }

    constructor (alg: Algebra<S, C>, upstream: Node<C>, downstream: Node<C>, ghost u: Shape<S, C>, ghost d: Shape<S, C>)
      requires Linked(alg, upstream, downstream, u, d)
      ensures Valid(u, d) && this.alg == alg && up == upstream && down == downstream && !merging
    {
      this.alg, up, down, merging := alg, upstream, downstream, false;
    }

    /** merge: a call while a merge is going on does nothing. */
    method Merge(start: Node<C>, target: Node<C>, reverse: bool, ghost fsh: Shape<S, C>, ghost tsh: Shape<S, C>)
      returns (from: Node<C>, to: Node<C>, ghost after: Shape<S, C>, ghost moved: seq<C>)
      requires Linked(alg, start, target, fsh, tsh) && Convergent(alg)
      modifies this`merging, tsh.last
      ensures merging == old(merging) && Linked(alg, from, to, fsh, after) && fresh(after.nodes - tsh.nodes)
      ensures if old(merging) then from == start && to == target && after == tsh
              else Carried(alg, start, target, reverse, from, to, fsh, tsh, after, moved)
    {
      if merging {
        return start, target, tsh, [];
      }
      merging := true;
      from, to, after, moved := Transfer(alg, start, target, reverse, fsh, tsh);
      merging := false;
    }

    method MoveTo(upstream: Node<C>, downstream: Node<C>, ghost u: Shape<S, C>, ghost d: Shape<S, C>)
      requires Linked(alg, upstream, downstream, u, d)
      modifies this`up, this`down
      ensures Valid(u, d) && up == upstream && down == downstream
    {
      up, down := upstream, downstream;
    }

    /** Sends the changes made downstream to the upstream family; `moved` is what became of them on top of
        the latest upstream value. */
    method Push(ghost u: Shape<S, C>, ghost d: Shape<S, C>) returns (ghost after: Shape<S, C>, ghost moved: seq<C>)
      requires Valid(u, d) && Convergent(alg)
      modifies this`up, this`down, this`merging, u.last
      ensures Valid(after, d) && merging == old(merging) && fresh(after.nodes - u.nodes)
      ensures if merging then up == old(up) && down == old(down) && after == u
              else Carried(alg, old(down), old(up), false, down, up, d, u, after, moved)
    {
      var from, to;
      from, to, after, moved := Merge(down, up, false, d, u);
      LinkedBack(alg, from, to, d, after);
      MoveTo(to, from, after, d);
    }

    /** Brings the changes made upstream into the downstream family. */
    method Pull(ghost u: Shape<S, C>, ghost d: Shape<S, C>) returns (ghost after: Shape<S, C>, ghost moved: seq<C>)
      requires Valid(u, d) && Convergent(alg)
      modifies this`up, this`down, this`merging, d.last
      ensures Valid(u, after) && merging == old(merging) && fresh(after.nodes - d.nodes)
      ensures if merging then up == old(up) && down == old(down) && after == d
              else Carried(alg, old(up), old(down), true, up, down, u, d, after, moved)
    {
      var from, to;
      from, to, after, moved := Merge(up, down, true, u, d);
      MoveTo(from, to, u, after);
    }
  }

  /** Branch(upstream). */
  method NewBranch<S(!new), C(!new)>(alg: Algebra<S, C>, upstream: Node<C>, filler: C, ghost u: Shape<S, C>)
    returns (b: Branch<S, C>, ghost d: Shape<S, C>)
    requires Streams.Valid(alg, u) && upstream in u.nodes
    ensures fresh(b) && b.Valid(u, d) && b.alg == alg && b.up == upstream && !b.merging
    ensures fresh(d.nodes) && d.nodes == {b.down} && d.value[b.down] == u.value[upstream]
  {
    var n;
    n, d := New(alg, filler, u.value[upstream]);
    b := new Branch(alg, upstream, n, u, d);
  }

  /** Push then Pull with nothing in between makes the latest upstream and downstream values equal; both
      sides keep their changes. */
  method PushPull<S(!new), C(!new)>(b: Branch<S, C>, ghost u: Shape<S, C>, ghost d: Shape<S, C>)
    returns (ghost u': Shape<S, C>, ghost d': Shape<S, C>, ghost pushed: seq<C>, ghost pulled: seq<C>)
    requires b.Valid(u, d) && Convergent(b.alg) && !b.merging
    modifies b, u.last, d.last
    ensures b.Valid(u', d') && b.up == u'.last && b.down == d'.last && u'.value[u'.last] == d'.value[d'.last]
    ensures pushed == CarryAll(b.alg, d.route[old(b.down)], u.route[old(b.up)], false)
    ensures ApplyAll(b.alg, u.value[u.last], pushed) == Some(u'.value[u'.last])
  {
    u', pushed := b.Push(u, d);
    d', pulled := b.Pull(u', d);
  }

  /** So does Pull then Push. */
  method PullPush<S(!new), C(!new)>(b: Branch<S, C>, ghost u: Shape<S, C>, ghost d: Shape<S, C>)
    returns (ghost u': Shape<S, C>, ghost d': Shape<S, C>, ghost pushed: seq<C>, ghost pulled: seq<C>)
    requires b.Valid(u, d) && Convergent(b.alg) && !b.merging
    modifies b, u.last, d.last
    ensures b.Valid(u', d') && b.up == u'.last && b.down == d'.last && u'.value[u'.last] == d'.value[d'.last]
    ensures pulled == CarryAll(b.alg, u.route[old(b.up)], d.route[old(b.down)], true)
    ensures ApplyAll(b.alg, d.value[d.last], pulled) == Some(d'.value[d'.last])
  {
    d', pulled := b.Pull(u, d);
    u', pushed := b.Push(u, d');
  }
}

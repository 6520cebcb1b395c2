/** Streams (streams/stream.go): a family of linked nodes that all lead to one terminal node, and
    branches between two families (streams/branch.go). */
module Streams {
  import opened Options
  import opened Algebras

  class Node<C> {
    var c: C
    var next: Node?<C>

    constructor (c: C)
      ensures this.c == c && next == null
    {
      this.c, next := c, null;
    }
  }

  /** stream.merge: what `right` becomes after `left`, then what `left` becomes after `right`. */
  function MergeStep<S, C>(alg: Algebra<S, C>, left: C, right: C, reverse: bool): (C, C) {
    if reverse then
      var m := alg.merge(right, left);
      (m.1, m.0)
    else alg.merge(left, right)
  }

  /** A change carried along a route. */
  function Carry<S, C>(alg: Algebra<S, C>, c: C, route: seq<C>, reverse: bool): (r: Row<C>)
    ensures |r.list| == |route|
  {
    if reverse then Descend(alg, c, route) else Ascend(alg, c, route)
  }

  lemma CarryStep<S, C>(alg: Algebra<S, C>, c: C, first: C, rest: seq<C>, reverse: bool)
    ensures var m := MergeStep(alg, first, c, reverse); var r := Carry(alg, m.0, rest, reverse);
            Carry(alg, c, [first] + rest, reverse) == Row(r.last, [m.1] + r.list)
  {
    assert ([first] + rest)[1..] == rest;
  }

  /** The roles: Append makes the carried change the argument of the merge, ReverseAppend its receiver. */
  lemma CarryOne<S, C>(alg: Algebra<S, C>, c: C, d: C)
    ensures Carry(alg, c, [d], false) == Row(alg.merge(d, c).0, [alg.merge(d, c).1])
    ensures Carry(alg, c, [d], true) == Row(alg.merge(c, d).1, [alg.merge(c, d).0])
  {
    AscendOne(alg, c, d);
    DescendOne(alg, c, d);
  }

  /** A longer route is walked piece by piece, in order; on an empty one nothing changes. */
  lemma CarryConcat<S, C>(alg: Algebra<S, C>, c: C, before: seq<C>, after: seq<C>, reverse: bool)
    ensures Carry(alg, c, [], reverse) == Row(c, [])
    ensures var r := Carry(alg, c, before, reverse); var rest := Carry(alg, r.last, after, reverse);
            Carry(alg, c, before + after, reverse) == Row(rest.last, r.list + rest.list)
  {
    DescendConcat(alg, c, before, after);
    AscendConcat(alg, c, before, after);
  }

  /** A change that passes everything on the route arrives as it is and leaves the route as it was. */
  lemma {:induction false} CarryPasses<S, C>(alg: Algebra<S, C>, c: C, route: seq<C>, reverse: bool)
    requires forall i :: 0 <= i < |route| ==> Passes(alg, c, route[i])
    ensures Carry(alg, c, route, reverse) == Row(c, route)
    decreases |route|
  {
    if route != [] {
      assert Passes(alg, c, route[0]);
      CarryPasses(alg, c, route[1..], reverse);
      assert route == [route[0]] + route[1..];
      CarryStep(alg, c, route[0], route[1..], reverse);
    }
  }

  lemma StepCloses<S(!new), C(!new)>(alg: Algebra<S, C>, s: S, left: C, right: C, reverse: bool)
    requires Convergent(alg) && alg.apply(s, left).Some? && alg.apply(s, right).Some?
    ensures var m := MergeStep(alg, left, right, reverse);
            && alg.apply(alg.apply(s, left).value, m.0).Some?
            && alg.apply(alg.apply(s, left).value, m.0) == alg.apply(alg.apply(s, right).value, m.1)
  {
    UseConvergent(alg, s, left, right);
    UseConvergent(alg, s, right, left);
  }

  /** What the nodes of one stream family stand for; none of this is stored in the program: the terminal
      node, the value of every node, and its route, the changes from the node to the terminal node. */
  datatype Shape<S, C> = Shape(nodes: set<Node<C>>, last: Node<C>, value: map<Node<C>, S>, route: map<Node<C>, seq<C>>)

  /** Node n is the end of the chain, or its change leads to the next node. */
  ghost predicate Step<S, C>(alg: Algebra<S, C>, n: Node<C>, sh: Shape<S, C>)
    requires n in sh.value && n in sh.route
    reads n
  {
    if n == sh.last then n.next == null
    else
      && n.next != null && n.next in sh.value && n.next in sh.route
      && sh.route[n] == [n.c] + sh.route[n.next]
      && alg.apply(sh.value[n], n.c) == Some(sh.value[n.next])
  }

  /** One last node; every other node leads on, along its route. */
  ghost predicate Chained<S, C>(alg: Algebra<S, C>, sh: Shape<S, C>)
    reads sh.nodes
  {
    && sh.last in sh.nodes && sh.nodes == sh.value.Keys && sh.nodes == sh.route.Keys
    && forall n {:trigger Step(alg, n, sh)} :: n in sh.nodes ==> Step(alg, n, sh)
  }

  /** A stream family: exactly one terminal node, and every node reaches it along its route. */
  ghost predicate Valid<S, C>(alg: Algebra<S, C>, sh: Shape<S, C>)
    reads sh.nodes
  {
    Chained(alg, sh) && sh.route[sh.last] == []
  }

  ghost function Extended<S, C>(sh: Shape<S, C>, n: Node<C>, v: S, r: seq<C>): Shape<S, C> {
    Shape(sh.nodes + {n}, n, sh.value[n := v], sh.route[n := r])
  }

  /** Adds one node to the end of a chain. */
  method Extend<S, C>(alg: Algebra<S, C>, end: Node<C>, c: C, filler: C, ghost sh: Shape<S, C>, ghost v: S,
                      ghost r: seq<C>)
    returns (added: Node<C>)
    requires Chained(alg, sh) && end == sh.last
    requires alg.apply(sh.value[end], c) == Some(v) && sh.route[end] == [c] + r
    modifies end
    ensures fresh(added) && Chained(alg, Extended(sh, added, v, r))
  {
    assert Step(alg, end, sh);
    added := new Node(filler);
    end.c, end.next := c, added;
    ghost var longer := Extended(sh, added, v, r);
    forall n | n in longer.nodes ensures n in longer.value && n in longer.route && Step(alg, n, longer) {
      assert n in sh.nodes && n != end ==> old(Step(alg, n, sh));
    }
  }

  ghost function Lengthened<C>(route: map<Node<C>, seq<C>>, c: C): map<Node<C>, seq<C>> {
    map n | n in route :: route[n] + [c]
  }

  /** Two chains, the first hung onto the second by the change c. */
  ghost function Joined<S, C>(a: Shape<S, C>, b: Shape<S, C>, c: C): Shape<S, C> {
    Shape(a.nodes + b.nodes, b.last, a.value + b.value, Lengthened(a.route, c) + b.route)
  }

  method Join<S, C>(alg: Algebra<S, C>, end: Node<C>, next: Node<C>, c: C, ghost a: Shape<S, C>, ghost b: Shape<S, C>)
    requires Valid(alg, a) && Valid(alg, b) && a.nodes !! b.nodes && end == a.last && next == b.last
    requires alg.apply(a.value[end], c) == Some(b.value[next])
    modifies end
    ensures Valid(alg, Joined(a, b, c))
  {
    end.c, end.next := c, next;
    ghost var sh := Joined(a, b, c);
    forall n | n in sh.nodes ensures n in sh.value && n in sh.route && Step(alg, n, sh) {
      if n in a.nodes {
        assert n != end ==> Step(alg, n, a);
      } else {
        assert Step(alg, n, b);
      }
    }
  }

  method New<S, C>(alg: Algebra<S, C>, filler: C, ghost init: S) returns (n: Node<C>, ghost sh: Shape<S, C>)
    ensures Valid(alg, sh) && fresh(sh.nodes) && n == sh.last && sh.nodes == {n} && sh.value == map[n := init]
  {
    n := new Node(filler);
    sh := Shape({n}, n, map[n := init], map[n := []]);
  }

  /** The state of the walk: `woven` is the new route so far, x what c has become next to node cur. */
  ghost predicate Weaving<S, C>(alg: Algebra<S, C>, cur: Node<C>, x: C, last: C, reverse: bool, sh: Shape<S, C>,
                                woven: Shape<S, C>)
    reads sh.nodes, woven.nodes
  {
    && Valid(alg, sh) && Chained(alg, woven) && cur in sh.nodes && sh.nodes !! woven.nodes
    && alg.apply(sh.value[cur], x) == Some(woven.value[woven.last])
    && Carry(alg, x, sh.route[cur], reverse) == Row(last, woven.route[woven.last])
  }

  method WeaveStep<S(!new), C(!new)>(alg: Algebra<S, C>, cur: Node<C>, next: Node<C>, x: C, filler: C, reverse: bool,
                                     ghost last: C, ghost sh: Shape<S, C>, ghost woven: Shape<S, C>)
    returns (added: Node<C>, y: C, ghost longer: Shape<S, C>)
    requires Convergent(alg) && Weaving(alg, cur, x, last, reverse, sh, woven) && next == woven.last && cur.next != null
    modifies next
    ensures fresh(added) && cur in sh.nodes && cur.next == old(cur.next)
    ensures cur.next != null && cur.next in sh.route && cur in sh.route
    ensures |sh.route[cur.next]| < |sh.route[cur]|
    ensures Weaving(alg, cur.next, y, last, reverse, sh, longer) && longer.last == added
    ensures exists v, r :: longer == Extended(woven, added, v, r)
  {
    assert Step(alg, cur, sh);
    CarryStep(alg, x, cur.c, sh.route[cur.next], reverse);
    StepCloses(alg, sh.value[cur], cur.c, x, reverse);
    var m := MergeStep(alg, cur.c, x, reverse);
    y := m.0;
    ghost var v, r := alg.apply(sh.value[cur.next], y).value, Carry(alg, y, sh.route[cur.next], reverse).list;
    added := Extend(alg, next, m.1, filler, woven, v, r);
    longer := Extended(woven, added, v, r);
  }

  /** Builds the route for c next to the route of s, up to the terminal node. */
  method Weave<S(!new), C(!new)>(alg: Algebra<S, C>, s: Node<C>, c: C, reverse: bool, ghost sh: Shape<S, C>)
    returns (result: Node<C>, cur: Node<C>, next: Node<C>, x: C, ghost woven: Shape<S, C>)
    requires Valid(alg, sh) && Convergent(alg) && s in sh.nodes && alg.apply(sh.value[s], c).Some?
    ensures fresh(woven.nodes) && Valid(alg, woven) && cur == sh.last && next == woven.last && result in woven.nodes
    ensures woven.value[result] == alg.apply(sh.value[s], c).value
    ensures Carry(alg, c, sh.route[s], reverse) == Row(x, woven.route[result])
    ensures alg.apply(sh.value[cur], x) == Some(woven.value[next])
  {
    ghost var row := Carry(alg, c, sh.route[s], reverse);
    result := new Node(c);
    x, cur, next := c, s, result;
    woven := Shape({result}, result, map[result := alg.apply(sh.value[s], c).value], map[result := row.list]);
    while cur.next != null
      invariant Weaving(alg, cur, x, row.last, reverse, sh, woven) && next == woven.last
      invariant fresh(woven.nodes) && result in woven.nodes
      invariant woven.value[result] == alg.apply(sh.value[s], c).value && woven.route[result] == row.list
      decreases |sh.route[cur]|
    {
      ghost var longer;
      var added, y;
      added, y, longer := WeaveStep(alg, cur, next, x, c, reverse, row.last, sh, woven);
      x, cur, next, woven := y, cur.next, added, longer;
    }
    assert Step(alg, cur, sh);
  }

  /** The family grew by one change x at its end: earlier nodes keep their values, and every route gets
      one change longer. */
  ghost predicate Grown<S, C>(sh: Shape<S, C>, after: Shape<S, C>, x: C) {
    && sh.nodes <= after.nodes
    && forall n {:trigger n in sh.nodes} :: n in sh.nodes ==>
         && n in sh.value && n in after.value && after.value[n] == sh.value[n]
         && n in sh.route && n in after.route && after.route[n] == sh.route[n] + [x]
  }

  lemma JoinedGrown<S, C>(a: Shape<S, C>, b: Shape<S, C>, x: C)
    requires a.nodes == a.value.Keys && a.nodes == a.route.Keys && a.nodes !! b.nodes
    requires b.nodes == b.value.Keys && b.nodes == b.route.Keys
    ensures Grown(a, Joined(a, b, x), x)
    ensures forall n {:trigger n in b.nodes} :: n in b.nodes ==>
              Joined(a, b, x).value[n] == b.value[n] && Joined(a, b, x).route[n] == b.route[n]
  {
  }

  /** Append and ReverseAppend: walks from s to the terminal node, merging c with every change on the way,
      and links the parallel route from the returned node to a new terminal node. Of the existing nodes
      only the terminal one is written, so a link once set never changes. */
  method Apply<S(!new), C(!new)>(alg: Algebra<S, C>, s: Node<C>, c: C, reverse: bool, ghost sh: Shape<S, C>)
    returns (result: Node<C>, ghost after: Shape<S, C>, ghost x: C)
    requires Valid(alg, sh) && Convergent(alg) && s in sh.nodes && alg.apply(sh.value[s], c).Some?
    modifies sh.last
    ensures Valid(alg, after) && Grown(sh, after, x) && fresh(after.nodes - sh.nodes) && fresh(after.last)
    ensures result in after.nodes && after.value[result] == alg.apply(sh.value[s], c).value
    ensures Carry(alg, c, sh.route[s], reverse) == Row(x, after.route[result])
    ensures alg.apply(sh.value[sh.last], x) == Some(after.value[after.last])
  {
    ghost var woven;
    var cur, next, y;
    result, cur, next, y, woven := Weave(alg, s, c, reverse, sh);
    x := y;
    JoinedGrown(sh, woven, y);
    Join(alg, cur, next, y, sh, woven);
    after := Joined(sh, woven, y);
  }

  /** The changes along a node's route lead from its value to the terminal value. */
  lemma {:induction false} RouteLeads<S, C>(alg: Algebra<S, C>, sh: Shape<S, C>, n: Node<C>)
    requires Valid(alg, sh) && n in sh.nodes
    ensures ApplyAll(alg, sh.value[n], sh.route[n]) == Some(sh.value[sh.last])
    ensures sh.route[n] == [] <==> n == sh.last
    decreases |sh.route[n]|
  {
    assert Step(alg, n, sh);
    if n != sh.last {
      RouteLeads(alg, sh, n.next);
      assert sh.route[n][1..] == sh.route[n.next];
    }
  }

  /** Latest: the terminal node and the joined changes on the way to it. */
  method Latest<S, C>(alg: Algebra<S, C>, s: Node<C>, ghost sh: Shape<S, C>) returns (end: Node<C>, c: C)
    requires Valid(alg, sh) && s in sh.nodes
    ensures end == sh.last && c == alg.join(sh.route[s])
  {
    var cs := [];
    end := s;
    while end.next != null
      invariant end in sh.nodes && cs + sh.route[end] == sh.route[s]
      decreases |sh.route[end]|
    {
      assert Step(alg, end, sh);
      assert cs + ([end.c] + sh.route[end.next]) == cs + [end.c] + sh.route[end.next];
      cs := cs + [end.c];
      end := end.next;
    }
    assert Step(alg, end, sh);
    assert cs + [] == cs;
    c := alg.join(cs);
  }
}

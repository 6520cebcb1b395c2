/** What streams, operations and sessions need to know about changes: how to apply, merge, revert and
    join them, and the laws these obey. Everything above the change types is proved for any such algebra;
    module Instances supplies the real one. */
module Algebras {
  import opened Options

  datatype Algebra<!S, !C> = Algebra(
    apply: (S, C) -> Option<S>,  // None: the change does not belong on this state
    merge: (C, C) -> (C, C),     // c1.Merge(c2): c2 after c1, then c1 after c2
    revert: C -> C,
    join: seq<C> -> C,           // ChangeSet(cs).Simplify()
    isNil: C -> bool,
    stuck: S -> bool)            // the state after a merge that never returned; false for all real states

  function ApplyAll<S, C>(alg: Algebra<S, C>, s: S, cs: seq<C>): Option<S>
    decreases |cs|
  {
    if cs == [] then Some(s)
    else
      var t :- alg.apply(s, cs[0]);
      ApplyAll(alg, t, cs[1..])
  }

  /** a then bx, and b then ax, apply and reach the same state. */
  predicate Closes<S(==), C>(alg: Algebra<S, C>, s: S, a: C, b: C, bx: C, ax: C) {
    var sa, sb := alg.apply(s, a), alg.apply(s, b);
    sa.Some? && sb.Some? && alg.apply(sa.value, bx).Some? && alg.apply(sa.value, bx) == alg.apply(sb.value, ax)
  }

  /** Merging two changes of the same state closes the square. */
  ghost predicate Convergent<S(!new), C(!new)>(alg: Algebra<S, C>) {
    forall s, a, b {:trigger alg.apply(s, a), alg.merge(a, b)} ::
      alg.apply(s, a).Some? && alg.apply(s, b).Some? ==>
        Closes(alg, s, a, b, alg.merge(a, b).0, alg.merge(a, b).1)
  }

  /** Reverting a change undoes it. Stuck states stay stuck. */
  ghost predicate Reverting<S(!new), C(!new)>(alg: Algebra<S, C>) {
    forall s, c {:trigger alg.apply(s, c)} :: alg.apply(s, c).Some? ==>
      var t := alg.apply(s, c).value;
      (alg.stuck(s) ==> alg.stuck(t)) && (!alg.stuck(t) ==> alg.apply(t, alg.revert(c)) == Some(s))
  }

  /** nil does nothing. */
  ghost predicate NilIdle<S(!new), C(!new)>(alg: Algebra<S, C>) {
    forall s, c {:trigger alg.apply(s, c)} :: alg.isNil(c) ==> alg.apply(s, c) == Some(s)
  }

  /** A joined change does what its parts do. */
  ghost predicate Joining<S(!new), C(!new)>(alg: Algebra<S, C>) {
    && NilIdle(alg)
    && forall s, cs {:trigger ApplyAll(alg, s, cs)} ::
         ApplyAll(alg, s, cs).Some? ==> alg.apply(s, alg.join(cs)) == ApplyAll(alg, s, cs)
  }

  lemma UseConvergent<S(!new), C(!new)>(alg: Algebra<S, C>, s: S, a: C, b: C)
    requires Convergent(alg) && alg.apply(s, a).Some? && alg.apply(s, b).Some?
    ensures Closes(alg, s, a, b, alg.merge(a, b).0, alg.merge(a, b).1)
  {
  }

  lemma {:induction false} ApplyAllConcat<S, C>(alg: Algebra<S, C>, s: S, cs: seq<C>, ds: seq<C>)
    ensures ApplyAll(alg, s, cs + ds)
         == (var t := ApplyAll(alg, s, cs); if t.Some? then ApplyAll(alg, t.value, ds) else None)
    decreases |cs|
  {
    if cs == [] {
      assert cs + ds == ds;
    } else {
      assert (cs + ds)[1..] == cs[1..] + ds;
      var t := alg.apply(s, cs[0]);
      if t.Some? {
        ApplyAllConcat(alg, t.value, cs[1..], ds);
      }
    }
  }

  lemma ApplyAllOne<S, C>(alg: Algebra<S, C>, s: S, c: C)
    ensures ApplyAll(alg, s, [c]) == alg.apply(s, c)
  {
    var t := alg.apply(s, c);
    if t.Some? {
      assert ApplyAll(alg, t.value, []) == t;
    }
  }

  lemma ApplyAllSnoc<S, C>(alg: Algebra<S, C>, s: S, cs: seq<C>, c: C)
    requires ApplyAll(alg, s, cs).Some?
    ensures ApplyAll(alg, s, cs + [c]) == alg.apply(ApplyAll(alg, s, cs).value, c)
  {
    ApplyAllConcat(alg, s, cs, [c]);
    ApplyAllOne(alg, ApplyAll(alg, s, cs).value, c);
  }

  // ----- rows of merges -----

  /** One change carried through a list of later ones: what it becomes, and what they become. */
  datatype Row<C> = Row(last: C, list: seq<C>)

  /** `top` is the receiver of every merge (session.pull, streams.stream.apply with reverse). */
  function Descend<S, C>(alg: Algebra<S, C>, top: C, cs: seq<C>): (r: Row<C>)
    ensures |r.list| == |cs|
    decreases |cs|
  {
    if cs == [] then Row(top, [])
    else
      var m := alg.merge(top, cs[0]);
      var rest := Descend(alg, m.1, cs[1..]);
      Row(rest.last, [m.0] + rest.list)
  }

  /** `top` is the argument of every merge (transformer.xform, streams.stream.apply). */
  function Ascend<S, C>(alg: Algebra<S, C>, top: C, cs: seq<C>): (r: Row<C>)
    ensures |r.list| == |cs|
    decreases |cs|
  {
    if cs == [] then Row(top, [])
    else
      var m := alg.merge(cs[0], top);
      var rest := Ascend(alg, m.0, cs[1..]);
      Row(rest.last, [m.1] + rest.list)
  }

  /** The row closes: cs then r.last equals top then r.list. */
  predicate RowCloses<S(==), C>(alg: Algebra<S, C>, s: S, top: C, cs: seq<C>, r: Row<C>) {
    var down, across := ApplyAll(alg, s, cs), alg.apply(s, top);
    && down.Some? && across.Some? && alg.apply(down.value, r.last).Some?
    && alg.apply(down.value, r.last) == ApplyAll(alg, across.value, r.list)
  }

  lemma RowStep<S(!new), C(!new)>(alg: Algebra<S, C>, s: S, top: C, cs: seq<C>, topx: C, cx: C, rest: Row<C>)
    requires cs != [] && Closes(alg, s, top, cs[0], cx, topx)
    requires RowCloses(alg, alg.apply(s, cs[0]).value, topx, cs[1..], rest)
    ensures RowCloses(alg, s, top, cs, Row(rest.last, [cx] + rest.list))
  {
    assert ([cx] + rest.list)[1..] == rest.list;
  }

  lemma {:induction false} DescendCloses<S(!new), C(!new)>(alg: Algebra<S, C>, s: S, top: C, cs: seq<C>)
    requires Convergent(alg) && alg.apply(s, top).Some? && ApplyAll(alg, s, cs).Some?
    ensures RowCloses(alg, s, top, cs, Descend(alg, top, cs))
    decreases |cs|
  {
    if cs != [] {
      var m, t := alg.merge(top, cs[0]), alg.apply(s, cs[0]).value;
      UseConvergent(alg, s, top, cs[0]);
      DescendCloses(alg, t, m.1, cs[1..]);
      RowStep(alg, s, top, cs, m.1, m.0, Descend(alg, m.1, cs[1..]));
    }
  }

  lemma {:induction false} AscendCloses<S(!new), C(!new)>(alg: Algebra<S, C>, s: S, top: C, cs: seq<C>)
    requires Convergent(alg) && alg.apply(s, top).Some? && ApplyAll(alg, s, cs).Some?
    ensures RowCloses(alg, s, top, cs, Ascend(alg, top, cs))
    decreases |cs|
  {
    if cs != [] {
      var m, t := alg.merge(cs[0], top), alg.apply(s, cs[0]).value;
      UseConvergent(alg, s, cs[0], top);
      AscendCloses(alg, t, m.0, cs[1..]);
      RowStep(alg, s, top, cs, m.0, m.1, Ascend(alg, m.0, cs[1..]));
    }
  }

  /** One more change at the end of the row is one more merge. */
  lemma {:induction false} DescendSnoc<S, C>(alg: Algebra<S, C>, top: C, cs: seq<C>, c: C)
    ensures var r := Descend(alg, top, cs); var m := alg.merge(r.last, c);
            Descend(alg, top, cs + [c]) == Row(m.1, r.list + [m.0])
    decreases |cs|
  {
    if cs == [] {
      assert [] + [c] == [c];
      assert Descend(alg, alg.merge(top, c).1, []) == Row(alg.merge(top, c).1, []);
    } else {
      assert (cs + [c])[1..] == cs[1..] + [c];
      DescendSnoc(alg, alg.merge(top, cs[0]).1, cs[1..], c);
    }
  }

  // ----- what a row is -----

  /** Past one change: `top` is the receiver of the merge. */
  lemma DescendOne<S, C>(alg: Algebra<S, C>, top: C, c: C)
    ensures Descend(alg, top, [c]) == Row(alg.merge(top, c).1, [alg.merge(top, c).0])
  {
    assert Descend(alg, alg.merge(top, c).1, []) == Row(alg.merge(top, c).1, []);
  }

  /** Past one change: `top` is the argument of the merge. */
  lemma AscendOne<S, C>(alg: Algebra<S, C>, top: C, c: C)
    ensures Ascend(alg, top, [c]) == Row(alg.merge(c, top).0, [alg.merge(c, top).1])
  {
    assert Ascend(alg, alg.merge(c, top).0, []) == Row(alg.merge(c, top).0, []);
  }

  /** A row past two lists is one row after the other. */
  lemma {:induction false} DescendConcat<S, C>(alg: Algebra<S, C>, top: C, cs: seq<C>, ds: seq<C>)
    ensures var r := Descend(alg, top, cs); var rest := Descend(alg, r.last, ds);
            Descend(alg, top, cs + ds) == Row(rest.last, r.list + rest.list)
    decreases |cs|
  {
    if cs == [] {
      assert cs + ds == ds;
    } else {
      assert (cs + ds)[1..] == cs[1..] + ds;
      DescendConcat(alg, alg.merge(top, cs[0]).1, cs[1..], ds);
    }
  }

  lemma {:induction false} AscendConcat<S, C>(alg: Algebra<S, C>, top: C, cs: seq<C>, ds: seq<C>)
    ensures var r := Ascend(alg, top, cs); var rest := Ascend(alg, r.last, ds);
            Ascend(alg, top, cs + ds) == Row(rest.last, r.list + rest.list)
    decreases |cs|
  {
    if cs == [] {
      assert cs + ds == ds;
    } else {
      assert (cs + ds)[1..] == cs[1..] + ds;
      AscendConcat(alg, alg.merge(cs[0], top).0, cs[1..], ds);
    }
  }

  /** Neither change has to be adjusted for the other. */
  predicate Passes<S, C(==)>(alg: Algebra<S, C>, a: C, b: C) { alg.merge(a, b) == (b, a) && alg.merge(b, a) == (a, b) }
}

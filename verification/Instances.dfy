/** The changes of this library as algebras: whatever holds for every convergent algebra holds for them. */
module Instances {
  import opened Options
  import opened Changes
  import opened Algebras
  import opened Reverting
  import opened MergeTermination
  import opened Flattening
  import opened Firmness
  import M = Merging
  import Convergence
  import P = Protocol

  // ----- changes that merges never split: merging always returns -----

  /** A kind of which both sides may be: splices and replaces, or moves of single elements and replaces. */
  predicate Mutual(k: Kind) { k.Text? || k.Reorder? }

  /** Changes of this kind; every other one is refused. */
  function ApplyKind(k: Kind, v: Value, c: Change): Option<Value> { if k.Holds(true, c) then Apply(v, c) else None }

  ghost function MergePlain(a: Change, b: Change): (Change, Change) {
    var m := Returned(a, b);
    if m.Done? then (m.otherx, m.cx) else (Noop, Noop)
  }

  /** Documents edited by changes of one kind, under any paths and in any sets. */
  ghost function Plain(k: Kind): Algebra<Value, Change> {
    Algebra((v, c) => ApplyKind(k, v, c), MergePlain, Revert, M.SimplifySet, (c: Change) => c.Noop?, v => false)
  }

  lemma {:induction false} BothWays(k: Kind, ls: seq<Leaf>)
    requires Mutual(k)
    ensures k.AllHave(true, ls) <==> k.AllHave(false, ls)
    decreases |ls|
  {
    if ls != [] {
      BothWays(k, ls[1..]);
    }
  }

  lemma {:induction false} RevertKind(k: Kind, c: Change)
    requires Mutual(k) && k.Holds(true, c)
    ensures k.Holds(true, Revert(c))
    decreases c, 0
  {
    match c
    case PathChange(path, inner) =>
      AllHaveDeeper(k, true, path, Leaves(inner));
      RevertKind(k, inner);
      AllHaveDeeper(k, true, path, Leaves(Revert(inner)));
    case ChangeSet(changes) =>
      RevertEachKind(k, changes);
      SimplifySetKeepsLeaves(RevertEach(changes));
    case _ => OneLeaf(k, true, Revert(c));
  }

  lemma {:induction false} RevertEachKind(k: Kind, cs: seq<Change>)
    requires Mutual(k) && k.AllHave(true, LeavesOf(cs))
    ensures k.AllHave(true, LeavesOf(RevertEach(cs)))
    decreases cs, 0
  {
    if cs != [] {
      AllHaveConcat(k, true, Leaves(cs[0]), LeavesOf(cs[1..]));
      RevertKind(k, cs[0]);
      RevertEachKind(k, cs[1..]);
      var last := if cs[0].Noop? then [] else [Revert(cs[0])];
      LeavesOfOne(Revert(cs[0]));
      LeavesOfConcat(RevertEach(cs[1..]), last);
      AllHaveConcat(k, true, LeavesOf(RevertEach(cs[1..])), LeavesOf(last));
    }
  }

  lemma {:induction false} ApplyAllKind(k: Kind, v: Value, cs: seq<Change>)
    requires Algebras.ApplyAll(Plain(k), v, cs).Some?
    ensures Algebras.ApplyAll(Plain(k), v, cs) == Changes.ApplyAll(v, cs) && k.AllHave(true, LeavesOf(cs))
    decreases |cs|
  {
    if cs != [] {
      ApplyAllKind(k, Apply(v, cs[0]).value, cs[1..]);
      AllHaveConcat(k, true, Leaves(cs[0]), LeavesOf(cs[1..]));
    }
  }

  lemma PlainPair(k: Kind, v: Value, a: Change, b: Change)
    requires Mutual(k) && ApplyKind(k, v, a).Some? && ApplyKind(k, v, b).Some?
    ensures Closes(Plain(k), v, a, b, MergePlain(a, b).0, MergePlain(a, b).1)
  {
    BothWays(k, Leaves(b));
    var fuel := MergeEnds(v, k, true, a, b);
    ReturnedAt(a, b, fuel);
    ReturnedConverges(v, a, b);
    BothWays(k, Leaves(MergePlain(a, b).0));
  }

  lemma PlainJoins(k: Kind, v: Value, cs: seq<Change>)
    requires Algebras.ApplyAll(Plain(k), v, cs).Some?
    ensures ApplyKind(k, v, M.SimplifySet(cs)) == Algebras.ApplyAll(Plain(k), v, cs)
  {
    ApplyAllKind(k, v, cs);
    SimplifySetKeepsLeaves(cs);
    Convergence.SimplifySetPreserves(v, cs);
  }

  /** With changes of such a kind the library is a convergent algebra with working reverts and joins, so
      everything proved for algebras holds for it with no condition on termination. */
  lemma PlainIsAlgebra(k: Kind)
    requires Mutual(k)
    ensures Convergent(Plain(k)) && Algebras.Reverting(Plain(k)) && Joining(Plain(k))
  {
    var alg := Plain(k);
    forall v, a, b | alg.apply(v, a).Some? && alg.apply(v, b).Some?
      ensures Closes(alg, v, a, b, alg.merge(a, b).0, alg.merge(a, b).1)
    {
      PlainPair(k, v, a, b);
    }
    forall v, c | alg.apply(v, c).Some? ensures alg.apply(alg.apply(v, c).value, alg.revert(c)) == Some(v) {
      RevertKind(k, c);
      RevertUndoes(v, c);
    }
    forall v, cs | Algebras.ApplyAll(alg, v, cs).Some?
      ensures alg.apply(v, alg.join(cs)) == Algebras.ApplyAll(alg, v, cs)
    {
      PlainJoins(k, v, cs);
    }
  }

  // ----- all changes: a merge that never returns leaves its document hung -----

  datatype Document = Live(value: Value) | Hung

  datatype Edit = Real(change: Change) | Hang

  ghost function EditApply(d: Document, e: Edit): Option<Document> {
    if d.Hung? || e.Hang? then Some(Hung)
    else
      var v :- Apply(d.value, e.change);
      Some(Live(v))
  }

  ghost function EditMerge(a: Edit, b: Edit): (Edit, Edit) {
    if a.Hang? || b.Hang? then (b, a)
    else
      var m := Returned(a.change, b.change);
      if m.Done? then (Real(m.otherx), Real(m.cx)) else (Hang, Hang)
  }

  function EditRevert(e: Edit): Edit { if e.Hang? then Hang else Real(Revert(e.change)) }

  predicate AllReal(es: seq<Edit>) { forall i :: 0 <= i < |es| ==> es[i].Real? }

  function ChangesIn(es: seq<Edit>): seq<Change>
    requires AllReal(es)
  {
    if es == [] then [] else [es[0].change] + ChangesIn(es[1..])
  }

  function EditJoin(es: seq<Edit>): Edit { if AllReal(es) then Real(M.SimplifySet(ChangesIn(es))) else Hang }

  /** Documents edited by any changes. */
  ghost function Documents(): Algebra<Document, Edit> {
    Algebra(EditApply, EditMerge, EditRevert, EditJoin, (e: Edit) => e == Real(Noop), (d: Document) => d.Hung?)
  }

  lemma {:induction false} ChangesInApply(v: Value, es: seq<Edit>)
    requires AllReal(es) && Algebras.ApplyAll(Documents(), Live(v), es).Some?
    ensures var d := Algebras.ApplyAll(Documents(), Live(v), es).value;
            d.Live? && Changes.ApplyAll(v, ChangesIn(es)) == Some(d.value)
    decreases |es|
  {
    if es != [] {
      ChangesInApply(Apply(v, es[0].change).value, es[1..]);
      assert ChangesIn(es)[1..] == ChangesIn(es[1..]);
    }
  }

  lemma {:induction false} HungStays(es: seq<Edit>)
    ensures Algebras.ApplyAll(Documents(), Hung, es) == Some(Hung)
    decreases |es|
  {
    if es != [] {
      HungStays(es[1..]);
    }
  }

  lemma {:induction false} HangHangs(d: Document, es: seq<Edit>)
    requires !AllReal(es) && Algebras.ApplyAll(Documents(), d, es).Some?
    ensures Algebras.ApplyAll(Documents(), d, es) == Some(Hung)
    decreases |es|
  {
    var t := EditApply(d, es[0]).value;
    if es[0].Hang? {
      HungStays(es[1..]);
    } else {
      HangHangs(t, es[1..]);
    }
  }

  lemma EditPair(d: Document, a: Edit, b: Edit)
    requires EditApply(d, a).Some? && EditApply(d, b).Some?
    ensures Closes(Documents(), d, a, b, EditMerge(a, b).0, EditMerge(a, b).1)
  {
    if d.Live? && a.Real? && b.Real? {
      ReturnedConverges(d.value, a.change, b.change);
    }
  }

  lemma EditJoins(d: Document, es: seq<Edit>)
    requires Algebras.ApplyAll(Documents(), d, es).Some?
    ensures EditApply(d, EditJoin(es)) == Algebras.ApplyAll(Documents(), d, es)
  {
    if d.Hung? {
      HungStays(es);
    } else if AllReal(es) {
      ChangesInApply(d.value, es);
      Convergence.SimplifySetPreserves(d.value, ChangesIn(es));
    } else {
      HangHangs(d, es);
    }
  }

  /** All changes together, with moves, are such an algebra too: as long as every merge returns, documents
      stay live. */
  lemma DocumentsIsAlgebra()
    ensures Convergent(Documents()) && Algebras.Reverting(Documents()) && Joining(Documents())
  {
    var alg := Documents();
    forall d, a, b | alg.apply(d, a).Some? && alg.apply(d, b).Some?
      ensures Closes(alg, d, a, b, alg.merge(a, b).0, alg.merge(a, b).1)
    {
      EditPair(d, a, b);
    }
    forall d: Document, e: Edit | d.Live? && e.Real? && alg.apply(d, e).Some?
      ensures alg.apply(alg.apply(d, e).value, alg.revert(e)) == Some(d)
    {
      RevertUndoes(d.value, e.change);
    }
    forall d, es | Algebras.ApplyAll(alg, d, es).Some?
      ensures alg.apply(d, alg.join(es)) == Algebras.ApplyAll(alg, d, es)
    {
      EditJoins(d, es);
    }
  }

  // ----- the library converges -----

  /** In every run of any number of clients over any value, with splices and replaces, or with moves of
      single elements and replaces: two clients that made everything known and pulled everything hold the
      same value. */
  lemma PlainClientsConverge(k: Kind, init: Value, n: nat, steps: seq<P.Step<Change>>, w: P.World<Value, Change>,
                             c: nat, d: nat)
    requires Mutual(k) && P.Run(Plain(k), P.Start(init, n), steps) == Some(w) && c < |w.clients| && d < |w.clients|
    requires P.UpToDate(w.log, w.clients[c]) && P.UpToDate(w.log, w.clients[d])
    ensures w.clients[c].node == w.clients[d].node
  {
    PlainIsAlgebra(k);
    P.UpToDateAgree(Plain(k), init, n, steps, w, c);
    P.UpToDateAgree(Plain(k), init, n, steps, w, d);
  }

  /** With all changes: so do they, and a document that is live at one is live at the other. */
  lemma ClientsConverge(init: Value, n: nat, steps: seq<P.Step<Edit>>, w: P.World<Document, Edit>, c: nat, d: nat,
                        v: Value)
    requires P.Run(Documents(), P.Start(Live(init), n), steps) == Some(w) && c < |w.clients| && d < |w.clients|
    requires P.UpToDate(w.log, w.clients[c]) && P.UpToDate(w.log, w.clients[d])
    requires w.clients[c].node == Live(v)
    ensures w.clients[d].node == Live(v)
  {
    DocumentsIsAlgebra();
    P.UpToDateAgree(Documents(), Live(init), n, steps, w, c);
    P.UpToDateAgree(Documents(), Live(init), n, steps, w, d);
  }
}

/** Folded streams (x/fold/fold.go): a change held back from a stream, with further changes made on top
    of it. */
module Folds {
  import opened Options
  import opened Algebras
  import opened Streams

  /** The held-back change after an Append or a Next, and the change passed on: to the base stream by
      Append, to the reader of the folded stream by Next. */
  datatype Folded<C> = Folded(fold: C, passed: C)

  /** Append: the change is transformed past the revert of the fold. None: the merge is called on a nil
      change, which panics. */
  function AppendFolded<S, C>(alg: Algebra<S, C>, fold: C, c: C): Option<Folded<C>> {
    if alg.isNil(fold) then Some(Folded(fold, c))
    else if alg.isNil(c) then None
    else
      var m := alg.merge(c, alg.revert(fold));
      Some(Folded(if alg.isNil(m.0) then m.0 else alg.revert(m.0), m.1))
  }

  /** Next: the fold is transformed past the base stream's change. None: that change is nil. */
  function NextFolded<S, C>(alg: Algebra<S, C>, fold: C, c: C): Option<Folded<C>> {
    if alg.isNil(c) then None
    else
      var m := alg.merge(c, fold);
      Some(Folded(m.0, m.1))
  }

  /** Base value plus fold is the folded value, unless a merge got stuck. */
  predicate InStep<S(==), C>(alg: Algebra<S, C>, base: S, fold: C, shown: S) {
    alg.stuck(base) || alg.stuck(shown) || alg.apply(base, fold) == Some(shown)
  }

  /** Appending on the folded value panics exactly for a nil change on a fold that is not nil; otherwise the
      base gets a change that applies there, and both stay in step. */
  lemma AppendKeeps<S(!new), C(!new)>(alg: Algebra<S, C>, base: S, fold: C, shown: S, c: C)
    requires Convergent(alg) && Reverting(alg) && NilIdle(alg)
    requires alg.apply(base, fold) == Some(shown) && !alg.stuck(shown) && alg.apply(shown, c).Some?
    ensures AppendFolded(alg, fold, c).None? <==> alg.isNil(c) && !alg.isNil(fold)
    ensures AppendFolded(alg, fold, c).Some? ==>
      var r := AppendFolded(alg, fold, c).value;
      && alg.apply(base, r.passed).Some?
      && InStep(alg, alg.apply(base, r.passed).value, r.fold, alg.apply(shown, c).value)
  {
    if !alg.isNil(fold) && !alg.isNil(c) {
      var undo := alg.revert(fold);
      assert alg.apply(shown, undo) == Some(base);
      UseConvergent(alg, shown, c, undo);
      var m, next := alg.merge(c, undo), alg.apply(shown, c).value;
      var base' := alg.apply(base, m.1).value;
      assert alg.apply(next, m.0) == Some(base');
    }
  }

  /** Following the base stream panics exactly at a nil change; otherwise the reader's change applies to the
      folded value, and both stay in step. */
  lemma NextKeeps<S(!new), C(!new)>(alg: Algebra<S, C>, base: S, fold: C, shown: S, c: C)
    requires Convergent(alg) && alg.apply(base, fold) == Some(shown) && alg.apply(base, c).Some?
    ensures NextFolded(alg, fold, c).None? <==> alg.isNil(c)
    ensures NextFolded(alg, fold, c).Some? ==>
      var r := NextFolded(alg, fold, c).value;
      && alg.apply(shown, r.passed).Some?
      && alg.apply(alg.apply(base, c).value, r.fold) == alg.apply(shown, r.passed)
  {
    UseConvergent(alg, base, c, fold);
  }

  /** If the change and the revert of the fold pass each other, the base gets the change as it is, and all of
      the fold stays held back. */
  lemma AppendPasses<S, C>(alg: Algebra<S, C>, fold: C, c: C)
    requires !alg.isNil(fold) && !alg.isNil(c) && Passes(alg, c, alg.revert(fold))
    requires !alg.isNil(alg.revert(fold)) && alg.revert(alg.revert(fold)) == fold
    ensures AppendFolded(alg, fold, c) == Some(Folded(fold, c))
  {
  }

  /** If the base stream's change and the fold pass each other, the reader gets the change as it is. */
  lemma NextPasses<S, C>(alg: Algebra<S, C>, fold: C, c: C)
    requires !alg.isNil(c) && Passes(alg, c, fold)
    ensures NextFolded(alg, fold, c) == Some(Folded(fold, c))
  {
  }

  // ----- whole histories -----

  /** A change appended to the folded stream, or one that arrives on the base stream. */
  datatype Event<C> = Local(change: C) | Remote(change: C)

  datatype View<S, C> = View(base: S, fold: C, shown: S)

  /** None if a change does not apply, or if the program panics. */
  function Step<S, C>(alg: Algebra<S, C>, v: View<S, C>, e: Event<C>): Option<View<S, C>> {
    match e
    case Local(c) =>
      var r :- AppendFolded(alg, v.fold, c);
      var shown :- alg.apply(v.shown, c);
      var base :- alg.apply(v.base, r.passed);
      Some(View(base, r.fold, shown))
    case Remote(c) =>
      var r :- NextFolded(alg, v.fold, c);
      var base :- alg.apply(v.base, c);
      var shown :- alg.apply(v.shown, r.passed);
      Some(View(base, r.fold, shown))
  }

  /** The change of the event applies where it is made, and is not nil where the program calls a method
      on it. */
  predicate Accepts<S, C>(alg: Algebra<S, C>, v: View<S, C>, e: Event<C>) {
    match e
    case Local(c) => alg.apply(v.shown, c).Some? && (alg.isNil(c) ==> alg.isNil(v.fold))
    case Remote(c) => alg.apply(v.base, c).Some? && !alg.isNil(c)
  }

  function Run<S, C>(alg: Algebra<S, C>, v: View<S, C>, events: seq<Event<C>>): Option<View<S, C>>
    decreases |events|
  {
    if events == [] then Some(v)
    else
      var w :- Step(alg, v, events[0]);
      Run(alg, w, events[1..])
  }

  predicate Good<S(==), C>(alg: Algebra<S, C>, v: View<S, C>) { InStep(alg, v.base, v.fold, v.shown) }

  /** While no merge is stuck, a step succeeds exactly if its own change is accepted, and it keeps base, fold
      and folded value in step. */
  lemma StepKeeps<S(!new), C(!new)>(alg: Algebra<S, C>, v: View<S, C>, e: Event<C>)
    requires Convergent(alg) && Reverting(alg) && NilIdle(alg) && Good(alg, v)
    ensures Step(alg, v, e).Some? ==> Good(alg, Step(alg, v, e).value)
    ensures !alg.stuck(v.base) && !alg.stuck(v.shown) ==> (Step(alg, v, e).Some? <==> Accepts(alg, v, e))
  {
    if !alg.stuck(v.base) && !alg.stuck(v.shown) && Accepts(alg, v, e) {
      match e
      case Local(c) => AppendKeeps(alg, v.base, v.fold, v.shown, c);
      case Remote(c) => NextKeeps(alg, v.base, v.fold, v.shown, c);
    }
  }

  /** In every history of local and upstream changes, base value plus fold is the folded value. */
  lemma {:induction false} HistoryKeeps<S(!new), C(!new)>(alg: Algebra<S, C>, v: View<S, C>, events: seq<Event<C>>)
    requires Convergent(alg) && Reverting(alg) && NilIdle(alg) && Good(alg, v)
    ensures Run(alg, v, events).Some? ==> Good(alg, Run(alg, v, events).value)
    decreases |events|
  {
    if events != [] {
      StepKeeps(alg, v, events[0]);
      var w := Step(alg, v, events[0]);
      if w.Some? {
        HistoryKeeps(alg, w.value, events[1..]);
      }
    }
  }

  // ----- on top of a linked stream -----

  /** The value that a folded stream shows. */
  ghost function Shown<S, C>(alg: Algebra<S, C>, fold: C, base: Node<C>, sh: Shape<S, C>): Option<S>
    requires base in sh.value
  {
    alg.apply(sh.value[base], fold)
  }

  /** Append: the result shows the value with c applied; None is the panic on a nil change. */
  method Append<S(!new), C(!new)>(alg: Algebra<S, C>, fold: C, base: Node<C>, c: C, ghost sh: Shape<S, C>)
    returns (r: Option<(C, Node<C>)>, ghost after: Shape<S, C>)
    requires Convergent(alg) && Reverting(alg) && NilIdle(alg) && Streams.Valid(alg, sh) && base in sh.nodes
    requires Shown(alg, fold, base, sh).Some? && !alg.stuck(Shown(alg, fold, base, sh).value)
    requires alg.apply(Shown(alg, fold, base, sh).value, c).Some?
    modifies sh.last
    ensures r.None? <==> alg.isNil(c) && !alg.isNil(fold)
    ensures r.None? ==> after == sh && unchanged(sh.last)
    ensures Streams.Valid(alg, after)
    ensures r.Some? ==>
      var (fold', base') := r.value;
      var folded := AppendFolded(alg, fold, c).value;
      && base' in after.nodes && fold' == folded.fold
      && Some(after.value[base']) == alg.apply(sh.value[base], folded.passed)
      && InStep(alg, after.value[base'], fold', alg.apply(Shown(alg, fold, base, sh).value, c).value)
  {
    AppendKeeps(alg, sh.value[base], fold, Shown(alg, fold, base, sh).value, c);
    var fold', passed := fold, c;
    if !alg.isNil(fold) {
      if alg.isNil(c) {
        return None, sh;
      }
      var m := alg.merge(c, alg.revert(fold));
      fold', passed := m.0, m.1;
      if !alg.isNil(fold') {
        fold' := alg.revert(fold');
      }
    }
    if alg.isNil(passed) {
      return Some((fold', base)), sh;
    }
    var base';
    ghost var x;
    base', after, x := Streams.Apply(alg, base, passed, false, sh);
    r := Some((fold', base'));
  }

  /** What Next returns: nil at the end of the stream, a panic at a nil change, or the next folded stream and
      the change that leads there. */
  datatype Read<C> = End | Panic | Read(fold: C, base: Node<C>, change: C)

  /** Next: the change leads from the value shown before to the value shown now. */
  method Next<S(!new), C(!new)>(alg: Algebra<S, C>, fold: C, base: Node<C>, ghost sh: Shape<S, C>)
    returns (r: Read<C>)
    requires Convergent(alg) && Streams.Valid(alg, sh) && base in sh.nodes && Shown(alg, fold, base, sh).Some?
    ensures r.End? <==> base == sh.last
    ensures r.Panic? <==> base != sh.last && alg.isNil(base.c)
    ensures r.Read? ==>
      && NextFolded(alg, fold, base.c) == Some(Folded(r.fold, r.change)) && r.base == base.next
      && r.base in sh.nodes && Shown(alg, r.fold, r.base, sh).Some?
      && alg.apply(Shown(alg, fold, base, sh).value, r.change) == Shown(alg, r.fold, r.base, sh)
  {
    assert Streams.Step(alg, base, sh);
    if base.next == null {
      return End;
    }
    NextKeeps(alg, sh.value[base], fold, Shown(alg, fold, base, sh).value, base.c);
    if alg.isNil(base.c) {
      return Panic;
    }
    var m := alg.merge(base.c, fold);
    r := Read(m.0, base.next, m.1);
  }
}

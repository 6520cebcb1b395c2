/** Undo matches an editor for lasting edits only: any other edit, made after one that changes the document,
    is followed by undos and redos after which the two differ. */
module UndoLimits {
  import opened Options
  import opened Algebras
  import opened Undo

  /** The editor after the two edits, or after taking the second one back. */
  function Shown<S>(s0: S, s1: S, s2: S, undo: bool): Editor<S> {
    if undo then Editor([s0, s1], s2, []) else Editor([s0], s1, [s2])
  }

  function Toggle<C>(undo: bool): Action<C> { if undo then UndoIt else RedoIt }

  /** The program and the editor are in step, and the second edit, or what undoing and redoing has made of
      it, is the last entry; d is its change. */
  ghost predicate Turning<S, C>(alg: Algebra<S, C>, h: History<S, C>, trace: seq<S>, s0: S, s1: S, s2: S, c1: C, d: C,
                                undo: bool)
  {
    var n := |h.entries|;
    && n >= 2 && InStep(alg, h, trace, Shown(s0, s1, s2, undo))
    && h.entries[0].change == c1 && h.entries[n - 1].change == d
    && Track(h.entries, n) == Some(if undo then Stacks([0, n - 1], []) else Stacks([0], [n - 1]))
  }

  lemma TurnAdds<S, C>(alg: Algebra<S, C>, es: seq<Entry<C>>, undo: bool)
    requires |es| >= 2 && NoUpstream(es)
    requires Track(es, |es|) == Some(if undo then Stacks([0, |es| - 1], []) else Stacks([0], [|es| - 1]))
    ensures Added(alg, es, Toggle(undo)) ==
            Some(Entry(if undo then Undone else Redone, alg.revert(es[|es| - 1].change)))
    ensures !undo ==> Added(alg, es, UndoIt) == Some(Entry(Undone, alg.revert(es[0].change)))
  {
    var st := Track(es, |es|).value;
    UndoPicks(es, st);
    TakesBackReverted(alg, es, TopOf(st.undo), Undone);
    if !undo {
      RedoPicks(es, st);
      TakesBackReverted(alg, es, TopOf(st.redo), Redone);
    }
  }

  predicate Differ<S(==), C>(alg: Algebra<S, C>, h: History<S, C>, ed: Editor<S>, actions: seq<Action<C>>) {
    var h', ed' := ActAll(alg, h, actions), EditorAll(alg, ed, actions);
    h'.Some? && ed'.Some? && h'.value.doc != ed'.value.now
  }

  lemma DifferAfter<S, C>(alg: Algebra<S, C>, h: History<S, C>, ed: Editor<S>, a: Action<C>, rest: seq<Action<C>>)
    requires Act(alg, h, a).Some? && EditorAct(alg, ed, a).Some?
    requires Differ(alg, Act(alg, h, a).value, EditorAct(alg, ed, a).value, rest)
    ensures Differ(alg, h, ed, [a] + rest)
  {
    assert ([a] + rest)[1..] == rest;
  }

  lemma DifferNow<S, C>(alg: Algebra<S, C>, h: History<S, C>, ed: Editor<S>)
    requires h.doc != ed.now
    ensures Differ(alg, h, ed, [])
  {
  }

  /** The turn at which the revert is nil: the program does nothing, the editor moves on. */
  lemma NilTurn<S(!new), C(!new)>(alg: Algebra<S, C>, h: History<S, C>, trace: seq<S>, s0: S, s1: S, s2: S, c1: C, d: C,
                                  undo: bool)
    requires Reverting(alg) && NilIdle(alg) && s0 != s1 && !alg.stuck(s1) && !alg.stuck(s2)
    requires Turning(alg, h, trace, s0, s1, s2, c1, d, undo) && alg.isNil(alg.revert(d)) && !alg.isNil(alg.revert(c1))
    ensures Differ(alg, h, Shown(s0, s1, s2, undo), [Toggle(undo)] + ([UndoIt] + []))
  {
    var ed := Shown(s0, s1, s2, undo);
    var next := EditorAct(alg, ed, Toggle(undo)).value;
    TurnAdds(alg, h.entries, undo);
    assert alg.apply(h.doc, alg.revert(d)) == Some(h.doc);
    assert Act(alg, h, Toggle(undo)) == Some(h);
    if undo {
      LastBefore(alg, h, trace, s0, s1, s2, c1, d);
      DifferNow(alg, h, EditorAct(alg, next, UndoIt).value);
    } else {
      ActInStep(alg, h, trace, ed, UndoIt);
      DifferNow(alg, Act(alg, h, UndoIt).value, EditorAct(alg, next, UndoIt).value);
    }
    DifferAfter(alg, h, next, UndoIt, []);
    DifferAfter(alg, h, ed, Toggle(undo), [UndoIt] + []);
  }

  /** Reverting the last entry leads to the document before it. */
  lemma LastBefore<S(!new), C(!new)>(alg: Algebra<S, C>, h: History<S, C>, trace: seq<S>, s0: S, s1: S, s2: S, c1: C,
                                     d: C)
    requires Reverting(alg) && !alg.stuck(s2) && Turning(alg, h, trace, s0, s1, s2, c1, d, true)
    ensures h.doc == s2 && alg.apply(s2, alg.revert(d)) == Some(s1)
  {
    var n := |h.entries|;
    assert MatchesAt([0, n - 1], [s0, s1], trace, s2, 1);
    assert alg.apply(trace[n - 1], h.entries[n - 1].change) == Some(trace[n]);
  }

  lemma EditorTurns<S, C>(alg: Algebra<S, C>, s0: S, s1: S, s2: S, undo: bool)
    ensures EditorAct(alg, Shown(s0, s1, s2, undo), Toggle(undo)) == Some(Shown(s0, s1, s2, !undo))
  {
    assert Popped([s0, s1]) == [s0] && Popped([s2]) == [] && [] + [s2] == [s2] && [s0] + [s1] == [s0, s1];
  }

  lemma TrackTurns<C>(es: seq<Entry<C>>, e: Entry<C>, undo: bool)
    requires |es| >= 2 && e.kind == (if undo then Undone else Redone)
    requires Track(es, |es|) == Some(if undo then Stacks([0, |es| - 1], []) else Stacks([0], [|es| - 1]))
    ensures Track(es + [e], |es| + 1) == Some(if undo then Stacks([0], [|es|]) else Stacks([0, |es|], []))
  {
    var n := |es|;
    TrackSnoc(es, e, Track(es, n).value);
    assert Popped([0, n - 1]) == [0] && Popped([n - 1]) == [] && [] + [n] == [n] && [0] + [n] == [0, n];
  }

  /** A turn at which the revert is not nil. */
  lemma Turns<S(!new), C(!new)>(alg: Algebra<S, C>, h: History<S, C>, trace: seq<S>, s0: S, s1: S, s2: S, c1: C, d: C,
                                undo: bool) returns (next: History<S, C>)
    requires Reverting(alg) && !alg.stuck(s1) && !alg.stuck(s2) && !alg.isNil(alg.revert(d))
    requires Turning(alg, h, trace, s0, s1, s2, c1, d, undo)
    ensures Act(alg, h, Toggle(undo)) == Some(next)
    ensures Turning(alg, next, trace + [next.doc], s0, s1, s2, c1, alg.revert(d), !undo)
  {
    var e := Entry(if undo then Undone else Redone, alg.revert(d));
    TurnAdds(alg, h.entries, undo);
    EditorTurns(alg, s0, s1, s2, undo);
    ActInStep(alg, h, trace, Shown(s0, s1, s2, undo), Toggle(undo));
    TrackTurns(h.entries, e, undo);
    next := Act(alg, h, Toggle(undo)).value;
  }

  /** Undo and redo the second edit until its revert is nil. */
  lemma {:induction false} Slips<S(!new), C(!new)>(alg: Algebra<S, C>, h: History<S, C>, trace: seq<S>,
                                                   s0: S, s1: S, s2: S, c1: C, d: C, undo: bool, k: nat)
    returns (actions: seq<Action<C>>)
    requires Reverting(alg) && NilIdle(alg) && s0 != s1 && !alg.stuck(s1) && !alg.stuck(s2)
    requires Turning(alg, h, trace, s0, s1, s2, c1, d, undo) && !alg.isNil(alg.revert(c1))
    requires alg.isNil(Reverts(alg, alg.revert(d), k))
    ensures Differ(alg, h, Shown(s0, s1, s2, undo), actions) && NoEdits(actions)
    decreases k
  {
    if alg.isNil(alg.revert(d)) {
      NilTurn(alg, h, trace, s0, s1, s2, c1, d, undo);
      actions := [Toggle(undo)] + ([UndoIt] + []);
    } else {
      var next := Turns(alg, h, trace, s0, s1, s2, c1, d, undo);
      var rest := Slips(alg, next, trace + [next.doc], s0, s1, s2, c1, alg.revert(d), !undo, k - 1);
      EditorTurns(alg, s0, s1, s2, undo);
      DifferAfter(alg, h, Shown(s0, s1, s2, undo), Toggle(undo), rest);
      actions := [Toggle(undo)] + rest;
    }
  }

  predicate NoEdits<C>(actions: seq<Action<C>>) { forall i :: 0 <= i < |actions| ==> !actions[i].Edit? }

  /** The first edit made. */
  lemma OneMade<S, C>(alg: Algebra<S, C>, s0: S, s1: S, c1: C)
    requires alg.apply(s0, c1) == Some(s1) && !alg.isNil(c1)
    ensures var one := History([Entry(Local, c1)], s1);
            && Act(alg, History([], s0), Edit(c1)) == Some(one)
            && InStep(alg, one, [s0, s1], Editor([s0], s1, [])) && Track(one.entries, 1) == Some(Stacks([0], []))
  {
    EditInStep(alg, History([], s0), [s0], Editor([], s0, []), c1);
    assert [s0] + [s1] == [s0, s1] && [] + [s0] == [s0] && [] + [Entry(Local, c1)] == [Entry(Local, c1)];
    TrackSnoc([], Entry(Local, c1), Stacks([], []));
    assert [] + [0] == [0];
  }

  /** Both edits made. */
  lemma BothMade<S, C>(alg: Algebra<S, C>, s0: S, s1: S, s2: S, c1: C, c: C)
    requires alg.apply(s0, c1) == Some(s1) && alg.apply(s1, c) == Some(s2) && !alg.isNil(c1) && !alg.isNil(c)
    ensures var two := History([Entry(Local, c1), Entry(Local, c)], s2);
            && Act(alg, History([Entry(Local, c1)], s1), Edit(c)) == Some(two)
            && Turning(alg, two, [s0, s1, s2], s0, s1, s2, c1, c, true)
  {
    var one := History([Entry(Local, c1)], s1);
    OneMade(alg, s0, s1, c1);
    EditInStep(alg, one, [s0, s1], Editor([s0], s1, []), c);
    assert [s0, s1] + [s2] == [s0, s1, s2] && [s0] + [s1] == [s0, s1];
    assert one.entries + [Entry(Local, c)] == [Entry(Local, c1), Entry(Local, c)];
    TrackSnoc(one.entries, Entry(Local, c), Stacks([0], []));
    assert [0] + [1] == [0, 1];
  }

  /** An edit that is not lasting, made after one that changes the document, can always be followed by
      undos and redos after which the program and the editor show different documents. */
  lemma NotLastingSlips<S(!new), C(!new)>(alg: Algebra<S, C>, s0: S, s1: S, s2: S, c1: C, c: C)
    returns (actions: seq<Action<C>>)
    requires Reverting(alg) && NilIdle(alg) && Lasting(alg, c1) && !Lasting(alg, c)
    requires alg.apply(s0, c1) == Some(s1) && alg.apply(s1, c) == Some(s2) && s0 != s1
    requires !alg.stuck(s0) && !alg.stuck(s1) && !alg.stuck(s2)
    ensures NoEdits(actions)
    ensures Differ(alg, History([], s0), Editor([], s0, []), [Edit(c1)] + ([Edit(c)] + actions))
  {
    LastingNow(alg, c1);
    LastingNow(alg, alg.revert(c1));
    OneMade(alg, s0, s1, c1);
    var one, ed := History([Entry(Local, c1)], s1), Editor([s0], s1, []);
    var k: nat :| alg.isNil(Reverts(alg, c, k));
    assert [s0] + [s1] == [s0, s1] && [] + [s0] == [s0];
    if alg.isNil(c) {
      actions := [UndoIt] + [];
      NilEditSlips(alg, s0, s1, c1, EditorAct(alg, ed, Edit(c)).value);
    } else {
      BothMade(alg, s0, s1, s2, c1, c);
      actions := Slips(alg, Act(alg, one, Edit(c)).value, [s0, s1, s2], s0, s1, s2, c1, c, true, k - 1);
    }
    DifferAfter(alg, one, ed, Edit(c), actions);
    DifferAfter(alg, History([], s0), Editor([], s0, []), Edit(c1), [Edit(c)] + actions);
  }

  /** A nil edit is not recorded, so undo takes back the one before it. */
  lemma NilEditSlips<S(!new), C(!new)>(alg: Algebra<S, C>, s0: S, s1: S, c1: C, ed: Editor<S>)
    requires Reverting(alg) && alg.apply(s0, c1) == Some(s1) && s0 != s1 && !alg.stuck(s1)
    requires ed.past == [s0, s1] && !alg.isNil(c1) && !alg.isNil(alg.revert(c1))
    ensures Differ(alg, History([Entry(Local, c1)], s1), ed, [UndoIt] + [])
  {
    var h := History([Entry(Local, c1)], s1);
    OneMade(alg, s0, s1, c1);
    UndoPicks(h.entries, Stacks([0], []));
    TakesBackReverted(alg, h.entries, Some(0), Undone);
    ActInStep(alg, h, [s0, s1], Editor([s0], s1, []), UndoIt);
    DifferNow(alg, Act(alg, h, UndoIt).value, EditorAct(alg, ed, UndoIt).value);
    DifferAfter(alg, h, ed, UndoIt, []);
  }
}

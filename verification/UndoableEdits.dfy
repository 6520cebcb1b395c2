/** Which edits undo can take back: exactly those that contain a basic change. */
module UndoableEdits {
  import opened Options
  import opened Changes
  import opened Merging
  import opened Reverting
  import opened Flattening
  import opened Undo
  import I = Instances

  function RevertTimes(c: Change, k: nat): Change
    decreases k
  {
    if k == 0 then c else RevertTimes(Revert(c), k - 1)
  }

  lemma {:induction false} RevertKeepsCount(c: Change)
    ensures |Leaves(Revert(c))| == |Leaves(c)|
    decreases c, 0
  {
    match c
    case PathChange(path, inner) => RevertKeepsCount(inner);
    case ChangeSet(changes) =>
      RevertEachKeepsCount(changes);
      SimplifySetKeepsLeaves(RevertEach(changes));
    case _ =>
  }

  lemma {:induction false} RevertEachKeepsCount(cs: seq<Change>)
    ensures |LeavesOf(RevertEach(cs))| == |LeavesOf(cs)|
    decreases cs, 0
  {
    if cs != [] {
      RevertKeepsCount(cs[0]);
      RevertEachKeepsCount(cs[1..]);
      LeavesOfOne(Revert(cs[0]));
      LeavesOfConcat(RevertEach(cs[1..]), if cs[0].Noop? then [] else [Revert(cs[0])]);
    }
  }

  lemma {:induction false} NeverFades(c: Change, k: nat)
    requires Leaves(c) != []
    ensures !RevertTimes(c, k).Noop?
    decreases k
  {
    RevertKeepsCount(c);
    if k > 0 {
      NeverFades(Revert(c), k - 1);
    }
  }

  lemma {:induction false} SimplifyNothing(c: Change)
    requires Leaves(c) == []
    ensures Simplify(c).Noop?
    decreases c, 0
  {
    match c
    case PathChange(_, inner) => SimplifyNothing(inner);
    case ChangeSet(changes) => SimplifyNothings(changes);
    case _ =>
  }

  lemma {:induction false} SimplifyNothings(cs: seq<Change>)
    requires LeavesOf(cs) == []
    ensures SimplifyEach(cs) == [] && SimplifySet(cs).Noop?
    decreases cs, 0
  {
    if cs != [] {
      assert Leaves(cs[0]) == [] && LeavesOf(cs[1..]) == [];
      SimplifyNothing(cs[0]);
      SimplifyNothings(cs[1..]);
    }
  }

  lemma {:induction false} FadesUnder(p: seq<Key>, c: Change, k: nat) returns (j: nat)
    requires RevertTimes(c, k).Noop?
    ensures RevertTimes(PathChange(p, c), j).Noop?
    decreases k
  {
    if c.Noop? {
      j := 1;
      assert RevertTimes(Noop, 0).Noop?;
    } else {
      j := FadesUnder(p, Revert(c), k - 1);
      j := j + 1;
    }
  }

  lemma {:induction false} Fades(c: Change) returns (k: nat)
    requires Leaves(c) == []
    ensures RevertTimes(c, k).Noop?
    decreases c
  {
    k := 0;
    if c.PathChange? {
      k := Fades(c.inner);
      k := FadesUnder(c.path, c.inner, k);
    } else if c.ChangeSet? {
      RevertEachKeepsCount(c.changes);
      SimplifyNothings(RevertEach(c.changes));
      assert RevertTimes(Revert(c), 0).Noop?;
      k := 1;
    }
  }

  lemma {:induction false} RevertsAre(c: Change, k: nat)
    ensures Reverts(I.Documents(), I.Real(c), k) == I.Real(RevertTimes(c, k))
    decreases k
  {
    if k > 0 {
      RevertsAre(Revert(c), k - 1);
    }
  }

  /** An edit stays undoable exactly if it contains a basic change, at any depth. */
  lemma LastingExactly(c: Change)
    ensures Lasting(I.Documents(), I.Real(c)) <==> Leaves(c) != []
  {
    if Leaves(c) == [] {
      var k := Fades(c);
      RevertsAre(c, k);
    } else {
      forall k: nat ensures !I.Documents().isNil(Reverts(I.Documents(), I.Real(c), k)) {
        NeverFades(c, k);
        RevertsAre(c, k);
      }
    }
  }

  /** Every edit contains a basic change. */
  predicate RealEdits(actions: seq<Action<I.Edit>>) {
    actions != [] ==>
      && (actions[0].Edit? ==> actions[0].change.Real? && Leaves(actions[0].change.change) != [])
      && RealEdits(actions[1..])
  }

  predicate LiveEditor(ed: Editor<I.Document>) {
    && ed.now.Live? && (forall i :: 0 <= i < |ed.past| ==> ed.past[i].Live?)
    && (forall i :: 0 <= i < |ed.future| ==> ed.future[i].Live?)
  }

  lemma {:induction false} StaysLive(ed: Editor<I.Document>, actions: seq<Action<I.Edit>>)
    requires LiveEditor(ed) && RealEdits(actions)
    ensures ShowsLive(I.Documents(), ed, actions) && LastingEdits(I.Documents(), actions)
    decreases |actions|
  {
    if actions != [] {
      if actions[0].Edit? {
        LastingExactly(actions[0].change.change);
      }
      var next := EditorAct(I.Documents(), ed, actions[0]);
      if next.Some? {
        StaysLive(next.value, actions[1..]);
      } else {
        StaysLive(ed, actions[1..]);
      }
    }
  }

  /** With all changes, moves included: as long as every edit contains a basic change, undo and redo show
      the documents that an ordinary editor shows. */
  lemma UndoMatches(init: Value, actions: seq<Action<I.Edit>>)
    requires RealEdits(actions)
    ensures var alg, doc := I.Documents(), I.Live(init);
            var h, ed := ActAll(alg, History([], doc), actions), EditorAll(alg, Editor([], doc, []), actions);
            && (h.Some? <==> ed.Some?) && (h.Some? ==> h.value.doc == ed.value.now)
  {
    I.DocumentsIsAlgebra();
    StaysLive(Editor([], I.Live(init), []), actions);
    DocumentMatchesEditor(I.Documents(), I.Live(init), actions);
  }
}

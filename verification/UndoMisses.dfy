/** With upstream changes and redo, simplify can drop a redone entry together with an undone one that it does
    not redo (streams/undo/stack.go:112-133). Undo then carries its change past the wrong list. */
module UndoMisses {
  import opened Options
  import opened Splices
  import opened Changes
  import opened Merging
  import opened Algebras
  import opened Undo
  import opened UpstreamUndo
  import opened Firmness
  import opened MergeTermination
  import I = Instances

  // ----- the entries of such a history -----

  /** Two edits, a change from upstream, the second edit undone, a third edit undone, redone and undone. */
  predicate Recorded<C(==)>(es: seq<Entry<C>>) {
    && |es| == 8 && es[0].kind.Local? && es[1].kind.Local? && es[2].kind.Upstream? && es[3].kind.Undone?
    && es[4].kind.Local? && es[5].kind.Undone? && es[6].kind.Redone? && es[7].kind.Undone?
  }

  /** Undo picks the first edit; the undone second edit is missing from what is carried past. */
  lemma Misses<C>(es: seq<Entry<C>>)
    requires Recorded(es)
    ensures UndoScan(es, 8, 0) == Some(0) && Cancelled(es, 1, 8) == [es[1], es[2], es[7]] && !AlignedAt(es, 1, 7)
  {
    assert UndoScan(es, 8, 0) == UndoScan(es, 6, 0) == UndoScan(es, 4, 0) == UndoScan(es, 2, 1) == UndoScan(es, 1, 0);
    var three := Cancelled(es, 1, 4);
    assert Cancelled(es, 1, 2) == [es[1]] && Cancelled(es, 1, 3) == [es[1], es[2]] && three == [es[1], es[2], es[3]];
    assert Cancelled(es, 1, 5) == three + [es[4]] && Popped(three + [es[4]]) == three;
    assert Cancelled(es, 1, 6) == three && Cancelled(es, 1, 7) == Popped(three) == [es[1], es[2]];
  }

  // ----- lists of atoms -----

  function Atoms(ids: seq<int>): seq<Value> { seq(|ids|, i requires 0 <= i < |ids| => Val(Atom(ids[i]))) }

  function List(ids: seq<int>): Value { Val(Arr(Atoms(ids))) }

  function Ins(at: nat, id: int): Change { SpliceIn(Splice(at, [], Atoms([id]))) }

  function Del(at: nat, id: int): Change { SpliceIn(Splice(at, Atoms([id]), [])) }

  ghost function Lists(): Algebra<Value, Change> { I.Plain(Text) }

  lemma TextHolds(s: Splice<Value>)
    ensures Text.Holds(true, SpliceIn(s))
  {
    OneLeaf(Text, true, SpliceIn(s));
  }

  lemma Inserts(ids: seq<int>, at: nat, id: int)
    requires at <= |ids|
    ensures Lists().apply(List(ids), Ins(at, id)) == Some(List(ids[..at] + [id] + ids[at..]))
  {
    var s := Splice(at, [], Atoms([id]));
    TextHolds(s);
    assert Atoms(ids)[at..at] == [];
    assert Cut(Atoms(ids), s) == Atoms(ids[..at] + [id] + ids[at..]);
  }

  lemma Deletes(ids: seq<int>, at: nat)
    requires at < |ids|
    ensures Lists().apply(List(ids), Del(at, ids[at])) == Some(List(ids[..at] + ids[at + 1..]))
  {
    var s := Splice(at, Atoms([ids[at]]), []);
    TextHolds(s);
    assert Atoms(ids)[at..at + 1] == s.before;
    assert Cut(Atoms(ids), s) == Atoms(ids[..at] + ids[at + 1..]);
  }

  lemma DeletesNot(ids: seq<int>, at: nat, id: int)
    requires at < |ids| && ids[at] != id
    ensures Lists().apply(List(ids), Del(at, id)).None?
  {
    assert Atoms(ids)[at..at + 1][0] == Val(Atom(ids[at])) && Atoms([id])[0] == Val(Atom(id));
  }

  lemma Merges(s: Splice<Value>, o: Splice<Value>)
    ensures Lists().merge(SpliceIn(s), SpliceIn(o)).0 == MaybeSplice(MergeSplices(s, o).theirs)
  {
    ReturnedAt(SpliceIn(s), SpliceIn(o), 1);
  }

  // ----- the history -----

  /** One event of the history. */
  lemma Adds(h: History<Value, Change>, ev: Event<Change>, e: Entry<Change>, doc: Value)
    requires Adding(Lists(), h.entries, ev) == Some(e) && !e.change.Noop? && Lists().apply(h.doc, e.change) == Some(doc)
    ensures Happen(Lists(), h, ev) == Some(History(h.entries + [e], doc))
  {
  }

  lemma Follows(h: History<Value, Change>, ev: Event<Change>, rest: seq<Event<Change>>)
    requires Happen(Lists(), h, ev).Some?
    ensures HappenAll(Lists(), h, [ev] + rest) == HappenAll(Lists(), Happen(Lists(), h, ev).value, rest)
  {
    assert ([ev] + rest)[1..] == rest;
  }

  function Upto(n: nat): seq<Entry<Change>>
    requires n <= 8
  {
    [Entry(Local, Ins(0, 1)), Entry(Local, Ins(0, 2)), Entry(Upstream, Ins(2, 3)), Entry(Undone, Del(0, 2)),
     Entry(Local, Ins(2, 4)), Entry(Undone, Del(2, 4)), Entry(Redone, Ins(2, 4)), Entry(Undone, Del(2, 4))][..n]
  }

  function Doc(n: nat): seq<int>
    requires n <= 8
  {
    if n == 0 then [] else if n == 1 then [1] else if n == 2 then [2, 1] else if n == 3 then [2, 1, 3]
    else if n == 5 || n == 7 then [1, 3, 4] else [1, 3]
  }

  function EventAt(n: nat): Event<Change>
    requires n < 8
  {
    if n == 0 then Mine(Edit(Ins(0, 1))) else if n == 1 then Mine(Edit(Ins(0, 2))) else if n == 2 then Theirs(Ins(2, 3))
    else if n == 4 then Mine(Edit(Ins(2, 4))) else if n == 6 then Mine(RedoIt) else Mine(UndoIt)
  }

  lemma EntryAdded(n: nat)
    requires n < 8
    ensures Adding(Lists(), Upto(n), EventAt(n)) == Some(Upto(8)[n])
  {
    var es := Upto(n);
    if n == 3 {
      assert UndoScan(es, 3, 0) == UndoScan(es, 2, 0) == Some(1);
      assert Cancelled(es, 2, 3) == [es[2]];
      OneLater(Del(0, 2), es[2]);
      Merges(Splice(2, [], Atoms([3])), Splice(0, Atoms([2]), []));
    } else if n == 5 || n == 7 {
      assert UndoScan(es, n, 0) == Some(n - 1) && Cancelled(es, n, n) == [];
    } else if n == 6 {
      assert RedoScan(es, 6, 0) == Some(5) && Cancelled(es, 6, 6) == [];
    }
  }

  lemma OneLater(c: Change, e: Entry<Change>)
    ensures Ascend(Lists(), c, ChangesOf([e])).last == Lists().merge(e.change, c).0
  {
    assert ChangesOf([e]) == [e.change] && [e.change][1..] == [];
  }

  lemma DocChanged(n: nat)
    requires n < 8
    ensures Lists().apply(List(Doc(n)), Upto(8)[n].change) == Some(List(Doc(n + 1)))
  {
    var d := Doc(n);
    if n == 0 {
      Inserts(d, 0, 1);
      assert d[..0] + [1] + d[0..] == Doc(1);
    } else if n == 1 {
      Inserts(d, 0, 2);
      assert d[..0] + [2] + d[0..] == Doc(2);
    } else if n == 2 {
      Inserts(d, 2, 3);
      assert d[..2] + [3] + d[2..] == Doc(3);
    } else if n == 3 {
      Deletes(d, 0);
      assert d[..0] + d[1..] == Doc(4);
    } else if n == 4 || n == 6 {
      Inserts(d, 2, 4);
      assert d[..2] + [4] + d[2..] == Doc(5);
    } else {
      Deletes(d, 2);
      assert d[..2] + d[3..] == Doc(6);
    }
  }

  function EventsFrom(n: nat): seq<Event<Change>>
    requires n <= 8
    decreases 8 - n
  {
    if n == 8 then [] else [EventAt(n)] + EventsFrom(n + 1)
  }

  lemma {:induction false} HistoryFrom(n: nat)
    requires n <= 8
    ensures HappenAll(Lists(), History(Upto(n), List(Doc(n))), EventsFrom(n)) == Some(History(Upto(8), List(Doc(8))))
    decreases 8 - n
  {
    if n < 8 {
      var h := History(Upto(n), List(Doc(n)));
      EntryAdded(n);
      DocChanged(n);
      Adds(h, EventAt(n), Upto(8)[n], List(Doc(n + 1)));
      assert Upto(n) + [Upto(8)[n]] == Upto(n + 1);
      Follows(h, EventAt(n), EventsFrom(n + 1));
      HistoryFrom(n + 1);
    }
  }

  /** Undo at the end of the history makes a deletion that does not fit: at that index is another element. */
  lemma UndoCanMiss() returns (h: History<Value, Change>)
    ensures HappenAll(Lists(), History([], List([])), EventsFrom(0)) == Some(h)
    ensures Added(Lists(), h.entries, UndoIt) == Some(Entry(Undone, Del(1, 1)))
    ensures Act(Lists(), h, UndoIt).None?
  {
    h := History(Upto(8), List(Doc(8)));
    HistoryFrom(0);
    AddedWrong();
    DeletesNot([1, 3], 1, 1);
  }

  lemma AddedWrong()
    ensures Added(Lists(), Upto(8), UndoIt) == Some(Entry(Undone, Del(1, 1)))
  {
    Misses(Upto(8));
    CarriedWrong();
  }

  lemma CarriedWrong()
    ensures UndoAt(Lists(), Upto(8), 0) == Del(1, 1)
  {
    var es := Upto(8);
    Misses(es);
    ThreeChanges(es[1], es[2], es[7]);
    CarriedPast();
  }

  /** The deletion of the first edit, past the second edit, the upstream one and a deletion at the end. */
  lemma CarriedPast()
    ensures Ascend(Lists(), Del(0, 1), [Ins(0, 2), Ins(2, 3), Del(2, 4)]).last == Del(1, 1)
  {
    Merges(Splice(0, [], Atoms([2])), Splice(0, Atoms([1]), []));
    Merges(Splice(2, [], Atoms([3])), Splice(1, Atoms([1]), []));
    Merges(Splice(2, Atoms([4]), []), Splice(1, Atoms([1]), []));
    ThreeLater(Lists(), Del(0, 1), Ins(0, 2), Ins(2, 3), Del(2, 4));
  }

  lemma ThreeLater<S, C>(alg: Algebra<S, C>, c: C, x: C, y: C, z: C)
    ensures Ascend(alg, c, [x, y, z]).last == alg.merge(z, alg.merge(y, alg.merge(x, c).0).0).0
  {
    assert [x, y, z][1..] == [y, z] && [y, z][1..] == [z] && [z][1..] == [];
    var c1 := alg.merge(x, c).0;
    var c2 := alg.merge(y, c1).0;
    assert Ascend(alg, c2, [z]).last == alg.merge(z, c2).0;
    assert Ascend(alg, c1, [y, z]).last == Ascend(alg, c2, [z]).last;
  }

  lemma ThreeChanges<C>(e: Entry<C>, f: Entry<C>, g: Entry<C>)
    ensures ChangesOf([e, f, g]) == [e.change, f.change, g.change]
  {
    assert [e, f, g][1..] == [f, g] && [f, g][1..] == [g] && [g][1..] == [];
    assert ChangesOf([g]) == [g.change] && ChangesOf([f, g]) == [f.change, g.change];
  }
}

/** Undo in the presence of upstream changes (streams/undo/stack.go): the change to take back is carried past
    what came after it, with undone and redone pairs left out. */
module UpstreamUndo {
  import opened Options
  import opened Algebras
  import opened Undo

  /** What the user does, and what arrives. */
  datatype Event<C> = Mine(action: Action<C>) | Theirs(change: C)

  function Happen<S, C>(alg: Algebra<S, C>, h: History<S, C>, ev: Event<C>): Option<History<S, C>> {
    match ev
    case Mine(a) => Act(alg, h, a)
    case Theirs(c) =>
      var doc :- alg.apply(h.doc, c);
      Some(History(if alg.isNil(c) then h.entries else h.entries + [Entry(Upstream, c)], doc))
  }

  function HappenAll<S, C>(alg: Algebra<S, C>, h: History<S, C>, events: seq<Event<C>>): Option<History<S, C>>
    decreases |events|
  {
    if events == [] then Some(h)
    else
      var h' :- Happen(alg, h, events[0]);
      HappenAll(alg, h', events[1..])
  }

  // ----- leaving pairs out -----

  /** The entry n - 1, if simplify drops it with the one before it, reverts exactly that one. */
  predicate CleanAt<S, C(==)>(alg: Algebra<S, C>, es: seq<Entry<C>>, lo: nat, n: nat)
    requires lo < n <= |es|
  {
    var kept := Cancelled(es, lo, n - 1);
    kept != [] && Cancels(kept[|kept| - 1].kind, es[n - 1].kind) ==>
      es[n - 1].change == alg.revert(kept[|kept| - 1].change)
  }

  /** Every pair that simplify leaves out is a change and its revert. */
  ghost predicate Clean<S, C>(alg: Algebra<S, C>, es: seq<Entry<C>>, lo: nat) {
    forall n: nat {:trigger CleanAt(alg, es, lo, n)} :: lo < n <= |es| ==> CleanAt(alg, es, lo, n)
  }

  /** The documents the entries went through, none of them stuck. */
  predicate LiveTrace<S(==), C>(alg: Algebra<S, C>, h: History<S, C>, trace: seq<S>) {
    && |trace| == |h.entries| + 1 && trace[|h.entries|] == h.doc && !alg.stuck(h.doc)
    && forall i: nat {:trigger LeadsOn(alg, h, trace, i)} :: i < |h.entries| ==> LeadsOn(alg, h, trace, i)
  }

  predicate LeadsOn<S(==), C>(alg: Algebra<S, C>, h: History<S, C>, trace: seq<S>, i: nat)
    requires |trace| == |h.entries| + 1 && i < |h.entries|
  {
    alg.apply(trace[i], h.entries[i].change) == Some(trace[i + 1]) && !alg.stuck(trace[i])
  }

  lemma LiveTraceSnoc<S, C>(alg: Algebra<S, C>, h: History<S, C>, trace: seq<S>, e: Entry<C>, doc: S)
    requires LiveTrace(alg, h, trace) && alg.apply(h.doc, e.change) == Some(doc) && !alg.stuck(doc)
    ensures LiveTrace(alg, History(h.entries + [e], doc), trace + [doc])
  {
    var h', trace' := History(h.entries + [e], doc), trace + [doc];
    forall i: nat | i < |h'.entries| ensures LeadsOn(alg, h', trace', i) {
      assert i < |h.entries| ==> LeadsOn(alg, h, trace, i);
    }
  }

  /** Then what is kept leads to the same document as all the entries. */
  lemma {:induction false} CancelledLeads<S(!new), C(!new)>(alg: Algebra<S, C>, h: History<S, C>, trace: seq<S>,
                                                            lo: nat, n: nat)
    requires Reverting(alg) && LiveTrace(alg, h, trace) && lo <= n <= |h.entries| && Clean(alg, h.entries, lo)
    ensures ApplyAll(alg, trace[lo], ChangesOf(Cancelled(h.entries, lo, n))) == Some(trace[n])
    decreases n
  {
    if lo < n {
      CancelledLeads(alg, h, trace, lo, n - 1);
      assert CleanAt(alg, h.entries, lo, n);
      assert LeadsOn(alg, h, trace, n - 1);
      StepLeads(alg, trace[lo], Cancelled(h.entries, lo, n - 1), trace[n - 1], trace[n], h.entries[n - 1]);
    }
  }

  lemma StepLeads<S(!new), C(!new)>(alg: Algebra<S, C>, s: S, kept: seq<Entry<C>>, now: S, next: S, e: Entry<C>)
    requires Reverting(alg) && ApplyAll(alg, s, ChangesOf(kept)) == Some(now) && !alg.stuck(now)
    requires alg.apply(now, e.change) == Some(next)
    requires kept != [] && Cancels(kept[|kept| - 1].kind, e.kind) ==> e.change == alg.revert(kept[|kept| - 1].change)
    ensures ApplyAll(alg, s, ChangesOf(CancelStep(kept, e))) == Some(next)
  {
    if kept != [] && Cancels(kept[|kept| - 1].kind, e.kind) {
      PopLeads(alg, s, kept, now, next, e);
    } else {
      ChangesOfSnoc(kept, e);
      ApplyAllSnoc(alg, s, ChangesOf(kept), e.change);
    }
  }

  lemma {:induction false} ChangesOfSnoc<C>(es: seq<Entry<C>>, e: Entry<C>)
    ensures ChangesOf(es + [e]) == ChangesOf(es) + [e.change]
    decreases |es|
  {
    if es == [] {
      assert [] + [e] == [e] && [e][1..] == [];
    } else {
      assert (es + [e])[1..] == es[1..] + [e];
      ChangesOfSnoc(es[1..], e);
    }
  }

  lemma PopLeads<S(!new), C(!new)>(alg: Algebra<S, C>, s: S, kept: seq<Entry<C>>, now: S, next: S, e: Entry<C>)
    requires Reverting(alg) && kept != [] && ApplyAll(alg, s, ChangesOf(kept)) == Some(now) && !alg.stuck(now)
    requires alg.apply(now, e.change) == Some(next) && e.change == alg.revert(kept[|kept| - 1].change)
    ensures ApplyAll(alg, s, ChangesOf(Popped(kept))) == Some(next)
  {
    var last := kept[|kept| - 1];
    assert kept == Popped(kept) + [last];
    ChangesOfSnoc(Popped(kept), last);
    ApplyAllConcat(alg, s, ChangesOf(Popped(kept)), [last.change]);
    var t := ApplyAll(alg, s, ChangesOf(Popped(kept)));
    if t.Some? {
      ApplyAllOne(alg, t.value, last.change);
    }
  }

  /** The entry that undo or redo picks. */
  function Found<C>(es: seq<Entry<C>>, a: Action<C>): (r: Option<nat>)
    ensures r.Some? ==> r.value < |es|
  {
    match a
    case Edit(_) => None
    case UndoIt => UndoScan(es, |es|, 0)
    case RedoIt => RedoScan(es, |es|, 0)
  }

  /** The action leaves the document as it was before entry j, followed by what came later. */
  predicate TakesBack<S(==), C>(alg: Algebra<S, C>, h: History<S, C>, a: Action<C>, trace: seq<S>, j: nat)
    requires j < |h.entries| && j < |trace|
  {
    var rest := ChangesOf(Cancelled(h.entries, j + 1, |h.entries|));
    var h' := Act(alg, h, a);
    && h'.Some?
    && Some(h'.value.doc) == ApplyAll(alg, trace[j], Ascend(alg, alg.revert(h.entries[j].change), rest).list)
  }

  /** What simplify keeps of the later entries leads from the document after entry j to the current one. */
  predicate KeptLeads<S(==), C>(alg: Algebra<S, C>, h: History<S, C>, trace: seq<S>, j: nat)
    requires j < |h.entries| && |trace| == |h.entries| + 1
  {
    ApplyAll(alg, trace[j + 1], ChangesOf(Cancelled(h.entries, j + 1, |h.entries|))) == Some(h.doc)
  }

  lemma PickedAdds<S, C>(alg: Algebra<S, C>, es: seq<Entry<C>>, a: Action<C>, j: nat)
    requires Found(es, a) == Some(j)
    ensures var kept := ChangesOf(Cancelled(es, j + 1, |es|));
            Added(alg, es, a) == Some(Entry(if a.UndoIt? then Undone else Redone,
                                            Ascend(alg, alg.revert(es[j].change), kept).last))
  {
  }

  /** Then undo and redo apply, and the document becomes what it was before the entry picked, followed by the
      later changes in the form they have without it. */
  lemma KeptTakesBack<S(!new), C(!new)>(alg: Algebra<S, C>, h: History<S, C>, a: Action<C>, trace: seq<S>, j: nat)
    requires Convergent(alg) && Reverting(alg) && LiveTrace(alg, h, trace)
    requires Found(h.entries, a) == Some(j) && KeptLeads(alg, h, trace, j)
    ensures TakesBack(alg, h, a, trace, j)
  {
    PickedAdds(alg, h.entries, a, j);
    PickedCloses(alg, h, trace, j);
  }

  /** The row that the program computes, on the documents that the kept entries lead through. */
  lemma PickedCloses<S(!new), C(!new)>(alg: Algebra<S, C>, h: History<S, C>, trace: seq<S>, j: nat)
    requires Convergent(alg) && Reverting(alg) && LiveTrace(alg, h, trace) && j < |h.entries|
    requires ApplyAll(alg, trace[j + 1], ChangesOf(Cancelled(h.entries, j + 1, |h.entries|))).Some?
    ensures var kept := ChangesOf(Cancelled(h.entries, j + 1, |h.entries|));
            var row := Ascend(alg, alg.revert(h.entries[j].change), kept);
            var t := ApplyAll(alg, trace[j + 1], kept).value;
            alg.apply(t, row.last).Some? && alg.apply(t, row.last) == ApplyAll(alg, trace[j], row.list)
  {
    assert LeadsOn(alg, h, trace, j) && (j + 1 < |h.entries| ==> LeadsOn(alg, h, trace, j + 1));
    AscendCloses(alg, trace[j + 1], alg.revert(h.entries[j].change),
                 ChangesOf(Cancelled(h.entries, j + 1, |h.entries|)));
  }

  /** What simplify keeps applies after entry j, and the action takes that entry back. */
  predicate Works<S(==), C>(alg: Algebra<S, C>, h: History<S, C>, a: Action<C>, trace: seq<S>, j: nat)
    requires j < |h.entries| && |trace| == |h.entries| + 1
  {
    && ApplyAll(alg, trace[j + 1], ChangesOf(Cancelled(h.entries, j + 1, |h.entries|))).Some?
    && TakesBack(alg, h, a, trace, j)
  }

  /** Undo or redo can only work if it is applied where the kept entries lead: reverting it leads back both there
      and to the document. */
  lemma WorksLeads<S(!new), C(!new)>(alg: Algebra<S, C>, h: History<S, C>, a: Action<C>, trace: seq<S>, j: nat)
    requires Convergent(alg) && Reverting(alg) && LiveTrace(alg, h, trace) && Found(h.entries, a) == Some(j)
    requires Works(alg, h, a, trace, j) && !alg.stuck(Act(alg, h, a).value.doc)
    ensures KeptLeads(alg, h, trace, j)
  {
    var kept := ChangesOf(Cancelled(h.entries, j + 1, |h.entries|));
    var t, c := ApplyAll(alg, trace[j + 1], kept).value, Ascend(alg, alg.revert(h.entries[j].change), kept).last;
    PickedAdds(alg, h.entries, a, j);
    PickedCloses(alg, h, trace, j);
    assert alg.apply(h.doc, c) == alg.apply(t, c);
    assert alg.apply(alg.apply(t, c).value, alg.revert(c)) == Some(t);
  }

  /** Exactly when undo and redo work: what simplify keeps leads from the document after the entry picked to the
      current one. */
  lemma UndoExactly<S(!new), C(!new)>(alg: Algebra<S, C>, h: History<S, C>, a: Action<C>, trace: seq<S>, j: nat)
    requires Convergent(alg) && Reverting(alg) && LiveTrace(alg, h, trace) && Found(h.entries, a) == Some(j)
    requires Act(alg, h, a).Some? ==> !alg.stuck(Act(alg, h, a).value.doc)
    ensures Works(alg, h, a, trace, j) <==> KeptLeads(alg, h, trace, j)
  {
    if KeptLeads(alg, h, trace, j) {
      KeptTakesBack(alg, h, a, trace, j);
    } else if Works(alg, h, a, trace, j) {
      WorksLeads(alg, h, a, trace, j);
    }
  }

  /** With clean pairs undo and redo work, whatever arrived since. */
  lemma UndoRemoves<S(!new), C(!new)>(alg: Algebra<S, C>, h: History<S, C>, a: Action<C>, trace: seq<S>, j: nat)
    requires Convergent(alg) && Reverting(alg) && LiveTrace(alg, h, trace)
    requires Found(h.entries, a) == Some(j) && Clean(alg, h.entries, j + 1)
    ensures KeptLeads(alg, h, trace, j) && Works(alg, h, a, trace, j)
  {
    CancelledLeads(alg, h, trace, j + 1, |h.entries|);
    KeptTakesBack(alg, h, a, trace, j);
  }

  // ----- which pairs are clean -----

  /** The entries from a to b are edits or redos, and undos, that pair up like brackets. */
  ghost predicate Balanced<C>(es: seq<Entry<C>>, a: nat, b: nat)
    requires b <= |es|
    decreases b
  {
    a == b || (a < b && es[b - 1].kind.Undone? && exists m: nat :: PairedFrom(es, a, m, b))
  }

  ghost predicate PairedFrom<C>(es: seq<Entry<C>>, a: nat, m: nat, b: nat)
    requires b <= |es|
    decreases b, 0
  {
    a <= m < b - 1 && es[m].kind.Pushes() && Balanced(es, m + 1, b - 1) && Balanced(es, a, m)
  }

  lemma BalancedPair<C>(es: seq<Entry<C>>, a: nat, m: nat, b: nat)
    requires b <= |es| && a <= m < b - 1 && es[m].kind.Pushes() && es[b - 1].kind.Undone?
    requires Balanced(es, m + 1, b - 1) && Balanced(es, a, m)
    ensures Balanced(es, a, b)
  {
    assert PairedFrom(es, a, m, b);
  }

  /** The undo scan passes over them. */
  lemma {:induction false} ScanPasses<C>(es: seq<Entry<C>>, a: nat, b: nat, skip: nat)
    requires b <= |es| && Balanced(es, a, b)
    ensures UndoScan(es, b, skip) == UndoScan(es, a, skip)
    decreases b
  {
    if a < b {
      var m: nat :| PairedFrom(es, a, m, b);
      ScanPasses(es, m + 1, b - 1, skip + 1);
      ScanPasses(es, a, m, skip);
    }
  }

  predicate EndsInPush<C>(es: seq<Entry<C>>) { es != [] && es[|es| - 1].kind.Pushes() }

  predicate EndsInUndone<C>(es: seq<Entry<C>>) { es != [] && es[|es| - 1].kind.Undone? }

  /** An edit, or a redo that is not dropped, is kept. */
  lemma CancelPush<C>(es: seq<Entry<C>>, lo: nat, m: nat)
    requires lo <= m < |es| && es[m].kind.Pushes() && !EndsInUndone(Cancelled(es, lo, m))
    ensures Cancelled(es, lo, m + 1) == Cancelled(es, lo, m) + [es[m]] && !EndsInUndone(Cancelled(es, lo, m + 1))
  {
  }

  lemma CancelUndone<C>(es: seq<Entry<C>>, lo: nat, n: nat, kept: seq<Entry<C>>, e: Entry<C>)
    requires lo < n <= |es| && es[n - 1].kind.Undone? && Cancelled(es, lo, n - 1) == kept + [e] && e.kind.Pushes()
    ensures Cancelled(es, lo, n) == kept
  {
    assert Popped(kept + [e]) == kept;
  }

  /** simplify leaves them out. */
  lemma {:induction false} CancelPasses<C>(es: seq<Entry<C>>, lo: nat, a: nat, b: nat)
    requires lo <= a <= b <= |es| && Balanced(es, a, b) && !EndsInUndone(Cancelled(es, lo, a))
    ensures Cancelled(es, lo, b) == Cancelled(es, lo, a)
    decreases b
  {
    if a < b {
      var m: nat :| PairedFrom(es, a, m, b);
      CancelPair(es, lo, a, m, b);
    }
  }

  lemma {:induction false} CancelPair<C>(es: seq<Entry<C>>, lo: nat, a: nat, m: nat, b: nat)
    requires lo <= a <= m < b - 1 < |es| && PairedFrom(es, a, m, b) && es[b - 1].kind.Undone?
    requires !EndsInUndone(Cancelled(es, lo, a))
    ensures Cancelled(es, lo, b) == Cancelled(es, lo, a)
    decreases b, 0
  {
    CancelPasses(es, lo, a, m);
    CancelPush(es, lo, m);
    CancelPasses(es, lo, m + 1, b - 1);
    CancelUndone(es, lo, b, Cancelled(es, lo, a), es[m]);
  }

  /** Entry j is kept when it arrives. */
  predicate KeptAt<C(==)>(es: seq<Entry<C>>, lo: nat, j: nat)
    requires lo <= j < |es|
  {
    es[j].kind.Pushes() && Cancelled(es, lo, j + 1) == Cancelled(es, lo, j) + [es[j]]
  }

  /** If only pairs follow it, it is the last one kept. */
  lemma KeptLast<C>(es: seq<Entry<C>>, lo: nat, j: nat, n: nat)
    requires lo <= j < n <= |es| && KeptAt(es, lo, j) && Balanced(es, j + 1, n)
    ensures Cancelled(es, lo, n) == Cancelled(es, lo, j) + [es[j]]
  {
    CancelPasses(es, lo, j + 1, n);
  }

  /** What is kept never has an undone entry right after an edit or a redo. */
  predicate Apart<C>(es: seq<Entry<C>>) {
    |es| > 1 ==> Apart(es[..|es| - 1]) && !(es[|es| - 2].kind.Pushes() && es[|es| - 1].kind.Undone?)
  }

  lemma {:induction false} CancelledApart<C>(es: seq<Entry<C>>, lo: nat, n: nat)
    requires n <= |es|
    ensures Apart(Cancelled(es, lo, n))
    decreases n
  {
    if lo < n {
      CancelledApart(es, lo, n - 1);
      ApartStep(Cancelled(es, lo, n - 1), es[n - 1]);
    }
  }

  lemma ApartStep<C>(kept: seq<Entry<C>>, e: Entry<C>)
    requires Apart(kept)
    ensures Apart(CancelStep(kept, e))
  {
    assert (kept + [e])[..|kept|] == kept;
  }

  /** If the last entry kept is an edit or a redo, only pairs have followed it. */
  lemma {:induction false} LastKept<C>(es: seq<Entry<C>>, lo: nat, n: nat) returns (j: nat)
    requires n <= |es| && EndsInPush(Cancelled(es, lo, n))
    ensures lo <= j < n && KeptAt(es, lo, j) && Balanced(es, j + 1, n)
    decreases n
  {
    var before := Cancelled(es, lo, n - 1);
    j := n - 1;
    if before != [] && Cancels(before[|before| - 1].kind, es[n - 1].kind) {
      CancelledApart(es, lo, n - 1);
      var i := LastKept(es, lo, n - 1);
      KeptLast(es, lo, i, n - 1);
      CancelUndone(es, lo, n, Cancelled(es, lo, i), es[i]);
      j := LastKept(es, lo, i);
      BalancedPair(es, j + 1, i, n);
    }
  }

  /** That entry is the one undo picks, and then nothing is left above it. */
  lemma PicksLastKept<C>(es: seq<Entry<C>>, lo: nat, n: nat) returns (j: nat)
    requires n <= |es| && EndsInPush(Cancelled(es, lo, n))
    ensures lo <= j < n && Cancelled(es, lo, n) == Cancelled(es, lo, j) + [es[j]]
    ensures UndoScan(es, n, 0) == Some(j) && |Cancelled(es, j + 1, n)| == 0
  {
    j := LastKept(es, lo, n);
    KeptLast(es, lo, j, n);
    ScanPasses(es, j + 1, n, 0);
    CancelPasses(es, j + 1, j + 1, n);
  }

  /** A redo that simplify drops together with an undone entry: it is that entry which redo picked. */
  predicate AlignedAt<C(==)>(es: seq<Entry<C>>, lo: nat, n: nat)
    requires lo < n <= |es|
  {
    var kept, r := Cancelled(es, lo, n - 1), RedoScan(es, n - 1, 0);
    es[n - 1].kind.Redone? && EndsInUndone(kept) ==>
      r.Some? && lo <= r.value && kept == Cancelled(es, lo, r.value) + [es[r.value]]
      && |Cancelled(es, r.value + 1, n - 1)| == 0
  }

  ghost predicate Aligned<C>(es: seq<Entry<C>>, lo: nat) {
    forall n: nat {:trigger AlignedAt(es, lo, n)} :: lo < n <= |es| ==> AlignedAt(es, lo, n)
  }

  /** Each undone or redone entry was made by undo or redo from the entries before it. */
  ghost predicate MadeAt<S, C>(alg: Algebra<S, C>, es: seq<Entry<C>>, i: nat)
    requires i < |es|
  {
    && (es[i].kind.Undone? ==> Added(alg, es[..i], UndoIt) == Some(es[i]))
    && (es[i].kind.Redone? ==> Added(alg, es[..i], RedoIt) == Some(es[i]))
  }

  ghost predicate Made<S, C>(alg: Algebra<S, C>, es: seq<Entry<C>>) {
    forall i: nat {:trigger MadeAt(alg, es, i)} :: i < |es| ==> MadeAt(alg, es, i)
  }

  lemma {:induction false} UndoScanPrefix<C>(es: seq<Entry<C>>, i: nat, n: nat, skip: nat)
    requires n <= i <= |es|
    ensures UndoScan(es[..i], n, skip) == UndoScan(es, n, skip)
    decreases n
  {
    if n > 0 {
      match es[n - 1].kind
      case Upstream => UndoScanPrefix(es, i, n - 1, skip);
      case Undone => UndoScanPrefix(es, i, n - 1, skip + 1);
      case _ => if skip > 0 { UndoScanPrefix(es, i, n - 1, skip - 1); }
    }
  }

  lemma {:induction false} RedoScanPrefix<C>(es: seq<Entry<C>>, i: nat, n: nat, skip: nat)
    requires n <= i <= |es|
    ensures RedoScan(es[..i], n, skip) == RedoScan(es, n, skip)
    decreases n
  {
    if n > 0 {
      match es[n - 1].kind
      case Upstream => RedoScanPrefix(es, i, n - 1, skip);
      case Redone => RedoScanPrefix(es, i, n - 1, skip + 1);
      case Local =>
      case Undone => if skip > 0 { RedoScanPrefix(es, i, n - 1, skip - 1); }
    }
  }

  lemma {:induction false} CancelledPrefix<C>(es: seq<Entry<C>>, i: nat, lo: nat, n: nat)
    requires n <= i <= |es|
    ensures Cancelled(es[..i], lo, n) == Cancelled(es, lo, n)
    decreases n
  {
    if lo < n {
      CancelledPrefix(es, i, lo, n - 1);
    }
  }

  /** With nothing left above the entry picked, undo or redo adds its plain revert. */
  lemma PlainRevert<S, C>(alg: Algebra<S, C>, es: seq<Entry<C>>, n: nat, j: nat, a: Action<C>)
    requires n <= |es| && j < n && !a.Edit? && |Cancelled(es, j + 1, n)| == 0
    requires (if a.UndoIt? then UndoScan(es, n, 0) else RedoScan(es, n, 0)) == Some(j)
    ensures Added(alg, es[..n], a) == Some(Entry(if a.UndoIt? then Undone else Redone, alg.revert(es[j].change)))
  {
    UndoScanPrefix(es, n, n, 0);
    RedoScanPrefix(es, n, n, 0);
    CancelledPrefix(es, n, j + 1, n);
    AddsRevert(alg, es[..n], j, a);
  }

  lemma AddsRevert<S, C>(alg: Algebra<S, C>, es: seq<Entry<C>>, j: nat, a: Action<C>)
    requires j < |es| && !a.Edit? && |Cancelled(es, j + 1, |es|)| == 0
    requires (if a.UndoIt? then UndoScan(es, |es|, 0) else RedoScan(es, |es|, 0)) == Some(j)
    ensures Added(alg, es, a) == Some(Entry(if a.UndoIt? then Undone else Redone, alg.revert(es[j].change)))
  {
    TakesBackReverted(alg, es, Some(j), if a.UndoIt? then Undone else Redone);
  }

  /** An undone entry that simplify drops is always the revert of the one it is dropped with. */
  lemma UndoneClean<S, C>(alg: Algebra<S, C>, es: seq<Entry<C>>, lo: nat, n: nat)
    requires Made(alg, es) && n < |es| && es[n].kind.Undone? && EndsInPush(Cancelled(es, lo, n))
    ensures var kept := Cancelled(es, lo, n); es[n].change == alg.revert(kept[|kept| - 1].change)
  {
    var j := PicksLastKept(es, lo, n);
    PlainRevert(alg, es, n, j, UndoIt);
    assert MadeAt(alg, es, n);
  }

  /** So is a redone one, if it is aligned. */
  lemma RedoneClean<S, C>(alg: Algebra<S, C>, es: seq<Entry<C>>, lo: nat, n: nat)
    requires Made(alg, es) && lo <= n < |es| && es[n].kind.Redone? && EndsInUndone(Cancelled(es, lo, n))
    requires AlignedAt(es, lo, n + 1)
    ensures var kept := Cancelled(es, lo, n); es[n].change == alg.revert(kept[|kept| - 1].change)
  {
    PlainRevert(alg, es, n, RedoScan(es, n, 0).value, RedoIt);
    assert MadeAt(alg, es, n);
  }

  lemma AlignedClean<S, C>(alg: Algebra<S, C>, es: seq<Entry<C>>, lo: nat)
    requires Made(alg, es) && Aligned(es, lo)
    ensures Clean(alg, es, lo)
  {
    forall n: nat | lo < n <= |es| ensures CleanAt(alg, es, lo, n) {
      assert AlignedAt(es, lo, n);
      var kept, e := Cancelled(es, lo, n - 1), es[n - 1];
      if kept != [] && Cancels(kept[|kept| - 1].kind, e.kind) {
        if e.kind.Undone? {
          UndoneClean(alg, es, lo, n - 1);
        } else {
          RedoneClean(alg, es, lo, n - 1);
        }
      }
    }
  }

  /** Without redo everything is aligned. */
  lemma NoRedoAligned<C>(es: seq<Entry<C>>, lo: nat)
    requires forall i :: 0 <= i < |es| ==> !es[i].kind.Redone?
    ensures Aligned(es, lo)
  {
    forall n: nat | lo < n <= |es| ensures AlignedAt(es, lo, n) {
      assert !es[n - 1].kind.Redone?;
    }
  }

  // ----- whole histories -----

  lemma MadeSnoc<S, C>(alg: Algebra<S, C>, es: seq<Entry<C>>, e: Entry<C>)
    requires Made(alg, es) && (e.kind.Undone? ==> Added(alg, es, UndoIt) == Some(e))
    requires e.kind.Redone? ==> Added(alg, es, RedoIt) == Some(e)
    ensures Made(alg, es + [e])
  {
    var longer := es + [e];
    forall i: nat | i < |longer| ensures MadeAt(alg, longer, i) {
      assert longer[..i] == es[..i];
      assert es[..|es|] == es;
      assert i < |es| ==> MadeAt(alg, es, i);
    }
  }

  /** No document on the way is stuck. */
  predicate NeverStuck<S, C>(alg: Algebra<S, C>, h: History<S, C>, events: seq<Event<C>>)
    decreases |events|
  {
    && !alg.stuck(h.doc)
    && (events != [] ==> var h' := Happen(alg, h, events[0]); h'.Some? ==> NeverStuck(alg, h'.value, events[1..]))
  }

  /** The entry that an event adds; None if it adds none. */
  function Adding<S, C>(alg: Algebra<S, C>, es: seq<Entry<C>>, ev: Event<C>): Option<Entry<C>> {
    match ev
    case Mine(a) => Added(alg, es, a)
    case Theirs(c) => Some(Entry(Upstream, c))
  }

  lemma HappenMade<S, C>(alg: Algebra<S, C>, h: History<S, C>, ev: Event<C>)
    requires Made(alg, h.entries) && Happen(alg, h, ev).Some?
    ensures Made(alg, Happen(alg, h, ev).value.entries)
  {
    var e := Adding(alg, h.entries, ev);
    if e.Some? {
      MadeSnoc(alg, h.entries, e.value);
    }
  }

  lemma {:induction false} AllMade<S, C>(alg: Algebra<S, C>, h: History<S, C>, events: seq<Event<C>>)
    requires Made(alg, h.entries) && HappenAll(alg, h, events).Some?
    ensures Made(alg, HappenAll(alg, h, events).value.entries)
    decreases |events|
  {
    if events != [] {
      HappenMade(alg, h, events[0]);
      AllMade(alg, Happen(alg, h, events[0]).value, events[1..]);
    }
  }

  lemma HappenTraced<S(!new), C(!new)>(alg: Algebra<S, C>, h: History<S, C>, trace: seq<S>, ev: Event<C>)
    returns (trace': seq<S>)
    requires NilIdle(alg) && LiveTrace(alg, h, trace)
    requires Happen(alg, h, ev).Some? && !alg.stuck(Happen(alg, h, ev).value.doc)
    ensures LiveTrace(alg, Happen(alg, h, ev).value, trace')
  {
    trace' := trace;
    var e := Adding(alg, h.entries, ev);
    if e.Some? && !alg.isNil(e.value.change) {
      var doc := alg.apply(h.doc, e.value.change).value;
      LiveTraceSnoc(alg, h, trace, e.value, doc);
      trace' := trace + [doc];
    }
  }

  lemma {:induction false} AllTraced<S(!new), C(!new)>(alg: Algebra<S, C>, h: History<S, C>, trace: seq<S>,
                                                       events: seq<Event<C>>)
    returns (trace': seq<S>)
    requires NilIdle(alg) && LiveTrace(alg, h, trace)
    requires NeverStuck(alg, h, events) && HappenAll(alg, h, events).Some?
    ensures LiveTrace(alg, HappenAll(alg, h, events).value, trace')
    decreases |events|
  {
    trace' := trace;
    if events != [] {
      trace' := HappenTraced(alg, h, trace, events[0]);
      trace' := AllTraced(alg, Happen(alg, h, events[0]).value, trace', events[1..]);
    }
  }

  /** If undo or redo finds an entry, it works exactly if what simplify keeps leads to the document; and it does
      work if every redo dropped is aligned. */
  ghost predicate WorksExactly<S, C>(alg: Algebra<S, C>, h: History<S, C>, a: Action<C>, trace: seq<S>, j: nat)
    requires LiveTrace(alg, h, trace) && j < |h.entries|
  {
    var h' := Act(alg, h, a);
    && ((h'.Some? ==> !alg.stuck(h'.value.doc)) ==>
          (Works(alg, h, a, trace, j) <==> KeptLeads(alg, h, trace, j)))
    && (Aligned(h.entries, j + 1) ==> Works(alg, h, a, trace, j))
  }

  lemma FoundWorks<S(!new), C(!new)>(alg: Algebra<S, C>, h: History<S, C>, a: Action<C>, trace: seq<S>, j: nat)
    requires Convergent(alg) && Reverting(alg) && Made(alg, h.entries) && LiveTrace(alg, h, trace)
    requires Found(h.entries, a) == Some(j)
    ensures WorksExactly(alg, h, a, trace, j)
  {
    var h' := Act(alg, h, a);
    if h'.Some? ==> !alg.stuck(h'.value.doc) {
      UndoExactly(alg, h, a, trace, j);
    }
    if Aligned(h.entries, j + 1) {
      AlignedWorks(alg, h, a, trace, j);
    }
  }

  lemma AlignedWorks<S(!new), C(!new)>(alg: Algebra<S, C>, h: History<S, C>, a: Action<C>, trace: seq<S>, j: nat)
    requires Convergent(alg) && Reverting(alg) && Made(alg, h.entries) && LiveTrace(alg, h, trace)
    requires Found(h.entries, a) == Some(j) && Aligned(h.entries, j + 1)
    ensures Works(alg, h, a, trace, j)
  {
    AlignedClean(alg, h.entries, j + 1);
    UndoRemoves(alg, h, a, trace, j);
  }

  lemma TraceOf<S(!new), C(!new)>(alg: Algebra<S, C>, init: S, events: seq<Event<C>>, h: History<S, C>)
    returns (trace: seq<S>)
    requires NilIdle(alg) && HappenAll(alg, History([], init), events) == Some(h)
    requires NeverStuck(alg, History([], init), events)
    ensures Made(alg, h.entries) && LiveTrace(alg, h, trace)
  {
    AllMade(alg, History([], init), events);
    trace := AllTraced(alg, History([], init), [init], events);
  }

  /** In every history of edits, undos, redos and upstream changes in any order: undo and redo, if they find an
      entry, leave the document as it was before that entry, followed by what came later, exactly if what simplify
      keeps leads to the document; in particular if every redo that simplify drops is aligned. */
  lemma UndoTakesBack<S(!new), C(!new)>(alg: Algebra<S, C>, init: S, events: seq<Event<C>>, h: History<S, C>,
                                        a: Action<C>)
    returns (trace: seq<S>)
    requires Convergent(alg) && Reverting(alg) && NilIdle(alg)
    requires HappenAll(alg, History([], init), events) == Some(h) && NeverStuck(alg, History([], init), events)
    ensures LiveTrace(alg, h, trace)
    ensures var found := Found(h.entries, a); found.Some? ==> WorksExactly(alg, h, a, trace, found.value)
  {
    trace := TraceOf(alg, init, events, h);
    var found := Found(h.entries, a);
    if found.Some? {
      FoundWorks(alg, h, a, trace, found.value);
    }
  }

  // ----- the two stacks -----

  /** Whatever arrives in between, the entries are those of an editor with two stacks. */
  lemma {:induction false} MadeTracks<S, C>(alg: Algebra<S, C>, es: seq<Entry<C>>, n: nat)
    requires Made(alg, es) && n <= |es|
    ensures Track(es, n).Some?
    decreases n
  {
    if n > 0 {
      MadeTracks(alg, es, n - 1);
      assert MadeAt(alg, es, n - 1);
      UndoScanPrefix(es, n - 1, n - 1, 0);
      RedoScanPrefix(es, n - 1, n - 1, 0);
      UndoFindsTop(es, n - 1, 0);
      RedoFindsTop(es, n - 1, 0);
    }
  }

  /** In every such history undo and redo pick the tops of these stacks, and find nothing exactly if the stack
      is empty. */
  lemma PicksTops<S, C>(alg: Algebra<S, C>, init: S, events: seq<Event<C>>, h: History<S, C>)
    requires HappenAll(alg, History([], init), events) == Some(h)
    ensures var st := Track(h.entries, |h.entries|);
            && st.Some? && Found(h.entries, UndoIt) == TopOf(st.value.undo)
            && Found(h.entries, RedoIt) == TopOf(st.value.redo)
  {
    AllMade(alg, History([], init), events);
    MadeTracks(alg, h.entries, |h.entries|);
    UndoFindsTop(h.entries, |h.entries|, 0);
    RedoFindsTop(h.entries, |h.entries|, 0);
  }
}

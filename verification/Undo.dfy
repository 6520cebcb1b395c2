/** The undo stack (streams/undo/stack.go): one list of typed changes, from which the change to undo or
    redo is found by a backward scan, behaves like an editor with two stacks. */
module Undo {
  import opened Options
  import opened Algebras

  datatype Kind = Local | Upstream | Undone | Redone {
    /** Entries that undo can take back. */
    predicate Pushes() { Local? || Redone? }
  }

  datatype Entry<C> = Entry(kind: Kind, change: C)

  // ----- picking the entry -----

  /** getUndoChange: the entry to undo, scanning backwards from entry n. */
  function UndoScan<C>(es: seq<Entry<C>>, n: nat, skip: nat): (r: Option<nat>)
    requires n <= |es|
    ensures r.Some? ==> r.value < n
  {
    if n == 0 then None
    else
      match es[n - 1].kind
      case Upstream => UndoScan(es, n - 1, skip)
      case Undone => UndoScan(es, n - 1, skip + 1)
      case _ => if skip == 0 then Some(n - 1) else UndoScan(es, n - 1, skip - 1)
  }

  /** getRedoChange: a local entry ends the search. */
  function RedoScan<C>(es: seq<Entry<C>>, n: nat, skip: nat): (r: Option<nat>)
    requires n <= |es|
    ensures r.Some? ==> r.value < n
  {
    if n == 0 then None
    else
      match es[n - 1].kind
      case Upstream => RedoScan(es, n - 1, skip)
      case Redone => RedoScan(es, n - 1, skip + 1)
      case Local => None
      case Undone => if skip == 0 then Some(n - 1) else RedoScan(es, n - 1, skip - 1)
  }

  /** The two stacks of an ordinary editor, holding positions in the list. */
  datatype Stacks = Stacks(undo: seq<nat>, redo: seq<nat>)

  function Popped<T>(s: seq<T>): seq<T>
    requires s != []
  {
    s[..|s| - 1]
  }

  /** The stacks after the first n entries; None if an entry undoes or redoes when nothing is there. */
  function Track<C>(es: seq<Entry<C>>, n: nat): Option<Stacks>
    requires n <= |es|
  {
    if n == 0 then Some(Stacks([], []))
    else
      var st :- Track(es, n - 1);
      StackStep(st, es[n - 1].kind, n - 1)
  }

  function StackStep(st: Stacks, kind: Kind, i: nat): Option<Stacks> {
    match kind
    case Upstream => Some(st)
    case Local => Some(Stacks(st.undo + [i], []))
    case Undone => if st.undo == [] then None else Some(Stacks(Popped(st.undo), st.redo + [i]))
    case Redone => if st.redo == [] then None else Some(Stacks(st.undo + [i], Popped(st.redo)))
  }

  /** The k-th element from the top. */
  function FromTop(stack: seq<nat>, k: nat): Option<nat> {
    if k < |stack| then Some(stack[|stack| - 1 - k]) else None
  }

  lemma FromTopPush(stack: seq<nat>, i: nat, k: nat)
    ensures FromTop(stack + [i], k) == if k == 0 then Some(i) else FromTop(stack, k - 1)
  {
  }

  lemma FromTopPop(stack: seq<nat>, k: nat)
    requires stack != []
    ensures FromTop(Popped(stack), k) == FromTop(stack, k + 1)
  {
  }

  /** For all entries that the two stacks accept, upstream ones included, undo and redo pick the top of their
      stack, and each is offered exactly when its stack is not empty. */
  lemma {:induction false} UndoFindsTop<C>(es: seq<Entry<C>>, n: nat, k: nat)
    requires n <= |es| && Track(es, n).Some?
    ensures UndoScan(es, n, k) == FromTop(Track(es, n).value.undo, k)
  {
    if n > 0 {
      var st := Track(es, n - 1).value;
      match es[n - 1].kind
      case Upstream => UndoFindsTop(es, n - 1, k);
      case Undone => UndoFindsTop(es, n - 1, k + 1); FromTopPop(st.undo, k);
      case _ =>
        FromTopPush(st.undo, n - 1, k);
        if k > 0 { UndoFindsTop(es, n - 1, k - 1); }
    }
  }

  lemma {:induction false} RedoFindsTop<C>(es: seq<Entry<C>>, n: nat, k: nat)
    requires n <= |es| && Track(es, n).Some?
    ensures RedoScan(es, n, k) == FromTop(Track(es, n).value.redo, k)
  {
    if n > 0 {
      var st := Track(es, n - 1).value;
      match es[n - 1].kind
      case Upstream => RedoFindsTop(es, n - 1, k);
      case Redone => RedoFindsTop(es, n - 1, k + 1); FromTopPop(st.redo, k);
      case Local =>
      case Undone =>
        FromTopPush(st.redo, n - 1, k);
        if k > 0 { RedoFindsTop(es, n - 1, k - 1); }
    }
  }

  // ----- cancelling undo and redo pairs -----

  /** simplify, one entry at a time. */
  function CancelStep<C>(result: seq<Entry<C>>, e: Entry<C>): seq<Entry<C>> {
    if result != [] && Cancels(result[|result| - 1].kind, e.kind) then Popped(result) else result + [e]
  }

  predicate Cancels(last: Kind, next: Kind) {
    (last.Pushes() && next.Undone?) || (last.Undone? && next.Redone?)
  }

  /** simplify on the entries lo to hi. */
  function Cancelled<C>(es: seq<Entry<C>>, lo: nat, hi: nat): seq<Entry<C>>
    requires hi <= |es|
  {
    if hi <= lo then [] else CancelStep(Cancelled(es, lo, hi - 1), es[hi - 1])
  }

  predicate NoUpstream<C>(es: seq<Entry<C>>) { forall i :: 0 <= i < |es| ==> !es[i].kind.Upstream? }

  /** What is left of the entries after j once pairs are cancelled: k entries, all of the kind that the
      undo stack (or the redo stack) holds. */
  predicate Left<C>(es: seq<Entry<C>>, j: nat, n: nat, k: nat, undo: bool)
    requires n <= |es|
  {
    var rest := Cancelled(es, j + 1, n);
    |rest| == k && forall i :: 0 <= i < k ==> if undo then rest[i].kind.Pushes() else rest[i].kind.Undone?
  }

  lemma LeftPush<C>(es: seq<Entry<C>>, j: nat, n: nat, k: nat, undo: bool)
    requires j + 1 < n <= |es| && k > 0 && Left(es, j, n - 1, k - 1, undo)
    requires if undo then es[n - 1].kind.Pushes() else es[n - 1].kind.Undone?
    ensures Left(es, j, n, k, undo)
  {
  }

  lemma LeftPop<C>(es: seq<Entry<C>>, j: nat, n: nat, k: nat, undo: bool)
    requires j + 1 < n <= |es| && Left(es, j, n - 1, k + 1, undo)
    requires if undo then es[n - 1].kind.Undone? else es[n - 1].kind.Redone?
    ensures Left(es, j, n, k, undo)
  {
  }

  /** Above the k-th entry from the top of the undo stack, cancelling leaves exactly k entries; so nothing
      is left above the top. */
  lemma {:induction false} NothingAboveUndo<C>(es: seq<Entry<C>>, n: nat, k: nat)
    requires n <= |es| && Track(es, n).Some? && NoUpstream(es) && k < |Track(es, n).value.undo|
    ensures var j := FromTop(Track(es, n).value.undo, k).value; j < n && Left(es, j, n, k, true)
  {
    assert !es[n - 1].kind.Upstream?;
    var st := Track(es, n - 1).value;
    if es[n - 1].kind.Undone? {
      NothingAboveUndo(es, n - 1, k + 1);
      FromTopPop(st.undo, k);
      LeftPop(es, FromTop(st.undo, k + 1).value, n, k, true);
    } else {
      FromTopPush(st.undo, n - 1, k);
      if k > 0 {
        NothingAboveUndo(es, n - 1, k - 1);
        LeftPush(es, FromTop(st.undo, k - 1).value, n, k, true);
      }
    }
  }

  /** The same for the redo stack. */
  lemma {:induction false} NothingAboveRedo<C>(es: seq<Entry<C>>, n: nat, k: nat)
    requires n <= |es| && Track(es, n).Some? && NoUpstream(es) && k < |Track(es, n).value.redo|
    ensures var j := FromTop(Track(es, n).value.redo, k).value; j < n && Left(es, j, n, k, false)
  {
    assert !es[n - 1].kind.Upstream?;
    var st := Track(es, n - 1).value;
    if es[n - 1].kind.Redone? {
      NothingAboveRedo(es, n - 1, k + 1);
      FromTopPop(st.redo, k);
      LeftPop(es, FromTop(st.redo, k + 1).value, n, k, false);
    } else {
      FromTopPush(st.redo, n - 1, k);
      if k > 0 {
        NothingAboveRedo(es, n - 1, k - 1);
        LeftPush(es, FromTop(st.redo, k - 1).value, n, k, false);
      }
    }
  }

  // ----- the document -----

  function ChangesOf<C>(es: seq<Entry<C>>): seq<C> {
    if es == [] then [] else [es[0].change] + ChangesOf(es[1..])
  }

  /** undoAt: the reverted change of entry j, carried past what came after it. */
  function UndoAt<S, C>(alg: Algebra<S, C>, es: seq<Entry<C>>, j: nat): C
    requires j < |es|
  {
    Ascend(alg, alg.revert(es[j].change), ChangesOf(Cancelled(es, j + 1, |es|))).last
  }

  /** What the user does. */
  datatype Action<C> = Edit(change: C) | UndoIt | RedoIt

  /** The recorded entries and the document. */
  datatype History<S, C> = History(entries: seq<Entry<C>>, doc: S)

  /** The entry that an action adds; None if undo or redo is not offered. */
  function Added<S, C>(alg: Algebra<S, C>, es: seq<Entry<C>>, a: Action<C>): Option<Entry<C>> {
    match a
    case Edit(c) => Some(Entry(Local, c))
    case UndoIt => TakeBack(alg, es, UndoScan(es, |es|, 0), Undone)
    case RedoIt => TakeBack(alg, es, RedoScan(es, |es|, 0), Redone)
  }

  function TakeBack<S, C>(alg: Algebra<S, C>, es: seq<Entry<C>>, found: Option<nat>, kind: Kind): Option<Entry<C>>
    requires found.Some? ==> found.value < |es|
  {
    if found.None? then None else Some(Entry(kind, UndoAt(alg, es, found.value)))
  }

  /** The change is appended to the document; unless it is nil it is recorded. None if it does not apply. */
  function Act<S, C>(alg: Algebra<S, C>, h: History<S, C>, a: Action<C>): Option<History<S, C>> {
    match Added(alg, h.entries, a)
    case None => Some(h)
    case Some(e) =>
      var doc :- alg.apply(h.doc, e.change);
      Some(History(if alg.isNil(e.change) then h.entries else h.entries + [e], doc))
  }

  /** An ordinary editor keeps whole documents on its two stacks. */
  datatype Editor<S> = Editor(past: seq<S>, now: S, future: seq<S>)

  function EditorAct<S, C>(alg: Algebra<S, C>, ed: Editor<S>, a: Action<C>): Option<Editor<S>> {
    match a
    case Edit(c) =>
      var now :- alg.apply(ed.now, c);
      Some(Editor(ed.past + [ed.now], now, []))
    case UndoIt =>
      if ed.past == [] then Some(ed)
      else Some(Editor(Popped(ed.past), ed.past[|ed.past| - 1], ed.future + [ed.now]))
    case RedoIt =>
      if ed.future == [] then Some(ed)
      else Some(Editor(ed.past + [ed.now], ed.future[|ed.future| - 1], Popped(ed.future)))
  }

  /** The documents the entries went through. */
  predicate Traced<S(==), C>(alg: Algebra<S, C>, h: History<S, C>, trace: seq<S>) {
    && |trace| == |h.entries| + 1 && trace[|h.entries|] == h.doc
    && forall i :: 0 <= i < |h.entries| ==> alg.apply(trace[i], h.entries[i].change) == Some(trace[i + 1])
  }

  /** A stack of positions and a stack of documents match: each document is the one before its entry, and
      the one after that entry is the next document on the stack, or the current one. */
  predicate Matching<S(==)>(stack: seq<nat>, docs: seq<S>, trace: seq<S>, now: S) {
    && |stack| == |docs|
    && forall d {:trigger MatchesAt(stack, docs, trace, now, d)} ::
         0 <= d < |stack| ==> MatchesAt(stack, docs, trace, now, d)
  }

  predicate MatchesAt<S(==)>(stack: seq<nat>, docs: seq<S>, trace: seq<S>, now: S, d: nat)
    requires d < |stack| == |docs|
  {
    && stack[d] + 1 < |trace| && trace[stack[d]] == docs[d]
    && trace[stack[d] + 1] == if d + 1 < |docs| then docs[d + 1] else now
  }

  predicate InStep<S(==), C>(alg: Algebra<S, C>, h: History<S, C>, trace: seq<S>, ed: Editor<S>) {
    && Traced(alg, h, trace) && NoUpstream(h.entries) && ed.now == h.doc
    && var st := Track(h.entries, |h.entries|);
       && st.Some? && Matching(st.value.undo, ed.past, trace, h.doc) && Matching(st.value.redo, ed.future, trace, h.doc)
  }

  lemma MatchingPush<S>(stack: seq<nat>, docs: seq<S>, trace: seq<S>, now: S, next: S)
    requires Matching(stack, docs, trace, now) && |trace| > 0 && trace[|trace| - 1] == now
    ensures Matching(stack + [|trace| - 1], docs + [now], trace + [next], next)
  {
    var stack', docs', trace' := stack + [|trace| - 1], docs + [now], trace + [next];
    forall d | 0 <= d < |stack'| ensures MatchesAt(stack', docs', trace', next, d) {
      if d < |stack| {
        assert MatchesAt(stack, docs, trace, now, d);
      }
    }
  }

  lemma MatchingPop<S>(stack: seq<nat>, docs: seq<S>, trace: seq<S>, now: S, next: S)
    requires Matching(stack, docs, trace, now) && stack != [] && next == docs[|docs| - 1]
    ensures Matching(Popped(stack), Popped(docs), trace + [next], next)
  {
    forall d | 0 <= d < |stack| - 1 ensures MatchesAt(Popped(stack), Popped(docs), trace + [next], next, d) {
      assert MatchesAt(stack, docs, trace, now, d);
    }
  }

  lemma {:induction false} TrackPrefix<C>(es: seq<Entry<C>>, e: Entry<C>, n: nat)
    requires n <= |es|
    ensures Track(es + [e], n) == Track(es, n)
  {
    if n > 0 {
      TrackPrefix(es, e, n - 1);
    }
  }

  lemma TrackSnoc<C>(es: seq<Entry<C>>, e: Entry<C>, st: Stacks)
    requires Track(es, |es|) == Some(st)
    ensures Track(es + [e], |es| + 1) == StackStep(st, e.kind, |es|)
  {
    TrackPrefix(es, e, |es|);
  }

  lemma TracedSnoc<S, C>(alg: Algebra<S, C>, h: History<S, C>, trace: seq<S>, e: Entry<C>, doc: S)
    requires Traced(alg, h, trace) && alg.apply(h.doc, e.change) == Some(doc)
    ensures Traced(alg, History(h.entries + [e], doc), trace + [doc])
  {
  }

  /** The history and the editor after an action. */
  ghost predicate StaysInStep<S, C>(alg: Algebra<S, C>, h: History<S, C>, trace: seq<S>, ed: Editor<S>, a: Action<C>) {
    var h', ed' := Act(alg, h, a), EditorAct(alg, ed, a);
    && h'.Some? && ed'.Some?
    && InStep(alg, h'.value, if h'.value == h then trace else trace + [h'.value.doc], ed'.value)
  }

  lemma EditInStep<S, C>(alg: Algebra<S, C>, h: History<S, C>, trace: seq<S>, ed: Editor<S>, c: C)
    requires InStep(alg, h, trace, ed) && alg.apply(h.doc, c).Some? && !alg.isNil(c)
    ensures StaysInStep(alg, h, trace, ed, Edit(c))
  {
    var n, e, doc := |h.entries|, Entry(Local, c), alg.apply(h.doc, c).value;
    var st := Track(h.entries, n).value;
    TrackSnoc(h.entries, e, st);
    TracedSnoc(alg, h, trace, e, doc);
    MatchingPush(st.undo, ed.past, trace, h.doc, doc);
  }

  /** Reverting the entry on top of a stack brings back the document on top, and moves it across. */
  lemma TakenBack<S(!new), C(!new)>(alg: Algebra<S, C>, h: History<S, C>, trace: seq<S>, j: nat, e: Entry<C>,
                                    stack: seq<nat>, docs: seq<S>, other: seq<nat>, others: seq<S>)
    requires Reverting(alg) && Traced(alg, h, trace) && !alg.stuck(h.doc) && stack != []
    requires Matching(stack, docs, trace, h.doc) && Matching(other, others, trace, h.doc)
    requires j == stack[|stack| - 1] && j < |h.entries| && e.change == alg.revert(h.entries[j].change)
    ensures var n, doc := |h.entries|, docs[|docs| - 1];
            && alg.apply(h.doc, e.change) == Some(doc)
            && Traced(alg, History(h.entries + [e], doc), trace + [doc])
            && Matching(Popped(stack), Popped(docs), trace + [doc], doc)
            && Matching(other + [n], others + [h.doc], trace + [doc], doc)
  {
    var doc := docs[|docs| - 1];
    assert MatchesAt(stack, docs, trace, h.doc, |stack| - 1);
    assert alg.apply(trace[j], h.entries[j].change) == Some(trace[j + 1]);
    TracedSnoc(alg, h, trace, e, doc);
    MatchingPop(stack, docs, trace, h.doc, doc);
    MatchingPush(other, others, trace, h.doc, doc);
  }

  /** The top of a stack, if it has one. */
  function TopOf(stack: seq<nat>): Option<nat> { FromTop(stack, 0) }

  /** Without upstream entries, the entry picked is the top of the stack, with nothing left above it. */
  lemma UndoPicks<C>(es: seq<Entry<C>>, st: Stacks)
    requires NoUpstream(es) && Track(es, |es|) == Some(st)
    ensures UndoScan(es, |es|, 0) == TopOf(st.undo)
    ensures st.undo != [] ==> TopOf(st.undo).value < |es| && |Cancelled(es, TopOf(st.undo).value + 1, |es|)| == 0
  {
    UndoFindsTop(es, |es|, 0);
    if st.undo != [] {
      NothingAboveUndo(es, |es|, 0);
    }
  }

  lemma RedoPicks<C>(es: seq<Entry<C>>, st: Stacks)
    requires NoUpstream(es) && Track(es, |es|) == Some(st)
    ensures RedoScan(es, |es|, 0) == TopOf(st.redo)
    ensures st.redo != [] ==> TopOf(st.redo).value < |es| && |Cancelled(es, TopOf(st.redo).value + 1, |es|)| == 0
  {
    RedoFindsTop(es, |es|, 0);
    if st.redo != [] {
      NothingAboveRedo(es, |es|, 0);
    }
  }

  /** So undoing adds the plain revert of that entry. */
  lemma TakesBackReverted<S, C>(alg: Algebra<S, C>, es: seq<Entry<C>>, top: Option<nat>, kind: Kind)
    requires top.Some? ==> top.value < |es| && |Cancelled(es, top.value + 1, |es|)| == 0
    ensures TakeBack(alg, es, top, kind) ==
            if top.None? then None else Some(Entry(kind, alg.revert(es[top.value].change)))
  {
  }

  /** An entry that moves the top of one stack across to the other keeps history and editor in step. */
  lemma UndoneInStep<S(!new), C(!new)>(alg: Algebra<S, C>, h: History<S, C>, trace: seq<S>, ed: Editor<S>, st: Stacks,
                                       e: Entry<C>)
    requires Reverting(alg) && InStep(alg, h, trace, ed) && !alg.stuck(h.doc)
    requires Track(h.entries, |h.entries|) == Some(st)
    requires e.kind.Undone? && st.undo != [] && TopOf(st.undo).value < |h.entries|
    requires e.change == alg.revert(h.entries[TopOf(st.undo).value].change)
    ensures ed.past != [] && alg.apply(h.doc, e.change) == Some(TopDoc(ed.past))
    ensures InStep(alg, History(h.entries + [e], TopDoc(ed.past)), trace + [TopDoc(ed.past)],
                   Editor(Popped(ed.past), TopDoc(ed.past), ed.future + [ed.now]))
  {
    TrackSnoc(h.entries, e, st);
    TakenBack(alg, h, trace, TopOf(st.undo).value, e, st.undo, ed.past, st.redo, ed.future);
  }

  lemma RedoneInStep<S(!new), C(!new)>(alg: Algebra<S, C>, h: History<S, C>, trace: seq<S>, ed: Editor<S>, st: Stacks,
                                       e: Entry<C>)
    requires Reverting(alg) && InStep(alg, h, trace, ed) && !alg.stuck(h.doc)
    requires Track(h.entries, |h.entries|) == Some(st)
    requires e.kind.Redone? && st.redo != [] && TopOf(st.redo).value < |h.entries|
    requires e.change == alg.revert(h.entries[TopOf(st.redo).value].change)
    ensures ed.future != [] && alg.apply(h.doc, e.change) == Some(TopDoc(ed.future))
    ensures InStep(alg, History(h.entries + [e], TopDoc(ed.future)), trace + [TopDoc(ed.future)],
                   Editor(ed.past + [ed.now], TopDoc(ed.future), Popped(ed.future)))
  {
    TrackSnoc(h.entries, e, st);
    TakenBack(alg, h, trace, TopOf(st.redo).value, e, st.redo, ed.future, st.undo, ed.past);
  }

  function TopDoc<S>(docs: seq<S>): S
    requires docs != []
  {
    docs[|docs| - 1]
  }

  lemma UndoInStep<S(!new), C(!new)>(alg: Algebra<S, C>, h: History<S, C>, trace: seq<S>, ed: Editor<S>)
    requires Reverting(alg) && InStep(alg, h, trace, ed) && !alg.stuck(h.doc)
    requires var e := Added(alg, h.entries, UndoIt); e.Some? ==> !alg.isNil(e.value.change)
    ensures StaysInStep(alg, h, trace, ed, UndoIt)
  {
    var st := Track(h.entries, |h.entries|).value;
    UndoPicks(h.entries, st);
    TakesBackReverted(alg, h.entries, TopOf(st.undo), Undone);
    if st.undo != [] {
      UndoneInStep(alg, h, trace, ed, st, Added(alg, h.entries, UndoIt).value);
    }
  }

  lemma RedoInStep<S(!new), C(!new)>(alg: Algebra<S, C>, h: History<S, C>, trace: seq<S>, ed: Editor<S>)
    requires Reverting(alg) && InStep(alg, h, trace, ed) && !alg.stuck(h.doc)
    requires var e := Added(alg, h.entries, RedoIt); e.Some? ==> !alg.isNil(e.value.change)
    ensures StaysInStep(alg, h, trace, ed, RedoIt)
  {
    var st := Track(h.entries, |h.entries|).value;
    RedoPicks(h.entries, st);
    TakesBackReverted(alg, h.entries, TopOf(st.redo), Redone);
    if st.redo != [] {
      RedoneInStep(alg, h, trace, ed, st, Added(alg, h.entries, RedoIt).value);
    }
  }

  lemma ActInStep<S(!new), C(!new)>(alg: Algebra<S, C>, h: History<S, C>, trace: seq<S>, ed: Editor<S>, a: Action<C>)
    requires Reverting(alg) && InStep(alg, h, trace, ed) && !alg.stuck(h.doc)
    requires var e := Added(alg, h.entries, a); e.Some? ==> !alg.isNil(e.value.change)
    ensures Act(alg, h, a).Some? <==> EditorAct(alg, ed, a).Some?
    ensures Act(alg, h, a).Some? ==> StaysInStep(alg, h, trace, ed, a)
  {
    match a
    case Edit(c) => if alg.apply(h.doc, c).Some? { EditInStep(alg, h, trace, ed, c); }
    case UndoIt => UndoInStep(alg, h, trace, ed);
    case RedoIt => RedoInStep(alg, h, trace, ed);
  }

  // ----- changes that stay undoable -----

  /** The change that undoing and redoing c makes at the k-th turn. */
  function Reverts<S, C>(alg: Algebra<S, C>, c: C, k: nat): C {
    if k == 0 then c else Reverts(alg, alg.revert(c), k - 1)
  }

  /** Neither the change nor any revert on the way back and forth is nil. */
  ghost predicate Lasting<S, C>(alg: Algebra<S, C>, c: C) {
    forall k: nat {:trigger Reverts(alg, c, k)} :: !alg.isNil(Reverts(alg, c, k))
  }

  lemma LastingNow<S, C>(alg: Algebra<S, C>, c: C)
    requires Lasting(alg, c)
    ensures !alg.isNil(c) && Lasting(alg, alg.revert(c))
  {
    assert Reverts(alg, c, 0) == c;
    forall k: nat ensures !alg.isNil(Reverts(alg, alg.revert(c), k)) {
      assert Reverts(alg, c, k + 1) == Reverts(alg, alg.revert(c), k);
    }
  }

  ghost predicate LastingAt<S, C>(alg: Algebra<S, C>, es: seq<Entry<C>>, i: nat)
    requires i < |es|
  {
    Lasting(alg, es[i].change)
  }

  ghost predicate AllLasting<S, C>(alg: Algebra<S, C>, es: seq<Entry<C>>) {
    forall i: nat {:trigger LastingAt(alg, es, i)} :: i < |es| ==> LastingAt(alg, es, i)
  }

  lemma AllLastingSnoc<S, C>(alg: Algebra<S, C>, es: seq<Entry<C>>, e: Entry<C>)
    requires AllLasting(alg, es) && Lasting(alg, e.change)
    ensures AllLasting(alg, es + [e])
  {
    forall i: nat | i < |es + [e]| ensures LastingAt(alg, es + [e], i) {
      assert i < |es| ==> LastingAt(alg, es, i);
    }
  }

  ghost predicate LastingEdit<S, C>(alg: Algebra<S, C>, a: Action<C>) { a.Edit? ==> Lasting(alg, a.change) }

  lemma TakesBackLasting<S, C>(alg: Algebra<S, C>, es: seq<Entry<C>>, top: Option<nat>, kind: Kind)
    requires AllLasting(alg, es)
    requires top.Some? ==> top.value < |es| && |Cancelled(es, top.value + 1, |es|)| == 0
    ensures var e := TakeBack(alg, es, top, kind); e.Some? ==> Lasting(alg, e.value.change)
  {
    TakesBackReverted(alg, es, top, kind);
    if top.Some? {
      assert LastingAt(alg, es, top.value);
      LastingNow(alg, es[top.value].change);
    }
  }

  /** With lasting edits nothing added is ever nil. */
  lemma AddsLasting<S, C>(alg: Algebra<S, C>, es: seq<Entry<C>>, a: Action<C>)
    requires NoUpstream(es) && Track(es, |es|).Some? && AllLasting(alg, es) && LastingEdit(alg, a)
    ensures var e := Added(alg, es, a); e.Some? ==> Lasting(alg, e.value.change) && !alg.isNil(e.value.change)
  {
    var st := Track(es, |es|).value;
    if a.UndoIt? {
      UndoPicks(es, st);
      TakesBackLasting(alg, es, TopOf(st.undo), Undone);
    } else if a.RedoIt? {
      RedoPicks(es, st);
      TakesBackLasting(alg, es, TopOf(st.redo), Redone);
    }
    var e := Added(alg, es, a);
    if e.Some? {
      LastingNow(alg, e.value.change);
    }
  }

  // ----- whole histories -----

  function ActAll<S, C>(alg: Algebra<S, C>, h: History<S, C>, actions: seq<Action<C>>): Option<History<S, C>>
    decreases |actions|
  {
    if actions == [] then Some(h)
    else
      var h' :- Act(alg, h, actions[0]);
      ActAll(alg, h', actions[1..])
  }

  function EditorAll<S, C>(alg: Algebra<S, C>, ed: Editor<S>, actions: seq<Action<C>>): Option<Editor<S>>
    decreases |actions|
  {
    if actions == [] then Some(ed)
    else
      var ed' :- EditorAct(alg, ed, actions[0]);
      EditorAll(alg, ed', actions[1..])
  }

  /** No document that the editor shows is stuck. */
  predicate ShowsLive<S, C>(alg: Algebra<S, C>, ed: Editor<S>, actions: seq<Action<C>>)
    decreases |actions|
  {
    && !alg.stuck(ed.now)
    && (actions != [] ==>
          var ed' := EditorAct(alg, ed, actions[0]);
          ed'.Some? ==> ShowsLive(alg, ed'.value, actions[1..]))
  }

  ghost predicate LastingEdits<S, C>(alg: Algebra<S, C>, actions: seq<Action<C>>) {
    actions != [] ==> LastingEdit(alg, actions[0]) && LastingEdits(alg, actions[1..])
  }

  lemma ActKeepsLasting<S, C>(alg: Algebra<S, C>, h: History<S, C>, a: Action<C>)
    requires AllLasting(alg, h.entries) && Act(alg, h, a).Some?
    requires var e := Added(alg, h.entries, a); e.Some? ==> Lasting(alg, e.value.change)
    ensures AllLasting(alg, Act(alg, h, a).value.entries)
  {
    var e := Added(alg, h.entries, a);
    if e.Some? {
      AllLastingSnoc(alg, h.entries, e.value);
    }
  }

  lemma {:induction false} AllInStep<S(!new), C(!new)>(alg: Algebra<S, C>, h: History<S, C>, trace: seq<S>,
                                                       ed: Editor<S>, actions: seq<Action<C>>)
    requires Reverting(alg) && InStep(alg, h, trace, ed) && AllLasting(alg, h.entries)
    requires LastingEdits(alg, actions) && ShowsLive(alg, ed, actions)
    ensures var h', ed' := ActAll(alg, h, actions), EditorAll(alg, ed, actions);
            && (h'.Some? <==> ed'.Some?) && (h'.Some? ==> h'.value.doc == ed'.value.now)
    decreases |actions|
  {
    if actions != [] {
      AddsLasting(alg, h.entries, actions[0]);
      ActInStep(alg, h, trace, ed, actions[0]);
      var h', ed' := Act(alg, h, actions[0]), EditorAct(alg, ed, actions[0]);
      if h'.Some? {
        ActKeepsLasting(alg, h, actions[0]);
        AllInStep(alg, h'.value, if h'.value == h then trace else trace + [h'.value.doc], ed'.value, actions[1..]);
      }
    }
  }

  /** Without upstream changes the document is always what an editor that keeps two stacks of whole
      documents shows, and an action fails only if it is an edit that does not apply. */
  lemma DocumentMatchesEditor<S(!new), C(!new)>(alg: Algebra<S, C>, init: S, actions: seq<Action<C>>)
    requires Reverting(alg) && LastingEdits(alg, actions) && ShowsLive(alg, Editor([], init, []), actions)
    ensures var h, ed := ActAll(alg, History([], init), actions), EditorAll(alg, Editor([], init, []), actions);
            && (h.Some? <==> ed.Some?) && (h.Some? ==> h.value.doc == ed.value.now)
  {
    AllInStep(alg, History([], init), [init], Editor([], init, []), actions);
  }
}

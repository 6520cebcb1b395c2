/** Changes of the library that have nothing to do with each other: they stay as they are through merges, folds
    and whole runs of the protocol. */
module Independence {
  import opened Options
  import opened Changes
  import opened Algebras
  import opened Instances
  import M = Merging
  import P = Protocol
  import Conservation
  import Folds
  import MergeOutcomes
  import MergeTermination
  import Operations
  import opened Reverting
  import Splices
  import SpliceOutcomes

  predicate BranchOff(p: seq<Key>, q: seq<Key>) {
    var n := M.CommonPrefixLen(p, q);
    n < |p| && n < |q|
  }

  predicate Apart(a: Edit, b: Edit) {
    && a.Real? && b.Real? && a.change.PathChange? && b.change.PathChange?
    && BranchOff(a.change.path, b.change.path)
  }

  /** Changes at paths that branch off pass each other. */
  lemma ApartPasses(a: Edit, b: Edit)
    requires Apart(a, b)
    ensures Passes(Documents(), a, b)
  {
    var p, q := a.change.path, b.change.path;
    M.CommonPrefixIs(q, p, M.CommonPrefixLen(p, q));
    MergeOutcomes.MergeApart(p, a.change.inner, q, b.change.inner, 2);
    MergeOutcomes.MergeApart(q, b.change.inner, p, a.change.inner, 2);
    MergeTermination.ReturnedAt(a.change, b.change, 2);
    MergeTermination.ReturnedAt(b.change, a.change, 2);
  }

  // ----- folds -----

  lemma RevertTwice(f: Change)
    requires M.IsBasic(f)
    ensures Revert(Revert(f)) == f && !Revert(f).Noop?
  {
  }

  /** A basic change held back at one path and a new change at another: the base gets the new one and only that,
      from the user or from upstream. */
  lemma FoldsApart(p: seq<Key>, f: Change, q: seq<Key>, g: Change)
    requires M.IsBasic(f) && BranchOff(p, q)
    ensures var fold, c := Real(PathChange(p, f)), Real(PathChange(q, g));
            && Folds.AppendFolded(Documents(), fold, c) == Some(Folds.Folded(fold, c))
            && Folds.NextFolded(Documents(), fold, c) == Some(Folds.Folded(fold, c))
  {
    var fold, c := Real(PathChange(p, f)), Real(PathChange(q, g));
    RevertTwice(f);
    ApartPasses(fold, c);
    ApartPasses(Real(PathChange(p, Revert(f))), c);
    Folds.AppendPasses(Documents(), fold, c);
    Folds.NextPasses(Documents(), fold, c);
  }

  ghost function SpliceEdit(s: Splices.Splice<Value>): Edit { Real(SpliceIn(s)) }

  lemma SplicesReturn(s: Splices.Splice<Value>, t: Splices.Splice<Value>)
    requires SpliceOutcomes.End(s) <= t.offset || SpliceOutcomes.End(t) <= s.offset
    ensures EditMerge(SpliceEdit(s), SpliceEdit(t)) ==
            if SpliceOutcomes.End(s) <= t.offset then (SpliceEdit(Splices.Moved(t, s)), SpliceEdit(s))
            else (SpliceEdit(t), SpliceEdit(Splices.Moved(s, t)))
  {
    MergeTermination.ReturnedAt(SpliceIn(s), SpliceIn(t), 1);
  }

  /** A run held back, and a new run beside it: each keeps its elements. The new one goes to the base where it is
      without the fold, and the fold stays where it is with the new one. */
  lemma FoldsBeside(s: Splices.Splice<Value>, t: Splices.Splice<Value>)
    requires SpliceOutcomes.End(t) <= s.offset || s.offset + |s.after| <= t.offset
    ensures Folds.AppendFolded(Documents(), SpliceEdit(s), SpliceEdit(t)) ==
            Some(if SpliceOutcomes.End(t) <= s.offset
                 then Folds.Folded(SpliceEdit(s.(offset := s.offset + t.Growth())), SpliceEdit(t))
                 else Folds.Folded(SpliceEdit(s), SpliceEdit(t.(offset := t.offset - s.Growth()))))
  {
    SplicesReturn(t, s.Revert());
  }

  /** The same for a run that arrives from upstream: the reader sees it where it is with the fold. */
  lemma UpstreamBeside(s: Splices.Splice<Value>, t: Splices.Splice<Value>)
    requires SpliceOutcomes.End(t) <= s.offset || SpliceOutcomes.End(s) <= t.offset
    ensures Folds.NextFolded(Documents(), SpliceEdit(s), SpliceEdit(t)) ==
            Some(if SpliceOutcomes.End(t) <= s.offset
                 then Folds.Folded(SpliceEdit(s.(offset := s.offset + t.Growth())), SpliceEdit(t))
                 else Folds.Folded(SpliceEdit(s), SpliceEdit(t.(offset := t.offset + s.Growth()))))
  {
    SplicesReturn(t, s);
  }

  // ----- runs -----

  /** No two clients change the same part of the document. */
  predicate ClientsApart(log: seq<Operations.Op<Edit>>) {
    forall i, j :: 0 <= i < |log| && 0 <= j < |log| && log[i].id.client != log[j].id.client ==>
                     Apart(log[i].change, log[j].change)
  }

  /** In every run in which different clients change different parts of a document, a client that is up to date
      shows the effect of every operation that any client made. */
  lemma EveryOperationLasts(init: Document, n: nat, steps: seq<P.Step<Edit>>, w: P.World<Document, Edit>, c: nat)
    requires P.Run(Documents(), P.Start(init, n), steps) == Some(w) && c < |w.clients|
    requires P.UpToDate(w.log, w.clients[c]) && ClientsApart(w.log)
    ensures Conservation.Shown(Documents(), w.clients[c])
         == Algebras.ApplyAll(Documents(), init, Conservation.ChangesOf(w.log))
  {
    DocumentsIsAlgebra();
    forall i, j | 0 <= i < |w.log| && 0 <= j < |w.log| && w.log[i].id.client != w.log[j].id.client
      ensures Passes(Documents(), w.log[i].change, w.log[j].change)
    {
      ApartPasses(w.log[i].change, w.log[j].change);
    }
    Conservation.NothingLost(Documents(), init, n, steps, w, c);
  }
}

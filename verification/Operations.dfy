/** Operations in the log and their transformation (ops/op.go, ops/transformer.go): the cacheless
    definition of xform, and the proof that the transformed log can be applied in order. */
module Operations {
  import opened Options
  import opened Algebras

  /** Operation ids are unique: the serial-th operation of a client. */
  datatype Id = Id(client: nat, serial: nat)

  /** An operation; its version is its index in the log. */
  datatype Op<C> = Op(id: Id, parent: Option<Id>, basis: int, change: C)

  /** An entry of a merge chain: the log version it stems from, and its transformed change. */
  datatype Link<C> = Link(version: int, change: C)

  /** The transformed operation and its merge chain. */
  datatype Xformed<C> = Xformed(x: C, chain: seq<Link<C>>)

  // ----- well-formed logs -----

  predicate DistinctIds<C>(log: seq<Op<C>>) {
    forall i, j :: 0 <= i < j < |log| ==> log[i].id != log[j].id
  }

  /** Operation k is based on an earlier version, and its parent lies between its basis and k. */
  predicate Placed<C>(log: seq<Op<C>>, k: nat)
    requires k < |log|
  {
    && -1 <= log[k].basis < k
    && (log[k].parent.Some? ==>
          exists j :: 0 <= j < k && log[k].basis < j && log[j].id == log[k].parent.value)
  }

  predicate WellFormed<C>(log: seq<Op<C>>) {
    DistinctIds(log) && forall k {:trigger Placed(log, k)} :: 0 <= k < |log| ==> Placed(log, k)
  }

  /** The first of the operations lo..hi with this id. */
  function IndexOf<C>(log: seq<Op<C>>, id: Id, lo: int, hi: int): (j: int)
    requires 0 <= lo <= hi <= |log|
    requires exists j :: lo <= j < hi && log[j].id == id
    ensures lo <= j < hi && log[j].id == id
    decreases hi - lo
  {
    if log[lo].id == id then lo else IndexOf(log, id, lo + 1, hi)
  }

  // ----- xform -----

  /** Drops the entries up to and including version `basis` from the front of a chain. */
  function Since<C>(chain: seq<Link<C>>, basis: int): seq<Link<C>> {
    if chain == [] || chain[0].version > basis then chain else Since(chain[1..], basis)
  }

  /** The entries that Since drops. */
  function Upto<C>(chain: seq<Link<C>>, basis: int): seq<Link<C>> {
    if chain == [] || chain[0].version > basis then [] else [chain[0]] + Upto(chain[1..], basis)
  }

  /** Merges x with each link in turn. */
  function Fold<S, C>(alg: Algebra<S, C>, x: C, links: seq<Link<C>>): (r: Xformed<C>)
    ensures |r.chain| == |links|
    decreases |links|
  {
    if links == [] then Xformed(x, [])
    else
      var m := alg.merge(links[0].change, x);
      var rest := Fold(alg, m.0, links[1..]);
      Xformed(rest.x, [Link(links[0].version, m.1)] + rest.chain)
  }

  function Xform<S, C>(alg: Algebra<S, C>, log: seq<Op<C>>, k: nat): Xformed<C>
    requires WellFormed(log) && k < |log|
    decreases k, 2
  {
    Fold(alg, log[k].change, Inputs(alg, log, k))
  }

  /** What operation k has to be merged with: the part of its parent's chain that it has not seen,
      and the transformed operations after its parent; without a parent, those after its basis. */
  function Inputs<S, C>(alg: Algebra<S, C>, log: seq<Op<C>>, k: nat): seq<Link<C>>
    requires WellFormed(log) && k < |log|
    decreases k, 1
  {
    var op := log[k];
    assert Placed(log, k);
    if op.parent.None? then Transformed(alg, log, op.basis + 1, k)
    else
      var j := ParentIndex(log, k);
      Since(Xform(alg, log, j).chain, op.basis) + Transformed(alg, log, j + 1, k)
  }

  function ParentIndex<C>(log: seq<Op<C>>, k: nat): (j: nat)
    requires WellFormed(log) && k < |log| && log[k].parent.Some?
    ensures log[k].basis < j < k && log[j].id == log[k].parent.value
  {
    assert Placed(log, k);
    IndexOf(log, log[k].parent.value, log[k].basis + 1, k)
  }

  /** The transformed operations of versions lo up to hi. */
  function Transformed<S, C>(alg: Algebra<S, C>, log: seq<Op<C>>, lo: nat, hi: nat): seq<Link<C>>
    requires WellFormed(log) && hi <= |log|
    decreases hi, 0
  {
    if lo >= hi then []
    else Transformed(alg, log, lo, hi - 1) + [Link(hi - 1, Xform(alg, log, hi - 1).x)]
  }

  // ----- states -----

  function ApplyLinks<S, C>(alg: Algebra<S, C>, s: S, links: seq<Link<C>>): Option<S>
    decreases |links|
  {
    if links == [] then Some(s)
    else
      var t :- alg.apply(s, links[0].change);
      ApplyLinks(alg, t, links[1..])
  }

  /** The state after the first n transformed operations. */
  function State<S, C>(alg: Algebra<S, C>, init: S, log: seq<Op<C>>, n: nat): Option<S>
    requires WellFormed(log) && n <= |log|
  {
    ApplyLinks(alg, init, Transformed(alg, log, 0, n))
  }

  /** The state on which the author of operation k made it: the log up to the basis or, when the author
      still had a pending parent, the author's state after the parent and after the foreign operations
      up to the basis, transformed as in the parent's chain. */
  function AuthorBefore<S, C>(alg: Algebra<S, C>, init: S, log: seq<Op<C>>, k: nat): Option<S>
    requires WellFormed(log) && k < |log|
    decreases k, 0
  {
    assert Placed(log, k);
    if log[k].parent.None? then State(alg, init, log, log[k].basis + 1)
    else
      var j := ParentIndex(log, k);
      var s :- AuthorAfter(alg, init, log, j);
      ApplyLinks(alg, s, Upto(Xform(alg, log, j).chain, log[k].basis))
  }

  function AuthorAfter<S, C>(alg: Algebra<S, C>, init: S, log: seq<Op<C>>, k: nat): Option<S>
    requires WellFormed(log) && k < |log|
    decreases k, 1
  {
    var s :- AuthorBefore(alg, init, log, k);
    alg.apply(s, log[k].change)
  }

  /** Every operation applied where its author made it. */
  ghost predicate Authentic<S, C>(alg: Algebra<S, C>, init: S, log: seq<Op<C>>) {
    && WellFormed(log)
    && forall k {:trigger AuthorAfter(alg, init, log, k)} :: 0 <= k < |log| ==> AuthorAfter(alg, init, log, k).Some?
  }

  // ----- laws -----

  lemma {:induction false} ApplyLinksConcat<S, C>(alg: Algebra<S, C>, s: S, ls: seq<Link<C>>, ms: seq<Link<C>>)
    ensures ApplyLinks(alg, s, ls + ms)
         == (var t := ApplyLinks(alg, s, ls); if t.Some? then ApplyLinks(alg, t.value, ms) else None)
    decreases |ls|
  {
    if ls == [] {
      assert ls + ms == ms;
    } else {
      assert (ls + ms)[1..] == ls[1..] + ms;
      var t := alg.apply(s, ls[0].change);
      if t.Some? {
        ApplyLinksConcat(alg, t.value, ls[1..], ms);
      }
    }
  }

  lemma ApplyLinksOne<S, C>(alg: Algebra<S, C>, s: S, l: Link<C>)
    ensures ApplyLinks(alg, s, [l]) == alg.apply(s, l.change)
  {
    var t := alg.apply(s, l.change);
    if t.Some? {
      assert ApplyLinks(alg, t.value, []) == t;
    }
  }

  lemma {:induction false} UptoSince<C>(chain: seq<Link<C>>, basis: int)
    ensures Upto(chain, basis) + Since(chain, basis) == chain
  {
    if chain != [] && chain[0].version <= basis {
      UptoSince(chain[1..], basis);
    }
  }

  /** Folding x over the links closes the row: links then the folded x equals x then the chain. */
  lemma {:induction false} FoldCloses<S(!new), C(!new)>(alg: Algebra<S, C>, s: S, x: C, links: seq<Link<C>>)
    requires Convergent(alg) && alg.apply(s, x).Some? && ApplyLinks(alg, s, links).Some?
    ensures var r := Fold(alg, x, links);
            && alg.apply(ApplyLinks(alg, s, links).value, r.x).Some?
            && alg.apply(ApplyLinks(alg, s, links).value, r.x) == ApplyLinks(alg, alg.apply(s, x).value, r.chain)
    decreases |links|
  {
    if links != [] {
      var l, m := links[0], alg.merge(links[0].change, x);
      UseConvergent(alg, s, l.change, x);
      FoldCloses(alg, alg.apply(s, l.change).value, m.0, links[1..]);
      var r := Fold(alg, x, links);
      assert r.chain[1..] == Fold(alg, m.0, links[1..]).chain;
    }
  }

  function ChangesIn<C>(links: seq<Link<C>>): seq<C> {
    if links == [] then [] else [links[0].change] + ChangesIn(links[1..])
  }

  /** An operation is merged with what it has missed as a change is appended to a stream: it is the argument of
      every merge, in order, and the chain keeps the versions. */
  lemma {:induction false} FoldIsRow<S, C>(alg: Algebra<S, C>, x: C, links: seq<Link<C>>)
    ensures var r := Fold(alg, x, links);
            && Ascend(alg, x, ChangesIn(links)) == Row(r.x, ChangesIn(r.chain))
            && forall i :: 0 <= i < |links| ==> r.chain[i].version == links[i].version
    decreases |links|
  {
    if links != [] {
      var m := alg.merge(links[0].change, x);
      FoldIsRow(alg, m.0, links[1..]);
      assert ChangesIn(links)[1..] == ChangesIn(links[1..]);
      var r := Fold(alg, x, links);
      assert r.chain[1..] == Fold(alg, m.0, links[1..]).chain;
    }
  }

  lemma TransformedSplit<S, C>(alg: Algebra<S, C>, log: seq<Op<C>>, lo: nat, mid: nat, hi: nat)
    requires WellFormed(log) && lo <= mid <= hi <= |log|
    ensures Transformed(alg, log, lo, hi) == Transformed(alg, log, lo, mid) + Transformed(alg, log, mid, hi)
    decreases hi
  {
    if mid < hi {
      TransformedSplit(alg, log, lo, mid, hi - 1);
      var one, two := Transformed(alg, log, lo, mid), Transformed(alg, log, mid, hi - 1);
      var l := [Link(hi - 1, Xform(alg, log, hi - 1).x)];
      assert (one + two) + l == one + (two + l);
    } else {
      assert Transformed(alg, log, mid, hi) == [];
    }
  }

  /** The states of the log, continued from an earlier one. */
  lemma StateFrom<S, C>(alg: Algebra<S, C>, init: S, log: seq<Op<C>>, mid: nat, hi: nat)
    requires WellFormed(log) && mid <= hi <= |log| && State(alg, init, log, mid).Some?
    ensures State(alg, init, log, hi) ==
            ApplyLinks(alg, State(alg, init, log, mid).value, Transformed(alg, log, mid, hi))
  {
    TransformedSplit(alg, log, 0, mid, hi);
    ApplyLinksConcat(alg, init, Transformed(alg, log, 0, mid), Transformed(alg, log, mid, hi));
  }

  lemma StateNext<S, C>(alg: Algebra<S, C>, init: S, log: seq<Op<C>>, k: nat)
    requires WellFormed(log) && k < |log| && State(alg, init, log, k).Some?
    ensures State(alg, init, log, k + 1) == alg.apply(State(alg, init, log, k).value, Xform(alg, log, k).x)
  {
    var l := Link(k, Xform(alg, log, k).x);
    ApplyLinksConcat(alg, init, Transformed(alg, log, 0, k), [l]);
    ApplyLinksOne(alg, State(alg, init, log, k).value, l);
  }

  /** The inputs of operation k lead from where its author made it to the log state before k. */
  lemma InputsLead<S(!new), C(!new)>(alg: Algebra<S, C>, init: S, log: seq<Op<C>>, k: nat)
    requires Authentic(alg, init, log) && k < |log|
    requires forall i :: 0 <= i <= k ==> State(alg, init, log, i).Some?
    requires log[k].parent.Some? ==>
      var j := ParentIndex(log, k);
      && AuthorAfter(alg, init, log, j).Some?
      && ApplyLinks(alg, AuthorAfter(alg, init, log, j).value, Xform(alg, log, j).chain) == State(alg, init, log, j + 1)
    ensures AuthorBefore(alg, init, log, k).Some?
    ensures ApplyLinks(alg, AuthorBefore(alg, init, log, k).value, Inputs(alg, log, k)) == State(alg, init, log, k)
  {
    assert AuthorAfter(alg, init, log, k).Some? && Placed(log, k);
    var basis := log[k].basis;
    if log[k].parent.None? {
      StateFrom(alg, init, log, basis + 1, k);
    } else {
      var j := ParentIndex(log, k);
      var chain, s := Xform(alg, log, j).chain, AuthorAfter(alg, init, log, j).value;
      UptoSince(chain, basis);
      ApplyLinksConcat(alg, s, Upto(chain, basis), Since(chain, basis));
      ApplyLinksConcat(alg, AuthorBefore(alg, init, log, k).value, Since(chain, basis),
                       Transformed(alg, log, j + 1, k));
      StateFrom(alg, init, log, j + 1, k);
    }
  }

  /** The transformed operations apply one after another, and for each of them the author's state plus
      the raw operation plus its merge chain is the log state after it. */
  lemma {:induction false} LogSound<S(!new), C(!new)>(alg: Algebra<S, C>, init: S, log: seq<Op<C>>, k: nat)
    requires Convergent(alg) && Authentic(alg, init, log) && k < |log|
    ensures forall i :: 0 <= i <= k + 1 ==> State(alg, init, log, i).Some?
    ensures AuthorAfter(alg, init, log, k).Some?
    ensures ApplyLinks(alg, AuthorAfter(alg, init, log, k).value, Xform(alg, log, k).chain) ==
            State(alg, init, log, k + 1)
    decreases k
  {
    assert State(alg, init, log, 0) == Some(init);
    if k > 0 {
      LogSound(alg, init, log, k - 1);
    }
    assert AuthorAfter(alg, init, log, k).Some?;
    if log[k].parent.Some? {
      LogSound(alg, init, log, ParentIndex(log, k));
    }
    InputsLead(alg, init, log, k);
    FoldCloses(alg, AuthorBefore(alg, init, log, k).value, log[k].change, Inputs(alg, log, k));
    StateNext(alg, init, log, k);
  }
}

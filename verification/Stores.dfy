/** The deduplicating append-only log (test/testops/store.go, promised by ops/store.go) and its view
    through the transforming store (ops/transformer.go). */
module Stores {
  import opened Options
  import opened Algebras
  import opened Operations
  import opened VirtualLogs

  function Ids<C>(log: seq<Op<C>>): set<Id> {
    set k | 0 <= k < |log| :: log[k].id
  }

  /** Appending drops the operations whose id is already there. */
  function Appended<C>(log: seq<Op<C>>, ops: seq<Op<C>>): seq<Op<C>>
    decreases |ops|
  {
    if ops == [] then log
    else Appended(if ops[0].id in Ids(log) then log else log + [ops[0]], ops[1..])
  }

  /** Nothing stored ever moves, ids stay unique, and every appended id is there afterwards. */
  lemma {:induction false} AppendedKeeps<C>(log: seq<Op<C>>, ops: seq<Op<C>>)
    requires DistinctIds(log)
    ensures DistinctIds(Appended(log, ops))
    ensures log <= Appended(log, ops)
    ensures Ids(Appended(log, ops)) == Ids(log) + Ids(ops)
    decreases |ops|
  {
    if ops != [] {
      var op := ops[0];
      var next := if op.id in Ids(log) then log else log + [op];
      assert Ids(log + [op]) == Ids(log) + {op.id} by {
        IdsSnoc(log, op);
      }
      assert ops == [op] + ops[1..];
      IdsCons(op, ops[1..]);
      AppendedKeeps(next, ops[1..]);
    }
  }

  lemma IdsSnoc<C>(log: seq<Op<C>>, op: Op<C>)
    ensures Ids(log + [op]) == Ids(log) + {op.id}
  {
    var l := log + [op];
    assert forall k :: 0 <= k < |log| ==> l[k] == log[k];
    assert l[|log|] == op;
  }

  lemma IdsCons<C>(op: Op<C>, ops: seq<Op<C>>)
    ensures Ids([op] + ops) == {op.id} + Ids(ops)
  {
    var l := [op] + ops;
    assert l[0] == op;
    assert forall k :: 0 <= k < |ops| ==> l[k + 1] == ops[k];
  }

  lemma {:induction false} AppendedKnown<C>(log: seq<Op<C>>, ops: seq<Op<C>>)
    requires Ids(ops) <= Ids(log)
    ensures Appended(log, ops) == log
    decreases |ops|
  {
    if ops != [] {
      assert ops == [ops[0]] + ops[1..];
      IdsCons(ops[0], ops[1..]);
      AppendedKnown(log, ops[1..]);
    }
  }

  /** Appending the same operations again changes nothing, so a retry after a lost reply is harmless. */
  lemma AppendTwice<C>(log: seq<Op<C>>, ops: seq<Op<C>>)
    requires DistinctIds(log)
    ensures Appended(Appended(log, ops), ops) == Appended(log, ops)
  {
    AppendedKeeps(log, ops);
    AppendedKnown(Appended(log, ops), ops);
  }

  /** New operations with distinct ids are appended together, in order. */
  lemma {:induction false} AppendedFresh<C>(log: seq<Op<C>>, ops: seq<Op<C>>)
    requires DistinctIds(ops) && Ids(ops) !! Ids(log)
    ensures Appended(log, ops) == log + ops
    decreases |ops|
  {
    if ops != [] {
      var op, rest := ops[0], ops[1..];
      assert ops == [op] + rest;
      IdsCons(op, rest);
      IdsSnoc(log, op);
      assert op.id !in Ids(rest);
      AppendedFresh(log + [op], rest);
      assert log + ops == log + [op] + rest;
    }
  }

  /** An operation with the version the store gave it. */
  datatype Entry<C> = Entry(version: int, op: Op<C>)

  class MemStore<C> {
    var ops: seq<Op<C>>
    var seen: set<Id>

    ghost predicate Valid()
      reads this
    {
      DistinctIds(ops) && seen == Ids(ops)
    }

    constructor (initial: seq<Op<C>>)
      ensures Valid() && ops == Appended([], initial)
    {
      ops, seen := [], {};
      new;
      Append(initial);
    }

    method Append(batch: seq<Op<C>>)
      requires Valid()
      modifies this
      ensures Valid() && ops == Appended(old(ops), batch)
    {
      for i := 0 to |batch|
        invariant Valid() && Appended(ops, batch[i..]) == Appended(old(ops), batch)
      {
        var op := batch[i];
        assert batch[i..][1..] == batch[i + 1..];
        IdsSnoc(ops, op);
        if op.id !in seen {
          seen := seen + {op.id};
          ops := ops + [op];
        }
      }
    }

    /** At most `limit` operations from `version` on, in order, with consecutive versions. */
    method GetSince(version: nat, limit: nat) returns (r: seq<Entry<C>>)
      requires Valid()
      ensures |r| == (if version >= |ops| then 0 else if |ops| - version > limit then limit else |ops| - version)
      ensures forall i :: 0 <= i < |r| ==> r[i] == Entry(version + i, ops[version + i])
    {
      r := [];
      while |r| < limit && version + |r| < |ops|
        invariant |r| == 0 || (|r| <= limit && version + |r| <= |ops|)
        invariant forall i :: 0 <= i < |r| ==> r[i] == Entry(version + i, ops[version + i])
        decreases limit - |r|
      {
        r := r + [Entry(version + |r|, ops[version + |r|])];
      }
    }
  }

  /** The cache holds only what the cacheless recursion computes. */
  ghost predicate Correct<S, C>(alg: Algebra<S, C>, log: seq<Op<C>>, cache: map<nat, Xformed<C>>)
    requires WellFormed(log)
  {
    forall k {:trigger k in cache} :: k in cache ==> k < |log| && cache[k] == Xform(alg, log, k)
  }

  lemma RestStep<S, C>(alg: Algebra<S, C>, log: seq<Op<C>>, x: C, links: seq<Link<C>>, lo: nat, i: nat)
    requires WellFormed(log) && lo <= i < |log|
    ensures var r := Fold(alg, x, links + Transformed(alg, log, lo, i));
            var m := alg.merge(Xform(alg, log, i).x, r.x);
            Fold(alg, x, links + Transformed(alg, log, lo, i + 1)) == Xformed(m.0, r.chain + [Link(i, m.1)])
  {
    var done, l := links + Transformed(alg, log, lo, i), Link(i, Xform(alg, log, i).x);
    assert links + Transformed(alg, log, lo, i + 1) == done + [l];
    FoldSnoc(alg, x, done, l);
  }

  /** What operation k is merged with first: the unseen part of its parent's chain; `lo` is the parent's
      version, or without a parent the version after the basis. */
  function FirstLinks<S, C>(alg: Algebra<S, C>, log: seq<Op<C>>, k: nat, lo: nat): seq<Link<C>>
    requires WellFormed(log) && k < |log| && lo < k
  {
    if log[k].parent.None? then [] else Since(Xform(alg, log, lo).chain, log[k].basis)
  }

  predicate StartsAt<C>(log: seq<Op<C>>, k: nat, lo: nat)
    requires WellFormed(log) && k < |log|
  {
    if log[k].parent.None? then lo == log[k].basis + 1 else lo == ParentIndex(log, k)
  }

  lemma XformShape<S, C>(alg: Algebra<S, C>, log: seq<Op<C>>, k: nat, lo: nat)
    requires WellFormed(log) && k < |log| && lo < k && StartsAt(log, k, lo)
    ensures var rest := if log[k].parent.None? then lo else lo + 1;
            Xform(alg, log, k) == Fold(alg, log[k].change, FirstLinks(alg, log, k, lo) + Transformed(alg, log, rest, k))
  {
    assert [] + Transformed(alg, log, lo, k) == Transformed(alg, log, lo, k);
  }

  /** The transforming store: a raw store and a cache of results (ops/transformer.go, ops/cache.go). */
  class Transformer<S, C> {
    const alg: Algebra<S, C>
    const raw: MemStore<C>
    var cache: map<nat, Xformed<C>>

    ghost predicate Valid()
      reads this, raw
    {
      raw.Valid() && WellFormed(raw.ops) && Correct(alg, raw.ops, cache)
    }

    constructor (alg: Algebra<S, C>, raw: MemStore<C>)
      requires raw.Valid() && WellFormed(raw.ops)
      ensures Valid() && this.alg == alg && this.raw == raw && cache == map[]
    {
      this.alg, this.raw, cache := alg, raw, map[];
    }

    /** Returns what the cacheless recursion returns, whatever correct entries the cache holds, and
        leaves the cache correct. Every recursive call is for a smaller version. */
    method XformOp(k: nat) returns (r: Xformed<C>)
      requires Valid() && k < |raw.ops|
      modifies this`cache
      ensures Valid() && r == Xform(alg, raw.ops, k)
      ensures k in cache && old(cache).Keys <= cache.Keys
      decreases k, 3
    {
      if k in cache {
        return cache[k];
      }
      var op := raw.ops[k];
      assert Placed(raw.ops, k);
      if k - op.basis - 1 == 0 {
        r := Xformed(op.change, []);
        assert Inputs(alg, raw.ops, k) == [];
      } else {
        r := MergeSinceBasis(k);
      }
      cache := cache[k := r];
    }

    method MergeSinceBasis(k: nat) returns (r: Xformed<C>)
      requires Valid() && k < |raw.ops| && raw.ops[k].basis < k - 1
      modifies this`cache
      ensures Valid() && r == Xform(alg, raw.ops, k)
      ensures old(cache).Keys <= cache.Keys
      decreases k, 2
    {
      var op := raw.ops[k];
      var lo := SkipToParent(k);
      XformShape(alg, raw.ops, k, lo);
      r := MergeChain(k, lo);
      r := MergeRest(k, if op.parent.None? then lo else lo + 1, r, FirstLinks(alg, raw.ops, k, lo));
    }

    /** The version right after the basis or, with a parent, the parent's version. */
    method SkipToParent(k: nat) returns (lo: nat)
      requires Valid() && k < |raw.ops| && raw.ops[k].basis < k - 1
      ensures lo < k && StartsAt(raw.ops, k, lo)
    {
      var op := raw.ops[k];
      assert Placed(raw.ops, k);
      lo := op.basis + 1;
      while op.parent.Some? && raw.ops[lo].id != op.parent.value
        invariant op.basis < lo < k
        invariant op.parent.Some? ==> lo <= ParentIndex(raw.ops, k)
        invariant op.parent.None? ==> lo == op.basis + 1
        decreases k - lo
      {
        lo := lo + 1;
      }
    }

    /** The operation merged with the part of its parent's chain that it has not seen. */
    method MergeChain(k: nat, lo: nat) returns (r: Xformed<C>)
      requires Valid() && k < |raw.ops| && lo < k
      modifies this`cache
      ensures Valid() && old(cache).Keys <= cache.Keys
      ensures r == Fold(alg, raw.ops[k].change, FirstLinks(alg, raw.ops, k, lo))
      decreases k, 1
    {
      var op := raw.ops[k];
      if op.parent.None? {
        r := Xformed(op.change, []);
      } else {
        var parent := XformOp(lo);
        r := MergeUnseen(op, parent.chain);
      }
    }

    method MergeUnseen(op: Op<C>, chain: seq<Link<C>>) returns (r: Xformed<C>)
      ensures r == Fold(alg, op.change, Since(chain, op.basis))
    {
      var merge := chain;
      while |merge| > 0 && merge[0].version <= op.basis
        invariant Since(merge, op.basis) == Since(chain, op.basis)
        decreases |merge|
      {
        merge := merge[1..];
      }
      r := Xformed(op.change, []);
      for i := 0 to |merge|
        invariant r == Fold(alg, op.change, merge[..i])
      {
        assert merge[..i + 1] == merge[..i] + [merge[i]];
        FoldSnoc(alg, op.change, merge[..i], merge[i]);
        var m := alg.merge(merge[i].change, r.x);
        r := Xformed(m.0, r.chain + [Link(merge[i].version, m.1)]);
      }
      assert merge[..|merge|] == merge;
    }

    /** The operation so far, merged with the transformed operations from `lo` up to its own version. */
    method MergeRest(k: nat, lo: nat, sofar: Xformed<C>, ghost links: seq<Link<C>>) returns (r: Xformed<C>)
      requires Valid() && k < |raw.ops| && lo <= k
      requires sofar == Fold(alg, raw.ops[k].change, links)
      modifies this`cache
      ensures Valid() && old(cache).Keys <= cache.Keys
      ensures r == Fold(alg, raw.ops[k].change, links + Transformed(alg, raw.ops, lo, k))
      decreases k, 0
    {
      r := sofar;
      var i := lo;
      assert links + Transformed(alg, raw.ops, lo, lo) == links;
      while i < k
        invariant lo <= i <= k && Valid() && old(cache).Keys <= cache.Keys
        invariant r == Fold(alg, raw.ops[k].change, links + Transformed(alg, raw.ops, lo, i))
      {
        r := MergeNext(k, lo, i, r, links);
        i := i + 1;
      }
    }

    method MergeNext(k: nat, lo: nat, i: nat, sofar: Xformed<C>, ghost links: seq<Link<C>>) returns (r: Xformed<C>)
      requires Valid() && k < |raw.ops| && lo <= i < k
      requires sofar == Fold(alg, raw.ops[k].change, links + Transformed(alg, raw.ops, lo, i))
      modifies this`cache
      ensures Valid() && old(cache).Keys <= cache.Keys
      ensures r == Fold(alg, raw.ops[k].change, links + Transformed(alg, raw.ops, lo, i + 1))
      decreases i, 5
    {
      RestStep(alg, raw.ops, raw.ops[k].change, links, lo, i);
      var opx := XformOp(i);
      var m := alg.merge(opx.x, sofar.x);
      r := Xformed(m.0, sofar.chain + [Link(i, m.1)]);
    }

    /** The raw operations from `version` on, each with its transformed change. */
    method GetSince(version: nat, limit: nat) returns (r: seq<Entry<C>>)
      requires Valid()
      modifies this`cache
      ensures Valid()
      ensures var n := |raw.ops|;
              |r| == (if version >= n then 0 else if n - version > limit then limit else n - version)
      ensures forall i :: 0 <= i < |r| ==>
                r[i] == Entry(version + i, raw.ops[version + i].(change := Xform(alg, raw.ops, version + i).x))
    {
      var entries := raw.GetSince(version, limit);
      r := [];
      for i := 0 to |entries|
        invariant |r| == i && Valid()
        invariant forall j :: 0 <= j < i ==>
                    r[j] == Entry(version + j, raw.ops[version + j].(change := Xform(alg, raw.ops, version + j).x))
      {
        var x := XformOp(entries[i].version);
        r := r + [Entry(entries[i].version, entries[i].op.(change := x.x))];
      }
    }

    /** Appending keeps the cache correct: earlier results never change. */
    method Append(batch: seq<Op<C>>)
      requires Valid() && WellFormed(Appended(raw.ops, batch))
      modifies raw
      ensures Valid() && raw.ops == Appended(old(raw.ops), batch)
    {
      ghost var before := raw.ops;
      raw.Append(batch);
      AppendedKeeps(before, batch);
      assert SamePrefix(before, raw.ops, |before|);
      forall k | k in cache ensures k < |raw.ops| && cache[k] == Xform(alg, raw.ops, k) {
        SameXform(alg, before, raw.ops, |before|, k);
      }
    }
  }
}

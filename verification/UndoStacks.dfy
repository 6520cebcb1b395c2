/** The undo stack object (streams/undo/stack.go, streams/undo/stream.go) on top of a linked stream: its
    loops and its in-place bookkeeping are the histories of module Undo. */
module UndoStacks {
  import opened Options
  import opened Algebras
  import opened Streams
  import opened Undo

  function Zip<C>(cs: seq<C>, kinds: seq<Kind>): (es: seq<Entry<C>>)
    requires |cs| == |kinds|
    ensures |es| == |cs|
    ensures forall i :: 0 <= i < |es| ==> es[i] == Entry(kinds[i], cs[i])
  {
    seq(|cs|, i requires 0 <= i < |cs| == |kinds| => Entry(kinds[i], cs[i]))
  }

  /** The entries recorded for changes met on the stream; nil changes are skipped. */
  function Recorded<S, C>(alg: Algebra<S, C>, cs: seq<C>, kind: Kind): seq<Entry<C>> {
    if cs == [] then []
    else (if alg.isNil(cs[0]) then [] else [Entry(kind, cs[0])]) + Recorded(alg, cs[1..], kind)
  }

  /** simplify */
  method Simplify<C>(cx: seq<C>, kinds: seq<Kind>, ghost es: seq<Entry<C>>, ghost lo: nat) returns (result: seq<C>)
    requires |cx| == |kinds| && lo <= |es| && Zip(cx, kinds) == es[lo..]
    ensures result == ChangesOf(Cancelled(es, lo, |es|))
  {
    result := [];
    var resultKinds := [];
    for kk := 0 to |kinds|
      invariant |result| == |resultKinds| && Zip(result, resultKinds) == Cancelled(es, lo, lo + kk)
    {
      var kind, l := kinds[kk], |result|;
      assert es[lo + kk] == es[lo..][kk] == Entry(kind, cx[kk]);
      ghost var before := Zip(result, resultKinds);
      if l > 0 && Cancels(resultKinds[l - 1], kind) {
        assert Zip(result[..l - 1], resultKinds[..l - 1]) == Popped(before);
        result, resultKinds := result[..l - 1], resultKinds[..l - 1];
      } else {
        assert Zip(result + [cx[kk]], resultKinds + [kind]) == before + [Entry(kind, cx[kk])];
        result, resultKinds := result + [cx[kk]], resultKinds + [kind];
      }
    }
    ChangesOfZip(result, resultKinds);
  }

  lemma {:induction false} ChangesOfZip<C>(cs: seq<C>, kinds: seq<Kind>)
    requires |cs| == |kinds|
    ensures ChangesOf(Zip(cs, kinds)) == cs
    decreases |cs|
  {
    if cs != [] {
      ChangesOfZip(cs[1..], kinds[1..]);
      assert Zip(cs, kinds)[1..] == Zip(cs[1..], kinds[1..]);
    }
  }

  /** What an action does that is offered. */
  lemma ActAdds<S, C>(alg: Algebra<S, C>, h: History<S, C>, a: Action<C>, e: Entry<C>, after: History<S, C>)
    requires Added(alg, h.entries, a) == Some(e) && alg.apply(h.doc, e.change) == Some(after.doc)
    requires after.entries == h.entries + (if alg.isNil(e.change) then [] else [e])
    ensures Act(alg, h, a) == Some(after)
  {
    assert h.entries + [] == h.entries;
  }

  class Stack<S(!new), C(!new)> {
    const alg: Algebra<S, C>
    var base: Node<C>
    var changes: seq<C>
    var kinds: seq<Kind>

    predicate Paired()
      reads this
    {
      |changes| == |kinds|
    }

    function Entries(): seq<Entry<C>>
      requires Paired()
      reads this
    {
      Zip(changes, kinds)
    }

    ghost predicate Valid(sh: Shape<S, C>)
      reads this, sh.nodes
    {
      Paired() && Streams.Valid(alg, sh) && base in sh.nodes
    }

    /** The entries once everything after base is recorded as upstream. */
    ghost function Synced(sh: Shape<S, C>): seq<Entry<C>>
      requires Valid(sh)
      reads this, sh.nodes
    {
      Entries() + Recorded(alg, sh.route[base], Upstream)
    }

    constructor (alg: Algebra<S, C>, base: Node<C>, ghost sh: Shape<S, C>)
      requires Streams.Valid(alg, sh) && base in sh.nodes
      ensures Valid(sh) && this.alg == alg && this.base == base && Entries() == []
    {
      this.alg, this.base, changes, kinds := alg, base, [], [];
    }

    /** Walks to the end of the stream, recording what it meets. */
    method PullChanges(kind: Kind, ghost sh: Shape<S, C>)
      requires Valid(sh)
      modifies this
      ensures Valid(sh) && base == sh.last
      ensures Entries() == old(Entries()) + Recorded(alg, sh.route[old(base)], kind)
    {
      ghost var goal := Entries() + Recorded(alg, sh.route[base], kind);
      while base.next != null
        invariant Valid(sh) && Entries() + Recorded(alg, sh.route[base], kind) == goal
        decreases |sh.route[base]|
      {
        assert Step(alg, base, sh);
        ghost var before, rest := Entries(), Recorded(alg, sh.route[base.next], kind);
        var c := base.c;
        assert sh.route[base][1..] == sh.route[base.next];
        base := base.next;
        if !alg.isNil(c) {
          changes, kinds := changes + [c], kinds + [kind];
          assert Entries() == before + [Entry(kind, c)];
          assert before + ([Entry(kind, c)] + rest) == Entries() + rest;
        } else {
          assert before + ([] + rest) == before + rest;
        }
      }
      assert Step(alg, base, sh);
    }

    /** getUndoChange, up to the position found. */
    method FindUndo() returns (r: Option<nat>)
      requires Paired()
      ensures r == UndoScan(Entries(), |changes|, 0)
    {
      var skipCount: nat, n: nat := 0, |changes|;
      while n > 0
        invariant n <= |changes| && UndoScan(Entries(), |changes|, 0) == UndoScan(Entries(), n, skipCount)
      {
        n := n - 1;
        match kinds[n] {
          case Redone | Local =>
            if skipCount == 0 {
              return Some(n);
            }
            skipCount := skipCount - 1;
          case Undone => skipCount := skipCount + 1;
          case Upstream =>
        }
      }
      r := None;
    }

    /** getRedoChange, up to the position found. */
    method FindRedo() returns (r: Option<nat>)
      requires Paired()
      ensures r == RedoScan(Entries(), |changes|, 0)
    {
      var skipCount: nat, n: nat := 0, |changes|;
      while n > 0
        invariant n <= |changes| && RedoScan(Entries(), |changes|, 0) == RedoScan(Entries(), n, skipCount)
      {
        n := n - 1;
        match kinds[n] {
          case Undone =>
            if skipCount == 0 {
              return Some(n);
            }
            skipCount := skipCount - 1;
          case Redone => skipCount := skipCount + 1;
          case Local => return None;
          case Upstream =>
        }
      }
      r := None;
    }

    /** undoAt: the revert, merged past what is left of the later changes. */
    method ChangeAt(offset: nat) returns (c: C)
      requires Paired() && offset < |changes|
      ensures c == UndoAt(alg, Entries(), offset)
    {
      c := alg.revert(changes[offset]);
      var rest := Simplify(changes[offset + 1..], kinds[offset + 1..], Entries(), offset + 1);
      ghost var start := c;
      for i := 0 to |rest|
        invariant Ascend(alg, start, rest).last == Ascend(alg, c, rest[i..]).last
      {
        c := alg.merge(rest[i], c).0;
      }
    }

    /** Appends on a node of the stream and records what becomes of the change at the end. */
    method Perform(n: Node<C>, c: C, kind: Kind, ghost sh: Shape<S, C>)
      returns (result: Node<C>, ghost after: Shape<S, C>, ghost x: C)
      requires Valid(sh) && Convergent(alg) && base == sh.last && n in sh.nodes && alg.apply(sh.value[n], c).Some?
      modifies this, sh.last
      ensures Valid(after) && base == after.last && fresh(after.nodes - sh.nodes)
      ensures result in after.nodes && after.value[result] == alg.apply(sh.value[n], c).value
      ensures x == Carry(alg, c, sh.route[n], false).last
      ensures Some(after.value[after.last]) == alg.apply(sh.value[sh.last], x)
      ensures Entries() == old(Entries()) + (if alg.isNil(x) then [] else [Entry(kind, x)])
    {
      result, after, x := Apply(alg, n, c, false, sh);
      assert after.route[base] == [x] by {
        assert sh.route[base] == [] && after.route[base] == sh.route[base] + [x];
      }
      assert Recorded(alg, [x], kind) == if alg.isNil(x) then [] else [Entry(kind, x)] by {
        assert [x][1..] == [];
      }
      PullChanges(kind, after);
    }

    /** The history shown by this stack: what is recorded, and the document at the end of the stream. */
    ghost function Shown(sh: Shape<S, C>): History<S, C>
      requires Valid(sh)
      reads this, sh.nodes
    {
      History(Entries(), sh.value[sh.last])
    }

    ghost function Behind(sh: Shape<S, C>): History<S, C>
      requires Valid(sh)
      reads this, sh.nodes
    {
      History(Synced(sh), sh.value[sh.last])
    }

    /** Undo: after recording what came from upstream, the step of module Undo. */
    method Undo(ghost sh: Shape<S, C>) returns (ghost after: Shape<S, C>)
      requires Valid(sh) && Convergent(alg) && Act(alg, Behind(sh), UndoIt).Some?
      modifies this, sh.last
      ensures Valid(after) && base == after.last
      ensures Act(alg, old(Behind(sh)), UndoIt) == Some(Shown(after))
    {
      PullChanges(Upstream, sh);
      after := sh;
      var found := FindUndo();
      if found.Some? {
        var c := ChangeAt(found.value);
        var node;
        ghost var x;
        node, after, x := Perform(base, c, Undone, sh);
        ActAdds(alg, old(Behind(sh)), UndoIt, Entry(Undone, c), Shown(after));
      }
    }

    method Redo(ghost sh: Shape<S, C>) returns (ghost after: Shape<S, C>)
      requires Valid(sh) && Convergent(alg) && Act(alg, Behind(sh), RedoIt).Some?
      modifies this, sh.last
      ensures Valid(after) && base == after.last
      ensures Act(alg, old(Behind(sh)), RedoIt) == Some(Shown(after))
    {
      PullChanges(Upstream, sh);
      after := sh;
      var found := FindRedo();
      if found.Some? {
        var c := ChangeAt(found.value);
        var node;
        ghost var x;
        node, after, x := Perform(base, c, Redone, sh);
        ActAdds(alg, old(Behind(sh)), RedoIt, Entry(Redone, c), Shown(after));
      }
    }

    /** A local change appended on any node of the stream: one edit, in the form it has at the end. */
    method Append(n: Node<C>, c: C, ghost sh: Shape<S, C>)
      returns (result: Node<C>, ghost after: Shape<S, C>, ghost x: C)
      requires Valid(sh) && Convergent(alg) && n in sh.nodes && alg.apply(sh.value[n], c).Some?
      modifies this, sh.last
      ensures Valid(after) && base == after.last
      ensures result in after.nodes && after.value[result] == alg.apply(sh.value[n], c).value
      ensures x == Carry(alg, c, sh.route[n], false).last
      ensures Act(alg, old(Behind(sh)), Edit(x)) == Some(Shown(after))
    {
      PullChanges(Upstream, sh);
      result, after, x := Perform(n, c, Local, sh);
      ActAdds(alg, old(Behind(sh)), Edit(x), Entry(Local, x), Shown(after));
    }
  }
}

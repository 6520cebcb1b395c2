/** Moves of a block inside a sequence: what a move does (changes/types/generic.go) and how two
    concurrent moves are merged (changes/move.go). */
module Moves {
  import A = MoveArithmetic

  /** Shift `count` elements starting at `offset` by `distance`, which is negative for a move to the left. */
  datatype Move = Move(offset: int, count: nat, distance: int) {

    /** The move stays inside a sequence of length n. */
    predicate Fits(n: nat) { A.Fits(n, offset, count, distance) }

    predicate IsNoop() { count == 0 || distance == 0 }

    function Revert(): Move { Move(offset + distance, count, -distance) }

    /** The same shuffle as a move to the right. */
    function Normalize(): Move {
      if distance < 0 then Move(offset + distance, -distance, count) else this
    }

    function Dest(): int { A.Dest(offset, count, distance) }

    function WithDest(dest: int): Move { this.(distance := A.DistanceTo(offset, count, dest)) }

    predicate Contains(idx: int) { offset < idx < offset + count }

    function MapPoint(idx: int): int { A.MapPoint(offset, count, distance, idx) }

    /** Where the element at idx ends up. */
    function MapIndex(idx: int): int { A.MapIndex(offset, count, distance, idx) }

    /** The index whose element ends up at position `at`. */
    function Source(at: int): int { A.Source(offset, count, distance, at) }
  }

  /** The effect of a move: cut the block of the normalized move out and splice it back in. */
  function Shift<T>(s: seq<T>, m: Move): (r: seq<T>)
    requires m.Fits(|s|)
    ensures |r| == |s|
  {
    var k := m.Normalize();
    var slice := s[k.offset..k.offset + k.count];
    var rest := s[..k.offset] + s[k.offset + k.count..];
    rest[..k.offset + k.distance] + slice + rest[k.offset + k.distance..]
  }

  ghost predicate FitAll(n: nat, ms: seq<Move>) {
    forall i :: 0 <= i < |ms| ==> ms[i].Fits(n)
  }

  function ShiftAll<T>(s: seq<T>, ms: seq<Move>): (r: seq<T>)
    requires FitAll(|s|, ms)
    ensures |r| == |s|
    decreases |ms|
  {
    if ms == [] then s else ShiftAll(Shift(s, ms[0]), ms[1..])
  }

  function SourceAll(ms: seq<Move>, at: int): int {
    if ms == [] then at else ms[0].Source(SourceAll(ms[1..], at))
  }

  /** Position `at` after a move holds the element of Source(at). */
  lemma ShiftSource<T>(s: seq<T>, m: Move, at: nat)
    requires m.Fits(|s|) && at < |s|
    ensures 0 <= m.Source(at) < |s|
    ensures Shift(s, m)[at] == s[m.Source(at)]
  {
  }

  /** The cut-and-splice implementation is the permutation described by MapIndex. */
  lemma ShiftMapsIndex<T>(s: seq<T>, m: Move, i: nat)
    requires m.Fits(|s|) && i < |s|
    ensures 0 <= m.MapIndex(i) < |s|
    ensures Shift(s, m)[m.MapIndex(i)] == s[i]
  {
    A.SourceInvertsMapIndex(|s|, m.offset, m.count, m.distance, i);
    ShiftSource(s, m, m.MapIndex(i));
  }

  lemma {:induction false} ShiftAllSource<T>(s: seq<T>, ms: seq<Move>, at: nat)
    requires FitAll(|s|, ms) && at < |s|
    ensures 0 <= SourceAll(ms, at) < |s|
    ensures ShiftAll(s, ms)[at] == s[SourceAll(ms, at)]
    decreases |ms|
  {
    if ms != [] {
      ShiftAllSource(Shift(s, ms[0]), ms[1..], at);
      ShiftSource(s, ms[0], SourceAll(ms[1..], at));
    }
  }

  /** Reverting a move restores the sequence. */
  lemma ShiftRevert<T>(s: seq<T>, m: Move)
    requires m.Fits(|s|)
    ensures m.Revert().Fits(|s|)
    ensures Shift(Shift(s, m), m.Revert()) == s
  {
    forall i | 0 <= i < |s|
      ensures Shift(Shift(s, m), m.Revert())[i] == s[i]
    {
      ShiftSource(Shift(s, m), m.Revert(), i);
      ShiftMapsIndex(s, m, i);
      assert m.Revert().Source(i) == m.MapIndex(i);
    }
  }

  // ----- merging two moves -----

  /** The transformed moves of each side: `theirs` follow the receiver, `mine` follow the argument. */
  datatype Pair = Pair(theirs: seq<Move>, mine: seq<Move>) {
    function Swap(): Pair { Pair(mine, theirs) }
  }

  function MergeMoves(m: Move, o: Move): Pair {
    if m == o then Pair([], [])
    else if m.IsNoop() || o.IsNoop() then Pair([o], [m])
    else if m.offset >= o.offset + o.count || o.offset >= m.offset + m.count then MergeDisjoint(m, o)
    else if m.offset <= o.offset && m.offset + m.count >= o.offset + o.count then MergeContained(m, o)
    else if m.offset >= o.offset && m.offset + m.count <= o.offset + o.count then MergeContained(o, m).Swap()
    else if m.offset < o.offset then MergeRightOverlap(m, o)
    else MergeRightOverlap(o, m).Swap()
  }

  function MergeDisjoint(m: Move, o: Move): Pair {
    if !m.Contains(o.Dest()) && !o.Contains(m.Dest()) then MergeApart(m, o)
    else if m.Contains(o.Dest()) && o.Contains(m.Dest()) then MergeCrossed(m, o)
    else if o.Contains(m.Dest()) then MergeDestInside(o, m).Swap()
    else MergeDestInside(m, o)
  }

  /** Disjoint blocks, o's destination strictly inside m's block: m grows by o. */
  function MergeDestInside(m: Move, o: Move): Pair {
    var o1 := Move(A.EnteredOffset(m.offset, m.count, m.distance, o.offset), o.count,
                   A.EnteredDistance(m.offset, m.count, m.distance, o.offset, o.count, o.distance));
    var m1 := Move(A.GrownOffset(m.offset, o.offset, o.count), m.count + o.count,
                   A.GrownDistance(m.offset, m.count, m.distance, o.offset, o.count, o.distance));
    Pair([o1], [m1])
  }

  /** Disjoint blocks, neither destination inside the other block. */
  function MergeApart(m: Move, o: Move): Pair {
    var mdest, odest := m.Dest(), o.Dest();
    var o1 := Move(m.MapPoint(o.offset), o.count, 0).WithDest(m.MapPoint(odest));
    var o2 := if odest == mdest then o1.WithDest(m.offset + m.distance) else o1;
    var m1 := Move(o.MapPoint(m.offset), m.count, 0).WithDest(o.MapPoint(mdest));
    Pair([o2], [m1])
  }

  /** Disjoint blocks, each moved into the middle of the other. */
  function MergeCrossed(m: Move, o: Move): Pair
    requires m.Contains(o.Dest()) && o.Contains(m.Dest())
  {
    var leftCount, enter := m.Dest() - o.offset, o.Dest() - m.offset;
    var left := Move(m.offset + m.distance - leftCount, leftCount, enter);
    var right := Move(m.offset + m.distance + m.count, o.count - leftCount, enter - m.count);
    var both := Move(o.offset + o.distance - enter, m.count + o.count,
                     A.CrossedGap(m.offset, m.count, o.offset, o.count));
    Pair([left, right], [both])
  }

  predicate RightOverlap(m: Move, o: Move) {
    m.offset < o.offset < m.offset + m.count < o.offset + o.count
  }

  /** After o, puts the part of o's block that m also moves back where it was. */
  function UndoOverlap(m: Move, o: Move): Move
    requires RightOverlap(m, o)
  {
    var overlap := m.offset + m.count - o.offset;
    Move(o.offset + o.distance, overlap, A.HeadBack(o.count, o.distance, overlap))
  }

  /** What o does to the elements m does not move. */
  function RestOfOverlap(m: Move, o: Move): Move
    requires RightOverlap(m, o)
  {
    var overlap := m.offset + m.count - o.offset;
    Move(o.offset + overlap, o.count - overlap, A.HeadRest(o.distance, overlap))
  }

  /** The tail of m's block is the head of o's block: undo the common part of o, then merge the rest. */
  function MergeRightOverlap(m: Move, o: Move): Pair
    requires RightOverlap(m, o)
  {
    var p := MergeDisjoint(m, RestOfOverlap(m, o));
    Pair(p.theirs, [UndoOverlap(m, o)] + p.mine)
  }

  /** o's block lies within m's block. */
  function MergeContained(m: Move, o: Move): Pair
    requires m.offset <= o.offset && m.offset + m.count >= o.offset + o.count
  {
    if m.offset <= o.Dest() <= m.offset + m.count then MergeStaying(m, o)
    else if o.Dest() == m.Dest() then MergeRivals(m, o)
    else MergeLeaving(m, o)
  }

  /** o shuffles elements inside m's block: it is carried along. */
  function MergeStaying(m: Move, o: Move): Pair {
    Pair([Move(o.offset + m.distance, o.count, o.distance)], [m])
  }

  /** o and the whole of m go to the same place. */
  function MergeRivals(m: Move, o: Move): Pair
    requires m.count >= o.count
  {
    var o1 := Move(o.offset + m.distance, o.count, o.distance).WithDest(m.offset + m.distance);
    var m1 := Move(A.RivalOffset(m.offset, o.count, o.distance), m.count - o.count, m.distance)
                .WithDest(o.offset + o.count + o.distance);
    Pair([o1], [m1])
  }

  /** o takes its elements out of m's block. */
  function MergeLeaving(m: Move, o: Move): Pair
    requires m.count >= o.count
  {
    var o1 := Move(o.offset + m.distance, o.count, o.distance).WithDest(m.MapPoint(o.Dest()));
    var m1 := Move(o.MapPoint(m.offset), m.count - o.count, m.distance).WithDest(o.MapPoint(m.Dest()));
    Pair([o1], [m1])
  }

  // ----- both orders reach the same permutation -----

  ghost predicate FitBoth(n: nat, p: Pair) { FitAll(n, p.theirs) && FitAll(n, p.mine) }

  /** m then p.theirs and o then p.mine bring position `at` back to the same source. */
  predicate SourcesAgree(m: Move, o: Move, p: Pair, at: int) {
    m.Source(SourceAll(p.theirs, at)) == o.Source(SourceAll(p.mine, at))
  }

  ghost predicate Real(n: nat, m: Move) { m.Fits(n) && !m.IsNoop() }

  lemma SourceOne(a: Move, at: int)
    ensures SourceAll([a], at) == a.Source(at)
  {
    assert SourceAll([], at) == at;
  }

  lemma SourceTwo(a: Move, b: Move, at: int)
    ensures SourceAll([a, b], at) == a.Source(b.Source(at))
  {
    assert [a, b][1..] == [b];
    SourceOne(b, at);
  }

  lemma AgreeOne(m: Move, o: Move, o1: Move, m1: Move, at: int)
    requires m.Source(o1.Source(at)) == o.Source(m1.Source(at))
    ensures SourcesAgree(m, o, Pair([o1], [m1]), at)
  {
    SourceOne(o1, at);
    SourceOne(m1, at);
  }

  lemma AgreeTwo(m: Move, o: Move, o1: Move, o2: Move, m1: Move, at: int)
    requires m.Source(o1.Source(o2.Source(at))) == o.Source(m1.Source(at))
    ensures SourcesAgree(m, o, Pair([o1, o2], [m1]), at)
  {
    SourceTwo(o1, o2, at);
    SourceOne(m1, at);
  }

  lemma FitOne(n: nat, a: Move, b: Move)
    requires a.Fits(n) && b.Fits(n)
    ensures FitBoth(n, Pair([a], [b]))
  {
  }

  lemma ApartFits(n: nat, m: Move, o: Move)
    requires Real(n, m) && Real(n, o)
    requires A.Apart(m.offset, m.count, m.distance, o.offset, o.count, o.distance)
    ensures FitBoth(n, MergeApart(m, o))
  {
    A.ApartFits(n, m.offset, m.count, m.distance, o.offset, o.count, o.distance);
    var p := MergeApart(m, o);
    FitOne(n, p.theirs[0], p.mine[0]);
  }

  lemma DestInsideFits(n: nat, m: Move, o: Move)
    requires Real(n, m) && Real(n, o)
    requires A.DestInside(m.offset, m.count, m.distance, o.offset, o.count, o.distance)
    ensures FitBoth(n, MergeDestInside(m, o))
  {
    A.DestInsideFits(n, m.offset, m.count, m.distance, o.offset, o.count, o.distance);
    var p := MergeDestInside(m, o);
    FitOne(n, p.theirs[0], p.mine[0]);
  }

  lemma CrossedFits(n: nat, m: Move, o: Move)
    requires Real(n, m) && Real(n, o)
    requires A.Crossed(m.offset, m.count, m.distance, o.offset, o.count, o.distance)
    ensures FitBoth(n, MergeCrossed(m, o))
  {
    A.CrossedFits(n, m.offset, m.count, m.distance, o.offset, o.count, o.distance);
  }

  lemma DisjointFits(n: nat, m: Move, o: Move)
    requires Real(n, m) && Real(n, o)
    requires m.offset >= o.offset + o.count || o.offset >= m.offset + m.count
    ensures FitBoth(n, MergeDisjoint(m, o))
  {
    if !m.Contains(o.Dest()) && !o.Contains(m.Dest()) {
      ApartFits(n, m, o);
    } else if m.Contains(o.Dest()) && o.Contains(m.Dest()) {
      CrossedFits(n, m, o);
    } else if o.Contains(m.Dest()) {
      DestInsideFits(n, o, m);
    } else {
      DestInsideFits(n, m, o);
    }
  }

  lemma RivalsFits(n: nat, m: Move, o: Move)
    requires Real(n, m) && Real(n, o)
    requires A.Rivals(m.offset, m.count, m.distance, o.offset, o.count, o.distance)
    ensures FitBoth(n, MergeRivals(m, o))
  {
    A.RivalsFit(n, m.offset, m.count, m.distance, o.offset, o.count, o.distance);
    var p := MergeRivals(m, o);
    FitOne(n, p.theirs[0], p.mine[0]);
  }

  lemma LeavingFits(n: nat, m: Move, o: Move)
    requires Real(n, m) && Real(n, o)
    requires A.Leaves(m.offset, m.count, o.offset, o.count, o.distance) && o.Dest() != m.Dest()
    ensures FitBoth(n, MergeLeaving(m, o))
  {
    A.LeavesFit(n, m.offset, m.count, m.distance, o.offset, o.count, o.distance);
    var p := MergeLeaving(m, o);
    FitOne(n, p.theirs[0], p.mine[0]);
  }

  lemma ContainedFits(n: nat, m: Move, o: Move)
    requires Real(n, m) && Real(n, o)
    requires A.Within(m.offset, m.count, o.offset, o.count)
    ensures FitBoth(n, MergeContained(m, o))
  {
    if m.offset <= o.Dest() <= m.offset + m.count {
      FitOne(n, Move(o.offset + m.distance, o.count, o.distance), m);
    } else if o.Dest() == m.Dest() {
      RivalsFits(n, m, o);
    } else {
      LeavingFits(n, m, o);
    }
  }

  lemma RestIsReal(n: nat, m: Move, o: Move)
    requires Real(n, o) && RightOverlap(m, o)
    ensures UndoOverlap(m, o).Fits(n) && Real(n, RestOfOverlap(m, o))
  {
    A.UndoHead(n, o.offset, o.count, o.distance, m.offset + m.count - o.offset, 0);
  }

  lemma RightOverlapFits(n: nat, m: Move, o: Move)
    requires Real(n, m) && Real(n, o) && RightOverlap(m, o)
    ensures FitBoth(n, MergeRightOverlap(m, o))
  {
    RestIsReal(n, m, o);
    DisjointFits(n, m, RestOfOverlap(m, o));
  }

  /** The moves of both sides fit. */
  lemma MergeFits(n: nat, m: Move, o: Move)
    requires m.Fits(n) && o.Fits(n)
    ensures FitBoth(n, MergeMoves(m, o))
  {
    if m == o || m.IsNoop() || o.IsNoop() {
    } else if m.offset >= o.offset + o.count || o.offset >= m.offset + m.count {
      DisjointFits(n, m, o);
    } else if m.offset <= o.offset && m.offset + m.count >= o.offset + o.count {
      ContainedFits(n, m, o);
    } else if m.offset >= o.offset && m.offset + m.count <= o.offset + o.count {
      ContainedFits(n, o, m);
    } else if m.offset < o.offset {
      RightOverlapFits(n, m, o);
    } else {
      RightOverlapFits(n, o, m);
    }
  }

  lemma ApartAgrees(n: nat, m: Move, o: Move, at: int)
    requires Real(n, m) && Real(n, o)
    requires A.Apart(m.offset, m.count, m.distance, o.offset, o.count, o.distance)
    ensures SourcesAgree(m, o, MergeApart(m, o), at)
  {
    var o1, m1 := MergeApart(m, o).theirs[0], MergeApart(m, o).mine[0];
    A.ApartPoint(n, m.offset, m.count, m.distance, o.offset, o.count, o.distance,
         o1.offset, o1.count, o1.distance, m1.offset, m1.count, m1.distance, at);
    AgreeOne(m, o, o1, m1, at);
  }

  lemma DestInsideAgrees(n: nat, m: Move, o: Move, at: int)
    requires Real(n, m) && Real(n, o)
    requires A.DestInside(m.offset, m.count, m.distance, o.offset, o.count, o.distance)
    ensures SourcesAgree(m, o, MergeDestInside(m, o), at)
  {
    var o1, m1 := MergeDestInside(m, o).theirs[0], MergeDestInside(m, o).mine[0];
    A.DestInsidePoint(n, m.offset, m.count, m.distance, o.offset, o.count, o.distance,
         o1.offset, o1.count, o1.distance, m1.offset, m1.count, m1.distance, at);
    AgreeOne(m, o, o1, m1, at);
  }

  lemma CrossedAgrees(n: nat, m: Move, o: Move, at: int)
    requires Real(n, m) && Real(n, o)
    requires A.Crossed(m.offset, m.count, m.distance, o.offset, o.count, o.distance)
    ensures SourcesAgree(m, o, MergeCrossed(m, o), at)
  {
    var p := MergeCrossed(m, o);
    var a, b, q := p.theirs[0], p.theirs[1], p.mine[0];
    A.CrossedPoint(n, m.offset, m.count, m.distance, o.offset, o.count, o.distance,
                   m.Dest() - o.offset, o.Dest() - m.offset, a.offset, a.count, a.distance,
                   b.offset, b.count, b.distance, q.offset, q.count, q.distance, at);
    AgreeTwo(m, o, a, b, q, at);
  }

  lemma DisjointAgrees(n: nat, m: Move, o: Move, at: int)
    requires Real(n, m) && Real(n, o)
    requires m.offset >= o.offset + o.count || o.offset >= m.offset + m.count
    ensures SourcesAgree(m, o, MergeDisjoint(m, o), at)
  {
    if !m.Contains(o.Dest()) && !o.Contains(m.Dest()) {
      ApartAgrees(n, m, o, at);
    } else if m.Contains(o.Dest()) && o.Contains(m.Dest()) {
      CrossedAgrees(n, m, o, at);
    } else if o.Contains(m.Dest()) {
      DestInsideAgrees(n, o, m, at);
    } else {
      DestInsideAgrees(n, m, o, at);
    }
  }

  lemma StayingAgrees(n: nat, m: Move, o: Move, at: int)
    requires Real(n, m) && Real(n, o)
    requires A.Within(m.offset, m.count, o.offset, o.count) && m.offset <= o.Dest() <= m.offset + m.count
    ensures SourcesAgree(m, o, MergeStaying(m, o), at)
  {
    var o1 := MergeStaying(m, o).theirs[0];
    A.StaysPoint(n, m.offset, m.count, m.distance, o.offset, o.count, o.distance,
                 o1.offset, o1.count, o1.distance, at);
    AgreeOne(m, o, o1, m, at);
  }

  lemma RivalsAgrees(n: nat, m: Move, o: Move, at: int)
    requires Real(n, m) && Real(n, o)
    requires A.Rivals(m.offset, m.count, m.distance, o.offset, o.count, o.distance)
    ensures SourcesAgree(m, o, MergeRivals(m, o), at)
  {
    var o1, m1 := MergeRivals(m, o).theirs[0], MergeRivals(m, o).mine[0];
    A.RivalsPoint(n, m.offset, m.count, m.distance, o.offset, o.count, o.distance,
         o1.offset, o1.count, o1.distance, m1.offset, m1.count, m1.distance, at);
    AgreeOne(m, o, o1, m1, at);
  }

  lemma LeavingAgrees(n: nat, m: Move, o: Move, at: int)
    requires Real(n, m) && Real(n, o)
    requires A.Leaves(m.offset, m.count, o.offset, o.count, o.distance) && o.Dest() != m.Dest()
    ensures SourcesAgree(m, o, MergeLeaving(m, o), at)
  {
    var o1, m1 := MergeLeaving(m, o).theirs[0], MergeLeaving(m, o).mine[0];
    A.LeavesPoint(n, m.offset, m.count, m.distance, o.offset, o.count, o.distance,
         o1.offset, o1.count, o1.distance, m1.offset, m1.count, m1.distance, at);
    AgreeOne(m, o, o1, m1, at);
  }

  lemma ContainedAgrees(n: nat, m: Move, o: Move, at: int)
    requires Real(n, m) && Real(n, o)
    requires m.offset <= o.offset && m.offset + m.count >= o.offset + o.count
    ensures SourcesAgree(m, o, MergeContained(m, o), at)
  {
    if m.offset <= o.Dest() <= m.offset + m.count {
      StayingAgrees(n, m, o, at);
    } else if o.Dest() == m.Dest() {
      RivalsAgrees(n, m, o, at);
    } else {
      LeavingAgrees(n, m, o, at);
    }
  }

  /** If o followed by `undo` is `rest`, a merge with rest becomes a merge with o. */
  lemma AgreeAfterUndo(m: Move, o: Move, undo: Move, rest: Move, q: Pair, at: int)
    requires SourcesAgree(m, rest, q, at)
    requires o.Source(undo.Source(SourceAll(q.mine, at))) == rest.Source(SourceAll(q.mine, at))
    ensures SourcesAgree(m, o, Pair(q.theirs, [undo] + q.mine), at)
  {
    assert ([undo] + q.mine)[1..] == q.mine;
  }

  lemma UndoLeavesRest(n: nat, m: Move, o: Move, at: int)
    requires Real(n, o) && RightOverlap(m, o)
    ensures o.Source(UndoOverlap(m, o).Source(at)) == RestOfOverlap(m, o).Source(at)
  {
    A.UndoHead(n, o.offset, o.count, o.distance, m.offset + m.count - o.offset, at);
  }

  lemma RightOverlapAgrees(n: nat, m: Move, o: Move, at: int)
    requires Real(n, m) && Real(n, o) && RightOverlap(m, o)
    ensures SourcesAgree(m, o, MergeRightOverlap(m, o), at)
  {
    RestIsReal(n, m, o);
    var rest := RestOfOverlap(m, o);
    var q := MergeDisjoint(m, rest);
    DisjointAgrees(n, m, rest, at);
    UndoLeavesRest(n, m, o, SourceAll(q.mine, at));
    AgreeAfterUndo(m, o, UndoOverlap(m, o), rest, q, at);
  }

  lemma MergeAgrees(n: nat, m: Move, o: Move, at: int)
    requires m.Fits(n) && o.Fits(n)
    ensures SourcesAgree(m, o, MergeMoves(m, o), at)
  {
    if m == o {
    } else if m.IsNoop() || o.IsNoop() {
      AgreeOne(m, o, o, m, at);
    } else if m.offset >= o.offset + o.count || o.offset >= m.offset + m.count {
      DisjointAgrees(n, m, o, at);
    } else if m.offset <= o.offset && m.offset + m.count >= o.offset + o.count {
      ContainedAgrees(n, m, o, at);
    } else if m.offset >= o.offset && m.offset + m.count <= o.offset + o.count {
      ContainedAgrees(n, o, m, at);
    } else if m.offset < o.offset {
      RightOverlapAgrees(n, m, o, at);
    } else {
      RightOverlapAgrees(n, o, m, at);
    }
  }

  /** Convergence of two concurrent moves on every sequence they fit. */
  lemma MovesConverge<T>(s: seq<T>, m: Move, o: Move)
    requires m.Fits(|s|) && o.Fits(|s|)
    ensures FitAll(|s|, MergeMoves(m, o).theirs) && FitAll(|s|, MergeMoves(m, o).mine)
    ensures ShiftAll(Shift(s, m), MergeMoves(m, o).theirs) == ShiftAll(Shift(s, o), MergeMoves(m, o).mine)
  {
    var p := MergeMoves(m, o);
    MergeFits(|s|, m, o);
    forall at | 0 <= at < |s|
      ensures ShiftAll(Shift(s, m), p.theirs)[at] == ShiftAll(Shift(s, o), p.mine)[at]
    {
      ShiftAllSource(Shift(s, m), p.theirs, at);
      ShiftAllSource(Shift(s, o), p.mine, at);
      ShiftSource(s, m, SourceAll(p.theirs, at));
      ShiftSource(s, o, SourceAll(p.mine, at));
      MergeAgrees(|s|, m, o, at);
    }
  }
}

/** The index arithmetic behind moves, on plain integers: a move shifts the `n` elements from `off` by `d`.
    The lemmas say that the index maps of two merged moves commute, case by case of changes/move.go. */
module MoveArithmetic {

  predicate Fits(len: int, off: int, n: int, d: int) {
    0 <= off && 0 <= n && off + n <= len && 0 <= off + d && off + d + n <= len
  }

  /** A move that fits and changes something. */
  predicate Real(len: int, off: int, n: int, d: int) {
    Fits(len, off, n, d) && n != 0 && d != 0
  }

  function Dest(off: int, n: int, d: int): int {
    if d < 0 then off + d else off + d + n
  }

  function DistanceTo(off: int, n: int, dest: int): int {
    if dest - off - n < 0 then dest - off else dest - off - n
  }

  function MapPoint(off: int, n: int, d: int, idx: int): int {
    if off + d <= idx <= off then idx + n
    else if off + n <= idx < off + n + d then idx - n
    else idx
  }

  function MapIndex(off: int, n: int, d: int, idx: int): int {
    if off + d <= idx < off then idx + n
    else if off <= idx < off + n then idx + d
    else if off + n <= idx < off + n + d then idx - n
    else idx
  }

  /** The index whose element a move brings to position `at`. */
  function Source(off: int, n: int, d: int, at: int): int {
    if d >= 0 then
      if off <= at < off + d then at + n
      else if off + d <= at < off + d + n then at - d
      else at
    else
      if off + d <= at < off + d + n then at - d
      else if off + d + n <= at < off + n then at - n
      else at
  }

  lemma SourceInvertsMapIndex(len: int, off: int, n: int, d: int, i: int)
    requires Fits(len, off, n, d) && 0 <= i < len
    ensures 0 <= MapIndex(off, n, d, i) < len && Source(off, n, d, MapIndex(off, n, d, i)) == i
    ensures 0 <= Source(off, n, d, i) < len && MapIndex(off, n, d, Source(off, n, d, i)) == i
  {
  }

  // ----- disjoint blocks, neither destination inside the other block -----

  predicate Apart(mo: int, mn: int, md: int, oo: int, on: int, od: int) {
    && (mo >= oo + on || oo >= mo + mn)
    && !(mo < Dest(oo, on, od) < mo + mn) && !(oo < Dest(mo, mn, md) < oo + on)
  }

  /** The distance of o after m; the tie of equal destinations puts o before the moved block. */
  function ApartTheirs(mo: int, mn: int, md: int, oo: int, on: int, od: int): int {
    DistanceTo(MapPoint(mo, mn, md, oo), on,
               if Dest(oo, on, od) == Dest(mo, mn, md) then mo + md else MapPoint(mo, mn, md, Dest(oo, on, od)))
  }

  function ApartMine(mo: int, mn: int, md: int, oo: int, on: int, od: int): int {
    DistanceTo(MapPoint(oo, on, od, mo), mn, MapPoint(oo, on, od, Dest(mo, mn, md)))
  }

  predicate ApartPair(mo: int, mn: int, md: int, oo: int, on: int, od: int,
                      po: int, pn: int, pd: int, qo: int, qn: int, qd: int) {
    && po == MapPoint(mo, mn, md, oo) && pn == on && pd == ApartTheirs(mo, mn, md, oo, on, od)
    && qo == MapPoint(oo, on, od, mo) && qn == mn && qd == ApartMine(mo, mn, md, oo, on, od)
  }

  lemma ApartFits(len: int, mo: int, mn: int, md: int, oo: int, on: int, od: int)
    requires Real(len, mo, mn, md) && Real(len, oo, on, od) && Apart(mo, mn, md, oo, on, od)
    ensures Fits(len, MapPoint(mo, mn, md, oo), on, ApartTheirs(mo, mn, md, oo, on, od))
    ensures Fits(len, MapPoint(oo, on, od, mo), mn, ApartMine(mo, mn, md, oo, on, od))
  {
  }

  lemma ApartRightRight(len: int, mo: int, mn: int, md: int, oo: int, on: int, od: int,
    po: int, pn: int, pd: int, qo: int, qn: int, qd: int, at: int)
    requires Real(len, mo, mn, md) && Real(len, oo, on, od) && Apart(mo, mn, md, oo, on, od)
    requires ApartPair(mo, mn, md, oo, on, od, po, pn, pd, qo, qn, qd)
    requires md > 0 && od > 0
    ensures Source(mo, mn, md, Source(po, pn, pd, at)) == Source(oo, on, od, Source(qo, qn, qd, at))
  {
  }

  lemma ApartRightLeft(len: int, mo: int, mn: int, md: int, oo: int, on: int, od: int,
    po: int, pn: int, pd: int, qo: int, qn: int, qd: int, at: int)
    requires Real(len, mo, mn, md) && Real(len, oo, on, od) && Apart(mo, mn, md, oo, on, od)
    requires ApartPair(mo, mn, md, oo, on, od, po, pn, pd, qo, qn, qd)
    requires md > 0 && od < 0
    ensures Source(mo, mn, md, Source(po, pn, pd, at)) == Source(oo, on, od, Source(qo, qn, qd, at))
  {
  }

  lemma ApartLeftRight(len: int, mo: int, mn: int, md: int, oo: int, on: int, od: int,
    po: int, pn: int, pd: int, qo: int, qn: int, qd: int, at: int)
    requires Real(len, mo, mn, md) && Real(len, oo, on, od) && Apart(mo, mn, md, oo, on, od)
    requires ApartPair(mo, mn, md, oo, on, od, po, pn, pd, qo, qn, qd)
    requires md < 0 && od > 0
    ensures Source(mo, mn, md, Source(po, pn, pd, at)) == Source(oo, on, od, Source(qo, qn, qd, at))
  {
  }

  lemma ApartLeftLeft(len: int, mo: int, mn: int, md: int, oo: int, on: int, od: int,
    po: int, pn: int, pd: int, qo: int, qn: int, qd: int, at: int)
    requires Real(len, mo, mn, md) && Real(len, oo, on, od) && Apart(mo, mn, md, oo, on, od)
    requires ApartPair(mo, mn, md, oo, on, od, po, pn, pd, qo, qn, qd)
    requires md < 0 && od < 0
    ensures Source(mo, mn, md, Source(po, pn, pd, at)) == Source(oo, on, od, Source(qo, qn, qd, at))
  {
  }

  lemma ApartPoint(len: int, mo: int, mn: int, md: int, oo: int, on: int, od: int,
    po: int, pn: int, pd: int, qo: int, qn: int, qd: int, at: int)
    requires Real(len, mo, mn, md) && Real(len, oo, on, od) && Apart(mo, mn, md, oo, on, od)
    requires ApartPair(mo, mn, md, oo, on, od, po, pn, pd, qo, qn, qd)
    ensures Source(mo, mn, md, Source(po, pn, pd, at)) == Source(oo, on, od, Source(qo, qn, qd, at))
  {
    if md > 0 && od > 0 { ApartRightRight(len, mo, mn, md, oo, on, od, po, pn, pd, qo, qn, qd, at); }
    else if md > 0 { ApartRightLeft(len, mo, mn, md, oo, on, od, po, pn, pd, qo, qn, qd, at); }
    else if od > 0 { ApartLeftRight(len, mo, mn, md, oo, on, od, po, pn, pd, qo, qn, qd, at); }
    else { ApartLeftLeft(len, mo, mn, md, oo, on, od, po, pn, pd, qo, qn, qd, at); }
  }

  // ----- disjoint blocks, o's destination inside m's block -----

  predicate DestInside(mo: int, mn: int, md: int, oo: int, on: int, od: int) {
    && (mo >= oo + on || oo >= mo + mn)
    && (mo < Dest(oo, on, od) < mo + mn) && !(oo < Dest(mo, mn, md) < oo + on)
  }

  function GrownOffset(mo: int, oo: int, on: int): int { if oo <= mo then mo - on else mo }

  function GrownDistance(mo: int, mn: int, md: int, oo: int, on: int, od: int): int {
    var mdest, odest, off := Dest(mo, mn, md), Dest(oo, on, od), GrownOffset(mo, oo, on);
    var dest := if odest <= mdest <= oo then mdest + on else if oo < mdest <= odest then mdest - on else mdest;
    if dest <= off then dest - off else dest - off - (mn + on)
  }

  function EnteredOffset(mo: int, mn: int, md: int, oo: int): int {
    var mdest := Dest(mo, mn, md);
    if mo < oo < mdest then oo - mn else if mdest <= oo < mo then oo + mn else oo
  }

  function EnteredDistance(mo: int, mn: int, md: int, oo: int, on: int, od: int): int {
    var off, dest := EnteredOffset(mo, mn, md, oo), Dest(oo, on, od) + md;
    if dest <= off then dest - off else dest - off - on
  }

  lemma DestInsideFits(len: int, mo: int, mn: int, md: int, oo: int, on: int, od: int)
    requires Real(len, mo, mn, md) && Real(len, oo, on, od) && DestInside(mo, mn, md, oo, on, od)
    ensures Fits(len, EnteredOffset(mo, mn, md, oo), on, EnteredDistance(mo, mn, md, oo, on, od))
    ensures Fits(len, GrownOffset(mo, oo, on), mn + on, GrownDistance(mo, mn, md, oo, on, od))
  {
  }

  lemma DestInsidePoint(len: int, mo: int, mn: int, md: int, oo: int, on: int, od: int,
    po: int, pn: int, pd: int, qo: int, qn: int, qd: int, at: int)
    requires Real(len, mo, mn, md) && Real(len, oo, on, od) && DestInside(mo, mn, md, oo, on, od)
    requires po == EnteredOffset(mo, mn, md, oo) && pn == on && pd == EnteredDistance(mo, mn, md, oo, on, od)
    requires qo == GrownOffset(mo, oo, on) && qn == mn + on && qd == GrownDistance(mo, mn, md, oo, on, od)
    ensures Source(mo, mn, md, Source(po, pn, pd, at)) == Source(oo, on, od, Source(qo, qn, qd, at))
  {
  }

  // ----- disjoint blocks, each moved into the other -----

  predicate Crossed(mo: int, mn: int, md: int, oo: int, on: int, od: int) {
    && (mo >= oo + on || oo >= mo + mn)
    && (mo < Dest(oo, on, od) < mo + mn) && (oo < Dest(mo, mn, md) < oo + on)
  }

  /** How far the joined block has to travel. */
  function CrossedGap(mo: int, mn: int, oo: int, on: int): int {
    if oo - mo - mn < 0 then -(mo - oo - on) else oo - mo - mn
  }

  lemma CrossedFits(len: int, mo: int, mn: int, md: int, oo: int, on: int, od: int)
    requires Real(len, mo, mn, md) && Real(len, oo, on, od) && Crossed(mo, mn, md, oo, on, od)
    ensures var left, enter := Dest(mo, mn, md) - oo, Dest(oo, on, od) - mo;
            && Fits(len, mo + md - left, left, enter)
            && Fits(len, mo + md + mn, on - left, enter - mn)
            && Fits(len, oo + od - enter, mn + on, CrossedGap(mo, mn, oo, on))
  {
  }

  lemma CrossedPoint(len: int, mo: int, mn: int, md: int, oo: int, on: int, od: int, left: int, enter: int,
    ao: int, an: int, ad: int, bo: int, bn: int, bd: int, qo: int, qn: int, qd: int, at: int)
    requires Real(len, mo, mn, md) && Real(len, oo, on, od) && Crossed(mo, mn, md, oo, on, od)
    requires left == Dest(mo, mn, md) - oo && enter == Dest(oo, on, od) - mo
    requires ao == mo + md - left && an == left && ad == enter
    requires bo == mo + md + mn && bn == on - left && bd == enter - mn
    requires qo == oo + od - enter && qn == mn + on && qd == CrossedGap(mo, mn, oo, on)
    ensures Source(mo, mn, md, Source(ao, an, ad, Source(bo, bn, bd, at))) == Source(oo, on, od, Source(qo, qn, qd, at))
  {
  }

  // ----- o's block within m's block -----

  predicate Within(mo: int, mn: int, oo: int, on: int) { mo <= oo && oo + on <= mo + mn }

  lemma StaysPoint(len: int, mo: int, mn: int, md: int, oo: int, on: int, od: int, po: int, pn: int, pd: int, at: int)
    requires Real(len, mo, mn, md) && Real(len, oo, on, od) && Within(mo, mn, oo, on)
    requires mo <= Dest(oo, on, od) <= mo + mn
    requires po == oo + md && pn == on && pd == od
    ensures Source(mo, mn, md, Source(po, pn, pd, at)) == Source(oo, on, od, Source(mo, mn, md, at))
  {
  }

  predicate Leaves(mo: int, mn: int, oo: int, on: int, od: int) {
    Within(mo, mn, oo, on) && !(mo <= Dest(oo, on, od) <= mo + mn)
  }

  /** m and o go to the same place: o ends up in front of the rest of m. */
  predicate Rivals(mo: int, mn: int, md: int, oo: int, on: int, od: int) {
    Leaves(mo, mn, oo, on, od) && Dest(oo, on, od) == Dest(mo, mn, md)
  }

  function RivalOffset(mo: int, on: int, od: int): int { if od < 0 then mo + on else mo }

  lemma RivalsFit(len: int, mo: int, mn: int, md: int, oo: int, on: int, od: int)
    requires Real(len, mo, mn, md) && Real(len, oo, on, od) && Rivals(mo, mn, md, oo, on, od)
    ensures Fits(len, oo + md, on, DistanceTo(oo + md, on, mo + md))
    ensures var off := RivalOffset(mo, on, od); Fits(len, off, mn - on, DistanceTo(off, mn - on, oo + on + od))
  {
  }

  lemma RivalsPoint(len: int, mo: int, mn: int, md: int, oo: int, on: int, od: int,
    po: int, pn: int, pd: int, qo: int, qn: int, qd: int, at: int)
    requires Real(len, mo, mn, md) && Real(len, oo, on, od) && Rivals(mo, mn, md, oo, on, od)
    requires po == oo + md && pn == on && pd == DistanceTo(po, pn, mo + md)
    requires qo == RivalOffset(mo, on, od) && qn == mn - on && qd == DistanceTo(qo, qn, oo + on + od)
    ensures Source(mo, mn, md, Source(po, pn, pd, at)) == Source(oo, on, od, Source(qo, qn, qd, at))
  {
  }

  lemma LeavesFit(len: int, mo: int, mn: int, md: int, oo: int, on: int, od: int)
    requires Real(len, mo, mn, md) && Real(len, oo, on, od)
    requires Leaves(mo, mn, oo, on, od) && !Rivals(mo, mn, md, oo, on, od)
    ensures Fits(len, oo + md, on, DistanceTo(oo + md, on, MapPoint(mo, mn, md, Dest(oo, on, od))))
    ensures var off := MapPoint(oo, on, od, mo);
            Fits(len, off, mn - on, DistanceTo(off, mn - on, MapPoint(oo, on, od, Dest(mo, mn, md))))
  {
  }

  predicate LeavesPair(mo: int, mn: int, md: int, oo: int, on: int, od: int,
                       po: int, pn: int, pd: int, qo: int, qn: int, qd: int) {
    && po == oo + md && pn == on && pd == DistanceTo(po, pn, MapPoint(mo, mn, md, Dest(oo, on, od)))
    && qo == MapPoint(oo, on, od, mo) && qn == mn - on
    && qd == DistanceTo(qo, qn, MapPoint(oo, on, od, Dest(mo, mn, md)))
  }

  lemma LeavesRight(len: int, mo: int, mn: int, md: int, oo: int, on: int, od: int,
    po: int, pn: int, pd: int, qo: int, qn: int, qd: int, at: int)
    requires Real(len, mo, mn, md) && Real(len, oo, on, od)
    requires Leaves(mo, mn, oo, on, od) && !Rivals(mo, mn, md, oo, on, od)
    requires LeavesPair(mo, mn, md, oo, on, od, po, pn, pd, qo, qn, qd)
    requires od > 0
    ensures Source(mo, mn, md, Source(po, pn, pd, at)) == Source(oo, on, od, Source(qo, qn, qd, at))
  {
  }

  lemma LeavesLeft(len: int, mo: int, mn: int, md: int, oo: int, on: int, od: int,
    po: int, pn: int, pd: int, qo: int, qn: int, qd: int, at: int)
    requires Real(len, mo, mn, md) && Real(len, oo, on, od)
    requires Leaves(mo, mn, oo, on, od) && !Rivals(mo, mn, md, oo, on, od)
    requires LeavesPair(mo, mn, md, oo, on, od, po, pn, pd, qo, qn, qd)
    requires od < 0
    ensures Source(mo, mn, md, Source(po, pn, pd, at)) == Source(oo, on, od, Source(qo, qn, qd, at))
  {
  }

  lemma LeavesPoint(len: int, mo: int, mn: int, md: int, oo: int, on: int, od: int,
    po: int, pn: int, pd: int, qo: int, qn: int, qd: int, at: int)
    requires Real(len, mo, mn, md) && Real(len, oo, on, od)
    requires Leaves(mo, mn, oo, on, od) && !Rivals(mo, mn, md, oo, on, od)
    requires LeavesPair(mo, mn, md, oo, on, od, po, pn, pd, qo, qn, qd)
    ensures Source(mo, mn, md, Source(po, pn, pd, at)) == Source(oo, on, od, Source(qo, qn, qd, at))
  {
    if od > 0 {
      LeavesRight(len, mo, mn, md, oo, on, od, po, pn, pd, qo, qn, qd, at);
    } else {
      LeavesLeft(len, mo, mn, md, oo, on, od, po, pn, pd, qo, qn, qd, at);
    }
  }

  // ----- partial overlap -----

  function HeadBack(n: int, d: int, k: int): int { if d > 0 then -d else n - k - d }

  function HeadRest(d: int, k: int): int { if d > 0 then d else d - k }

  /** Moving a whole block and putting its first k elements back moves only the rest of the block. */
  lemma UndoHead(len: int, o: int, n: int, d: int, k: int, at: int)
    requires Real(len, o, n, d) && 0 < k < n
    ensures Fits(len, o + d, k, HeadBack(n, d, k)) && Real(len, o + k, n - k, HeadRest(d, k))
    ensures Source(o, n, d, Source(o + d, k, HeadBack(n, d, k), at)) == Source(o + k, n - k, HeadRest(d, k), at)
  {
  }

  function TailBack(n: int, d: int, k: int): int { if d < 0 then -d else k - d - n }

  function TailRest(d: int, k: int): int { if d < 0 then d else d + k }

  /** The same for the last k elements. */
  lemma UndoTail(len: int, o: int, n: int, d: int, k: int, at: int)
    requires Fits(len, o, n, d) && 0 < k < n
    ensures Fits(len, o + d + n - k, k, TailBack(n, d, k)) && Fits(len, o, n - k, TailRest(d, k))
    ensures Source(o, n, d, Source(o + d + n - k, k, TailBack(n, d, k), at)) == Source(o, n - k, TailRest(d, k), at)
  {
  }
}

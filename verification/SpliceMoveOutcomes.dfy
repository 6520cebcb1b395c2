/** What is left of a splice and a concurrent move (changes/splice.go, MergeMove): the merged sequence in
    every relative position, said without the edits that the merge produces. */
module SpliceMoveOutcomes {
  import opened Options
  import opened Moves
  import opened Splices
  import opened SpliceMoves
  import opened SpliceOutcomes

  /** v[lo..hi] with the splice made, if its run lies there; an insertion at lo does, one at hi does not. */
  function Segment<T(==)>(v: seq<T>, s: Splice<T>, lo: int, hi: int): seq<T>
    requires s.Fits(v) && 0 <= lo <= hi <= |v|
  {
    if lo <= s.offset < hi && End(s) <= hi then v[lo..s.offset] + s.after + v[End(s)..hi] else v[lo..hi]
  }

  /** The same up to the end of v, where an insertion does. */
  function Tail<T(==)>(v: seq<T>, s: Splice<T>, lo: int): seq<T>
    requires s.Fits(v) && 0 <= lo <= |v|
  {
    if lo <= s.offset then v[lo..s.offset] + s.after + v[End(s)..] else v[lo..]
  }

  /** The block of elements lo up to hi goes to a gap outside it, and the splice is made where its run is. */
  function Passing<T(==)>(v: seq<T>, s: Splice<T>, lo: int, hi: int, gap: int): seq<T>
    requires s.Fits(v) && 0 <= lo <= hi <= |v| && (0 <= gap <= lo || hi <= gap <= |v|)
  {
    if gap <= lo then Segment(v, s, 0, gap) + v[lo..hi] + Segment(v, s, gap, lo) + Tail(v, s, hi)
    else Segment(v, s, 0, lo) + Segment(v, s, hi, gap) + v[lo..hi] + Tail(v, s, gap)
  }

  /** `block` stands at the gap instead of at lo up to hi. */
  function Relocated<T(==)>(v: seq<T>, lo: int, hi: int, gap: int, block: seq<T>): seq<T>
    requires 0 <= lo <= hi <= |v| && (0 <= gap <= lo || hi <= gap <= |v|)
  {
    if gap <= lo then v[..gap] + block + v[gap..lo] + v[hi..] else v[..lo] + v[hi..gap] + block + v[gap..]
  }

  /** Where a block stands that goes into the run: behind what replaces it. */
  function GapBeside<T(==)>(s: Splice<T>, gap: int): int { if s.offset < gap < End(s) then End(s) else gap }

  /** The part of the block that is not in the run, if only a part is. */
  function Outside<T(==)>(s: Splice<T>, o: Move): (int, int) {
    if o.offset < s.offset < o.offset + o.count then (o.offset, s.offset)
    else if o.offset < End(s) < o.offset + o.count then (End(s), o.offset + o.count)
    else (o.offset, o.offset + o.count)
  }

  /** What the block has outside the run, if it does not contain it, goes past it. */
  function PassingOutside<T(==)>(v: seq<T>, s: Splice<T>, o: Move): seq<T>
    requires s.Fits(v) && o.Fits(|v|) && !Inside(o, s) && !Covers(o, s)
  {
    Passing(v, s, Outside(s, o).0, Outside(s, o).1, GapBeside(s, o.Dest()))
  }

  /** A shuffle inside the run is lost with it. Elements that leave the run are not: they go where the move puts
      them. A run inside the block goes with the block. Otherwise the run is replaced where it is, and what the
      block has outside the run goes to its destination. */
  function Outcome<T(==)>(v: seq<T>, s: Splice<T>, o: Move): seq<T>
    requires s.Fits(v) && o.Fits(|v|)
  {
    var lo, hi, gap := o.offset, o.offset + o.count, o.Dest();
    if StaysInside(o, s) then Cut(v, s)
    else if Inside(o, s) then
      if gap < s.offset then v[..gap] + v[lo..hi] + v[gap..s.offset] + s.after + v[End(s)..]
      else v[..s.offset] + s.after + v[End(s)..gap] + v[lo..hi] + v[gap..]
    else if Covers(o, s) then Relocated(v, lo, hi, gap, v[lo..s.offset] + s.after + v[End(s)..hi])
    else PassingOutside(v, s, o)
  }

  // ----- a move as cutting and pasting -----

  lemma CutAndPaste<T>(w: seq<T>, lo: int, hi: int, gap: int)
    requires 0 <= lo <= hi <= gap <= |w|
    ensures var rest := w[..lo] + w[hi..];
            rest[..lo + gap - hi] == w[..lo] + w[hi..gap] && rest[lo + gap - hi..] == w[gap..]
  {
  }

  lemma ShiftNormalized<T>(w: seq<T>, m: Move, k: Move)
    requires m.Fits(|w|) && k == m.Normalize()
    ensures k.Fits(|w|) && Shift(w, m) == w[..k.offset] + w[k.offset + k.count..k.offset + k.count + k.distance]
                                          + w[k.offset..k.offset + k.count] + w[k.offset + k.count + k.distance..]
  {
    CutAndPaste(w, k.offset, k.offset + k.count, k.offset + k.count + k.distance);
  }

  lemma ShiftLeft<T>(w: seq<T>, m: Move, lo: int, hi: int, gap: int)
    requires m.Fits(|w|) && m.distance < 0 && lo == m.offset && hi == lo + m.count && gap == lo + m.distance
    ensures Shift(w, m) == w[..gap] + w[lo..hi] + w[gap..lo] + w[hi..]
  {
    ShiftNormalized(w, m, Move(gap, lo - gap, hi - lo));
  }

  lemma ShiftRight<T>(w: seq<T>, m: Move, lo: int, hi: int, gap: int)
    requires m.Fits(|w|) && m.distance >= 0 && lo == m.offset && hi == lo + m.count && gap == hi + m.distance
    ensures Shift(w, m) == w[..lo] + w[hi..gap] + w[lo..hi] + w[gap..]
  {
    ShiftNormalized(w, m, m);
  }

  lemma ShiftNowhere<T>(w: seq<T>, m: Move)
    requires m.Fits(|w|) && m.distance == 0
    ensures Shift(w, m) == w
  {
  }

  /** Where a gap of v is after the splice; an insertion there comes behind it. */
  function GapAfter<T(==)>(s: Splice<T>, gap: int): int { if gap <= s.offset then gap else gap + s.Growth() }

  predicate Splits<T(==)>(s: Splice<T>, gap: int) { s.offset < gap < End(s) }

  lemma CutBefore<T>(v: seq<T>, w: seq<T>, s: Splice<T>, lo: int, hi: int)
    requires s.Fits(v) && w == Cut(v, s) && 0 <= lo <= hi <= s.offset
    ensures w[lo..hi] == v[lo..hi]
  {
    assert w[..s.offset] == v[..s.offset];
    assert w[..s.offset][lo..hi] == w[lo..hi];
  }

  lemma CutBehind<T>(v: seq<T>, w: seq<T>, s: Splice<T>, lo: int, hi: int)
    requires s.Fits(v) && w == Cut(v, s) && End(s) <= lo <= hi <= |v|
    ensures w[lo + s.Growth()..hi + s.Growth()] == v[lo..hi] && w[lo + s.Growth()..] == v[lo..]
  {
    assert w[End(s) + s.Growth()..] == v[End(s)..];
    assert w[End(s) + s.Growth()..][lo - End(s)..hi - End(s)] == w[lo + s.Growth()..hi + s.Growth()];
    assert w[End(s) + s.Growth()..][lo - End(s)..] == w[lo + s.Growth()..];
  }

  /** The spliced sequence around the run, which lo up to hi contain. */
  lemma CutAround<T>(v: seq<T>, w: seq<T>, s: Splice<T>, lo: int, hi: int)
    requires s.Fits(v) && 0 <= lo <= s.offset && End(s) <= hi <= |v| && w == Cut(v, s)
    ensures w[lo..hi + s.Growth()] == v[lo..s.offset] + s.after + v[End(s)..hi]
    ensures w[lo..] == v[lo..s.offset] + s.after + v[End(s)..]
  {
    CutBefore(v, w, s, lo, s.offset);
    CutBehind(v, w, s, End(s), hi);
    assert w[s.offset..s.offset + |s.after|] == s.after;
    Joined(w, lo, s.offset, s.offset + |s.after|, hi + s.Growth());
    Joined(w, lo, s.offset, s.offset + |s.after|, |w|);
  }

  lemma Joined<T>(w: seq<T>, a: int, b: int, c: int, d: int)
    requires 0 <= a <= b <= c <= d <= |w|
    ensures w[a..d] == w[a..b] + w[b..c] + w[c..d]
  {
  }

  lemma CutSegment<T>(v: seq<T>, w: seq<T>, s: Splice<T>, lo: int, hi: int)
    requires s.Fits(v) && w == Cut(v, s) && 0 <= lo <= hi <= |v| && !Splits(s, lo) && !Splits(s, hi)
    ensures 0 <= GapAfter(s, lo) <= GapAfter(s, hi) <= |w|
    ensures w[GapAfter(s, lo)..GapAfter(s, hi)] == Segment(v, s, lo, hi)
  {
    if hi <= s.offset {
      CutBefore(v, w, s, lo, hi);
    } else if lo <= s.offset {
      CutAround(v, w, s, lo, hi);
    } else {
      CutBehind(v, w, s, lo, hi);
    }
  }

  lemma CutTail<T>(v: seq<T>, w: seq<T>, s: Splice<T>, lo: int)
    requires s.Fits(v) && w == Cut(v, s) && 0 <= lo <= |v| && !Splits(s, lo)
    ensures 0 <= GapAfter(s, lo) <= |w| && w[GapAfter(s, lo)..] == Tail(v, s, lo)
  {
    if lo <= s.offset {
      CutAround(v, w, s, lo, |v|);
    } else {
      CutBehind(v, w, s, lo, |v|);
    }
  }

  /** The run is not in the block, nor an insertion at its ends. */
  predicate Beside<T(==)>(s: Splice<T>, lo: int, hi: int) {
    (hi <= s.offset || End(s) <= lo) && (s.before == [] ==> s.offset != lo && s.offset != hi)
  }

  lemma PassingLeft<T>(v: seq<T>, w: seq<T>, s: Splice<T>, lo: int, hi: int, gap: int)
    requires s.Fits(v) && 0 <= gap <= lo < hi <= |v| && Beside(s, lo, hi) && !Splits(s, gap) && w == Cut(v, s)
    ensures 0 <= GapAfter(s, gap) <= GapAfter(s, lo) && GapAfter(s, hi) == GapAfter(s, lo) + (hi - lo) <= |w|
    ensures var at, to, g := GapAfter(s, lo), GapAfter(s, hi), GapAfter(s, gap);
            Relocated(w, at, to, g, w[at..to]) == Passing(v, s, lo, hi, gap)
  {
    CutSegment(v, w, s, lo, hi);
    CutSegment(v, w, s, 0, gap);
    CutSegment(v, w, s, gap, lo);
    CutTail(v, w, s, hi);
    assert w[..GapAfter(s, gap)] == Segment(v, s, 0, gap) && Segment(v, s, lo, hi) == v[lo..hi];
  }

  lemma PassingRight<T>(v: seq<T>, w: seq<T>, s: Splice<T>, lo: int, hi: int, gap: int)
    requires s.Fits(v) && 0 <= lo < hi <= gap <= |v| && Beside(s, lo, hi) && !Splits(s, gap) && w == Cut(v, s)
    ensures 0 <= GapAfter(s, lo) && GapAfter(s, hi) == GapAfter(s, lo) + (hi - lo) <= GapAfter(s, gap) <= |w|
    ensures var at, to, g := GapAfter(s, lo), GapAfter(s, hi), GapAfter(s, gap);
            Relocated(w, at, to, g, w[at..to]) == Passing(v, s, lo, hi, gap)
  {
    CutSegment(v, w, s, lo, hi);
    CutSegment(v, w, s, 0, lo);
    CutSegment(v, w, s, hi, gap);
    CutTail(v, w, s, gap);
    assert w[..GapAfter(s, lo)] == Segment(v, s, 0, lo) && Segment(v, s, lo, hi) == v[lo..hi];
  }

  /** Moving nothing. */
  lemma ShiftEmpty<T>(w: seq<T>, m: Move)
    requires m.Fits(|w|) && m.count == 0
    ensures Shift(w, m) == w
  {
  }

  lemma ThreeParts<T>(w: seq<T>, s: Splice<T>, v: seq<T>, first: int, second: int)
    requires s.Fits(v) && w == Cut(v, s) && 0 <= first <= second <= |v| && !Splits(s, first) && !Splits(s, second)
    ensures Segment(v, s, 0, first) + Segment(v, s, first, second) + Tail(v, s, second) == w
  {
    var at, to := GapAfter(s, first), GapAfter(s, second);
    CutSegment(v, w, s, 0, first);
    CutSegment(v, w, s, first, second);
    CutTail(v, w, s, second);
    assert w[0..at] == w[..at];
    assert w == w[..at] + w[at..to] + w[to..];
  }

  lemma PassingEmpty<T>(v: seq<T>, w: seq<T>, s: Splice<T>, lo: int, gap: int, r: seq<T>)
    requires s.Fits(v) && w == Cut(v, s) && Beside(s, lo, lo) && 0 <= lo <= |v| && 0 <= gap <= |v| && !Splits(s, gap)
    requires r == Passing(v, s, lo, lo, gap)
    ensures r == w
  {
    if gap <= lo {
      ThreeParts(w, s, v, gap, lo);
      assert Segment(v, s, 0, gap) + [] == Segment(v, s, 0, gap);
    } else {
      ThreeParts(w, s, v, lo, gap);
      var front := Segment(v, s, 0, lo) + Segment(v, s, lo, gap);
      assert front + [] == front;
    }
  }

  // ----- the cases -----

  lemma MovePieces<T>(w: seq<T>, m: Move, to: int, gap: int)
    requires m.Fits(|w|) && to == m.offset + m.count && 0 <= gap <= |w|
    requires if gap <= m.offset then gap == (if m.distance == 0 then m.offset else m.Dest()) else gap == m.Dest()
    ensures gap <= m.offset || to <= gap
    ensures Shift(w, m) == Relocated(w, m.offset, to, gap, w[m.offset..to])
  {
    if m.distance < 0 {
      ShiftLeft(w, m, m.offset, to, gap);
    } else if gap > m.offset {
      ShiftRight(w, m, m.offset, to, gap);
    } else {
      ShiftNowhere(w, m);
      assert w == w[..gap] + w[m.offset..to] + w[gap..m.offset] + w[to..];
    }
  }

  /** The move m of the spliced sequence takes the block to the gap; if it is there already, m does nothing. */
  predicate Takes<T(==)>(s: Splice<T>, m: Move, lo: int, hi: int, gap: int) {
    && m.count == hi - lo && m.offset == GapAfter(s, lo)
    && if gap <= lo then GapAfter(s, gap) == if m.distance == 0 then m.offset else m.Dest()
       else hi <= gap && GapAfter(s, gap) == m.Dest()
  }

  /** A move that takes a block beside the run to where its gap is after the splice. */
  lemma PassingBlock<T>(v: seq<T>, w: seq<T>, s: Splice<T>, m: Move, lo: int, hi: int, gap: int, r: seq<T>)
    requires s.Fits(v) && 0 <= lo < hi <= |v| && Beside(s, lo, hi) && 0 <= gap <= |v| && !Splits(s, gap)
    requires w == Cut(v, s) && m.Fits(|w|) && Takes(s, m, lo, hi, gap) && r == Passing(v, s, lo, hi, gap)
    ensures Shift(w, m) == r
  {
    var to, g := GapAfter(s, hi), GapAfter(s, gap);
    if gap <= lo {
      PassingLeft(v, w, s, lo, hi, gap);
      assert g <= m.offset;
      MovePieces(w, m, to, g);
    } else {
      PassingRight(v, w, s, lo, hi, gap);
      MovePieces(w, m, to, g);
    }
  }

  lemma PassingMove<T>(v: seq<T>, w: seq<T>, s: Splice<T>, m: Move, lo: int, hi: int, gap: int, r: seq<T>)
    requires s.Fits(v) && 0 <= lo <= hi <= |v| && Beside(s, lo, hi) && 0 <= gap <= |v| && !Splits(s, gap)
    requires w == Cut(v, s) && m.Fits(|w|) && Takes(s, m, lo, hi, gap) && r == Passing(v, s, lo, hi, gap)
    ensures Shift(w, m) == r
  {
    if lo == hi {
      PassingEmpty(v, w, s, lo, gap, r);
      ShiftEmpty(w, m);
    } else {
      PassingBlock(v, w, s, m, lo, hi, gap, r);
    }
  }

  lemma MergeTakes<T>(v: seq<T>, s: Splice<T>, o: Move, m: Move, gap: int)
    requires Disjoint(o, s) && !Covers(o, s) && o.Fits(|v|) && s.Fits(v) && gap == GapBeside(s, o.Dest())
    requires SpliceMoves.MergeDisjoint(s, o).theirs == Some(ByMove(m))
    ensures 0 <= o.offset <= o.offset + o.count <= |v| && Beside(s, o.offset, o.offset + o.count)
    ensures Takes(s, m, o.offset, o.offset + o.count, gap) && 0 <= gap <= |v| && !Splits(s, gap)
  {
  }

  lemma RelocatedLeft<T>(v: seq<T>, w: seq<T>, s: Splice<T>, lo: int, hi: int, gap: int, block: seq<T>,
                        r: seq<T>)
    requires s.Fits(v) && w == Cut(v, s) && 0 <= gap <= lo <= s.offset && End(s) <= hi <= |v|
    requires block == v[lo..s.offset] + s.after + v[End(s)..hi] && r == Relocated(v, lo, hi, gap, block)
    ensures hi + s.Growth() <= |w| && Relocated(w, lo, hi + s.Growth(), gap, w[lo..hi + s.Growth()]) == r
  {
    CutAround(v, w, s, lo, hi);
    CutBefore(v, w, s, 0, gap);
    CutBefore(v, w, s, gap, lo);
    CutBehind(v, w, s, hi, |v|);
    assert w[..gap] == w[0..gap] && v[..gap] == v[0..gap];
  }

  lemma RelocatedRight<T>(v: seq<T>, w: seq<T>, s: Splice<T>, lo: int, hi: int, gap: int, to: int, g: int, r: seq<T>)
    requires s.Fits(v) && w == Cut(v, s) && 0 <= lo <= s.offset && End(s) <= hi <= gap <= |v| && lo < gap
    requires to == hi + s.Growth() && g == gap + s.Growth()
    requires r == v[..lo] + v[hi..gap] + (v[lo..s.offset] + s.after + v[End(s)..hi]) + v[gap..]
    ensures lo <= to <= g <= |w| && w[..lo] + w[to..g] + w[lo..to] + w[g..] == r
  {
    CutAround(v, w, s, lo, hi);
    CutBefore(v, w, s, 0, lo);
    CutBehind(v, w, s, hi, gap);
    CutBehind(v, w, s, gap, |v|);
    assert w[..lo] == w[0..lo] && v[..lo] == v[0..lo];
  }

  lemma CoveredLeft<T>(v: seq<T>, w: seq<T>, s: Splice<T>, m: Move, hi: int, block: seq<T>, r: seq<T>)
    requires s.Fits(v) && w == Cut(v, s) && 0 <= m.offset <= s.offset && End(s) <= hi <= |v|
    requires m.Fits(|w|) && m.offset + m.count == hi + s.Growth() && m.distance < 0
    requires block == v[m.offset..s.offset] + s.after + v[End(s)..hi]
    requires r == Relocated(v, m.offset, hi, m.Dest(), block)
    ensures Shift(w, m) == r
  {
    RelocatedLeft(v, w, s, m.offset, hi, m.Dest(), block, r);
    MovePieces(w, m, hi + s.Growth(), m.Dest());
  }

  lemma CoveredRight<T>(v: seq<T>, w: seq<T>, s: Splice<T>, m: Move, hi: int, block: seq<T>, r: seq<T>)
    requires s.Fits(v) && w == Cut(v, s) && 0 <= m.offset <= s.offset && End(s) <= hi <= |v|
    requires m.Fits(|w|) && m.offset + m.count == hi + s.Growth() && m.distance >= 0
    requires block == v[m.offset..s.offset] + s.after + v[End(s)..hi] && m.offset < hi
    requires hi + m.distance <= |v| && r == Relocated(v, m.offset, hi, hi + m.distance, block)
    ensures Shift(w, m) == r
  {
    var to, gap := hi + s.Growth(), hi + m.distance;
    RelocatedRight(v, w, s, m.offset, hi, gap, to, gap + s.Growth(), r);
    ShiftRight(w, m, m.offset, to, gap + s.Growth());
  }

  lemma TakenIs<T>(v: seq<T>, s: Splice<T>, o: Move, taken: seq<T>)
    requires s.Fits(v) && o.Fits(|v|) && Inside(o, s) && taken == Taken(s, o)
    ensures taken == v[o.offset..o.offset + o.count]
  {
    TakenAgrees(v, s, o, taken);
  }

  lemma RescuedOutcome<T>(v: seq<T>, w: seq<T>, s: Splice<T>, o: Move, gap: int, taken: seq<T>, c: Splice<T>,
                           r: seq<T>)
    requires s.Fits(v) && w == Cut(v, s) && o.Fits(|v|) && taken == v[o.offset..o.offset + o.count]
    requires c == Splice(c.offset, [], taken)
    requires 0 <= gap <= |v|
    requires (gap < s.offset && c.offset == gap) || (gap > End(s) && c.offset == gap + s.Growth())
    requires r == if gap < s.offset then v[..gap] + taken + v[gap..s.offset] + s.after + v[End(s)..]
                  else v[..s.offset] + s.after + v[End(s)..gap] + taken + v[gap..]
    ensures Cut(w, c) == r
  {
    if gap < s.offset {
      CutBefore(v, w, s, 0, gap);
      CutAround(v, w, s, gap, |v|);
      assert w[..gap] == v[..gap];
    } else {
      CutAround(v, w, s, 0, gap);
      CutBehind(v, w, s, gap, |v|);
      assert w[..gap + s.Growth()] == v[..s.offset] + s.after + v[End(s)..gap];
    }
  }

  lemma RestTakes<T>(v: seq<T>, s: Splice<T>, o: Move)
    requires s.Fits(v) && o.Fits(|v|) && Straddles(o, s)
    ensures var rest, (lo, hi) := RestOf(o, s), Outside(s, o);
            && rest.Fits(|v|) && Disjoint(rest, s) && !Covers(rest, s)
            && rest.offset == lo && rest.offset + rest.count == hi
            && GapBeside(s, rest.Dest()) == GapBeside(s, o.Dest())
  {
    RestIsDisjoint(v, s, o);
  }

  predicate Beyond<T(==)>(v: seq<T>, s: Splice<T>, o: Move, rest: Move) {
    && !Inside(o, s) && !Covers(o, s) && rest.Fits(|v|) && (rest.offset, rest.offset + rest.count) == Outside(s, o)
    && Disjoint(rest, s) && !Covers(rest, s) && GapBeside(s, rest.Dest()) == GapBeside(s, o.Dest())
  }

  lemma BeyondOutcome<T>(v: seq<T>, s: Splice<T>, o: Move, rest: Move)
    requires s.Fits(v) && o.Fits(|v|) && Beyond(v, s, o, rest)
    ensures var lo, hi, gap := rest.offset, rest.offset + rest.count, GapBeside(s, o.Dest());
            && (0 <= gap <= lo || hi <= gap <= |v|)
            && Outcome(v, s, o) == Passing(v, s, lo, hi, gap)
  {
    assert PassingOutside(v, s, o) == Passing(v, s, rest.offset, rest.offset + rest.count, GapBeside(s, o.Dest()));
  }

  lemma PassedOutcome<T>(v: seq<T>, w: seq<T>, s: Splice<T>, rest: Move, m: Move, gap: int, r: seq<T>)
    requires s.Fits(v) && rest.Fits(|v|) && w == Cut(v, s) && m.Fits(|w|) && Disjoint(rest, s) && !Covers(rest, s)
    requires SpliceMoves.MergeDisjoint(s, rest).theirs == Some(ByMove(m)) && gap == GapBeside(s, rest.Dest())
    requires 0 <= gap <= rest.offset || rest.offset + rest.count <= gap <= |v|
    requires r == Passing(v, s, rest.offset, rest.offset + rest.count, gap)
    ensures Shift(w, m) == r
  {
    MergeTakes(v, s, rest, m, gap);
    PassingMove(v, w, s, m, rest.offset, rest.offset + rest.count, gap, r);
  }

  lemma BesideOutcome<T>(v: seq<T>, w: seq<T>, s: Splice<T>, o: Move, rest: Move, m: Move, r: seq<T>)
    requires s.Fits(v) && o.Fits(|v|) && w == Cut(v, s) && m.Fits(|w|) && Beyond(v, s, o, rest)
    requires SpliceMoves.MergeDisjoint(s, rest).theirs == Some(ByMove(m)) && r == Outcome(v, s, o)
    ensures Shift(w, m) == r
  {
    BeyondOutcome(v, s, o, rest);
    PassedOutcome(v, w, s, rest, m, GapBeside(s, o.Dest()), r);
  }

  /** Which move follows the splice when the block is not in the run and the run not in the block. */
  lemma BesideMove<T>(v: seq<T>, s: Splice<T>, o: Move) returns (rest: Move)
    requires s.Fits(v) && o.Fits(|v|) && !Inside(o, s) && !Covers(o, s)
    ensures Beyond(v, s, o, rest) && MergeSpliceMove(s, o).theirs == SpliceMoves.MergeDisjoint(s, rest).theirs
  {
    rest := o;
    if !Disjoint(o, s) {
      RestTakes(v, s, o);
      rest := RestOf(o, s);
    }
  }

  lemma InsideOutcome<T>(v: seq<T>, w: seq<T>, s: Splice<T>, o: Move, c: Splice<T>, r: seq<T>)
    requires s.Fits(v) && o.Fits(|v|) && w == Cut(v, s) && c.Fits(w) && r == Outcome(v, s, o)
    requires Inside(o, s) && !StaysInside(o, s) && c == Rescue(s, o)
    ensures Cut(w, c) == r
  {
    TakenIs(v, s, o, c.after);
    RescuedOutcome(v, w, s, o, o.Dest(), c.after, c, r);
  }

  lemma AroundOutcome<T>(v: seq<T>, w: seq<T>, s: Splice<T>, o: Move, m: Move, r: seq<T>)
    requires s.Fits(v) && o.Fits(|v|) && w == Cut(v, s) && m.Fits(|w|) && r == Outcome(v, s, o)
    requires Covers(o, s) && !Inside(o, s) && m == Resized(o, s)
    ensures Shift(w, m) == r
  {
    var hi := o.offset + o.count;
    var block := v[o.offset..s.offset] + s.after + v[End(s)..hi];
    if o.distance < 0 {
      CoveredLeft(v, w, s, m, hi, block, r);
    } else {
      CoveredRight(v, w, s, m, hi, block, r);
    }
  }

  lemma MergedBy<T>(v: seq<T>, s: Splice<T>, o: Move, e: Option<Edit<T>>)
    requires s.Fits(v) && o.Fits(|v|) && e == MergeSpliceMove(s, o).theirs
    ensures StaysInside(o, s) ==> e == None
    ensures Inside(o, s) && !StaysInside(o, s) ==> e == Some(BySplice(Rescue(s, o)))
    ensures Covers(o, s) && !Inside(o, s) ==> e == Some(ByMove(Resized(o, s)))
    ensures !Covers(o, s) && !Inside(o, s) ==> e.Some? && e.value.ByMove?
    ensures e.Some? ==> e.value.Fits(Cut(v, s))
  {
    SpliceMoveConverges(v, s, o);
  }

  lemma TheirsOutcome<T>(v: seq<T>, w: seq<T>, s: Splice<T>, o: Move, e: Option<Edit<T>>, r: seq<T>)
    requires s.Fits(v) && o.Fits(|v|) && w == Cut(v, s) && e == MergeSpliceMove(s, o).theirs && r == Outcome(v, s, o)
    ensures e.Some? ==> e.value.Fits(w)
    ensures DoMaybe(w, e) == r
  {
    MergedBy(v, s, o, e);
    if Inside(o, s) {
      if !StaysInside(o, s) {
        InsideOutcome(v, w, s, o, e.value.splice, r);
      }
    } else if Covers(o, s) {
      AroundOutcome(v, w, s, o, e.value.move, r);
    } else {
      var rest := BesideMove(v, s, o);
      BesideOutcome(v, w, s, o, rest, e.value.move, r);
    }
  }

  /** The merged sequence, the splice being followed by what the move becomes, or the move by what the splice
      becomes. */
  lemma MergeOutcome<T>(v: seq<T>, s: Splice<T>, o: Move, p: Crossing<T>)
    requires s.Fits(v) && o.Fits(|v|) && p == MergeSpliceMove(s, o)
    ensures (p.theirs.Some? ==> p.theirs.value.Fits(Cut(v, s))) && SpliceMoves.FitAll(Shift(v, o), p.mine)
    ensures DoMaybe(Cut(v, s), p.theirs) == Outcome(v, s, o)
    ensures DoAll(Shift(v, o), p.mine) == Outcome(v, s, o)
  {
    SpliceMoveConverges(v, s, o);
    TheirsOutcome(v, Cut(v, s), s, o, p.theirs, Outcome(v, s, o));
  }
}

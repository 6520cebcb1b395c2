/** What merging two moves means for the elements (changes/move.go): the order in which two concurrent moves
    leave any two elements, said without the moves that the merge produces. */
module MoveOrders {
  import opened Moves
  import A = MoveArithmetic

  /** The elements that one side moves, and the gap they go to: before the element with that index. */
  datatype Block = Block(lo: int, count: int, dest: int) {
    predicate Has(e: int) { lo <= e < lo + count }

    predicate Around(gap: int) { lo < gap < lo + count }
  }

  /** Where an element belongs. Gap g is at 2g and an element that stays is at 2e + 1; two blocks at one gap
      stand side by side; within a block, `inner` and `at` say the same once more. */
  datatype Spot = Spot(place: int, side: int, inner: int, at: int) {
    predicate Before(other: Spot) {
      || place < other.place
      || (place == other.place && side < other.side)
      || (place == other.place && side == other.side && inner < other.inner)
      || (place == other.place && side == other.side && inner == other.inner && at < other.at)
    }
  }

  /** Block a goes to its destination, in front of block r if they go to the same gap, and inside r if that is
      where its destination is. Block r goes to its destination, and inside a if that is where it is and a
      does not go into r. Elements of both belong to a. */
  function SpotOf(r: Block, a: Block, e: int): Spot {
    if a.Has(e) then if r.Around(a.dest) then Spot(2 * r.dest, 1, 2 * a.dest, e) else Spot(2 * a.dest, 0, 2 * e + 1, 0)
    else if r.Has(e) then
      if !r.Around(a.dest) && a.Around(r.dest) then Spot(2 * a.dest, 0, 2 * r.dest, e)
      else Spot(2 * r.dest, 1, 2 * e + 1, 0)
    else Spot(2 * e + 1, 0, 0, 0)
  }

  predicate InOrder(r: Block, a: Block, x: int, y: int) { SpotOf(r, a, x).Before(SpotOf(r, a, y)) }

  function BlockOf(m: Move): Block { Block(m.offset, m.count, m.Dest()) }

  /** What the move takes behind index `from`. */
  function BlockFrom(m: Move, from: int): Block { Block(from, m.offset + m.count - from, m.Dest()) }

  /** m alone puts x before y. */
  predicate Puts(m: Move, x: int, y: int) { m.MapIndex(x) < m.MapIndex(y) }

  predicate Within(inner: Move, outer: Move) {
    outer.offset <= inner.offset && inner.offset + inner.count <= outer.offset + outer.count
  }

  /** How two elements are ordered: as one move leaves them, as the blocks of both moves ask for, or, where inner
      only shuffles elements of outer's block, by inner for two of these elements and by outer for all others. */
  datatype Rule = Only(m: Move) | Blocks(r: Block, a: Block) | Shuffling(outer: Move, inner: Move) {
    predicate Asks(x: int, y: int) {
      match this
      case Only(m) => Puts(m, x, y)
      case Blocks(r, a) => InOrder(r, a, x, y)
      case Shuffling(outer, inner) =>
        if BlockOf(outer).Has(x) && BlockOf(outer).Has(y) then Puts(inner, x, y) else Puts(outer, x, y)
    }
  }

  predicate Apart(m: Move, o: Move) { m.offset >= o.offset + o.count || o.offset >= m.offset + m.count }

  /** Two moves that both do something; an overlap belongs to the move named first. */
  function RuleOf(first: Move, other: Move): Rule {
    if Apart(first, other) then Blocks(BlockOf(first), BlockOf(other))
    else if Within(other, first) then
      if first.offset <= other.Dest() <= first.offset + first.count then Shuffling(first, other)
      else Blocks(BlockOf(first), BlockOf(other))
    else Blocks(BlockOf(first), BlockFrom(other, first.offset + first.count))
  }

  /** The cases in which the receiver is named first. An overlap belongs to the block that starts further left. */
  predicate ReceiverFirst(m: Move, o: Move) {
    Apart(m, o) || Within(o, m) || (!Within(m, o) && m.offset < o.offset)
  }

  /** What m and o together ask for, m being the receiver of the merge. */
  function MergedRule(m: Move, o: Move): Rule {
    if m == o || o.IsNoop() then Only(m)
    else if m.IsNoop() then Only(o)
    else if ReceiverFirst(m, o) then RuleOf(m, o)
    else RuleOf(o, m)
  }

  // ----- final positions -----

  /** Where the moves, one after the other, bring index i. */
  function MapAll(ms: seq<Move>, i: int): int { if ms == [] then i else MapAll(ms[1..], ms[0].MapIndex(i)) }

  lemma MapOne(a: Move, i: int)
    ensures MapAll([a], i) == a.MapIndex(i)
  {
    assert MapAll([], a.MapIndex(i)) == a.MapIndex(i);
  }

  /** The permuted sequence has at that position what was at index i. */
  lemma {:induction false} ShiftAllMapsIndex<T>(s: seq<T>, ms: seq<Move>, i: nat)
    requires FitAll(|s|, ms) && i < |s|
    ensures 0 <= MapAll(ms, i) < |s| && ShiftAll(s, ms)[MapAll(ms, i)] == s[i]
    decreases |ms|
  {
    if ms != [] {
      ShiftMapsIndex(s, ms[0], i);
      ShiftAllMapsIndex(Shift(s, ms[0]), ms[1..], ms[0].MapIndex(i));
    }
  }

  lemma {:induction false} MapSource(n: nat, ms: seq<Move>, at: int)
    requires FitAll(n, ms) && 0 <= at < n
    ensures 0 <= SourceAll(ms, at) < n && MapAll(ms, SourceAll(ms, at)) == at
    decreases |ms|
  {
    if ms != [] {
      MapSource(n, ms[1..], at);
      A.SourceInvertsMapIndex(n, ms[0].offset, ms[0].count, ms[0].distance, SourceAll(ms[1..], at));
    }
  }

  lemma {:induction false} SourceMap(n: nat, ms: seq<Move>, i: int)
    requires FitAll(n, ms) && 0 <= i < n
    ensures 0 <= MapAll(ms, i) < n && SourceAll(ms, MapAll(ms, i)) == i
    decreases |ms|
  {
    if ms != [] {
      A.SourceInvertsMapIndex(n, ms[0].offset, ms[0].count, ms[0].distance, i);
      SourceMap(n, ms[1..], ms[0].MapIndex(i));
    }
  }

  /** Both sides bring an element to the same position. */
  lemma SamePosition(n: nat, m: Move, o: Move, x: int)
    requires m.Fits(n) && o.Fits(n) && 0 <= x < n
    ensures var p := MergeMoves(m, o);
            MapAll(p.theirs, m.MapIndex(x)) == MapAll(p.mine, o.MapIndex(x))
  {
    var p := MergeMoves(m, o);
    MergeFits(n, m, o);
    A.SourceInvertsMapIndex(n, m.offset, m.count, m.distance, x);
    SourceMap(n, p.theirs, m.MapIndex(x));
    var at := MapAll(p.theirs, m.MapIndex(x));
    MergeAgrees(n, m, o, at);
    MapSource(n, p.mine, at);
    A.SourceInvertsMapIndex(n, o.offset, o.count, o.distance, SourceAll(p.mine, at));
  }

  // ----- the position of an element by the order alone -----

  /** How many elements of the block are in front of the gap. */
  function Ahead(b: Block, gap: int): int {
    if gap <= b.lo then 0 else if gap >= b.lo + b.count then b.count else gap - b.lo
  }

  /** How many elements of neither block are. */
  function Staying(r: Block, a: Block, gap: int): int { gap - Ahead(r, gap) - Ahead(a, gap) }

  /** The position of element e, given how many elements stay in front of it and of the two destinations. */
  function PlaceAt(r: Block, a: Block, e: int, before: int, beforeR: int, beforeA: int): int {
    if r.Around(a.dest) then
      if a.Has(e) then beforeR + (a.dest - r.lo) + (e - a.lo)
      else if r.Has(e) then beforeR + (e - r.lo) + (if a.dest <= e then a.count else 0)
      else before + (if r.dest <= e then r.count + a.count else 0)
    else if a.Has(e) then beforeA + (if r.dest < a.dest then r.count else 0) + (e - a.lo)
    else if r.Has(e) then beforeR + (if a.dest <= r.dest then a.count else 0) + (e - r.lo)
    else before + (if r.dest <= e then r.count else 0) + (if a.dest <= e then a.count else 0)
  }

  function PlaceOf(r: Block, a: Block, e: int): int {
    PlaceAt(r, a, e, Staying(r, a, e), Staying(r, a, r.dest), Staying(r, a, a.dest))
  }

  predicate Disjoint(r: Block, a: Block) {
    && r.count > 0 && a.count > 0 && (r.lo >= a.lo + a.count || a.lo >= r.lo + r.count)
    && !r.Around(r.dest) && !a.Around(a.dest)
  }

  lemma StayingGrows(r: Block, a: Block, g: int, h: int)
    requires Disjoint(r, a) && g <= h
    ensures Staying(r, a, g) <= Staying(r, a, h)
    ensures g < h && !r.Has(g) && !a.Has(g) ==> Staying(r, a, g) < Staying(r, a, h)
  {
  }

  /** `before` numbers the elements and gaps of a sequence by the elements that stay. */
  predicate Grows(r: Block, a: Block, g: int, atG: int, h: int, atH: int) {
    && (g <= h ==> atG <= atH) && (h <= g ==> atH <= atG)
    && (g < h && !r.Has(g) && !a.Has(g) ==> atG < atH) && (h < g && !r.Has(h) && !a.Has(h) ==> atH < atG)
  }

  lemma StayingBoth(r: Block, a: Block, g: int, h: int)
    requires Disjoint(r, a)
    ensures Grows(r, a, g, Staying(r, a, g), h, Staying(r, a, h))
  {
    if g <= h {
      StayingGrows(r, a, g, h);
    }
    if h <= g {
      StayingGrows(r, a, h, g);
    }
  }

  lemma PlacesInOrder(r: Block, a: Block, x: int, y: int, atX: int, atY: int, atR: int, atA: int)
    requires Disjoint(r, a) && (r.Around(a.dest) || !a.Around(r.dest)) && InOrder(r, a, x, y)
    requires Grows(r, a, x, atX, y, atY) && Grows(r, a, r.dest, atR, a.dest, atA)
    requires Grows(r, a, x, atX, r.dest, atR) && Grows(r, a, x, atX, a.dest, atA)
    requires Grows(r, a, y, atY, r.dest, atR) && Grows(r, a, y, atY, a.dest, atA)
    ensures PlaceAt(r, a, x, atX, atR, atA) < PlaceAt(r, a, y, atY, atR, atA)
  {
  }

  predicate Beside(m: Move, o: Move, o1: Move) {
    && m.count > 0 && m.distance != 0 && o.count > 0 && o.distance != 0
    && A.Apart(m.offset, m.count, m.distance, o.offset, o.count, o.distance) && o1 == MergeApart(m, o).theirs[0]
  }

  predicate Free(m: Move, o: Move, x: int) { !BlockOf(m).Has(x) && !BlockOf(o).Has(x) }

  lemma FreeRightRight(m: Move, o: Move, o1: Move, x: int)
    requires Beside(m, o, o1) && m.distance > 0 && o.distance > 0 && Free(m, o, x)
    ensures o1.MapIndex(m.MapIndex(x)) == PlaceOf(BlockOf(m), BlockOf(o), x)
  {
  }

  lemma FreeRightLeft(m: Move, o: Move, o1: Move, x: int)
    requires Beside(m, o, o1) && m.distance > 0 && o.distance < 0 && Free(m, o, x)
    ensures o1.MapIndex(m.MapIndex(x)) == PlaceOf(BlockOf(m), BlockOf(o), x)
  {
  }

  lemma FreeLeftRight(m: Move, o: Move, o1: Move, x: int)
    requires Beside(m, o, o1) && m.distance < 0 && o.distance > 0 && Free(m, o, x)
    ensures o1.MapIndex(m.MapIndex(x)) == PlaceOf(BlockOf(m), BlockOf(o), x)
  {
  }

  lemma FreeLeftLeft(m: Move, o: Move, o1: Move, x: int)
    requires Beside(m, o, o1) && m.distance < 0 && o.distance < 0 && Free(m, o, x)
    ensures o1.MapIndex(m.MapIndex(x)) == PlaceOf(BlockOf(m), BlockOf(o), x)
  {
  }

  lemma ReceiverRight(m: Move, o: Move, o1: Move, x: int)
    requires Beside(m, o, o1) && m.distance > 0 && BlockOf(m).Has(x)
    ensures o1.MapIndex(m.MapIndex(x)) == PlaceOf(BlockOf(m), BlockOf(o), x)
  {
  }

  lemma ReceiverLeft(m: Move, o: Move, o1: Move, x: int)
    requires Beside(m, o, o1) && m.distance < 0 && BlockOf(m).Has(x)
    ensures o1.MapIndex(m.MapIndex(x)) == PlaceOf(BlockOf(m), BlockOf(o), x)
  {
  }

  lemma ArgumentRight(m: Move, o: Move, o1: Move, x: int)
    requires Beside(m, o, o1) && o.distance > 0 && BlockOf(o).Has(x)
    ensures o1.MapIndex(m.MapIndex(x)) == PlaceOf(BlockOf(m), BlockOf(o), x)
  {
  }

  lemma ArgumentLeft(m: Move, o: Move, o1: Move, x: int)
    requires Beside(m, o, o1) && o.distance < 0 && BlockOf(o).Has(x)
    ensures o1.MapIndex(m.MapIndex(x)) == PlaceOf(BlockOf(m), BlockOf(o), x)
  {
  }

  lemma EnteredFree(n: nat, m: Move, o: Move, m1: Move, x: int)
    requires Real(n, m) && Real(n, o) && 0 <= x < n && Free(m, o, x)
    requires A.DestInside(m.offset, m.count, m.distance, o.offset, o.count, o.distance)
    requires m1 == MergeDestInside(m, o).mine[0]
    ensures m1.MapIndex(o.MapIndex(x)) == PlaceOf(BlockOf(m), BlockOf(o), x)
  {
  }

  lemma EnteredReceiver(n: nat, m: Move, o: Move, m1: Move, x: int)
    requires Real(n, m) && Real(n, o) && 0 <= x < n && BlockOf(m).Has(x)
    requires A.DestInside(m.offset, m.count, m.distance, o.offset, o.count, o.distance)
    requires m1 == MergeDestInside(m, o).mine[0]
    ensures m1.MapIndex(o.MapIndex(x)) == PlaceOf(BlockOf(m), BlockOf(o), x)
  {
  }

  lemma EnteredArgument(n: nat, m: Move, o: Move, m1: Move, x: int)
    requires Real(n, m) && Real(n, o) && 0 <= x < n && BlockOf(o).Has(x)
    requires A.DestInside(m.offset, m.count, m.distance, o.offset, o.count, o.distance)
    requires m1 == MergeDestInside(m, o).mine[0]
    ensures m1.MapIndex(o.MapIndex(x)) == PlaceOf(BlockOf(m), BlockOf(o), x)
  {
  }

  lemma CrossedFree(n: nat, m: Move, o: Move, m1: Move, x: int)
    requires Real(n, m) && Real(n, o) && 0 <= x < n && Free(m, o, x)
    requires A.Crossed(m.offset, m.count, m.distance, o.offset, o.count, o.distance) && m1 == MergeCrossed(m, o).mine[0]
    ensures m1.MapIndex(o.MapIndex(x)) == PlaceOf(BlockOf(m), BlockOf(o), x)
  {
  }

  lemma CrossedReceiver(n: nat, m: Move, o: Move, m1: Move, x: int)
    requires Real(n, m) && Real(n, o) && 0 <= x < n && BlockOf(m).Has(x)
    requires A.Crossed(m.offset, m.count, m.distance, o.offset, o.count, o.distance) && m1 == MergeCrossed(m, o).mine[0]
    ensures m1.MapIndex(o.MapIndex(x)) == PlaceOf(BlockOf(m), BlockOf(o), x)
  {
  }

  lemma CrossedArgument(n: nat, m: Move, o: Move, m1: Move, x: int)
    requires Real(n, m) && Real(n, o) && 0 <= x < n && BlockOf(o).Has(x)
    requires A.Crossed(m.offset, m.count, m.distance, o.offset, o.count, o.distance) && m1 == MergeCrossed(m, o).mine[0]
    ensures m1.MapIndex(o.MapIndex(x)) == PlaceOf(BlockOf(m), BlockOf(o), x)
  {
  }

  // ----- one block within the other -----

  function NestedPlaceAt(r: Block, a: Block, e: int, before: int, beforeR: int, beforeA: int): int {
    if a.Has(e) then beforeA + (if r.dest < a.dest then r.count - a.count else 0) + (e - a.lo)
    else if r.Has(e) then beforeR + (if a.dest <= r.dest then a.count else 0) + (e - r.lo - Ahead(a, e))
    else before + (if r.dest <= e then r.count - a.count else 0) + (if a.dest <= e then a.count else 0)
  }

  function StayingOutside(r: Block, gap: int): int { gap - Ahead(r, gap) }

  function NestedPlaceOf(r: Block, a: Block, e: int): int {
    NestedPlaceAt(r, a, e, StayingOutside(r, e), StayingOutside(r, r.dest), StayingOutside(r, a.dest))
  }

  predicate Leaving(r: Block, a: Block) {
    && a.count > 0 && r.lo <= a.lo && a.lo + a.count <= r.lo + r.count
    && !r.Around(r.dest) && !(r.lo <= a.dest <= r.lo + r.count)
  }

  lemma NestedInOrderLeft(r: Block, a: Block, x: int, y: int)
    requires Leaving(r, a) && InOrder(r, a, x, y) && a.dest < r.lo
    ensures NestedPlaceOf(r, a, x) < NestedPlaceOf(r, a, y)
  {
  }

  lemma NestedInOrderRight(r: Block, a: Block, x: int, y: int)
    requires Leaving(r, a) && InOrder(r, a, x, y) && a.dest > r.lo + r.count
    ensures NestedPlaceOf(r, a, x) < NestedPlaceOf(r, a, y)
  {
  }

  lemma RivalFree(n: nat, m: Move, o: Move, o1: Move, x: int)
    requires Real(n, m) && Real(n, o) && 0 <= x < n && Free(m, o, x)
    requires A.Leaves(m.offset, m.count, o.offset, o.count, o.distance) && o.Dest() == m.Dest()
    requires o1 == MergeRivals(m, o).theirs[0]
    ensures o1.MapIndex(m.MapIndex(x)) == NestedPlaceOf(BlockOf(m), BlockOf(o), x)
  {
  }

  lemma RivalReceiver(n: nat, m: Move, o: Move, o1: Move, x: int)
    requires Real(n, m) && Real(n, o) && 0 <= x < n && BlockOf(m).Has(x) && !BlockOf(o).Has(x)
    requires A.Leaves(m.offset, m.count, o.offset, o.count, o.distance) && o.Dest() == m.Dest()
    requires o1 == MergeRivals(m, o).theirs[0]
    ensures o1.MapIndex(m.MapIndex(x)) == NestedPlaceOf(BlockOf(m), BlockOf(o), x)
  {
  }

  lemma RivalArgument(n: nat, m: Move, o: Move, o1: Move, x: int)
    requires Real(n, m) && Real(n, o) && 0 <= x < n && BlockOf(o).Has(x)
    requires A.Leaves(m.offset, m.count, o.offset, o.count, o.distance) && o.Dest() == m.Dest()
    requires o1 == MergeRivals(m, o).theirs[0]
    ensures o1.MapIndex(m.MapIndex(x)) == NestedPlaceOf(BlockOf(m), BlockOf(o), x)
  {
  }

  lemma LeavingFree(n: nat, m: Move, o: Move, o1: Move, x: int)
    requires Real(n, m) && Real(n, o) && 0 <= x < n && Free(m, o, x)
    requires A.Leaves(m.offset, m.count, o.offset, o.count, o.distance) && o.Dest() != m.Dest()
    requires o1 == MergeLeaving(m, o).theirs[0]
    ensures o1.MapIndex(m.MapIndex(x)) == NestedPlaceOf(BlockOf(m), BlockOf(o), x)
  {
  }

  lemma LeavingReceiver(n: nat, m: Move, o: Move, o1: Move, x: int)
    requires Real(n, m) && Real(n, o) && 0 <= x < n && BlockOf(m).Has(x) && !BlockOf(o).Has(x)
    requires A.Leaves(m.offset, m.count, o.offset, o.count, o.distance) && o.Dest() != m.Dest()
    requires o1 == MergeLeaving(m, o).theirs[0]
    ensures o1.MapIndex(m.MapIndex(x)) == NestedPlaceOf(BlockOf(m), BlockOf(o), x)
  {
  }

  lemma LeavingArgument(n: nat, m: Move, o: Move, o1: Move, x: int)
    requires Real(n, m) && Real(n, o) && 0 <= x < n && BlockOf(o).Has(x)
    requires A.Leaves(m.offset, m.count, o.offset, o.count, o.distance) && o.Dest() != m.Dest()
    requires o1 == MergeLeaving(m, o).theirs[0]
    ensures o1.MapIndex(m.MapIndex(x)) == NestedPlaceOf(BlockOf(m), BlockOf(o), x)
  {
  }

  lemma ShuffledPlace(n: nat, m: Move, o: Move, o1: Move, x: int)
    requires Real(n, m) && Real(n, o) && Within(o, m) && m.offset <= o.Dest() <= m.offset + m.count
    requires o1 == MergeStaying(m, o).theirs[0]
    ensures BlockOf(m).Has(x) ==>
              BlockOf(m).Has(o.MapIndex(x)) && o1.MapIndex(m.MapIndex(x)) == o.MapIndex(x) + m.distance
    ensures !BlockOf(m).Has(x) ==> o1.MapIndex(m.MapIndex(x)) == m.MapIndex(x)
  {
  }

  /** A move brings its block to one place, as it is. */
  lemma BlockTogether(m: Move, x: int, y: int, z: int)
    requires m.count > 0 && m.distance != 0 && BlockOf(m).Has(x) && BlockOf(m).Has(y) && !BlockOf(m).Has(z)
    ensures m.MapIndex(y) == y + m.distance
    ensures (x + m.distance < m.MapIndex(z) <==> m.MapIndex(y) < m.MapIndex(z)) && x + m.distance != m.MapIndex(z)
  {
  }

  lemma ShuffledOrder(n: nat, m: Move, o: Move, x: int, y: int)
    requires Real(n, m) && Real(n, o) && 0 <= x < n && 0 <= y < n && x != y
    requires Within(o, m) && m.offset <= o.Dest() <= m.offset + m.count
    ensures MapAll(MergeStaying(m, o).theirs, m.MapIndex(x)) < MapAll(MergeStaying(m, o).theirs, m.MapIndex(y)) <==>
            Shuffling(m, o).Asks(x, y)
  {
    var o1 := MergeStaying(m, o).theirs[0];
    MapOne(o1, m.MapIndex(x));
    MapOne(o1, m.MapIndex(y));
    ShuffledPlace(n, m, o, o1, x);
    ShuffledPlace(n, m, o, o1, y);
    if BlockOf(m).Has(x) && !BlockOf(m).Has(y) {
      BlockTogether(m, o.MapIndex(x), x, y);
    } else if !BlockOf(m).Has(x) && BlockOf(m).Has(y) {
      BlockTogether(m, o.MapIndex(y), y, x);
    }
  }

  // ----- every case -----

  lemma PlacesOrdered(r: Block, a: Block, x: int, y: int)
    requires Disjoint(r, a) && (r.Around(a.dest) || !a.Around(r.dest)) && x != y
    ensures PlaceOf(r, a, x) < PlaceOf(r, a, y) <==> InOrder(r, a, x, y)
  {
    StayingBoth(r, a, x, y);
    StayingBoth(r, a, r.dest, a.dest);
    StayingBoth(r, a, x, r.dest);
    StayingBoth(r, a, x, a.dest);
    StayingBoth(r, a, y, r.dest);
    StayingBoth(r, a, y, a.dest);
    var atX, atY, atR, atA := Staying(r, a, x), Staying(r, a, y), Staying(r, a, r.dest), Staying(r, a, a.dest);
    if InOrder(r, a, x, y) {
      PlacesInOrder(r, a, x, y, atX, atY, atR, atA);
    } else {
      PlacesInOrder(r, a, y, x, atY, atX, atR, atA);
    }
  }

  lemma NestedOrdered(r: Block, a: Block, x: int, y: int)
    requires Leaving(r, a) && x != y
    ensures NestedPlaceOf(r, a, x) < NestedPlaceOf(r, a, y) <==> InOrder(r, a, x, y)
  {
    var first, second := if InOrder(r, a, x, y) then x else y, if InOrder(r, a, x, y) then y else x;
    if a.dest < r.lo {
      NestedInOrderLeft(r, a, first, second);
    } else {
      NestedInOrderRight(r, a, first, second);
    }
  }

  /** If only one destination lies inside the other block, it does not matter which block is named first. */
  lemma InOrderExchanged(r: Block, a: Block, x: int, y: int)
    requires Disjoint(r, a) && a.Around(r.dest) && !r.Around(a.dest)
    ensures InOrder(r, a, x, y) <==> InOrder(a, r, x, y)
  {
  }

  lemma BesidePlace(m: Move, o: Move, o1: Move, x: int)
    requires Beside(m, o, o1)
    ensures o1.MapIndex(m.MapIndex(x)) == PlaceOf(BlockOf(m), BlockOf(o), x)
  {
    if BlockOf(o).Has(x) {
      if o.distance > 0 { ArgumentRight(m, o, o1, x); } else { ArgumentLeft(m, o, o1, x); }
    } else if BlockOf(m).Has(x) {
      if m.distance > 0 { ReceiverRight(m, o, o1, x); } else { ReceiverLeft(m, o, o1, x); }
    } else if m.distance > 0 {
      if o.distance > 0 { FreeRightRight(m, o, o1, x); } else { FreeRightLeft(m, o, o1, x); }
    } else {
      if o.distance > 0 { FreeLeftRight(m, o, o1, x); } else { FreeLeftLeft(m, o, o1, x); }
    }
  }

  lemma EnteredPlace(n: nat, m: Move, o: Move, m1: Move, x: int)
    requires Real(n, m) && Real(n, o) && 0 <= x < n && m1 == MergeDestInside(m, o).mine[0]
    requires A.DestInside(m.offset, m.count, m.distance, o.offset, o.count, o.distance)
    ensures m1.MapIndex(o.MapIndex(x)) == PlaceOf(BlockOf(m), BlockOf(o), x)
  {
    if BlockOf(o).Has(x) {
      EnteredArgument(n, m, o, m1, x);
    } else if BlockOf(m).Has(x) {
      EnteredReceiver(n, m, o, m1, x);
    } else {
      EnteredFree(n, m, o, m1, x);
    }
  }

  lemma CrossedPlace(n: nat, m: Move, o: Move, m1: Move, x: int)
    requires Real(n, m) && Real(n, o) && 0 <= x < n
    requires A.Crossed(m.offset, m.count, m.distance, o.offset, o.count, o.distance)
    requires m1 == MergeCrossed(m, o).mine[0]
    ensures m1.MapIndex(o.MapIndex(x)) == PlaceOf(BlockOf(m), BlockOf(o), x)
  {
    if BlockOf(o).Has(x) {
      CrossedArgument(n, m, o, m1, x);
    } else if BlockOf(m).Has(x) {
      CrossedReceiver(n, m, o, m1, x);
    } else {
      CrossedFree(n, m, o, m1, x);
    }
  }

  lemma LeavingPlace(n: nat, m: Move, o: Move, o1: Move, x: int)
    requires Real(n, m) && Real(n, o) && 0 <= x < n
    requires A.Leaves(m.offset, m.count, o.offset, o.count, o.distance)
    requires o1 == (if o.Dest() == m.Dest() then MergeRivals(m, o) else MergeLeaving(m, o)).theirs[0]
    ensures o1.MapIndex(m.MapIndex(x)) == NestedPlaceOf(BlockOf(m), BlockOf(o), x)
  {
    if o.Dest() == m.Dest() {
      if BlockOf(o).Has(x) { RivalArgument(n, m, o, o1, x); }
      else if BlockOf(m).Has(x) { RivalReceiver(n, m, o, o1, x); }
      else { RivalFree(n, m, o, o1, x); }
    } else {
      if BlockOf(o).Has(x) { LeavingArgument(n, m, o, o1, x); }
      else if BlockOf(m).Has(x) { LeavingReceiver(n, m, o, o1, x); }
      else { LeavingFree(n, m, o, o1, x); }
    }
  }

  /** Where x and y are in the end, m being followed by `theirs`. */
  predicate Ends(m: Move, theirs: seq<Move>, x: int, y: int) {
    MapAll(theirs, m.MapIndex(x)) < MapAll(theirs, m.MapIndex(y))
  }

  lemma DisjointOrder(n: nat, m: Move, o: Move, x: int, y: int)
    requires Real(n, m) && Real(n, o) && 0 <= x < n && 0 <= y < n && x != y && Apart(m, o)
    ensures Ends(m, MergeDisjoint(m, o).theirs, x, y) <==>
            Blocks(BlockOf(m), BlockOf(o)).Asks(x, y)
  {
    var p := MergeDisjoint(m, o);
    if o.Contains(m.Dest()) && !m.Contains(o.Dest()) {
      var m1 := p.theirs[0];
      MapOne(m1, m.MapIndex(x));
      MapOne(m1, m.MapIndex(y));
      EnteredPlace(n, o, m, m1, x);
      EnteredPlace(n, o, m, m1, y);
      PlacesOrdered(BlockOf(o), BlockOf(m), x, y);
      InOrderExchanged(BlockOf(m), BlockOf(o), x, y);
    } else {
      PlacesOrdered(BlockOf(m), BlockOf(o), x, y);
      if m.Contains(o.Dest()) {
        assert p == MergeMoves(m, o);
        SamePosition(n, m, o, x);
        SamePosition(n, m, o, y);
        MapOne(p.mine[0], o.MapIndex(x));
        MapOne(p.mine[0], o.MapIndex(y));
        if o.Contains(m.Dest()) {
          CrossedPlace(n, m, o, p.mine[0], x);
          CrossedPlace(n, m, o, p.mine[0], y);
        } else {
          EnteredPlace(n, m, o, p.mine[0], x);
          EnteredPlace(n, m, o, p.mine[0], y);
        }
      } else {
        MapOne(p.theirs[0], m.MapIndex(x));
        MapOne(p.theirs[0], m.MapIndex(y));
        BesidePlace(m, o, p.theirs[0], x);
        BesidePlace(m, o, p.theirs[0], y);
      }
    }
  }

  lemma ContainedOrder(n: nat, m: Move, o: Move, x: int, y: int)
    requires Real(n, m) && Real(n, o) && 0 <= x < n && 0 <= y < n && x != y && Within(o, m) && !Apart(m, o)
    ensures Ends(m, MergeContained(m, o).theirs, x, y) <==> RuleOf(m, o).Asks(x, y)
  {
    if m.offset <= o.Dest() <= m.offset + m.count {
      ShuffledOrder(n, m, o, x, y);
    } else {
      var o1 := MergeContained(m, o).theirs[0];
      MapOne(o1, m.MapIndex(x));
      MapOne(o1, m.MapIndex(y));
      LeavingPlace(n, m, o, o1, x);
      LeavingPlace(n, m, o, o1, y);
      NestedOrdered(BlockOf(m), BlockOf(o), x, y);
    }
  }

  lemma RestBlock(n: nat, m: Move, o: Move)
    requires Real(n, o) && RightOverlap(m, o)
    ensures var rest := RestOfOverlap(m, o);
            Real(n, rest) && Apart(m, rest) && BlockOf(rest) == BlockFrom(o, m.offset + m.count)
  {
    RestIsReal(n, m, o);
  }

  lemma RightOverlapOrder(n: nat, m: Move, o: Move, rest: Move, theirs: seq<Move>, x: int, y: int)
    requires Real(n, m) && Real(n, o) && 0 <= x < n && 0 <= y < n && x != y && RightOverlap(m, o)
    requires rest == RestOfOverlap(m, o) && theirs == MergeRightOverlap(m, o).theirs
    ensures Ends(m, theirs, x, y) <==> Blocks(BlockOf(m), BlockFrom(o, m.offset + m.count)).Asks(x, y)
  {
    RestBlock(n, m, o);
    DisjointOrder(n, m, rest, x, y);
    assert theirs == MergeDisjoint(m, rest).theirs;
  }

  lemma NoopStays(m: Move, x: int)
    requires m.IsNoop()
    ensures m.MapIndex(x) == x
  {
  }

  lemma IdleOrder(n: nat, m: Move, o: Move, x: int, y: int)
    requires m.Fits(n) && o.Fits(n) && m != o && (m.IsNoop() || o.IsNoop())
    ensures Ends(m, [o], x, y) <==> Only(if o.IsNoop() then m else o).Asks(x, y)
  {
    MapOne(o, m.MapIndex(x));
    MapOne(o, m.MapIndex(y));
    if o.IsNoop() {
      NoopStays(o, m.MapIndex(x));
      NoopStays(o, m.MapIndex(y));
    } else {
      NoopStays(m, x);
      NoopStays(m, y);
    }
  }

  lemma IdleOrders(n: nat, m: Move, o: Move, theirs: seq<Move>, rule: Rule, x: int, y: int)
    requires m.Fits(n) && o.Fits(n) && (m == o || m.IsNoop() || o.IsNoop())
    requires theirs == MergeMoves(m, o).theirs && rule == MergedRule(m, o)
    ensures Ends(m, theirs, x, y) <==> rule.Asks(x, y)
  {
    if m == o {
      assert MapAll(theirs, m.MapIndex(x)) == m.MapIndex(x) && MapAll(theirs, m.MapIndex(y)) == m.MapIndex(y);
    } else {
      IdleOrder(n, m, o, x, y);
    }
  }

  function MergeFirst(first: Move, other: Move): Pair
    requires Apart(first, other) || Within(other, first) || RightOverlap(first, other)
  {
    if Apart(first, other) then MergeDisjoint(first, other)
    else if Within(other, first) then MergeContained(first, other)
    else MergeRightOverlap(first, other)
  }

  lemma MergeEither(m: Move, o: Move)
    requires m != o && !m.IsNoop() && !o.IsNoop()
    ensures ReceiverFirst(m, o) ==> MergeMoves(m, o) == MergeFirst(m, o)
    ensures !ReceiverFirst(m, o) ==> MergeMoves(m, o) == MergeFirst(o, m).Swap()
  {
  }

  lemma FirstOrder(n: nat, first: Move, other: Move, theirs: seq<Move>, rule: Rule, x: int, y: int)
    requires Real(n, first) && Real(n, other) && 0 <= x < n && 0 <= y < n && x != y
    requires Apart(first, other) || Within(other, first) || RightOverlap(first, other)
    requires theirs == MergeFirst(first, other).theirs && rule == RuleOf(first, other)
    ensures Ends(first, theirs, x, y) <==> rule.Asks(x, y)
  {
    if Apart(first, other) {
      assert theirs == MergeDisjoint(first, other).theirs && rule == Blocks(BlockOf(first), BlockOf(other));
      DisjointOrder(n, first, other, x, y);
    } else if Within(other, first) {
      assert theirs == MergeContained(first, other).theirs;
      ContainedOrder(n, first, other, x, y);
    } else {
      assert rule == Blocks(BlockOf(first), BlockFrom(other, first.offset + first.count));
      RightOverlapOrder(n, first, other, RestOfOverlap(first, other), theirs, x, y);
    }
  }

  lemma SameOrder(n: nat, m: Move, o: Move, p: Pair, x: int, y: int)
    requires m.Fits(n) && o.Fits(n) && 0 <= x < n && 0 <= y < n && p == MergeMoves(m, o)
    ensures Ends(m, p.theirs, x, y) <==> Ends(o, p.mine, x, y)
  {
    SamePosition(n, m, o, x);
    SamePosition(n, m, o, y);
  }

  /** The merge leaves every two elements in the order that the two moves together ask for, whichever of them
      came first. As the merged sequence is a permutation, this fixes it. */
  lemma MergeOrders(n: nat, m: Move, o: Move, p: Pair, rule: Rule, x: int, y: int)
    requires m.Fits(n) && o.Fits(n) && 0 <= x < n && 0 <= y < n && x != y
    requires p == MergeMoves(m, o) && rule == MergedRule(m, o)
    ensures Ends(m, p.theirs, x, y) <==> rule.Asks(x, y)
    ensures Ends(o, p.mine, x, y) <==> rule.Asks(x, y)
  {
    SameOrder(n, m, o, p, x, y);
    if m == o || m.IsNoop() || o.IsNoop() {
      IdleOrders(n, m, o, p.theirs, rule, x, y);
    } else {
      MergeEither(m, o);
      if ReceiverFirst(m, o) {
        FirstOrder(n, m, o, p.theirs, rule, x, y);
      } else {
        FirstOrder(n, o, m, p.mine, rule, x, y);
      }
    }
  }

  /** x is moved by m alone, y by neither move. */
  predicate MovedBy(m: Move, o: Move, x: int, y: int) {
    BlockOf(m).Has(x) && !BlockOf(o).Has(x) && !BlockOf(m).Has(y) && !BlockOf(o).Has(y)
  }

  lemma FirstMoves(first: Move, other: Move, rule: Rule, x: int, y: int)
    requires !first.IsNoop() && !other.IsNoop() && rule == RuleOf(first, other)
    requires Apart(first, other) || Within(other, first) || RightOverlap(first, other)
    requires MovedBy(first, other, x, y) && !other.Contains(first.Dest())
    ensures rule.Asks(x, y) <==> Puts(first, x, y)
  {
  }

  lemma OtherMoves(first: Move, other: Move, rule: Rule, x: int, y: int)
    requires !first.IsNoop() && !other.IsNoop() && rule == RuleOf(first, other)
    requires Apart(first, other) || Within(other, first) || RightOverlap(first, other)
    requires MovedBy(other, first, x, y) && !first.Contains(other.Dest())
    ensures rule.Asks(x, y) <==> Puts(other, x, y)
  {
  }

  /** No move is lost: what only one side moves stands against what nobody moves where that side put it, unless it
      was put into the other side's block. */
  lemma BothMovesShow(n: nat, m: Move, o: Move, p: Pair, x: int, y: int)
    requires Real(n, m) && Real(n, o) && m != o && 0 <= x < n && 0 <= y < n && p == MergeMoves(m, o)
    ensures MovedBy(m, o, x, y) && !o.Contains(m.Dest()) ==> (Ends(m, p.theirs, x, y) <==> Puts(m, x, y))
    ensures MovedBy(o, m, x, y) && !m.Contains(o.Dest()) ==> (Ends(m, p.theirs, x, y) <==> Puts(o, x, y))
  {
    var rule := MergedRule(m, o);
    if x != y {
      MergeOrders(n, m, o, p, rule, x, y);
    }
    if MovedBy(m, o, x, y) && !o.Contains(m.Dest()) {
      if ReceiverFirst(m, o) { FirstMoves(m, o, rule, x, y); } else { OtherMoves(o, m, rule, x, y); }
    }
    if MovedBy(o, m, x, y) && !m.Contains(o.Dest()) {
      if ReceiverFirst(m, o) { OtherMoves(m, o, rule, x, y); } else { FirstMoves(o, m, rule, x, y); }
    }
  }
}

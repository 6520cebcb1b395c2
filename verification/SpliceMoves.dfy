/** Merging a splice with a concurrent move (changes/splice.go, MergeMove and its cases). */
module SpliceMoves {
  import opened Options
  import opened Moves
  import opened Splices
  import A = MoveArithmetic

  datatype Edit<T(==)> = ByMove(move: Move) | BySplice(splice: Splice<T>) {

    predicate Fits(s: seq<T>) {
      match this
      case ByMove(m) => m.Fits(|s|)
      case BySplice(c) => c.Fits(s)
    }

    function Do(s: seq<T>): seq<T>
      requires Fits(s)
    {
      match this
      case ByMove(m) => Shift(s, m)
      case BySplice(c) => Cut(s, c)
    }
  }

  /** w is v after the move o, element by element. */
  ghost predicate Shifted<T>(v: seq<T>, o: Move, w: seq<T>) {
    && |w| == |v|
    && forall j {:trigger w[j]} :: 0 <= j < |w| ==> 0 <= o.Source(j) < |v| && w[j] == v[o.Source(j)]
  }

  lemma ShiftIsShifted<T>(v: seq<T>, o: Move)
    requires o.Fits(|v|)
    ensures Shifted(v, o, Shift(v, o))
  {
    forall j | 0 <= j < |v| ensures 0 <= o.Source(j) < |v| && Shift(v, o)[j] == v[o.Source(j)] {
      ShiftSource(v, o, j);
    }
  }

  /** w is v after the splice s, element by element. */
  ghost predicate Spliced<T>(v: seq<T>, s: Splice<T>, w: seq<T>) {
    && 0 <= s.offset && s.offset + |s.before| <= |v| && |w| == |v| + s.Growth()
    && (forall j {:trigger w[j]} :: 0 <= j < s.offset ==> w[j] == v[j])
    && (forall j {:trigger w[j]} :: s.offset <= j < s.offset + |s.after| ==> w[j] == s.after[j - s.offset])
    && (forall j {:trigger w[j]} :: s.offset + |s.after| <= j < |w| ==> w[j] == v[j - s.Growth()])
  }

  lemma CutIsSpliced<T>(v: seq<T>, s: Splice<T>)
    requires s.Fits(v)
    ensures Spliced(v, s, Cut(v, s))
  {
  }

  ghost predicate FitAll<T>(s: seq<T>, es: seq<Edit<T>>)
    decreases |es|
  {
    es == [] || (es[0].Fits(s) && FitAll(es[0].Do(s), es[1..]))
  }

  function DoAll<T(==)>(s: seq<T>, es: seq<Edit<T>>): seq<T>
    requires FitAll(s, es)
    decreases |es|
  {
    if es == [] then s else DoAll(es[0].Do(s), es[1..])
  }

  /** What the move becomes after the splice (nothing, a move or a splice) and what the splice becomes
      after the move. */
  datatype Crossing<T(==)> = Crossing(theirs: Option<Edit<T>>, mine: seq<Edit<T>>)

  function MergeSpliceMove<T(==)>(s: Splice<T>, o: Move): Crossing<T> {
    if StaysInside(o, s) then Crossing(None, [BySplice(Shuffled(s, o))])
    else if Inside(o, s) then Crossing(Some(BySplice(Rescue(s, o))), [BySplice(Without(s, o))])
    else if Covers(o, s) then Crossing(Some(ByMove(Resized(o, s))), [BySplice(Carried(s, o))])
    else if o.offset >= s.offset + |s.before| || s.offset >= o.offset + o.count then MergeDisjoint(s, o)
    else
      var p := MergeDisjoint(s, RestOf(o, s));
      p.(mine := [ByMove(UndoOf(o, s))] + p.mine)
  }

  // ----- the move's block contains the splice's run -----

  predicate Covers<T(==)>(o: Move, s: Splice<T>) {
    o.offset <= s.offset && o.offset + o.count >= s.offset + |s.before|
  }

  function Resized<T(==)>(o: Move, s: Splice<T>): Move
    requires Covers(o, s)
  {
    o.(count := o.count + s.Growth())
  }

  function Carried<T(==)>(s: Splice<T>, o: Move): Splice<T> { s.(offset := s.offset + o.distance) }

  lemma CarriedFits<T>(v: seq<T>, s: Splice<T>, o: Move, vo: seq<T>)
    requires s.Fits(v) && o.Fits(|v|) && Covers(o, s) && Shifted(v, o, vo)
    ensures Carried(s, o).Fits(vo)
  {
    var at := s.offset + o.distance;
    forall j | 0 <= j < |s.before| ensures vo[at + j] == s.before[j] {
      assert s.before[j] == v[s.offset + j];
    }
    FitsAt(vo, Carried(s, o));
  }

  lemma CoveredAgrees<T>(v: seq<T>, s: Splice<T>, o: Move, vs: seq<T>, vo: seq<T>, l: seq<T>, r: seq<T>, j: int)
    requires o.Fits(|v|) && Covers(o, s) && Spliced(v, s, vs) && Shifted(v, o, vo)
    requires Shifted(vs, Resized(o, s), l) && Spliced(vo, Carried(s, o), r) && 0 <= j < |r|
    ensures |l| == |r| && l[j] == r[j]
  {
  }

  // ----- the move stays inside the splice's run -----

  predicate Inside<T(==)>(o: Move, s: Splice<T>) {
    o.offset >= s.offset && o.offset + o.count <= s.offset + |s.before|
  }

  predicate StaysInside<T(==)>(o: Move, s: Splice<T>) {
    Inside(o, s) && s.offset <= o.Dest() <= s.offset + |s.before|
  }

  function Shuffled<T(==)>(s: Splice<T>, o: Move): Splice<T>
    requires StaysInside(o, s)
  {
    s.(before := Shift(s.before, o.(offset := o.offset - s.offset)))
  }

  lemma ShuffledAgrees<T>(v: seq<T>, s: Splice<T>, o: Move, vo: seq<T>, before: seq<T>, j: int)
    requires s.Fits(v) && o.Fits(|v|) && StaysInside(o, s) && Shifted(v, o, vo)
    requires Shifted(s.before, o.(offset := o.offset - s.offset), before) && 0 <= j < |before|
    ensures vo[s.offset + j] == before[j]
  {
    var k := o.(offset := o.offset - s.offset).Source(j);
    assert s.before[k] == v[s.offset + k];
    assert o.Source(s.offset + j) == s.offset + k;
  }

  lemma ShuffledFits<T>(v: seq<T>, s: Splice<T>, o: Move, vo: seq<T>, s1: Splice<T>)
    requires s.Fits(v) && o.Fits(|v|) && StaysInside(o, s) && Shifted(v, o, vo) && s1 == Shuffled(s, o)
    ensures s1.Fits(vo)
  {
    ShiftIsShifted(s.before, o.(offset := o.offset - s.offset));
    ShuffledThere(v, s, o, vo, s1.before);
  }

  lemma ShuffledThere<T>(v: seq<T>, s: Splice<T>, o: Move, vo: seq<T>, before: seq<T>)
    requires s.Fits(v) && o.Fits(|v|) && StaysInside(o, s) && Shifted(v, o, vo)
    requires Shifted(s.before, o.(offset := o.offset - s.offset), before)
    ensures s.(before := before).Fits(vo)
  {
    forall j | 0 <= j < |before| ensures vo[s.offset + j] == before[j] {
      ShuffledAgrees(v, s, o, vo, before, j);
    }
    FitsAt(vo, s.(before := before));
  }

  /** Replacing a run makes any shuffle inside it invisible. */
  lemma ReplacedAgrees<T>(v: seq<T>, s: Splice<T>, o: Move, s1: Splice<T>, vs: seq<T>, vo: seq<T>, r: seq<T>, j: int)
    requires o.Fits(|v|) && StaysInside(o, s) && Spliced(v, s, vs) && Shifted(v, o, vo)
    requires s1.offset == s.offset && |s1.before| == |s.before| && s1.after == s.after
    requires Spliced(vo, s1, r) && 0 <= j < |r|
    ensures |vs| == |r| && vs[j] == r[j]
  {
  }

  // ----- the move takes elements out of the splice's run -----

  function Taken<T(==)>(s: Splice<T>, o: Move): seq<T>
    requires Inside(o, s)
  {
    s.before[o.offset - s.offset..o.offset - s.offset + o.count]
  }

  /** s without the elements the move took away. */
  function Without<T(==)>(s: Splice<T>, o: Move): Splice<T>
    requires Inside(o, s)
  {
    var at := o.offset - s.offset;
    Splice(if o.Dest() < s.offset then s.offset + o.count else s.offset,
           Cut(s.before, Splice(at, Taken(s, o), [])), s.after)
  }

  /** The move becomes an insertion of the elements that escaped the splice. */
  function Rescue<T(==)>(s: Splice<T>, o: Move): Splice<T>
    requires Inside(o, s)
  {
    Splice(if o.Dest() < s.offset then o.Dest() else o.Dest() + s.Growth(), [], Taken(s, o))
  }

  lemma WithoutAgrees<T>(v: seq<T>, s: Splice<T>, o: Move, vo: seq<T>, off: int, before: seq<T>, j: int)
    requires s.Fits(v) && o.Fits(|v|) && Inside(o, s) && !StaysInside(o, s) && Shifted(v, o, vo)
    requires off == (if o.Dest() < s.offset then s.offset + o.count else s.offset)
    requires Spliced(s.before, Splice(o.offset - s.offset, Taken(s, o), []), before) && 0 <= j < |before|
    ensures off + j < |vo| && vo[off + j] == before[j]
  {
    var k := if j < o.offset - s.offset then j else j + o.count;
    assert before[j] == s.before[k];
    assert s.before[k] == v[s.offset + k];
  }

  lemma WithoutFits<T>(v: seq<T>, s: Splice<T>, o: Move, vo: seq<T>)
    requires s.Fits(v) && o.Fits(|v|) && Inside(o, s) && !StaysInside(o, s) && Shifted(v, o, vo)
    ensures Without(s, o).Fits(vo)
  {
    var s1, taken := Without(s, o), Splice(o.offset - s.offset, Taken(s, o), []);
    CutIsSpliced(s.before, taken);
    assert s1.before == Cut(s.before, taken);
    forall j | 0 <= j < |s1.before| ensures s1.offset + j < |vo| && vo[s1.offset + j] == s1.before[j] {
      WithoutAgrees(v, s, o, vo, s1.offset, s1.before, j);
    }
    FitsAt(vo, s1);
  }

  lemma TakenAgrees<T>(v: seq<T>, s: Splice<T>, o: Move, taken: seq<T>)
    requires s.Fits(v) && o.Fits(|v|) && Inside(o, s) && taken == Taken(s, o)
    ensures |taken| == o.count && forall k :: 0 <= k < o.count ==> taken[k] == v[o.offset + k]
  {
    forall k | 0 <= k < o.count ensures taken[k] == v[o.offset + k] {
      assert s.before[o.offset - s.offset + k] == v[o.offset + k];
    }
  }

  lemma RescueAgrees<T>(v: seq<T>, s: Splice<T>, o: Move, s1: Splice<T>, o1: Splice<T>,
                        vs: seq<T>, vo: seq<T>, l: seq<T>, r: seq<T>, j: int)
    requires s.Fits(v) && o.Fits(|v|) && Inside(o, s) && !StaysInside(o, s)
    requires s1.offset == (if o.Dest() < s.offset then s.offset + o.count else s.offset)
    requires |s1.before| == |s.before| - o.count && s1.after == s.after
    requires o1.offset == (if o.Dest() < s.offset then o.Dest() else o.Dest() + s.Growth())
    requires o1.before == [] && |o1.after| == o.count
    requires forall k :: 0 <= k < o.count ==> o1.after[k] == v[o.offset + k]
    requires Spliced(v, s, vs) && Shifted(v, o, vo)
    requires Spliced(vs, o1, l) && Spliced(vo, s1, r) && 0 <= j < |r|
    ensures |l| == |r| && l[j] == r[j]
  {
    if o.Dest() < s.offset {
      RescueLeftAgrees(v, s, o, s1, o1, vs, vo, l, r, j);
    } else {
      RescueRightAgrees(v, s, o, s1, o1, vs, vo, l, r, j);
    }
  }

  lemma RescueLeftAgrees<T>(v: seq<T>, s: Splice<T>, o: Move, s1: Splice<T>, o1: Splice<T>,
                            vs: seq<T>, vo: seq<T>, l: seq<T>, r: seq<T>, j: int)
    requires o.Fits(|v|) && Inside(o, s) && o.Dest() < s.offset
    requires s1.offset == s.offset + o.count && |s1.before| == |s.before| - o.count && s1.after == s.after
    requires o1.offset == o.Dest() && o1.before == [] && |o1.after| == o.count
    requires forall k :: 0 <= k < o.count ==> o1.after[k] == v[o.offset + k]
    requires Spliced(v, s, vs) && Shifted(v, o, vo)
    requires Spliced(vs, o1, l) && Spliced(vo, s1, r) && 0 <= j < |r|
    ensures |l| == |r| && l[j] == r[j]
  {
  }

  lemma RescueRightAgrees<T>(v: seq<T>, s: Splice<T>, o: Move, s1: Splice<T>, o1: Splice<T>,
                             vs: seq<T>, vo: seq<T>, l: seq<T>, r: seq<T>, j: int)
    requires o.Fits(|v|) && Inside(o, s) && o.Dest() > s.offset + |s.before|
    requires s1.offset == s.offset && |s1.before| == |s.before| - o.count && s1.after == s.after
    requires o1.offset == o.Dest() + s.Growth() && o1.before == [] && |o1.after| == o.count
    requires forall k :: 0 <= k < o.count ==> o1.after[k] == v[o.offset + k]
    requires Spliced(v, s, vs) && Shifted(v, o, vo)
    requires Spliced(vs, o1, l) && Spliced(vo, s1, r) && 0 <= j < |r|
    ensures |l| == |r| && l[j] == r[j]
  {
  }

  // ----- disjoint blocks -----

  predicate Disjoint<T(==)>(o: Move, s: Splice<T>) {
    || (o.offset >= s.offset + |s.before| && o.offset > s.offset)
    || (o.offset + o.count <= s.offset && o.offset < s.offset)
  }

  predicate Splits<T(==)>(o: Move, s: Splice<T>) { s.offset < o.Dest() < s.offset + |s.before| }

  function MergeDisjoint<T(==)>(s: Splice<T>, o: Move): Crossing<T> {
    if Splits(o, s) then
      Crossing(Some(ByMove(MovedPast(o, s))), [BySplice(SecondHalf(s, o)), BySplice(FirstHalf(s, o))])
    else Crossing(Some(ByMove(Adjusted(o, s))), [BySplice(Displaced(s, o))])
  }

  /** The move's target lies inside the run: the elements land after the spliced-in run. */
  function MovedPast<T(==)>(o: Move, s: Splice<T>): Move {
    var right := s.offset + |s.before| - o.Dest();
    if o.offset < s.offset then o.(distance := o.distance + right + s.Growth())
    else o.(distance := o.distance + right, offset := o.offset + s.Growth())
  }

  function SecondHalf<T(==)>(s: Splice<T>, o: Move): Splice<T>
    requires Splits(o, s)
  {
    Splice(o.offset + o.count + o.distance, s.before[o.Dest() - s.offset..], [])
  }

  function FirstHalf<T(==)>(s: Splice<T>, o: Move): Splice<T>
    requires Splits(o, s)
  {
    Splice(if o.offset < s.offset then s.offset - o.count else s.offset, s.before[..o.Dest() - s.offset], s.after)
  }

  function Adjusted<T(==)>(o: Move, s: Splice<T>): Move {
    if o.Dest() <= s.offset then
      if o.offset > s.offset then o.(offset := o.offset + s.Growth(), distance := o.distance - s.Growth()) else o
    else if o.Dest() >= s.offset + |s.before| then
      if o.offset > s.offset then o.(offset := o.offset + s.Growth())
      else o.(distance := o.distance + s.Growth())
    else o
  }

  function Displaced<T(==)>(s: Splice<T>, o: Move): Splice<T> {
    if o.Dest() <= s.offset then
      if o.offset > s.offset then s.(offset := s.offset + o.count) else s
    else if o.Dest() >= s.offset + |s.before| then
      if o.offset > s.offset then s else s.(offset := s.offset - o.count)
    else s
  }

  lemma DisplacedFits<T>(v: seq<T>, s: Splice<T>, o: Move, vo: seq<T>)
    requires s.Fits(v) && o.Fits(|v|) && Disjoint(o, s) && !Splits(o, s) && Shifted(v, o, vo)
    ensures Displaced(s, o).Fits(vo)
  {
    var at := Displaced(s, o).offset;
    forall j | 0 <= j < |s.before| ensures vo[at + j] == s.before[j] {
      assert s.before[j] == v[s.offset + j];
    }
    FitsAt(vo, Displaced(s, o));
  }

  lemma StaysLeftAgrees<T>(v: seq<T>, s: Splice<T>, o: Move, vs: seq<T>, vo: seq<T>, l: seq<T>, r: seq<T>, j: int)
    requires o.Fits(|v|) && Disjoint(o, s) && !Splits(o, s) && Spliced(v, s, vs) && Shifted(v, o, vo)
    requires o.offset < s.offset && o.Dest() <= s.offset
    requires Shifted(vs, Adjusted(o, s), l) && Spliced(vo, Displaced(s, o), r) && 0 <= j < |r|
    ensures |l| == |r| && l[j] == r[j]
  {
  }

  lemma StaysRightAgrees<T>(v: seq<T>, s: Splice<T>, o: Move, vs: seq<T>, vo: seq<T>, l: seq<T>, r: seq<T>, j: int)
    requires o.Fits(|v|) && Disjoint(o, s) && !Splits(o, s) && Spliced(v, s, vs) && Shifted(v, o, vo)
    requires o.offset > s.offset && o.Dest() > s.offset
    requires Shifted(vs, Adjusted(o, s), l) && Spliced(vo, Displaced(s, o), r) && 0 <= j < |r|
    ensures |l| == |r| && l[j] == r[j]
  {
  }

  lemma JumpsRightAgrees<T>(v: seq<T>, s: Splice<T>, o: Move, vs: seq<T>, vo: seq<T>, l: seq<T>, r: seq<T>, j: int)
    requires o.Fits(|v|) && Disjoint(o, s) && !Splits(o, s) && Spliced(v, s, vs) && Shifted(v, o, vo)
    requires o.offset < s.offset && o.Dest() > s.offset
    requires Shifted(vs, Adjusted(o, s), l) && Spliced(vo, Displaced(s, o), r) && 0 <= j < |r|
    ensures |l| == |r| && l[j] == r[j]
  {
  }

  lemma JumpsLeftAgrees<T>(v: seq<T>, s: Splice<T>, o: Move, vs: seq<T>, vo: seq<T>, l: seq<T>, r: seq<T>, j: int)
    requires o.Fits(|v|) && Disjoint(o, s) && !Splits(o, s) && Spliced(v, s, vs) && Shifted(v, o, vo)
    requires o.offset > s.offset && o.Dest() <= s.offset
    requires Shifted(vs, Adjusted(o, s), l) && Spliced(vo, Displaced(s, o), r) && 0 <= j < |r|
    ensures |l| == |r| && l[j] == r[j]
  {
  }

  lemma DisplacedAgrees<T>(v: seq<T>, s: Splice<T>, o: Move, vs: seq<T>, vo: seq<T>, l: seq<T>, r: seq<T>, j: int)
    requires o.Fits(|v|) && Disjoint(o, s) && !Splits(o, s) && Spliced(v, s, vs) && Shifted(v, o, vo)
    requires Shifted(vs, Adjusted(o, s), l) && Spliced(vo, Displaced(s, o), r) && 0 <= j < |r|
    ensures |l| == |r| && l[j] == r[j]
  {
    if o.offset < s.offset {
      if o.Dest() <= s.offset {
        StaysLeftAgrees(v, s, o, vs, vo, l, r, j);
      } else {
        JumpsRightAgrees(v, s, o, vs, vo, l, r, j);
      }
    } else if o.Dest() > s.offset {
      StaysRightAgrees(v, s, o, vs, vo, l, r, j);
    } else {
      JumpsLeftAgrees(v, s, o, vs, vo, l, r, j);
    }
  }

  lemma SecondHalfFits<T>(v: seq<T>, s: Splice<T>, o: Move, vo: seq<T>)
    requires s.Fits(v) && o.Fits(|v|) && Disjoint(o, s) && Splits(o, s) && Shifted(v, o, vo)
    ensures SecondHalf(s, o).Fits(vo)
  {
    var c := SecondHalf(s, o);
    forall j | 0 <= j < |c.before| ensures vo[c.offset + j] == c.before[j] {
      assert c.before[j] == v[o.Dest() + j];
    }
    FitsAt(vo, c);
  }

  lemma FirstHalfFits<T>(v: seq<T>, s: Splice<T>, o: Move, vo: seq<T>, cut: seq<T>)
    requires s.Fits(v) && o.Fits(|v|) && Disjoint(o, s) && Splits(o, s) && Shifted(v, o, vo)
    requires Spliced(vo, SecondHalf(s, o), cut)
    ensures FirstHalf(s, o).Fits(cut)
  {
    var c := FirstHalf(s, o);
    forall j | 0 <= j < |c.before| ensures cut[c.offset + j] == c.before[j] {
      assert c.before[j] == v[s.offset + j];
      assert cut[c.offset + j] == vo[c.offset + j];
    }
    FitsAt(cut, c);
  }

  lemma HalvesFromLeftAgree<T>(v: seq<T>, s: Splice<T>, o: Move, right: int, o1: Move, c2: Splice<T>, c1: Splice<T>,
                      vs: seq<T>, vo: seq<T>, cut: seq<T>, l: seq<T>, r: seq<T>, j: int)
    requires o.Fits(|v|) && Splits(o, s) && Spliced(v, s, vs) && Shifted(v, o, vo)
    requires o.offset + o.count <= s.offset && o.offset < s.offset
    requires right == s.offset + |s.before| - o.Dest()
    requires c2.offset == o.offset + o.count + o.distance && |c2.before| == right && c2.after == []
    requires |c1.before| == |s.before| - right && c1.after == s.after
    requires c1.offset == s.offset - o.count && o1 == Move(o.offset, o.count, o.distance + right + s.Growth())
    requires Spliced(vo, c2, cut) && Spliced(cut, c1, r)
    requires Shifted(vs, o1, l) && 0 <= j < |r|
    ensures |l| == |r| && l[j] == r[j]
  {
  }

  lemma HalvesFromRightAgree<T>(v: seq<T>, s: Splice<T>, o: Move, right: int, o1: Move, c2: Splice<T>, c1: Splice<T>,
                      vs: seq<T>, vo: seq<T>, cut: seq<T>, l: seq<T>, r: seq<T>, j: int)
    requires o.Fits(|v|) && Splits(o, s) && Spliced(v, s, vs) && Shifted(v, o, vo)
    requires o.offset >= s.offset + |s.before|
    requires right == s.offset + |s.before| - o.Dest()
    requires c2.offset == o.offset + o.count + o.distance && |c2.before| == right && c2.after == []
    requires |c1.before| == |s.before| - right && c1.after == s.after
    requires c1.offset == s.offset && o1 == Move(o.offset + s.Growth(), o.count, o.distance + right)
    requires Spliced(vo, c2, cut) && Spliced(cut, c1, r)
    requires Shifted(vs, o1, l) && 0 <= j < |r|
    ensures |l| == |r| && l[j] == r[j]
  {
  }

  lemma HalvesAgree<T>(v: seq<T>, s: Splice<T>, o: Move,
                      vs: seq<T>, vo: seq<T>, cut: seq<T>, l: seq<T>, r: seq<T>, j: int)
    requires o.Fits(|v|) && Disjoint(o, s) && Splits(o, s) && Spliced(v, s, vs) && Shifted(v, o, vo)
    requires Spliced(vo, SecondHalf(s, o), cut) && Spliced(cut, FirstHalf(s, o), r)
    requires Shifted(vs, MovedPast(o, s), l) && 0 <= j < |r|
    ensures |l| == |r| && l[j] == r[j]
  {
    var right := s.offset + |s.before| - o.Dest();
    if o.offset < s.offset {
      HalvesFromLeftAgree(v, s, o, right, MovedPast(o, s), SecondHalf(s, o), FirstHalf(s, o), vs, vo, cut, l, r, j);
    } else {
      HalvesFromRightAgree(v, s, o, right, MovedPast(o, s), SecondHalf(s, o), FirstHalf(s, o), vs, vo, cut, l, r, j);
    }
  }

  // ----- partial overlap: undo the common part, then merge the rest of the move -----

  predicate Straddles<T(==)>(o: Move, s: Splice<T>) {
    !Inside(o, s) && !Covers(o, s) && o.offset < s.offset + |s.before| && s.offset < o.offset + o.count
  }

  function RestOf<T(==)>(o: Move, s: Splice<T>): Move
    requires Straddles(o, s)
  {
    if o.offset > s.offset then
      var left := s.offset + |s.before| - o.offset;
      Move(o.offset + left, o.count - left, if o.distance < 0 then o.distance - left else o.distance)
    else
      var right := o.offset + o.count - s.offset;
      Move(o.offset, o.count - right, A.TailRest(o.distance, right))
  }

  function UndoOf<T(==)>(o: Move, s: Splice<T>): Move
    requires Straddles(o, s)
  {
    if o.offset > s.offset then
      var left := s.offset + |s.before| - o.offset;
      Move(o.offset + o.distance, left, if o.distance < 0 then o.count - left - o.distance else -o.distance)
    else
      var right := o.offset + o.count - s.offset;
      Move(o.offset + o.distance + o.count - right, right, A.TailBack(o.count, o.distance, right))
  }

  lemma RestIsDisjoint<T>(v: seq<T>, s: Splice<T>, o: Move)
    requires s.Fits(v) && o.Fits(|v|) && Straddles(o, s)
    ensures RestOf(o, s).Fits(|v|) && UndoOf(o, s).Fits(|v|) && Disjoint(RestOf(o, s), s)
  {
    if o.offset <= s.offset {
      A.UndoTail(|v|, o.offset, o.count, o.distance, o.offset + o.count - s.offset, 0);
    }
  }

  lemma UndoLeavesRest<T>(v: seq<T>, s: Splice<T>, o: Move)
    requires s.Fits(v) && o.Fits(|v|) && Straddles(o, s)
    requires RestOf(o, s).Fits(|v|) && UndoOf(o, s).Fits(|v|)
    ensures Shift(Shift(v, o), UndoOf(o, s)) == Shift(v, RestOf(o, s))
  {
    var undo, rest := UndoOf(o, s), RestOf(o, s);
    forall j | 0 <= j < |v| ensures Shift(Shift(v, o), undo)[j] == Shift(v, rest)[j] {
      ShiftSource(Shift(v, o), undo, j);
      ShiftSource(v, o, undo.Source(j));
      ShiftSource(v, rest, j);
      UndoSource(v, s, o, j);
    }
  }

  lemma UndoSource<T>(v: seq<T>, s: Splice<T>, o: Move, j: int)
    requires s.Fits(v) && o.Fits(|v|) && Straddles(o, s)
    ensures o.Source(UndoOf(o, s).Source(j)) == RestOf(o, s).Source(j)
  {
    if o.offset <= s.offset {
      A.UndoTail(|v|, o.offset, o.count, o.distance, o.offset + o.count - s.offset, j);
    } else if o.distance != 0 {
      A.UndoHead(|v|, o.offset, o.count, o.distance, s.offset + |s.before| - o.offset, j);
    }
  }

  // ----- both orders reach the same sequence -----

  function DoMaybe<T(==)>(s: seq<T>, e: Option<Edit<T>>): seq<T>
    requires e.Some? ==> e.value.Fits(s)
  {
    if e.None? then s else e.value.Do(s)
  }

  ghost predicate Crosses<T>(vs: seq<T>, vo: seq<T>, p: Crossing<T>) {
    && (p.theirs.Some? ==> p.theirs.value.Fits(vs))
    && FitAll(vo, p.mine)
    && DoMaybe(vs, p.theirs) == DoAll(vo, p.mine)
  }

  lemma JoinOne<T>(vs: seq<T>, vo: seq<T>, theirs: Option<Edit<T>>, mine: Edit<T>)
    requires (theirs.Some? ==> theirs.value.Fits(vs)) && mine.Fits(vo)
    requires DoMaybe(vs, theirs) == mine.Do(vo)
    ensures Crosses(vs, vo, Crossing(theirs, [mine]))
  {
    assert DoAll(mine.Do(vo), []) == mine.Do(vo);
    assert [mine][1..] == [];
  }

  lemma JoinAfter<T>(vs: seq<T>, vo: seq<T>, first: Edit<T>, p: Crossing<T>)
    requires first.Fits(vo) && Crosses(vs, first.Do(vo), p)
    ensures Crosses(vs, vo, p.(mine := [first] + p.mine))
  {
    assert ([first] + p.mine)[1..] == p.mine;
  }

  lemma CoveredConverges<T>(v: seq<T>, s: Splice<T>, o: Move)
    requires s.Fits(v) && o.Fits(|v|) && Covers(o, s)
    ensures Crosses(Cut(v, s), Shift(v, o), Crossing(Some(ByMove(Resized(o, s))), [BySplice(Carried(s, o))]))
  {
    var vs, vo, o1, s1 := Cut(v, s), Shift(v, o), Resized(o, s), Carried(s, o);
    CutIsSpliced(v, s); ShiftIsShifted(v, o);
    CarriedFits(v, s, o, vo);
    assert o1.Fits(|vs|);
    var l, r := Shift(vs, o1), Cut(vo, s1);
    ShiftIsShifted(vs, o1); CutIsSpliced(vo, s1);
    forall j | 0 <= j < |r| ensures |l| == |r| && l[j] == r[j] { CoveredAgrees(v, s, o, vs, vo, l, r, j); }
    assert l == r;
    JoinOne(vs, vo, Some(ByMove(o1)), BySplice(s1));
  }

  lemma ShuffledConverges<T>(v: seq<T>, s: Splice<T>, o: Move)
    requires s.Fits(v) && o.Fits(|v|) && StaysInside(o, s)
    ensures Crosses(Cut(v, s), Shift(v, o), Crossing(None, [BySplice(Shuffled(s, o))]))
  {
    var vs, vo, s1 := Cut(v, s), Shift(v, o), Shuffled(s, o);
    CutIsSpliced(v, s); ShiftIsShifted(v, o);
    ShuffledFits(v, s, o, vo, s1);
    var r := Cut(vo, s1);
    CutIsSpliced(vo, s1);
    forall j | 0 <= j < |r| ensures |vs| == |r| && vs[j] == r[j] { ReplacedAgrees(v, s, o, s1, vs, vo, r, j); }
    assert vs == r;
    JoinOne(vs, vo, None, BySplice(s1));
  }

  lemma RescueConverges<T>(v: seq<T>, s: Splice<T>, o: Move)
    requires s.Fits(v) && o.Fits(|v|) && Inside(o, s) && !StaysInside(o, s)
    ensures Crosses(Cut(v, s), Shift(v, o), Crossing(Some(BySplice(Rescue(s, o))), [BySplice(Without(s, o))]))
  {
    var vs, vo, o1, s1 := Cut(v, s), Shift(v, o), Rescue(s, o), Without(s, o);
    CutIsSpliced(v, s); ShiftIsShifted(v, o);
    WithoutFits(v, s, o, vo);
    FitsAt(vs, o1);
    TakenAgrees(v, s, o, o1.after);
    var l, r := Cut(vs, o1), Cut(vo, s1);
    CutIsSpliced(vs, o1); CutIsSpliced(vo, s1);
    forall j | 0 <= j < |r| ensures |l| == |r| && l[j] == r[j] { RescueAgrees(v, s, o, s1, o1, vs, vo, l, r, j); }
    assert l == r;
    JoinOne(vs, vo, Some(BySplice(o1)), BySplice(s1));
  }

  lemma DisplacedConverges<T>(v: seq<T>, s: Splice<T>, o: Move)
    requires s.Fits(v) && o.Fits(|v|) && Disjoint(o, s) && !Splits(o, s)
    ensures Crosses(Cut(v, s), Shift(v, o), Crossing(Some(ByMove(Adjusted(o, s))), [BySplice(Displaced(s, o))]))
  {
    var vs, vo, o1, s1 := Cut(v, s), Shift(v, o), Adjusted(o, s), Displaced(s, o);
    CutIsSpliced(v, s); ShiftIsShifted(v, o);
    DisplacedFits(v, s, o, vo);
    assert o1.Fits(|vs|);
    var l, r := Shift(vs, o1), Cut(vo, s1);
    ShiftIsShifted(vs, o1); CutIsSpliced(vo, s1);
    forall j | 0 <= j < |r| ensures |l| == |r| && l[j] == r[j] { DisplacedAgrees(v, s, o, vs, vo, l, r, j); }
    assert l == r;
    JoinOne(vs, vo, Some(ByMove(o1)), BySplice(s1));
  }

  lemma HalvesConverge<T>(v: seq<T>, s: Splice<T>, o: Move)
    requires s.Fits(v) && o.Fits(|v|) && Disjoint(o, s) && Splits(o, s)
    ensures Crosses(Cut(v, s), Shift(v, o), MergeDisjoint(s, o))
  {
    var vs, vo, o1, c2, c1 := Cut(v, s), Shift(v, o), MovedPast(o, s), SecondHalf(s, o), FirstHalf(s, o);
    CutIsSpliced(v, s); ShiftIsShifted(v, o);
    SecondHalfFits(v, s, o, vo);
    var cut := Cut(vo, c2);
    CutIsSpliced(vo, c2);
    FirstHalfFits(v, s, o, vo, cut);
    assert o1.Fits(|vs|);
    var l, r := Shift(vs, o1), Cut(cut, c1);
    ShiftIsShifted(vs, o1); CutIsSpliced(cut, c1);
    forall j | 0 <= j < |r| ensures |l| == |r| && l[j] == r[j] { HalvesAgree(v, s, o, vs, vo, cut, l, r, j); }
    assert l == r;
    JoinOne(vs, cut, Some(ByMove(o1)), BySplice(c1));
    JoinAfter(vs, vo, BySplice(c2), Crossing(Some(ByMove(o1)), [BySplice(c1)]));
    assert [BySplice(c2)] + [BySplice(c1)] == [BySplice(c2), BySplice(c1)];
  }

  lemma DisjointConverges<T>(v: seq<T>, s: Splice<T>, o: Move)
    requires s.Fits(v) && o.Fits(|v|) && Disjoint(o, s)
    ensures Crosses(Cut(v, s), Shift(v, o), MergeDisjoint(s, o))
  {
    if Splits(o, s) {
      HalvesConverge(v, s, o);
    } else {
      DisplacedConverges(v, s, o);
    }
  }

  /** Convergence of a splice with a concurrent move; every produced edit fits where it is applied. */
  lemma SpliceMoveConverges<T>(v: seq<T>, s: Splice<T>, o: Move)
    requires s.Fits(v) && o.Fits(|v|)
    ensures Crosses(Cut(v, s), Shift(v, o), MergeSpliceMove(s, o))
  {
    if StaysInside(o, s) {
      ShuffledConverges(v, s, o);
    } else if Inside(o, s) {
      RescueConverges(v, s, o);
    } else if Covers(o, s) {
      CoveredConverges(v, s, o);
    } else if o.offset >= s.offset + |s.before| || s.offset >= o.offset + o.count {
      DisjointConverges(v, s, o);
    } else {
      RestIsDisjoint(v, s, o);
      UndoLeavesRest(v, s, o);
      DisjointConverges(v, s, RestOf(o, s));
      JoinAfter(Cut(v, s), Shift(v, o), ByMove(UndoOf(o, s)), MergeDisjoint(s, RestOf(o, s)));
    }
  }
}

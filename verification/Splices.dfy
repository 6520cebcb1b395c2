/** Splices replace a run of elements by another: what a splice does, and how two concurrent splices
    are merged (changes/splice.go). */
module Splices {
  import opened Options

  /** Replace the elements `before` found at `offset` by `after`. */
  datatype Splice<T(==)> = Splice(offset: int, before: seq<T>, after: seq<T>) {

    /** Inside s, and `before` is really what is there. */
    predicate Fits(s: seq<T>) {
      && 0 <= offset && offset + |before| <= |s|
      && s[offset..offset + |before|] == before
    }

    function Revert(): Splice<T> { Splice(offset, after, before) }

    /** How much longer the sequence gets. */
    function Growth(): int { |after| - |before| }

    /** Where the element at idx is afterwards; None if it is removed. */
    function MapIndex(idx: int): Option<int> {
      if idx < offset then Some(idx)
      else if idx >= offset + |before| then Some(idx + |after| - |before|)
      else None
    }
  }

  function Cut<T(==)>(s: seq<T>, c: Splice<T>): (r: seq<T>)
    requires c.Fits(s)
    ensures |r| == |s| + c.Growth()
  {
    s[..c.offset] + c.after + s[c.offset + |c.before|..]
  }

  /** Being there, element by element. */
  lemma FitsAt<T>(w: seq<T>, c: Splice<T>)
    requires 0 <= c.offset && c.offset + |c.before| <= |w|
    requires forall j {:trigger c.before[j]} :: 0 <= j < |c.before| ==> w[c.offset + j] == c.before[j]
    ensures c.Fits(w)
  {
    assert w[c.offset..c.offset + |c.before|] == c.before;
  }

  /** Reverting a splice restores the sequence. */
  lemma CutRevert<T>(s: seq<T>, c: Splice<T>)
    requires c.Fits(s)
    ensures c.Revert().Fits(Cut(s, c))
    ensures Cut(Cut(s, c), c.Revert()) == s
  {
    var r := Cut(s, c);
    assert r[c.offset..c.offset + |c.after|] == c.after;
    assert s == s[..c.offset] + c.before + s[c.offset + |c.before|..];
    assert Cut(r, c.Revert()) == s[..c.offset] + c.before + s[c.offset + |c.before|..];
  }

  /** The transformed splices: `theirs` follows the receiver, `mine` follows the argument. */
  datatype Pair<T(==)> = Pair(theirs: Option<Splice<T>>, mine: Option<Splice<T>>)

  function MergeSplices<T(==)>(s: Splice<T>, o: Splice<T>): Pair<T> {
    var sstart, send := s.offset, s.offset + |s.before|;
    var ostart, oend := o.offset, o.offset + |o.before|;
    if send <= ostart then Pair(Some(Moved(o, s)), Some(s))
    else if sstart >= oend then Pair(Some(o), Some(Moved(s, o)))
    else if sstart < ostart && send < oend then Pair(Some(WithoutHead(o, s)), Some(WithoutTail(s, o)))
    else if sstart == ostart && send < oend then
      Pair(Some(Splice(o.offset + |s.after|, o.before[|s.before|..], o.after)), Some(s.(before := [])))
    else if sstart <= ostart then Pair(None, Some(Around(s, o)))
    else if send <= oend then Pair(Some(Around(o, s)), None)
    else Pair(Some(WithoutTail(o, s)), Some(WithoutHead(s, o)))
  }

  /** o shifted by an earlier splice to its left. */
  function Moved<T(==)>(o: Splice<T>, s: Splice<T>): Splice<T> {
    o.(offset := o.offset + s.Growth())
  }

  predicate Overlap<T(==)>(s: Splice<T>, o: Splice<T>) {
    s.offset <= o.offset <= s.offset + |s.before| <= o.offset + |o.before|
  }

  /** What o still has to replace once s replaced the head of o's run. */
  function WithoutHead<T(==)>(o: Splice<T>, s: Splice<T>): Splice<T>
    requires Overlap(s, o)
  {
    Splice(s.offset + |s.after|, o.before[s.offset + |s.before| - o.offset..], o.after)
  }

  /** What s still has to replace once o replaced the tail of s's run. */
  function WithoutTail<T(==)>(s: Splice<T>, o: Splice<T>): Splice<T>
    requires Overlap(s, o)
  {
    s.(before := s.before[..o.offset - s.offset])
  }

  predicate Nested<T(==)>(s: Splice<T>, o: Splice<T>) {
    s.offset <= o.offset && o.offset + |o.before| <= s.offset + |s.before|
  }

  /** s replaces everything o touched, so its `before` now shows o's result. */
  function Around<T(==)>(s: Splice<T>, o: Splice<T>): Splice<T>
    requires Nested(s, o)
  {
    var at := o.offset - s.offset;
    s.(before := Cut(s.before, Splice(at, s.before[at..at + |o.before|], o.after)))
  }

  ghost predicate FitsMaybe<T>(s: seq<T>, c: Option<Splice<T>>) { c.None? || c.value.Fits(s) }

  function CutMaybe<T(==)>(s: seq<T>, c: Option<Splice<T>>): seq<T>
    requires FitsMaybe(s, c)
  {
    if c.None? then s else Cut(s, c.value)
  }

  lemma MovedFits<T>(v: seq<T>, s: Splice<T>, o: Splice<T>)
    requires s.Fits(v) && o.Fits(v) && s.offset + |s.before| <= o.offset
    ensures Moved(o, s).Fits(Cut(v, s))
  {
    var at := o.offset + s.Growth();
    assert Cut(v, s)[at..at + |o.before|] == o.before;
  }

  lemma LeftFits<T>(v: seq<T>, s: Splice<T>, o: Splice<T>)
    requires s.Fits(v) && o.Fits(v) && s.offset + |s.before| <= o.offset
    ensures s.Fits(Cut(v, o))
  {
    assert Cut(v, o)[s.offset..s.offset + |s.before|] == s.before;
  }

  lemma ApartMeets<T>(v: seq<T>, s: Splice<T>, o: Splice<T>)
    requires s.Fits(v) && o.Fits(v) && s.offset + |s.before| <= o.offset
    requires Moved(o, s).Fits(Cut(v, s)) && s.Fits(Cut(v, o))
    ensures Cut(Cut(v, s), Moved(o, s)) == Cut(Cut(v, o), s)
  {
  }

  lemma WithoutHeadFits<T>(v: seq<T>, s: Splice<T>, o: Splice<T>)
    requires s.Fits(v) && o.Fits(v) && Overlap(s, o)
    ensures WithoutHead(o, s).Fits(Cut(v, s))
  {
    var o1 := WithoutHead(o, s);
    assert Cut(v, s)[o1.offset..o1.offset + |o1.before|] == o1.before;
  }

  lemma WithoutTailFits<T>(v: seq<T>, s: Splice<T>, o: Splice<T>)
    requires s.Fits(v) && o.Fits(v) && Overlap(s, o)
    ensures WithoutTail(s, o).Fits(Cut(v, o))
  {
    var s1 := WithoutTail(s, o);
    assert Cut(v, o)[s1.offset..s1.offset + |s1.before|] == s1.before;
  }

  lemma OverlapMeets<T>(v: seq<T>, s: Splice<T>, o: Splice<T>)
    requires s.Fits(v) && o.Fits(v) && Overlap(s, o)
    requires WithoutHead(o, s).Fits(Cut(v, s)) && WithoutTail(s, o).Fits(Cut(v, o))
    ensures Cut(Cut(v, s), WithoutHead(o, s)) == Cut(Cut(v, o), WithoutTail(s, o))
  {
  }

  lemma AroundFits<T>(v: seq<T>, s: Splice<T>, o: Splice<T>)
    requires s.Fits(v) && o.Fits(v) && Nested(s, o)
    ensures Around(s, o).Fits(Cut(v, o))
  {
    var s1, w := Around(s, o), Cut(v, o);
    forall j {:trigger s1.before[j]} | 0 <= j < |s1.before| ensures w[s1.offset + j] == s1.before[j] {
      var k := if j < o.offset - s.offset + |o.after| then j else j - o.Growth();
      assert 0 <= k < |s.before| ==> v[s.offset..s.offset + |s.before|][k] == s.before[k];
    }
    FitsAt(w, s1);
  }

  lemma NestedMeets<T>(v: seq<T>, s: Splice<T>, o: Splice<T>)
    requires s.Fits(v) && o.Fits(v) && Nested(s, o)
    requires Around(s, o).Fits(Cut(v, o))
    ensures Cut(v, s) == Cut(Cut(v, o), Around(s, o))
  {
  }

  /** Convergence of two concurrent splices; each transformed splice meets exactly its `before`. */
  lemma SplicesConverge<T>(v: seq<T>, s: Splice<T>, o: Splice<T>)
    requires s.Fits(v) && o.Fits(v)
    ensures FitsMaybe(Cut(v, s), MergeSplices(s, o).theirs) && FitsMaybe(Cut(v, o), MergeSplices(s, o).mine)
    ensures CutMaybe(Cut(v, s), MergeSplices(s, o).theirs) == CutMaybe(Cut(v, o), MergeSplices(s, o).mine)
  {
    var sstart, send := s.offset, s.offset + |s.before|;
    var ostart, oend := o.offset, o.offset + |o.before|;
    if send <= ostart {
      MovedFits(v, s, o); LeftFits(v, s, o); ApartMeets(v, s, o);
    } else if sstart >= oend {
      MovedFits(v, o, s); LeftFits(v, o, s); ApartMeets(v, o, s);
    } else if sstart <= ostart && send < oend {
      WithoutHeadFits(v, s, o); WithoutTailFits(v, s, o); OverlapMeets(v, s, o);
      if sstart == ostart {
        assert WithoutTail(s, o) == s.(before := []);
        assert WithoutHead(o, s) == Splice(o.offset + |s.after|, o.before[|s.before|..], o.after);
      }
    } else if sstart <= ostart {
      AroundFits(v, s, o); NestedMeets(v, s, o);
    } else if send <= oend {
      AroundFits(v, o, s); NestedMeets(v, o, s);
    } else {
      WithoutHeadFits(v, o, s); WithoutTailFits(v, o, s); OverlapMeets(v, o, s);
    }
  }
}

/** What is left of two concurrent splices (changes/splice.go): the merged sequence in every relative
    position, said without the splices that the merge produces. */
module SpliceOutcomes {
  import opened Options
  import opened Splices

  function End<T(==)>(c: Splice<T>): int { c.offset + |c.before| }

  /** Both runs stay: first's, then whatever stood between them, then second's. */
  function Side<T(==)>(v: seq<T>, first: Splice<T>, second: Splice<T>): seq<T>
    requires first.Fits(v) && second.Fits(v) && first.offset <= second.offset && End(first) <= End(second)
  {
    v[..first.offset] + first.after
    + (if End(first) <= second.offset then v[End(first)..second.offset] else [])
    + second.after + v[End(second)..]
  }

  /** First begins no later and ends earlier, or ends where second begins at the latest. */
  predicate Precedes<T(==)>(first: Splice<T>, second: Splice<T>) {
    End(first) <= second.offset || (first.offset <= second.offset && End(first) < End(second))
  }

  /** The receiver s and the argument o of a merge: a run that the other covers is lost, the argument's if both
      replace the same elements; otherwise both runs stay in their order, the receiver's first if both insert
      at one place. */
  function Outcome<T(==)>(v: seq<T>, s: Splice<T>, o: Splice<T>): seq<T>
    requires s.Fits(v) && o.Fits(v)
  {
    if Precedes(s, o) then Side(v, s, o)
    else if End(o) <= s.offset || (o.offset < s.offset && End(o) < End(s)) then Side(v, o, s)
    else if Nested(s, o) then Cut(v, s)
    else Cut(v, o)
  }

  lemma ApartOutcome<T>(v: seq<T>, first: Splice<T>, second: Splice<T>, r: seq<T>)
    requires first.Fits(v) && second.Fits(v) && End(first) <= second.offset && r == Side(v, first, second)
    ensures first.Fits(Cut(v, second)) && Cut(Cut(v, second), first) == r
  {
    LeftFits(v, first, second);
    var w := Cut(v, second);
    assert w[..first.offset] == v[..first.offset];
    assert w[End(first)..] == v[End(first)..second.offset] + second.after + v[End(second)..];
  }

  lemma OverlapOutcome<T>(v: seq<T>, first: Splice<T>, second: Splice<T>, r: seq<T>)
    requires first.Fits(v) && second.Fits(v) && Overlap(first, second) && second.offset < End(first)
    requires r == Side(v, first, second)
    ensures WithoutTail(first, second).Fits(Cut(v, second)) && Cut(Cut(v, second), WithoutTail(first, second)) == r
  {
    WithoutTailFits(v, first, second);
    var w := Cut(v, second);
    assert w[..first.offset] == v[..first.offset];
    assert w[second.offset..] == second.after + v[End(second)..];
  }

  ghost predicate Reaches<T>(w: seq<T>, c: Option<Splice<T>>, r: seq<T>) { FitsMaybe(w, c) && CutMaybe(w, c) == r }

  /** One of the two orders: the one that ends with the splice of the run that comes first, or with none. */
  lemma OneOutcome<T>(v: seq<T>, s: Splice<T>, o: Splice<T>, p: Pair<T>, r: seq<T>)
    requires s.Fits(v) && o.Fits(v) && p == MergeSplices(s, o) && r == Outcome(v, s, o)
    ensures Reaches(Cut(v, s), p.theirs, r) || Reaches(Cut(v, o), p.mine, r)
  {
    if End(s) <= o.offset {
      ApartOutcome(v, s, o, r);
    } else if s.offset >= End(o) {
      ApartOutcome(v, o, s, r);
    } else if s.offset <= o.offset && End(s) < End(o) {
      OverlapOutcome(v, s, o, r);
      assert s.offset == o.offset ==> WithoutTail(s, o) == s.(before := []);
    } else if s.offset > o.offset && End(s) > End(o) {
      OverlapOutcome(v, o, s, r);
    }
  }

  /** The merged sequence, the receiver's splice applied first or the argument's. */
  lemma MergeOutcome<T>(v: seq<T>, s: Splice<T>, o: Splice<T>)
    requires s.Fits(v) && o.Fits(v)
    ensures var p := MergeSplices(s, o);
            && FitsMaybe(Cut(v, s), p.theirs) && CutMaybe(Cut(v, s), p.theirs) == Outcome(v, s, o)
            && FitsMaybe(Cut(v, o), p.mine) && CutMaybe(Cut(v, o), p.mine) == Outcome(v, s, o)
  {
    SplicesConverge(v, s, o);
    OneOutcome(v, s, o, MergeSplices(s, o), Outcome(v, s, o));
  }
}

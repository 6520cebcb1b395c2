/** What an expression of terms, binary operators and calls means (x/rich/eval), and the two stacks that
    compute it: reading left to right agrees with splitting at the last operator that binds least. */
module Precedence {

  datatype Operator = Operator(name: string, priority: nat, prefix: bool)

  datatype Tree =
    | Missing                                                        // nil
    | Word(name: string)
    | Zero(op: Operator)                                             // the term put before a prefix operator
    | Binary(op: Operator, left: Tree, right: Tree)
    | Call(fn: Tree, args: Tree)
    | Group(open: Operator, close: Operator, isArgs: bool, inner: Tree)

  /** What may follow an operand: an operator with its right operand, or a call of all that binds more. */
  datatype Item = Infix(op: Operator, operand: Tree) | Applied(pri: nat, args: Tree) {
    function Priority(): nat { if Infix? then op.priority else pri }
  }

  /** The last of the items with the lowest priority. */
  function LastLowest(items: seq<Item>): (i: nat)
    requires items != []
    ensures i < |items|
    ensures forall k :: 0 <= k < |items| ==> items[k].Priority() >= items[i].Priority()
    ensures forall k :: i < k < |items| ==> items[k].Priority() > items[i].Priority()
  {
    if |items| == 1 then 0
    else
      var i, n := LastLowest(items[..|items| - 1]), |items| - 1;
      if items[n].Priority() <= items[i].Priority() then n else i
  }

  /** The meaning: split at the last item of lowest priority. */
  function Split(first: Tree, items: seq<Item>): Tree
    decreases |items|, 0
  {
    if items == [] then first
    else
      var i := LastLowest(items);
      At(items[i], Split(first, items[..i]), items[i + 1..])
  }

  /** An item on the tree to its left, with the items after it, which all bind more. */
  function At(item: Item, left: Tree, after: seq<Item>): Tree
    decreases |after|, 1
  {
    match item
    case Infix(op, operand) => Binary(op, left, Split(operand, after))
    case Applied(_, args) => Split(Call(left, args), after)
  }

  // ----- reading from the left -----

  /** How many items from the front bind more than pri. */
  function Reach(items: seq<Item>, pri: int): (k: nat)
    ensures k <= |items|
  {
    if items == [] || items[0].Priority() <= pri then 0 else 1 + Reach(items[1..], pri)
  }

  lemma {:induction false} ReachFacts(items: seq<Item>, pri: int)
    ensures var k := Reach(items, pri);
            && (k < |items| ==> items[k].Priority() <= pri)
            && forall i :: 0 <= i < k ==> items[i].Priority() > pri
    decreases |items|
  {
    if items != [] && items[0].Priority() > pri {
      ReachFacts(items[1..], pri);
    }
  }

  /** The first k items end where the lower priority begins, so cutting there changes nothing before. */
  lemma ReachIs(items: seq<Item>, pri: int, k: nat)
    requires k <= |items| && (k < |items| ==> items[k].Priority() <= pri)
    requires forall i :: 0 <= i < k ==> items[i].Priority() > pri
    ensures Reach(items, pri) == k
  {
    ReachFacts(items, pri);
  }

  lemma LastLowestIs(items: seq<Item>, i: nat)
    requires i < |items|
    requires forall k :: 0 <= k < |items| ==> items[k].Priority() >= items[i].Priority()
    requires forall k :: i < k < |items| ==> items[k].Priority() > items[i].Priority()
    ensures LastLowest(items) == i
  {
    var j := LastLowest(items);
  }

  /** The first item with all the items after it that bind more. */
  function Peeled(first: Tree, items: seq<Item>): Tree
    requires items != []
  {
    match items[0]
    case Infix(op, operand) => Binary(op, first, Split(operand, items[1..Peel(items)]))
    case Applied(_, args) => Call(first, args)
  }

  function Peel(items: seq<Item>): (k: nat)
    requires items != []
    ensures 0 < k <= |items|
  {
    if items[0].Infix? then 1 + Reach(items[1..], items[0].op.priority) else 1
  }

  predicate IsLowest(items: seq<Item>, i: nat)
    requires i < |items|
  {
    && (forall k :: 0 <= k < |items| ==> items[k].Priority() >= items[i].Priority())
    && (forall k :: i < k < |items| ==> items[k].Priority() > items[i].Priority())
  }

  lemma SplitAtLowest(first: Tree, items: seq<Item>, i: nat)
    requires i < |items| && IsLowest(items, i)
    ensures Split(first, items) == At(items[i], Split(first, items[..i]), items[i + 1..])
  {
    LastLowestIs(items, i);
  }

  lemma PeelAll(first: Tree, items: seq<Item>)
    requires items != [] && IsLowest(items, 0)
    ensures Split(first, items) == Split(Peeled(first, items), items[Peel(items)..])
  {
    SplitAtLowest(first, items, 0);
    assert items[..0] == [];
    if items[0].Infix? {
      ReachIs(items[1..], items[0].op.priority, |items| - 1);
      assert items[1..Peel(items)] == items[1..] && items[Peel(items)..] == [];
    }
  }

  /** What is peeled off ends before the last item of lowest priority. */
  lemma PeelStops(items: seq<Item>, i: nat)
    requires 0 < i < |items| && IsLowest(items, i)
    ensures Peel(items) <= i
  {
    if items[0].Infix? {
      ReachFacts(items[1..], items[0].op.priority);
      assert items[1..][i - 1] == items[i];
    }
  }

  lemma Slices<T>(s: seq<T>, i: nat, k: nat)
    requires 1 <= k <= i <= |s|
    ensures s[..i][0] == s[0] && s[..i][1..k] == s[1..k] && s[..i][k..] == s[k..][..i - k]
    ensures s[k..][i - k..] == s[i..]
    ensures i < |s| ==> s[k..][i - k] == s[i] && s[k..][i - k + 1..] == s[i + 1..]
  {
  }

  /** Two operands that agree up to the same item of lowest priority agree altogether. */
  lemma SplitAlike(first: Tree, items: seq<Item>, i: nat, other: Tree, others: seq<Item>, j: nat)
    requires i < |items| && IsLowest(items, i) && j < |others| && IsLowest(others, j)
    requires items[i] == others[j] && items[i + 1..] == others[j + 1..]
    requires Split(first, items[..i]) == Split(other, others[..j])
    ensures Split(first, items) == Split(other, others)
  {
    SplitAtLowest(first, items, i);
    SplitAtLowest(other, others, j);
  }

  lemma LowestInSuffix(items: seq<Item>, i: nat, k: nat)
    requires k <= i < |items| && IsLowest(items, i)
    ensures IsLowest(items[k..], i - k)
  {
  }

  /** Cutting the items at one of lowest priority does not change what is peeled off. */
  lemma PeelCut(first: Tree, items: seq<Item>, i: nat)
    requires 0 < i < |items| && IsLowest(items, i)
    ensures var k := Peel(items);
            && k <= i && Peel(items[..i]) == k && Peeled(first, items[..i]) == Peeled(first, items)
            && items[..i][k..] == items[k..][..i - k] && IsLowest(items[k..], i - k)
            && items[k..][i - k] == items[i] && items[k..][i - k + 1..] == items[i + 1..]
  {
    PeelStops(items, i);
    PeelPrefix(first, items, i);
    LowestInSuffix(items, i, Peel(items));
    Slices(items, i, Peel(items));
  }

  /** What holds for the part up to an item of lowest priority holds for the whole. */
  lemma PeelStep(first: Tree, items: seq<Item>, i: nat)
    requires 0 < i < |items| && IsLowest(items, i)
    requires Split(first, items[..i]) == Split(Peeled(first, items[..i]), items[..i][Peel(items[..i])..])
    ensures Split(first, items) == Split(Peeled(first, items), items[Peel(items)..])
  {
    var k := Peel(items);
    PeelCut(first, items, i);
    SplitAlike(first, items, i, Peeled(first, items), items[k..], i - k);
  }

  /** The leftmost operator can be resolved first. */
  lemma {:induction false} SplitPeel(first: Tree, items: seq<Item>)
    requires items != []
    ensures Split(first, items) == Split(Peeled(first, items), items[Peel(items)..])
    decreases |items|
  {
    var i := LastLowest(items);
    if i == 0 {
      PeelAll(first, items);
    } else {
      SplitPeel(first, items[..i]);
      PeelStep(first, items, i);
    }
  }

  lemma PeelPrefix(first: Tree, items: seq<Item>, i: nat)
    requires 0 < i <= |items| && Peel(items) <= i
    ensures Peel(items[..i]) == Peel(items) && Peeled(first, items[..i]) == Peeled(first, items)
    ensures items[..i][Peel(items)..] == items[Peel(items)..][..i - Peel(items)]
  {
    Slices(items, i, Peel(items));
    if items[0].Infix? {
      var pri, k := items[0].op.priority, Reach(items[1..], items[0].op.priority);
      ReachFacts(items[1..], pri);
      assert forall j :: 0 <= j < |items[..i][1..]| ==> items[..i][1..][j] == items[1..][j];
      ReachIs(items[..i][1..], pri, k);
    }
  }

  // ----- the two stacks -----

  datatype Stacks = Stacks(ops: seq<Operator>, terms: seq<Tree>)

  /** One more term than operators; the operators bind more and more towards the top. */
  predicate Balanced(st: Stacks) {
    && |st.terms| == |st.ops| + 1
    && forall i, j :: 0 <= i < j < |st.ops| ==> st.ops[i].priority < st.ops[j].priority
  }

  function Top(st: Stacks): Tree
    requires Balanced(st)
  {
    st.terms[|st.ops|]
  }

  /** The operator on top, or less than every priority. */
  function TopPriority(st: Stacks): int { if st.ops == [] then -1 else st.ops[|st.ops| - 1].priority }

  function WithTop(st: Stacks, t: Tree): Stacks
    requires Balanced(st)
  {
    st.(terms := st.terms[|st.ops| := t])
  }

  /** Combines the two topmost terms. */
  function Reduce(st: Stacks): (r: Stacks)
    requires Balanced(st) && st.ops != []
    ensures Balanced(r) && |r.ops| == |st.ops| - 1
  {
    var n := |st.ops| - 1;
    Stacks(st.ops[..n], st.terms[..n] + [Binary(st.ops[n], st.terms[n], st.terms[n + 1])])
  }

  /** merge: combines as long as the operator on top binds at least as much. */
  function Merged(st: Stacks, pri: int): (r: Stacks)
    requires Balanced(st) && pri >= -1
    ensures Balanced(r) && (r.ops != [] ==> TopPriority(r) < pri)
    decreases |st.ops|
  {
    if st.ops != [] && TopPriority(st) >= pri then Merged(Reduce(st), pri) else st
  }

  function Push(st: Stacks, op: Operator, t: Tree): (r: Stacks)
    requires Balanced(st) && TopPriority(st) < op.priority
    ensures Balanced(r)
  {
    Stacks(st.ops + [op], st.terms + [t])
  }

  function Read(st: Stacks, item: Item): (r: Stacks)
    requires Balanced(st)
    ensures Balanced(r)
  {
    var m := Merged(st, item.Priority());
    match item
    case Infix(op, operand) => Push(m, op, operand)
    case Applied(_, args) => WithTop(m, Call(Top(m), args))
  }

  function ReadAll(st: Stacks, items: seq<Item>): (r: Stacks)
    requires Balanced(st)
    ensures Balanced(r)
    decreases |items|
  {
    if items == [] then st else ReadAll(Read(st, items[0]), items[1..])
  }

  /** The term left at the end. */
  function Result(st: Stacks): Tree
    requires Balanced(st)
  {
    Top(Merged(st, -1))
  }

  /** What the stacks and the items still to come will mean: the top operand takes the items that bind
      more than the operator on top, and so on downwards. */
  function Meaning(st: Stacks, items: seq<Item>): Tree
    requires Balanced(st)
    decreases |st.ops|
  {
    if st.ops == [] then Split(Top(st), items)
    else
      var k := Reach(items, TopPriority(st));
      Meaning(Reduce(WithTop(st, Split(Top(st), items[..k]))), items[k..])
  }

  /** Merging does not change what is meant, as long as the next item does not bind more. */
  lemma {:induction false} MergeKeepsMeaning(st: Stacks, items: seq<Item>, pri: int)
    requires Balanced(st) && pri >= -1 && (items != [] ==> items[0].Priority() <= pri)
    ensures Meaning(Merged(st, pri), items) == Meaning(st, items)
    decreases |st.ops|
  {
    if st.ops != [] && TopPriority(st) >= pri {
      assert Reach(items, TopPriority(st)) == 0;
      assert items[..0] == [] && items[0..] == items;
      assert WithTop(st, Top(st)) == st;
      MergeKeepsMeaning(Reduce(st), items, pri);
    }
  }

  /** The items that the operand on top takes, with the first of them resolved. */
  lemma PeelFront(top: Tree, items: seq<Item>, n: nat)
    requires 0 < n <= |items| && Peel(items) <= n
    ensures Split(top, items[..n]) == Split(Peeled(top, items), items[Peel(items)..][..n - Peel(items)])
  {
    SplitPeel(top, items[..n]);
    PeelPrefix(top, items, n);
  }

  lemma ReachRest(items: seq<Item>, k: nat, low: int)
    requires 0 < k <= Reach(items, low)
    ensures Reach(items[k..], low) == Reach(items, low) - k
    ensures items[k..][Reach(items, low) - k..] == items[Reach(items, low)..]
  {
    var n := Reach(items, low);
    ReachFacts(items, low);
    Slices(items, n, k);
    assert forall i :: 0 <= i < n - k ==> items[k..][i] == items[k + i];
    ReachIs(items[k..], low, n - k);
  }

  lemma PeelWithin(items: seq<Item>, low: int)
    requires items != [] && items[0].Priority() > low
    ensures Peel(items) <= Reach(items, low)
  {
    var n := Reach(items, low);
    ReachFacts(items, low);
    if items[0].Infix? && n < |items| {
      ReachFacts(items[1..], items[0].op.priority);
      assert items[1..][n - 1] == items[n];
    }
  }

  /** All of that, for an operand on top of an operator of priority low: it takes n items, and k of them
      are peeled off. */
  lemma PeelAbove(top: Tree, items: seq<Item>, low: int, n: nat, k: nat, p: Tree, others: seq<Item>)
    requires items != [] && items[0].Priority() > low && n == Reach(items, low)
    requires k == Peel(items) && p == Peeled(top, items) && others == items[k..]
    ensures k <= n <= |items| && Reach(others, low) == n - k && items[n..] == others[n - k..]
    ensures Split(top, items[..n]) == Split(p, others[..n - k])
  {
    PeelWithin(items, low);
    PeelFront(top, items, n);
    ReachRest(items, k, low);
  }

  /** Two operands that take the same tree from the items to come mean the same on top of the stack. */
  lemma MeaningAlike(st: Stacks, items: seq<Item>, n: nat, p: Tree, others: seq<Item>, m: nat)
    requires Balanced(st) && st.ops != []
    requires n == Reach(items, TopPriority(st)) && m == Reach(others, TopPriority(st)) && items[n..] == others[m..]
    requires Split(Top(st), items[..n]) == Split(p, others[..m])
    ensures Meaning(st, items) == Meaning(WithTop(st, p), others)
  {
    var t := Split(p, others[..m]);
    assert WithTop(WithTop(st, p), t) == WithTop(st, t);
  }

  lemma PeelUnder(st: Stacks, items: seq<Item>, k: nat, p: Tree, others: seq<Item>)
    requires Balanced(st) && st.ops != [] && items != [] && items[0].Priority() > TopPriority(st)
    requires k == Peel(items) && p == Peeled(Top(st), items) && others == items[k..]
    ensures Meaning(st, items) == Meaning(WithTop(st, p), others)
  {
    var n := Reach(items, TopPriority(st));
    PeelAbove(Top(st), items, TopPriority(st), n, k, p, others);
    MeaningAlike(st, items, n, p, others, n - k);
  }

  /** Resolving the first item that binds more than the operator on top does not change what is meant. */
  lemma PeelKeepsMeaning(st: Stacks, items: seq<Item>)
    requires Balanced(st) && items != [] && items[0].Priority() > TopPriority(st)
    ensures Meaning(st, items) == Meaning(WithTop(st, Peeled(Top(st), items)), items[Peel(items)..])
  {
    if st.ops == [] {
      SplitPeel(Top(st), items);
    } else {
      PeelUnder(st, items, Peel(items), Peeled(Top(st), items), items[Peel(items)..]);
    }
  }

  /** After an operator and its operand are pushed, the operand takes what binds more. */
  lemma PushKeepsMeaning(st: Stacks, items: seq<Item>)
    requires Balanced(st) && items != [] && items[0].Infix? && items[0].Priority() > TopPriority(st)
    ensures Meaning(Push(st, items[0].op, items[0].operand), items[1..])
         == Meaning(WithTop(st, Peeled(Top(st), items)), items[Peel(items)..])
  {
    var op, operand := items[0].op, items[0].operand;
    var r, k := Push(st, op, operand), Reach(items[1..], op.priority);
    assert items[1..][..k] == items[1..Peel(items)] && items[1..][k..] == items[Peel(items)..];
    var t := Split(operand, items[1..][..k]);
    assert Reduce(WithTop(r, t)) == WithTop(st, Binary(op, Top(st), t));
  }

  /** Reading an item does not change what is meant. */
  lemma ReadKeepsMeaning(st: Stacks, items: seq<Item>)
    requires Balanced(st) && items != []
    ensures Meaning(Read(st, items[0]), items[1..]) == Meaning(st, items)
  {
    var m := Merged(st, items[0].Priority());
    MergeKeepsMeaning(st, items, items[0].Priority());
    PeelKeepsMeaning(m, items);
    if items[0].Infix? {
      PushKeepsMeaning(m, items);
    }
  }

  /** Reading left to right with the two stacks gives the tree of the declarative definition. */
  lemma {:induction false} ReadingIsSplitting(st: Stacks, items: seq<Item>)
    requires Balanced(st)
    ensures Result(ReadAll(st, items)) == Meaning(st, items)
    decreases |items|
  {
    if items == [] {
      MergeKeepsMeaning(st, [], -1);
    } else {
      ReadKeepsMeaning(st, items);
      ReadingIsSplitting(Read(st, items[0]), items[1..]);
    }
  }

  /** For every operand and everything that follows it. */
  lemma StacksSplit(first: Tree, items: seq<Item>)
    ensures Result(ReadAll(Stacks([], [first]), items)) == Split(first, items)
  {
    ReadingIsSplitting(Stacks([], [first]), items);
  }
}

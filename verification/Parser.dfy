/** The expression parser (x/rich/eval/parser.go) on the tokens that its scanner produces. Every written
    expression, with prefix operators, groups, calls and a missing last operand, is read back as the tree
    that the precedence rules give it. */
module Parser {
  import opened Options
  import opened Precedence

  /** A scanned term or operator; Open and Close begin and end a group. */
  datatype Token = Name(name: string) | Op(op: Operator) | Open(op: Operator) | Close(op: Operator)

  /** The value and the tokens left over, or a reported error. */
  datatype Outcome = Failed | Parsed(tree: Tree, rest: seq<Token>)

  /** The local variables of parse. */
  datatype Reader = Reader(ops: seq<Operator>, terms: seq<Tree>, lastWasTerm: bool, prefixes: nat) {
    /** After a term the stacks are balanced; before one, a term is missing for the last operator, and the
        prefix operators in front of that term are on top. */
    predicate Valid() {
      if lastWasTerm then prefixes == 0 && Balanced(AsStacks())
      else
        && |ops| == |terms| + prefixes
        && forall i, j :: 0 <= i < j < |terms| ==> ops[i].priority < ops[j].priority
    }

    function AsStacks(): Stacks { Stacks(ops, terms) }
  }

  function Reading(st: Stacks): Reader { Reader(st.ops, st.terms, true, 0) }

  /** A term with the n prefix operators on top of the stack applied, the nearest first. */
  function WithPrefixes(ops: seq<Operator>, n: nat, term: Tree): Tree
    requires n <= |ops|
    decreases n
  {
    if n == 0 then term
    else
      var op := ops[|ops| - 1];
      WithPrefixes(ops[..|ops| - 1], n - 1, Binary(op, Zero(op), term))
  }

  function TakeTerm(p: Reader, term: Tree): (r: Reader)
    requires p.Valid() && !p.lastWasTerm
    ensures r.Valid() && r.lastWasTerm
  {
    Reader(p.ops[..|p.ops| - p.prefixes], p.terms + [WithPrefixes(p.ops, p.prefixes, term)], true, 0)
  }

  function TakeCall(p: Reader, open: Operator, args: Tree): (r: Reader)
    requires p.Valid() && p.lastWasTerm
    ensures r.Valid() && r.lastWasTerm
  {
    Reading(Read(p.AsStacks(), Applied(open.priority, args)))
  }

  function TakeInfix(p: Reader, op: Operator): (r: Reader)
    requires p.Valid() && p.lastWasTerm
    ensures r.Valid()
  {
    var m := Merged(p.AsStacks(), op.priority);
    Reader(m.ops + [op], m.terms, false, 0)
  }

  function TakePrefix(p: Reader, op: Operator): (r: Reader)
    requires p.Valid() && !p.lastWasTerm
    ensures r.Valid()
  {
    p.(ops := p.ops + [op], prefixes := p.prefixes + 1)
  }

  /** The end of parse: a missing operand becomes nil. */
  function Finish(p: Reader, rest: seq<Token>): (r: Outcome)
    requires p.Valid()
    ensures r.Parsed? ==> r.rest == rest
  {
    if p.terms == [] && p.ops == [] then Parsed(Missing, rest)
    else if p.prefixes > 0 then Failed
    else Parsed(Result(if p.lastWasTerm then p.AsStacks() else Stacks(p.ops, p.terms + [Missing])), rest)
  }

  /** parse */
  function Parse(tokens: seq<Token>): (r: Outcome)
    ensures r.Parsed? ==> |r.rest| <= |tokens|
    decreases |tokens|, 2
  {
    Loop(Reader([], [], false, 0), tokens)
  }

  /** parseGroup */
  function ParseGroup(open: Operator, isArgs: bool, tokens: seq<Token>): (r: Outcome)
    ensures r.Parsed? ==> |r.rest| < |tokens|
    decreases |tokens|, 3
  {
    var inner := Parse(tokens);
    if inner.Failed? || inner.rest == [] || !inner.rest[0].Close? then Failed
    else Parsed(Group(open, inner.rest[0].op, isArgs, inner.tree), inner.rest[1..])
  }

  /** The loop of parse. */
  function Loop(p: Reader, tokens: seq<Token>): (r: Outcome)
    requires p.Valid()
    ensures r.Parsed? ==> |r.rest| <= |tokens|
    decreases |tokens|, 1
  {
    if tokens == [] then Finish(p, tokens)
    else
      match tokens[0]
      case Close(_) => Finish(p, tokens)
      case Open(op) =>
        var group := ParseGroup(op, p.lastWasTerm, tokens[1..]);
        if group.Failed? then Failed
        else Loop(if p.lastWasTerm then TakeCall(p, op, group.tree) else TakeTerm(p, group.tree), group.rest)
      case Name(name) => if p.lastWasTerm then Failed else Loop(TakeTerm(p, Word(name)), tokens[1..])
      case Op(op) =>
        if p.lastWasTerm then Loop(TakeInfix(p, op), tokens[1..])
        else if !op.prefix then Failed
        else Loop(TakePrefix(p, op), tokens[1..])
  }

  // ----- written expressions -----

  /** An operand, what follows it, and perhaps an operator at the end whose operand is missing. */
  datatype Expr = Expr(first: Operand, tails: seq<Tail>, dangling: seq<Operator>)

  datatype Operand = Operand(prefixes: seq<Operator>, base: Base)

  datatype Base = Text(name: string) | Bracketed(open: Operator, inner: Inner, close: Operator)

  datatype Inner = Empty | Full(e: Expr)

  datatype Tail = Then(op: Operator, operand: Operand) | CallOn(open: Operator, inner: Inner, close: Operator)

  predicate ProperOperand(o: Operand)
    decreases o
  {
    && (forall i :: 0 <= i < |o.prefixes| ==> o.prefixes[i].prefix)
    && (o.base.Bracketed? ==> Proper(o.base.inner))
  }

  /** Prefix operators may be used as such, and at most one operand is missing, at the end. */
  predicate Proper(inner: Inner)
    decreases inner
  {
    inner.Full? ==>
      ProperOperand(inner.e.first) && ProperTails(inner.e.tails) && |inner.e.dangling| <= 1
  }

  predicate ProperTails(ts: seq<Tail>)
    decreases ts
  {
    ts != [] ==> ProperTail(ts[0]) && ProperTails(ts[1..])
  }

  predicate ProperTail(t: Tail)
    decreases t
  {
    match t
    case Then(_, operand) => ProperOperand(operand)
    case CallOn(_, inner, _) => Proper(inner)
  }

  function OpTokens(ops: seq<Operator>): seq<Token> {
    if ops == [] then [] else [Op(ops[0])] + OpTokens(ops[1..])
  }

  function BaseTokens(b: Base): seq<Token>
    decreases b
  {
    match b
    case Text(name) => [Name(name)]
    case Bracketed(open, inner, close) => [Open(open)] + (Tokens(inner) + [Close(close)])
  }

  function OperandTokens(o: Operand): seq<Token>
    decreases o
  {
    OpTokens(o.prefixes) + BaseTokens(o.base)
  }

  function TailTokens(t: Tail): seq<Token>
    decreases t
  {
    match t
    case Then(op, operand) => [Op(op)] + OperandTokens(operand)
    case CallOn(open, inner, close) => [Open(open)] + (Tokens(inner) + [Close(close)])
  }

  function TailsTokens(ts: seq<Tail>): seq<Token>
    decreases ts
  {
    if ts == [] then [] else TailTokens(ts[0]) + TailsTokens(ts[1..])
  }

  /** The expression written out. */
  function Tokens(inner: Inner): seq<Token>
    decreases inner
  {
    if inner.Empty? then []
    else OperandTokens(inner.e.first) + (TailsTokens(inner.e.tails) + OpTokens(inner.e.dangling))
  }

  // ----- what they mean -----

  /** Prefix operators bind most; each stands between a zero term and what follows it. */
  function Negated(prefixes: seq<Operator>, t: Tree): Tree {
    if prefixes == [] then t else Binary(prefixes[0], Zero(prefixes[0]), Negated(prefixes[1..], t))
  }

  function BaseTree(b: Base): Tree
    decreases b
  {
    match b
    case Text(name) => Word(name)
    case Bracketed(open, inner, close) => Group(open, close, false, TreeOf(inner))
  }

  function OperandTree(o: Operand): Tree
    decreases o
  {
    Negated(o.prefixes, BaseTree(o.base))
  }

  function ItemOf(t: Tail): Item
    decreases t
  {
    match t
    case Then(op, operand) => Infix(op, OperandTree(operand))
    case CallOn(open, inner, close) => Applied(open.priority, Group(open, close, true, TreeOf(inner)))
  }

  function ItemsOf(ts: seq<Tail>): seq<Item>
    decreases ts
  {
    if ts == [] then [] else [ItemOf(ts[0])] + ItemsOf(ts[1..])
  }

  function Unfinished(ops: seq<Operator>): seq<Item> {
    if ops == [] then [] else [Infix(ops[0], Missing)] + Unfinished(ops[1..])
  }

  /** The tree of an expression: split at the last operator that binds least. */
  function TreeOf(inner: Inner): Tree
    decreases inner
  {
    if inner.Empty? then Missing
    else Split(OperandTree(inner.e.first), ItemsOf(inner.e.tails) + Unfinished(inner.e.dangling))
  }

  // ----- reading back -----

  /** What may stand after an expression: nothing, or the end of the group around it. */
  predicate Stops(rest: seq<Token>) { rest != [] ==> rest[0].Close? }

  lemma {:induction false} PrefixesNegate(ops: seq<Operator>, ps: seq<Operator>, t: Tree)
    ensures WithPrefixes(ops + ps, |ps|, t) == Negated(ps, t)
    decreases |ps|
  {
    if ps != [] {
      var n := |ps| - 1;
      var op := ps[n];
      assert (ops + ps)[..|ops + ps| - 1] == ops + ps[..n];
      PrefixesNegate(ops, ps[..n], Binary(op, Zero(op), t));
      assert ps == ps[..n] + [op];
      NegatedSnoc(ps[..n], op, t);
    }
  }

  lemma {:induction false} NegatedSnoc(ps: seq<Operator>, op: Operator, t: Tree)
    ensures Negated(ps + [op], t) == Negated(ps, Binary(op, Zero(op), t))
    decreases |ps|
  {
    if ps != [] {
      assert (ps + [op])[1..] == ps[1..] + [op];
      NegatedSnoc(ps[1..], op, t);
    } else {
      assert (ps + [op])[1..] == [];
    }
  }

  function TakePrefixes(p: Reader, ps: seq<Operator>): (r: Reader)
    requires p.Valid() && !p.lastWasTerm
    ensures r.Valid() && !r.lastWasTerm && r.terms == p.terms
    decreases |ps|
  {
    if ps == [] then p else TakePrefixes(TakePrefix(p, ps[0]), ps[1..])
  }

  lemma {:induction false} PrefixesTaken(p: Reader, ps: seq<Operator>)
    requires p.Valid() && !p.lastWasTerm
    ensures TakePrefixes(p, ps).ops == p.ops + ps && TakePrefixes(p, ps).prefixes == p.prefixes + |ps|
    decreases |ps|
  {
    if ps != [] {
      PrefixesTaken(TakePrefix(p, ps[0]), ps[1..]);
      assert p.ops + [ps[0]] + ps[1..] == p.ops + ps;
    }
  }

  lemma LoopPrefix(p: Reader, op: Operator, rest: seq<Token>)
    requires p.Valid() && !p.lastWasTerm && op.prefix
    ensures Loop(p, [Op(op)] + rest) == Loop(TakePrefix(p, op), rest)
  {
    assert ([Op(op)] + rest)[1..] == rest;
  }

  lemma {:induction false} LoopPrefixes(p: Reader, ps: seq<Operator>, rest: seq<Token>)
    requires p.Valid() && !p.lastWasTerm && forall i :: 0 <= i < |ps| ==> ps[i].prefix
    ensures Loop(p, OpTokens(ps) + rest) == Loop(TakePrefixes(p, ps), rest)
    decreases |ps|
  {
    if ps == [] {
      assert OpTokens(ps) + rest == rest;
    } else {
      var tail := OpTokens(ps[1..]) + rest;
      assert OpTokens(ps) + rest == [Op(ps[0])] + tail;
      LoopPrefix(p, ps[0], tail);
      LoopPrefixes(TakePrefix(p, ps[0]), ps[1..], rest);
    }
  }

  /** A group is read up to its end. */
  lemma {:induction false} GroupReads(open: Operator, isArgs: bool, inner: Inner, close: Operator, rest: seq<Token>)
    requires Proper(inner)
    ensures ParseGroup(open, isArgs, Tokens(inner) + [Close(close)] + rest)
         == Parsed(Group(open, close, isArgs, TreeOf(inner)), rest)
    decreases inner, 5
  {
    assert Tokens(inner) + [Close(close)] + rest == Tokens(inner) + ([Close(close)] + rest);
    ReadsBack(inner, [Close(close)] + rest);
  }

  lemma {:induction false} LoopBase(p: Reader, b: Base, rest: seq<Token>)
    requires p.Valid() && !p.lastWasTerm && (b.Bracketed? ==> Proper(b.inner))
    ensures Loop(p, BaseTokens(b) + rest) == Loop(TakeTerm(p, BaseTree(b)), rest)
    decreases b
  {
    var tokens := BaseTokens(b) + rest;
    match b
    case Text(name) =>
      assert tokens[0] == Name(name) && tokens[1..] == rest;
    case Bracketed(open, inner, close) =>
      assert tokens[0] == Open(open) && tokens[1..] == Tokens(inner) + [Close(close)] + rest;
      GroupReads(open, false, inner, close, rest);
  }

  /** An operand is read as one term. */
  lemma {:induction false} LoopOperand(p: Reader, o: Operand, rest: seq<Token>)
    requires p.Valid() && !p.lastWasTerm && p.prefixes == 0 && ProperOperand(o)
    ensures Reader(p.ops, p.terms + [OperandTree(o)], true, 0).Valid()
    ensures Loop(p, OperandTokens(o) + rest) == Loop(Reader(p.ops, p.terms + [OperandTree(o)], true, 0), rest)
    decreases o
  {
    var p' := TakePrefixes(p, o.prefixes);
    assert OperandTokens(o) + rest == OpTokens(o.prefixes) + (BaseTokens(o.base) + rest);
    LoopPrefixes(p, o.prefixes, BaseTokens(o.base) + rest);
    LoopBase(p', o.base, rest);
    PrefixesTaken(p, o.prefixes);
    PrefixesNegate(p.ops, o.prefixes, BaseTree(o.base));
    assert TakeTerm(p', BaseTree(o.base)) == Reader(p.ops, p.terms + [OperandTree(o)], true, 0);
  }

  /** What follows an operand is read as one item. */
  lemma {:induction false} LoopTail(st: Stacks, t: Tail, rest: seq<Token>)
    requires Balanced(st) && ProperTail(t)
    ensures Loop(Reading(st), TailTokens(t) + rest) == Loop(Reading(Read(st, ItemOf(t))), rest)
    decreases t
  {
    match t
    case Then(op, operand) =>
      var tokens := TailTokens(t) + rest;
      assert tokens[0] == Op(op) && tokens[1..] == OperandTokens(operand) + rest;
      LoopOperand(TakeInfix(Reading(st), op), operand, rest);
    case CallOn(open, inner, close) =>
      var tokens := TailTokens(t) + rest;
      assert tokens[0] == Open(open) && tokens[1..] == Tokens(inner) + [Close(close)] + rest;
      GroupReads(open, true, inner, close, rest);
  }

  lemma {:induction false} LoopTails(st: Stacks, ts: seq<Tail>, rest: seq<Token>)
    requires Balanced(st) && ProperTails(ts)
    ensures Loop(Reading(st), TailsTokens(ts) + rest) == Loop(Reading(ReadAll(st, ItemsOf(ts))), rest)
    decreases ts
  {
    if ts == [] {
      assert TailsTokens(ts) + rest == rest;
    } else {
      assert TailsTokens(ts) + rest == TailTokens(ts[0]) + (TailsTokens(ts[1..]) + rest);
      LoopTail(st, ts[0], TailsTokens(ts[1..]) + rest);
      LoopTails(Read(st, ItemOf(ts[0])), ts[1..], rest);
      assert ItemsOf(ts)[0] == ItemOf(ts[0]) && ItemsOf(ts)[1..] == ItemsOf(ts[1..]);
    }
  }

  lemma FinishDangling(st: Stacks, op: Operator, rest: seq<Token>)
    requires Balanced(st)
    ensures Finish(TakeInfix(Reading(st), op), rest) == Parsed(Result(Read(st, Infix(op, Missing))), rest)
  {
  }

  lemma LoopStops(p: Reader, rest: seq<Token>)
    requires p.Valid() && Stops(rest)
    ensures Loop(p, rest) == Finish(p, rest)
  {
  }

  /** The end of an expression. */
  lemma LoopEnd(st: Stacks, dangling: seq<Operator>, rest: seq<Token>)
    requires Balanced(st) && |dangling| <= 1 && Stops(rest)
    ensures Loop(Reading(st), OpTokens(dangling) + rest) == Parsed(Result(ReadAll(st, Unfinished(dangling))), rest)
  {
    if dangling == [] {
      assert OpTokens(dangling) + rest == rest;
      LoopStops(Reading(st), rest);
    } else {
      var op, tokens := dangling[0], OpTokens(dangling) + rest;
      assert dangling[1..] == [];
      assert tokens[0] == Op(op) && tokens[1..] == rest;
      LoopStops(TakeInfix(Reading(st), op), rest);
      FinishDangling(st, op, rest);
      ReadOne(st, Infix(op, Missing));
    }
  }

  lemma ReadOne(st: Stacks, item: Item)
    requires Balanced(st)
    ensures ReadAll(st, [item]) == Read(st, item)
  {
    assert [item][1..] == [];
  }

  lemma {:induction false} ReadAllConcat(st: Stacks, items: seq<Item>, more: seq<Item>)
    requires Balanced(st)
    ensures ReadAll(st, items + more) == ReadAll(ReadAll(st, items), more)
    decreases |items|
  {
    if items == [] {
      assert items + more == more;
    } else {
      assert (items + more)[1..] == items[1..] + more;
      ReadAllConcat(Read(st, items[0]), items[1..], more);
    }
  }

  /** Every expression is read back as its tree, and nothing behind it is touched. */
  lemma {:induction false} ReadsBack(inner: Inner, rest: seq<Token>)
    requires Proper(inner) && Stops(rest)
    ensures Parse(Tokens(inner) + rest) == Parsed(TreeOf(inner), rest)
    decreases inner, 4
  {
    var p := Reader([], [], false, 0);
    if inner.Empty? {
      assert Tokens(inner) + rest == rest;
    } else {
      var e := inner.e;
      var first, items, more := OperandTree(e.first), ItemsOf(e.tails), Unfinished(e.dangling);
      var end := OpTokens(e.dangling) + rest;
      assert Tokens(inner) + rest == OperandTokens(e.first) + (TailsTokens(e.tails) + end);
      LoopOperand(p, e.first, TailsTokens(e.tails) + end);
      assert [] + [first] == [first];
      LoopTails(Stacks([], [first]), e.tails, end);
      LoopEnd(ReadAll(Stacks([], [first]), items), e.dangling, rest);
      ReadAllConcat(Stacks([], [first]), items, more);
      StacksSplit(first, items + more);
    }
  }

  // ----- only expressions are read -----

  /** The tokens are what may follow an operand, and then `rest`. */
  predicate Follows(tokens: seq<Token>, tails: seq<Tail>, dangling: seq<Operator>, rest: seq<Token>) {
    && ProperTails(tails) && |dangling| <= 1 && Stops(rest)
    && tokens == TailsTokens(tails) + (OpTokens(dangling) + rest)
  }

  lemma FollowsCons(t: Tail, tokens: seq<Token>, tails: seq<Tail>, dangling: seq<Operator>, rest: seq<Token>)
    requires ProperTail(t) && Follows(tokens, tails, dangling, rest)
    ensures Follows(TailTokens(t) + tokens, [t] + tails, dangling, rest)
  {
    assert ([t] + tails)[1..] == tails;
  }

  /** After a term, tokens that are read are tails, at most one operator without an operand, and the rest. */
  lemma {:induction false} TailsRead(p: Reader, tokens: seq<Token>) returns (tails: seq<Tail>, dangling: seq<Operator>)
    requires p.Valid() && p.lastWasTerm && Loop(p, tokens).Parsed?
    ensures Follows(tokens, tails, dangling, Loop(p, tokens).rest)
    decreases |tokens|, 1
  {
    tails, dangling := [], [];
    if Stops(tokens) {
      assert tokens == [] + ([] + tokens);
    } else {
      assert tokens == [tokens[0]] + tokens[1..];
      if tokens[0].Open? {
        var op, group := tokens[0].op, ParseGroup(tokens[0].op, true, tokens[1..]);
        var inner, close := GroupRead(op, true, tokens[1..]);
        tails, dangling := TailsRead(TakeCall(p, op, group.tree), group.rest);
        var t := CallOn(op, inner, close);
        assert tokens == TailTokens(t) + group.rest;
        FollowsCons(t, group.rest, tails, dangling, Loop(p, tokens).rest);
        tails := [t] + tails;
      } else {
        var op, operand := tokens[0].op, None;
        operand, tails, dangling := OperandRead(TakeInfix(p, op), tokens[1..]);
        tails, dangling := AddOperand(op, tokens[1..], operand, tails, dangling, Loop(p, tokens).rest);
      }
    }
  }

  /** An operator, and its operand or the end. */
  lemma AddOperand(op: Operator, tokens: seq<Token>, operand: Option<Operand>, tails: seq<Tail>,
                   dangling: seq<Operator>, rest: seq<Token>)
    returns (tails': seq<Tail>, dangling': seq<Operator>)
    requires OperandFirst(tokens, operand, tails, dangling, rest)
    ensures Follows([Op(op)] + tokens, tails', dangling', rest)
  {
    if operand.None? {
      tails', dangling' := [], [op];
      assert OpTokens([op]) == [Op(op)];
    } else {
      var t := Then(op, operand.value);
      tails', dangling' := [t] + tails, dangling;
      var after := TailsTokens(tails) + (OpTokens(dangling) + rest);
      FollowsCons(t, after, tails, dangling, rest);
      assert [Op(op)] + tokens == TailTokens(t) + after;
    }
  }

  /** The tokens are an operand, what may follow it, and the rest; or nothing before the rest. */
  predicate OperandFirst(tokens: seq<Token>, operand: Option<Operand>, tails: seq<Tail>, dangling: seq<Operator>,
                         rest: seq<Token>) {
    if operand.None? then tokens == rest && Stops(rest)
    else
      && ProperOperand(operand.value) && ProperTails(tails) && |dangling| <= 1 && Stops(rest)
      && tokens == OperandTokens(operand.value) + (TailsTokens(tails) + (OpTokens(dangling) + rest))
  }

  /** A prefix operator in front of an operand. */
  lemma AddPrefix(op: Operator, tokens: seq<Token>, o: Operand, tails: seq<Tail>, dangling: seq<Operator>,
                  rest: seq<Token>)
    requires op.prefix && OperandFirst(tokens, Some(o), tails, dangling, rest)
    ensures OperandFirst([Op(op)] + tokens, Some(Operand([op] + o.prefixes, o.base)), tails, dangling, rest)
  {
    var o', after := Operand([op] + o.prefixes, o.base), TailsTokens(tails) + (OpTokens(dangling) + rest);
    assert ([op] + o.prefixes)[1..] == o.prefixes;
    assert OperandTokens(o') == [Op(op)] + OperandTokens(o);
    assert [Op(op)] + (OperandTokens(o) + after) == [Op(op)] + OperandTokens(o) + after;
  }

  /** A word or a group in front of what may follow it. */
  lemma AddBase(b: Base, tokens: seq<Token>, tails: seq<Tail>, dangling: seq<Operator>, rest: seq<Token>)
    requires (b.Bracketed? ==> Proper(b.inner)) && Follows(tokens, tails, dangling, rest)
    ensures OperandFirst(BaseTokens(b) + tokens, Some(Operand([], b)), tails, dangling, rest)
  {
    assert OperandTokens(Operand([], b)) == [] + BaseTokens(b) == BaseTokens(b);
  }

  /** Where a term is missing, tokens that are read begin with an operand, unless there are none; after a prefix
      operator there are some. */
  lemma {:induction false} OperandRead(p: Reader, tokens: seq<Token>)
    returns (operand: Option<Operand>, tails: seq<Tail>, dangling: seq<Operator>)
    requires p.Valid() && !p.lastWasTerm && Loop(p, tokens).Parsed?
    ensures OperandFirst(tokens, operand, tails, dangling, Loop(p, tokens).rest)
    ensures p.prefixes > 0 ==> operand.Some?
    decreases |tokens|, 1
  {
    operand, tails, dangling := None, [], [];
    if !Stops(tokens) {
      assert tokens == [tokens[0]] + tokens[1..];
      var rest := Loop(p, tokens).rest;
      if tokens[0].Op? {
        var op := tokens[0].op;
        operand, tails, dangling := OperandRead(TakePrefix(p, op), tokens[1..]);
        AddPrefix(op, tokens[1..], operand.value, tails, dangling, rest);
        operand := Some(Operand([op] + operand.value.prefixes, operand.value.base));
      } else if tokens[0].Name? {
        var b := Text(tokens[0].name);
        tails, dangling := TailsRead(TakeTerm(p, BaseTree(b)), tokens[1..]);
        AddBase(b, tokens[1..], tails, dangling, rest);
        operand := Some(Operand([], b));
      } else {
        operand, tails, dangling := BracketedRead(p, tokens);
      }
    }
  }

  lemma WholeRead(tokens: seq<Token>, o: Operand, tails: seq<Tail>, dangling: seq<Operator>, rest: seq<Token>)
    returns (inner: Inner)
    requires OperandFirst(tokens, Some(o), tails, dangling, rest)
    ensures Proper(inner) && tokens == Tokens(inner) + rest
  {
    inner := Full(Expr(o, tails, dangling));
    var a, b, c := OperandTokens(o), TailsTokens(tails), OpTokens(dangling);
    assert a + (b + (c + rest)) == (a + (b + c)) + rest;
  }

  lemma BracketedApart(b: Base, tokens: seq<Token>, rest: seq<Token>)
    requires b.Bracketed? && tokens != [] && tokens[0] == Open(b.open)
    requires tokens[1..] == Tokens(b.inner) + [Close(b.close)] + rest
    ensures tokens == BaseTokens(b) + rest
  {
    var inside := Tokens(b.inner) + [Close(b.close)];
    assert tokens == [tokens[0]] + tokens[1..] == [Open(b.open)] + inside + rest;
  }

  lemma {:induction false} BracketedRead(p: Reader, tokens: seq<Token>)
    returns (operand: Option<Operand>, tails: seq<Tail>, dangling: seq<Operator>)
    requires p.Valid() && !p.lastWasTerm && Loop(p, tokens).Parsed? && tokens != [] && tokens[0].Open?
    ensures OperandFirst(tokens, operand, tails, dangling, Loop(p, tokens).rest) && operand.Some?
    decreases |tokens|, 0
  {
    var op, group := tokens[0].op, ParseGroup(tokens[0].op, false, tokens[1..]);
    var inner, close := GroupRead(op, false, tokens[1..]);
    tails, dangling := TailsRead(TakeTerm(p, group.tree), group.rest);
    var b := Bracketed(op, inner, close);
    BracketedApart(b, tokens, group.rest);
    AddBase(b, group.rest, tails, dangling, Loop(p, tokens).rest);
    operand := Some(Operand([], b));
  }

  lemma {:induction false} GroupRead(open: Operator, isArgs: bool, tokens: seq<Token>)
    returns (inner: Inner, close: Operator)
    requires ParseGroup(open, isArgs, tokens).Parsed?
    ensures Proper(inner) && tokens == Tokens(inner) + [Close(close)] + ParseGroup(open, isArgs, tokens).rest
    decreases |tokens|, 3
  {
    inner := OnlyExpressions(tokens);
    close := Parse(tokens).rest[0].op;
    FirstApart(Tokens(inner), Parse(tokens).rest);
  }

  lemma FirstApart<T>(front: seq<T>, rest: seq<T>)
    requires rest != []
    ensures front + rest == front + [rest[0]] + rest[1..]
  {
  }

  /** Whatever is read is an expression and what follows it: nothing else is accepted. Its tree is then the one
      that ReadsBack gives. */
  lemma {:induction false} OnlyExpressions(tokens: seq<Token>) returns (inner: Inner)
    requires Parse(tokens).Parsed?
    ensures Proper(inner) && Stops(Parse(tokens).rest) && tokens == Tokens(inner) + Parse(tokens).rest
    decreases |tokens|, 2
  {
    var operand, tails, dangling := OperandRead(Reader([], [], false, 0), tokens);
    if operand.None? {
      inner := Empty;
      assert tokens == [] + tokens;
    } else {
      inner := WholeRead(tokens, operand.value, tails, dangling, Parse(tokens).rest);
    }
  }

  // ----- the program's form -----

  /** merge, popping both stacks. */
  method Merge(ops: seq<Operator>, terms: seq<Tree>, pri: int) returns (ops': seq<Operator>, terms': seq<Tree>)
    requires Balanced(Stacks(ops, terms)) && pri >= -1
    ensures Stacks(ops', terms') == Merged(Stacks(ops, terms), pri)
  {
    ops', terms' := ops, terms;
    var t, l := |terms|, |ops|;
    while l > 0 && ops'[l - 1].priority >= pri
      invariant l == |ops'| && t == |terms'| && Balanced(Stacks(ops', terms'))
      invariant Merged(Stacks(ops', terms'), pri) == Merged(Stacks(ops, terms), pri)
      decreases l
    {
      ghost var reduced := Reduce(Stacks(ops', terms'));
      terms' := terms'[t - 2 := Binary(ops'[l - 1], terms'[t - 2], terms'[t - 1])];
      ops', terms' := ops'[..l - 1], terms'[..t - 1];
      assert reduced == Stacks(ops', terms');
      t, l := t - 1, l - 1;
    }
  }

  /** parse, one token at a time. */
  method ParseTokens(tokens: seq<Token>) returns (r: Outcome)
    ensures r == Parse(tokens)
    decreases |tokens|, 2
  {
    var p, input := Reader([], [], false, 0), tokens;
    while input != [] && !input[0].Close?
      invariant |input| <= |tokens| && p.Valid() && Loop(p, input) == Parse(tokens)
      decreases |input|
    {
      var ok;
      ok, p, input := Advance(p, input);
      if !ok {
        return Failed;
      }
    }
    r := End(p, input);
  }

  /** One round of the loop: takes the next token, or a whole group. */
  method Advance(p: Reader, input: seq<Token>) returns (ok: bool, p': Reader, rest: seq<Token>)
    requires p.Valid() && input != [] && !input[0].Close?
    ensures ok ==> p'.Valid() && |rest| < |input| && Loop(p', rest) == Loop(p, input)
    ensures !ok ==> Loop(p, input) == Failed
    decreases |input|, 1
  {
    var token := input[0];
    if token.Open? {
      var group := ParseGroupTokens(token.op, p.lastWasTerm, input[1..]);
      if group.Failed? {
        return false, p, input;
      }
      p' := AddGroup(p, token.op, group.tree);
      ok, rest := true, group.rest;
    } else if token.Op? {
      ok, p' := AddOperator(p, token.op);
      rest := input[1..];
    } else if p.lastWasTerm {
      ok, p', rest := false, p, input;
    } else {
      p' := AddTerm(p, Word(token.name));
      ok, rest := true, input[1..];
    }
  }

  method AddTerm(p: Reader, operand: Tree) returns (p': Reader)
    requires p.Valid() && !p.lastWasTerm
    ensures p' == TakeTerm(p, operand)
  {
    var term, ops := ApplyPrefixes(p.ops, p.prefixes, operand);
    p' := Reader(ops, p.terms + [term], true, 0);
  }

  /** A group after a term is a call of that term, with everything that binds at least as much. */
  method AddGroup(p: Reader, open: Operator, group: Tree) returns (p': Reader)
    requires p.Valid()
    ensures p' == if p.lastWasTerm then TakeCall(p, open, group) else TakeTerm(p, group)
  {
    if p.lastWasTerm {
      var ops, terms := Merge(p.ops, p.terms, open.priority);
      p' := Reader(ops, terms[|terms| - 1 := Precedence.Call(terms[|terms| - 1], group)], true, 0);
    } else {
      p' := AddTerm(p, group);
    }
  }

  method AddOperator(p: Reader, op: Operator) returns (ok: bool, p': Reader)
    requires p.Valid()
    ensures ok == (p.lastWasTerm || op.prefix) && p'.Valid()
    ensures ok ==> p' == if p.lastWasTerm then TakeInfix(p, op) else TakePrefix(p, op)
  {
    ok, p' := true, p;
    if p.lastWasTerm {
      var ops, terms := Merge(p.ops, p.terms, op.priority);
      p' := Reader(ops + [op], terms, false, 0);
    } else if op.prefix {
      p' := p.(ops := p.ops + [op], prefixes := p.prefixes + 1);
    } else {
      ok := false;
    }
  }

  /** The end of parse. */
  method End(p: Reader, input: seq<Token>) returns (r: Outcome)
    requires p.Valid()
    ensures r == Finish(p, input)
  {
    if |p.terms| == 0 && |p.ops| == 0 {
      return Parsed(Missing, input);
    }
    if p.prefixes > 0 {
      return Failed;
    }
    var terms := p.terms;
    if !p.lastWasTerm {
      terms := terms + [Missing];
    }
    var ops;
    ops, terms := Merge(p.ops, terms, -1);
    r := Parsed(terms[0], input);
  }

  method ApplyPrefixes(ops: seq<Operator>, prefixes: nat, operand: Tree) returns (term: Tree, ops': seq<Operator>)
    requires prefixes <= |ops|
    ensures term == WithPrefixes(ops, prefixes, operand) && ops' == ops[..|ops| - prefixes]
  {
    term, ops' := operand, ops;
    for done := 0 to prefixes
      invariant ops' == ops[..|ops| - done]
      invariant WithPrefixes(ops', prefixes - done, term) == WithPrefixes(ops, prefixes, operand)
    {
      var op := ops'[|ops'| - 1];
      term := Binary(op, Zero(op), term);
      ops' := ops'[..|ops'| - 1];
    }
  }

  method ParseGroupTokens(open: Operator, isArgs: bool, tokens: seq<Token>) returns (r: Outcome)
    ensures r == ParseGroup(open, isArgs, tokens)
    decreases |tokens|, 3
  {
    var inner := ParseTokens(tokens);
    if inner.Failed? || inner.rest == [] || !inner.rest[0].Close? {
      return Failed;
    }
    r := Parsed(Group(open, inner.rest[0].op, isArgs, inner.tree), inner.rest[1..]);
  }
}

/** Values, changes, and what each change does to a value (packages changes and changes/types). */
module Changes {
  import opened Options
  import opened Moves
  import opened Splices

  /** A path element: an array index or a field name. */
  datatype Key = Index(i: int) | Field(name: string)

  /** A value is empty or a node; fields of an object are never empty (setting one to Nil removes it). */
  datatype Value = Nil | Val(node: Node)

  datatype Node = Atom(id: int) | Arr(items: seq<Value>) | Obj(fields: map<Key, Node>)

  datatype Change =
    | Noop
    | Replace(before: Value, after: Value)
    | SpliceIn(splice: Splice<Value>)
    | MoveBy(move: Move)
    | PathChange(path: seq<Key>, inner: Change)
    | ChangeSet(changes: seq<Change>)
  {
    predicate IsDelete() { Replace? && before.Val? && after.Nil? }

    /** The changes whose own ReverseMerge is used when a basic change meets them. */
    predicate IsComposite() { PathChange? || ChangeSet? }
  }

  predicate IsArr(v: Value) { v.Val? && v.node.Arr? }

  /** The value under key k: array elements by index, object fields by any key. */
  function Get(v: Value, k: Key): Option<Value> {
    match v
    case Val(Arr(items)) => if k.Index? && 0 <= k.i < |items| then Some(items[k.i]) else None
    case Val(Obj(fields)) => Some(if k in fields then Val(fields[k]) else Nil)
    case _ => None
  }

  function SetField(fields: map<Key, Node>, k: Key, x: Value): map<Key, Node> {
    if x.Nil? then fields - {k} else fields[k := x.node]
  }

  function Put(v: Value, k: Key, x: Value): Value
    requires Get(v, k).Some?
  {
    match v.node
    case Arr(items) => Val(Arr(items[k.i := x]))
    case Obj(fields) => Val(Obj(SetField(fields, k, x)))
  }

  /** Applies a change. None when the change does not belong on this value: an offset out of range, a
      `before` that is not what is there, a path that leads nowhere, or replacing Nil by Nil. */
  function Apply(v: Value, c: Change): Option<Value>
    decreases c, 0
  {
    match c
    case Noop => Some(v)
    case Replace(before, after) => if v == before && !(before.Nil? && after.Nil?) then Some(after) else None
    case SpliceIn(s) => if IsArr(v) && s.Fits(v.node.items) then Some(Val(Arr(Cut(v.node.items, s)))) else None
    case MoveBy(m) => if IsArr(v) && m.Fits(|v.node.items|) then Some(Val(Arr(Shift(v.node.items, m)))) else None
    case PathChange(path, inner) => ApplyAt(v, path, inner)
    case ChangeSet(changes) => ApplyAll(v, changes)
  }

  function ApplyAt(v: Value, path: seq<Key>, c: Change): Option<Value>
    decreases c, |path| + 1
  {
    if path == [] then Apply(v, c)
    else
      var child :- Get(v, path[0]);
      var changed :- ApplyAt(child, path[1..], c);
      Some(Put(v, path[0], changed))
  }

  function ApplyAll(v: Value, cs: seq<Change>): Option<Value>
    decreases cs, 0
  {
    if cs == [] then Some(v)
    else
      var w :- Apply(v, cs[0]);
      ApplyAll(w, cs[1..])
  }

  // ----- laws of Get, Put and paths -----

  lemma GetPut(v: Value, k: Key, x: Value)
    requires Get(v, k).Some?
    ensures Get(Put(v, k, x), k) == Some(x)
  {
  }

  lemma PutGet(v: Value, k: Key)
    requires Get(v, k).Some?
    ensures Put(v, k, Get(v, k).value) == v
  {
    if v.node.Obj? {
      var fields := v.node.fields;
      if k !in fields {
        assert fields - {k} == fields;
      } else {
        assert fields[k := fields[k]] == fields;
      }
    }
  }

  lemma SetFieldTwice(fields: map<Key, Node>, k: Key, x: Value, y: Value)
    ensures SetField(SetField(fields, k, x), k, y) == SetField(fields, k, y)
  {
  }

  lemma PutPut(v: Value, k: Key, x: Value, y: Value)
    requires Get(v, k).Some?
    ensures Get(Put(v, k, x), k).Some? && Put(Put(v, k, x), k, y) == Put(v, k, y)
  {
    match v.node
    case Arr(items) => assert items[k.i := x][k.i := y] == items[k.i := y];
    case Obj(fields) => SetFieldTwice(fields, k, x, y);
  }

  lemma SetFieldElsewhere(fields: map<Key, Node>, k: Key, x: Value, j: Key, y: Value)
    requires k != j
    ensures SetField(SetField(fields, k, x), j, y) == SetField(SetField(fields, j, y), k, x)
  {
    var l, r := SetField(SetField(fields, k, x), j, y), SetField(SetField(fields, j, y), k, x);
    assert l.Keys == r.Keys;
  }

  lemma GetElsewhere(v: Value, k: Key, x: Value, j: Key)
    requires Get(v, k).Some? && k != j
    ensures Get(Put(v, k, x), j) == Get(v, j)
  {
  }

  lemma PutElsewhere(v: Value, k: Key, x: Value, j: Key, y: Value)
    requires Get(v, k).Some? && Get(v, j).Some? && k != j
    ensures Get(Put(v, k, x), j).Some? && Get(Put(v, j, y), k).Some?
    ensures Put(Put(v, k, x), j, y) == Put(Put(v, j, y), k, x)
  {
    match v.node
    case Arr(items) => assert items[k.i := x][j.i := y] == items[j.i := y][k.i := x];
    case Obj(fields) => SetFieldElsewhere(fields, k, x, j, y);
  }

  /** A path may be cut in two anywhere. */
  lemma {:induction false} ApplyAtSplit(v: Value, p: seq<Key>, q: seq<Key>, c: Change)
    ensures ApplyAt(v, p + q, c) == ApplyAt(v, p, PathChange(q, c))
    decreases |p|
  {
    if p == [] {
      assert p + q == q;
    } else {
      assert (p + q)[1..] == p[1..] + q;
      var child := Get(v, p[0]);
      if child.Some? {
        ApplyAtSplit(child.value, p[1..], q, c);
      }
    }
  }

  /** ApplyAt looks at a change only through what it does at the end of the path. */
  lemma {:induction false} ApplyAtNoop(v: Value, p: seq<Key>, c: Change)
    requires ApplyAt(v, p, c).Some?
    ensures ApplyAt(v, p, Noop) == Some(v)
    decreases |p|
  {
    if p != [] {
      ApplyAtNoop(Get(v, p[0]).value, p[1..], c);
      PutGet(v, p[0]);
    }
  }

  // ----- joining two divergent edits -----

  /** a followed by bx and b followed by ax both apply and reach the same value. */
  predicate Joins(v: Value, a: Change, b: Change, bx: Change, ax: Change)
    requires Apply(v, a).Some? && Apply(v, b).Some?
  {
    && Apply(Apply(v, a).value, bx).Some?
    && Apply(Apply(v, a).value, bx) == Apply(Apply(v, b).value, ax)
  }

  /** The value a path leads to. */
  function Focus(v: Value, p: seq<Key>): Option<Value>
    decreases |p|
  {
    if p == [] then Some(v)
    else
      var child :- Get(v, p[0]);
      Focus(child, p[1..])
  }

  lemma {:induction false} ApplyAtFocus(v: Value, p: seq<Key>, c: Change)
    ensures ApplyAt(v, p, c).Some? <==> Focus(v, p).Some? && Apply(Focus(v, p).value, c).Some?
    ensures ApplyAt(v, p, c).Some? ==> Focus(ApplyAt(v, p, c).value, p) == Apply(Focus(v, p).value, c)
    decreases |p|
  {
    if p != [] && Get(v, p[0]).Some? {
      ApplyAtFocus(Get(v, p[0]).value, p[1..], c);
      if ApplyAt(v, p, c).Some? {
        GetPut(v, p[0], ApplyAt(Get(v, p[0]).value, p[1..], c).value);
      }
    }
  }

  /** Two steps under the same path amount to the two steps at its end. */
  lemma {:induction false} LiftSteps(v: Value, p: seq<Key>, a: Change, x: Change, b: Change, y: Change)
    requires ApplyAt(v, p, a).Some? && ApplyAt(v, p, b).Some?
    requires Focus(v, p).Some? && Apply(Focus(v, p).value, a).Some? && Apply(Focus(v, p).value, b).Some?
    requires Joins(Focus(v, p).value, a, b, x, y)
    ensures ApplyAt(ApplyAt(v, p, a).value, p, x).Some?
    ensures ApplyAt(ApplyAt(v, p, a).value, p, x) == ApplyAt(ApplyAt(v, p, b).value, p, y)
    decreases |p|
  {
    if p != [] {
      var k, child := p[0], Get(v, p[0]).value;
      LiftSteps(child, p[1..], a, x, b, y);
      var ca, cb := ApplyAt(child, p[1..], a).value, ApplyAt(child, p[1..], b).value;
      GetPut(v, k, ca); GetPut(v, k, cb);
      var end := ApplyAt(ca, p[1..], x).value;
      PutPut(v, k, ca, end); PutPut(v, k, cb, end);
    }
  }

  /** A join at the end of a path is a join of the path changes. */
  lemma LiftJoin(v: Value, p: seq<Key>, a: Change, b: Change, bx: Change, ax: Change)
    requires Apply(v, PathChange(p, a)).Some? && Apply(v, PathChange(p, b)).Some?
    requires Focus(v, p).Some? && Apply(Focus(v, p).value, a).Some? && Apply(Focus(v, p).value, b).Some?
    requires Joins(Focus(v, p).value, a, b, bx, ax)
    ensures Joins(v, PathChange(p, a), PathChange(p, b), PathChange(p, bx), PathChange(p, ax))
  {
    LiftSteps(v, p, a, bx, b, ax);
  }
}

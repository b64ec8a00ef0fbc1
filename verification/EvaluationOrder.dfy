/** Every evaluation order that C allows for an expression (ISO/IEC 9899:1999 section
    6.5): operands of an unsequenced operator are evaluated interleaved, and the store of
    an increment or decrement may happen at any time before the next sequence point. */
module EvaluationOrder {
  import opened Primitives
  import opened Ast
  import opened Sequencing
  import Constants

  type Store = map<string, int>

  function Read(store: Store, name: string): int {
    if name in store then store[name] else 0
  }

  /** What the operators compute is left open. */
  datatype Operators = Operators(unary: (UnaryOp, int) -> int, binary: (BinOp, int, int) -> int)

  datatype Write = Write(name: string, value: int)

  /** An expression in the middle of its evaluation. */
  datatype Run =
    | Todo(e: Expr)
    | Done(value: int, pending: seq<Write>)
    | UnaryRun(unop: UnaryOp, arg: Run)
    | BinaryRun(op: BinOp, left: Run, right: Run)
    | FirstRun(op: BinOp, first: Run, second: Expr)  // left of and, or, comma
    | TestRun(arg: Run)                              // right of and, or
    | ChooseRun(condition: Run, whenTrue: Expr, whenFalse: Expr)

  function Truth(b: bool): int {
    if b then 1 else 0
  }

  function Changed(kind: IncDecKind, v: int): int {
    if kind.PrefixIncrement? || kind.PostfixIncrement? then v + 1 else v - 1
  }

  function ResultOf(kind: IncDecKind, v: int): int {
    if kind.PrefixIncrement? || kind.PrefixDecrement? then Changed(kind, v) else v
  }

  function Without(writes: seq<Write>, i: nat): seq<Write>
    requires i < |writes|
  {
    writes[..i] + writes[i + 1..]
  }

  function AfterFirst(op: BinOp, v: int, second: Expr): Run {
    if op.And? && v == 0 then Done(0, [])
    else if op.Or? && v != 0 then Done(1, [])
    else if op.Comma? then Todo(second)
    else TestRun(Todo(second))
  }

  /** Starting to evaluate an expression. */
  function Begin(e: Expr, store: Store): Run {
    match e
    case IntLit(value) => Done(value, [])
    case BoolLit(flag) => Done(Truth(flag), [])
    case VarRef(name) => Done(Read(store, name), [])
    case IncDec(kind, operand) =>
      if operand.VarRef? then
        var v := Read(store, operand.name);
        Done(ResultOf(kind, v), [Write(operand.name, Changed(kind, v))])
      else Done(0, [])
    case Unary(op, rhs) => UnaryRun(op, Todo(rhs))
    case Binary(op, lhs, rhs) =>
      if IsSequenced(op) then FirstRun(op, Todo(lhs), rhs) else BinaryRun(op, Todo(lhs), Todo(rhs))
    case Conditional(whenTrue, condition, whenFalse) => ChooseRun(Todo(condition), whenTrue, whenFalse)
    case _ => Done(0, [])
  }

  /** One step of some evaluation order. */
  ghost predicate Step(ops: Operators, r: Run, store: Store, r': Run, store': Store) {
    match r
    case Todo(e) => r' == Begin(e, store) && store' == store
    case Done(v, pending) =>
      exists i: nat :: i < |pending| &&
        r' == Done(v, Without(pending, i)) && store' == store[pending[i].name := pending[i].value]
    case UnaryRun(op, arg) =>
      || (arg.Done? && r' == Done(ops.unary(op, arg.value), arg.pending) && store' == store)
      || (r'.UnaryRun? && r'.unop == op && Step(ops, arg, store, r'.arg, store'))
    case BinaryRun(op, left, right) =>
      || (left.Done? && right.Done? && store' == store &&
          r' == Done(ops.binary(op, left.value, right.value), left.pending + right.pending))
      || (r'.BinaryRun? && r'.op == op && r'.right == right && Step(ops, left, store, r'.left, store'))
      || (r'.BinaryRun? && r'.op == op && r'.left == left && Step(ops, right, store, r'.right, store'))
    case FirstRun(op, first, second) =>
      || (first.Done? && first.pending == [] && store' == store && r' == AfterFirst(op, first.value, second))
      || (r'.FirstRun? && r'.op == op && r'.second == second && Step(ops, first, store, r'.first, store'))
    case TestRun(arg) =>
      || (arg.Done? && r' == Done(Truth(arg.value != 0), arg.pending) && store' == store)
      || (r'.TestRun? && Step(ops, arg, store, r'.arg, store'))
    case ChooseRun(condition, whenTrue, whenFalse) =>
      || (condition.Done? && condition.pending == [] && store' == store &&
          r' == Todo(if condition.value != 0 then whenTrue else whenFalse))
      || (r'.ChooseRun? && r'.whenTrue == whenTrue && r'.whenFalse == whenFalse &&
          Step(ops, condition, store, r'.condition, store'))
  }

  predicate IsFinal(r: Run) {
    r.Done? && r.pending == []
  }

  // ----- the reference: left to right, stores at once -----

  datatype Result = Result(value: int, writes: Store)

  /** Value and changed objects of left-to-right evaluation. */
  function Eval(ops: Operators, e: Expr, store: Store): Result {
    match e
    case IntLit(value) => Result(value, map[])
    case BoolLit(flag) => Result(Truth(flag), map[])
    case VarRef(name) => Result(Read(store, name), map[])
    case IncDec(kind, operand) =>
      if operand.VarRef? then
        var v := Read(store, operand.name);
        Result(ResultOf(kind, v), map[operand.name := Changed(kind, v)])
      else Result(0, map[])
    case Unary(op, rhs) =>
      var r := Eval(ops, rhs, store);
      Result(ops.unary(op, r.value), r.writes)
    case Binary(op, lhs, rhs) =>
      var l := Eval(ops, lhs, store);
      if (op.And? && l.value == 0) || (op.Or? && l.value != 0) then Result(Truth(op.Or?), l.writes)
      else
        var r := Eval(ops, rhs, store + l.writes);
        var v := if op.And? || op.Or? then Truth(r.value != 0)
                 else if op.Comma? then r.value
                 else ops.binary(op, l.value, r.value);
        Result(v, l.writes + r.writes)
    case Conditional(whenTrue, condition, whenFalse) =>
      var c := Eval(ops, condition, store);
      var r := Eval(ops, if c.value != 0 then whenTrue else whenFalse, store + c.writes);
      Result(r.value, c.writes + r.writes)
    case _ => Result(0, map[])
  }

  function Apply(writes: seq<Write>): Store {
    if writes == [] then map[] else map[writes[0].name := writes[0].value] + Apply(writes[1..])
  }

  /** What is left of an evaluation, finished left to right. */
  function Complete(ops: Operators, r: Run, store: Store): Result {
    match r
    case Todo(e) => Eval(ops, e, store)
    case Done(v, pending) => Result(v, Apply(pending))
    case UnaryRun(op, arg) =>
      var a := Complete(ops, arg, store);
      Result(ops.unary(op, a.value), a.writes)
    case BinaryRun(op, left, right) =>
      var l := Complete(ops, left, store);
      var r := Complete(ops, right, store + l.writes);
      Result(ops.binary(op, l.value, r.value), l.writes + r.writes)
    case FirstRun(op, first, second) =>
      var f := Complete(ops, first, store);
      if (op.And? && f.value == 0) || (op.Or? && f.value != 0) then Result(Truth(op.Or?), f.writes)
      else
        var s := Eval(ops, second, store + f.writes);
        Result(if op.Comma? then s.value else Truth(s.value != 0), f.writes + s.writes)
    case TestRun(arg) =>
      var a := Complete(ops, arg, store);
      Result(Truth(a.value != 0), a.writes)
    case ChooseRun(condition, whenTrue, whenFalse) =>
      var c := Complete(ops, condition, store);
      var r := Eval(ops, if c.value != 0 then whenTrue else whenFalse, store + c.writes);
      Result(r.value, c.writes + r.writes)
  }

  // ----- effects of what is left -----

  function Names(writes: seq<Write>): set<string> {
    set i | 0 <= i < |writes| :: writes[i].name
  }

  function RunEffects(native: set<string>, r: Run): Effects {
    match r
    case Todo(e) => EffectsOf(native, e)
    case Done(_, pending) => Effects({}, Names(pending))
    case UnaryRun(_, arg) => RunEffects(native, arg)
    case BinaryRun(_, left, right) => Join(RunEffects(native, left), RunEffects(native, right))
    case FirstRun(_, first, second) => Join(RunEffects(native, first), EffectsOf(native, second))
    case TestRun(arg) => RunEffects(native, arg)
    case ChooseRun(condition, whenTrue, whenFalse) =>
      Join(RunEffects(native, condition), Join(EffectsOf(native, whenTrue), EffectsOf(native, whenFalse)))
  }

  predicate Distinct(writes: seq<Write>) {
    forall i, j :: 0 <= i < j < |writes| ==> writes[i].name != writes[j].name
  }

  /** The expression is scalar, passes without a report, and its unsequenced parts do not clash. */
  predicate Calm(native: set<string>, e: Expr) {
    Scalar(native, e) && Independent(native, e)
  }

  predicate CalmRun(native: set<string>, r: Run) {
    match r
    case Todo(e) => Calm(native, e)
    case Done(_, pending) => Distinct(pending) && Names(pending) <= native
    case UnaryRun(_, arg) => CalmRun(native, arg)
    case BinaryRun(op, left, right) =>
      && !IsSequenced(op)
      && CalmRun(native, left)
      && CalmRun(native, right)
      && !Clash(RunEffects(native, left), RunEffects(native, right))
    case FirstRun(op, first, second) => IsSequenced(op) && CalmRun(native, first) && Calm(native, second)
    case TestRun(arg) => CalmRun(native, arg)
    case ChooseRun(condition, whenTrue, whenFalse) =>
      CalmRun(native, condition) && Calm(native, whenTrue) && Calm(native, whenFalse)
  }

  // ----- frames -----

  /** Stores that differ at most on native objects outside `names`. */
  ghost predicate Alike(native: set<string>, a: Store, b: Store, names: set<string>) {
    forall x :: x in names || x !in native ==> Read(a, x) == Read(b, x)
  }

  lemma AlikeAfter(native: set<string>, a: Store, b: Store, writes: Store, names: set<string>)
    requires Alike(native, a, b, names)
    ensures Alike(native, a + writes, b + writes, names)
  {
  }

  /** An expression writes only its write set, and its result depends only on its read set. */
  lemma {:induction false} EvalFrame(native: set<string>, ops: Operators, e: Expr, a: Store, b: Store)
    requires Scalar(native, e) && Alike(native, a, b, EffectsOf(native, e).read)
    ensures Eval(ops, e, a) == Eval(ops, e, b)
    ensures Eval(ops, e, a).writes.Keys <= EffectsOf(native, e).written
  {
    match e
    case Unary(_, rhs) => EvalFrame(native, ops, rhs, a, b);
    case Binary(op, lhs, rhs) =>
      EvalFrame(native, ops, lhs, a, b);
      var w := Eval(ops, lhs, a).writes;
      AlikeAfter(native, a, b, w, EffectsOf(native, e).read);
      EvalFrame(native, ops, rhs, a + w, b + w);
    case Conditional(whenTrue, condition, whenFalse) =>
      EvalFrame(native, ops, condition, a, b);
      var w := Eval(ops, condition, a).writes;
      AlikeAfter(native, a, b, w, EffectsOf(native, e).read);
      EvalFrame(native, ops, whenTrue, a + w, b + w);
      EvalFrame(native, ops, whenFalse, a + w, b + w);
    case _ =>
  }

  lemma {:induction false} ApplyKeys(writes: seq<Write>)
    ensures Apply(writes).Keys == Names(writes)
  {
    if writes != [] {
      ApplyKeys(writes[1..]);
      assert writes == [writes[0]] + writes[1..];
    }
  }

  lemma {:induction false} CompleteFrame(native: set<string>, ops: Operators, r: Run, a: Store, b: Store)
    requires CalmRun(native, r) && Alike(native, a, b, RunEffects(native, r).read)
    ensures Complete(ops, r, a) == Complete(ops, r, b)
    ensures Complete(ops, r, a).writes.Keys <= RunEffects(native, r).written
  {
    match r
    case Todo(e) => EvalFrame(native, ops, e, a, b);
    case Done(_, pending) => ApplyKeys(pending);
    case UnaryRun(_, arg) => CompleteFrame(native, ops, arg, a, b);
    case BinaryRun(_, left, right) =>
      CompleteFrame(native, ops, left, a, b);
      var w := Complete(ops, left, a).writes;
      AlikeAfter(native, a, b, w, RunEffects(native, r).read);
      CompleteFrame(native, ops, right, a + w, b + w);
    case FirstRun(_, first, second) =>
      CompleteFrame(native, ops, first, a, b);
      var w := Complete(ops, first, a).writes;
      AlikeAfter(native, a, b, w, RunEffects(native, r).read);
      EvalFrame(native, ops, second, a + w, b + w);
    case TestRun(arg) => CompleteFrame(native, ops, arg, a, b);
    case ChooseRun(condition, whenTrue, whenFalse) =>
      CompleteFrame(native, ops, condition, a, b);
      var w := Complete(ops, condition, a).writes;
      AlikeAfter(native, a, b, w, RunEffects(native, r).read);
      EvalFrame(native, ops, whenTrue, a + w, b + w);
      EvalFrame(native, ops, whenFalse, a + w, b + w);
  }

  // ----- one step -----

  /** What is left stays calm, and effects do not grow. */
  ghost predicate Bounded(native: set<string>, r: Run, store: Store, r': Run, store': Store) {
    && CalmRun(native, r')
    && RunEffects(native, r').read <= RunEffects(native, r).read
    && RunEffects(native, r').written <= RunEffects(native, r).written
    && ChangedWithin(store, store', RunEffects(native, r).written)
  }

  /** The evaluation is heading for the same value and the same final store. */
  ghost predicate SameEnd(ops: Operators, r: Run, store: Store, r': Run, store': Store) {
    var before, after := Complete(ops, r, store), Complete(ops, r', store');
    after.value == before.value && store' + after.writes == store + before.writes
  }

  ghost predicate Keeps(native: set<string>, ops: Operators, r: Run, store: Store, r': Run, store': Store) {
    Bounded(native, r, store, r', store') && SameEnd(ops, r, store, r', store')
  }

  predicate ChangedWithin(store: Store, store': Store, names: set<string>) {
    && store.Keys <= store'.Keys
    && (forall x :: x in store' && x !in names ==> x in store && store'[x] == store[x])
  }

  lemma {:induction false} WritesAreNative(native: set<string>, r: Run)
    requires CalmRun(native, r)
    ensures RunEffects(native, r).written <= native
  {
    match r
    case Todo(e) => ExprWritesAreNative(native, e);
    case Done(_, _) =>
    case UnaryRun(_, arg) => WritesAreNative(native, arg);
    case BinaryRun(_, left, right) => WritesAreNative(native, left); WritesAreNative(native, right);
    case FirstRun(_, first, second) => WritesAreNative(native, first); ExprWritesAreNative(native, second);
    case TestRun(arg) => WritesAreNative(native, arg);
    case ChooseRun(condition, whenTrue, whenFalse) =>
      WritesAreNative(native, condition);
      ExprWritesAreNative(native, whenTrue);
      ExprWritesAreNative(native, whenFalse);
  }

  lemma {:induction false} ExprWritesAreNative(native: set<string>, e: Expr)
    requires Scalar(native, e)
    ensures EffectsOf(native, e).written <= native
  {
    match e
    case Unary(_, rhs) => ExprWritesAreNative(native, rhs);
    case Binary(_, lhs, rhs) => ExprWritesAreNative(native, lhs); ExprWritesAreNative(native, rhs);
    case Conditional(whenTrue, condition, whenFalse) =>
      ExprWritesAreNative(native, whenTrue);
      ExprWritesAreNative(native, condition);
      ExprWritesAreNative(native, whenFalse);
    case _ =>
  }

  lemma StoreAssoc(a: Store, b: Store, c: Store)
    ensures (a + b) + c == a + (b + c)
  {
  }

  function One(w: Write): Store {
    map[w.name := w.value]
  }

  lemma ApplyFirst(writes: seq<Write>, w: Write, rest: seq<Write>)
    requires writes == [w] + rest
    ensures Apply(writes) == One(w) + Apply(rest)
  {
    assert writes[1..] == rest;
  }

  lemma SwapStores(store: Store, a: Write, b: Write)
    requires a.name != b.name
    ensures (store + One(a)) + One(b) == (store + One(b)) + One(a)
  {
  }

  /** Writes to distinct objects may be done in any order. */
  lemma {:induction false} ApplyWithout(writes: seq<Write>, i: nat, store: Store)
    requires Distinct(writes) && i < |writes|
    ensures (store + One(writes[i])) + Apply(Without(writes, i)) == store + Apply(writes)
  {
    hide Apply, One;
    var w, first, rest := writes[i], writes[0], writes[1..];
    ApplyFirst(writes, first, rest);
    if i == 0 {
      assert Without(writes, 0) == rest;
      StoreAssoc(store, One(w), Apply(rest));
    } else {
      assert rest[i - 1] == w;
      ApplyWithout(rest, i - 1, store + One(first));
      ApplyFirst(Without(writes, i), first, Without(rest, i - 1));
      StoreAssoc(store + One(w), One(first), Apply(Without(rest, i - 1)));
      SwapStores(store, w, first);
      StoreAssoc(store, One(first), Apply(rest));
    }
  }

  lemma {:induction false} ApplyConcat(a: seq<Write>, b: seq<Write>)
    ensures Apply(a + b) == Apply(a) + Apply(b)
  {
    if a == [] {
      assert a + b == b;
      assert map[] + Apply(b) == Apply(b);
    } else {
      ApplyConcat(a[1..], b);
      ApplyFirst(a + b, a[0], a[1..] + b);
      StoreAssoc(One(a[0]), Apply(a[1..]), Apply(b));
    }
  }

  lemma NamesConcat(a: seq<Write>, b: seq<Write>)
    ensures Names(a + b) == Names(a) + Names(b)
    ensures Distinct(a) && Distinct(b) && Names(a) !! Names(b) ==> Distinct(a + b)
  {
    var c := a + b;
    forall x | x in Names(a) + Names(b) ensures x in Names(c) {
      if x in Names(a) {
        var i :| 0 <= i < |a| && a[i].name == x;
        assert c[i].name == x;
      } else {
        var i :| 0 <= i < |b| && b[i].name == x;
        assert c[|a| + i].name == x;
      }
    }
    if Distinct(a) && Distinct(b) && Names(a) !! Names(b) {
      forall i, j | 0 <= i < j < |c| ensures c[i].name != c[j].name {
        if i < |a| && j >= |a| {
          assert a[i].name in Names(a) && b[j - |a|].name in Names(b);
        }
      }
    }
  }

  lemma ChangeKeeps(native: set<string>, ops: Operators, e: Expr, store: Store)
    requires Calm(native, e) && e.IncDec?
    ensures Keeps(native, ops, Todo(e), store, Begin(e, store), store)
  {
    var w := Write(e.operand.name, Changed(e.kind, Read(store, e.operand.name)));
    assert [w][1..] == [];
    assert Apply([w]) == map[w.name := w.value];
    assert Names([w]) == {w.name};
  }

  lemma BeginKeeps(native: set<string>, ops: Operators, e: Expr, store: Store)
    requires Calm(native, e)
    ensures Keeps(native, ops, Todo(e), store, Begin(e, store), store)
  {
    if e.IncDec? {
      ChangeKeeps(native, ops, e, store);
    }
  }

  lemma FlushKeeps(native: set<string>, ops: Operators, v: int, pending: seq<Write>, store: Store, i: nat)
    requires CalmRun(native, Done(v, pending)) && i < |pending|
    ensures Keeps(native, ops, Done(v, pending), store, Done(v, Without(pending, i)),
                  store[pending[i].name := pending[i].value])
  {
    ApplyWithout(pending, i, store);
    assert store + One(pending[i]) == store[pending[i].name := pending[i].value];
    WithoutNames(pending, i);
  }

  lemma WithoutNames(writes: seq<Write>, i: nat)
    requires Distinct(writes) && i < |writes|
    ensures Distinct(Without(writes, i)) && Names(Without(writes, i)) <= Names(writes)
    ensures writes[i].name in Names(writes)
  {
    var rest := Without(writes, i);
    forall x | x in Names(rest) ensures x in Names(writes) {
      var j :| 0 <= j < |rest| && rest[j].name == x;
      assert writes[if j < i then j else j + 1].name == x;
    }
  }

  lemma JoinKeeps(native: set<string>, ops: Operators, op: BinOp, left: Run, right: Run, store: Store)
    requires CalmRun(native, BinaryRun(op, left, right)) && left.Done? && right.Done?
    ensures Keeps(native, ops, BinaryRun(op, left, right), store,
                  Done(ops.binary(op, left.value, right.value), left.pending + right.pending), store)
  {
    hide Bounded, SameEnd;
    JoinBounded(native, ops, op, left, right, store);
    JoinSame(ops, op, left, right, store);
  }

  lemma JoinBounded(native: set<string>, ops: Operators, op: BinOp, left: Run, right: Run, store: Store)
    requires CalmRun(native, BinaryRun(op, left, right)) && left.Done? && right.Done?
    ensures Bounded(native, BinaryRun(op, left, right), store,
                    Done(ops.binary(op, left.value, right.value), left.pending + right.pending), store)
  {
    hide Apply, Names, Distinct;
    NamesConcat(left.pending, right.pending);
  }

  lemma JoinSame(ops: Operators, op: BinOp, left: Run, right: Run, store: Store)
    requires left.Done? && right.Done?
    ensures SameEnd(ops, BinaryRun(op, left, right), store,
                    Done(ops.binary(op, left.value, right.value), left.pending + right.pending), store)
  {
    hide Apply;
    ApplyConcat(left.pending, right.pending);
    assert Complete(ops, left, store) == Result(left.value, Apply(left.pending));
    assert Complete(ops, right, store + Apply(left.pending)) == Result(right.value, Apply(right.pending));
  }

  lemma LeftKeeps(native: set<string>, ops: Operators, op: BinOp, left: Run, right: Run, store: Store,
                  left': Run, store': Store)
    requires CalmRun(native, BinaryRun(op, left, right)) && Keeps(native, ops, left, store, left', store')
    ensures Keeps(native, ops, BinaryRun(op, left, right), store, BinaryRun(op, left', right), store')
  {
    var l, l' := Complete(ops, left, store).writes, Complete(ops, left', store').writes;
    var r := Complete(ops, right, store + l).writes;
    StoreAssoc(store, l, r);
    StoreAssoc(store', l', r);
  }

  lemma RightKeeps(native: set<string>, ops: Operators, op: BinOp, left: Run, right: Run, store: Store,
                   right': Run, store': Store)
    requires CalmRun(native, BinaryRun(op, left, right)) && Keeps(native, ops, right, store, right', store')
    ensures Keeps(native, ops, BinaryRun(op, left, right), store, BinaryRun(op, left, right'), store')
  {
    LeftUntouched(native, ops, left, right, store, store');
    RightUntouched(native, ops, left, right, right, store);
    RightUntouched(native, ops, left, right, right', store');
    var l := Complete(ops, left, store).writes;
    var r, r' := Complete(ops, right, store).writes, Complete(ops, right', store').writes;
    DisjointWrites(store, store', l, r, r', RunEffects(native, right).written);
  }

  /** The left operand does not see what the right one changes. */
  lemma LeftUntouched(native: set<string>, ops: Operators, left: Run, right: Run, store: Store, store': Store)
    requires CalmRun(native, left) && CalmRun(native, right)
    requires !Clash(RunEffects(native, left), RunEffects(native, right))
    requires ChangedWithin(store, store', RunEffects(native, right).written)
    ensures Complete(ops, left, store') == Complete(ops, left, store)
    ensures Complete(ops, left, store).writes.Keys !! RunEffects(native, right).written
  {
    NoClash(RunEffects(native, left), RunEffects(native, right));
    WritesAreNative(native, right);
    CompleteFrame(native, ops, left, store, store');
  }

  /** The right operand, now or one step later, does not see what the left one changes. */
  lemma RightUntouched(native: set<string>, ops: Operators, left: Run, right: Run, right': Run, store: Store)
    requires CalmRun(native, left) && CalmRun(native, right')
    requires !Clash(RunEffects(native, left), RunEffects(native, right))
    requires RunEffects(native, right').read <= RunEffects(native, right).read
    requires RunEffects(native, right').written <= RunEffects(native, right).written
    ensures Complete(ops, right', store + Complete(ops, left, store).writes) == Complete(ops, right', store)
    ensures Complete(ops, right', store).writes.Keys <= RunEffects(native, right).written
  {
    NoClash(RunEffects(native, left), RunEffects(native, right));
    WritesAreNative(native, left);
    CompleteFrame(native, ops, left, store, store);
    var l := Complete(ops, left, store).writes;
    CompleteFrame(native, ops, right', store, store + l);
  }

  lemma DisjointWrites(store: Store, store': Store, l: Store, r: Store, r': Store, names: set<string>)
    requires store' + r' == store + r
    requires l.Keys !! names && r.Keys <= names && r'.Keys <= names
    ensures store' + (l + r') == store + (l + r)
  {
    forall x | x in store' + (l + r') || x in store + (l + r)
      ensures x in store' + (l + r') && x in store + (l + r)
      ensures (store' + (l + r'))[x] == (store + (l + r))[x]
    {
      if x !in l {
        assert x in store' + r' || x in store + r;
        assert x in store' + r' && x in store + r && (store' + r')[x] == (store + r)[x];
      }
    }
  }

  lemma FirstKeeps(native: set<string>, ops: Operators, op: BinOp, first: Run, second: Expr, store: Store,
                   first': Run, store': Store)
    requires CalmRun(native, FirstRun(op, first, second)) && Keeps(native, ops, first, store, first', store')
    ensures Keeps(native, ops, FirstRun(op, first, second), store, FirstRun(op, first', second), store')
  {
    FirstSameEnd(ops, op, first, second, store, first', store');
    FirstBounded(native, op, first, second, store, first', store');
  }

  lemma FirstBounded(native: set<string>, op: BinOp, first: Run, second: Expr, store: Store, first': Run, store': Store)
    requires CalmRun(native, FirstRun(op, first, second)) && Bounded(native, first, store, first', store')
    ensures Bounded(native, FirstRun(op, first, second), store, FirstRun(op, first', second), store')
  {
  }

  lemma FirstSameEnd(ops: Operators, op: BinOp, first: Run, second: Expr, store: Store, first': Run, store': Store)
    requires SameEnd(ops, first, store, first', store')
    ensures SameEnd(ops, FirstRun(op, first, second), store, FirstRun(op, first', second), store')
  {
    var f, f' := Complete(ops, first, store).writes, Complete(ops, first', store').writes;
    var s := Eval(ops, second, store + f).writes;
    StoreAssoc(store, f, s);
    StoreAssoc(store', f', s);
  }

  lemma AfterFirstKeeps(native: set<string>, ops: Operators, op: BinOp, v: int, second: Expr, store: Store)
    requires CalmRun(native, FirstRun(op, Done(v, []), second))
    ensures Keeps(native, ops, FirstRun(op, Done(v, []), second), store, AfterFirst(op, v, second), store)
  {
    assert store + map[] == store;
    var s := Eval(ops, second, store).writes;
    assert map[] + s == s;
  }

  lemma ChooseKeeps(native: set<string>, ops: Operators, r: Run, store: Store, condition': Run, store': Store)
    requires r.ChooseRun? && CalmRun(native, r) && Keeps(native, ops, r.condition, store, condition', store')
    ensures Keeps(native, ops, r, store, r.(condition := condition'), store')
  {
    var c, c' := Complete(ops, r.condition, store), Complete(ops, condition', store');
    var s := Eval(ops, if c.value != 0 then r.whenTrue else r.whenFalse, store + c.writes).writes;
    StoreAssoc(store, c.writes, s);
    StoreAssoc(store', c'.writes, s);
  }

  lemma ChosenKeeps(native: set<string>, ops: Operators, r: Run, store: Store)
    requires r.ChooseRun? && CalmRun(native, r) && IsFinal(r.condition)
    ensures Keeps(native, ops, r, store, Todo(if r.condition.value != 0 then r.whenTrue else r.whenFalse), store)
  {
    assert store + map[] == store;
    var s := Eval(ops, if r.condition.value != 0 then r.whenTrue else r.whenFalse, store).writes;
    assert map[] + s == s;
  }

  /** No step of any order changes what the evaluation will finally give. */
  lemma {:induction false} StepKeeps(native: set<string>, ops: Operators, r: Run, store: Store, r': Run, store': Store)
    requires CalmRun(native, r) && Step(ops, r, store, r', store')
    ensures Keeps(native, ops, r, store, r', store')
  {
    match r
    case Todo(e) => BeginKeeps(native, ops, e, store);
    case Done(v, pending) =>
      var i: nat :| i < |pending| &&
        r' == Done(v, Without(pending, i)) && store' == store[pending[i].name := pending[i].value];
      FlushKeeps(native, ops, v, pending, store, i);
    case UnaryRun(op, arg) =>
      if r'.UnaryRun? { StepKeeps(native, ops, arg, store, r'.arg, store'); }
    case BinaryRun(op, left, right) =>
      if !r'.BinaryRun? {
        JoinKeeps(native, ops, op, left, right, store);
      } else if r'.right == right && Step(ops, left, store, r'.left, store') {
        StepKeeps(native, ops, left, store, r'.left, store');
        LeftKeeps(native, ops, op, left, right, store, r'.left, store');
      } else {
        StepKeeps(native, ops, right, store, r'.right, store');
        RightKeeps(native, ops, op, left, right, store, r'.right, store');
      }
    case FirstRun(op, first, second) =>
      if r'.FirstRun? && r'.op == op && r'.second == second && Step(ops, first, store, r'.first, store') {
        StepKeeps(native, ops, first, store, r'.first, store');
        FirstKeeps(native, ops, op, first, second, store, r'.first, store');
      } else {
        AfterFirstKeeps(native, ops, op, first.value, second, store);
      }
    case TestRun(arg) =>
      if r'.TestRun? { StepKeeps(native, ops, arg, store, r'.arg, store'); }
    case ChooseRun(condition, whenTrue, whenFalse) =>
      if r'.ChooseRun? {
        StepKeeps(native, ops, condition, store, r'.condition, store');
        ChooseKeeps(native, ops, r, store, r'.condition, store');
      } else {
        ChosenKeeps(native, ops, r, store);
      }
  }

  // ----- whole evaluations -----

  datatype Moment = Moment(run: Run, store: Store)

  ghost predicate IsEvaluation(ops: Operators, e: Expr, store: Store, moments: seq<Moment>) {
    && moments != []
    && moments[0] == Moment(Todo(e), store)
    && forall i :: 0 <= i < |moments| - 1 ==>
         Step(ops, moments[i].run, moments[i].store, moments[i + 1].run, moments[i + 1].store)
  }

  /** Confluence: an expression that raises no E0034 has one result.  Every evaluation order
      that runs to its end gives the value and the store of left-to-right evaluation. */
  lemma NoReportMeansOneResult(native: set<string>, ops: Operators, e: Expr, store: Store, moments: seq<Moment>)
    requires Scalar(native, e) && Reports(native, e) == 0
    requires IsEvaluation(ops, e, store, moments) && IsFinal(moments[|moments| - 1].run)
    ensures moments[|moments| - 1].run.value == Eval(ops, e, store).value
    ensures moments[|moments| - 1].store == store + Eval(ops, e, store).writes
  {
    SilentIffIndependent(native, e);
    var i := 0;
    while i < |moments| - 1
      invariant 0 <= i < |moments|
      invariant CalmRun(native, moments[i].run)
      invariant SameEnd(ops, Todo(e), store, moments[i].run, moments[i].store)
    {
      var now, next := moments[i], moments[i + 1];
      StepKeeps(native, ops, now.run, now.store, next.run, next.store);
      SameEndTrans(ops, Todo(e), store, now, next);
      i := i + 1;
    }
    var last := moments[i];
    assert last.store + map[] == last.store;
  }

  lemma SameEndTrans(ops: Operators, r: Run, store: Store, now: Moment, next: Moment)
    requires SameEnd(ops, r, store, now.run, now.store)
    requires SameEnd(ops, now.run, now.store, next.run, next.store)
    ensures SameEnd(ops, r, store, next.run, next.store)
  {
  }

  // ----- every order comes to an end -----

  function ExprSize(e: Expr): nat {
    match e
    case Unary(_, rhs) => 3 + ExprSize(rhs)
    case Binary(_, lhs, rhs) => 6 + ExprSize(lhs) + ExprSize(rhs)
    case Conditional(whenTrue, condition, whenFalse) =>
      4 + ExprSize(whenTrue) + ExprSize(condition) + ExprSize(whenFalse)
    case _ => 2
  }

  function RunSize(r: Run): nat {
    match r
    case Todo(e) => 1 + ExprSize(e)
    case Done(_, pending) => |pending|
    case UnaryRun(_, arg) => 1 + RunSize(arg)
    case BinaryRun(_, left, right) => 1 + RunSize(left) + RunSize(right)
    case FirstRun(_, first, second) => 4 + RunSize(first) + ExprSize(second)
    case TestRun(arg) => 1 + RunSize(arg)
    case ChooseRun(condition, whenTrue, whenFalse) =>
      2 + RunSize(condition) + ExprSize(whenTrue) + ExprSize(whenFalse)
  }

  lemma {:induction false} StepShrinks(ops: Operators, r: Run, store: Store, r': Run, store': Store)
    requires Step(ops, r, store, r', store')
    ensures RunSize(r') < RunSize(r)
  {
    match r
    case Todo(e) =>
    case Done(_, _) =>
    case UnaryRun(op, arg) =>
      if r'.UnaryRun? { StepShrinks(ops, arg, store, r'.arg, store'); }
    case BinaryRun(op, left, right) =>
      if r'.BinaryRun? {
        if r'.right == right && Step(ops, left, store, r'.left, store') {
          StepShrinks(ops, left, store, r'.left, store');
        } else {
          StepShrinks(ops, right, store, r'.right, store');
        }
      }
    case FirstRun(op, first, second) =>
      if r'.FirstRun? && r'.op == op && r'.second == second && Step(ops, first, store, r'.first, store') {
        StepShrinks(ops, first, store, r'.first, store');
      }
    case TestRun(arg) =>
      if r'.TestRun? { StepShrinks(ops, arg, store, r'.arg, store'); }
    case ChooseRun(condition, _, _) =>
      if r'.ChooseRun? { StepShrinks(ops, condition, store, r'.condition, store'); }
  }

  lemma {:induction false} Progress(ops: Operators, r: Run, store: Store) returns (r': Run, store': Store)
    requires !IsFinal(r)
    ensures Step(ops, r, store, r', store')
  {
    store' := store;
    match r
    case Todo(e) => r' := Begin(e, store);
    case Done(v, pending) =>
      r', store' := Done(v, Without(pending, 0)), store[pending[0].name := pending[0].value];
    case UnaryRun(op, arg) =>
      if arg.Done? {
        r' := Done(ops.unary(op, arg.value), arg.pending);
      } else {
        r', store' := Progress(ops, arg, store);
        r' := UnaryRun(op, r');
      }
    case BinaryRun(op, left, right) =>
      if left.Done? && right.Done? {
        r' := Done(ops.binary(op, left.value, right.value), left.pending + right.pending);
      } else if !left.Done? {
        r', store' := Progress(ops, left, store);
        r' := BinaryRun(op, r', right);
      } else {
        r', store' := Progress(ops, right, store);
        r' := BinaryRun(op, left, r');
      }
    case FirstRun(op, first, second) =>
      if IsFinal(first) {
        r' := AfterFirst(op, first.value, second);
      } else {
        r', store' := Progress(ops, first, store);
        r' := FirstRun(op, r', second);
      }
    case TestRun(arg) =>
      if arg.Done? {
        r' := Done(Truth(arg.value != 0), arg.pending);
      } else {
        r', store' := Progress(ops, arg, store);
        r' := TestRun(r');
      }
    case ChooseRun(condition, whenTrue, whenFalse) =>
      if IsFinal(condition) {
        r' := Todo(if condition.value != 0 then whenTrue else whenFalse);
      } else {
        r', store' := Progress(ops, condition, store);
        r' := ChooseRun(r', whenTrue, whenFalse);
      }
  }

  // ----- a report is about a real difference -----

  ghost predicate Yields(ops: Operators, e: Expr, store: Store, value: int) {
    exists moments: seq<Moment> :: IsEvaluation(ops, e, store, moments) &&
                      moments[|moments| - 1].run == Done(value, [])
  }

  /** Reading one variable beside changing another: reported exactly when the two are the
      same object, and then two orders give different values. */
  lemma ReadBesideChange(op: BinOp, x: string, y: string, kind: IncDecKind, store: Store)
    requires !IsSequenced(op)
    ensures var e := Binary(op, VarRef(x), IncDec(kind, VarRef(y)));
            var left := Operators((_, a) => a, (_, a, _) => a);
            && (Reports({x, y}, e) > 0 <==> x == y)
            && (x == y ==> Yields(left, e, store, Read(store, x)) &&
                           Yields(left, e, store, Changed(kind, Read(store, x))))
  {
    ReportedIfSame(op, x, y, kind);
    if x == y {
      var ops := Operators((_, a) => a, (_, a, _) => a);
      ReadFirst(ops, op, x, kind, store);
      ChangeFirst(ops, op, x, kind, store);
    }
  }

  lemma BeginStep(ops: Operators, e: Expr, store: Store)
    ensures Step(ops, Todo(e), store, Begin(e, store), store)
  {
  }

  lemma LeftStep(ops: Operators, op: BinOp, left: Run, right: Run, store: Store, left': Run, store': Store)
    requires Step(ops, left, store, left', store')
    ensures Step(ops, BinaryRun(op, left, right), store, BinaryRun(op, left', right), store')
  {
  }

  lemma RightStep(ops: Operators, op: BinOp, left: Run, right: Run, store: Store, right': Run, store': Store)
    requires Step(ops, right, store, right', store')
    ensures Step(ops, BinaryRun(op, left, right), store, BinaryRun(op, left, right'), store')
  {
  }

  lemma JoinStep(ops: Operators, op: BinOp, l: int, r: int, store: Store)
    ensures Step(ops, BinaryRun(op, Done(l, []), Done(r, [])), store, Done(ops.binary(op, l, r), []), store)
  {
  }

  ghost predicate StepTo(ops: Operators, a: Moment, b: Moment) {
    Step(ops, a.run, a.store, b.run, b.store)
  }

  lemma FiveSteps(ops: Operators, e: Expr, store: Store, a: Moment, b: Moment, c: Moment, d: Moment, f: Moment, v: int, s: Store)
    requires a == Moment(Todo(e), store) && StepTo(ops, a, b) && StepTo(ops, b, c) && StepTo(ops, c, d)
    requires StepTo(ops, d, f) && StepTo(ops, f, Moment(Done(v, []), s))
    ensures Yields(ops, e, store, v)
  {
    hide Step;
    var moments := [a, b, c, d, f, Moment(Done(v, []), s)];
    assert IsEvaluation(ops, e, store, moments);
  }

  lemma ReadFirst(ops: Operators, op: BinOp, x: string, kind: IncDecKind, store: Store)
    requires !IsSequenced(op)
    ensures var v := Read(store, x);
            Yields(ops, Binary(op, VarRef(x), IncDec(kind, VarRef(x))), store, ops.binary(op, v, ResultOf(kind, v)))
  {
    var e := Binary(op, VarRef(x), IncDec(kind, VarRef(x)));
    var v := Read(store, x);
    var w, r := Write(x, Changed(kind, v)), ResultOf(kind, v);
    var after := store[x := w.value];
    hide Step, Yields;
    BeginStep(ops, e, store);
    BeginStep(ops, e.lhs, store);
    LeftStep(ops, op, Todo(e.lhs), Todo(e.rhs), store, Done(v, []), store);
    BeginStep(ops, e.rhs, store);
    RightStep(ops, op, Done(v, []), Todo(e.rhs), store, Done(r, [w]), store);
    FlushStep(ops, r, w, store);
    RightStep(ops, op, Done(v, []), Done(r, [w]), store, Done(r, []), after);
    JoinStep(ops, op, v, r, after);
    FiveSteps(ops, e, store, Moment(Todo(e), store),
              Moment(BinaryRun(op, Todo(e.lhs), Todo(e.rhs)), store),
              Moment(BinaryRun(op, Done(v, []), Todo(e.rhs)), store),
              Moment(BinaryRun(op, Done(v, []), Done(r, [w])), store),
              Moment(BinaryRun(op, Done(v, []), Done(r, [])), after), ops.binary(op, v, r), after);
  }

  lemma ChangeFirst(ops: Operators, op: BinOp, x: string, kind: IncDecKind, store: Store)
    requires !IsSequenced(op)
    ensures var v := Read(store, x);
            Yields(ops, Binary(op, VarRef(x), IncDec(kind, VarRef(x))), store,
                   ops.binary(op, Changed(kind, v), ResultOf(kind, v)))
  {
    var e := Binary(op, VarRef(x), IncDec(kind, VarRef(x)));
    var v := Read(store, x);
    var w, r := Write(x, Changed(kind, v)), ResultOf(kind, v);
    var after := store[x := w.value];
    hide Step, Yields;
    BeginStep(ops, e, store);
    BeginStep(ops, e.rhs, store);
    RightStep(ops, op, Todo(e.lhs), Todo(e.rhs), store, Done(r, [w]), store);
    FlushStep(ops, r, w, store);
    RightStep(ops, op, Todo(e.lhs), Done(r, [w]), store, Done(r, []), after);
    BeginStep(ops, e.lhs, after);
    LeftStep(ops, op, Todo(e.lhs), Done(r, []), after, Done(w.value, []), after);
    JoinStep(ops, op, w.value, r, after);
    FiveSteps(ops, e, store, Moment(Todo(e), store),
              Moment(BinaryRun(op, Todo(e.lhs), Todo(e.rhs)), store),
              Moment(BinaryRun(op, Todo(e.lhs), Done(r, [w])), store),
              Moment(BinaryRun(op, Todo(e.lhs), Done(r, [])), after),
              Moment(BinaryRun(op, Done(w.value, []), Done(r, [])), after), ops.binary(op, w.value, r), after);
  }

  lemma ReportedIfSame(op: BinOp, x: string, y: string, kind: IncDecKind)
    requires !IsSequenced(op)
    ensures Reports({x, y}, Binary(op, VarRef(x), IncDec(kind, VarRef(y)))) > 0 <==> x == y
  {
    var native := {x, y};
    var left, right := EffectsOf(native, VarRef(x)), EffectsOf(native, IncDec(kind, VarRef(y)));
    assert left == Effects({x}, {});
    assert EffectsOf(native, VarRef(y)) == Effects({y}, {});
    assert ModificationTarget(native, VarRef(y)) .Some? && ModificationTarget(native, VarRef(y)).value == y;
    assert right == Join(Effects({y}, {}), Effects({y}, {y}));
    assert right.written == {y};
    if x == y {
      assert y in right.written * left.read;
    } else {
      assert right.written * left.read == {};
      assert left.written * (right.read + right.written) == {};
      assert Reports(native, VarRef(x)) == 0 && Reports(native, IncDec(kind, VarRef(y))) == 0;
    }
  }

  lemma FlushStep(ops: Operators, v: int, w: Write, store: Store)
    ensures Step(ops, Done(v, [w]), store, Done(v, []), store[w.name := w.value])
  {
    var i: nat := 0;
    assert Without([w], i) == [] && [w][i] == w;
  }

  // ----- the reference itself -----

  /** A step changes its variable by one; its value is the old number behind the variable and
      the new one in front of it. */
  lemma StepsByOne(ops: Operators, x: string, store: Store)
    requires x in store
    ensures Eval(ops, IncDec(PrefixIncrement, VarRef(x)), store) == Result(store[x] + 1, map[x := store[x] + 1])
    ensures Eval(ops, IncDec(PostfixIncrement, VarRef(x)), store) == Result(store[x], map[x := store[x] + 1])
    ensures Eval(ops, IncDec(PrefixDecrement, VarRef(x)), store) == Result(store[x] - 1, map[x := store[x] - 1])
    ensures Eval(ops, IncDec(PostfixDecrement, VarRef(x)), store) == Result(store[x], map[x := store[x] - 1])
  {
  }

  /** The operators compute what C says, wherever C says something. */
  ghost predicate Computing(ops: Operators) {
    && (forall op, l, r :: Constants.Mathematical(op, l, r).Some? ==> ops.binary(op, l, r) == Constants.Mathematical(op, l, r).value)
    && (forall v :: ops.unary(Not, v) == if v == 0 then 1 else 0)
    && (forall v :: ops.unary(Neg, v) == -v && ops.unary(BitNot, v) == -v - 1)
  }

  /** Without steps, left-to-right evaluation changes nothing and gives the value that exact
      evaluation gives, wherever that is defined. */
  lemma {:induction false} EvaluatesExactly(ops: Operators, e: Expr, store: Store)
    requires Scalar({}, e) && Computing(ops) && Constants.Evaluate(e, store).Some?
    ensures Eval(ops, e, store) == Result(Constants.Evaluate(e, store).value, map[])
  {
    hide Constants.Mathematical;
    assert store + map[] == store;
    match e
    case Unary(op, rhs) => EvaluatesExactly(ops, rhs, store);
    case Binary(op, lhs, rhs) =>
      EvaluatesExactly(ops, lhs, store);
      var l := Constants.Evaluate(lhs, store).value;
      if !(op.And? && l == 0) && !(op.Or? && l != 0) {
        EvaluatesExactly(ops, rhs, store);
        LogicalExactly(l, Constants.Evaluate(rhs, store).value);
      }
    case Conditional(whenTrue, condition, whenFalse) =>
      EvaluatesExactly(ops, condition, store);
      EvaluatesExactly(ops, if Constants.Evaluate(condition, store).value != 0 then whenTrue else whenFalse, store);
    case _ =>
  }

  lemma LogicalExactly(l: int, r: int)
    ensures l != 0 ==> Constants.Mathematical(And, l, r).Some? && Constants.Mathematical(And, l, r).value == Truth(r != 0)
    ensures l == 0 ==> Constants.Mathematical(Or, l, r).Some? && Constants.Mathematical(Or, l, r).value == Truth(r != 0)
    ensures Constants.Mathematical(Comma, l, r).Some? && Constants.Mathematical(Comma, l, r).value == r
  {
  }
}

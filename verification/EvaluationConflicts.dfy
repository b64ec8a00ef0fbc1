/** The converse of confluence: where a conflict is reported in an expression of operators, two
    evaluation orders that C allows really give different values, for operators that lose nothing
    of their operands.

    Three orders are compared: operands from left to right and from right to left, each store at
    once, and an order that delays every store to the end. */
module EvaluationConflicts {
  import opened Options
  import opened Primitives
  import opened Ast
  import opened Sequencing
  import opened EvaluationOrder

  /** Literals, variables, increments and decrements, and operators without a sequence point. */
  predicate Operations(e: Expr) {
    match e
    case IntLit(_) => true
    case BoolLit(_) => true
    case VarRef(_) => true
    case IncDec(_, operand) => operand.VarRef?
    case Unary(_, rhs) => Operations(rhs)
    case Binary(op, lhs, rhs) => !IsSequenced(op) && Operations(lhs) && Operations(rhs)
    case _ => false
  }

  /** Different operands give different results. */
  ghost predicate Injective(ops: Operators) {
    && (forall op, a, b :: ops.unary(op, a) == ops.unary(op, b) ==> a == b)
    && (forall op, a, b, c, d :: ops.binary(op, a, b) == ops.binary(op, c, d) ==> a == c && b == d)
  }

  // ----- three orders -----

  /** Operands in one direction, each store at once. */
  function InOrder(ops: Operators, forward: bool, e: Expr, store: Store): Result
    requires Operations(e)
  {
    match e
    case IntLit(value) => Result(value, map[])
    case BoolLit(flag) => Result(Truth(flag), map[])
    case VarRef(name) => Result(Read(store, name), map[])
    case IncDec(kind, operand) =>
      var v := Read(store, operand.name);
      Result(ResultOf(kind, v), map[operand.name := Changed(kind, v)])
    case Unary(op, rhs) =>
      var r := InOrder(ops, forward, rhs, store);
      Result(ops.unary(op, r.value), r.writes)
    case Binary(op, lhs, rhs) =>
      var first := InOrder(ops, forward, if forward then lhs else rhs, store);
      var second := InOrder(ops, forward, if forward then rhs else lhs, store + first.writes);
      Result(if forward then ops.binary(op, first.value, second.value) else ops.binary(op, second.value, first.value),
             first.writes + second.writes)
  }

  /** Every store delayed: all operands see the store at the start. */
  function Delayed(ops: Operators, e: Expr, store: Store): int
    requires Operations(e)
  {
    match e
    case IntLit(value) => value
    case BoolLit(flag) => Truth(flag)
    case VarRef(name) => Read(store, name)
    case IncDec(kind, operand) => ResultOf(kind, Read(store, operand.name))
    case Unary(op, rhs) => ops.unary(op, Delayed(ops, rhs, store))
    case Binary(op, lhs, rhs) => ops.binary(op, Delayed(ops, lhs, store), Delayed(ops, rhs, store))
  }

  // ----- the orders are evaluations -----

  ghost predicate LeadsIn(n: nat, ops: Operators, a: Moment, b: Moment) {
    if n == 0 then a == b else exists m :: StepTo(ops, a, m) && LeadsIn(n - 1, ops, m, b)
  }

  ghost predicate Leads(ops: Operators, a: Moment, b: Moment) {
    exists n: nat :: LeadsIn(n, ops, a, b)
  }

  lemma Stays(ops: Operators, a: Moment)
    ensures Leads(ops, a, a)
  {
    assert LeadsIn(0, ops, a, a);
  }

  lemma StepLeads(ops: Operators, a: Moment, b: Moment, c: Moment)
    requires StepTo(ops, a, b) && Leads(ops, b, c)
    ensures Leads(ops, a, c)
  {
    hide StepTo;
    var n: nat :| LeadsIn(n, ops, b, c);
    assert LeadsIn(n + 1, ops, a, c);
  }

  lemma {:induction false} LeadsOn(n: nat, ops: Operators, a: Moment, b: Moment, c: Moment)
    requires LeadsIn(n, ops, a, b) && Leads(ops, b, c)
    ensures Leads(ops, a, c)
    decreases n
  {
    hide StepTo;
    if n > 0 {
      var m :| StepTo(ops, a, m) && LeadsIn(n - 1, ops, m, b);
      LeadsOn(n - 1, ops, m, b, c);
      StepLeads(ops, a, m, c);
    }
  }

  lemma LeadsTrans(ops: Operators, a: Moment, b: Moment, c: Moment)
    requires Leads(ops, a, b) && Leads(ops, b, c)
    ensures Leads(ops, a, c)
  {
    hide LeadsIn;
    var n: nat :| LeadsIn(n, ops, a, b);
    LeadsOn(n, ops, a, b, c);
  }

  /** An operand runs within its operator. */
  datatype Place = InUnary(unop: UnaryOp) | InLeft(op: BinOp, right: Run) | InRight(op: BinOp, left: Run)

  function Within(p: Place, m: Moment): Moment {
    match p
    case InUnary(op) => Moment(UnaryRun(op, m.run), m.store)
    case InLeft(op, right) => Moment(BinaryRun(op, m.run, right), m.store)
    case InRight(op, left) => Moment(BinaryRun(op, left, m.run), m.store)
  }

  lemma StepWithin(ops: Operators, p: Place, a: Moment, b: Moment)
    requires StepTo(ops, a, b)
    ensures StepTo(ops, Within(p, a), Within(p, b))
  {
  }

  lemma {:induction false} LeadsInWithin(n: nat, ops: Operators, p: Place, a: Moment, b: Moment)
    requires LeadsIn(n, ops, a, b)
    ensures Leads(ops, Within(p, a), Within(p, b))
    decreases n
  {
    hide StepTo, Within;
    if n == 0 {
      Stays(ops, Within(p, a));
    } else {
      var m :| StepTo(ops, a, m) && LeadsIn(n - 1, ops, m, b);
      LeadsInWithin(n - 1, ops, p, m, b);
      StepWithin(ops, p, a, m);
      StepLeads(ops, Within(p, a), Within(p, m), Within(p, b));
    }
  }

  lemma LeadsWithin(ops: Operators, p: Place, a: Moment, b: Moment)
    requires Leads(ops, a, b)
    ensures Leads(ops, Within(p, a), Within(p, b))
  {
    hide LeadsIn;
    var n: nat :| LeadsIn(n, ops, a, b);
    LeadsInWithin(n, ops, p, a, b);
  }

  /** An operand is run to its end, and the rest goes on from there. */
  lemma OperandFirst(ops: Operators, p: Place, a: Moment, b: Moment, c: Moment)
    requires Leads(ops, a, b) && Leads(ops, Within(p, b), c)
    ensures Leads(ops, Within(p, a), c)
  {
    hide LeadsIn, Within;
    LeadsWithin(ops, p, a, b);
    LeadsTrans(ops, Within(p, a), Within(p, b), c);
  }

  lemma OneStep(ops: Operators, a: Moment, b: Moment)
    requires StepTo(ops, a, b)
    ensures Leads(ops, a, b)
  {
    hide StepTo;
    Stays(ops, b);
    StepLeads(ops, a, b, b);
  }

  lemma {:induction false} InOrderRuns(ops: Operators, forward: bool, e: Expr, store: Store)
    requires Operations(e)
    ensures var r := InOrder(ops, forward, e, store);
            Leads(ops, Moment(Todo(e), store), Moment(Done(r.value, []), store + r.writes))
  {
    if e.Unary? {
      InOrderRuns(ops, forward, e.rhs, store);
      UnaryRuns(ops, e.unop, e.rhs, store, InOrder(ops, forward, e.rhs, store));
    } else if e.Binary? {
      var first := InOrder(ops, forward, if forward then e.lhs else e.rhs, store);
      InOrderRuns(ops, forward, if forward then e.lhs else e.rhs, store);
      InOrderRuns(ops, forward, if forward then e.rhs else e.lhs, store + first.writes);
      BinaryRuns(ops, forward, e, store);
    } else if e.IncDec? {
      IncDecRuns(ops, e.kind, e.operand.name, store);
    } else {
      AtomRuns(ops, e, store);
    }
  }

  lemma AtomRuns(ops: Operators, e: Expr, store: Store)
    requires e.IntLit? || e.BoolLit? || e.VarRef?
    ensures Leads(ops, Moment(Todo(e), store), Moment(Done(Delayed(ops, e, store), []), store + map[]))
  {
    hide LeadsIn;
    assert store + map[] == store;
    OneStep(ops, Moment(Todo(e), store), Moment(Done(Delayed(ops, e, store), []), store));
  }

  lemma IncDecRuns(ops: Operators, kind: IncDecKind, name: string, store: Store)
    ensures var v := Read(store, name);
            Leads(ops, Moment(Todo(IncDec(kind, VarRef(name))), store),
                  Moment(Done(ResultOf(kind, v), []), store + map[name := Changed(kind, v)]))
  {
    hide LeadsIn;
    var v := Read(store, name);
    var w := Write(name, Changed(kind, v));
    var mid := Moment(Done(ResultOf(kind, v), [w]), store);
    var end := Moment(Done(ResultOf(kind, v), []), store[name := w.value]);
    assert store + map[name := Changed(kind, v)] == store[name := w.value];
    FlushStep(ops, ResultOf(kind, v), w, store);
    OneStep(ops, mid, end);
    assert StepTo(ops, Moment(Todo(IncDec(kind, VarRef(name))), store), mid);
    StepLeads(ops, Moment(Todo(IncDec(kind, VarRef(name))), store), mid, end);
  }

  lemma UnaryRuns(ops: Operators, op: UnaryOp, rhs: Expr, store: Store, r: Result)
    requires Leads(ops, Moment(Todo(rhs), store), Moment(Done(r.value, []), store + r.writes))
    ensures Leads(ops, Moment(Todo(Unary(op, rhs)), store), Moment(Done(ops.unary(op, r.value), []), store + r.writes))
  {
    hide LeadsIn;
    var begun, over := Moment(Todo(rhs), store), Moment(Done(r.value, []), store + r.writes);
    var end := Moment(Done(ops.unary(op, r.value), []), store + r.writes);
    OneStep(ops, Within(InUnary(op), over), end);
    OperandFirst(ops, InUnary(op), begun, over, end);
    assert StepTo(ops, Moment(Todo(Unary(op, rhs)), store), Within(InUnary(op), begun));
    StepLeads(ops, Moment(Todo(Unary(op, rhs)), store), Within(InUnary(op), begun), end);
  }

  lemma BinaryRuns(ops: Operators, forward: bool, e: Expr, store: Store)
    requires e.Binary? && Operations(e)
    requires var first := InOrder(ops, forward, if forward then e.lhs else e.rhs, store);
             var second := InOrder(ops, forward, if forward then e.rhs else e.lhs, store + first.writes);
             && Leads(ops, Moment(Todo(if forward then e.lhs else e.rhs), store), Moment(Done(first.value, []), store + first.writes))
             && Leads(ops, Moment(Todo(if forward then e.rhs else e.lhs), store + first.writes),
                      Moment(Done(second.value, []), store + first.writes + second.writes))
    ensures var r := InOrder(ops, forward, e, store);
            Leads(ops, Moment(Todo(e), store), Moment(Done(r.value, []), store + r.writes))
  {
    var first := InOrder(ops, forward, if forward then e.lhs else e.rhs, store);
    var s1 := store + first.writes;
    var second := InOrder(ops, forward, if forward then e.rhs else e.lhs, s1);
    var s2 := s1 + second.writes;
    assert s2 == store + (first.writes + second.writes);
    if forward {
      TwoOperands(ops, e.op, InLeft(e.op, Todo(e.rhs)), InRight(e.op, Done(first.value, [])),
                  Moment(Todo(e.lhs), store), Moment(Done(first.value, []), s1),
                  Moment(Todo(e.rhs), s1), Moment(Done(second.value, []), s2), e, first.value, second.value);
    } else {
      TwoOperands(ops, e.op, InRight(e.op, Todo(e.lhs)), InLeft(e.op, Done(first.value, [])),
                  Moment(Todo(e.rhs), store), Moment(Done(first.value, []), s1),
                  Moment(Todo(e.lhs), s1), Moment(Done(second.value, []), s2), e, second.value, first.value);
    }
  }

  lemma TwoOperands(ops: Operators, op: BinOp, p: Place, q: Place, a: Moment, b: Moment, c: Moment, d: Moment,
                    e: Expr, l: int, r: int)
    requires e.Binary? && e.op == op && !IsSequenced(op) && Leads(ops, a, b) && Leads(ops, c, d)
    requires Within(p, a) == Moment(BinaryRun(op, Todo(e.lhs), Todo(e.rhs)), a.store)
    requires Within(p, b) == Within(q, c)
    requires Within(q, d) == Moment(BinaryRun(op, Done(l, []), Done(r, [])), d.store)
    ensures Leads(ops, Moment(Todo(e), a.store), Moment(Done(ops.binary(op, l, r), []), d.store))
  {
    hide LeadsIn, Within;
    var end := Moment(Done(ops.binary(op, l, r), []), d.store);
    JoinStep(ops, op, l, r, d.store);
    OneStep(ops, Within(q, d), end);
    OperandFirst(ops, q, c, d, end);
    OperandFirst(ops, p, a, b, end);
    assert StepTo(ops, Moment(Todo(e), a.store), Within(p, a));
    StepLeads(ops, Moment(Todo(e), a.store), Within(p, a), end);
  }

  /** Up to the last store, nothing is stored. */
  lemma {:induction false} DelayedRuns(ops: Operators, e: Expr, store: Store) returns (pending: seq<Write>)
    requires Operations(e)
    ensures Leads(ops, Moment(Todo(e), store), Moment(Done(Delayed(ops, e, store), pending), store))
  {
    if e.Unary? {
      pending := DelayedRuns(ops, e.rhs, store);
      var begun, over := Moment(Todo(e.rhs), store), Moment(Done(Delayed(ops, e.rhs, store), pending), store);
      var end := Moment(Done(Delayed(ops, e, store), pending), store);
      OneStep(ops, Within(InUnary(e.unop), over), end);
      OperandFirst(ops, InUnary(e.unop), begun, over, end);
      assert StepTo(ops, Moment(Todo(e), store), Within(InUnary(e.unop), begun));
      StepLeads(ops, Moment(Todo(e), store), Within(InUnary(e.unop), begun), end);
    } else if e.Binary? {
      var left := DelayedRuns(ops, e.lhs, store);
      var right := DelayedRuns(ops, e.rhs, store);
      pending := left + right;
      DelayedJoins(ops, e, store, left, right);
    } else {
      pending := if e.IncDec? then [Write(e.operand.name, Changed(e.kind, Read(store, e.operand.name)))] else [];
      OneStep(ops, Moment(Todo(e), store), Moment(Done(Delayed(ops, e, store), pending), store));
    }
  }

  lemma DelayedJoins(ops: Operators, e: Expr, store: Store, left: seq<Write>, right: seq<Write>)
    requires e.Binary? && Operations(e)
    requires Leads(ops, Moment(Todo(e.lhs), store), Moment(Done(Delayed(ops, e.lhs, store), left), store))
    requires Leads(ops, Moment(Todo(e.rhs), store), Moment(Done(Delayed(ops, e.rhs, store), right), store))
    ensures Leads(ops, Moment(Todo(e), store), Moment(Done(Delayed(ops, e, store), left + right), store))
  {
    hide LeadsIn;
    var l, r := Done(Delayed(ops, e.lhs, store), left), Done(Delayed(ops, e.rhs, store), right);
    var end := Moment(Done(Delayed(ops, e, store), left + right), store);
    OneStep(ops, Moment(BinaryRun(e.op, l, r), store), end);
    OperandFirst(ops, InRight(e.op, l), Moment(Todo(e.rhs), store), Moment(r, store), end);
    OperandFirst(ops, InLeft(e.op, Todo(e.rhs)), Moment(Todo(e.lhs), store), Moment(l, store), end);
    var begun := Moment(BinaryRun(e.op, Todo(e.lhs), Todo(e.rhs)), store);
    assert StepTo(ops, Moment(Todo(e), store), begun);
    StepLeads(ops, Moment(Todo(e), store), begun, end);
  }

  /** What is pending is stored at last. */
  lemma {:induction false} FlushAll(ops: Operators, v: int, pending: seq<Write>, store: Store) returns (after: Store)
    ensures Leads(ops, Moment(Done(v, pending), store), Moment(Done(v, []), after))
    decreases |pending|
  {
    if pending == [] {
      after := store;
      Stays(ops, Moment(Done(v, []), store));
    } else {
      var next := store[pending[0].name := pending[0].value];
      after := FlushAll(ops, v, pending[1..], next);
      var i: nat := 0;
      assert Without(pending, i) == pending[1..];
      assert StepTo(ops, Moment(Done(v, pending), store), Moment(Done(v, pending[1..]), next));
      StepLeads(ops, Moment(Done(v, pending), store), Moment(Done(v, pending[1..]), next), Moment(Done(v, []), after));
    }
  }

  lemma {:induction false} AsMoments(n: nat, ops: Operators, a: Moment, b: Moment) returns (moments: seq<Moment>)
    requires LeadsIn(n, ops, a, b)
    ensures moments != [] && moments[0] == a && moments[|moments| - 1] == b
    ensures forall i :: 0 <= i < |moments| - 1 ==> StepTo(ops, moments[i], moments[i + 1])
    decreases n
  {
    hide StepTo;
    if n == 0 {
      moments := [a];
    } else {
      var m :| StepTo(ops, a, m) && LeadsIn(n - 1, ops, m, b);
      var rest := AsMoments(n - 1, ops, m, b);
      moments := [a] + rest;
    }
  }

  lemma LeadsYields(ops: Operators, e: Expr, store: Store, v: int, after: Store)
    requires Leads(ops, Moment(Todo(e), store), Moment(Done(v, []), after))
    ensures Yields(ops, e, store, v)
  {
    hide LeadsIn, Step;
    var n: nat :| LeadsIn(n, ops, Moment(Todo(e), store), Moment(Done(v, []), after));
    var moments := AsMoments(n, ops, Moment(Todo(e), store), Moment(Done(v, []), after));
    assert forall i :: 0 <= i < |moments| - 1 ==> StepTo(ops, moments[i], moments[i + 1]);
    assert IsEvaluation(ops, e, store, moments);
  }

  /** All three are evaluations that C allows. */
  lemma ThreeOrders(ops: Operators, e: Expr, store: Store)
    requires Operations(e)
    ensures Yields(ops, e, store, InOrder(ops, true, e, store).value)
    ensures Yields(ops, e, store, InOrder(ops, false, e, store).value)
    ensures Yields(ops, e, store, Delayed(ops, e, store))
  {
    hide Yields, Leads, InOrder, Delayed;
    InOrderRuns(ops, true, e, store);
    InOrderRuns(ops, false, e, store);
    LeadsYields(ops, e, store, InOrder(ops, true, e, store).value, store + InOrder(ops, true, e, store).writes);
    LeadsYields(ops, e, store, InOrder(ops, false, e, store).value, store + InOrder(ops, false, e, store).writes);
    var pending := DelayedRuns(ops, e, store);
    var after := FlushAll(ops, Delayed(ops, e, store), pending, store);
    LeadsTrans(ops, Moment(Todo(e), store), Moment(Done(Delayed(ops, e, store), pending), store),
               Moment(Done(Delayed(ops, e, store), []), after));
    LeadsYields(ops, e, store, Delayed(ops, e, store), after);
  }

  // ----- what equal values mean -----

  /** By how much an expression changes a variable. */
  function Net(e: Expr, x: string): int
    requires Operations(e)
  {
    match e
    case IncDec(kind, operand) => if operand.name == x then Changed(kind, 0) else 0
    case Unary(_, rhs) => Net(rhs, x)
    case Binary(_, lhs, rhs) => Net(lhs, x) + Net(rhs, x)
    case _ => 0
  }

  lemma {:induction false} NetIsChange(ops: Operators, forward: bool, e: Expr, store: Store, x: string)
    requires Operations(e)
    ensures Read(store + InOrder(ops, forward, e, store).writes, x) == Read(store, x) + Net(e, x)
  {
    match e
    case Unary(_, rhs) => NetIsChange(ops, forward, rhs, store, x);
    case Binary(_, lhs, rhs) =>
      var a, b := if forward then lhs else rhs, if forward then rhs else lhs;
      var first := InOrder(ops, forward, a, store);
      var second := InOrder(ops, forward, b, store + first.writes);
      NetIsChange(ops, forward, a, store, x);
      NetIsChange(ops, forward, b, store + first.writes, x);
      assert store + (first.writes + second.writes) == store + first.writes + second.writes;
    case _ =>
  }

  /** A variable that is not read is not changed. */
  lemma {:induction false} NetOfOthers(native: set<string>, e: Expr, x: string)
    requires Scalar(native, e) && Operations(e) && x !in EffectsOf(native, e).read
    ensures Net(e, x) == 0 && x !in EffectsOf(native, e).written
  {
    match e
    case Unary(_, rhs) => NetOfOthers(native, rhs, x);
    case Binary(_, lhs, rhs) =>
      NetOfOthers(native, lhs, x);
      NetOfOthers(native, rhs, x);
    case _ =>
  }

  /** At every operator, the operand that comes first leaves what both read as it was. */
  ghost predicate FirstIdle(native: set<string>, forward: bool, e: Expr)
    requires Operations(e)
  {
    match e
    case Unary(_, rhs) => FirstIdle(native, forward, rhs)
    case Binary(_, lhs, rhs) =>
      && FirstIdle(native, forward, lhs) && FirstIdle(native, forward, rhs)
      && forall x :: x in EffectsOf(native, lhs).read && x in EffectsOf(native, rhs).read ==>
                       Net(if forward then lhs else rhs, x) == 0
    case _ => true
  }

  /** Stores agree on what e reads. */
  ghost predicate SeesSame(native: set<string>, e: Expr, a: Store, b: Store) {
    forall x :: x in EffectsOf(native, e).read ==> Read(a, x) == Read(b, x)
  }

  /** If the values are those of the delayed order, every operand saw the store at the start. */
  lemma {:induction false} EqualMeansIdle(native: set<string>, ops: Operators, forward: bool, e: Expr, store: Store, start: Store)
    requires Scalar(native, e) && Operations(e) && Injective(ops)
    requires InOrder(ops, forward, e, store).value == Delayed(ops, e, start)
    ensures SeesSame(native, e, store, start) && FirstIdle(native, forward, e)
  {
    match e
    case Unary(_, rhs) => EqualMeansIdle(native, ops, forward, rhs, store, start);
    case Binary(_, lhs, rhs) =>
      var a, b := if forward then lhs else rhs, if forward then rhs else lhs;
      var first := InOrder(ops, forward, a, store);
      EqualMeansIdle(native, ops, forward, a, store, start);
      EqualMeansIdle(native, ops, forward, b, store + first.writes, start);
      forall x | x in EffectsOf(native, e).read
        ensures Read(store, x) == Read(start, x)
        ensures x in EffectsOf(native, a).read && x in EffectsOf(native, b).read ==> Net(a, x) == 0
      {
        NetIsChange(ops, forward, a, store, x);
        if x !in EffectsOf(native, a).read { NetOfOthers(native, a, x); }
      }
    case _ =>
  }

  /** Then nothing that is changed adds up to no change. */
  lemma {:induction false} ChangesShow(native: set<string>, e: Expr, x: string)
    requires Scalar(native, e) && Operations(e) && FirstIdle(native, true, e) && FirstIdle(native, false, e)
    requires x in EffectsOf(native, e).written
    ensures Net(e, x) != 0 && x in EffectsOf(native, e).read
  {
    match e
    case Unary(_, rhs) => ChangesShow(native, rhs, x);
    case Binary(_, lhs, rhs) =>
      if x in EffectsOf(native, lhs).written { ChangesShow(native, lhs, x); }
      if x in EffectsOf(native, rhs).written { ChangesShow(native, rhs, x); }
      if x !in EffectsOf(native, lhs).read { NetOfOthers(native, lhs, x); }
      if x !in EffectsOf(native, rhs).read { NetOfOthers(native, rhs, x); }
    case _ =>
  }

  lemma {:induction false} IdleMeansIndependent(native: set<string>, e: Expr)
    requires Scalar(native, e) && Operations(e) && FirstIdle(native, true, e) && FirstIdle(native, false, e)
    ensures Independent(native, e)
  {
    match e
    case Unary(_, rhs) => IdleMeansIndependent(native, rhs);
    case Binary(_, lhs, rhs) =>
      IdleMeansIndependent(native, lhs);
      IdleMeansIndependent(native, rhs);
      var l, r := EffectsOf(native, lhs), EffectsOf(native, rhs);
      forall x | x in l.written ensures x !in r.read && x !in r.written {
        ChangesShow(native, lhs, x);
        if x !in r.read { NetOfOthers(native, rhs, x); }
      }
      forall x | x in r.written ensures x !in l.read {
        ChangesShow(native, rhs, x);
      }
      assert l.written * (r.read + r.written) == {} && r.written * l.read == {};
    case _ =>
  }

  // ----- main results -----

  ghost predicate Differs(ops: Operators, e: Expr, store: Store) {
    exists v, w :: v != w && Yields(ops, e, store, v) && Yields(ops, e, store, w)
  }

  /** A reported expression of operators has two values, from whatever store. */
  lemma ReportMeansDifference(native: set<string>, ops: Operators, e: Expr, store: Store)
    requires Scalar(native, e) && Operations(e) && Injective(ops) && Reports(native, e) > 0
    ensures Differs(ops, e, store)
  {
    hide Yields, InOrder, Delayed, Injective;
    ThreeOrders(ops, e, store);
    SilentIffIndependent(native, e);
    var d := Delayed(ops, e, store);
    if InOrder(ops, true, e, store).value == d && InOrder(ops, false, e, store).value == d {
      EqualMeansIdle(native, ops, true, e, store, store);
      EqualMeansIdle(native, ops, false, e, store, store);
      IdleMeansIndependent(native, e);
    }
  }

  /** Folding the integers onto the natural numbers. */
  function Folded(n: int): nat {
    if n >= 0 then 2 * n else -2 * n - 1
  }

  /** The numbers below k added up. */
  function Triangle(k: nat): nat {
    if k == 0 then 0 else Triangle(k - 1) + k
  }

  lemma {:induction false} TriangleGrows(j: nat, k: nat)
    requires j < k
    ensures Triangle(j) + j < Triangle(k)
    decreases k
  {
    if j < k - 1 { TriangleGrows(j, k - 1); }
  }

  function Paired(a: int, b: int): int {
    Triangle(Folded(a) + Folded(b)) + Folded(b)
  }

  lemma PairedInjective(a: int, b: int, c: int, d: int)
    requires Paired(a, b) == Paired(c, d)
    ensures a == c && b == d
  {
    var j, k := Folded(a) + Folded(b), Folded(c) + Folded(d);
    if j < k { TriangleGrows(j, k); }
    if k < j { TriangleGrows(k, j); }
  }

  lemma InjectiveExists() returns (ops: Operators)
    ensures Injective(ops)
  {
    ops := Operators((op, a) => a, (op, a, b) => Paired(a, b));
    forall a, b, c, d | Paired(a, b) == Paired(c, d) ensures a == c && b == d {
      PairedInjective(a, b, c, d);
    }
  }

  /** In expressions of operators exactly the reported ones depend on the order: with no report
      every evaluation gives one value, and with one, two differ for some operators. */
  lemma ReportIffDifference(native: set<string>, e: Expr, store: Store)
    requires Scalar(native, e) && Operations(e)
    ensures Reports(native, e) > 0 <==> exists ops :: Differs(ops, e, store)
  {
    if Reports(native, e) > 0 {
      var ops := InjectiveExists();
      ReportMeansDifference(native, ops, e, store);
    } else {
      forall ops ensures !Differs(ops, e, store) {
        OneValue(native, ops, e, store);
      }
    }
  }

  lemma OneValue(native: set<string>, ops: Operators, e: Expr, store: Store)
    requires Scalar(native, e) && Reports(native, e) == 0
    ensures !Differs(ops, e, store)
  {
    forall v | Yields(ops, e, store, v) ensures v == Eval(ops, e, store).value {
      var moments: seq<Moment> :| IsEvaluation(ops, e, store, moments) && moments[|moments| - 1].run == Done(v, []);
      NoReportMeansOneResult(native, ops, e, store, moments);
    }
  }
}

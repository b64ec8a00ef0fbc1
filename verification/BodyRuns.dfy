/** What a body does when it runs, turn by turn: counted loops take one turn for each of
    their values, and every clause of a Switch falls through to the next.  For bodies
    without labels this decides the places that control can reach. */
module BodyRuns {
  import opened Options
  import opened Ast
  import opened Constants
  import opened Flow
  import opened Completion

  // ----- the turns of a counted loop -----

  /** `for (v = first; v <= last; v++)`, or down with `>=` and `--`: the values of v. */
  function Counted(first: int, last: int, descending: bool): (values: seq<int>)
    decreases if descending then first - last else last - first
  {
    if descending then
      if first >= last then [first] + Counted(first - 1, last, true) else []
    else
      if first <= last then [first] + Counted(first + 1, last, false) else []
  }

  /** The values are the numbers from the first to the last, one apart. */
  lemma {:induction false} CountedIs(first: int, last: int, descending: bool)
    ensures var values := Counted(first, last, descending);
            && |values| == (if descending then (if first < last then 0 else first - last + 1)
                            else (if last < first then 0 else last - first + 1))
            && (forall i :: 0 <= i < |values| ==> values[i] == if descending then first - i else first + i)
    decreases if descending then first - last else last - first
  {
    if descending && first >= last {
      CountedIs(first - 1, last, true);
    } else if !descending && first <= last {
      CountedIs(first + 1, last, false);
    }
  }

  /** `for (i = 0; i < times; i++)`: the values of the counter of a Repeat. */
  function TurnsOf(times: int): (values: seq<int>) {
    Counted(0, times - 1, false)
  }

  lemma NoValues(descending: bool)
    ensures forall first, last :: Counted(first, last, descending) == [] <==> if descending then first < last else first > last
  {
    forall first, last ensures Counted(first, last, descending) == [] <==> if descending then first < last else first > last {
      CountedIs(first, last, descending);
    }
  }

  /** The values a For may take: bounds that are not known can be any numbers. */
  ghost predicate MayCount(s: Stmt, values: seq<int>)
    requires s.For?
  {
    exists first, last :: values == Counted(first, last, s.descending) && MayBe(s.first, first) && MayBe(s.last, last)
  }

  ghost predicate MayBe(e: Expr, value: int) {
    IntegerConstantValue(e).Some? ==> IntegerConstantValue(e).value == value
  }

  /** Whether a test can come out true or false. */
  ghost predicate MayTest(e: Expr, holds: bool) {
    exists value :: MayBe(e, value) && (value != 0) == holds
  }

  // ----- running -----

  datatype Exit = Ends | Breaks | Continues

  ghost predicate RunsB(stmts: seq<Stmt>, exit: Exit)
    decreases stmts, 0
  {
    if stmts == [] then exit.Ends?
    else (!exit.Ends? && RunsS(stmts[0], exit)) || (RunsS(stmts[0], Ends) && RunsB(stmts[1..], exit))
  }

  ghost predicate RunsS(s: Stmt, exit: Exit)
    decreases s, 0
  {
    match s
    case Return => false
    case Goto(_) => false
    case Label(_) => exit.Ends?
    case Break => exit.Breaks?
    case Continue => exit.Continues?
    case Plain => exit.Ends?
    case If(thenBody, elseBody) => RunsB(thenBody, exit) || RunsB(elseBody, exit)
    case CompileIf(selected, _) => if selected.Selected? then RunsB(selected.chosen, exit) else exit.Ends?
    case Switch(cases) =>
      || (exit.Ends? && forall i :: 0 <= i < |cases| ==> !cases[i].isDefault)
      || RunsFromSome(cases, exit)
    case Repeat(count, body) =>
      exit.Ends? && exists times: int :: MayBe(count, times) && Turns(body, |TurnsOf(times)|, true)
    case While(cond, body) =>
      exit.Ends? && exists n: nat :: (n > 0 ==> MayTest(cond, true)) && Turns(body, n, MayTest(cond, false))
    case DoWhile(cond, body) =>
      exit.Ends? && exists n: nat :: n > 0 && (n > 1 ==> MayTest(cond, true)) && Turns(body, n, MayTest(cond, false))
    case For(_, _, _, body) => exit.Ends? && exists values :: MayCount(s, values) && Turns(body, |values|, true)
    case ForEach(body) => exit.Ends? && exists n: nat :: Turns(body, n, true)
  }

  /** A loop of at most n turns ends: by a Break, or after the last turn if its test can fail. */
  ghost predicate Turns(body: seq<Stmt>, n: nat, fails: bool)
    decreases body, 1 + n
  {
    if n == 0 then fails
    else RunsB(body, Breaks) || ((RunsB(body, Ends) || RunsB(body, Continues)) && Turns(body, n - 1, fails))
  }

  /** From the first clause on, each clause that ends falls through to the next. */
  ghost predicate RunsFrom(cases: seq<Clause>, exit: Exit)
    decreases cases, 0
  {
    if cases == [] then exit.Ends?
    else
      || (exit.Ends? && RunsB(cases[0].body, Breaks))
      || (exit.Continues? && RunsB(cases[0].body, Continues))
      || (RunsB(cases[0].body, Ends) && RunsFrom(cases[1..], exit))
  }

  ghost predicate RunsFromSome(cases: seq<Clause>, exit: Exit)
    decreases cases, 1
  {
    cases != [] && (RunsFrom(cases, exit) || RunsFromSome(cases[1..], exit))
  }

  // ----- the judgement is exactly what can happen -----

  function Allows(o: Outcome, exit: Exit): bool {
    match exit
    case Ends => o.normal
    case Breaks => o.breaks
    case Continues => o.continues
  }

  lemma {:induction false} TurnsEnd(body: seq<Stmt>, n: nat, fails: bool)
    ensures Turns(body, n, fails) <==>
            if n == 0 then fails
            else RunsB(body, Breaks) || ((RunsB(body, Ends) || RunsB(body, Continues)) && fails)
  {
    if n > 0 {
      TurnsEnd(body, n - 1, fails);
    }
  }

  lemma {:induction false} RunsExactB(stmts: seq<Stmt>, exit: Exit)
    ensures RunsB(stmts, exit) <==> Allows(OutB(C, stmts), exit)
    decreases stmts, 0
  {
    if stmts != [] {
      RunsExactS(stmts[0], exit);
      RunsExactS(stmts[0], Ends);
      RunsExactB(stmts[1..], exit);
    }
  }

  lemma {:induction false} RunsExactS(s: Stmt, exit: Exit)
    ensures RunsS(s, exit) <==> Allows(OutS(C, s), exit)
    decreases s, 1
  {
    match s
    case If(thenBody, elseBody) =>
      RunsExactB(thenBody, exit);
      RunsExactB(elseBody, exit);
    case CompileIf(selected, _) => if selected.Selected? { RunsExactB(selected.chosen, exit); }
    case Switch(cases) => RunsExactC(cases, exit);
    case Repeat(_, _) => RunsExactLoop(s, exit);
    case While(_, _) => RunsExactLoop(s, exit);
    case DoWhile(_, _) => RunsExactLoop(s, exit);
    case For(_, _, _, _) => RunsExactLoop(s, exit);
    case ForEach(_) => RunsExactLoop(s, exit);
    case _ =>
  }

  lemma {:induction false} RunsExactC(cases: seq<Clause>, exit: Exit)
    ensures RunsFromSome(cases, exit) <==> Allows(OutC(C, cases), exit)
    ensures RunsFrom(cases, exit) && cases != [] ==> Allows(OutC(C, cases), exit)
    decreases cases, 0
  {
    if cases != [] {
      var body, rest := cases[0].body, cases[1..];
      RunsExactB(body, Ends);
      RunsExactB(body, Breaks);
      RunsExactB(body, Continues);
      RunsExactC(rest, exit);
      assert |cases| == 1 <==> rest == [];
      hide OutB, RunsB;
      assert rest == [] ==> OutC(C, rest) == Outcome(false, false, false) && (RunsFrom(rest, exit) <==> exit.Ends?);
      assert RunsFrom(cases, exit) <==>
        || (exit.Ends? && RunsB(body, Breaks)) || (exit.Continues? && RunsB(body, Continues))
        || (RunsB(body, Ends) && RunsFrom(rest, exit));
      assert OutC(C, cases) ==
             Outcome((rest == [] && OutB(C, body).normal) || OutB(C, body).breaks || OutC(C, rest).normal,
                     false, OutB(C, body).continues || OutC(C, rest).continues);
    }
  }

  lemma {:induction false} RunsExactLoop(s: Stmt, exit: Exit)
    requires IsLoop(s)
    ensures RunsS(s, exit) <==> Allows(OutS(C, s), exit)
    decreases s, 0
  {
    RunsExactB(s.body, Ends);
    RunsExactB(s.body, Breaks);
    RunsExactB(s.body, Continues);
    if exit.Ends? {
      hide OutB, RunsB;
      match s
      case Repeat(_, _) => RepeatRuns(s);
      case While(_, _) => WhileRuns(s);
      case DoWhile(_, _) => DoWhileRuns(s);
      case For(_, _, _, _) => ForRuns(s);
      case ForEach(_) => ForEachRuns(s);
    }
  }

  ghost predicate BodyAgrees(body: seq<Stmt>) {
    && (RunsB(body, Ends) <==> OutB(C, body).normal)
    && (RunsB(body, Breaks) <==> OutB(C, body).breaks)
    && (RunsB(body, Continues) <==> OutB(C, body).continues)
  }

  /** The known value of an expression, or any value at all. */
  lemma SomeValue(e: Expr, any: int) returns (value: int)
    ensures MayBe(e, value)
    ensures value == if IntegerConstantValue(e).Some? then IntegerConstantValue(e).value else any
  {
    hide IntegerConstantValue;
    value := if IntegerConstantValue(e).Some? then IntegerConstantValue(e).value else any;
  }

  lemma RepeatRuns(s: Stmt)
    requires s.Repeat? && BodyAgrees(s.body)
    ensures RunsS(s, Ends) <==> OutS(C, s).normal
  {
    hide OutB, RunsB, Turns, IntegerConstantValue, Counted;
    var times := SomeValue(s.count, 0);
    NoValues(false);
    forall n: nat ensures Turns(s.body, n, true) <==> n == 0 || CanLeave(OutB(C, s.body)) {
      TurnsEnd(s.body, n, true);
    }
    assert Turns(s.body, |TurnsOf(times)|, true) ==> RunsS(s, Ends);
  }

  lemma ForRuns(s: Stmt)
    requires s.For? && BodyAgrees(s.body)
    ensures RunsS(s, Ends) <==> OutS(C, s).normal
  {
    hide OutB, RunsB, Turns, IntegerConstantValue, Counted;
    var first := SomeValue(s.first, if s.descending then SomeBound(s.last) - 1 else SomeBound(s.last) + 1);
    var last := SomeValue(s.last, if s.descending then first + 1 else first - 1);
    var values := Counted(first, last, s.descending);
    forall n: nat ensures Turns(s.body, n, true) <==> n == 0 || CanLeave(OutB(C, s.body)) {
      TurnsEnd(s.body, n, true);
    }
    NoValues(s.descending);
    assert MayCount(s, values);
    assert Turns(s.body, |values|, true) ==> RunsS(s, Ends);
  }

  function SomeBound(e: Expr): int {
    if IntegerConstantValue(e).Some? then IntegerConstantValue(e).value else 0
  }

  lemma TestIs(e: Expr)
    ensures MayTest(e, true) <==> !KnownZero(e)
    ensures MayTest(e, false) <==> !IsConstTruthy(e)
  {
    hide IntegerConstantValue;
    var zero := SomeValue(e, 0);
    var one := SomeValue(e, 1);
  }

  lemma WhileRuns(s: Stmt)
    requires s.While? && BodyAgrees(s.body)
    ensures RunsS(s, Ends) <==> OutS(C, s).normal
  {
    TestIs(s.cond);
    hide OutB, RunsB, Turns, IsConstTruthy, KnownZero, MayTest;
    var fails := MayTest(s.cond, false);
    TurnsEnd(s.body, 0, fails);
    TurnsEnd(s.body, 1, fails);
    forall n: nat ensures Turns(s.body, n, fails) <==> if n == 0 then fails else Turns(s.body, 1, fails) {
      TurnsEnd(s.body, n, fails);
    }
    assert Turns(s.body, 0, fails) ==> RunsS(s, Ends);
    assert Turns(s.body, 1, fails) && MayTest(s.cond, true) ==> RunsS(s, Ends);
  }

  lemma DoWhileRuns(s: Stmt)
    requires s.DoWhile? && BodyAgrees(s.body)
    ensures RunsS(s, Ends) <==> OutS(C, s).normal
  {
    TestIs(s.cond);
    hide OutB, RunsB, Turns, IsConstTruthy, KnownZero, MayTest;
    var fails := MayTest(s.cond, false);
    TurnsEnd(s.body, 1, fails);
    forall n: nat | n > 0 ensures Turns(s.body, n, fails) <==> Turns(s.body, 1, fails) {
      TurnsEnd(s.body, n, fails);
    }
    assert Turns(s.body, 1, fails) ==> RunsS(s, Ends);
  }

  lemma ForEachRuns(s: Stmt)
    requires s.ForEach? && BodyAgrees(s.body)
    ensures RunsS(s, Ends) <==> OutS(C, s).normal
  {
    hide OutB, RunsB, Turns;
    TurnsEnd(s.body, 0, true);
    assert Turns(s.body, 0, true) ==> RunsS(s, Ends);
  }

  /** The places a body without labels can reach are those its runs reach: it falls off its
      end exactly when some run of its statements ends. */
  lemma FallsOffIffRunEnds(body: seq<Stmt>)
    requires NoLabelB(body)
    ensures FallsOff(C, body) <==> RunsB(body, Ends)
  {
    CompletionExact(C, body);
    RunsExactB(body, Ends);
  }

  // ----- the edge by which the graph leaves a loop -----

  /** p is a place in this block when k follows it. */
  ghost predicate InsideB(p: Place, stmts: seq<Stmt>, k: Kont)
    decreases stmts, 0
  {
    stmts != [] && (InsideS(p, stmts[0], Seq(stmts[1..], k)) || InsideB(p, stmts[1..], k))
  }

  ghost predicate InsideS(p: Place, s: Stmt, k: Kont)
    decreases s, 0
  {
    || p == At(s, k)
    || (s.If? && (InsideB(p, s.thenBody, k) || InsideB(p, s.elseBody, k)))
    || (s.CompileIf? && s.selected.Selected? && InsideB(p, s.selected.chosen, k))
    || (s.Switch? && InsideC(p, s.cases, k))
    || (IsLoop(s) && InsideB(p, s.body, Loop(s, k)))
  }

  ghost predicate InsideC(p: Place, cases: seq<Clause>, k: Kont)
    decreases cases, 0
  {
    cases != [] && (InsideB(p, cases[0].body, Fall(cases[1..], k)) || InsideC(p, cases[1..], k))
  }

  /** What follows the construct that encloses k, `depth` levels up. */
  function Outer(k: Kont, depth: nat): Option<Kont>
    decreases depth
  {
    var after := BreakTarget(C, k);
    if depth == 0 || after.None? then after else Outer(after.value, depth - 1)
  }

  function Levels(k: Kont): nat {
    match k
    case End => 0
    case Seq(_, next) => Levels(next)
    case Loop(_, next) => 1 + Levels(next)
    case Fall(_, next) => 1 + Levels(next)
  }

  lemma {:induction false} BreakDrops(k: Kont)
    ensures BreakTarget(C, k).Some? ==> Levels(BreakTarget(C, k).value) + 1 == Levels(k)
  {
    if k.Seq? { BreakDrops(k.next); }
  }

  lemma {:induction false} OuterDrops(k: Kont, depth: nat)
    ensures Outer(k, depth).Some? ==> Levels(Outer(k, depth).value) + depth + 1 == Levels(k)
    ensures Outer(k, depth) == BreakTarget(C, k) && BreakTarget(C, k).Some? ==> depth == 0
    decreases depth
  {
    BreakDrops(k);
    if depth > 0 && BreakTarget(C, k).Some? { OuterDrops(BreakTarget(C, k).value, depth - 1); }
  }

  lemma OuterInside(s: Stmt, cases: seq<Clause>, stmts: seq<Stmt>, k: Kont, depth: nat)
    ensures Outer(Seq(stmts, k), depth) == Outer(k, depth)
    ensures Outer(Loop(s, k), depth + 1) == Outer(k, depth)
    ensures Outer(Fall(cases, k), depth + 1) == Outer(k, depth)
  {
  }

  /** A Break found by the search is a place whose Break goes that many levels up. */
  lemma {:induction false} FoundB(stmts: seq<Stmt>, k: Kont, depth: nat) returns (at: Kont)
    requires BodyHasLevelBreak(stmts, depth)
    ensures InsideB(At(Break, at), stmts, k) && BreakTarget(C, at) == Outer(k, depth)
    decreases stmts, 0
  {
    OuterInside(Break, [], stmts[1..], k, depth);
    if HasLevelBreak(stmts[0], depth) {
      at := FoundS(stmts[0], Seq(stmts[1..], k), depth);
    } else {
      at := FoundB(stmts[1..], k, depth);
    }
  }

  lemma {:induction false} FoundS(s: Stmt, k: Kont, depth: nat) returns (at: Kont)
    requires HasLevelBreak(s, depth)
    ensures InsideS(At(Break, at), s, k) && BreakTarget(C, at) == Outer(k, depth)
    decreases s, 0
  {
    if s.Break? {
      at := k;
    } else if s.If? {
      if BodyHasLevelBreak(s.thenBody, depth) {
        at := FoundB(s.thenBody, k, depth);
      } else {
        at := FoundB(s.elseBody, k, depth);
      }
    } else if s.CompileIf? {
      at := FoundB(s.selected.chosen, k, depth);
    } else if s.Switch? {
      at := FoundC(s.cases, k, depth);
    } else {
      OuterInside(s, [], [], k, depth);
      at := FoundB(s.body, Loop(s, k), depth + 1);
    }
  }

  lemma {:induction false} FoundC(cases: seq<Clause>, k: Kont, depth: nat) returns (at: Kont)
    requires CasesHaveLevelBreak(cases, depth + 1)
    ensures InsideC(At(Break, at), cases, k) && BreakTarget(C, at) == Outer(k, depth)
    decreases cases, 0
  {
    OuterInside(Break, cases[1..], [], k, depth);
    if BodyHasLevelBreak(cases[0].body, depth + 1) {
      at := FoundB(cases[0].body, Fall(cases[1..], k), depth + 1);
    } else {
      at := FoundC(cases[1..], k, depth);
    }
  }

  /** Such a place is found. */
  lemma {:induction false} IsFoundB(stmts: seq<Stmt>, k: Kont, depth: nat, at: Kont)
    requires InsideB(At(Break, at), stmts, k) && BreakTarget(C, at).Some? && BreakTarget(C, at) == Outer(k, depth)
    ensures BodyHasLevelBreak(stmts, depth)
    decreases stmts, 0
  {
    OuterInside(Break, [], stmts[1..], k, depth);
    if InsideS(At(Break, at), stmts[0], Seq(stmts[1..], k)) {
      IsFoundS(stmts[0], Seq(stmts[1..], k), depth, at);
    } else {
      IsFoundB(stmts[1..], k, depth, at);
    }
  }

  lemma {:induction false} IsFoundS(s: Stmt, k: Kont, depth: nat, at: Kont)
    requires InsideS(At(Break, at), s, k) && BreakTarget(C, at).Some? && BreakTarget(C, at) == Outer(k, depth)
    ensures HasLevelBreak(s, depth)
    decreases s, 0
  {
    if s.Break? {
      OuterDrops(k, depth);
    } else if s.If? {
      if InsideB(At(Break, at), s.thenBody, k) {
        IsFoundB(s.thenBody, k, depth, at);
      } else {
        IsFoundB(s.elseBody, k, depth, at);
      }
    } else if s.CompileIf? {
      IsFoundB(s.selected.chosen, k, depth, at);
    } else if s.Switch? {
      IsFoundC(s.cases, k, depth, at);
    } else {
      OuterInside(s, [], [], k, depth);
      IsFoundB(s.body, Loop(s, k), depth + 1, at);
    }
  }

  lemma {:induction false} IsFoundC(cases: seq<Clause>, k: Kont, depth: nat, at: Kont)
    requires InsideC(At(Break, at), cases, k) && BreakTarget(C, at).Some? && BreakTarget(C, at) == Outer(k, depth)
    ensures CasesHaveLevelBreak(cases, depth + 1)
    decreases cases, 0
  {
    OuterInside(Break, cases[1..], [], k, depth);
    if InsideB(At(Break, at), cases[0].body, Fall(cases[1..], k)) {
      IsFoundB(cases[0].body, Fall(cases[1..], k), depth + 1, at);
    } else {
      IsFoundC(cases[1..], k, depth, at);
    }
  }

  /** Some Break in the body of the loop, whether or not a run gets to it, leaves that loop. */
  ghost predicate BrokenInside(loop: Stmt, k: Kont)
    requires IsLoop(loop)
  {
    exists at :: InsideB(At(Break, at), loop.body, Loop(loop, k)) && BreakTarget(C, at) == Some(k)
  }

  lemma LevelBreakIff(loop: Stmt, k: Kont)
    requires IsLoop(loop)
    ensures BodyHasLevelBreak(loop.body, 0) <==> BrokenInside(loop, k)
  {
    assert Outer(Loop(loop, k), 0) == Some(k);
    if BodyHasLevelBreak(loop.body, 0) {
      var at := FoundB(loop.body, Loop(loop, k), 0);
    }
    if BrokenInside(loop, k) {
      var at :| InsideB(At(Break, at), loop.body, Loop(loop, k)) && BreakTarget(C, at) == Some(k);
      IsFoundB(loop.body, Loop(loop, k), 0, at);
    }
  }

  /** The graph leaves a counted loop exactly when it may take no value at all, and a tested
      one when its test may fail or a Break stands for it. */
  lemma ExitEdgeIff(s: Stmt, k: Kont)
    requires IsLoop(s)
    ensures Leaves(Graph, s, false) <==>
            match s
            case Repeat(count, _) => exists times :: MayBe(count, times) && TurnsOf(times) == []
            case While(cond, _) => MayTest(cond, false) || BrokenInside(s, k)
            case DoWhile(cond, _) => MayTest(cond, false) || BrokenInside(s, k)
            case For(_, _, _, _) => MayCount(s, [])
            case ForEach(_) => true
    ensures Leaves(Graph, s, true) <==> !s.DoWhile? && Leaves(Graph, s, false)
  {
    hide IntegerConstantValue, BodyHasLevelBreak, BrokenInside;
    match s
    case Repeat(count, _) =>
      var times := SomeValue(count, 0);
      NoValues(false);
    case While(cond, _) => TestIs(cond); LevelBreakIff(s, k);
    case DoWhile(cond, _) => TestIs(cond); LevelBreakIff(s, k);
    case For(_, _, _, _) => EmptyRange(s);
    case ForEach(_) =>
  }

  lemma EmptyRange(s: Stmt)
    requires s.For?
    ensures MayCount(s, []) <==> !KnownRange(s) || KnownEmpty(s)
  {
    hide IntegerConstantValue, Counted;
    var first := SomeValue(s.first, if s.descending then SomeBound(s.last) - 1 else SomeBound(s.last) + 1);
    var last := SomeValue(s.last, if s.descending then first + 1 else first - 1);
    NoValues(s.descending);
    assert Counted(first, last, s.descending) == [] ==> MayCount(s, []);
  }

  /** With both bounds known, that is when the list of the values is empty. */
  lemma KnownBounds(s: Stmt)
    requires s.For?
    ensures var first, last := IntegerConstantValue(s.first), IntegerConstantValue(s.last);
            MayCount(s, []) <==>
            (first.None? || last.None? || Counted(first.value, last.value, s.descending) == [])
  {
    EmptyRange(s);
    hide IntegerConstantValue, Counted;
    NoValues(s.descending);
  }
}

/** Where the checker's graph and the emitted C program part: for each construct, the
    exact condition under which a "not reachable" answer can be trusted, and the
    condition under which a "reachable" answer is real. */
module ReturnPathLimits {
  import opened Ast
  import opened Constants
  import opened Flow
  import opened Completion
  import opened BodyRuns

  /** The checker never misses a way to fall off the end of this body. */
  ghost predicate Trustworthy(body: seq<Stmt>) {
    FallsOff(C, body) ==> FallsOff(Graph, body)
  }

  /** The checker does not reject this body without a run that falls off. */
  ghost predicate NoFalseAlarm(body: seq<Stmt>) {
    FallsOff(Graph, body) ==> FallsOff(C, body)
  }

  /** Both directions, when a body falls off in C and is reported on these conditions. */
  ghost predicate Verdict(body: seq<Stmt>, falls: bool, reported: bool) {
    && (Trustworthy(body) <==> (falls ==> reported))
    && (NoFalseAlarm(body) <==> (reported ==> falls))
  }

  // ----- whole bodies -----

  /** Without labels, both answers are decided by the structural judgement. */
  lemma VerdictExact(body: seq<Stmt>)
    requires NoLabelB(body)
    ensures Verdict(body, OutB(C, body).normal, OutB(Graph, body).normal)
  {
    CompletionExact(C, body);
    CompletionExact(Graph, body);
  }

  lemma {:induction false} NormalAppended(m: Mode, a: seq<Stmt>, b: seq<Stmt>)
    ensures OutB(m, a + b).normal <==> OutB(m, a).normal && OutB(m, b).normal
  {
    if a == [] {
      assert a + b == b;
    } else {
      assert (a + b)[1..] == a[1..] + b;
      NormalAppended(m, a[1..], b);
    }
  }

  lemma Single(m: Mode, s: Stmt)
    ensures OutB(m, [s]) == OutS(m, s)
  {
    assert [s][1..] == [];
    assert OutB(m, []) == Outcome(true, false, false);
  }

  /** Control can get through what stands before and after a statement. */
  predicate Passes(m: Mode, before: seq<Stmt>, after: seq<Stmt>) {
    OutB(m, before).normal && OutB(m, after).normal
  }

  lemma InContext(m: Mode, before: seq<Stmt>, s: Stmt, after: seq<Stmt>)
    requires NoLabelB(before + [s] + after)
    ensures FallsOff(m, before + [s] + after) <==> Passes(m, before, after) && OutS(m, s).normal
  {
    CompletionExact(m, before + [s] + after);
    NormalAppended(m, before + [s], after);
    NormalAppended(m, before, [s]);
    Single(m, s);
  }

  /** Both answers for a body in which one statement stands out. */
  lemma VerdictInContext(before: seq<Stmt>, s: Stmt, after: seq<Stmt>)
    requires NoLabelB(before + [s] + after)
    ensures Verdict(before + [s] + after, Passes(C, before, after) && OutS(C, s).normal,
                    Passes(Graph, before, after) && OutS(Graph, s).normal)
  {
    InContext(C, before, s, after);
    InContext(Graph, before, s, after);
  }

  // ----- loops -----

  /** A Repeat whose count is known to give at least one turn is treated as never ending. */
  lemma RepeatVerdict(before: seq<Stmt>, count: Expr, body: seq<Stmt>, after: seq<Stmt>)
    requires NoLabelB(before + [Repeat(count, body)] + after)
    ensures var whole := before + [Repeat(count, body)] + after;
            var times := IntegerConstantValue(count);
            var runs := times.Some? && TurnsOf(times.value) != [];
            var falls := Passes(C, before, after) && (runs ==> CanLeave(OutB(C, body)));
            var reported := Passes(Graph, before, after) && (runs ==> OutB(Graph, body).breaks);
            Verdict(whole, falls, reported)
  {
    hide *;
    VerdictInContext(before, Repeat(count, body), after);
    RepeatEnds(count, body);
    PositiveTurns(count);
  }

  lemma PositiveTurns(count: Expr)
    ensures KnownPositive(count) <==> IntegerConstantValue(count).Some? && TurnsOf(IntegerConstantValue(count).value) != []
  {
    hide IntegerConstantValue, Counted;
    NoValues(false);
  }

  lemma RepeatEnds(count: Expr, body: seq<Stmt>)
    ensures OutS(C, Repeat(count, body)).normal <==> (KnownPositive(count) ==> CanLeave(OutB(C, body)))
    ensures OutS(Graph, Repeat(count, body)).normal <==> (KnownPositive(count) ==> OutB(Graph, body).breaks)
  {
    hide IntegerConstantValue, OutB;
  }

  /** A For that is known to count through at least one value is treated as never ending. */
  lemma ForVerdict(before: seq<Stmt>, s: Stmt, after: seq<Stmt>)
    requires s.For? && NoLabelB(before + [s] + after)
    ensures var whole := before + [s] + after;
            var first, last := IntegerConstantValue(s.first), IntegerConstantValue(s.last);
            var runs := first.Some? && last.Some? && Counted(first.value, last.value, s.descending) != [];
            var falls := Passes(C, before, after) && (runs ==> CanLeave(OutB(C, s.body)));
            var reported := Passes(Graph, before, after) && (runs ==> OutB(Graph, s.body).breaks);
            Verdict(whole, falls, reported)
  {
    hide *;
    VerdictInContext(before, s, after);
    ForEnds(s);
    KnownBounds(s);
    EmptyRange(s);
  }

  lemma ForEnds(s: Stmt)
    requires s.For?
    ensures OutS(C, s).normal <==> (KnownRange(s) && !KnownEmpty(s) ==> CanLeave(OutB(C, s.body)))
    ensures OutS(Graph, s).normal <==> (KnownRange(s) && !KnownEmpty(s) ==> OutB(Graph, s.body).breaks)
  {
    hide KnownRange, KnownEmpty, OutB;
    assert KnownEmpty(s) ==> KnownRange(s) by { EmptyIsKnown(s); }
  }

  lemma EmptyIsKnown(s: Stmt)
    requires s.For?
    ensures KnownEmpty(s) ==> KnownRange(s)
  {
  }

  /** A test that is a known non-zero constant leaves a While only by Break; the graph asks
      whether a Break stands anywhere in the body. */
  lemma WhileVerdict(before: seq<Stmt>, cond: Expr, body: seq<Stmt>, after: seq<Stmt>)
    requires NoLabelB(before + [While(cond, body)] + after)
    ensures var whole := before + [While(cond, body)] + after;
            var falls := Passes(C, before, after) && (IsConstTruthy(cond) ==> OutB(C, body).breaks);
            var reported := Passes(Graph, before, after)
                            && (IsConstTruthy(cond) ==> BodyHasLevelBreak(body, 0) || OutB(Graph, body).breaks);
            Verdict(whole, falls, reported)
  {
    hide *;
    VerdictInContext(before, While(cond, body), after);
    WhileEnds(cond, body);
  }

  lemma TruthyIsNotZero(cond: Expr)
    ensures IsConstTruthy(cond) ==> !KnownZero(cond)
  {
  }

  lemma WhileEnds(cond: Expr, body: seq<Stmt>)
    ensures OutS(C, While(cond, body)).normal <==> (IsConstTruthy(cond) ==> OutB(C, body).breaks)
    ensures OutS(Graph, While(cond, body)).normal <==>
            (IsConstTruthy(cond) ==> BodyHasLevelBreak(body, 0) || OutB(Graph, body).breaks)
  {
    hide IsConstTruthy, KnownZero, OutB, BodyHasLevelBreak;
    TruthyIsNotZero(cond);
  }

  lemma DoWhileVerdict(before: seq<Stmt>, cond: Expr, body: seq<Stmt>, after: seq<Stmt>)
    requires NoLabelB(before + [DoWhile(cond, body)] + after)
    ensures var whole := before + [DoWhile(cond, body)] + after;
            var c, g := OutB(C, body), OutB(Graph, body);
            var falls := Passes(C, before, after) && (c.breaks || ((c.normal || c.continues) && !IsConstTruthy(cond)));
            var reported := Passes(Graph, before, after)
                            && (g.breaks || ((g.normal || g.continues) && (IsConstTruthy(cond) ==> BodyHasLevelBreak(body, 0))));
            Verdict(whole, falls, reported)
  {
    hide *;
    VerdictInContext(before, DoWhile(cond, body), after);
    DoWhileEnds(cond, body);
  }

  lemma DoWhileEnds(cond: Expr, body: seq<Stmt>)
    ensures var c := OutB(C, body);
            OutS(C, DoWhile(cond, body)).normal <==> c.breaks || ((c.normal || c.continues) && !IsConstTruthy(cond))
    ensures var g := OutB(Graph, body);
            OutS(Graph, DoWhile(cond, body)).normal <==>
            g.breaks || ((g.normal || g.continues) && (IsConstTruthy(cond) ==> BodyHasLevelBreak(body, 0)))
  {
    hide IsConstTruthy, KnownZero, OutB, BodyHasLevelBreak;
    TruthyIsNotZero(cond);
  }

  /** A Break that can be taken is one that the graph's search finds. */
  lemma {:induction false} BreaksAreFoundS(s: Stmt)
    ensures OutS(C, s).breaks ==> HasLevelBreak(s, 0)
    decreases s
  {
    match s
    case If(thenBody, elseBody) =>
      BreaksAreFoundB(thenBody);
      BreaksAreFoundB(elseBody);
    case CompileIf(selected, _) => if selected.Selected? { BreaksAreFoundB(selected.chosen); }
    case _ =>
  }

  lemma {:induction false} BreaksAreFoundB(stmts: seq<Stmt>)
    ensures OutB(C, stmts).breaks ==> BodyHasLevelBreak(stmts, 0)
    decreases stmts
  {
    if stmts != [] {
      BreaksAreFoundS(stmts[0]);
      BreaksAreFoundB(stmts[1..]);
    }
  }

  /** So a While is never missed: only what stands around it can be. */
  lemma WhileIsNeverMissed(before: seq<Stmt>, cond: Expr, body: seq<Stmt>, after: seq<Stmt>)
    requires NoLabelB(before + [While(cond, body)] + after)
    ensures Trustworthy(before + [While(cond, body)] + after) <==>
            (Passes(C, before, after) && (IsConstTruthy(cond) ==> OutB(C, body).breaks) ==> Passes(Graph, before, after))
  {
    WhileVerdict(before, cond, body, after);
    BreaksAreFoundB(body);
  }

  // ----- compile-time conditionals and Switch -----

  /** A compile-time conditional that selects nothing is read as its first branch. */
  lemma CompileIfVerdict(before: seq<Stmt>, thenPart: seq<Stmt>, after: seq<Stmt>)
    requires NoLabelB(before + [CompileIf(Unselected, thenPart)] + after)
    ensures var whole := before + [CompileIf(Unselected, thenPart)] + after;
            var falls := Passes(C, before, after);
            var reported := Passes(Graph, before, after) && OutB(Graph, thenPart).normal;
            Verdict(whole, falls, reported)
  {
    hide FallsOff, NoLabelB;
    VerdictInContext(before, CompileIf(Unselected, thenPart), after);
  }

  predicate SomeBreaks(m: Mode, cases: seq<Clause>) {
    exists i :: 0 <= i < |cases| && OutB(m, cases[i].body).breaks
  }

  /** The last clause can be left at its end. */
  predicate LastEnds(m: Mode, cases: seq<Clause>) {
    cases != [] && OutB(m, cases[|cases| - 1].body).normal
  }

  predicate LastBreaks(m: Mode, cases: seq<Clause>) {
    cases != [] && OutB(m, cases[|cases| - 1].body).breaks
  }

  /** In C a Break of any clause leaves the Switch, in the graph that of the last. */
  lemma {:induction false} ClausesEnd(m: Mode, cases: seq<Clause>)
    ensures OutC(m, cases).normal <==> LastEnds(m, cases) || (if m.C? then SomeBreaks(m, cases) else LastBreaks(m, cases))
  {
    if cases != [] {
      var rest := cases[1..];
      ClausesEnd(m, rest);
      assert SomeBreaks(m, cases) <==> OutB(m, cases[0].body).breaks || SomeBreaks(m, rest) by {
        if SomeBreaks(m, cases) && !OutB(m, cases[0].body).breaks {
          var i :| 0 <= i < |cases| && OutB(m, cases[i].body).breaks;
          assert rest[i - 1] == cases[i];
        }
        if SomeBreaks(m, rest) {
          var i :| 0 <= i < |rest| && OutB(m, rest[i].body).breaks;
          assert cases[i + 1] == rest[i];
        }
      }
      assert rest != [] ==> rest[|rest| - 1] == cases[|cases| - 1];
    }
  }

  /** A Break in a Switch goes to the next clause instead of the end. */
  lemma SwitchVerdict(before: seq<Stmt>, cases: seq<Clause>, after: seq<Stmt>)
    requires NoLabelB(before + [Switch(cases)] + after)
    ensures var whole := before + [Switch(cases)] + after;
            var falls := Passes(C, before, after) && (HasDefault(cases) ==> LastEnds(C, cases) || SomeBreaks(C, cases));
            var reported := Passes(Graph, before, after)
                            && (HasDefault(cases) ==> LastEnds(Graph, cases) || LastBreaks(Graph, cases));
            Verdict(whole, falls, reported)
  {
    hide FallsOff, NoLabelB, OutB, OutC, SomeBreaks, LastEnds, LastBreaks;
    VerdictInContext(before, Switch(cases), after);
    ClausesEnd(C, cases);
    ClausesEnd(Graph, cases);
  }

  // ----- loops that always return and are reported -----

  /** A Break that no run reaches still opens an exit edge. */
  lemma UnreachableBreakIsReported(cond: Expr)
    ensures var body := [While(cond, [Return, Break])];
            FallsOff(Graph, body) && (FallsOff(C, body) <==> !IsConstTruthy(cond))
  {
    hide IsConstTruthy, FallsOff;
    var s := While(cond, [Return, Break]);
    WhileEnds(cond, s.body);
    assert s.body[1..] == [Break];
    Single(C, Break);
    Single(Graph, Break);
    assert BodyHasLevelBreak(s.body, 0) by {
      assert HasLevelBreak(s.body[1..][0], 0);
    }
    AloneVerdict(s);
    assert OutB(C, s.body) == OutS(C, Return);
  }

  /** So does one in a compile-time conditional that selects nothing. */
  lemma UnselectedBreakIsReported(cond: Expr)
    ensures var body := [While(cond, [CompileIf(Unselected, [Break])])];
            FallsOff(Graph, body) && (FallsOff(C, body) <==> !IsConstTruthy(cond))
  {
    hide IsConstTruthy, FallsOff;
    var inner := CompileIf(Unselected, [Break]);
    WhileEnds(cond, [inner]);
    Single(C, inner);
    Single(Graph, inner);
    Single(Graph, Break);
    assert NoLabelB([Break]) && NoLabelB([inner]) by {
      assert [Break][1..] == [] && [inner][1..] == [];
    }
    AloneVerdict(While(cond, [inner]));
  }

  lemma AloneVerdict(s: Stmt)
    requires NoLabelS(s)
    ensures FallsOff(C, [s]) <==> OutS(C, s).normal
    ensures FallsOff(Graph, [s]) <==> OutS(Graph, s).normal
  {
    assert [s][1..] == [];
    Single(C, s);
    Single(Graph, s);
    CompletionExact(C, [s]);
    CompletionExact(Graph, [s]);
  }

  // ----- Continue and Go to -----

  lemma Confined(m: Mode, body: seq<Stmt>, places: set<Place>)
    requires Start(m, body) in places && FuncEnd !in places
    requires forall p, q :: p in places && q in Succs(m, LabelsOf(m, body), p) ==> q in places
    ensures !FallsOff(m, body)
  {
    if FallsOff(m, body) {
      var path :| IsRun(m, body, path) && path[|path| - 1] == FuncEnd;
      var i := 0;
      while i < |path| - 1
        invariant 0 <= i < |path| && path[i] in places
      {
        assert path[i + 1] in Succs(m, LabelsOf(m, body), path[i]);
        i := i + 1;
      }
    }
  }

  lemma EnterFirst(m: Mode, s: Stmt, rest: seq<Stmt>, k: Kont)
    requires !s.CompileIf?
    ensures Enter(m, [s] + rest, k) == At(s, Seq(rest, k))
    ensures LabelsOfBlock(m, [s] + rest, k) ==
            LabelsOfBlock(m, rest, k) + LabelsOfStmt(m, s, Seq(rest, k))
  {
    assert ([s] + rest)[1..] == rest;
  }

  /** Continue bound to a Repeat has no edge to that Repeat; a Go to into the loop shows it. */
  lemma RepeatContinueIsLost(count: Expr)
    requires IntegerConstantValue(count).None?
    ensures !Trustworthy([Goto("inside"), Repeat(count, [Label("inside"), Continue])])
  {
    var loop := Repeat(count, [Label("inside"), Continue]);
    LostInGraph(loop);
    TakenInC(loop);
  }

  lemma LostInGraph(loop: Stmt)
    requires loop.Repeat? && loop.body == [Label("inside"), Continue]
    ensures !FallsOff(Graph, [Goto("inside"), loop])
  {
    var body := [Goto("inside"), loop];
    var inLoop := Loop(loop, Seq([], End));
    var labelled := At(Label("inside"), Seq([Continue], inLoop));
    var next := At(Continue, Seq([], inLoop));
    JumpInside(Graph, loop);
    assert ContinueTarget(Graph, Seq([], End)).None?;
    assert ContinueTarget(Graph, inLoop).None?;
    assert Succs(Graph, LabelsOf(Graph, body), next) == [];
    Confined(Graph, body, {Start(Graph, body), labelled, next});
  }

  lemma TakenInC(loop: Stmt)
    requires loop.Repeat? && loop.body == [Label("inside"), Continue]
    ensures FallsOff(C, [Goto("inside"), loop])
  {
    var body := [Goto("inside"), loop];
    var inLoop := Loop(loop, Seq([], End));
    var labelled := At(Label("inside"), Seq([Continue], inLoop));
    var next := At(Continue, Seq([], inLoop));
    var test := Again(loop, Seq([], End));
    JumpInside(C, loop);
    assert ContinueTarget(C, inLoop).Some? && ContinueTarget(C, inLoop).value == inLoop;
    assert ContinueTarget(C, Seq([], inLoop)) == ContinueTarget(C, inLoop);
    assert Succs(C, LabelsOf(C, body), next) == [test];
    assert Enter(C, [], End) == FuncEnd && Resume(C, Seq([], End)) == FuncEnd;
    assert FuncEnd in Succs(C, LabelsOf(C, body), test);
    assert IsRun(C, body, [Start(C, body), labelled, next, test, FuncEnd]);
  }

  lemma LabelInside(m: Mode, loop: Stmt)
    requires loop.Repeat? && loop.body == [Label("inside"), Continue]
    ensures var labels := LabelsOf(m, [Goto("inside"), loop]);
            "inside" in labels && labels["inside"] == At(Label("inside"), Seq([Continue], Loop(loop, Seq([], End))))
  {
    var inLoop := Loop(loop, Seq([], End));
    EnterFirst(m, Goto("inside"), [loop], End);
    EnterFirst(m, loop, [], End);
    EnterFirst(m, Label("inside"), [Continue], inLoop);
    assert [Goto("inside"), loop] == [Goto("inside")] + [loop] && [loop] == [loop] + [];
    assert loop.body == [Label("inside")] + [Continue];
  }

  lemma JumpInside(m: Mode, loop: Stmt)
    requires loop.Repeat? && loop.body == [Label("inside"), Continue]
    ensures var body := [Goto("inside"), loop];
            var inLoop := Loop(loop, Seq([], End));
            var labelled := At(Label("inside"), Seq([Continue], inLoop));
            && Start(m, body) == At(Goto("inside"), Seq([loop], End))
            && Succs(m, LabelsOf(m, body), Start(m, body)) == [labelled]
            && Succs(m, LabelsOf(m, body), labelled) == [At(Continue, Seq([], inLoop))]
  {
    hide LabelsOf, LabelsOfBlock, LabelsOfStmt;
    var inLoop := Loop(loop, Seq([], End));
    LabelInside(m, loop);
    EnterFirst(m, Goto("inside"), [loop], End);
    EnterFirst(m, Continue, [], inLoop);
    assert [Goto("inside"), loop] == [Goto("inside")] + [loop] && [Continue] == [Continue] + [];
    assert Resume(m, Seq([Continue], inLoop)) == Enter(m, [Continue], inLoop);
  }
}

/** A structural judgement, "this body can complete normally", computed statement by
    statement, and its equivalence with reachability for bodies without labels. */
module Completion {
  import opened Options
  import opened Primitives
  import opened Ast
  import opened Constants
  import opened Flow

  /** The ways control can leave a statement: falling out of it, or by a Break or a
      Continue bound outside it. */
  datatype Outcome = Outcome(normal: bool, breaks: bool, continues: bool)

  function Union(a: Outcome, b: Outcome): Outcome {
    Outcome(a.normal || b.normal, a.breaks || b.breaks, a.continues || b.continues)
  }

  /** Any of the ways out. */
  predicate CanLeave(o: Outcome) {
    o.normal || o.breaks || o.continues
  }

  /** An iteration of s can end, given the outcome of its body. */
  predicate EndsIteration(m: Mode, s: Stmt, inner: Outcome)
    requires IsLoop(s)
  {
    Iterates(m, s, true) && (inner.normal || (inner.continues && !(m.Graph? && s.Repeat?)))
  }

  function OutLoop(m: Mode, s: Stmt, inner: Outcome): Outcome
    requires IsLoop(s)
  {
    var enters := Iterates(m, s, true);
    Outcome(Leaves(m, s, true) || (enters && inner.breaks) || (EndsIteration(m, s, inner) && Leaves(m, s, false)),
            false,
            enters && inner.continues && m.Graph? && s.Repeat?)
  }

  function OutS(m: Mode, s: Stmt): Outcome {
    match s
    case Break => Outcome(false, true, false)
    case Continue => Outcome(false, false, true)
    case Plain => Outcome(true, false, false)
    case Label(_) => Outcome(true, false, false)
    case If(thenBody, elseBody) => Union(OutB(m, thenBody), OutB(m, elseBody))
    case CompileIf(selected, thenPart) =>
      if selected.Selected? then OutB(m, selected.chosen)
      else if m.Graph? then OutB(m, thenPart)
      else Outcome(true, false, false)
    case Switch(cases) =>
      var inner := OutC(m, cases);
      Outcome(!HasDefault(cases) || inner.normal, false, inner.continues)
    case Repeat(_, body) => OutLoop(m, s, OutB(m, body))
    case While(_, body) => OutLoop(m, s, OutB(m, body))
    case DoWhile(_, body) => OutLoop(m, s, OutB(m, body))
    case For(_, _, _, body) => OutLoop(m, s, OutB(m, body))
    case ForEach(body) => OutLoop(m, s, OutB(m, body))
    case _ => Outcome(false, false, false)
  }

  function OutB(m: Mode, stmts: seq<Stmt>): Outcome {
    if stmts == [] then Outcome(true, false, false)
    else
      var first := OutS(m, stmts[0]);
      var rest := OutB(m, stmts[1..]);
      if first.normal then Outcome(rest.normal, first.breaks || rest.breaks, first.continues || rest.continues)
      else first
  }

  /** The clauses of a Switch together: every clause can be entered. */
  function OutC(m: Mode, cases: seq<Clause>): Outcome {
    if cases == [] then Outcome(false, false, false)
    else
      var first := OutB(m, cases[0].body);
      var rest := OutC(m, cases[1..]);
      var last := |cases| == 1;
      Outcome((last && first.normal) || (first.breaks && (last || m.C?)) || rest.normal,
              false,
              first.continues || rest.continues)
  }

  // ----- bodies without labels -----

  predicate NoLabelS(s: Stmt) {
    match s
    case Label(_) => false
    case If(thenBody, elseBody) => NoLabelB(thenBody) && NoLabelB(elseBody)
    case CompileIf(selected, thenPart) =>
      NoLabelB(thenPart) && (selected.Selected? ==> NoLabelB(selected.chosen))
    case Switch(cases) => NoLabelC(cases)
    case Repeat(_, body) => NoLabelB(body)
    case While(_, body) => NoLabelB(body)
    case DoWhile(_, body) => NoLabelB(body)
    case For(_, _, _, body) => NoLabelB(body)
    case ForEach(body) => NoLabelB(body)
    case _ => true
  }

  predicate NoLabelB(stmts: seq<Stmt>) {
    stmts == [] || (NoLabelS(stmts[0]) && NoLabelB(stmts[1..]))
  }

  predicate NoLabelC(cases: seq<Clause>) {
    cases == [] || (NoLabelB(cases[0].body) && NoLabelC(cases[1..]))
  }

  lemma {:induction false} NoLabelsB(m: Mode, stmts: seq<Stmt>, k: Kont)
    requires NoLabelB(stmts)
    ensures LabelsOfBlock(m, stmts, k) == map[]
    decreases stmts
  {
    if stmts != [] {
      NoLabelsB(m, stmts[1..], k);
      NoLabelsS(m, stmts[0], Seq(stmts[1..], k));
    }
  }

  lemma {:induction false} NoLabelsS(m: Mode, s: Stmt, k: Kont)
    requires NoLabelS(s)
    ensures LabelsOfStmt(m, s, k) == map[]
    decreases s
  {
    match s
    case If(thenBody, elseBody) => NoLabelsB(m, thenBody, k); NoLabelsB(m, elseBody, k);
    case CompileIf(selected, thenPart) =>
      NoLabelsB(m, thenPart, k);
      if selected.Selected? { NoLabelsB(m, selected.chosen, k); }
    case Switch(cases) => NoLabelsC(m, cases, k);
    case Repeat(_, body) => NoLabelsB(m, body, Loop(s, k));
    case While(_, body) => NoLabelsB(m, body, Loop(s, k));
    case DoWhile(_, body) => NoLabelsB(m, body, Loop(s, k));
    case For(_, _, _, body) => NoLabelsB(m, body, Loop(s, k));
    case ForEach(body) => NoLabelsB(m, body, Loop(s, k));
    case _ =>
  }

  lemma {:induction false} NoLabelsC(m: Mode, cases: seq<Clause>, k: Kont)
    requires NoLabelC(cases)
    ensures LabelsOfClauses(m, cases, k) == map[]
    decreases cases
  {
    if cases != [] {
      NoLabelsC(m, cases[1..], k);
      NoLabelsB(m, cases[0].body, Fall(cases[1..], k));
    }
  }

  // ----- what the judgement allows can happen -----

  ghost predicate Reaches(m: Mode, p: Place, q: Place) {
    exists path :: IsPath(m, map[], path) && path[0] == p && path[|path| - 1] == q
  }

  lemma ReachesSelf(m: Mode, p: Place)
    ensures Reaches(m, p, p)
  {
    assert IsPath(m, map[], [p]);
  }

  lemma ReachesStep(m: Mode, p: Place, q: Place, r: Place)
    requires q in Succs(m, map[], p) && Reaches(m, q, r)
    ensures Reaches(m, p, r)
  {
    hide Succs;
    var path :| IsPath(m, map[], path) && path[0] == q && path[|path| - 1] == r;
    PathCons(m, map[], p, path);
    assert ([p] + path)[|[p] + path| - 1] == r;
  }

  lemma {:induction false} ReachesTrans(m: Mode, p: Place, q: Place, r: Place)
    requires Reaches(m, p, q) && Reaches(m, q, r)
    ensures Reaches(m, p, r)
  {
    var path :| IsPath(m, map[], path) && path[0] == p && path[|path| - 1] == q;
    ReachesAlong(m, path, r);
  }

  lemma {:induction false} ReachesAlong(m: Mode, path: seq<Place>, r: Place)
    requires IsPath(m, map[], path) && Reaches(m, path[|path| - 1], r)
    ensures Reaches(m, path[0], r)
    decreases |path|
  {
    if |path| > 1 {
      PathTail(m, map[], path);
      ReachesAlong(m, path[1..], r);
      ReachesStep(m, path[0], path[1], r);
    }
  }

  ghost predicate ReachesKont(m: Mode, p: Place, target: Option<Kont>) {
    target.Some? ==> Reaches(m, p, Resume(m, target.value))
  }

  /** Each exit that outcome o allows can be taken from p. */
  ghost predicate Achieves(m: Mode, p: Place, k: Kont, o: Outcome) {
    && (o.normal ==> Reaches(m, p, Resume(m, k)))
    && (o.breaks ==> ReachesKont(m, p, BreakTarget(m, k)))
    && (o.continues ==> ReachesKont(m, p, ContinueTarget(m, k)))
  }

  lemma AchievesVia(m: Mode, p: Place, q: Place, k: Kont, o: Outcome)
    requires Reaches(m, p, q) && Achieves(m, q, k, o)
    ensures Achieves(m, p, k, o)
  {
    if o.normal { ReachesTrans(m, p, q, Resume(m, k)); }
    if o.breaks && BreakTarget(m, k).Some? { ReachesTrans(m, p, q, Resume(m, BreakTarget(m, k).value)); }
    if o.continues && ContinueTarget(m, k).Some? { ReachesTrans(m, p, q, Resume(m, ContinueTarget(m, k).value)); }
  }

  lemma OneStep(m: Mode, p: Place, q: Place)
    requires q in Succs(m, map[], p)
    ensures Reaches(m, p, q)
  {
    ReachesSelf(m, q);
    ReachesStep(m, p, q, q);
  }

  lemma {:induction false} AchievableB(m: Mode, stmts: seq<Stmt>, k: Kont)
    ensures Achieves(m, Enter(m, stmts, k), k, OutB(m, stmts))
    decreases stmts, 1
  {
    var p := Enter(m, stmts, k);
    if stmts == [] {
      ReachesSelf(m, p);
    } else {
      var rest := stmts[1..];
      AchievableS(m, stmts[0], Seq(rest, k));
      AchievableB(m, rest, k);
      if OutS(m, stmts[0]).normal {
        AchievesVia(m, p, Enter(m, rest, k), k, OutB(m, rest));
      }
    }
  }

  lemma {:induction false} AchievableS(m: Mode, s: Stmt, k: Kont)
    ensures Achieves(m, EnterStmt(m, s, k), k, OutS(m, s))
    decreases s, 1
  {
    var p := EnterStmt(m, s, k);
    if IsLoop(s) {
      AchievableLoop(m, s, k);
    } else if s.CompileIf? {
      if s.selected.Selected? {
        AchievableB(m, s.selected.chosen, k);
      } else if m.Graph? {
        AchievableB(m, s.thenPart, k);
      } else {
        assert Enter(m, [], k) == Resume(m, k);
        ReachesSelf(m, p);
      }
    } else if s.Switch? {
      AchievableSwitch(m, s, k);
    } else if s.If? {
      AchievableB(m, s.thenBody, k);
      AchievableB(m, s.elseBody, k);
      OneStep(m, p, Enter(m, s.thenBody, k));
      OneStep(m, p, Enter(m, s.elseBody, k));
      AchievesVia(m, p, Enter(m, s.thenBody, k), k, OutB(m, s.thenBody));
      AchievesVia(m, p, Enter(m, s.elseBody, k), k, OutB(m, s.elseBody));
    } else {
      forall q | q in Succs(m, map[], p) ensures Reaches(m, p, q) { OneStep(m, p, q); }
      if s.Break? && BreakTarget(m, k).Some? {
        assert Resume(m, BreakTarget(m, k).value) in Succs(m, map[], p);
      }
      if s.Continue? && ContinueTarget(m, k).Some? {
        assert Resume(m, ContinueTarget(m, k).value) in Succs(m, map[], p);
      }
      if s.Plain? || s.Label? {
        assert Resume(m, k) in Succs(m, map[], p);
      }
    }
  }

  lemma {:induction false} AchievableLoop(m: Mode, s: Stmt, k: Kont)
    requires IsLoop(s)
    ensures Achieves(m, At(s, k), k, OutLoop(m, s, OutB(m, s.body)))
    decreases s, 0
  {
    var p, inner := At(s, k), OutB(m, s.body);
    var entry := Enter(m, s.body, Loop(s, k));
    AchievableB(m, s.body, Loop(s, k));
    if Leaves(m, s, true) {
      assert Resume(m, k) in Succs(m, map[], p);
      OneStep(m, p, Resume(m, k));
    }
    if Iterates(m, s, true) {
      assert entry in Succs(m, map[], p);
      OneStep(m, p, entry);
      AchievesVia(m, p, entry, Loop(s, k), inner);
      if EndsIteration(m, s, inner) && Leaves(m, s, false) {
        assert Resume(m, k) in Succs(m, map[], Again(s, k));
        OneStep(m, Again(s, k), Resume(m, k));
        ReachesTrans(m, p, Again(s, k), Resume(m, k));
      }
    }
  }

  lemma {:induction false} AchievableSwitch(m: Mode, s: Stmt, k: Kont)
    requires s.Switch?
    ensures Achieves(m, At(s, k), k, OutS(m, s))
    decreases s, 0
  {
    var p := At(s, k);
    if !HasDefault(s.cases) {
      assert Resume(m, k) in Succs(m, map[], p);
      OneStep(m, p, Resume(m, k));
    }
    assert forall q :: q in ClauseEntries(m, s.cases, k) ==> q in Succs(m, map[], p);
    AchievableC(m, s.cases, p, k);
  }

  /** From a head with an edge to every clause, the clauses' exits can be taken. */
  lemma {:induction false} AchievableC(m: Mode, cases: seq<Clause>, head: Place, k: Kont)
    requires forall q :: q in ClauseEntries(m, cases, k) ==> q in Succs(m, map[], head)
    ensures Achieves(m, head, k, OutC(m, cases))
    decreases cases, 0
  {
    if cases != [] {
      var rest := cases[1..];
      assert ClauseEntries(m, cases, k) == [EnterClauses(m, cases, k)] + ClauseEntries(m, rest, k);
      assert forall q :: q in ClauseEntries(m, rest, k) ==> q in ClauseEntries(m, cases, k);
      hide Reaches, OutB, OutC, Achieves;
      AchievableC(m, rest, head, k);
      var entry := EnterClauses(m, cases, k);
      assert entry in ClauseEntries(m, cases, k);
      OneStep(m, head, entry);
      var inside := Fall(rest, k);
      AchievableB(m, cases[0].body, inside);
      AchievesVia(m, head, entry, inside, OutB(m, cases[0].body));
      ClauseAdds(m, cases, head, k);
    }
  }

  lemma ClauseAdds(m: Mode, cases: seq<Clause>, head: Place, k: Kont)
    requires cases != [] && Achieves(m, head, Fall(cases[1..], k), OutB(m, cases[0].body))
    requires Achieves(m, head, k, OutC(m, cases[1..]))
    ensures Achieves(m, head, k, OutC(m, cases))
  {
    hide Reaches, OutB;
    if |cases| == 1 {
      assert Resume(m, Fall(cases[1..], k)) == Resume(m, k);
    }
  }

  // ----- what happens is allowed by the judgement -----

  ghost predicate IsExit(m: Mode, p: Place, k: Kont, o: Outcome) {
    || (o.normal && p == Resume(m, k))
    || (o.breaks && BreakTarget(m, k).Some? && p == Resume(m, BreakTarget(m, k).value))
    || (o.continues && ContinueTarget(m, k).Some? && p == Resume(m, ContinueTarget(m, k).value))
  }

  /** A path that gets to the end. */
  ghost predicate Finishes(m: Mode, path: seq<Place>) {
    IsPath(m, map[], path) && path[|path| - 1] == FuncEnd
  }

  lemma FinishesFrom(m: Mode, path: seq<Place>, i: nat)
    requires Finishes(m, path) && i < |path|
    ensures Finishes(m, path[i..])
  {
    forall j | 0 <= j < |path[i..]| - 1 ensures path[i..][j + 1] in Succs(m, map[], path[i..][j]) {
      assert path[i + j + 1] in Succs(m, map[], path[i + j]);
    }
  }

  /** A finishing path that enters a block leaves it by one of the block's exits. */
  lemma {:induction false} LeavesB(m: Mode, stmts: seq<Stmt>, k: Kont, path: seq<Place>) returns (i: nat)
    requires Finishes(m, path) && path[0] == Enter(m, stmts, k)
    ensures i < |path| && IsExit(m, path[i], k, OutB(m, stmts))
    decreases |path|, stmts, 1
  {
    if stmts == [] {
      i := 0;
    } else {
      var rest := stmts[1..];
      i := LeavesS(m, stmts[0], Seq(rest, k), path);
      if OutS(m, stmts[0]).normal && path[i] == Enter(m, rest, k) {
        FinishesFrom(m, path, i);
        var j := LeavesB(m, rest, k, path[i..]);
        i := i + j;
      }
    }
  }

  lemma {:induction false} LeavesS(m: Mode, s: Stmt, k: Kont, path: seq<Place>) returns (i: nat)
    requires Finishes(m, path) && path[0] == EnterStmt(m, s, k)
    ensures i < |path| && IsExit(m, path[i], k, OutS(m, s))
    decreases |path|, s, 1
  {
    if s.CompileIf? {
      if s.selected.Selected? {
        i := LeavesB(m, s.selected.chosen, k, path);
      } else if m.Graph? {
        i := LeavesB(m, s.thenPart, k, path);
      } else {
        assert Enter(m, [], k) == Resume(m, k);
        i := 0;
      }
    } else {
      assert |path| > 1;
      assert path[0 + 1] in Succs(m, map[], path[0]);
      FinishesFrom(m, path, 1);
      if IsLoop(s) {
        i := LeavesLoop(m, s, k, path, true);
      } else if s.If? {
        if path[1] == Enter(m, s.thenBody, k) {
          i := LeavesB(m, s.thenBody, k, path[1..]);
        } else {
          i := LeavesB(m, s.elseBody, k, path[1..]);
        }
        i := i + 1;
      } else if s.Switch? {
        if path[1] in ClauseEntries(m, s.cases, k) {
          i := LeavesC(m, s.cases, k, path[1..]);
          i := i + 1;
        } else {
          i := 1;
        }
      } else {
        i := 1;
      }
    }
  }

  /** The first step of a loop: out of it, back to its head, or into its body. */
  lemma LoopStep(m: Mode, s: Stmt, k: Kont, initial: bool, q: Place)
    requires IsLoop(s) && (!initial ==> Iterates(m, s, true)) && q in Succs(m, map[], if initial then At(s, k) else Again(s, k))
    ensures || (Leaves(m, s, initial) && q == Resume(m, k))
            || (s.DoWhile? && !initial && q == At(s, k))
            || (Iterates(m, s, true) && q == Enter(m, s.body, Loop(s, k)))
  {
  }

  /** A way out of the body leaves the loop or ends an iteration. */
  lemma BodyExit(m: Mode, s: Stmt, k: Kont, q: Place, inner: Outcome)
    requires IsLoop(s) && Iterates(m, s, true) && IsExit(m, q, Loop(s, k), inner)
    ensures IsExit(m, q, k, OutLoop(m, s, inner)) || (q == Again(s, k) && EndsIteration(m, s, inner))
  {
  }

  lemma LoopLeft(m: Mode, s: Stmt, k: Kont, initial: bool, inner: Outcome)
    requires IsLoop(s) && Leaves(m, s, initial) && (!initial ==> EndsIteration(m, s, inner))
    ensures IsExit(m, Resume(m, k), k, OutLoop(m, s, inner))
  {
  }

  lemma {:induction false} LeavesLoop(m: Mode, s: Stmt, k: Kont, path: seq<Place>, initial: bool) returns (i: nat)
    requires IsLoop(s) && Finishes(m, path)
    requires path[0] == if initial then At(s, k) else Again(s, k)
    requires !initial ==> EndsIteration(m, s, OutB(m, s.body))
    ensures i < |path| && IsExit(m, path[i], k, OutLoop(m, s, OutB(m, s.body)))
    decreases |path|, s, 0
  {
    assert |path| > 1;
    assert path[0 + 1] in Succs(m, map[], path[0]);
    FinishesFrom(m, path, 1);
    hide Succs, Finishes, IsExit, OutB, OutLoop, Leaves, Iterates, Enter, Resume;
    LoopStep(m, s, k, initial, path[1]);
    if Leaves(m, s, initial) && path[1] == Resume(m, k) {
      i := 1;
      LoopLeft(m, s, k, initial, OutB(m, s.body));
    } else if s.DoWhile? && !initial && path[1] == At(s, k) {
      var j := LeavesLoop(m, s, k, path[1..], true);
      i := j + 1;
    } else {
      var j := LeavesB(m, s.body, Loop(s, k), path[1..]);
      i := j + 1;
      BodyExit(m, s, k, path[i], OutB(m, s.body));
      if path[i] == Again(s, k) && EndsIteration(m, s, OutB(m, s.body)) {
        FinishesFrom(m, path, i);
        j := LeavesLoop(m, s, k, path[i..], false);
        i := i + j;
      }
    }
  }

  lemma {:induction false} LeavesC(m: Mode, cases: seq<Clause>, k: Kont, path: seq<Place>) returns (i: nat)
    requires Finishes(m, path) && path[0] in ClauseEntries(m, cases, k)
    ensures i < |path|
    ensures IsExit(m, path[i], k, Outcome(OutC(m, cases).normal, false, OutC(m, cases).continues))
    decreases |path|, cases, 1
  {
    var rest := cases[1..];
    if path[0] == EnterClauses(m, cases, k) {
      var first := OutB(m, cases[0].body);
      i := LeavesB(m, cases[0].body, Fall(rest, k), path);
      if rest != [] && path[i] == EnterClauses(m, rest, k) && (first.normal || (m.Graph? && first.breaks)) {
        FinishesFrom(m, path, i);
        var j := LeavesC(m, rest, k, path[i..]);
        i := i + j;
      }
    } else {
      i := LeavesC(m, rest, k, path);
    }
  }

  /** A body without labels can fall off its end exactly when the judgement says it
      completes normally. */
  lemma CompletionExact(m: Mode, body: seq<Stmt>)
    requires NoLabelB(body)
    ensures FallsOff(m, body) <==> OutB(m, body).normal
  {
    NoLabelsB(m, body, End);
    if OutB(m, body).normal {
      AchievableB(m, body, End);
      var path :| IsPath(m, map[], path) && path[0] == Start(m, body) && path[|path| - 1] == FuncEnd;
      assert IsRun(m, body, path);
    }
    if FallsOff(m, body) {
      var path :| IsRun(m, body, path) && path[|path| - 1] == FuncEnd;
      var i := LeavesB(m, body, End, path);
    }
  }
}

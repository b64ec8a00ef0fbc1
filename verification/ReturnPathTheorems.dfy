/** How the graph's step relation compares with the emitted C program: the bodies on
    which the checker's answer can be trusted, and where it cannot. */
module ReturnPathTheorems {
  import opened Ast
  import opened Constants
  import opened Flow

  // ----- bodies whose graph has an edge for every C step -----

  /** `brk`: a Break here is bound to a loop or to the last clause of a Switch.
      `ctn`: a Continue here is bound to a loop other than Repeat. */
  predicate FaithfulS(s: Stmt, brk: bool, ctn: bool) {
    match s
    case Break => brk
    case Continue => ctn
    case If(thenBody, elseBody) => FaithfulB(thenBody, brk, ctn) && FaithfulB(elseBody, brk, ctn)
    case CompileIf(selected, _) => selected.Selected? && FaithfulB(selected.chosen, brk, ctn)
    case Switch(cases) => FaithfulC(cases, ctn)
    case Repeat(count, body) => !KnownPositive(count) && FaithfulB(body, true, false)
    case While(_, body) => FaithfulB(body, true, true)
    case DoWhile(_, body) => FaithfulB(body, true, true)
    case For(_, _, _, body) => (KnownRange(s) ==> KnownEmpty(s)) && FaithfulB(body, true, true)
    case ForEach(body) => FaithfulB(body, true, true)
    case _ => true
  }

  predicate FaithfulB(stmts: seq<Stmt>, brk: bool, ctn: bool) {
    stmts == [] || (FaithfulS(stmts[0], brk, ctn) && FaithfulB(stmts[1..], brk, ctn))
  }

  predicate FaithfulC(cases: seq<Clause>, ctn: bool) {
    cases == [] || (FaithfulB(cases[0].body, |cases| == 1, ctn) && FaithfulC(cases[1..], ctn))
  }

  predicate Faithful(body: seq<Stmt>) {
    FaithfulB(body, true, true)
  }

  predicate BreakOk(k: Kont) {
    match k
    case Seq(_, next) => BreakOk(next)
    case Fall(following, _) => following == []
    case _ => true
  }

  predicate ContinueOk(k: Kont) {
    match k
    case End => true
    case Seq(_, next) => ContinueOk(next)
    case Loop(loop, _) => !loop.Repeat?
    case Fall(_, next) => ContinueOk(next)
  }

  predicate FaithfulK(k: Kont) {
    match k
    case End => true
    case Seq(rest, next) => FaithfulB(rest, BreakOk(next), ContinueOk(next)) && FaithfulK(next)
    case Loop(loop, next) =>
      IsLoop(loop) && FaithfulS(loop, BreakOk(next), ContinueOk(next)) && FaithfulK(next)
    case Fall(following, next) => FaithfulC(following, ContinueOk(next)) && FaithfulK(next)
  }

  predicate FaithfulPlace(p: Place) {
    match p
    case FuncEnd => true
    case At(s, k) => FaithfulS(s, BreakOk(k), ContinueOk(k)) && FaithfulK(k)
    case Again(s, k) => IsLoop(s) && FaithfulS(s, BreakOk(k), ContinueOk(k)) && FaithfulK(k)
  }

  lemma {:induction false} ResumeAgrees(k: Kont)
    requires FaithfulK(k)
    ensures Resume(C, k) == Resume(Graph, k) && FaithfulPlace(Resume(C, k))
    decreases KontWeight(k), 0
  {
    match k
    case End =>
    case Seq(rest, next) => EnterAgrees(rest, next);
    case Loop(_, _) =>
    case Fall(following, next) => EnterClausesAgrees(following, next);
  }

  lemma {:induction false} EnterAgrees(stmts: seq<Stmt>, k: Kont)
    requires FaithfulB(stmts, BreakOk(k), ContinueOk(k)) && FaithfulK(k)
    ensures Enter(C, stmts, k) == Enter(Graph, stmts, k) && FaithfulPlace(Enter(C, stmts, k))
    decreases BlockWeight(stmts) + KontWeight(k), 1
  {
    if stmts == [] {
      ResumeAgrees(k);
    } else if stmts[0].CompileIf? {
      assert BlockWeight(stmts) >= 3 + BlockWeight(stmts[0].selected.chosen) + BlockWeight(stmts[1..]);
      EnterAgrees(stmts[0].selected.chosen, Seq(stmts[1..], k));
    }
  }

  lemma {:induction false} EnterClausesAgrees(cases: seq<Clause>, k: Kont)
    requires FaithfulC(cases, ContinueOk(k)) && FaithfulK(k)
    ensures EnterClauses(C, cases, k) == EnterClauses(Graph, cases, k)
    ensures FaithfulPlace(EnterClauses(C, cases, k))
    decreases ClausesWeight(cases) + KontWeight(k), 1
  {
    if cases == [] {
      ResumeAgrees(k);
    } else {
      EnterAgrees(cases[0].body, Fall(cases[1..], k));
    }
  }

  lemma {:induction false} ClauseEntriesAgree(cases: seq<Clause>, k: Kont)
    requires FaithfulC(cases, ContinueOk(k)) && FaithfulK(k)
    ensures ClauseEntries(C, cases, k) == ClauseEntries(Graph, cases, k)
    ensures forall p :: p in ClauseEntries(C, cases, k) ==> FaithfulPlace(p)
  {
    if cases != [] {
      EnterClausesAgrees(cases, k);
      ClauseEntriesAgree(cases[1..], k);
    }
  }

  lemma {:induction false} BreakAgrees(k: Kont)
    requires FaithfulK(k) && BreakOk(k)
    ensures JumpTo(C, BreakTarget(C, k)) == JumpTo(Graph, BreakTarget(Graph, k))
    ensures BreakTarget(C, k).Some? ==> FaithfulPlace(Resume(C, BreakTarget(C, k).value))
  {
    match k
    case End =>
    case Seq(_, next) => BreakAgrees(next);
    case Loop(_, next) => ResumeAgrees(next);
    case Fall(following, next) =>
      ResumeAgrees(next);
      assert Resume(Graph, k) == EnterClauses(Graph, [], next);
  }

  lemma {:induction false} ContinueAgrees(k: Kont)
    requires FaithfulK(k) && ContinueOk(k)
    ensures JumpTo(C, ContinueTarget(C, k)) == JumpTo(Graph, ContinueTarget(Graph, k))
    ensures ContinueTarget(C, k).Some? ==> FaithfulPlace(Resume(C, ContinueTarget(C, k).value))
  {
    match k
    case End =>
    case Seq(_, next) => ContinueAgrees(next);
    case Loop(_, _) => ResumeAgrees(k);
    case Fall(_, next) => ContinueAgrees(next);
  }

  predicate FaithfulLabels(labels: Labels) {
    forall name :: name in labels ==> FaithfulPlace(labels[name])
  }

  lemma {:induction false} LabelsAgreeB(stmts: seq<Stmt>, k: Kont)
    requires FaithfulB(stmts, BreakOk(k), ContinueOk(k)) && FaithfulK(k)
    ensures LabelsOfBlock(C, stmts, k) == LabelsOfBlock(Graph, stmts, k)
    ensures FaithfulLabels(LabelsOfBlock(C, stmts, k))
    decreases stmts
  {
    if stmts != [] {
      LabelsAgreeB(stmts[1..], k);
      LabelsAgreeS(stmts[0], Seq(stmts[1..], k));
    }
  }

  lemma {:induction false} LabelsAgreeS(s: Stmt, k: Kont)
    requires FaithfulS(s, BreakOk(k), ContinueOk(k)) && FaithfulK(k)
    ensures LabelsOfStmt(C, s, k) == LabelsOfStmt(Graph, s, k)
    ensures FaithfulLabels(LabelsOfStmt(C, s, k))
    decreases s
  {
    match s
    case If(thenBody, elseBody) =>
      LabelsAgreeB(thenBody, k);
      LabelsAgreeB(elseBody, k);
    case CompileIf(selected, _) => LabelsAgreeB(selected.chosen, k);
    case Switch(cases) => LabelsAgreeC(cases, k);
    case Repeat(_, body) => LabelsAgreeB(body, Loop(s, k));
    case While(_, body) => LabelsAgreeB(body, Loop(s, k));
    case DoWhile(_, body) => LabelsAgreeB(body, Loop(s, k));
    case For(_, _, _, body) => LabelsAgreeB(body, Loop(s, k));
    case ForEach(body) => LabelsAgreeB(body, Loop(s, k));
    case _ =>
  }

  lemma {:induction false} LabelsAgreeC(cases: seq<Clause>, k: Kont)
    requires FaithfulC(cases, ContinueOk(k)) && FaithfulK(k)
    ensures LabelsOfClauses(C, cases, k) == LabelsOfClauses(Graph, cases, k)
    ensures FaithfulLabels(LabelsOfClauses(C, cases, k))
    decreases cases
  {
    if cases != [] {
      LabelsAgreeC(cases[1..], k);
      LabelsAgreeB(cases[0].body, Fall(cases[1..], k));
    }
  }

  /** Every C step from a faithful place is a graph step to a faithful place. */
  lemma StepSimulated(labels: Labels, p: Place, q: Place)
    requires FaithfulPlace(p) && FaithfulLabels(labels) && q in Succs(C, labels, p)
    ensures q in Succs(Graph, labels, p) && FaithfulPlace(q)
  {
    match p
    case FuncEnd =>
    case Again(s, k) => LoopStepSimulated(s, k, false, q);
    case At(s, k) =>
      if IsLoop(s) {
        LoopStepSimulated(s, k, true, q);
      } else {
        SimpleStepSimulated(labels, s, k, q);
      }
  }

  lemma SimpleStepSimulated(labels: Labels, s: Stmt, k: Kont, q: Place)
    requires !IsLoop(s) && FaithfulPlace(At(s, k)) && FaithfulLabels(labels) && q in Succs(C, labels, At(s, k))
    ensures q in Succs(Graph, labels, At(s, k)) && FaithfulPlace(q)
  {
    ResumeAgrees(k);
    match s
    case Break => BreakAgrees(k);
    case Continue => ContinueAgrees(k);
    case If(thenBody, elseBody) =>
      EnterAgrees(thenBody, k);
      EnterAgrees(elseBody, k);
    case Switch(cases) => ClauseEntriesAgree(cases, k);
    case _ =>
  }

  lemma LoopStepSimulated(s: Stmt, k: Kont, initial: bool, q: Place)
    requires IsLoop(s) && FaithfulPlace(At(s, k)) && q in LoopSuccs(C, s, k, initial)
    ensures q in LoopSuccs(Graph, s, k, initial) && FaithfulPlace(q)
  {
    ResumeAgrees(k);
    assert FaithfulK(Loop(s, k));
    EnterAgrees(s.body, Loop(s, k));
  }

  /** On a faithful body every run of the C program is a path of the graph. */
  lemma {:induction false} RunSimulated(labels: Labels, path: seq<Place>)
    requires IsPath(C, labels, path) && FaithfulPlace(path[0]) && FaithfulLabels(labels)
    ensures IsPath(Graph, labels, path)
    decreases |path|
  {
    if |path| > 1 {
      PathTail(C, labels, path);
      StepSimulated(labels, path[0], path[1]);
      RunSimulated(labels, path[1..]);
      PathCons(Graph, labels, path[0], path[1..]);
      assert path == [path[0]] + path[1..];
    }
  }

  /** Soundness: when the graph's end is unreachable, no run of a faithful body falls off. */
  lemma Soundness(body: seq<Stmt>)
    requires Faithful(body) && FallsOff(C, body)
    ensures FallsOff(Graph, body)
  {
    LabelsAgreeB(body, End);
    EnterAgrees(body, End);
    var path :| IsRun(C, body, path) && path[|path| - 1] == FuncEnd;
    RunSimulated(LabelsOf(C, body), path);
    assert IsRun(Graph, body, path);
  }

  // ----- bodies whose graph has no edge that C cannot take -----

  /** No loop test is decided at translation time in a way the graph ignores. */
  predicate PreciseS(s: Stmt) {
    match s
    case If(thenBody, elseBody) => PreciseB(thenBody) && PreciseB(elseBody)
    case CompileIf(selected, _) => selected.Selected? ==> PreciseB(selected.chosen)
    case Switch(cases) => PreciseC(cases)
    case Repeat(count, body) => IntegerConstantValue(count).None? && PreciseB(body)
    case While(cond, body) => PreciseTest(cond, body) && PreciseB(body)
    case DoWhile(cond, body) => PreciseTest(cond, body) && PreciseB(body)
    case For(_, _, _, body) => !KnownEmpty(s) && PreciseB(body)
    case ForEach(body) => PreciseB(body)
    case _ => true
  }

  predicate PreciseTest(cond: Expr, body: seq<Stmt>) {
    !KnownZero(cond) && !(IsConstTruthy(cond) && BodyHasLevelBreak(body, 0))
  }

  predicate PreciseB(stmts: seq<Stmt>) {
    stmts == [] || (PreciseS(stmts[0]) && PreciseB(stmts[1..]))
  }

  predicate PreciseC(cases: seq<Clause>) {
    cases == [] || (PreciseB(cases[0].body) && PreciseC(cases[1..]))
  }

  predicate PreciseK(k: Kont) {
    match k
    case End => true
    case Seq(rest, next) => PreciseB(rest) && PreciseK(next)
    case Loop(loop, next) => PreciseS(loop) && PreciseK(next)
    case Fall(following, next) => PreciseC(following) && PreciseK(next)
  }

  predicate PrecisePlace(p: Place) {
    match p
    case FuncEnd => true
    case At(s, k) => PreciseS(s) && PreciseK(k)
    case Again(s, k) => PreciseS(s) && PreciseK(k)
  }

  lemma {:induction false} ResumePrecise(k: Kont)
    requires PreciseK(k) && FaithfulK(k)
    ensures PrecisePlace(Resume(C, k))
    decreases KontWeight(k), 0
  {
    match k
    case End =>
    case Seq(rest, next) => EnterPrecise(rest, next);
    case Loop(_, _) =>
    case Fall(following, next) => EnterClausesPrecise(following, next);
  }

  lemma {:induction false} EnterPrecise(stmts: seq<Stmt>, k: Kont)
    requires PreciseB(stmts) && PreciseK(k)
    requires FaithfulB(stmts, BreakOk(k), ContinueOk(k)) && FaithfulK(k)
    ensures PrecisePlace(Enter(C, stmts, k))
    decreases BlockWeight(stmts) + KontWeight(k), 1
  {
    if stmts == [] {
      ResumePrecise(k);
    } else if stmts[0].CompileIf? {
      assert BlockWeight(stmts) >= 3 + BlockWeight(stmts[0].selected.chosen) + BlockWeight(stmts[1..]);
      EnterPrecise(stmts[0].selected.chosen, Seq(stmts[1..], k));
    }
  }

  lemma {:induction false} EnterClausesPrecise(cases: seq<Clause>, k: Kont)
    requires PreciseC(cases) && PreciseK(k) && FaithfulC(cases, ContinueOk(k)) && FaithfulK(k)
    ensures PrecisePlace(EnterClauses(C, cases, k))
    decreases ClausesWeight(cases) + KontWeight(k), 1
  {
    if cases == [] {
      ResumePrecise(k);
    } else {
      EnterPrecise(cases[0].body, Fall(cases[1..], k));
    }
  }

  lemma {:induction false} ClauseEntriesPrecise(cases: seq<Clause>, k: Kont)
    requires PreciseC(cases) && PreciseK(k) && FaithfulC(cases, ContinueOk(k)) && FaithfulK(k)
    ensures forall p :: p in ClauseEntries(C, cases, k) ==> PrecisePlace(p)
  {
    if cases != [] {
      EnterClausesPrecise(cases, k);
      ClauseEntriesPrecise(cases[1..], k);
    }
  }

  lemma {:induction false} JumpsPrecise(k: Kont)
    requires PreciseK(k) && FaithfulK(k)
    ensures BreakTarget(C, k).Some? ==> PrecisePlace(Resume(C, BreakTarget(C, k).value))
    ensures ContinueTarget(C, k).Some? ==> PrecisePlace(Resume(C, ContinueTarget(C, k).value))
  {
    match k
    case End =>
    case Seq(_, next) => JumpsPrecise(next);
    case Loop(_, next) =>
      ResumePrecise(next);
    case Fall(_, next) =>
      JumpsPrecise(next);
      ResumePrecise(next);
  }

  predicate PreciseLabels(labels: Labels) {
    forall name :: name in labels ==> PrecisePlace(labels[name])
  }

  lemma {:induction false} LabelsPreciseB(stmts: seq<Stmt>, k: Kont)
    requires PreciseB(stmts) && PreciseK(k)
    ensures PreciseLabels(LabelsOfBlock(C, stmts, k))
    decreases stmts
  {
    if stmts != [] {
      LabelsPreciseB(stmts[1..], k);
      LabelsPreciseS(stmts[0], Seq(stmts[1..], k));
    }
  }

  lemma {:induction false} LabelsPreciseS(s: Stmt, k: Kont)
    requires PreciseS(s) && PreciseK(k)
    ensures PreciseLabels(LabelsOfStmt(C, s, k))
    decreases s
  {
    match s
    case If(thenBody, elseBody) =>
      LabelsPreciseB(thenBody, k);
      LabelsPreciseB(elseBody, k);
    case CompileIf(selected, _) => if selected.Selected? { LabelsPreciseB(selected.chosen, k); }
    case Switch(cases) => LabelsPreciseC(cases, k);
    case Repeat(_, body) => LabelsPreciseB(body, Loop(s, k));
    case While(_, body) => LabelsPreciseB(body, Loop(s, k));
    case DoWhile(_, body) => LabelsPreciseB(body, Loop(s, k));
    case For(_, _, _, body) => LabelsPreciseB(body, Loop(s, k));
    case ForEach(body) => LabelsPreciseB(body, Loop(s, k));
    case _ =>
  }

  lemma {:induction false} LabelsPreciseC(cases: seq<Clause>, k: Kont)
    requires PreciseC(cases) && PreciseK(k)
    ensures PreciseLabels(LabelsOfClauses(C, cases, k))
    decreases cases
  {
    if cases != [] {
      LabelsPreciseC(cases[1..], k);
      LabelsPreciseB(cases[0].body, Fall(cases[1..], k));
    }
  }

  ghost predicate Exact(p: Place) {
    FaithfulPlace(p) && PrecisePlace(p)
  }

  /** Every graph step from an exact place is a C step to an exact place. */
  lemma StepReflected(labels: Labels, p: Place, q: Place)
    requires Exact(p) && FaithfulLabels(labels) && PreciseLabels(labels) && q in Succs(Graph, labels, p)
    ensures q in Succs(C, labels, p) && Exact(q)
  {
    match p
    case FuncEnd =>
    case Again(s, k) => LoopStepReflected(s, k, false, q);
    case At(s, k) =>
      if IsLoop(s) {
        LoopStepReflected(s, k, true, q);
      } else {
        SimpleStepReflected(labels, s, k, q);
      }
  }

  lemma SimpleStepReflected(labels: Labels, s: Stmt, k: Kont, q: Place)
    requires !IsLoop(s) && Exact(At(s, k)) && FaithfulLabels(labels) && PreciseLabels(labels)
    requires q in Succs(Graph, labels, At(s, k))
    ensures q in Succs(C, labels, At(s, k)) && Exact(q)
  {
    ResumeAgrees(k);
    ResumePrecise(k);
    if s.Break? {
      BreakAgrees(k);
      JumpsPrecise(k);
    } else if s.Continue? {
      ContinueAgrees(k);
      JumpsPrecise(k);
    } else if s.If? {
      EnterAgrees(s.thenBody, k);
      EnterAgrees(s.elseBody, k);
      EnterPrecise(s.thenBody, k);
      EnterPrecise(s.elseBody, k);
    } else if s.Switch? {
      ClauseEntriesAgree(s.cases, k);
      ClauseEntriesPrecise(s.cases, k);
    }
  }

  lemma LoopStepReflected(s: Stmt, k: Kont, initial: bool, q: Place)
    requires IsLoop(s) && Exact(At(s, k)) && q in LoopSuccs(Graph, s, k, initial)
    ensures q in LoopSuccs(C, s, k, initial) && Exact(q)
  {
    ResumeAgrees(k);
    ResumePrecise(k);
    assert FaithfulK(Loop(s, k)) && PreciseK(Loop(s, k));
    EnterAgrees(s.body, Loop(s, k));
    EnterPrecise(s.body, Loop(s, k));
  }

  lemma {:induction false} RunReflected(labels: Labels, path: seq<Place>)
    requires IsPath(Graph, labels, path) && Exact(path[0]) && FaithfulLabels(labels) && PreciseLabels(labels)
    ensures IsPath(C, labels, path)
    decreases |path|
  {
    if |path| > 1 {
      PathTail(Graph, labels, path);
      StepReflected(labels, path[0], path[1]);
      RunReflected(labels, path[1..]);
      PathCons(C, labels, path[0], path[1..]);
      assert path == [path[0]] + path[1..];
    }
  }

  /** On faithful and precise bodies the graph's answer is exact: its end is reachable
      exactly when some run of the C program falls off. */
  lemma ExactAnswer(body: seq<Stmt>)
    requires Faithful(body) && PreciseB(body)
    ensures FallsOff(Graph, body) <==> FallsOff(C, body)
  {
    if FallsOff(C, body) {
      Soundness(body);
    }
    if FallsOff(Graph, body) {
      LabelsAgreeB(body, End);
      LabelsPreciseB(body, End);
      EnterAgrees(body, End);
      EnterPrecise(body, End);
      var path :| IsRun(Graph, body, path) && path[|path| - 1] == FuncEnd;
      RunReflected(LabelsOf(C, body), path);
      assert IsRun(C, body, path);
    }
  }
}

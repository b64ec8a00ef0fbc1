/** Control flow of a procedure body: statements, the places control can be, and the
    runs of the body.

    A place is a statement together with a continuation.  Two step relations are
    defined over the same places: `C`, what the emitted C program can do, and
    `Graph`, what the edges of the return-path checker allow.  Conditions are
    arbitrary except where the constant evaluator decides them. */
module Flow {
  import opened Options
  import opened Ast
  import opened Constants

  datatype Stmt =
    | Return
    | Goto(target: string)
    | Label(name: string)
    | Break
    | Continue
    | Plain  // declarations, operations, calls: control completes normally
    | If(thenBody: seq<Stmt>, elseBody: seq<Stmt>)
    | CompileIf(selected: Selection, thenPart: seq<Stmt>)
    | Switch(cases: seq<Clause>)
    | Repeat(count: Expr, body: seq<Stmt>)
    | While(cond: Expr, body: seq<Stmt>)
    | DoWhile(cond: Expr, body: seq<Stmt>)
    | For(first: Expr, last: Expr, descending: bool, body: seq<Stmt>)
    | ForEach(body: seq<Stmt>)

  /** The branch of a compile-time conditional that the defined macros select, if any. */
  datatype Selection = Unselected | Selected(chosen: seq<Stmt>)

  datatype Clause = Clause(isDefault: bool, body: seq<Stmt>)

  /** What remains to be done after a statement. */
  datatype Kont =
    | End
    | Seq(rest: seq<Stmt>, next: Kont)
    | Loop(loop: Stmt, next: Kont)           // an iteration of `loop` is over
    | Fall(following: seq<Clause>, next: Kont)  // a clause body is over

  /** A loop is entered `At` its head; `Again` is the test after an iteration. */
  datatype Place = FuncEnd | At(stmt: Stmt, k: Kont) | Again(stmt: Stmt, k: Kont)

  datatype Mode = Graph | C

  predicate IsLoop(s: Stmt) {
    s.Repeat? || s.While? || s.DoWhile? || s.For? || s.ForEach?
  }

  function HasDefault(cases: seq<Clause>): bool {
    exists i :: 0 <= i < |cases| && cases[i].isDefault
  }

  /** The body that stands for a compile-time conditional. */
  function Taken(m: Mode, s: Stmt): (taken: seq<Stmt>)
    requires s.CompileIf?
  {
    if s.selected.Selected? then s.selected.chosen else if m.Graph? then s.thenPart else []
  }

  // ----- entering statements -----

  function StmtWeight(s: Stmt): nat {
    match s
    case CompileIf(selected, thenPart) =>
      1 + (if selected.Selected? then BlockWeight(selected.chosen) else 0) + BlockWeight(thenPart)
    case _ => 1
  }

  function BlockWeight(stmts: seq<Stmt>): nat {
    if stmts == [] then 0 else 2 + StmtWeight(stmts[0]) + BlockWeight(stmts[1..])
  }

  function ClausesWeight(cases: seq<Clause>): nat {
    if cases == [] then 0 else 2 + BlockWeight(cases[0].body) + ClausesWeight(cases[1..])
  }

  function KontWeight(k: Kont): nat {
    match k
    case End => 0
    case Seq(rest, next) => 1 + BlockWeight(rest) + KontWeight(next)
    case Loop(_, next) => 1 + KontWeight(next)
    case Fall(following, next) => 1 + ClausesWeight(following) + KontWeight(next)
  }

  /** Where control goes when it reaches continuation k. */
  function Resume(m: Mode, k: Kont): Place
    decreases KontWeight(k), 0
  {
    match k
    case End => FuncEnd
    case Seq(rest, next) => Enter(m, rest, next)
    case Loop(loop, next) => Again(loop, next)
    case Fall(following, next) => EnterClauses(m, following, next)
  }

  function Enter(m: Mode, stmts: seq<Stmt>, k: Kont): Place
    decreases BlockWeight(stmts) + KontWeight(k), 1
  {
    if stmts == [] then Resume(m, k) else EnterStmt(m, stmts[0], Seq(stmts[1..], k))
  }

  function EnterStmt(m: Mode, s: Stmt, k: Kont): Place
    decreases StmtWeight(s) + KontWeight(k), 1
  {
    if s.CompileIf? then Enter(m, Taken(m, s), k) else At(s, k)
  }

  function EnterClauses(m: Mode, cases: seq<Clause>, k: Kont): Place
    decreases ClausesWeight(cases) + KontWeight(k), 1
  {
    if cases == [] then Resume(m, k) else Enter(m, cases[0].body, Fall(cases[1..], k))
  }

  // ----- jumps -----

  /** Break leaves the innermost loop or Switch; in the graph it goes to whatever
      follows the clause it stands in. */
  function BreakTarget(m: Mode, k: Kont): Option<Kont> {
    match k
    case End => None
    case Seq(_, next) => BreakTarget(m, next)
    case Loop(_, next) => Some(next)
    case Fall(_, next) => if m.Graph? then Some(k) else Some(next)
  }

  /** Continue ends the iteration of the innermost loop; the graph passes over Repeat. */
  function ContinueTarget(m: Mode, k: Kont): Option<Kont> {
    match k
    case End => None
    case Seq(_, next) => ContinueTarget(m, next)
    case Loop(loop, next) =>
      if m.Graph? && loop.Repeat? then ContinueTarget(m, next) else Some(k)
    case Fall(_, next) => ContinueTarget(m, next)
  }

  type Labels = map<string, Place>

  /** Places of the labels; where a name is repeated the one built last wins. */
  function LabelsOfBlock(m: Mode, stmts: seq<Stmt>, k: Kont): Labels {
    if stmts == [] then map[]
    else LabelsOfBlock(m, stmts[1..], k) + LabelsOfStmt(m, stmts[0], Seq(stmts[1..], k))
  }

  function LabelsOfStmt(m: Mode, s: Stmt, k: Kont): Labels {
    match s
    case Label(name) => map[name := At(s, k)]
    case If(thenBody, elseBody) => LabelsOfBlock(m, thenBody, k) + LabelsOfBlock(m, elseBody, k)
    case CompileIf(selected, thenPart) =>
      if selected.Selected? then LabelsOfBlock(m, selected.chosen, k)
      else if m.Graph? then LabelsOfBlock(m, thenPart, k)
      else map[]
    case Switch(cases) => LabelsOfClauses(m, cases, k)
    case Repeat(_, body) => LabelsOfBlock(m, body, Loop(s, k))
    case While(_, body) => LabelsOfBlock(m, body, Loop(s, k))
    case DoWhile(_, body) => LabelsOfBlock(m, body, Loop(s, k))
    case For(_, _, _, body) => LabelsOfBlock(m, body, Loop(s, k))
    case ForEach(body) => LabelsOfBlock(m, body, Loop(s, k))
    case _ => map[]
  }

  function LabelsOfClauses(m: Mode, cases: seq<Clause>, k: Kont): Labels {
    if cases == [] then map[]
    else LabelsOfClauses(m, cases[1..], k) + LabelsOfBlock(m, cases[0].body, Fall(cases[1..], k))
  }

  // ----- loops -----

  /** `statementHasLevelBreak`: is there a Break that leaves the construct `depth` levels up? */
  function HasLevelBreak(s: Stmt, depth: nat): bool {
    match s
    case Break => depth == 0
    case If(thenBody, elseBody) => BodyHasLevelBreak(thenBody, depth) || BodyHasLevelBreak(elseBody, depth)
    case CompileIf(selected, _) => selected.Selected? && BodyHasLevelBreak(selected.chosen, depth)
    case Repeat(_, body) => BodyHasLevelBreak(body, depth + 1)
    case While(_, body) => BodyHasLevelBreak(body, depth + 1)
    case DoWhile(_, body) => BodyHasLevelBreak(body, depth + 1)
    case For(_, _, _, body) => BodyHasLevelBreak(body, depth + 1)
    case ForEach(body) => BodyHasLevelBreak(body, depth + 1)
    case Switch(cases) => CasesHaveLevelBreak(cases, depth + 1)
    case _ => false
  }

  function BodyHasLevelBreak(stmts: seq<Stmt>, depth: nat): bool {
    stmts != [] && (HasLevelBreak(stmts[0], depth) || BodyHasLevelBreak(stmts[1..], depth))
  }

  function CasesHaveLevelBreak(cases: seq<Clause>, depth: nat): bool {
    cases != [] && (BodyHasLevelBreak(cases[0].body, depth) || CasesHaveLevelBreak(cases[1..], depth))
  }

  predicate KnownPositive(count: Expr) {
    var n := IntegerConstantValue(count);
    n.Some? && n.value > 0
  }

  predicate KnownRange(s: Stmt)
    requires s.For?
  {
    IntegerConstantValue(s.first).Some? && IntegerConstantValue(s.last).Some?
  }

  predicate KnownEmpty(s: Stmt)
    requires s.For?
  {
    KnownRange(s) &&
    var f, t := IntegerConstantValue(s.first).value, IntegerConstantValue(s.last).value;
    if s.descending then f < t else f > t
  }

  /** Whether a loop can be left by its own test.  `initial` is the test on entry. */
  predicate Leaves(m: Mode, s: Stmt, initial: bool)
    requires IsLoop(s)
  {
    match m
    case Graph => (
      match s
      case Repeat(count, _) => !KnownPositive(count)
      case While(cond, body) => !(IsConstTruthy(cond) && !BodyHasLevelBreak(body, 0))
      case DoWhile(cond, body) => !initial && !(IsConstTruthy(cond) && !BodyHasLevelBreak(body, 0))
      case For(_, _, _, _) => !KnownRange(s) || KnownEmpty(s)
      case ForEach(_) => true
    )
    case C => (
      match s
      case Repeat(count, _) => !(initial && KnownPositive(count))
      case While(cond, _) => !IsConstTruthy(cond)
      case DoWhile(cond, _) => !initial && !IsConstTruthy(cond)
      case For(_, _, _, _) => !initial || !KnownRange(s) || KnownEmpty(s)
      case ForEach(_) => true
    )
  }

  predicate KnownZero(e: Expr) {
    IntegerConstantValue(e) == Some(0)
  }

  /** Whether a loop can start another iteration. */
  predicate Iterates(m: Mode, s: Stmt, initial: bool)
    requires IsLoop(s)
  {
    m.C? ==>
      match s
      case Repeat(count, _) =>
        !initial || IntegerConstantValue(count).None? || KnownPositive(count)
      case While(cond, _) => !KnownZero(cond)
      case DoWhile(cond, _) => initial || !KnownZero(cond)
      case For(_, _, _, _) => !initial || !KnownEmpty(s)
      case ForEach(_) => true
  }

  // ----- steps and runs -----

  function LoopSuccs(m: Mode, s: Stmt, k: Kont, initial: bool): seq<Place>
    requires IsLoop(s)
  {
    (if !Iterates(m, s, initial) then []
     else if s.DoWhile? && !initial then [At(s, k)]
     else [Enter(m, s.body, Loop(s, k))]) +
    (if Leaves(m, s, initial) then [Resume(m, k)] else [])
  }

  function ClauseEntries(m: Mode, cases: seq<Clause>, k: Kont): seq<Place> {
    if cases == [] then []
    else [EnterClauses(m, cases, k)] + ClauseEntries(m, cases[1..], k)
  }

  function JumpTo(m: Mode, target: Option<Kont>): seq<Place> {
    if target.None? then [] else [Resume(m, target.value)]
  }

  function Succs(m: Mode, labels: Labels, p: Place): seq<Place> {
    match p
    case FuncEnd => []
    case Again(s, k) => if IsLoop(s) then LoopSuccs(m, s, k, false) else []
    case At(s, k) =>
      if IsLoop(s) then LoopSuccs(m, s, k, true)
      else
        match s
        case Goto(target) => if target in labels then [labels[target]] else []
        case Break => JumpTo(m, BreakTarget(m, k))
        case Continue => JumpTo(m, ContinueTarget(m, k))
        case Label(_) => [Resume(m, k)]
        case Plain => [Resume(m, k)]
        case If(thenBody, elseBody) => [Enter(m, thenBody, k), Enter(m, elseBody, k)]
        case Switch(cases) =>
          ClauseEntries(m, cases, k) + (if HasDefault(cases) then [] else [Resume(m, k)])
        case _ => []
  }

  function Start(m: Mode, body: seq<Stmt>): Place {
    Enter(m, body, End)
  }

  function LabelsOf(m: Mode, body: seq<Stmt>): Labels {
    LabelsOfBlock(m, body, End)
  }

  ghost predicate IsPath(m: Mode, labels: Labels, path: seq<Place>) {
    path != [] && forall i :: 0 <= i < |path| - 1 ==> path[i + 1] in Succs(m, labels, path[i])
  }

  ghost predicate IsRun(m: Mode, body: seq<Stmt>, path: seq<Place>) {
    IsPath(m, LabelsOf(m, body), path) && path[0] == Start(m, body)
  }

  ghost predicate CanReach(m: Mode, body: seq<Stmt>, p: Place) {
    exists path :: IsRun(m, body, path) && path[|path| - 1] == p
  }

  /** Some run of the body falls off its end without a Return. */
  ghost predicate FallsOff(m: Mode, body: seq<Stmt>) {
    CanReach(m, body, FuncEnd)
  }

  lemma PathTail(m: Mode, labels: Labels, path: seq<Place>)
    requires IsPath(m, labels, path) && |path| > 1
    ensures path[1] in Succs(m, labels, path[0]) && IsPath(m, labels, path[1..])
  {
    assert path[0 + 1] in Succs(m, labels, path[0]);
    forall i | 0 <= i < |path[1..]| - 1 ensures path[1..][i + 1] in Succs(m, labels, path[1..][i]) {
      assert path[i + 1 + 1] in Succs(m, labels, path[i + 1]);
    }
  }

  lemma PathCons(m: Mode, labels: Labels, p: Place, rest: seq<Place>)
    requires IsPath(m, labels, rest) && rest[0] in Succs(m, labels, p)
    ensures IsPath(m, labels, [p] + rest)
  {
    var path := [p] + rest;
    forall i | 0 <= i < |path| - 1 ensures path[i + 1] in Succs(m, labels, path[i]) {
      if i > 0 {
        assert rest[i - 1 + 1] in Succs(m, labels, rest[i - 1]);
      }
    }
  }
}

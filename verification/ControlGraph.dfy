/** The control-flow graph that the return-path checker builds, described without the
    builder: which node each statement owns and which edges that node has.  Built
    graphs are bisimilar to the step relation `Graph` of module Flow. */
module ControlGraph {
  import opened Options
  import opened Ast
  import opened Constants
  import opened Flow

  type Node = nat
  type Edges = seq<seq<Node>>

  /** Node 0 is the function end.  `pending` lists the Go to nodes in creation order. */
  datatype Layout = Layout(succ: Edges, pending: seq<(Node, string)>)

  // ----- node numbering: nodes are numbered as created, last statement first -----

  function NodesS(s: Stmt): nat {
    match s
    case If(thenBody, elseBody) => 1 + NodesB(thenBody) + NodesB(elseBody)
    case CompileIf(selected, thenPart) =>
      if selected.Selected? then NodesB(selected.chosen) else NodesB(thenPart)
    case Switch(cases) => 1 + NodesC(cases)
    case Repeat(_, body) => 1 + NodesB(body)
    case While(_, body) => 1 + NodesB(body)
    case DoWhile(_, body) => 2 + NodesB(body)
    case For(_, _, _, body) => 1 + NodesB(body)
    case ForEach(body) => 1 + NodesB(body)
    case _ => 1
  }

  function NodesB(stmts: seq<Stmt>): nat {
    if stmts == [] then 0 else NodesB(stmts[1..]) + NodesS(stmts[0])
  }

  function NodesC(cases: seq<Clause>): nat {
    if cases == [] then 0 else NodesC(cases[1..]) + NodesB(cases[0].body)
  }

  function EntryS(s: Stmt, cont: Node, base: Node): Node {
    if s.CompileIf? then
      if s.selected.Selected? then EntryB(s.selected.chosen, cont, base) else EntryB(s.thenPart, cont, base)
    else base
  }

  function EntryB(stmts: seq<Stmt>, cont: Node, base: Node): Node {
    if stmts == [] then cont
    else EntryS(stmts[0], EntryB(stmts[1..], cont, base), base + NodesB(stmts[1..]))
  }

  function EntryC(cases: seq<Clause>, cont: Node, base: Node): Node {
    if cases == [] then cont
    else EntryB(cases[0].body, EntryC(cases[1..], cont, base), base + NodesC(cases[1..]))
  }

  function EntriesC(cases: seq<Clause>, cont: Node, base: Node): seq<Node> {
    if cases == [] then [] else [EntryC(cases, cont, base)] + EntriesC(cases[1..], cont, base)
  }

  type LabelNodes = map<string, Node>

  function LabelNodesS(s: Stmt, base: Node): LabelNodes {
    match s
    case Label(name) => map[name := base]
    case If(thenBody, elseBody) =>
      LabelNodesB(thenBody, base + 1) + LabelNodesB(elseBody, base + 1 + NodesB(thenBody))
    case CompileIf(selected, thenPart) =>
      if selected.Selected? then LabelNodesB(selected.chosen, base) else LabelNodesB(thenPart, base)
    case Switch(cases) => LabelNodesC(cases, base + 1)
    case Repeat(_, body) => LabelNodesB(body, base + 1)
    case While(_, body) => LabelNodesB(body, base + 1)
    case DoWhile(_, body) => LabelNodesB(body, base + 2)
    case For(_, _, _, body) => LabelNodesB(body, base + 1)
    case ForEach(body) => LabelNodesB(body, base + 1)
    case _ => map[]
  }

  function LabelNodesB(stmts: seq<Stmt>, base: Node): LabelNodes {
    if stmts == [] then map[]
    else LabelNodesB(stmts[1..], base) + LabelNodesS(stmts[0], base + NodesB(stmts[1..]))
  }

  function LabelNodesC(cases: seq<Clause>, base: Node): LabelNodes {
    if cases == [] then map[]
    else LabelNodesC(cases[1..], base) + LabelNodesB(cases[0].body, base + NodesC(cases[1..]))
  }

  // ----- what a finished construction looks like -----

  predicate IsPending(g: Layout, n: Node) {
    exists i :: 0 <= i < |g.pending| && g.pending[i].0 == n
  }

  predicate HasEdges(g: Layout, n: Node, edges: seq<Node>) {
    n < |g.succ| && g.succ[n] == edges && !IsPending(g, n)
  }

  function EdgeTo(target: Option<Node>): seq<Node> {
    if target.None? then [] else [target.value]
  }

  function ExitEdge(leaves: bool, cont: Node): seq<Node> {
    if leaves then [cont] else []
  }

  predicate BuiltS(g: Layout, s: Stmt, cont: Node, brk: Option<Node>, ctn: Option<Node>, base: Node) {
    match s
    case Return => HasEdges(g, base, [])
    case Goto(target) => base < |g.succ| && g.succ[base] == [] && (base, target) in g.pending
    case Break => HasEdges(g, base, EdgeTo(brk))
    case Continue => HasEdges(g, base, EdgeTo(ctn))
    case Label(_) => HasEdges(g, base, [cont])
    case Plain => HasEdges(g, base, [cont])
    case If(thenBody, elseBody) =>
      var elseBase := base + 1 + NodesB(thenBody);
      && HasEdges(g, base, [EntryB(thenBody, cont, base + 1), EntryB(elseBody, cont, elseBase)])
      && BuiltB(g, thenBody, cont, brk, ctn, base + 1)
      && BuiltB(g, elseBody, cont, brk, ctn, elseBase)
    case CompileIf(selected, thenPart) =>
      if selected.Selected? then BuiltB(g, selected.chosen, cont, brk, ctn, base)
      else BuiltB(g, thenPart, cont, brk, ctn, base)
    case Switch(cases) =>
      && HasEdges(g, base, EntriesC(cases, cont, base + 1) + ExitEdge(!HasDefault(cases), cont))
      && BuiltC(g, cases, cont, ctn, base + 1)
    case Repeat(_, body) =>
      && HasEdges(g, base, [EntryB(body, base, base + 1)] + ExitEdge(Leaves(Graph, s, true), cont))
      && BuiltB(g, body, base, Some(cont), ctn, base + 1)
    case While(_, body) =>
      && HasEdges(g, base, [EntryB(body, base, base + 1)] + ExitEdge(Leaves(Graph, s, true), cont))
      && BuiltB(g, body, base, Some(cont), Some(base), base + 1)
    case DoWhile(_, body) =>
      && HasEdges(g, base, [EntryB(body, base + 1, base + 2)])
      && HasEdges(g, base + 1, [base] + ExitEdge(Leaves(Graph, s, false), cont))
      && BuiltB(g, body, base + 1, Some(cont), Some(base + 1), base + 2)
    case For(_, _, _, body) =>
      && HasEdges(g, base, [EntryB(body, base, base + 1)] + ExitEdge(Leaves(Graph, s, true), cont))
      && BuiltB(g, body, base, Some(cont), Some(base), base + 1)
    case ForEach(body) =>
      && HasEdges(g, base, [EntryB(body, base, base + 1)] + ExitEdge(Leaves(Graph, s, true), cont))
      && BuiltB(g, body, base, Some(cont), Some(base), base + 1)
  }

  predicate BuiltB(g: Layout, stmts: seq<Stmt>, cont: Node, brk: Option<Node>, ctn: Option<Node>, base: Node) {
    stmts == [] ||
    (&& BuiltB(g, stmts[1..], cont, brk, ctn, base)
     && BuiltS(g, stmts[0], EntryB(stmts[1..], cont, base), brk, ctn, base + NodesB(stmts[1..])))
  }

  predicate BuiltC(g: Layout, cases: seq<Clause>, cont: Node, ctn: Option<Node>, base: Node) {
    cases == [] ||
    (&& BuiltC(g, cases[1..], cont, ctn, base)
     && var fall := EntryC(cases[1..], cont, base);
        BuiltB(g, cases[0].body, fall, Some(fall), ctn, base + NodesC(cases[1..])))
  }

  // ----- a construction depends only on the nodes it owns -----

  predicate Agree(g: Layout, h: Layout, lo: Node, hi: Node) {
    && hi <= |g.succ| && hi <= |h.succ|
    && (forall n :: lo <= n < hi ==> g.succ[n] == h.succ[n])
    && (forall i :: 0 <= i < |g.pending| && lo <= g.pending[i].0 < hi ==> g.pending[i] in h.pending)
    && (forall i :: 0 <= i < |h.pending| && lo <= h.pending[i].0 < hi ==> h.pending[i] in g.pending)
  }

  lemma HasEdgesAgree(g: Layout, h: Layout, lo: Node, hi: Node, n: Node, edges: seq<Node>)
    requires Agree(g, h, lo, hi) && lo <= n < hi && HasEdges(g, n, edges)
    ensures HasEdges(h, n, edges)
  {
  }

  lemma {:induction false} BuiltSAgree(g: Layout, h: Layout, s: Stmt, cont: Node, brk: Option<Node>,
                                       ctn: Option<Node>, base: Node, lo: Node, hi: Node)
    requires BuiltS(g, s, cont, brk, ctn, base)
    requires Agree(g, h, lo, hi) && lo <= base && base + NodesS(s) <= hi
    ensures BuiltS(h, s, cont, brk, ctn, base)
  {
    if !s.CompileIf? && !s.Goto? {
      HasEdgesAgree(g, h, lo, hi, base, g.succ[base]);
    }
    match s
    case If(thenBody, elseBody) =>
      BuiltBAgree(g, h, thenBody, cont, brk, ctn, base + 1, lo, hi);
      BuiltBAgree(g, h, elseBody, cont, brk, ctn, base + 1 + NodesB(thenBody), lo, hi);
    case CompileIf(selected, thenPart) =>
      if selected.Selected? {
        BuiltBAgree(g, h, selected.chosen, cont, brk, ctn, base, lo, hi);
      } else {
        BuiltBAgree(g, h, thenPart, cont, brk, ctn, base, lo, hi);
      }
    case Switch(cases) => BuiltCAgree(g, h, cases, cont, ctn, base + 1, lo, hi);
    case Repeat(_, body) => BuiltBAgree(g, h, body, base, Some(cont), ctn, base + 1, lo, hi);
    case While(_, body) => BuiltBAgree(g, h, body, base, Some(cont), Some(base), base + 1, lo, hi);
    case DoWhile(_, body) =>
      HasEdgesAgree(g, h, lo, hi, base + 1, g.succ[base + 1]);
      BuiltBAgree(g, h, body, base + 1, Some(cont), Some(base + 1), base + 2, lo, hi);
    case For(_, _, _, body) => BuiltBAgree(g, h, body, base, Some(cont), Some(base), base + 1, lo, hi);
    case ForEach(body) => BuiltBAgree(g, h, body, base, Some(cont), Some(base), base + 1, lo, hi);
    case _ =>
  }

  lemma {:induction false} BuiltBAgree(g: Layout, h: Layout, stmts: seq<Stmt>, cont: Node, brk: Option<Node>,
                                       ctn: Option<Node>, base: Node, lo: Node, hi: Node)
    requires BuiltB(g, stmts, cont, brk, ctn, base)
    requires Agree(g, h, lo, hi) && lo <= base && base + NodesB(stmts) <= hi
    ensures BuiltB(h, stmts, cont, brk, ctn, base)
  {
    if stmts != [] {
      BuiltBAgree(g, h, stmts[1..], cont, brk, ctn, base, lo, hi);
      BuiltSAgree(g, h, stmts[0], EntryB(stmts[1..], cont, base), brk, ctn, base + NodesB(stmts[1..]), lo, hi);
    }
  }

  lemma {:induction false} BuiltCAgree(g: Layout, h: Layout, cases: seq<Clause>, cont: Node,
                                       ctn: Option<Node>, base: Node, lo: Node, hi: Node)
    requires BuiltC(g, cases, cont, ctn, base)
    requires Agree(g, h, lo, hi) && lo <= base && base + NodesC(cases) <= hi
    ensures BuiltC(h, cases, cont, ctn, base)
  {
    if cases != [] {
      BuiltCAgree(g, h, cases[1..], cont, ctn, base, lo, hi);
      var fall := EntryC(cases[1..], cont, base);
      BuiltBAgree(g, h, cases[0].body, fall, Some(fall), ctn, base + NodesC(cases[1..]), lo, hi);
    }
  }

  // ----- places and nodes -----

  /** Continuation k resumes at node n, with Break and Continue bound to brk and ctn. */
  ghost predicate KontAt(g: Layout, k: Kont, n: Node, brk: Option<Node>, ctn: Option<Node>) {
    match k
    case End => n == 0 && brk.None? && ctn.None?
    case Seq(rest, next) =>
      exists cont: Node, base: Node ::
        && KontAt(g, next, cont, brk, ctn)
        && BuiltB(g, rest, cont, brk, ctn, base)
        && base >= 1
        && n == EntryB(rest, cont, base)
    case Loop(loop, next) =>
      IsLoop(loop) &&
      exists cont: Node, outerBrk, outerCtn, base: Node ::
        && KontAt(g, next, cont, outerBrk, outerCtn)
        && BuiltS(g, loop, cont, outerBrk, outerCtn, base)
        && base >= 1
        && n == TestNode(loop, base)
        && brk == Some(cont)
        && ctn == (if loop.Repeat? then outerCtn else Some(n))
    case Fall(following, next) =>
      exists cont: Node, outerBrk, base: Node ::
        && KontAt(g, next, cont, outerBrk, ctn)
        && BuiltC(g, following, cont, ctn, base)
        && base >= 1
        && n == EntryC(following, cont, base)
        && brk == Some(n)
  }

  function TestNode(loop: Stmt, base: Node): Node {
    if loop.DoWhile? then base + 1 else base
  }

  ghost predicate PlaceAt(g: Layout, p: Place, n: Node) {
    match p
    case FuncEnd => n == 0
    case At(s, k) =>
      && !s.CompileIf?
      && n >= 1
      && exists cont: Node, brk, ctn :: KontAt(g, k, cont, brk, ctn) && BuiltS(g, s, cont, brk, ctn, n)
    case Again(s, k) =>
      && IsLoop(s)
      && exists cont: Node, brk, ctn, base: Node ::
        && KontAt(g, k, cont, brk, ctn)
        && BuiltS(g, s, cont, brk, ctn, base)
        && base >= 1
        && n == TestNode(s, base)
  }

  ghost predicate PlacesAt(g: Layout, ps: seq<Place>, ns: seq<Node>) {
    |ps| == |ns| && forall i :: 0 <= i < |ps| ==> PlaceAt(g, ps[i], ns[i])
  }

  lemma {:induction false} ResumeAt(g: Layout, k: Kont, n: Node, brk: Option<Node>, ctn: Option<Node>)
    requires KontAt(g, k, n, brk, ctn)
    ensures PlaceAt(g, Resume(Graph, k), n)
    decreases KontWeight(k), 0
  {
    match k
    case End =>
    case Seq(rest, next) =>
      var cont: Node, base: Node :|
        && KontAt(g, next, cont, brk, ctn)
        && BuiltB(g, rest, cont, brk, ctn, base)
        && base >= 1
        && n == EntryB(rest, cont, base);
      EnterAt(g, rest, next, cont, brk, ctn, base);
    case Loop(loop, next) =>
    case Fall(following, next) =>
      var cont: Node, outerBrk, base: Node :|
        && KontAt(g, next, cont, outerBrk, ctn)
        && BuiltC(g, following, cont, ctn, base)
        && base >= 1
        && n == EntryC(following, cont, base)
        && brk == Some(n);
      EnterClausesAt(g, following, next, cont, outerBrk, ctn, base);
  }

  lemma {:induction false} EnterAt(g: Layout, stmts: seq<Stmt>, k: Kont, cont: Node, brk: Option<Node>,
                                   ctn: Option<Node>, base: Node)
    requires KontAt(g, k, cont, brk, ctn) && BuiltB(g, stmts, cont, brk, ctn, base) && base >= 1
    ensures PlaceAt(g, Enter(Graph, stmts, k), EntryB(stmts, cont, base))
    decreases BlockWeight(stmts) + KontWeight(k), 1
  {
    if stmts == [] {
      ResumeAt(g, k, cont, brk, ctn);
    } else {
      var rest := stmts[1..];
      var mid := EntryB(rest, cont, base);
      assert KontAt(g, Seq(rest, k), mid, brk, ctn);
      EnterStmtAt(g, stmts[0], Seq(rest, k), mid, brk, ctn, base + NodesB(rest));
    }
  }

  lemma {:induction false} EnterStmtAt(g: Layout, s: Stmt, k: Kont, cont: Node, brk: Option<Node>,
                                       ctn: Option<Node>, base: Node)
    requires KontAt(g, k, cont, brk, ctn) && BuiltS(g, s, cont, brk, ctn, base) && base >= 1
    ensures PlaceAt(g, EnterStmt(Graph, s, k), EntryS(s, cont, base))
    decreases StmtWeight(s) + KontWeight(k), 1
  {
    if s.CompileIf? {
      EnterAt(g, Taken(Graph, s), k, cont, brk, ctn, base);
    }
  }

  lemma {:induction false} EnterClausesAt(g: Layout, cases: seq<Clause>, k: Kont, cont: Node, brk: Option<Node>,
                                          ctn: Option<Node>, base: Node)
    requires KontAt(g, k, cont, brk, ctn) && BuiltC(g, cases, cont, ctn, base) && base >= 1
    ensures PlaceAt(g, EnterClauses(Graph, cases, k), EntryC(cases, cont, base))
    decreases ClausesWeight(cases) + KontWeight(k), 1
  {
    if cases == [] {
      ResumeAt(g, k, cont, brk, ctn);
    } else {
      var fall := EntryC(cases[1..], cont, base);
      assert KontAt(g, Fall(cases[1..], k), fall, Some(fall), ctn);
      EnterAt(g, cases[0].body, Fall(cases[1..], k), fall, Some(fall), ctn, base + NodesC(cases[1..]));
    }
  }

  lemma {:induction false} BreakAt(g: Layout, k: Kont, n: Node, brk: Option<Node>, ctn: Option<Node>)
    requires KontAt(g, k, n, brk, ctn)
    ensures PlacesAt(g, JumpTo(Graph, BreakTarget(Graph, k)), EdgeTo(brk))
  {
    match k
    case End =>
    case Seq(rest, next) =>
      var cont: Node :| KontAt(g, next, cont, brk, ctn);
      BreakAt(g, next, cont, brk, ctn);
    case Loop(loop, next) =>
      var cont: Node, outerBrk, outerCtn :| KontAt(g, next, cont, outerBrk, outerCtn) && brk == Some(cont);
      ResumeAt(g, next, cont, outerBrk, outerCtn);
    case Fall(following, next) =>
      ResumeAt(g, k, n, brk, ctn);
  }

  lemma {:induction false} ContinueAt(g: Layout, k: Kont, n: Node, brk: Option<Node>, ctn: Option<Node>)
    requires KontAt(g, k, n, brk, ctn)
    ensures PlacesAt(g, JumpTo(Graph, ContinueTarget(Graph, k)), EdgeTo(ctn))
  {
    match k
    case End =>
    case Seq(rest, next) =>
      var cont: Node :| KontAt(g, next, cont, brk, ctn);
      ContinueAt(g, next, cont, brk, ctn);
    case Loop(loop, next) =>
      if loop.Repeat? {
        var cont: Node, outerBrk, outerCtn :| KontAt(g, next, cont, outerBrk, outerCtn) && ctn == outerCtn;
        ContinueAt(g, next, cont, outerBrk, outerCtn);
      } else {
        ResumeAt(g, k, n, brk, ctn);
      }
    case Fall(following, next) =>
      var cont: Node, outerBrk :| KontAt(g, next, cont, outerBrk, ctn);
      ContinueAt(g, next, cont, outerBrk, ctn);
  }

  lemma {:induction false} ClauseEntriesAt(g: Layout, cases: seq<Clause>, k: Kont, cont: Node, brk: Option<Node>,
                                           ctn: Option<Node>, base: Node)
    requires KontAt(g, k, cont, brk, ctn) && BuiltC(g, cases, cont, ctn, base) && base >= 1
    ensures PlacesAt(g, ClauseEntries(Graph, cases, k), EntriesC(cases, cont, base))
  {
    if cases != [] {
      EnterClausesAt(g, cases, k, cont, brk, ctn, base);
      ClauseEntriesAt(g, cases[1..], k, cont, brk, ctn, base);
    }
  }

  // ----- labels -----

  ghost predicate LabelsAt(g: Layout, places: Labels, nodes: LabelNodes) {
    places.Keys == nodes.Keys && forall name :: name in places ==> PlaceAt(g, places[name], nodes[name])
  }

  lemma {:induction false} LabelsOfBlockAt(g: Layout, stmts: seq<Stmt>, k: Kont, cont: Node, brk: Option<Node>,
                                           ctn: Option<Node>, base: Node)
    requires KontAt(g, k, cont, brk, ctn) && BuiltB(g, stmts, cont, brk, ctn, base) && base >= 1
    ensures LabelsAt(g, LabelsOfBlock(Graph, stmts, k), LabelNodesB(stmts, base))
    decreases stmts, 1
  {
    if stmts != [] {
      var rest := stmts[1..];
      LabelsOfBlockAt(g, rest, k, cont, brk, ctn, base);
      var mid := EntryB(rest, cont, base);
      assert KontAt(g, Seq(rest, k), mid, brk, ctn);
      LabelsOfStmtAt(g, stmts[0], Seq(rest, k), mid, brk, ctn, base + NodesB(rest));
    }
  }

  lemma {:induction false} LabelsOfStmtAt(g: Layout, s: Stmt, k: Kont, cont: Node, brk: Option<Node>,
                                          ctn: Option<Node>, base: Node)
    requires KontAt(g, k, cont, brk, ctn) && BuiltS(g, s, cont, brk, ctn, base) && base >= 1
    ensures LabelsAt(g, LabelsOfStmt(Graph, s, k), LabelNodesS(s, base))
    decreases s, 1
  {
    match s
    case If(_, _) => LabelsOfIfAt(g, s, k, cont, brk, ctn, base);
    case CompileIf(selected, thenPart) =>
      if selected.Selected? {
        LabelsOfBlockAt(g, selected.chosen, k, cont, brk, ctn, base);
      } else {
        LabelsOfBlockAt(g, thenPart, k, cont, brk, ctn, base);
      }
    case Switch(cases) => LabelsOfClausesAt(g, cases, k, cont, brk, ctn, base + 1);
    case Repeat(_, body) => LabelsOfLoopAt(g, s, k, cont, brk, ctn, base);
    case While(_, body) => LabelsOfLoopAt(g, s, k, cont, brk, ctn, base);
    case DoWhile(_, body) => LabelsOfLoopAt(g, s, k, cont, brk, ctn, base);
    case For(_, _, _, body) => LabelsOfLoopAt(g, s, k, cont, brk, ctn, base);
    case ForEach(body) => LabelsOfLoopAt(g, s, k, cont, brk, ctn, base);
    case _ =>
  }

  lemma {:induction false} LabelsOfIfAt(g: Layout, s: Stmt, k: Kont, cont: Node, brk: Option<Node>,
                                        ctn: Option<Node>, base: Node)
    requires s.If? && KontAt(g, k, cont, brk, ctn) && BuiltS(g, s, cont, brk, ctn, base) && base >= 1
    ensures LabelsAt(g, LabelsOfStmt(Graph, s, k), LabelNodesS(s, base))
    decreases s, 0
  {
    LabelsOfBlockAt(g, s.thenBody, k, cont, brk, ctn, base + 1);
    LabelsOfBlockAt(g, s.elseBody, k, cont, brk, ctn, base + 1 + NodesB(s.thenBody));
  }

  lemma {:induction false} LabelsOfLoopAt(g: Layout, s: Stmt, k: Kont, cont: Node, brk: Option<Node>,
                                          ctn: Option<Node>, base: Node)
    requires IsLoop(s) && KontAt(g, k, cont, brk, ctn) && BuiltS(g, s, cont, brk, ctn, base) && base >= 1
    ensures LabelsAt(g, LabelsOfBlock(Graph, s.body, Loop(s, k)), LabelNodesB(s.body, TestNode(s, base) + 1))
    decreases s, 0
  {
    var test := TestNode(s, base);
    var inner := if s.Repeat? then ctn else Some(test);
    assert KontAt(g, Loop(s, k), test, Some(cont), inner);
    LabelsOfBlockAt(g, s.body, Loop(s, k), test, Some(cont), inner, test + 1);
  }

  lemma {:induction false} LabelsOfClausesAt(g: Layout, cases: seq<Clause>, k: Kont, cont: Node, brk: Option<Node>,
                                             ctn: Option<Node>, base: Node)
    requires KontAt(g, k, cont, brk, ctn) && BuiltC(g, cases, cont, ctn, base) && base >= 1
    ensures LabelsAt(g, LabelsOfClauses(Graph, cases, k), LabelNodesC(cases, base))
    decreases cases, 1
  {
    if cases != [] {
      LabelsOfClausesAt(g, cases[1..], k, cont, brk, ctn, base);
      var fall := EntryC(cases[1..], cont, base);
      assert KontAt(g, Fall(cases[1..], k), fall, Some(fall), ctn);
      LabelsOfBlockAt(g, cases[0].body, Fall(cases[1..], k), fall, Some(fall), ctn, base + NodesC(cases[1..]));
    }
  }

  // ----- the finished graph -----

  predicate Ascending(pending: seq<(Node, string)>) {
    forall i, j :: 0 <= i < j < |pending| ==> pending[i].0 < pending[j].0
  }

  function JumpEdge(labels: LabelNodes, target: string): seq<Node> {
    if target in labels then [labels[target]] else []
  }

  /** The edges after `resolveGotos`. */
  ghost predicate Resolved(g: Layout, labels: LabelNodes, final: Edges) {
    && |final| == |g.succ|
    && (forall i :: 0 <= i < |g.pending| ==>
          var (n, target) := g.pending[i];
          n < |g.succ| && final[n] == g.succ[n] + JumpEdge(labels, target))
    && (forall n :: 0 <= n < |g.succ| && !IsPending(g, n) ==> final[n] == g.succ[n])
  }

  /** The layout of a whole body. */
  ghost predicate Complete(g: Layout, body: seq<Stmt>, final: Edges) {
    && BuiltB(g, body, 0, None, None, 1)
    && HasEdges(g, 0, [])
    && Resolved(g, LabelNodesB(body, 1), final)
  }

  /** One step of the body and one edge of the graph correspond. */
  lemma {:induction false} StepAt(g: Layout, body: seq<Stmt>, final: Edges, p: Place, n: Node)
    requires Complete(g, body, final) && PlaceAt(g, p, n)
    ensures n < |final|
    ensures PlacesAt(g, Succs(Graph, LabelsOf(Graph, body), p), final[n])
  {
    match p
    case FuncEnd =>
    case Again(s, k) =>
      var cont: Node, brk, ctn, base: Node :|
        && KontAt(g, k, cont, brk, ctn)
        && BuiltS(g, s, cont, brk, ctn, base)
        && base >= 1
        && n == TestNode(s, base);
      LoopStepAt(g, s, k, cont, brk, ctn, base, false);
    case At(s, k) =>
      var cont: Node, brk, ctn :| KontAt(g, k, cont, brk, ctn) && BuiltS(g, s, cont, brk, ctn, n);
      if IsLoop(s) {
        LoopStepAt(g, s, k, cont, brk, ctn, n, true);
      } else if s.Goto? {
        GotoStepAt(g, body, final, s, k, n);
      } else {
        SimpleStepAt(g, LabelsOf(Graph, body), s, k, cont, brk, ctn, n);
      }
  }

  lemma GotoStepAt(g: Layout, body: seq<Stmt>, final: Edges, s: Stmt, k: Kont, n: Node)
    requires Complete(g, body, final) && s.Goto?
    requires n < |g.succ| && g.succ[n] == [] && (n, s.target) in g.pending
    ensures n < |final|
    ensures PlacesAt(g, Succs(Graph, LabelsOf(Graph, body), At(s, k)), final[n])
  {
    assert KontAt(g, End, 0, None, None);
    LabelsOfBlockAt(g, body, End, 0, None, None, 1);
    var i :| 0 <= i < |g.pending| && g.pending[i] == (n, s.target);
  }

  lemma {:induction false} SimpleStepAt(g: Layout, labels: Labels, s: Stmt, k: Kont, cont: Node,
                                        brk: Option<Node>, ctn: Option<Node>, n: Node)
    requires !IsLoop(s) && !s.Goto? && !s.CompileIf?
    requires KontAt(g, k, cont, brk, ctn) && BuiltS(g, s, cont, brk, ctn, n)
    ensures n < |g.succ| && !IsPending(g, n)
    ensures PlacesAt(g, Succs(Graph, labels, At(s, k)), g.succ[n])
  {
    match s
    case Break => BreakAt(g, k, cont, brk, ctn);
    case Continue => ContinueAt(g, k, cont, brk, ctn);
    case Label(_) => ResumeAt(g, k, cont, brk, ctn);
    case Plain => ResumeAt(g, k, cont, brk, ctn);
    case If(thenBody, elseBody) =>
      EnterAt(g, thenBody, k, cont, brk, ctn, n + 1);
      EnterAt(g, elseBody, k, cont, brk, ctn, n + 1 + NodesB(thenBody));
    case Switch(cases) =>
      ClauseEntriesAt(g, cases, k, cont, brk, ctn, n + 1);
      ResumeAt(g, k, cont, brk, ctn);
    case _ =>
  }

  function InnerContinue(s: Stmt, ctn: Option<Node>, base: Node): Option<Node> {
    if s.Repeat? then ctn else Some(TestNode(s, base))
  }

  lemma LoopBuilt(g: Layout, s: Stmt, cont: Node, brk: Option<Node>, ctn: Option<Node>, base: Node, initial: bool)
    requires IsLoop(s) && BuiltS(g, s, cont, brk, ctn, base)
    ensures var test := TestNode(s, base);
            && BuiltB(g, s.body, test, Some(cont), InnerContinue(s, ctn, base), test + 1)
            && HasEdges(g, if initial then base else test,
                        (if s.DoWhile? && !initial then [base] else [EntryB(s.body, test, test + 1)]) +
                        ExitEdge(Leaves(Graph, s, initial), cont))
  {
  }

  lemma {:induction false} LoopStepAt(g: Layout, s: Stmt, k: Kont, cont: Node, brk: Option<Node>,
                                      ctn: Option<Node>, base: Node, initial: bool)
    requires IsLoop(s) && KontAt(g, k, cont, brk, ctn) && BuiltS(g, s, cont, brk, ctn, base) && base >= 1
    ensures var n := if initial then base else TestNode(s, base);
            && n < |g.succ|
            && !IsPending(g, n)
            && PlacesAt(g, LoopSuccs(Graph, s, k, initial), g.succ[n])
  {
    LoopBuilt(g, s, cont, brk, ctn, base, initial);
    LoopBodyAt(g, s, k, cont, brk, ctn, base);
    ResumeAt(g, k, cont, brk, ctn);
  }

  lemma {:induction false} LoopBodyAt(g: Layout, s: Stmt, k: Kont, cont: Node, brk: Option<Node>,
                                      ctn: Option<Node>, base: Node)
    requires IsLoop(s) && KontAt(g, k, cont, brk, ctn) && BuiltS(g, s, cont, brk, ctn, base) && base >= 1
    ensures var test := TestNode(s, base);
            && KontAt(g, Loop(s, k), test, Some(cont), InnerContinue(s, ctn, base))
            && PlaceAt(g, Enter(Graph, s.body, Loop(s, k)), EntryB(s.body, test, test + 1))
            && PlaceAt(g, At(s, k), base)
  {
    LoopBuilt(g, s, cont, brk, ctn, base, true);
    var test := TestNode(s, base);
    EnterAt(g, s.body, Loop(s, k), test, Some(cont), InnerContinue(s, ctn, base), test + 1);
  }

  // ----- paths -----

  ghost predicate IsNodePath(final: Edges, path: seq<Node>) {
    && path != []
    && (forall i :: 0 <= i < |path| ==> path[i] < |final|)
    && (forall i :: 0 <= i < |path| - 1 ==> path[i + 1] in final[path[i]])
  }

  ghost predicate NodeReachable(final: Edges, from: Node, to: Node) {
    exists path :: IsNodePath(final, path) && path[0] == from && path[|path| - 1] == to
  }

  lemma StepForward(g: Layout, body: seq<Stmt>, final: Edges, p: Place, n: Node, q: Place) returns (target: Node)
    requires Complete(g, body, final) && PlaceAt(g, p, n)
    requires q in Succs(Graph, LabelsOf(Graph, body), p)
    ensures n < |final| && target in final[n] && PlaceAt(g, q, target)
  {
    StepAt(g, body, final, p, n);
    var succs := Succs(Graph, LabelsOf(Graph, body), p);
    var i :| 0 <= i < |succs| && succs[i] == q;
    target := final[n][i];
  }

  lemma StepBackward(g: Layout, body: seq<Stmt>, final: Edges, p: Place, n: Node, target: Node) returns (q: Place)
    requires Complete(g, body, final) && PlaceAt(g, p, n)
    requires n < |final| && target in final[n]
    ensures q in Succs(Graph, LabelsOf(Graph, body), p) && PlaceAt(g, q, target)
  {
    StepAt(g, body, final, p, n);
    var i :| 0 <= i < |final[n]| && final[n][i] == target;
    q := Succs(Graph, LabelsOf(Graph, body), p)[i];
  }

  /** Every path of places is a path of nodes. */
  lemma {:induction false} PathToNodes(g: Layout, body: seq<Stmt>, final: Edges, places: seq<Place>, n: Node)
      returns (nodes: seq<Node>)
    requires Complete(g, body, final)
    requires IsPath(Graph, LabelsOf(Graph, body), places) && PlaceAt(g, places[0], n)
    ensures IsNodePath(final, nodes) && nodes[0] == n
    ensures PlaceAt(g, places[|places| - 1], nodes[|nodes| - 1])
    decreases |places|
  {
    if |places| == 1 {
      StepAt(g, body, final, places[0], n);
      nodes := [n];
    } else {
      PathTail(Graph, LabelsOf(Graph, body), places);
      var next := StepForward(g, body, final, places[0], n, places[1]);
      var rest := PathToNodes(g, body, final, places[1..], next);
      nodes := [n] + rest;
      NodePathCons(final, n, rest);
    }
  }

  /** Every path of nodes is a path of places. */
  lemma {:induction false} NodesToPath(g: Layout, body: seq<Stmt>, final: Edges, nodes: seq<Node>, p: Place)
      returns (places: seq<Place>)
    requires Complete(g, body, final)
    requires IsNodePath(final, nodes) && PlaceAt(g, p, nodes[0])
    ensures IsPath(Graph, LabelsOf(Graph, body), places) && places[0] == p
    ensures PlaceAt(g, places[|places| - 1], nodes[|nodes| - 1])
    decreases |nodes|
  {
    hide PlaceAt, LabelsOf, Complete, Succs;
    if |nodes| == 1 {
      places := [p];
    } else {
      assert nodes[0 + 1] in final[nodes[0]];
      var next := StepBackward(g, body, final, p, nodes[0], nodes[1]);
      var tail := nodes[1..];
      assert IsNodePath(final, tail) by {
        forall i | 0 <= i < |tail| - 1 ensures tail[i + 1] in final[tail[i]] {
          assert nodes[i + 1 + 1] in final[nodes[i + 1]];
        }
      }
      var rest := NodesToPath(g, body, final, tail, next);
      places := [p] + rest;
      PathCons(Graph, LabelsOf(Graph, body), p, rest);
    }
  }

  lemma NodePathCons(final: Edges, n: Node, rest: seq<Node>)
    requires IsNodePath(final, rest) && n < |final| && rest[0] in final[n]
    ensures IsNodePath(final, [n] + rest)
  {
    var path := [n] + rest;
    forall i | 0 <= i < |path| - 1 ensures path[i + 1] in final[path[i]] {
      if i > 0 {
        assert rest[i - 1 + 1] in final[rest[i - 1]];
      }
    }
  }

  /** Reaching node 0 from the entry node is exactly falling off the end in the `Graph` steps. */
  lemma GraphIsExact(g: Layout, body: seq<Stmt>, final: Edges)
    requires Complete(g, body, final)
    ensures NodeReachable(final, EntryB(body, 0, 1), 0) <==> FallsOff(Graph, body)
  {
    assert KontAt(g, End, 0, None, None);
    EnterAt(g, body, End, 0, None, None, 1);
    var entry, start := EntryB(body, 0, 1), Start(Graph, body);
    assert PlaceAt(g, start, entry);
    if FallsOff(Graph, body) {
      var places :| IsRun(Graph, body, places) && places[|places| - 1] == FuncEnd;
      var nodes := PathToNodes(g, body, final, places, entry);
    }
    if NodeReachable(final, entry, 0) {
      var nodes :| IsNodePath(final, nodes) && nodes[0] == entry && nodes[|nodes| - 1] == 0;
      var places := NodesToPath(g, body, final, nodes, start);
      assert IsRun(Graph, body, places);
    }
  }
}

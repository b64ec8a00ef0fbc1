/** The return-path checker itself: the object that grows the control-flow graph in
    place, links the pending jumps and sweeps the graph with a worklist. */
module ReturnPaths {
  import opened Ast
  import opened Constants
  import opened Flow
  import opened ControlGraph
  import opened GraphBuilder

  class ReturnPathChecker {
    var successors: Edges
    var pendingGotos: seq<(Node, string)>
    var labelNodes: LabelNodes
    var breakStack: seq<Node>
    var continueStack: seq<Node>
    var reachedEnd: bool

    function State(): Builder
      reads this
    {
      Builder(successors, pendingGotos, labelNodes, breakStack, continueStack)
    }

    constructor ()
      ensures State() == INITIAL
    {
      successors := [[]];
      pendingGotos := [];
      labelNodes := map[];
      breakStack, continueStack := [], [];
      reachedEnd := false;
    }

    method AllocateNode() returns (n: Node)
      modifies this
      ensures n == old(|successors|) && State() == NewNode(old(State()))
    {
      successors := successors + [[]];
      n := |successors| - 1;
    }

    method Link(from: Node, to: Node)
      requires from < |successors|
      modifies this
      ensures State() == AddEdge(old(State()), from, to)
    {
      successors := successors[from := successors[from] + [to]];
    }

    method BuildBlock(stmts: seq<Stmt>, continuation: Node) returns (entry: Node)
      modifies this
      ensures (State(), entry) == BuildB(old(State()), stmts, continuation)
      decreases stmts, 0
    {
      entry := continuation;
      var i := |stmts|;
      assert stmts[i..] == [];
      while i > 0
        invariant 0 <= i <= |stmts|
        invariant (State(), entry) == BuildB(old(State()), stmts[i..], continuation)
      {
        i := i - 1;
        assert stmts[i..][1..] == stmts[i + 1..];
        entry := BuildStmt(stmts[i], entry);
      }
      assert stmts[0..] == stmts;
    }

    method BuildStmt(s: Stmt, continuation: Node) returns (entry: Node)
      modifies this
      ensures (State(), entry) == BuildS(old(State()), s, continuation)
      decreases s, 1
    {
      match s
      case Return => entry := AllocateNode();
      case Goto(target) =>
        entry := AllocateNode();
        pendingGotos := pendingGotos + [(entry, target)];
      case Break =>
        entry := AllocateNode();
        if breakStack != [] { Link(entry, breakStack[|breakStack| - 1]); }
      case Continue =>
        entry := AllocateNode();
        if continueStack != [] { Link(entry, continueStack[|continueStack| - 1]); }
      case If(_, _) => entry := BuildConditional(s, continuation);
      case CompileIf(selected, thenPart) =>
        if selected.Selected? {
          entry := BuildBlock(selected.chosen, continuation);
        } else {
          entry := BuildBlock(thenPart, continuation);
        }
      case Switch(_) => entry := BuildCases(s, continuation);
      case Repeat(_, _) => entry := BuildRepeat(s, continuation);
      case While(_, _) => entry := BuildWhile(s, continuation);
      case DoWhile(_, _) => entry := BuildDoWhile(s, continuation);
      case For(_, _, _, _) => entry := BuildFor(s, continuation);
      case ForEach(_) => entry := BuildForEach(s, continuation);
      case Label(name) =>
        entry := AllocateNode();
        labelNodes := labelNodes[name := entry];
        Link(entry, continuation);
      case Plain =>
        entry := AllocateNode();
        Link(entry, continuation);
    }

    method BuildConditional(s: Stmt, continuation: Node) returns (head: Node)
      requires s.If?
      modifies this
      ensures head == old(|successors|) && State() == BuildIf(old(State()), s, continuation)
      decreases s, 0
    {
      head := AllocateNode();
      SizedB(State(), s.thenBody, continuation);
      var thenEntry := BuildBlock(s.thenBody, continuation);
      Link(head, thenEntry);
      SizedB(State(), s.elseBody, continuation);
      var elseEntry := continuation;
      if s.elseBody != [] {
        elseEntry := BuildBlock(s.elseBody, continuation);
      }
      Link(head, elseEntry);
    }

    /** Clauses are built from the last to the first; each one falls through to the entry
        of the next, and that entry is also where its Break goes. */
    method BuildCases(s: Stmt, continuation: Node) returns (head: Node)
      requires s.Switch?
      modifies this
      ensures head == old(|successors|) && State() == BuildSwitch(old(State()), s, continuation)
      decreases s, 0
    {
      head := AllocateNode();
      ghost var start := State();
      var cases := s.cases;
      var hasDefault := false;
      var entries: seq<Node> := [];
      var fall := continuation;
      var i := |cases|;
      assert cases[i..] == [];
      while i > 0
        invariant 0 <= i <= |cases|
        invariant (State(), Reverse(entries)) == BuildC(start, cases[i..], continuation)
        invariant fall == if entries == [] then continuation else entries[|entries| - 1]
        invariant hasDefault == HasDefault(cases[i..])
      {
        i := i - 1;
        ghost var later := State();
        assert cases[i..][1..] == cases[i + 1..];
        DefaultSplit(cases[i..]);
        if cases[i].isDefault { hasDefault := true; }
        breakStack := breakStack + [fall];
        SizedB(State(), cases[i].body, fall);
        var entry := BuildBlock(cases[i].body, fall);
        breakStack := breakStack[..|breakStack| - 1];
        assert (State(), entry) == BuildClause(later, cases[i].body, fall);
        assert Reverse(entries + [entry]) == [entry] + Reverse(entries);
        entries := entries + [entry];
        fall := entry;
      }
      assert cases[0..] == cases;
      SizedC(start, cases, continuation);
      LinkAll(head, entries);
      if !hasDefault {
        RangeSizes(start, cases, continuation, head);
        Link(head, continuation);
      }
    }

    /** Adds edges to the collected entries in the reverse of their order. */
    method LinkAll(head: Node, entries: seq<Node>)
      requires head < |successors|
      modifies this
      ensures State() == AddEdges(old(State()), head, Reverse(entries))
    {
      ghost var before := State();
      ghost var order := Reverse(entries);
      var i := |entries|;
      while i > 0
        invariant 0 <= i <= |entries|
        invariant |successors| == |before.succ|
        invariant AddEdges(State(), head, order[|entries| - i..]) == AddEdges(before, head, order)
      {
        i := i - 1;
        ghost var k := |entries| - i - 1;
        assert order[k..][0] == entries[i] && order[k..][1..] == order[k + 1..];
        Link(head, entries[i]);
      }
    }

    method BuildRepeat(s: Stmt, continuation: Node) returns (head: Node)
      requires s.Repeat?
      modifies this
      ensures head == old(|successors|) && State() == BuildLoop(old(State()), s, continuation)
      decreases s, 0
    {
      head := AllocateNode();
      breakStack := breakStack + [continuation];
      SizedB(State(), s.body, head);
      var bodyEntry := BuildBlock(s.body, head);
      breakStack := breakStack[..|breakStack| - 1];
      Link(head, bodyEntry);
      var count := IntegerConstantValue(s.count);
      if !(count.Some? && count.value > 0) {
        Link(head, continuation);
      }
    }

    method BuildWhile(s: Stmt, continuation: Node) returns (head: Node)
      requires s.While?
      modifies this
      ensures head == old(|successors|) && State() == BuildLoop(old(State()), s, continuation)
      decreases s, 0
    {
      head := AllocateNode();
      breakStack := breakStack + [continuation];
      continueStack := continueStack + [head];
      SizedB(State(), s.body, head);
      var bodyEntry := BuildBlock(s.body, head);
      breakStack := breakStack[..|breakStack| - 1];
      continueStack := continueStack[..|continueStack| - 1];
      Link(head, bodyEntry);
      if !(IsConstTruthy(s.cond) && !BodyHasLevelBreak(s.body, 0)) {
        Link(head, continuation);
      }
    }

    method BuildDoWhile(s: Stmt, continuation: Node) returns (head: Node)
      requires s.DoWhile?
      modifies this
      ensures head == old(|successors|) && State() == BuildLoop(old(State()), s, continuation)
      decreases s, 0
    {
      hide BuildB, IsConstTruthy, BodyHasLevelBreak, NodesB, LabelNodesB, EntryB;
      head := AllocateNode();
      var test := AllocateNode();
      breakStack := breakStack + [continuation];
      continueStack := continueStack + [test];
      assert State() == OpenLoop(old(State()), s, continuation);
      SizedB(State(), s.body, test);
      var bodyEntry := BuildBlock(s.body, test);
      breakStack := breakStack[..|breakStack| - 1];
      continueStack := continueStack[..|continueStack| - 1];
      Link(head, bodyEntry);
      Link(test, head);
      if !(IsConstTruthy(s.cond) && !BodyHasLevelBreak(s.body, 0)) {
        Link(test, continuation);
      }
    }

    method BuildFor(s: Stmt, continuation: Node) returns (head: Node)
      requires s.For?
      modifies this
      ensures head == old(|successors|) && State() == BuildLoop(old(State()), s, continuation)
      decreases s, 0
    {
      head := AllocateNode();
      breakStack := breakStack + [continuation];
      continueStack := continueStack + [head];
      SizedB(State(), s.body, head);
      var bodyEntry := BuildBlock(s.body, head);
      breakStack := breakStack[..|breakStack| - 1];
      continueStack := continueStack[..|continueStack| - 1];
      Link(head, bodyEntry);
      var from, to := IntegerConstantValue(s.first), IntegerConstantValue(s.last);
      var knownRange := from.Some? && to.Some?;
      var knownEmpty := knownRange && (if s.descending then from.value < to.value else from.value > to.value);
      if !knownRange || knownEmpty {
        Link(head, continuation);
      }
    }

    method BuildForEach(s: Stmt, continuation: Node) returns (head: Node)
      requires s.ForEach?
      modifies this
      ensures head == old(|successors|) && State() == BuildLoop(old(State()), s, continuation)
      decreases s, 0
    {
      head := AllocateNode();
      breakStack := breakStack + [continuation];
      continueStack := continueStack + [head];
      SizedB(State(), s.body, head);
      var bodyEntry := BuildBlock(s.body, head);
      breakStack := breakStack[..|breakStack| - 1];
      continueStack := continueStack[..|continueStack| - 1];
      Link(head, bodyEntry);
      Link(head, continuation);
    }

    method ResolveGotos()
      requires JumpsInOrder(State()) && InRange(State())
      modifies this
      ensures Resolved(old(State()).Layout(), labelNodes, successors)
      ensures labelNodes == old(labelNodes) && InRange(State())
    {
      ghost var g := State();
      var i := 0;
      while i < |pendingGotos|
        invariant 0 <= i <= |g.pending|
        invariant State() == g.(succ := successors) && |successors| == |g.succ|
        invariant InRange(State())
        invariant forall j :: 0 <= j < i ==>
          successors[g.pending[j].0] == g.succ[g.pending[j].0] + JumpEdge(g.labels, g.pending[j].1)
        invariant forall n :: 0 <= n < |g.succ| && (forall j :: 0 <= j < i ==> g.pending[j].0 != n) ==>
          successors[n] == g.succ[n]
      {
        var (from, name) := pendingGotos[i];
        assert forall j :: 0 <= j < i ==> g.pending[j].0 != from;
        if name in labelNodes {
          RangeAddEdge(State(), from, labelNodes[name]);
          Link(from, labelNodes[name]);
        }
        i := i + 1;
      }
    }

    /** Marks every node that the entry can reach; answers whether the end is one of them. */
    method SweepFrom(entry: Node)
      requires EdgesInRange(successors) && entry < |successors|
      modifies this`reachedEnd
      ensures reachedEnd <==> NodeReachable(successors, entry, 0)
    {
      var seen := seq(|successors|, _ => false);
      var work := [entry];
      seen := seen[entry := true];
      TrivialPath(successors, entry);
      assert Swept(successors, entry, seen, work);
      while work != []
        invariant Swept(successors, entry, seen, work)
        decreases Unseen(seen), |work|
      {
        var current := work[|work| - 1];
        ghost var seenBefore, workBefore := seen, work;
        work := work[..|work| - 1];
        var i := 0;
        VisitStarts(successors, entry, seen, workBefore);
        while i < |successors[current]|
          invariant 0 <= i <= |successors[current]|
          invariant Visiting(successors, entry, seen, work, current, i)
          invariant Unseen(seen) < Unseen(seenBefore) || (Unseen(seen) == Unseen(seenBefore) && |work| < |workBefore|)
        {
          var next := successors[current][i];
          assert Below(successors[current], |successors|);
          if !seen[next] {
            VisitNew(successors, entry, seen, work, current, i);
            FewerUnseen(seen, next);
            seen := seen[next := true];
            work := work + [next];
          } else {
            VisitKnown(successors, entry, seen, work, current, i);
          }
          i := i + 1;
        }
      }
      reachedEnd := seen[0];
      if NodeReachable(successors, entry, 0) {
        ClosedUnderPaths(successors, seen, entry, 0);
      }
    }
  }

  ghost predicate AllSeen(seen: seq<bool>, nodes: seq<Node>, count: nat) {
    forall i :: 0 <= i < count && i < |nodes| ==> nodes[i] < |seen| && seen[nodes[i]]
  }

  /** Marked nodes are reachable; a marked node not waiting in the worklist has all its
      successors marked. */
  ghost predicate Swept(final: Edges, entry: Node, seen: seq<bool>, work: seq<Node>) {
    && |seen| == |final| && entry < |seen| && seen[entry]
    && AllSeen(seen, work, |work|)
    && (forall n: Node :: n < |final| && seen[n] ==> NodeReachable(final, entry, n))
    && (forall n: Node :: n < |final| && seen[n] && n !in work ==> AllSeen(seen, final[n], |final[n]|))
  }

  /** The same while the first `count` successors of `current` have been looked at. */
  ghost predicate Visiting(final: Edges, entry: Node, seen: seq<bool>, work: seq<Node>, current: Node, count: nat) {
    && |seen| == |final| && entry < |seen| && seen[entry]
    && current < |final| && seen[current]
    && AllSeen(seen, work, |work|)
    && (forall n: Node :: n < |final| && seen[n] ==> NodeReachable(final, entry, n))
    && (forall n: Node :: n < |final| && seen[n] && n !in work && n != current ==>
          AllSeen(seen, final[n], |final[n]|))
    && AllSeen(seen, final[current], count)
  }

  lemma VisitStarts(final: Edges, entry: Node, seen: seq<bool>, work: seq<Node>)
    requires Swept(final, entry, seen, work) && work != []
    ensures Visiting(final, entry, seen, work[..|work| - 1], work[|work| - 1], 0)
  {
    var rest, current := work[..|work| - 1], work[|work| - 1];
    assert work == rest + [current];
  }

  lemma VisitKnown(final: Edges, entry: Node, seen: seq<bool>, work: seq<Node>, current: Node, count: nat)
    requires Visiting(final, entry, seen, work, current, count)
    requires count < |final[current]| && final[current][count] < |seen| && seen[final[current][count]]
    ensures Visiting(final, entry, seen, work, current, count + 1)
  {
  }

  lemma VisitNew(final: Edges, entry: Node, seen: seq<bool>, work: seq<Node>, current: Node, count: nat)
    requires Visiting(final, entry, seen, work, current, count)
    requires count < |final[current]| && final[current][count] < |seen|
    ensures var next := final[current][count];
            Visiting(final, entry, seen[next := true], work + [next], current, count + 1)
  {
    var next := final[current][count];
    var after := seen[next := true];
    PathExtends(final, entry, current, next);
    forall n: Node | n < |final| && after[n] && n !in work + [next] && n != current
      ensures AllSeen(after, final[n], |final[n]|)
    {
      assert next in work + [next];
      assert seen[n] && n !in work;
      assert AllSeen(seen, final[n], |final[n]|);
    }
  }

  function Unseen(seen: seq<bool>): nat {
    if seen == [] then 0 else (if seen[0] then 0 else 1) + Unseen(seen[1..])
  }

  lemma {:induction false} FewerUnseen(seen: seq<bool>, n: Node)
    requires n < |seen| && !seen[n]
    ensures Unseen(seen[n := true]) == Unseen(seen) - 1
  {
    if n > 0 {
      FewerUnseen(seen[1..], n - 1);
      assert seen[n := true][1..] == seen[1..][n - 1 := true];
    } else {
      assert seen[n := true][1..] == seen[1..];
    }
  }

  lemma TrivialPath(final: Edges, n: Node)
    requires n < |final|
    ensures NodeReachable(final, n, n)
  {
    assert IsNodePath(final, [n]);
  }

  lemma PathExtends(final: Edges, from: Node, n: Node, next: Node)
    requires NodeReachable(final, from, n) && n < |final| && next < |final| && next in final[n]
    ensures NodeReachable(final, from, next)
  {
    var path :| IsNodePath(final, path) && path[0] == from && path[|path| - 1] == n;
    var longer := path + [next];
    forall i | 0 <= i < |longer| - 1 ensures longer[i + 1] in final[longer[i]] {
      if i < |path| - 1 {
        assert path[i + 1] in final[path[i]];
      }
    }
    assert IsNodePath(final, longer);
  }

  /** A marked set that is closed under edges holds everything its nodes can reach. */
  lemma ClosedUnderPaths(final: Edges, seen: seq<bool>, from: Node, to: Node)
    requires |seen| == |final| && from < |seen| && seen[from]
    requires forall n: Node :: n < |final| && seen[n] ==> AllSeen(seen, final[n], |final[n]|)
    requires NodeReachable(final, from, to)
    ensures to < |seen| && seen[to]
  {
    var path :| IsNodePath(final, path) && path[0] == from && path[|path| - 1] == to;
    var i := 0;
    while i < |path| - 1
      invariant 0 <= i < |path|
      invariant path[i] < |seen| && seen[path[i]]
    {
      assert path[i + 1] in final[path[i]];
      i := i + 1;
    }
  }

  function Reverse(nodes: seq<Node>): (r: seq<Node>)
    ensures |r| == |nodes| && forall i :: 0 <= i < |r| ==> r[i] == nodes[|nodes| - 1 - i]
  {
    seq(|nodes|, i requires 0 <= i < |nodes| => nodes[|nodes| - 1 - i])
  }

  lemma DefaultSplit(cases: seq<Clause>)
    requires cases != []
    ensures HasDefault(cases) <==> cases[0].isDefault || HasDefault(cases[1..])
  {
    if cases[0].isDefault {
      assert HasDefault(cases);
    }
    if HasDefault(cases[1..]) {
      var i :| 0 <= i < |cases[1..]| && cases[1..][i].isDefault;
      assert cases[i + 1].isDefault;
    }
  }

  lemma RangeSizes(start: Builder, cases: seq<Clause>, continuation: Node, head: Node)
    requires head < |start.succ|
    ensures var (built, entries) := BuildC(start, cases, continuation);
            head < |AddEdges(built, head, entries).succ|
  {
    SizedC(start, cases, continuation);
    var (built, entries) := BuildC(start, cases, continuation);
    AddEdgesEffect(built, head, entries);
  }

  /** `endIsReachable`: the answer is exact for the step relation of the graph, whatever
      the body. */
  method EndIsReachable(body: seq<Stmt>) returns (reachable: bool)
    ensures reachable <==> FallsOff(Graph, body)
  {
    var checker := new ReturnPathChecker();
    BodyBuilt(body);
    var entry := checker.BuildBlock(body, 0);
    ghost var g := checker.State();
    checker.ResolveGotos();
    checker.SweepFrom(entry);
    reachable := checker.reachedEnd;
    assert Complete(g.Layout(), body, checker.successors);
    GraphIsExact(g.Layout(), body, checker.successors);
  }
}

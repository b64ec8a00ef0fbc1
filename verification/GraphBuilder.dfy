/** The construction of the control-flow graph as a function of the builder's state,
    and the proof that what it builds is the layout described in module ControlGraph. */
module GraphBuilder {
  import opened Options
  import opened Ast
  import opened Constants
  import opened Flow
  import opened ControlGraph

  /** The fields of the checker while it builds. */
  datatype Builder = Builder(
    succ: Edges,
    pending: seq<(Node, string)>,
    labels: LabelNodes,
    breaks: seq<Node>,
    continues: seq<Node>
  ) {
    function Layout(): Layout { ControlGraph.Layout.Layout(succ, pending) }
  }

  function NewNode(b: Builder): Builder {
    b.(succ := b.succ + [[]])
  }

  function AddEdge(b: Builder, from: Node, to: Node): Builder {
    if from < |b.succ| then b.(succ := b.succ[from := b.succ[from] + [to]]) else b
  }

  function AddEdges(b: Builder, from: Node, targets: seq<Node>): Builder
    decreases targets
  {
    if targets == [] then b else AddEdges(AddEdge(b, from, targets[0]), from, targets[1..])
  }

  function Pop(stack: seq<Node>): seq<Node> {
    if stack == [] then [] else stack[..|stack| - 1]
  }

  function Top(stack: seq<Node>): Option<Node> {
    if stack == [] then None else Some(stack[|stack| - 1])
  }

  // ----- building, statement by statement -----

  function BuildB(b: Builder, stmts: seq<Stmt>, cont: Node): (Builder, Node)
    decreases stmts, 1
  {
    if stmts == [] then (b, cont)
    else
      var (later, entry) := BuildB(b, stmts[1..], cont);
      BuildS(later, stmts[0], entry)
  }

  function BuildS(b: Builder, s: Stmt, cont: Node): (Builder, Node)
    decreases s, 1
  {
    var n: Node := |b.succ|;
    match s
    case Return => (NewNode(b), n)
    case Goto(target) => (NewNode(b).(pending := b.pending + [(n, target)]), n)
    case Break =>
      (if b.breaks == [] then NewNode(b) else AddEdge(NewNode(b), n, b.breaks[|b.breaks| - 1]), n)
    case Continue =>
      (if b.continues == [] then NewNode(b) else AddEdge(NewNode(b), n, b.continues[|b.continues| - 1]), n)
    case If(_, _) => (BuildIf(b, s, cont), n)
    case CompileIf(selected, thenPart) =>
      if selected.Selected? then BuildB(b, selected.chosen, cont) else BuildB(b, thenPart, cont)
    case Switch(_) => (BuildSwitch(b, s, cont), n)
    case Label(name) => (AddEdge(NewNode(b).(labels := b.labels[name := n]), n, cont), n)
    case Plain => (AddEdge(NewNode(b), n, cont), n)
    case _ => (BuildLoop(b, s, cont), n)
  }

  function BuildIf(b: Builder, s: Stmt, cont: Node): Builder
    requires s.If?
    decreases s, 0
  {
    var head := |b.succ|;
    var (b1, thenEntry) := BuildB(NewNode(b), s.thenBody, cont);
    var (b2, elseEntry) := BuildB(AddEdge(b1, head, thenEntry), s.elseBody, cont);
    AddEdge(b2, head, elseEntry)
  }

  /** Builds the clauses from the last to the first and returns their entries in source order. */
  function BuildC(b: Builder, cases: seq<Clause>, cont: Node): (Builder, seq<Node>)
    decreases cases, 1
  {
    if cases == [] then (b, [])
    else
      var (later, entries) := BuildC(b, cases[1..], cont);
      var fall := if entries == [] then cont else entries[0];
      var (built, entry) := BuildClause(later, cases[0].body, fall);
      (built, [entry] + entries)
  }

  function BuildClause(b: Builder, body: seq<Stmt>, fall: Node): (Builder, Node)
    decreases body, 2
  {
    var (built, entry) := BuildB(b.(breaks := b.breaks + [fall]), body, fall);
    (built.(breaks := Pop(built.breaks)), entry)
  }

  function BuildSwitch(b: Builder, s: Stmt, cont: Node): Builder
    requires s.Switch?
    decreases s, 0
  {
    var head := |b.succ|;
    var (built, entries) := BuildC(NewNode(b), s.cases, cont);
    var linked := AddEdges(built, head, entries);
    if HasDefault(s.cases) then linked else AddEdge(linked, head, cont)
  }

  /** Where the loop's own test stands: at the head, or for Do-while in a node after it. */
  function OpenLoop(b: Builder, s: Stmt, cont: Node): Builder {
    var withNodes := if s.DoWhile? then NewNode(NewNode(b)) else NewNode(b);
    var test := |withNodes.succ| - 1;
    withNodes.(breaks := b.breaks + [cont],
               continues := if s.Repeat? then b.continues else b.continues + [test])
  }

  function CloseLoop(b: Builder, s: Stmt, cont: Node, head: Node, bodyEntry: Node): Builder
    requires IsLoop(s)
  {
    var popped := b.(breaks := Pop(b.breaks), continues := if s.Repeat? then b.continues else Pop(b.continues));
    var entered := AddEdge(popped, head, bodyEntry);
    var again := if s.DoWhile? then AddEdge(entered, head + 1, head) else entered;
    if Leaves(Graph, s, !s.DoWhile?) then AddEdge(again, TestNode(s, head), cont) else again
  }

  function BuildLoop(b: Builder, s: Stmt, cont: Node): Builder
    requires IsLoop(s)
    decreases s, 0
  {
    var head := |b.succ|;
    var (built, bodyEntry) := BuildB(OpenLoop(b, s, cont), s.body, TestNode(s, head));
    CloseLoop(built, s, cont, head, bodyEntry)
  }

  // ----- sizes, entries, labels and stacks -----

  predicate Sized(b: Builder, after: Builder, nodes: nat, labels: LabelNodes) {
    && |after.succ| == |b.succ| + nodes
    && after.labels == b.labels + labels
    && after.breaks == b.breaks
    && after.continues == b.continues
  }

  lemma SizedTrans(b: Builder, mid: Builder, after: Builder, n1: nat, n2: nat, l1: LabelNodes, l2: LabelNodes)
    requires Sized(b, mid, n1, l1) && Sized(mid, after, n2, l2)
    ensures Sized(b, after, n1 + n2, l1 + l2)
  {
    assert (b.labels + l1) + l2 == b.labels + (l1 + l2);
  }

  lemma {:induction false} SizedB(b: Builder, stmts: seq<Stmt>, cont: Node)
    ensures var (after, entry) := BuildB(b, stmts, cont);
            Sized(b, after, NodesB(stmts), LabelNodesB(stmts, |b.succ|)) && entry == EntryB(stmts, cont, |b.succ|)
    decreases stmts, 1
  {
    if stmts == [] {
      assert b.labels + map[] == b.labels;
    } else {
      var rest, first, base := stmts[1..], stmts[0], |b.succ|;
      SizedB(b, rest, cont);
      var (later, entry) := BuildB(b, rest, cont);
      SizedS(later, first, entry);
      var after := BuildS(later, first, entry).0;
      SizedTrans(b, later, after, NodesB(rest), NodesS(first),
                 LabelNodesB(rest, base), LabelNodesS(first, base + NodesB(rest)));
      assert BuildB(b, stmts, cont).0 == after;
    }
  }

  lemma {:induction false} SizedS(b: Builder, s: Stmt, cont: Node)
    ensures var (after, entry) := BuildS(b, s, cont);
            Sized(b, after, NodesS(s), LabelNodesS(s, |b.succ|)) && entry == EntryS(s, cont, |b.succ|)
    decreases s, 1
  {
    if IsLoop(s) {
      SizedLoop(b, s, cont);
    } else {
      match s
      case If(_, _) => SizedIf(b, s, cont);
      case CompileIf(selected, thenPart) =>
        SizedB(b, if selected.Selected? then selected.chosen else thenPart, cont);
      case Switch(_) => SizedSwitch(b, s, cont);
      case _ =>
    }
  }

  lemma {:induction false} SizedIf(b: Builder, s: Stmt, cont: Node)
    requires s.If?
    ensures Sized(b, BuildIf(b, s, cont), NodesS(s), LabelNodesS(s, |b.succ|))
    decreases s, 0
  {
    var head := |b.succ|;
    SizedB(NewNode(b), s.thenBody, cont);
    var (b1, thenEntry) := BuildB(NewNode(b), s.thenBody, cont);
    var b2 := AddEdge(b1, head, thenEntry);
    SizedB(b2, s.elseBody, cont);
    SizedTrans(NewNode(b), b2, BuildB(b2, s.elseBody, cont).0, NodesB(s.thenBody), NodesB(s.elseBody),
               LabelNodesB(s.thenBody, head + 1), LabelNodesB(s.elseBody, |b2.succ|));
  }

  lemma FirstEntry(cases: seq<Clause>, cont: Node, base: Node)
    ensures var entries := EntriesC(cases, cont, base);
            EntryC(cases, cont, base) == if entries == [] then cont else entries[0]
  {
  }

  lemma {:induction false} SizedC(b: Builder, cases: seq<Clause>, cont: Node)
    ensures var (after, entries) := BuildC(b, cases, cont);
            && Sized(b, after, NodesC(cases), LabelNodesC(cases, |b.succ|))
            && entries == EntriesC(cases, cont, |b.succ|)
    decreases cases, 1
  {
    if cases == [] {
      assert b.labels + map[] == b.labels;
    } else {
      var rest, base, body := cases[1..], |b.succ|, cases[0].body;
      SizedC(b, rest, cont);
      var later := BuildC(b, rest, cont).0;
      var fall := EntryC(rest, cont, base);
      FirstEntry(rest, cont, base);
      SizedClause(later, body, fall);
      SizedTrans(b, later, BuildClause(later, body, fall).0, NodesC(rest), NodesB(body),
                 LabelNodesC(rest, base), LabelNodesB(body, base + NodesC(rest)));
    }
  }

  lemma {:induction false} SizedClause(b: Builder, body: seq<Stmt>, fall: Node)
    ensures var (after, entry) := BuildClause(b, body, fall);
            Sized(b, after, NodesB(body), LabelNodesB(body, |b.succ|)) && entry == EntryB(body, fall, |b.succ|)
    decreases body, 2
  {
    SizedB(b.(breaks := b.breaks + [fall]), body, fall);
    assert Pop(b.breaks + [fall]) == b.breaks;
  }

  lemma {:induction false} AddEdgesEffect(b: Builder, from: Node, targets: seq<Node>)
    requires from < |b.succ|
    ensures AddEdges(b, from, targets) == b.(succ := b.succ[from := b.succ[from] + targets])
    decreases targets
  {
    if targets == [] {
      assert b.succ[from] + targets == b.succ[from];
    } else {
      AddEdgesEffect(AddEdge(b, from, targets[0]), from, targets[1..]);
      assert b.succ[from] + targets == (b.succ[from] + [targets[0]]) + targets[1..];
    }
  }

  lemma {:induction false} SizedSwitch(b: Builder, s: Stmt, cont: Node)
    requires s.Switch?
    ensures Sized(b, BuildSwitch(b, s, cont), NodesS(s), LabelNodesS(s, |b.succ|))
    decreases s, 0
  {
    SizedC(NewNode(b), s.cases, cont);
    var (built, entries) := BuildC(NewNode(b), s.cases, cont);
    AddEdgesEffect(built, |b.succ|, entries);
  }

  lemma {:induction false} SizedLoop(b: Builder, s: Stmt, cont: Node)
    requires IsLoop(s)
    ensures Sized(b, BuildLoop(b, s, cont), NodesS(s), LabelNodesS(s, |b.succ|))
    decreases s, 0
  {
    var open := OpenLoop(b, s, cont);
    SizedB(open, s.body, TestNode(s, |b.succ|));
    assert Pop(open.breaks) == b.breaks;
    assert !s.Repeat? ==> Pop(open.continues) == b.continues;
  }

  // ----- nodes once built are kept -----

  /** Nodes lo..hi have the same edges in h as in g, and no new jump starts below hi. */
  ghost predicate Kept(g: Builder, h: Builder, lo: Node, hi: Node) {
    && hi <= |g.succ| <= |h.succ|
    && (forall n :: lo <= n < hi ==> h.succ[n] == g.succ[n])
    && |g.pending| <= |h.pending|
    && (forall i :: 0 <= i < |g.pending| ==> h.pending[i] == g.pending[i])
    && (forall i :: |g.pending| <= i < |h.pending| ==> h.pending[i].0 >= hi)
  }

  lemma KeptTrans(g: Builder, h: Builder, k: Builder, lo: Node, hi: Node)
    requires Kept(g, h, lo, hi) && Kept(h, k, lo, hi)
    ensures Kept(g, k, lo, hi)
  {
  }

  lemma KeptAgree(g: Builder, h: Builder, lo: Node, hi: Node)
    requires Kept(g, h, lo, hi)
    ensures Agree(g.Layout(), h.Layout(), lo, hi)
  {
  }

  lemma KeptByEdge(g: Builder, b: Builder, from: Node, to: Node, lo: Node, hi: Node)
    requires Kept(g, b, lo, hi) && (from < lo || from >= hi)
    ensures Kept(g, AddEdge(b, from, to), lo, hi)
  {
  }

  lemma {:induction false} KeptB(b: Builder, stmts: seq<Stmt>, cont: Node)
    ensures Kept(b, BuildB(b, stmts, cont).0, 0, |b.succ|)
    decreases stmts, 1
  {
    if stmts != [] {
      KeptB(b, stmts[1..], cont);
      var (later, entry) := BuildB(b, stmts[1..], cont);
      KeptS(later, stmts[0], entry);
      KeptTrans(b, later, BuildB(b, stmts, cont).0, 0, |b.succ|);
    }
  }

  lemma {:induction false} KeptS(b: Builder, s: Stmt, cont: Node)
    ensures Kept(b, BuildS(b, s, cont).0, 0, |b.succ|)
    decreases s, 1
  {
    if IsLoop(s) {
      KeptLoop(b, s, cont);
    } else {
      match s
      case If(_, _) => KeptIf(b, s, cont);
      case CompileIf(selected, thenPart) =>
        KeptB(b, if selected.Selected? then selected.chosen else thenPart, cont);
      case Switch(_) => KeptSwitch(b, s, cont);
      case _ =>
    }
  }

  lemma {:induction false} KeptIf(b: Builder, s: Stmt, cont: Node)
    requires s.If?
    ensures Kept(b, BuildIf(b, s, cont), 0, |b.succ|)
    decreases s, 0
  {
    var head := |b.succ|;
    var (b1, thenEntry) := BuildB(NewNode(b), s.thenBody, cont);
    KeptB(NewNode(b), s.thenBody, cont);
    KeptTrans(b, NewNode(b), b1, 0, head);
    var b2 := AddEdge(b1, head, thenEntry);
    KeptByEdge(b, b1, head, thenEntry, 0, head);
    var (b3, elseEntry) := BuildB(b2, s.elseBody, cont);
    KeptB(b2, s.elseBody, cont);
    KeptTrans(b, b2, b3, 0, head);
    KeptByEdge(b, b3, head, elseEntry, 0, head);
  }

  lemma {:induction false} KeptC(b: Builder, cases: seq<Clause>, cont: Node)
    ensures Kept(b, BuildC(b, cases, cont).0, 0, |b.succ|)
    decreases cases, 1
  {
    if cases != [] {
      KeptC(b, cases[1..], cont);
      var (later, entries) := BuildC(b, cases[1..], cont);
      var fall := if entries == [] then cont else entries[0];
      KeptClause(later, cases[0].body, fall);
      KeptTrans(b, later, BuildC(b, cases, cont).0, 0, |b.succ|);
    }
  }

  lemma {:induction false} KeptClause(b: Builder, body: seq<Stmt>, fall: Node)
    ensures Kept(b, BuildClause(b, body, fall).0, 0, |b.succ|)
    decreases body, 2
  {
    KeptB(b.(breaks := b.breaks + [fall]), body, fall);
  }

  lemma {:induction false} KeptSwitch(b: Builder, s: Stmt, cont: Node)
    requires s.Switch?
    ensures Kept(b, BuildSwitch(b, s, cont), 0, |b.succ|)
    decreases s, 0
  {
    var head := |b.succ|;
    KeptC(NewNode(b), s.cases, cont);
    var (built, entries) := BuildC(NewNode(b), s.cases, cont);
    KeptTrans(b, NewNode(b), built, 0, head);
    AddEdgesEffect(built, head, entries);
    KeptByEdge(b, AddEdges(built, head, entries), head, cont, 0, head);
  }

  lemma {:induction false} KeptLoop(b: Builder, s: Stmt, cont: Node)
    requires IsLoop(s)
    ensures Kept(b, BuildLoop(b, s, cont), 0, |b.succ|)
    decreases s, 0
  {
    var head := |b.succ|;
    var open := OpenLoop(b, s, cont);
    var (built, bodyEntry) := BuildB(open, s.body, TestNode(s, head));
    KeptB(open, s.body, TestNode(s, head));
    KeptTrans(b, open, built, 0, head);
    KeptByClose(b, built, s, cont, head, bodyEntry, 0, head);
  }

  lemma KeptByClose(g: Builder, b: Builder, s: Stmt, cont: Node, head: Node, bodyEntry: Node, lo: Node, hi: Node)
    requires IsLoop(s) && Kept(g, b, lo, hi) && (TestNode(s, head) < lo || head >= hi)
    ensures Kept(g, CloseLoop(b, s, cont, head, bodyEntry), lo, hi)
  {
    var popped := b.(breaks := Pop(b.breaks), continues := if s.Repeat? then b.continues else Pop(b.continues));
    var entered := AddEdge(popped, head, bodyEntry);
    KeptByEdge(g, popped, head, bodyEntry, lo, hi);
    var again := if s.DoWhile? then AddEdge(entered, head + 1, head) else entered;
    if s.DoWhile? {
      KeptByEdge(g, entered, head + 1, head, lo, hi);
    }
    KeptByEdge(g, again, TestNode(s, head), cont, lo, hi);
  }

  // ----- jumps are recorded once, in node order -----

  ghost predicate JumpsInOrder(b: Builder) {
    Ascending(b.pending) && forall i :: 0 <= i < |b.pending| ==> b.pending[i].0 < |b.succ|
  }

  lemma {:induction false} JumpsB(b: Builder, stmts: seq<Stmt>, cont: Node)
    requires JumpsInOrder(b)
    ensures JumpsInOrder(BuildB(b, stmts, cont).0)
    decreases stmts, 1
  {
    if stmts != [] {
      JumpsB(b, stmts[1..], cont);
      var (later, entry) := BuildB(b, stmts[1..], cont);
      JumpsS(later, stmts[0], entry);
    }
  }

  lemma {:induction false} JumpsS(b: Builder, s: Stmt, cont: Node)
    requires JumpsInOrder(b)
    ensures JumpsInOrder(BuildS(b, s, cont).0)
    decreases s, 1
  {
    if IsLoop(s) {
      JumpsLoop(b, s, cont);
    } else {
      match s
      case If(_, _) => JumpsIf(b, s, cont);
      case CompileIf(selected, thenPart) =>
        JumpsB(b, if selected.Selected? then selected.chosen else thenPart, cont);
      case Switch(_) => JumpsSwitch(b, s, cont);
      case _ =>
    }
  }

  lemma JumpsAfterEdge(b: Builder, from: Node, to: Node)
    requires JumpsInOrder(b)
    ensures JumpsInOrder(AddEdge(b, from, to))
  {
  }

  lemma {:induction false} JumpsIf(b: Builder, s: Stmt, cont: Node)
    requires JumpsInOrder(b) && s.If?
    ensures JumpsInOrder(BuildIf(b, s, cont))
    decreases s, 0
  {
    JumpsB(NewNode(b), s.thenBody, cont);
    var (b1, thenEntry) := BuildB(NewNode(b), s.thenBody, cont);
    var b2 := AddEdge(b1, |b.succ|, thenEntry);
    JumpsAfterEdge(b1, |b.succ|, thenEntry);
    JumpsB(b2, s.elseBody, cont);
    var (b3, elseEntry) := BuildB(b2, s.elseBody, cont);
    JumpsAfterEdge(b3, |b.succ|, elseEntry);
  }

  lemma {:induction false} JumpsSwitch(b: Builder, s: Stmt, cont: Node)
    requires JumpsInOrder(b) && s.Switch?
    ensures JumpsInOrder(BuildSwitch(b, s, cont))
    decreases s, 0
  {
    JumpsC(NewNode(b), s.cases, cont);
    KeptC(NewNode(b), s.cases, cont);
    var (built, entries) := BuildC(NewNode(b), s.cases, cont);
    AddEdgesEffect(built, |b.succ|, entries);
    JumpsAfterEdge(AddEdges(built, |b.succ|, entries), |b.succ|, cont);
  }

  lemma {:induction false} JumpsLoop(b: Builder, s: Stmt, cont: Node)
    requires JumpsInOrder(b) && IsLoop(s)
    ensures JumpsInOrder(BuildLoop(b, s, cont))
    decreases s, 0
  {
    JumpsB(OpenLoop(b, s, cont), s.body, TestNode(s, |b.succ|));
  }

  lemma {:induction false} JumpsC(b: Builder, cases: seq<Clause>, cont: Node)
    requires JumpsInOrder(b)
    ensures JumpsInOrder(BuildC(b, cases, cont).0)
    decreases cases, 1
  {
    if cases != [] {
      JumpsC(b, cases[1..], cont);
      var (later, entries) := BuildC(b, cases[1..], cont);
      var fall := if entries == [] then cont else entries[0];
      JumpsB(later.(breaks := later.breaks + [fall]), cases[0].body, fall);
    }
  }

  // ----- what is built is the described layout -----

  /** A node allocated when the pending jumps were p keeps the edges it was given. */
  lemma OwnNode(b: Builder, h: Builder, n: Node)
    requires JumpsInOrder(b) && |b.succ| <= n < |h.succ|
    requires |b.pending| <= |h.pending|
    requires forall i :: 0 <= i < |b.pending| ==> h.pending[i] == b.pending[i]
    requires forall i :: |b.pending| <= i < |h.pending| ==> h.pending[i].0 > n
    ensures HasEdges(h.Layout(), n, h.succ[n])
  {
  }

  lemma {:induction false} BuiltOfB(b: Builder, stmts: seq<Stmt>, cont: Node)
    requires JumpsInOrder(b)
    ensures BuiltB(BuildB(b, stmts, cont).0.Layout(), stmts, cont, Top(b.breaks), Top(b.continues), |b.succ|)
    decreases stmts, 1
  {
    if stmts != [] {
      var rest := stmts[1..];
      BuiltOfB(b, rest, cont);
      SizedB(b, rest, cont);
      JumpsB(b, rest, cont);
      var (later, entry) := BuildB(b, rest, cont);
      BuiltOfS(later, stmts[0], entry);
      KeptS(later, stmts[0], entry);
      var after := BuildS(later, stmts[0], entry).0;
      KeptAgree(later, after, 0, |later.succ|);
      BuiltBAgree(later.Layout(), after.Layout(), rest, cont, Top(b.breaks), Top(b.continues), |b.succ|,
                  0, |later.succ|);
    }
  }

  lemma {:induction false} BuiltOfS(b: Builder, s: Stmt, cont: Node)
    requires JumpsInOrder(b)
    ensures BuiltS(BuildS(b, s, cont).0.Layout(), s, cont, Top(b.breaks), Top(b.continues), |b.succ|)
    decreases s, 1
  {
    if IsLoop(s) {
      BuiltOfLoop(b, s, cont);
    } else if s.If? {
      BuiltOfIf(b, s, cont);
    } else if s.Switch? {
      BuiltOfSwitch(b, s, cont);
    } else if s.CompileIf? {
      BuiltOfB(b, if s.selected.Selected? then s.selected.chosen else s.thenPart, cont);
    } else if s.Goto? {
      var after := BuildS(b, s, cont).0;
      assert after.pending[|b.pending|] == (|b.succ|, s.target);
    } else {
      OwnNode(b, BuildS(b, s, cont).0, |b.succ|);
    }
  }

  lemma {:induction false} BuiltOfIf(b: Builder, s: Stmt, cont: Node)
    requires JumpsInOrder(b) && s.If?
    ensures BuiltS(BuildIf(b, s, cont).Layout(), s, cont, Top(b.breaks), Top(b.continues), |b.succ|)
    decreases s, 0
  {
    var head := |b.succ|;
    var brk, ctn := Top(b.breaks), Top(b.continues);
    var b0 := NewNode(b);
    var (b1, thenEntry) := BuildB(b0, s.thenBody, cont);
    BuiltOfB(b0, s.thenBody, cont);
    SizedB(b0, s.thenBody, cont);
    KeptB(b0, s.thenBody, cont);
    JumpsB(b0, s.thenBody, cont);
    var b2 := AddEdge(b1, head, thenEntry);
    JumpsAfterEdge(b1, head, thenEntry);
    var (b3, elseEntry) := BuildB(b2, s.elseBody, cont);
    BuiltOfB(b2, s.elseBody, cont);
    SizedB(b2, s.elseBody, cont);
    KeptB(b2, s.elseBody, cont);
    var b4 := AddEdge(b3, head, elseEntry);
    CarriedOver(b1, b2, b3, b4, s.thenBody, cont, brk, ctn, head);
    KeptByEdge(b3, b3, head, elseEntry, head + 1, |b3.succ|);
    KeptAgree(b3, b4, head + 1, |b3.succ|);
    BuiltBAgree(b3.Layout(), b4.Layout(), s.elseBody, cont, brk, ctn, |b1.succ|, head + 1, |b3.succ|);
    OwnNode(b, b4, head);
  }

  /** The then-branch is still in place after the else-branch has been built. */
  lemma CarriedOver(b1: Builder, b2: Builder, b3: Builder, b4: Builder, stmts: seq<Stmt>, cont: Node,
                    brk: Option<Node>, ctn: Option<Node>, head: Node)
    requires BuiltB(b1.Layout(), stmts, cont, brk, ctn, head + 1) && head + 1 + NodesB(stmts) == |b1.succ|
    requires exists to :: b2 == AddEdge(b1, head, to)
    requires Kept(b2, b3, 0, |b2.succ|)
    requires exists to :: b4 == AddEdge(b3, head, to)
    ensures BuiltB(b4.Layout(), stmts, cont, brk, ctn, head + 1)
  {
    var lo, hi := head + 1, |b1.succ|;
    assert Kept(b1, b2, lo, hi);
    KeptTrans(b1, b2, b3, lo, hi);
    KeptTrans(b1, b3, b4, lo, hi);
    KeptAgree(b1, b4, lo, hi);
    BuiltBAgree(b1.Layout(), b4.Layout(), stmts, cont, brk, ctn, lo, lo, hi);
  }

  lemma {:induction false} BuiltOfC(b: Builder, cases: seq<Clause>, cont: Node)
    requires JumpsInOrder(b)
    ensures BuiltC(BuildC(b, cases, cont).0.Layout(), cases, cont, Top(b.continues), |b.succ|)
    decreases cases, 1
  {
    if cases != [] {
      var rest := cases[1..];
      BuiltOfC(b, rest, cont);
      SizedC(b, rest, cont);
      JumpsC(b, rest, cont);
      FirstEntry(rest, cont, |b.succ|);
      var later := BuildC(b, rest, cont).0;
      var fall := EntryC(rest, cont, |b.succ|);
      var after := BuildClause(later, cases[0].body, fall).0;
      BuiltOfClause(later, cases[0].body, fall);
      KeptClause(later, cases[0].body, fall);
      KeptAgree(later, after, 0, |later.succ|);
      BuiltCAgree(later.Layout(), after.Layout(), rest, cont, Top(b.continues), |b.succ|, 0, |later.succ|);
    }
  }

  lemma {:induction false} BuiltOfClause(b: Builder, body: seq<Stmt>, fall: Node)
    requires JumpsInOrder(b)
    ensures BuiltB(BuildClause(b, body, fall).0.Layout(), body, fall, Some(fall), Top(b.continues), |b.succ|)
    decreases body, 2
  {
    BuiltOfB(b.(breaks := b.breaks + [fall]), body, fall);
  }

  lemma {:induction false} BuiltOfSwitch(b: Builder, s: Stmt, cont: Node)
    requires JumpsInOrder(b) && s.Switch?
    ensures BuiltS(BuildSwitch(b, s, cont).Layout(), s, cont, Top(b.breaks), Top(b.continues), |b.succ|)
    decreases s, 0
  {
    var head := |b.succ|;
    var b0 := NewNode(b);
    var (built, entries) := BuildC(b0, s.cases, cont);
    BuiltOfC(b0, s.cases, cont);
    SizedC(b0, s.cases, cont);
    KeptC(b0, s.cases, cont);
    AddEdgesEffect(built, head, entries);
    var after := BuildSwitch(b, s, cont);
    assert Kept(built, after, head + 1, |built.succ|);
    KeptAgree(built, after, head + 1, |built.succ|);
    BuiltCAgree(built.Layout(), after.Layout(), s.cases, cont, Top(b.continues), head + 1, head + 1, |built.succ|);
    OwnNode(b, after, head);
  }

  lemma {:induction false} BuiltOfLoop(b: Builder, s: Stmt, cont: Node)
    requires JumpsInOrder(b) && IsLoop(s)
    ensures BuiltS(BuildLoop(b, s, cont).Layout(), s, cont, Top(b.breaks), Top(b.continues), |b.succ|)
    decreases s, 0
  {
    var head := |b.succ|;
    var open := OpenLoop(b, s, cont);
    var (built, bodyEntry) := BuildB(open, s.body, TestNode(s, head));
    KeptB(open, s.body, TestNode(s, head));
    SizedB(open, s.body, TestNode(s, head));
    BuiltOfB(open, s.body, TestNode(s, head));
    BodyCarriedOver(built, s, cont, head, bodyEntry, InnerContinue(s, Top(b.continues), head));
    LoopNodes(b, s, cont, built, bodyEntry);
    BuiltLoopAssembled(BuildLoop(b, s, cont).Layout(), s, cont, Top(b.breaks), Top(b.continues), head);
  }

  lemma BodyCarriedOver(built: Builder, s: Stmt, cont: Node, head: Node, bodyEntry: Node, inner: Option<Node>)
    requires IsLoop(s)
    requires BuiltB(built.Layout(), s.body, TestNode(s, head), Some(cont), inner, TestNode(s, head) + 1)
    requires TestNode(s, head) + 1 + NodesB(s.body) == |built.succ|
    ensures BuiltB(CloseLoop(built, s, cont, head, bodyEntry).Layout(), s.body, TestNode(s, head), Some(cont), inner,
                   TestNode(s, head) + 1)
  {
    var lo, hi := TestNode(s, head) + 1, |built.succ|;
    assert Kept(built, built, lo, hi);
    KeptByClose(built, built, s, cont, head, bodyEntry, lo, hi);
    var after := CloseLoop(built, s, cont, head, bodyEntry);
    KeptAgree(built, after, lo, hi);
    BuiltBAgree(built.Layout(), after.Layout(), s.body, TestNode(s, head), Some(cont), inner, lo, lo, hi);
  }

  lemma LoopNodes(b: Builder, s: Stmt, cont: Node, built: Builder, bodyEntry: Node)
    requires JumpsInOrder(b) && IsLoop(s)
    requires Kept(OpenLoop(b, s, cont), built, 0, |OpenLoop(b, s, cont).succ|)
    ensures var head := |b.succ|;
            var g := CloseLoop(built, s, cont, head, bodyEntry).Layout();
            if s.DoWhile? then
              && HasEdges(g, head, [bodyEntry])
              && HasEdges(g, head + 1, [head] + ExitEdge(Leaves(Graph, s, false), cont))
            else HasEdges(g, head, [bodyEntry] + ExitEdge(Leaves(Graph, s, true), cont))
  {
    var head := |b.succ|;
    var after := CloseLoop(built, s, cont, head, bodyEntry);
    var open := OpenLoop(b, s, cont);
    assert open.succ[head] == [];
    assert built.succ[head] == [];
    OwnNode(b, after, head);
    if s.DoWhile? {
      assert open.succ[head + 1] == [];
      assert built.succ[head + 1] == [];
      OwnNode(b, after, head + 1);
    }
  }

  lemma BuiltLoopAssembled(g: Layout, s: Stmt, cont: Node, brk: Option<Node>, ctn: Option<Node>, head: Node)
    requires IsLoop(s)
    requires BuiltB(g, s.body, TestNode(s, head), Some(cont), InnerContinue(s, ctn, head), TestNode(s, head) + 1)
    requires var bodyEntry := EntryB(s.body, TestNode(s, head), TestNode(s, head) + 1);
             if s.DoWhile? then
               && HasEdges(g, head, [bodyEntry])
               && HasEdges(g, head + 1, [head] + ExitEdge(Leaves(Graph, s, false), cont))
             else HasEdges(g, head, [bodyEntry] + ExitEdge(Leaves(Graph, s, true), cont))
    ensures BuiltS(g, s, cont, brk, ctn, head)
  {
  }

  // ----- every edge ends at a node -----

  predicate Below(nodes: seq<Node>, limit: nat) {
    forall i :: 0 <= i < |nodes| ==> nodes[i] < limit
  }

  predicate EdgesInRange(succ: Edges) {
    forall n :: 0 <= n < |succ| ==> Below(succ[n], |succ|)
  }

  predicate InRange(b: Builder) {
    && EdgesInRange(b.succ)
    && (forall name :: name in b.labels ==> b.labels[name] < |b.succ|)
    && Below(b.breaks, |b.succ|)
    && Below(b.continues, |b.succ|)
  }

  lemma RangeNewNode(b: Builder)
    requires InRange(b)
    ensures InRange(NewNode(b))
  {
    var h := NewNode(b);
    forall n | 0 <= n < |h.succ| ensures Below(h.succ[n], |h.succ|) {
      if n < |b.succ| { assert Below(b.succ[n], |b.succ|); }
    }
  }

  lemma RangeAddEdge(b: Builder, from: Node, to: Node)
    requires InRange(b) && to < |b.succ|
    ensures InRange(AddEdge(b, from, to))
  {
    var h := AddEdge(b, from, to);
    forall n | 0 <= n < |h.succ| ensures Below(h.succ[n], |h.succ|) {
      assert Below(b.succ[n], |b.succ|);
    }
  }

  lemma {:induction false} RangeB(b: Builder, stmts: seq<Stmt>, cont: Node)
    requires InRange(b) && cont < |b.succ|
    ensures var (after, entry) := BuildB(b, stmts, cont); InRange(after) && entry < |after.succ|
    decreases stmts, 1
  {
    if stmts != [] {
      RangeB(b, stmts[1..], cont);
      var (later, entry) := BuildB(b, stmts[1..], cont);
      RangeS(later, stmts[0], entry);
    }
  }

  lemma {:induction false} RangeS(b: Builder, s: Stmt, cont: Node)
    requires InRange(b) && cont < |b.succ|
    ensures var (after, entry) := BuildS(b, s, cont); InRange(after) && entry < |after.succ|
    decreases s, 1
  {
    RangeNewNode(b);
    var n := |b.succ|;
    if IsLoop(s) {
      RangeLoop(b, s, cont);
    } else if s.If? {
      RangeIf(b, s, cont);
    } else if s.Switch? {
      RangeSwitch(b, s, cont);
    } else if s.CompileIf? {
      RangeB(b, if s.selected.Selected? then s.selected.chosen else s.thenPart, cont);
    } else if s.Break? && b.breaks != [] {
      RangeAddEdge(NewNode(b), n, b.breaks[|b.breaks| - 1]);
    } else if s.Continue? && b.continues != [] {
      RangeAddEdge(NewNode(b), n, b.continues[|b.continues| - 1]);
    } else if s.Label? {
      RangeAddEdge(NewNode(b).(labels := b.labels[s.name := n]), n, cont);
    } else if s.Plain? {
      RangeAddEdge(NewNode(b), n, cont);
    }
  }

  lemma {:induction false} RangeIf(b: Builder, s: Stmt, cont: Node)
    requires InRange(b) && cont < |b.succ| && s.If?
    ensures InRange(BuildIf(b, s, cont)) && |b.succ| < |BuildIf(b, s, cont).succ|
    decreases s, 0
  {
    var head := |b.succ|;
    RangeNewNode(b);
    RangeB(NewNode(b), s.thenBody, cont);
    SizedB(NewNode(b), s.thenBody, cont);
    var (b1, thenEntry) := BuildB(NewNode(b), s.thenBody, cont);
    RangeAddEdge(b1, head, thenEntry);
    var b2 := AddEdge(b1, head, thenEntry);
    RangeB(b2, s.elseBody, cont);
    SizedB(b2, s.elseBody, cont);
    var (b3, elseEntry) := BuildB(b2, s.elseBody, cont);
    RangeAddEdge(b3, head, elseEntry);
  }

  lemma {:induction false} RangeC(b: Builder, cases: seq<Clause>, cont: Node)
    requires InRange(b) && cont < |b.succ|
    ensures var (after, entries) := BuildC(b, cases, cont);
            InRange(after) && Below(entries, |after.succ|) && |after.succ| >= |b.succ|
    decreases cases, 1
  {
    if cases != [] {
      RangeC(b, cases[1..], cont);
      var (later, entries) := BuildC(b, cases[1..], cont);
      var fall := if entries == [] then cont else entries[0];
      RangeClause(later, cases[0].body, fall);
    }
  }

  lemma {:induction false} RangeClause(b: Builder, body: seq<Stmt>, fall: Node)
    requires InRange(b) && fall < |b.succ|
    ensures var (after, entry) := BuildClause(b, body, fall);
            InRange(after) && entry < |after.succ| && |after.succ| >= |b.succ|
    decreases body, 2
  {
    RangeB(b.(breaks := b.breaks + [fall]), body, fall);
    SizedClause(b, body, fall);
  }

  lemma {:induction false} RangeAddEdges(b: Builder, from: Node, targets: seq<Node>)
    requires InRange(b) && Below(targets, |b.succ|)
    ensures InRange(AddEdges(b, from, targets)) && |AddEdges(b, from, targets).succ| == |b.succ|
    decreases targets
  {
    if targets != [] {
      RangeAddEdge(b, from, targets[0]);
      RangeAddEdges(AddEdge(b, from, targets[0]), from, targets[1..]);
    }
  }

  lemma {:induction false} RangeSwitch(b: Builder, s: Stmt, cont: Node)
    requires InRange(b) && cont < |b.succ| && s.Switch?
    ensures InRange(BuildSwitch(b, s, cont)) && |b.succ| < |BuildSwitch(b, s, cont).succ|
    decreases s, 0
  {
    RangeNewNode(b);
    RangeC(NewNode(b), s.cases, cont);
    var (built, entries) := BuildC(NewNode(b), s.cases, cont);
    RangeAddEdges(built, |b.succ|, entries);
    RangeAddEdge(AddEdges(built, |b.succ|, entries), |b.succ|, cont);
  }

  lemma {:induction false} RangeLoop(b: Builder, s: Stmt, cont: Node)
    requires InRange(b) && cont < |b.succ| && IsLoop(s)
    ensures InRange(BuildLoop(b, s, cont)) && |b.succ| < |BuildLoop(b, s, cont).succ|
    decreases s, 0
  {
    var head := |b.succ|;
    RangeOpenLoop(b, s, cont);
    var open := OpenLoop(b, s, cont);
    RangeB(open, s.body, TestNode(s, head));
    SizedB(open, s.body, TestNode(s, head));
    var (built, bodyEntry) := BuildB(open, s.body, TestNode(s, head));
    RangeCloseLoop(built, s, cont, head, bodyEntry);
  }

  lemma RangeOpenLoop(b: Builder, s: Stmt, cont: Node)
    requires InRange(b) && cont < |b.succ| && IsLoop(s)
    ensures InRange(OpenLoop(b, s, cont)) && TestNode(s, |b.succ|) < |OpenLoop(b, s, cont).succ|
  {
    RangeNewNode(b);
    RangeNewNode(NewNode(b));
  }

  lemma RangeCloseLoop(b: Builder, s: Stmt, cont: Node, head: Node, bodyEntry: Node)
    requires InRange(b) && IsLoop(s) && cont < |b.succ| && head < |b.succ| && bodyEntry < |b.succ|
    ensures InRange(CloseLoop(b, s, cont, head, bodyEntry))
  {
    var popped := b.(breaks := Pop(b.breaks), continues := if s.Repeat? then b.continues else Pop(b.continues));
    RangeAddEdge(popped, head, bodyEntry);
    var entered := AddEdge(popped, head, bodyEntry);
    RangeAddEdge(entered, head + 1, head);
    RangeAddEdge(AddEdge(entered, head + 1, head), TestNode(s, head), cont);
    RangeAddEdge(entered, TestNode(s, head), cont);
  }

  /** The builder as constructed: only the function end. */
  const INITIAL := Builder([[]], [], map[], [], [])

  /** Everything the construction of a whole body establishes. */
  lemma BodyBuilt(body: seq<Stmt>)
    ensures var (after, entry) := BuildB(INITIAL, body, 0);
            && after.breaks == [] && after.continues == []
            && after.labels == LabelNodesB(body, 1)
            && entry == EntryB(body, 0, 1) && entry < |after.succ|
            && InRange(after)
            && JumpsInOrder(after)
            && BuiltB(after.Layout(), body, 0, None, None, 1)
            && HasEdges(after.Layout(), 0, [])
  {
    var b := INITIAL;
    assert InRange(b);
    SizedB(b, body, 0);
    RangeB(b, body, 0);
    JumpsB(b, body, 0);
    BuiltOfB(b, body, 0);
    KeptB(b, body, 0);
    assert map[] + LabelNodesB(body, 1) == LabelNodesB(body, 1);
  }
}

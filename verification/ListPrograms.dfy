/** Programs over lists, and the meaning of For each: its hidden copy makes the loop run over
    the elements present at entry, whatever the body does to the list. */
module ListPrograms {
  import opened Options
  import opened Lists

  datatype Term =
    | Literal(i: int)
    | DecimalLiteral(d: real)
    | TextLiteral(s: string)
    | Var(name: string)
    | NewList(items: seq<Term>)
    | ItemAt(index: Term, list: Term)
    | LengthOf(operand: Term)

  datatype Stmt =
    | Assign(name: string, term: Term)
    | AppendTo(name: string, term: Term)
    | ReplaceItem(index: Term, name: string, term: Term)
    | RemoveItem(index: Term, name: string)
    | If(condition: Term, thenBody: seq<Stmt>, elseBody: seq<Stmt>)
    | ForEach(item: string, list: Term, body: seq<Stmt>)
    | Break
    | Continue

  type Vars = map<string, PsValue>

  datatype State = State(vars: Vars, world: World)

  datatype Evaluated = Evaluated(value: PsValue, world: World)

  datatype EvaluatedAll = EvaluatedAll(values: seq<PsValue>, world: World)

  datatype Outcome = Next(state: State) | Broke(state: State) | Continued(state: State) | Died

  // ----- terms -----

  function Eval(t: Term, vars: Vars, w: World): Option<Evaluated>
    decreases t
  {
    match t
    case Literal(i) => Some(Evaluated(Number(i), w))
    case DecimalLiteral(d) => Some(Evaluated(Decimal(d), w))
    case TextLiteral(s) => Some(Evaluated(Text(s), w))
    case Var(name) => if name in vars then Some(Evaluated(vars[name], w)) else None
    case NewList(items) =>
      (match EvalAll(items, vars, w)
       case Some(all) => Some(Evaluated(ListRef(|all.world|), all.world + [Filled(all.values)]))
       case None => None)
    case ItemAt(index, list) =>
      (match Eval(list, vars, w)
       case Some(l) =>
         (match Eval(index, vars, l.world)
          case Some(i) =>
            (match GetIn(i.world, l.value, i.value)
             case Some(v) => Some(Evaluated(v, i.world))
             case None => None)
          case None => None)
       case None => None)
    case LengthOf(operand) =>
      (match Eval(operand, vars, w)
       case Some(v) =>
         (match v.value
          case Text(s) => Some(Evaluated(Number(|s|), v.world))
          case ListRef(_) =>
            (match ItemsOf(v.world, v.value)
             case Some(items) => Some(Evaluated(Number(|items|), v.world))
             case None => None)
          case Number(_) => None
          case Decimal(_) => None)
       case None => None)
  }

  function EvalAll(ts: seq<Term>, vars: Vars, w: World): Option<EvaluatedAll>
    decreases ts
  {
    if ts == [] then Some(EvaluatedAll([], w))
    else
      match Eval(ts[0], vars, w)
      case Some(first) =>
        (match EvalAll(ts[1..], vars, first.world)
         case Some(rest) => Some(EvaluatedAll([first.value] + rest.values, rest.world))
         case None => None)
      case None => None
  }

  predicate Truthy(v: PsValue, w: World) {
    match v
    case Number(i) => i != 0
    case Decimal(d) => d != 0.0
    case Text(s) => s != ""
    case ListRef(_) => ItemsOf(w, v) != Some([])
  }

  /** A list has items exactly at the positions up to its length, and is true exactly when that
      is not zero. */
  lemma LengthCounts(list: Term, k: int, vars: Vars, w: World)
    requires var l := Eval(list, vars, w); l.Some? && ItemsOf(l.value.world, l.value.value).Some?
    ensures var l, n := Eval(list, vars, w).value, Eval(LengthOf(list), vars, w);
            && n.Some? && n.value.value.Number? && n.value.world == l.world
            && (Eval(ItemAt(Literal(k), list), vars, w).Some? <==> 1 <= k <= n.value.value.i)
            && (Truthy(l.value, l.world) <==> n.value.value.i != 0)
  {
  }

  /** The items of a new list are the values of its terms, in order. */
  lemma ItemsAreTheTerms(items: seq<Term>, k: int, vars: Vars, w: World)
    requires EvalAll(items, vars, w).Some? && 1 <= k <= |items|
    ensures var all := EvalAll(items, vars, w).value;
            && |all.values| == |items|
            && Eval(ItemAt(Literal(k), NewList(items)), vars, w) ==
               Some(Evaluated(all.values[k - 1], all.world + [Filled(all.values)]))
  {
    AllCounted(items, vars, w);
  }

  lemma {:induction false} AllCounted(items: seq<Term>, vars: Vars, w: World)
    requires EvalAll(items, vars, w).Some?
    ensures |EvalAll(items, vars, w).value.values| == |items|
  {
    if items != [] { AllCounted(items[1..], vars, Eval(items[0], vars, w).value.world); }
  }

  // ----- statements -----

  /** Every assigned name is one of the procedure's and keeps what the block gave it; the item
      name is the loop's own. */
  function Leave(outer: Vars, inner: Vars, item: string): Vars {
    map x | x in outer.Keys + inner.Keys && (x != item || x in outer) ::
      if x != item && x in inner then inner[x] else outer[x]
  }

  function WithWorld(vars: Vars, w: Option<World>): Outcome {
    match w
    case Some(world) => Next(State(vars, world))
    case None => Died
  }

  /** `ideal` runs For each over the sequence of elements itself; otherwise it runs as lowered,
      reading the copied list position by position. */
  function Exec(ideal: bool, s: Stmt, st: State): Outcome
    decreases s, 0
  {
    match s
    case Break => Broke(st)
    case Continue => Continued(st)
    case Assign(name, term) =>
      (match Eval(term, st.vars, st.world)
       case Some(v) => Next(State(st.vars[name := v.value], v.world))
       case None => Died)
    case AppendTo(name, term) =>
      (match Eval(term, st.vars, st.world)
       case Some(v) =>
         if name in st.vars then WithWorld(st.vars, AppendIn(v.world, st.vars[name], v.value)) else Died
       case None => Died)
    case ReplaceItem(index, name, term) =>
      (match EvalAll([index, term], st.vars, st.world)
       case Some(all) =>
         if name in st.vars && |all.values| == 2
         then WithWorld(st.vars, SetIn(all.world, st.vars[name], all.values[0], all.values[1])) else Died
       case None => Died)
    case RemoveItem(index, name) =>
      (match Eval(index, st.vars, st.world)
       case Some(i) =>
         if name in st.vars then WithWorld(st.vars, RemoveIn(i.world, st.vars[name], i.value)) else Died
       case None => Died)
    case If(condition, thenBody, elseBody) =>
      (match Eval(condition, st.vars, st.world)
       case Some(c) =>
         var inner := State(st.vars, c.world);
         if Truthy(c.value, c.world) then ExecAll(ideal, thenBody, inner) else ExecAll(ideal, elseBody, inner)
       case None => Died)
    case ForEach(item, list, body) =>
      (match Eval(list, st.vars, st.world)
       case Some(l) =>
         (match ItemsOf(l.world, l.value)
          case Some(items) =>
            var inner := State(st.vars, l.world + [Filled(items)]);
            if ideal then Over(item, body, items, inner)
            else Loop(item, body, ListRef(|l.world|), 1, |items|, inner)
          case None => Died)
       case None => Died)
  }

  function LeaveBlock(outer: Vars, item: string, result: Outcome): Outcome {
    match result
    case Next(s) => Next(s.(vars := Leave(outer, s.vars, item)))
    case Broke(s) => Broke(s.(vars := Leave(outer, s.vars, item)))
    case Continued(s) => Continued(s.(vars := Leave(outer, s.vars, item)))
    case Died => Died
  }

  function ExecAll(ideal: bool, body: seq<Stmt>, st: State): Outcome
    decreases body, 0
  {
    if body == [] then Next(st)
    else
      match Exec(ideal, body[0], st)
      case Next(after) => ExecAll(ideal, body[1..], after)
      case other => other
  }

  /** One turn: the item name is bound in the scope of the body. */
  function Turn(ideal: bool, item: string, body: seq<Stmt>, v: PsValue, st: State): Outcome
    decreases body, 1
  {
    LeaveBlock(st.vars, item, ExecAll(ideal, body, State(st.vars[item := v], st.world)))
  }

  /** The lowered loop: positions i to n of the copy. */
  function Loop(item: string, body: seq<Stmt>, copy: PsValue, i: int, n: int, st: State): Outcome
    decreases body, if i <= n then n + 3 - i else 2
  {
    if i > n then Next(st)
    else
      match GetIn(st.world, copy, Number(i))
      case Some(v) =>
        (match Turn(false, item, body, v, st)
         case Next(after) => Loop(item, body, copy, i + 1, n, after)
         case Continued(after) => Loop(item, body, copy, i + 1, n, after)
         case Broke(after) => Next(after)
         case Died => Died)
      case None => Died
  }

  /** What For each promises: one turn for each element, in order, up to a Break. */
  function Over(item: string, body: seq<Stmt>, elements: seq<PsValue>, st: State): Outcome
    decreases body, |elements| + 2
  {
    if elements == [] then Next(st)
    else
      match Turn(true, item, body, elements[0], st)
      case Next(after) => Over(item, body, elements[1..], after)
      case Continued(after) => Over(item, body, elements[1..], after)
      case Broke(after) => Next(after)
      case Died => Died
  }

  // ----- which lists a state can reach -----

  predicate Unseen(h: nat, vars: Vars, w: World) {
    && (forall x :: x in vars ==> vars[x] != ListRef(h))
    && (forall k :: 0 <= k < |w| ==> ListRef(h) !in w[k].items)
  }

  /** No list pointer dangles. */
  ghost predicate Sound(vars: Vars, w: World) {
    forall h: nat :: h >= |w| ==> Unseen(h, vars, w)
  }

  /** A list that nothing refers to stays so, and keeps its contents. */
  ghost predicate Keeps(vars: Vars, w: World, vars': Vars, w': World) {
    && |w| <= |w'|
    && Sound(vars', w')
    && forall h: nat :: h < |w| && Unseen(h, vars, w) ==> Unseen(h, vars', w') && w'[h] == w[h]
  }

  /** A value that names only lists of w' and none hidden in w. */
  ghost predicate Avoids(v: PsValue, vars: Vars, w: World, w': World) {
    && (v.ListRef? ==> v.handle < |w'|)
    && forall h: nat :: h < |w| && Unseen(h, vars, w) ==> v != ListRef(h)
  }

  lemma KeepsTrans(vars: Vars, w: World, vars1: Vars, w1: World, vars2: Vars, w2: World)
    requires Keeps(vars, w, vars1, w1) && Keeps(vars1, w1, vars2, w2)
    ensures Keeps(vars, w, vars2, w2)
  {
  }

  lemma BindKeeps(vars: Vars, w: World, w': World, x: string, v: PsValue)
    requires Keeps(vars, w, vars, w') && Avoids(v, vars, w, w')
    ensures Keeps(vars, w, vars[x := v], w')
  {
    var bound := vars[x := v];
    forall h: nat | h >= |w'| ensures Unseen(h, bound, w') {
      assert Unseen(h, vars, w');
    }
  }

  lemma StoredAvoids(vars: Vars, w: World, list: PsValue, k: nat)
    requires Sound(vars, w) && ItemsOf(w, list).Some? && k < |w[list.handle].items|
    ensures Avoids(w[list.handle].items[k], vars, w, w)
  {
    var v := w[list.handle].items[k];
    assert v in w[list.handle].items;
    assert v.ListRef? && v.handle >= |w| ==> Unseen(v.handle, vars, w);
  }

  lemma VarAvoids(vars: Vars, w: World, x: string)
    requires Sound(vars, w) && x in vars
    ensures Avoids(vars[x], vars, w, w)
  {
    var v := vars[x];
    assert v.ListRef? && v.handle >= |w| ==> Unseen(v.handle, vars, w);
  }

  lemma AllocateKeeps(vars: Vars, w: World, w': World, items: seq<PsValue>)
    requires Keeps(vars, w, vars, w') && forall j :: 0 <= j < |items| ==> Avoids(items[j], vars, w, w')
    ensures Keeps(vars, w, vars, w' + [Filled(items)])
    ensures Avoids(ListRef(|w'|), vars, w, w' + [Filled(items)])
  {
    var after := w' + [Filled(items)];
    forall h: nat | h >= |after| ensures Unseen(h, vars, after) {
      assert Unseen(h, vars, w');
    }
    forall h: nat | h < |w| && Unseen(h, vars, w) ensures Unseen(h, vars, after) {
      assert Unseen(h, vars, w');
    }
  }

  /** Changing a list that a variable names, bringing in no hidden list. */
  lemma UpdateKeeps(vars: Vars, w: World, w': World, x: string, b: Buffer, v: PsValue)
    requires Keeps(vars, w, vars, w') && x in vars && ItemsOf(w', vars[x]).Some?
    requires Avoids(v, vars, w, w')
    requires forall item :: item in b.items ==> item == v || item in w'[vars[x].handle].items
    ensures Keeps(vars, w, vars, w'[vars[x].handle := b])
  {
    var after := w'[vars[x].handle := b];
    forall h: nat | h >= |after| ensures Unseen(h, vars, after) {
      assert Unseen(h, vars, w');
    }
    forall h: nat | h < |w| && Unseen(h, vars, w) ensures Unseen(h, vars, after) && after[h] == w[h] {
      assert Unseen(h, vars, w');
    }
  }

  lemma {:induction false} EvalKeeps(t: Term, vars: Vars, w: World)
    requires Sound(vars, w)
    ensures var r := Eval(t, vars, w);
            r.Some? ==> Keeps(vars, w, vars, r.value.world) && Avoids(r.value.value, vars, w, r.value.world)
    decreases t
  {
    match t
    case Literal(_) =>
    case DecimalLiteral(_) =>
    case TextLiteral(_) =>
    case Var(name) => if name in vars { VarAvoids(vars, w, name); }
    case NewList(items) =>
      EvalAllKeeps(items, vars, w);
      var all := EvalAll(items, vars, w);
      if all.Some? { AllocateKeeps(vars, w, all.value.world, all.value.values); }
    case ItemAt(index, list) =>
      EvalKeeps(list, vars, w);
      var l := Eval(list, vars, w);
      if l.Some? {
        EvalKeeps(index, vars, l.value.world);
        var i := Eval(index, vars, l.value.world);
        if i.Some? {
          KeepsTrans(vars, w, vars, l.value.world, vars, i.value.world);
          var k := Position(i.value.world, l.value.value, i.value.value);
          if k.Some? { StoredAvoids(vars, i.value.world, l.value.value, k.value); }
        }
      }
    case LengthOf(operand) => EvalKeeps(operand, vars, w);
  }

  lemma {:induction false} EvalAllKeeps(ts: seq<Term>, vars: Vars, w: World)
    requires Sound(vars, w)
    ensures var r := EvalAll(ts, vars, w);
            r.Some? ==>
              && |r.value.values| == |ts|
              && Keeps(vars, w, vars, r.value.world)
              && forall j :: 0 <= j < |ts| ==> Avoids(r.value.values[j], vars, w, r.value.world)
    decreases ts
  {
    if ts != [] {
      EvalKeeps(ts[0], vars, w);
      var first := Eval(ts[0], vars, w);
      if first.Some? {
        EvalAllKeeps(ts[1..], vars, first.value.world);
        var rest := EvalAll(ts[1..], vars, first.value.world);
        if rest.Some? {
          KeepsTrans(vars, w, vars, first.value.world, vars, rest.value.world);
        }
      }
    }
  }

  // ----- statements keep hidden lists hidden -----

  ghost predicate KeptBy(vars: Vars, w: World, result: Outcome) {
    result.Died? || Keeps(vars, w, result.state.vars, result.state.world)
  }

  lemma LeaveKeeps(outer: Vars, w: World, item: string, result: Outcome)
    requires Sound(outer, w) && KeptBy(outer, w, result)
    ensures KeptBy(outer, w, LeaveBlock(outer, item, result))
  {
    if !result.Died? {
      var vars, w' := result.state.vars, result.state.world;
      forall h: nat | h >= |w'| ensures Unseen(h, Leave(outer, vars, item), w') {
        assert Unseen(h, vars, w') && Unseen(h, outer, w);
      }
    }
  }

  lemma {:induction false} ExecKeeps(s: Stmt, st: State)
    requires Sound(st.vars, st.world)
    ensures KeptBy(st.vars, st.world, Exec(false, s, st))
    decreases s, 0
  {
    match s
    case Break =>
    case Continue =>
    case Assign(name, term) =>
      EvalKeeps(term, st.vars, st.world);
      var v := Eval(term, st.vars, st.world);
      if v.Some? { BindKeeps(st.vars, st.world, v.value.world, name, v.value.value); }
    case AppendTo(name, term) =>
      EvalKeeps(term, st.vars, st.world);
      var v := Eval(term, st.vars, st.world);
      if v.Some? && name in st.vars && ItemsOf(v.value.world, st.vars[name]).Some? {
        var b := v.value.world[st.vars[name].handle];
        UpdateKeeps(st.vars, st.world, v.value.world, name, Appended(b, v.value.value), v.value.value);
      }
    case ReplaceItem(index, name, term) => ReplaceKeeps(index, name, term, st);
    case RemoveItem(index, name) => RemoveKeeps(index, name, st);
    case If(condition, thenBody, elseBody) =>
      EvalKeeps(condition, st.vars, st.world);
      var c := Eval(condition, st.vars, st.world);
      if c.Some? {
        var inner := State(st.vars, c.value.world);
        var chosen := if Truthy(c.value.value, c.value.world) then thenBody else elseBody;
        ExecAllKeeps(chosen, inner);
        KeptTrans(st, inner, ExecAll(false, chosen, inner));
      }
    case ForEach(item, list, body) =>
      EvalKeeps(list, st.vars, st.world);
      var l := Eval(list, st.vars, st.world);
      if l.Some? && ItemsOf(l.value.world, l.value.value).Some? {
        var items := ItemsOf(l.value.world, l.value.value).value;
        CopyKeeps(st.vars, l.value.world, l.value.value);
        var inner := State(st.vars, l.value.world + [Filled(items)]);
        KeepsTrans(st.vars, st.world, st.vars, l.value.world, st.vars, inner.world);
        LoopKeeps(item, body, ListRef(|l.value.world|), 1, |items|, inner);
        KeptTrans(st, inner, Loop(item, body, ListRef(|l.value.world|), 1, |items|, inner));
      }
  }

  lemma KeptTrans(st: State, inner: State, result: Outcome)
    requires Keeps(st.vars, st.world, inner.vars, inner.world) && KeptBy(inner.vars, inner.world, result)
    ensures KeptBy(st.vars, st.world, result)
  {
  }

  /** The copy is hidden, and takes its elements from a list that is not dangling. */
  lemma CopyKeeps(vars: Vars, w: World, list: PsValue)
    requires Sound(vars, w) && ItemsOf(w, list).Some?
    ensures var after := w + [Filled(ItemsOf(w, list).value)];
            Keeps(vars, w, vars, after) && Unseen(|w|, vars, after)
  {
    var items := ItemsOf(w, list).value;
    forall k | 0 <= k < |items| ensures Avoids(items[k], vars, w, w) {
      StoredAvoids(vars, w, list, k);
    }
    AllocateKeeps(vars, w, w, items);
    assert Unseen(|w|, vars, w);
  }

  lemma ReplaceKeeps(index: Term, name: string, term: Term, st: State)
    requires Sound(st.vars, st.world)
    ensures forall ideal :: KeptBy(st.vars, st.world, Exec(ideal, ReplaceItem(index, name, term), st))
  {
    EvalAllKeeps([index, term], st.vars, st.world);
    var all := EvalAll([index, term], st.vars, st.world);
    if all.Some? && name in st.vars {
      var w := all.value.world;
      var k := Position(w, st.vars[name], all.value.values[0]);
      if k.Some? {
        var b := w[st.vars[name].handle];
        UpdateKeeps(st.vars, st.world, w, name, Replaced(b, k.value, all.value.values[1]), all.value.values[1]);
      }
    }
  }

  lemma RemoveKeeps(index: Term, name: string, st: State)
    requires Sound(st.vars, st.world)
    ensures forall ideal :: KeptBy(st.vars, st.world, Exec(ideal, RemoveItem(index, name), st))
  {
    EvalKeeps(index, st.vars, st.world);
    var i := Eval(index, st.vars, st.world);
    if i.Some? && name in st.vars {
      var w := i.value.world;
      var k := Position(w, st.vars[name], i.value.value);
      if k.Some? {
        UpdateKeeps(st.vars, st.world, w, name, Removed(w[st.vars[name].handle], k.value), i.value.value);
      }
    }
  }

  lemma {:induction false} ExecAllKeeps(body: seq<Stmt>, st: State)
    requires Sound(st.vars, st.world)
    ensures KeptBy(st.vars, st.world, ExecAll(false, body, st))
    decreases body, 0
  {
    if body != [] {
      ExecKeeps(body[0], st);
      var first := Exec(false, body[0], st);
      if first.Next? {
        ExecAllKeeps(body[1..], first.state);
        KeptTrans(st, first.state, ExecAll(false, body[1..], first.state));
      }
    }
  }

  lemma {:induction false} TurnKeeps(item: string, body: seq<Stmt>, v: PsValue, st: State)
    requires Sound(st.vars, st.world) && Avoids(v, st.vars, st.world, st.world)
    ensures KeptBy(st.vars, st.world, Turn(false, item, body, v, st))
    decreases body, 1
  {
    BindKeeps(st.vars, st.world, st.world, item, v);
    var inner := State(st.vars[item := v], st.world);
    ExecAllKeeps(body, inner);
    KeptTrans(st, inner, ExecAll(false, body, inner));
    LeaveKeeps(st.vars, st.world, item, ExecAll(false, body, inner));
  }

  lemma {:induction false} LoopKeeps(item: string, body: seq<Stmt>, copy: PsValue, i: int, n: int, st: State)
    requires Sound(st.vars, st.world)
    ensures KeptBy(st.vars, st.world, Loop(item, body, copy, i, n, st))
    decreases body, if i <= n then n + 3 - i else 2
  {
    var k := Position(st.world, copy, Number(i));
    if i <= n && k.Some? {
      StoredAvoids(st.vars, st.world, copy, k.value);
      var v := GetIn(st.world, copy, Number(i)).value;
      TurnKeeps(item, body, v, st);
      var turn := Turn(false, item, body, v, st);
      if turn.Next? || turn.Continued? {
        LoopKeeps(item, body, copy, i + 1, n, turn.state);
        KeptTrans(st, turn.state, Loop(item, body, copy, i + 1, n, turn.state));
      }
    }
  }

  // ----- the lowering means what For each promises -----

  /** The lowered loop over a hidden copy is the loop over its elements: every read succeeds. */
  lemma {:induction false} LoopIsOver(item: string, body: seq<Stmt>, h: nat, i: int, items: seq<PsValue>, st: State)
    requires Sound(st.vars, st.world) && h < |st.world| && Unseen(h, st.vars, st.world)
    requires st.world[h].items == items && 1 <= i <= |items| + 1
    ensures Loop(item, body, ListRef(h), i, |items|, st) == Over(item, body, items[i - 1..], st)
    decreases body, |items| + 3 - i
  {
    if i <= |items| {
      var v := items[i - 1];
      StoredAvoids(st.vars, st.world, ListRef(h), i - 1);
      TurnKeeps(item, body, v, st);
      TurnSame(item, body, v, st);
      var turn := Turn(false, item, body, v, st);
      if turn.Next? || turn.Continued? {
        LoopIsOver(item, body, h, i + 1, items, turn.state);
        assert items[i - 1..][1..] == items[i..];
      }
    }
  }

  lemma {:induction false} TurnSame(item: string, body: seq<Stmt>, v: PsValue, st: State)
    requires Sound(st.vars, st.world) && Avoids(v, st.vars, st.world, st.world)
    ensures Turn(false, item, body, v, st) == Turn(true, item, body, v, st)
    decreases body, 1
  {
    BindKeeps(st.vars, st.world, st.world, item, v);
    ExecAllSame(body, State(st.vars[item := v], st.world));
  }

  /** Every program over lists runs alike under the lowering and under the promise. */
  lemma {:induction false} ExecAllSame(body: seq<Stmt>, st: State)
    requires Sound(st.vars, st.world)
    ensures ExecAll(false, body, st) == ExecAll(true, body, st)
    decreases body, 0
  {
    if body != [] {
      ExecSame(body[0], st);
      ExecKeeps(body[0], st);
      var first := Exec(false, body[0], st);
      if first.Next? {
        ExecAllSame(body[1..], first.state);
      }
    }
  }

  lemma {:induction false} ExecSame(s: Stmt, st: State)
    requires Sound(st.vars, st.world)
    ensures Exec(false, s, st) == Exec(true, s, st)
    decreases s, 0
  {
    if s.If? {
      EvalKeeps(s.condition, st.vars, st.world);
      var c := Eval(s.condition, st.vars, st.world);
      if c.Some? {
        var inner := State(st.vars, c.value.world);
        ExecAllSame(if Truthy(c.value.value, c.value.world) then s.thenBody else s.elseBody, inner);
      }
    } else if s.ForEach? {
      EvalKeeps(s.list, st.vars, st.world);
      var l := Eval(s.list, st.vars, st.world);
      if l.Some? && ItemsOf(l.value.world, l.value.value).Some? {
        var items := ItemsOf(l.value.world, l.value.value).value;
        CopyKeeps(st.vars, l.value.world, l.value.value);
        LoopIsOver(s.item, s.body, |l.value.world|, 1, items, State(st.vars, l.value.world + [Filled(items)]));
        assert items[0..] == items;
      }
    }
  }

  /** A whole program starts with no variables and no lists. */
  lemma ForEachIsFaithful(program: seq<Stmt>)
    ensures ExecAll(false, program, State(map[], [])) == ExecAll(true, program, State(map[], []))
  {
    ExecAllSame(program, State(map[], []));
  }

  // ----- what statements do -----

  /** Zero, empty text and the empty list are the only values a test takes for false. */
  lemma FalseValues(v: PsValue, w: World)
    requires v.ListRef? ==> ItemsOf(w, v).Some?
    ensures !Truthy(v, w) <==>
            v == Number(0) || v == Decimal(0.0) || v == Text("") || (v.ListRef? && |w[v.handle].items| == 0)
  {
  }

  /** A test picks the first block for one and the second for zero. */
  lemma IfPicks(ideal: bool, thenBody: seq<Stmt>, elseBody: seq<Stmt>, st: State)
    ensures Exec(ideal, If(Literal(1), thenBody, elseBody), st) == ExecAll(ideal, thenBody, st)
    ensures Exec(ideal, If(Literal(0), thenBody, elseBody), st) == ExecAll(ideal, elseBody, st)
  {
  }

  /** After setting item k of a variable's list to n, that item is n and the others are as before. */
  lemma ReplaceThenRead(ideal: bool, k: int, n: int, name: string, j: int, st: State)
    requires name in st.vars
    ensures var after := Exec(ideal, ReplaceItem(Literal(k), name, Literal(n)), st);
            && (after.Next? <==> Eval(ItemAt(Literal(k), Var(name)), st.vars, st.world).Some?)
            && (after.Next? ==>
                  var was, is_ := Eval(ItemAt(Literal(j), Var(name)), st.vars, st.world),
                                  Eval(ItemAt(Literal(j), Var(name)), after.state.vars, after.state.world);
                  && (was.Some? <==> is_.Some?)
                  && (was.Some? ==> is_.value.value == if j == k then Number(n) else was.value.value))
  {
    LiteralsEvaluate(k, n, st.vars, st.world);
    GetAfterSet(st.world, st.vars[name], Number(k), Number(n), st.vars[name], Number(j));
  }

  lemma LiteralsEvaluate(k: int, n: int, vars: Vars, w: World)
    ensures EvalAll([Literal(k), Literal(n)], vars, w) == Some(EvaluatedAll([Number(k), Number(n)], w))
  {
    var both, last, none: seq<Term> := [Literal(k), Literal(n)], [Literal(n)], [];
    assert both[1..] == last && last[1..] == none;
    assert EvalAll(none, vars, w) == Some(EvaluatedAll([], w));
    assert EvalAll(last, vars, w) == Some(EvaluatedAll([Number(n)] + [], w));
    assert EvalAll(both, vars, w) == Some(EvaluatedAll([Number(k)] + ([Number(n)] + []), w));
    assert [Number(k)] + ([Number(n)] + []) == [Number(k), Number(n)];
  }

  predicate SameBinding(a: Vars, b: Vars, x: string) {
    (x in a <==> x in b) && (x in a ==> a[x] == b[x])
  }

  /** A turn ends as its body does.  The item name is as it was before the loop, every other
      name as the body left it. */
  lemma TurnScopes(ideal: bool, item: string, body: seq<Stmt>, v: PsValue, st: State)
    ensures var inner, outer := ExecAll(ideal, body, State(st.vars[item := v], st.world)), Turn(ideal, item, body, v, st);
            && (inner.Died? <==> outer.Died?) && (inner.Next? <==> outer.Next?)
            && (inner.Broke? <==> outer.Broke?) && (inner.Continued? <==> outer.Continued?)
            && (!inner.Died? ==>
                  && outer.state.world == inner.state.world
                  && SameBinding(outer.state.vars, st.vars, item)
                  && forall x :: x != item && x in inner.state.vars ==> SameBinding(outer.state.vars, inner.state.vars, x))
  {
    hide ExecAll;
  }

  lemma {:induction false} ExecAllAppended(ideal: bool, a: seq<Stmt>, b: seq<Stmt>, st: State)
    ensures ExecAll(ideal, a + b, st) ==
            match ExecAll(ideal, a, st)
            case Next(after) => ExecAll(ideal, b, after)
            case other => other
    decreases |a|
  {
    if a == [] {
      assert a + b == b;
    } else {
      assert (a + b)[1..] == a[1..] + b;
      match Exec(ideal, a[0], st)
      case Next(after) => ExecAllAppended(ideal, a[1..], b, after);
      case _ =>
    }
  }

  /** Continue at the end of the body changes nothing. */
  lemma {:induction false} ContinueAtEnd(item: string, body: seq<Stmt>, elements: seq<PsValue>, st: State)
    ensures Over(item, body + [Continue], elements, st) == Over(item, body, elements, st)
    decreases |elements|
  {
    if elements != [] {
      var inside := State(st.vars[item := elements[0]], st.world);
      ExecAllAppended(true, body, [Continue], inside);
      hide ExecAll, Leave;
      var turn := Turn(true, item, body, elements[0], st);
      ContinueIs(ExecAll(true, body, inside));
      assert Turn(true, item, body + [Continue], elements[0], st) ==
             (if turn.Next? then Continued(turn.state) else turn);
      if turn.Next? || turn.Continued? { ContinueAtEnd(item, body, elements[1..], turn.state); }
    }
  }

  lemma ContinueIs(before: Outcome)
    ensures before.Next? ==>
              ExecAll(true, [Continue], before.state) == Continued(before.state)
              && ExecAll(true, [Break], before.state) == Broke(before.state)
  {
  }

  /** With a Break at its end, a body that would go on to the next element is run once. */
  lemma BreakAtEnd(item: string, body: seq<Stmt>, elements: seq<PsValue>, st: State)
    requires elements != [] && Turn(true, item, body, elements[0], st).Next?
    ensures Over(item, body + [Break], elements, st) == Turn(true, item, body, elements[0], st)
  {
    var inside := State(st.vars[item := elements[0]], st.world);
    ExecAllAppended(true, body, [Break], inside);
    hide ExecAll, Leave;
    ContinueIs(ExecAll(true, body, inside));
    var turn := Turn(true, item, body, elements[0], st);
    assert Turn(true, item, body + [Break], elements[0], st) == Broke(turn.state);
  }
}

// Loops that leave a break or continue behind, and the programs that never do.

module ShellLeaks {
  import opened ShellSyntax
  import opened ShellMachine
  import opened ShellOutcomes
  import opened ShellRefinement
  import opened Wrappers

  // ----- loops that leave a break behind -----

  /**
   In this turn a break or continue is taken where the loop does not look
   for it: in a condition that ends the loop, or in a condition or body that
   also halts the shell or returns.
   */
  predicate Escapes(L: Lang, exec: bool, s: State, node: Node)
    requires node.Loop?
  {
    var (s1, c) := RunCondition(L, exec, s, node.cond);
    if s1.flags.halted || s1.flags.returning || (c == 0) == node.until then s1.flags.ctl != NoCtl
    else
      var s2 := RunItems(L, exec, s1, node.lbody, 0, 0).0;
      s2.flags.ctl != NoCtl && (s2.flags.halted || s2.flags.returning)
  }

  lemma {:induction false} TurnEscapes(L: Lang, exec: bool, s: State, node: Node, last: int)
    requires node.Loop?
    ensures var t := LoopOnce(L, exec, s, node, last);
            && (t.0.flags.ctl != NoCtl <==> Escapes(L, exec, s, node))
            && (t.0.flags.ctl != NoCtl ==> t.2)
  {
  }

  /** Turn k, counted from 0, is reached and escapes. */
  predicate EscapesAt(L: Lang, exec: bool, s: State, node: Node, k: nat, last: int)
    requires node.Loop?
    decreases k
  {
    if k == 0 then Escapes(L, exec, s, node)
    else
      var (s1, c, done) := LoopOnce(L, exec, s, node, last);
      !done && EscapesAt(L, exec, s1, node, k - 1, c)
  }

  /** One of the first `left` turns is reached and escapes. */
  ghost predicate EscapesWithin(L: Lang, exec: bool, s: State, node: Node, left: nat, last: int)
    requires node.Loop?
  {
    exists k: nat :: k < left && EscapesAt(L, exec, s, node, k, last)
  }

  lemma {:induction false} EscapeUnfolds(L: Lang, exec: bool, s: State, node: Node, left: nat, last: int)
    requires node.Loop? && left > 0
    ensures var t := LoopOnce(L, exec, s, node, last);
            EscapesWithin(L, exec, s, node, left, last) <==>
            Escapes(L, exec, s, node) || (!t.2 && EscapesWithin(L, exec, t.0, node, left - 1, t.1))
  {
    var t := LoopOnce(L, exec, s, node, last);
    assert EscapesAt(L, exec, s, node, 0, last) == Escapes(L, exec, s, node);
    if k: nat :| k < left && EscapesAt(L, exec, s, node, k, last) {
      assert k > 0 ==> !t.2 && EscapesAt(L, exec, t.0, node, k - 1, t.1);
    }
    if !t.2 && EscapesWithin(L, exec, t.0, node, left - 1, t.1) {
      var k: nat :| k < left - 1 && EscapesAt(L, exec, t.0, node, k, t.1);
      assert EscapesAt(L, exec, s, node, k + 1, last);
    }
  }

  lemma {:induction false} TurnsLeaveBreak(L: Lang, exec: bool, s: State, node: Node, left: nat, last: int)
    requires node.Loop? && s.flags.ctl == NoCtl
    ensures RunLoop(L, exec, s, node, left, last).0.flags.ctl != NoCtl <==> EscapesWithin(L, exec, s, node, left, last)
    decreases left
  {
    if left > 0 {
      TurnEscapes(L, exec, s, node, last);
      EscapeUnfolds(L, exec, s, node, left, last);
      var t := LoopOnce(L, exec, s, node, last);
      if !t.2 {
        TurnsLeaveBreak(L, exec, t.0, node, left - 1, t.1);
      }
    }
  }

  /**
   A loop leaves a break or continue behind, which then stops every list
   outside it, exactly when one of the turns it reaches takes one where the
   loop does not look for it.
   */
  lemma {:induction false} LoopLeavesBreak(L: Lang, exec: bool, s: State, node: Node, lines: Option<Input>)
    requires node.Loop? && s.flags.ctl == NoCtl
    ensures RunFrom(L, exec, s, node, lines).0.flags.ctl != NoCtl <==>
            EscapesWithin(L, exec, SetLoop(s, lines, s.loopDepth + 1), node, MAX_LOOP_ITERATIONS, 0)
  {
    TurnsLeaveBreak(L, exec, SetLoop(s, lines, s.loopDepth + 1), node, MAX_LOOP_ITERATIONS, 0);
  }

  const BREAK_ITEM := Item(First, Simple("break"), "")

  function UntilBreak(body: seq<Item>): Node {
    Loop(true, [BREAK_ITEM], body, "", "")
  }

  /** A list of one item is the item. */
  lemma {:induction false} FirstItem(L: Lang, exec: bool, s: State, it: Item, t: State, code: int)
    requires Clean(s) && RunItem(L, exec, s, it, false, 0) == (t, code)
    ensures RunItems(L, exec, s, [it], 0, 0) == (t, code)
  {
    assert !Chained([it], 0);
    assert RunItems(L, exec, s, [it], 0, 0) == RunItems(L, exec, t, [it], 1, code);
  }

  lemma {:induction false} BreakRaises(L: Lang, exec: bool, s: State)
    requires Clean(s) && s.loopDepth > 0 && "break" !in s.store.funcs
    requires L.expand("break", s.store) == Words("break", [], None)
    ensures var r := RunItems(L, exec, s, [BREAK_ITEM], 0, 0); r.0.flags.ctl == BreakCtl && r.1 == 0
  {
    var s1 := s.(flags := s.flags.(ctl := BreakCtl));
    var s2 := s1.(store := s1.store.(lastCode := 0));
    assert RunBuiltin(L, exec, s, "break", [], None) == (s1, 0);
    assert RunCommand(L, exec, s, "break", [], None) == (s1, 0);
    assert RunSimple(L, exec, s, BREAK_ITEM) == (s1, Some(0));
    assert RunItem(L, exec, s, BREAK_ITEM, false, 0) == (s2, 0);
    FirstItem(L, exec, s, BREAK_ITEM, s2, 0);
  }

  lemma {:induction false} UntilBreakEscapes(L: Lang, exec: bool, s: State, body: seq<Item>)
    requires Clean(s) && s.loopDepth > 0 && "break" !in s.store.funcs
    requires L.expand("break", s.store) == Words("break", [], None)
    ensures RunLoop(L, exec, s, UntilBreak(body), MAX_LOOP_ITERATIONS, 0).0.flags.ctl == BreakCtl
  {
    BreakRaises(L, exec, s.(errexitOff := s.errexitOff + 1));
    assert UntilBreak(body).cond == [BREAK_ITEM];
    assert RunCondition(L, exec, s, [BREAK_ITEM]).0.flags.ctl == BreakCtl &&
      RunCondition(L, exec, s, [BREAK_ITEM]).1 == 0;
    var t := LoopOnce(L, exec, s, UntilBreak(body), 0);
    assert t.2 && t.0.flags.ctl == BreakCtl;
    assert RunLoop(L, exec, s, UntilBreak(body), MAX_LOOP_ITERATIONS, 0) == (t.0, t.1);
  }

  /** `until break; do ...; done` at the top of a program: no later line of the session runs. */
  lemma {:induction false} UntilBreakStopsTheShell(L: Lang, exec: bool, s: State, body: seq<Item>, later: seq<Item>)
    requires Idle(s) && "break" !in s.store.funcs && s.store.pipeStdin.None?
    requires L.expand("break", s.store.(loopInput := None)) == Words("break", [], None)
    ensures var after := EndRun(RunItems(L, exec, s, [Item(First, UntilBreak(body), "")], 0, 0)).0;
            after.flags.ctl == BreakCtl && RunItems(L, exec, after, later, 0, 0) == (after, 0)
  {
    var it := Item(First, UntilBreak(body), "");
    UntilBreakEscapes(L, exec, SetLoop(s, None, 1), body);
    var r := RunItem(L, exec, s, it, false, 0);
    assert RunNode(L, exec, s, it.node) == RunFrom(L, exec, s, it.node, None);
    assert r.0.flags.ctl == BreakCtl;
    FirstItem(L, exec, s, it, r.0, r.1);
    StoppedRuns(L, exec, EndRun(r).0, later);
  }

  // ----- programs that leave none -----

  // `J` names the functions that may jump: every other function is free of
  // jumps itself.

  /** Running this command does not jump. */
  predicate Harmless(J: set<string>, name: string, args: seq<string>)
    decreases |args|
  {
    && name != "break" && name != "continue" && name !in J
    && (name == "exec" && args != [] ==> Harmless(J, args[0], args[1..]))
  }

  /** An `exec` runs a command that does not jump. */
  predicate PlainExec(J: set<string>, name: string, args: seq<string>) {
    name == "exec" && args != [] ==> Harmless(J, args[0], args[1..])
  }

  /** No break or continue in these items can reach outside them. */
  ghost predicate JumpFree(L: Lang, J: set<string>, items: seq<Item>) {
    forall k :: 0 <= k < |items| ==> JumpFreeNode(L, J, items[k].node)
  }

  ghost predicate JumpFreeNode(L: Lang, J: set<string>, node: Node) {
    match node
    case Simple(text) => forall st: Store :: var w := L.expand(text, st); w.Words? ==> Harmless(J, w.name, w.args)
    case If(branches, elseBody) =>
      && (forall k :: 0 <= k < |branches| ==> JumpFree(L, J, branches[k].cond) && JumpFree(L, J, branches[k].body))
      && JumpFree(L, J, elseBody)
    case Group(_, body) => JumpFree(L, J, body)
    case Case(_, arms) => forall k :: 0 <= k < |arms| ==> JumpFree(L, J, arms[k].body)
    case For(_, _, _) => true
    case Loop(_, _, _, _, _) => true
    case Subshell(body) => JumpFree(L, J, body)
    case Func(_, _) => true
  }

  /** Jumps are taken anywhere but in the condition of an `until` and by `exec`. */
  ghost predicate Tidy(L: Lang, J: set<string>, items: seq<Item>) {
    forall k :: 0 <= k < |items| ==> TidyNode(L, J, items[k].node)
  }

  ghost predicate TidyNode(L: Lang, J: set<string>, node: Node) {
    match node
    case Simple(text) => forall st: Store :: var w := L.expand(text, st); w.Words? ==> PlainExec(J, w.name, w.args)
    case If(branches, elseBody) =>
      && (forall k :: 0 <= k < |branches| ==> Tidy(L, J, branches[k].cond) && Tidy(L, J, branches[k].body))
      && Tidy(L, J, elseBody)
    case Group(_, body) => Tidy(L, J, body)
    case Case(_, arms) => forall k :: 0 <= k < |arms| ==> Tidy(L, J, arms[k].body)
    case For(_, _, body) => Tidy(L, J, body)
    case Loop(until, cond, body, _, _) => (until ==> JumpFree(L, J, cond)) && Tidy(L, J, cond) && Tidy(L, J, body)
    case Subshell(body) => Tidy(L, J, body)
    case Func(name, body) => Tidy(L, J, body) && (name in J || JumpFree(L, J, body))
  }

  ghost predicate TidyFuncs(L: Lang, J: set<string>, funcs: map<string, seq<Item>>) {
    forall f :: f in funcs ==> Tidy(L, J, funcs[f]) && (f in J || JumpFree(L, J, funcs[f]))
  }

  /** A jump only happens inside a loop and with status 0, and an exit leaves none waiting. */
  ghost predicate Contained(L: Lang, J: set<string>, x: Context, free: bool, e: (Outcome, Store)) {
    && TidyFuncs(L, J, e.1.funcs)
    && (e.0.Jump? ==> x.inLoop && !free && e.0.ctl != NoCtl && e.0.status == 0)
    && (e.0.Exit? ==> e.0.ctl == NoCtl)
  }

  lemma {:induction false} ItemsContained(L: Lang, J: set<string>, x: Context, st: Store, items: seq<Item>, i: nat,
      last: int)
    requires i <= |items| && Tidy(L, J, items) && TidyFuncs(L, J, st.funcs)
    ensures Contained(L, J, x, JumpFree(L, J, items), EvalItems(L, x, st, items, i, last))
    decreases MAX_FUNCTION_DEPTH - |st.frames|, 1, items, 0, |items| - i
  {
    if i == |items| {
    } else if Skipped(items, i, last) {
      ItemsContained(L, J, x, st, items, i + 1, last);
    } else {
      var (o, st1) := EvalItem(L, x, st, items[i], Chained(items, i), last);
      ItemContained(L, J, x, st, items[i], Chained(items, i), last);
      if o.Normal? {
        ItemsContained(L, J, x, st1, items, i + 1, o.status);
      }
    }
  }

  lemma {:induction false} ItemContained(L: Lang, J: set<string>, x: Context, st: Store, it: Item, chained: bool,
      last: int)
    requires TidyNode(L, J, it.node) && TidyFuncs(L, J, st.funcs)
    ensures Contained(L, J, x, JumpFreeNode(L, J, it.node), EvalItem(L, x, st, it, chained, last))
    decreases MAX_FUNCTION_DEPTH - |st.frames|, 1, it, 1, 0
  {
    match it.node
    case Simple(_) =>
      SimpleContained(L, J, x, st, it);
      var (o, st1) := EvalSimple(L, x, st, it);
      if o.Some? {
        FinishContained(L, J, x, JumpFreeNode(L, J, it.node), (o.value, st1), chained);
      }
    case Subshell(body) =>
      SubshellContained(L, J, x, st, it);
      FinishContained(L, J, x, JumpFreeNode(L, J, it.node), EvalSubshell(L, x, st, it), chained);
    case _ =>
      NodeContained(L, J, x, st, it.node);
      PipeContained(L, J, x, JumpFreeNode(L, J, it.node), EvalNode(L, x, st, it.node), it.tail);
  }

  lemma {:induction false} SimpleContained(L: Lang, J: set<string>, x: Context, st: Store, it: Item)
    requires it.node.Simple? && TidyNode(L, J, it.node) && TidyFuncs(L, J, st.funcs)
    ensures var (o, st1) := EvalSimple(L, x, st, it);
            && TidyFuncs(L, J, st1.funcs)
            && (o.Some? ==> Contained(L, J, x, JumpFreeNode(L, J, it.node), (o.value, st1)))
    decreases MAX_FUNCTION_DEPTH - |st.frames|, 1, it, 0, 0
  {
    var w := L.expand(it.node.text, st);
    if w.Words? {
      assert JumpFreeNode(L, J, it.node) ==> Harmless(J, w.name, w.args);
      CommandContained(L, J, x, st, w.name, w.args, w.redirect);
    }
  }

  lemma {:induction false} SubshellContained(L: Lang, J: set<string>, x: Context, st: Store, it: Item)
    requires it.node.Subshell? && TidyNode(L, J, it.node) && TidyFuncs(L, J, st.funcs)
    ensures Contained(L, J, x, JumpFreeNode(L, J, it.node), EvalSubshell(L, x, st, it))
    decreases MAX_FUNCTION_DEPTH - |st.frames|, 1, it, 0, 0
  {
    var body := it.node.sbody;
    ItemsContained(L, J, x, st, body, 0, 0);
    var (o, st1) := EvalItems(L, x, st, body, 0, 0);
    PipeContained(L, J, x, JumpFree(L, J, body), (Consume(o), st1.(cwd := st.cwd, env := st.env)), it.tail);
  }

  lemma {:induction false} FinishContained(L: Lang, J: set<string>, x: Context, free: bool, e: (Outcome, Store),
      chained: bool)
    requires Contained(L, J, x, free, e)
    ensures Contained(L, J, x, free, Complete(x, e.1, e.0, chained))
  {
  }

  lemma {:induction false} PipeContained(L: Lang, J: set<string>, x: Context, free: bool, e: (Outcome, Store),
      tail: string)
    requires Contained(L, J, x, free, e)
    ensures Contained(L, J, x, free, EvalPipe(L, e.1, e.0, tail))
  {
  }

  lemma {:induction false} CallContained(L: Lang, J: set<string>, x: Context, free: bool, o: Outcome, st1: Store,
      redirect: Option<Input>, saved: Option<Input>)
    requires |st1.frames| > 0 && Contained(L, J, x, free, (o, st1))
    ensures Contained(L, J, x, free, (CallOutcome(o), Pop(st1, redirect, saved)))
  {
  }

  lemma {:induction false} CommandContained(L: Lang, J: set<string>, x: Context, st: Store, name: string,
      args: seq<string>, redirect: Option<Input>)
    requires TidyFuncs(L, J, st.funcs)
    requires PlainExec(J, name, args)
    ensures Contained(L, J, x, Harmless(J, name, args), EvalCommand(L, x, st, name, args, redirect))
    decreases MAX_FUNCTION_DEPTH - |st.frames|, 0, |args| + 1
  {
    if name in st.funcs {
      if |st.frames| < MAX_FUNCTION_DEPTH {
        var body := st.funcs[name];
        ItemsContained(L, J, x, Push(st, args, redirect), body, 0, 0);
        var (o, st1) := EvalItems(L, x, Push(st, args, redirect), body, 0, 0);
        CallContained(L, J, x, JumpFree(L, J, body), o, st1, redirect, st.pipeStdin);
        assert EvalCommand(L, x, st, name, args, redirect) == (CallOutcome(o), Pop(st1, redirect, st.pipeStdin));
      } else {
        assert EvalCommand(L, x, st, name, args, redirect) == (Normal(1), st);
      }
    } else if name == "exec" {
      if args != [] {
        CommandContained(L, J, x, st, args[0], args[1..], redirect);
      }
    } else {
      BuiltinContained(L, J, x, st, name, args, redirect);
    }
  }

  lemma {:induction false} BuiltinContained(L: Lang, J: set<string>, x: Context, st: Store, name: string,
      args: seq<string>, redirect: Option<Input>)
    requires TidyFuncs(L, J, st.funcs)
    ensures Contained(L, J, x, name != "break" && name != "continue", EvalBuiltin(L, x, st, name, args, redirect))
  {
    UnsetTidy(L, J, st, args, false);
  }

  lemma {:induction false} UnsetTidy(L: Lang, J: set<string>, st: Store, args: seq<string>, functions: bool)
    requires TidyFuncs(L, J, st.funcs)
    ensures TidyFuncs(L, J, Unset(st, args, functions).funcs)
    decreases |args|
  {
    if args != [] {
      var fn := args[0] == "-f" || (functions && args[0] != "-v");
      UnsetTidy(L, J, st, args[1..], fn);
      UnsetTidy(L, J, st.(funcs := st.funcs - {args[0]}), args[1..], fn);
      UnsetTidy(L, J, st.(env := st.env - {args[0]}), args[1..], fn);
    }
  }

  lemma {:induction false} NodeContained(L: Lang, J: set<string>, x: Context, st: Store, node: Node)
    requires !node.Simple? && !node.Subshell? && TidyNode(L, J, node) && TidyFuncs(L, J, st.funcs)
    ensures Contained(L, J, x, JumpFreeNode(L, J, node), EvalNode(L, x, st, node))
    decreases MAX_FUNCTION_DEPTH - |st.frames|, 1, node, 1, 0
  {
    match node
    case If(_, _) => IfContained(L, J, x, st, node, 0);
    case Group(feed, body) =>
      var (st1, input) := Feed(L, st, feed);
      ItemsContained(L, J, x, if feed == "" then st else st1.(pipeStdin := Some(input)), body, 0, 0);
    case Case(word, _) => CaseContained(L, J, x, st, node, L.word(word, st), 0);
    case For(_, words, _) => ForContained(L, J, x.(inLoop := true), st, node, ForValues(L, st, words), 0, 0);
    case Loop(_, _, _, input, feed) =>
      var (st1, lines) := Feed(L, st, feed);
      var file := L.open(input, st);
      FromContained(L, J, x, st1, node, Some(lines));
      FromContained(L, J, x, st, node, file);
      FromContained(L, J, x, st, node, st.pipeStdin);
    case Func(_, _) =>
  }

  lemma {:induction false} FromContained(L: Lang, J: set<string>, x: Context, st: Store, node: Node,
      input: Option<Input>)
    requires node.Loop? && TidyNode(L, J, node) && TidyFuncs(L, J, st.funcs)
    ensures Contained(L, J, x, true, EvalFrom(L, x, st, node, input))
    decreases MAX_FUNCTION_DEPTH - |st.frames|, 1, node, 0, MAX_LOOP_ITERATIONS + 1
  {
    LoopContained(L, J, x.(inLoop := true), st.(loopInput := input), node, MAX_LOOP_ITERATIONS, 0);
  }

  lemma {:induction false} IfContained(L: Lang, J: set<string>, x: Context, st: Store, node: Node, j: nat)
    requires node.If? && j <= |node.branches| && TidyNode(L, J, node) && TidyFuncs(L, J, st.funcs)
    ensures Contained(L, J, x, JumpFreeNode(L, J, node), EvalIf(L, x, st, node, j))
    decreases MAX_FUNCTION_DEPTH - |st.frames|, 1, node, 0, |node.branches| - j
  {
    if j == |node.branches| {
      ItemsContained(L, J, x, st, node.elseBody, 0, 0);
    } else {
      var b := node.branches[j];
      ItemsContained(L, J, x.(exempt := true), st, b.cond, 0, 0);
      var (o, st1) := EvalItems(L, x.(exempt := true), st, b.cond, 0, 0);
      ItemsContained(L, J, x, st1, b.body, 0, 0);
      IfContained(L, J, x, st1, node, j + 1);
    }
  }

  lemma {:induction false} CaseContained(L: Lang, J: set<string>, x: Context, st: Store, node: Node, word: string,
      j: nat)
    requires node.Case? && j <= |node.arms| && TidyNode(L, J, node) && TidyFuncs(L, J, st.funcs)
    ensures Contained(L, J, x, JumpFreeNode(L, J, node), EvalCase(L, x, st, node, word, j))
    decreases MAX_FUNCTION_DEPTH - |st.frames|, 1, node, 0, |node.arms| - j
  {
    if j < |node.arms| {
      ItemsContained(L, J, x, st, node.arms[j].body, 0, 0);
      CaseContained(L, J, x, st, node, word, j + 1);
    }
  }

  lemma {:induction false} ForContained(L: Lang, J: set<string>, x: Context, st: Store, node: Node,
      values: seq<string>, n: nat, last: int)
    requires node.For? && n <= |values| && x.inLoop && TidyNode(L, J, node) && TidyFuncs(L, J, st.funcs)
    ensures Contained(L, J, x, true, EvalFor(L, x, st, node, values, n, last))
    decreases MAX_FUNCTION_DEPTH - |st.frames|, 1, node, 0, |values| - n
  {
    if n < |values| && n != MAX_LOOP_ITERATIONS {
      var st0 := st.(env := st.env[node.name := values[n]]);
      ItemsContained(L, J, x, st0, node.fbody, 0, 0);
      var (o, st1) := EvalItems(L, x, st0, node.fbody, 0, 0);
      ForContained(L, J, x, st1, node, values, n + 1, Status(o));
    }
  }

  lemma {:induction false} LoopContained(L: Lang, J: set<string>, x: Context, st: Store, node: Node, left: nat,
      last: int)
    requires node.Loop? && x.inLoop && TidyNode(L, J, node) && TidyFuncs(L, J, st.funcs)
    ensures Contained(L, J, x, true, EvalLoop(L, x, st, node, left, last))
    decreases MAX_FUNCTION_DEPTH - |st.frames|, 1, node, 0, left
  {
    if left > 0 {
      TurnContained(L, J, x, st, node, last);
      var (o, st1, done) := EvalTurn(L, x, st, node, last);
      LoopContained(L, J, x, st1, node, left - 1, Status(o));
    }
  }

  lemma {:induction false} TurnContained(L: Lang, J: set<string>, x: Context, st: Store, node: Node, last: int)
    requires node.Loop? && x.inLoop && TidyNode(L, J, node) && TidyFuncs(L, J, st.funcs)
    ensures var e := EvalTurn(L, x, st, node, last); Contained(L, J, x, true, (e.0, e.1))
    decreases MAX_FUNCTION_DEPTH - |st.frames|, 1, node, 0, 0
  {
    var xc := x.(exempt := true);
    ItemsContained(L, J, xc, st, node.cond, 0, 0);
    ItemsContained(L, J, x, EvalItems(L, xc, st, node.cond, 0, 0).1, node.lbody, 0, 0);
  }

  /** A loop `until command` over a command that is no jump is as tidy as its body, whatever functions there are. */
  lemma {:induction false} CommandUntilIsTidy(L: Lang, J: set<string>, text: string, name: string, args: seq<string>,
      body: seq<Item>)
    requires forall st: Store :: var w := L.expand(text, st); w.Words? && w.name == name && w.args == args
    requires Harmless(J, name, args)
    ensures TidyNode(L, J, Loop(true, [Item(First, Simple(text), "")], body, "", "")) <==> Tidy(L, J, body)
  {
    var cond := [Item(First, Simple(text), "")];
    assert JumpFreeNode(L, J, cond[0].node) && TidyNode(L, J, cond[0].node);
  }

  /**
   If no condition of an `until` can jump, no `exec` runs a jump, and only the
   functions in `J` can jump at all, a program leaves the shell ready for the
   next line.
   */
  lemma {:induction false} TidyProgramsLeaveNone(L: Lang, J: set<string>, exec: bool, s: State, items: seq<Item>)
    requires Idle(s) && Tidy(L, J, items) && TidyFuncs(L, J, s.store.funcs)
    ensures var r := EndRun(RunItems(L, exec, s, items, 0, 0)).0; Idle(r) && TidyFuncs(L, J, r.store.funcs)
  {
    ProgramEnds(L, exec, s, items);
    ItemsContained(L, J, Context(exec, false, false), s.store, items, 0, 0);
  }
}

// The flags refine the outcomes: what the evaluator of syntax.go signals
// through mutable fields is exactly the outcome of the structured semantics.

module ShellRefinement {
  import opened ShellSyntax
  import opened ShellMachine
  import opened ShellOutcomes
  import opened Wrappers

  // ----- how flags encode an outcome -----

  predicate Clean(s: State) {
    !Stopped(s)
  }

  predicate Matches(x: Context, exec: bool, s: State) {
    x.exec == exec && x.inLoop == (s.loopDepth > 0) && x.exempt == (s.errexitOff > 0)
  }

  predicate Ready(x: Context, exec: bool, s: State) {
    Clean(s) && Matches(x, exec, s)
  }

  /** From `s`, outcome `o` with store `st` is what the flags and the status of `r` say. */
  predicate Encodes(s: State, o: Outcome, st: Store, r: (State, int)) {
    var f := r.0.flags;
    && r.0 == State(st, f, s.loopDepth, s.errexitOff)
    && f.ctl == Waiting(o) && f.halted == o.Exit? && f.returning == Returning(o)
    && match o
       case Normal(c) => r.1 == c
       case Jump(k, c) => k != NoCtl && r.1 == c
       case Return(c) => f.retCode == c
       case Exit(c, report, pinned, _, _) => f.haltCode == c && report == if pinned then f.retCode else r.1
  }

  /** What the induction carries: the encoding, and that only a function returns. */
  predicate Agree(s: State, e: (Outcome, Store), r: (State, int)) {
    Encodes(s, e.0, e.1, r) && (Returning(e.0) ==> |s.store.frames| > 0)
  }

  // ----- a stopped state runs nothing -----

  lemma {:induction false} StoppedRuns(L: Lang, exec: bool, s: State, items: seq<Item>)
    requires Stopped(s)
    ensures RunItems(L, exec, s, items, 0, 0) == (s, 0)
  {
  }

  lemma {:induction false} StoppedIf(L: Lang, exec: bool, s: State, node: Node, j: nat)
    requires Stopped(s) && node.If? && j <= |node.branches|
    ensures RunIf(L, exec, s, node, j) == (s, 0)
  {
    if j < |node.branches| {
      StoppedRuns(L, exec, s.(errexitOff := s.errexitOff + 1), node.branches[j].cond);
      StoppedRuns(L, exec, s, node.branches[j].body);
    } else {
      StoppedRuns(L, exec, s, node.elseBody);
    }
  }

  // ----- the simulation -----

  lemma {:induction false} ItemsAgree(L: Lang, x: Context, exec: bool, s: State, items: seq<Item>, i: nat, last: int)
    requires i <= |items| && Ready(x, exec, s)
    ensures Agree(s, EvalItems(L, x, s.store, items, i, last), RunItems(L, exec, s, items, i, last))
    decreases MAX_FUNCTION_DEPTH - |s.store.frames|, 1, items, 0, |items| - i
  {
    if i == |items| {
    } else if Skipped(items, i, last) {
      ItemsAgree(L, x, exec, s, items, i + 1, last);
    } else {
      var (o, st1) := EvalItem(L, x, s.store, items[i], Chained(items, i), last);
      var (s1, c) := RunItem(L, exec, s, items[i], Chained(items, i), last);
      ItemAgrees(L, x, exec, s, items[i], Chained(items, i), last);
      if o.Normal? {
        ItemsAgree(L, x, exec, s1, items, i + 1, c);
      }
    }
  }

  lemma {:induction false} ItemAgrees(L: Lang, x: Context, exec: bool, s: State, it: Item, chained: bool, last: int)
    requires Ready(x, exec, s)
    ensures Agree(s, EvalItem(L, x, s.store, it, chained, last), RunItem(L, exec, s, it, chained, last))
    decreases MAX_FUNCTION_DEPTH - |s.store.frames|, 1, it, 1, 0
  {
    match it.node
    case Simple(_) =>
      SimpleAgrees(L, x, exec, s, it);
      var (o, st1) := EvalSimple(L, x, s.store, it);
      var (s1, c) := RunSimple(L, exec, s, it);
      if o.Some? {
        FinishAgrees(L, x, s, (o.value, st1), (s1, c.value), chained);
      }
    case Subshell(_) =>
      SubshellAgrees(L, x, exec, s, it);
      FinishAgrees(L, x, s, EvalSubshell(L, x, s.store, it), RunSubshell(L, exec, s, it), chained);
    case _ =>
      NodeAgrees(L, x, exec, s, it.node);
      TailAgrees(L, x, exec, s, it, chained, last);
  }

  lemma {:induction false} TailAgrees(L: Lang, x: Context, exec: bool, s: State, it: Item, chained: bool, last: int)
    requires !it.node.Simple? && !it.node.Subshell?
    requires Agree(s, EvalNode(L, x, s.store, it.node), RunNode(L, exec, s, it.node))
    ensures Agree(s, EvalItem(L, x, s.store, it, chained, last), RunItem(L, exec, s, it, chained, last))
  {
    if IsPipe(it.tail) {
      var e := EvalNode(L, x, s.store, it.node);
      PipeAgrees(L, s, e, RunNode(L, exec, s, it.node), it.tail);
    }
  }

  lemma {:induction false} FinishAgrees(L: Lang, x: Context, s: State, e: (Outcome, Store), r: (State, int),
      chained: bool)
    requires Agree(s, e, r) && Status(e.0) == r.1 && x.exempt == (s.errexitOff > 0)
    ensures Agree(s, Complete(x, e.1, e.0, chained), (Finish(r.0, chained, r.1), r.1))
  {
  }

  lemma {:induction false} SimpleAgrees(L: Lang, x: Context, exec: bool, s: State, it: Item)
    requires Ready(x, exec, s) && it.node.Simple?
    ensures var e := EvalSimple(L, x, s.store, it);
            var r := RunSimple(L, exec, s, it);
            && e.0.Some? == r.1.Some?
            && (e.0.None? ==> r.0 == s && e.1 == s.store)
            && (e.0.Some? ==>
                  && Agree(s, (e.0.value, e.1), (r.0, r.1.value))
                  && Status(e.0.value) == r.1.value)
    decreases MAX_FUNCTION_DEPTH - |s.store.frames|, 1, it, 0, 0
  {
    var w := L.expand(it.node.text, s.store);
    if w.Words? {
      CommandAgrees(L, x, exec, s, w.name, w.args, w.redirect);
    }
  }

  lemma {:induction false} CommandAgrees(L: Lang, x: Context, exec: bool, s: State, name: string, args: seq<string>,
      redirect: Option<Input>)
    requires Ready(x, exec, s)
    ensures var e := EvalCommand(L, x, s.store, name, args, redirect);
            var r := RunCommand(L, exec, s, name, args, redirect);
            Agree(s, e, r) && Status(e.0) == r.1
    decreases MAX_FUNCTION_DEPTH - |s.store.frames|, 0, |args| + 1
  {
    if name in s.store.funcs {
      CallAgrees(L, x, exec, s, s.store.funcs[name], args, redirect);
    } else if name == "exec" {
      if args != [] {
        CommandAgrees(L, x, exec, s, args[0], args[1..], redirect);
      }
    } else {
      BuiltinAgrees(L, x, exec, s, name, args, redirect);
    }
  }

  lemma {:induction false} BuiltinAgrees(L: Lang, x: Context, exec: bool, s: State, name: string, args: seq<string>,
      redirect: Option<Input>)
    requires Ready(x, exec, s)
    ensures var e := EvalBuiltin(L, x, s.store, name, args, redirect);
            var r := RunBuiltin(L, exec, s, name, args, redirect);
            Agree(s, e, r) && Status(e.0) == r.1
  {
  }

  lemma {:induction false} CallAgrees(L: Lang, x: Context, exec: bool, s: State, body: seq<Item>, args: seq<string>,
      redirect: Option<Input>)
    requires Ready(x, exec, s)
    ensures var e := EvalCall(L, x, s.store, body, args, redirect);
            var r := CallFunction(L, exec, s, body, args, redirect);
            Agree(s, e, r) && Status(e.0) == r.1
    decreases MAX_FUNCTION_DEPTH - |s.store.frames|, 0, 0
  {
    if |s.store.frames| < MAX_FUNCTION_DEPTH {
      var s0 := PushFrame(s, args, redirect);
      ItemsAgree(L, x, exec, s0, body, 0, 0);
      PopAgrees(s, s0, EvalItems(L, x, s0.store, body, 0, 0), RunItems(L, exec, s0, body, 0, 0), redirect);
    }
  }

  lemma {:induction false} PopAgrees(s: State, s0: State, e: (Outcome, Store), r: (State, int), redirect: Option<Input>)
    requires Agree(s0, e, r) && |e.1.frames| > 0
    requires s0.loopDepth == s.loopDepth && s0.errexitOff == s.errexitOff
    ensures var r' := PopFrame(r.0, r.1, redirect, s.store.pipeStdin);
            && Agree(s, (CallOutcome(e.0), Pop(e.1, redirect, s.store.pipeStdin)), r')
            && Status(CallOutcome(e.0)) == r'.1
  {
  }

  lemma {:induction false} ConsumeAgrees(s: State, e: (Outcome, Store), r: (State, int))
    requires Clean(s) && Agree(s, e, r)
    ensures Agree(s, (Consume(e.0), e.1), LeaveSubshell(s.flags, r.0, r.1))
    ensures Status(Consume(e.0)) == LeaveSubshell(s.flags, r.0, r.1).1
  {
  }

  lemma {:induction false} PipeAgrees(L: Lang, s: State, e: (Outcome, Store), r: (State, int), tail: string)
    requires Agree(s, e, r)
    ensures Agree(s, EvalPipe(L, e.1, e.0, tail), PipeInto(L, r.0, tail))
  {
  }

  lemma {:induction false} SubshellAgrees(L: Lang, x: Context, exec: bool, s: State, it: Item)
    requires Ready(x, exec, s) && it.node.Subshell?
    ensures var e := EvalSubshell(L, x, s.store, it);
            var r := RunSubshell(L, exec, s, it);
            && Agree(s, e, r) && Status(e.0) == r.1
            && !e.0.Return? && !e.0.Exit?
    decreases MAX_FUNCTION_DEPTH - |s.store.frames|, 1, it, 0, 0
  {
    var body := it.node.sbody;
    assert EnterSubshell(s) == s;
    ItemsAgree(L, x, exec, s, body, 0, 0);
    var e := EvalItems(L, x, s.store, body, 0, 0);
    var r := RunItems(L, exec, s, body, 0, 0);
    ConsumeAgrees(s, e, r);
    var r2 := LeaveSubshell(s.flags, r.0, r.1);
    var st2 := e.1.(cwd := s.store.cwd, env := s.store.env);
    if IsPipe(it.tail) {
      PipeAgrees(L, s, (Consume(e.0), st2),
                 (RestoreVars(r2.0, s.store.cwd, s.store.env), r2.1), it.tail);
    }
  }

  lemma {:induction false} NodeAgrees(L: Lang, x: Context, exec: bool, s: State, node: Node)
    requires Ready(x, exec, s) && !node.Simple? && !node.Subshell?
    ensures Agree(s, EvalNode(L, x, s.store, node), RunNode(L, exec, s, node))
    decreases MAX_FUNCTION_DEPTH - |s.store.frames|, 1, node, 1, 0
  {
    match node
    case If(_, _) => IfAgrees(L, x, exec, s, node, 0);
    case Group(feed, body) =>
      if feed == "" {
        ItemsAgree(L, x, exec, s, body, 0, 0);
      } else {
        FedGroupAgrees(L, x, exec, s, node);
      }
    case Case(word, _) => CaseAgrees(L, x, exec, s, node, L.word(word, s.store), 0);
    case For(_, words, _) =>
      ForAgrees(L, x.(inLoop := true), exec, SetDepth(s, s.loopDepth + 1), node, ForValues(L, s.store, words), 0, 0);
    case Loop(_, _, _, input, feed) =>
      if feed != "" {
        FedLoopAgrees(L, x, exec, s, node);
      } else if input != "" {
        var lines := L.open(input, s.store);
        if lines.Some? {
          FromAgrees(L, x, exec, s, node, lines);
        }
      } else {
        FromAgrees(L, x, exec, s, node, s.store.pipeStdin);
      }
    case Func(_, _) =>
  }

  lemma {:induction false} FedGroupAgrees(L: Lang, x: Context, exec: bool, s: State, node: Node)
    requires Ready(x, exec, s) && node.Group? && node.feed != ""
    ensures Agree(s, EvalNode(L, x, s.store, node), RunNode(L, exec, s, node))
    decreases MAX_FUNCTION_DEPTH - |s.store.frames|, 1, node, 0, 0
  {
    var body := node.gbody;
    var (st1, input) := Feed(L, s.store, node.feed);
    var s2 := s.(store := st1.(pipeStdin := Some(input)));
    assert EnterSubshell(s2) == s2;
    ItemsAgree(L, x, exec, s2, body, 0, 0);
    ConsumeAgrees(s2, EvalItems(L, x, s2.store, body, 0, 0), RunItems(L, exec, s2, body, 0, 0));
  }

  lemma {:induction false} FedLoopAgrees(L: Lang, x: Context, exec: bool, s: State, node: Node)
    requires Ready(x, exec, s) && node.Loop? && node.lfeed != ""
    ensures Agree(s, EvalNode(L, x, s.store, node), RunNode(L, exec, s, node))
    decreases MAX_FUNCTION_DEPTH - |s.store.frames|, 1, node, 0, MAX_LOOP_ITERATIONS + 2
  {
    var (st1, lines) := Feed(L, s.store, node.lfeed);
    var s1 := s.(store := st1);
    assert EnterSubshell(s1) == s1;
    FromAgrees(L, x, exec, s1, node, Some(lines));
    ConsumeAgrees(s1, EvalFrom(L, x, st1, node, Some(lines)), RunFrom(L, exec, s1, node, Some(lines)));
  }

  lemma {:induction false} ConditionAgrees(L: Lang, x: Context, exec: bool, s: State, cond: seq<Item>)
    requires Ready(x, exec, s)
    ensures Agree(s, EvalItems(L, x.(exempt := true), s.store, cond, 0, 0), RunCondition(L, exec, s, cond))
    decreases MAX_FUNCTION_DEPTH - |s.store.frames|, 1, cond, 1, 0
  {
    var s0 := s.(errexitOff := s.errexitOff + 1);
    ItemsAgree(L, x.(exempt := true), exec, s0, cond, 0, 0);
    var r := RunItems(L, exec, s0, cond, 0, 0);
    assert RunCondition(L, exec, s, cond) == (r.0.(errexitOff := s.errexitOff), r.1);
  }

  lemma {:induction false} IfAgrees(L: Lang, x: Context, exec: bool, s: State, node: Node, j: nat)
    requires Ready(x, exec, s) && node.If? && j <= |node.branches|
    ensures Agree(s, EvalIf(L, x, s.store, node, j), RunIf(L, exec, s, node, j))
    decreases MAX_FUNCTION_DEPTH - |s.store.frames|, 1, node, 0, |node.branches| - j
  {
    if j == |node.branches| {
      ItemsAgree(L, x, exec, s, node.elseBody, 0, 0);
    } else {
      var b := node.branches[j];
      ConditionAgrees(L, x, exec, s, b.cond);
      var (o, st1) := EvalItems(L, x.(exempt := true), s.store, b.cond, 0, 0);
      var (s1, c) := RunCondition(L, exec, s, b.cond);
      if o.Normal? {
        if c == 0 {
          ItemsAgree(L, x, exec, s1, b.body, 0, 0);
        } else {
          IfAgrees(L, x, exec, s1, node, j + 1);
        }
      } else {
        AbandonAgrees(L, x, exec, s, node, j);
      }
    }
  }

  /** An if whose condition does not end normally runs nothing more and reports status 0. */
  lemma {:induction false} AbandonAgrees(L: Lang, x: Context, exec: bool, s: State, node: Node, j: nat)
    requires node.If? && j < |node.branches|
    requires var e := EvalItems(L, x.(exempt := true), s.store, node.branches[j].cond, 0, 0);
             && !e.0.Normal?
             && Agree(s, e, RunCondition(L, exec, s, node.branches[j].cond))
    ensures Agree(s, EvalIf(L, x, s.store, node, j), RunIf(L, exec, s, node, j))
  {
    var r := RunCondition(L, exec, s, node.branches[j].cond);
    StoppedRuns(L, exec, r.0, node.branches[j].body);
    StoppedIf(L, exec, r.0, node, j + 1);
    assert RunIf(L, exec, s, node, j) == (r.0, 0);
  }

  lemma {:induction false} CaseAgrees(L: Lang, x: Context, exec: bool, s: State, node: Node, word: string, j: nat)
    requires Ready(x, exec, s) && node.Case? && j <= |node.arms|
    ensures Agree(s, EvalCase(L, x, s.store, node, word, j), RunCase(L, exec, s, node, word, j))
    decreases MAX_FUNCTION_DEPTH - |s.store.frames|, 1, node, 0, |node.arms| - j
  {
    if j == |node.arms| {
    } else if ArmMatches(L, s.store, node.arms[j].patterns, word) {
      ItemsAgree(L, x, exec, s, node.arms[j].body, 0, 0);
    } else {
      CaseAgrees(L, x, exec, s, node, word, j + 1);
    }
  }

  lemma {:induction false} ForAgrees(L: Lang, x: Context, exec: bool, s: State, node: Node, values: seq<string>,
      n: nat, last: int)
    requires Ready(x, exec, s) && x.inLoop && node.For? && n <= |values|
    ensures Agree(s, EvalFor(L, x, s.store, node, values, n, last), RunFor(L, exec, s, node, values, n, last))
    decreases MAX_FUNCTION_DEPTH - |s.store.frames|, 1, node, 0, |values| - n
  {
    if n < |values| && n != MAX_LOOP_ITERATIONS {
      var s0 := SetVar(s, node.name, values[n]);
      ItemsAgree(L, x, exec, s0, node.fbody, 0, 0);
      var e := EvalItems(L, x, s0.store, node.fbody, 0, 0);
      var r := RunItems(L, exec, s0, node.fbody, 0, 0);
      BodyAgrees(s0, e, r);
      if !EndsLoop(e.0) {
        ForAgrees(L, x, exec, AfterBody(r.0).0, node, values, n + 1, r.1);
      }
    }
  }

  lemma {:induction false} FromAgrees(L: Lang, x: Context, exec: bool, s: State, node: Node, lines: Option<Input>)
    requires Ready(x, exec, s) && node.Loop?
    ensures Agree(s, EvalFrom(L, x, s.store, node, lines), RunFrom(L, exec, s, node, lines))
    decreases MAX_FUNCTION_DEPTH - |s.store.frames|, 1, node, 0, MAX_LOOP_ITERATIONS + 1
  {
    LoopAgrees(L, x.(inLoop := true), exec, SetLoop(s, lines, s.loopDepth + 1), node, MAX_LOOP_ITERATIONS, 0);
  }

  lemma {:induction false} LoopAgrees(L: Lang, x: Context, exec: bool, s: State, node: Node, left: nat, last: int)
    requires Ready(x, exec, s) && x.inLoop && node.Loop?
    ensures Agree(s, EvalLoop(L, x, s.store, node, left, last), RunLoop(L, exec, s, node, left, last))
    decreases MAX_FUNCTION_DEPTH - |s.store.frames|, 1, node, 0, left
  {
    if left > 0 {
      TurnAgrees(L, x, exec, s, node, last);
      var e := EvalTurn(L, x, s.store, node, last);
      var r := LoopOnce(L, exec, s, node, last);
      var e1 := EvalLoop(L, x, s.store, node, left, last);
      var r1 := RunLoop(L, exec, s, node, left, last);
      if r.2 {
        assert e1 == (e.0, e.1) && r1 == (r.0, r.1);
      } else {
        LoopAgrees(L, x, exec, r.0, node, left - 1, r.1);
        var e2 := EvalLoop(L, x, e.1, node, left - 1, r.1);
        var r2 := RunLoop(L, exec, r.0, node, left - 1, r.1);
        assert e1 == e2 && r1 == r2;
        Rebase(s, r.0, e2, r2);
      }
    }
  }

  lemma {:induction false} Rebase(s: State, s1: State, e: (Outcome, Store), r: (State, int))
    requires Agree(s1, e, r)
    requires s1.loopDepth == s.loopDepth && s1.errexitOff == s.errexitOff && |s1.store.frames| == |s.store.frames|
    ensures Agree(s, e, r)
  {
  }

  lemma {:induction false} BodyAgrees(s: State, e: (Outcome, Store), r: (State, int))
    requires Agree(s, e, r)
    ensures Agree(s, (TurnOutcome(e.0), e.1), (AfterBody(r.0).0, r.1))
    ensures AfterBody(r.0).1 == EndsLoop(e.0)
    ensures !EndsLoop(e.0) ==> Clean(AfterBody(r.0).0) && Status(e.0) == r.1
  {
  }

  lemma {:induction false} TurnAgrees(L: Lang, x: Context, exec: bool, s: State, node: Node, last: int)
    requires Ready(x, exec, s) && x.inLoop && node.Loop?
    ensures var e := EvalTurn(L, x, s.store, node, last);
            var r := LoopOnce(L, exec, s, node, last);
            && Agree(s, (e.0, e.1), (r.0, r.1)) && e.2 == r.2
            && (!e.2 ==> Clean(r.0) && Status(e.0) == r.1)
    decreases MAX_FUNCTION_DEPTH - |s.store.frames|, 1, node, 0, 0
  {
    ConditionAgrees(L, x, exec, s, node.cond);
    var (o, st1) := EvalItems(L, x.(exempt := true), s.store, node.cond, 0, 0);
    var (s1, c) := RunCondition(L, exec, s, node.cond);
    if o.Normal? {
      if (c == 0) != node.until {
        ItemsAgree(L, x, exec, s1, node.lbody, 0, 0);
        BodyAgrees(s1, EvalItems(L, x, st1, node.lbody, 0, 0), RunItems(L, exec, s1, node.lbody, 0, 0));
      }
    } else if o.Jump? {
      StoppedRuns(L, exec, s1, node.lbody);
    }
  }

  // ----- whole programs -----

  /** A shell between two lines: nothing pending, no call or loop in progress. */
  predicate Idle(s: State) {
    Clean(s) && s.store.frames == [] && s.loopDepth == 0 && s.errexitOff == 0
  }

  /** What RunExec does when the program has run: an exit status replaces the status of the last statement. */
  function EndRun(r: (State, int)): (State, int) {
    (r.0.(flags := r.0.flags.(halted := false)), if r.0.flags.halted then r.0.flags.haltCode else r.1)
  }

  /**
   Any program ends with the status and the store of its outcome, which is
   never a return; the shell is as ready for the next line as before exactly
   when no break or continue is left waiting for a loop.
   */
  lemma {:induction false} ProgramEnds(L: Lang, exec: bool, s: State, items: seq<Item>)
    requires Idle(s)
    ensures var e := EvalItems(L, Context(exec, false, false), s.store, items, 0, 0);
            var r := EndRun(RunItems(L, exec, s, items, 0, 0));
            && !Returning(e.0)
            && r.0.store == e.1
            && r.1 == (if e.0.Exit? then e.0.exitCode else Status(e.0))
            && (Idle(r.0) <==> Waiting(e.0) == NoCtl)
  {
    ItemsAgree(L, Context(exec, false, false), exec, s, items, 0, 0);
  }
}

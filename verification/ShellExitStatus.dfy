// The status the shell exits with: when it is the one that was asked for, and
// two programs whose exit status is replaced by another.

module ShellExitStatus {
  import opened ShellSyntax
  import opened ShellMachine
  import opened ShellOutcomes
  import opened ShellRefinement
  import opened ShellLeaks
  import opened Wrappers

  // ----- one call -----

  /**
   A call during which the shell exits with status `c` leaves that status
   alone, except under `set -e` when the function's last list reports a
   different failure: then the call's own status replaces it.
   */
  lemma {:induction false} CallKeepsExitStatus(L: Lang, x: Context, st: Store, it: Item, chained: bool, last: int)
    requires it.node.Simple? && EvalSimple(L, x, st, it).0.Some? && EvalSimple(L, x, st, it).0.value.Exit?
    ensures var (o, st1) := EvalSimple(L, x, st, it);
            var o' := EvalItem(L, x, st, it, chained, last).0;
            && o'.Exit? && o'.asked == o.value.asked
            && (o'.exitCode == o.value.exitCode <==>
                  !st1.errexit || x.exempt || chained || o.value.report == 0 || o.value.report == o.value.exitCode)
  {
  }

  // ----- programs that keep the status they ask for -----

  // `E` names the functions that may exit: every other function exits only
  // where `set -e` ends it.

  /** Running this command exits only where `set -e` makes it. */
  predicate Stays(E: set<string>, name: string) {
    name != "exit" && name != "exec" && name !in E
  }

  /** An `exec` ends the shell with the status of its command, which is then not a function that exits itself. */
  predicate Passes(E: set<string>, name: string, args: seq<string>)
    decreases |args|
  {
    name == "exec" && args != [] ==> args[0] !in E && Passes(E, args[0], args[1..])
  }

  /** This command does not turn `set -e` on. */
  predicate Calm(name: string, args: seq<string>)
    decreases |args|
  {
    && (name == "set" ==> !SetOptions(args, 0, false).0)
    && (name == "exec" && args != [] ==> Calm(args[0], args[1..]))
  }

  /** These items exit only where `set -e` makes them. */
  ghost predicate ExitFree(L: Lang, E: set<string>, items: seq<Item>) {
    forall k :: 0 <= k < |items| ==> ExitFreeNode(L, E, items[k].node)
  }

  ghost predicate ExitFreeNode(L: Lang, E: set<string>, node: Node) {
    match node
    case Simple(text) => forall st: Store :: var w := L.expand(text, st); w.Words? ==> Stays(E, w.name)
    case If(branches, elseBody) =>
      && (forall k :: 0 <= k < |branches| ==> ExitFree(L, E, branches[k].cond) && ExitFree(L, E, branches[k].body))
      && ExitFree(L, E, elseBody)
    case Group(_, body) => ExitFree(L, E, body)
    case Case(_, arms) => forall k :: 0 <= k < |arms| ==> ExitFree(L, E, arms[k].body)
    case For(_, _, body) => ExitFree(L, E, body)
    case Loop(_, cond, body, _, _) => ExitFree(L, E, cond) && ExitFree(L, E, body)
    case Subshell(_) => true
    case Func(_, _) => true
  }

  /**
   How a list is judged. `quiet`: `set -e` is off for good. `strict`: the list
   is in the body of a function, and `set -e` may be on.
   */
  datatype Mode = Mode(quiet: bool, strict: bool)

  /** A fed loop or group runs in a subshell, which takes its own exits. */
  function Inside(m: Mode, feed: string): Mode {
    m.(strict := m.strict && feed == "")
  }

  /** Where the mode is strict, no loop condition can exit and no compound command has a `| cmd` tail. */
  ghost predicate Steady(L: Lang, E: set<string>, m: Mode, items: seq<Item>)
    decreases items
  {
    forall k :: 0 <= k < |items| ==> SteadyItem(L, E, m, items[k])
  }

  ghost predicate SteadyItem(L: Lang, E: set<string>, m: Mode, it: Item)
    decreases it
  {
    (m.strict && !it.node.Subshell? ==> !IsPipe(it.tail)) && SteadyNode(L, E, m, it.node)
  }

  ghost predicate SteadyNode(L: Lang, E: set<string>, m: Mode, node: Node)
    decreases node
  {
    match node
    case Simple(text) =>
      forall st: Store :: var w := L.expand(text, st);
        w.Words? ==> Passes(E, w.name, w.args) && (m.quiet ==> Calm(w.name, w.args))
    case If(branches, elseBody) =>
      && (forall k :: 0 <= k < |branches| ==> Steady(L, E, m, branches[k].cond) && Steady(L, E, m, branches[k].body))
      && Steady(L, E, m, elseBody)
    case Group(feed, body) => Steady(L, E, Inside(m, feed), body)
    case Case(_, arms) => forall k :: 0 <= k < |arms| ==> Steady(L, E, m, arms[k].body)
    case For(_, _, body) => Steady(L, E, m, body)
    case Loop(_, cond, body, _, feed) =>
      var n := Inside(m, feed);
      (n.strict ==> ExitFree(L, E, cond)) && Steady(L, E, n, cond) && Steady(L, E, n, body)
    case Subshell(body) => Steady(L, E, m.(strict := false), body)
    case Func(name, body) => Steady(L, E, m.(strict := !m.quiet), body) && (name in E || ExitFree(L, E, body))
  }

  /** Every function is steady, strictly so unless `set -e` stays off. */
  ghost predicate Fit(L: Lang, E: set<string>, quiet: bool, st: Store) {
    && (forall f :: f in st.funcs ==>
          Steady(L, E, Mode(quiet, !quiet), st.funcs[f]) && (f in E || ExitFree(L, E, st.funcs[f])))
    && (quiet ==> !st.errexit)
  }

  /**
   An exit has the status it was asked for; where that matters it also reports
   it, or success. Nothing that is `free` exits where `set -e` does not apply,
   and elsewhere it reports its status.
   */
  ghost predicate Kept(L: Lang, E: set<string>, m: Mode, exempt: bool, free: bool, e: (Outcome, Store)) {
    && Fit(L, E, m.quiet, e.1)
    && (e.0.Exit? ==>
          && !(free && (exempt || m.quiet)) && e.0.exitCode == e.0.asked
          && (m.strict ==> e.0.report == 0 || e.0.report == e.0.asked)
          && (m.strict && free ==> e.0.report == e.0.asked))
  }

  lemma {:induction false} ItemsKept(L: Lang, E: set<string>, x: Context, m: Mode, st: Store, items: seq<Item>, i: nat,
      last: int)
    requires i <= |items| && Steady(L, E, m, items) && Fit(L, E, m.quiet, st) && !(m.quiet && m.strict)
    ensures Kept(L, E, m, x.exempt, ExitFree(L, E, items), EvalItems(L, x, st, items, i, last))
    decreases MAX_FUNCTION_DEPTH - |st.frames|, 1, items, 0, |items| - i
  {
    if i == |items| {
    } else if Skipped(items, i, last) {
      ItemsKept(L, E, x, m, st, items, i + 1, last);
    } else {
      var (o, st1) := EvalItem(L, x, st, items[i], Chained(items, i), last);
      ItemKept(L, E, x, m, st, items[i], Chained(items, i), last);
      if o.Normal? {
        ItemsKept(L, E, x, m, st1, items, i + 1, o.status);
      }
    }
  }

  lemma {:induction false} ItemKept(L: Lang, E: set<string>, x: Context, m: Mode, st: Store, it: Item, chained: bool,
      last: int)
    requires SteadyItem(L, E, m, it) && Fit(L, E, m.quiet, st) && !(m.quiet && m.strict)
    ensures Kept(L, E, m, x.exempt, ExitFreeNode(L, E, it.node), EvalItem(L, x, st, it, chained, last))
    decreases MAX_FUNCTION_DEPTH - |st.frames|, 1, it, 1, 0
  {
    var free := ExitFreeNode(L, E, it.node);
    match it.node
    case Simple(text) => SimpleKept(L, E, x, m, st, it, chained, last);
    case Subshell(body) =>
      SubshellKept(L, E, x, m, st, it);
      FinishKept(L, E, x, m, free, EvalSubshell(L, x, st, it), chained);
    case _ =>
      NodeKept(L, E, x, m, st, it.node);
      if IsPipe(it.tail) {
        PipeKept(L, E, m, x.exempt, free, EvalNode(L, x, st, it.node), it.tail);
      }
  }

  lemma {:induction false} SimpleKept(L: Lang, E: set<string>, x: Context, m: Mode, st: Store, it: Item, chained: bool,
      last: int)
    requires it.node.Simple? && SteadyItem(L, E, m, it) && Fit(L, E, m.quiet, st) && !(m.quiet && m.strict)
    ensures Kept(L, E, m, x.exempt, ExitFreeNode(L, E, it.node), EvalItem(L, x, st, it, chained, last))
    decreases MAX_FUNCTION_DEPTH - |st.frames|, 1, it, 0, 0
  {
    var w, free := L.expand(it.node.text, st), ExitFreeNode(L, E, it.node);
    if w.Words? {
      assert free ==> Stays(E, w.name);
      CommandKept(L, E, x, m.quiet, st, w.name, w.args, w.redirect);
      FinishKept(L, E, x, m, free, EvalCommand(L, x, st, w.name, w.args, w.redirect), chained);
    }
  }

  lemma {:induction false} SubshellKept(L: Lang, E: set<string>, x: Context, m: Mode, st: Store, it: Item)
    requires it.node.Subshell? && SteadyItem(L, E, m, it) && Fit(L, E, m.quiet, st)
    ensures var e := EvalSubshell(L, x, st, it); Kept(L, E, Mode(m.quiet, !m.quiet), x.exempt, true, e)
    decreases MAX_FUNCTION_DEPTH - |st.frames|, 1, it, 0, 0
  {
    var body := it.node.sbody;
    ItemsKept(L, E, x, m.(strict := false), st, body, 0, 0);
    var (o, st1) := EvalItems(L, x, st, body, 0, 0);
    PipeKept(L, E, m.(strict := false), x.exempt, true, (Consume(o), st1.(cwd := st.cwd, env := st.env)), it.tail);
  }

  /** Where `set -e` can act, the report of a finished statement is harmless. */
  lemma {:induction false} FinishKept(L: Lang, E: set<string>, x: Context, m: Mode, free: bool, e: (Outcome, Store),
      chained: bool)
    requires Kept(L, E, Mode(m.quiet, !m.quiet), x.exempt, free, e) && !(m.quiet && m.strict)
    ensures Kept(L, E, m, x.exempt, free, Complete(x, e.1, e.0, chained))
  {
  }

  lemma {:induction false} PipeKept(L: Lang, E: set<string>, m: Mode, exempt: bool, free: bool, e: (Outcome, Store),
      tail: string)
    requires Kept(L, E, m, exempt, free, e) && (m.strict ==> !e.0.Exit?)
    ensures Kept(L, E, m, exempt, free, EvalPipe(L, e.1, e.0, tail))
    ensures EvalPipe(L, e.1, e.0, tail).0.Exit? <==> e.0.Exit?
  {
  }

  lemma {:induction false} CallKept(L: Lang, E: set<string>, quiet: bool, exempt: bool, free: bool, o: Outcome,
      st1: Store, redirect: Option<Input>, saved: Option<Input>)
    requires |st1.frames| > 0 && Kept(L, E, Mode(quiet, !quiet), exempt, free, (o, st1))
    ensures Kept(L, E, Mode(quiet, !quiet), exempt, free, (CallOutcome(o), Pop(st1, redirect, saved)))
  {
  }

  lemma {:induction false} CommandKept(L: Lang, E: set<string>, x: Context, quiet: bool, st: Store, name: string,
      args: seq<string>, redirect: Option<Input>)
    requires Fit(L, E, quiet, st) && Passes(E, name, args) && (quiet ==> Calm(name, args))
    ensures var e := EvalCommand(L, x, st, name, args, redirect);
            && Kept(L, E, Mode(quiet, !quiet), x.exempt, Stays(E, name), e)
            && (e.0.Exit? && name !in E ==> e.0.report == e.0.asked)
    decreases MAX_FUNCTION_DEPTH - |st.frames|, 0, |args| + 1
  {
    if name in st.funcs {
      if |st.frames| < MAX_FUNCTION_DEPTH {
        var body := st.funcs[name];
        ItemsKept(L, E, x, Mode(quiet, !quiet), Push(st, args, redirect), body, 0, 0);
        var (o, st1) := EvalItems(L, x, Push(st, args, redirect), body, 0, 0);
        CallKept(L, E, quiet, x.exempt, ExitFree(L, E, body), o, st1, redirect, st.pipeStdin);
        assert EvalCommand(L, x, st, name, args, redirect) == (CallOutcome(o), Pop(st1, redirect, st.pipeStdin));
      } else {
        assert EvalCommand(L, x, st, name, args, redirect) == (Normal(1), st);
      }
    } else if name == "exec" {
      if args != [] {
        CommandKept(L, E, x, quiet, st, args[0], args[1..], redirect);
      }
    } else {
      BuiltinKept(L, E, x, quiet, st, name, args, redirect);
    }
  }

  lemma {:induction false} BuiltinKept(L: Lang, E: set<string>, x: Context, quiet: bool, st: Store, name: string,
      args: seq<string>, redirect: Option<Input>)
    requires Fit(L, E, quiet, st) && (quiet ==> Calm(name, args))
    ensures var e := EvalBuiltin(L, x, st, name, args, redirect);
            Kept(L, E, Mode(quiet, !quiet), x.exempt, name != "exit", e) && (e.0.Exit? ==> e.0.report == e.0.asked)
  {
    UnsetFit(L, E, quiet, st, args, false);
  }

  lemma {:induction false} UnsetFit(L: Lang, E: set<string>, quiet: bool, st: Store, args: seq<string>, functions: bool)
    requires Fit(L, E, quiet, st)
    ensures Fit(L, E, quiet, Unset(st, args, functions))
    decreases |args|
  {
    if args != [] {
      var fn := args[0] == "-f" || (functions && args[0] != "-v");
      UnsetFit(L, E, quiet, st, args[1..], fn);
      UnsetFit(L, E, quiet, st.(funcs := st.funcs - {args[0]}), args[1..], fn);
      UnsetFit(L, E, quiet, st.(env := st.env - {args[0]}), args[1..], fn);
    }
  }

  lemma {:induction false} NodeKept(L: Lang, E: set<string>, x: Context, m: Mode, st: Store, node: Node)
    requires !node.Simple? && !node.Subshell? && SteadyNode(L, E, m, node) && Fit(L, E, m.quiet, st)
    requires !(m.quiet && m.strict)
    ensures Kept(L, E, m, x.exempt, ExitFreeNode(L, E, node), EvalNode(L, x, st, node))
    decreases MAX_FUNCTION_DEPTH - |st.frames|, 1, node, 1, 0
  {
    match node
    case If(_, _) => IfKept(L, E, x, m, st, node, 0);
    case Group(feed, body) =>
      var (st1, input) := Feed(L, st, feed);
      ItemsKept(L, E, x, Inside(m, feed), if feed == "" then st else st1.(pipeStdin := Some(input)), body, 0, 0);
    case Case(word, _) => CaseKept(L, E, x, m, st, node, L.word(word, st), 0);
    case For(_, words, _) => ForKept(L, E, x.(inLoop := true), m, st, node, ForValues(L, st, words), 0, 0);
    case Loop(_, _, _, input, feed) =>
      var (st1, lines) := Feed(L, st, feed);
      var y, file := x.(inLoop := true), L.open(input, st);
      LoopKept(L, E, y, m, st1.(loopInput := Some(lines)), node, MAX_LOOP_ITERATIONS, 0);
      LoopKept(L, E, y, m, st.(loopInput := file), node, MAX_LOOP_ITERATIONS, 0);
      LoopKept(L, E, y, m, st.(loopInput := st.pipeStdin), node, MAX_LOOP_ITERATIONS, 0);
    case Func(_, _) =>
  }

  lemma {:induction false} IfKept(L: Lang, E: set<string>, x: Context, m: Mode, st: Store, node: Node, j: nat)
    requires node.If? && j <= |node.branches| && SteadyNode(L, E, m, node) && Fit(L, E, m.quiet, st)
    requires !(m.quiet && m.strict)
    ensures Kept(L, E, m, x.exempt, ExitFreeNode(L, E, node), EvalIf(L, x, st, node, j))
    decreases MAX_FUNCTION_DEPTH - |st.frames|, 1, node, 0, |node.branches| - j
  {
    if j == |node.branches| {
      ItemsKept(L, E, x, m, st, node.elseBody, 0, 0);
    } else {
      var b := node.branches[j];
      ItemsKept(L, E, x.(exempt := true), m, st, b.cond, 0, 0);
      var (o, st1) := EvalItems(L, x.(exempt := true), st, b.cond, 0, 0);
      ItemsKept(L, E, x, m, st1, b.body, 0, 0);
      IfKept(L, E, x, m, st1, node, j + 1);
    }
  }

  lemma {:induction false} CaseKept(L: Lang, E: set<string>, x: Context, m: Mode, st: Store, node: Node, word: string,
      j: nat)
    requires node.Case? && j <= |node.arms| && SteadyNode(L, E, m, node) && Fit(L, E, m.quiet, st)
    requires !(m.quiet && m.strict)
    ensures Kept(L, E, m, x.exempt, ExitFreeNode(L, E, node), EvalCase(L, x, st, node, word, j))
    decreases MAX_FUNCTION_DEPTH - |st.frames|, 1, node, 0, |node.arms| - j
  {
    if j < |node.arms| {
      ItemsKept(L, E, x, m, st, node.arms[j].body, 0, 0);
      CaseKept(L, E, x, m, st, node, word, j + 1);
    }
  }

  lemma {:induction false} ForKept(L: Lang, E: set<string>, x: Context, m: Mode, st: Store, node: Node,
      values: seq<string>, n: nat, last: int)
    requires node.For? && n <= |values| && SteadyNode(L, E, m, node) && Fit(L, E, m.quiet, st) && !(m.quiet && m.strict)
    ensures Kept(L, E, m, x.exempt, ExitFreeNode(L, E, node), EvalFor(L, x, st, node, values, n, last))
    decreases MAX_FUNCTION_DEPTH - |st.frames|, 1, node, 0, |values| - n
  {
    if n < |values| && n != MAX_LOOP_ITERATIONS {
      var st0 := st.(env := st.env[node.name := values[n]]);
      ItemsKept(L, E, x, m, st0, node.fbody, 0, 0);
      var (o, st1) := EvalItems(L, x, st0, node.fbody, 0, 0);
      ForKept(L, E, x, m, st1, node, values, n + 1, Status(o));
    }
  }

  lemma {:induction false} LoopKept(L: Lang, E: set<string>, x: Context, m: Mode, st: Store, node: Node, left: nat,
      last: int)
    requires node.Loop? && SteadyNode(L, E, m, node) && Fit(L, E, m.quiet, st) && !(m.quiet && m.strict)
    ensures Kept(L, E, Inside(m, node.lfeed), x.exempt, ExitFreeNode(L, E, node), EvalLoop(L, x, st, node, left, last))
    decreases MAX_FUNCTION_DEPTH - |st.frames|, 1, node, 0, left
  {
    if left > 0 {
      TurnKept(L, E, x, m, st, node, last);
      var (o, st1, done) := EvalTurn(L, x, st, node, last);
      LoopKept(L, E, x, m, st1, node, left - 1, Status(o));
    }
  }

  lemma {:induction false} TurnKept(L: Lang, E: set<string>, x: Context, m: Mode, st: Store, node: Node, last: int)
    requires node.Loop? && SteadyNode(L, E, m, node) && Fit(L, E, m.quiet, st) && !(m.quiet && m.strict)
    ensures var e := EvalTurn(L, x, st, node, last);
            Kept(L, E, Inside(m, node.lfeed), x.exempt, ExitFreeNode(L, E, node), (e.0, e.1))
    decreases MAX_FUNCTION_DEPTH - |st.frames|, 1, node, 0, 0
  {
    var n, xc := Inside(m, node.lfeed), x.(exempt := true);
    ItemsKept(L, E, xc, n, st, node.cond, 0, 0);
    ItemsKept(L, E, x, n, EvalItems(L, xc, st, node.cond, 0, 0).1, node.lbody, 0, 0);
  }

  /** A loop over a command that neither exits nor turns `set -e` on is as steady as its body, in any function. */
  lemma {:induction false} CommandLoopIsSteady(
    L: Lang, E: set<string>, m: Mode, text: string, name: string, args: seq<string>, until: bool, body: seq<Item>)
    requires forall st: Store :: var w := L.expand(text, st); w.Words? && w.name == name && w.args == args
    requires Stays(E, name) && Calm(name, args)
    ensures SteadyNode(L, E, m, Loop(until, [Item(First, Simple(text), "")], body, "", "")) <==> Steady(L, E, m, body)
  {
    var cond := [Item(First, Simple(text), "")];
    assert ExitFreeNode(L, E, cond[0].node) && SteadyItem(L, E, m, cond[0]);
  }

  /**
   A program that exits ends with the status that was asked for when it began
   to, if no `exec` runs a function that exits, and either no command turns
   `set -e` on, or no function exits in a loop condition or in a compound
   command with a `| cmd` tail.
   */
  lemma {:induction false} ExitStatusKept(L: Lang, E: set<string>, exec: bool, quiet: bool, s: State, items: seq<Item>)
    requires Idle(s) && Steady(L, E, Mode(quiet, false), items) && Fit(L, E, quiet, s.store)
    ensures var o := EvalItems(L, Context(exec, false, false), s.store, items, 0, 0).0;
            o.Exit? ==> EndRun(RunItems(L, exec, s, items, 0, 0)).1 == o.asked
  {
    ProgramEnds(L, exec, s, items);
    ItemsKept(L, E, Context(exec, false, false), Mode(quiet, false), s.store, items, 0, 0);
  }

  // A program whose exit status is replaced: `set -e; f` with
  // f() { while [ -z "$x" ] || exit 5; do x=1 && false && true; done; }
  // in the form `while COND; do STEP && false && true; done`.

  /** COND succeeds until x is set and then exits with status 5; STEP sets x; `false` fails. */
  function DemoExpand(text: string, st: Store): Stmt {
    if text == "f" then Words("f", [], None)
    else if text == "exec f" then Words("exec", ["f"], None)
    else if text == "cond" && "x" in st.env then Words("exit", ["5"], None)
    else
      Plain(Effect(st.cwd, if text == "step" then st.env["x" := "1"] else st.env, st.loopInput, st.pipeStdin,
                   if text == "false" then 1 else 0))
  }

  const DEMO_BODY :=
    [Item(First, Simple("step"), ""), Item(And, Simple("false"), ""), Item(And, Simple("true"), "")]
  const DEMO_COND := [Item(First, Simple("cond"), "")]
  const DEMO_LOOP := Loop(false, DEMO_COND, DEMO_BODY, "", "")

  ghost predicate DemoLang(L: Lang) {
    forall text, st: Store :: L.expand(text, st) == DemoExpand(text, st)
  }

  lemma {:induction false} DemoOne(L: Lang, x: Context, st: Store, it: Item, chained: bool, last: int)
    requires DemoLang(L) && it.node.Simple? && DemoExpand(it.node.text, st).Plain? && st.pipeStdin.None?
    requires x.exempt || chained || it.node.text != "false"
    ensures var e := DemoExpand(it.node.text, st).effect;
            EvalItem(L, x, st, it, chained, last) == (Normal(e.status), st.(env := e.env, lastCode := e.status))
  {
  }

  lemma {:induction false} DemoBodyRuns(L: Lang, x: Context, st: Store)
    requires DemoLang(L) && st.pipeStdin.None?
    ensures EvalItems(L, x, st, DEMO_BODY, 0, 0) == (Normal(1), st.(env := st.env["x" := "1"], lastCode := 1))
  {
    var st1 := st.(env := st.env["x" := "1"], lastCode := 0);
    DemoOne(L, x, st, DEMO_BODY[0], true, 0);
    DemoOne(L, x, st1, DEMO_BODY[1], true, 0);
    var st2 := st1.(lastCode := 1);
    assert Skipped(DEMO_BODY, 2, 1);
    assert EvalItems(L, x, st2, DEMO_BODY, 3, 1) == (Normal(1), st2);
    assert EvalItems(L, x, st2, DEMO_BODY, 2, 1) == (Normal(1), st2);
    assert EvalItems(L, x, st1, DEMO_BODY, 1, 0) == (Normal(1), st2);
  }

  lemma {:induction false} DemoCondRuns(L: Lang, x: Context, st: Store)
    requires DemoLang(L) && st.pipeStdin.None? && x.exec && x.exempt && "exit" !in st.funcs
    ensures EvalItems(L, x, st, DEMO_COND, 0, 0) ==
            if "x" in st.env then (Exit(5, 5, false, NoCtl, 5), st.(lastCode := 5)) else (Normal(0), st.(lastCode := 0))
  {
    if "x" in st.env {
      assert Atoi("5") == Some(5) by {
        assert DigitsValue("5") == 10 * DigitsValue("") + 5 by { assert "5"[..0] == ""; }
      }
      assert EvalCommand(L, x, st, "exit", ["5"], None) == (Exit(5, 5, false, NoCtl, 5), st);
      assert EvalItem(L, x, st, DEMO_COND[0], false, 0) == (Exit(5, 5, false, NoCtl, 5), st.(lastCode := 5));
    } else {
      DemoOne(L, x, st, DEMO_COND[0], false, 0);
    }
  }

  /** The loop exits the shell with status 5 and reports the status 1 of its last turn. */
  lemma {:induction false} DemoLoopExits(L: Lang, x: Context, st: Store)
    requires DemoLang(L) && st.pipeStdin.None? && x.exec && x.inLoop && "x" !in st.env && "exit" !in st.funcs
    ensures var (o, st') := EvalLoop(L, x, st, DEMO_LOOP, MAX_LOOP_ITERATIONS, 0);
            o == Exit(5, 1, false, NoCtl, 5) && st'.errexit == st.errexit
  {
    var xc := x.(exempt := true);
    DemoCondRuns(L, xc, st);
    var st1 := st.(lastCode := 0);
    DemoBodyRuns(L, x, st1);
    var st2 := st1.(env := st1.env["x" := "1"], lastCode := 1);
    assert EvalTurn(L, x, st, DEMO_LOOP, 0) == (Normal(1), st2, false);
    DemoCondRuns(L, xc, st2);
    assert EvalTurn(L, x, st2, DEMO_LOOP, 1) == (Exit(5, 1, false, NoCtl, 5), st2.(lastCode := 5), true);
  }

  const DEMO_CALL := [Item(First, Simple("f"), "")]

  /** Under `set -e`, a function in which `exit 5` runs makes the shell exit with status 1. */
  lemma {:induction false} ExitStatusReplaced(L: Lang, s: State)
    requires DemoLang(L) && Clean(s) && s.store.frames == [] && s.loopDepth == 0 && s.errexitOff == 0
    requires s.store.errexit && s.store.env == map[] && s.store.pipeStdin.None?
    requires s.store.funcs == map["f" := [Item(First, DEMO_LOOP, "")]]
    ensures EvalCall(L, Context(true, false, false), s.store, s.store.funcs["f"], [], None).0 ==
      Exit(5, 1, false, NoCtl, 5)
    ensures EndRun(RunItems(L, true, s, DEMO_CALL, 0, 0)).1 == 1
  {
    var x := Context(true, false, false);
    var body := s.store.funcs["f"];
    var st := Push(s.store, [], None);
    DemoLoopExits(L, x.(inLoop := true), st.(loopInput := None));
    assert EvalNode(L, x, st, DEMO_LOOP) == EvalFrom(L, x, st, DEMO_LOOP, None);
    assert EvalItem(L, x, st, body[0], false, 0).0 == Exit(5, 1, false, NoCtl, 5);
    assert EvalItems(L, x, st, body, 0, 0).0 == Exit(5, 1, false, NoCtl, 5) &&
      EvalItems(L, x, st, body, 0, 0).1.errexit;
    var (o, st1) := EvalCall(L, x, s.store, body, [], None);
    assert o == Exit(5, 1, false, NoCtl, 5) && st1.errexit;
    assert EvalSimple(L, x, s.store, DEMO_CALL[0]) == (Some(o), st1);
    assert EvalItem(L, x, s.store, DEMO_CALL[0], false, 0).0 == Exit(1, 1, false, NoCtl, 5);
    ProgramEnds(L, true, s, DEMO_CALL);
  }

  // A second one: `set -e; f` with f() { { exit 5; } | false; }.

  const PIPED_EXIT := Item(First, Group("", [Item(First, Simple("cond"), "")]), "|")

  /** A compound command that exits with 5 in front of a pipeline that fails makes the shell exit with 1. */
  lemma {:induction false} PipedExitReplaced(L: Lang, s: State)
    requires DemoLang(L) && Clean(s) && s.store.frames == [] && s.loopDepth == 0 && s.errexitOff == 0
    requires s.store.errexit && s.store.env == map["x" := "1"] && s.store.pipeStdin.None?
    requires s.store.funcs == map["f" := [PIPED_EXIT]] && forall st: Store :: L.pipe("|", st).status == 1
    ensures EvalCall(L, Context(true, false, false), s.store, [PIPED_EXIT], [], None).0 == Exit(5, 1, false, NoCtl, 5)
    ensures EndRun(RunItems(L, true, s, DEMO_CALL, 0, 0)).1 == 1
  {
    var x := Context(true, false, false);
    var st := Push(s.store, [], None);
    ExitRuns(L, x, st);
    assert EvalNode(L, x, st, PIPED_EXIT.node) == EvalItems(L, x, st, DEMO_COND, 0, 0);
    assert EvalItem(L, x, st, PIPED_EXIT, false, 0).0 == Exit(5, 1, false, NoCtl, 5);
    assert EvalItems(L, x, st, [PIPED_EXIT], 0, 0).0 == Exit(5, 1, false, NoCtl, 5);
    var (o, st1) := EvalCall(L, x, s.store, [PIPED_EXIT], [], None);
    assert st1.errexit;
    assert EvalSimple(L, x, s.store, DEMO_CALL[0]) == (Some(o), st1);
    assert EvalItem(L, x, s.store, DEMO_CALL[0], false, 0).0 == Exit(1, 1, false, NoCtl, 5);
    ProgramEnds(L, true, s, DEMO_CALL);
  }

  // A third one, without `set -e`: `exec f` with f() { if exit 5; then :; fi; }.

  const GUARDED_EXIT := Item(First, If([Branch(DEMO_COND, [])], []), "")

  /** `exec` ends the shell with the status the call returns, and an `if` whose condition exits returns 0. */
  lemma {:induction false} ExecExitReplaced(L: Lang, s: State)
    requires DemoLang(L) && Clean(s) && s.store.frames == [] && s.loopDepth == 0 && s.errexitOff == 0
    requires !s.store.errexit && s.store.env == map["x" := "1"] && s.store.pipeStdin.None?
    requires s.store.funcs == map["f" := [GUARDED_EXIT]]
    ensures EvalCall(L, Context(true, false, false), s.store, [GUARDED_EXIT], [], None).0 == Exit(5, 0, false, NoCtl, 5)
    ensures EndRun(RunItems(L, true, s, [Item(First, Simple("exec f"), "")], 0, 0)).1 == 0
  {
    var x := Context(true, false, false);
    var st, it := Push(s.store, [], None), Item(First, Simple("exec f"), "");
    ExitRuns(L, x.(exempt := true), st);
    assert EvalIf(L, x, st, GUARDED_EXIT.node, 0).0 == Exit(5, 0, false, NoCtl, 5);
    assert EvalItem(L, x, st, GUARDED_EXIT, false, 0).0 == Exit(5, 0, false, NoCtl, 5);
    assert EvalItems(L, x, st, [GUARDED_EXIT], 0, 0).0 == Exit(5, 0, false, NoCtl, 5);
    var (o, st1) := EvalCall(L, x, s.store, [GUARDED_EXIT], [], None);
    assert EvalCommand(L, x, s.store, "f", [], None) == (o, st1);
    assert EvalCommand(L, x, s.store, "exec", ["f"], None) == (Ending(o), st1) by { assert ["f"][1..] == []; }
    assert EvalSimple(L, x, s.store, it) == (Some(Ending(o)), st1);
    assert EvalItem(L, x, s.store, it, false, 0).0 == Exit(0, 0, false, NoCtl, 5);
    assert EvalItems(L, x, s.store, [it], 0, 0).0 == Exit(0, 0, false, NoCtl, 5);
    ProgramEnds(L, true, s, [it]);
  }

  lemma {:induction false} ExitRuns(L: Lang, x: Context, st: Store)
    requires DemoLang(L) && x.exec && "x" in st.env && "exit" !in st.funcs
    ensures EvalItems(L, x, st, DEMO_COND, 0, 0) == (Exit(5, 5, false, NoCtl, 5), st.(lastCode := 5))
  {
    assert Atoi("5") == Some(5) by {
      assert DigitsValue("5") == 10 * DigitsValue("") + 5 by { assert "5"[..0] == ""; }
    }
    assert EvalCommand(L, x, st, "exit", ["5"], None) == (Exit(5, 5, false, NoCtl, 5), st);
    assert EvalItem(L, x, st, DEMO_COND[0], false, 0) == (Exit(5, 5, false, NoCtl, 5), st.(lastCode := 5));
  }
}

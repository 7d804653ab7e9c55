// A structured big-step semantics of the shell, with one outcome per run and
// no flags, and the proof that the flag machine computes it.

module ShellOutcomes {
  import opened ShellSyntax
  import opened ShellMachine
  import opened Wrappers

  /**
   How a list ends. `Jump` is a break or continue that waits for a loop, with
   the status the interrupted list has. `Exit` carries the status the shell
   exits with, the status the interrupted list reports to an enclosing call,
   a jump that was waiting too, and the status that was asked for when the
   shell began to exit; `pinned` says that a `return` is under way, so that
   the report is its status.
   */
  datatype Outcome =
    | Normal(status: int)
    | Jump(ctl: LoopCtl, status: int)
    | Return(code: int)
    | Exit(exitCode: int, report: int, pinned: bool, ctl: LoopCtl, asked: int)

  /** What surrounds a list: it is read, never changed. */
  datatype Context = Context(exec: bool, inLoop: bool, exempt: bool)

  // ----- the semantics -----

  function EvalItems(L: Lang, x: Context, st: Store, items: seq<Item>, i: nat, last: int): (r: (Outcome, Store))
    requires i <= |items|
    ensures |r.1.frames| == |st.frames|
    decreases MAX_FUNCTION_DEPTH - |st.frames|, 1, items, 0, |items| - i
  {
    if i == |items| then (Normal(last), st)
    else if Skipped(items, i, last) then EvalItems(L, x, st, items, i + 1, last)
    else
      var (o, st1) := EvalItem(L, x, st, items[i], Chained(items, i), last);
      if o.Normal? then EvalItems(L, x, st1, items, i + 1, o.status) else (o, st1)
  }

  function EvalItem(L: Lang, x: Context, st: Store, it: Item, chained: bool, last: int): (r: (Outcome, Store))
    ensures |r.1.frames| == |st.frames|
    decreases MAX_FUNCTION_DEPTH - |st.frames|, 1, it, 1, 0
  {
    match it.node
    case Simple(_) =>
      (match EvalSimple(L, x, st, it)
       case (None, st1) => (Normal(last), st1)
       case (Some(o), st1) => Complete(x, st1, o, chained))
    case Subshell(_) =>
      var (o, st1) := EvalSubshell(L, x, st, it);
      Complete(x, st1, o, chained)
    case _ =>
      var (o, st1) := EvalNode(L, x, st, it.node);
      if IsPipe(it.tail) then EvalPipe(L, st1, o, it.tail) else (o, st1)
  }

  /** The status a statement ends with as its list sees it. */
  function Status(o: Outcome): int {
    match o
    case Normal(c) => c
    case Jump(_, c) => c
    case Return(c) => c
    case Exit(_, r, _, _, _) => r
  }

  /** The jump that waits for a loop, if any. */
  function Waiting(o: Outcome): LoopCtl {
    if o.Jump? || o.Exit? then o.ctl else NoCtl
  }

  predicate Returning(o: Outcome) {
    o.Return? || (o.Exit? && o.pinned)
  }

  /** What becomes of an outcome when its status ends the shell. */
  function Ending(o: Outcome): Outcome {
    Exit(Status(o), Status(o), Returning(o), Waiting(o), if o.Exit? then o.asked else Status(o))
  }

  /** A list that gives another status `c` than the one it was interrupted with. */
  function Reporting(o: Outcome, c: int): Outcome {
    match o
    case Normal(_) => Normal(c)
    case Jump(k, _) => Jump(k, c)
    case Return(_) => o
    case Exit(_, _, pinned, _, _) => if pinned then o else o.(report := c)
  }

  /** A finished statement sets `$?`, and ends the shell if it failed under `set -e`. */
  function Complete(x: Context, st: Store, o: Outcome, chained: bool): (Outcome, Store) {
    (if Status(o) != 0 && st.errexit && !x.exempt && !chained then Ending(o) else o,
     st.(lastCode := Status(o)))
  }

  function EvalSimple(L: Lang, x: Context, st: Store, it: Item): (r: (Option<Outcome>, Store))
    requires it.node.Simple?
    ensures |r.1.frames| == |st.frames|
    decreases MAX_FUNCTION_DEPTH - |st.frames|, 1, it, 0, 0
  {
    match L.expand(it.node.text, st)
    case Blank => (None, st)
    case Plain(e) => (Some(Normal(e.status)), Apply(st, e))
    case Words(name, args, redirect) =>
      var (o, st1) := EvalCommand(L, x, st, name, args, redirect);
      (Some(o), st1)
  }

  function EvalCommand(L: Lang, x: Context, st: Store, name: string, args: seq<string>,
      redirect: Option<Input>): (r: (Outcome, Store))
    ensures |r.1.frames| == |st.frames|
    decreases MAX_FUNCTION_DEPTH - |st.frames|, 0, |args| + 1
  {
    if name in st.funcs then EvalCall(L, x, st, st.funcs[name], args, redirect)
    else if name == "exec" then
      if args == [] then (Normal(0), st)
      else
        var (o, st1) := EvalCommand(L, x, st, args[0], args[1..], redirect);
        (if x.exec then Ending(o) else o, st1)
    else EvalBuiltin(L, x, st, name, args, redirect)
  }

  function EvalBuiltin(L: Lang, x: Context, st: Store, name: string, args: seq<string>,
      redirect: Option<Input>): (r: (Outcome, Store))
    ensures |r.1.frames| == |st.frames|
  {
    if name == "break" then (if x.inLoop then Jump(BreakCtl, 0) else Normal(0), st)
    else if name == "continue" then (if x.inLoop then Jump(ContinueCtl, 0) else Normal(0), st)
    else if name == "exit" then
      (if x.exec then Ending(Normal(ExitCode(st, args))) else Normal(EXIT_REQUESTED), st)
    else if name == "return" then
      (if |st.frames| > 0 then Return(ReturnCode(st, args)) else Normal(1), st)
    else if name == "local" then
      if |st.frames| > 0 then (Normal(0), DeclareLocals(st, args)) else (Normal(1), st)
    else if name == "shift" then
      var (st1, code) := Shift(st, args);
      (Normal(code), st1)
    else if name == "set" then
      var (e, code) := SetOptions(args, 0, st.errexit);
      (Normal(code), st.(errexit := e))
    else if name == "unset" then
      UnsetKeeps(st, args, false);
      (Normal(0), Unset(st, args, false))
    else
      var (st1, code) := External(L, st, name, args, redirect);
      (Normal(code), st1)
  }

  /** A call consumes `return`; everything else goes on. */
  function CallOutcome(o: Outcome): Outcome {
    match o
    case Return(c) => Normal(c)
    case Exit(_, _, _, _, _) => o.(pinned := false)
    case _ => o
  }

  function EvalCall(L: Lang, x: Context, st: Store, body: seq<Item>, args: seq<string>,
      redirect: Option<Input>): (r: (Outcome, Store))
    ensures |r.1.frames| == |st.frames|
    decreases MAX_FUNCTION_DEPTH - |st.frames|, 0, 0
  {
    if |st.frames| >= MAX_FUNCTION_DEPTH then (Normal(1), st)
    else
      var (o, st1) := EvalItems(L, x, Push(st, args, redirect), body, 0, 0);
      (CallOutcome(o), Pop(st1, redirect, st.pipeStdin))
  }

  /** A subshell consumes `return` and `exit`; a waiting jump goes on to the loop outside. */
  function Consume(o: Outcome): Outcome {
    match o
    case Return(c) => Normal(c)
    case Exit(c, _, _, k, _) => if k == NoCtl then Normal(c) else Jump(k, c)
    case _ => o
  }

  function EvalSubshell(L: Lang, x: Context, st: Store, it: Item): (r: (Outcome, Store))
    requires it.node.Subshell?
    ensures |r.1.frames| == |st.frames|
    decreases MAX_FUNCTION_DEPTH - |st.frames|, 1, it, 0, 0
  {
    var (o, st1) := EvalItems(L, x, st, it.node.sbody, 0, 0);
    var st2 := st1.(cwd := st.cwd, env := st.env);
    if IsPipe(it.tail) then EvalPipe(L, st2, Consume(o), it.tail) else (Consume(o), st2)
  }

  /**
   The stages after a compound command still run when it exits or returns;
   they only change the status. A waiting jump keeps them from running.
   */
  function EvalPipe(L: Lang, st: Store, o: Outcome, tail: string): (r: (Outcome, Store))
    ensures |r.1.frames| == |st.frames|
  {
    if Waiting(o) != NoCtl then (Reporting(o, 0), st)
    else
      var (st1, c) := Pipe(L, st, tail);
      (Reporting(o, c), st1)
  }

  function EvalNode(L: Lang, x: Context, st: Store, node: Node): (r: (Outcome, Store))
    requires !node.Simple? && !node.Subshell?
    ensures |r.1.frames| == |st.frames|
    decreases MAX_FUNCTION_DEPTH - |st.frames|, 1, node, 1, 0
  {
    match node
    case If(_, _) => EvalIf(L, x, st, node, 0)
    case Group(feed, body) =>
      if feed == "" then EvalItems(L, x, st, body, 0, 0)
      else
        var (st1, input) := Feed(L, st, feed);
        var (o, st2) := EvalItems(L, x, st1.(pipeStdin := Some(input)), body, 0, 0);
        (Consume(o), st2.(cwd := st.cwd, env := st.env, pipeStdin := st.pipeStdin))
    case Case(word, _) => EvalCase(L, x, st, node, L.word(word, st), 0)
    case For(_, words, _) => EvalFor(L, x.(inLoop := true), st, node, ForValues(L, st, words), 0, 0)
    case Loop(_, _, _, input, feed) =>
      if feed != "" then
        var (st1, lines) := Feed(L, st, feed);
        var (o, st2) := EvalFrom(L, x, st1, node, Some(lines));
        (Consume(o), st2.(cwd := st.cwd, env := st.env))
      else if input != "" then
        var lines := L.open(input, st);
        if lines.None? then (Normal(1), st) else EvalFrom(L, x, st, node, lines)
      else EvalFrom(L, x, st, node, st.pipeStdin)
    case Func(name, body) => (Normal(0), st.(funcs := st.funcs[name := body]))
  }

  function EvalIf(L: Lang, x: Context, st: Store, node: Node, j: nat): (r: (Outcome, Store))
    requires node.If? && j <= |node.branches|
    ensures |r.1.frames| == |st.frames|
    decreases MAX_FUNCTION_DEPTH - |st.frames|, 1, node, 0, |node.branches| - j
  {
    if j == |node.branches| then EvalItems(L, x, st, node.elseBody, 0, 0)
    else
      var (o, st1) := EvalItems(L, x.(exempt := true), st, node.branches[j].cond, 0, 0);
      if o.Normal? then
        if o.status == 0 then EvalItems(L, x, st1, node.branches[j].body, 0, 0)
        else EvalIf(L, x, st1, node, j + 1)
      else (Reporting(o, 0), st1)
  }

  function EvalCase(L: Lang, x: Context, st: Store, node: Node, word: string, j: nat): (r: (Outcome, Store))
    requires node.Case? && j <= |node.arms|
    ensures |r.1.frames| == |st.frames|
    decreases MAX_FUNCTION_DEPTH - |st.frames|, 1, node, 0, |node.arms| - j
  {
    if j == |node.arms| then (Normal(0), st)
    else if ArmMatches(L, st, node.arms[j].patterns, word) then EvalItems(L, x, st, node.arms[j].body, 0, 0)
    else EvalCase(L, x, st, node, word, j + 1)
  }

  function EvalFor(L: Lang, x: Context, st: Store, node: Node, values: seq<string>, n: nat,
      last: int): (r: (Outcome, Store))
    requires node.For? && n <= |values|
    ensures |r.1.frames| == |st.frames|
    decreases MAX_FUNCTION_DEPTH - |st.frames|, 1, node, 0, |values| - n
  {
    if n == |values| || n == MAX_LOOP_ITERATIONS then (Normal(last), st)
    else
      var (o, st1) := EvalItems(L, x, st.(env := st.env[node.name := values[n]]), node.fbody, 0, 0);
      if EndsLoop(o) then (TurnOutcome(o), st1)
      else EvalFor(L, x, st1, node, values, n + 1, Status(o))
  }

  function EvalFrom(L: Lang, x: Context, st: Store, node: Node, lines: Option<Input>): (r: (Outcome, Store))
    requires node.Loop?
    ensures |r.1.frames| == |st.frames|
    decreases MAX_FUNCTION_DEPTH - |st.frames|, 1, node, 0, MAX_LOOP_ITERATIONS + 1
  {
    var (o, st1) := EvalLoop(L, x.(inLoop := true), st.(loopInput := lines), node, MAX_LOOP_ITERATIONS, 0);
    (o, st1.(loopInput := st.loopInput))
  }

  function EvalLoop(L: Lang, x: Context, st: Store, node: Node, left: nat, last: int): (r: (Outcome, Store))
    requires node.Loop?
    ensures |r.1.frames| == |st.frames|
    decreases MAX_FUNCTION_DEPTH - |st.frames|, 1, node, 0, left
  {
    if left == 0 then (Normal(last), st)
    else
      var (o, st1, done) := EvalTurn(L, x, st, node, last);
      if done then (o, st1) else EvalLoop(L, x, st1, node, left - 1, Status(o))
  }

  /**
   One turn of a while or until loop, and whether it is the last. A jump in
   the body ends here; one in the condition does unless its status ends the
   loop first, as a break in the condition of an `until` does.
   */
  function EvalTurn(L: Lang, x: Context, st: Store, node: Node, last: int): (r: (Outcome, Store, bool))
    requires node.Loop?
    ensures |r.1.frames| == |st.frames|
    decreases MAX_FUNCTION_DEPTH - |st.frames|, 1, node, 0, 0
  {
    var (o, st1) := EvalItems(L, x.(exempt := true), st, node.cond, 0, 0);
    if o.Return? || o.Exit? || (o.status == 0) == node.until then (Reporting(o, last), st1, true)
    else if o.Jump? then (Normal(0), st1, o.ctl == BreakCtl)
    else
      var (o2, st2) := EvalItems(L, x, st1, node.lbody, 0, 0);
      (TurnOutcome(o2), st2, EndsLoop(o2))
  }

  /** What a loop makes of the outcome of its body. */
  function TurnOutcome(o: Outcome): Outcome {
    if o.Jump? then Normal(o.status) else o
  }

  predicate EndsLoop(o: Outcome) {
    o.Return? || o.Exit? || (o.Jump? && o.ctl == BreakCtl)
  }
}

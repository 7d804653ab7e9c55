// The evaluator of internal/shell/syntax.go as a function from states to
// states. Control flow is signalled through flags: a pending break or
// continue, a function that is returning, a shell that has halted. Class
// `Interpreter` is proved to compute exactly this function; module
// `ShellOutcomes` proves what the function means.

module ShellMachine {
  import opened ShellSyntax
  import opened Wrappers

  datatype LoopCtl = NoCtl | BreakCtl | ContinueCtl

  datatype Flags = Flags(ctl: LoopCtl, halted: bool, haltCode: int, returning: bool, retCode: int)

  datatype State = State(store: Store, flags: Flags, loopDepth: nat, errexitOff: nat)

  /** What every run leaves as it found it: the counters, and every frame below the innermost. */
  predicate Preserves(s: State, t: State) {
    && t.loopDepth == s.loopDepth
    && t.errexitOff == s.errexitOff
    && SameCallers(s.store.frames, t.store.frames)
  }

  /** The same calls in progress: only the innermost may have shifted or declared anything. */
  predicate SameCallers(a: seq<Frame>, b: seq<Frame>) {
    |a| == |b| && forall k :: 0 <= k < |a| - 1 ==> a[k] == b[k]
  }

  /** A list stops running as soon as any flag is up. */
  predicate Stopped(s: State) {
    s.flags.ctl != NoCtl || s.flags.halted || s.flags.returning
  }

  predicate Skipped(items: seq<Item>, i: nat, last: int)
    requires i < |items|
  {
    i > 0 && ((items[i].sep.And? && last != 0) || (items[i].sep.Or? && last == 0))
  }

  /** The item is followed by `&&` or `||`, so `set -e` does not apply to it. */
  predicate Chained(items: seq<Item>, i: nat)
    requires i < |items|
  {
    i + 1 < |items| && (items[i + 1].sep.And? || items[i + 1].sep.Or?)
  }

  function Halt(s: State, code: int): State {
    s.(flags := s.flags.(halted := true, haltCode := code))
  }

  function ErrexitCheck(s: State, chained: bool, code: int): State {
    if code == 0 || !s.store.errexit || s.errexitOff > 0 || chained then s else Halt(s, code)
  }

  /** Records the status of a statement that ran, then applies `set -e` to it. */
  function Finish(s: State, chained: bool, code: int): State {
    ErrexitCheck(s.(store := s.store.(lastCode := code)), chained, code)
  }

  // ----- asSubshell: the state inside, and the state and status after -----

  function EnterSubshell(s: State): State {
    s.(flags := s.flags.(halted := false, returning := false))
  }

  function LeaveSubshell(before: Flags, after: State, code: int): (State, int) {
    var f := after.flags;
    var code' := if f.halted then f.haltCode else if f.returning then f.retCode else code;
    (after.(flags := f.(halted := before.halted, haltCode := before.haltCode,
                        returning := before.returning)), code')
  }

  function RestoreVars(s: State, cwd: string, env: map<string, string>): State {
    s.(store := s.store.(cwd := cwd, env := env))
  }

  /** Runs the producer of a pipeline whose last stage is a loop or group. */
  function RunFeed(L: Lang, s: State, feed: string): (State, Input) {
    var (st, input) := Feed(L, s.store, feed);
    (s.(store := st), input)
  }

  // ----- function calls -----

  function PushFrame(s: State, args: seq<string>, redirect: Option<Input>): State {
    s.(store := Push(s.store, args, redirect))
  }

  /** Takes a pending return, restores the caller's stdin and gives back the locals. */
  function PopFrame(s: State, code: int, redirect: Option<Input>, savedStdin: Option<Input>): (State, int)
    requires |s.store.frames| > 0
  {
    (s.(store := Pop(s.store, redirect, savedStdin), flags := s.flags.(returning := false)),
     if s.flags.returning then s.flags.retCode else code)
  }

  // ----- simple statements -----

  function ReturnBuiltin(s: State, args: seq<string>): (State, int) {
    if |s.store.frames| == 0 then (s, 1)
    else
      var code := ReturnCode(s.store, args);
      (s.(flags := s.flags.(returning := true, retCode := code)), code)
  }

  function ExitBuiltin(s: State, exec: bool, args: seq<string>): (State, int) {
    if !exec then (s, EXIT_REQUESTED)
    else
      var code := ExitCode(s.store, args);
      (Halt(s, code), code)
  }

  function RunExternal(L: Lang, s: State, name: string, args: seq<string>, redirect: Option<Input>): (State, int) {
    var (st, code) := External(L, s.store, name, args, redirect);
    (s.(store := st), code)
  }

  /** A command that is not a function: a control builtin, or anything else. */
  function RunBuiltin(L: Lang, exec: bool, s: State, name: string, args: seq<string>,
      redirect: Option<Input>): (r: (State, int))
    ensures Preserves(s, r.0)
  {
    if name == "break" || name == "continue" then
      (if s.loopDepth > 0 then s.(flags := s.flags.(ctl := if name == "break" then BreakCtl else ContinueCtl))
       else s, 0)
    else if name == "exit" then ExitBuiltin(s, exec, args)
    else if name == "return" then ReturnBuiltin(s, args)
    else if name == "local" then
      if |s.store.frames| == 0 then (s, 1) else (s.(store := DeclareLocals(s.store, args)), 0)
    else if name == "shift" then
      var (st, code) := Shift(s.store, args);
      (s.(store := st), code)
    else if name == "set" then
      var (e, code) := SetOptions(args, 0, s.store.errexit);
      (s.(store := s.store.(errexit := e)), code)
    else if name == "unset" then
      UnsetKeeps(s.store, args, false);
      (s.(store := Unset(s.store, args, false)), 0)
    else RunExternal(L, s, name, args, redirect)
  }

  lemma {:induction false} UnsetKeeps(st: Store, args: seq<string>, functions: bool)
    ensures var r := Unset(st, args, functions); r == st.(env := r.env, funcs := r.funcs)
    decreases |args|
  {
    if args != [] {
      var fn := args[0] == "-f" || (functions && args[0] != "-v");
      UnsetKeeps(st, args[1..], fn);
      UnsetKeeps(st.(funcs := st.funcs - {args[0]}), args[1..], fn);
      UnsetKeeps(st.(env := st.env - {args[0]}), args[1..], fn);
    }
  }

  /** `exec cmd` ran: a `bash -c` shell ends with its status. */
  function EndExec(exec: bool, r: (State, int)): (State, int) {
    (if exec then Halt(r.0, r.1) else r.0, r.1)
  }

  /** A command with its arguments: a function, `exec` or a builtin. */
  function RunCommand(L: Lang, exec: bool, s: State, name: string, args: seq<string>,
      redirect: Option<Input>): (r: (State, int))
    ensures Preserves(s, r.0)
    decreases MAX_FUNCTION_DEPTH - |s.store.frames|, 0, |args| + 1
  {
    if name in s.store.funcs then CallFunction(L, exec, s, s.store.funcs[name], args, redirect)
    else if name == "exec" then
      if args == [] then (s, 0) else EndExec(exec, RunCommand(L, exec, s, args[0], args[1..], redirect))
    else RunBuiltin(L, exec, s, name, args, redirect)
  }

  /** One simple statement; `None` means that it had no words and did not run. */
  function RunSimple(L: Lang, exec: bool, s: State, it: Item): (r: (State, Option<int>))
    requires it.node.Simple?
    ensures Preserves(s, r.0)
    decreases MAX_FUNCTION_DEPTH - |s.store.frames|, 1, it, 0, 0
  {
    match L.expand(it.node.text, s.store)
    case Blank => (s, None)
    case Plain(e) => (s.(store := Apply(s.store, e)), Some(e.status))
    case Words(name, args, redirect) =>
      var (s', code) := RunCommand(L, exec, s, name, args, redirect);
      (s', Some(code))
  }

  function CallFunction(L: Lang, exec: bool, s: State, body: seq<Item>, args: seq<string>,
      redirect: Option<Input>): (r: (State, int))
    ensures Preserves(s, r.0)
    decreases MAX_FUNCTION_DEPTH - |s.store.frames|, 0, 0
  {
    if |s.store.frames| >= MAX_FUNCTION_DEPTH then (s, 1)
    else
      var (s1, c) := RunItems(L, exec, PushFrame(s, args, redirect), body, 0, 0);
      PopFrame(s1, c, redirect, s.store.pipeStdin)
  }

  // ----- lists -----

  /** runItems from position i on, with the status so far. */
  function RunItems(L: Lang, exec: bool, s: State, items: seq<Item>, i: nat, last: int): (r: (State, int))
    requires i <= |items|
    ensures Preserves(s, r.0)
    decreases MAX_FUNCTION_DEPTH - |s.store.frames|, 1, items, 0, |items| - i
  {
    if i == |items| || Stopped(s) then (s, last)
    else if Skipped(items, i, last) then RunItems(L, exec, s, items, i + 1, last)
    else
      var (s1, code) := RunItem(L, exec, s, items[i], Chained(items, i), last);
      RunItems(L, exec, s1, items, i + 1, code)
  }

  /** One item that is not skipped: a statement without words leaves the status `last` as it was. */
  function RunItem(L: Lang, exec: bool, s: State, it: Item, chained: bool, last: int): (r: (State, int))
    ensures Preserves(s, r.0)
    decreases MAX_FUNCTION_DEPTH - |s.store.frames|, 1, it, 1, 0
  {
    match it.node
    case Simple(_) =>
      (match RunSimple(L, exec, s, it)
       case (s1, None) => (s1, last)
       case (s1, Some(code)) => (Finish(s1, chained, code), code))
    case Subshell(body) =>
      var (s1, code) := RunSubshell(L, exec, s, it);
      (Finish(s1, chained, code), code)
    case _ =>
      var (s1, code) := RunNode(L, exec, s, it.node);
      if IsPipe(it.tail) then PipeInto(L, s1, it.tail) else (s1, code)
  }

  /** The rest of a pipeline after a compound command, run as a subshell. */
  function PipeInto(L: Lang, s: State, tail: string): (State, int) {
    if s.flags.ctl != NoCtl then (s, 0)
    else
      var (st, code) := Pipe(L, s.store, tail);
      (s.(store := st), code)
  }

  function RunSubshell(L: Lang, exec: bool, s: State, it: Item): (r: (State, int))
    requires it.node.Subshell?
    ensures Preserves(s, r.0)
    decreases MAX_FUNCTION_DEPTH - |s.store.frames|, 1, it, 0, 0
  {
    var (s1, c) := RunItems(L, exec, EnterSubshell(s), it.node.sbody, 0, 0);
    var (s2, code) := LeaveSubshell(s.flags, s1, c);
    var s3 := RestoreVars(s2, s.store.cwd, s.store.env);
    if IsPipe(it.tail) then PipeInto(L, s3, it.tail) else (s3, code)
  }

  // ----- compound commands -----

  function RunNode(L: Lang, exec: bool, s: State, node: Node): (r: (State, int))
    requires !node.Simple? && !node.Subshell?
    ensures Preserves(s, r.0)
    decreases MAX_FUNCTION_DEPTH - |s.store.frames|, 1, node, 1, 0
  {
    match node
    case If(branches, elseBody) => RunIf(L, exec, s, node, 0)
    case Group(feed, body) =>
      if feed == "" then RunItems(L, exec, s, body, 0, 0)
      else
        var (s1, input) := RunFeed(L, s, feed);
        var s2 := s1.(store := s1.store.(pipeStdin := Some(input)));
        var (s3, c) := RunItems(L, exec, EnterSubshell(s2), body, 0, 0);
        var (s4, code) := LeaveSubshell(s.flags, s3, c);
        (RestoreVars(s4.(store := s4.store.(pipeStdin := s.store.pipeStdin)), s.store.cwd, s.store.env), code)
    case Case(word, arms) => RunCase(L, exec, s, node, L.word(word, s.store), 0)
    case For(name, words, body) =>
      var (s1, code) := RunFor(L, exec, SetDepth(s, s.loopDepth + 1), node, ForValues(L, s.store, words), 0, 0);
      (SetDepth(s1, s.loopDepth), code)
    case Loop(_, _, _, input, feed) =>
      if feed != "" then
        var (s1, lines) := RunFeed(L, s, feed);
        var (s2, c) := RunFrom(L, exec, EnterSubshell(s1), node, Some(lines));
        var (s3, code) := LeaveSubshell(s.flags, s2, c);
        (RestoreVars(s3, s.store.cwd, s.store.env), code)
      else if input != "" then
        var lines := L.open(input, s.store);
        if lines.None? then (s, 1) else RunFrom(L, exec, s, node, lines)
      else RunFrom(L, exec, s, node, s.store.pipeStdin)
    case Func(name, body) =>
      (s.(store := s.store.(funcs := s.store.funcs[name := body])), 0)
  }

  function RunIf(L: Lang, exec: bool, s: State, node: Node, j: nat): (r: (State, int))
    requires node.If? && j <= |node.branches|
    ensures Preserves(s, r.0)
    decreases MAX_FUNCTION_DEPTH - |s.store.frames|, 1, node, 0, |node.branches| - j
  {
    if j == |node.branches| then RunItems(L, exec, s, node.elseBody, 0, 0)
    else
      var (s1, c) := RunCondition(L, exec, s, node.branches[j].cond);
      if c == 0 then RunItems(L, exec, s1, node.branches[j].body, 0, 0)
      else RunIf(L, exec, s1, node, j + 1)
  }

  /** A condition: `set -e` does not apply inside it. */
  function RunCondition(L: Lang, exec: bool, s: State, cond: seq<Item>): (r: (State, int))
    ensures Preserves(s, r.0)
    decreases MAX_FUNCTION_DEPTH - |s.store.frames|, 1, cond, 1, 0
  {
    var (s1, c) := RunItems(L, exec, s.(errexitOff := s.errexitOff + 1), cond, 0, 0);
    (s1.(errexitOff := s.errexitOff), c)
  }

  function RunCase(L: Lang, exec: bool, s: State, node: Node, word: string, j: nat): (r: (State, int))
    requires node.Case? && j <= |node.arms|
    ensures Preserves(s, r.0)
    decreases MAX_FUNCTION_DEPTH - |s.store.frames|, 1, node, 0, |node.arms| - j
  {
    if j == |node.arms| then (s, 0)
    else if ArmMatches(L, s.store, node.arms[j].patterns, word) then RunItems(L, exec, s, node.arms[j].body, 0, 0)
    else RunCase(L, exec, s, node, word, j + 1)
  }

  /** What a loop does after its body: whether it ends, and the break or continue it takes. */
  function AfterBody(s: State): (State, bool) {
    if s.flags.halted || s.flags.returning then (s, true)
    else (s.(flags := s.flags.(ctl := NoCtl)), s.flags.ctl == BreakCtl)
  }

  function SetDepth(s: State, depth: nat): State {
    s.(loopDepth := depth)
  }

  function SetVar(s: State, name: string, value: string): State {
    s.(store := s.store.(env := s.store.env[name := value]))
  }

  function RunFor(L: Lang, exec: bool, s: State, node: Node, values: seq<string>, n: nat, last: int): (r: (State, int))
    requires node.For? && n <= |values|
    ensures Preserves(s, r.0)
    decreases MAX_FUNCTION_DEPTH - |s.store.frames|, 1, node, 0, |values| - n
  {
    if n == |values| || n == MAX_LOOP_ITERATIONS then (s, last)
    else
      var (s1, c) := RunItems(L, exec, SetVar(s, node.name, values[n]), node.fbody, 0, 0);
      var (s2, done) := AfterBody(s1);
      if done then (s2, c) else RunFor(L, exec, s2, node, values, n + 1, c)
  }

  function SetLoop(s: State, lines: Option<Input>, depth: nat): State {
    s.(store := s.store.(loopInput := lines), loopDepth := depth)
  }

  /** A while or until loop that reads `lines`; the enclosing loop's input comes back afterwards. */
  function RunFrom(L: Lang, exec: bool, s: State, node: Node, lines: Option<Input>): (r: (State, int))
    requires node.Loop?
    ensures Preserves(s, r.0)
    decreases MAX_FUNCTION_DEPTH - |s.store.frames|, 1, node, 0, MAX_LOOP_ITERATIONS + 1
  {
    var (s1, code) := RunLoop(L, exec, SetLoop(s, lines, s.loopDepth + 1), node, MAX_LOOP_ITERATIONS, 0);
    (SetLoop(s1, s.store.loopInput, s.loopDepth), code)
  }

  /** At most `left` more turns. */
  function RunLoop(L: Lang, exec: bool, s: State, node: Node, left: nat, last: int): (r: (State, int))
    requires node.Loop?
    ensures Preserves(s, r.0)
    decreases MAX_FUNCTION_DEPTH - |s.store.frames|, 1, node, 0, left
  {
    if left == 0 then (s, last)
    else
      var (s1, c, done) := LoopOnce(L, exec, s, node, last);
      if done then (s1, c) else RunLoop(L, exec, s1, node, left - 1, c)
  }

  /** One turn of a while or until loop: the state, the loop's status so far, and whether the loop ends. */
  function LoopOnce(L: Lang, exec: bool, s: State, node: Node, last: int): (r: (State, int, bool))
    requires node.Loop?
    ensures Preserves(s, r.0)
    decreases MAX_FUNCTION_DEPTH - |s.store.frames|, 1, node, 0, 0
  {
    var (s1, c) := RunCondition(L, exec, s, node.cond);
    if s1.flags.halted || s1.flags.returning || (c == 0) == node.until then (s1, last, true)
    else
      var (s2, c2) := RunItems(L, exec, s1, node.lbody, 0, 0);
      var (s3, done) := AfterBody(s2);
      (s3, c2, done)
  }
}

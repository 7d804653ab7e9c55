// The interpreter object of internal/shell: the same evaluator as
// ShellMachine, written the way the source is, with fields that every
// construct tests, sets, saves and restores.

module ShellInterpreter {
  import opened ShellSyntax
  import opened ShellMachine
  import opened ShellRefinement
  import opened ShellLeaks
  import opened Wrappers

  class Interpreter {
    const L: Lang
    const exec: bool  // running `bash -c command` rather than a login shell

    var cwd: string
    var env: map<string, string>
    var lastCode: int
    var errexit: bool
    var errexitOff: nat
    var frames: seq<Frame>
    var funcs: map<string, seq<Item>>
    var loopInput: Option<Input>
    var pipeStdin: Option<Input>
    var loopDepth: nat
    var loopCtl: LoopCtl
    var halted: bool
    var haltCode: int
    var returning: bool
    var retCode: int

    constructor (L: Lang, exec: bool, cwd: string, env: map<string, string>)
      ensures this.L == L && this.exec == exec
      ensures Abs() == State(Store(cwd, env, 0, false, [], map[], None, None), Flags(NoCtl, false, 0, false, 0), 0, 0)
    {
      this.L, this.exec, this.cwd, this.env := L, exec, cwd, env;
      lastCode, errexit, errexitOff, frames, funcs := 0, false, 0, [], map[];
      loopInput, pipeStdin, loopDepth, loopCtl := None, None, 0, NoCtl;
      halted, haltCode, returning, retCode := false, 0, false, 0;
    }

    function Snapshot(): Store
      reads this
    {
      Store(cwd, env, lastCode, errexit, frames, funcs, loopInput, pipeStdin)
    }

    function Abs(): State
      reads this
    {
      State(Snapshot(), Flags(loopCtl, halted, haltCode, returning, retCode), loopDepth, errexitOff)
    }

    // ----- whole programs -----

    /** A `bash -c` command: the status it exits with, and a shell ready for the next one. */
    method RunExec(items: seq<Item>) returns (code: int)
      modifies this
      ensures (Abs(), code) == EndRun(ShellMachine.RunItems(L, exec, old(Abs()), items, 0, 0))
      ensures forall J: set<string> :: old(Idle(Abs()) && TidyFuncs(L, J, funcs)) && Tidy(L, J, items) ==>
                Idle(Abs()) && TidyFuncs(L, J, funcs)
    {
      ghost var s := Abs();
      code := RunItems(items);
      if halted {
        code, halted := haltCode, false;
      }
      forall J: set<string> | Idle(s) && TidyFuncs(L, J, s.store.funcs) && Tidy(L, J, items)
        ensures Idle(Abs()) && TidyFuncs(L, J, funcs)
      {
        TidyProgramsLeaveNone(L, J, exec, s, items);
      }
    }

    /** One line typed at a login shell: a failure under `set -e` ends the line, not the shell. */
    method RunLine(items: seq<Item>) returns (code: int)
      modifies this
      ensures var r := ShellMachine.RunItems(L, exec, old(Abs()), items, 0, 0);
              code == r.1 && Abs() == EndRun(r).0
      ensures forall J: set<string> :: old(Idle(Abs()) && TidyFuncs(L, J, funcs)) && Tidy(L, J, items) ==>
                Idle(Abs()) && TidyFuncs(L, J, funcs)
    {
      ghost var s := Abs();
      code := RunItems(items);
      halted := false;
      forall J: set<string> | Idle(s) && TidyFuncs(L, J, s.store.funcs) && Tidy(L, J, items)
        ensures Idle(Abs()) && TidyFuncs(L, J, funcs)
      {
        TidyProgramsLeaveNone(L, J, exec, s, items);
      }
    }

    // ----- lists and simple statements -----

    method RunItems(items: seq<Item>) returns (last: int)
      modifies this
      ensures (Abs(), last) == ShellMachine.RunItems(L, exec, old(Abs()), items, 0, 0)
      decreases MAX_FUNCTION_DEPTH - |frames|, 1, items, 0, 0
    {
      ghost var goal := ShellMachine.RunItems(L, exec, Abs(), items, 0, 0);
      last := 0;
      var i := 0;
      while i < |items|
        invariant i <= |items|
        invariant ShellMachine.RunItems(L, exec, Abs(), items, i, last) == goal
        invariant |frames| == old(|frames|)
      {
        if loopCtl != NoCtl || halted || returning {
          return;
        }
        var it := items[i];
        if i > 0 && ((it.sep.And? && last != 0) || (it.sep.Or? && last == 0)) {
          i := i + 1;
          continue;
        }
        last := RunItem(items, i, last);
        i := i + 1;
      }
    }

    method RunItem(items: seq<Item>, i: nat, before: int) returns (last: int)
      requires i < |items|
      modifies this
      ensures (Abs(), last) == ShellMachine.RunItem(L, exec, old(Abs()), items[i], Chained(items, i), before)
      decreases MAX_FUNCTION_DEPTH - |frames|, 1, items[i], 1, 0
    {
      var it := items[i];
      last := before;
      match it.node {
        case Simple(text) =>
          var ran := RunSimple(it);
          if ran.Some? {
            last := ran.value;
            Finish(items, i, last);
          }
        case Subshell(_) =>
          last := RunSubshell(it);
          Finish(items, i, last);
        case _ =>
          last := RunNode(it.node);
          if IsPipe(it.tail) {
            last := PipeInto(it.tail);
          }
      }
    }

    method Finish(items: seq<Item>, i: nat, code: int)
      requires i < |items|
      modifies this`lastCode, this`halted, this`haltCode
      ensures Abs() == ShellMachine.Finish(old(Abs()), Chained(items, i), code)
    {
      lastCode := code;
      if code == 0 || !errexit || errexitOff > 0 {
        return;
      }
      if i + 1 < |items| && (items[i + 1].sep.And? || items[i + 1].sep.Or?) {
        return;
      }
      halted, haltCode := true, code;
    }

    method RunSimple(it: Item) returns (code: Option<int>)
      requires it.node.Simple?
      modifies this
      ensures (Abs(), code) == ShellMachine.RunSimple(L, exec, old(Abs()), it)
      decreases MAX_FUNCTION_DEPTH - |frames|, 1, it, 0, 0
    {
      match L.expand(it.node.text, Snapshot()) {
        case Blank =>
          return None;
        case Plain(e) =>
          cwd, env, loopInput := e.cwd, e.env, e.loopInput;
          if pipeStdin.Some? {
            pipeStdin := e.stdin;
          }
          return Some(e.status);
        case Words(name, args, redirect) =>
          var c := RunCommand(name, args, redirect);
          return Some(c);
      }
    }

    /** `execBuiltin`: a function runs in place of any builtin of the same name. */
    method RunCommand(name: string, args: seq<string>, redirect: Option<Input>) returns (code: int)
      modifies this
      ensures (Abs(), code) == ShellMachine.RunCommand(L, exec, old(Abs()), name, args, redirect)
      decreases MAX_FUNCTION_DEPTH - |frames|, 0, 2 * |args| + 1
    {
      if name in funcs {
        code := CallFunction(funcs[name], args, redirect);
      } else if name == "exec" {
        code := ExecCommand(args, redirect);
      } else {
        code := RunBuiltin(name, args, redirect);
      }
    }

    method ExecCommand(args: seq<string>, redirect: Option<Input>) returns (code: int)
      requires "exec" !in funcs
      modifies this
      ensures (Abs(), code) == ShellMachine.RunCommand(L, exec, old(Abs()), "exec", args, redirect)
      decreases MAX_FUNCTION_DEPTH - |frames|, 0, 2 * |args|
    {
      if |args| == 0 {
        return 0;
      }
      code := RunCommand(args[0], args[1..], redirect);
      if exec {
        halted, haltCode := true, code;
      }
    }

    method RunBuiltin(name: string, args: seq<string>, redirect: Option<Input>) returns (code: int)
      modifies this
      ensures (Abs(), code) == ShellMachine.RunBuiltin(L, exec, old(Abs()), name, args, redirect)
    {
      if name == "break" || name == "continue" {
        if loopDepth > 0 {
          loopCtl := if name == "break" then BreakCtl else ContinueCtl;
        }
        return 0;
      }
      if name == "exit" {
        code := ExitBuiltin(args);
        return;
      }
      if name == "return" {
        code := ReturnBuiltin(args);
        return;
      }
      if name == "local" {
        code := LocalBuiltin(args);
        return;
      }
      if name == "shift" {
        code := ShiftBuiltin(args);
        return;
      }
      if name == "unset" {
        UnsetBuiltin(args);
        return 0;
      }
      if name == "set" {
        var r := SetOptions(args, 0, errexit);
        errexit := r.0;
        return r.1;
      }
      code := RunExternal(name, args, redirect);
    }

    method RunExternal(name: string, args: seq<string>, redirect: Option<Input>) returns (code: int)
      modifies this`cwd, this`env, this`loopInput, this`pipeStdin
      ensures (Abs(), code) == ShellMachine.RunExternal(L, old(Abs()), name, args, redirect)
    {
      var e := L.external(name, args, Snapshot(), if redirect.Some? then redirect else pipeStdin);
      cwd, env, loopInput := e.cwd, e.env, e.loopInput;
      if redirect.None? && pipeStdin.Some? {
        pipeStdin := e.stdin;
      }
      return e.status;
    }

    method ExitBuiltin(args: seq<string>) returns (code: int)
      modifies this`halted, this`haltCode
      ensures (Abs(), code) == ShellMachine.ExitBuiltin(old(Abs()), exec, args)
    {
      if !exec {
        return EXIT_REQUESTED;
      }
      code := lastCode;
      if |args| > 0 {
        var n := Atoi(args[0]);
        if n.None? {
          halted, haltCode := true, 2;
          return 2;
        }
        code := n.value;
      }
      code := code % 256;
      halted, haltCode := true, code;
    }

    method ReturnBuiltin(args: seq<string>) returns (code: int)
      modifies this`returning, this`retCode
      ensures (Abs(), code) == ShellMachine.ReturnBuiltin(old(Abs()), args)
    {
      if |frames| == 0 {
        return 1;
      }
      code := lastCode;
      if |args| > 0 {
        var n := Atoi(args[0]);
        if n.None? {
          returning, retCode := true, 2;
          return 2;
        }
        code := n.value % 256;
      }
      returning, retCode := true, code;
    }

    method ShiftBuiltin(args: seq<string>) returns (code: int)
      modifies this`frames
      ensures (Snapshot(), code) == Shift(old(Snapshot()), args)
    {
      var n := 1;
      if |args| > 0 {
        var a := Atoi(args[0]);
        if a.None? || a.value < 0 {
          return 1;
        }
        n := a.value;
      }
      if |frames| == 0 || n > |frames[|frames| - 1].args| {
        return 1;
      }
      var f := frames[|frames| - 1];
      frames := frames[|frames| - 1 := f.(args := f.args[n..])];
      return 0;
    }

    method UnsetBuiltin(args: seq<string>)
      modifies this`env, this`funcs
      ensures Snapshot() == Unset(old(Snapshot()), args, false)
    {
      var fn := false;
      ghost var goal := Unset(Snapshot(), args, false);
      for k := 0 to |args|
        invariant Unset(Snapshot(), args[k..], fn) == goal
      {
        assert args[k..][0] == args[k] && args[k..][1..] == args[k + 1..];
        var a := args[k];
        if a == "-f" {
          fn := true;
        } else if a == "-v" {
          fn := false;
        } else if |a| > 0 && a[0] == '-' {
        } else if fn {
          funcs := funcs - {a};
        } else {
          env := env - {a};
        }
      }
      assert args[|args|..] == [];
    }

    method LocalBuiltin(args: seq<string>) returns (code: int)
      modifies this`frames, this`env
      ensures old(|frames|) == 0 ==> Abs() == old(Abs()) && code == 1
      ensures old(|frames|) > 0 ==> Snapshot() == DeclareLocals(old(Snapshot()), args) && code == 0
    {
      if |frames| == 0 {
        return 1;
      }
      ghost var goal := DeclareLocals(Snapshot(), args);
      for k := 0 to |args|
        invariant |frames| == old(|frames|)
        invariant DeclareLocals(Snapshot(), args[k..]) == goal
      {
        assert args[k..][0] == args[k] && args[k..][1..] == args[k + 1..];
        DeclareLocal(args[k]);
      }
      assert args[|args|..] == [];
      return 0;
    }

    method DeclareLocal(a: string)
      requires |frames| > 0
      modifies this`frames, this`env
      ensures Snapshot() == ShellSyntax.DeclareLocal(old(Snapshot()), a)
    {
      if |a| > 0 && a[0] == '-' {
        return;
      }
      var eq := IndexOf(a, '=');
      var name := a[..eq];
      var f := frames[|frames| - 1];
      if name !in f.locals {
        var saved := if name in env then Some(env[name]) else None;
        frames := frames[|frames| - 1 := f.(locals := f.locals[name := saved])];
      } else {
        assert frames[|frames| - 1 := f] == frames;
      }
      if eq < |a| {
        env := env[name := a[eq + 1..]];
      } else {
        env := env - {name};
      }
    }

    method CallFunction(body: seq<Item>, args: seq<string>, redirect: Option<Input>) returns (code: int)
      modifies this
      ensures (Abs(), code) == ShellMachine.CallFunction(L, exec, old(Abs()), body, args, redirect)
      decreases MAX_FUNCTION_DEPTH - |frames|, 0, 0
    {
      if |frames| >= MAX_FUNCTION_DEPTH {
        return 1;
      }
      var savedStdin := pipeStdin;
      PushFrame(args, redirect);
      code := RunItems(body);
      code := PopFrame(code, redirect, savedStdin);
    }

    method PushFrame(args: seq<string>, redirect: Option<Input>)
      modifies this`frames, this`pipeStdin
      ensures Abs() == ShellMachine.PushFrame(old(Abs()), args, redirect)
    {
      frames := frames + [Frame(args, map[])];
      if redirect.Some? {
        pipeStdin := redirect;
      }
    }

    method PopFrame(ran: int, redirect: Option<Input>, savedStdin: Option<Input>) returns (code: int)
      requires |frames| > 0
      modifies this`frames, this`pipeStdin, this`env, this`returning
      ensures (Abs(), code) == ShellMachine.PopFrame(old(Abs()), ran, redirect, savedStdin)
    {
      code := ran;
      if returning {
        code, returning := retCode, false;
      }
      if redirect.Some? {
        pipeStdin := savedStdin;
      }
      var f := frames[|frames| - 1];
      frames := frames[..|frames| - 1];
      env := RestoreLocals(env, f.locals);
    }

    // ----- subshells and pipelines -----

    method PipeInto(tail: string) returns (code: int)
      modifies this`cwd, this`env, this`loopInput
      ensures (Abs(), code) == ShellMachine.PipeInto(L, old(Abs()), tail)
    {
      if loopCtl != NoCtl {
        return 0;
      }
      var e := L.pipe(tail, Snapshot());
      cwd, env, loopInput := e.cwd, e.env, e.loopInput;
      return e.status;
    }

    method Enter() returns (saved: Flags)
      modifies this`halted, this`returning
      ensures saved == old(Abs()).flags
      ensures Abs() == EnterSubshell(old(Abs()))
    {
      saved := Flags(loopCtl, halted, haltCode, returning, retCode);
      halted, returning := false, false;
    }

    method Leave(saved: Flags, code: int) returns (code': int)
      modifies this`halted, this`haltCode, this`returning
      ensures (Abs(), code') == LeaveSubshell(saved, old(Abs()), code)
    {
      code' := code;
      if halted {
        code' := haltCode;
      } else if returning {
        code' := retCode;
      }
      halted, haltCode, returning := saved.halted, saved.haltCode, saved.returning;
    }

    method RunSubshell(it: Item) returns (code: int)
      requires it.node.Subshell?
      modifies this
      ensures (Abs(), code) == ShellMachine.RunSubshell(L, exec, old(Abs()), it)
      decreases MAX_FUNCTION_DEPTH - |frames|, 1, it, 0, 0
    {
      var savedCwd, savedEnv := cwd, env;
      var saved := Enter();
      code := RunItems(it.node.sbody);
      code := Leave(saved, code);
      BackTo(savedCwd, savedEnv);
      if IsPipe(it.tail) {
        code := PipeInto(it.tail);
      }
    }

    // ----- compound commands -----

    method RunNode(node: Node) returns (last: int)
      requires !node.Simple? && !node.Subshell?
      modifies this
      ensures (Abs(), last) == ShellMachine.RunNode(L, exec, old(Abs()), node)
      decreases MAX_FUNCTION_DEPTH - |frames|, 1, node, 1, 0
    {
      match node {
        case If(_, _) =>
          last := RunIf(node);
        case Group(feed, body) =>
          if feed != "" {
            last := RunFedGroup(node);
          } else {
            last := RunItems(body);
          }
        case Case(_, _) =>
          last := RunCase(node);
        case For(_, _, _) =>
          last := RunFor(node);
        case Loop(_, _, _, _, feed) =>
          if feed != "" {
            last := RunFedLoop(node);
          } else {
            last := RunWhile(node);
          }
        case Func(name, body) =>
          funcs := funcs[name := body];
          last := 0;
      }
    }

    method RunIf(node: Node) returns (last: int)
      requires node.If?
      modifies this
      ensures (Abs(), last) == ShellMachine.RunIf(L, exec, old(Abs()), node, 0)
      decreases MAX_FUNCTION_DEPTH - |frames|, 1, node, 0, 0
    {
      ghost var goal := ShellMachine.RunIf(L, exec, Abs(), node, 0);
      for j := 0 to |node.branches|
        invariant ShellMachine.RunIf(L, exec, Abs(), node, j) == goal
        invariant |frames| == old(|frames|)
      {
        var condCode := RunCondition(node.branches[j].cond);
        if condCode == 0 {
          last := RunItems(node.branches[j].body);
          return;
        }
      }
      last := RunItems(node.elseBody);
    }

    method RunCondition(cond: seq<Item>) returns (code: int)
      modifies this
      ensures (Abs(), code) == ShellMachine.RunCondition(L, exec, old(Abs()), cond)
      decreases MAX_FUNCTION_DEPTH - |frames|, 1, cond, 1, 0
    {
      errexitOff := errexitOff + 1;
      code := RunItems(cond);
      errexitOff := errexitOff - 1;
    }

    method RunCase(node: Node) returns (last: int)
      requires node.Case?
      modifies this
      ensures (Abs(), last) == ShellMachine.RunCase(L, exec, old(Abs()), node, L.word(node.word, old(Snapshot())), 0)
      decreases MAX_FUNCTION_DEPTH - |frames|, 1, node, 0, 0
    {
      var word := L.word(node.word, Snapshot());
      ghost var goal := ShellMachine.RunCase(L, exec, Abs(), node, word, 0);
      for j := 0 to |node.arms|
        invariant Abs() == old(Abs())
        invariant ShellMachine.RunCase(L, exec, Abs(), node, word, j) == goal
      {
        var arm := node.arms[j];
        for k := 0 to |arm.patterns|
          invariant Abs() == old(Abs())
          invariant forall m :: 0 <= m < k ==> !L.matches(L.word(arm.patterns[m], Snapshot()), word)
        {
          if L.matches(L.word(arm.patterns[k], Snapshot()), word) {
            last := RunItems(arm.body);
            return;
          }
        }
      }
      last := 0;
    }

    /** After a loop body: whether the loop ends. The innermost loop takes a pending break or continue. */
    method AfterBody() returns (done: bool)
      modifies this`loopCtl
      ensures (Abs(), done) == ShellMachine.AfterBody(old(Abs()))
    {
      if halted || returning {
        return true;
      }
      done := loopCtl == BreakCtl;
      loopCtl := NoCtl;
    }

    method RunFor(node: Node) returns (last: int)
      requires node.For?
      modifies this
      ensures (Abs(), last) == ShellMachine.RunNode(L, exec, old(Abs()), node)
      decreases MAX_FUNCTION_DEPTH - |frames|, 1, node, 0, 1
    {
      var values := ForValues(L, Snapshot(), node.words);
      DeepenLoop();
      last := RunForValues(node, values);
      LeaveLoop();
    }

    method DeepenLoop()
      modifies this`loopDepth
      ensures Abs() == SetDepth(old(Abs()), old(loopDepth) + 1)
    {
      loopDepth := loopDepth + 1;
    }

    method LeaveLoop()
      requires loopDepth > 0
      modifies this`loopDepth
      ensures Abs() == SetDepth(old(Abs()), old(loopDepth) - 1)
    {
      loopDepth := loopDepth - 1;
    }

    method RunForValues(node: Node, values: seq<string>) returns (last: int)
      requires node.For?
      modifies this
      ensures (Abs(), last) == ShellMachine.RunFor(L, exec, old(Abs()), node, values, 0, 0)
      decreases MAX_FUNCTION_DEPTH - |frames|, 1, node, 0, 0
    {
      ghost var goal := ShellMachine.RunFor(L, exec, Abs(), node, values, 0, 0);
      last := 0;
      var n := 0;
      while n < |values|
        invariant n <= |values|
        invariant ShellMachine.RunFor(L, exec, Abs(), node, values, n, last) == goal
        invariant |frames| == old(|frames|)
      {
        if n == MAX_LOOP_ITERATIONS {
          break;
        }
        Assign(node.name, values[n]);
        last := RunItems(node.fbody);
        var done := AfterBody();
        if done {
          return;
        }
        n := n + 1;
      }
    }

    method Assign(name: string, value: string)
      modifies this`env
      ensures Abs() == SetVar(old(Abs()), name, value)
    {
      env := env[name := value];
    }

    method Feed(feed: string) returns (input: Input)
      modifies this`cwd, this`env, this`loopInput
      ensures (Abs(), input) == RunFeed(L, old(Abs()), feed)
    {
      var r := L.feed(feed, Snapshot());
      cwd, env, loopInput := r.0.cwd, r.0.env, r.0.loopInput;
      input := r.1;
    }

    method SetStdin(stdin: Option<Input>)
      modifies this`pipeStdin
      ensures Abs() == old(Abs()).(store := old(Abs()).store.(pipeStdin := stdin))
    {
      pipeStdin := stdin;
    }

    method BackTo(savedCwd: string, savedEnv: map<string, string>)
      modifies this`cwd, this`env
      ensures Abs() == RestoreVars(old(Abs()), savedCwd, savedEnv)
    {
      cwd, env := savedCwd, savedEnv;
    }

    method RunFedGroup(node: Node) returns (code: int)
      requires node.Group? && node.feed != ""
      modifies this
      ensures (Abs(), code) == ShellMachine.RunNode(L, exec, old(Abs()), node)
      decreases MAX_FUNCTION_DEPTH - |frames|, 1, node, 0, 0
    {
      var savedCwd, savedEnv, savedStdin := cwd, env, pipeStdin;
      var input := Feed(node.feed);
      SetStdin(Some(input));
      var saved := Enter();
      code := RunItems(node.gbody);
      code := Leave(saved, code);
      SetStdin(savedStdin);
      BackTo(savedCwd, savedEnv);
    }

    method RunFedLoop(node: Node) returns (code: int)
      requires node.Loop? && node.lfeed != ""
      modifies this
      ensures (Abs(), code) == ShellMachine.RunNode(L, exec, old(Abs()), node)
      decreases MAX_FUNCTION_DEPTH - |frames|, 1, node, 0, 3
    {
      var savedCwd, savedEnv := cwd, env;
      var lines := Feed(node.lfeed);
      var saved := Enter();
      code := RunFrom(node, Some(lines));
      code := Leave(saved, code);
      BackTo(savedCwd, savedEnv);
    }

    method RunWhile(node: Node) returns (code: int)
      requires node.Loop? && node.lfeed == ""
      modifies this
      ensures (Abs(), code) == ShellMachine.RunNode(L, exec, old(Abs()), node)
      decreases MAX_FUNCTION_DEPTH - |frames|, 1, node, 0, 3
    {
      if node.input != "" {
        var lines := L.open(node.input, Snapshot());
        if lines.None? {
          return 1;
        }
        code := RunFrom(node, lines);
      } else {
        code := RunFrom(node, pipeStdin);
      }
    }

    method RunFrom(node: Node, lines: Option<Input>) returns (last: int)
      requires node.Loop?
      modifies this
      ensures (Abs(), last) == ShellMachine.RunFrom(L, exec, old(Abs()), node, lines)
      decreases MAX_FUNCTION_DEPTH - |frames|, 1, node, 0, 2
    {
      var saved := loopInput;
      OpenLoop(lines);
      last := RunLoop(node);
      CloseLoop(saved);
    }

    method OpenLoop(lines: Option<Input>)
      modifies this`loopInput, this`loopDepth
      ensures Abs() == SetLoop(old(Abs()), lines, old(loopDepth) + 1)
    {
      loopInput, loopDepth := lines, loopDepth + 1;
    }

    method CloseLoop(saved: Option<Input>)
      requires loopDepth > 0
      modifies this`loopInput, this`loopDepth
      ensures Abs() == SetLoop(old(Abs()), saved, old(loopDepth) - 1)
    {
      loopInput, loopDepth := saved, loopDepth - 1;
    }

    method RunLoop(node: Node) returns (last: int)
      requires node.Loop?
      modifies this
      ensures (Abs(), last) == ShellMachine.RunLoop(L, exec, old(Abs()), node, MAX_LOOP_ITERATIONS, 0)
      decreases MAX_FUNCTION_DEPTH - |frames|, 1, node, 0, 1
    {
      ghost var goal := ShellMachine.RunLoop(L, exec, Abs(), node, MAX_LOOP_ITERATIONS, 0);
      last := 0;
      var n, done := 0, false;
      while n < MAX_LOOP_ITERATIONS && !done
        invariant n <= MAX_LOOP_ITERATIONS
        invariant goal == if done then (Abs(), last)
                          else ShellMachine.RunLoop(L, exec, Abs(), node, MAX_LOOP_ITERATIONS - n, last)
        invariant |frames| == old(|frames|)
      {
        last, done := LoopOnce(node, last);
        n := n + 1;
      }
    }

    method LoopOnce(node: Node, before: int) returns (last: int, done: bool)
      requires node.Loop?
      modifies this
      ensures (Abs(), last, done) == ShellMachine.LoopOnce(L, exec, old(Abs()), node, before)
      decreases MAX_FUNCTION_DEPTH - |frames|, 1, node, 0, 0
    {
      var c := RunCondition(node.cond);
      if halted || returning || (c == 0) == node.until {
        return before, true;
      }
      last := RunItems(node.lbody);
      done := AfterBody();
    }
  }
}

// The lines that `read` takes: a run only ever consumes the input of the
// enclosing loop and the standard input it was given, and gives back its own.

module ShellInputs {
  import opened ShellSyntax
  import opened ShellMachine
  import opened Wrappers

  /** `b` is what is left of `a` after some lines were read. */
  ghost predicate Consumed(a: Option<Input>, b: Option<Input>) {
    && a.Some? == b.Some?
    && (a.Some? ==>
          exists k: nat :: k <= |a.value.lines| && b.value.lines == a.value.lines[k..]
            && (b.value.lines != [] ==> b.value.partial == a.value.partial))
  }

  lemma {:induction false} ConsumedTwice(a: Option<Input>, b: Option<Input>, c: Option<Input>)
    requires Consumed(a, b) && Consumed(b, c)
    ensures Consumed(a, c)
  {
    if a.Some? {
      var j: nat :| j <= |a.value.lines| && b.value.lines == a.value.lines[j..]
        && (b.value.lines != [] ==> b.value.partial == a.value.partial);
      var k: nat :| k <= |b.value.lines| && c.value.lines == b.value.lines[k..]
        && (c.value.lines != [] ==> c.value.partial == b.value.partial);
      assert a.value.lines[j + k..] == c.value.lines;
    }
  }

  lemma {:induction false} NothingConsumed(a: Option<Input>)
    ensures Consumed(a, a)
  {
    if a.Some? {
      assert a.value.lines[0..] == a.value.lines;
    }
  }

  /** A command leaves what it did not read of the two inputs it can see. */
  ghost predicate Consumes(st: Store, stdin: Option<Input>, e: Effect) {
    Consumed(st.loopInput, e.loopInput) && Consumed(stdin, e.stdin)
  }

  /** Commands other than the control builtins only take lines. */
  ghost predicate OnlyConsumes(L: Lang) {
    && (forall text: string, st: Store ::
          var w := L.expand(text, st); w.Plain? ==> Consumes(st, st.pipeStdin, w.effect))
    && (forall name: string, args: seq<string>, st: Store, stdin: Option<Input> ::
          Consumes(st, stdin, L.external(name, args, st, stdin)))
    && (forall text: string, st: Store :: Consumed(st.loopInput, L.feed(text, st).0.loopInput))
    && (forall text: string, st: Store :: Consumed(st.loopInput, L.pipe(text, st).loopInput))
  }

  /** The counters, the callers and both inputs are as they were found, but for lines that were read. */
  ghost predicate Restores(s: State, t: State) {
    && Preserves(s, t)
    && Consumed(s.store.loopInput, t.store.loopInput)
    && Consumed(s.store.pipeStdin, t.store.pipeStdin)
  }

  lemma {:induction false} RestoresTwice(s: State, t: State, u: State)
    requires Restores(s, t) && Restores(t, u)
    ensures Restores(s, u)
  {
    ConsumedTwice(s.store.loopInput, t.store.loopInput, u.store.loopInput);
    ConsumedTwice(s.store.pipeStdin, t.store.pipeStdin, u.store.pipeStdin);
  }

  /** A state that differs from `s` only where nothing needs to be restored. */
  lemma {:induction false} SameInputs(s: State, t: State)
    requires Preserves(s, t) && t.store.loopInput == s.store.loopInput && t.store.pipeStdin == s.store.pipeStdin
    ensures Restores(s, t)
  {
    NothingConsumed(s.store.loopInput);
    NothingConsumed(s.store.pipeStdin);
  }

  // ----- every run restores -----

  lemma {:induction false} ItemsRestore(L: Lang, exec: bool, s: State, items: seq<Item>, i: nat, last: int)
    requires OnlyConsumes(L) && i <= |items|
    ensures Restores(s, RunItems(L, exec, s, items, i, last).0)
    decreases MAX_FUNCTION_DEPTH - |s.store.frames|, 1, items, 0, |items| - i
  {
    if i == |items| || Stopped(s) {
      SameInputs(s, s);
    } else if Skipped(items, i, last) {
      ItemsRestore(L, exec, s, items, i + 1, last);
    } else {
      var (s1, code) := RunItem(L, exec, s, items[i], Chained(items, i), last);
      ItemRestores(L, exec, s, items[i], Chained(items, i), last);
      ItemsRestore(L, exec, s1, items, i + 1, code);
      RestoresTwice(s, s1, RunItems(L, exec, s1, items, i + 1, code).0);
    }
  }

  lemma {:induction false} ItemRestores(L: Lang, exec: bool, s: State, it: Item, chained: bool, last: int)
    requires OnlyConsumes(L)
    ensures Restores(s, RunItem(L, exec, s, it, chained, last).0)
    decreases MAX_FUNCTION_DEPTH - |s.store.frames|, 1, it, 1, 0
  {
    match it.node
    case Simple(_) => SimpleRestores(L, exec, s, it);
    case Subshell(_) => SubshellRestores(L, exec, s, it);
    case _ =>
      NodeRestores(L, exec, s, it.node);
      PipeRestores(L, s, RunNode(L, exec, s, it.node).0, it.tail);
  }

  lemma {:induction false} PipeRestores(L: Lang, s: State, t: State, tail: string)
    requires OnlyConsumes(L) && Restores(s, t)
    ensures Restores(s, PipeInto(L, t, tail).0)
  {
    ConsumedTwice(s.store.loopInput, t.store.loopInput, L.pipe(tail, t.store).loopInput);
  }

  lemma {:induction false} SimpleRestores(L: Lang, exec: bool, s: State, it: Item)
    requires OnlyConsumes(L) && it.node.Simple?
    ensures Restores(s, RunSimple(L, exec, s, it).0)
    decreases MAX_FUNCTION_DEPTH - |s.store.frames|, 1, it, 0, 0
  {
    match L.expand(it.node.text, s.store)
    case Blank => SameInputs(s, s);
    case Plain(e) => NothingConsumed(None);
    case Words(name, args, redirect) => CommandRestores(L, exec, s, name, args, redirect);
  }

  lemma {:induction false} CommandRestores(L: Lang, exec: bool, s: State, name: string, args: seq<string>,
      redirect: Option<Input>)
    requires OnlyConsumes(L)
    ensures Restores(s, RunCommand(L, exec, s, name, args, redirect).0)
    decreases MAX_FUNCTION_DEPTH - |s.store.frames|, 0, |args| + 1
  {
    if name in s.store.funcs {
      CallRestores(L, exec, s, s.store.funcs[name], args, redirect);
    } else if name == "exec" {
      if args == [] {
        SameInputs(s, s);
      } else {
        CommandRestores(L, exec, s, args[0], args[1..], redirect);
      }
    } else {
      BuiltinRestores(L, exec, s, name, args, redirect);
    }
  }

  const CONTROL := {"break", "continue", "exit", "return", "local", "shift", "set", "unset"}

  lemma {:induction false} BuiltinRestores(L: Lang, exec: bool, s: State, name: string, args: seq<string>,
      redirect: Option<Input>)
    requires OnlyConsumes(L)
    ensures Restores(s, RunBuiltin(L, exec, s, name, args, redirect).0)
  {
    if name in CONTROL {
      UnsetKeeps(s.store, args, false);
      SameInputs(s, RunBuiltin(L, exec, s, name, args, redirect).0);
    } else {
      ExternalRestores(L, s, name, args, redirect);
    }
  }

  lemma {:induction false} ExternalRestores(L: Lang, s: State, name: string, args: seq<string>, redirect: Option<Input>)
    requires OnlyConsumes(L)
    ensures Restores(s, RunExternal(L, s, name, args, redirect).0)
  {
    NothingConsumed(s.store.pipeStdin);
    var stdin := if redirect.Some? then redirect else s.store.pipeStdin;
    assert Consumes(s.store, stdin, L.external(name, args, s.store, stdin));
  }

  /** The caller's frames come back whole, and with them its standard input. */
  lemma {:induction false} CallRestores(L: Lang, exec: bool, s: State, body: seq<Item>, args: seq<string>,
      redirect: Option<Input>)
    requires OnlyConsumes(L)
    ensures var t := CallFunction(L, exec, s, body, args, redirect).0;
      Restores(s, t) && t.store.frames == s.store.frames && (redirect.Some? ==> t.store.pipeStdin == s.store.pipeStdin)
    decreases MAX_FUNCTION_DEPTH - |s.store.frames|, 0, 0
  {
    NothingConsumed(s.store.pipeStdin);
    if |s.store.frames| >= MAX_FUNCTION_DEPTH {
      SameInputs(s, s);
    } else {
      var s0 := PushFrame(s, args, redirect);
      ItemsRestore(L, exec, s0, body, 0, 0);
      var s1 := RunItems(L, exec, s0, body, 0, 0).0;
      assert s1.store.frames[..|s1.store.frames| - 1] == s.store.frames;
    }
  }

  lemma {:induction false} SubshellRestores(L: Lang, exec: bool, s: State, it: Item)
    requires OnlyConsumes(L) && it.node.Subshell?
    ensures Restores(s, RunSubshell(L, exec, s, it).0)
    decreases MAX_FUNCTION_DEPTH - |s.store.frames|, 1, it, 0, 0
  {
    var (s1, c) := RunItems(L, exec, EnterSubshell(s), it.node.sbody, 0, 0);
    ItemsRestore(L, exec, EnterSubshell(s), it.node.sbody, 0, 0);
    var s3 := RestoreVars(LeaveSubshell(s.flags, s1, c).0, s.store.cwd, s.store.env);
    assert Restores(s, s3);
    PipeRestores(L, s, s3, it.tail);
  }

  lemma {:induction false} NodeRestores(L: Lang, exec: bool, s: State, node: Node)
    requires OnlyConsumes(L) && !node.Simple? && !node.Subshell?
    ensures Restores(s, RunNode(L, exec, s, node).0)
    decreases MAX_FUNCTION_DEPTH - |s.store.frames|, 1, node, 1, 0
  {
    match node
    case If(_, _) => IfRestores(L, exec, s, node, 0);
    case Group(feed, body) =>
      if feed == "" {
        ItemsRestore(L, exec, s, body, 0, 0);
      } else {
        FedGroupRestores(L, exec, s, node);
      }
    case Case(word, _) => CaseRestores(L, exec, s, node, L.word(word, s.store), 0);
    case For(_, words, _) =>
      ForRestores(L, exec, SetDepth(s, s.loopDepth + 1), node, ForValues(L, s.store, words), 0, 0);
    case Loop(_, _, _, input, feed) =>
      if feed != "" {
        FedLoopRestores(L, exec, s, node);
      } else if input != "" && L.open(input, s.store).None? {
        SameInputs(s, s);
      } else {
        FromRestores(L, exec, s, node, if input != "" then L.open(input, s.store) else s.store.pipeStdin);
      }
    case Func(_, _) => SameInputs(s, RunNode(L, exec, s, node).0);
  }

  /** The producer's output is the group's standard input only. */
  lemma {:induction false} FedGroupRestores(L: Lang, exec: bool, s: State, node: Node)
    requires OnlyConsumes(L) && node.Group? && node.feed != ""
    ensures var t := RunNode(L, exec, s, node).0; Restores(s, t) && t.store.pipeStdin == s.store.pipeStdin
    decreases MAX_FUNCTION_DEPTH - |s.store.frames|, 1, node, 0, 0
  {
    var (s1, input) := RunFeed(L, s, node.feed);
    var s2 := EnterSubshell(s1.(store := s1.store.(pipeStdin := Some(input))));
    ItemsRestore(L, exec, s2, node.gbody, 0, 0);
    ConsumedTwice(s.store.loopInput, s2.store.loopInput, RunItems(L, exec, s2, node.gbody, 0, 0).0.store.loopInput);
    NothingConsumed(s.store.pipeStdin);
  }

  lemma {:induction false} FedLoopRestores(L: Lang, exec: bool, s: State, node: Node)
    requires OnlyConsumes(L) && node.Loop? && node.lfeed != ""
    ensures Restores(s, RunNode(L, exec, s, node).0)
    decreases MAX_FUNCTION_DEPTH - |s.store.frames|, 1, node, 0, MAX_LOOP_ITERATIONS + 2
  {
    var (s1, lines) := RunFeed(L, s, node.lfeed);
    NothingConsumed(s.store.pipeStdin);
    assert Restores(s, EnterSubshell(s1));
    FromRestores(L, exec, EnterSubshell(s1), node, Some(lines));
    RestoresTwice(s, EnterSubshell(s1), RunFrom(L, exec, EnterSubshell(s1), node, Some(lines)).0);
  }

  lemma {:induction false} IfRestores(L: Lang, exec: bool, s: State, node: Node, j: nat)
    requires OnlyConsumes(L) && node.If? && j <= |node.branches|
    ensures Restores(s, RunIf(L, exec, s, node, j).0)
    decreases MAX_FUNCTION_DEPTH - |s.store.frames|, 1, node, 0, |node.branches| - j
  {
    if j == |node.branches| {
      ItemsRestore(L, exec, s, node.elseBody, 0, 0);
    } else {
      var (s1, c) := RunCondition(L, exec, s, node.branches[j].cond);
      ConditionRestores(L, exec, s, node.branches[j].cond);
      ItemsRestore(L, exec, s1, node.branches[j].body, 0, 0);
      IfRestores(L, exec, s1, node, j + 1);
      RestoresTwice(s, s1, RunIf(L, exec, s, node, j).0);
    }
  }

  lemma {:induction false} ConditionRestores(L: Lang, exec: bool, s: State, cond: seq<Item>)
    requires OnlyConsumes(L)
    ensures Restores(s, RunCondition(L, exec, s, cond).0)
    decreases MAX_FUNCTION_DEPTH - |s.store.frames|, 1, cond, 1, 0
  {
    ItemsRestore(L, exec, s.(errexitOff := s.errexitOff + 1), cond, 0, 0);
  }

  lemma {:induction false} CaseRestores(L: Lang, exec: bool, s: State, node: Node, word: string, j: nat)
    requires OnlyConsumes(L) && node.Case? && j <= |node.arms|
    ensures Restores(s, RunCase(L, exec, s, node, word, j).0)
    decreases MAX_FUNCTION_DEPTH - |s.store.frames|, 1, node, 0, |node.arms| - j
  {
    if j == |node.arms| {
      SameInputs(s, s);
    } else {
      ItemsRestore(L, exec, s, node.arms[j].body, 0, 0);
      CaseRestores(L, exec, s, node, word, j + 1);
    }
  }

  lemma {:induction false} ForRestores(L: Lang, exec: bool, s: State, node: Node, values: seq<string>, n: nat,
      last: int)
    requires OnlyConsumes(L) && node.For? && n <= |values|
    ensures Restores(s, RunFor(L, exec, s, node, values, n, last).0)
    decreases MAX_FUNCTION_DEPTH - |s.store.frames|, 1, node, 0, |values| - n
  {
    if n == |values| || n == MAX_LOOP_ITERATIONS {
      SameInputs(s, s);
    } else {
      var (s1, c) := RunItems(L, exec, SetVar(s, node.name, values[n]), node.fbody, 0, 0);
      ItemsRestore(L, exec, SetVar(s, node.name, values[n]), node.fbody, 0, 0);
      var (s2, done) := AfterBody(s1);
      assert Restores(s, s2);
      if !done {
        ForRestores(L, exec, s2, node, values, n + 1, c);
        RestoresTwice(s, s2, RunFor(L, exec, s2, node, values, n + 1, c).0);
      }
    }
  }

  /** The enclosing loop's input is untouched by a loop that has its own. */
  lemma {:induction false} FromRestores(L: Lang, exec: bool, s: State, node: Node, lines: Option<Input>)
    requires OnlyConsumes(L) && node.Loop?
    ensures var t := RunFrom(L, exec, s, node, lines).0; Restores(s, t) && t.store.loopInput == s.store.loopInput
    decreases MAX_FUNCTION_DEPTH - |s.store.frames|, 1, node, 0, MAX_LOOP_ITERATIONS + 1
  {
    LoopRestores(L, exec, SetLoop(s, lines, s.loopDepth + 1), node, MAX_LOOP_ITERATIONS, 0);
    NothingConsumed(s.store.loopInput);
  }

  lemma {:induction false} LoopRestores(L: Lang, exec: bool, s: State, node: Node, left: nat, last: int)
    requires OnlyConsumes(L) && node.Loop?
    ensures Restores(s, RunLoop(L, exec, s, node, left, last).0)
    decreases MAX_FUNCTION_DEPTH - |s.store.frames|, 1, node, 0, left
  {
    if left == 0 {
      SameInputs(s, s);
    } else {
      var (s1, c, done) := LoopOnce(L, exec, s, node, last);
      TurnRestores(L, exec, s, node, last);
      if !done {
        LoopRestores(L, exec, s1, node, left - 1, c);
        RestoresTwice(s, s1, RunLoop(L, exec, s1, node, left - 1, c).0);
      }
    }
  }

  lemma {:induction false} TurnRestores(L: Lang, exec: bool, s: State, node: Node, last: int)
    requires OnlyConsumes(L) && node.Loop?
    ensures Restores(s, LoopOnce(L, exec, s, node, last).0)
    decreases MAX_FUNCTION_DEPTH - |s.store.frames|, 1, node, 0, 0
  {
    var (s1, c) := RunCondition(L, exec, s, node.cond);
    ConditionRestores(L, exec, s, node.cond);
    var s2 := RunItems(L, exec, s1, node.lbody, 0, 0).0;
    ItemsRestore(L, exec, s1, node.lbody, 0, 0);
    RestoresTwice(s, s1, s2);
  }
}

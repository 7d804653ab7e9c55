// The `read` builtin (`readBuiltin` and `readFromStdin` of
// internal/shell/syntax.go): one line of input, shared out over variables.
// A `while read` loop runs its body once for every line, in order.

module ReadBuiltin {
  import opened Wrappers
  import opened ShellSyntax
  import opened ShellMachine
  import opened ShellRefinement
  import opened ShellInputs
  import FieldSplitting

  type Env = map<string, string>

  const REPLY := "REPLY"
  const DEFAULT_IFS := [' ', '\t', '\n']

  /** Without `-r` a backslash goes and the character after it stays. */
  function Unescaped(line: string): string {
    if line == "" then ""
    else if line[0] != '\\' then [line[0]] + Unescaped(line[1..])
    else if |line| == 1 then ""
    else [line[1]] + Unescaped(line[2..])
  }

  predicate IsFlag(arg: string) {
    arg != "" && arg[0] == '-'
  }

  function Names(args: seq<string>): seq<string> {
    if args == [] then [] else (if IsFlag(args[0]) then [] else [args[0]]) + Names(args[1..])
  }

  predicate Raw(args: seq<string>) {
    exists k :: 0 <= k < |args| && IsFlag(args[k]) && 'r' in args[k]
  }

  /** Later names win over earlier ones. */
  function Assigned(env: Env, names: seq<string>, values: seq<string>): Env
    requires |names| == |values|
    decreases |names|
  {
    if names == [] then env else Assigned(env[names[0] := values[0]], names[1..], values[1..])
  }

  function Cleared(env: Env, names: seq<string>): Env
    decreases |names|
  {
    if names == [] then env else Cleared(env[names[0] := ""], names[1..])
  }

  function Ifs(env: Env): string {
    if "IFS" in env then env["IFS"] else DEFAULT_IFS
  }

  /** The variables after a line was read; without names the whole line goes into REPLY. */
  function Taken(env: Env, names: seq<string>, line: string): Env {
    if names == [] then env[REPLY := line] else Assigned(env, names, FieldSplitting.ReadFields(line, |names|, Ifs(env)))
  }

  /** At the end of the input the variables become empty. */
  function AtEnd(env: Env, names: seq<string>): Env {
    if names == [] then env[REPLY := ""] else Cleared(env, names)
  }

  function Line(args: seq<string>, line: string): string {
    if Raw(args) then line else Unescaped(line)
  }

  /** An unterminated last line is assigned, but `read` fails. */
  function ReadInput(args: seq<string>, env: Env, input: Option<Input>): (Env, Option<Input>, int) {
    if input.None? || input.value.lines == [] then (AtEnd(env, Names(args)), input, 1)
    else
      var rest := input.value.(lines := input.value.lines[1..]);
      (Taken(env, Names(args), Line(args, input.value.lines[0])), Some(rest),
       if rest.partial && rest.lines == [] then 1 else 0)
  }

  /** What a pipe still holds is kept as text, and a single blank line as none. */
  function Kept(input: Input): Input {
    if input.lines == [""] then input.(lines := []) else input
  }

  /** The input of an enclosing loop comes before the command's own standard input. */
  function ReadEffect(args: seq<string>, st: Store, stdin: Option<Input>): Effect {
    if st.loopInput.Some? || stdin.None? then
      var (env, input, code) := ReadInput(args, st.env, st.loopInput);
      Effect(st.cwd, env, input, stdin, code)
    else
      var (env, input, code) := ReadInput(args, st.env, stdin);
      Effect(st.cwd, env, st.loopInput, Some(Kept(input.value)), code)
  }

  // ----- the loops of readBuiltin -----

  method Read(args: seq<string>, env: Env, input: Option<Input>) returns (env': Env, input': Option<Input>, code: int)
    ensures (env', input', code) == ReadInput(args, env, input)
  {
    var names, raw := Flags(args);
    env', input' := env, input;
    if input.None? || input.value.lines == [] {
      env' := Clear(env, names);
      return env', input, 1;
    }
    var line, rest := input.value.lines[0], input.value.lines[1..];
    if !raw {
      line := Unescape(line);
    }
    if names == [] {
      env' := env[REPLY := line];
    } else {
      var values := FieldSplitting.SplitReadFields(line, |names|, Ifs(env));
      env' := AssignEach(env, names, values);
    }
    return env', Some(input.value.(lines := rest)), if input.value.partial && rest == [] then 1 else 0;
  }

  method Flags(args: seq<string>) returns (names: seq<string>, raw: bool)
    ensures names == Names(args) && raw == Raw(args)
  {
    names, raw := [], false;
    for i := 0 to |args|
      invariant names + Names(args[i..]) == Names(args)
      invariant raw == Raw(args[..i])
    {
      NamesNext(args, i, names);
      RawNext(args, i);
      if IsFlag(args[i]) {
        raw := raw || 'r' in args[i];
      } else {
        names := names + [args[i]];
      }
    }
    assert args[..|args|] == args;
  }

  lemma {:induction false} NamesNext(args: seq<string>, i: nat, names: seq<string>)
    requires i < |args|
    ensures names + Names(args[i..]) == (if IsFlag(args[i]) then names else names + [args[i]]) + Names(args[i + 1..])
  {
    assert args[i..][0] == args[i] && args[i..][1..] == args[i + 1..];
  }

  lemma {:induction false} RawNext(args: seq<string>, i: nat)
    requires i < |args|
    ensures Raw(args[..i + 1]) <==> Raw(args[..i]) || (IsFlag(args[i]) && 'r' in args[i])
  {
    var all := args[..i + 1];
    if k :| 0 <= k < i && IsFlag(args[..i][k]) && 'r' in args[..i][k] {
      assert all[k] == args[..i][k];
    }
    assert all[i] == args[i];
    if k :| 0 <= k <= i && IsFlag(all[k]) && 'r' in all[k] {
      assert k < i ==> args[..i][k] == all[k];
    }
  }

  method Unescape(line: string) returns (out: string)
    ensures out == Unescaped(line)
  {
    out := "";
    var i := 0;
    while i < |line|
      invariant i <= |line| && out + Unescaped(line[i..]) == Unescaped(line)
    {
      var rest := line[i..];
      if line[i] == '\\' {
        i := i + 1;
        if i >= |line| {
          break;
        }
        assert rest[2..] == line[i + 1..];
      } else {
        assert rest[1..] == line[i + 1..];
      }
      out := out + [line[i]];
      i := i + 1;
    }
  }

  method Clear(env: Env, names: seq<string>) returns (env': Env)
    ensures env' == AtEnd(env, names)
  {
    env' := env;
    if names == [] {
      env' := env[REPLY := ""];
    }
    for i := 0 to |names|
      invariant names != [] ==> Cleared(env', names[i..]) == Cleared(env, names)
      invariant names == [] ==> env' == env[REPLY := ""]
    {
      env' := env'[names[i] := ""];
    }
  }

  method AssignEach(env: Env, names: seq<string>, values: seq<string>) returns (env': Env)
    requires |names| == |values|
    ensures env' == Assigned(env, names, values)
  {
    env' := env;
    for i := 0 to |names|
      invariant Assigned(env', names[i..], values[i..]) == Assigned(env, names, values)
    {
      env' := env'[names[i] := values[i]];
    }
  }

  // ----- what `read` does to its input and its variables -----

  /** `read` takes at most what is there, from one input. */
  lemma {:induction false} ReadConsumes(args: seq<string>, st: Store, stdin: Option<Input>)
    ensures Consumes(st, stdin, ReadEffect(args, st, stdin))
  {
    if st.loopInput.Some? || stdin.None? {
      TakesFromFront(args, st.env, st.loopInput);
      NothingConsumed(stdin);
    } else {
      NothingConsumed(st.loopInput);
      TakesFromPipe(args, st.env, stdin);
    }
  }

  lemma {:induction false} TakesFromFront(args: seq<string>, env: Env, input: Option<Input>)
    ensures Consumed(input, ReadInput(args, env, input).1)
  {
    NothingConsumed(input);
  }

  lemma {:induction false} TakesFromPipe(args: seq<string>, env: Env, input: Option<Input>)
    requires input.Some?
    ensures Consumed(input, Some(Kept(ReadInput(args, env, input).1.value)))
  {
    var left := ReadInput(args, env, input).1;
    TakesFromFront(args, env, input);
    KeptConsumes(left.value);
    ConsumedTwice(input, left, Some(Kept(left.value)));
  }

  lemma {:induction false} KeptConsumes(input: Input)
    ensures Consumed(Some(input), Some(Kept(input)))
  {
    NothingConsumed(Some(input));
    assert input.lines == [""] ==> input.lines[1..] == [];
  }

  lemma {:induction false} AssignedKeeps(env: Env, names: seq<string>, values: seq<string>, name: string)
    requires |names| == |values| && name !in names && name in env
    ensures name in Assigned(env, names, values) && Assigned(env, names, values)[name] == env[name]
    decreases |names|
  {
    if names != [] {
      AssignedKeeps(env[names[0] := values[0]], names[1..], values[1..], name);
    }
  }

  predicate Different(names: seq<string>) {
    forall i, j :: 0 <= i < j < |names| ==> names[i] != names[j]
  }

  /** Each name gets its field of the line. */
  lemma {:induction false} NamesGetFields(env: Env, names: seq<string>, values: seq<string>, k: nat)
    requires |names| == |values| && Different(names) && k < |names|
    ensures names[k] in Assigned(env, names, values) && Assigned(env, names, values)[names[k]] == values[k]
    decreases |names|
  {
    if k == 0 {
      AssignedKeeps(env[names[0] := values[0]], names[1..], values[1..], names[0]);
    } else {
      NamesGetFields(env[names[0] := values[0]], names[1..], values[1..], k - 1);
    }
  }

  /** Of the lines that a pipe still holds after a read, a single blank one is lost, and nothing else. */
  lemma {:induction false} BlankLastLineIsLost(args: seq<string>, st: Store, stdin: Input)
    requires st.loopInput.None? && stdin.lines != []
    ensures var left := ReadEffect(args, st, Some(stdin)).stdin;
            left.Some? && (left.value.lines == stdin.lines[1..] <==> stdin.lines[1..] != [""])
  {
    assert stdin.lines[1..] == [""] ==> |stdin.lines[1..]| == 1;
  }

  // ----- `while read` -----

  /** `text` is this `read` wherever it runs. */
  ghost predicate IsRead(L: Lang, text: string, args: seq<string>) {
    && (forall st: Store :: L.expand(text, st) == Words("read", args, None))
    && (forall st: Store, stdin: Option<Input> :: L.external("read", args, st, stdin) == ReadEffect(args, st, stdin))
  }

  /** The state after a read from the lines of a loop. */
  function AfterRead(s: State, args: seq<string>): (State, int) {
    var (env, input, code) := ReadInput(args, s.store.env, s.store.loopInput);
    (s.(store := s.store.(env := env, loopInput := input, lastCode := code)), code)
  }

  type Reading = State -> (State, int)

  function Reads(args: seq<string>): Reading {
    (s: State) => AfterRead(s, args)
  }

  /** A line is read and the body runs: the state, the status, and whether the body ends the loop. */
  function BodyRun(L: Lang, exec: bool, s: State, read: Reading, body: seq<Item>): (State, int, bool) {
    var (t, code) := RunItems(L, exec, read(s).0, body, 0, 0);
    var (u, done) := AfterBody(t);
    (u, code, done)
  }

  /** The same once for each of `n` lines, from status `last`, unless the body ends the loop before. */
  function EachLine(L: Lang, exec: bool, s: State, read: Reading, body: seq<Item>, n: nat,
      last: int): (State, int, bool)
    decreases n
  {
    if n == 0 then (s, last, false)
    else
      var (t, code, done) := BodyRun(L, exec, s, read, body);
      if done then (t, code, true) else EachLine(L, exec, t, read, body, n - 1, code)
  }

  /** None of these runs of the body reads lines of the loop itself or redefines `read`. */
  predicate LeavesLines(L: Lang, exec: bool, s: State, read: Reading, body: seq<Item>, n: nat)
    decreases n
  {
    n > 0 ==>
      var (t, _, done) := BodyRun(L, exec, s, read, body);
      || done
      || (&& t.store.loopInput == read(s).0.store.loopInput && "read" !in t.store.funcs
          && LeavesLines(L, exec, t, read, body, n - 1))
  }

  /** Ready for the condition. */
  predicate AtRead(s: State) {
    Clean(s) && "read" !in s.store.funcs && s.store.loopInput.Some?
  }

  /** How many reads succeed. */
  function WholeLines(input: Input): nat {
    if input.partial && input.lines != [] then |input.lines| - 1 else |input.lines|
  }

  function Ahead(s: State): nat
    requires s.store.loopInput.Some?
  {
    WholeLines(s.store.loopInput.value)
  }

  /** The k-th run of the body follows the read of line k. */
  lemma {:induction false} EachLineTakes(L: Lang, exec: bool, s: State, args: seq<string>, body: seq<Item>, n: nat,
      last: int)
    requires AtRead(s) && n <= |s.store.loopInput.value.lines| && LeavesLines(L, exec, s, Reads(args), body, n)
    ensures var input, (t, _, done) := s.store.loopInput.value, EachLine(L, exec, s, Reads(args), body, n, last);
            !done ==> AtRead(t) && t.store.loopInput == Some(input.(lines := input.lines[n..]))
    decreases n
  {
    var lines := s.store.loopInput.value.lines;
    if n > 0 {
      var (t, code, done) := BodyRun(L, exec, s, Reads(args), body);
      if !done {
        EachLineTakes(L, exec, t, args, body, n - 1, code);
        assert lines[1..][n - 1..] == lines[n..];
      }
    } else {
      assert lines[0..] == lines;
    }
  }

  lemma {:induction false} ConditionReads(L: Lang, exec: bool, s: State, text: string, args: seq<string>)
    requires IsRead(L, text, args) && AtRead(s)
    ensures RunCondition(L, exec, s, [Item(First, Simple(text), "")]) == AfterRead(s, args)
  {
    var it := Item(First, Simple(text), "");
    var s0 := s.(errexitOff := s.errexitOff + 1);
    var (s1, code) := AfterRead(s0, args);
    assert RunSimple(L, exec, s0, it) == (s1.(store := s1.store.(lastCode := s.store.lastCode)), Some(code));
    assert RunItem(L, exec, s0, it, false, 0) == (s1, code);
    assert RunItems(L, exec, s0, [it], 0, 0) == RunItems(L, exec, s1, [it], 1, code);
  }

  /** `while read args; do body; done` */
  ghost predicate WhileRead(L: Lang, node: Node, text: string, args: seq<string>) {
    IsRead(L, text, args) && node.Loop? && !node.until && node.cond == [Item(First, Simple(text), "")]
  }

  /** What one turn of such a loop comes to. */
  function LineTurn(L: Lang, exec: bool, s: State, node: Node, read: Reading, last: int): (State, int, bool)
    requires node.Loop? && s.store.loopInput.Some?
  {
    if Ahead(s) == 0 then (read(s).0, last, true) else BodyRun(L, exec, s, read, node.lbody)
  }

  /** One turn: the next line is read, and the body runs with its fields. */
  lemma {:induction false} TurnReads(L: Lang, exec: bool, s: State, node: Node, text: string, args: seq<string>,
      last: int)
    requires WhileRead(L, node, text, args) && AtRead(s)
    ensures LoopOnce(L, exec, s, node, last) == LineTurn(L, exec, s, node, Reads(args), last)
  {
    ConditionReads(L, exec, s, text, args);
  }

  /** A read takes a line if a whole one is ahead. */
  ghost predicate TakesLine(read: Reading) {
    forall s: State :: AtRead(s) && Ahead(s) > 0 ==>
      var input := read(s).0.store.loopInput; input.Some? && WholeLines(input.value) + 1 == Ahead(s)
  }

  ghost predicate LineByLine(L: Lang, exec: bool, node: Node, read: Reading)
    requires node.Loop?
  {
    && TakesLine(read)
    && forall s: State, last: int :: AtRead(s) ==>
         LoopOnce(L, exec, s, node, last) == LineTurn(L, exec, s, node, read, last)
  }

  lemma {:induction false} ReadsLineByLine(L: Lang, exec: bool, node: Node, text: string, args: seq<string>)
    requires WhileRead(L, node, text, args)
    ensures LineByLine(L, exec, node, Reads(args))
  {
    forall s: State, last: int | AtRead(s)
      ensures LoopOnce(L, exec, s, node, last) == LineTurn(L, exec, s, node, Reads(args), last)
    {
      TurnReads(L, exec, s, node, text, args, last);
    }
  }

  /** Where the loop is after the runs of the body: a last read fails unless the cap or the body ended it. */
  function Ended(r: (State, int, bool), read: Reading, capped: bool): (State, int) {
    (if r.2 || capped then r.0 else read(r.0).0, r.1)
  }

  lemma {:induction false} NextTurn(L: Lang, exec: bool, s: State, node: Node, read: Reading, left: nat, last: int,
      n: nat)
    requires node.Loop? && LineByLine(L, exec, node, read) && AtRead(s) && Ahead(s) > 0 && left > 0 && n > 0
    ensures var (t, c, done) := BodyRun(L, exec, s, read, node.lbody);
            && RunLoop(L, exec, s, node, left, last) ==
              (if done then (t, c) else RunLoop(L, exec, t, node, left - 1, c))
            && EachLine(L, exec, s, read, node.lbody, n, last) ==
               if done then (t, c, true) else EachLine(L, exec, t, read, node.lbody, n - 1, c)
  {
  }

  lemma {:induction false} LastTurn(L: Lang, exec: bool, s: State, node: Node, read: Reading, left: nat, last: int)
    requires node.Loop? && LineByLine(L, exec, node, read) && AtRead(s) && (Ahead(s) == 0 || left == 0)
    ensures RunLoop(L, exec, s, node, left, last) == Ended((s, last, false), read, left == 0)
  {
  }

  lemma {:induction false} TurnsRead(L: Lang, exec: bool, s: State, node: Node, read: Reading, left: nat, last: int,
      n: nat)
    requires node.Loop? && LineByLine(L, exec, node, read) && AtRead(s)
    requires n == (if Ahead(s) < left then Ahead(s) else left) && LeavesLines(L, exec, s, read, node.lbody, n)
    ensures RunLoop(L, exec, s, node, left, last) ==
      Ended(EachLine(L, exec, s, read, node.lbody, n, last), read, n == left)
    decreases left
  {
    if n == 0 {
      LastTurn(L, exec, s, node, read, left, last);
    } else {
      var (t, c, done) := BodyRun(L, exec, s, read, node.lbody);
      NextTurn(L, exec, s, node, read, left, last, n);
      if !done {
        TurnsRead(L, exec, t, node, read, left - 1, c, n - 1);
      }
    }
  }

  /**
   `while read names; do body; done < file`: the body runs once for every
   whole line of the file, in order and up to the cap, with the fields of that
   line in the variables, unless it breaks, returns or exits before; if it does
   not, a last read fails. The enclosing loop's lines are back at the end. The
   body may do anything but read the loop's lines or redefine `read`.
   */
  lemma {:induction false} WhileReadVisitsEachLine(
    L: Lang, exec: bool, s: State, node: Node, text: string, args: seq<string>, file: Input, n: nat)
    requires WhileRead(L, node, text, args) && Clean(s) && "read" !in s.store.funcs
    requires n == if WholeLines(file) < MAX_LOOP_ITERATIONS then WholeLines(file) else MAX_LOOP_ITERATIONS
    requires LeavesLines(L, exec, SetLoop(s, Some(file), s.loopDepth + 1), Reads(args), node.lbody, n)
    ensures var runs := EachLine(L, exec, SetLoop(s, Some(file), s.loopDepth + 1), Reads(args), node.lbody, n, 0);
            var (t, code) := Ended(runs, Reads(args), n == MAX_LOOP_ITERATIONS);
            RunFrom(L, exec, s, node, Some(file)) == (SetLoop(t, s.store.loopInput, s.loopDepth), code)
  {
    ReadsLineByLine(L, exec, node, text, args);
    TurnsRead(L, exec, SetLoop(s, Some(file), s.loopDepth + 1), node, Reads(args), MAX_LOOP_ITERATIONS, 0, n);
  }

  // ----- bodies that leave the lines alone -----

  /** What `ok` says of a state lasts from one condition to the next, and the body leaves the lines alone. */
  ghost predicate Lasts(L: Lang, exec: bool, ok: State -> bool, read: Reading, body: seq<Item>) {
    forall s: State :: AtRead(s) && ok(s) ==>
      var (t, _, done) := BodyRun(L, exec, s, read, body);
      done || (ok(t) && t.store.loopInput == read(s).0.store.loopInput && "read" !in t.store.funcs)
  }

  lemma {:induction false} LastingLeavesLines(
    L: Lang, exec: bool, ok: State -> bool, s: State, args: seq<string>, body: seq<Item>, n: nat)
    requires Lasts(L, exec, ok, Reads(args), body) && AtRead(s) && ok(s)
    ensures LeavesLines(L, exec, s, Reads(args), body, n)
    decreases n
  {
    if n > 0 {
      var (t, _, done) := BodyRun(L, exec, s, Reads(args), body);
      if !done {
        LastingLeavesLines(L, exec, ok, t, args, body, n - 1);
      }
    }
  }

  /** One command that is not a builtin of the control flow, such as `echo $x`. */
  ghost predicate Command(L: Lang, text: string, name: string) {
    && name !in {"break", "continue", "exit", "return", "local", "shift", "set", "unset", "exec", "read"}
    && (forall st: Store :: var w := L.expand(text, st); w.Words? && w.name == name)
    && (forall args: seq<string>, st: Store, stdin: Option<Input> ::
          L.external(name, args, st, stdin).loopInput == st.loopInput)
  }

  /** A body of one such command leaves the lines alone wherever the command is not a function. */
  lemma {:induction false} CommandLeavesLines(
    L: Lang, exec: bool, s: State, args: seq<string>, text: string, name: string, n: nat)
    requires Command(L, text, name) && AtRead(s) && name !in s.store.funcs
    ensures LeavesLines(L, exec, s, Reads(args), [Item(First, Simple(text), "")], n)
  {
    var body := [Item(First, Simple(text), "")];
    var ok := (s: State) => name !in s.store.funcs;
    forall s: State | AtRead(s) && ok(s)
      ensures var (t, _, done) := BodyRun(L, exec, s, Reads(args), body);
        done || (ok(t) && t.store.loopInput == Reads(args)(s).0.store.loopInput && "read" !in t.store.funcs)
    {
      CommandRuns(L, exec, AfterRead(s, args).0, text, name);
    }
    LastingLeavesLines(L, exec, ok, s, args, body, n);
  }

  lemma {:induction false} CommandRuns(L: Lang, exec: bool, s: State, text: string, name: string)
    requires Command(L, text, name) && AtRead(s) && name !in s.store.funcs
    ensures var t := RunItems(L, exec, s, [Item(First, Simple(text), "")], 0, 0).0;
            t.store.funcs == s.store.funcs && t.store.loopInput == s.store.loopInput && t.flags.ctl == NoCtl
  {
    var it := Item(First, Simple(text), "");
    var w := L.expand(text, s.store);
    var (s1, code) := RunExternal(L, s, name, w.args, w.redirect);
    assert RunBuiltin(L, exec, s, name, w.args, w.redirect) == (s1, code);
    assert RunCommand(L, exec, s, name, w.args, w.redirect) == (s1, code);
    assert RunSimple(L, exec, s, it) == (s1, Some(code));
    var s2 := Finish(s1, Chained([it], 0), code);
    assert RunItem(L, exec, s, it, Chained([it], 0), 0) == (s2, code);
    assert RunItems(L, exec, s, [it], 0, 0) == RunItems(L, exec, s2, [it], 1, code);
    assert RunItems(L, exec, s2, [it], 1, code) == (s2, code);
  }
}

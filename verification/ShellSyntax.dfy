// The syntax tree of the fake shell and the state its interpreter threads
// through a run (internal/shell/syntax.go, internal/shell/shell.go).

module ShellSyntax {
  import opened Wrappers

  /** The operator that links an item to the one before it; `First` is the empty separator. */
  datatype Sep = First | Semi | And | Or

  /** One item of a list. `tail` is the rest of the pipeline ("| cmd") that follows a compound command. */
  datatype Item = Item(sep: Sep, node: Node, tail: string)

  datatype Branch = Branch(cond: seq<Item>, body: seq<Item>)
  datatype Arm = Arm(patterns: seq<string>, body: seq<Item>)

  datatype Node =
    | Simple(text: string)
    | If(branches: seq<Branch>, elseBody: seq<Item>)
    | Group(feed: string, gbody: seq<Item>)
    | Case(word: string, arms: seq<Arm>)
    | For(name: string, words: seq<string>, fbody: seq<Item>)
    | Loop(until: bool, cond: seq<Item>, lbody: seq<Item>, input: string, lfeed: string)
    | Subshell(sbody: seq<Item>)
    | Func(fname: string, body: seq<Item>)

  /** Lines still to be read; `partial` says that the last one had no newline. */
  datatype Input = Input(lines: seq<string>, partial: bool)

  /** A function call in progress: its parameters and what its `local` variables held before. */
  datatype Frame = Frame(args: seq<string>, locals: map<string, Option<string>>)

  /** Everything a program can observe or change, apart from control flow. */
  datatype Store = Store(
    cwd: string,
    env: map<string, string>,
    lastCode: int,
    errexit: bool,
    frames: seq<Frame>,
    funcs: map<string, seq<Item>>,
    loopInput: Option<Input>,
    pipeStdin: Option<Input>)

  /** What an external command leaves behind. */
  datatype Effect = Effect(
    cwd: string,
    env: map<string, string>,
    loopInput: Option<Input>,
    stdin: Option<Input>,
    status: int)

  /** What the text of one simple statement expands to. */
  datatype Stmt =
    | Blank
    | Plain(effect: Effect)
    | Words(name: string, args: seq<string>, redirect: Option<Input>)

  /**
   The parts of the shell that are not control flow: word expansion, the builtins and binaries,
   globbing, files and the producers and consumers of pipelines.
   */
  datatype Lang = Lang(
    expand: (string, Store) -> Stmt,
    external: (string, seq<string>, Store, Option<Input>) -> Effect,
    values: (string, Store) -> seq<string>,
    word: (string, Store) -> string,
    matches: (string, string) -> bool,
    open: (string, Store) -> Option<Input>,
    feed: (string, Store) -> (Effect, Input),
    pipe: (string, Store) -> Effect)

  const MAX_FUNCTION_DEPTH := 100
  const MAX_LOOP_ITERATIONS := 1000
  const EXIT_REQUESTED := 257

  /** The tail of a compound command is a pipeline when it starts with `|`. */
  predicate IsPipe(tail: string) {
    |tail| > 0 && tail[0] == '|'
  }

  /** Installs the effect of a command that ran with the shell's own stdin. */
  function Apply(st: Store, e: Effect): Store {
    st.(cwd := e.cwd, env := e.env, loopInput := e.loopInput,
        pipeStdin := if st.pipeStdin.None? then None else e.stdin)
  }

  /** Installs the effect of a command whose stdin was redirected from a file. */
  function ApplyRedirected(st: Store, e: Effect): Store {
    st.(cwd := e.cwd, env := e.env, loopInput := e.loopInput)
  }

  function External(L: Lang, st: Store, name: string, args: seq<string>, redirect: Option<Input>): (Store, int) {
    if redirect.Some? then
      var e := L.external(name, args, st, redirect);
      (ApplyRedirected(st, e), e.status)
    else
      var e := L.external(name, args, st, st.pipeStdin);
      (Apply(st, e), e.status)
  }

  /** The rest of a pipeline after a compound command, reading what the command printed. */
  function Pipe(L: Lang, st: Store, tail: string): (Store, int) {
    var e := L.pipe(tail, st);
    (ApplyRedirected(st, e), e.status)
  }

  /** The producer of a pipeline whose last stage is a loop or group. */
  function Feed(L: Lang, st: Store, feed: string): (Store, Input) {
    var (e, input) := L.feed(feed, st);
    (ApplyRedirected(st, e), input)
  }

  function ForValues(L: Lang, st: Store, words: seq<string>): seq<string> {
    if words == [] then [] else L.values(words[0], st) + ForValues(L, st, words[1..])
  }

  predicate ArmMatches(L: Lang, st: Store, patterns: seq<string>, word: string) {
    exists k :: 0 <= k < |patterns| && L.matches(L.word(patterns[k], st), word)
  }

  // ----- function calls -----

  function Push(st: Store, args: seq<string>, redirect: Option<Input>): Store {
    st.(frames := st.frames + [Frame(args, map[])],
        pipeStdin := if redirect.Some? then redirect else st.pipeStdin)
  }

  function Pop(st: Store, redirect: Option<Input>, savedStdin: Option<Input>): Store
    requires |st.frames| > 0
  {
    var top := |st.frames| - 1;
    st.(env := RestoreLocals(st.env, st.frames[top].locals),
        frames := st.frames[..top],
        pipeStdin := if redirect.Some? then savedStdin else st.pipeStdin)
  }

  // ----- the small builtins that only touch the store -----

  /** The status `return` asks for: 2 when its argument is not a number. */
  function ReturnCode(st: Store, args: seq<string>): int {
    if |args| == 0 then st.lastCode
    else
      var n := Atoi(args[0]);
      if n.None? then 2 else n.value % 256
  }

  function ExitCode(st: Store, args: seq<string>): int {
    var n := if |args| == 0 then Some(st.lastCode) else Atoi(args[0]);
    if n.None? then 2 else n.value % 256
  }

  /** `shift [n]`: the parameters of the running function lose their first n. */
  function Shift(st: Store, args: seq<string>): (Store, int) {
    var n := if |args| == 0 then Some(1) else Atoi(args[0]);
    var top := |st.frames| - 1;
    if n.None? || n.value < 0 || top < 0 || n.value > |st.frames[top].args| then (st, 1)
    else (st.(frames := st.frames[top := st.frames[top].(args := st.frames[top].args[n.value..])]), 0)
  }

  /** `unset`: variables, or functions after -f. */
  function Unset(st: Store, args: seq<string>, functions: bool): Store
    decreases |args|
  {
    if args == [] then st
    else if args[0] == "-f" then Unset(st, args[1..], true)
    else if args[0] == "-v" then Unset(st, args[1..], false)
    else if |args[0]| > 0 && args[0][0] == '-' then Unset(st, args[1..], functions)
    else if functions then Unset(st.(funcs := st.funcs - {args[0]}), args[1..], functions)
    else Unset(st.(env := st.env - {args[0]}), args[1..], functions)
  }

  function IsDigits(s: string): bool {
    |s| > 0 && forall i :: 0 <= i < |s| ==> '0' <= s[i] <= '9'
  }

  function DigitsValue(s: string): nat
    requires forall i :: 0 <= i < |s| ==> '0' <= s[i] <= '9'
  {
    if s == "" then 0 else 10 * DigitsValue(s[..|s| - 1]) + (s[|s| - 1] as int - '0' as int)
  }

  /** strconv.Atoi on a 64-bit machine. */
  function Atoi(s: string): Option<int> {
    var body := if |s| > 0 && (s[0] == '-' || s[0] == '+') then s[1..] else s;
    if !IsDigits(body) then None
    else
      var v: int := DigitsValue(body);
      var n := if s[0] == '-' then -v else v;
      if -0x8000_0000_0000_0000 <= n < 0x8000_0000_0000_0000 then Some(n) else None
  }

  function IndexOf(s: string, c: char): (i: nat)
    ensures i <= |s|
    ensures i < |s| ==> s[i] == c
    ensures forall j :: 0 <= j < i ==> s[j] != c
  {
    if s == "" then 0 else if s[0] == c then 0 else 1 + IndexOf(s[1..], c)
  }

  /** One argument of `local`: shadow the variable, remembering what it held. */
  function DeclareLocal(st: Store, arg: string): (r: Store)
    requires |st.frames| > 0
    ensures r == st.(env := r.env, frames := r.frames)
    ensures |r.frames| == |st.frames|
    ensures r.frames[..|st.frames| - 1] == st.frames[..|st.frames| - 1]
    ensures r.frames[|st.frames| - 1].args == st.frames[|st.frames| - 1].args
  {
    if |arg| > 0 && arg[0] == '-' then st
    else
      var eq := IndexOf(arg, '=');
      var name := arg[..eq];
      var top := |st.frames| - 1;
      var f := st.frames[top];
      var saved := if name in st.env then Some(st.env[name]) else None;
      var f' := if name in f.locals then f else f.(locals := f.locals[name := saved]);
      var env' := if eq < |arg| then st.env[name := arg[eq + 1..]] else st.env - {name};
      st.(env := env', frames := st.frames[top := f'])
  }

  function DeclareLocals(st: Store, args: seq<string>): (r: Store)
    requires |st.frames| > 0
    ensures r == st.(env := r.env, frames := r.frames)
    ensures |r.frames| == |st.frames|
    ensures r.frames[..|st.frames| - 1] == st.frames[..|st.frames| - 1]
    ensures r.frames[|st.frames| - 1].args == st.frames[|st.frames| - 1].args
    decreases |args|
  {
    if args == [] then st else DeclareLocals(DeclareLocal(st, args[0]), args[1..])
  }

  /** Gives back what the `local` variables of a frame held before the call. */
  function RestoreLocals(env: map<string, string>, locals: map<string, Option<string>>): (r: map<string, string>)
    ensures forall x :: x in locals && locals[x].Some? ==> x in r && r[x] == locals[x].value
    ensures forall x :: x in locals && locals[x].None? ==> x !in r
    ensures forall x :: x !in locals ==> (x in r <==> x in env) && (x in env ==> r[x] == env[x])
  {
    map x | x in env.Keys + locals.Keys && (x in locals ==> locals[x].Some?) ::
      if x in locals then locals[x].value else env[x]
  }

  const VALID_SET_LETTERS := "abefhkmnptuvxBCEHPT"

  /** The letters of one option word of `set`, from position k; i is the index of the word in args. */
  function SetLetters(args: seq<string>, i: nat, w: string, k: nat, errexit: bool): (r: (bool, nat, bool))
    requires i < |args|
    ensures i <= r.1 < |args|
    decreases |w| - k
  {
    if k >= |w| then (errexit, i, true)
    else if w[k] == 'e' then SetLetters(args, i, w, k + 1, w[0] == '-')
    else if w[k] == 'o' then
      if i + 1 < |args| then
        SetLetters(args, i + 1, w, k + 1, if args[i + 1] == "errexit" then w[0] == '-' else errexit)
      else SetLetters(args, i, w, k + 1, errexit)
    else if w[k] in VALID_SET_LETTERS then SetLetters(args, i, w, k + 1, errexit)
    else (errexit, i, false)
  }

  /** `set`: the new -e option and the status. */
  function SetOptions(args: seq<string>, i: nat, errexit: bool): (bool, int)
    requires i <= |args|
    decreases |args| - i
  {
    if i == |args| then (errexit, 0)
    else
      var w := args[i];
      if |w| < 2 || (w[0] != '-' && w[0] != '+') || w == "--" then (errexit, 0)
      else
        var (e, j, valid) := SetLetters(args, i, w, 1, errexit);
        if valid then SetOptions(args, j + 1, e) else (e, 2)
  }
}

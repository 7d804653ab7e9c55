// Laws of the builtins that only touch the shell's own state, in terms of what
// a script can see: statuses, parameters, variables, functions and options.

module ShellLaws {
  import opened Wrappers
  import opened Decimals
  import opened ShellSyntax
  import opened ShellMachine
  import opened ShellOutcomes

  // ----- statuses -----

  lemma {:induction false} DigitsOfDec(n: nat)
    ensures DigitsValue(Dec(n)) == n
  {
    var s := Dec(n);
    if n >= 10 {
      DigitsOfDec(n / 10);
      assert s[..|s| - 1] == Dec(n / 10);
    } else {
      assert s[..|s| - 1] == "";
    }
  }

  /** A number that is printed is read back, if 64 bits hold it. */
  lemma {:induction false} AtoiReads(n: int)
    ensures Atoi(Decimal(n)) == if -0x8000_0000_0000_0000 <= n < 0x8000_0000_0000_0000 then Some(n) else None
  {
    var s := Decimal(n);
    if n < 0 {
      DigitsOfDec(-n);
      assert s[1..] == Dec(-n);
    } else {
      DigitsOfDec(n);
      assert s[0] != '-' && s[0] != '+';
    }
  }

  /** The status a number stands for: its low eight bits, and 2 when 64 bits do not hold it. */
  ghost predicate IsStatus(n: int, code: int) {
    if -0x8000_0000_0000_0000 <= n < 0x8000_0000_0000_0000 then 0 <= code < 256 && exists k :: n == 256 * k + code
    else code == 2
  }

  /** `exit n` in `bash -c` ends the shell, in a login shell it asks for that; `return n` needs a function. */
  lemma {:induction false} ExitAndReturn(L: Lang, x: Context, st: Store, n: int, redirect: Option<Input>)
    ensures var (o, st1) := EvalBuiltin(L, x, st, "exit", [Decimal(n)], redirect);
            && st1 == st
            && if x.exec then o.Exit? && o.exitCode == o.report == o.asked && IsStatus(n, o.exitCode)
               else o == Normal(257)
    ensures var (o, st1) := EvalBuiltin(L, x, st, "return", [Decimal(n)], redirect);
            st1 == st && if st.frames == [] then o == Normal(1) else o.Return? && IsStatus(n, o.code)
  {
    AtoiReads(n);
    assert n == 256 * (n / 256) + n % 256;
  }

  /** Without a number it is `$?`: the low eight bits of it for `exit`, all of it for `return`. */
  lemma {:induction false} ExitAndReturnLast(L: Lang, x: Context, st: Store, redirect: Option<Input>)
    ensures x.exec ==>
              var o := EvalBuiltin(L, x, st, "exit", [], redirect).0;
              o.Exit? && 0 <= o.exitCode < 256 && (st.lastCode - o.exitCode) % 256 == 0
    ensures st.frames != [] ==> EvalBuiltin(L, x, st, "return", [], redirect) == (Return(st.lastCode), st)
  {
  }

  // ----- parameters -----

  /** `shift n`: the first n parameters of the running function go, when it has that many; else nothing happens. */
  lemma {:induction false} ShiftDropsFirst(st: Store, n: int)
    ensures var (st1, code) := Shift(st, [Decimal(n)]);
            if st.frames != [] && 0 <= n <= |st.frames[|st.frames| - 1].args|
               && n < 0x8000_0000_0000_0000
            then
              var f, f1 := st.frames[|st.frames| - 1], st1.frames[|st.frames| - 1];
              && code == 0 && st1 == st.(frames := st.frames[..|st.frames| - 1] + [f1])
              && f1.locals == f.locals && |f.args| == n + |f1.args|
              && forall k :: 0 <= k < |f1.args| ==> f1.args[k] == f.args[n + k]
            else code == 1 && st1 == st
  {
    AtoiReads(n);
  }

  lemma {:induction false} ShiftDropsOne(st: Store)
    ensures Shift(st, []) == Shift(st, [Decimal(1)])
  {
    AtoiReads(1);
  }

  // ----- variables and functions -----

  predicate IsOption(w: string) {
    w != "" && w[0] == '-'
  }

  /** The last `-f` or `-v` among the first k words is `-f`. */
  predicate AfterF(args: seq<string>, k: nat)
    requires k <= |args|
  {
    exists j :: 0 <= j < k && args[j] == "-f" && forall i :: j < i < k ==> args[i] != "-v"
  }

  predicate NamesFrom(args: seq<string>, i: nat, name: string, functions: bool) {
    exists k :: i <= k < |args| && args[k] == name && !IsOption(name) && AfterF(args, k) == functions
  }

  /** `unset` removes exactly the variables named, and after `-f` the functions. */
  lemma {:induction false} UnsetRemoves(st: Store, args: seq<string>, name: string)
    ensures var r := Unset(st, args, false);
            && r == st.(env := r.env, funcs := r.funcs)
            && (name in r.env <==> name in st.env && !NamesFrom(args, 0, name, false))
            && (name in r.funcs <==> name in st.funcs && !NamesFrom(args, 0, name, true))
            && (name in r.env ==> r.env[name] == st.env[name])
            && (name in r.funcs ==> r.funcs[name] == st.funcs[name])
  {
    UnsetFrom(st, args, 0, false, name);
    assert args[0..] == args;
  }

  lemma {:induction false} UnsetFrom(st: Store, args: seq<string>, i: nat, functions: bool, name: string)
    requires i <= |args| && functions == AfterF(args, i)
    ensures var r := Unset(st, args[i..], functions);
            && r == st.(env := r.env, funcs := r.funcs)
            && (name in r.env <==> name in st.env && !NamesFrom(args, i, name, false))
            && (name in r.funcs <==> name in st.funcs && !NamesFrom(args, i, name, true))
            && (name in r.env ==> r.env[name] == st.env[name])
            && (name in r.funcs ==> r.funcs[name] == st.funcs[name])
    decreases |args| - i
  {
    if i < |args| {
      var w := args[i];
      var fn := w == "-f" || (functions && w != "-v");
      assert args[i..][1..] == args[i + 1..];
      AfterWord(args, i);
      FromWord(args, i, name, false);
      FromWord(args, i, name, true);
      var st1 := if IsOption(w) then st
                 else if functions then st.(funcs := st.funcs - {w}) else st.(env := st.env - {w});
      UnsetFrom(st1, args, i + 1, fn, name);
    }
  }

  lemma {:induction false} AfterWord(args: seq<string>, i: nat)
    requires i < |args|
    ensures AfterF(args, i + 1) == (args[i] == "-f" || (AfterF(args, i) && args[i] != "-v"))
  {
    if args[i] == "-f" {
      assert 0 <= i < i + 1 && args[i] == "-f";
    } else if AfterF(args, i) && args[i] != "-v" {
      var j :| 0 <= j < i && args[j] == "-f" && forall m :: j < m < i ==> args[m] != "-v";
      assert forall m :: j < m < i + 1 ==> args[m] != "-v";
    }
  }

  lemma {:induction false} FromWord(args: seq<string>, i: nat, name: string, functions: bool)
    requires i < |args|
    ensures NamesFrom(args, i, name, functions) ==
            (NamesFrom(args, i + 1, name, functions) ||
             (args[i] == name && !IsOption(name) && AfterF(args, i) == functions))
  {
  }

  /** One argument of `local` that declares the variable, with a value or without. */
  predicate Declares(arg: string, name: string) {
    && !IsOption(arg) && '=' !in name
    && (arg == name || (|name| < |arg| && arg[..|name|] == name && arg[|name|] == '='))
  }

  lemma {:induction false} DeclaresName(arg: string, name: string)
    ensures Declares(arg, name) <==> !IsOption(arg) && arg[..IndexOf(arg, '=')] == name
  {
    var eq := IndexOf(arg, '=');
    if Declares(arg, name) {
      assert forall k :: 0 <= k < |name| ==> name[k] in name && arg[k] == name[k];
      assert eq >= |name|;
    } else if arg[..eq] == name {
      assert forall k :: 0 <= k < |name| ==> name[k] == arg[k] != '=';
    }
  }

  predicate IsLocal(args: seq<string>, name: string) {
    exists k :: 0 <= k < |args| && Declares(args[k], name)
  }

  /** Word k is the last that declares the variable. */
  predicate LastLocal(args: seq<string>, name: string, k: nat) {
    k < |args| && Declares(args[k], name) && forall m :: k < m < |args| ==> !Declares(args[m], name)
  }

  /** The text after `=`, or none. */
  function Assigned(arg: string, name: string): Option<string>
    requires Declares(arg, name)
  {
    if arg == name then None else Some(arg[|name| + 1..])
  }

  /** What `local` gives the variable: the value in the last argument that declares it. */
  ghost predicate LocalValue(args: seq<string>, name: string, value: Option<string>) {
    exists k: nat :: LastLocal(args, name, k) && value == Assigned(args[k], name)
  }

  function Lookup(env: map<string, string>, name: string): Option<string> {
    if name in env then Some(env[name]) else None
  }

  /**
   `local` gives its variables new values and leaves the others alone; when
   the function returns, whatever it did meanwhile, they hold what they held
   before the first of the function's declarations of them.
   */
  lemma {:induction false} LocalsComeBack(st: Store, args: seq<string>, env2: map<string, string>, name: string)
    requires st.frames != [] && st.frames[|st.frames| - 1].locals == map[]
    ensures var r := DeclareLocals(st, args);
            var back := RestoreLocals(env2, r.frames[|st.frames| - 1].locals);
            && (if IsLocal(args, name) then LocalValue(args, name, Lookup(r.env, name))
                else Lookup(r.env, name) == Lookup(st.env, name))
            && Lookup(back, name) == Lookup(if IsLocal(args, name) then st.env else env2, name)
  {
    LocalsSaved(st, args, name);
    LocalsAssigned(st, args, name);
  }

  /** What a frame says a variable held before. */
  function Before(st: Store, name: string): Option<string>
    requires st.frames != []
  {
    var f := st.frames[|st.frames| - 1];
    if name in f.locals then f.locals[name] else Lookup(st.env, name)
  }

  predicate Saved(st: Store, name: string)
    requires st.frames != []
  {
    name in st.frames[|st.frames| - 1].locals
  }

  lemma {:induction false} OneSaved(st: Store, arg: string, name: string)
    requires st.frames != []
    ensures var r := DeclareLocal(st, arg);
            && (Saved(r, name) <==> Saved(st, name) || Declares(arg, name))
            && Before(r, name) == Before(st, name)
            && Lookup(r.env, name) == if Declares(arg, name) then Assigned(arg, name) else Lookup(st.env, name)
  {
    DeclaresName(arg, name);
  }

  lemma {:induction false} FirstIsLocal(args: seq<string>, name: string)
    requires args != []
    ensures IsLocal(args, name) == (Declares(args[0], name) || IsLocal(args[1..], name))
  {
    if IsLocal(args[1..], name) {
      var k :| 0 <= k < |args[1..]| && Declares(args[1..][k], name);
      assert args[k + 1] == args[1..][k];
    }
    assert forall k :: 0 < k < |args| ==> args[k] == args[1..][k - 1];
  }

  lemma {:induction false} LocalsSaved(st: Store, args: seq<string>, name: string)
    requires st.frames != []
    ensures var r := DeclareLocals(st, args);
            (Saved(r, name) <==> Saved(st, name) || IsLocal(args, name)) && Before(r, name) == Before(st, name)
    decreases |args|
  {
    if args != [] {
      OneSaved(st, args[0], name);
      FirstIsLocal(args, name);
      LocalsSaved(DeclareLocal(st, args[0]), args[1..], name);
    }
  }

  lemma {:induction false} LocalsAssigned(st: Store, args: seq<string>, name: string)
    requires st.frames != []
    ensures var r := DeclareLocals(st, args);
            if IsLocal(args, name) then LocalValue(args, name, Lookup(r.env, name))
            else Lookup(r.env, name) == Lookup(st.env, name)
    decreases |args|
  {
    if args != [] {
      OneSaved(st, args[0], name);
      FirstIsLocal(args, name);
      LocalsAssigned(DeclareLocal(st, args[0]), args[1..], name);
      if IsLocal(args, name) {
        LastOfRest(args, name, Lookup(DeclareLocals(st, args).env, name));
      }
    }
  }

  lemma {:induction false} LastOfRest(args: seq<string>, name: string, value: Option<string>)
    requires args != []
    requires if IsLocal(args[1..], name) then LocalValue(args[1..], name, value)
             else Declares(args[0], name) && value == Assigned(args[0], name)
    ensures LocalValue(args, name, value)
  {
    assert forall k :: 0 < k < |args| ==> args[k] == args[1..][k - 1];
    if IsLocal(args[1..], name) {
      var k: nat :| LastLocal(args[1..], name, k) && value == Assigned(args[1..][k], name);
      assert LastLocal(args, name, k + 1);
    } else {
      assert LastLocal(args, name, 0);
    }
  }

  // ----- options -----

  predicate Flags(w: string) {
    && |w| >= 2 && (w[0] == '-' || w[0] == '+') && w != "--"
    && forall k :: 1 <= k < |w| ==> w[k] in "abefhkmnptuvxBCEHPT"
  }

  /** `e` is among the flags from position k on. */
  predicate HasE(w: string, k: nat) {
    exists j :: k <= j < |w| && w[j] == 'e'
  }

  predicate UnknownFlag(w: string) {
    |w| >= 2 && (w[0] == '-' || w[0] == '+') && w != "--" && w[1] !in "abefhkmnptuvxBCEHPTo"
  }

  /**
   `set`: a word of flags turns errexit on or off when `e` is among them, the
   last such word wins, and `-o errexit` is the same as `-e`; what is no
   option ends the options, and an unknown flag is an error.
   */
  lemma {:induction false} SetReadsOptions(args: seq<string>, i: nat, errexit: bool)
    requires i <= |args|
    ensures i < |args| && Flags(args[i]) ==>
              SetOptions(args, i, errexit) ==
              SetOptions(args, i + 1, if HasE(args[i], 1) then args[i][0] == '-' else errexit)
    ensures i + 1 < |args| && (args[i] == "-o" || args[i] == "+o") && args[i + 1] == "errexit" ==>
              SetOptions(args, i, errexit) == SetOptions(args, i + 2, args[i] == "-o")
    ensures i < |args| && (args[i] == "--" || |args[i]| < 2 || (args[i][0] != '-' && args[i][0] != '+')) ==>
              SetOptions(args, i, errexit) == (errexit, 0)
    ensures i == |args| ==> SetOptions(args, i, errexit) == (errexit, 0)
    ensures i < |args| && UnknownFlag(args[i]) ==> SetOptions(args, i, errexit) == (errexit, 2)
  {
    if i < |args| && Flags(args[i]) {
      FlagLetters(args, i, args[i], 1, errexit);
    }
    if i < |args| && |args[i]| == 2 && args[i][1] == 'o' && i + 1 < |args| {
      assert SetLetters(args, i, args[i], 1, errexit) ==
             SetLetters(args, i + 1, args[i], 2, if args[i + 1] == "errexit" then args[i][0] == '-' else errexit);
    }
  }

  lemma {:induction false} FlagLetters(args: seq<string>, i: nat, w: string, k: nat, errexit: bool)
    requires i < |args| && Flags(w) && 1 <= k <= |w|
    ensures SetLetters(args, i, w, k, errexit) == (if HasE(w, k) then w[0] == '-' else errexit, i, true)
    decreases |w| - k
  {
    if k < |w| {
      assert HasE(w, k) == (w[k] == 'e' || HasE(w, k + 1));
      FlagLetters(args, i, w, k + 1, if w[k] == 'e' then w[0] == '-' else errexit);
    }
  }

  // ----- choosing and iterating -----

  /** `case` runs the first arm that has a matching pattern, and only that one. */
  lemma {:induction false} CaseRunsFirst(L: Lang, x: Context, st: Store, node: Node, word: string, j: nat, k: nat)
    requires node.Case? && j <= k <= |node.arms|
    requires forall m, p :: j <= m < k && 0 <= p < |node.arms[m].patterns| ==>
               !L.matches(L.word(node.arms[m].patterns[p], st), word)
    requires k < |node.arms| ==>
               exists p :: 0 <= p < |node.arms[k].patterns| && L.matches(L.word(node.arms[k].patterns[p], st), word)
    ensures EvalCase(L, x, st, node, word, j) ==
            if k == |node.arms| then (Normal(0), st) else EvalItems(L, x, st, node.arms[k].body, 0, 0)
    decreases k - j
  {
    if j < k {
      CaseRunsFirst(L, x, st, node, word, j + 1, k);
    }
  }

  /** The values of a `for` are those of its words, in order. */
  lemma {:induction false} ForValuesInOrder(L: Lang, st: Store, a: seq<string>, w: string)
    ensures ForValues(L, st, []) == []
    ensures ForValues(L, st, a + [w]) == ForValues(L, st, a) + L.values(w, st)
  {
    if a == [] {
      assert a + [w] == [w] && [w][1..] == [];
    } else {
      ForValuesInOrder(L, st, a[1..], w);
      assert (a + [w])[1..] == a[1..] + [w];
    }
  }

  // ----- commands and calls -----

  /** The standard input of a command with or without a redirection. */
  function Stdin(st: Store, redirect: Option<Input>): Option<Input> {
    if redirect.Some? then redirect else st.pipeStdin
  }

  /**
   A command that is neither a function nor a builtin of control reads the
   redirected input or the shell's own; only what it leaves of the latter
   becomes the shell's input again.
   */
  lemma {:induction false} CommandEffect(L: Lang, st: Store, name: string, args: seq<string>, redirect: Option<Input>)
    ensures var (st1, code) := External(L, st, name, args, redirect);
            var e := L.external(name, args, st, Stdin(st, redirect));
            && code == e.status
            && st1 == Store(e.cwd, e.env, st.lastCode, st.errexit, st.frames, st.funcs, e.loopInput,
                            if redirect.None? && st.pipeStdin.Some? then e.stdin else st.pipeStdin)
  {
  }
}

// What `read` does to each variable, in terms of its words, the line it takes
// and the characters that separate fields.

module ReadLaws {
  import opened Wrappers
  import opened ShellSyntax
  import opened ReadBuiltin
  import FieldSplitting

  // ----- the line -----

  /** Without a backslash in front there is nothing to take away; a backslash goes, and what it stands before stays. */
  lemma {:induction false} BackslashesGo(a: string, c: char, rest: string)
    requires '\\' !in a
    ensures Unescaped(a) == a
    ensures Unescaped(a + (['\\', c] + rest)) == a + [c] + Unescaped(rest)
    ensures Unescaped(a + ['\\']) == a
  {
    var bs: string := ['\\', c];
    assert (bs + rest)[2..] == rest;
    PlainStays(a, bs + rest);
    PlainStays(a, ['\\']);
    PlainStays(a, "");
    assert a + ([c] + Unescaped(rest)) == a + [c] + Unescaped(rest);
    assert a + "" == a;
  }

  lemma {:induction false} PlainStays(a: string, rest: string)
    requires '\\' !in a
    ensures Unescaped(a + rest) == a + Unescaped(rest)
    decreases |a|
  {
    if a == "" {
      assert a + rest == rest && "" + Unescaped(rest) == Unescaped(rest);
    } else {
      assert a[0] in a && forall k :: 0 <= k < |a[1..]| ==> a[1..][k] in a;
      PlainStays(a[1..], rest);
      PlainFirst(a[0], a[1..] + rest);
      assert a + rest == [a[0]] + (a[1..] + rest);
      assert [a[0]] + (a[1..] + Unescaped(rest)) == a + Unescaped(rest);
    }
  }

  lemma {:induction false} PlainFirst(c: char, rest: string)
    requires c != '\\'
    ensures Unescaped([c] + rest) == [c] + Unescaped(rest)
  {
    assert ([c] + rest)[1..] == rest;
  }

  /** `-r` among the words keeps backslashes. */
  predicate KeepsBackslashes(args: seq<string>) {
    exists k :: 0 <= k < |args| && |args[k]| > 0 && args[k][0] == '-' && 'r' in args[k]
  }

  // ----- the names -----

  /** A word that starts with `-` is no name; the others are names, in their order. */
  lemma {:induction false} NamesAre(args: seq<string>, w: string)
    ensures Names([]) == []
    ensures Names(args + [w]) == if |w| > 0 && w[0] == '-' then Names(args) else Names(args) + [w]
  {
    if args == [] {
      assert args + [w] == [w] && [w][1..] == [];
    } else {
      assert (args + [w])[1..] == args[1..] + [w];
      NamesAre(args[1..], w);
    }
  }

  /** Word k is the last that is this name. */
  predicate LastNamed(names: seq<string>, k: nat, name: string) {
    k < |names| && names[k] == name && forall i :: k < i < |names| ==> names[i] != name
  }

  lemma {:induction false} LastValueWins(env: Env, names: seq<string>, values: seq<string>, name: string)
    requires |names| == |values|
    ensures var r := Assigned(env, names, values);
            && (name !in names ==> (name in r <==> name in env) && (name in r ==> r[name] == env[name]))
            && (forall k: nat :: LastNamed(names, k, name) ==> name in r && r[name] == values[k])
    decreases |names|
  {
    if names != [] {
      LastValueWins(env[names[0] := values[0]], names[1..], values[1..], name);
      assert forall k: nat :: LastNamed(names, k, name) && k > 0 ==> LastNamed(names[1..], k - 1, name);
      assert name in names[1..] ==> name in names;
      if LastNamed(names, 0, name) {
        assert forall i :: 0 <= i < |names[1..]| ==> names[1..][i] == names[i + 1];
        assert name !in names[1..];
      }
    }
  }

  lemma {:induction false} ClearedAre(env: Env, names: seq<string>, name: string)
    ensures var r := Cleared(env, names);
            if name in names then name in r && r[name] == ""
            else (name in r <==> name in env) && (name in r ==> r[name] == env[name])
    decreases |names|
  {
    if names != [] {
      ClearedAre(env[names[0] := ""], names[1..], name);
      assert name in names <==> name == names[0] || name in names[1..];
    }
  }

  // ----- the whole of read -----

  predicate Same(a: Env, b: Env, name: string) {
    (name in a <==> name in b) && (name in a ==> a[name] == b[name])
  }

  predicate Is(env: Env, name: string, value: string) {
    name in env && env[name] == value
  }

  /** No line is left: `read` fails, and its variables are empty. */
  lemma {:induction false} ReadFails(args: seq<string>, env: Env, input: Option<Input>, name: string)
    requires input == None || |input.value.lines| == 0
    ensures var (env', input', code) := ReadInput(args, env, input);
            && input' == input && code == 1
            && if name in Names(args) || (Names(args) == [] && name == "REPLY") then Is(env', name, "")
               else Same(env, env', name)
  {
    ClearedAre(env, Names(args), name);
  }

  function FieldSeparators(env: Env): string {
    if "IFS" in env then env["IFS"] else [' ', '\t', '\n']
  }

  /**
   A line is taken from the front. It goes into REPLY whole, or its fields go
   into the variables named; all other variables stay as they are. The status
   is 1 when it was the last one and no newline ended it.
   */
  lemma {:induction false} ReadTakesLine(args: seq<string>, env: Env, input: Input, name: string)
    requires input.lines != []
    ensures var (env', input', code) := ReadInput(args, env, Some(input));
            var line := if KeepsBackslashes(args) then input.lines[0] else Unescaped(input.lines[0]);
            var names := Names(args);
            var fields := FieldSplitting.ReadFields(line, |names|, FieldSeparators(env));
            && input' == Some(Input(input.lines[1..], input.partial))
            && code == (if |input.lines| == 1 && input.partial then 1 else 0)
            && if names == [] then (if name == "REPLY" then Is(env', name, line) else Same(env, env', name))
               else if name !in names then Same(env, env', name)
               else forall k: nat :: LastNamed(names, k, name) ==> Is(env', name, fields[k])
  {
    var names := Names(args);
    var line := if KeepsBackslashes(args) then input.lines[0] else Unescaped(input.lines[0]);
    assert KeepsBackslashes(args) == Raw(args);
    if names != [] {
      LastValueWins(env, names, FieldSplitting.ReadFields(line, |names|, FieldSeparators(env)), name);
    }
  }

  /**
   The command reads the lines of the enclosing loop, if there is one, and
   else its own standard input; what it does not read is left there, except
   that a single blank line does not count.
   */
  lemma {:induction false} ReadSource(args: seq<string>, st: Store, stdin: Option<Input>)
    ensures var e := ReadEffect(args, st, stdin);
            var fromLoop := st.loopInput != None || stdin == None;
            var (env, left, code) := ReadInput(args, st.env, if fromLoop then st.loopInput else stdin);
            && e.cwd == st.cwd && e.env == env && e.status == code
            && if fromLoop then e.loopInput == left && e.stdin == stdin
               else
                 && e.loopInput == st.loopInput && e.stdin != None && left != None
                 && e.stdin.value.partial == left.value.partial
                 && e.stdin.value.lines == if |left.value.lines| == 1 && left.value.lines[0] == "" then []
                                           else left.value.lines
  {
    if st.loopInput == None && stdin != None {
      var left := ReadInput(args, st.env, stdin).1.value;
      assert left.lines == [""] <==> |left.lines| == 1 && left.lines[0] == "";
    }
  }
}

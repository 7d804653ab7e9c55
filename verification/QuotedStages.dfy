// The second scanner on quoted text: the statement printed from a pipeline of
// commands of quoted words has those commands as its stages.

module QuotedStages {
  import opened Wrappers
  import opened ShellText
  import opened Scanners
  import opened QuotingRoundTrip

  predicate AtTop(st: Piper) {
    st.quote == None && st.depth == 0 && st.cs == []
  }

  function Longer(st: Piper, s: string): Piper {
    st.(cur := st.cur + s)
  }

  lemma {:induction false} LongerTwice(st: Piper, a: string, b: string)
    ensures Longer(Longer(st, a), b) == Longer(st, a + b)
  {
    assert st.cur + a + b == st.cur + (a + b);
  }

  /** From `i` in the state `st` the scan comes to `j` in the state `st'`. */
  ghost predicate Comes(t: string, i: nat, st: Piper, j: nat, st': Piper) {
    i <= j <= |t| && PipeFrom(t, i, st) == PipeFrom(t, j, st')
  }

  ghost predicate Reads(t: string, i: nat, st: Piper, s: string) {
    Comes(t, i, st, i + |s|, Longer(st, s))
  }

  lemma {:induction false} ComesStep(t: string, i: nat, st: Piper)
    requires i < |t|
    ensures Comes(t, i, st, i + 1, PipeStep(t, i, st))
  {
    assert PipeFrom(t, i, st) == PipeTurn(t, i, st);
  }

  lemma {:induction false} ReadTwice(t: string, i: nat, st: Piper, a: string, b: string)
    requires Reads(t, i, st, a) && Reads(t, i + |a|, Longer(st, a), b)
    ensures Reads(t, i, st, a + b)
  {
    LongerTwice(st, a, b);
  }

  lemma {:induction false} PipeInside(t: string, i: nat, arg: string, st: Piper)
    requires At(t, i, arg + [QUOTE]) && QUOTE !in arg && st.quote == Some(QUOTE)
    ensures Comes(t, i, st, i + |arg| + 1, Longer(st, arg + [QUOTE]).(quote := None))
    decreases |arg|
  {
    if arg == "" {
      assert arg + [QUOTE] == [QUOTE];
      ComesStep(t, i, st);
    } else {
      var c, rest := arg[0], arg[1..];
      assert arg + [QUOTE] == [c] + (rest + [QUOTE]);
      AtCons(t, i, c, rest + [QUOTE]);
      ComesStep(t, i, st);
      PipeInside(t, i + 1, rest, Longer(st, [c]));
      LongerTwice(st, [c], rest + [QUOTE]);
    }
  }

  lemma {:induction false} PipeWord(t: string, i: nat, arg: string, st: Piper)
    requires At(t, i, Quote(arg)) && Plain(arg) && AtTop(st)
    ensures Reads(t, i, st, Quote(arg))
  {
    var body := arg + [QUOTE];
    AtCons(t, i, QUOTE, body);
    ComesStep(t, i, st);
    assert PipeStep(t, i, st) == Longer(st, [QUOTE]).(quote := Some(QUOTE));
    PipeInside(t, i + 1, arg, Longer(st, [QUOTE]).(quote := Some(QUOTE)));
    LongerTwice(st, [QUOTE], body);
  }

  lemma {:induction false} PipeGap(t: string, i: nat, st: Piper)
    requires i < |t| && t[i] == ' ' && AtTop(st)
    ensures Reads(t, i, st, [' '])
  {
    ComesStep(t, i, st);
  }

  lemma {:induction false} PipeCommand(t: string, i: nat, args: Args, st: Piper)
    requires At(t, i, PrintCommand(args)) && PlainCommand(args) && AtTop(st)
    ensures Reads(t, i, st, PrintCommand(args))
    decreases |args|
  {
    assert args[0] in args;
    var q := Quote(args[0]);
    if |args| == 1 {
      PipeWord(t, i, args[0], st);
    } else {
      var rest := PrintCommand(args[1..]);
      AtSplit(t, i, q, [' '] + rest);
      AtCons(t, i + |q|, ' ', rest);
      PipeWord(t, i, args[0], st);
      var j, st1 := i + |q|, Longer(st, q);
      PipeGap(t, j, st1);
      PipeCommand(t, j + 1, args[1..], Longer(st1, [' ']));
      ReadTwice(t, j, st1, [' '], rest);
      ReadTwice(t, i, st, q, [' '] + rest);
    }
  }

  /** ` | ` ends the stage `s`. */
  lemma {:induction false} PipeBar(t: string, i: nat, st: Piper, s: string)
    requires i + 2 < |t| && t[i] == ' ' && t[i + 1] == '|' && t[i + 2] == ' ' && AtTop(st)
    requires Trim(st.cur + [' ']) == s
    ensures Comes(t, i, st, i + 3, st.(stages := st.stages + [s], cur := [' ']))
  {
    var st1 := Longer(st, [' ']);
    var st2 := st.(stages := st.stages + [s], cur := "");
    PipeGap(t, i, st);
    ComesStep(t, i + 1, st1);
    assert PipeStep(t, i + 1, st1) == st2;
    PipeGap(t, i + 2, st2);
    assert "" + [' '] == [' '];
  }

  lemma {:induction false} BarAfter(t: string, i: nat, c: string, st: Piper)
    requires Reads(t, i, st, c) && Quoted(c) && AtTop(st) && Pad(st.cur)
    requires var j := i + |c|; j + 2 < |t| && t[j] == ' ' && t[j + 1] == '|' && t[j + 2] == ' '
    ensures Comes(t, i, st, i + |c| + 3, st.(stages := st.stages + [c], cur := [' ']))
  {
    PaddedTrims(st.cur, c, [' ']);
    PipeBar(t, i + |c|, Longer(st, c), c);
  }

  function CommandTexts(stages: seq<Args>): seq<string> {
    if stages == [] then [] else [PrintCommand(stages[0])] + CommandTexts(stages[1..])
  }

  ghost predicate StagesFrom(t: string, i: nat, st: Piper, out: seq<string>) {
    && i <= |t|
    && var final := PipeFrom(t, i, st);
       final.stages + [Trim(final.cur)] == out
  }

  lemma {:induction false} StagesFurther(t: string, i: nat, st: Piper, j: nat, st': Piper, out: seq<string>)
    requires Comes(t, i, st, j, st') && StagesFrom(t, j, st', out)
    ensures StagesFrom(t, i, st, out)
  {
  }

  lemma {:induction false} FirstAt(t: string, i: nat, c: string, rest: string)
    requires At(t, i, c + AfterBar(rest))
    ensures var j := i + |c|;
      && j + 2 < |t| && t[j] == ' ' && t[j + 1] == '|' && t[j + 2] == ' '
      && At(t, i, c) && At(t, j + 3, rest)
  {
    AtSplit(t, i, c, AfterBar(rest));
    AtBar(t, i + |c|, rest);
  }

  lemma {:induction false} PipeStages(t: string, i: nat, stages: seq<Args>, st: Piper)
    requires At(t, i, PrintPipeline(stages)) && i + |PrintPipeline(stages)| == |t|
    requires PlainPipeline(stages) && AtTop(st) && Pad(st.cur)
    ensures StagesFrom(t, i, st, st.stages + CommandTexts(stages))
    decreases |stages|, 1
  {
    PlainStages(stages);
    StagesOut(st.stages, stages);
    if |stages| == 1 {
      PipeLast(t, i, stages[0], st);
    } else {
      PipeMore(t, i, stages[0], stages[1..], st);
    }
  }

  lemma {:induction false} PipeMore(t: string, i: nat, first: Args, others: seq<Args>, st: Piper)
    requires var p := PrintCommand(first) + AfterBar(PrintPipeline(others)); At(t, i, p) && i + |p| == |t|
    requires PlainCommand(first) && PlainPipeline(others) && AtTop(st) && Pad(st.cur)
    ensures StagesFrom(t, i, st, st.stages + [PrintCommand(first)] + CommandTexts(others))
    decreases |others|, 2
  {
    var c, rest := PrintCommand(first), PrintPipeline(others);
    var st' := st.(stages := st.stages + [c], cur := [' ']);
    FirstAt(t, i, c, rest);
    PipeFirst(t, i, first, st);
    PipeStages(t, i + |c| + 3, others, st');
    StagesFurther(t, i, st, i + |c| + 3, st', st'.stages + CommandTexts(others));
  }

  lemma {:induction false} PlainStages(stages: seq<Args>)
    requires PlainPipeline(stages)
    ensures PlainCommand(stages[0]) && (|stages| > 1 ==> PlainPipeline(stages[1..]))
  {
    assert stages[0] in stages;
  }

  lemma {:induction false} StagesOut(before: seq<string>, stages: seq<Args>)
    requires stages != []
    ensures before + CommandTexts(stages) == before + [PrintCommand(stages[0])] + CommandTexts(stages[1..])
    ensures |stages| == 1 ==> before + CommandTexts(stages) == before + [PrintCommand(stages[0])]
  {
  }

  lemma {:induction false} PipeFirst(t: string, i: nat, args: Args, st: Piper)
    requires At(t, i, PrintCommand(args)) && PlainCommand(args) && AtTop(st) && Pad(st.cur)
    requires var j := i + |PrintCommand(args)|;
             j + 2 < |t| && t[j] == ' ' && t[j + 1] == '|' && t[j + 2] == ' '
    ensures var c := PrintCommand(args);
            Comes(t, i, st, i + |c| + 3, st.(stages := st.stages + [c], cur := [' ']))
  {
    var c := PrintCommand(args);
    PipeCommand(t, i, args, st);
    CommandIsQuoted(args);
    BarAfter(t, i, c, st);
  }

  lemma {:induction false} PipeLast(t: string, i: nat, args: Args, st: Piper)
    requires At(t, i, PrintCommand(args)) && i + |PrintCommand(args)| == |t|
    requires PlainCommand(args) && AtTop(st) && Pad(st.cur)
    ensures StagesFrom(t, i, st, st.stages + [PrintCommand(args)])
  {
    var c := PrintCommand(args);
    PipeCommand(t, i, args, st);
    CommandIsQuoted(args);
    PaddedTrims(st.cur, c, []);
    assert st.cur + c + [] == st.cur + c;
  }

  /** The statement of a pipeline has its commands as its stages. */
  lemma {:induction false} StagesOfStatement(stages: seq<Args>)
    requires PlainPipeline(stages)
    ensures Stages(PrintPipeline(stages)) == CommandTexts(stages)
  {
    var t := PrintPipeline(stages);
    assert [] + t + [] == t;
    AtWhole([], t, []);
    PipeStages(t, 0, stages, NO_STAGES);
  }
}

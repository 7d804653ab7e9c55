// Quoting is faithful: a line printed from programs of single-quoted words is
// split into the same statements, stages and words again, whatever the words
// hold apart from a single quote (section 2.2.2 of the POSIX.1-2017 Shell
// Command Language). This file is the first scanner: lines into statements.

module QuotingRoundTrip {
  import opened Wrappers
  import opened ShellText
  import opened Scanners

  // ----- printing -----

  type Args = seq<string>

  datatype Link = Link(sep: string, stages: seq<Args>)

  function Quote(arg: string): string {
    [QUOTE] + (arg + [QUOTE])
  }

  function PrintCommand(args: Args): string {
    if args == [] then ""
    else if |args| == 1 then Quote(args[0])
    else Quote(args[0]) + ([' '] + PrintCommand(args[1..]))
  }

  function AfterBar(s: string): string {
    [' '] + (['|'] + ([' '] + s))
  }

  function PrintPipeline(stages: seq<Args>): string {
    if stages == [] then ""
    else if |stages| == 1 then PrintCommand(stages[0])
    else PrintCommand(stages[0]) + AfterBar(PrintPipeline(stages[1..]))
  }

  function PrintLinks(links: seq<Link>): string
    decreases |links|, 1
  {
    if links == [] then "" else PrintLink(links)
  }

  function PrintLink(links: seq<Link>): string
    requires links != []
    decreases |links|, 0
  {
    [' '] + (links[0].sep + ([' '] + (PrintPipeline(links[0].stages) + PrintLinks(links[1..]))))
  }

  /** A line of commands, each a pipeline of commands of quoted words. */
  function PrintLine(stages: seq<Args>, links: seq<Link>): string {
    PrintPipeline(stages) + PrintLinks(links)
  }

  /** No single quote, and none of the marker characters. */
  predicate Plain(arg: string) {
    forall c :: c in arg ==> c != QUOTE && !Marker(c)
  }

  predicate PlainCommand(args: Args) {
    args != [] && forall a :: a in args ==> Plain(a)
  }

  predicate PlainPipeline(stages: seq<Args>) {
    stages != [] && forall s :: s in stages ==> PlainCommand(s)
  }

  predicate PlainLink(l: Link) {
    Operator(l.sep) && PlainPipeline(l.stages)
  }

  /** Text that starts and ends with a quote. */
  predicate Quoted(s: string) {
    |s| >= 2 && s[0] == QUOTE && s[|s| - 1] == QUOTE
  }

  lemma {:induction false} CommandIsQuoted(args: Args)
    requires args != []
    ensures Quoted(PrintCommand(args))
    decreases |args|
  {
    if |args| > 1 {
      CommandIsQuoted(args[1..]);
    }
  }

  lemma {:induction false} PipelineIsQuoted(stages: seq<Args>)
    requires PlainPipeline(stages)
    ensures Quoted(PrintPipeline(stages))
    decreases |stages|
  {
    assert stages[0] in stages;
    CommandIsQuoted(stages[0]);
    if |stages| > 1 {
      PipelineIsQuoted(stages[1..]);
    }
  }

  // ----- text that only adds to the statement under way -----

  function Grown(st: Splitter, i: nat, s: string): Splitter {
    if s == "" then st else st.(cur := st.cur + s, start := if st.cur == "" then i else st.start)
  }

  lemma {:induction false} GrownTwice(st: Splitter, i: nat, a: string, b: string)
    ensures Grown(Grown(st, i, a), i + |a|, b) == Grown(st, i, a + b)
  {
    assert st.cur + a + b == st.cur + (a + b);
    if a == "" {
      assert a + b == b;
    }
  }

  predicate Top(st: Splitter) {
    st.quote == None && st.depth == 0 && st.cs == []
  }

  /** From `i` in the state `st` the scan comes to `j` in the state `st'`. */
  ghost predicate Goes(t: string, i: nat, st: Splitter, j: nat, st': Splitter) {
    && i <= j <= |t| && st.start <= |t| && st'.start <= |t|
    && SplitFrom(t, i, st) == SplitFrom(t, j, st')
  }

  ghost predicate Passes(t: string, i: nat, st: Splitter, s: string) {
    st.start <= |t| && Goes(t, i, st, i + |s|, Grown(st, i, s))
  }

  lemma {:induction false} GoesStep(t: string, i: nat, st: Splitter)
    requires i < |t| && st.start <= |t|
    ensures var (j, st') := SplitStep(t, i, Started(i, st)); Goes(t, i, st, j, st')
  {
    assert SplitFrom(t, i, st) == SplitStart(t, i, st);
    assert SplitStart(t, i, st) == SplitTurn(t, i, Started(i, st));
  }

  lemma {:induction false} PassTwice(t: string, i: nat, st: Splitter, a: string, b: string)
    requires Passes(t, i, st, a) && Passes(t, i + |a|, Grown(st, i, a), b)
    ensures Passes(t, i, st, a + b)
  {
    GrownTwice(st, i, a, b);
  }

  lemma {:induction false} SplitInside(t: string, i: nat, arg: string, st: Splitter)
    requires At(t, i, arg + [QUOTE]) && QUOTE !in arg
    requires st.quote == Some(QUOTE) && st.cur != "" && st.start <= |t|
    ensures Goes(t, i, st, i + |arg| + 1, Grown(st, i, arg + [QUOTE]).(quote := None))
    decreases |arg|
  {
    if arg == "" {
      assert arg + [QUOTE] == [QUOTE];
      GoesStep(t, i, st);
    } else {
      var c, rest := arg[0], arg[1..];
      assert arg + [QUOTE] == [c] + (rest + [QUOTE]);
      AtCons(t, i, c, rest + [QUOTE]);
      GoesStep(t, i, st);
      SplitInside(t, i + 1, rest, Grown(st, i, [c]));
      GrownTwice(st, i, [c], rest + [QUOTE]);
    }
  }

  lemma {:induction false} SplitWord(t: string, i: nat, arg: string, st: Splitter)
    requires At(t, i, Quote(arg)) && Plain(arg) && Top(st) && st.start <= |t|
    ensures Passes(t, i, st, Quote(arg))
  {
    var body := arg + [QUOTE];
    AtCons(t, i, QUOTE, body);
    GoesStep(t, i, st);
    assert SplitStep(t, i, Started(i, st)) == (i + 1, Grown(st, i, [QUOTE]).(quote := Some(QUOTE)));
    SplitInside(t, i + 1, arg, Grown(st, i, [QUOTE]).(quote := Some(QUOTE)));
    GrownTwice(st, i, [QUOTE], body);
  }

  lemma {:induction false} SplitChar(t: string, i: nat, c: char, st: Splitter)
    requires i < |t| && t[i] == c && Top(st) && st.start <= |t|
    requires c == ' ' || (c == '|' && !NextIs(t, i, '|'))
    ensures Passes(t, i, st, [c])
  {
    GoesStep(t, i, st);
    assert SplitStep(t, i, Started(i, st)) == (i + 1, Grown(st, i, [c]));
  }

  lemma {:induction false} SplitGap(t: string, i: nat, s: string, st: Splitter)
    requires At(t, i, [' '] + s) && Top(st) && st.start <= |t|
    requires Passes(t, i + 1, Grown(st, i, [' ']), s)
    ensures Passes(t, i, st, [' '] + s)
  {
    AtCons(t, i, ' ', s);
    SplitChar(t, i, ' ', st);
    PassTwice(t, i, st, [' '], s);
  }

  lemma {:induction false} SplitBar(t: string, i: nat, s: string, st: Splitter)
    requires At(t, i, AfterBar(s)) && Top(st) && st.start <= |t|
    requires Passes(t, i + 3, Grown(Grown(Grown(st, i, [' ']), i + 1, ['|']), i + 2, [' ']), s)
    ensures Passes(t, i, st, AfterBar(s))
  {
    var gap := [' '] + s;
    AtCons(t, i, ' ', ['|'] + gap);
    AtCons(t, i + 1, '|', gap);
    AtCons(t, i + 2, ' ', s);
    var st1 := Grown(st, i, [' ']);
    SplitGap(t, i + 2, s, Grown(st1, i + 1, ['|']));
    SplitChar(t, i + 1, '|', st1);
    PassTwice(t, i + 1, st1, ['|'], gap);
    SplitGap(t, i, ['|'] + gap, st);
  }

  lemma {:induction false} SplitCommand(t: string, i: nat, args: Args, st: Splitter)
    requires At(t, i, PrintCommand(args)) && PlainCommand(args) && Top(st) && st.start <= |t|
    ensures Passes(t, i, st, PrintCommand(args))
    decreases |args|
  {
    assert args[0] in args;
    var q := Quote(args[0]);
    if |args| == 1 {
      SplitWord(t, i, args[0], st);
    } else {
      var rest := PrintCommand(args[1..]);
      AtSplit(t, i, q, [' '] + rest);
      AtCons(t, i + |q|, ' ', rest);
      SplitWord(t, i, args[0], st);
      var j, st1 := i + |q|, Grown(st, i, q);
      SplitCommand(t, j + 1, args[1..], Grown(st1, j, [' ']));
      SplitGap(t, j, rest, st1);
      PassTwice(t, i, st, q, [' '] + rest);
    }
  }

  lemma {:induction false} SplitPipeline(t: string, i: nat, stages: seq<Args>, st: Splitter)
    requires At(t, i, PrintPipeline(stages)) && PlainPipeline(stages) && Top(st) && st.start <= |t|
    ensures Passes(t, i, st, PrintPipeline(stages))
    decreases |stages|
  {
    assert stages[0] in stages;
    var p := PrintCommand(stages[0]);
    if |stages| == 1 {
      SplitCommand(t, i, stages[0], st);
    } else {
      var rest := PrintPipeline(stages[1..]);
      AtSplit(t, i, p, AfterBar(rest));
      AtBar(t, i + |p|, rest);
      SplitCommand(t, i, stages[0], st);
      var j, st1 := i + |p|, Grown(st, i, p);
      SplitPipeline(t, j + 3, stages[1..], Grown(Grown(Grown(st1, j, [' ']), j + 1, ['|']), j + 2, [' ']));
      SplitBar(t, j, rest, st1);
      PassTwice(t, i, st, p, AfterBar(rest));
    }
  }

  lemma {:induction false} AtBar(t: string, i: nat, s: string)
    requires At(t, i, AfterBar(s))
    ensures At(t, i + 3, s) && t[i] == ' ' && t[i + 1] == '|' && t[i + 2] == ' '
  {
    AtCons(t, i, ' ', ['|'] + ([' '] + s));
    AtCons(t, i + 1, '|', [' '] + s);
    AtCons(t, i + 2, ' ', s);
  }

  // ----- the end of a statement -----

  function LineOf(t: string, start: nat): nat
    requires start <= |t|
  {
    1 + Newlines(t, start)
  }

  predicate Pad(s: string) {
    s == [] || s == [' ']
  }

  /** Trimming `raw` leaves `s`, and there is no newline in front of it. */
  predicate Trims(raw: string, s: string) {
    Trim(raw) == s != "" && Newlines(raw, Lead(raw, 0)) == 0
  }

  lemma {:induction false} PaddedTrims(before: string, s: string, after: string)
    requires Quoted(s) && Pad(before) && Pad(after)
    ensures Trims(before + s + after, s)
  {
    var raw := before + s + after;
    assert Blank(before) && Blank(after) && Solid(s);
    TrimIs(before, s, after);
    assert raw[|before|] == QUOTE;
    if before == [' '] {
      assert raw[0] == ' ' && Lead(raw, 1) == 1;
    }
  }

  lemma {:induction false} EndsStatement(t: string, st: Splitter, s: string)
    requires Trims(st.cur, s) && st.start <= |t|
    ensures EndStatement(t, st) ==
            st.(stmts := st.stmts + [Statement(st.sep, s, LineOf(t, st.start))], cur := "")
  {
  }

  // ----- the statements of a line -----

  predicate Operator(sep: string) {
    sep == [';'] || sep == ['&', '&'] || sep == ['|', '|']
  }

  lemma {:induction false} AtOperator(t: string, i: nat, sep: string)
    requires Operator(sep) && At(t, i, sep)
    ensures i + |sep| <= |t| && t[i] == sep[0] && (|sep| == 2 ==> t[i + 1] == sep[1])
  {
    if |sep| == 2 {
      assert sep == [sep[0]] + [sep[1]];
      AtCons(t, i, sep[0], [sep[1]]);
    }
  }

  lemma {:induction false} SplitSep(t: string, i: nat, sep: string, st: Splitter)
    requires Operator(sep) && i + |sep| < |t| && t[i + |sep|] == ' '
    requires t[i] == sep[0] && (|sep| == 2 ==> t[i + 1] == sep[1])
    requires Top(st) && st.cur != "" && st.start <= |t|
    ensures SplitStep(t, i, Started(i, st)) == (i + |sep|, Cut(t, st, sep))
  {
    assert Started(i, st) == st && CaseStep([], t, i) == ([], false);
  }

  /** Where the parts of a link are. */
  predicate LinkAt(t: string, i: nat, sep: string, p: string) {
    && i < |t| && t[i] == ' ' && At(t, i + 1, sep)
    && i + 1 + |sep| < |t| && t[i + 1 + |sep|] == ' ' && At(t, i + 2 + |sep|, p)
  }

  lemma {:induction false} AtLink(t: string, i: nat, links: seq<Link>)
    requires links != [] && At(t, i, PrintLinks(links))
    ensures var sep, p, rest := links[0].sep, PrintPipeline(links[0].stages), PrintLinks(links[1..]);
            && LinkAt(t, i, sep, p) && At(t, i + 2 + |sep| + |p|, rest)
            && |PrintLinks(links)| == 2 + |sep| + |p| + |rest|
  {
    var sep, p, rest := links[0].sep, PrintPipeline(links[0].stages), PrintLinks(links[1..]);
    assert PrintLinks(links) == PrintLink(links);
    AtParts(t, i, sep, p, rest);
  }

  lemma {:induction false} AtParts(t: string, i: nat, sep: string, p: string, rest: string)
    requires At(t, i, [' '] + (sep + ([' '] + (p + rest))))
    ensures LinkAt(t, i, sep, p) && At(t, i + 2 + |sep| + |p|, rest)
  {
    AtCons(t, i, ' ', sep + ([' '] + (p + rest)));
    AtSplit(t, i + 1, sep, [' '] + (p + rest));
    AtCons(t, i + 1 + |sep|, ' ', p + rest);
    AtSplit(t, i + 2 + |sep|, p, rest);
  }

  lemma {:induction false} GoesOn(t: string, i: nat, st: Splitter, j: nat, st': Splitter, k: nat, st'': Splitter)
    requires Goes(t, i, st, j, st') && Goes(t, j, st', k, st'')
    ensures Goes(t, i, st, k, st'')
  {
  }

  /** The state after the statement `s` has ended at the separator. */
  function Ended(t: string, st: Splitter, s: string, sep: string): (r: Splitter)
    requires st.start <= |t|
  {
    Splitter(st.stmts + [Statement(st.sep, s, LineOf(t, st.start))], "", sep, None, 0, [], st.start)
  }

  /** And after ` p` has been read at `j`. */
  function Linked(t: string, st: Splitter, s: string, sep: string, j: nat, p: string): (r: Splitter)
    requires st.start <= |t|
    ensures Top(r) && r.cur == [' '] + p && r.start == j && r.sep == sep
    ensures r.stmts == st.stmts + [Statement(st.sep, s, LineOf(t, st.start))]
  {
    Grown(Ended(t, st, s, sep), j, [' '] + p)
  }

  lemma {:induction false} SplitCut(t: string, i: nat, sep: string, st: Splitter, s: string)
    requires Operator(sep)
    requires At(t, i, sep) && i + |sep| < |t| && t[i + |sep|] == ' ' && Top(st) && st.cur != ""
    requires Trims(st.cur, s) && st.start <= |t|
    ensures Goes(t, i, st, i + |sep|, Ended(t, st, s, sep))
  {
    EndsStatement(t, st, s);
    AtOperator(t, i, sep);
    SplitSep(t, i, sep, st);
    GoesStep(t, i, st);
    assert Cut(t, st, sep) == Ended(t, st, s, sep);
  }

  lemma {:induction false} SplitEnd(t: string, i: nat, sep: string, st: Splitter, s: string)
    requires Operator(sep)
    requires i < |t| && t[i] == ' ' && At(t, i + 1, sep) && i + 1 + |sep| < |t| && t[i + 1 + |sep|] == ' '
    requires Trims(st.cur + [' '], s) && Top(st) && st.cur != "" && st.start <= |t|
    ensures Goes(t, i, st, i + 1 + |sep|, Ended(t, st, s, sep))
  {
    var st1 := Grown(st, i, [' ']);
    SplitChar(t, i, ' ', st);
    SplitCut(t, i + 1, sep, st1, s);
    assert Ended(t, st1, s, sep) == Ended(t, st, s, sep);
    GoesOn(t, i, st, i + 1, st1, i + 1 + |sep|, Ended(t, st, s, sep));
  }

  lemma {:induction false} SplitNext(t: string, i: nat, stages: seq<Args>, st: Splitter)
    requires i < |t| && t[i] == ' ' && At(t, i + 1, PrintPipeline(stages)) && PlainPipeline(stages)
    requires Top(st) && st.start <= |t|
    ensures Passes(t, i, st, [' '] + PrintPipeline(stages))
  {
    SplitChar(t, i, ' ', st);
    SplitPipeline(t, i + 1, stages, Grown(st, i, [' ']));
    PassTwice(t, i, st, [' '], PrintPipeline(stages));
  }

  /** The separator ends the statement `s`, and the next pipeline is read. */
  lemma {:induction false} SplitLink(t: string, i: nat, l: Link, p: string, st: Splitter, s: string)
    requires p == PrintPipeline(l.stages) && LinkAt(t, i, l.sep, p) && PlainLink(l) && st.start <= |t|
    requires Trims(st.cur + [' '], s) && Top(st) && st.cur != ""
    ensures Goes(t, i, st, i + 2 + |l.sep| + |p|, Linked(t, st, s, l.sep, i + 1 + |l.sep|, p))
  {
    var j := i + 1 + |l.sep|;
    SplitEnd(t, i, l.sep, st, s);
    SplitNext(t, j, l.stages, Ended(t, st, s, l.sep));
    GoesOn(t, i, st, j, Ended(t, st, s, l.sep), j + 1 + |p|, Linked(t, st, s, l.sep, j, p));
  }

  ghost predicate SplitsInto(t: string, i: nat, st: Splitter, out: seq<Statement>) {
    && i <= |t| && st.start <= |t|
    && EndStatement(t, SplitFrom(t, i, st)).stmts == out
  }

  lemma {:induction false} SplitsFurther(t: string, i: nat, st: Splitter, j: nat, st': Splitter, out: seq<Statement>)
    requires Goes(t, i, st, j, st') && SplitsInto(t, j, st', out)
    ensures SplitsInto(t, i, st, out)
  {
  }

  /** What the links from `i` on are split into. */
  function LinkStatements(t: string, i: nat, links: seq<Link>): seq<Statement>
    decreases |links|
  {
    if links == [] then []
    else
      var start, p := i + 1 + |links[0].sep|, PrintPipeline(links[0].stages);
      if start > |t| then []
      else [Statement(links[0].sep, p, LineOf(t, start))] + LinkStatements(t, start + 1 + |p|, links[1..])
  }

  lemma {:induction false} LinkStatementsStep(t: string, i: nat, links: seq<Link>)
    requires links != [] && i + 1 + |links[0].sep| <= |t|
    ensures var j, p := i + 1 + |links[0].sep|, PrintPipeline(links[0].stages);
            LinkStatements(t, i, links) ==
            [Statement(links[0].sep, p, LineOf(t, j))] + LinkStatements(t, j + 1 + |p|, links[1..])
  {
  }

  /** The statements that a state and what follows it come to. */
  function Outcome(t: string, st: Splitter, s: string, rest: seq<Statement>): seq<Statement>
    requires st.start <= |t|
  {
    st.stmts + [Statement(st.sep, s, LineOf(t, st.start))] + rest
  }

  lemma {:induction false} SplitLast(t: string, st: Splitter, before: string, s: string)
    requires st.start <= |t| && Quoted(s) && Pad(before) && st.cur == before + s
    ensures SplitsInto(t, |t|, st, Outcome(t, st, s, []))
  {
    assert before + s + [] == before + s;
    PaddedTrims(before, s, []);
    EndsStatement(t, st, s);
  }

  lemma {:induction false} LinkOutcome(t: string, i: nat, k: nat, st: Splitter, s: string, sep: string, j: nat,
      p: string, rest: seq<Statement>, out: seq<Statement>)
    requires st.start <= |t| && j <= |t| && out == [Statement(sep, p, LineOf(t, j))] + rest
    requires var st' := Linked(t, st, s, sep, j, p);
             Goes(t, i, st, k, st') && SplitsInto(t, k, st', Outcome(t, st', p, rest))
    ensures SplitsInto(t, i, st, Outcome(t, st, s, out))
  {
    var st' := Linked(t, st, s, sep, j, p);
    SplitsFurther(t, i, st, k, st', Outcome(t, st', p, rest));
    assert Outcome(t, st', p, rest) == Outcome(t, st, s, out);
  }

  lemma {:induction false} LinkGoes(t: string, i: nat, l: Link, p: string, st: Splitter, before: string, s: string)
    requires p == PrintPipeline(l.stages) && LinkAt(t, i, l.sep, p) && PlainLink(l) && st.start <= |t|
    requires Top(st) && Quoted(s) && Pad(before) && st.cur == before + s
    ensures Quoted(p) && Goes(t, i, st, i + 2 + |l.sep| + |p|, Linked(t, st, s, l.sep, i + 1 + |l.sep|, p))
  {
    PipelineIsQuoted(l.stages);
    PaddedTrims(before, s, [' ']);
    SplitLink(t, i, l, p, st, s);
  }

  lemma {:induction false} PlainTail(links: seq<Link>)
    requires links != [] && forall l :: l in links ==> PlainLink(l)
    ensures PlainLink(links[0]) && forall l :: l in links[1..] ==> PlainLink(l)
  {
    assert links[0] in links;
  }

  lemma {:induction false} SplitLinks(t: string, i: nat, links: seq<Link>, st: Splitter, before: string, s: string)
    requires At(t, i, PrintLinks(links)) && i + |PrintLinks(links)| == |t| && st.start <= |t|
    requires forall l :: l in links ==> PlainLink(l)
    requires Top(st) && Quoted(s) && Pad(before) && st.cur == before + s
    ensures SplitsInto(t, i, st, Outcome(t, st, s, LinkStatements(t, i, links)))
    decreases |links|
  {
    if links == [] {
      SplitLast(t, st, before, s);
    } else {
      var l, tail, p := links[0], links[1..], PrintPipeline(links[0].stages);
      var j, k := i + 1 + |l.sep|, i + 2 + |l.sep| + |p|;
      PlainTail(links);
      AtLink(t, i, links);
      LinkGoes(t, i, l, p, st, before, s);
      SplitLinks(t, k, tail, Linked(t, st, s, l.sep, j, p), [' '], p);
      LinkStatementsStep(t, i, links);
      LinkOutcome(t, i, k, st, s, l.sep, j, p, LinkStatements(t, k, tail), LinkStatements(t, i, links));
    }
  }

  lemma {:induction false} AllSplit(t: string, p: string, rest: seq<Statement>)
    requires SplitsInto(t, 0, NO_STATEMENTS, Outcome(t, Grown(NO_STATEMENTS, 0, p), p, rest)) && p != ""
    ensures Statements(t) == [Statement("", p, 1)] + rest
  {
    assert Outcome(t, Grown(NO_STATEMENTS, 0, p), p, rest) == [Statement("", p, 1)] + rest;
  }

  /** A line splits into its pipelines, each after its own operator and with the line it starts on. */
  lemma {:induction false} StatementsOfLine(stages: seq<Args>, links: seq<Link>)
    requires PlainPipeline(stages) && forall l :: l in links ==> PlainLink(l)
    ensures var p, t := PrintPipeline(stages), PrintLine(stages, links);
            Statements(t) == [Statement("", p, 1)] + LinkStatements(t, |p|, links)
  {
    var p, rest := PrintPipeline(stages), PrintLinks(links);
    var t := p + rest;
    PartsAt(t, p, rest);
    FirstPipeline(t, p, stages);
    var st, out := Grown(NO_STATEMENTS, 0, p), LinkStatements(t, |p|, links);
    SplitLinks(t, |p|, links, st, [], p);
    SplitsFurther(t, 0, NO_STATEMENTS, |p|, st, Outcome(t, st, p, out));
    AllSplit(t, p, out);
  }

  lemma {:induction false} PartsAt(t: string, p: string, rest: string)
    requires t == p + rest
    ensures At(t, 0, p) && At(t, |p|, rest)
  {
    assert [] + t + [] == t;
    AtWhole([], t, []);
    AtSplit(t, 0, p, rest);
  }

  lemma {:induction false} FirstPipeline(t: string, p: string, stages: seq<Args>)
    requires p == PrintPipeline(stages) && PlainPipeline(stages) && At(t, 0, p) && |p| <= |t|
    ensures Quoted(p) && p != "" && [] + p == p
    ensures var st := Grown(NO_STATEMENTS, 0, p);
      Goes(t, 0, NO_STATEMENTS, |p|, st) && Top(st) && st.start == 0 && st.cur == [] + p
  {
    PipelineIsQuoted(stages);
    SplitPipeline(t, 0, stages, NO_STATEMENTS);
  }
}

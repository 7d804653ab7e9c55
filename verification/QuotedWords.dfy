// The third scanner and the expansion on quoted text: the words of a printed
// command come back as they were, and what the rest of the shell then takes
// them for.

module QuotedWords {
  import opened Wrappers
  import opened ShellText
  import opened Scanners
  import opened WordSplitting
  import opened QuotingRoundTrip
  import opened QuotedStages

  // ----- words -----

  function HideDollar(c: char): char {
    if c == '$' then LIT_DOLLAR else c
  }

  function Hidden(s: string): string {
    Replace(s, HideDollar)
  }

  /** What the tokenizer makes of a quoted word. */
  function Marked(arg: string): string {
    [Q_OPEN] + (Hidden(arg) + [Q_CLOSE])
  }

  function AllMarked(args: Args): seq<string> {
    if args == [] then [] else [Marked(args[0])] + AllMarked(args[1..])
  }

  function Between(words: seq<string>): Words {
    Words(words, "", false, None, false, 0, [])
  }

  function InWord(words: seq<string>, cur: string): Words {
    Words(words, cur, true, None, false, 0, [])
  }

  lemma {:induction false} WordsStep(t: string, i: nat, st: Words)
    requires i < |t|
    ensures var (j, st') := WordStep(t, i, true, st); WordsFrom(t, i, true, st) == WordsFrom(t, j, true, st')
  {
    assert WordsFrom(t, i, true, st) == WordsTurn(t, i, true, st);
  }

  ghost predicate Turns(t: string, i: nat, st: Words, j: nat, st': Words) {
    i <= j <= |t| && WordsFrom(t, i, true, st) == WordsFrom(t, j, true, st')
  }

  lemma {:induction false} WordInside(t: string, i: nat, arg: string, st: Words)
    requires At(t, i, arg + [QUOTE]) && QUOTE !in arg
    requires st.quote == Some(QUOTE) && !st.verbatim && st.has
    ensures Turns(t, i, st, i + |arg| + 1, st.(cur := st.cur + (Hidden(arg) + [Q_CLOSE]), quote := None))
    decreases |arg|
  {
    WordsStep(t, i, st);
    if arg == "" {
      assert arg + [QUOTE] == [QUOTE] && Hidden(arg) + [Q_CLOSE] == [Q_CLOSE];
    } else {
      var c, rest := arg[0], arg[1..];
      assert arg + [QUOTE] == [c] + (rest + [QUOTE]);
      AtCons(t, i, c, rest + [QUOTE]);
      WordInside(t, i + 1, rest, st.(cur := st.cur + [HideDollar(c)]));
      assert Hidden(arg) == [HideDollar(c)] + Hidden(rest);
      assert st.cur + [HideDollar(c)] + (Hidden(rest) + [Q_CLOSE]) == st.cur + (Hidden(arg) + [Q_CLOSE]);
    }
  }

  lemma {:induction false} WordWord(t: string, i: nat, arg: string, words: seq<string>)
    requires At(t, i, Quote(arg)) && Plain(arg)
    ensures Turns(t, i, Between(words), i + |Quote(arg)|, InWord(words, Marked(arg)))
  {
    AtCons(t, i, QUOTE, arg + [QUOTE]);
    WordsStep(t, i, Between(words));
    var st := InWord(words, [Q_OPEN]).(quote := Some(QUOTE));
    assert "" + [Q_OPEN] == [Q_OPEN];
    assert WordStep(t, i, true, Between(words)) == (i + 1, st);
    WordInside(t, i + 1, arg, st);
  }

  lemma {:induction false} WordGap(t: string, i: nat, words: seq<string>, cur: string)
    requires i < |t| && t[i] == ' '
    ensures Turns(t, i, InWord(words, cur), i + 1, Between(words + [cur]))
  {
    WordsStep(t, i, InWord(words, cur));
  }

  ghost predicate TokensFrom(t: string, i: nat, st: Words, out: seq<string>) {
    i <= |t| && EndWord(WordsFrom(t, i, true, st)).words == out
  }

  lemma {:induction false} TokensFurther(t: string, i: nat, st: Words, j: nat, st': Words, out: seq<string>)
    requires Turns(t, i, st, j, st') && TokensFrom(t, j, st', out)
    ensures TokensFrom(t, i, st, out)
  {
  }

  lemma {:induction false} WordsOfCommand(t: string, i: nat, args: Args, words: seq<string>)
    requires At(t, i, PrintCommand(args)) && i + |PrintCommand(args)| == |t| && PlainCommand(args)
    ensures TokensFrom(t, i, Between(words), words + AllMarked(args))
    decreases |args|
  {
    assert args[0] in args;
    var q, m := Quote(args[0]), Marked(args[0]);
    var j := i + |q|;
    if |args| == 1 {
      WordWord(t, i, args[0], words);
      assert AllMarked(args) == [m];
    } else {
      var rest := PrintCommand(args[1..]);
      AtSplit(t, i, q, [' '] + rest);
      AtCons(t, j, ' ', rest);
      WordWord(t, i, args[0], words);
      WordGap(t, j, words, m);
      WordsOfCommand(t, j + 1, args[1..], words + [m]);
      TokensFurther(t, j, InWord(words, m), j + 1, Between(words + [m]), words + [m] + AllMarked(args[1..]));
      TokensFurther(t, i, Between(words), j, InWord(words, m), words + [m] + AllMarked(args[1..]));
      assert words + [m] + AllMarked(args[1..]) == words + AllMarked(args);
    }
  }

  lemma {:induction false} TokensOfCommand(args: Args)
    requires PlainCommand(args)
    ensures Tokens(PrintCommand(args), true) == AllMarked(args)
  {
    var t := PrintCommand(args);
    assert [] + t + [] == t && [] + AllMarked(args) == AllMarked(args);
    AtWhole([], t, []);
    WordsOfCommand(t, 0, args, []);
  }

  // ----- expansion -----

  predicate Ordinary(s: string) {
    forall c :: c in s ==> c != '$' && c != Q_OPEN && c != Q_CLOSE
  }

  lemma {:induction false} ExpandOnce(word: string, i: nat, dollar: Dollar, e: State)
    requires i < |word|
    ensures var (j, f) := ExpandStep(word, i, dollar, e);
            ExpandFrom(word, i, dollar, e) == ExpandFrom(word, j, dollar, f)
  {
    assert ExpandFrom(word, i, dollar, e) == ExpandTurn(word, i, dollar, e);
  }

  lemma {:induction false} ExpandInside(word: string, i: nat, s: string, dollar: Dollar, e: State)
    requires At(word, i, s) && Ordinary(s) && e.mask && e.quoted
    ensures i + |s| <= |word|
    ensures ExpandFrom(word, i, dollar, e) ==
            ExpandFrom(word, i + |s|, dollar, e.(cur := e.cur + Mask(s), has := e.has || s != ""))
    decreases |s|
  {
    if s == "" {
      assert e.cur + Mask(s) == e.cur;
    } else {
      var c, rest := s[0], s[1..];
      assert c in s && Mask([c]) == [MaskChar(c)];
      assert forall x :: x in rest ==> x in s;
      ExpandOnce(word, i, dollar, e);
      ExpandInside(word, i + 1, rest, dollar, e.(cur := e.cur + [MaskChar(c)], has := true));
      assert Mask(s) == [MaskChar(c)] + Mask(rest);
      assert e.cur + [MaskChar(c)] + Mask(rest) == e.cur + Mask(s);
    }
  }

  lemma {:induction false} HiddenIsOrdinary(arg: string)
    requires Plain(arg)
    ensures Ordinary(Hidden(arg))
  {
    var s := Hidden(arg);
    forall c | c in s
      ensures c != '$' && c != Q_OPEN && c != Q_CLOSE
    {
      var i :| 0 <= i < |s| && s[i] == c;
      assert arg[i] in arg && c == HideDollar(arg[i]);
    }
  }

  /** A marked word expands to itself, with its angle brackets still hidden; the empty word included. */
  lemma {:induction false} FieldsOfMarked(arg: string, ifs: string, dollar: Dollar)
    requires Plain(arg)
    ensures Fields(Marked(arg), true, ifs, dollar) == [Mask(arg)]
  {
    var word, s := Marked(arg), Hidden(arg);
    var e := Fresh(true, ifs, true);
    assert [] + word + [] == word;
    AtWhole([], word, []);
    AtCons(word, 0, Q_OPEN, s + [Q_CLOSE]);
    AtSplit(word, 1, s, [Q_CLOSE]);
    ExpandOnce(word, 0, dollar, e);
    HiddenIsOrdinary(arg);
    var e1 := e.(quoted := true);
    ExpandInside(word, 1, s, dollar, e1);
    var k := 1 + |s|;
    var e2 := e1.(cur := "" + Mask(s), has := s != "");
    assert word[k] == Q_CLOSE && |word| == k + 1;
    ExpandOnce(word, k, dollar, e2);
    assert "" + Mask(s) == Mask(s);
    assert Dollars(Mask(s)) == Mask(arg) by {
      forall i | 0 <= i < |arg|
        ensures DollarChar(MaskChar(HideDollar(arg[i]))) == MaskChar(arg[i])
      {
        assert arg[i] in arg;
      }
    }
    assert Result(e2.(quoted := false, has := true)) == [Mask(arg)];
  }

  function AllMasked(args: Args): seq<string> {
    if args == [] then [] else AllMasked(args[..|args| - 1]) + [Mask(args[|args| - 1])]
  }

  lemma {:induction false} MarkedAt(args: Args, k: nat)
    requires k < |args|
    ensures |AllMarked(args)| == |args| && AllMarked(args)[k] == Marked(args[k])
    decreases |args|
  {
    if |args| > 1 {
      MarkedAt(args[1..], if k == 0 then 0 else k - 1);
    }
  }

  lemma {:induction false} AddedMarked(args: Args, n: nat, ifs: string, dollar: Dollar)
    requires PlainCommand(args) && n <= |args| == |AllMarked(args)|
    ensures Added(AllMarked(args), n, ifs, dollar).out == AllMasked(args[..n])
    decreases n
  {
    if n > 0 {
      AddedMarked(args, n - 1, ifs, dollar);
      MarkedAt(args, n - 1);
      var arg := args[n - 1];
      assert arg in args;
      FieldsOfMarked(arg, ifs, dollar);
      assert !IdentStart(Marked(arg)[0]);
      assert args[..n][..n - 1] == args[..n - 1] && args[..n][n - 1] == arg;
    }
  }

  // ----- redirects and assignments -----

  predicate NoAngle(w: string) {
    forall c :: c in w ==> c != '<' && c != '>'
  }

  lemma {:induction false} NoOperator(w: string)
    requires NoAngle(w)
    ensures WordSplitting.Operator(w) == ""
  {
    assert |w| > 0 ==> w[0] in w;
    assert |w| > 1 ==> w[1] in w;
  }

  lemma {:induction false} NoRedirects(words: seq<string>, i: nat, out: seq<string>, r: Redirects)
    requires i <= |words| && forall w :: w in words ==> NoAngle(w)
    ensures RedirectsFrom(words, i, out, r) == (out + words[i..], r)
    decreases |words| - i
  {
    if i < |words| {
      var w := words[i];
      assert w in words;
      NoOperator(w);
      NoRedirects(words, i + 1, out + [w], r);
      assert out + [w] + words[i + 1..] == out + words[i..];
    } else {
      assert out + words[i..] == out;
    }
  }

  function UnmaskAll(words: seq<string>): seq<string> {
    seq(|words|, i requires 0 <= i < |words| => Unmask(words[i]))
  }

  lemma {:induction false} MaskedAt(args: Args, k: nat)
    requires k < |args| && forall a :: a in args ==> Plain(a)
    ensures |AllMasked(args)| == |args| && AllMasked(args)[k] == Mask(args[k])
    ensures NoAngle(Mask(args[k])) && Unmask(Mask(args[k])) == args[k]
    decreases |args|
  {
    var n := |args| - 1;
    if n > 0 {
      MaskedAt(args[..n], if k < n then k else 0);
    }
    var arg := args[k];
    assert arg in args;
    forall i | 0 <= i < |arg|
      ensures UnmaskChar(MaskChar(arg[i])) == arg[i]
    {
      assert arg[i] in arg;
    }
    assert Unmask(Mask(arg)) == arg;
  }

  // ----- the round trip -----

  lemma {:induction false} MaskedWordsOfCommand(args: Args, ifs: string, dollar: Dollar)
    requires PlainCommand(args)
    ensures MaskedWords(PrintCommand(args), ifs, dollar) == AllMasked(args)
  {
    TokensOfCommand(args);
    MarkedAt(args, 0);
    AddedMarked(args, |args|, ifs, dollar);
    assert args[..|args|] == args;
  }

  lemma {:induction false} NoRedirectsInCommand(args: Args, ifs: string, dollar: Dollar)
    requires PlainCommand(args)
    ensures RedirectsFrom(MaskedWords(PrintCommand(args), ifs, dollar), 0, [], NO_REDIRECTS) ==
            (AllMasked(args), NO_REDIRECTS)
  {
    var words := AllMasked(args);
    MaskedWordsOfCommand(args, ifs, dollar);
    MaskedAt(args, 0);
    forall w | w in words
      ensures NoAngle(w)
    {
      var k :| 0 <= k < |words| && words[k] == w;
      MaskedAt(args, k);
    }
    NoRedirects(words, 0, [], NO_REDIRECTS);
    assert [] + words[0..] == words;
  }

  lemma {:induction false} UnmaskedAll(args: Args)
    requires PlainCommand(args)
    ensures UnmaskAll(AllMasked(args)) == args
  {
    MaskedAt(args, 0);
    forall k | 0 <= k < |args|
      ensures UnmaskAll(AllMasked(args))[k] == args[k]
    {
      MaskedAt(args, k);
    }
  }

  /**
   The words of a printed command: whatever the variables hold and whatever
   an expansion would do, they are the arguments it was printed from, and no
   part of them is taken for a redirect.
   */
  lemma {:induction false} WordsComeBack(args: Args, ifs: string, dollar: Dollar)
    requires PlainCommand(args)
    ensures var (words, redirects) := RedirectsFrom(MaskedWords(PrintCommand(args), ifs, dollar), 0, [], NO_REDIRECTS);
            redirects == NO_REDIRECTS && UnmaskAll(words) == args
  {
    NoRedirectsInCommand(args, ifs, dollar);
    UnmaskedAll(args);
  }

  /** A line of one command of quoted words is one statement with one stage, and has exactly those words. */
  lemma {:induction false} QuotedLineComesBack(args: Args, ifs: string, dollar: Dollar)
    requires PlainCommand(args)
    ensures var line := PrintCommand(args);
            && Statements(line) == [Statement("", line, 1)]
            && Stages(line) == [line]
            && var (words, redirects) := RedirectsFrom(MaskedWords(line, ifs, dollar), 0, [], NO_REDIRECTS);
               redirects == NO_REDIRECTS && UnmaskAll(words) == args
  {
    var line := PrintCommand(args);
    assert PrintPipeline([args]) == line && line + [] == line;
    StatementsOfLine([args], []);
    StagesOfStatement([args]);
    WordsComeBack(args, ifs, dollar);
  }

  lemma {:induction false} LinkStatementAt(t: string, i: nat, links: seq<Link>, k: nat)
    requires k < |links| && i + |PrintLinks(links)| <= |t|
    ensures var out := LinkStatements(t, i, links);
            |out| == |links| && out[k].sep == links[k].sep && out[k].text == PrintPipeline(links[k].stages)
    decreases |links|
  {
    var sep, p, rest := links[0].sep, PrintPipeline(links[0].stages), PrintLinks(links[1..]);
    assert PrintLinks(links) == PrintLink(links);
    assert |PrintLinks(links)| == 2 + |sep| + |p| + |rest|;
    LinkStatementsStep(t, i, links);
    if |links| > 1 {
      LinkStatementAt(t, i + 2 + |sep| + |p|, links[1..], if k == 0 then 0 else k - 1);
    } else {
      assert LinkStatements(t, i + 2 + |sep| + |p|, links[1..]) == [];
    }
  }

  /** A whole line: its k-th linked pipeline is its own statement, after its own operator, with its own stages. */
  lemma {:induction false} LinkedPipelinesComeBack(stages: seq<Args>, links: seq<Link>, k: nat)
    requires PlainPipeline(stages) && (forall l :: l in links ==> PlainLink(l)) && k < |links|
    ensures var out := Statements(PrintLine(stages, links));
            && |out| == 1 + |links|
            && out[0].sep == "" && Stages(out[0].text) == CommandTexts(stages)
            && out[k + 1].sep == links[k].sep && Stages(out[k + 1].text) == CommandTexts(links[k].stages)
  {
    StatementsOfLine(stages, links);
    LinkStatementAt(PrintLine(stages, links), |PrintPipeline(stages)|, links, k);
    assert links[k] in links;
    StagesOfStatement(stages);
    StagesOfStatement(links[k].stages);
  }

  // ----- what a quoted first word is taken for -----

  lemma {:induction false} WordEndOfMasked(w: string, i: nat)
    requires i <= |w|
    ensures WordEnd(Mask(w), i) == WordEnd(w, i)
    decreases |w| - i
  {
    if i < |w| {
      assert IdentPart(MaskChar(w[i])) == IdentPart(w[i]);
      WordEndOfMasked(w, i + 1);
    }
  }

  lemma {:induction false} AssignmentOfMasked(w: string)
    ensures Assignment(Mask(w)) == Assignment(w)
  {
    WordEndOfMasked(w, 0);
    if w != "" {
      assert Mask(w)[0] == MaskChar(w[0]);
      var j := WordEnd(w, 0);
      if j < |w| {
        assert Mask(w)[j] == MaskChar(w[j]);
      }
    }
  }

  lemma {:induction false} StripIsShorter(words: seq<string>)
    ensures |StripAssignments(words)| <= |words|
    decreases |words|
  {
    if |words| > 1 && Assignment(words[0]) {
      StripIsShorter(words[1..]);
    }
  }

  /**
   Quoting does not keep the first word from being taken for an assignment:
   the words that are executed are the arguments exactly when there is only
   one, or the first does not look like `NAME=value`.
   */
  lemma {:induction false} ExecutedWords(args: Args, ifs: string, dollar: Dollar)
    requires PlainCommand(args)
    ensures var words := RedirectsFrom(MaskedWords(PrintCommand(args), ifs, dollar), 0, [], NO_REDIRECTS).0;
            UnmaskAll(StripAssignments(words)) == args <==> |args| == 1 || !Assignment(args[0])
  {
    NoRedirectsInCommand(args, ifs, dollar);
    UnmaskedAll(args);
    StripMasked(args);
  }

  lemma {:induction false} StripMasked(args: Args)
    requires PlainCommand(args)
    ensures UnmaskAll(StripAssignments(AllMasked(args))) == args <==> |args| == 1 || !Assignment(args[0])
  {
    var words := AllMasked(args);
    UnmaskedAll(args);
    MaskedAt(args, 0);
    AssignmentOfMasked(args[0]);
    if |args| > 1 && Assignment(args[0]) {
      StripIsShorter(words[1..]);
      assert |UnmaskAll(StripAssignments(words))| < |args|;
    } else {
      assert StripAssignments(words) == words;
    }
  }
}

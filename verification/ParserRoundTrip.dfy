// Parsing what was printed: the statement list of any tree over plain
// statements parses to that tree, and nothing is left.

module ParserRoundTrip {
  import opened Wrappers
  import opened ShellText
  import opened Scanners
  import opened T = ParserText
  import opened Grammar
  import opened Tree = ShellSyntax
  import opened P = ParserPrinter
  import opened W = ParserWords

  /** What follows a compound command: the rest of its pipeline, if any, and `more`. */
  function Rest(tail: string, more: Statements): Statements {
    if tail == "" then more else [St("", tail)] + more
  }

  /** A statement list that starts an item. */
  predicate Ready(ps: Statements, sep: string) {
    ps != [] && ps[0] == St(sep, ps[0].text) && Opening(ps[0].text) && !Reserved(T.First(ps[0].text))
  }

  /** A statement list that starts an item, which a producer may feed. */
  predicate Startable(ps: Statements, sep: string) {
    && ps != [] && ps[0] == St(sep, ps[0].text) && Solid(ps[0].text) && ps[0].text[0] != '|'
    && !Reserved(T.First(ps[0].text))
  }

  predicate NoPipe(ps: Statements) {
    ps != [] ==> !StartsPipe(ps[0].text)
  }

  /** A statement list at which the list before it ends. */
  predicate Halts(ps: Statements, stop: Stop) {
    && NoPipe(ps)
    && (ps != [] ==> Stops(stop, T.First(ps[0].text)) || (DoubleSemi(ps[0]) && stop.AtEsac?))
  }

  // ----- one step of the parser -----

  lemma {:induction false} SolidIsNoPipe(ps: Statements)
    requires ps != [] && Solid(ps[0].text) && ps[0].text[0] != '|'
    ensures NoPipe(ps)
  {
    TrimSolid(ps[0].text);
  }

  lemma {:induction false} AdvanceLed(sep: string, w: string, ps: Statements)
    requires Startable(ps, "")
    ensures Advance(Led(sep, w, ps), ps[0].text) == ps
  {
  }

  /** A keyword in front of a list: it ends the list before it, and is read. */
  lemma {:induction false} LedIsRead(k: Keyword, ps: Statements, stop: Stop)
    requires k != Other && Startable(ps, "") && Stops(stop, k)
    ensures var led := Led(SEMI, Spelling(k), ps);
      Halts(led, stop) && Expect(led, k) == Parsed((), ps) && T.First(led[0].text) == k
      && SplitKeyword(led[0].text) == (Spelling(k), ps[0].text)
  {
    LedByKeyword(k, ps[0].text);
    AdvanceLed(SEMI, Spelling(k), ps);
    SolidIsNoPipe(Led(SEMI, Spelling(k), ps));
  }

  lemma {:induction false} CloseIsRead(k: Keyword, text: string, more: Statements, stop: Stop)
    requires k != Other && (text == "" || Solid(text)) && Stops(stop, k)
    ensures var end := Close(k, text, more);
      Halts(end, stop) && Expect(end, k) == Parsed((), Rest(text, more)) && T.First(end[0].text) == k
      && SplitKeyword(end[0].text) == (Spelling(k), text)
  {
    LedByKeyword(k, text);
    SolidIsNoPipe(Close(k, text, more));
    assert Close(k, text, more)[1..] == more;
  }

  lemma {:induction false} ReadyOpens(sep: string, k: Keyword, ps: Statements)
    requires Opens(k) && Startable(ps, "") && Tame(ps[0].text)
    ensures var led := Led(sep, Spelling(k), ps); Ready(led, sep) && (NoFeed(ps[0].text) ==> NoFeed(led[0].text))
  {
    LedByKeyword(k, ps[0].text);
    CommandOpens(k, ps[0].text);
  }

  lemma {:induction false} StatementOpens(sep: string, k: Keyword, text: string, more: Statements)
    requires Opens(k) && Tame(text) && NoFeed(text)
    ensures Ready([St(sep, After(Spelling(k), text))] + more, sep) && NoFeed(After(Spelling(k), text))
  {
    LedByKeyword(k, text);
    CommandOpens(k, text);
  }

  lemma {:induction false} WordOpens(w: string, t: string)
    requires Bare(w) && (t == "" || Solid(t)) && '|' !in t
    ensures Tame(Suffixed(w, t)) && NoFeed(Suffixed(w, t))
  {
    assert BareChar(w[0]) && BareChar(w[|w| - 1]);
    SolidAfter(w, t);
    BarFree(w, t);
  }

  // ----- the first statement of an item -----

  /** What the first statement feeds: no loop, or nothing. */
  predicate Feeding(s: string, loops: bool, groups: bool) {
    (!loops ==> Tame(s)) && (!loops && !groups ==> NoFeed(s))
  }

  lemma {:induction false} BodyIsReady(body: seq<Item>, more: Statements)
    requires GoodList(body)
    ensures var ps := ListS(body, more);
      Startable(ps, "") && Feeding(ps[0].text, LoopLed(body), GroupLed(body))
    decreases body, 0
  {
    ItemStarts(body[0], ListS(body[1..], more));
  }

  lemma {:induction false} ItemIsReady(it: Item, more: Statements)
    requires GoodItem(it) && FeedOf(it.node) == ""
    ensures var ps := ItemS(it, more);
      Ready(ps, SepText(it.sep)) && (!GroupLedNode(it.node) ==> NoFeed(ps[0].text))
    decreases it, 0
  {
    var sep := SepText(it.sep);
    match it.node
    case Simple(text) => PlainFeedsNone(text);
    case If(branches, elseBody) =>
      ChainIsReady(branches, ElseS(elseBody, it.tail, more));
      ReadyOpens(sep, Keyword.If, ChainS(branches, ElseS(elseBody, it.tail, more)));
    case Group(_, body) => GroupIsReady(sep, body, it.tail, more);
    case Case(word, arms) =>
      WordOpens(word, IN);
      StatementOpens(sep, Keyword.Case, After(word, IN), ArmsS(SEMI, arms, it.tail, more));
    case For(name, words, body) => ForIsReady(sep, name, words, DoS(body, it.tail, more));
    case Loop(until, cond, body, input, _) =>
      var end := DoS(body, LoopEnd(input, it.tail), more);
      BodyIsReady(cond, end);
      ReadyOpens(sep, if until then Until else While, ListS(cond, end));
    case Subshell(_) =>
    case Func(name, body) =>
      GroupIsReady([], body, it.tail, more);
      FuncIsReady(sep, name, GroupS([], body, it.tail, more));
  }

  /** The same item without its producer. */
  function Unfed(it: Item): Item {
    match it.node
    case Group(_, _) => it.(node := it.node.(feed := ""))
    case Loop(_, _, _, _, _) => it.(node := it.node.(lfeed := ""))
    case _ => it
  }

  lemma {:induction false} UnfedIsGood(it: Item, more: Statements)
    requires GoodItem(it)
    ensures var u := Unfed(it);
      && GoodItem(u) && FeedOf(u.node) == "" && u.sep == it.sep && u.tail == it.tail
      && ItemS(it, more) == Fed(FeedOf(it.node), ItemS(u, more))
      && u.node.Group? == it.node.Group? && u.node.Loop? == it.node.Loop?
      && (FeedOf(it.node) != "" ==> !GroupLedNode(u.node))
      && WithFeed(u.node, FeedOf(it.node)) == it.node
  {
  }

  lemma {:induction false} ItemStarts(it: Item, more: Statements)
    requires GoodItem(it)
    ensures var ps := ItemS(it, more);
      Startable(ps, SepText(it.sep)) && Feeding(ps[0].text, LoopFed(it.node), GroupLedNode(it.node))
    decreases it, 2
  {
    var feed := FeedOf(it.node);
    if feed == "" {
      ItemIsReady(it, more);
    } else {
      HeadIsReady(it, more);
      UnfedIsGood(it, more);
      FedStarts(feed, ItemS(Unfed(it), more), SepText(it.sep));
    }
  }

  /** The statements behind a producer. */
  lemma {:induction false} HeadIsReady(it: Item, more: Statements)
    requires GoodItem(it) && FeedOf(it.node) != ""
    ensures var ps := ItemS(Unfed(it), more);
      && Ready(ps, SepText(it.sep)) && NoFeed(ps[0].text) && FuncHeader(ps[0].text).None?
      && if it.node.Group? then T.First(ps[0].text).OpenBrace? else LeadsWhile(T.First(ps[0].text))
    decreases it, 1
  {
    var sep := SepText(it.sep);
    match it.node
    case Group(_, body) =>
      var end := Close(CloseBrace, it.tail, more);
      GroupIsReady(sep, body, it.tail, more);
      BodyIsReady(body, end);
      CommandOpens(OpenBrace, ListS(body, end)[0].text);
    case Loop(until, cond, body, input, _) =>
      var end := DoS(body, LoopEnd(input, it.tail), more);
      BodyIsReady(cond, end);
      ReadyOpens(sep, if until then Until else While, ListS(cond, end));
      CommandOpens(if until then Until else While, ListS(cond, end)[0].text);
      LedByKeyword(if until then Until else While, ListS(cond, end)[0].text);
  }

  lemma {:induction false} FedStarts(feed: string, ps: Statements, sep: string)
    requires FeedText(feed) && Ready(ps, sep) && NoFeed(ps[0].text)
    ensures Startable(Fed(feed, ps), sep)
    ensures Feeding(Fed(feed, ps)[0].text, LeadsWhile(T.First(ps[0].text)), true)
  {
    var loop := ps[0].text;
    FedSolid(feed, loop);
    FedFirst(feed, After(['|'], loop));
    FeedIsNoLoop(loop);
    if !LeadsWhile(T.First(loop)) {
      FedNoLoop(feed, loop);
    }
  }

  lemma {:induction false} ChainIsReady(branches: seq<Branch>, end: Statements)
    requires branches != [] && GoodBranches(branches) && end != []
    ensures var ps, cond := ChainS(branches, end), branches[0].cond;
      Startable(ps, "") && Feeding(ps[0].text, LoopLed(cond), GroupLed(cond))
    decreases branches, 0
  {
    var body := ListS(branches[0].body, BranchesS(SEMI, Elif, branches[1..], end));
    BodyIsReady(branches[0].cond, Led(SEMI, Spelling(Then), body));
  }

  lemma {:induction false} GroupIsReady(sep: string, body: seq<Item>, tail: string, more: Statements)
    requires GoodList(body) && !LoopLed(body)
    ensures var ps := GroupS(sep, body, tail, more);
      Ready(ps, sep) && T.First(ps[0].text).OpenBrace? && (!GroupLed(body) ==> NoFeed(ps[0].text))
    decreases body, 1
  {
    var end := Close(CloseBrace, tail, more);
    BodyIsReady(body, end);
    ReadyOpens(sep, OpenBrace, ListS(body, end));
    LedByKeyword(OpenBrace, ListS(body, end)[0].text);
  }

  lemma {:induction false} ForIsReady(sep: string, name: string, words: seq<string>, more: Statements)
    requires Bare(name) && GoodWords(words)
    ensures var text := Suffixed(IN, JoinGap(words));
      && Tame(After(name, text)) && NoFeed(After(name, text))
      && Ready([St(sep, After(Spelling(Keyword.For), After(name, text)))] + more, sep)
      && NoFeed(After(Spelling(Keyword.For), After(name, text)))
  {
    var text := Suffixed(IN, JoinGap(words));
    GapSolid(words);
    SolidAfter(IN, JoinGap(words));
    WordOpens(name, text);
    StatementOpens(sep, Keyword.For, After(name, text), more);
  }

  lemma {:induction false} FuncIsReady(sep: string, name: string, ps: Statements)
    requires FuncName(name) && Ready(ps, []) && NoFeed(ps[0].text)
    ensures Ready(Led(sep, name + PARENS, ps), sep) && NoFeed(Led(sep, name + PARENS, ps)[0].text)
  {
    FuncNameUnbroken(name);
    LedByParen(name + PARENS, ps[0].text);
    NoFeedAfter(name + PARENS, ps[0].text);
    NoLoopAfter(name + PARENS, ps[0].text);
  }

  // ----- one step from a ready statement list -----

  lemma {:induction false} ListStep(ps: Statements, stop: Stop, sep: Sep, it: Item, items: seq<Item>, rest: Statements,
      more: Statements)
    requires Startable(ps, SepText(sep)) && ItemP(ps) == Parsed(it, rest) && ListP(rest, stop) == Parsed(items, more)
    ensures ListP(ps, stop) == Parsed([it] + items, more)
  {
  }

  lemma {:induction false} CommandStep(ps: Statements, sep: string)
    requires Ready(ps, sep) && FuncHeader(ps[0].text).None?
    ensures InnerP(ps) == CommandP(ps)
  {
    NotFed(ps[0].text);
  }

  lemma {:induction false} SepComesBack(sep: Sep)
    ensures SepOf(SepText(sep)) == sep
  {
  }

  /** A command whose keyword stands in front of a list. */
  lemma {:induction false} LedCommand(sep: Sep, k: Keyword, ps: Statements)
    requires Opens(k) && Startable(ps, "") && Tame(ps[0].text)
    ensures var led := Led(SepText(sep), Spelling(k), ps);
      && InnerP(led) == CommandP(led) && T.First(led[0].text) == k && SepOf(led[0].sep) == sep
      && SplitKeyword(led[0].text) == (Spelling(k), ps[0].text) && Advance(led, ps[0].text) == ps
  {
    var led := Led(SepText(sep), Spelling(k), ps);
    ReadyOpens(SepText(sep), k, ps);
    CommandOpens(k, ps[0].text);
    CommandStep(led, SepText(sep));
    LedByKeyword(k, ps[0].text);
    AdvanceLed(SepText(sep), Spelling(k), ps);
    SepComesBack(sep);
  }

  /** A command whose keyword stands in a statement of its own. */
  lemma {:induction false} StatementCommand(sep: Sep, k: Keyword, text: string, more: Statements)
    requires Opens(k) && Tame(text) && NoFeed(text)
    ensures var ps := [St(SepText(sep), After(Spelling(k), text))] + more;
      && InnerP(ps) == CommandP(ps) && T.First(ps[0].text) == k && SepOf(ps[0].sep) == sep
      && SplitKeyword(ps[0].text) == (Spelling(k), text) && ps[1..] == more
  {
    var ps := [St(SepText(sep), After(Spelling(k), text))] + more;
    StatementOpens(SepText(sep), k, text, more);
    CommandOpens(k, text);
    CommandStep(ps, SepText(sep));
    LedByKeyword(k, text);
    SepComesBack(sep);
  }

  lemma {:induction false} CompoundStep(ps: Statements, k: Keyword, text: string, r: Parsed<Item>)
    requires ps != [] && Opens(k) && T.First(ps[0].text) == k && SplitKeyword(ps[0].text).1 == text
    requires (text == "" || |text| < |ps[0].text|) && CompoundP(ps, k, SepOf(ps[0].sep), text) == r
    ensures CommandP(ps) == r
  {
  }

  lemma {:induction false} GroupPartsStep(ps: Statements, sep: Sep, text: string, inner: Statements, body: seq<Item>,
      end: Statements, rest: Statements)
    requires ps != [] && (text == "" || |text| < |ps[0].text|) && Advance(ps, text) == inner
    requires NonEmptyP(inner, AtBrace) == Parsed(body, end) && Expect(end, CloseBrace) == Parsed((), rest)
    ensures GroupP(ps, sep, text) == Parsed(Item(sep, Group("", body), ""), rest)
  {
  }

  lemma {:induction false} GroupStep(ps: Statements, text: string, r: Parsed<Item>)
    requires ps != [] && T.First(ps[0].text).OpenBrace? && SplitKeyword(ps[0].text).1 == text
    requires (text == "" || |text| < |ps[0].text|) && GroupP(ps, SepOf(ps[0].sep), text) == r
    ensures CommandP(ps) == r
  {
    assert CompoundP(ps, Keyword.OpenBrace, SepOf(ps[0].sep), text) == r;
    CompoundStep(ps, Keyword.OpenBrace, text, r);
  }

  lemma {:induction false} IfPartsStep(ps: Statements, sep: Sep, text: string, inner: Statements, node: Node,
      rest: Statements)
    requires ps != [] && (text == "" || |text| < |ps[0].text|) && Advance(ps, text) == inner
    requires BranchesP(inner) == Parsed(node, rest)
    ensures IfP(ps, sep, text) == Parsed(Item(sep, node, ""), rest)
  {
  }

  lemma {:induction false} IfStep(ps: Statements, text: string, r: Parsed<Item>)
    requires ps != [] && T.First(ps[0].text).If? && SplitKeyword(ps[0].text).1 == text
    requires (text == "" || |text| < |ps[0].text|) && IfP(ps, SepOf(ps[0].sep), text) == r
    ensures CommandP(ps) == r
  {
    assert CompoundP(ps, Keyword.If, SepOf(ps[0].sep), text) == r;
    CompoundStep(ps, Keyword.If, text, r);
  }

  lemma {:induction false} BranchStep(ps: Statements, branch: Branch, then_: Statements, inner: Statements,
      rest: Statements)
    requires NonEmptyP(ps, AtThen) == Parsed(branch.cond, then_) && Expect(then_, Then) == Parsed((), inner)
    requires NonEmptyP(inner, AtBranch) == Parsed(branch.body, rest) && rest != []
    ensures BranchesP(ps) == AfterBranchP(branch, rest)
  {
  }

  lemma {:induction false} ElifStep(branch: Branch, ps: Statements, inner: Statements, branches: seq<Branch>,
      elseBody: seq<Item>, rest: Statements)
    requires ps != [] && T.First(ps[0].text).Elif? && Advance(ps, SplitKeyword(ps[0].text).1) == inner
    requires BranchesP(inner) == Parsed(Node.If(branches, elseBody), rest)
    ensures AfterBranchP(branch, ps) == Parsed(Node.If([branch] + branches, elseBody), rest)
  {
  }

  lemma {:induction false} LoopStep(ps: Statements, until: bool, inner: Statements, r: Parsed<Item>)
    requires ps != [] && Advance(ps, SplitKeyword(ps[0].text).1) == inner
    requires T.First(ps[0].text) == if until then Until else While
    requires LoopP(inner, SepOf(ps[0].sep), until) == r
    ensures CommandP(ps) == r
  {
    var k, text := if until then Until else While, SplitKeyword(ps[0].text).1;
    assert CompoundP(ps, k, SepOf(ps[0].sep), text) == r;
    CompoundStep(ps, k, text, r);
  }

  lemma {:induction false} LoopPartsStep(ps: Statements, sep: Sep, until: bool, cond: seq<Item>, do_: Statements,
      inner: Statements, body: seq<Item>, end: Statements)
    requires NonEmptyP(ps, AtDo) == Parsed(cond, do_) && Expect(do_, Do) == Parsed((), inner)
    requires NonEmptyP(inner, AtDone) == Parsed(body, end) && end != []
    ensures LoopP(ps, sep, until) == EndLoopP(end, sep, until, cond, body)
  {
  }

  lemma {:induction false} ForStep(ps: Statements, text: string, r: Parsed<Item>)
    requires ps != [] && T.First(ps[0].text).For? && SplitKeyword(ps[0].text).1 == text
    requires (text == "" || |text| < |ps[0].text|) && ForP(ps, SepOf(ps[0].sep), text) == r
    ensures CommandP(ps) == r
  {
    assert CompoundP(ps, Keyword.For, SepOf(ps[0].sep), text) == r;
    CompoundStep(ps, Keyword.For, text, r);
  }

  lemma {:induction false} DoStep(ps: Statements, inner: Statements, body: seq<Item>, end: Statements, more: Statements)
    requires Expect(ps, Do) == Parsed((), inner) && NonEmptyP(inner, AtDone) == Parsed(body, end)
    requires Expect(end, Done) == Parsed((), more)
    ensures DoP(ps) == Parsed(body, more)
  {
  }

  lemma {:induction false} ForPartsStep(ps: Statements, sep: Sep, text: string, name: string, rest: string,
      in_: string, list: string, body: seq<Item>, more: Statements)
    requires ps != [] && RawWord(text) == (name, rest) && name != ""
    requires SplitKeyword(rest) == (in_, list) && in_ == IN && DoP(ps[1..]) == Parsed(body, more)
    ensures ForP(ps, sep, text) == Parsed(Item(sep, Node.For(name, RawWords(list), body), ""), more)
  {
  }

  lemma {:induction false} CaseWordStep(ps: Statements, text: string, r: Parsed<Item>)
    requires ps != [] && T.First(ps[0].text).Case? && SplitKeyword(ps[0].text).1 == text
    requires (text == "" || |text| < |ps[0].text|) && CaseP(ps, SepOf(ps[0].sep), text) == r
    ensures CommandP(ps) == r
  {
    assert CompoundP(ps, Keyword.Case, SepOf(ps[0].sep), text) == r;
    CompoundStep(ps, Keyword.Case, text, r);
  }

  lemma {:induction false} CasePartsStep(ps: Statements, sep: Sep, text: string, word: string, rest: string,
      in_: string, arms: seq<Arm>, more: Statements)
    requires ps != [] && (text == "" || |text| < |ps[0].text|)
    requires RawWord(text) == (word, rest) && word != "" && SplitKeyword(rest) == (in_, "") && in_ == IN
    requires ArmsP(ps[1..]) == Parsed(arms, more)
    ensures CaseP(ps, sep, text) == Parsed(Item(sep, Node.Case(word, arms), ""), more)
  {
  }

  lemma {:induction false} FuncStep(ps: Statements, name: string, text: string, inner: Statements, body: seq<Item>,
      rest: Statements)
    requires ps != [] && ps[0].text != "" && ps[0].text[0] != '(' && SplitFeed(ps[0].text).None?
    requires FuncHeader(ps[0].text) == Some((name, text)) && text != "" && [ps[0].(text := text)] + ps[1..] == inner
    requires InnerP(inner) == Parsed(Item(SepOf(ps[0].sep), Group("", body), ""), rest)
    ensures InnerP(ps) == Parsed(Item(SepOf(ps[0].sep), Func(name, body), ""), rest)
  {
  }

  // ----- what was printed is parsed back -----

  lemma {:induction false} ListParses(items: seq<Item>, more: Statements, stop: Stop)
    requires GoodItems(items) && Halts(more, stop)
    ensures ListP(ListS(items, more), stop) == Parsed(items, more)
    decreases items, 0
  {
    if items != [] {
      var rest := ListS(items[1..], more);
      TailIsNoPipe(items[1..], more);
      ItemStarts(items[0], rest);
      ItemParses(items[0], rest);
      ListParses(items[1..], more, stop);
      ListStep(ListS(items, more), stop, items[0].sep, items[0], items[1..], rest, more);
      HeadAndTail(items);
    }
  }

  lemma {:induction false} HeadAndTail<A>(s: seq<A>)
    requires s != []
    ensures [s[0]] + s[1..] == s
  {
  }

  lemma {:induction false} TailIsNoPipe(items: seq<Item>, more: Statements)
    requires GoodItems(items) && NoPipe(more)
    ensures NoPipe(ListS(items, more))
  {
    if items != [] {
      ItemStarts(items[0], ListS(items[1..], more));
      SolidIsNoPipe(ListS(items, more));
    }
  }

  lemma {:induction false} BodyParses(body: seq<Item>, more: Statements, stop: Stop)
    requires GoodList(body) && Halts(more, stop)
    ensures NonEmptyP(ListS(body, more), stop) == Parsed(body, more)
    decreases body, 1
  {
    ListParses(body, more, stop);
  }

  /** A compound command, and the rest of its pipeline. */
  lemma {:induction false} ItemParses(it: Item, more: Statements)
    requires GoodItem(it) && NoPipe(more)
    ensures ItemP(ItemS(it, more)) == Parsed(it, more)
    decreases it, 3
  {
    FedParses(it, more);
    GoodTail(it);
    ItemStep(ItemS(it, more), it, more);
  }

  /** The item without its producer, and the producer put back. */
  lemma {:induction false} FedParses(it: Item, more: Statements)
    requires GoodItem(it)
    ensures InnerP(ItemS(it, more)) == Parsed(it.(tail := ""), Rest(it.tail, more))
    decreases it, 2
  {
    if FeedOf(it.node) == "" {
      InnerParses(it, more);
    } else {
      var u := Unfed(it);
      UnfedIsGood(it, more);
      HeadIsReady(it, more);
      if it.node.Group? {
        GroupParses(it.sep, it.node.gbody, it.tail, more);
      } else {
        LoopParses(it, more);
      }
      FedStep(FeedOf(it.node), ItemS(u, more), SepText(it.sep), u.(tail := ""), Rest(it.tail, more));
    }
  }

  lemma {:induction false} FedStep(feed: string, ps: Statements, sep: string, it: Item, rest: Statements)
    requires FeedText(feed) && Ready(ps, sep) && NoFeed(ps[0].text) && LeadsLoop(T.First(ps[0].text))
    requires InnerP(ps) == Parsed(it, rest)
    ensures InnerP(Fed(feed, ps)) == Parsed(it.(node := WithFeed(it.node, feed)), rest)
  {
    FedIsSplit(feed, ps[0].text);
    FedInner(feed, ps);
    InnerFed(Fed(feed, ps), feed, ps[0].text, ps, it, rest);
  }

  lemma {:induction false} FedInner(feed: string, ps: Statements)
    requires ps != [] && feed != ""
    ensures var all := Fed(feed, ps);
      all[0].text == FedText(feed, ps[0].text) && [all[0].(text := ps[0].text)] + all[1..] == ps
  {
  }

  lemma {:induction false} InnerFed(ps: Statements, feed: string, loop: string, inner: Statements, it: Item,
      rest: Statements)
    requires ps != [] && SplitFeed(ps[0].text) == Some((feed, loop)) && [ps[0].(text := loop)] + ps[1..] == inner
    requires InnerP(inner) == Parsed(it, rest)
    ensures InnerP(ps) == Parsed(it.(node := WithFeed(it.node, feed)), rest)
  {
  }

  lemma {:induction false} GoodTail(it: Item)
    requires GoodItem(it)
    ensures TailOk(it.tail) && (it.node.Simple? ==> it.tail == "") && !it.node.Subshell?
  {
  }

  lemma {:induction false} ItemStep(ps: Statements, it: Item, more: Statements)
    requires ps != [] && InnerP(ps) == Parsed(it.(tail := ""), Rest(it.tail, more)) && NoPipe(more)
    requires TailOk(it.tail) && (it.node.Simple? ==> it.tail == "") && !it.node.Subshell?
    ensures ItemP(ps) == Parsed(it, more)
  {
    TrimSolid(it.tail);
    if it.tail != "" {
      assert Rest(it.tail, more)[1..] == more;
    }
  }

  lemma {:induction false} InnerParses(it: Item, more: Statements)
    requires GoodItem(it) && FeedOf(it.node) == ""
    ensures InnerP(ItemS(it, more)) == Parsed(it.(tail := ""), Rest(it.tail, more))
    decreases it, 1
  {
    match it.node
    case Simple(text) => SimpleParses(it.sep, text, more);
    case If(_, _) => IfParses(it, more);
    case Group(_, body) => GroupParses(it.sep, body, it.tail, more);
    case Case(word, arms) => CaseParses(it.sep, word, arms, it.tail, more);
    case For(name, words, body) => ForParses(it.sep, name, words, body, it.tail, more);
    case Loop(_, _, _, _, _) => LoopParses(it, more);
    case Subshell(_) =>
    case Func(name, body) => FuncParses(it.sep, name, body, it.tail, more);
  }

  lemma {:induction false} SimpleParses(sep: Sep, text: string, more: Statements)
    requires PlainText(text)
    ensures InnerP([St(SepText(sep), text)] + more) == Parsed(Item(sep, Simple(text), ""), more)
  {
    var ps := [St(SepText(sep), text)] + more;
    CommandStep(ps, SepText(sep));
    SepComesBack(sep);
    assert ps[1..] == more;
  }

  lemma {:induction false} GroupParses(sep: Sep, body: seq<Item>, tail: string, more: Statements)
    requires GoodList(body) && !LoopLed(body) && TailOk(tail)
    ensures InnerP(GroupS(SepText(sep), body, tail, more)) == Parsed(Item(sep, Group("", body), ""), Rest(tail, more))
    decreases body, 2
  {
    var end := Close(CloseBrace, tail, more);
    BodyIsReady(body, end);
    var inner := ListS(body, end);
    LedCommand(sep, OpenBrace, inner);
    CloseIsRead(CloseBrace, tail, more, AtBrace);
    BodyParses(body, end, AtBrace);
    var ps := Led(SepText(sep), Spelling(OpenBrace), inner);
    GroupPartsStep(ps, sep, inner[0].text, inner, body, end, Rest(tail, more));
    GroupStep(ps, inner[0].text, Parsed(Item(sep, Group("", body), ""), Rest(tail, more)));
  }

  /** The end of an `if` is read after any branch. */
  ghost predicate EndsIf(end: Statements, elseBody: seq<Item>, rest: Statements) {
    && end != [] && Halts(end, AtBranch)
    && forall branch :: AfterBranchP(branch, end) == Parsed(Node.If([branch], elseBody), rest)
  }

  lemma {:induction false} IfParses(it: Item, more: Statements)
    requires GoodItem(it) && it.node.If?
    ensures InnerP(ItemS(it, more)) == Parsed(it.(tail := ""), Rest(it.tail, more))
    decreases it, 0
  {
    var branches, elseBody := it.node.branches, it.node.elseBody;
    var end := ElseS(elseBody, it.tail, more);
    var chain := ChainS(branches, end);
    ChainIsReady(branches, end);
    LedCommand(it.sep, Keyword.If, chain);
    ElseParses(elseBody, it.tail, more);
    ChainParses(branches, end, elseBody, Rest(it.tail, more));
    var ps := Led(SepText(it.sep), Spelling(Keyword.If), chain);
    IfPartsStep(ps, it.sep, chain[0].text, chain, it.node, Rest(it.tail, more));
    IfStep(ps, chain[0].text, Parsed(it.(tail := ""), Rest(it.tail, more)));
  }

  lemma {:induction false} ChainParses(branches: seq<Branch>, end: Statements, elseBody: seq<Item>, rest: Statements)
    requires branches != [] && GoodBranches(branches) && EndsIf(end, elseBody, rest)
    ensures BranchesP(ChainS(branches, end)) == Parsed(Node.If(branches, elseBody), rest)
    decreases branches, 2
  {
    var after := BranchesS(SEMI, Elif, branches[1..], end);
    var body := ListS(branches[0].body, after);
    BodyIsReady(branches[0].body, after);
    LedIsRead(Then, body, AtThen);
    BodyParses(branches[0].cond, Led(SEMI, Spelling(Then), body), AtThen);
    AfterBranchParses(branches, end, elseBody, rest);
    BodyParses(branches[0].body, after, AtBranch);
    BranchStep(ChainS(branches, end), branches[0], Led(SEMI, Spelling(Then), body), body, after);
  }

  /** `elif`, `else` or `fi` after the first branch. */
  lemma {:induction false} AfterBranchParses(branches: seq<Branch>, end: Statements, elseBody: seq<Item>,
      rest: Statements)
    requires branches != [] && GoodBranches(branches) && EndsIf(end, elseBody, rest)
    ensures var after := BranchesS(SEMI, Elif, branches[1..], end);
      Halts(after, AtBranch) && AfterBranchP(branches[0], after) == Parsed(Node.If(branches, elseBody), rest)
    decreases branches, 1
  {
    HeadAndTail(branches);
    if branches[1..] != [] {
      ChainIsReady(branches[1..], end);
      LedIsRead(Elif, ChainS(branches[1..], end), AtBranch);
      ChainParses(branches[1..], end, elseBody, rest);
      ElifStep(branches[0], Led(SEMI, Spelling(Elif), ChainS(branches[1..], end)), ChainS(branches[1..], end),
        branches[1..], elseBody, rest);
    } else {
      assert branches == [branches[0]];
    }
  }

  lemma {:induction false} ElseParses(elseBody: seq<Item>, tail: string, more: Statements)
    requires (elseBody == [] || GoodList(elseBody)) && TailOk(tail)
    ensures EndsIf(ElseS(elseBody, tail, more), elseBody, Rest(tail, more))
    decreases elseBody, 2
  {
    var end := Close(Fi, tail, more);
    CloseIsRead(Fi, tail, more, AtBranch);
    CloseIsRead(Fi, tail, more, AtFi);
    if elseBody != [] {
      BodyIsReady(elseBody, end);
      LedIsRead(Else, ListS(elseBody, end), AtBranch);
      BodyParses(elseBody, end, AtFi);
    }
  }

  /** `do body; done end`: the end is read by whoever printed it. */
  lemma {:induction false} DoParses(body: seq<Item>, end: string, more: Statements)
    requires GoodList(body) && (end == "" || Solid(end))
    ensures Halts(DoS(body, end, more), AtDo)
    ensures var ps := ListS(body, Close(Done, end, more));
      Expect(DoS(body, end, more), Do) == Parsed((), ps)
      && NonEmptyP(ps, AtDone) == Parsed(body, Close(Done, end, more))
    decreases body, 2
  {
    var close := Close(Done, end, more);
    BodyIsReady(body, close);
    LedIsRead(Do, ListS(body, close), AtDo);
    CloseIsRead(Done, end, more, AtDone);
    BodyParses(body, close, AtDone);
  }

  lemma {:induction false} ForParses(sep: Sep, name: string, words: seq<string>, body: seq<Item>, tail: string,
      more: Statements)
    requires Bare(name) && GoodWords(words) && GoodList(body) && TailOk(tail)
    ensures InnerP([St(SepText(sep), After(Spelling(Keyword.For), After(name, Suffixed(IN, JoinGap(words)))))] +
      DoS(body, tail, more))
      == Parsed(Item(sep, Node.For(name, words, body), ""), Rest(tail, more))
    decreases body, 3
  {
    var text := Suffixed(IN, JoinGap(words));
    ForIsReady(SepText(sep), name, words, DoS(body, tail, more));
    StatementCommand(sep, Keyword.For, After(name, text), DoS(body, tail, more));
    ForWordsAreRead(name, words);
    DoParses(body, tail, more);
    CloseIsRead(Done, tail, more, AtDone);
    var end := Close(Done, tail, more);
    var ps := [St(SepText(sep), After(Spelling(Keyword.For), After(name, text)))] + DoS(body, tail, more);
    DoStep(DoS(body, tail, more), ListS(body, end), body, end, Rest(tail, more));
    ForPartsStep(ps, sep, After(name, text), name, text, IN, JoinGap(words), body, Rest(tail, more));
    ForStep(ps, After(name, text), Parsed(Item(sep, Node.For(name, words, body), ""), Rest(tail, more)));
  }

  lemma {:induction false} ForWordsAreRead(name: string, words: seq<string>)
    requires Bare(name) && GoodWords(words)
    ensures var text := Suffixed(IN, JoinGap(words));
      RawWord(After(name, text)) == (name, text) && SplitKeyword(text) == (IN, JoinGap(words)) &&
        RawWords(JoinGap(words)) == words
  {
    GapSolid(words);
    SolidAfter(IN, JoinGap(words));
    RawWordIs(name, Suffixed(IN, JoinGap(words)));
    KeywordIsRead(IN, JoinGap(words));
    WordsAreRead(words);
  }

  lemma {:induction false} LoopParses(it: Item, more: Statements)
    requires GoodItem(it) && it.node.Loop?
    ensures InnerP(ItemS(Unfed(it), more)) == Parsed(Unfed(it).(tail := ""), Rest(it.tail, more))
    decreases it, 0
  {
    var Loop(until, cond, body, input, _) := it.node;
    var end := LoopEnd(input, it.tail);
    InputIsRead(input, it.tail);
    DoParses(body, end, more);
    LoopListParses(it.sep, until, cond, body, end, more);
    LoopEnds(it.sep, until, cond, body, input, it.tail, more);
  }

  lemma {:induction false} LoopListParses(sep: Sep, until: bool, cond: seq<Item>, body: seq<Item>, end: string,
      more: Statements)
    requires GoodList(cond) && !LoopLed(cond) && Halts(DoS(body, end, more), AtDo)
    requires Expect(DoS(body, end, more), Do) == Parsed((), ListS(body, Close(Done, end, more)))
    requires NonEmptyP(ListS(body, Close(Done, end, more)), AtDone) == Parsed(body, Close(Done, end, more))
    ensures var led := Led(SepText(sep), Spelling(if until then Until else While), ListS(cond, DoS(body, end, more)));
      InnerP(led) == EndLoopP(Close(Done, end, more), sep, until, cond, body)
    decreases cond, 2
  {
    var k, do_, close := if until then Until else While, DoS(body, end, more), Close(Done, end, more);
    var inner := ListS(cond, do_);
    BodyIsReady(cond, do_);
    LedCommand(sep, k, inner);
    BodyParses(cond, do_, AtDo);
    LoopPartsStep(inner, sep, until, cond, do_, ListS(body, close), body, close);
    LoopStep(Led(SepText(sep), Spelling(k), inner), until, inner, EndLoopP(close, sep, until, cond, body));
  }

  lemma {:induction false} InputIsRead(input: string, tail: string)
    requires (input == "" || Bare(input)) && TailOk(tail)
    ensures var end := LoopEnd(input, tail);
      && (end == "" || Solid(end))
      && (if input == "" then end == tail else end != "" && end[0] == '<' && InputOf(end) == (input, tail))
  {
    if input != "" {
      var text := Suffixed(input, tail);
      assert BareChar(input[0]) && BareChar(input[|input| - 1]);
      SolidAfter(input, tail);
      SolidAfter(['<'], text);
      AfterIs(['<'], text);
      assert LoopEnd(input, tail)[1..] == [' '] + text;
      TrimBlank(text);
      RawWordIs(input, tail);
    }
  }

  lemma {:induction false} LoopEnds(sep: Sep, until: bool, cond: seq<Item>, body: seq<Item>, input: string,
      tail: string, more: Statements)
    requires (input == "" || Bare(input)) && TailOk(tail)
    ensures EndLoopP(Close(Done, LoopEnd(input, tail), more), sep, until, cond, body)
      == Parsed(Item(sep, Loop(until, cond, body, input, ""), ""), Rest(tail, more))
  {
    InputIsRead(input, tail);
    CloseIsRead(Done, LoopEnd(input, tail), more, AtDone);
    assert Close(Done, LoopEnd(input, tail), more)[1..] == more;
  }

  lemma {:induction false} FuncParses(sep: Sep, name: string, body: seq<Item>, tail: string, more: Statements)
    requires FuncName(name) && GoodList(body) && !LoopLed(body) && !GroupLed(body) && TailOk(tail)
    ensures InnerP(Led(SepText(sep), name + PARENS, GroupS([], body, tail, more)))
      == Parsed(Item(sep, Func(name, body), ""), Rest(tail, more))
    decreases body, 3
  {
    var group := GroupS([], body, tail, more);
    var ps := Led(SepText(sep), name + PARENS, group);
    var inner := GroupS(SepText(sep), body, tail, more);
    GroupIsReady([], body, tail, more);
    FuncIsReady(SepText(sep), name, group);
    NotFed(ps[0].text);
    HeaderIs(name, group[0].text);
    assert [ps[0].(text := group[0].text)] + ps[1..] == inner;
    GroupParses(sep, body, tail, more);
    SepComesBack(sep);
    FuncStep(ps, name, group[0].text, inner, body, Rest(tail, more));
  }

  // ----- the arms of a case -----

  lemma {:induction false} CaseParses(sep: Sep, word: string, arms: seq<Arm>, tail: string, more: Statements)
    requires Bare(word) && GoodArms(arms) && TailOk(tail)
    ensures InnerP([St(SepText(sep), After(Spelling(Keyword.Case), After(word, IN)))] + ArmsS(SEMI, arms, tail, more))
      == Parsed(Item(sep, Node.Case(word, arms), ""), Rest(tail, more))
    decreases arms, 3
  {
    ArmsParse(SEMI, arms, tail, more);
    CaseHeadParses(sep, word, ArmsS(SEMI, arms, tail, more), arms, Rest(tail, more));
  }

  lemma {:induction false} CaseWordIsRead(word: string)
    requires Bare(word)
    ensures var text := After(word, IN);
      Tame(text) && NoFeed(text) && RawWord(text) == (word, IN) && SplitKeyword(IN) == (IN, "")
  {
    WordOpens(word, IN);
    RawWordIs(word, IN);
    KeywordIsRead(IN, "");
  }

  lemma {:induction false} CaseHeadParses(sep: Sep, word: string, ps: Statements, arms: seq<Arm>, rest: Statements)
    requires Bare(word) && ArmsP(ps) == Parsed(arms, rest)
    ensures InnerP([St(SepText(sep), After(Spelling(Keyword.Case), After(word, IN)))] + ps)
      == Parsed(Item(sep, Node.Case(word, arms), ""), rest)
  {
    var text := After(word, IN);
    var all := [St(SepText(sep), After(Spelling(Keyword.Case), text))] + ps;
    CaseWordIsRead(word);
    StatementCommand(sep, Keyword.Case, text, ps);
    CasePartsStep(all, sep, text, word, IN, IN, arms, rest);
    CaseWordStep(all, text, Parsed(Item(sep, Node.Case(word, arms), ""), rest));
  }

  /** A statement that starts an arm of a `case`. */
  predicate ReadsArm(s: string, patterns: seq<string>, t: string) {
    T.First(s).Other? && Solid(s) && s[0] != '|' && ArmHead(s) == Some((patterns, t))
  }

  lemma {:induction false} ArmIsRead(patterns: seq<string>, t: string)
    requires patterns != [] && GoodWords(patterns) && (t == "" || Solid(t))
    ensures ReadsArm(Suffixed(ArmText(patterns), t), patterns, t)
  {
    var w, bars := ArmText(patterns), JoinBar(patterns);
    var s := Suffixed(w, t);
    BarsAreClean(patterns);
    assert BareChar(patterns[0][0]);
    LedByParen(w, t);
    AfterIs(w, t);
    assert s[|bars|] == w[|bars|] == ')';
    forall k | 0 <= k < |bars| ensures s[k] == bars[k] {
      assert s[k] == w[k];
    }
    CloserIs(s, 0, |bars|);
    assert s[..|bars|] == bars;
    PatternsAreRead(patterns);
    if t == "" {
      assert s[|bars| + 1..] == "";
    } else {
      assert s[|bars| + 1..] == [' '] + t;
      TrimBlank(t);
    }
  }

  lemma {:induction false} CloserIs(s: string, i: nat, j: nat)
    requires i <= j < |s| && s[j] == ')' && forall k :: i <= k < j ==> s[k] != ')'
    ensures Grammar.IndexOf(s, i, ')') == j
    decreases j - i
  {
    if i < j {
      CloserIs(s, i + 1, j);
    }
  }

  lemma {:induction false} ArmsParse(sep: string, arms: seq<Arm>, tail: string, more: Statements)
    requires GoodArms(arms) && TailOk(tail)
    ensures ArmsP(ArmsS(sep, arms, tail, more)) == Parsed(arms, Rest(tail, more))
    decreases arms, 2
  {
    if arms == [] {
      EsacIsRead(sep, tail, more);
    } else {
      var rest := ArmsS(DOUBLE_SEMI, arms[1..], tail, more);
      ArmsHalt(arms[1..], tail, more);
      ArmsParse(DOUBLE_SEMI, arms[1..], tail, more);
      if arms[0].body != [] {
        BodyIsReady(arms[0].body, rest);
      }
      ListParses(arms[0].body, rest, AtEsac);
      ArmStep(sep, arms, ListS(arms[0].body, rest), rest, Rest(tail, more));
    }
  }

  lemma {:induction false} EsacIsRead(sep: string, tail: string, more: Statements)
    requires TailOk(tail)
    ensures ArmsP([St(sep, Suffixed(Spelling(Esac), tail))] + more) == Parsed([], Rest(tail, more))
  {
    LedByKeyword(Esac, tail);
    assert ([St(sep, Suffixed(Spelling(Esac), tail))] + more)[1..] == more;
  }

  /** The next arm, or the `esac`, ends the arm before it. */
  lemma {:induction false} ArmsHalt(arms: seq<Arm>, tail: string, more: Statements)
    requires GoodArms(arms) && TailOk(tail)
    ensures Halts(ArmsS(DOUBLE_SEMI, arms, tail, more), AtEsac)
  {
    var ps := ArmsS(DOUBLE_SEMI, arms, tail, more);
    if arms == [] {
      LedByKeyword(Esac, tail);
    } else {
      var rest := ArmsS(DOUBLE_SEMI, arms[1..], tail, more);
      if arms[0].body == [] {
        ArmIsRead(arms[0].patterns, "");
      } else {
        BodyIsReady(arms[0].body, rest);
        ArmIsRead(arms[0].patterns, ListS(arms[0].body, rest)[0].text);
      }
    }
    SolidIsNoPipe(ps);
  }

  lemma {:induction false} ListedArm(inner: Statements, patterns: seq<string>, body: seq<Item>, rest: Statements,
      arms: seq<Arm>, more: Statements)
    requires ListP(inner, AtEsac) == Parsed(body, rest) && ArmsP(rest) == Parsed(arms, more)
    ensures ArmP(inner, patterns) == Parsed([Arm(patterns, body)] + arms, more)
  {
  }

  lemma {:induction false} PatternStep(ps: Statements, patterns: seq<string>, t: string, r: Parsed<seq<Arm>>)
    requires ps != [] && ReadsArm(ps[0].text, patterns, t) && ArmP(Advance(ps, t), patterns) == r
    ensures ArmsP(ps) == r
  {
  }

  /** One arm: its patterns are read, then its list, then the other arms. */
  lemma {:induction false} ArmStep(sep: string, arms: seq<Arm>, body: Statements, rest: Statements, more: Statements)
    requires GoodArms(arms) && arms != []
    requires if arms[0].body == [] then body == rest else Startable(body, "")
    requires ListP(body, AtEsac) == Parsed(arms[0].body, rest) && ArmsP(rest) == Parsed(arms[1..], more)
    ensures var word := ArmText(arms[0].patterns);
      ArmsP(if arms[0].body == [] then [St(sep, word)] + rest else Led(sep, word, body)) == Parsed(arms, more)
  {
    var word := ArmText(arms[0].patterns);
    var t := if arms[0].body == [] then "" else body[0].text;
    var ps := if arms[0].body == [] then [St(sep, word)] + rest else Led(sep, word, body);
    ArmIsRead(arms[0].patterns, t);
    assert ps[0].text == Suffixed(word, t);
    assert Advance(ps, t) == body by {
      if arms[0].body == [] {
        assert ps[1..] == rest;
      } else {
        AdvanceLed(sep, word, body);
      }
    }
    ListedArm(body, arms[0].patterns, arms[0].body, rest, arms[1..], more);
    PatternStep(ps, arms[0].patterns, t, Parsed([arms[0]] + arms[1..], more));
    HeadAndTail(arms);
  }

  // ----- the whole program -----

  /** The statement list of a tree parses to the tree, and everything is consumed. */
  lemma {:induction false} ProgramComesBack(items: seq<Item>)
    requires GoodItems(items)
    ensures WholeP(ListS(items, [])) == Parsed(items, [])
  {
    ListParses(items, [], AtEnd);
  }
}

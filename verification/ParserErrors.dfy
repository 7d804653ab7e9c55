// What the parser says of programs that are none: a closing word that nothing
// opened, `;;` outside a `case`, and commands that are cut off or empty. The
// program up to there may be anything that can be printed.

module ParserErrors {
  import opened Wrappers
  import opened ShellText
  import opened Scanners
  import opened T = ParserText
  import opened Grammar
  import opened Tree = ShellSyntax
  import opened P = ParserPrinter
  import opened W = ParserWords
  import opened ParserRoundTrip

  // ----- an error behind a list is an error of the list -----

  /** What a list makes of what follows `items`. */
  function Behind(items: seq<Item>, r: Parsed<seq<Item>>): Parsed<seq<Item>> {
    if r.Unexpected? then r else Parsed(items + r.value, r.rest)
  }

  lemma {:induction false} ListGoesOn(items: seq<Item>, more: Statements, stop: Stop)
    requires GoodItems(items) && NoPipe(more)
    ensures ListP(ListS(items, more), stop) == Behind(items, ListP(more, stop))
    decreases |items|
  {
    var r := ListP(more, stop);
    if items == [] {
      BehindNothing(r);
    } else {
      var rest := ListS(items[1..], more);
      TailIsNoPipe(items[1..], more);
      ItemStarts(items[0], rest);
      ItemParses(items[0], rest);
      ListGoesOn(items[1..], more, stop);
      OneItem(ListS(items, more), stop, items[0], rest);
      BehindMore(items, r);
    }
  }

  lemma {:induction false} BehindNothing(r: Parsed<seq<Item>>)
    ensures Behind([], r) == r
  {
    assert r.Parsed? ==> [] + r.value == r.value;
  }

  lemma {:induction false} BehindMore(items: seq<Item>, r: Parsed<seq<Item>>)
    requires items != []
    ensures Behind([items[0]], Behind(items[1..], r)) == Behind(items, r)
  {
    assert r.Parsed? ==> [items[0]] + (items[1..] + r.value) == items + r.value;
  }

  lemma {:induction false} OneItem(ps: Statements, stop: Stop, it: Item, rest: Statements)
    requires Startable(ps, SepText(it.sep)) && ItemP(ps) == Parsed(it, rest)
    ensures ListP(ps, stop) == Behind([it], ListP(rest, stop))
  {
    SeparatorIsNoDouble(it.sep);
    NotReservedStops(T.First(ps[0].text), stop);
  }

  lemma {:induction false} SeparatorIsNoDouble(sep: Sep)
    ensures SepText(sep) != [';', ';']
  {
  }

  lemma {:induction false} NotReservedStops(k: Keyword, stop: Stop)
    requires !Reserved(k)
    ensures !Stops(stop, k)
  {
  }

  /** A program whose last item is an error. */
  lemma {:induction false} ErrorBehind(items: seq<Item>, ps: Statements, sep: Sep, token: string)
    requires GoodItems(items) && Startable(ps, SepText(sep)) && InnerP(ps) == Unexpected(token)
    ensures WholeP(ListS(items, ps)) == Unexpected(token)
  {
    SolidIsNoPipe(ps);
    ListGoesOn(items, ps, AtEnd);
    SeparatorIsNoDouble(sep);
    assert ItemP(ps) == Unexpected(token);
    assert ListP(ps, AtEnd) == Unexpected(token);
  }

  // ----- words out of place -----

  /** `then`, `elif`, `else`, `fi`, `}`, `esac`, `do` and `done` are errors where nothing waits for them. */
  lemma {:induction false} StrayWord(items: seq<Item>, k: Keyword, text: string, more: Statements)
    requires GoodItems(items) && Reserved(k) && (text == "" || Solid(text))
    ensures WholeP(ListS(items, Close(k, text, more))) == Unexpected(Spelling(k))
  {
    var ps := Close(k, text, more);
    LedByKeyword(k, text);
    SolidIsNoPipe(ps);
    ListGoesOn(items, ps, AtEnd);
    assert ListP(ps, AtEnd) == Parsed([], ps);
    assert items + [] == items;
  }

  /** `;;` is an error outside a `case`. */
  lemma {:induction false} StrayDoubleSemi(items: seq<Item>, text: string, more: Statements)
    requires GoodItems(items) && Solid(text) && text[0] != '|'
    ensures WholeP(ListS(items, [St([';', ';'], text)] + more)) == Unexpected(";;")
  {
    var ps := [St([';', ';'], text)] + more;
    SolidIsNoPipe(ps);
    ListGoesOn(items, ps, AtEnd);
  }

  // ----- commands that are cut off -----

  /** A group without its `}`. */
  lemma {:induction false} UnclosedGroup(items: seq<Item>, sep: Sep, body: seq<Item>)
    requires GoodItems(items) && GoodList(body) && !LoopLed(body)
    ensures WholeP(ListS(items, Led(SepText(sep), Spelling(OpenBrace), ListS(body, [])))) == Unexpected("")
  {
    var inner := ListS(body, []);
    var ps := Led(SepText(sep), Spelling(OpenBrace), inner);
    OpensList(sep, OpenBrace, body, []);
    BodyParses(body, [], AtBrace);
    GroupFails(ps, sep, inner[0].text, inner, body);
    GroupStep(ps, inner[0].text, Unexpected(""));
    ErrorBehind(items, ps, sep, "");
  }

  lemma {:induction false} GroupFails(ps: Statements, sep: Sep, text: string, inner: Statements, body: seq<Item>)
    requires ps != [] && (text == "" || |text| < |ps[0].text|) && Advance(ps, text) == inner
    requires NonEmptyP(inner, AtBrace) == Parsed(body, [])
    ensures GroupP(ps, sep, text) == Unexpected("")
  {
  }

  /** A keyword in front of a list is read as the start of its command. */
  lemma {:induction false} OpensList(sep: Sep, k: Keyword, body: seq<Item>, end: Statements)
    requires Opens(k) && GoodList(body) && !LoopLed(body)
    ensures var inner := ListS(body, end);
            var ps := Led(SepText(sep), Spelling(k), inner);
            && inner != [] && Startable(ps, SepText(sep)) && InnerP(ps) == CommandP(ps)
            && T.First(ps[0].text) == k && SepOf(ps[0].sep) == sep
            && SplitKeyword(ps[0].text) == (Spelling(k), inner[0].text) && Advance(ps, inner[0].text) == inner
            && |inner[0].text| < |ps[0].text|
  {
    BodyIsReady(body, end);
    var inner := ListS(body, end);
    LedCommand(sep, k, inner);
    ReadyOpens(SepText(sep), k, inner);
  }

  /** A `while` or `until` without its `do`, or without its `done`. */
  lemma {:induction false} UnclosedLoop(items: seq<Item>, sep: Sep, until: bool, cond: seq<Item>, body: seq<Item>)
    requires GoodItems(items) && GoodList(cond) && !LoopLed(cond) && GoodList(body)
    ensures var k := if until then Until else While;
            var do_ := Led(SEMI, Spelling(Do), ListS(body, []));
            && WholeP(ListS(items, Led(SepText(sep), Spelling(k), ListS(cond, [])))) == Unexpected("")
            && WholeP(ListS(items, Led(SepText(sep), Spelling(k), ListS(cond, do_)))) == Unexpected("")
  {
    NoDo(items, sep, until, cond);
    NoDone(items, sep, until, cond, body);
  }

  lemma {:induction false} NoDo(items: seq<Item>, sep: Sep, until: bool, cond: seq<Item>)
    requires GoodItems(items) && GoodList(cond) && !LoopLed(cond)
    ensures var k := if until then Until else While;
            WholeP(ListS(items, Led(SepText(sep), Spelling(k), ListS(cond, [])))) == Unexpected("")
  {
    var k, inner := if until then Until else While, ListS(cond, []);
    var ps := Led(SepText(sep), Spelling(k), inner);
    OpensList(sep, k, cond, []);
    BodyParses(cond, [], AtDo);
    assert LoopP(inner, sep, until) == Unexpected("");
    LoopStep(ps, until, inner, Unexpected(""));
    ErrorBehind(items, ps, sep, "");
  }

  lemma {:induction false} NoDone(items: seq<Item>, sep: Sep, until: bool, cond: seq<Item>, body: seq<Item>)
    requires GoodItems(items) && GoodList(cond) && !LoopLed(cond) && GoodList(body)
    ensures var k := if until then Until else While;
            WholeP(ListS(items, Led(SepText(sep), Spelling(k), ListS(cond, Led(SEMI, Spelling(Do), ListS(body, []))))))
            == Unexpected("")
  {
    var k, do_ := if until then Until else While, Led(SEMI, Spelling(Do), ListS(body, []));
    var inner := ListS(cond, do_);
    var ps := Led(SepText(sep), Spelling(k), inner);
    BodyIsReady(body, []);
    LedIsRead(Do, ListS(body, []), AtDo);
    OpensList(sep, k, cond, do_);
    BodyParses(cond, do_, AtDo);
    BodyParses(body, [], AtDone);
    LoopFails(inner, sep, until, cond, do_, ListS(body, []), body);
    LoopStep(ps, until, inner, Unexpected(""));
    ErrorBehind(items, ps, sep, "");
  }

  lemma {:induction false} LoopFails(ps: Statements, sep: Sep, until: bool, cond: seq<Item>, do_: Statements,
      inner: Statements, body: seq<Item>)
    requires NonEmptyP(ps, AtDo) == Parsed(cond, do_) && Expect(do_, Do) == Parsed((), inner)
    requires NonEmptyP(inner, AtDone) == Parsed(body, [])
    ensures LoopP(ps, sep, until) == Unexpected("")
  {
  }

  /** An `if` without its `then`, or without its `fi`. */
  lemma {:induction false} UnclosedIf(items: seq<Item>, sep: Sep, cond: seq<Item>, body: seq<Item>)
    requires GoodItems(items) && GoodList(cond) && !LoopLed(cond) && GoodList(body)
    ensures WholeP(ListS(items, Led(SepText(sep), Spelling(Keyword.If), ListS(cond, [])))) == Unexpected("")
    ensures var then_ := Led(SEMI, Spelling(Then), ListS(body, []));
            WholeP(ListS(items, Led(SepText(sep), Spelling(Keyword.If), ListS(cond, then_)))) == Unexpected("")
  {
    NoThen(items, sep, cond);
    NoFi(items, sep, cond, body);
  }

  lemma {:induction false} NoThen(items: seq<Item>, sep: Sep, cond: seq<Item>)
    requires GoodItems(items) && GoodList(cond) && !LoopLed(cond)
    ensures WholeP(ListS(items, Led(SepText(sep), Spelling(Keyword.If), ListS(cond, [])))) == Unexpected("")
  {
    var inner := ListS(cond, []);
    var ps := Led(SepText(sep), Spelling(Keyword.If), inner);
    OpensList(sep, Keyword.If, cond, []);
    BodyParses(cond, [], AtThen);
    assert BranchP(inner) == Unexpected("");
    IfFails(ps, sep, inner[0].text, inner);
    IfStep(ps, inner[0].text, Unexpected(""));
    ErrorBehind(items, ps, sep, "");
  }

  lemma {:induction false} IfFails(ps: Statements, sep: Sep, text: string, inner: Statements)
    requires ps != [] && (text == "" || |text| < |ps[0].text|) && Advance(ps, text) == inner
    requires BranchP(inner) == Unexpected("") || (BranchP(inner).Parsed? && BranchP(inner).rest == [])
    ensures IfP(ps, sep, text) == Unexpected("")
  {
  }

  lemma {:induction false} BranchEnds(ps: Statements, branch: Branch, then_: Statements, inner: Statements)
    requires NonEmptyP(ps, AtThen) == Parsed(branch.cond, then_) && Expect(then_, Then) == Parsed((), inner)
    requires NonEmptyP(inner, AtBranch) == Parsed(branch.body, [])
    ensures BranchP(ps) == Parsed(branch, [])
  {
  }

  lemma {:induction false} NoFi(items: seq<Item>, sep: Sep, cond: seq<Item>, body: seq<Item>)
    requires GoodItems(items) && GoodList(cond) && !LoopLed(cond) && GoodList(body)
    ensures var then_ := Led(SEMI, Spelling(Then), ListS(body, []));
            WholeP(ListS(items, Led(SepText(sep), Spelling(Keyword.If), ListS(cond, then_)))) == Unexpected("")
  {
    var then_ := Led(SEMI, Spelling(Then), ListS(body, []));
    var inner := ListS(cond, then_);
    var ps := Led(SepText(sep), Spelling(Keyword.If), inner);
    BodyIsReady(body, []);
    LedIsRead(Then, ListS(body, []), AtThen);
    OpensList(sep, Keyword.If, cond, then_);
    BodyParses(cond, then_, AtThen);
    BodyParses(body, [], AtBranch);
    BranchEnds(inner, Branch(cond, body), then_, ListS(body, []));
    IfFails(ps, sep, inner[0].text, inner);
    IfStep(ps, inner[0].text, Unexpected(""));
    ErrorBehind(items, ps, sep, "");
  }
}

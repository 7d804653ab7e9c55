// Where a producer may stand. The parser looks for the last pipe that feeds a
// loop or a group before it looks at the first word, so whatever is in front
// of that pipe becomes the producer: a command comes back exactly when nothing
// but its own producer is there.

module ParserProducers {
  import opened Wrappers
  import opened ShellText
  import opened Scanners
  import opened T = ParserText
  import opened Grammar
  import opened Tree = ShellSyntax
  import opened P = ParserPrinter
  import opened W = ParserWords
  import opened R = ParserRoundTrip

  // ----- the producer in the first statement of a list -----

  /** Text that no scanner stops in. */
  predicate Clear(j: string) {
    Solid(j) && forall k :: 0 <= k < |j| ==> Passed(j[k])
  }

  /** A loop or a group that is not fed itself. */
  predicate Unled(t: string) {
    Opening(t) && NoFeed(t) && FuncHeader(t).None? && LeadsLoop(T.First(t))
  }

  /** `t` is a loop or a group that `j | t` feeds. */
  predicate Cutting(j: string, t: string) {
    Clear(j) && Unled(t)
  }

  lemma {:induction false} ClearAfter(k: Keyword, j: string, t: string)
    requires Opens(k) && Clear(j) && Solid(t)
    ensures Clear(After(Spelling(k), j)) && After(Spelling(k), FedText(j, t)) == FedText(After(Spelling(k), j), t)
    ensures StartsCompound(FedText(After(Spelling(k), j), t))
  {
    PassedAfter(k, j);
    Reassociated(Spelling(k), j, After(['|'], t));
    FedIsSolid(j, t);
    LedByKeyword(k, FedText(j, t));
    TrimSolid(After(Spelling(k), FedText(j, t)));
  }

  lemma {:induction false} KeywordText(k: Keyword, sep: string, ps: Statements, i: string, t: string)
    requires Opens(k) && ps != [] && ps[0].text == FedText(i, t) && Cutting(i, t)
    ensures var j, led := After(Spelling(k), i), Led(sep, Spelling(k), ps);
            Cutting(j, t) && led[0].text == FedText(j, t) && StartsCompound(FedText(j, t))
  {
    ClearAfter(k, i, t);
  }

  lemma {:induction false} FedIsSolid(j: string, t: string)
    requires Solid(j) && Solid(t)
    ensures Solid(FedText(j, t)) && FedText(j, t)[0] == j[0]
  {
    SolidAfter(['|'], t);
    SolidAfter(j, After(['|'], t));
  }

  lemma {:induction false} LedText(items: seq<Item>, more: Statements) returns (j: string, t: string)
    requires GoodList(items) && (LoopLed(items) || GroupLed(items))
    ensures Cutting(j, t) && ListS(items, more)[0].text == FedText(j, t)
    ensures LoopLed(items) ==> LeadsWhile(T.First(t))
    decreases items, 0
  {
    var it, rest := items[0], ListS(items[1..], more);
    if FeedOf(it.node) != "" {
      j, t := FeedOf(it.node), ItemS(Unfed(it), rest)[0].text;
      HeadIsReady(it, rest);
      UnfedIsGood(it, rest);
    } else {
      j, t := ItemText(it, rest);
    }
  }

  lemma {:induction false} FirstBranch(branches: seq<Branch>)
    requires branches != [] && GoodBranches(branches)
    ensures GoodList(branches[0].cond)
  {
  }

  /** A command without a producer of its own, but with one behind its keyword. */
  lemma {:induction false} ItemText(it: Item, more: Statements) returns (j: string, t: string)
    requires SoundItem(it) && FeedOf(it.node) == "" && !it.node.Func?
    requires LoopLed(HeadOf(it.node)) || GroupLed(HeadOf(it.node))
    ensures Cutting(j, t) && ItemS(it, more)[0].text == FedText(j, t) && StartsCompound(FedText(j, t))
    ensures LoopLed(HeadOf(it.node)) ==> LeadsWhile(T.First(t))
    decreases it, 0, 1
  {
    match it.node
    case If(_, _) => j, t := IfText(it, more);
    case Group(_, body) =>
      var i: string;
      var end := Close(CloseBrace, it.tail, more);
      i, t := LedText(body, end);
      KeywordText(OpenBrace, SepText(it.sep), ListS(body, end), i, t);
      j := After(Spelling(OpenBrace), i);
    case Loop(_, _, _, _, _) => j, t := LoopText(it, more);
  }

  lemma {:induction false} IfText(it: Item, more: Statements) returns (j: string, t: string)
    requires SoundItem(it) && it.node.If? && (LoopLed(HeadOf(it.node)) || GroupLed(HeadOf(it.node)))
    ensures Cutting(j, t) && ItemS(it, more)[0].text == FedText(j, t) && StartsCompound(FedText(j, t))
    ensures LoopLed(HeadOf(it.node)) ==> LeadsWhile(T.First(t))
    decreases it, 0, 0
  {
    var branches := it.node.branches;
    var end := ElseS(it.node.elseBody, it.tail, more);
    var rest := Led(SEMI, Spelling(Then), ListS(branches[0].body, BranchesS(SEMI, Elif, branches[1..], end)));
    var i: string;
    FirstBranch(branches);
    i, t := LedText(branches[0].cond, rest);
    assert ChainS(branches, end) == ListS(branches[0].cond, rest);
    KeywordText(Keyword.If, SepText(it.sep), ChainS(branches, end), i, t);
    j := After(Spelling(Keyword.If), i);
  }

  lemma {:induction false} LoopText(it: Item, more: Statements) returns (j: string, t: string)
    requires SoundItem(it) && it.node.Loop? && it.node.lfeed == ""
    requires LoopLed(HeadOf(it.node)) || GroupLed(HeadOf(it.node))
    ensures Cutting(j, t) && ItemS(it, more)[0].text == FedText(j, t) && StartsCompound(FedText(j, t))
    ensures LoopLed(HeadOf(it.node)) ==> LeadsWhile(T.First(t))
    decreases it, 0, 0
  {
    var k, rest := if it.node.until then Until else While, DoS(it.node.lbody, LoopEnd(it.node.input, it.tail), more);
    var i: string;
    i, t := LedText(it.node.cond, rest);
    KeywordText(k, SepText(it.sep), ListS(it.node.cond, rest), i, t);
    j := After(Spelling(k), i);
  }

  // ----- the cut -----

  /** The scan gets from the start to `n`, outside quotes and parentheses. */
  predicate Reached(s: string, feeds: seq<bool>, n: nat, cut: Option<nat>)
    requires |feeds| == |s|
  {
    && CutOk(s, FeedScan(n, None, 0, cut))
    && FeedCut(s, feeds, FeedScan(0, None, 0, None)) == FeedCut(s, feeds, FeedScan(n, None, 0, cut))
  }

  /** Of these, the pipe behind `j` is the last one that feeds. */
  predicate LastOf(j: string, t: string, feeds: seq<bool>) {
    && |j| + 1 < |feeds| == |FedText(j, t)| && feeds[|j| + 1]
    && forall i :: |j| + 2 <= i < |feeds| && FedText(j, t)[i] == '|' ==> !feeds[i]
  }

  lemma {:induction false} ReachedIsCut(j: string, t: string, feeds: seq<bool>, cut: Option<nat>)
    requires LastOf(j, t, feeds) && Reached(FedText(j, t), feeds, |j| + 1, cut)
    ensures FeedCut(FedText(j, t), feeds, FeedScan(0, None, 0, None)) == Some(|j| + 1)
  {
    FedAt(j, t);
    CutFromHere(FedText(j, t), feeds, |j| + 1, cut);
  }

  lemma {:induction false} CutIsSplit(j: string, t: string, feeds: seq<bool>)
    requires Solid(j) && Solid(t) && feeds == AllFeeds(FedText(j, t))
    requires FeedCut(FedText(j, t), feeds, FeedScan(0, None, 0, None)) == Some(|j| + 1)
    ensures SplitFeed(FedText(j, t)) == Some((j, t))
  {
    CutText(j, t);
  }

  /** The last pipe: it feeds a loop, or a group where no compound command starts. */
  lemma {:induction false} FeedsLast(j: string, t: string) returns (feeds: seq<bool>)
    requires Solid(t) && NoFeed(t)
    requires LeadsWhile(T.First(t)) || (T.First(t).OpenBrace? && !StartsCompound(FedText(j, t)))
    ensures feeds == AllFeeds(FedText(j, t)) && LastOf(j, t, feeds)
  {
    feeds := AllFeeds(FedText(j, t));
    FedAt(j, t);
    TrimBlank(t);
    FedNoMore(j, t);
  }

  /** Whatever feeds, the cut is behind `j` if nothing behind that pipe does. */
  ghost predicate AlwaysCut(j: string, t: string) {
    forall feeds: seq<bool> :: LastOf(j, t, feeds) ==>
      FeedCut(FedText(j, t), feeds, FeedScan(0, None, 0, None)) == Some(|j| + 1)
  }

  lemma {:induction false} AlwaysCutIsSplit(j: string, t: string)
    requires Solid(j) && Solid(t) && NoFeed(t) && AlwaysCut(j, t)
    requires LeadsWhile(T.First(t)) || (T.First(t).OpenBrace? && !StartsCompound(FedText(j, t)))
    ensures SplitFeed(FedText(j, t)) == Some((j, t))
  {
    var feeds := FeedsLast(j, t);
    CutIsSplit(j, t, feeds);
  }

  /** The characters of `name() i`. */
  lemma {:induction false} HeaderChars(name: string, i: string, t: string)
    requires FuncName(name) && Clear(i)
    ensures var s, j, n := FedText(After(name + PARENS, i), t), After(name + PARENS, i), |name|;
            && n + 2 <= |j| + 1 < |s| && s[n] == '(' && s[n + 1] == ')'
            && (forall k :: 0 <= k < n ==> Passed(s[k])) && (forall k :: n + 2 <= k < |j| + 1 ==> Passed(s[k]))
  {
    var w, j := name + PARENS, After(name + PARENS, i);
    var s := FedText(j, t);
    AfterIs(w, i);
    FedAt(j, t);
    forall k | 0 <= k < |name| ensures Passed(s[k]) {
      assert s[k] == j[k] == w[k] == name[k] && NamePart(name[k]);
    }
    assert s[|name|] == w[|name|] == '(' && s[|name| + 1] == w[|name| + 1] == ')';
    forall k | |w| <= k < |j| + 1 ensures Passed(s[k]) {
      assert k == |w| ==> s[k] == j[k] == ' ';
      assert |w| < k < |j| ==> s[k] == j[k] == j[|w| + 1..][k - (|w| + 1)];
    }
  }

  /** The header of a function: its parentheses close before anything else comes. */
  lemma {:induction false} HeaderIsPassed(name: string, i: string, t: string, feeds: seq<bool>)
    requires FuncName(name) && Clear(i) && |feeds| == |FedText(After(name + PARENS, i), t)|
    ensures Reached(FedText(After(name + PARENS, i), t), feeds, |After(name + PARENS, i)| + 1, None)
  {
    HeaderChars(name, i, t);
    ParensArePassed(FedText(After(name + PARENS, i), t), feeds, |name|, |After(name + PARENS, i)| + 1);
  }

  lemma {:induction false} ParensArePassed(s: string, feeds: seq<bool>, n: nat, m: nat)
    requires n + 2 <= m <= |s| == |feeds| && s[n] == '(' && s[n + 1] == ')'
    requires (forall k :: 0 <= k < n ==> Passed(s[k])) && (forall k :: n + 2 <= k < m ==> Passed(s[k]))
    ensures Reached(s, feeds, m, None)
  {
    PlainScan(s, feeds, 0, n, None);
    ParensPass(s, feeds, n);
    PlainScan(s, feeds, n + 2, m, None);
  }

  lemma {:induction false} ParensPass(s: string, feeds: seq<bool>, i: nat)
    requires i + 1 < |s| == |feeds| && s[i] == '(' && s[i + 1] == ')'
    ensures FeedCut(s, feeds, FeedScan(i, None, 0, None)) == FeedCut(s, feeds, FeedScan(i + 2, None, 0, None))
  {
    assert FeedStep(s, FeedScan(i, None, 0, None), feeds[i]) == FeedScan(i + 1, None, 1, None);
    assert FeedStep(s, FeedScan(i + 1, None, 1, None), feeds[i + 1]) == FeedScan(i + 2, None, 0, None);
  }

  /** The characters of `producer | i`, and that nothing in it stops the scan but its pipe. */
  lemma {:induction false} ProducerChars(feed: string, i: string, t: string)
    requires FeedText(feed) && Clear(i)
    ensures var j, n := FedText(feed, i), |feed| + 1;
            var s := FedText(j, t);
            && n + 2 < |j| < |s| && s[n] == '|' && s[n + 1] == ' '
            && (forall k :: 0 <= k < n ==> Passed(s[k])) && (forall k :: n + 1 <= k < |j| + 1 ==> Passed(s[k]))
  {
    var j, n := FedText(feed, i), |feed| + 1;
    var s := FedText(j, t);
    FedAt(feed, i);
    FedAt(j, t);
    forall k | 0 <= k < n ensures Passed(s[k]) {
      assert s[k] == j[k];
    }
    forall k | n + 1 <= k < |j| + 1 ensures Passed(s[k]) {
      assert n + 1 < k < |j| ==> s[k] == j[k] == j[n + 2..][k - (n + 2)];
    }
  }

  /** A producer: its pipe is another place to cut, until the next one is found. */
  lemma {:induction false} ProducerIsPassed(feed: string, i: string, t: string, feeds: seq<bool>)
    returns (cut: Option<nat>)
    requires FeedText(feed) && Clear(i) && |feeds| == |FedText(FedText(feed, i), t)|
    ensures Reached(FedText(FedText(feed, i), t), feeds, |FedText(feed, i)| + 1, cut)
  {
    ProducerChars(feed, i, t);
    cut := PipeIsPassed(FedText(FedText(feed, i), t), feeds, |feed| + 1, |FedText(feed, i)| + 1);
  }

  lemma {:induction false} PipeIsPassed(s: string, feeds: seq<bool>, n: nat, m: nat) returns (cut: Option<nat>)
    requires n + 1 < m <= |s| == |feeds| && s[n] == '|' && s[n + 1] == ' '
    requires (forall k :: 0 <= k < n ==> Passed(s[k])) && (forall k :: n + 1 <= k < m ==> Passed(s[k]))
    ensures Reached(s, feeds, m, cut)
  {
    PlainScan(s, feeds, 0, n, None);
    cut := if feeds[n] then Some(n) else None;
    assert FeedStep(s, FeedScan(n, None, 0, None), feeds[n]) == FeedScan(n + 1, None, 0, cut);
    PlainScan(s, feeds, n + 1, m, cut);
  }

  // ----- what the parser makes of it -----

  lemma {:induction false} GroupGives(ps: Statements, sep: Sep, text: string, r: Parsed<Item>)
    requires ps != [] && (text == "" || |text| < |ps[0].text|) && GroupP(ps, sep, text) == r && r.Parsed?
    ensures r.value.node.Group?
  {
  }

  lemma {:induction false} LoopGives(ps: Statements, sep: Sep, until: bool, r: Parsed<Item>)
    requires LoopP(ps, sep, until) == r && r.Parsed?
    ensures r.value.node.Loop?
  {
  }

  lemma {:induction false} CompoundGives(ps: Statements, k: Keyword, sep: Sep, text: string, r: Parsed<Item>)
    requires ps != [] && LeadsLoop(k) && (text == "" || |text| < |ps[0].text|)
    requires CompoundP(ps, k, sep, text) == r && r.Parsed?
    ensures r.value.node.Group? || r.value.node.Loop?
  {
    match k
    case OpenBrace => GroupGives(ps, sep, text, GroupP(ps, sep, text));
    case While => LoopGives(Advance(ps, text), sep, false, LoopP(Advance(ps, text), sep, false));
    case Until => LoopGives(Advance(ps, text), sep, true, LoopP(Advance(ps, text), sep, true));
  }

  lemma {:induction false} LoopIsRead(ps: Statements, text: string, r: Parsed<Item>)
    requires ps != [] && LeadsLoop(T.First(ps[0].text)) && SplitKeyword(ps[0].text).1 == text
    requires (text == "" || |text| < |ps[0].text|) && CommandP(ps) == r && r.Parsed?
    ensures r.value.node.Group? || r.value.node.Loop?
  {
    var k, sep := T.First(ps[0].text), SepOf(ps[0].sep);
    var x := CompoundP(ps, k, sep, text);
    CompoundStep(ps, k, text, x);
    CompoundGives(ps, k, sep, text, x);
  }

  lemma {:induction false} InnerCut(ps: Statements, j: string, t: string, inner: Statements, x: Parsed<Item>,
      r: Parsed<Item>)
    requires ps != [] && SplitFeed(ps[0].text) == Some((j, t)) && [ps[0].(text := t)] + ps[1..] == inner
    requires InnerP(inner) == x && InnerP(ps) == r && r.Parsed?
    ensures x.Parsed? && r.value.node == WithFeed(x.value.node, j)
  {
  }

  lemma {:induction false} InnerIsCommand(ps: Statements)
    requires ps != [] && SplitFeed(ps[0].text).None? && FuncHeader(ps[0].text).None?
    requires ps[0].text != "" && ps[0].text[0] != '('
    ensures InnerP(ps) == CommandP(ps)
  {
  }

  lemma {:induction false} UnledIsCommand(ps: Statements)
    requires ps != [] && Unled(ps[0].text)
    ensures InnerP(ps) == CommandP(ps) && LeadsLoop(T.First(ps[0].text))
  {
    NotFed(ps[0].text);
    InnerIsCommand(ps);
  }

  lemma {:induction false} UnledIsRead(ps: Statements, r: Parsed<Item>)
    requires ps != [] && Unled(ps[0].text) && InnerP(ps) == r && r.Parsed?
    ensures r.value.node.Group? || r.value.node.Loop?
  {
    UnledIsCommand(ps);
    LoopIsRead(ps, SplitKeyword(ps[0].text).1, r);
  }

  lemma {:induction false} CutIsProducer(ps: Statements, j: string, t: string, inner: Statements, x: Parsed<Item>,
      r: Parsed<Item>)
    requires ps != [] && SplitFeed(ps[0].text) == Some((j, t)) && [ps[0].(text := t)] + ps[1..] == inner
    requires InnerP(inner) == x && InnerP(ps) == r && r.Parsed?
    requires x.Parsed? ==> x.value.node.Group? || x.value.node.Loop?
    ensures FeedOf(r.value.node) == j
  {
    InnerCut(ps, j, t, inner, x, r);
  }

  lemma {:induction false} CutIsRead(ps: Statements, j: string, t: string, r: Parsed<Item>)
    requires ps != [] && SplitFeed(ps[0].text) == Some((j, t)) && Unled(t) && InnerP(ps) == r && r.Parsed?
    ensures FeedOf(r.value.node) == j
  {
    var inner := [ps[0].(text := t)] + ps[1..];
    var x := InnerP(inner);
    if x.Parsed? {
      UnledIsRead(inner, x);
    }
    CutIsProducer(ps, j, t, inner, x, r);
  }

  /** Unless it can be read, another producer than its own is found. */
  lemma {:induction false} OtherProducer(it: Item, more: Statements) returns (j: string, t: string)
    requires SoundItem(it) && !Readable(it.node)
    ensures SplitFeed(ItemS(it, more)[0].text) == Some((j, t)) && j != "" && j != FeedOf(it.node)
    ensures Unled(t)
  {
    var feed := FeedOf(it.node);
    if feed != "" {
      j, t := FedProducer(it, more);
    } else if it.node.Func? {
      j, t := FuncProducer(it, more);
    } else {
      j, t := ItemText(it, more);
      FeedIsNoLoop(t);
      LoopIsCut(j, t);
    }
  }

  lemma {:induction false} FuncProducer(it: Item, more: Statements) returns (j: string, t: string)
    requires SoundItem(it) && it.node.Func? && !Readable(it.node)
    ensures SplitFeed(ItemS(it, more)[0].text) == Some((j, t)) && j != ""
    ensures Unled(t)
  {
    var name, body := it.node.fname, it.node.body;
    var i: string;
    i, t := LedText(body, Close(CloseBrace, it.tail, more));
    ClearAfter(OpenBrace, i, t);
    var group := After(Spelling(OpenBrace), i);
    j := After(name + PARENS, group);
    Reassociated(name + PARENS, group, After(['|'], t));
    HeaderIsCut(name, group, t);
  }

  lemma {:induction false} HeaderIsCut(name: string, i: string, t: string)
    requires FuncName(name) && Cutting(i, t)
    ensures var j := After(name + PARENS, i); SplitFeed(FedText(j, t)) == Some((j, t))
  {
    var j := After(name + PARENS, i);
    Reassociated(name + PARENS, i, After(['|'], t));
    FedIsSolid(i, t);
    FuncStarts(name, FedText(i, t));
    HeaderIsSolid(name, i);
    HeaderIsAlwaysCut(name, i, t);
    AlwaysCutIsSplit(j, t);
  }

  lemma {:induction false} HeaderIsAlwaysCut(name: string, i: string, t: string)
    requires FuncName(name) && Clear(i)
    ensures AlwaysCut(After(name + PARENS, i), t)
  {
    var j := After(name + PARENS, i);
    forall feeds: seq<bool> | LastOf(j, t, feeds)
      ensures FeedCut(FedText(j, t), feeds, FeedScan(0, None, 0, None)) == Some(|j| + 1)
    {
      HeaderIsPassed(name, i, t, feeds);
      ReachedIsCut(j, t, feeds, None);
    }
  }

  lemma {:induction false} HeaderIsSolid(name: string, i: string)
    requires FuncName(name) && Solid(i)
    ensures Solid(After(name + PARENS, i))
  {
    FuncNameUnbroken(name);
    SolidAfter(name + PARENS, i);
  }

  lemma {:induction false} FuncStarts(name: string, t: string)
    requires FuncName(name) && Solid(t)
    ensures var w := name + PARENS; !Space(w[0]) && !StartsCompound(After(w, t))
  {
    FuncNameUnbroken(name);
    LedByParen(name + PARENS, t);
    TrimSolid(After(name + PARENS, t));
  }

  lemma {:induction false} FedProducer(it: Item, more: Statements) returns (j: string, t: string)
    requires SoundItem(it) && FeedOf(it.node) != "" && !Readable(it.node)
    ensures SplitFeed(ItemS(it, more)[0].text) == Some((j, t)) && j != "" && j != FeedOf(it.node)
    ensures Unled(t)
  {
    var feed, u := FeedOf(it.node), Unfed(it);
    var i: string;
    i, t := ItemText(u, more);
    j := FedText(feed, i);
    assert ItemS(it, more)[0].text == FedText(feed, FedText(i, t));
    FedTwice(feed, i, t);
    TwoProducers(feed, i, t);
  }

  lemma {:induction false} TwoProducers(feed: string, i: string, t: string)
    requires FeedText(feed) && Cutting(i, t)
    ensures var j := FedText(feed, i); SplitFeed(FedText(j, t)) == Some((j, t)) && |j| > |feed|
  {
    var j := FedText(feed, i);
    FedStartsNone(feed, i, t);
    FedSolid(feed, i);
    TwoAreAlwaysCut(feed, i, t);
    AlwaysCutIsSplit(j, t);
    FedAt(feed, i);
  }

  lemma {:induction false} TwoAreAlwaysCut(feed: string, i: string, t: string)
    requires FeedText(feed) && Clear(i)
    ensures AlwaysCut(FedText(feed, i), t)
  {
    var j := FedText(feed, i);
    forall feeds: seq<bool> | LastOf(j, t, feeds)
      ensures FeedCut(FedText(j, t), feeds, FeedScan(0, None, 0, None)) == Some(|j| + 1)
    {
      var cut := ProducerIsPassed(feed, i, t, feeds);
      ReachedIsCut(j, t, feeds, cut);
    }
  }

  lemma {:induction false} FedStartsNone(feed: string, i: string, t: string)
    requires FeedText(feed) && Cutting(i, t)
    ensures !StartsCompound(FedText(FedText(feed, i), t))
  {
    var all := FedText(i, t);
    FedTwice(feed, i, t);
    FedIsSolid(i, t);
    FedSolid(feed, all);
    FedFirst(feed, After(['|'], all));
    TrimSolid(FedText(feed, all));
  }

  lemma {:induction false} FedTwice(a: string, b: string, c: string)
    ensures FedText(a, FedText(b, c)) == FedText(FedText(a, b), c)
  {
    Reassociated(['|'], b, After(['|'], c));
    Reassociated(a, After(['|'], b), After(['|'], c));
  }

  /**
   A command that is good in all its parts comes back exactly when nothing but
   its own producer stands in front of a pipe that feeds: no keyword in front
   of a loop's producer, and no header of a function and no other producer in
   front of any. A list behind `then`, `elif`, `else`, `do` or the patterns of
   an arm may start with any producer.
   */
  lemma {:induction false} ComesBackIfReadable(it: Item, more: Statements)
    requires SoundItem(it) && !it.node.Subshell? && NoPipe(more)
    ensures ItemP(ItemS(it, more)) == Parsed(it, more) <==> Readable(it.node)
  {
    if Readable(it.node) {
      ItemParses(it, more);
    } else {
      var r := InnerP(ItemS(it, more));
      NotComesBack(it, more, r);
      NodeStays(ItemS(it, more), r);
    }
  }

  lemma {:induction false} NotComesBack(it: Item, more: Statements, r: Parsed<Item>)
    requires SoundItem(it) && !Readable(it.node) && InnerP(ItemS(it, more)) == r
    ensures r.Parsed? ==> r.value.node != it.node
  {
    var j, t := OtherProducer(it, more);
    if r.Parsed? {
      CutIsRead(ItemS(it, more), j, t, r);
    }
  }

  lemma {:induction false} NodeStays(ps: Statements, r: Parsed<Item>)
    requires ps != [] && InnerP(ps) == r
    ensures ItemP(ps).Parsed? ==> r.Parsed? && ItemP(ps).value.node == r.value.node
  {
  }
}

// The parser object of internal/shell/syntax.go: a statement list that is
// rewritten in place and a position in it. Each method consumes what the
// function of the same name in module `Grammar` says, or reports its token.

module InPlaceParser {
  import opened Wrappers
  import opened ShellText
  import opened Scanners
  import opened T = ParserText
  import opened Grammar
  import Tokenizer
  import Tree = ShellSyntax

  datatype Outcome<+A> = Ok(value: A) | SyntaxError(token: string)

  /** What a method returns, and what it leaves, when the parse comes to `p`. */
  ghost predicate Gives<A>(p: Parsed<A>, out: Outcome<A>, left: Statements) {
    match p
    case Parsed(value, rest) => out == Ok(value) && left == rest
    case Unexpected(token) => out == SyntaxError(token)
  }

  // ----- the loops over one statement -----

  /** `firstRawWord` */
  method FirstRawWord(text: string) returns (word: string, rest: string)
    ensures (word, rest) == RawWord(text)
  {
    var quote: Option<char>, depth: nat, cs: CaseScope, i := None, 0, [], 0;
    while i < |text|
      invariant i <= |text| && RawEnd(text, i, quote, depth, cs) == RawEnd(text, 0, None, 0, [])
    {
      var c, skip := text[i], false;
      if quote.None? {
        var step := CaseStep(cs, text, i);
        cs, skip := step.0, step.1;
      }
      if quote.Some? {
        if quote == Some(c) {
          quote := None;
        }
      } else if c == QUOTE || c == DQUOTE {
        quote := Some(c);
      } else if c == '(' && !skip {
        depth := depth + 1;
      } else if c == ')' && depth > 0 && !skip {
        depth := depth - 1;
      } else if depth == 0 && Blank1(c) {
        return text[..i], Trim(text[i + 1..]);
      }
      i := i + 1;
    }
    return text, "";
  }

  /** `closingParen` */
  method ClosingParen(text: string) returns (end: Option<nat>)
    ensures end == ParenEnd(text, 0, None, 0, [])
  {
    var quote: Option<char>, depth: int, cs: CaseScope, i := None, 0, [], 0;
    while i < |text|
      invariant i <= |text| && ParenEnd(text, i, quote, depth, cs) == ParenEnd(text, 0, None, 0, [])
    {
      var c, skip := text[i], false;
      if quote.None? {
        var step := CaseStep(cs, text, i);
        cs, skip := step.0, step.1;
      }
      if quote.Some? {
        if quote == Some(c) {
          quote := None;
        }
      } else if c == QUOTE || c == DQUOTE {
        quote := Some(c);
      } else if c == '(' && !skip {
        depth := depth + 1;
      } else if c == ')' && !skip {
        depth := depth - 1;
        if depth == 0 {
          return Some(i);
        }
      }
      i := i + 1;
    }
    return None;
  }

  /** One turn of the loop of `splitFeed`. */
  method FeedTurn(text: string, f: FeedScan) returns (i: nat, quote: Option<char>, depth: nat, cut: Option<nat>)
    requires f.i < |text| && CutOk(text, f)
    ensures FeedStep(text, f, Feeds(text, f.i)) == FeedScan(i, quote, depth, cut)
  {
    i, quote, depth, cut := f.i, f.quote, f.depth, f.cut;
    var c := text[i];
    if quote.Some? {
      if c == '\\' && quote == Some(DQUOTE) {
        i := i + 1;
      } else if quote == Some(c) {
        quote := None;
      }
    } else if c == '\\' {
      i := i + 1;
    } else if c == QUOTE || c == DQUOTE {
      quote := Some(c);
    } else if c == '(' {
      depth := depth + 1;
    } else if c == ')' && depth > 0 {
      depth := depth - 1;
    } else if c == '|' && depth == 0 {
      if i + 1 < |text| && text[i + 1] == '|' {
        i := i + 1;
      } else {
        var feeds := Feeds(text, i);
        if feeds {
          cut := Some(i);
        }
      }
    }
    i := i + 1;
  }

  lemma {:induction false} CutTurn(text: string, feeds: seq<bool>, f: FeedScan, r: FeedScan)
    requires f.i < |text| == |feeds| && CutOk(text, f) && FeedStep(text, f, feeds[f.i]) == r
    ensures FeedCut(text, feeds, f) == FeedCut(text, feeds, r)
  {
  }

  /** `splitFeed` */
  method FindFeed(text: string) returns (r: Option<(string, string)>)
    ensures r == SplitFeed(text)
  {
    ghost var feeds := AllFeeds(text);
    var quote: Option<char>, depth: nat, cut: Option<nat>, i := None, 0, None, 0;
    while i < |text|
      invariant CutOk(text, FeedScan(i, quote, depth, cut))
      invariant FeedCut(text, feeds, FeedScan(i, quote, depth, cut)) == FeedCut(text, feeds, FeedScan(0, None, 0, None))
    {
      ghost var was := FeedScan(i, quote, depth, cut);
      i, quote, depth, cut := FeedTurn(text, FeedScan(i, quote, depth, cut));
      CutTurn(text, feeds, was, FeedScan(i, quote, depth, cut));
    }
    if cut.None? {
      return None;
    }
    return Some((Trim(text[..cut.value]), Trim(text[cut.value + 1..])));
  }

  /** The words of a `for`. */
  method RawWordList(text: string) returns (words: seq<string>)
    ensures words == RawWords(text)
  {
    words := [];
    var rest := text;
    while rest != ""
      invariant words + RawWords(rest) == RawWords(text)
      decreases |rest|
    {
      var w;
      WordTurn(words, rest);
      w, rest := FirstRawWord(rest);
      words := words + [w];
    }
  }

  lemma {:induction false} WordTurn(read: seq<string>, text: string)
    requires text != ""
    ensures var (w, rest) := RawWord(text);
      |rest| < |text| && read + RawWords(text) == read + [w] + RawWords(rest)
  {
    var (w, rest) := RawWord(text);
    assert read + ([w] + RawWords(rest)) == read + [w] + RawWords(rest);
  }

  // ----- lists under construction -----

  /** The items read so far, and then what is still to parse. */
  function Onto<A>(read: seq<A>, p: Parsed<seq<A>>): Parsed<seq<A>> {
    if p.Unexpected? then p else Parsed(read + p.value, p.rest)
  }

  lemma {:induction false} OntoTwice<A>(read: seq<A>, x: A, p: Parsed<seq<A>>)
    ensures Onto(read, Onto([x], p)) == Onto(read + [x], p)
  {
    if p.Parsed? {
      assert read + ([x] + p.value) == read + [x] + p.value;
    }
  }

  lemma {:induction false} OntoNothing<A>(p: Parsed<seq<A>>)
    ensures Onto([], p) == p
  {
    if p.Parsed? {
      assert [] + p.value == p.value;
    }
  }

  lemma {:induction false} ListEnds(read: seq<Tree.Item>, ps: Statements, stop: Stop)
    requires ps == [] || Stops(stop, T.First(ps[0].text)) || (DoubleSemi(ps[0]) && stop.AtEsac?)
      || (!DoubleSemi(ps[0]) && Reserved(T.First(ps[0].text)))
    ensures Onto(read, ListP(ps, stop)) == Parsed(read, ps)
  {
    assert read + [] == read;
  }

  /** One turn of the loop in `list`. */
  lemma {:induction false} ListTurn(read: seq<Tree.Item>, ps: Statements, stop: Stop)
    requires ps != [] && !Stops(stop, T.First(ps[0].text)) && !DoubleSemi(ps[0]) && !Reserved(T.First(ps[0].text))
    ensures var it := ItemP(ps);
      Onto(read, ListP(ps, stop)) ==
      if it.Unexpected? then Unexpected(it.token) else Onto(read + [it.value], ListP(it.rest, stop))
  {
    var it := ItemP(ps);
    if it.Parsed? {
      assert ListP(ps, stop) == Onto([it.value], ListP(it.rest, stop));
      OntoTwice(read, it.value, ListP(it.rest, stop));
    }
  }

  /** One turn of the loop in `caseItem`. */
  lemma {:induction false} ArmTurn(read: seq<Tree.Arm>, ps: Statements, patterns: seq<string>)
    ensures var body := ListP(ps, AtEsac);
      Onto(read, ArmP(ps, patterns)) ==
      if body.Unexpected? then Unexpected(body.token)
      else Onto(read + [Tree.Arm(patterns, body.value)], ArmsP(body.rest))
  {
    var body := ListP(ps, AtEsac);
    if body.Parsed? {
      var arm := Tree.Arm(patterns, body.value);
      assert ArmP(ps, patterns) == Onto([arm], ArmsP(body.rest));
      OntoTwice(read, arm, ArmsP(body.rest));
    }
  }

  /** An `if` with branches in front of those still to parse. */
  function OntoIf(read: seq<Tree.Branch>, p: Parsed<Tree.Node>): Parsed<Tree.Node>
    requires p.Parsed? ==> p.value.If?
  {
    if p.Unexpected? then p else Parsed(Tree.If(read + p.value.branches, p.value.elseBody), p.rest)
  }

  /** One turn of the loop in `ifItem`. */
  lemma {:induction false} ElifTurn(read: seq<Tree.Branch>, branch: Tree.Branch, ps: Statements)
    requires ps != [] && T.First(ps[0].text).Elif?
    ensures OntoIf(read, AfterBranchP(branch, ps)) ==
      OntoIf(read + [branch], BranchesP(Grammar.Advance(ps, SplitKeyword(ps[0].text).1)))
  {
    var more := BranchesP(Grammar.Advance(ps, SplitKeyword(ps[0].text).1));
    if more.Parsed? {
      assert read + ([branch] + more.value.branches) == read + [branch] + more.value.branches;
    }
  }

  lemma {:induction false} EndTurn(read: seq<Tree.Branch>, branch: Tree.Branch, ps: Statements)
    requires ps != [] && !T.First(ps[0].text).Elif?
    ensures var end := AfterBranchP(branch, ps);
      OntoIf(read, end) == if end.Unexpected? then end
        else Parsed(Tree.If(read + [branch], end.value.elseBody), end.rest)
  {
  }

  /** After one branch: what is still to parse. */
  lemma {:induction false} BranchTurn(ps: Statements)
    ensures var branch := BranchP(ps);
      BranchesP(ps) == if branch.Unexpected? then Unexpected(branch.token)
        else if branch.rest == [] then Unexpected("")
        else AfterBranchP(branch.value, branch.rest)
  {
  }

  /** One turn of the loop in `caseItem`, up to the pattern. */
  lemma {:induction false} HeadTurn(read: seq<Tree.Arm>, ps: Statements)
    ensures Onto(read, ArmsP(ps)) ==
      if ps == [] then Unexpected("")
      else if T.First(ps[0].text).Esac? then Parsed(read, Grammar.Advance(ps, SplitKeyword(ps[0].text).1))
      else
        var head := ArmHead(ps[0].text);
        if head.None? then Unexpected(Token(ps[0]))
        else Onto(read, ArmP(Grammar.Advance(ps, head.value.1), head.value.0))
  {
    assert read + [] == read;
  }

  lemma {:induction false} SmallerHead(ps: Statements, text: string)
    requires ps != [] && |text| < |ps[0].text|
    ensures Size([ps[0].(text := text)] + ps[1..]) < Size(ps)
  {
    var shorter := [ps[0].(text := text)] + ps[1..];
    assert shorter[1..] == ps[1..];
  }

  /** The parser: what is still to read is `stmts` from `pos` on. */
  class Parser {
    var stmts: Statements
    var pos: nat

    constructor (stmts: Statements)
      ensures Valid() && Left() == stmts
    {
      this.stmts, pos := stmts, 0;
    }

    predicate Valid()
      reads this
    {
      pos <= |stmts|
    }

    function Left(): Statements
      reads this
      requires Valid()
    {
      stmts[pos..]
    }

    /** `advance`: what follows a keyword takes the place of its statement. */
    method Advance(rest: string)
      requires Valid() && Left() != []
      modifies this
      ensures Valid() && Left() == Grammar.Advance(old(Left()), rest)
    {
      if rest == "" {
        pos := pos + 1;
      } else {
        stmts := stmts[pos := Statement("", rest, stmts[pos].line)];
      }
    }

    /** Gives the current statement another text. */
    method Retext(text: string)
      requires Valid() && Left() != []
      modifies this
      ensures Valid() && Left() == [old(Left())[0].(text := text)] + old(Left())[1..]
    {
      stmts := stmts[pos := stmts[pos].(text := text)];
    }

    /** `expect` */
    method ReadKeyword(k: Keyword) returns (out: Outcome<()>)
      requires Valid()
      modifies this
      ensures Valid() && Gives(Expect(old(Left()), k), out, Left())
    {
      if pos == |stmts| {
        return SyntaxError("");
      }
      var (got, rest) := SplitKeyword(stmts[pos].text);
      if KeywordOf(got) != k {
        return SyntaxError(got);
      }
      Advance(rest);
      return Ok(());
    }

    /** `list` */
    method ReadList(stop: Stop) returns (out: Outcome<seq<Tree.Item>>)
      requires Valid()
      modifies this
      ensures Valid() && Gives(ListP(old(Left()), stop), out, Left())
      decreases Size(Left()), 5
    {
      var items := [];
      ghost var start := Left();
      OntoNothing(ListP(start, stop));
      while pos < |stmts|
        invariant Valid() && Onto(items, ListP(Left(), stop)) == ListP(start, stop) && Size(Left()) <= Size(start)
        decreases Size(Left())
      {
        var st := stmts[pos];
        var k := T.First(st.text);
        if Stops(stop, k) || (DoubleSemi(st) && stop.AtEsac?) {
          ListEnds(items, Left(), stop);
          return Ok(items);
        }
        if DoubleSemi(st) {
          return SyntaxError(";;");
        }
        if Reserved(k) {
          ListEnds(items, Left(), stop);
          return Ok(items);
        }
        ListTurn(items, Left(), stop);
        var it := ReadItem();
        if it.SyntaxError? {
          return SyntaxError(it.token);
        }
        items := items + [it.value];
      }
      ListEnds(items, Left(), stop);
      return Ok(items);
    }

    /** `nonEmpty` */
    method ReadNonEmpty(stop: Stop) returns (out: Outcome<seq<Tree.Item>>)
      requires Valid()
      modifies this
      ensures Valid() && Gives(NonEmptyP(old(Left()), stop), out, Left())
      decreases Size(Left()), 6
    {
      out := ReadList(stop);
      if out == Ok([]) {
        if pos == |stmts| {
          return SyntaxError("");
        }
        return SyntaxError(SplitKeyword(stmts[pos].text).0);
      }
    }

    /** `item` */
    method ReadItem() returns (out: Outcome<Tree.Item>)
      requires Valid() && Left() != []
      modifies this
      ensures Valid() && Gives(ItemP(old(Left())), out, Left())
      decreases Size(Left()), 4
    {
      out := ReadInner();
      if out.SyntaxError? || out.value.node.Simple? || out.value.node.Subshell? {
        return;
      }
      if pos < |stmts| {
        var t := Trim(stmts[pos].text);
        if StartsPipe(stmts[pos].text) {
          out := Ok(out.value.(tail := t));
          pos := pos + 1;
        }
      }
    }

    /** `itemInner` */
    method ReadInner() returns (out: Outcome<Tree.Item>)
      requires Valid() && Left() != []
      modifies this
      ensures Valid() && Gives(InnerP(old(Left())), out, Left())
      decreases Size(Left()), 3
    {
      var text := stmts[pos].text;
      var feed := FindFeed(text);
      if feed.Some? {
        out := ReadFed(feed.value.0, feed.value.1);
        return;
      }
      if text != "" && text[0] == '(' && !(|text| > 1 && text[1] == '(') {
        out := ReadSubshell();
        return;
      }
      var header := FuncHeader(text);
      if header.Some? {
        out := ReadFunc(header.value.0, header.value.1);
      } else {
        out := ReadCommand();
      }
    }

    /** A loop or group that a producer feeds: it is parsed alone, and remembers the producer. */
    method ReadFed(feed: string, text: string) returns (out: Outcome<Tree.Item>)
      requires Valid() && Left() != [] && SplitFeed(Left()[0].text) == Some((feed, text))
      modifies this
      ensures Valid() && Gives(InnerP(old(Left())), out, Left())
      decreases Size(Left()), 2
    {
      SmallerHead(Left(), text);
      Retext(text);
      out := ReadInner();
      if out.Ok? {
        out := Ok(out.value.(node := WithFeed(out.value.node, feed)));
      }
    }

    /** The part of `itemInner` that looks at the keyword. */
    method ReadCommand() returns (out: Outcome<Tree.Item>)
      requires Valid() && Left() != []
      modifies this
      ensures Valid() && Gives(CommandP(old(Left())), out, Left())
      decreases Size(Left()), 2
    {
      var st := stmts[pos];
      var (word, rest) := SplitKeyword(st.text);
      var k := KeywordOf(word);
      if Opens(k) {
        out := ReadCompound(k, SepOf(st.sep), rest);
      } else {
        pos := pos + 1;
        out := Ok(Tree.Item(SepOf(st.sep), Tree.Simple(st.text), ""));
      }
    }

    method ReadCompound(k: Keyword, sep: Tree.Sep, rest: string) returns (out: Outcome<Tree.Item>)
      requires Valid() && Left() != [] && Opens(k) && (rest == "" || |rest| < |Left()[0].text|)
      modifies this
      ensures Valid() && Gives(CompoundP(old(Left()), k, sep, rest), out, Left())
      decreases Size(Left()), 1
    {
      if k.Case? {
        out := ReadCase(sep, rest);
      } else if k.For? {
        out := ReadFor(sep, rest);
      } else if k.OpenBrace? {
        out := ReadGroup(sep, rest);
      } else if k.If? {
        out := ReadIf(sep, rest);
      } else {
        Advance(rest);
        out := ReadLoop(sep, k.Until?);
      }
    }

    /** `{ list; }` */
    method ReadGroup(sep: Tree.Sep, rest: string) returns (out: Outcome<Tree.Item>)
      requires Valid() && Left() != [] && (rest == "" || |rest| < |Left()[0].text|)
      modifies this
      ensures Valid() && Gives(GroupP(old(Left()), sep, rest), out, Left())
      decreases Size(Left()), 0
    {
      Advance(rest);
      var body := ReadNonEmpty(AtBrace);
      if body.SyntaxError? {
        return SyntaxError(body.token);
      }
      var close := ReadKeyword(CloseBrace);
      if close.SyntaxError? {
        return SyntaxError(close.token);
      }
      return Ok(Tree.Item(sep, Tree.Group("", body.value), ""));
    }

    /** `ifItem` */
    method ReadIf(sep: Tree.Sep, rest: string) returns (out: Outcome<Tree.Item>)
      requires Valid() && Left() != [] && (rest == "" || |rest| < |Left()[0].text|)
      modifies this
      ensures Valid() && Gives(IfP(old(Left()), sep, rest), out, Left())
      decreases Size(Left()), 0
    {
      Advance(rest);
      var node := ReadBranches();
      if node.SyntaxError? {
        return SyntaxError(node.token);
      }
      return Ok(Tree.Item(sep, node.value, ""));
    }

    method ReadBranches() returns (out: Outcome<Tree.Node>)
      requires Valid()
      modifies this
      ensures Valid() && Gives(BranchesP(old(Left())), out, Left())
      decreases Size(Left()), 8
    {
      var branches := [];
      ghost var start := Left();
      StartsIf(BranchesP(start));
      while true
        invariant Valid() && OntoIf(branches, BranchesP(Left())) == BranchesP(start) && Size(Left()) <= Size(start)
        decreases Size(Left())
      {
        BranchTurn(Left());
        var branch := ReadBranch();
        if branch.SyntaxError? {
          return SyntaxError(branch.token);
        }
        if pos == |stmts| {
          return SyntaxError("");
        }
        var (word, rest) := SplitKeyword(stmts[pos].text);
        if !KeywordOf(word).Elif? {
          EndTurn(branches, branch.value, Left());
          out := ReadEnd(branch.value);
          if out.Ok? {
            out := Ok(Tree.If(branches + [branch.value], out.value.elseBody));
          }
          return;
        }
        ElifTurn(branches, branch.value, Left());
        branches := branches + [branch.value];
        Advance(rest);
      }
    }

    /** `cond; then body` */
    method ReadBranch() returns (out: Outcome<Tree.Branch>)
      requires Valid()
      modifies this
      ensures Valid() && Gives(BranchP(old(Left())), out, Left())
      decreases Size(Left()), 7
    {
      var cond := ReadNonEmpty(AtThen);
      if cond.SyntaxError? {
        return SyntaxError(cond.token);
      }
      var then_ := ReadKeyword(Then);
      if then_.SyntaxError? {
        return SyntaxError(then_.token);
      }
      var body := ReadNonEmpty(AtBranch);
      if body.SyntaxError? {
        return SyntaxError(body.token);
      }
      return Ok(Tree.Branch(cond.value, body.value));
    }

    /** `[else list;] fi` */
    method ReadEnd(branch: Tree.Branch) returns (out: Outcome<Tree.Node>)
      requires Valid() && Left() != [] && !T.First(Left()[0].text).Elif?
      modifies this
      ensures Valid() && Gives(AfterBranchP(branch, old(Left())), out, Left())
      decreases Size(Left()), 0
    {
      var (word, rest) := SplitKeyword(stmts[pos].text);
      if KeywordOf(word).Else? {
        Advance(rest);
        out := ReadElse(branch);
        return;
      }
      var fi := ReadKeyword(Fi);
      if fi.SyntaxError? {
        return SyntaxError(fi.token);
      }
      return Ok(Tree.If([branch], []));
    }

    method ReadElse(branch: Tree.Branch) returns (out: Outcome<Tree.Node>)
      requires Valid()
      modifies this
      ensures Valid() && Gives(ElseP(branch, old(Left())), out, Left())
      decreases Size(Left()), 7
    {
      var body := ReadNonEmpty(AtFi);
      if body.SyntaxError? {
        return SyntaxError(body.token);
      }
      var fi := ReadKeyword(Fi);
      if fi.SyntaxError? {
        return SyntaxError(fi.token);
      }
      return Ok(Tree.If([branch], body.value));
    }

    /** `caseItem` */
    method ReadCase(sep: Tree.Sep, text: string) returns (out: Outcome<Tree.Item>)
      requires Valid() && Left() != [] && (text == "" || |text| < |Left()[0].text|)
      modifies this
      ensures Valid() && Gives(CaseP(old(Left()), sep, text), out, Left())
      decreases Size(Left()), 0
    {
      var word, rest := FirstRawWord(text);
      var (in_, after) := SplitKeyword(rest);
      if word == "" || in_ != ['i', 'n'] {
        return SyntaxError(in_);
      }
      Advance(after);
      var arms := ReadArms();
      if arms.SyntaxError? {
        return SyntaxError(arms.token);
      }
      return Ok(Tree.Item(sep, Tree.Case(word, arms.value), ""));
    }

    method ReadArms() returns (out: Outcome<seq<Tree.Arm>>)
      requires Valid()
      modifies this
      ensures Valid() && Gives(ArmsP(old(Left())), out, Left())
      decreases Size(Left()), 6
    {
      var arms := [];
      ghost var start := Left();
      OntoNothing(ArmsP(start));
      while pos < |stmts|
        invariant Valid() && Onto(arms, ArmsP(Left())) == ArmsP(start) && Size(Left()) <= Size(start)
        decreases Size(Left())
      {
        HeadTurn(arms, Left());
        var (word, rest) := SplitKeyword(stmts[pos].text);
        if KeywordOf(word).Esac? {
          Advance(rest);
          return Ok(arms);
        }
        var head := ArmHead(stmts[pos].text);
        if head.None? {
          return SyntaxError(word);
        }
        Advance(head.value.1);
        ArmTurn(arms, Left(), head.value.0);
        var body := ReadList(AtEsac);
        if body.SyntaxError? {
          return SyntaxError(body.token);
        }
        arms := arms + [Tree.Arm(head.value.0, body.value)];
      }
      HeadTurn(arms, Left());
      return SyntaxError("");
    }

    /** `forItem` */
    method ReadFor(sep: Tree.Sep, text: string) returns (out: Outcome<Tree.Item>)
      requires Valid() && Left() != []
      modifies this
      ensures Valid() && Gives(ForP(old(Left()), sep, text), out, Left())
      decreases Size(Left()), 0
    {
      var name, rest := FirstRawWord(text);
      var (in_, after) := SplitKeyword(rest);
      if name == "" || in_ != ['i', 'n'] {
        return SyntaxError(in_);
      }
      var words := RawWordList(after);
      pos := pos + 1;
      var body := ReadDo();
      if body.SyntaxError? {
        return SyntaxError(body.token);
      }
      return Ok(Tree.Item(sep, Tree.For(name, words, body.value), ""));
    }

    /** `do list; done` */
    method ReadDo() returns (out: Outcome<seq<Tree.Item>>)
      requires Valid()
      modifies this
      ensures Valid() && Gives(DoP(old(Left())), out, Left())
      decreases Size(Left()), 7
    {
      var do_ := ReadKeyword(Do);
      if do_.SyntaxError? {
        return SyntaxError(do_.token);
      }
      out := ReadNonEmpty(AtDone);
      if out.SyntaxError? {
        return;
      }
      var done := ReadKeyword(Done);
      if done.SyntaxError? {
        return SyntaxError(done.token);
      }
    }

    /** `whileItem` */
    method ReadLoop(sep: Tree.Sep, until: bool) returns (out: Outcome<Tree.Item>)
      requires Valid()
      modifies this
      ensures Valid() && Gives(LoopP(old(Left()), sep, until), out, Left())
      decreases Size(Left()), 7
    {
      var cond := ReadNonEmpty(AtDo);
      if cond.SyntaxError? {
        return SyntaxError(cond.token);
      }
      var do_ := ReadKeyword(Do);
      if do_.SyntaxError? {
        return SyntaxError(do_.token);
      }
      var body := ReadNonEmpty(AtDone);
      if body.SyntaxError? {
        return SyntaxError(body.token);
      }
      if pos == |stmts| {
        return SyntaxError("");
      }
      out := ReadLoopEnd(sep, until, cond.value, body.value);
    }

    /** `done [< file]` */
    method ReadLoopEnd(sep: Tree.Sep, until: bool, cond: seq<Tree.Item>, body: seq<Tree.Item>)
      returns (out: Outcome<Tree.Item>)
      requires Valid() && Left() != []
      modifies this
      ensures Valid() && Gives(EndLoopP(old(Left()), sep, until, cond, body), out, Left())
    {
      var (got, rest) := SplitKeyword(stmts[pos].text);
      if !KeywordOf(got).Done? {
        return SyntaxError(got);
      }
      var input := "";
      if rest != "" && rest[0] == '<' {
        input, rest := FirstRawWord(Trim(rest[1..]));
      }
      Advance(rest);
      return Ok(Tree.Item(sep, Tree.Loop(until, cond, body, input, ""), ""));
    }

    /** `funcItem` */
    method ReadFunc(name: string, rest: string) returns (out: Outcome<Tree.Item>)
      requires Valid() && Left() != [] && |rest| < |Left()[0].text|
      modifies this
      ensures Valid() && Gives(FuncP(old(Left()), name, rest), out, Left())
      decreases Size(Left()), 0
    {
      var sep := SepOf(stmts[pos].sep);
      SmallerHead(Left(), rest);
      if rest == "" {
        pos := pos + 1;
      } else {
        Retext(rest);
      }
      if pos == |stmts| {
        return SyntaxError("");
      }
      out := ReadInner();
      if out.SyntaxError? {
        return;
      }
      if !out.value.node.Group? {
        return SyntaxError("(");
      }
      out := Ok(Tree.Item(sep, Tree.Func(name, out.value.node.gbody), ""));
    }

    /** `subshellItem`: what the parentheses hold is split and parsed by another parser. */
    method ReadSubshell() returns (out: Outcome<Tree.Item>)
      requires Valid() && Left() != [] && Left()[0].text != ""
      modifies this
      ensures Valid() && Gives(SubshellP(old(Left())), out, Left())
      decreases Size(Left()), 0
    {
      var text, sep := stmts[pos].text, SepOf(stmts[pos].sep);
      var end := ClosingParen(text);
      if end.None? || end.value == 0 {
        return SyntaxError("");
      }
      var inner := Tokenizer.SplitStatements(text[1..end.value]);
      StatementsAreShorter(text[1..end.value]);
      var body := ParseStatements(inner);
      if body.SyntaxError? {
        return SyntaxError(body.token);
      }
      if body.value == [] {
        return SyntaxError(")");
      }
      pos := pos + 1;
      return Ok(Tree.Item(sep, Tree.Subshell(body.value), Trim(text[end.value + 1..])));
    }

    /** `parseStatements` */
    static method ParseStatements(stmts: Statements) returns (out: Outcome<seq<Tree.Item>>)
      ensures Gives(WholeP(stmts), out, [])
      decreases Size(stmts), 6
    {
      var p := new Parser(stmts);
      out := p.ReadList(AtEnd);
      if out.Ok? && p.pos < |p.stmts| {
        var st := p.stmts[p.pos];
        return SyntaxError(if DoubleSemi(st) then ";;" else SplitKeyword(st.text).0);
      }
    }
  }

  lemma {:induction false} StartsIf(p: Parsed<Tree.Node>)
    requires p.Parsed? ==> p.value.If?
    ensures OntoIf([], p) == p
  {
    if p.Parsed? {
      assert [] + p.value.branches == p.value.branches;
    }
  }
}

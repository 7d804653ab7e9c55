// The recursive-descent parser of internal/shell/syntax.go, which rewrites its
// statement list in place: `advance` replaces the current statement with what
// follows the keyword that was read. Here the state is what is still to read.
//
// Every function ends because the text that is left gets shorter.

module Grammar {
  import opened Wrappers
  import opened ShellText
  import opened Scanners
  import opened ParserText
  import Tree = ShellSyntax

  type Statements = seq<Statement>

  /** What was parsed and what is left, or the unexpected token ("" at the end of the input). */
  datatype Parsed<+T> = Parsed(value: T, rest: Statements) | Unexpected(token: string)

  /** The remaining text: each statement counts its characters and one more. */
  function Size(ps: Statements): nat {
    if ps == [] then 0 else |ps[0].text| + 1 + Size(ps[1..])
  }

  // ----- splitting text again leaves less of it -----

  lemma {:induction false} SizeAppend(ps: Statements, st: Statement)
    ensures Size(ps + [st]) == Size(ps) + |st.text| + 1
    decreases |ps|
  {
    if ps == [] {
      assert ps + [st] == [st];
    } else {
      SizeAppend(ps[1..], st);
      assert (ps + [st])[1..] == ps[1..] + [st];
    }
  }

  function Held(st: Splitter): nat {
    Size(st.stmts) + |st.cur|
  }

  lemma {:induction false} EndHolds(line: string, st: Splitter)
    requires st.start <= |line|
    ensures Held(EndStatement(line, st)) <= Held(st) + 1
  {
    var text := Trim(st.cur);
    TrimIsShorter(st.cur);
    var n := 1 + Newlines(line, st.start) + Newlines(st.cur, Lead(st.cur, 0));
    SizeAppend(st.stmts, Statement(st.sep, text, n));
  }

  lemma {:induction false} PlainHolds(line: string, i: nat, st: Splitter, skip: bool)
    requires i < |line| && st.start <= |line|
    ensures var (j, st') := SplitPlain(line, i, st, skip); Held(st') + i <= Held(st) + j
  {
    EndHolds(line, st);
  }

  lemma {:induction false} StepHolds(line: string, i: nat, st: Splitter)
    requires i < |line| && st.start <= |line|
    ensures var (j, st') := SplitStep(line, i, st); Held(st') + i <= Held(st) + j
  {
    if st.quote.None? && !(line[i] == '\\' && i + 1 < |line|) {
      var (cs, skip) := CaseStep(st.cs, line, i);
      PlainHolds(line, i, st.(cs := cs), skip);
    }
  }

  lemma {:induction false} SplitHolds(line: string, i: nat, st: Splitter)
    requires i <= |line| && st.start <= |line|
    ensures Held(SplitFrom(line, i, st)) + i <= Held(st) + |line|
    decreases |line| - i
  {
    if i < |line| {
      assert SplitFrom(line, i, st) == SplitStart(line, i, st);
      assert SplitStart(line, i, st) == SplitTurn(line, i, Started(i, st));
      StepHolds(line, i, Started(i, st));
      var (j, st') := SplitStep(line, i, Started(i, st));
      SplitHolds(line, j, st');
    }
  }

  /** The statements of a text are no more than the text, separators included. */
  lemma {:induction false} StatementsAreShorter(line: string)
    ensures Size(Scanners.Statements(line)) <= |line| + 1
  {
    SplitHolds(line, 0, NO_STATEMENTS);
    EndHolds(line, SplitFrom(line, 0, NO_STATEMENTS));
  }

  // ----- the parser -----

  function SepOf(sep: string): Tree.Sep {
    if sep == "" then Tree.First else if sep == "&&" then Tree.And else if sep == "||" then Tree.Or else Tree.Semi
  }

  predicate DoubleSemi(st: Statement) {
    st.sep == [';', ';']
  }

  /** What may end a list. */
  datatype Stop = AtEnd | AtThen | AtBranch | AtFi | AtBrace | AtEsac | AtDo | AtDone

  predicate Stops(stop: Stop, k: Keyword) {
    match stop
    case AtEnd => false
    case AtThen => k.Then?
    case AtBranch => k.Elif? || k.Else? || k.Fi?
    case AtFi => k.Fi?
    case AtBrace => k.CloseBrace?
    case AtEsac => k.Esac?
    case AtDo => k.Do?
    case AtDone => k.Done?
  }

  function Advance(ps: Statements, rest: string): (r: Statements)
    requires ps != []
    ensures rest == "" || |rest| < |ps[0].text| ==> Size(r) < Size(ps)
  {
    if rest == "" then ps[1..] else [Statement("", rest, ps[0].line)] + ps[1..]
  }

  function Token(st: Statement): string {
    SplitKeyword(st.text).0
  }

  function Expect(ps: Statements, k: Keyword): (r: Parsed<()>)
    ensures r.Parsed? ==> Size(r.rest) < Size(ps)
  {
    if ps == [] then Unexpected("")
    else if First(ps[0].text) != k then Unexpected(Token(ps[0]))
    else Parsed((), Advance(ps, SplitKeyword(ps[0].text).1))
  }

  function ListP(ps: Statements, stop: Stop): (r: Parsed<seq<Tree.Item>>)
    ensures r.Parsed? ==> Size(r.rest) <= Size(ps)
    decreases Size(ps), 5
  {
    if ps == [] then Parsed([], ps)
    else
      var k := First(ps[0].text);
      if Stops(stop, k) || (DoubleSemi(ps[0]) && stop.AtEsac?) then Parsed([], ps)
      else if DoubleSemi(ps[0]) then Unexpected(";;")
      else if Reserved(k) then Parsed([], ps)
      else
        var it := ItemP(ps);
        if it.Unexpected? then Unexpected(it.token)
        else
          var more := ListP(it.rest, stop);
          if more.Unexpected? then Unexpected(more.token) else Parsed([it.value] + more.value, more.rest)
  }

  function NonEmptyP(ps: Statements, stop: Stop): (r: Parsed<seq<Tree.Item>>)
    ensures r.Parsed? ==> r.value != [] && Size(r.rest) <= Size(ps)
    decreases Size(ps), 6
  {
    var items := ListP(ps, stop);
    if items.Unexpected? then Unexpected(items.token)
    else if items.value != [] then items
    else Unexpected(if items.rest == [] then "" else Token(items.rest[0]))
  }

  predicate StartsPipe(text: string) {
    var t := Trim(text);
    t != "" && t[0] == '|' && !(|t| > 1 && t[1] == '|')
  }

  /** A compound command followed by `| cmd` keeps that pipe as its text. */
  function ItemP(ps: Statements): (r: Parsed<Tree.Item>)
    requires ps != []
    ensures r.Parsed? ==> Size(r.rest) < Size(ps)
    decreases Size(ps), 4
  {
    var it := InnerP(ps);
    if it.Unexpected? || it.value.node.Simple? || it.value.node.Subshell? then it
    else if it.rest != [] && StartsPipe(it.rest[0].text) then
      Parsed(it.value.(tail := Trim(it.rest[0].text)), it.rest[1..])
    else it
  }

  function WithFeed(node: Tree.Node, feed: string): Tree.Node {
    match node
    case Group(_, _) => node.(feed := feed)
    case Loop(_, _, _, _, _) => node.(lfeed := feed)
    case _ => node
  }

  function InnerP(ps: Statements): (r: Parsed<Tree.Item>)
    requires ps != []
    ensures r.Parsed? ==> Size(r.rest) < Size(ps)
    decreases Size(ps), 3
  {
    var st := ps[0];
    var feed := SplitFeed(st.text);
    if feed.Some? then
      var it := InnerP([st.(text := feed.value.1)] + ps[1..]);
      if it.Unexpected? then it
      else Parsed(it.value.(node := WithFeed(it.value.node, feed.value.0)), it.rest)
    else if st.text != "" && st.text[0] == '(' && !(|st.text| > 1 && st.text[1] == '(') then SubshellP(ps)
    else
      var header := FuncHeader(st.text);
      if header.Some? then FuncP(ps, header.value.0, header.value.1)
      else CommandP(ps)
  }

  predicate Opens(k: Keyword) {
    k.If? || k.OpenBrace? || k.Case? || k.For? || k.While? || k.Until?
  }

  function CommandP(ps: Statements): (r: Parsed<Tree.Item>)
    requires ps != []
    ensures r.Parsed? ==> Size(r.rest) < Size(ps)
    decreases Size(ps), 2
  {
    var k := First(ps[0].text);
    if Opens(k) then CompoundP(ps, k, SepOf(ps[0].sep), SplitKeyword(ps[0].text).1)
    else Parsed(Tree.Item(SepOf(ps[0].sep), Tree.Simple(ps[0].text), ""), ps[1..])
  }

  /** A compound command whose keyword is `k`, followed by `rest`. */
  function CompoundP(ps: Statements, k: Keyword, sep: Tree.Sep, rest: string): (r: Parsed<Tree.Item>)
    requires ps != [] && Opens(k) && (rest == "" || |rest| < |ps[0].text|)
    ensures r.Parsed? ==> Size(r.rest) < Size(ps)
    decreases Size(ps), 1
  {
    match k
    case If => IfP(ps, sep, rest)
    case OpenBrace => GroupP(ps, sep, rest)
    case Case => CaseP(ps, sep, rest)
    case For => ForP(ps, sep, rest)
    case While => LoopP(Advance(ps, rest), sep, false)
    case Until => LoopP(Advance(ps, rest), sep, true)
  }

  function IfP(ps: Statements, sep: Tree.Sep, rest: string): (r: Parsed<Tree.Item>)
    requires ps != [] && (rest == "" || |rest| < |ps[0].text|)
    ensures r.Parsed? ==> Size(r.rest) < Size(ps)
    decreases Size(ps), 0
  {
    var node := BranchesP(Advance(ps, rest));
    if node.Unexpected? then Unexpected(node.token) else Parsed(Tree.Item(sep, node.value, ""), node.rest)
  }

  function GroupP(ps: Statements, sep: Tree.Sep, rest: string): (r: Parsed<Tree.Item>)
    requires ps != [] && (rest == "" || |rest| < |ps[0].text|)
    ensures r.Parsed? ==> Size(r.rest) < Size(ps)
    decreases Size(ps), 0
  {
    var body := NonEmptyP(Advance(ps, rest), AtBrace);
    if body.Unexpected? then Unexpected(body.token)
    else
      var close := Expect(body.rest, CloseBrace);
      if close.Unexpected? then Unexpected(close.token)
      else Parsed(Tree.Item(sep, Tree.Group("", body.value), ""), close.rest)
  }

  /** `cond; then body` */
  function BranchP(ps: Statements): (r: Parsed<Tree.Branch>)
    ensures r.Parsed? ==> Size(r.rest) < Size(ps)
    decreases Size(ps), 7
  {
    var cond := NonEmptyP(ps, AtThen);
    if cond.Unexpected? then Unexpected(cond.token)
    else
      var then_ := Expect(cond.rest, Then);
      if then_.Unexpected? then Unexpected(then_.token)
      else
        var body := NonEmptyP(then_.rest, AtBranch);
        if body.Unexpected? then Unexpected(body.token)
        else Parsed(Tree.Branch(cond.value, body.value), body.rest)
  }

  /** A branch, and then another branch, an else part or the end. */
  function BranchesP(ps: Statements): (r: Parsed<Tree.Node>)
    ensures r.Parsed? ==> r.value.If? && Size(r.rest) < Size(ps)
    decreases Size(ps), 8
  {
    var branch := BranchP(ps);
    if branch.Unexpected? then Unexpected(branch.token)
    else if branch.rest == [] then Unexpected("")
    else AfterBranchP(branch.value, branch.rest)
  }

  function AfterBranchP(branch: Tree.Branch, ps: Statements): (r: Parsed<Tree.Node>)
    requires ps != []
    ensures r.Parsed? ==> r.value.If? && Size(r.rest) < Size(ps)
    decreases Size(ps), 0
  {
    var (_, rest) := SplitKeyword(ps[0].text);
    var k := First(ps[0].text);
    if k.Elif? then
      var more := BranchesP(Advance(ps, rest));
      if more.Unexpected? then more
      else Parsed(Tree.If([branch] + more.value.branches, more.value.elseBody), more.rest)
    else if k.Else? then ElseP(branch, Advance(ps, rest))
    else
      var fi := Expect(ps, Fi);
      if fi.Unexpected? then Unexpected(fi.token) else Parsed(Tree.If([branch], []), fi.rest)
  }

  function ElseP(branch: Tree.Branch, ps: Statements): (r: Parsed<Tree.Node>)
    ensures r.Parsed? ==> r.value.If? && Size(r.rest) < Size(ps)
    decreases Size(ps), 7
  {
    var body := NonEmptyP(ps, AtFi);
    if body.Unexpected? then Unexpected(body.token)
    else
      var fi := Expect(body.rest, Fi);
      if fi.Unexpected? then Unexpected(fi.token) else Parsed(Tree.If([branch], body.value), fi.rest)
  }

  function CaseP(ps: Statements, sep: Tree.Sep, text: string): (r: Parsed<Tree.Item>)
    requires ps != [] && (text == "" || |text| < |ps[0].text|)
    ensures r.Parsed? ==> Size(r.rest) < Size(ps)
    decreases Size(ps), 0
  {
    var (word, rest) := RawWord(text);
    var (in_, after) := SplitKeyword(rest);
    if word == "" || in_ != ['i', 'n'] then Unexpected(in_)
    else
      var arms := ArmsP(Advance(ps, after));
      if arms.Unexpected? then Unexpected(arms.token)
      else Parsed(Tree.Item(sep, Tree.Case(word, arms.value), ""), arms.rest)
  }

  function IndexOf(s: string, i: nat, c: char): (j: nat)
    requires i <= |s|
    ensures i <= j <= |s|
    decreases |s| - i
  {
    if i < |s| && s[i] != c then IndexOf(s, i + 1, c) else i
  }

  /** `[(] patterns )` at the start of a statement: the patterns, and what follows them. */
  function ArmHead(st: string): (r: Option<(seq<string>, string)>)
    ensures r.Some? ==> |r.value.1| < |st|
  {
    var text := if st != "" && st[0] == '(' then st[1..] else st;
    var end := IndexOf(text, 0, ')');
    if end == |text| then None
    else
      TrimIsShorter(text[end + 1..]);
      Some((Patterns(text[..end]), Trim(text[end + 1..])))
  }

  function ArmsP(ps: Statements): (r: Parsed<seq<Tree.Arm>>)
    ensures r.Parsed? ==> Size(r.rest) < Size(ps)
    decreases Size(ps), 6
  {
    if ps == [] then Unexpected("")
    else if First(ps[0].text).Esac? then Parsed([], Advance(ps, SplitKeyword(ps[0].text).1))
    else
      var head := ArmHead(ps[0].text);
      if head.None? then Unexpected(Token(ps[0])) else ArmP(Advance(ps, head.value.1), head.value.0)
  }

  /** The list of one arm, and then the other arms. */
  function ArmP(ps: Statements, patterns: seq<string>): (r: Parsed<seq<Tree.Arm>>)
    ensures r.Parsed? ==> Size(r.rest) < Size(ps)
    decreases Size(ps), 7
  {
    var body := ListP(ps, AtEsac);
    if body.Unexpected? then Unexpected(body.token)
    else
      var more := ArmsP(body.rest);
      if more.Unexpected? then more else Parsed([Tree.Arm(patterns, body.value)] + more.value, more.rest)
  }

  function ForP(ps: Statements, sep: Tree.Sep, text: string): (r: Parsed<Tree.Item>)
    requires ps != []
    ensures r.Parsed? ==> Size(r.rest) < Size(ps)
    decreases Size(ps), 0
  {
    var (name, rest) := RawWord(text);
    var (in_, after) := SplitKeyword(rest);
    if name == "" || in_ != ['i', 'n'] then Unexpected(in_)
    else
      var body := DoP(ps[1..]);
      if body.Unexpected? then Unexpected(body.token)
      else Parsed(Tree.Item(sep, Tree.For(name, RawWords(after), body.value), ""), body.rest)
  }

  /** `do body; done`. */
  function DoP(ps: Statements): (r: Parsed<seq<Tree.Item>>)
    ensures r.Parsed? ==> Size(r.rest) < Size(ps)
    decreases Size(ps), 7
  {
    var do_ := Expect(ps, Do);
    if do_.Unexpected? then Unexpected(do_.token)
    else
      var body := NonEmptyP(do_.rest, AtDone);
      if body.Unexpected? then body
      else
        var done := Expect(body.rest, Done);
        if done.Unexpected? then Unexpected(done.token) else Parsed(body.value, done.rest)
  }

  /** `cond; do body; done [< file]`, after the keyword. */
  function LoopP(ps: Statements, sep: Tree.Sep, until: bool): (r: Parsed<Tree.Item>)
    ensures r.Parsed? ==> Size(r.rest) < Size(ps)
    decreases Size(ps), 7
  {
    var cond := NonEmptyP(ps, AtDo);
    if cond.Unexpected? then Unexpected(cond.token)
    else
      var do_ := Expect(cond.rest, Do);
      if do_.Unexpected? then Unexpected(do_.token)
      else
        var body := NonEmptyP(do_.rest, AtDone);
        if body.Unexpected? then Unexpected(body.token)
        else if body.rest == [] then Unexpected("")
        else EndLoopP(body.rest, sep, until, cond.value, body.value)
  }

  function EndLoopP(ps: Statements, sep: Tree.Sep, until: bool, cond: seq<Tree.Item>,
      body: seq<Tree.Item>): (r: Parsed<Tree.Item>)
    requires ps != []
    ensures r.Parsed? ==> Size(r.rest) < Size(ps)
  {
    var (token, text) := SplitKeyword(ps[0].text);
    if !First(ps[0].text).Done? then Unexpected(token)
    else
      var redirected := text != "" && text[0] == '<';
      var (input, rest) := if redirected then InputOf(text) else ("", text);
      Parsed(Tree.Item(sep, Tree.Loop(until, cond, body, input, ""), ""), Advance(ps, rest))
  }

  /** The file of `< file`, and what follows it. */
  function InputOf(text: string): (r: (string, string))
    requires text != ""
    ensures |r.1| < |text|
  {
    TrimIsShorter(text[1..]);
    RawWord(Trim(text[1..]))
  }

  function FuncP(ps: Statements, name: string, rest: string): (r: Parsed<Tree.Item>)
    requires ps != [] && |rest| < |ps[0].text|
    ensures r.Parsed? ==> Size(r.rest) < Size(ps)
    decreases Size(ps), 0
  {
    var ps' := if rest == "" then ps[1..] else [ps[0].(text := rest)] + ps[1..];
    if ps' == [] then Unexpected("")
    else
      var body := InnerP(ps');
      if body.Unexpected? then body
      else if !body.value.node.Group? then Unexpected("(")
      else Parsed(Tree.Item(SepOf(ps[0].sep), Tree.Func(name, body.value.node.gbody), ""), body.rest)
  }

  /** `( list ) [redirects]`: the text inside is split and parsed again. */
  function SubshellP(ps: Statements): (r: Parsed<Tree.Item>)
    requires ps != [] && ps[0].text != ""
    ensures r.Parsed? ==> Size(r.rest) < Size(ps)
    decreases Size(ps), 0
  {
    var text := ps[0].text;
    var end := ParenEnd(text, 0, None, 0, []);
    if end.None? || end.value == 0 then Unexpected("")
    else
      StatementsAreShorter(text[1..end.value]);
      var body := WholeP(Scanners.Statements(text[1..end.value]));
      if body.Unexpected? then Unexpected(body.token)
      else if body.value == [] then Unexpected(")")
      else Parsed(Tree.Item(SepOf(ps[0].sep), Tree.Subshell(body.value), Trim(text[end.value + 1..])), ps[1..])
  }

  /** `parseStatements`: one list, and nothing after it. */
  function WholeP(ps: Statements): (r: Parsed<seq<Tree.Item>>)
    decreases Size(ps), 6
  {
    var items := ListP(ps, AtEnd);
    if items.Unexpected? || items.rest == [] then items
    else Unexpected(if DoubleSemi(items.rest[0]) then ";;" else Token(items.rest[0]))
  }
}

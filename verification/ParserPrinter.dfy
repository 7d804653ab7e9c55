// Trees as statement lists: what the statement splitter hands to the parser
// for a program printed from a syntax tree over plain statements.

module ParserPrinter {
  import opened ShellText
  import opened Scanners
  import opened ParserText
  import opened Grammar
  import opened Tree = ShellSyntax

  // ----- trees that have a text -----

  /** A character that no scanner of the parser looks for. */
  predicate BareChar(c: char) {
    !Space(c) && c != QUOTE && c != DQUOTE && c != '(' && c != ')' && c != '|' && !Angle(c)
  }

  predicate Bare(w: string) {
    w != "" && forall k :: 0 <= k < |w| ==> BareChar(w[k])
  }

  predicate LeadsWhile(k: Keyword) {
    k.While? || k.Until?
  }

  predicate LeadsLoop(k: Keyword) {
    LeadsWhile(k) || k.OpenBrace?
  }

  /** No pipe with a loop or a group behind it. */
  predicate NoFeed(s: string) {
    forall i :: 0 <= i < |s| && s[i] == '|' ==> !LeadsLoop(ParserText.First(Trim(s[i + 1..])))
  }

  /** No pipe with a `while` or an `until` behind it. */
  predicate NoLoop(s: string) {
    forall i :: 0 <= i < |s| && s[i] == '|' ==> !LeadsWhile(ParserText.First(Trim(s[i + 1..])))
  }

  /** Text that starts neither a subshell nor the rest of a pipeline, and feeds no `while` or `until`. */
  predicate Tame(s: string) {
    Solid(s) && s[0] != '(' && s[0] != '|' && NoLoop(s)
  }

  /** Text that is not taken apart at a pipe: a group is fed only where no compound command starts. */
  predicate Opening(s: string) {
    Tame(s) && (NoFeed(s) || StartsCompound(s))
  }

  /** A simple command that the parser takes for nothing else. */
  predicate PlainText(text: string) {
    Opening(text) && FuncHeader(text).None? && ParserText.First(text).Other?
  }

  /** Nothing, or `| cmd`. */
  predicate TailOk(tail: string) {
    tail != "" ==> Solid(tail) && tail[0] == '|' && !(|tail| > 1 && tail[1] == '|')
  }

  /** A character that the search for a producer passes over. */
  predicate Passed(c: char) {
    c != QUOTE && c != DQUOTE && c != '\\' && c != '(' && c != ')' && c != '|'
  }

  /** A producer of one command that no scanner stops in. */
  predicate FeedText(feed: string) {
    Solid(feed) && ParserText.First(feed).Other? && forall k :: 0 <= k < |feed| ==> Passed(feed[k])
  }

  /** The producer of a loop or a group. */
  function FeedOf(node: Node): string {
    if node.Group? then node.feed else if node.Loop? then node.lfeed else ""
  }

  predicate FuncName(name: string) {
    name != "" && NameStart(name[0]) && forall k :: 0 <= k < |name| ==> NamePart(name[k])
  }

  predicate GoodItems(items: seq<Item>)
    decreases items, 0
  {
    items != [] ==> GoodItem(items[0]) && GoodItems(items[1..])
  }

  /** The list inside a compound command: not empty, and no operator before the first item. */
  predicate GoodList(items: seq<Item>)
    decreases items, 1
  {
    items != [] && items[0].sep.First? && GoodItems(items)
  }

  predicate LoopFed(node: Node) {
    node.Loop? && node.lfeed != ""
  }

  /** The first item is a loop with a producer. */
  predicate LoopLed(items: seq<Item>) {
    items != [] && LoopFed(items[0].node)
  }

  /** The producer of a group stands in the first statement. */
  predicate GroupLed(items: seq<Item>)
    decreases items, 1
  {
    items != [] && GroupLedNode(items[0].node)
  }

  predicate GroupLedNode(node: Node)
    decreases node, 0
  {
    match node
    case Group(feed, body) => feed != "" || GroupLed(body)
    case If(branches, _) => branches != [] && GroupLed(branches[0].cond)
    case Loop(_, cond, _, _, _) => GroupLed(cond)
    case _ => false
  }

  /** The list that starts in the first statement of a command, behind a keyword or the header of a function. */
  function HeadOf(node: Node): seq<Item> {
    match node
    case If(branches, _) => if branches == [] then [] else branches[0].cond
    case Group(_, body) => body
    case Loop(_, cond, _, _, _) => cond
    case Func(_, body) => body
    case _ => []
  }

  /**
   What is in front of a producer in the first statement would become part of
   it, and is not: a keyword in front of a loop's producer, and the header of
   a function or another producer in front of any.
   */
  predicate Readable(node: Node) {
    !LoopLed(HeadOf(node)) && (node.Func? || FeedOf(node) != "" ==> !GroupLed(HeadOf(node)))
  }

  predicate GoodBranches(branches: seq<Branch>)
    decreases branches, 0
  {
    branches != [] ==>
      GoodList(branches[0].cond) && GoodList(branches[0].body) && GoodBranches(branches[1..])
  }

  predicate GoodWords(words: seq<string>) {
    forall k :: 0 <= k < |words| ==> Bare(words[k])
  }

  predicate GoodArms(arms: seq<Arm>)
    decreases arms, 0
  {
    arms != [] ==>
      && arms[0].patterns != [] && GoodWords(arms[0].patterns)
      && (arms[0].body == [] || GoodList(arms[0].body))
      && GoodArms(arms[1..])
  }

  predicate GoodItem(it: Item)
    decreases it, 0
  {
    && TailOk(it.tail) && SoundNode(it.node) && (it.node.Simple? ==> it.tail == "")
    && (FeedOf(it.node) == "" || FeedText(FeedOf(it.node))) && Readable(it.node)
  }

  /** Good in all its parts; whether it can be read is another question. */
  predicate SoundItem(it: Item) {
    && TailOk(it.tail) && SoundNode(it.node) && (it.node.Simple? ==> it.tail == "")
    && (FeedOf(it.node) == "" || FeedText(FeedOf(it.node)))
  }

  predicate SoundNode(node: Node)
    decreases node, 0
  {
    match node
    case Simple(text) => PlainText(text)
    case If(branches, elseBody) =>
      branches != [] && GoodBranches(branches) && (elseBody == [] || GoodList(elseBody))
    case Group(_, body) => GoodList(body)
    case Case(word, arms) => Bare(word) && GoodArms(arms)
    case For(name, words, body) => Bare(name) && GoodWords(words) && GoodList(body)
    case Loop(_, cond, body, input, _) => (input == "" || Bare(input)) && GoodList(cond) && GoodList(body)
    case Subshell(_) => false
    case Func(name, body) => FuncName(name) && GoodList(body)
  }

  // ----- their text -----

  const SEMI := [';']
  const DOUBLE_SEMI := [';', ';']
  const IN := ['i', 'n']

  function SepText(sep: Sep): string {
    match sep
    case First => []
    case Semi => SEMI
    case And => ['&', '&']
    case Or => ['|', '|']
  }

  function St(sep: string, text: string): Statement {
    Statement(sep, text, 0)
  }

  function After(word: string, text: string): string {
    word + ([' '] + text)
  }

  function Suffixed(word: string, text: string): string {
    if text == "" then word else After(word, text)
  }

  /** A word in front of the first statement. */
  function Led(sep: string, word: string, ps: Statements): (r: Statements)
    ensures r != []
  {
    if ps == [] then [St(sep, word)] else [St(sep, After(word, ps[0].text))] + ps[1..]
  }

  function FedText(feed: string, loop: string): string {
    After(feed, After(['|'], loop))
  }

  /** A producer in front of the first statement. */
  function Fed(feed: string, ps: Statements): (r: Statements)
    requires ps != []
    ensures r != []
  {
    if feed == "" then ps else [ps[0].(text := FedText(feed, ps[0].text))] + ps[1..]
  }

  function JoinGap(words: seq<string>): string {
    if words == [] then "" else Suffixed(words[0], JoinGap(words[1..]))
  }

  function JoinBar(words: seq<string>): string {
    if words == [] then "" else if |words| == 1 then words[0] else words[0] + (['|'] + JoinBar(words[1..]))
  }

  function ArmText(patterns: seq<string>): string {
    JoinBar(patterns) + [')']
  }

  function LoopEnd(input: string, tail: string): string {
    if input == "" then tail else After(['<'], Suffixed(input, tail))
  }

  function Close(k: Keyword, text: string, more: Statements): (r: Statements)
    ensures r != []
  {
    [St(SEMI, Suffixed(Spelling(k), text))] + more
  }

  /** The statements of the items, and then `more`. */
  function ListS(items: seq<Item>, more: Statements): (r: Statements)
    ensures items != [] ==> r != []
    decreases items, 0
  {
    if items == [] then more else ItemS(items[0], ListS(items[1..], more))
  }

  function ItemS(it: Item, more: Statements): (r: Statements)
    ensures r != []
    decreases it, 0
  {
    var sep := SepText(it.sep);
    match it.node
    case Simple(text) => [St(sep, text)] + more
    case If(branches, elseBody) => BranchesS(sep, Keyword.If, branches, ElseS(elseBody, it.tail, more))
    case Group(feed, body) => Fed(feed, GroupS(sep, body, it.tail, more))
    case Case(word, arms) =>
      [St(sep, After(Spelling(Keyword.Case), After(word, IN)))] + ArmsS(SEMI, arms, it.tail, more)
    case For(name, words, body) =>
      [St(sep, After(Spelling(Keyword.For), After(name, Suffixed(IN, JoinGap(words)))))] + DoS(body, it.tail, more)
    case Loop(until, cond, body, input, feed) =>
      Fed(feed, Led(sep, Spelling(if until then Until else While),
        ListS(cond, DoS(body, LoopEnd(input, it.tail), more))))
    case Subshell(_) => [St(sep, "")] + more
    case Func(name, body) => Led(sep, name + ['(', ')'], GroupS([], body, it.tail, more))
  }

  function GroupS(sep: string, body: seq<Item>, tail: string, more: Statements): (r: Statements)
    ensures r != []
    decreases body, 1
  {
    Led(sep, Spelling(OpenBrace), ListS(body, Close(CloseBrace, tail, more)))
  }

  function DoS(body: seq<Item>, end: string, more: Statements): (r: Statements)
    ensures r != []
    decreases body, 1
  {
    Led(SEMI, Spelling(Do), ListS(body, Close(Done, end, more)))
  }

  function BranchesS(sep: string, k: Keyword, branches: seq<Branch>, end: Statements): (r: Statements)
    requires end != []
    ensures r != []
    decreases branches, 2
  {
    if branches == [] then end else Led(sep, Spelling(k), ChainS(branches, end))
  }

  /** The branches from the first condition on. */
  function ChainS(branches: seq<Branch>, end: Statements): Statements
    requires branches != [] && end != []
    decreases branches, 1
  {
    ListS(branches[0].cond,
      Led(SEMI, Spelling(Then), ListS(branches[0].body, BranchesS(SEMI, Elif, branches[1..], end))))
  }

  function ElseS(elseBody: seq<Item>, tail: string, more: Statements): (r: Statements)
    ensures r != []
    decreases elseBody, 1
  {
    if elseBody == [] then Close(Fi, tail, more)
    else Led(SEMI, Spelling(Else), ListS(elseBody, Close(Fi, tail, more)))
  }

  function ArmsS(sep: string, arms: seq<Arm>, tail: string, more: Statements): (r: Statements)
    ensures r != []
    decreases arms, 0
  {
    if arms == [] then [St(sep, Suffixed(Spelling(Esac), tail))] + more
    else
      var rest := ArmsS(DOUBLE_SEMI, arms[1..], tail, more);
      if arms[0].body == [] then [St(sep, ArmText(arms[0].patterns))] + rest
      else Led(sep, ArmText(arms[0].patterns), ListS(arms[0].body, rest))
  }
}

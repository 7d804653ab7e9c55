// A subshell in the statement list: what stands between its parentheses is
// split and parsed by itself, and the item keeps the operator in front of the
// statement and the text behind the closing parenthesis.

module ParserSubshells {
  import opened Wrappers
  import opened ShellText
  import opened Scanners
  import opened ParserText
  import opened Grammar
  import opened Pieces
  import Tree = ShellSyntax
  import opened P = ParserPrinter
  import opened W = ParserWords

  // ----- text in which every parenthesis is closed -----

  predicate Closed(ps: seq<Piece>)
    decreases ps, 0
  {
    ps != [] ==> ClosedPiece(ps[0]) && Closed(ps[1..])
  }

  /** A backslash does not keep a quote or a parenthesis from being one here. */
  predicate ClosedPiece(p: Piece)
    decreases p, 0
  {
    match p
    case Flat(text) => forall k :: 0 <= k < |text| ==> text[k] !in [QUOTE, DQUOTE, '(', ')']
    case Span(quote, text) => (quote == QUOTE || quote == DQUOTE) && quote !in text
    case Escape(c) => c !in [QUOTE, DQUOTE, '(', ')']
    case Nested(pieces) => Closed(pieces)
  }

  // ----- the closing parenthesis -----

  /** The search, where there is no `case`. */
  function Search(t: string, i: nat, quote: Option<char>, depth: int): Option<nat>
    requires i <= |t|
    decreases |t| - i
  {
    if i == |t| then None
    else
      var c := t[i];
      if quote.Some? then Search(t, i + 1, if quote == Some(c) then None else quote, depth)
      else if c == QUOTE || c == DQUOTE then Search(t, i + 1, Some(c), depth)
      else if c == '(' then Search(t, i + 1, None, depth + 1)
      else if c == ')' then (if depth == 1 then Some(i) else Search(t, i + 1, None, depth - 1))
      else Search(t, i + 1, None, depth)
  }

  lemma {:induction false} SearchIs(t: string, i: nat, quote: Option<char>, depth: int)
    requires NoCase(t) && i <= |t|
    ensures ParenEnd(t, i, quote, depth, []) == Search(t, i, quote, depth)
    decreases |t| - i
  {
    if i < |t| {
      var c := t[i];
      NoCaseStep(t, i);
      var quote' := if quote.Some? then (if quote == Some(c) then None else quote)
                    else if c == QUOTE || c == DQUOTE then Some(c) else None;
      var depth' := if quote.Some? then depth
                    else if c == '(' then depth + 1 else if c == ')' then depth - 1 else depth;
      SearchIs(t, i + 1, quote', depth');
    }
  }

  /** From `i` in one state the search comes to `j` in another. */
  ghost predicate Goes(t: string, i: nat, quote: Option<char>, depth: int, j: nat, quote': Option<char>, depth': int) {
    i <= j <= |t| && Search(t, i, quote, depth) == Search(t, j, quote', depth')
  }

  lemma {:induction false} GoesOn(t: string, i: nat, q: Option<char>, d: int, j: nat, q': Option<char>, d': int,
      k: nat, q'': Option<char>, d'': int)
    requires Goes(t, i, q, d, j, q', d') && Goes(t, j, q', d', k, q'', d'')
    ensures Goes(t, i, q, d, k, q'', d'')
  {
  }

  lemma {:induction false} CharGoes(t: string, i: nat, quote: Option<char>, depth: int, c: char)
    requires i < |t| && t[i] == c && !(quote.None? && c == ')' && depth == 1)
    ensures if quote.Some? then Goes(t, i, quote, depth, i + 1, if quote == Some(c) then None else quote, depth)
            else if c == QUOTE || c == DQUOTE then Goes(t, i, None, depth, i + 1, Some(c), depth)
            else Goes(t, i, None, depth, i + 1, None,
                   if c == '(' then depth + 1 else if c == ')' then depth - 1 else depth)
  {
  }

  /** Text that does not change the state: no quote or parenthesis outside quotes, no closing quote inside. */
  lemma {:induction false} PlainGoes(t: string, i: nat, quote: Option<char>, depth: int, j: nat)
    requires i <= j <= |t|
    requires forall k :: i <= k < j ==>
               if quote.Some? then t[k] != quote.value else t[k] !in [QUOTE, DQUOTE, '(', ')']
    ensures Goes(t, i, quote, depth, j, quote, depth)
    decreases j - i
  {
    if i < j {
      CharGoes(t, i, quote, depth, t[i]);
      PlainGoes(t, i + 1, quote, depth, j);
    }
  }

  lemma {:induction false} FlatGoes(t: string, i: nat, quote: Option<char>, depth: int, s: string)
    requires Stands(t, i, s)
    requires forall k :: 0 <= k < |s| ==>
               if quote.Some? then s[k] != quote.value else s[k] !in [QUOTE, DQUOTE, '(', ')']
    ensures Goes(t, i, quote, depth, i + |s|, quote, depth)
  {
    assert forall k :: i <= k < i + |s| ==> t[k] == t[i..i + |s|][k - i];
    PlainGoes(t, i, quote, depth, i + |s|);
  }

  lemma {:induction false} SpanGoes(t: string, i: nat, depth: int, quote: char, s: string)
    requires Stands(t, i, [quote] + (s + [quote])) && ClosedPiece(Span(quote, s))
    ensures Goes(t, i, None, depth, i + |s| + 2, None, depth)
  {
    StandsAround(t, i, quote, s, quote);
    CharGoes(t, i, None, depth, quote);
    assert forall k :: 0 <= k < |s| ==> s[k] in s;
    FlatGoes(t, i + 1, Some(quote), depth, s);
    CharGoes(t, i + 1 + |s|, Some(quote), depth, quote);
    GoesOn(t, i, None, depth, i + 1, Some(quote), depth, i + 1 + |s|, Some(quote), depth);
    GoesOn(t, i, None, depth, i + 1 + |s|, Some(quote), depth, i + |s| + 2, None, depth);
  }

  lemma {:induction false} PieceGoes(t: string, i: nat, depth: int, p: Piece)
    requires depth >= 1 && ClosedPiece(p) && Stands(t, i, PieceText(p))
    ensures Goes(t, i, None, depth, i + |PieceText(p)|, None, depth)
    decreases p, 1
  {
    match p
    case Flat(s) => FlatGoes(t, i, None, depth, s);
    case Span(quote, s) => SpanGoes(t, i, depth, quote, s);
    case Escape(c) => FlatGoes(t, i, None, depth, ['\\', c]);
    case Nested(pieces) =>
      var s := PiecesText(pieces);
      StandsAround(t, i, '(', s, ')');
      PiecesGo(t, i + 1, depth + 1, pieces);
      NestedGoes(t, i, depth, s);
  }

  lemma {:induction false} NestedGoes(t: string, i: nat, depth: int, s: string)
    requires depth >= 1 && i + |s| + 2 <= |t| && t[i] == '(' && t[i + 1 + |s|] == ')'
    requires Goes(t, i + 1, None, depth + 1, i + 1 + |s|, None, depth + 1)
    ensures Goes(t, i, None, depth, i + |s| + 2, None, depth)
  {
    CharGoes(t, i, None, depth, '(');
    CharGoes(t, i + 1 + |s|, None, depth + 1, ')');
    GoesOn(t, i, None, depth, i + 1, None, depth + 1, i + 1 + |s|, None, depth + 1);
    GoesOn(t, i, None, depth, i + 1 + |s|, None, depth + 1, i + |s| + 2, None, depth);
  }

  lemma {:induction false} PiecesGo(t: string, i: nat, depth: int, ps: seq<Piece>)
    requires depth >= 1 && Closed(ps) && Stands(t, i, PiecesText(ps))
    ensures Goes(t, i, None, depth, i + |PiecesText(ps)|, None, depth)
    decreases ps, 1
  {
    if ps != [] {
      var a, b := PieceText(ps[0]), PiecesText(ps[1..]);
      StandsBoth(t, i, a, b);
      PieceGoes(t, i, depth, ps[0]);
      PiecesGo(t, i + |a|, depth, ps[1..]);
      GoesOn(t, i, None, depth, i + |a|, None, depth, i + |a| + |b|, None, depth);
    }
  }

  /** The first parenthesis is closed by the one behind the pieces. */
  lemma {:induction false} ClosesBehind(ps: seq<Piece>, tail: string)
    requires Closed(ps) && NoCase("(" + PiecesText(ps) + ")" + tail)
    ensures ParenEnd("(" + PiecesText(ps) + ")" + tail, 0, None, 0, []) == Some(|PiecesText(ps)| + 1)
  {
    var s := PiecesText(ps);
    var t := "(" + s + ")" + tail;
    SearchIs(t, 0, None, 0);
    assert t[1..1 + |s|] == s && t[1 + |s|] == ')';
    PiecesGo(t, 1, 1, ps);
  }

  // ----- the item -----

  /** The operator in front of a statement, as the tree has it. */
  predicate IsSep(text: string, sep: Tree.Sep) {
    match sep
    case First => text == ""
    case And => text == "&&"
    case Or => text == "||"
    case Semi => text != "" && text != "&&" && text != "||"
  }

  /** What is parsed of the text between the parentheses. */
  function Inside(s: string): Parsed<seq<Tree.Item>> {
    WholeP(Scanners.Statements(s))
  }

  lemma {:induction false} SepIs(before: string, sep: Tree.Sep)
    requires IsSep(before, sep)
    ensures SepOf(before) == sep
  {
  }

  lemma {:induction false} NoProducer(t: string)
    requires NoLoop(t) && Solid(t) && t[0] == '('
    ensures SplitFeed(t).None?
  {
    TrimSolid(t);
    assert StartsCompound(t);
    CutStays(t, AllFeeds(t), FeedScan(0, None, 0, None));
  }

  lemma {:induction false} SubshellOpens(ps: Statements)
    requires ps != [] && |ps[0].text| > 1 && ps[0].text[0] == '(' && ps[0].text[1] != '(' && SplitFeed(ps[0].text).None?
    ensures InnerP(ps) == SubshellP(ps)
  {
  }

  /** The item of a subshell whose inside parses to `body`. */
  function ItemOf(sep: Tree.Sep, body: Parsed<seq<Tree.Item>>, tail: string, more: Statements): Parsed<Tree.Item> {
    if body.Unexpected? then Unexpected(body.token)
    else if body.value == [] then Unexpected(")")
    else Parsed(Tree.Item(sep, Tree.Subshell(body.value), Trim(tail)), more)
  }

  lemma {:induction false} SubshellParts(ps: Statements, s: string, tail: string, body: Parsed<seq<Tree.Item>>,
      sep: Tree.Sep)
    requires ps != [] && ps[0].text == "(" + s + ")" + tail && IsSep(ps[0].sep, sep)
    requires ParenEnd(ps[0].text, 0, None, 0, []) == Some(|s| + 1) && body == Inside(s)
    ensures SubshellP(ps) == ItemOf(sep, body, tail, ps[1..])
  {
    var text := ps[0].text;
    assert text[1..|s| + 1] == s && text[|s| + 2..] == tail;
    SepIs(ps[0].sep, sep);
  }

  /** The text of the statement. */
  function SubshellText(ps: seq<Piece>, tail: string): string {
    "(" + PiecesText(ps) + ")" + tail
  }

  /** Text that starts a subshell, feeds no loop and holds no `case`. */
  predicate StartsSubshell(t: string) {
    NoCase(t) && NoLoop(t) && Solid(t) && |t| > 1 && t[0] == '(' && t[1] != '('
  }

  /**
   `( list ) tail`: an error inside is an error, an empty list is one too, and
   the rest of the statement list is left for what comes next.
   */
  lemma {:induction false} SubshellIsRead(sep: Tree.Sep, before: string, ps: seq<Piece>, tail: string, line: nat,
      more: Statements)
    requires IsSep(before, sep) && Closed(ps) && StartsSubshell(SubshellText(ps, tail))
    ensures InnerP([Statement(before, SubshellText(ps, tail), line)] + more) ==
            ItemOf(sep, Inside(PiecesText(ps)), tail, more)
  {
    var list := [Statement(before, SubshellText(ps, tail), line)] + more;
    NoProducer(list[0].text);
    SubshellOpens(list);
    SubshellHolds(list, ps, tail, sep);
    assert list[1..] == more;
  }

  lemma {:induction false} SubshellHolds(list: Statements, ps: seq<Piece>, tail: string, sep: Tree.Sep)
    requires list != [] && list[0].text == SubshellText(ps, tail) && IsSep(list[0].sep, sep)
    requires Closed(ps) && NoCase(list[0].text)
    ensures SubshellP(list) == ItemOf(sep, Inside(PiecesText(ps)), tail, list[1..])
  {
    ClosesBehind(ps, tail);
    SubshellParts(list, PiecesText(ps), tail, Inside(PiecesText(ps)), sep);
  }
}

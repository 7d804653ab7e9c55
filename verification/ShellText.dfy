// What the shell's scanners share: character classes, the marker characters,
// trimming, the tracker of `case` syntax (internal/shell/casescope.go) and the
// search for a closing parenthesis or brace (internal/shell/shell.go,
// internal/shell/paramexp.go).

module ShellText {
  import opened Wrappers

  const QUOTE := '\''
  const DQUOTE := '"'

  /** Stand for a quoted `$`, the ends of a quoted span, and a quoted `<` and `>`. */
  const LIT_DOLLAR := '\U{E000}'
  const Q_OPEN := '\U{E001}'
  const Q_CLOSE := '\U{E002}'
  const LIT_LT := '\U{E003}'
  const LIT_GT := '\U{E004}'

  predicate IdentStart(c: char) {
    c == '_' || 'a' <= c <= 'z' || 'A' <= c <= 'Z'
  }

  predicate IdentPart(c: char) {
    IdentStart(c) || '0' <= c <= '9'
  }

  predicate Marker(c: char) {
    c == LIT_DOLLAR || c == Q_OPEN || c == Q_CLOSE || c == LIT_LT || c == LIT_GT
  }

  /** White space as `strings.TrimSpace` sees it. */
  predicate Space(c: char) {
    || '\t' <= c <= '\r' || c == ' ' || c == '\U{85}' || c == '\U{A0}' || c == '\U{1680}'
    || '\U{2000}' <= c <= '\U{200A}' || c == '\U{2028}' || c == '\U{2029}'
    || c == '\U{202F}' || c == '\U{205F}' || c == '\U{3000}'
  }

  function FirstSolid(s: string, i: nat): (j: nat)
    requires i <= |s|
    ensures i <= j <= |s|
    decreases |s| - i
  {
    if i < |s| && Space(s[i]) then FirstSolid(s, i + 1) else i
  }

  function LastSolid(s: string, i: nat): (j: nat)
    requires i <= |s|
    ensures j <= i
  {
    if i > 0 && Space(s[i - 1]) then LastSolid(s, i - 1) else i
  }

  function Trim(s: string): string {
    var i, j := FirstSolid(s, 0), LastSolid(s, |s|);
    if i < j then s[i..j] else ""
  }

  /** Text that does not start or end with white space. */
  predicate Solid(s: string) {
    s != "" && !Space(s[0]) && !Space(s[|s| - 1])
  }

  predicate Blank(s: string) {
    forall k :: 0 <= k < |s| ==> Space(s[k])
  }

  lemma {:induction false} FirstSolidIs(s: string, i: nat, j: nat)
    requires i <= j < |s| && !Space(s[j]) && forall k :: i <= k < j ==> Space(s[k])
    ensures FirstSolid(s, i) == j
    decreases j - i
  {
    if i < j {
      FirstSolidIs(s, i + 1, j);
    }
  }

  lemma {:induction false} LastSolidIs(s: string, i: nat, j: nat)
    requires 0 < j <= i <= |s| && !Space(s[j - 1]) && forall k :: j <= k < i ==> Space(s[k])
    ensures LastSolid(s, i) == j
    decreases i
  {
    if j < i {
      LastSolidIs(s, i - 1, j);
    }
  }

  lemma {:induction false} TrimIs(a: string, s: string, b: string)
    requires Blank(a) && Blank(b) && Solid(s)
    ensures Trim(a + s + b) == s
  {
    var t := a + s + b;
    assert t[|a|] == s[0] && t[|a| + |s| - 1] == s[|s| - 1];
    FirstSolidIs(t, 0, |a|);
    LastSolidIs(t, |t|, |a| + |s|);
    assert t[|a|..|a| + |s|] == s;
  }

  /** The newlines among the first `n` characters. */
  function Newlines(s: string, n: nat): nat
    requires n <= |s|
  {
    if n == 0 then 0 else Newlines(s, n - 1) + (if s[n - 1] == '\n' then 1 else 0)
  }

  /** What a backslash keeps from being syntax inside double quotes. */
  predicate DoubleQuoteEscape(c: char) {
    c == '$' || c == '`' || c == '"' || c == '\\'
  }

  // ----- text at a position -----

  predicate At(t: string, i: nat, s: string)
    decreases |s|
  {
    if s == "" then i <= |t| else i < |t| && t[i] == s[0] && At(t, i + 1, s[1..])
  }

  lemma {:induction false} AtSplit(t: string, i: nat, a: string, b: string)
    ensures At(t, i, a + b) <==> At(t, i, a) && At(t, i + |a|, b)
    ensures At(t, i, a + b) ==> i + |a| + |b| <= |t|
    decreases |a| + |b|
  {
    if a != "" {
      assert (a + b)[1..] == a[1..] + b;
      AtSplit(t, i + 1, a[1..], b);
    } else {
      assert a + b == b;
      if b != "" {
        assert b == [b[0]] + b[1..] && [] + b[1..] == b[1..];
        AtSplit(t, i + 1, [], b[1..]);
      }
    }
  }

  lemma {:induction false} AtCons(t: string, i: nat, c: char, s: string)
    ensures At(t, i, [c] + s) <==> i < |t| && t[i] == c && At(t, i + 1, s)
  {
    assert ([c] + s)[1..] == s;
  }

  lemma {:induction false} AtWhole(before: string, s: string, after: string)
    ensures At(before + s + after, |before|, s)
    decreases |s|
  {
    if s != "" {
      var c, rest := s[0], s[1..];
      AtWhole(before + [c], rest, after);
      assert before + [c] + rest + after == before + s + after;
    }
  }

  lemma {:induction false} AtSlice(t: string, i: nat, s: string)
    requires At(t, i, s)
    ensures i + |s| <= |t| && t[i..i + |s|] == s
    decreases |s|
  {
    if s != "" {
      AtSlice(t, i + 1, s[1..]);
    }
  }

  lemma {:induction false} AtTail(t: string, i: nat)
    requires i <= |t|
    ensures At(t, i, t[i..])
    decreases |t| - i
  {
    if i < |t| {
      AtTail(t, i + 1);
      assert t[i..][1..] == t[i + 1..];
    }
  }

  // ----- `case` syntax -----

  datatype CaseState = CaseState(sawIn: bool, inPattern: bool)

  type CaseScope = seq<CaseState>

  function WordEnd(s: string, i: nat): (j: nat)
    requires i <= |s|
    ensures i <= j <= |s|
    decreases |s| - i
  {
    if i < |s| && IdentPart(s[i]) then WordEnd(s, i + 1) else i
  }

  /** The start of the run of name characters that ends before `k`. */
  function WordStart(s: string, k: nat): (j: nat)
    requires k <= |s|
    ensures j <= k
  {
    if k > 0 && IdentPart(s[k - 1]) then WordStart(s, k - 1) else k
  }

  /** The end of what precedes the blanks before `i`. */
  function SkipBlanksBack(s: string, i: nat): (j: nat)
    requires i <= |s|
    ensures j <= i
  {
    if i > 0 && (s[i - 1] == ' ' || s[i - 1] == '\t') then SkipBlanksBack(s, i - 1) else i
  }

  /** The word from `i` to `j` is these characters. */
  predicate Spells4(s: string, i: nat, j: nat, a: char, b: char, c: char, d: char)
    requires i <= j <= |s|
  {
    j == i + 4 && s[i] == a && s[i + 1] == b && s[i + 2] == c && s[i + 3] == d
  }

  predicate Spells2(s: string, i: nat, j: nat, a: char, b: char)
    requires i <= j <= |s|
  {
    j == i + 2 && s[i] == a && s[i + 1] == b
  }

  /** A separator, an opening bracket or one of the other characters that a command can follow. */
  predicate BeforeCommand(c: char) {
    || c == ';' || c == '&' || c == '|' || c == '(' || c == ')' || c == '{'
    || c == '\n' || c == '\r' || c == '`' || c == '!'
  }

  predicate WordBoundary(c: char) {
    || c == ' ' || c == '\t' || c == '\r' || c == '\n' || c == ';' || c == '&' || c == '|'
    || c == '(' || c == ')' || c == '<' || c == '>'
  }

  /** The word at `i` is where a command can start. */
  predicate AtCommandStart(s: string, i: nat)
    requires i <= |s|
  {
    var j := SkipBlanksBack(s, i);
    || j == 0
    || BeforeCommand(s[j - 1])
    || (var k := WordStart(s, j);
        || Spells4(s, k, j, 't', 'h', 'e', 'n')
        || Spells2(s, k, j, 'd', 'o')
        || Spells4(s, k, j, 'e', 'l', 's', 'e')
        || Spells4(s, k, j, 'e', 'l', 'i', 'f'))
  }

  /** Whether `#` at `i` starts a comment. */
  predicate AtWordStart(s: string, i: nat)
    requires i <= |s|
  {
    i == 0 || (WordBoundary(s[i - 1]) && s[i - 1] != '<' && s[i - 1] != '>')
  }

  /** The tracker after one character outside quotes, and whether a parenthesis there is `case` syntax. */
  function CaseStep(cs: CaseScope, s: string, i: nat): (CaseScope, bool)
    requires i < |s|
  {
    var b := s[i];
    var open := cs != [];
    var top := |cs| - 1;
    if IdentStart(b) && (i == 0 || !IdentPart(s[i - 1])) then
      var j := WordEnd(s, i);
      if j < |s| && !WordBoundary(s[j]) then (cs, false)
      else if Spells4(s, i, j, 'c', 'a', 's', 'e') then
        (if AtCommandStart(s, i) then cs + [CaseState(false, false)] else cs, false)
      else if Spells2(s, i, j, 'i', 'n') && open && !cs[top].sawIn then (cs[top := CaseState(true, true)], false)
      else if Spells4(s, i, j, 'e', 's', 'a', 'c') && open && cs[top].sawIn then (cs[..top], false)
      else (cs, false)
    else if b == ';' && i + 1 < |s| && s[i + 1] == ';' then
      (if open && cs[top].sawIn then cs[top := cs[top].(inPattern := true)] else cs, false)
    else if b == ')' && open && cs[top].inPattern then (cs[top := cs[top].(inPattern := false)], true)
    else if b == '(' && open && cs[top].inPattern then (cs, true)
    else (cs, false)
  }

  // ----- closing parenthesis and brace -----

  /** The `)` that closes the `depth` parentheses open at `i`. */
  function MatchParen(s: string, i: nat, depth: nat, cs: CaseScope, quote: Option<char>): (r: Option<nat>)
    requires i <= |s|
    ensures r.Some? ==> i <= r.value < |s|
    decreases |s| - i
  {
    if i == |s| then None
    else
      var c := s[i];
      if quote.Some? then
        if c == '\\' && quote == Some(DQUOTE) && i + 1 < |s| then MatchParen(s, i + 2, depth, cs, quote)
        else MatchParen(s, i + 1, depth, cs, if Some(c) == quote then None else quote)
      else if c == QUOTE || c == DQUOTE then MatchParen(s, i + 1, depth, cs, Some(c))
      else
        var (cs', skip) := CaseStep(cs, s, i);
        if c == '(' && !skip then MatchParen(s, i + 1, depth + 1, cs', None)
        else if c == ')' && !skip then
          (if depth <= 1 then Some(i) else MatchParen(s, i + 1, depth - 1, cs', None))
        else MatchParen(s, i + 1, depth, cs', None)
  }

  function MatchingParen(s: string, pos: nat): (r: Option<nat>)
    requires pos <= |s|
    ensures r.Some? ==> pos <= r.value < |s|
  {
    MatchParen(s, pos, 1, [], None)
  }

  function IndexOfChar(s: string, i: nat, c: char): (r: Option<nat>)
    requires i <= |s|
    ensures r.Some? ==> i <= r.value < |s| && s[r.value] == c
    decreases |s| - i
  {
    if i == |s| then None else if s[i] == c then Some(i) else IndexOfChar(s, i + 1, c)
  }

  /** The `}` that closes the `depth` braces open at `i`. */
  function MatchBrace(s: string, i: nat, depth: nat): (r: Option<nat>)
    ensures r.Some? ==> i <= r.value < |s|
    decreases |s| - i
  {
    if i >= |s| then None
    else
      var c := s[i];
      if c == '\\' then MatchBrace(s, i + 2, depth)
      else if c == QUOTE then
        var close := IndexOfChar(s, i + 1, QUOTE);
        MatchBrace(s, if close.Some? then close.value + 1 else i + 1, depth)
      else if c == '$' && i + 1 < |s| && s[i + 1] == '{' then MatchBrace(s, i + 2, depth + 1)
      else if c == '}' then (if depth <= 1 then Some(i) else MatchBrace(s, i + 1, depth - 1))
      else MatchBrace(s, i + 1, depth)
  }

  function MatchingBrace(s: string, pos: nat): (r: Option<nat>)
    ensures r.Some? ==> pos <= r.value < |s|
  {
    MatchBrace(s, pos, 1)
  }
}

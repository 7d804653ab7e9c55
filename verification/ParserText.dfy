// The scanners of the shell's parser (internal/shell/syntax.go and
// internal/shell/functions.go): keywords, raw words, the header of a function,
// the producer that feeds a loop, and the parenthesis that closes a subshell.

module ParserText {
  import opened Wrappers
  import opened ShellText

  /** The words that the parser itself reads; the first eight are reserved. */
  datatype Keyword =
    | Then | Elif | Else | Fi | CloseBrace | Esac | Do | Done
    | If | OpenBrace | Case | For | While | Until
    | Other

  function Spelling(k: Keyword): string {
    match k
    case Then => ['t', 'h', 'e', 'n']
    case Elif => ['e', 'l', 'i', 'f']
    case Else => ['e', 'l', 's', 'e']
    case Fi => ['f', 'i']
    case CloseBrace => ['}']
    case Esac => ['e', 's', 'a', 'c']
    case Do => ['d', 'o']
    case Done => ['d', 'o', 'n', 'e']
    case If => ['i', 'f']
    case OpenBrace => ['{']
    case Case => ['c', 'a', 's', 'e']
    case For => ['f', 'o', 'r']
    case While => ['w', 'h', 'i', 'l', 'e']
    case Until => ['u', 'n', 't', 'i', 'l']
    case Other => []
  }

  function Keyword2(a: char, b: char): Keyword {
    if a == 'f' && b == 'i' then Fi
    else if a == 'd' && b == 'o' then Do
    else if a == 'i' && b == 'f' then If
    else Other
  }

  function Keyword4(a: char, b: char, c: char, d: char): Keyword {
    if a == 't' && b == 'h' && c == 'e' && d == 'n' then Then
    else if a == 'e' && b == 'l' && c == 'i' && d == 'f' then Elif
    else if a == 'e' && b == 'l' && c == 's' && d == 'e' then Else
    else if a == 'e' && b == 's' && c == 'a' && d == 'c' then Esac
    else if a == 'd' && b == 'o' && c == 'n' && d == 'e' then Done
    else if a == 'c' && b == 'a' && c == 's' && d == 'e' then Case
    else Other
  }

  function Keyword5(a: char, b: char, c: char, d: char, e: char): Keyword {
    if a == 'w' && b == 'h' && c == 'i' && d == 'l' && e == 'e' then While
    else if a == 'u' && b == 'n' && c == 't' && d == 'i' && e == 'l' then Until
    else Other
  }

  function KeywordOf(word: string): Keyword {
    if |word| == 1 then (if word[0] == '{' then OpenBrace else if word[0] == '}' then CloseBrace else Other)
    else if |word| == 2 then Keyword2(word[0], word[1])
    else if |word| == 3 then (if word[0] == 'f' && word[1] == 'o' && word[2] == 'r' then For else Other)
    else if |word| == 4 then Keyword4(word[0], word[1], word[2], word[3])
    else if |word| == 5 then Keyword5(word[0], word[1], word[2], word[3], word[4])
    else Other
  }

  predicate Reserved(k: Keyword) {
    k.Then? || k.Elif? || k.Else? || k.Fi? || k.CloseBrace? || k.Esac? || k.Do? || k.Done?
  }

  predicate Blank1(c: char) {
    c == ' ' || c == '\t'
  }

  /** The first blank at or after `i`. */
  function BlankAt(text: string, i: nat): (j: nat)
    requires i <= |text|
    ensures i <= j <= |text| && (j < |text| ==> Blank1(text[j]))
    ensures forall k :: i <= k < j ==> !Blank1(text[k])
    decreases |text| - i
  {
    if i < |text| && !Blank1(text[i]) then BlankAt(text, i + 1) else i
  }

  predicate Angle(c: char) {
    c == '<' || c == '>'
  }

  /** A closing word with a redirect right behind it. */
  function CloserOf(text: string): (k: Keyword)
    ensures k != Other ==> |Spelling(k)| < |text|
  {
    if |text| > 4 && Angle(text[4]) && Spells4(text, 0, 4, 'd', 'o', 'n', 'e') then Done
    else if |text| > 2 && Angle(text[2]) && Spells2(text, 0, 2, 'f', 'i') then Fi
    else if |text| > 4 && Angle(text[4]) && Spells4(text, 0, 4, 'e', 's', 'a', 'c') then Esac
    else if |text| > 1 && Angle(text[1]) && text[0] == '}' then CloseBrace
    else Other
  }

  lemma {:induction false} TrimIsShorter(s: string)
    ensures |Trim(s)| <= |s|
  {
  }

  /** The first word of a statement, and what follows it. */
  function SplitKeyword(text: string): (r: (string, string))
    ensures text != "" ==> |r.1| < |text|
    ensures text == "" ==> r.1 == ""
  {
    var closer := CloserOf(text);
    if closer != Other then
      (Spelling(closer), text[|Spelling(closer)|..])
    else
      var i := BlankAt(text, 0);
      if i == |text| then (text, "")
      else
        TrimIsShorter(text[i + 1..]);
        (text[..i], Trim(text[i + 1..]))
  }

  function First(text: string): Keyword {
    KeywordOf(SplitKeyword(text).0)
  }

  // ----- raw words -----

  /** The end of the word at `i`: the first blank outside quotes and parentheses. */
  function RawEnd(text: string, i: nat, quote: Option<char>, depth: nat, cs: CaseScope): (j: nat)
    requires i <= |text|
    ensures i <= j <= |text|
    decreases |text| - i
  {
    if i == |text| then i
    else
      var c := text[i];
      if quote.Some? then RawEnd(text, i + 1, if quote == Some(c) then None else quote, depth, cs)
      else
        var (cs', skip) := CaseStep(cs, text, i);
        if c == QUOTE || c == DQUOTE then RawEnd(text, i + 1, Some(c), depth, cs')
        else if c == '(' && !skip then RawEnd(text, i + 1, None, depth + 1, cs')
        else if c == ')' && depth > 0 && !skip then RawEnd(text, i + 1, None, depth - 1, cs')
        else if depth == 0 && Blank1(c) then i
        else RawEnd(text, i + 1, None, depth, cs')
  }

  function RawWord(text: string): (r: (string, string))
    ensures text != "" ==> |r.1| < |text|
  {
    var i := RawEnd(text, 0, None, 0, []);
    if i == |text| then (text, "")
    else
      TrimIsShorter(text[i + 1..]);
      (text[..i], Trim(text[i + 1..]))
  }

  /** The words of a `for`. */
  function RawWords(text: string): seq<string>
    decreases |text|
  {
    if text == "" then []
    else
      var (w, rest) := RawWord(text);
      [w] + RawWords(rest)
  }

  /** The closing parenthesis of `text[0]`. */
  function ParenEnd(text: string, i: nat, quote: Option<char>, depth: int, cs: CaseScope): (r: Option<nat>)
    requires i <= |text|
    ensures r.Some? ==> i <= r.value < |text| && text[r.value] == ')'
    decreases |text| - i
  {
    if i == |text| then None
    else
      var c := text[i];
      if quote.Some? then ParenEnd(text, i + 1, if quote == Some(c) then None else quote, depth, cs)
      else
        var (cs', skip) := CaseStep(cs, text, i);
        if c == QUOTE || c == DQUOTE then ParenEnd(text, i + 1, Some(c), depth, cs')
        else if c == '(' && !skip then ParenEnd(text, i + 1, None, depth + 1, cs')
        else if c == ')' && !skip then
          (if depth == 1 then Some(i) else ParenEnd(text, i + 1, None, depth - 1, cs'))
        else ParenEnd(text, i + 1, None, depth, cs')
  }

  // ----- the producer of a loop -----

  predicate StartsCompound(text: string) {
    var t := Trim(text);
    var k := First(t);
    k.OpenBrace? || k.If? || k.While? || k.Until? || k.For? || k.Case? || (t != "" && t[0] == '(')
  }

  predicate Feeds(text: string, i: nat)
    requires i < |text|
  {
    var k := First(Trim(text[i + 1..]));
    k.While? || k.Until? || (k.OpenBrace? && !StartsCompound(text))
  }

  /** Feeds at every character. */
  function AllFeeds(text: string): (r: seq<bool>)
    ensures |r| == |text| && forall i :: 0 <= i < |text| ==> r[i] == Feeds(text, i)
  {
    seq(|text|, i requires 0 <= i < |text| => Feeds(text, i))
  }

  /** Looking for the last top-level pipe that a loop or a group follows; `cut` is the last one so far. */
  datatype FeedScan = FeedScan(i: nat, quote: Option<char>, depth: nat, cut: Option<nat>)

  predicate CutOk(text: string, f: FeedScan) {
    f.cut.Some? ==> f.cut.value < |text| && text[f.cut.value] == '|'
  }

  /** One character; `feeds` says whether a pipe here would have a loop or a group behind it. */
  function FeedStep(text: string, f: FeedScan, feeds: bool): (r: FeedScan)
    requires f.i < |text| && CutOk(text, f)
    ensures f.i < r.i && CutOk(text, r)
  {
    var c := text[f.i];
    if f.quote.Some? then
      if c == '\\' && f.quote == Some(DQUOTE) then f.(i := f.i + 2)
      else f.(i := f.i + 1, quote := if f.quote == Some(c) then None else f.quote)
    else if c == '\\' then f.(i := f.i + 2)
    else if c == QUOTE || c == DQUOTE then f.(i := f.i + 1, quote := Some(c))
    else if c == '(' then f.(i := f.i + 1, depth := f.depth + 1)
    else if c == ')' && f.depth > 0 then f.(i := f.i + 1, depth := f.depth - 1)
    else if c == '|' && f.depth == 0 then
      if f.i + 1 < |text| && text[f.i + 1] == '|' then f.(i := f.i + 2)
      else f.(i := f.i + 1, cut := if feeds then Some(f.i) else f.cut)
    else f.(i := f.i + 1)
  }

  function FeedCut(text: string, feeds: seq<bool>, f: FeedScan): (r: Option<nat>)
    requires |feeds| == |text| && CutOk(text, f)
    ensures r.Some? ==> r.value < |text| && text[r.value] == '|'
    decreases |text| - f.i
  {
    if f.i >= |text| then f.cut else FeedCut(text, feeds, FeedStep(text, f, feeds[f.i]))
  }

  /** The producer, and the first statement of the loop or group that it feeds. */
  function SplitFeed(text: string): (r: Option<(string, string)>)
    ensures r.Some? ==> |r.value.1| < |text| && '|' in text
  {
    var cut := FeedCut(text, AllFeeds(text), FeedScan(0, None, 0, None));
    if cut.None? then None
    else
      TrimIsShorter(text[cut.value + 1..]);
      Some((Trim(text[..cut.value]), Trim(text[cut.value + 1..])))
  }

  // ----- the header of a function -----

  predicate NameStart(c: char) {
    IdentStart(c)
  }

  predicate NamePart(c: char) {
    IdentPart(c) || c == '.' || c == ':' || c == '-'
  }

  /** White space in a regular expression. */
  predicate RegexSpace(c: char) {
    c == ' ' || c == '\t' || c == '\n' || c == '\U{C}' || c == '\r'
  }

  function NameEnd(s: string, i: nat): (j: nat)
    requires i <= |s|
    ensures i <= j <= |s|
    decreases |s| - i
  {
    if i < |s| && NamePart(s[i]) then NameEnd(s, i + 1) else i
  }

  function SpaceEnd(s: string, i: nat): (j: nat)
    requires i <= |s|
    ensures i <= j <= |s|
    decreases |s| - i
  {
    if i < |s| && RegexSpace(s[i]) then SpaceEnd(s, i + 1) else i
  }

  /** After blanks, `( )` with any blanks inside: where it ends. */
  function Parens(s: string, i: nat): (r: Option<nat>)
    requires i <= |s|
    ensures r.Some? ==> i < r.value <= |s|
  {
    var j := SpaceEnd(s, i);
    if j < |s| && s[j] == '(' then
      var k := SpaceEnd(s, j + 1);
      if k < |s| && s[k] == ')' then Some(k + 1) else None
    else None
  }

  const FUNCTION := ['f', 'u', 'n', 'c', 't', 'i', 'o', 'n']

  /** `function name [()] rest`. */
  function LongHeader(s: string): (r: Option<(string, string)>)
    ensures r.Some? ==> |r.value.1| < |s|
  {
    if |s| <= |FUNCTION| || s[..|FUNCTION|] != FUNCTION || !RegexSpace(s[|FUNCTION|]) then None
    else
      var i := SpaceEnd(s, |FUNCTION|);
      if i == |s| || !NameStart(s[i]) then None
      else
        var j := NameEnd(s, i);
        var p := Parens(s, j);
        Some((s[i..j], s[SpaceEnd(s, if p.Some? then p.value else j)..]))
  }

  /** `name() rest`, or `function name rest`: the name and the rest. */
  function FuncHeader(s: string): (r: Option<(string, string)>)
    ensures r.Some? ==> |r.value.1| < |s|
  {
    var long := LongHeader(s);
    if long.Some? then long
    else if s == "" || !NameStart(s[0]) then None
    else
      var j := NameEnd(s, 0);
      var p := Parens(s, j);
      if p.None? then None else Some((s[..j], s[SpaceEnd(s, p.value)..]))
  }

  // ----- the patterns of a case arm -----

  function BarAt(s: string, i: nat): (j: nat)
    requires i <= |s|
    ensures i <= j <= |s|
    decreases |s| - i
  {
    if i < |s| && s[i] != '|' then BarAt(s, i + 1) else i
  }

  function Patterns(s: string): seq<string>
    decreases |s|
  {
    var i := BarAt(s, 0);
    [Trim(s[..i])] + (if i == |s| then [] else Patterns(s[i + 1..]))
  }
}

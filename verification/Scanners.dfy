// The three scanners of internal/shell/tokenizer.go, one character at a time:
// a line into statements, a statement into pipeline stages, a stage into words.

module Scanners {
  import opened Wrappers
  import opened ShellText

  /** `sep` is the operator before the statement: "", ";", ";;", "&&" or "||". */
  datatype Statement = Statement(sep: string, text: string, line: nat)

  // ----- statements -----

  datatype Splitter = Splitter(
    stmts: seq<Statement>, cur: string, sep: string,
    quote: Option<char>, depth: nat, cs: CaseScope, start: nat)

  const NO_STATEMENTS := Splitter([], "", "", None, 0, [], 0)

  /** Where the blanks that start `raw` end. */
  function Lead(raw: string, i: nat): (j: nat)
    requires i <= |raw|
    ensures i <= j <= |raw|
    decreases |raw| - i
  {
    if i < |raw| && (raw[i] == ' ' || raw[i] == '\t' || raw[i] == '\r' || raw[i] == '\n')
    then Lead(raw, i + 1) else i
  }

  function EndStatement(line: string, st: Splitter): Splitter
    requires st.start <= |line|
  {
    var text := Trim(st.cur);
    var n := 1 + Newlines(line, st.start) + Newlines(st.cur, Lead(st.cur, 0));
    st.(stmts := if text == "" then st.stmts else st.stmts + [Statement(st.sep, text, n)], cur := "")
  }

  function Cut(line: string, st: Splitter, sep: string): Splitter
    requires st.start <= |line|
  {
    EndStatement(line, st).(sep := sep)
  }

  /** The length of a backslash-newline at `i`, or 0. */
  function Continuation(s: string, i: nat): (n: nat)
    requires i < |s|
    ensures i + n <= |s| && (n == 0 || n >= 2)
  {
    if s[i] != '\\' || i + 1 >= |s| then 0
    else if s[i + 1] == '\n' then 2
    else if s[i + 1] == '\r' && i + 2 < |s| && s[i + 2] == '\n' then 3
    else 0
  }

  function CommentEnd(s: string, i: nat): (j: nat)
    requires i <= |s|
    ensures i <= j <= |s|
    decreases |s| - i
  {
    if i < |s| && s[i] != '\n' then CommentEnd(s, i + 1) else i
  }

  predicate NextIs(s: string, i: nat, c: char) {
    i + 1 < |s| && s[i + 1] == c
  }

  /** One turn of the loop of `splitStatements`: the next position and state. */
  function SplitStep(line: string, i: nat, st: Splitter): (r: (nat, Splitter))
    requires i < |line| && st.start <= |line|
    ensures i < r.0 <= |line| && r.1.start <= |line|
  {
    var c := line[i];
    if st.quote.Some? then SplitQuoted(line, i, st)
    else if c == '\\' && i + 1 < |line| then
      var n := Continuation(line, i);
      if n > 0 then (i + n, st) else (i + 2, st.(cur := st.cur + [c, line[i + 1]]))
    else
      var (cs, skip) := CaseStep(st.cs, line, i);
      SplitPlain(line, i, st.(cs := cs), skip)
  }

  function SplitQuoted(line: string, i: nat, st: Splitter): (r: (nat, Splitter))
    requires i < |line| && st.start <= |line| && st.quote.Some?
    ensures i < r.0 <= |line| && r.1.start <= |line|
  {
    var c := line[i];
    if st.quote == Some(DQUOTE) && Continuation(line, i) > 0 then (i + Continuation(line, i), st)
    else if st.quote == Some(DQUOTE) && c == '\\' && i + 1 < |line| && DoubleQuoteEscape(line[i + 1]) then
      (i + 2, st.(cur := st.cur + [c, line[i + 1]]))
    else (i + 1, st.(cur := st.cur + [c], quote := if st.quote == Some(c) then None else st.quote))
  }

  function SplitPlain(line: string, i: nat, st: Splitter, skip: bool): (r: (nat, Splitter))
    requires i < |line| && st.start <= |line|
    ensures i < r.0 <= |line| && r.1.start <= |line|
  {
    var c := line[i];
    if c == '#' && AtWordStart(line, i) then (CommentEnd(line, i + 1), st)
    else if c == QUOTE || c == DQUOTE then (i + 1, st.(quote := Some(c), cur := st.cur + [c]))
    else if c == '(' && !skip then (i + 1, st.(depth := st.depth + 1, cur := st.cur + [c]))
    else if c == ')' && !skip then
      (i + 1, st.(depth := if st.depth > 0 then st.depth - 1 else 0, cur := st.cur + [c]))
    else if st.depth == 0 && c == ';' then
      (if NextIs(line, i, ';') then (i + 2, Cut(line, st, ";;")) else (i + 1, Cut(line, st, ";")))
    else if st.depth == 0 && (c == '\n' || c == '\r') then
      (i + 1, if Trim(st.cur) != "" then Cut(line, st, ";") else st)
    else if st.depth == 0 && c == '&' && NextIs(line, i, '&') then (i + 2, Cut(line, st, "&&"))
    else if st.depth == 0 && c == '|' && NextIs(line, i, '|') then (i + 2, Cut(line, st, "||"))
    else if st.depth == 0 && c == '&' && !NextIs(line, i, '>') && !(i > 0 && line[i - 1] == '>') then
      (i + 1, Cut(line, st, ";"))
    else (i + 1, st.(cur := st.cur + [c]))
  }

  function SplitFrom(line: string, i: nat, st: Splitter): (r: Splitter)
    requires i <= |line| && st.start <= |line|
    ensures r.start <= |line|
    decreases |line| - i, 2
  {
    if i == |line| then st else SplitStart(line, i, st)
  }

  /** A statement starts where its first character is. */
  function Started(i: nat, st: Splitter): Splitter {
    if st.cur == "" then st.(start := i) else st
  }

  function SplitStart(line: string, i: nat, st: Splitter): (r: Splitter)
    requires i < |line| && st.start <= |line|
    ensures r.start <= |line|
    decreases |line| - i, 1
  {
    SplitTurn(line, i, Started(i, st))
  }

  function SplitTurn(line: string, i: nat, st: Splitter): (r: Splitter)
    requires i < |line| && st.start <= |line|
    ensures r.start <= |line|
    decreases |line| - i, 0
  {
    var (j, st') := SplitStep(line, i, st);
    SplitFrom(line, j, st')
  }

  function Statements(line: string): seq<Statement> {
    EndStatement(line, SplitFrom(line, 0, NO_STATEMENTS)).stmts
  }

  // ----- pipeline stages -----

  datatype Piper = Piper(stages: seq<string>, cur: string, quote: Option<char>, depth: nat, cs: CaseScope)

  const NO_STAGES := Piper([], "", None, 0, [])

  function PipeStep(text: string, i: nat, st: Piper): Piper
    requires i < |text|
  {
    var c := text[i];
    if st.quote.Some? then st.(cur := st.cur + [c], quote := if st.quote == Some(c) then None else st.quote)
    else
      var (cs, skip) := CaseStep(st.cs, text, i);
      var st := st.(cs := cs);
      if c == QUOTE || c == DQUOTE then st.(quote := Some(c), cur := st.cur + [c])
      else if c == '(' && !skip then st.(depth := st.depth + 1, cur := st.cur + [c])
      else if c == ')' && !skip then
        st.(depth := if st.depth > 0 then st.depth - 1 else 0, cur := st.cur + [c])
      else if st.depth == 0 && c == '|' && !NextIs(text, i, '|') then
        st.(stages := st.stages + [Trim(st.cur)], cur := "")
      else st.(cur := st.cur + [c])
  }

  function PipeFrom(text: string, i: nat, st: Piper): Piper
    requires i <= |text|
    decreases |text| - i, 1
  {
    if i == |text| then st else PipeTurn(text, i, st)
  }

  function PipeTurn(text: string, i: nat, st: Piper): Piper
    requires i < |text|
    decreases |text| - i, 0
  {
    PipeFrom(text, i + 1, PipeStep(text, i, st))
  }

  function Stages(text: string): seq<string> {
    var st := PipeFrom(text, 0, NO_STAGES);
    st.stages + [Trim(st.cur)]
  }

  // ----- words -----

  /** `verbatim`: the quote was opened inside `$( )`, whose text is parsed again later. */
  datatype Words = Words(
    words: seq<string>, cur: string, has: bool,
    quote: Option<char>, verbatim: bool, depth: nat, cs: CaseScope)

  const NO_WORDS := Words([], "", false, None, false, 0, [])

  function EndWord(st: Words): Words {
    if st.has then st.(words := st.words + [st.cur], cur := "", has := false) else st
  }

  function Add(st: Words, text: string): Words {
    st.(cur := st.cur + text, has := true)
  }

  function MaskChar(c: char): char {
    if c == '<' then LIT_LT else if c == '>' then LIT_GT else c
  }

  function WordStep(text: string, i: nat, mark: bool, st: Words): (r: (nat, Words))
    requires i < |text|
    ensures i < r.0 <= |text|
  {
    if st.quote.Some? then
      (if st.verbatim then WordVerbatim(text, i, st) else WordQuoted(text, i, mark, st))
    else
      var (cs, skip) := CaseStep(st.cs, text, i);
      WordPlain(text, i, mark, st.(cs := cs), skip)
  }

  function WordVerbatim(text: string, i: nat, st: Words): (r: (nat, Words))
    requires i < |text|
    ensures i < r.0 <= |text|
  {
    var c := text[i];
    if st.quote == Some(DQUOTE) && c == '\\' && i + 1 < |text| then (i + 2, Add(st, [c, text[i + 1]]))
    else (i + 1, Add(st, [c]).(quote := if st.quote == Some(c) then None else st.quote))
  }

  function WordQuoted(text: string, i: nat, mark: bool, st: Words): (r: (nat, Words))
    requires i < |text|
    ensures i < r.0 <= |text|
  {
    var c := text[i];
    if st.quote == Some(c) then (i + 1, Add(st, if mark then [Q_CLOSE] else "").(quote := None))
    else if c == '$' && st.quote == Some(DQUOTE) && NextIs(text, i, '(') then
      var close := MatchingParen(text, i + 2);
      if close.Some? then (close.value + 1, Add(st, text[i..close.value + 1])) else (i + 1, Add(st, [c]))
    else if c == '$' && st.quote == Some(QUOTE) then (i + 1, Add(st, [LIT_DOLLAR]))
    else if c == '\\' && st.quote == Some(DQUOTE) && i + 1 < |text| && DoubleQuoteEscape(text[i + 1]) then
      (i + 2, Add(st, [if text[i + 1] == '$' then LIT_DOLLAR else text[i + 1]]))
    else (i + 1, Add(st, [c]))
  }

  function WordPlain(text: string, i: nat, mark: bool, st: Words, skip: bool): (r: (nat, Words))
    requires i < |text|
    ensures i < r.0 <= |text|
  {
    var c := text[i];
    if c == '\\' && st.depth == 0 && i + 1 < |text| then
      var d := text[i + 1];
      (i + 2, Add(st, [if d == '$' then LIT_DOLLAR else if mark then MaskChar(d) else d]))
    else if c == QUOTE || c == DQUOTE then
      var verbatim := st.depth > 0;
      (i + 1, Add(st, if verbatim then [c] else if mark then [Q_OPEN] else "").(quote := Some(c), verbatim := verbatim))
    else if c == '$' && st.depth == 0 && NextIs(text, i, '{') then
      var close := MatchingBrace(text, i + 2);
      if close.Some? then (close.value + 1, Add(st, text[i..close.value + 1])) else (i + 1, Add(st, [c]))
    else if c == '$' && NextIs(text, i, '(') then (i + 2, Add(st, "$(").(depth := st.depth + 1))
    else if st.depth > 0 && c == '(' && !skip then (i + 1, st.(depth := st.depth + 1, cur := st.cur + [c]))
    else if st.depth > 0 && c == ')' && !skip then (i + 1, st.(depth := st.depth - 1, cur := st.cur + [c]))
    else if st.depth == 0 && (c == ' ' || c == '\t') then (i + 1, EndWord(st))
    else (i + 1, Add(st, [c]))
  }

  function WordsFrom(text: string, i: nat, mark: bool, st: Words): Words
    requires i <= |text|
    decreases |text| - i, 1
  {
    if i == |text| then st else WordsTurn(text, i, mark, st)
  }

  function WordsTurn(text: string, i: nat, mark: bool, st: Words): Words
    requires i < |text|
    decreases |text| - i, 0
  {
    var (j, st') := WordStep(text, i, mark, st);
    WordsFrom(text, j, mark, st')
  }

  function Tokens(text: string, mark: bool): seq<string> {
    EndWord(WordsFrom(text, 0, mark, NO_WORDS)).words
  }
}

// The loops of internal/shell/tokenizer.go: `splitStatements`, `splitPipeline`,
// `tokenize` and `extractRedirects`, each proved to compute what the scanner
// functions say.

module Tokenizer {
  import opened Wrappers
  import opened ShellText
  import opened Scanners
  import opened WordSplitting

  method SplitStatements(line: string) returns (stmts: seq<Statement>)
    ensures stmts == Statements(line)
  {
    var st := NO_STATEMENTS;
    var i := 0;
    while i < |line|
      invariant i <= |line| && st.start <= |line|
      invariant SplitFrom(line, i, st) == SplitFrom(line, 0, NO_STATEMENTS)
      decreases |line| - i
    {
      SplitOnce(line, i, st);
      if st.cur == "" {
        st := st.(start := i);
      }
      if st.quote.Some? {
        i, st := StepInQuotes(line, i, st);
      } else {
        i, st := StepOutside(line, i, st);
      }
    }
    st := EndStatement(line, st);
    stmts := st.stmts;
  }

  lemma {:induction false} SplitOnce(line: string, i: nat, st: Splitter)
    requires i < |line| && st.start <= |line|
    ensures var (j, st') := SplitStep(line, i, Started(i, st));
            SplitFrom(line, i, st) == SplitFrom(line, j, st')
  {
    assert SplitFrom(line, i, st) == SplitStart(line, i, st);
    assert SplitStart(line, i, st) == SplitTurn(line, i, Started(i, st));
  }

  /** Inside quotes: only a double quote lets a backslash do anything. */
  method StepInQuotes(line: string, i: nat, st: Splitter) returns (next: nat, st': Splitter)
    requires i < |line| && st.start <= |line| && st.quote.Some?
    ensures (next, st') == SplitStep(line, i, st)
  {
    var c := line[i];
    st' := st;
    if st.quote == Some(DQUOTE) && c == '\\' && i + 1 < |line| {
      var n := Continuation(line, i);
      if n > 0 {
        return i + n, st';
      }
      if DoubleQuoteEscape(line[i + 1]) {
        return i + 2, st'.(cur := st'.cur + [c, line[i + 1]]);
      }
    }
    st' := st'.(cur := st'.cur + [c]);
    if st.quote == Some(c) {
      st' := st'.(quote := None);
    }
    next := i + 1;
  }

  method StepOutside(line: string, i: nat, st: Splitter) returns (next: nat, st': Splitter)
    requires i < |line| && st.start <= |line| && st.quote.None?
    ensures (next, st') == SplitStep(line, i, st)
  {
    var c := line[i];
    if c == '\\' && i + 1 < |line| {
      var n := Continuation(line, i);
      if n > 0 {
        return i + n, st;
      }
      return i + 2, st.(cur := st.cur + [c, line[i + 1]]);
    }
    var (cs, skip) := CaseStep(st.cs, line, i);
    next, st' := StepPlain(line, i, st.(cs := cs), skip);
  }

  method StepPlain(line: string, i: nat, st: Splitter, skip: bool) returns (next: nat, st': Splitter)
    requires i < |line| && st.start <= |line| && st.quote.None?
    ensures (next, st') == SplitPlain(line, i, st, skip)
  {
    var c := line[i];
    st', next := st, i + 1;
    if c == '#' && AtWordStart(line, i) {
      while next < |line| && line[next] != '\n'
        invariant i < next <= |line|
        invariant CommentEnd(line, next) == CommentEnd(line, i + 1)
      {
        next := next + 1;
      }
    } else if c == QUOTE || c == DQUOTE {
      st' := st.(quote := Some(c), cur := st.cur + [c]);
    } else if c == '(' && !skip {
      st' := st.(depth := st.depth + 1, cur := st.cur + [c]);
    } else if c == ')' && !skip {
      st' := st.(depth := if st.depth > 0 then st.depth - 1 else 0, cur := st.cur + [c]);
    } else if st.depth == 0 && c == ';' {
      st' := Cut(line, st, ";");
      if NextIs(line, i, ';') {
        st', next := st'.(sep := ";;"), i + 2;
      }
    } else if st.depth == 0 && (c == '\n' || c == '\r') {
      if Trim(st.cur) != "" {
        st' := Cut(line, st, ";");
      }
    } else if st.depth == 0 && c == '&' && NextIs(line, i, '&') {
      st', next := Cut(line, st, "&&"), i + 2;
    } else if st.depth == 0 && c == '|' && NextIs(line, i, '|') {
      st', next := Cut(line, st, "||"), i + 2;
    } else if st.depth == 0 && c == '&' && !NextIs(line, i, '>') && !(i > 0 && line[i - 1] == '>') {
      st' := Cut(line, st, ";");
    } else {
      st' := st.(cur := st.cur + [c]);
    }
  }

  method SplitPipeline(text: string) returns (stages: seq<string>)
    ensures stages == Stages(text)
  {
    var cur, quote, depth, cs := "", Option<char>.None, 0, [];
    stages := [];
    for i := 0 to |text|
      invariant 0 <= depth
      invariant PipeFrom(text, i, Piper(stages, cur, quote, depth, cs)) == PipeFrom(text, 0, NO_STAGES)
    {
      ghost var st := Piper(stages, cur, quote, depth, cs);
      PipeOnce(text, i, st);
      var c := text[i];
      if quote.Some? {
        cur := cur + [c];
        if Some(c) == quote {
          quote := None;
        }
      } else {
        var (cs', skip) := CaseStep(cs, text, i);
        cs := cs';
        if depth == 0 && c == '|' && !NextIs(text, i, '|') {
          stages := stages + [Trim(cur)];
          cur := "";
        } else {
          cur := cur + [c];
          if c == QUOTE || c == DQUOTE {
            quote := Some(c);
          } else if c == '(' && !skip {
            depth := depth + 1;
          } else if c == ')' && !skip && depth > 0 {
            depth := depth - 1;
          }
        }
      }
      assert Piper(stages, cur, quote, depth, cs) == PipeStep(text, i, st);
    }
    stages := stages + [Trim(cur)];
  }

  lemma {:induction false} PipeOnce(text: string, i: nat, st: Piper)
    requires i < |text|
    ensures PipeFrom(text, i, st) == PipeFrom(text, i + 1, PipeStep(text, i, st))
  {
    assert PipeFrom(text, i, st) == PipeTurn(text, i, st);
  }

  method Tokenize(text: string, mark: bool) returns (words: seq<string>)
    ensures words == Tokens(text, mark)
  {
    var st := NO_WORDS;
    var i := 0;
    while i < |text|
      invariant i <= |text|
      invariant WordsFrom(text, i, mark, st) == WordsFrom(text, 0, mark, NO_WORDS)
      decreases |text| - i
    {
      WordsOnce(text, i, mark, st);
      if st.quote.Some? && st.verbatim {
        i, st := TokenVerbatim(text, i, st);
      } else if st.quote.Some? {
        i, st := TokenQuoted(text, i, mark, st);
      } else {
        var (cs, skip) := CaseStep(st.cs, text, i);
        i, st := TokenPlain(text, i, mark, st.(cs := cs), skip);
      }
    }
    words := EndWord(st).words;
  }

  lemma {:induction false} WordsOnce(text: string, i: nat, mark: bool, st: Words)
    requires i < |text|
    ensures var (j, st') := WordStep(text, i, mark, st); WordsFrom(text, i, mark, st) == WordsFrom(text, j, mark, st')
  {
    assert WordsFrom(text, i, mark, st) == WordsTurn(text, i, mark, st);
  }

  method TokenVerbatim(text: string, i: nat, st: Words) returns (next: nat, st': Words)
    requires i < |text| && st.quote.Some? && st.verbatim
    ensures (next, st') == WordStep(text, i, true, st) == WordStep(text, i, false, st)
  {
    var c := text[i];
    next, st' := i + 1, st.(cur := st.cur + [c], has := true);
    if st.quote == Some(DQUOTE) && c == '\\' && i + 1 < |text| {
      next, st' := i + 2, st.(cur := st.cur + [c, text[i + 1]], has := true);
    } else if st.quote == Some(c) {
      st' := st'.(quote := None);
    }
  }

  method TokenQuoted(text: string, i: nat, mark: bool, st: Words) returns (next: nat, st': Words)
    requires i < |text| && st.quote.Some? && !st.verbatim
    ensures (next, st') == WordStep(text, i, mark, st)
  {
    var c := text[i];
    var double := st.quote == Some(DQUOTE);
    var added;
    next, st' := i + 1, st;
    if st.quote == Some(c) {
      st' := st'.(quote := None);
      added := if mark then [Q_CLOSE] else "";
    } else if c == '$' && double && NextIs(text, i, '(') {
      var close := MatchingParen(text, i + 2);
      if close.Some? {
        added, next := text[i..close.value + 1], close.value + 1;
      } else {
        added := [c];
      }
    } else if c == '$' && !double && st.quote == Some(QUOTE) {
      added := [LIT_DOLLAR];
    } else if c == '\\' && double && i + 1 < |text| && DoubleQuoteEscape(text[i + 1]) {
      added, next := [if text[i + 1] == '$' then LIT_DOLLAR else text[i + 1]], i + 2;
    } else {
      added := [c];
    }
    st' := st'.(cur := st'.cur + added, has := true);
  }

  method TokenPlain(text: string, i: nat, mark: bool, st: Words, skip: bool) returns (next: nat, st': Words)
    requires i < |text| && st.quote.None?
    ensures (next, st') == WordPlain(text, i, mark, st, skip)
  {
    var c := text[i];
    next := i + 1;
    if c == '\\' && st.depth == 0 && i + 1 < |text| {
      var d := text[i + 1];
      next := i + 2;
      st' := Add(st, [if d == '$' then LIT_DOLLAR else if mark then MaskChar(d) else d]);
    } else if c == QUOTE || c == DQUOTE {
      st' := st.(quote := Some(c), has := true, verbatim := st.depth > 0);
      if st.depth > 0 {
        st' := st'.(cur := st'.cur + [c]);
      } else if mark {
        st' := st'.(cur := st'.cur + [Q_OPEN]);
      }
      assert st.cur + "" == st.cur;
    } else if c == '$' && st.depth == 0 && NextIs(text, i, '{') {
      var close := MatchingBrace(text, i + 2);
      if close.Some? {
        st', next := Add(st, text[i..close.value + 1]), close.value + 1;
      } else {
        st' := Add(st, [c]);
      }
    } else if c == '$' && NextIs(text, i, '(') {
      st', next := Add(st, "$(").(depth := st.depth + 1), i + 2;
    } else if st.depth > 0 && c == '(' && !skip {
      st' := st.(depth := st.depth + 1, cur := st.cur + [c]);
    } else if st.depth > 0 && c == ')' && !skip {
      st' := st.(depth := st.depth - 1, cur := st.cur + [c]);
    } else if st.depth == 0 && (c == ' ' || c == '\t') {
      st' := EndWord(st);
    } else {
      st' := Add(st, [c]);
    }
  }

  method ExtractRedirects(words: seq<string>) returns (out: seq<string>, r: Redirects)
    ensures (out, r) == RedirectsFrom(words, 0, [], NO_REDIRECTS)
  {
    out, r := [], NO_REDIRECTS;
    var i := 0;
    while i < |words|
      invariant i <= |words|
      invariant RedirectsFrom(words, i, out, r) == RedirectsFrom(words, 0, [], NO_REDIRECTS)
      decreases |words| - i
    {
      var w := words[i];
      var op := Operator(w);
      i := i + 1;
      if op == "" {
        out := out + [w];
      } else if op == "2>&1" {
        r := r.(merge := true);
      } else {
        var target := "";
        if w != op {
          target := w[|op|..];
        } else if i < |words| {
          target, i := words[i], i + 1;
        }
        r := Redirected(r, op, target);
      }
    }
  }
}

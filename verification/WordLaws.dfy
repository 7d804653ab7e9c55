// What the words of a stage are, and the stages of a pipeline: blanks end a
// word and a pipe ends a stage only outside quotes, and quotes and backslashes
// go away while what they protect stays.

module WordLaws {
  import opened Wrappers
  import opened ShellText
  import opened Scanners
  import opened Pieces
  import opened Scans

  // ----- the pieces of a word -----

  predicate Blank1(c: char) {
    c == ' ' || c == '\t'
  }

  predicate WordPiece(p: Piece) {
    match p
    case Flat(text) => text != "" && forall k :: 0 <= k < |text| ==> text[k] !in [QUOTE, DQUOTE, '\\', '$', ' ', '\t']
    case Span(quote, text) =>
      quote !in text && (quote == QUOTE || (quote == DQUOTE && '\\' !in text && '$' !in text))
    case Escape(_) => true
    case Nested(_) => false
  }

  /** A `$` that was quoted is no expansion. */
  function Shielded(c: char): char {
    if c == '$' then LIT_DOLLAR else c
  }

  function ShieldedText(s: string): string {
    if s == "" then "" else [Shielded(s[0])] + ShieldedText(s[1..])
  }

  /** What a piece leaves in its word; `mark` asks for the ends of quoted spans and masked redirects. */
  function PieceValue(p: Piece, mark: bool): string {
    match p
    case Flat(text) => text
    case Span(quote, text) =>
      (if mark then [Q_OPEN] else []) + (if quote == QUOTE then ShieldedText(text) else text) +
      (if mark then [Q_CLOSE] else [])
    case Escape(c) =>
      if c == '$' then [LIT_DOLLAR]
      else if mark && c == '<' then [LIT_LT]
      else if mark && c == '>' then [LIT_GT]
      else [c]
    case Nested(_) => ""
  }

  function WordValue(ps: seq<Piece>, mark: bool): string {
    if ps == [] then "" else WordValue(ps[..|ps| - 1], mark) + PieceValue(ps[|ps| - 1], mark)
  }

  // ----- reading a word -----

  predicate Plain(st: Words) {
    st.quote == None && st.depth == 0 && st.cs == []
  }

  type WordScan = Step<Words>

  /** The scan of `tokenize` over the text. */
  ghost predicate IsTokenizer(step: WordScan, t: string, mark: bool) {
    forall i: nat, st: Words {:trigger WordStep(t, i, mark, st)} :: i < |t| ==> step(i, st) == WordStep(t, i, mark, st)
  }

  /** The scan comes to the same end from everywhere on its way. */
  lemma {:induction false} SameEnd(step: WordScan, t: string, mark: bool, i: nat, st: Words, n: nat)
    requires IsTokenizer(step, t, mark) && i <= |t|
    ensures var (j, st') := Steps(step, |t|, i, st, n);
            j <= |t| && WordsFrom(t, i, mark, st) == WordsFrom(t, j, mark, st')
    decreases n
  {
    if n > 0 && i < |t| {
      var (j, st') := WordStep(t, i, mark, st);
      assert WordsFrom(t, i, mark, st) == WordsTurn(t, i, mark, st) == WordsFrom(t, j, mark, st');
      SameEnd(step, t, mark, j, st', n - 1);
    }
  }

  lemma {:induction false} OneStep(step: WordScan, t: string, mark: bool, i: nat, st: Words)
    requires IsTokenizer(step, t, mark) && i < |t|
    ensures var (j, st') := WordStep(t, i, mark, st); Goes(step, |t|, i, st, j, st')
  {
    var (j, st') := WordStep(t, i, mark, st);
    GoesStep(step, |t|, i, st, j, st');
  }

  /** `s` is added to the word. */
  function Longer(st: Words, s: string): Words {
    st.(cur := st.cur + s, has := true)
  }

  lemma {:induction false} LongerTwice(st: Words, a: string, b: string)
    ensures Longer(Longer(st, a), b) == Longer(st, a + b)
  {
    assert st.cur + a + b == st.cur + (a + b);
  }

  lemma {:induction false} FlatGoes(step: WordScan, t: string, mark: bool, i: nat, st: Words, s: string)
    requires IsTokenizer(step, t, mark) && NoCase(t) && Stands(t, i, s) && Plain(st) && WordPiece(Flat(s))
    ensures Goes(step, |t|, i, st, i + |s|, Longer(st, s))
    decreases |s|
  {
    var a, rest := [s[0]], s[1..];
    assert s == a + rest;
    StandsBoth(t, i, a, rest);
    assert t[i] == t[i..i + 1][0];
    NoCaseStep(t, i);
    OneStep(step, t, mark, i, st);
    assert WordStep(t, i, mark, st) == (i + 1, Longer(st, a));
    if rest == "" {
      assert a == s;
    } else {
      FlatGoes(step, t, mark, i + 1, Longer(st, a), rest);
      LongerTwice(st, a, rest);
      GoesOn(step, |t|, i, st, i + 1, Longer(st, a), i + |s|, Longer(st, s));
    }
  }

  lemma {:induction false} InsideGoes(step: WordScan, t: string, mark: bool, i: nat, st: Words, quote: char, s: string)
    requires IsTokenizer(step, t, mark) && Stands(t, i, s) && st.quote == Some(quote) && !st.verbatim && st.has
    requires WordPiece(Span(quote, s))
    ensures Goes(step, |t|, i, st, i + |s|, Longer(st, if quote == QUOTE then ShieldedText(s) else s))
    decreases |s|
  {
    if s == "" {
      assert st.cur + "" == st.cur;
      StaysHere(step, |t|, i, st);
    } else {
      var a, rest := [s[0]], s[1..];
      assert s == a + rest && s[0] in s;
      var first := if quote == QUOTE then [Shielded(s[0])] else a;
      var more := if quote == QUOTE then ShieldedText(rest) else rest;
      StandsBoth(t, i, a, rest);
      InsideStep(step, t, mark, i, st, quote, s[0]);
      InsideGoes(step, t, mark, i + 1, Longer(st, first), quote, rest);
      LongerTwice(st, first, more);
      GoesOn(step, |t|, i, st, i + 1, Longer(st, first), i + |s|, Longer(st, first + more));
    }
  }

  lemma {:induction false} InsideStep(step: WordScan, t: string, mark: bool, i: nat, st: Words, quote: char, c: char)
    requires IsTokenizer(step, t, mark) && Stands(t, i, [c]) && st.quote == Some(quote) && !st.verbatim && st.has
    requires c != quote && (quote == QUOTE || (quote == DQUOTE && c != '\\' && c != '$'))
    ensures Goes(step, |t|, i, st, i + 1, Longer(st, [if quote == QUOTE then Shielded(c) else c]))
  {
    assert t[i] == t[i..i + 1][0];
    OneStep(step, t, mark, i, st);
  }

  lemma {:induction false} QuoteSteps(step: WordScan, t: string, mark: bool, i: nat, st: Words)
    requires IsTokenizer(step, t, mark) && NoCase(t) && i < |t| && (t[i] == QUOTE || t[i] == DQUOTE)
    ensures Plain(st) ==>
              Goes(step, |t|, i, st, i + 1,
                   Longer(st, if mark then [Q_OPEN] else "").(quote := Some(t[i]), verbatim := false))
    ensures st.quote == Some(t[i]) && !st.verbatim ==>
              Goes(step, |t|, i, st, i + 1, Longer(st, if mark then [Q_CLOSE] else "").(quote := None))
  {
    NoCaseStep(t, i);
    OneStep(step, t, mark, i, st);
  }

  lemma {:induction false} SpanGoes(step: WordScan, t: string, mark: bool, i: nat, st: Words, quote: char, s: string)
    requires IsTokenizer(step, t, mark) && NoCase(t) && Stands(t, i, [quote] + (s + [quote])) && Plain(st)
    requires WordPiece(Span(quote, s))
    ensures Goes(step, |t|, i, st, i + |s| + 2, Longer(st, PieceValue(Span(quote, s), mark)).(verbatim := false))
  {
    var open, inner := if mark then [Q_OPEN] else [], if quote == QUOTE then ShieldedText(s) else s;
    var st2 := Longer(Longer(st, open), inner).(quote := Some(quote), verbatim := false);
    StandsAround(t, i, quote, s, quote);
    OpenedGoes(step, t, mark, i, st, quote, s, open, inner);
    QuoteSteps(step, t, mark, i + 1 + |s|, st2);
    var close := if mark then [Q_CLOSE] else [];
    GoesOn(step, |t|, i, st, i + 1 + |s|, st2, i + |s| + 2, Longer(st2, close).(quote := None));
    SpanIs(st, open, inner, close);
  }

  lemma {:induction false} OpenedGoes(step: WordScan, t: string, mark: bool, i: nat, st: Words, quote: char,
      s: string, open: string,
      inner: string)
    requires IsTokenizer(step, t, mark) && NoCase(t) && i < |t| && t[i] == quote && Stands(t, i + 1, s) && Plain(st)
    requires WordPiece(Span(quote, s))
    requires open == (if mark then [Q_OPEN] else []) && inner == if quote == QUOTE then ShieldedText(s) else s
    ensures Goes(step, |t|, i, st, i + 1 + |s|,
                 Longer(Longer(st, open), inner).(quote := Some(quote), verbatim := false))
  {
    QuoteSteps(step, t, mark, i, st);
    var st1 := Longer(st, open).(quote := Some(quote), verbatim := false);
    InsideGoes(step, t, mark, i + 1, st1, quote, s);
    GoesOn(step, |t|, i, st, i + 1, st1, i + 1 + |s|, Longer(st1, inner));
  }

  lemma {:induction false} SpanIs(st: Words, open: string, inner: string, close: string)
    ensures Longer(Longer(Longer(st, open), inner), close) == Longer(st, open + inner + close)
  {
    LongerTwice(st, open, inner);
    LongerTwice(st, open + inner, close);
  }

  lemma {:induction false} EscapeGoes(step: WordScan, t: string, mark: bool, i: nat, st: Words, c: char)
    requires IsTokenizer(step, t, mark) && NoCase(t) && Stands(t, i, ['\\', c]) && Plain(st)
    ensures Goes(step, |t|, i, st, i + 2, Longer(st, PieceValue(Escape(c), mark)))
  {
    assert t[i] == t[i..i + 2][0] && t[i + 1] == t[i..i + 2][1];
    NoCaseStep(t, i);
    OneStep(step, t, mark, i, st);
  }

  /** The same but for a flag that only matters inside quotes. */
  predicate Alike(a: Words, b: Words) {
    a == b.(verbatim := a.verbatim)
  }

  lemma {:induction false} PieceGoes(step: WordScan, t: string, mark: bool, i: nat, st: Words, p: Piece)
    returns (st': Words)
    requires IsTokenizer(step, t, mark) && NoCase(t) && Stands(t, i, PieceText(p)) && Plain(st) && WordPiece(p)
    ensures Goes(step, |t|, i, st, i + |PieceText(p)|, st') && Alike(st', Longer(st, PieceValue(p, mark)))
  {
    st' := Longer(st, PieceValue(p, mark));
    match p
    case Flat(s) => FlatGoes(step, t, mark, i, st, s);
    case Span(quote, s) =>
      SpanGoes(step, t, mark, i, st, quote, s);
      st' := st'.(verbatim := false);
    case Escape(c) => EscapeGoes(step, t, mark, i, st, c);
  }

  /** Where piece k of a word starts. */
  function PieceAt(i: nat, ps: seq<Piece>, k: nat): nat
    requires k <= |ps|
  {
    if k == 0 then i else PieceAt(i, ps, k - 1) + |PieceText(ps[k - 1])|
  }

  predicate PieceStands(t: string, i: nat, ps: seq<Piece>, k: nat)
    requires k < |ps|
  {
    WordPiece(ps[k]) && Stands(t, PieceAt(i, ps, k), PieceText(ps[k]))
  }

  /** At `i` there is a word of these pieces. */
  predicate WordStands(t: string, i: nat, ps: seq<Piece>) {
    ps != [] && forall k :: 0 <= k < |ps| ==> PieceStands(t, i, ps, k)
  }

  lemma {:induction false} PiecesGo(step: WordScan, t: string, mark: bool, i: nat, st: Words, ps: seq<Piece>, n: nat)
    returns (st': Words)
    requires IsTokenizer(step, t, mark) && NoCase(t) && WordStands(t, i, ps) && Plain(st) && 0 < n <= |ps|
    ensures Goes(step, |t|, i, st, PieceAt(i, ps, n), st') && Alike(st', Longer(st, WordValue(ps[..n], mark)))
    decreases n
  {
    if n == 1 {
      var p := ps[0];
      assert PieceStands(t, i, ps, 0);
      st' := PieceGoes(step, t, mark, PieceAt(i, ps, 0), st, p);
      assert ps[..1][..0] == [] && ps[..1][0] == p;
      assert "" + PieceValue(p, mark) == PieceValue(p, mark);
    } else {
      var before := PiecesGo(step, t, mark, i, st, ps, n - 1);
      st' := NextPiece(step, t, mark, i, before, ps, n);
      GoesOn(step, |t|, i, st, PieceAt(i, ps, n - 1), before, PieceAt(i, ps, n), st');
      ValueOfMore(st, before, st', ps, n, mark);
    }
  }

  lemma {:induction false} NextPiece(step: WordScan, t: string, mark: bool, i: nat, st: Words, ps: seq<Piece>, n: nat)
    returns (st': Words)
    requires IsTokenizer(step, t, mark) && NoCase(t) && WordStands(t, i, ps) && Plain(st) && 0 < n <= |ps|
    ensures Goes(step, |t|, PieceAt(i, ps, n - 1), st, PieceAt(i, ps, n), st')
    ensures Alike(st', Longer(st, PieceValue(ps[n - 1], mark)))
  {
    assert PieceStands(t, i, ps, n - 1);
    st' := PieceGoes(step, t, mark, PieceAt(i, ps, n - 1), st, ps[n - 1]);
  }

  lemma {:induction false} ValueOfMore(st: Words, before: Words, st': Words, ps: seq<Piece>, n: nat, mark: bool)
    requires 1 < n <= |ps| && Alike(before, Longer(st, WordValue(ps[..n - 1], mark)))
    requires Alike(st', Longer(before, PieceValue(ps[n - 1], mark)))
    ensures Alike(st', Longer(st, WordValue(ps[..n], mark)))
  {
    assert ps[..n][..n - 1] == ps[..n - 1] && ps[..n][n - 1] == ps[n - 1];
    LongerTwice(st, WordValue(ps[..n - 1], mark), PieceValue(ps[n - 1], mark));
  }

  // ----- all the words -----

  /** A word and where it starts. */
  datatype Placed = Placed(at: nat, ps: seq<Piece>)

  function WordEnd(w: Placed): nat {
    PieceAt(w.at, w.ps, |w.ps|)
  }

  predicate Blanks(t: string, i: nat, j: nat) {
    i <= j <= |t| && forall k :: i <= k < j ==> Blank1(t[k])
  }

  /** Where the text behind word m starts, m counting from 1. */
  function Behind(words: seq<Placed>, m: nat): nat
    requires m <= |words|
  {
    if m == 0 then 0 else WordEnd(words[m - 1])
  }

  /** The text is the words, with blanks around them and at least one between two of them. */
  predicate Laid(t: string, words: seq<Placed>) {
    && Blanks(t, Behind(words, |words|), |t|)
    && forall m :: 0 <= m < |words| ==> WordLaid(t, words, m)
  }

  predicate WordLaid(t: string, words: seq<Placed>, m: nat)
    requires m < |words|
  {
    && Blanks(t, Behind(words, m), words[m].at) && WordStands(t, words[m].at, words[m].ps)
    && (m > 0 ==> Behind(words, m) < words[m].at)
  }

  lemma {:induction false} BlanksGo(step: WordScan, t: string, mark: bool, i: nat, st: Words, j: nat)
    requires IsTokenizer(step, t, mark) && NoCase(t) && Blanks(t, i, j) && Plain(st)
    ensures Goes(step, |t|, i, st, j, if i < j then EndWord(st) else st)
    decreases j - i
  {
    if i < j {
      NoCaseStep(t, i);
      OneStep(step, t, mark, i, st);
      assert EndWord(EndWord(st)) == EndWord(st);
      BlanksGo(step, t, mark, i + 1, EndWord(st), j);
      GoesOn(step, |t|, i, st, i + 1, EndWord(st), j, EndWord(st));
    } else {
      StaysHere(step, |t|, i, st);
    }
  }

  function Values(words: seq<Placed>, n: nat, mark: bool): (r: seq<string>)
    requires n <= |words|
    ensures |r| == n && forall m :: 0 <= m < n ==> r[m] == WordValue(words[m].ps, mark)
  {
    seq(n, m requires 0 <= m < n => WordValue(words[m].ps, mark))
  }

  /** What has been read once word n is behind: the words before it are done, and it may be under way. */
  predicate ReadTo(st: Words, words: seq<Placed>, n: nat, mark: bool)
    requires n <= |words|
  {
    Plain(st) && EndWord(st).words == Values(words, n, mark) && (st.has <==> n > 0) && (n == 0 ==> st.cur == "")
  }

  lemma {:induction false} WordGoes(step: WordScan, t: string, mark: bool, st: Words, words: seq<Placed>, m: nat)
    returns (st': Words)
    requires IsTokenizer(step, t, mark) && NoCase(t) && Laid(t, words) && m < |words| && ReadTo(st, words, m, mark)
    ensures Goes(step, |t|, Behind(words, m), st, Behind(words, m + 1), st') && ReadTo(st', words, m + 1, mark)
  {
    var w := words[m];
    assert WordLaid(t, words, m);
    BlanksGo(step, t, mark, Behind(words, m), st, w.at);
    var st1 := if Behind(words, m) < w.at then EndWord(st) else st;
    st' := PiecesGo(step, t, mark, w.at, st1, w.ps, |w.ps|);
    GoesOn(step, |t|, Behind(words, m), st, w.at, st1, Behind(words, m + 1), st');
    NextRead(st, st1, st', words, m, mark);
  }

  lemma {:induction false} NextRead(st: Words, st1: Words, st': Words, words: seq<Placed>, m: nat, mark: bool)
    requires m < |words| && ReadTo(st, words, m, mark) && (st1 == EndWord(st) || (m == 0 && st1 == st))
    requires Alike(st', Longer(st1, WordValue(words[m].ps[..|words[m].ps|], mark)))
    ensures ReadTo(st', words, m + 1, mark)
  {
    var ps := words[m].ps;
    assert ps[..|ps|] == ps;
    assert st1.cur == "" && "" + WordValue(ps, mark) == WordValue(ps, mark);
    assert Values(words, m + 1, mark) == Values(words, m, mark) + [WordValue(ps, mark)];
  }

  lemma {:induction false} WordsGo(step: WordScan, t: string, mark: bool, words: seq<Placed>, m: nat)
    returns (st: Words)
    requires IsTokenizer(step, t, mark) && NoCase(t) && Laid(t, words) && m <= |words|
    ensures Goes(step, |t|, 0, NO_WORDS, Behind(words, m), st) && ReadTo(st, words, m, mark)
    decreases m
  {
    if m == 0 {
      st := NoneYet(step, t, mark, words);
    } else {
      var before := WordsGo(step, t, mark, words, m - 1);
      st := OneWordMore(step, t, mark, words, m - 1, before);
    }
  }

  lemma {:induction false} NoneYet(step: WordScan, t: string, mark: bool, words: seq<Placed>) returns (st: Words)
    ensures Goes(step, |t|, 0, NO_WORDS, Behind(words, 0), st) && ReadTo(st, words, 0, mark)
  {
    st := NO_WORDS;
    StaysHere(step, |t|, 0, st);
    assert Values(words, 0, mark) == [];
  }

  lemma {:induction false} OneWordMore(step: WordScan, t: string, mark: bool, words: seq<Placed>, m: nat, before: Words)
    returns (st: Words)
    requires IsTokenizer(step, t, mark) && NoCase(t) && Laid(t, words) && m < |words| && ReadTo(before, words, m, mark)
    requires Goes(step, |t|, 0, NO_WORDS, Behind(words, m), before)
    ensures Goes(step, |t|, 0, NO_WORDS, Behind(words, m + 1), st) && ReadTo(st, words, m + 1, mark)
  {
    st := WordGoes(step, t, mark, before, words, m);
    GoesOn(step, |t|, 0, NO_WORDS, Behind(words, m), before, Behind(words, m + 1), st);
  }

  /** The words of a stage are those that the blanks separate, and their values are those of their pieces. */
  lemma {:induction false} WordsAreRead(t: string, mark: bool, words: seq<Placed>)
    requires NoCase(t) && Laid(t, words)
    ensures Tokens(t, mark) == Values(words, |words|, mark)
  {
    var step: WordScan := (i: nat, st: Words) => if i < |t| then WordStep(t, i, mark, st) else (i, st);
    var n := |words|;
    var st := WordsGo(step, t, mark, words, n);
    BlanksGo(step, t, mark, Behind(words, n), st, |t|);
    var last := if Behind(words, n) < |t| then EndWord(st) else st;
    GoesOn(step, |t|, 0, NO_WORDS, Behind(words, n), st, |t|, last);
    var k: nat :| Steps(step, |t|, 0, NO_WORDS, k) == (|t|, last);
    SameEnd(step, t, mark, 0, NO_WORDS, k);
    assert EndWord(EndWord(st)) == EndWord(st);
  }
}

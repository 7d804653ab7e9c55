// Where a line is cut into statements: at the separators outside quotes and
// parentheses, and nowhere else.

module StatementLaws {
  import opened Wrappers
  import opened ShellText
  import opened Scanners
  import opened QuotingRoundTrip
  import opened Pieces

  // ----- pieces that no statement ends in -----

  /** At the top level a separator would end the statement; in parentheses it does not. */
  predicate FirmChar(c: char, depth: nat) {
    && c !in [QUOTE, DQUOTE, '(', ')', '\\', '#']
    && (depth == 0 ==> c !in [';', '&', '|', '\n', '\r'])
  }

  predicate Firm(ps: seq<Piece>, depth: nat)
    decreases ps, 0
  {
    ps != [] ==> FirmPiece(ps[0], depth) && Firm(ps[1..], depth)
  }

  predicate FirmPiece(p: Piece, depth: nat)
    decreases p, 0
  {
    match p
    case Flat(text) => forall k :: 0 <= k < |text| ==> FirmChar(text[k], depth)
    case Span(quote, text) => (quote == QUOTE || (quote == DQUOTE && '\\' !in text)) && quote !in text
    case Escape(c) => c != '\n' && c != '\r'
    case Nested(pieces) => Firm(pieces, depth + 1)
  }

  predicate Open(st: Splitter, quote: Option<char>, depth: nat) {
    st.quote == quote && st.depth == depth && st.cs == []
  }

  lemma {:induction false} FirmStep(t: string, i: nat, st: Splitter, depth: nat)
    requires NoCase(t) && i < |t| && st.start <= |t| && Open(st, None, depth) && FirmChar(t[i], depth)
    ensures Passes(t, i, st, [t[i]])
  {
    NoCaseStep(t, i);
    GoesStep(t, i, st);
    assert SplitStep(t, i, Started(i, st)) == (i + 1, Grown(st, i, [t[i]]));
  }

  lemma {:induction false} FlatPasses(t: string, i: nat, st: Splitter, s: string, depth: nat)
    requires NoCase(t) && st.start <= |t| && Stands(t, i, s) && Open(st, None, depth) && FirmPiece(Flat(s), depth)
    ensures Passes(t, i, st, s)
    decreases |s|
  {
    if s != "" {
      assert s == [s[0]] + s[1..];
      StandsBoth(t, i, [s[0]], s[1..]);
      assert t[i] == t[i..i + 1][0];
      FirmStep(t, i, st, depth);
      FlatPasses(t, i + 1, Grown(st, i, [s[0]]), s[1..], depth);
      PassTwice(t, i, st, [s[0]], s[1..]);
    }
  }

  /** Inside quotes everything is kept; inside double ones there is no backslash. */
  lemma {:induction false} InsidePasses(t: string, i: nat, st: Splitter, s: string, quote: char)
    requires st.start <= |t| && Stands(t, i, s) && st.quote == Some(quote) && st.cur != "" && quote !in s
    requires quote == DQUOTE ==> '\\' !in s
    ensures Passes(t, i, st, s)
    decreases |s|
  {
    if s != "" {
      assert s == [s[0]] + s[1..] && s[0] in s;
      StandsBoth(t, i, [s[0]], s[1..]);
      assert t[i] == t[i..i + 1][0];
      GoesStep(t, i, st);
      assert SplitStep(t, i, Started(i, st)) == (i + 1, Grown(st, i, [s[0]]));
      InsidePasses(t, i + 1, Grown(st, i, [s[0]]), s[1..], quote);
      PassTwice(t, i, st, [s[0]], s[1..]);
    }
  }

  lemma {:induction false} QuoteOpens(t: string, i: nat, st: Splitter, depth: nat)
    requires NoCase(t) && i < |t| && st.start <= |t| && Open(st, None, depth) && (t[i] == QUOTE || t[i] == DQUOTE)
    ensures Goes(t, i, st, i + 1, Grown(st, i, [t[i]]).(quote := Some(t[i])))
  {
    NoCaseStep(t, i);
    GoesStep(t, i, st);
  }

  lemma {:induction false} QuoteCloses(t: string, i: nat, st: Splitter)
    requires i < |t| && st.start <= |t| && st.cur != "" && st.quote == Some(t[i]) && t[i] != '\\'
    ensures Goes(t, i, st, i + 1, Grown(st, i, [t[i]]).(quote := None))
  {
    GoesStep(t, i, st);
  }

  lemma {:induction false} SpanPasses(t: string, i: nat, st: Splitter, quote: char, s: string, depth: nat)
    requires NoCase(t) && st.start <= |t| && Stands(t, i, [quote] + (s + [quote])) && Open(st, None, depth)
    requires FirmPiece(Span(quote, s), depth)
    ensures Passes(t, i, st, [quote] + (s + [quote]))
  {
    StandsAround(t, i, quote, s, quote);
    QuoteOpens(t, i, st, depth);
    var st1 := Grown(st, i, [quote]).(quote := Some(quote));
    InsidePasses(t, i + 1, st1, s, quote);
    var st2 := Grown(st1, i + 1, s);
    QuoteCloses(t, i + 1 + |s|, st2);
    GoesOn(t, i, st, i + 1, st1, i + 1 + |s|, st2);
    GoesOn(t, i, st, i + 1 + |s|, st2, i + |s| + 2, Grown(st2, i + 1 + |s|, [quote]).(quote := None));
    Around(st, i, [quote], s, [quote]);
  }

  lemma {:induction false} Around(st: Splitter, i: nat, a: string, s: string, b: string)
    ensures Grown(Grown(Grown(st, i, a), i + |a|, s), i + |a| + |s|, b) == Grown(st, i, a + (s + b))
  {
    GrownTwice(st, i, a, s);
    GrownTwice(st, i, a + s, b);
    assert a + s + b == a + (s + b);
  }

  lemma {:induction false} EscapePasses(t: string, i: nat, st: Splitter, c: char, depth: nat)
    requires NoCase(t) && st.start <= |t| && Stands(t, i, ['\\', c]) && Open(st, None, depth) && c != '\n' && c != '\r'
    ensures Passes(t, i, st, ['\\', c])
  {
    assert t[i] == t[i..i + 2][0] && t[i + 1] == t[i..i + 2][1];
    GoesStep(t, i, st);
    assert SplitStep(t, i, Started(i, st)) == (i + 2, Grown(st, i, ['\\', c]));
  }

  lemma {:induction false} ParenStep(t: string, i: nat, st: Splitter, depth: nat)
    requires NoCase(t) && i < |t| && st.start <= |t| && Open(st, None, depth)
    ensures t[i] == '(' ==> Goes(t, i, st, i + 1, Grown(st, i, [t[i]]).(depth := depth + 1))
    ensures t[i] == ')' && depth > 0 ==> Goes(t, i, st, i + 1, Grown(st, i, [t[i]]).(depth := depth - 1))
  {
    NoCaseStep(t, i);
    GoesStep(t, i, st);
  }

  lemma {:induction false} NestedPasses(t: string, i: nat, st: Splitter, s: string, depth: nat)
    requires NoCase(t) && st.start <= |t| && Stands(t, i, ['('] + (s + [')'])) && Open(st, None, depth)
    requires Passes(t, i + 1, Grown(st, i, ['(']).(depth := depth + 1), s)
    ensures Passes(t, i, st, ['('] + (s + [')']))
  {
    StandsAround(t, i, '(', s, ')');
    ParenStep(t, i, st, depth);
    var st1 := Grown(st, i, ['(']).(depth := depth + 1);
    var st2 := Grown(st1, i + 1, s);
    ParenStep(t, i + 1 + |s|, st2, depth + 1);
    GoesOn(t, i, st, i + 1, st1, i + 1 + |s|, st2);
    GoesOn(t, i, st, i + 1 + |s|, st2, i + |s| + 2, Grown(st2, i + 1 + |s|, [')']).(depth := depth));
    Around(st, i, ['('], s, [')']);
  }

  lemma {:induction false} PiecePasses(t: string, i: nat, st: Splitter, p: Piece, depth: nat)
    requires NoCase(t) && st.start <= |t| && Stands(t, i, PieceText(p)) && Open(st, None, depth) && FirmPiece(p, depth)
    ensures Passes(t, i, st, PieceText(p))
    decreases p, 1
  {
    match p
    case Flat(s) => FlatPasses(t, i, st, s, depth);
    case Span(quote, s) => SpanPasses(t, i, st, quote, s, depth);
    case Escape(c) => EscapePasses(t, i, st, c, depth);
    case Nested(pieces) =>
      StandsAround(t, i, '(', PiecesText(pieces), ')');
      PiecesPass(t, i + 1, Grown(st, i, ['(']).(depth := depth + 1), pieces, depth + 1);
      NestedPasses(t, i, st, PiecesText(pieces), depth);
  }

  /** Quotes, escapes and parentheses keep a statement together. */
  lemma {:induction false} PiecesPass(t: string, i: nat, st: Splitter, ps: seq<Piece>, depth: nat)
    requires NoCase(t) && st.start <= |t| && Stands(t, i, PiecesText(ps)) && Open(st, None, depth) && Firm(ps, depth)
    ensures Passes(t, i, st, PiecesText(ps))
    decreases ps, 1
  {
    if ps != [] {
      var a, b := PieceText(ps[0]), PiecesText(ps[1..]);
      StandsBoth(t, i, a, b);
      PiecePasses(t, i, st, ps[0], depth);
      PiecesPass(t, i + |a|, Grown(st, i, a), ps[1..], depth);
      PassTwice(t, i, st, a, b);
    }
  }

  // ----- separators -----

  datatype Mark = Semi | DoubleSemi | And | Or | Amp | NewLine | Return

  /** A separator, and the pieces up to the next one. */
  datatype Clause = Clause(mark: Mark, ps: seq<Piece>)

  function MarkText(mark: Mark): string {
    match mark
    case Semi => [';']
    case DoubleSemi => [';', ';']
    case And => ['&', '&']
    case Or => ['|', '|']
    case Amp => ['&']
    case NewLine => ['\n']
    case Return => ['\r']
  }

  predicate EndsLine(mark: Mark) {
    mark == NewLine || mark == Return
  }

  /** The operator in front of the next statement: a newline and `&` count as `;`. */
  function OperatorOf(mark: Mark): string {
    if mark == DoubleSemi || mark == And || mark == Or then MarkText(mark) else [';']
  }

  /** The mark at `i` is not part of a longer one, and `&` not part of a redirect. */
  predicate Separates(t: string, i: nat, mark: Mark) {
    && Stands(t, i, MarkText(mark))
    && (mark == Semi ==> !NextIs(t, i, ';'))
    && (mark == Amp ==> !NextIs(t, i, '&') && !NextIs(t, i, '>') && !(i > 0 && t[i - 1] == '>'))
  }

  /** The state behind a separator. A newline after nothing is nothing. */
  function Behind(t: string, i: nat, st: Splitter, mark: Mark): Splitter
    requires i <= |t| && st.start <= |t|
  {
    var st' := Started(i, st);
    if EndsLine(mark) && Trim(st.cur) == "" then st' else Cut(t, st', OperatorOf(mark))
  }

  lemma {:induction false} MarkStep(t: string, i: nat, st: Splitter, mark: Mark)
    requires NoCase(t) && st.start <= |t| && Top(st) && Separates(t, i, mark)
    ensures Goes(t, i, st, i + |MarkText(mark)|, Behind(t, i, st, mark))
  {
    assert t[i] == t[i..i + |MarkText(mark)|][0];
    assert |MarkText(mark)| == 2 ==> t[i + 1] == t[i..i + |MarkText(mark)|][1];
    NoCaseStep(t, i);
    GoesStep(t, i, st);
    if EndsLine(mark) {
      LineStep(t, i, Started(i, st));
    } else {
      MarkCuts(t, i, Started(i, st), mark);
    }
  }

  lemma {:induction false} LineStep(t: string, i: nat, st: Splitter)
    requires i < |t| && st.start <= |t| && Top(st) && (t[i] == '\n' || t[i] == '\r')
    requires CaseStep([], t, i) == ([], false)
    ensures SplitStep(t, i, st) == (i + 1, if Trim(st.cur) == "" then st else Cut(t, st, [';']))
  {
  }

  lemma {:induction false} MarkCuts(t: string, i: nat, st: Splitter, mark: Mark)
    requires st.start <= |t| && Top(st) && !EndsLine(mark) && Separates(t, i, mark)
    requires t[i] == MarkText(mark)[0] && (|MarkText(mark)| == 2 ==> t[i + 1] == MarkText(mark)[1])
    requires CaseStep([], t, i) == ([], false)
    ensures SplitStep(t, i, st) == (i + |MarkText(mark)|, Cut(t, st, OperatorOf(mark)))
  {
  }

  // ----- a whole line -----

  /** At `i` there is the clause. */
  predicate ClauseAt(t: string, i: nat, c: Clause) {
    Separates(t, i, c.mark) && Firm(c.ps, 0) && Stands(t, i + |MarkText(c.mark)|, PiecesText(c.ps))
  }

  function EndOf(i: nat, c: Clause): nat {
    i + |MarkText(c.mark)| + |PiecesText(c.ps)|
  }

  /** Where clause m starts, when the first one is at `i`. */
  function PlaceOf(i: nat, clauses: seq<Clause>, m: nat): nat
    requires m <= |clauses|
  {
    if m == 0 then i else EndOf(PlaceOf(i, clauses, m - 1), clauses[m - 1])
  }

  /** From `i` on there are the clauses and nothing else. */
  predicate Clauses(t: string, i: nat, clauses: seq<Clause>) {
    && PlaceOf(i, clauses, |clauses|) == |t|
    && forall m :: 0 <= m < |clauses| ==> ClauseAt(t, PlaceOf(i, clauses, m), clauses[m])
  }

  /** A statement and the operator in front of it. */
  type Said = (string, string)

  function Shown(stmts: seq<Statement>): (r: seq<Said>)
    ensures |r| == |stmts|
  {
    seq(|stmts|, k requires 0 <= k < |stmts| => (stmts[k].sep, stmts[k].text))
  }

  /** The statement under way: without the blanks around it, and none if it is blank. */
  function Last(sep: string, cur: string): seq<Said> {
    if Trim(cur) == "" then [] else [(sep, Trim(cur))]
  }

  /** The statements of the text `cur` behind the operator `sep`, and of the clauses from m on. */
  function Cuts(sep: string, cur: string, clauses: seq<Clause>, m: nat): seq<Said>
    requires m <= |clauses|
    decreases |clauses| - m
  {
    if m == |clauses| then Last(sep, cur)
    else
      var mark, s := clauses[m].mark, PiecesText(clauses[m].ps);
      if EndsLine(mark) && Trim(cur) == "" then Cuts(sep, cur + s, clauses, m + 1)
      else Last(sep, cur) + Cuts(OperatorOf(mark), s, clauses, m + 1)
  }

  lemma {:induction false} EndShows(t: string, st: Splitter)
    requires st.start <= |t|
    ensures Shown(EndStatement(t, st).stmts) == Shown(st.stmts) + Last(st.sep, st.cur)
  {
  }

  ghost predicate Shows(t: string, i: nat, st: Splitter, out: seq<Said>) {
    i <= |t| && st.start <= |t| && Shown(EndStatement(t, SplitFrom(t, i, st)).stmts) == out
  }

  lemma {:induction false} ShowsFurther(t: string, i: nat, st: Splitter, j: nat, st': Splitter, out: seq<Said>)
    requires Goes(t, i, st, j, st') && Shows(t, j, st', out)
    ensures Shows(t, i, st, out)
  {
  }

  /** The state `st2` behind a separator and the pieces after it. */
  predicate Becomes(st: Splitter, mark: Mark, s: string, st2: Splitter) {
    && Top(st2)
    && if EndsLine(mark) && Trim(st.cur) == ""
       then st2.cur == st.cur + s && st2.sep == st.sep && st2.stmts == st.stmts
       else st2.cur == s && st2.sep == OperatorOf(mark) && Shown(st2.stmts) == Shown(st.stmts) + Last(st.sep, st.cur)
  }

  lemma {:induction false} OneClauseGoes(t: string, i: nat, st: Splitter, c: Clause) returns (st2: Splitter)
    requires NoCase(t) && st.start <= |t| && Top(st) && ClauseAt(t, i, c)
    ensures Goes(t, i, st, EndOf(i, c), st2) && Becomes(st, c.mark, PiecesText(c.ps), st2)
  {
    MarkStep(t, i, st, c.mark);
    BehindIsTop(t, i, st, c.mark);
    var j := i + |MarkText(c.mark)|;
    PiecesFollow(t, i, st, j, Behind(t, i, st, c.mark), c.ps);
    st2 := Grown(Behind(t, i, st, c.mark), j, PiecesText(c.ps));
    BehindShows(t, i, st, c.mark, PiecesText(c.ps));
  }

  lemma {:induction false} BehindIsTop(t: string, i: nat, st: Splitter, mark: Mark)
    requires i <= |t| && st.start <= |t| && Top(st)
    ensures Top(Behind(t, i, st, mark))
  {
  }

  lemma {:induction false} PiecesFollow(t: string, i: nat, st: Splitter, j: nat, st1: Splitter, ps: seq<Piece>)
    requires NoCase(t) && Goes(t, i, st, j, st1) && Top(st1) && Firm(ps, 0) && Stands(t, j, PiecesText(ps))
    ensures Goes(t, i, st, j + |PiecesText(ps)|, Grown(st1, j, PiecesText(ps))) && Top(Grown(st1, j, PiecesText(ps)))
  {
    PiecesPass(t, j, st1, ps, 0);
  }

  lemma {:induction false} ClausesAreCut(t: string, i: nat, st: Splitter, clauses: seq<Clause>, m: nat)
    requires NoCase(t) && st.start <= |t| && Top(st) && m <= |clauses| && Clauses(t, i, clauses)
    ensures Shows(t, PlaceOf(i, clauses, m), st, Shown(st.stmts) + Cuts(st.sep, st.cur, clauses, m))
    decreases |clauses| - m
  {
    if m == |clauses| {
      EndShows(t, st);
    } else {
      var p := PlaceOf(i, clauses, m);
      var st2 := OneClauseGoes(t, p, st, clauses[m]);
      ClausesAreCut(t, i, st2, clauses, m + 1);
      NextOut(st, clauses, m, st2);
      ShowsFurther(t, p, st, PlaceOf(i, clauses, m + 1), st2, Shown(st.stmts) + Cuts(st.sep, st.cur, clauses, m));
    }
  }

  lemma {:induction false} NextOut(st: Splitter, clauses: seq<Clause>, m: nat, st2: Splitter)
    requires m < |clauses| && Becomes(st, clauses[m].mark, PiecesText(clauses[m].ps), st2)
    ensures Shown(st2.stmts) + Cuts(st2.sep, st2.cur, clauses, m + 1) ==
            Shown(st.stmts) + Cuts(st.sep, st.cur, clauses, m)
  {
    var s := PiecesText(clauses[m].ps);
    ThreeParts(Shown(st.stmts), Last(st.sep, st.cur), Cuts(OperatorOf(clauses[m].mark), s, clauses, m + 1));
  }

  lemma {:induction false} BehindShows(t: string, i: nat, st: Splitter, mark: Mark, s: string)
    requires i <= |t| && st.start <= |t| && Top(st)
    ensures Becomes(st, mark, s, Grown(Behind(t, i, st, mark), i + |MarkText(mark)|, s))
  {
    if EndsLine(mark) && Trim(st.cur) == "" {
      assert s == "" ==> st.cur + s == st.cur;
    } else {
      EndShows(t, Started(i, st));
      assert "" + s == s;
    }
  }

  lemma {:induction false} ThreeParts(a: seq<Said>, b: seq<Said>, c: seq<Said>)
    ensures a + b + c == a + (b + c)
  {
  }

  /** A line is cut at every separator that stands between the pieces, and nowhere else. */
  lemma {:induction false} LineIsCut(t: string, ps: seq<Piece>, clauses: seq<Clause>)
    requires NoCase(t) && Stands(t, 0, PiecesText(ps)) && Firm(ps, 0) && Clauses(t, |PiecesText(ps)|, clauses)
    ensures Shown(Scanners.Statements(t)) == Cuts("", PiecesText(ps), clauses, 0)
  {
    var s := PiecesText(ps);
    PiecesPass(t, 0, NO_STATEMENTS, ps, 0);
    assert "" + s == s;
    var st := Grown(NO_STATEMENTS, 0, s);
    ClausesAreCut(t, |s|, st, clauses, 0);
    ShowsFurther(t, 0, NO_STATEMENTS, |s|, st, Shown(st.stmts) + Cuts("", s, clauses, 0));
    assert Shown([]) + Cuts("", s, clauses, 0) == Cuts("", s, clauses, 0);
  }

  // ----- comments and continued lines -----

  /** `#` where a word may start: the rest of the line is dropped. */
  lemma {:induction false} CommentIsDropped(t: string, i: nat, st: Splitter, depth: nat, j: nat)
    requires NoCase(t) && i < j <= |t| && st.start <= |t| && Open(st, None, depth) && t[i] == '#'
    requires i == 0 || t[i - 1] in [' ', '\t', '\r', '\n', ';', '&', '|', '(', ')']
    requires (forall k :: i < k < j ==> t[k] != '\n') && (j < |t| ==> t[j] == '\n')
    ensures Goes(t, i, st, j, Started(i, st))
  {
    NoCaseStep(t, i);
    GoesStep(t, i, st);
    CommentEndIs(t, i + 1, j);
  }

  lemma {:induction false} CommentEndIs(t: string, i: nat, j: nat)
    requires i <= j <= |t| && (forall k :: i <= k < j ==> t[k] != '\n') && (j < |t| ==> t[j] == '\n')
    ensures CommentEnd(t, i) == j
    decreases j - i
  {
    if i < j {
      CommentEndIs(t, i + 1, j);
    }
  }

  /** A backslash at the end of a line joins it to the next, in double quotes too. */
  lemma {:induction false} ContinuationVanishes(t: string, i: nat, st: Splitter)
    requires i < |t| && st.start <= |t| && (st.quote == None || st.quote == Some(DQUOTE))
    requires Stands(t, i, ['\\', '\n']) || Stands(t, i, ['\\', '\r', '\n'])
    ensures Goes(t, i, st, if t[i + 1] == '\n' then i + 2 else i + 3, Started(i, st))
  {
    if Stands(t, i, ['\\', '\n']) {
      assert t[i] == t[i..i + 2][0] && t[i + 1] == t[i..i + 2][1];
    } else {
      assert t[i] == t[i..i + 3][0] && t[i + 1] == t[i..i + 3][1] && t[i + 2] == t[i..i + 3][2];
    }
    GoesStep(t, i, st);
  }
}

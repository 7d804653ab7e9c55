// Where a statement is cut into the stages of a pipeline: at every pipe outside
// quotes and parentheses, and nowhere else.

module StageLaws {
  import opened Wrappers
  import opened ShellText
  import opened Scanners
  import opened Pieces
  import opened Scans

  // ----- pieces that no stage ends in -----

  predicate StageChar(c: char, depth: nat) {
    c !in [QUOTE, DQUOTE, '(', ')'] && (depth == 0 ==> c != '|')
  }

  predicate Whole(ps: seq<Piece>, depth: nat)
    decreases ps, 0
  {
    ps != [] ==> WholePiece(ps[0], depth) && Whole(ps[1..], depth)
  }

  /** Here a backslash is a character like any other. */
  predicate WholePiece(p: Piece, depth: nat)
    decreases p, 0
  {
    match p
    case Flat(text) => forall k :: 0 <= k < |text| ==> StageChar(text[k], depth)
    case Span(quote, text) => (quote == QUOTE || quote == DQUOTE) && quote !in text
    case Escape(c) => StageChar(c, depth)
    case Nested(pieces) => Whole(pieces, depth + 1)
  }

  type StageScan = Step<Piper>

  /** The scan of `splitPipeline` over the text. */
  ghost predicate IsSplitter(step: StageScan, t: string) {
    forall i: nat, st: Piper {:trigger PipeStep(t, i, st)} :: i < |t| ==> step(i, st) == (i + 1, PipeStep(t, i, st))
  }

  lemma {:induction false} SameEnd(step: StageScan, t: string, i: nat, st: Piper, n: nat)
    requires IsSplitter(step, t) && i <= |t|
    ensures var (j, st') := Steps(step, |t|, i, st, n); j <= |t| && PipeFrom(t, i, st) == PipeFrom(t, j, st')
    decreases n
  {
    if n > 0 && i < |t| {
      var st' := PipeStep(t, i, st);
      assert PipeFrom(t, i, st) == PipeTurn(t, i, st) == PipeFrom(t, i + 1, st');
      SameEnd(step, t, i + 1, st', n - 1);
    }
  }

  predicate Open(st: Piper, quote: Option<char>, depth: nat) {
    st.quote == quote && st.depth == depth && st.cs == []
  }

  function Longer(st: Piper, s: string): Piper {
    st.(cur := st.cur + s)
  }

  lemma {:induction false} LongerTwice(st: Piper, a: string, b: string)
    ensures Longer(Longer(st, a), b) == Longer(st, a + b)
  {
    assert st.cur + a + b == st.cur + (a + b);
  }

  /** One character that cuts nothing: what it does to the quotes and the depth. */
  lemma {:induction false} CharGoes(step: StageScan, t: string, i: nat, st: Piper, depth: nat)
    requires IsSplitter(step, t) && NoCase(t) && i < |t| && Open(st, st.quote, depth)
    requires st.quote == None && depth == 0 ==> t[i] != '|' && t[i] != ')'
    ensures var c, longer := t[i], Longer(st, [t[i]]);
            Goes(step, |t|, i, st, i + 1,
              if st.quote.Some? then longer.(quote := if st.quote == Some(c) then None else st.quote)
              else if c == QUOTE || c == DQUOTE then longer.(quote := Some(c))
              else if c == '(' then longer.(depth := depth + 1)
              else if c == ')' then longer.(depth := if depth > 0 then depth - 1 else 0)
              else longer)
  {
    NoCaseStep(t, i);
    GoesStep(step, |t|, i, st, i + 1, PipeStep(t, i, st));
  }

  /** Text that opens and closes nothing. */
  lemma {:induction false} PlainGoes(step: StageScan, t: string, i: nat, st: Piper, s: string, depth: nat)
    requires IsSplitter(step, t) && NoCase(t) && Stands(t, i, s) && Open(st, st.quote, depth)
    requires if st.quote.Some? then st.quote.value !in s
             else forall k :: 0 <= k < |s| ==> StageChar(s[k], depth)
    ensures Goes(step, |t|, i, st, i + |s|, Longer(st, s))
    decreases |s|
  {
    if s == "" {
      assert st.cur + "" == st.cur;
      StaysHere(step, |t|, i, st);
    } else {
      var a, rest := [s[0]], s[1..];
      assert s == a + rest && s[0] in s;
      StandsBoth(t, i, a, rest);
      assert t[i] == t[i..i + 1][0];
      CharGoes(step, t, i, st, depth);
      PlainGoes(step, t, i + 1, Longer(st, a), rest, depth);
      LongerTwice(st, a, rest);
      GoesOn(step, |t|, i, st, i + 1, Longer(st, a), i + |s|, Longer(st, s));
    }
  }

  /** A character, then text in another state, then a character that ends that state. */
  lemma {:induction false} AroundGoes(step: StageScan, t: string, i: nat, st: Piper, a: char, s: string, b: char,
      inner: Piper)
    requires Goes(step, |t|, i, st, i + 1, inner)
    requires inner == Longer(st, [a]).(quote := inner.quote, depth := inner.depth)
    requires Goes(step, |t|, i + 1, inner, i + 1 + |s|, Longer(inner, s))
    requires Goes(step, |t|, i + 1 + |s|, Longer(inner, s), i + |s| + 2,
                  Longer(Longer(inner, s), [b]).(quote := st.quote, depth := st.depth))
    ensures Goes(step, |t|, i, st, i + |s| + 2, Longer(st, [a] + (s + [b])))
  {
    var before, after := Longer(inner, s), Longer(Longer(inner, s), [b]).(quote := st.quote, depth := st.depth);
    GoesOn(step, |t|, i, st, i + 1, inner, i + 1 + |s|, before);
    GoesOn(step, |t|, i, st, i + 1 + |s|, before, i + |s| + 2, after);
    assert st.cur + [a] + s + [b] == st.cur + ([a] + (s + [b]));
  }

  lemma {:induction false} PieceGoes(step: StageScan, t: string, i: nat, st: Piper, p: Piece, depth: nat)
    requires IsSplitter(step, t) && NoCase(t) && Stands(t, i, PieceText(p)) && Open(st, None, depth)
    requires WholePiece(p, depth)
    ensures Goes(step, |t|, i, st, i + |PieceText(p)|, Longer(st, PieceText(p)))
    decreases p, 1
  {
    match p
    case Flat(s) => PlainGoes(step, t, i, st, s, depth);
    case Escape(c) => PlainGoes(step, t, i, st, ['\\', c], depth);
    case Span(quote, s) =>
      StandsAround(t, i, quote, s, quote);
      var inner := Longer(st, [quote]).(quote := Some(quote));
      CharGoes(step, t, i, st, depth);
      PlainGoes(step, t, i + 1, inner, s, depth);
      CharGoes(step, t, i + 1 + |s|, Longer(inner, s), depth);
      AroundGoes(step, t, i, st, quote, s, quote, inner);
    case Nested(pieces) =>
      var s := PiecesText(pieces);
      StandsAround(t, i, '(', s, ')');
      var inner := Longer(st, ['(']).(depth := depth + 1);
      CharGoes(step, t, i, st, depth);
      PiecesGo(step, t, i + 1, inner, pieces, depth + 1);
      CharGoes(step, t, i + 1 + |s|, Longer(inner, s), depth + 1);
      AroundGoes(step, t, i, st, '(', s, ')', inner);
  }

  lemma {:induction false} PiecesGo(step: StageScan, t: string, i: nat, st: Piper, ps: seq<Piece>, depth: nat)
    requires IsSplitter(step, t) && NoCase(t) && Stands(t, i, PiecesText(ps)) && Open(st, None, depth)
    requires Whole(ps, depth)
    ensures Goes(step, |t|, i, st, i + |PiecesText(ps)|, Longer(st, PiecesText(ps)))
    decreases ps, 1
  {
    if ps == [] {
      assert st.cur + "" == st.cur;
      StaysHere(step, |t|, i, st);
    } else {
      var a, b := PieceText(ps[0]), PiecesText(ps[1..]);
      StandsBoth(t, i, a, b);
      PieceGoes(step, t, i, st, ps[0], depth);
      PiecesGo(step, t, i + |a|, Longer(st, a), ps[1..], depth);
      LongerTwice(st, a, b);
      GoesOn(step, |t|, i, st, i + |a|, Longer(st, a), i + |a| + |b|, Longer(st, a + b));
    }
  }

  // ----- a whole pipeline -----

  /** Where stage m starts: one pipe behind the stage before it. */
  function PlaceOf(stages: seq<seq<Piece>>, m: nat): nat
    requires m < |stages|
    decreases m, 0
  {
    if m == 0 then 0 else EndOf(stages, m - 1) + 1
  }

  function EndOf(stages: seq<seq<Piece>>, m: nat): nat
    requires m < |stages|
    decreases m, 1
  {
    PlaceOf(stages, m) + |PiecesText(stages[m])|
  }

  predicate StageAt(t: string, stages: seq<seq<Piece>>, m: nat)
    requires m < |stages|
  {
    var end := EndOf(stages, m);
    && Stands(t, PlaceOf(stages, m), PiecesText(stages[m])) && Whole(stages[m], 0)
    && if m + 1 == |stages| then end == |t| else end < |t| && t[end] == '|' && !NextIs(t, end, '|')
  }

  /** The text is the stages, with a pipe between two of them. */
  predicate Pipeline(t: string, stages: seq<seq<Piece>>) {
    stages != [] && forall m :: 0 <= m < |stages| ==> StageAt(t, stages, m)
  }

  function Texts(stages: seq<seq<Piece>>, n: nat): (r: seq<string>)
    requires n <= |stages|
    ensures |r| == n && forall m :: 0 <= m < n ==> r[m] == Trim(PiecesText(stages[m]))
  {
    seq(n, m requires 0 <= m < n => Trim(PiecesText(stages[m])))
  }

  /** The state at the start of stage m. */
  predicate Begun(st: Piper, stages: seq<seq<Piece>>, m: nat)
    requires m <= |stages|
  {
    Open(st, None, 0) && st.cur == "" && st.stages == Texts(stages, m)
  }

  lemma {:induction false} StageGoes(step: StageScan, t: string, stages: seq<seq<Piece>>, m: nat, st: Piper)
    requires IsSplitter(step, t) && NoCase(t) && Pipeline(t, stages) && m < |stages| && Begun(st, stages, m)
    ensures Goes(step, |t|, PlaceOf(stages, m), st, EndOf(stages, m), st.(cur := PiecesText(stages[m])))
  {
    assert StageAt(t, stages, m);
    PiecesGo(step, t, PlaceOf(stages, m), st, stages[m], 0);
    assert "" + PiecesText(stages[m]) == PiecesText(stages[m]);
  }

  lemma {:induction false} PipeGoes(step: StageScan, t: string, stages: seq<seq<Piece>>, m: nat, st: Piper)
    returns (st': Piper)
    requires IsSplitter(step, t) && NoCase(t) && Pipeline(t, stages) && m + 1 < |stages| && Begun(st, stages, m)
    ensures Goes(step, |t|, PlaceOf(stages, m), st, PlaceOf(stages, m + 1), st') && Begun(st', stages, m + 1)
  {
    var s, end := PiecesText(stages[m]), EndOf(stages, m);
    assert StageAt(t, stages, m);
    StageGoes(step, t, stages, m, st);
    st' := st.(stages := st.stages + [Trim(s)], cur := "");
    NoCaseStep(t, end);
    GoesStep(step, |t|, end, st.(cur := s), end + 1, PipeStep(t, end, st.(cur := s)));
    GoesOn(step, |t|, PlaceOf(stages, m), st, end, st.(cur := s), end + 1, st');
    assert Texts(stages, m + 1) == Texts(stages, m) + [Trim(s)];
  }

  lemma {:induction false} StagesGo(step: StageScan, t: string, stages: seq<seq<Piece>>, m: nat) returns (st: Piper)
    requires IsSplitter(step, t) && NoCase(t) && Pipeline(t, stages) && m < |stages|
    ensures Goes(step, |t|, 0, NO_STAGES, PlaceOf(stages, m), st) && Begun(st, stages, m)
    decreases m
  {
    if m == 0 {
      st := NO_STAGES;
      StaysHere(step, |t|, 0, st);
      assert Texts(stages, 0) == [];
    } else {
      var before := StagesGo(step, t, stages, m - 1);
      st := PipeGoes(step, t, stages, m - 1, before);
      GoesOn(step, |t|, 0, NO_STAGES, PlaceOf(stages, m - 1), before, PlaceOf(stages, m), st);
    }
  }

  /** A statement is cut at the pipes between its stages, and nowhere else. */
  lemma {:induction false} StagesAreCut(t: string, stages: seq<seq<Piece>>)
    requires NoCase(t) && Pipeline(t, stages)
    ensures Stages(t) == Texts(stages, |stages|)
  {
    var step: StageScan := (i: nat, st: Piper) => if i < |t| then (i + 1, PipeStep(t, i, st)) else (i, st);
    var n := |stages| - 1;
    var st := StagesGo(step, t, stages, n);
    StageGoes(step, t, stages, n, st);
    assert StageAt(t, stages, n);
    var last := st.(cur := PiecesText(stages[n]));
    GoesOn(step, |t|, 0, NO_STAGES, PlaceOf(stages, n), st, |t|, last);
    var k: nat :| Steps(step, |t|, 0, NO_STAGES, k) == (|t|, last);
    SameEnd(step, t, 0, NO_STAGES, k);
    assert Texts(stages, n + 1) == Texts(stages, n) + [Trim(PiecesText(stages[n]))];
  }
}

// Shell text made of pieces: plain characters, quoted spans, escaped characters
// and pairs of parentheses.

module Pieces {
  import opened ShellText

  datatype Piece =
    | Flat(text: string)
    | Span(quote: char, text: string)
    | Escape(c: char)
    | Nested(pieces: seq<Piece>)

  function PieceText(p: Piece): string
    decreases p, 0
  {
    match p
    case Flat(text) => text
    case Span(quote, text) => [quote] + (text + [quote])
    case Escape(c) => ['\\', c]
    case Nested(pieces) => ['('] + (PiecesText(pieces) + [')'])
  }

  function PiecesText(ps: seq<Piece>): string
    decreases ps, 0
  {
    if ps == [] then "" else PieceText(ps[0]) + PiecesText(ps[1..])
  }

  /** The word `case`, which would make a parenthesis part of a pattern, is nowhere. */
  predicate NoCase(t: string) {
    forall k :: 0 <= k < |t| ==> !CaseAt(t, k)
  }

  predicate CaseAt(t: string, k: nat) {
    k + 4 <= |t| && t[k] == 'c' && t[k + 1] == 'a' && t[k + 2] == 's' && t[k + 3] == 'e'
  }

  lemma {:induction false} NoCaseStep(t: string, i: nat)
    requires NoCase(t) && i < |t|
    ensures CaseStep([], t, i) == ([], false)
  {
    assert !CaseAt(t, i);
  }

  /** The text stands at `i`. */
  predicate Stands(t: string, i: nat, s: string) {
    i + |s| <= |t| && t[i..i + |s|] == s
  }

  lemma {:induction false} StandsBoth(t: string, i: nat, a: string, b: string)
    requires Stands(t, i, a + b)
    ensures Stands(t, i, a) && Stands(t, i + |a|, b)
  {
    assert (a + b)[..|a|] == a && (a + b)[|a|..] == b;
    assert t[i..i + |a|] == t[i..i + |a + b|][..|a|];
    assert t[i + |a|..i + |a| + |b|] == t[i..i + |a + b|][|a|..];
  }

  lemma {:induction false} StandsAround(t: string, i: nat, a: char, s: string, b: char)
    requires Stands(t, i, [a] + (s + [b]))
    ensures t[i] == a && Stands(t, i + 1, s) && t[i + 1 + |s|] == b
  {
    StandsBoth(t, i, [a], s + [b]);
    StandsBoth(t, i + 1, s, [b]);
    assert t[i] == t[i..i + 1][0];
    assert t[i + 1 + |s|] == t[i + 1 + |s|..i + 1 + |s| + 1][0];
  }
}

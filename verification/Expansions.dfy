// The `expansion` object of internal/shell/splitting.go, whose fields are
// updated character by character, and the walk over a marked word that feeds it.

module Expansions {
  import opened ShellText
  import opened Scanners
  import opened WordSplitting
  import Tokenizer

  class Expansion {
    const split: bool
    const ifs: string
    const mask: bool
    var fields: seq<string>
    var cur: string
    var has: bool
    var quoted: bool
    var zeroAt: bool

    constructor (split: bool, ifs: string, mask: bool)
      ensures View() == Fresh(split, ifs, mask)
    {
      this.split, this.ifs, this.mask := split, ifs, mask;
      fields, cur, has, quoted, zeroAt := [], "", false, false, false;
    }

    function View(): State
      reads this
    {
      State(split, ifs, mask, fields, cur, has, quoted, zeroAt)
    }

    method AddLiteral(text: string)
      modifies this`cur, this`has
      ensures View() == Lit(old(View()), text)
    {
      var t := if mask && quoted then Mask(text) else text;
      if t != "" {
        cur := cur + t;
        has := true;
      }
    }

    method EndField()
      modifies this`fields, this`cur, this`has
      ensures View() == Flush(old(View()))
    {
      fields := fields + [cur];
      cur := "";
      has := false;
    }

    /** The result of an expansion, split on IFS unless it is quoted or splitting is off. */
    method AddValue(text: string)
      modifies this`fields, this`cur, this`has
      ensures View() == Exp(old(View()), text)
    {
      if !split || quoted || ifs == "" {
        AddLiteral(text);
        return;
      }
      var closed := false;
      for i := 0 to |text|
        invariant quoted == old(quoted) && zeroAt == old(zeroAt)
        invariant ExpFrom(View(), text, i, closed) == ExpFrom(old(View()), text, 0, false)
      {
        closed := AddSplit(text[i], closed);
      }
    }

    /** One character of an unquoted result. `closed`: white space has just ended a field. */
    method AddSplit(c: char, closed: bool) returns (closed': bool)
      modifies this`fields, this`cur, this`has
      ensures (View(), closed') == ExpChar(old(View()), c, closed)
    {
      closed' := closed;
      if c !in ifs {
        cur := cur + [c];
        has, closed' := true, false;
      } else if IfsSpace(c) {
        if has {
          EndField();
          closed' := true;
        }
      } else if has {
        EndField();
        closed' := false;
      } else if closed {
        closed' := false;
      } else {
        EndField();
      }
    }

    /** `$@` and `$*`. */
    method AddParams(args: seq<string>, at: bool, join: string)
      modifies this`fields, this`cur, this`has, this`zeroAt
      ensures View() == ParamsOf(old(View()), args, at, join)
    {
      if !split {
        AddLiteral(Join(args, if at then " " else join));
      } else if quoted && at {
        if args == [] {
          zeroAt := true;
          return;
        }
        for i := 0 to |args|
          invariant quoted && zeroAt == old(zeroAt)
          invariant View() == QuotedParams(old(View()), args, i)
        {
          if i > 0 {
            EndField();
          }
          AddLiteral(args[i]);
          has := true;
        }
      } else if quoted {
        AddLiteral(Join(args, join));
      } else {
        for i := 0 to |args|
          invariant View() == PlainParams(old(View()), args, i)
        {
          if i > 0 && has {
            EndField();
          }
          AddValue(args[i]);
        }
      }
    }

    /** The fields, with the marks of literal dollars turned back. */
    method Finish() returns (out: seq<string>)
      modifies this`fields, this`cur, this`has
      ensures out == WordSplitting.Result(old(View()))
    {
      if !split {
        return [Dollars(cur)];
      }
      if has {
        EndField();
      }
      out := [];
      for i := 0 to |fields|
        invariant fields == Collected(old(View())) && |out| == i
        invariant forall k :: 0 <= k < i ==> out[k] == Dollars(fields[k])
      {
        out := out + [Dollars(fields[i])];
      }
    }

    /** `expandInto`: literal text and expansion results are added separately. */
    method ExpandWord(word: string, dollar: Dollar)
      modifies this
      ensures View() == ExpandFrom(word, 0, dollar, old(View()))
    {
      var i := 0;
      while i < |word|
        invariant i <= |word|
        invariant ExpandFrom(word, i, dollar, View()) == ExpandFrom(word, 0, dollar, old(View()))
        decreases |word| - i
      {
        ExpandOnceMore(word, i, dollar, View());
        i := ExpandAt(word, i, dollar);
      }
    }

    method ExpandAt(word: string, i: nat, dollar: Dollar) returns (next: nat)
      requires i < |word|
      modifies this
      ensures (next, View()) == ExpandStep(word, i, dollar, old(View()))
    {
      var c := word[i];
      next := i + 1;
      if c == Q_OPEN {
        quoted, zeroAt := true, false;
      } else if c == Q_CLOSE {
        quoted := false;
        has := !zeroAt || has;
        zeroAt := false;
      } else if c == '$' {
        var piece := dollar(word, i);
        next := if i + 1 + piece.more <= |word| then i + 1 + piece.more else |word|;
        match piece
        case Literal(text, _) => AddLiteral(text);
        case Value(text, _) => AddValue(text);
        case Params(args, at, join, _) => AddParams(args, at, join);
      } else {
        AddLiteral([c]);
      }
    }
  }

  lemma {:induction false} ExpandOnceMore(word: string, i: nat, dollar: Dollar, e: State)
    requires i < |word|
    ensures var (j, f) := ExpandStep(word, i, dollar, e);
            ExpandFrom(word, i, dollar, e) == ExpandFrom(word, j, dollar, f)
  {
    assert ExpandFrom(word, i, dollar, e) == ExpandTurn(word, i, dollar, e);
  }

  /** `substituteFields`: the words that one marked word becomes. */
  method SubstituteFields(word: string, split: bool, ifs: string, dollar: Dollar) returns (fields: seq<string>)
    ensures fields == Fields(word, split, ifs, dollar)
  {
    var e := new Expansion(split, ifs, true);
    e.ExpandWord(word, dollar);
    fields := e.Finish();
  }

  /** `expandCommandWordsMasked`: the words of one simple command, expanded. */
  method ExpandCommandWords(text: string, ifs: string, dollar: Dollar) returns (out: seq<string>)
    ensures out == MaskedWords(text, ifs, dollar)
  {
    var words := Tokenizer.Tokenize(text, true);
    var leading, declaring := true, false;
    out := [];
    for i := 0 to |words|
      invariant Command(out, leading, declaring) == Added(words, i, ifs, dollar)
    {
      var w := words[i];
      var keep := AssignWord(w) && (leading || declaring);
      var fields := SubstituteFields(w, !keep, ifs, dollar);
      if !keep && fields != [] {
        if leading {
          declaring := fields[0] in DECLARERS;
        }
        leading := false;
      }
      out := out + fields;
    }
  }
}

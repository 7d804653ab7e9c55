// Splitting on IFS. The shell has two splitters: the `exp` loop of word
// expansion (internal/shell/splitting.go) and the one of `read`
// (`splitReadFields` of internal/shell/syntax.go). Both are proved to follow
// one declarative reading of section 2.6.5 of the POSIX.1-2017 Shell Command
// Language: the text is cut into fields, each with the separator behind it.

module FieldSplitting {
  import opened ShellText
  import opened WordSplitting

  // ----- the declarative reading -----

  /** A field and the separator that ends it; the last one may have none. */
  datatype Part = Part(field: string, sep: string)

  /** IFS white space: a space, a tab or a newline that is in IFS. */
  predicate White(c: char, ifs: string) {
    (c == ' ' || c == '\t' || c == '\n') && c in ifs
  }

  predicate Hard(c: char, ifs: string) {
    c in ifs && !White(c, ifs)
  }

  predicate AllWhite(s: string, ifs: string) {
    forall k :: 0 <= k < |s| ==> White(s[k], ifs)
  }

  predicate NoIfs(s: string, ifs: string) {
    forall k :: 0 <= k < |s| ==> s[k] !in ifs
  }

  /** White space with one other IFS character in it: the one at `k`. */
  predicate HardAt(sep: string, k: nat, ifs: string) {
    k < |sep| && Hard(sep[k], ifs) && AllWhite(sep[..k], ifs) && AllWhite(sep[k + 1..], ifs)
  }

  ghost predicate HasHard(sep: string, ifs: string) {
    exists k: nat :: HardAt(sep, k, ifs)
  }

  /** A separator is a run of IFS white space, with at most one other IFS character in it. */
  ghost predicate Separator(sep: string, ifs: string) {
    sep != "" && (AllWhite(sep, ifs) || HasHard(sep, ifs))
  }

  /**
   The parts after a separator that was `hard` or not (the start of the text
   counts as hard). Only the last part may lack a separator, and then its
   field is not empty. An empty field stands between two hard separators
   with no white space before its own.
   */
  ghost predicate Proper(parts: seq<Part>, hard: bool, ifs: string)
    decreases |parts|
  {
    parts != [] ==>
      && NoIfs(parts[0].field, ifs)
      && (Separator(parts[0].sep, ifs) || (|parts| == 1 && parts[0].sep == "" && parts[0].field != ""))
      && (parts[0].field == "" ==> hard && HardAt(parts[0].sep, 0, ifs))
      && Proper(parts[1..], HasHard(parts[0].sep, ifs), ifs)
  }

  function Text(parts: seq<Part>): string {
    if parts == [] then "" else parts[0].field + (parts[0].sep + Text(parts[1..]))
  }

  function FieldsOf(parts: seq<Part>): seq<string> {
    if parts == [] then [] else [parts[0].field] + FieldsOf(parts[1..])
  }

  /** The declarative reading of `text`: leading white space, then the parts. */
  ghost predicate ReadsAs(text: string, ifs: string, lead: string, parts: seq<Part>) {
    text == lead + Text(parts) && AllWhite(lead, ifs) && Proper(parts, true, ifs)
  }

  // ----- the loop of exp, over a piece of text -----

  function Over(e: State, s: string, closed: bool): (State, bool)
    decreases |s|
  {
    if s == "" then (e, closed)
    else
      var (f, c) := ExpChar(e, s[0], closed);
      Over(f, s[1..], c)
  }

  lemma {:induction false} ExpIsOver(e: State, text: string, i: nat, closed: bool)
    requires i <= |text|
    ensures ExpFrom(e, text, i, closed) == Over(e, text[i..], closed).0
    decreases |text| - i
  {
    if i < |text| {
      var (f, c) := ExpChar(e, text[i], closed);
      ExpIsOver(f, text, i + 1, c);
      assert text[i..][1..] == text[i + 1..];
    }
  }

  lemma {:induction false} OverTwice(e: State, a: string, b: string, closed: bool)
    ensures Over(e, a + b, closed) == (var (f, c) := Over(e, a, closed); Over(f, b, c))
    decreases |a|
  {
    if a == "" {
      assert a + b == b;
    } else {
      var (f, c) := ExpChar(e, a[0], closed);
      OverTwice(f, a[1..], b, c);
      assert (a + b)[1..] == a[1..] + b;
    }
  }

  /** Between fields: nothing is under way. */
  predicate Clean(e: State) {
    !e.has && e.cur == ""
  }

  lemma {:induction false} OverWhite(e: State, s: string, closed: bool)
    requires Clean(e) && AllWhite(s, e.ifs)
    ensures Over(e, s, closed) == (e, closed)
    decreases |s|
  {
    if s != "" {
      assert White(s[0], e.ifs);
      OverWhite(e, s[1..], closed);
    }
  }

  lemma {:induction false} OverField(e: State, s: string, closed: bool)
    requires NoIfs(s, e.ifs)
    ensures Over(e, s, closed) == if s == "" then (e, closed) else (e.(cur := e.cur + s, has := true), false)
    decreases |s|
  {
    if s != "" {
      var f := e.(cur := e.cur + [s[0]], has := true);
      OverField(f, s[1..], false);
      assert e.cur + [s[0]] + s[1..] == e.cur + s;
      if |s| == 1 {
        assert e.cur + [s[0]] == e.cur + s;
      }
    }
  }

  /** A separator after a field ends it, and says whether another delimiter may still belong to it. */
  lemma {:induction false} OverSeparator(e: State, sep: string, closed: bool)
    requires e.has && Separator(sep, e.ifs)
    ensures Over(e, sep, closed) == (Flush(e), !HasHard(sep, e.ifs))
  {
    var c, rest := sep[0], sep[1..];
    if AllWhite(sep, e.ifs) {
      WhiteIsNotHard(sep, e.ifs);
      assert White(c, e.ifs);
      OverWhite(Flush(e), rest, true);
    } else {
      var k: nat :| HardAt(sep, k, e.ifs);
      if k == 0 {
        OverWhite(Flush(e), rest, false);
        assert rest == sep[k + 1..];
      } else {
        var before, after := sep[1..k], sep[k + 1..];
        assert White(sep[..k][0], e.ifs) && sep[..k][0] == c;
        assert rest == before + ([sep[k]] + after);
        assert forall j :: 0 <= j < |before| ==> before[j] == sep[..k][j + 1];
        OverTwice(Flush(e), before, [sep[k]] + after, true);
        OverWhite(Flush(e), before, true);
        assert ([sep[k]] + after)[1..] == after;
        OverWhite(Flush(e), after, false);
      }
    }
  }

  lemma {:induction false} WhiteIsNotHard(sep: string, ifs: string)
    requires AllWhite(sep, ifs)
    ensures !HasHard(sep, ifs)
  {
    forall k: nat | k < |sep|
      ensures !HardAt(sep, k, ifs)
    {
      assert White(sep[k], ifs);
    }
  }

  /** A hard delimiter where nothing is under way stands for an empty field. */
  lemma {:induction false} OverEmptyField(e: State, sep: string)
    requires Clean(e) && HardAt(sep, 0, e.ifs)
    ensures Over(e, sep, false) == (Flush(e), false)
  {
    var rest := sep[1..];
    assert rest == sep[0 + 1..];
    OverWhite(Flush(e), rest, false);
  }

  lemma {:induction false} OverParts(e: State, parts: seq<Part>, hard: bool)
    requires Clean(e) && Proper(parts, hard, e.ifs)
    ensures Collected(Over(e, Text(parts), !hard).0) == e.fields + FieldsOf(parts)
    decreases |parts|
  {
    if parts != [] {
      var p, rest := parts[0], parts[1..];
      OverPart(e, p, Text(rest), |parts| == 1, hard);
      if p.sep != "" {
        OverParts(e.(fields := e.fields + [p.field]), rest, HasHard(p.sep, e.ifs));
        assert e.fields + [p.field] + FieldsOf(rest) == e.fields + FieldsOf(parts);
      } else {
        assert rest == [] && FieldsOf(rest) == [];
      }
    }
  }

  lemma {:induction false} OverPart(e: State, p: Part, rest: string, last: bool, hard: bool)
    requires Clean(e) && NoIfs(p.field, e.ifs) && (last ==> rest == "")
    requires Separator(p.sep, e.ifs) || (last && p.sep == "" && p.field != "")
    requires p.field == "" ==> hard && HardAt(p.sep, 0, e.ifs)
    ensures p.sep != "" ==>
            Over(e, p.field + (p.sep + rest), !hard) ==
            Over(e.(fields := e.fields + [p.field]), rest, !HasHard(p.sep, e.ifs))
    ensures p.sep == "" ==>
            Collected(Over(e, p.field + (p.sep + rest), !hard).0) == e.fields + [p.field]
  {
    OverTwice(e, p.field, p.sep + rest, !hard);
    OverField(e, p.field, !hard);
    assert e.cur + p.field == p.field;
    var (f, c) := Over(e, p.field, !hard);
    if p.sep != "" {
      OverTwice(f, p.sep, rest, c);
      if p.field == "" {
        OverEmptyField(e, p.sep);
      } else {
        OverSeparator(f, p.sep, c);
      }
    } else {
      assert p.sep + rest == "";
    }
  }

  // ----- the splitter of read -----

  function SkipWhite(s: string, i: nat, ifs: string): (j: nat)
    requires i <= |s|
    ensures i <= j <= |s|
    ensures forall k :: i <= k < j ==> White(s[k], ifs)
    ensures j < |s| ==> !White(s[j], ifs)
    decreases |s| - i
  {
    if i < |s| && White(s[i], ifs) then SkipWhite(s, i + 1, ifs) else i
  }

  function FieldEnd(s: string, i: nat, ifs: string): (j: nat)
    requires i <= |s|
    ensures i <= j <= |s|
    ensures forall k :: i <= k < j ==> s[k] !in ifs
    ensures j < |s| ==> s[j] in ifs
    decreases |s| - i
  {
    if i < |s| && s[i] !in ifs then FieldEnd(s, i + 1, ifs) else i
  }

  /** The end of the separator at `i`. */
  function SeparatorEnd(s: string, i: nat, ifs: string): (j: nat)
    requires i <= |s|
    ensures i <= j <= |s|
  {
    var k := SkipWhite(s, i, ifs);
    if k < |s| && Hard(s[k], ifs) then SkipWhite(s, k + 1, ifs) else k
  }

  /** The text from `i` to `end` without the white space at its end. */
  function DropWhite(s: string, i: nat, end: nat, ifs: string): string
    requires i <= end <= |s|
    decreases end
  {
    if end > i && White(s[end - 1], ifs) then DropWhite(s, i, end - 1, ifs) else s[i..end]
  }

  /** The `n` fields that `read` takes from `i` on, where no white space is. */
  function ReadFrom(s: string, i: nat, n: nat, ifs: string): (r: seq<string>)
    requires i <= |s|
    ensures |r| == n
    decreases n, 1
  {
    if n == 0 then [] else if n == 1 then [DropWhite(s, i, |s|, ifs)] else ReadNext(s, i, n, ifs)
  }

  function ReadNext(s: string, i: nat, n: nat, ifs: string): (r: seq<string>)
    requires i <= |s| && n > 1
    ensures |r| == n
    decreases n, 0
  {
    var j := FieldEnd(s, i, ifs);
    [s[i..j]] + ReadFrom(s, SeparatorEnd(s, j, ifs), n - 1, ifs)
  }

  function ReadFields(line: string, n: nat, ifs: string): (r: seq<string>)
    ensures |r| == n
  {
    ReadFrom(line, SkipWhite(line, 0, ifs), n, ifs)
  }

  /** `read` with `n` names: fields, the rest of the line in the last one, and empty strings after that. */
  function Shared(parts: seq<Part>, n: nat, ifs: string): (r: seq<string>)
    ensures |r| == n
    decreases n
  {
    if n == 0 then []
    else if n == 1 then [DropWhite(Text(parts), 0, |Text(parts)|, ifs)]
    else if parts == [] then [""] + Shared([], n - 1, ifs)
    else [parts[0].field] + Shared(parts[1..], n - 1, ifs)
  }

  /** What follows a separator does not extend it. */
  lemma {:induction false} AfterSeparator(parts: seq<Part>, hard: bool, ifs: string)
    requires Proper(parts, hard, ifs)
    ensures Text(parts) == "" || !White(Text(parts)[0], ifs)
    ensures Text(parts) == "" || hard || Text(parts)[0] !in ifs
  {
    if parts != [] {
      var p := parts[0];
      if p.field != "" {
        assert Text(parts)[0] == p.field[0];
      } else {
        assert Text(parts)[0] == p.sep[0];
      }
    }
  }

  lemma {:induction false} SeparatorStarts(sep: string, ifs: string)
    requires Separator(sep, ifs)
    ensures sep[0] in ifs
  {
    if AllWhite(sep, ifs) {
      assert White(sep[0], ifs);
    } else {
      var k: nat :| HardAt(sep, k, ifs);
      if k > 0 {
        assert White(sep[..k][0], ifs);
      }
    }
  }

  /** Nothing at `i` extends a separator that is hard or not. */
  predicate Stops(s: string, i: nat, hard: bool, ifs: string) {
    i <= |s| && (i < |s| ==> !White(s[i], ifs) && (hard || s[i] !in ifs))
  }

  lemma {:induction false} SkipWhiteIs(s: string, i: nat, j: nat, ifs: string)
    requires i <= j <= |s| && (forall k :: i <= k < j ==> White(s[k], ifs)) && (j < |s| ==> !White(s[j], ifs))
    ensures SkipWhite(s, i, ifs) == j
  {
  }

  lemma {:induction false} SeparatorEndIs(s: string, i: nat, sep: string, ifs: string)
    requires At(s, i, sep) && (sep == "" || Separator(sep, ifs)) && Stops(s, i + |sep|, HasHard(sep, ifs), ifs)
    ensures SeparatorEnd(s, i, ifs) == i + |sep|
  {
    AtSlice(s, i, sep);
    var j := i + |sep|;
    assert forall k :: i <= k < j ==> s[k] == sep[k - i];
    if AllWhite(sep, ifs) {
      WhiteIsNotHard(sep, ifs);
      SkipWhiteIs(s, i, j, ifs);
    } else {
      var k: nat :| HardAt(sep, k, ifs);
      forall m | i <= m < i + k
        ensures White(s[m], ifs)
      {
        assert White(sep[..k][m - i], ifs);
      }
      forall m | i + k < m < j
        ensures White(s[m], ifs)
      {
        assert White(sep[k + 1..][m - i - k - 1], ifs);
      }
      SkipWhiteIs(s, i, i + k, ifs);
      SkipWhiteIs(s, i + k + 1, j, ifs);
    }
  }

  lemma {:induction false} FieldEndIs(s: string, i: nat, j: nat, ifs: string)
    requires i <= j <= |s| && (forall k :: i <= k < j ==> s[k] !in ifs) && (j < |s| ==> s[j] in ifs)
    ensures FieldEnd(s, i, ifs) == j
  {
  }

  lemma {:induction false} ReadPart(s: string, i: nat, p: Part, ifs: string)
    requires At(s, i, p.field) && At(s, i + |p.field|, p.sep) && NoIfs(p.field, ifs)
    requires if p.sep == "" then i + |p.field| == |s| else Separator(p.sep, ifs)
    requires Stops(s, i + |p.field| + |p.sep|, HasHard(p.sep, ifs), ifs)
    ensures var j := FieldEnd(s, i, ifs);
            j == i + |p.field| && s[i..j] == p.field && SeparatorEnd(s, j, ifs) == j + |p.sep|
  {
    var j := i + |p.field|;
    AtSlice(s, i, p.field);
    AtSlice(s, j, p.sep);
    assert forall k :: i <= k < j ==> s[k] == p.field[k - i];
    if p.sep != "" {
      SeparatorStarts(p.sep, ifs);
      assert s[j] == p.sep[0];
    }
    FieldEndIs(s, i, j, ifs);
    SeparatorEndIs(s, j, p.sep, ifs);
  }

  lemma {:induction false} DropWhiteAt(s: string, i: nat, t: string, k: nat, ifs: string)
    requires k <= |t| && i + |t| <= |s| && s[i..i + |t|] == t
    ensures DropWhite(s, i, i + k, ifs) == DropWhite(t, 0, k, ifs)
    decreases k
  {
    assert s[i..i + k] == t[0..k];
    if k > 0 {
      assert s[i + k - 1] == t[k - 1];
      DropWhiteAt(s, i, t, k - 1, ifs);
    }
  }

  lemma {:induction false} NextField(line: string, i: nat, n: nat, ifs: string)
    requires i <= |line| && n > 1
    ensures var j := FieldEnd(line, i, ifs);
            ReadFrom(line, i, n, ifs) == [line[i..j]] + ReadFrom(line, SeparatorEnd(line, j, ifs), n - 1, ifs)
  {
    assert ReadFrom(line, i, n, ifs) == ReadNext(line, i, n, ifs);
  }

  lemma {:induction false} ReadLast(s: string, i: nat, text: string, ifs: string)
    requires At(s, i, text) && i + |text| == |s|
    ensures ReadFrom(s, i, 1, ifs) == [DropWhite(text, 0, |text|, ifs)]
  {
    AtSlice(s, i, text);
    DropWhiteAt(s, i, text, |text|, ifs);
  }

  lemma {:induction false} ReadFollows(s: string, i: nat, parts: seq<Part>, hard: bool, n: nat, ifs: string)
    requires Proper(parts, hard, ifs) && At(s, i, Text(parts)) && i + |Text(parts)| == |s|
    ensures ReadFrom(s, i, n, ifs) == Shared(parts, n, ifs)
    decreases n
  {
    if n == 1 {
      ReadLast(s, i, Text(parts), ifs);
    } else if n > 1 && parts == [] {
      ReadNothing(s, n, ifs);
    } else if n > 1 {
      var next := NextPart(s, i, parts, hard, ifs);
      ReadFollows(s, next, parts[1..], HasHard(parts[0].sep, ifs), n - 1, ifs);
      ReadOne(s, i, next, parts, n, ifs);
    }
  }

  lemma {:induction false} ReadOne(s: string, i: nat, next: nat, parts: seq<Part>, n: nat, ifs: string)
    requires i <= |s| && next <= |s| && parts != [] && n > 1
    requires s[i..FieldEnd(s, i, ifs)] == parts[0].field && SeparatorEnd(s, FieldEnd(s, i, ifs), ifs) == next
    requires ReadFrom(s, next, n - 1, ifs) == Shared(parts[1..], n - 1, ifs)
    ensures ReadFrom(s, i, n, ifs) == Shared(parts, n, ifs)
  {
    NextField(s, i, n, ifs);
    SharedStep(parts, n, ifs);
  }

  lemma {:induction false} ReadNothing(s: string, n: nat, ifs: string)
    ensures ReadFrom(s, |s|, n, ifs) == Shared([], n, ifs)
  {
    if n == 1 {
      assert Text([]) == "";
      ReadLast(s, |s|, "", ifs);
    } else if n > 1 {
      NextField(s, |s|, n, ifs);
      ReadNothing(s, n - 1, ifs);
      SharedStep([], n, ifs);
      assert FieldEnd(s, |s|, ifs) == |s| && SeparatorEnd(s, |s|, ifs) == |s| && s[|s|..|s|] == "";
    }
  }

  lemma {:induction false} SharedStep(parts: seq<Part>, n: nat, ifs: string)
    requires n > 1
    ensures Shared(parts, n, ifs) ==
      if parts == [] then [""] + Shared([], n - 1, ifs) else [parts[0].field] + Shared(parts[1..], n - 1, ifs)
  {
  }

  lemma {:induction false} NextPart(s: string, i: nat, parts: seq<Part>, hard: bool, ifs: string) returns (next: nat)
    requires parts != [] && Proper(parts, hard, ifs) && At(s, i, Text(parts)) && i + |Text(parts)| == |s|
    ensures var j := FieldEnd(s, i, ifs);
            s[i..j] == parts[0].field && SeparatorEnd(s, j, ifs) == next
    ensures At(s, next, Text(parts[1..])) && next + |Text(parts[1..])| == |s|
  {
    var p, rest := parts[0], parts[1..];
    next := i + |p.field| + |p.sep|;
    AtSplit(s, i, p.field, p.sep + Text(rest));
    AtSplit(s, i + |p.field|, p.sep, Text(rest));
    AfterSeparator(rest, HasHard(p.sep, ifs), ifs);
    ReadPart(s, i, p, ifs);
  }

  // ----- every text has such a reading -----

  lemma {:induction false} SeparatorEndSplits(s: string, i: nat, ifs: string) returns (sep: string)
    requires i < |s| && s[i] in ifs
    ensures var j := SeparatorEnd(s, i, ifs);
            && j > i && sep == s[i..j] && Separator(sep, ifs)
            && Stops(s, j, HasHard(sep, ifs), ifs)
            && (Hard(s[i], ifs) ==> HardAt(sep, 0, ifs))
  {
    var k, j := SkipWhite(s, i, ifs), SeparatorEnd(s, i, ifs);
    sep := s[i..j];
    if k < |s| && Hard(s[k], ifs) {
      assert sep[..k - i] == s[i..k] && sep[k - i + 1..] == s[k + 1..j];
      assert HardAt(sep, k - i, ifs);
    }
  }

  lemma {:induction false} PartsCons(p: Part, more: seq<Part>, hard: bool, ifs: string)
    requires NoIfs(p.field, ifs) && Separator(p.sep, ifs) && Proper(more, HasHard(p.sep, ifs), ifs)
    requires p.field == "" ==> hard && HardAt(p.sep, 0, ifs)
    ensures Proper([p] + more, hard, ifs)
    ensures Text([p] + more) == p.field + (p.sep + Text(more))
  {
    assert ([p] + more)[1..] == more;
  }

  lemma {:induction false} OnlyPart(field: string, hard: bool, ifs: string)
    requires NoIfs(field, ifs) && field != ""
    ensures Proper([Part(field, "")], hard, ifs) && Text([Part(field, "")]) == field
  {
    var parts := [Part(field, "")];
    assert parts[1..] == [] && Text([]) == "";
    assert field + ("" + "") == field;
  }

  /** The parts from `i` on, after a separator that was `hard` or not. */
  lemma {:induction false} PartsOf(s: string, i: nat, hard: bool, ifs: string) returns (parts: seq<Part>)
    requires Stops(s, i, hard, ifs)
    ensures s[i..] == Text(parts) && Proper(parts, hard, ifs)
    decreases |s| - i
  {
    var j := FieldEnd(s, i, ifs);
    if i == |s| {
      parts := [];
    } else if j == |s| {
      assert s[i..j] == s[i..];
      OnlyPart(s[i..], hard, ifs);
      parts := [Part(s[i..], "")];
    } else {
      var sep := SeparatorEndSplits(s, j, ifs);
      var next := SeparatorEnd(s, j, ifs);
      var more := PartsOf(s, next, HasHard(sep, ifs), ifs);
      PartsCons(Part(s[i..j], sep), more, hard, ifs);
      parts := [Part(s[i..j], sep)] + more;
      assert s[i..] == s[i..j] + (s[j..next] + s[next..]);
    }
  }

  lemma {:induction false} ReadingExists(text: string, ifs: string) returns (lead: string, parts: seq<Part>)
    ensures ReadsAs(text, ifs, lead, parts)
  {
    var n := SkipWhite(text, 0, ifs);
    lead := text[..n];
    parts := PartsOf(text, n, true, ifs);
    assert text == lead + text[n..];
  }

  // ----- the two splitters agree -----

  /** The fields of the expansion are those of the declarative reading, which is therefore the only one. */
  lemma {:induction false} ExpansionFollowsReading(text: string, ifs: string, mask: bool, lead: string,
      parts: seq<Part>)
    requires ReadsAs(text, ifs, lead, parts)
    ensures Collected(Exp(Fresh(true, ifs, mask), text)) == FieldsOf(parts)
  {
    var e := Fresh(true, ifs, mask);
    if ifs == "" {
      NoSeparators(lead, parts);
      assert "" + Text(parts) == Text(parts) && "" + text == text;
    } else {
      ExpIsOver(e, text, 0, false);
      assert text[0..] == text;
      OverTwice(e, lead, Text(parts), false);
      OverWhite(e, lead, false);
      OverParts(e, parts, true);
      assert [] + FieldsOf(parts) == FieldsOf(parts);
    }
  }

  lemma {:induction false} NoSeparators(lead: string, parts: seq<Part>)
    requires AllWhite(lead, "") && Proper(parts, true, "")
    ensures lead == "" && FieldsOf(parts) == if Text(parts) == "" then [] else [Text(parts)]
  {
    assert lead != "" ==> White(lead[0], "");
    if parts != [] {
      if parts[0].sep != "" {
        SeparatorStarts(parts[0].sep, "");
      }
      assert parts[0].sep == "" && parts[1..] == [];
      assert FieldsOf(parts[1..]) == [] && Text(parts[1..]) == "";
      assert parts[0].field + ("" + "") == parts[0].field;
    }
  }

  lemma {:induction false} ReadFollowsReading(text: string, n: nat, ifs: string, lead: string, parts: seq<Part>)
    requires ReadsAs(text, ifs, lead, parts)
    ensures ReadFields(text, n, ifs) == Shared(parts, n, ifs)
  {
    AfterSeparator(parts, true, ifs);
    var k := |lead|;
    assert forall m :: 0 <= m < k ==> text[m] == lead[m];
    assert k < |text| ==> text[k] == Text(parts)[0];
    SkipWhiteIs(text, 0, k, ifs);
    assert text[k..] == Text(parts);
    AtTail(text, k);
    ReadFollows(text, k, parts, true, n, ifs);
  }

  function Padded(fields: seq<string>, n: nat): seq<string>
    requires |fields| <= n
  {
    fields + seq(n - |fields|, _ => "")
  }

  lemma {:induction false} FieldCount(parts: seq<Part>)
    ensures |FieldsOf(parts)| == |parts|
    decreases |parts|
  {
    if parts != [] {
      FieldCount(parts[1..]);
    }
  }

  lemma {:induction false} SharedIsPadded(parts: seq<Part>, n: nat, ifs: string)
    requires |parts| < n
    ensures |FieldsOf(parts)| == |parts|
    ensures Shared(parts, n, ifs) == Padded(FieldsOf(parts), n)
    decreases n
  {
    FieldCount(parts);
    if n == 1 {
    } else if parts == [] {
      SharedIsPadded([], n - 1, ifs);
    } else {
      SharedIsPadded(parts[1..], n - 1, ifs);
    }
  }

  /** For every text and IFS, `read` with more names than fields gives the fields of the expansion, and then nothing. */
  lemma {:induction false} SplittersAgree(text: string, n: nat, ifs: string, mask: bool)
    ensures var fields := Collected(Exp(Fresh(true, ifs, mask), text));
            |fields| < n ==> ReadFields(text, n, ifs) == Padded(fields, n)
  {
    var lead, parts := ReadingExists(text, ifs);
    ExpansionFollowsReading(text, ifs, mask, lead, parts);
    ReadFollowsReading(text, n, ifs, lead, parts);
    FieldCount(parts);
    if |parts| < n {
      SharedIsPadded(parts, n, ifs);
    }
  }

  /** Fewer names than fields: all but the last name get the same fields as the expansion. */
  lemma {:induction false} FirstFieldsAgree(text: string, n: nat, ifs: string, mask: bool, k: nat)
    requires k + 1 < n
    ensures var fields := Collected(Exp(Fresh(true, ifs, mask), text));
            ReadFields(text, n, ifs)[k] == if k < |fields| then fields[k] else ""
  {
    var lead, parts := ReadingExists(text, ifs);
    ExpansionFollowsReading(text, ifs, mask, lead, parts);
    ReadFollowsReading(text, n, ifs, lead, parts);
    SharedAt(parts, n, ifs, k);
  }

  lemma {:induction false} SharedAt(parts: seq<Part>, n: nat, ifs: string, k: nat)
    requires k + 1 < n
    ensures Shared(parts, n, ifs)[k] == if k < |FieldsOf(parts)| then FieldsOf(parts)[k] else ""
    decreases n
  {
    if k > 0 {
      SharedAt(if parts == [] then [] else parts[1..], n - 1, ifs, k - 1);
    }
  }

  // ----- the loops of splitReadFields -----

  method SplitReadFields(line: string, n: nat, ifs: string) returns (fields: seq<string>)
    ensures fields == ReadFields(line, n, ifs)
  {
    if n == 0 {
      return [];
    }
    var a := new string[n](_ => "");
    var i := SkipRun(line, 0, ifs);
    ghost var done, left := [], ReadFrom(line, i, n, ifs);
    for f := 0 to n - 1
      invariant 0 <= i <= |line| && a[..f] == done
      invariant left == ReadFrom(line, i, n - f, ifs) && done + left == ReadFields(line, n, ifs)
    {
      var field, next := TakeField(line, i, ifs);
      NextField(line, i, n - f, ifs);
      Store(a, f, field);
      i := next;
      left := ReadFrom(line, next, n - f - 1, ifs);
      Shift(done, field, left);
      done := done + [field];
    }
    var rest := TakeRest(line, i, ifs);
    Store(a, n - 1, rest);
    fields := a[..];
  }

  method Store(a: array<string>, f: nat, field: string)
    requires f < a.Length
    modifies a
    ensures a[..f + 1] == old(a[..f]) + [field]
  {
    a[f] := field;
  }

  lemma {:induction false} Shift(done: seq<string>, field: string, rest: seq<string>)
    ensures done + ([field] + rest) == done + [field] + rest
  {
  }

  method TakeField(line: string, i: nat, ifs: string) returns (field: string, next: nat)
    requires i <= |line|
    ensures var j := FieldEnd(line, i, ifs); field == line[i..j] && next == SeparatorEnd(line, j, ifs)
  {
    var j := i;
    while j < |line| && line[j] !in ifs
      invariant i <= j <= |line|
      invariant FieldEnd(line, j, ifs) == FieldEnd(line, i, ifs)
    {
      j := j + 1;
    }
    field := line[i..j];
    next := SkipRun(line, j, ifs);
    if next < |line| && Hard(line[next], ifs) {
      next := SkipRun(line, next + 1, ifs);
    }
  }

  method SkipRun(line: string, from: nat, ifs: string) returns (i: nat)
    requires from <= |line|
    ensures i == SkipWhite(line, from, ifs)
  {
    i := from;
    while i < |line| && White(line[i], ifs)
      invariant from <= i <= |line| && SkipWhite(line, i, ifs) == SkipWhite(line, from, ifs)
    {
      i := i + 1;
    }
  }

  method TakeRest(line: string, from: nat, ifs: string) returns (rest: string)
    requires from <= |line|
    ensures rest == DropWhite(line, from, |line|, ifs)
  {
    var end := |line|;
    while end > from && White(line[end - 1], ifs)
      invariant from <= end <= |line|
      invariant DropWhite(line, from, end, ifs) == DropWhite(line, from, |line|, ifs)
    {
      end := end - 1;
    }
    rest := line[from..end];
  }
}

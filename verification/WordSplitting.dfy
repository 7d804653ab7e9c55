// Expansion and field splitting of one word (internal/shell/splitting.go), the
// walk over a marked word (`expandInto` of internal/shell/shell.go) and the
// removal of redirects (`extractRedirects` of internal/shell/tokenizer.go).
//
// What a `$` stands for -- a variable, arithmetic, a command substitution --
// is a parameter: `dollar` says how the expansion that starts at a position of
// a word continues.

module WordSplitting {
  import opened ShellText
  import opened Scanners

  /** The expansion at a `$`: its result, and how many characters after the `$` it takes. */
  datatype Piece =
    | Literal(text: string, more: nat)
    | Value(text: string, more: nat)
    | Params(args: seq<string>, at: bool, join: string, more: nat)

  type Dollar = (string, nat) -> Piece

  datatype State = State(
    split: bool, ifs: string, mask: bool,
    fields: seq<string>, cur: string, has: bool, quoted: bool, zeroAt: bool)

  function Fresh(split: bool, ifs: string, mask: bool): State {
    State(split, ifs, mask, [], "", false, false, false)
  }

  // ----- replacing single characters -----

  function Replace(s: string, f: char -> char): string {
    seq(|s|, i requires 0 <= i < |s| => f(s[i]))
  }

  function UnmaskChar(c: char): char {
    if c == LIT_LT then '<' else if c == LIT_GT then '>' else c
  }

  function DollarChar(c: char): char {
    if c == LIT_DOLLAR then '$' else c
  }

  function Mask(s: string): string {
    Replace(s, MaskChar)
  }

  function Unmask(s: string): string {
    Replace(s, UnmaskChar)
  }

  function Dollars(s: string): string {
    Replace(s, DollarChar)
  }

  // ----- the expansion -----

  function Lit(e: State, text: string): State {
    var t := if e.mask && e.quoted then Mask(text) else text;
    if t == "" then e else e.(cur := e.cur + t, has := true)
  }

  function Flush(e: State): State {
    e.(fields := e.fields + [e.cur], cur := "", has := false)
  }

  predicate IfsSpace(c: char) {
    c == ' ' || c == '\t' || c == '\n'
  }

  /** One character of an unquoted result, and whether white space has just ended a field. */
  function ExpChar(e: State, c: char, closed: bool): (State, bool) {
    if c !in e.ifs then (e.(cur := e.cur + [c], has := true), false)
    else if IfsSpace(c) then (if e.has then (Flush(e), true) else (e, closed))
    else if e.has then (Flush(e), false)
    else if closed then (e, false)
    else (Flush(e), false)
  }

  function ExpFrom(e: State, text: string, i: nat, closed: bool): State
    requires i <= |text|
    decreases |text| - i
  {
    if i == |text| then e
    else
      var (f, closed') := ExpChar(e, text[i], closed);
      ExpFrom(f, text, i + 1, closed')
  }

  function Exp(e: State, text: string): State {
    if !e.split || e.quoted || e.ifs == "" then Lit(e, text) else ExpFrom(e, text, 0, false)
  }

  function Join(parts: seq<string>, sep: string): string {
    if parts == [] then ""
    else if |parts| == 1 then parts[0]
    else Join(parts[..|parts| - 1], sep) + sep + parts[|parts| - 1]
  }

  /** The first `n` of the quoted parameters, one word each. */
  function QuotedParams(e: State, args: seq<string>, n: nat): State
    requires n <= |args|
  {
    if n == 0 then e
    else
      var f := QuotedParams(e, args, n - 1);
      Lit(if n > 1 then Flush(f) else f, args[n - 1]).(has := true)
  }

  /** The first `n` of the unquoted parameters, each split. */
  function PlainParams(e: State, args: seq<string>, n: nat): State
    requires n <= |args|
  {
    if n == 0 then e
    else
      var f := PlainParams(e, args, n - 1);
      Exp(if n > 1 && f.has then Flush(f) else f, args[n - 1])
  }

  function ParamsOf(e: State, args: seq<string>, at: bool, join: string): State {
    if !e.split then Lit(e, Join(args, if at then " " else join))
    else if e.quoted && at then
      (if args == [] then e.(zeroAt := true) else QuotedParams(e, args, |args|))
    else if e.quoted then Lit(e, Join(args, join))
    else PlainParams(e, args, |args|)
  }

  /** The fields, the one under way included. */
  function Collected(e: State): seq<string> {
    if e.has then Flush(e).fields else e.fields
  }

  function Result(e: State): seq<string> {
    if !e.split then [Dollars(e.cur)]
    else
      var fields := Collected(e);
      seq(|fields|, i requires 0 <= i < |fields| => Dollars(fields[i]))
  }

  function ExpandStep(word: string, i: nat, dollar: Dollar, e: State): (r: (nat, State))
    requires i < |word|
    ensures i < r.0 <= |word|
  {
    var c := word[i];
    if c == Q_OPEN then (i + 1, e.(quoted := true, zeroAt := false))
    else if c == Q_CLOSE then (i + 1, e.(quoted := false, has := !e.zeroAt || e.has, zeroAt := false))
    else if c == '$' then
      var p := dollar(word, i);
      var next := if i + 1 + p.more <= |word| then i + 1 + p.more else |word|;
      (next,
       match p
       case Literal(text, _) => Lit(e, text)
       case Value(text, _) => Exp(e, text)
       case Params(args, at, join, _) => ParamsOf(e, args, at, join))
    else (i + 1, Lit(e, [c]))
  }

  function ExpandFrom(word: string, i: nat, dollar: Dollar, e: State): State
    requires i <= |word|
    decreases |word| - i, 1
  {
    if i == |word| then e else ExpandTurn(word, i, dollar, e)
  }

  function ExpandTurn(word: string, i: nat, dollar: Dollar, e: State): State
    requires i < |word|
    decreases |word| - i, 0
  {
    var (j, f) := ExpandStep(word, i, dollar, e);
    ExpandFrom(word, j, dollar, f)
  }

  /** The words that one marked word becomes. */
  function Fields(word: string, split: bool, ifs: string, dollar: Dollar): seq<string> {
    Result(ExpandFrom(word, 0, dollar, Fresh(split, ifs, true)))
  }

  // ----- the words of a command -----

  /** `NAME=` or `NAME+=` in front. */
  predicate AssignWord(w: string) {
    && w != "" && IdentStart(w[0])
    && var j := WordEnd(w, 0);
       j < |w| && (w[j] == '=' || (w[j] == '+' && NextIs(w, j, '=')))
  }

  const DECLARERS := ["export", "local", "readonly", "declare", "typeset"]

  datatype Command = Command(out: seq<string>, leading: bool, declaring: bool)

  function AddWord(st: Command, w: string, ifs: string, dollar: Dollar): Command {
    if AssignWord(w) && (st.leading || st.declaring) then st.(out := st.out + Fields(w, false, ifs, dollar))
    else
      var fields := Fields(w, true, ifs, dollar);
      Command(
        st.out + fields,
        st.leading && fields == [],
        if st.leading && fields != [] then fields[0] in DECLARERS else st.declaring)
  }

  /** The first `n` words of a command, expanded. */
  function Added(words: seq<string>, n: nat, ifs: string, dollar: Dollar): Command
    requires n <= |words|
  {
    if n == 0 then Command([], true, false) else AddWord(Added(words, n - 1, ifs, dollar), words[n - 1], ifs, dollar)
  }

  function MaskedWords(text: string, ifs: string, dollar: Dollar): seq<string> {
    var words := Tokens(text, true);
    Added(words, |words|, ifs, dollar).out
  }

  // ----- redirects -----

  datatype Redirects = Redirects(
    stdout: string, append: bool, stdin: string,
    stderr: string, appendErr: bool, merge: bool, combined: string)

  const NO_REDIRECTS := Redirects("", false, "", "", false, false, "")

  /** The operator a word starts with: "" when it is an ordinary word. */
  function Operator(w: string): string {
    if w == "2>&1" then w
    else if w in ["2>", "2>>", "&>", ">", ">>", "<"] then w
    else if "2>>" < w then "2>>"
    else if "2>" < w then "2>"
    else if "&>" < w then "&>"
    else if ">>" < w then ">>"
    else if ">" < w then ">"
    else if "<" < w then "<"
    else ""
  }

  function Redirected(r: Redirects, op: string, target: string): Redirects {
    if op == ">" then r.(stdout := target, append := false)
    else if op == ">>" then r.(stdout := target, append := true)
    else if op == "<" then r.(stdin := target)
    else if op == "2>" then r.(stderr := target, appendErr := false)
    else if op == "2>>" then r.(stderr := target, appendErr := true)
    else if op == "&>" then r.(combined := target)
    else r
  }

  function RedirectsFrom(words: seq<string>, i: nat, out: seq<string>, r: Redirects): (seq<string>, Redirects)
    requires i <= |words|
    decreases |words| - i
  {
    if i == |words| then (out, r)
    else
      var w := words[i];
      var op := Operator(w);
      if op == "" then RedirectsFrom(words, i + 1, out + [w], r)
      else if op == "2>&1" then RedirectsFrom(words, i + 1, out, r.(merge := true))
      else if w == op && i + 1 < |words| then RedirectsFrom(words, i + 2, out, Redirected(r, op, words[i + 1]))
      else RedirectsFrom(words, i + 1, out, Redirected(r, op, if w == op then "" else w[|op|..]))
  }

  // ----- leading assignments -----

  /** What `isAssignmentOnly` says of one word. */
  predicate Assignment(w: string) {
    w != "" && IdentStart(w[0]) && WordEnd(w, 0) < |w| && w[WordEnd(w, 0)] == '='
  }

  function StripAssignments(words: seq<string>): seq<string> {
    if |words| > 1 && Assignment(words[0]) then StripAssignments(words[1..]) else words
  }
}

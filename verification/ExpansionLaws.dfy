// Laws of expansion, in terms of the words that come out: the parameters of
// `"$@"`, `"$*"` and `$@`, the assignments that are kept whole in front of a
// command, and the redirects that are taken out of its words.

module ExpansionLaws {
  import opened ShellText
  import opened Scanners
  import opened WordSplitting

  // ----- masks -----

  /** None of the marks that the tokenizer leaves. */
  predicate Unmarked(s: string) {
    forall k :: 0 <= k < |s| ==> s[k] != LIT_DOLLAR && s[k] != LIT_LT && s[k] != LIT_GT
  }

  /** A word, once its masked `<` and `>` and its literal dollars are turned back. */
  predicate Shows(out: string, text: string) {
    Unmask(out) == text
  }

  lemma {:induction false} MaskShows(s: string)
    requires Unmarked(s)
    ensures Shows(Dollars(Mask(s)), s) && Shows(Dollars(s), s)
  {
    forall k | 0 <= k < |s|
      ensures UnmaskChar(DollarChar(MaskChar(s[k]))) == s[k] && UnmaskChar(DollarChar(s[k])) == s[k]
    {
      assert s[k] != LIT_DOLLAR && s[k] != LIT_LT && s[k] != LIT_GT;
    }
    assert Unmask(Dollars(Mask(s))) == s;
    assert Unmask(Dollars(s)) == s;
  }

  // ----- one expansion and nothing else -----

  /** The word is one quoted expansion. */
  predicate QuotedExpansion(word: string, dollar: Dollar) {
    |word| >= 3 && word[0] == Q_OPEN && word[1] == '$' && word[|word| - 1] == Q_CLOSE
    && dollar(word, 1).more == |word| - 3
  }

  lemma {:induction false} QuotedExpansionIs(word: string, dollar: Dollar, e: State)
    requires QuotedExpansion(word, dollar)
    ensures var inner := e.(quoted := true, zeroAt := false);
            var f := match dollar(word, 1)
                     case Literal(text, _) => Lit(inner, text)
                     case Value(text, _) => Exp(inner, text)
                     case Params(args, at, join, _) => ParamsOf(inner, args, at, join);
            ExpandFrom(word, 0, dollar, e) == f.(quoted := false, has := !f.zeroAt || f.has, zeroAt := false)
  {
    var inner := e.(quoted := true, zeroAt := false);
    Turn(word, 0, dollar, e);
    Turn(word, 1, dollar, inner);
    var f := ExpandStep(word, 1, dollar, inner).1;
    Turn(word, |word| - 1, dollar, f);
  }

  lemma {:induction false} Turn(word: string, i: nat, dollar: Dollar, e: State)
    requires i < |word|
    ensures var (j, f) := ExpandStep(word, i, dollar, e);
            ExpandFrom(word, i, dollar, e) == ExpandFrom(word, j, dollar, f)
  {
    assert ExpandFrom(word, i, dollar, e) == ExpandTurn(word, i, dollar, e);
  }

  // ----- the parameters -----

  /** `"$@"`: each parameter is a word of its own, as it is; without parameters there is no word. */
  lemma {:induction false} QuotedAtGivesParameters(word: string, ifs: string, dollar: Dollar, args: seq<string>,
      join: string, more: nat)
    requires QuotedExpansion(word, dollar) && dollar(word, 1) == Params(args, true, join, more)
    requires forall k :: 0 <= k < |args| ==> Unmarked(args[k])
    ensures var out := Fields(word, true, ifs, dollar);
            |out| == |args| && forall k :: 0 <= k < |args| ==> Shows(out[k], args[k])
  {
    var e := Fresh(true, ifs, true);
    QuotedExpansionIs(word, dollar, e);
    var inner := e.(quoted := true);
    if args != [] {
      OneWordEach(inner, args, |args|);
    }
    forall k | 0 <= k < |args| ensures Shows(Dollars(Mask(args[k])), args[k]) {
      MaskShows(args[k]);
    }
  }

  lemma {:induction false} OneWordEach(e: State, args: seq<string>, n: nat)
    requires 1 <= n <= |args| && e == Fresh(true, e.ifs, true).(quoted := true)
    ensures var f := QuotedParams(e, args, n);
            && f == e.(fields := f.fields, cur := Mask(args[n - 1]), has := true)
            && |f.fields| == n - 1 && forall k :: 0 <= k < n - 1 ==> f.fields[k] == Mask(args[k])
    decreases n
  {
    assert "" + Mask(args[n - 1]) == Mask(args[n - 1]);
    if n > 1 {
      OneWordEach(e, args, n - 1);
    }
  }

  /** The words with `sep` between them, from the first on. */
  function Between(words: seq<string>, sep: string): string {
    if words == [] then "" else if |words| == 1 then words[0] else words[0] + sep + Between(words[1..], sep)
  }

  lemma {:induction false} JoinIs(words: seq<string>, sep: string)
    ensures Join(words, sep) == Between(words, sep)
    decreases |words|
  {
    if |words| > 1 {
      BetweenLast(words, sep);
      JoinIs(words[..|words| - 1], sep);
    }
  }

  lemma {:induction false} BetweenLast(words: seq<string>, sep: string)
    requires |words| > 1
    ensures Between(words, sep) == Between(words[..|words| - 1], sep) + sep + words[|words| - 1]
    decreases |words|
  {
    var last, front := words[|words| - 1], words[..|words| - 1];
    if |words| > 2 {
      BetweenLast(words[1..], sep);
      assert words[1..][..|words| - 2] == front[1..];
      var middle := Between(front[1..], sep);
      assert words[0] + sep + (middle + sep + last) == words[0] + sep + middle + sep + last;
    } else {
      assert words[1..] == [last] && front == [words[0]];
    }
  }

  /** `"$*"`: one word, the parameters joined by the first character of IFS. */
  lemma {:induction false} QuotedStarJoins(word: string, ifs: string, dollar: Dollar, args: seq<string>, join: string,
      more: nat)
    requires QuotedExpansion(word, dollar) && dollar(word, 1) == Params(args, false, join, more)
    requires Unmarked(Between(args, join))
    ensures var out := Fields(word, true, ifs, dollar); |out| == 1 && Shows(out[0], Between(args, join))
  {
    QuotedExpansionIs(word, dollar, Fresh(true, ifs, true));
    JoinIs(args, join);
    var s := Between(args, join);
    MaskShows(s);
    assert "" + Mask(s) == Mask(s);
  }

  /** `"$x"`: one word, whatever the value. */
  lemma {:induction false} QuotedValueStays(word: string, ifs: string, dollar: Dollar, text: string, more: nat)
    requires QuotedExpansion(word, dollar) && dollar(word, 1) == Value(text, more) && Unmarked(text)
    ensures var out := Fields(word, true, ifs, dollar); |out| == 1 && Shows(out[0], text)
  {
    QuotedExpansionIs(word, dollar, Fresh(true, ifs, true));
    MaskShows(text);
    assert "" + Mask(text) == Mask(text);
  }

  /** The word is one expansion without quotes. */
  predicate PlainExpansion(word: string, dollar: Dollar) {
    word != "" && word[0] == '$' && dollar(word, 0).more == |word| - 1
  }

  /** On the right side of an assignment nothing is split: `$@` is joined by blanks, `$*` by the first of IFS. */
  lemma {:induction false} AssignedParametersJoin(word: string, ifs: string, dollar: Dollar, args: seq<string>,
      at: bool, join: string, more: nat)
    requires PlainExpansion(word, dollar) && dollar(word, 0) == Params(args, at, join, more)
    requires Unmarked(Between(args, if at then " " else join))
    ensures var out := Fields(word, false, ifs, dollar);
            |out| == 1 && Shows(out[0], Between(args, if at then " " else join))
  {
    Turn(word, 0, dollar, Fresh(false, ifs, true));
    var sep := if at then " " else join;
    JoinIs(args, sep);
    MaskShows(Between(args, sep));
    assert "" + Between(args, sep) == Between(args, sep);
  }

  /** What one value is split into. */
  function Split(text: string, ifs: string): seq<string> {
    Collected(Exp(Fresh(true, ifs, true), text))
  }

  function SplitAll(args: seq<string>, ifs: string): seq<string> {
    if args == [] then [] else SplitAll(args[..|args| - 1], ifs) + Split(args[|args| - 1], ifs)
  }

  /** `$@` and `$*`: each parameter is split by itself, and no two of them share a word. */
  lemma {:induction false} PlainParametersSplit(word: string, ifs: string, dollar: Dollar, args: seq<string>, at: bool,
      join: string, more: nat)
    requires PlainExpansion(word, dollar) && dollar(word, 0) == Params(args, at, join, more)
    ensures var out, all := Fields(word, true, ifs, dollar), SplitAll(args, ifs);
            |out| == |all| && forall k :: 0 <= k < |out| ==> out[k] == Dollars(all[k])
  {
    var e := Fresh(true, ifs, true);
    Turn(word, 0, dollar, e);
    PlainOneByOne(e, args, |args|);
    assert args[..|args|] == args;
  }

  predicate Even(e: State) {
    e.split && !e.quoted && !e.zeroAt && (!e.has ==> e.cur == "")
  }

  lemma {:induction false} PlainOneByOne(e: State, args: seq<string>, n: nat)
    requires n <= |args| && e == Fresh(true, e.ifs, true)
    ensures var f := PlainParams(e, args, n);
            Collected(f) == SplitAll(args[..n], e.ifs) && Even(f) && f.ifs == e.ifs && f.mask
  {
    if n > 0 {
      PlainOneByOne(e, args, n - 1);
      var f := PlainParams(e, args, n - 1);
      var g := if n > 1 && f.has then Flush(f) else f;
      assert args[..n][..n - 1] == args[..n - 1];
      assert g.fields == Collected(f) && g == e.(fields := g.fields);
      ExpAfter(e, g.fields, args[n - 1]);
    }
  }

  /** Fields that are done stay as they are, in front. */
  lemma {:induction false} ExpAfter(e: State, done: seq<string>, text: string)
    requires e == Fresh(true, e.ifs, true)
    ensures var f, g := Exp(e, text), Exp(e.(fields := done), text);
            Collected(g) == done + Collected(f) && Even(g) && g.ifs == e.ifs && g.mask
  {
    var e' := e.(fields := done);
    assert done + e.fields == done;
    if e.ifs != "" {
      ExpFromAfter(e, e', done, text, 0, false);
    }
  }

  predicate Behind(e: State, f: State, done: seq<string>) {
    f == e.(fields := done + e.fields)
  }

  lemma {:induction false} ExpFromAfter(e: State, f: State, done: seq<string>, text: string, i: nat, closed: bool)
    requires Behind(e, f, done) && Even(e) && e.mask && i <= |text|
    ensures var e', f' := ExpFrom(e, text, i, closed), ExpFrom(f, text, i, closed);
            Behind(e', f', done) && Even(e') && e'.ifs == e.ifs && e'.mask && Collected(f') == done + Collected(e')
    decreases |text| - i
  {
    if i < |text| {
      var (e1, closed1) := ExpChar(e, text[i], closed);
      var (f1, closed2) := ExpChar(f, text[i], closed);
      assert done + (e.fields + [e.cur]) == done + e.fields + [e.cur];
      ExpFromAfter(e1, f1, done, text, i + 1, closed1);
    } else {
      assert done + (e.fields + [e.cur]) == done + e.fields + [e.cur];
    }
  }

  // ----- assignments in front of a command -----

  predicate Name(s: string) {
    s != "" && IdentStart(s[0]) && forall k :: 0 <= k < |s| ==> IdentPart(s[k])
  }

  lemma {:induction false} WordEndIs(w: string, i: nat, n: nat)
    requires i <= n <= |w| && (forall k :: i <= k < n ==> IdentPart(w[k])) && (n < |w| ==> !IdentPart(w[n]))
    ensures WordEnd(w, i) == n
    decreases n - i
  {
    if i < n {
      WordEndIs(w, i + 1, n);
    }
  }

  lemma {:induction false} WordEndParts(w: string, i: nat)
    requires i <= |w|
    ensures var n := WordEnd(w, i); (forall k :: i <= k < n ==> IdentPart(w[k])) && (n < |w| ==> !IdentPart(w[n]))
    decreases |w| - i
  {
    if i < |w| && IdentPart(w[i]) {
      WordEndParts(w, i + 1);
    }
  }

  /** A name with `=` or `+=` behind it. */
  predicate Assigns(w: string, n: nat, plus: bool) {
    && n < |w| && Name(w[..n])
    && if plus then n + 1 < |w| && w[n] == '+' && w[n + 1] == '=' else w[n] == '='
  }

  lemma {:induction false} AssignWordIs(w: string)
    ensures AssignWord(w) <==> exists n: nat, plus :: Assigns(w, n, plus)
  {
    if AssignWord(w) {
      var n := WordEnd(w, 0);
      WordEndParts(w, 0);
      assert forall k :: 0 <= k < n ==> w[..n][k] == w[k];
      assert Assigns(w, n, w[n] == '+');
    }
    if n: nat, plus :| Assigns(w, n, plus) {
      assert forall k :: 0 <= k < n ==> w[..n][k] == w[k];
      WordEndIs(w, 0, n);
    }
  }

  lemma {:induction false} AssignmentIs(w: string)
    ensures Assignment(w) <==> exists n: nat :: Assigns(w, n, false)
  {
    if Assignment(w) {
      var n := WordEnd(w, 0);
      WordEndParts(w, 0);
      assert forall k :: 0 <= k < n ==> w[..n][k] == w[k];
      assert Assigns(w, n, false);
    }
    if n: nat :| Assigns(w, n, false) {
      assert forall k :: 0 <= k < n ==> w[..n][k] == w[k];
      WordEndIs(w, 0, n);
    }
  }

  /** The assignments in front of a command are dropped, but one word always stays. */
  lemma {:induction false} AssignmentsAreStripped(words: seq<string>, k: nat)
    requires k < |words| && forall j :: 0 <= j < k ==> Assignment(words[j])
    requires k + 1 == |words| || !Assignment(words[k])
    ensures StripAssignments(words) == words[k..]
    decreases k
  {
    if k > 0 {
      AssignmentsAreStripped(words[1..], k - 1);
      assert words[1..][k - 1..] == words[k..];
    } else {
      assert words[0..] == words;
    }
  }

  /** No word before word k has given the command its name. */
  predicate InFront(words: seq<string>, k: nat, ifs: string, dollar: Dollar)
    requires k <= |words|
  {
    forall j :: 0 <= j < k ==> AssignWord(words[j]) || Fields(words[j], true, ifs, dollar) == []
  }

  /** Word c gives the command its name, and the name is one whose arguments may be assignments. */
  predicate Declares(words: seq<string>, c: nat, ifs: string, dollar: Dollar)
    requires c < |words|
  {
    var fields := Fields(words[c], true, ifs, dollar);
    && InFront(words, c, ifs, dollar) && !AssignWord(words[c]) && fields != []
    && fields[0] in ["export", "local", "readonly", "declare", "typeset"]
  }

  predicate Declaring(words: seq<string>, n: nat, ifs: string, dollar: Dollar)
    requires n <= |words|
  {
    exists c :: 0 <= c < n && Declares(words, c, ifs, dollar)
  }

  /** A word that is an assignment where one may stand: its value is not split. */
  predicate KeptWhole(words: seq<string>, k: nat, ifs: string, dollar: Dollar)
    requires k < |words|
  {
    && AssignWord(words[k])
    && (InFront(words, k, ifs, dollar) || Declaring(words, k, ifs, dollar))
  }

  function WordsOf(words: seq<string>, n: nat, ifs: string, dollar: Dollar): seq<string>
    requires n <= |words|
  {
    if n == 0 then []
    else
      var fields := Fields(words[n - 1], !KeptWhole(words, n - 1, ifs, dollar), ifs, dollar);
      WordsOf(words, n - 1, ifs, dollar) + fields
  }

  /** Each word of a command is split, except the assignments in front of it and those of a declaration. */
  lemma {:induction false} CommandKeepsAssignments(words: seq<string>, n: nat, ifs: string, dollar: Dollar)
    requires n <= |words|
    ensures var st := Added(words, n, ifs, dollar);
            && st.out == WordsOf(words, n, ifs, dollar)
            && st.leading == InFront(words, n, ifs, dollar)
            && st.declaring == Declaring(words, n, ifs, dollar)
  {
    if n > 0 {
      CommandKeepsAssignments(words, n - 1, ifs, dollar);
      NextInFront(words, n, ifs, dollar);
      NextDeclares(words, n, ifs, dollar);
      var st := Added(words, n - 1, ifs, dollar);
      var w := words[n - 1];
      var kept := KeptWhole(words, n - 1, ifs, dollar);
      assert kept == (AssignWord(w) && (st.leading || st.declaring));
      WordAdded(st, w, ifs, dollar, Fields(w, !kept, ifs, dollar));
    }
  }

  lemma {:induction false} WordAdded(st: Command, w: string, ifs: string, dollar: Dollar, fields: seq<string>)
    requires fields == Fields(w, !(AssignWord(w) && (st.leading || st.declaring)), ifs, dollar)
    ensures var kept := AssignWord(w) && (st.leading || st.declaring);
            AddWord(st, w, ifs, dollar) == Command(st.out + fields, st.leading && (kept || fields == []),
              if !kept && st.leading && fields != []
              then fields[0] in ["export", "local", "readonly", "declare", "typeset"] else st.declaring)
  {
  }

  lemma {:induction false} NextInFront(words: seq<string>, n: nat, ifs: string, dollar: Dollar)
    requires 0 < n <= |words|
    ensures InFront(words, n, ifs, dollar) ==
            (InFront(words, n - 1, ifs, dollar) &&
             (AssignWord(words[n - 1]) || Fields(words[n - 1], true, ifs, dollar) == []))
  {
  }

  /** Only the first word that gives the command its name can declare. */
  lemma {:induction false} NextDeclares(words: seq<string>, n: nat, ifs: string, dollar: Dollar)
    requires 0 < n <= |words|
    ensures Declaring(words, n, ifs, dollar) ==
            (Declares(words, n - 1, ifs, dollar) || Declaring(words, n - 1, ifs, dollar))
    ensures InFront(words, n - 1, ifs, dollar) ==> !Declaring(words, n - 1, ifs, dollar)
  {
  }

  // ----- redirects -----

  /** A word that no redirect starts with. */
  predicate Ordinary(w: string) {
    w == "" || (w[0] != '<' && w[0] != '>' &&
                !(|w| > 1 && (w[0] == '2' || w[0] == '&') && w[1] == '>'))
  }

  /** The redirect that an operator makes. */
  predicate Takes(op: string, target: string, r: Redirects, s: Redirects) {
    if op == ">" then s == r.(stdout := target, append := false)
    else if op == ">>" then s == r.(stdout := target, append := true)
    else if op == "<" then s == r.(stdin := target)
    else if op == "2>" then s == r.(stderr := target, appendErr := false)
    else if op == "2>>" then s == r.(stderr := target, appendErr := true)
    else s == r.(combined := target)
  }

  predicate IsOperator(op: string) {
    op == ">" || op == ">>" || op == "<" || op == "2>" || op == "2>>" || op == "&>"
  }

  /** A word that is no redirect stays, and the others go on being looked at. */
  lemma {:induction false} OrdinaryWordStays(words: seq<string>, i: nat, out: seq<string>, r: Redirects)
    requires i < |words| && Ordinary(words[i])
    ensures RedirectsFrom(words, i, out, r) == RedirectsFrom(words, i + 1, out + [words[i]], r)
  {
  }

  /** An operator takes the next word as its target; at the end of the command the target is empty. */
  lemma {:induction false} OperatorTakesNext(words: seq<string>, i: nat, out: seq<string>, r: Redirects, s: Redirects)
    requires i < |words| && IsOperator(words[i])
    requires Takes(words[i], if i + 1 < |words| then words[i + 1] else "", r, s)
    ensures RedirectsFrom(words, i, out, r) ==
            RedirectsFrom(words, if i + 1 < |words| then i + 2 else i + 1, out, s)
  {
  }

  /** An operator with its target behind it: the longest operator is meant. */
  lemma {:induction false} OperatorTakesRest(words: seq<string>, i: nat, out: seq<string>, r: Redirects, s: Redirects,
      op: string, target: string)
    requires i < |words| && IsOperator(op) && words[i] == op + target && target != ""
    requires (op == ">" || op == "2>") ==> target[0] != '>'
    requires words[i] != "2>&1" && Takes(op, target, r, s)
    ensures RedirectsFrom(words, i, out, r) == RedirectsFrom(words, i + 1, out, s)
  {
    OperatorIs(op, target);
    assert words[i][|op|..] == target;
  }

  lemma {:induction false} OperatorIs(op: string, target: string)
    requires IsOperator(op) && target != "" && op + target != "2>&1" && ((op == ">" || op == "2>") ==> target[0] != '>')
    ensures Operator(op + target) == op && op + target != op
  {
    var w := op + target;
    assert |w| > |op| && w[0] == op[0] && w[|op|] == target[0];
    assert |op| > 1 ==> w[1] == op[1];
    assert |op| > 2 ==> w[2] == op[2];
    assert op <= w && w != op;
  }

  lemma {:induction false} MergeIsTaken(words: seq<string>, i: nat, out: seq<string>, r: Redirects)
    requires i < |words| && words[i] == "2>&1"
    ensures RedirectsFrom(words, i, out, r) == RedirectsFrom(words, i + 1, out, r.(merge := true))
  {
  }
}

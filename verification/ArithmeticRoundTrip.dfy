// The text of an expression tree, with no more parentheses than it needs and
// any blanks between its tokens, evaluates to the tree's value: the precedence
// and the associativity of internal/shell/arith.go are those of the printer,
// and an evaluation fails exactly when a division in it is by zero or a
// variable in it is no expression.

module ArithmeticRoundTrip {
  import opened Wrappers
  import opened ShellText
  import opened Arithmetic
  import opened Decimals

  datatype Sign = Neg | Pos | Not

  datatype Expr =
    | Num(n: nat)
    | Literal(text: string)
    | Param(text: string)
    | Var(name: string, dollar: bool)
    | Signed(sign: Sign, e: Expr)
    | Bin(op: Op, left: Expr, right: Expr)

  // ----- meaning -----

  function Apply(sign: Sign, x: int): int {
    match sign
    case Neg => Wrap(-x)
    case Pos => x
    case Not => Bool(x == 0)
  }

  /** `$1`, `$#` and `$?` hold numbers, not expressions. */
  function Special(ctx: Context, text: string): Option<int> {
    var v := Trim(ctx.param(text));
    if v == "" then Some(0) else ctx.parseInt(v)
  }

  function Eval(ctx: Context, e: Expr, depth: nat): Option<int>
    requires depth <= MAX_DEPTH
  {
    match e
    case Num(n) => Some(n)
    case Literal(text) => ctx.parseInt(text)
    case Param(text) => Special(ctx, text)
    case Var(name, _) => Variable(ctx, name, depth)
    case Signed(sign, e) =>
      var x := Eval(ctx, e, depth);
      if x.None? then None else Some(Apply(sign, x.value))
    case Bin(op, l, r) =>
      var x, y := Eval(ctx, l, depth), Eval(ctx, r, depth);
      if x.None? || y.None? then None else Combine(op, x.value, y.value)
  }

  /** Somewhere in the tree a division or remainder is by zero, or a variable has no value. */
  predicate Faulty(ctx: Context, e: Expr, depth: nat)
    requires depth <= MAX_DEPTH
  {
    match e
    case Num(_) => false
    case Literal(text) => ctx.parseInt(text).None?
    case Param(text) => Special(ctx, text).None?
    case Var(name, _) => Variable(ctx, name, depth).None?
    case Signed(_, e) => Faulty(ctx, e, depth)
    case Bin(op, l, r) =>
      || Faulty(ctx, l, depth) || Faulty(ctx, r, depth)
      || ((op.Div? || op.Mod?) && Eval(ctx, r, depth) == Some(0))
  }

  lemma {:induction false} FailsWhenFaulty(ctx: Context, e: Expr, depth: nat)
    requires depth <= MAX_DEPTH
    ensures Eval(ctx, e, depth).None? <==> Faulty(ctx, e, depth)
  {
    if e.Signed? {
      FailsWhenFaulty(ctx, e.e, depth);
    } else if e.Bin? {
      FailsWhenFaulty(ctx, e.left, depth);
      FailsWhenFaulty(ctx, e.right, depth);
    }
  }

  // ----- tokens -----

  function Precedence(e: Expr): nat {
    if e.Bin? then OpLevel(e.op) else UNARY_LEVEL
  }

  function SignChar(sign: Sign): char {
    match sign
    case Neg => '-'
    case Pos => '+'
    case Not => '!'
  }

  /** The tokens of an expression where an operand of the level is wanted. */
  function Tokens(e: Expr, level: nat): seq<string>
    decreases e, 1
  {
    if Precedence(e) < level then [['(']] + (Bare(e) + [[')']]) else Bare(e)
  }

  function Bare(e: Expr): seq<string>
    decreases e, 0
  {
    match e
    case Num(n) => [Dec(n)]
    case Literal(text) => [text]
    case Param(text) => [['$'] + text]
    case Var(name, dollar) => [if dollar then ['$'] + name else name]
    case Signed(sign, e) => [[SignChar(sign)]] + Tokens(e, UNARY_LEVEL)
    case Bin(op, l, r) => Tokens(l, OpLevel(op)) + ([OpText(op)] + Tokens(r, OpLevel(op) + 1))
  }

  predicate Atomic(e: Expr) {
    !e.Signed? && !e.Bin?
  }

  predicate Name(s: string) {
    s != "" && IdentStart(s[0]) && forall k :: 0 <= k < |s| ==> IdentPart(s[k])
  }

  predicate Fine(e: Expr) {
    match e
    case Num(n) => n < TWO_63
    case Literal(text) => text != "" && Digit(text[0]) && forall k :: 0 <= k < |text| ==> IdentPart(text[k])
    case Param(text) => text == "#" || text == "?" || (text != "" && forall k :: 0 <= k < |text| ==> Digit(text[k]))
    case Var(name, _) => Name(name)
    case Signed(_, e) => Fine(e)
    case Bin(_, l, r) => Fine(l) && Fine(r)
  }

  /** `strconv.ParseInt` reads the decimal numbers of its range. */
  ghost predicate ReadsDecimals(ctx: Context) {
    forall n: nat :: n < TWO_63 ==> ctx.parseInt(Dec(n)) == Some(n)
  }

  predicate Here(src: string, k: nat, token: string) {
    k + |token| <= |src| && src[k..k + |token|] == token
  }

  /** Where the text ends that spells the tokens from `p` on, with any blanks before each. */
  function Spell(src: string, p: nat, tokens: seq<string>): (r: Option<nat>)
    requires p <= |src|
    ensures r.Some? ==> p <= r.value <= |src|
    decreases |tokens|, 1
  {
    if tokens == [] then Some(p) else SpellAt(src, Skip(src, p), tokens)
  }

  function SpellAt(src: string, k: nat, tokens: seq<string>): (r: Option<nat>)
    requires k <= |src| && tokens != []
    ensures r.Some? ==> k <= r.value <= |src|
    decreases |tokens|, 0
  {
    if Here(src, k, tokens[0]) then Spell(src, k + |tokens[0]|, tokens[1..]) else None
  }

  lemma {:induction false} SpellFirst(src: string, p: nat, token: string, rest: seq<string>)
    requires p <= |src|
    ensures Spell(src, p, [token] + rest) ==
            if Here(src, Skip(src, p), token) then Spell(src, Skip(src, p) + |token|, rest) else None
  {
    var tokens := [token] + rest;
    assert tokens[1..] == rest;
    assert Spell(src, p, tokens) == SpellAt(src, Skip(src, p), tokens);
  }

  lemma {:induction false} SpellBoth(src: string, p: nat, a: seq<string>, b: seq<string>)
    requires p <= |src|
    ensures Spell(src, p, a + b) ==
            if Spell(src, p, a).None? then None else Spell(src, Spell(src, p, a).value, b)
    decreases |a|
  {
    if a == [] {
      assert a + b == b;
    } else {
      var t, rest := a[0], a[1..];
      assert a == [t] + rest && a + b == [t] + (rest + b);
      SpellFirst(src, p, t, rest);
      SpellFirst(src, p, t, rest + b);
      var k := Skip(src, p);
      if Here(src, k, t) {
        SpellBoth(src, k + |t|, rest, b);
      }
    }
  }

  // ----- what ends an operand -----

  function CharLevel(c: char): int {
    if c == ')' then -1
    else if c == '|' then 0
    else if c == '&' then 1
    else if c == '=' || c == '!' || c == '<' || c == '>' then 2
    else if c == '+' || c == '-' then 3
    else if c == '*' || c == '/' || c == '%' then 4
    else 9
  }

  /** After blanks, at `q`, the text ends, or there is a parenthesis or an operator of at most the level. */
  predicate Ends(src: string, q: nat, level: int) {
    q <= |src| && (var p := Skip(src, q); p == |src| || CharLevel(src[p]) <= level)
  }

  lemma {:induction false} NoOpThere(src: string, q: nat, level: int, j: nat)
    requires Ends(src, q, level) && level < j < UNARY_LEVEL
    ensures OpAt(j, src, Skip(src, q)) == None
  {
  }

  lemma {:induction false} EndsWord(src: string, q: nat, level: int)
    requires Ends(src, q, level) && level < UNARY_LEVEL
    ensures q == |src| || !IdentPart(src[q])
  {
    var p := Skip(src, q);
    if q < |src| && p != q {
      assert src[q] == ' ' || src[q] == '\t';
    }
  }

  lemma {:induction false} SkipTwice(src: string, p: nat)
    requires p <= |src|
    ensures Skip(src, Skip(src, p)) == Skip(src, p)
    decreases |src| - p
  {
    if p < |src| && (src[p] == ' ' || src[p] == '\t') {
      SkipTwice(src, p + 1);
    }
  }

  // ----- levels -----

  /** What a level makes of an operand that has been read. */
  function After(ctx: Context, src: string, level: nat, r: Read, depth: nat): Read
    requires level <= UNARY_LEVEL && r.pos <= |src| && depth <= MAX_DEPTH
  {
    if level == UNARY_LEVEL then r else Chain(ctx, src, level, r, depth)
  }

  /** Where nothing of the level follows, the operand is all there is. */
  lemma {:induction false} AfterStops(ctx: Context, src: string, level: nat, r: Read, depth: nat, k: int)
    requires level <= UNARY_LEVEL && depth <= MAX_DEPTH && Ends(src, r.pos, k) && k < level
    ensures var s := After(ctx, src, level, r, depth);
            s.value == r.value && (r.value.Some? ==> r.pos <= s.pos <= |src| && Skip(src, s.pos) == Skip(src, r.pos))
  {
    if level < UNARY_LEVEL && r.value.Some? {
      var p := Skip(src, r.pos);
      NoOpThere(src, r.pos, k, level);
      SkipTwice(src, r.pos);
      assert Chain(ctx, src, level, r, depth) == ChainAt(ctx, src, level, r.value.value, p, depth);
      assert ChainAt(ctx, src, level, r.value.value, p, depth) == Read(r.value, p);
    }
  }

  lemma {:induction false} ChainFromSkip(ctx: Context, src: string, level: nat, r: Read, s: Read, depth: nat)
    requires level < UNARY_LEVEL && depth <= MAX_DEPTH && r.pos <= |src| && s.pos <= |src|
    requires s.value == r.value && (r.value.Some? ==> Skip(src, s.pos) == Skip(src, r.pos))
    ensures if r.value.Some? then Chain(ctx, src, level, s, depth) == Chain(ctx, src, level, r, depth)
            else Chain(ctx, src, level, s, depth).value.None?
  {
  }

  /** What a level reads, when it is this operand. */
  ghost predicate Reads(ctx: Context, src: string, level: nat, p: nat, depth: nat, value: Option<int>, q: nat) {
    && level <= UNARY_LEVEL && p <= |src| && q <= |src| && depth <= MAX_DEPTH
    && var r := Parse(ctx, src, level, p, depth);
       if value.Some? then r == After(ctx, src, level, Read(value, q), depth) else r.value.None?
  }

  /** A lower level sees the operand that a higher one has read. */
  lemma {:induction false} Climb(ctx: Context, src: string, high: nat, low: nat, p: nat, depth: nat,
      value: Option<int>, q: nat)
    requires low <= high && Reads(ctx, src, high, p, depth, value, q)
    requires low < high ==> Ends(src, q, low)
    ensures Reads(ctx, src, low, p, depth, value, q)
    decreases high - low
  {
    if low < high {
      ClimbOne(ctx, src, high, p, depth, value, q, low);
      Climb(ctx, src, high - 1, low, p, depth, value, q);
    }
  }

  lemma {:induction false} ClimbOne(ctx: Context, src: string, high: nat, p: nat, depth: nat, value: Option<int>,
      q: nat, low: nat)
    requires low < high && Reads(ctx, src, high, p, depth, value, q) && Ends(src, q, low)
    ensures Reads(ctx, src, high - 1, p, depth, value, q)
  {
    var r := Parse(ctx, src, high, p, depth);
    assert Parse(ctx, src, high - 1, p, depth) == Chain(ctx, src, high - 1, r, depth);
    if value.Some? {
      AfterStops(ctx, src, high, Read(value, q), depth, low);
      ChainFromSkip(ctx, src, high - 1, Read(value, q), r, depth);
    }
  }

  // ----- printed text is read -----

  /** The operand spelled from `p` to `q`, with nothing of its level or a higher one behind it. */
  ghost predicate Good(ctx: Context, src: string, e: Expr, level: nat, p: nat, q: nat) {
    && level <= UNARY_LEVEL && Fine(e) && ReadsDecimals(ctx) && p <= |src|
    && Spell(src, p, Tokens(e, level)) == Some(q)
    && Ends(src, q, if level < UNARY_LEVEL then level else MUL_LEVEL)
  }

  function Rank(e: Expr, level: nat): nat {
    if Precedence(e) < level then 2 else if Precedence(e) > level then 1 else 0
  }

  lemma {:induction false} ParseTokens(ctx: Context, src: string, e: Expr, level: nat, p: nat, q: nat, depth: nat)
    requires Good(ctx, src, e, level, p, q) && depth <= MAX_DEPTH
    ensures Reads(ctx, src, level, p, depth, Eval(ctx, e, depth), q)
    decreases e, Rank(e, level), 1
  {
    var value := Eval(ctx, e, depth);
    if Precedence(e) < level {
      var k, end := ParenPlace(ctx, src, e, level, p, q);
      ParseTokens(ctx, src, e, 0, k + 1, end, depth);
      ParenRead(ctx, src, p, end, q, depth, value);
      Climb(ctx, src, UNARY_LEVEL, level, p, depth, value, q);
    } else if e.Bin? && Precedence(e) > level {
      ParseTokens(ctx, src, e, Precedence(e), p, q, depth);
      Climb(ctx, src, Precedence(e), level, p, depth, value, q);
    } else if e.Bin? {
      ParseBin(ctx, src, e, p, q, depth);
    } else {
      if e.Signed? {
        ParseSigned(ctx, src, e, level, p, q, depth);
      } else {
        AtomRead(ctx, src, e, level, p, q, depth);
      }
      Climb(ctx, src, UNARY_LEVEL, level, p, depth, value, q);
    }
  }

  lemma {:induction false} ParseSigned(ctx: Context, src: string, e: Expr, level: nat, p: nat, q: nat, depth: nat)
    requires e.Signed? && Good(ctx, src, e, level, p, q) && depth <= MAX_DEPTH
    ensures Reads(ctx, src, UNARY_LEVEL, p, depth, Eval(ctx, e, depth), q)
    decreases e, 0, 0
  {
    SignPlace(ctx, src, e, level, p, q);
    var k := Skip(src, p) + 1;
    assert Reads(ctx, src, UNARY_LEVEL, k, depth, Eval(ctx, e.e, depth), q) by {
      ParseTokens(ctx, src, e.e, UNARY_LEVEL, k, q, depth);
    }
    SignedRead(ctx, src, e, p, q, depth);
  }

  lemma {:induction false} SignedRead(ctx: Context, src: string, e: Expr, p: nat, q: nat, depth: nat)
    requires e.Signed? && p <= |src| && Has(src, Skip(src, p), SignChar(e.sign)) && depth <= MAX_DEPTH
    requires Reads(ctx, src, UNARY_LEVEL, Skip(src, p) + 1, depth, Eval(ctx, e.e, depth), q)
    ensures Reads(ctx, src, UNARY_LEVEL, p, depth, Eval(ctx, e, depth), q)
  {
    SignRead(ctx, src, e.sign, p, q, depth, Eval(ctx, e.e, depth));
  }

  lemma {:induction false} ParseBin(ctx: Context, src: string, e: Expr, p: nat, q: nat, depth: nat)
    requires e.Bin? && Good(ctx, src, e, Precedence(e), p, q) && depth <= MAX_DEPTH
    ensures Reads(ctx, src, Precedence(e), p, depth, Eval(ctx, e, depth), q)
    decreases e, 0, 0
  {
    var end, j := BinPlace(ctx, src, e, p, q);
    ParseTokens(ctx, src, e.left, Precedence(e), p, end, depth);
    ParseTokens(ctx, src, e.right, Precedence(e) + 1, j, q, depth);
    BinRead(ctx, src, e.op, p, end, q, depth, Eval(ctx, e.left, depth), Eval(ctx, e.right, depth));
  }

  lemma {:induction false} ParenPlace(ctx: Context, src: string, e: Expr, level: nat, p: nat, q: nat)
    returns (k: nat, end: nat)
    requires Good(ctx, src, e, level, p, q) && Precedence(e) < level
    ensures k == Skip(src, p) && Has(src, k, '(') && Good(ctx, src, e, 0, k + 1, end)
    ensures Has(src, Skip(src, end), ')') && q == Skip(src, end) + 1
  {
    k, end := ParenSpelled(src, Bare(e), p, q);
  }

  lemma {:induction false} ParenSpelled(src: string, tokens: seq<string>, p: nat, q: nat) returns (k: nat, end: nat)
    requires p <= |src| && Spell(src, p, [['(']] + (tokens + [[')']])) == Some(q)
    ensures k == Skip(src, p) && Has(src, k, '(') && Spell(src, k + 1, tokens) == Some(end)
    ensures Has(src, Skip(src, end), ')') && q == Skip(src, end) + 1
  {
    k := CharSpelled(src, '(', tokens + [[')']], p, q);
    SpellBoth(src, k + 1, tokens, [[')']]);
    end := Spell(src, k + 1, tokens).value;
    assert [[')']] + [] == [[')']];
    var close := CharSpelled(src, ')', [], end, q);
  }

  lemma {:induction false} ParenRead(ctx: Context, src: string, p: nat, end: nat, q: nat, depth: nat,
      value: Option<int>)
    requires p <= |src| && Has(src, Skip(src, p), '(') && Reads(ctx, src, 0, Skip(src, p) + 1, depth, value, end)
    requires Has(src, Skip(src, end), ')') && q == Skip(src, end) + 1
    ensures Reads(ctx, src, UNARY_LEVEL, p, depth, value, q)
  {
    var r := Parse(ctx, src, 0, Skip(src, p) + 1, depth);
    if value.Some? {
      AfterStops(ctx, src, 0, Read(value, end), depth, -1);
    }
    assert Unary(ctx, src, p, depth) == Close(src, r);
  }

  lemma {:induction false} TokensStart(e: Expr, level: nat)
    requires Fine(e)
    ensures var t, b := Tokens(e, level), Bare(e);
            t != [] && t[0] != "" && t[0][0] != '=' && b != [] && b[0] != "" && b[0][0] != '='
    decreases e
  {
    if e.Bin? {
      TokensStart(e.left, OpLevel(e.op));
    } else if e.Num? {
      assert Digit(Dec(e.n)[0]);
    }
  }

  lemma {:induction false} OpAtChars(src: string, k: nat, op: Op)
    requires Has(src, k, OpFirst(op)) && (TwoChars(op) ==> Has(src, k + 1, OpSecond(op)))
    requires !TwoChars(op) ==> !Has(src, k + 1, '=')
    ensures OpAt(OpLevel(op), src, k) == Some(op) && CharLevel(src[k]) == OpLevel(op)
  {
  }

  /** An operator that an operand follows is the one its level finds. */
  lemma {:induction false} OpThere(src: string, k: nat, op: Op, rest: seq<string>)
    requires Here(src, k, OpText(op)) && rest != [] && rest[0] != "" && rest[0][0] != '='
    requires Spell(src, k + |OpText(op)|, rest).Some?
    ensures OpAt(OpLevel(op), src, k) == Some(op) && CharLevel(src[k]) == OpLevel(op)
  {
    var s := src[k..k + |OpText(op)|];
    assert src[k] == s[0] == OpFirst(op);
    if TwoChars(op) {
      assert src[k + 1] == s[1] == OpSecond(op);
    } else {
      NotEqualsSign(src, k + 1, rest);
    }
    OpAtChars(src, k, op);
  }

  lemma {:induction false} NotEqualsSign(src: string, p: nat, tokens: seq<string>)
    requires p <= |src| && tokens != [] && tokens[0] != "" && tokens[0][0] != '='
    requires Spell(src, p, tokens).Some?
    ensures !Has(src, p, '=')
  {
    var j := Skip(src, p);
    SpellFirst(src, p, tokens[0], tokens[1..]);
    assert tokens == [tokens[0]] + tokens[1..];
    var t := src[j..j + |tokens[0]|];
    assert src[j] == t[0] == tokens[0][0];
  }

  lemma {:induction false} BinPlace(ctx: Context, src: string, e: Expr, p: nat, q: nat) returns (end: nat, j: nat)
    requires e.Bin? && Good(ctx, src, e, Precedence(e), p, q)
    ensures Good(ctx, src, e.left, Precedence(e), p, end) && Good(ctx, src, e.right, Precedence(e) + 1, j, q)
    ensures var k := Skip(src, end); OpAt(OpLevel(e.op), src, k) == Some(e.op) && j == k + |OpText(e.op)|
  {
    var level := OpLevel(e.op);
    TokensStart(e.right, level + 1);
    assert Tokens(e, level) == Tokens(e.left, level) + ([OpText(e.op)] + Tokens(e.right, level + 1));
    end, j := BinSpelled(src, Tokens(e.left, level), e.op, Tokens(e.right, level + 1), p, q);
  }

  lemma {:induction false} BinSpelled(src: string, l: seq<string>, op: Op, r: seq<string>, p: nat, q: nat)
    returns (end: nat, j: nat)
    requires p <= |src| && Spell(src, p, l + ([OpText(op)] + r)) == Some(q)
    requires r != [] && r[0] != "" && r[0][0] != '='
    ensures Spell(src, p, l) == Some(end) && Ends(src, end, OpLevel(op))
    ensures j <= |src| && Spell(src, j, r) == Some(q)
    ensures var k := Skip(src, end); OpAt(OpLevel(op), src, k) == Some(op) && j == k + |OpText(op)|
  {
    SpellBoth(src, p, l, [OpText(op)] + r);
    end := Spell(src, p, l).value;
    SpellFirst(src, end, OpText(op), r);
    j := Skip(src, end) + |OpText(op)|;
    OpThere(src, Skip(src, end), op, r);
  }

  /** A left operand read up to `end`, then an operator, and a right operand up to `q`. */
  lemma {:induction false} BinRead(ctx: Context, src: string, op: Op, p: nat, end: nat, q: nat, depth: nat,
      x: Option<int>, y: Option<int>)
    requires Reads(ctx, src, OpLevel(op), p, depth, x, end) && OpAt(OpLevel(op), src, Skip(src, end)) == Some(op)
    requires Reads(ctx, src, OpLevel(op) + 1, Skip(src, end) + |OpText(op)|, depth, y, q) && Ends(src, q, OpLevel(op))
    ensures Reads(ctx, src, OpLevel(op), p, depth,
              if x.None? || y.None? then None else Combine(op, x.value, y.value), q)
  {
    var level, k := OpLevel(op), Skip(src, end);
    if x.Some? {
      var right := Parse(ctx, src, level + 1, k + |OpText(op)|, depth);
      assert Chain(ctx, src, level, Read(x, end), depth) == ChainAt(ctx, src, level, x.value, k, depth);
      assert ChainAt(ctx, src, level, x.value, k, depth) ==
             Chain(ctx, src, level, Joined(op, x.value, right), depth);
      if y.Some? {
        AfterStops(ctx, src, level + 1, Read(y, q), depth, level);
        ChainFromSkip(ctx, src, level, Read(Combine(op, x.value, y.value), q), Joined(op, x.value, right), depth);
      }
    }
  }

  lemma {:induction false} SignPlace(ctx: Context, src: string, e: Expr, level: nat, p: nat, q: nat)
    requires Good(ctx, src, e, level, p, q) && e.Signed?
    ensures Has(src, Skip(src, p), SignChar(e.sign)) && Good(ctx, src, e.e, UNARY_LEVEL, Skip(src, p) + 1, q)
  {
    assert Tokens(e, level) == [[SignChar(e.sign)]] + Tokens(e.e, UNARY_LEVEL);
    var k := CharSpelled(src, SignChar(e.sign), Tokens(e.e, UNARY_LEVEL), p, q);
  }

  lemma {:induction false} CharSpelled(src: string, c: char, tokens: seq<string>, p: nat, q: nat) returns (k: nat)
    requires p <= |src| && Spell(src, p, [[c]] + tokens) == Some(q)
    ensures k == Skip(src, p) && Has(src, k, c) && Spell(src, k + 1, tokens) == Some(q)
  {
    k := Skip(src, p);
    SpellFirst(src, p, [c], tokens);
    assert Here(src, k, [c]) ==> src[k..k + 1][0] == c;
  }

  lemma {:induction false} SignRead(ctx: Context, src: string, sign: Sign, p: nat, q: nat, depth: nat, x: Option<int>)
    requires p <= |src| && Has(src, Skip(src, p), SignChar(sign))
    requires Reads(ctx, src, UNARY_LEVEL, Skip(src, p) + 1, depth, x, q)
    ensures Reads(ctx, src, UNARY_LEVEL, p, depth, if x.None? then None else Some(Apply(sign, x.value)), q)
  {
    var r := Unary(ctx, src, Skip(src, p) + 1, depth);
    assert Parse(ctx, src, UNARY_LEVEL, Skip(src, p) + 1, depth) == r;
  }

  lemma {:induction false} WordIs(src: string, p: nat, q: nat)
    requires p <= q <= |src| && (forall k :: p <= k < q ==> IdentPart(src[k])) && (q < |src| ==> !IdentPart(src[q]))
    ensures WordEnd(src, p) == q
    decreases q - p
  {
    if p < q {
      WordIs(src, p + 1, q);
    }
  }

  lemma {:induction false} AtomPlace(src: string, p: nat, token: string, q: nat, level: int)
    requires p <= |src| && Spell(src, p, [token]) == Some(q) && Ends(src, q, level) && level < UNARY_LEVEL
    ensures var k := Skip(src, p);
            q == k + |token| && src[k..q] == token && (q < |src| ==> !IdentPart(src[q]))
  {
    SpellFirst(src, p, token, []);
    assert [token] + [] == [token];
    EndsWord(src, q, level);
  }

  lemma {:induction false} AtomRead(ctx: Context, src: string, e: Expr, level: nat, p: nat, q: nat, depth: nat)
    requires Good(ctx, src, e, level, p, q) && Atomic(e) && depth <= MAX_DEPTH
    ensures Reads(ctx, src, UNARY_LEVEL, p, depth, Eval(ctx, e, depth), q)
  {
    var token, k := Bare(e)[0], Skip(src, p);
    AtomPlace(src, p, token, q, if level < UNARY_LEVEL then level else MUL_LEVEL);
    assert forall j :: k <= j < q ==> src[j] == token[j - k];
    AtomValue(ctx, src, e, k, q, depth);
    assert Unary(ctx, src, p, depth) == Atom(ctx, src, k, depth);
  }

  lemma {:induction false} AtomValue(ctx: Context, src: string, e: Expr, k: nat, q: nat, depth: nat)
    requires Fine(e) && ReadsDecimals(ctx) && Atomic(e) && depth <= MAX_DEPTH
    requires k < q <= |src| && src[k..q] == Bare(e)[0] && (q < |src| ==> !IdentPart(src[q]))
    ensures Atom(ctx, src, k, depth) == Read(Eval(ctx, e, depth), q)
    ensures !Has(src, k, '-') && !Has(src, k, '+') && !Has(src, k, '!') && !Has(src, k, '(')
  {
    var token := Bare(e)[0];
    assert forall j :: k <= j < q ==> src[j] == token[j - k];
    if e.Num? {
      assert Digit(src[k]);
      WordIs(src, k, q);
      assert ctx.parseInt(Dec(e.n)) == Some(e.n);
    } else if e.Literal? {
      assert src[k] == e.text[0] && forall j :: k <= j < q ==> IdentPart(src[j]);
      WordIs(src, k, q);
    } else if e.Param? {
      ParamValue(ctx, src, e.text, k, q, depth);
    } else if e.dollar {
      assert src[k] == '$' && src[k + 1] == e.name[0];
      assert forall j :: k < j < q ==> src[j] == e.name[j - k - 1];
      WordIs(src, k + 1, q);
      assert src[k + 1..q] == token[1..] == e.name;
    } else {
      assert src[k] == e.name[0];
      WordIs(src, k, q);
    }
  }

  lemma {:induction false} ParamValue(ctx: Context, src: string, text: string, k: nat, q: nat, depth: nat)
    requires Fine(Param(text)) && depth <= MAX_DEPTH
    requires k < q <= |src| && src[k..q] == ['$'] + text && (q < |src| ==> !IdentPart(src[q]))
    ensures src[k] == '$' && Atom(ctx, src, k, depth) == Read(Special(ctx, text), q)
  {
    assert src[k] == src[k..q][0];
    assert forall j :: k < j < q ==> src[j] == src[k..q][j - k] == text[j - k - 1];
    assert src[k + 1..q] == src[k..q][1..] == text;
    if Digit(text[0]) {
      DigitsAre(src, k + 1, q);
    }
  }

  lemma {:induction false} DigitsAre(src: string, p: nat, q: nat)
    requires p <= q <= |src| && (forall k :: p <= k < q ==> Digit(src[k])) && (q < |src| ==> !IdentPart(src[q]))
    ensures DigitsEnd(src, p) == q
    decreases q - p
  {
    if p < q {
      DigitsAre(src, p + 1, q);
    }
  }

  // ----- the round trip -----

  /** `src` spells the tree: its tokens, with any blanks around them. */
  predicate Spells(src: string, e: Expr) {
    var q := Spell(src, 0, Tokens(e, 0));
    q.Some? && Skip(src, q.value) == |src|
  }

  /** A text that spells a tree has the tree's value, whatever the variables hold. */
  lemma {:induction false} ArithmeticComesBack(ctx: Context, src: string, e: Expr, depth: nat)
    requires Fine(e) && ReadsDecimals(ctx) && Spells(src, e) && depth <= MAX_DEPTH
    ensures Whole(ctx, src, depth) == Eval(ctx, e, depth)
  {
    var q := Spell(src, 0, Tokens(e, 0)).value;
    ParseTokens(ctx, src, e, 0, 0, q, depth);
    var value := Eval(ctx, e, depth);
    if value.Some? {
      AfterStops(ctx, src, 0, Read(value, q), depth, -1);
    }
  }

  function Text(tokens: seq<string>): string {
    if tokens == [] then "" else tokens[0] + Text(tokens[1..])
  }

  predicate Tight(tokens: seq<string>) {
    forall t :: t in tokens ==> t != "" && !Space(t[0])
  }

  lemma {:induction false} TokenHere(src: string, i: nat, token: string, after: string)
    requires token != "" && !Space(token[0]) && i <= |src| && src[i..] == token + after
    ensures Skip(src, i) == i && Here(src, i, token) && i + |token| <= |src| && src[i + |token|..] == after
  {
    assert src[i] == src[i..][0] == token[0];
    assert src[i..i + |token|] == src[i..][..|token|] == token;
    assert src[i + |token|..] == src[i..][|token|..];
  }

  lemma {:induction false} TextSpells(src: string, i: nat, tokens: seq<string>)
    requires Tight(tokens) && i <= |src| && src[i..] == Text(tokens)
    ensures Spell(src, i, tokens) == Some(|src|)
    decreases |tokens|
  {
    if tokens != [] {
      var t, rest := tokens[0], tokens[1..];
      TightTail(tokens);
      TokenHere(src, i, t, Text(rest));
      TextSpells(src, i + |t|, rest);
      SpellFirst(src, i, t, rest);
    }
  }

  lemma {:induction false} TightTail(tokens: seq<string>)
    requires Tight(tokens) && tokens != []
    ensures tokens[0] != "" && !Space(tokens[0][0]) && Tight(tokens[1..]) && tokens == [tokens[0]] + tokens[1..]
    ensures Text(tokens) == tokens[0] + Text(tokens[1..])
  {
    assert tokens[0] in tokens && forall t :: t in tokens[1..] ==> t in tokens;
  }

  lemma {:induction false} TightBoth(a: seq<string>, b: seq<string>)
    requires Tight(a) && Tight(b)
    ensures Tight(a + b)
  {
  }

  lemma {:induction false} BareIsTight(e: Expr)
    requires Fine(e)
    ensures Tight(Bare(e))
    decreases e, 0
  {
    match e
    case Num(n) => assert Digit(Dec(n)[0]);
    case Literal(_) =>
    case Param(_) =>
    case Var(name, dollar) =>
    case Signed(sign, e1) =>
      TokensAreTight(e1, UNARY_LEVEL);
      TightBoth([[SignChar(sign)]], Tokens(e1, UNARY_LEVEL));
    case Bin(op, l, r) =>
      TokensAreTight(l, OpLevel(op));
      TokensAreTight(r, OpLevel(op) + 1);
      TightBoth([OpText(op)], Tokens(r, OpLevel(op) + 1));
      TightBoth(Tokens(l, OpLevel(op)), [OpText(op)] + Tokens(r, OpLevel(op) + 1));
  }

  lemma {:induction false} TokensAreTight(e: Expr, level: nat)
    requires Fine(e)
    ensures Tight(Tokens(e, level))
    decreases e, 1
  {
    BareIsTight(e);
    TightBoth(Bare(e), [[')']]);
    TightBoth([['(']], Bare(e) + [[')']]);
  }

  /** The text with no blanks at all. */
  lemma {:induction false} TightTextComesBack(ctx: Context, e: Expr, depth: nat)
    requires Fine(e) && ReadsDecimals(ctx) && depth <= MAX_DEPTH
    ensures Whole(ctx, Text(Tokens(e, 0)), depth) == Eval(ctx, e, depth)
  {
    var src := Text(Tokens(e, 0));
    TokensAreTight(e, 0);
    TextSpells(src, 0, Tokens(e, 0));
    ArithmeticComesBack(ctx, src, e, depth);
  }

  /** A variable that holds the text of an expression has the value of the expression, down to the depth limit. */
  lemma {:induction false} VariableHoldsExpression(ctx: Context, name: string, e: Expr, depth: nat)
    requires Fine(e) && ReadsDecimals(ctx) && depth < MAX_DEPTH
    requires var v := Trim(ctx.param(name)); v != "" && ctx.parseInt(v) == None && Spells(v, e)
    ensures Variable(ctx, name, depth) == Eval(ctx, e, depth + 1)
  {
    ArithmeticComesBack(ctx, Trim(ctx.param(name)), e, depth + 1);
  }

  /** An evaluation fails exactly when the tree is faulty. */
  lemma {:induction false} ArithmeticFailsWhenFaulty(ctx: Context, expr: string, e: Expr)
    requires Fine(e) && ReadsDecimals(ctx) && Spells(Trim(expr), e)
    ensures EvalArith(ctx, expr) == Eval(ctx, e, 0)
    ensures EvalArith(ctx, expr).None? <==> Faulty(ctx, e, 0)
  {
    ArithmeticComesBack(ctx, Trim(expr), e, 0);
    FailsWhenFaulty(ctx, e, 0);
  }

  /** `&&` does not short-circuit: a false left side does not save the division on the right. */
  lemma {:induction false} NoShortCircuit(ctx: Context)
    requires ReadsDecimals(ctx)
    ensures Whole(ctx, Text(Tokens(Bin(And, Num(0), Bin(Div, Num(1), Num(0))), 0)), 0) == None
  {
    var e := Bin(And, Num(0), Bin(Div, Num(1), Num(0)));
    assert Fine(e.left) && Fine(e.right.left) && Fine(e.right.right) && Fine(e.right);
    TightTextComesBack(ctx, e, 0);
    assert Eval(ctx, e.right, 0) == None;
  }
}

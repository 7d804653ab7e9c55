// What an arithmetic expression means, in the terms of whole numbers: sums and
// products up to multiples of 2^64, division that truncates towards zero,
// comparisons that give 1 or 0. The evaluator gives a text a value exactly when
// the tree it spells has that meaning.

module ArithmeticMeaning {
  import opened Wrappers
  import opened ShellText
  import opened Arithmetic
  import opened ArithmeticRoundTrip
  import opened Decimals

  // ----- the operators -----

  /** A 64-bit integer, and one that differs from n by a multiple of 2^64. */
  ghost predicate Wraps(n: int, v: int) {
    && -0x8000_0000_0000_0000 <= v < 0x8000_0000_0000_0000
    && exists k :: n == v + 0x1_0000_0000_0000_0000 * k
  }

  /** q and r divide x by y: the remainder is smaller than y and is 0 or has the sign of x. */
  predicate Divides(x: int, y: int, q: int, r: int) {
    && x == q * y + r
    && (if y < 0 then y < r < -y else -y < r < y)
    && (r == 0 || (r < 0 <==> x < 0))
  }

  predicate Truth(b: bool, v: int) {
    (b && v == 1) || (!b && v == 0)
  }

  ghost predicate Means(op: Op, x: int, y: int, v: int) {
    match op
    case Or => Truth(!(x == 0 && y == 0), v)
    case And => Truth(!(x == 0 || y == 0), v)
    case Eq => Truth(x == y, v)
    case Ne => Truth(x < y || y < x, v)
    case Le => Truth(!(y < x), v)
    case Ge => Truth(!(x < y), v)
    case Lt => Truth(y > x, v)
    case Gt => Truth(y < x, v)
    case Add => Wraps(x + y, v)
    case Sub => Wraps(x - y, v)
    case Mul => Wraps(x * y, v)
    case Div => exists q, r :: Divides(x, y, q, r) && Wraps(q, v)
    case Mod => exists q, r :: Divides(x, y, q, r) && Wraps(r, v)
  }

  ghost predicate MeansSigned(sign: Sign, x: int, v: int) {
    match sign
    case Neg => Wraps(-x, v)
    case Pos => v == x
    case Not => Truth(x == 0, v)
  }

  // ----- trees -----

  /** The value of a variable: 0 for no text, the number it is, or the value of its text as an expression. */
  predicate Holds(ctx: Context, name: string, depth: nat, v: int) {
    var text := Trim(ctx.param(name));
    if text == "" then v == 0
    else if ctx.parseInt(text).Some? then v == ctx.parseInt(text).value
    else depth < 16 && Whole(ctx, text, depth + 1) == Some(v)
  }

  /** Both operands always have a value: nothing is short-circuited. */
  ghost predicate Value(ctx: Context, e: Expr, depth: nat, v: int) {
    match e
    case Num(n) => v == n
    case Literal(text) => ctx.parseInt(text) == Some(v)
    case Param(text) => var w := Trim(ctx.param(text)); if w == "" then v == 0 else ctx.parseInt(w) == Some(v)
    case Var(name, _) => Holds(ctx, name, depth, v)
    case Signed(sign, e) => exists x :: Value(ctx, e, depth, x) && MeansSigned(sign, x, v)
    case Bin(op, l, r) => exists x, y :: Value(ctx, l, depth, x) && Value(ctx, r, depth, y) && Means(op, x, y, v)
  }

  // ----- the evaluator computes the meaning -----

  lemma {:induction false} WrapWraps(n: int, v: int)
    ensures Wraps(n, v) <==> v == Wrap(n)
  {
    var w := Wrap(n);
    assert n == w + 0x1_0000_0000_0000_0000 * ((n + TWO_63) / TWO_64);
    if Wraps(n, v) {
      var k :| n == v + 0x1_0000_0000_0000_0000 * k;
      var m := (n + TWO_63) / TWO_64;
      assert v - w == TWO_64 * (m - k);
    }
  }

  /** Truncated division is the only one of its kind. */
  lemma {:induction false} DivisionIsUnique(x: int, y: int, q: int, r: int)
    ensures Divides(x, y, q, r) <==> y != 0 && q == Quotient(x, y) && r == Remainder(x, y)
  {
    if y != 0 {
      QuotientDivides(x, y);
      if Divides(x, y, q, r) {
        SameDivision(x, y, q, r, Quotient(x, y), Remainder(x, y));
      }
    }
  }

  lemma {:induction false} QuotientDivides(x: int, y: int)
    requires y != 0
    ensures Divides(x, y, Quotient(x, y), Remainder(x, y))
  {
    var a: int, b: int := Abs(x), Abs(y);
    assert a == (a / b) * b + a % b;
    var q: int := a / b;
    assert (-q) * b == -(q * b) && (-q) * (-b) == q * b && q * (-b) == -(q * b);
  }

  lemma {:induction false} SameDivision(x: int, y: int, q: int, r: int, q1: int, r1: int)
    requires Divides(x, y, q, r) && Divides(x, y, q1, r1)
    ensures q == q1 && r == r1
  {
    if q != q1 {
      Multiple(q - q1, y, r1 - r);
    }
  }

  lemma {:induction false} Multiple(d: int, y: int, m: int)
    requires d != 0 && m == d * y
    ensures if y < 0 then m <= y || m >= -y else m <= -y || m >= y
  {
  }

  lemma {:induction false} CombineMeans(op: Op, x: int, y: int, v: int)
    ensures Combine(op, x, y) == Some(v) <==> Means(op, x, y, v)
  {
    match op
    case Add => WrapWraps(x + y, v);
    case Sub => WrapWraps(x - y, v);
    case Mul => WrapWraps(x * y, v);
    case Div =>
      forall q, r ensures Divides(x, y, q, r) <==> y != 0 && q == Quotient(x, y) && r == Remainder(x, y) {
        DivisionIsUnique(x, y, q, r);
      }
      if y != 0 {
        WrapWraps(Quotient(x, y), v);
        assert Divides(x, y, Quotient(x, y), Remainder(x, y));
      }
    case Mod =>
      forall q, r ensures Divides(x, y, q, r) <==> y != 0 && q == Quotient(x, y) && r == Remainder(x, y) {
        DivisionIsUnique(x, y, q, r);
      }
      if y != 0 {
        WrapWraps(Remainder(x, y), v);
        assert Divides(x, y, Quotient(x, y), Remainder(x, y));
      }
    case _ =>
  }

  lemma {:induction false} ApplyMeans(sign: Sign, x: int, v: int)
    ensures Apply(sign, x) == v <==> MeansSigned(sign, x, v)
  {
    WrapWraps(-x, v);
  }

  lemma {:induction false} EvalMeans(ctx: Context, e: Expr, depth: nat, v: int)
    requires depth <= MAX_DEPTH
    ensures Eval(ctx, e, depth) == Some(v) <==> Value(ctx, e, depth, v)
    decreases e
  {
    match e
    case Num(_) =>
    case Literal(_) =>
    case Param(_) =>
    case Var(_, _) =>
    case Signed(sign, e1) =>
      forall x ensures Eval(ctx, e1, depth) == Some(x) <==> Value(ctx, e1, depth, x) {
        EvalMeans(ctx, e1, depth, x);
      }
      if Eval(ctx, e1, depth).Some? {
        ApplyMeans(sign, Eval(ctx, e1, depth).value, v);
      }
    case Bin(op, l, r) =>
      forall x ensures Eval(ctx, l, depth) == Some(x) <==> Value(ctx, l, depth, x) {
        EvalMeans(ctx, l, depth, x);
      }
      forall y ensures Eval(ctx, r, depth) == Some(y) <==> Value(ctx, r, depth, y) {
        EvalMeans(ctx, r, depth, y);
      }
      if Eval(ctx, l, depth).Some? && Eval(ctx, r, depth).Some? {
        CombineMeans(op, Eval(ctx, l, depth).value, Eval(ctx, r, depth).value, v);
      }
  }

  /** A text has a value exactly when the tree that it spells means it. */
  lemma {:induction false} TextMeans(ctx: Context, expr: string, e: Expr, v: int)
    requires Fine(e) && ReadsDecimals(ctx) && Spells(Trim(expr), e)
    ensures EvalArith(ctx, expr) == Some(v) <==> Value(ctx, e, 0, v)
  {
    ArithmeticComesBack(ctx, Trim(expr), e, 0);
    EvalMeans(ctx, e, 0, v);
  }

  /** Only -2^63 divided by -1 does not fit 64 bits. */
  lemma {:induction false} QuotientFits(x: int, y: int, q: int, r: int)
    requires -0x8000_0000_0000_0000 <= x < 0x8000_0000_0000_0000 && Divides(x, y, q, r)
    ensures -0x8000_0000_0000_0000 <= q < 0x8000_0000_0000_0000 <==> !(x == -0x8000_0000_0000_0000 && y == -1)
  {
    var m := q * y;
    if y == 1 || y == -1 {
      Unit(x, y, q, m, r);
    } else {
      Larger(x, y, q, m, r);
    }
  }

  lemma {:induction false} Unit(x: int, y: int, q: int, m: int, r: int)
    requires (y == 1 || y == -1) && m == q * y && x == m + r && -1 < r < 1
    ensures q == if y == 1 then x else -x
  {
  }

  lemma {:induction false} Larger(x: int, y: int, q: int, m: int, r: int)
    requires y > 1 || y < -1
    requires m == q * y && x == m + r && (if y < 0 then y < r < -y else -y < r < y) && (r == 0 || (r < 0 <==> x < 0))
    ensures if x < 0 then x <= 2 * q <= -x else -x <= 2 * q <= x
  {
    if q != 0 {
      Multiple(q, y, m);
    }
    Twice(q, y, m);
  }

  lemma {:induction false} Twice(q: int, y: int, m: int)
    requires (y > 1 || y < -1) && m == q * y
    ensures if (q >= 0) == (y > 0) then m >= 2 * q && m >= -2 * q else m <= 2 * q && m <= -2 * q
  {
  }

  // ----- the text of the operators, and how tightly they bind -----

  predicate Named(op: Op, text: string) {
    match op
    case Or => text == "||"
    case And => text == "&&"
    case Eq => text == "=="
    case Ne => text == "!="
    case Le => text == "<="
    case Ge => text == ">="
    case Lt => text == "<"
    case Gt => text == ">"
    case Add => text == "+"
    case Sub => text == "-"
    case Mul => text == "*"
    case Div => text == "/"
    case Mod => text == "%"
  }

  lemma {:induction false} FirstText(t: string, rest: seq<string>)
    ensures Text([t] + rest) == t + Text(rest)
  {
    assert ([t] + rest)[1..] == rest;
  }

  lemma {:induction false} NumberText(n: nat, level: nat)
    requires level <= UNARY_LEVEL
    ensures Tokens(Num(n), level) == [Dec(n)] && Text([Dec(n)]) == Dec(n)
  {
    FirstText(Dec(n), []);
    assert [Dec(n)] + [] == [Dec(n)] && Dec(n) + "" == Dec(n);
  }

  lemma {:induction false} OperatorText(a: string, op: string, rest: seq<string>)
    ensures Text([a] + ([op] + rest)) == a + op + Text(rest)
  {
    FirstText(a, [op] + rest);
    FirstText(op, rest);
    assert a + (op + Text(rest)) == a + op + Text(rest);
  }

  lemma {:induction false} FiveTexts(a: string, s: string, b: string, t: string, c: string)
    ensures Text([a] + ([s] + ([b] + ([t] + [c])))) == a + s + b + t + c
  {
    OperatorText(a, s, [b] + ([t] + [c]));
    OperatorText(b, t, [c]);
    FirstText(c, []);
    assert [c] + [] == [c] && c + "" == c;
    assert a + s + (b + t + c) == a + s + b + t + c;
  }

  /** Two numbers with an operator between them. */
  lemma {:induction false} BetweenNumbers(ctx: Context, m: nat, op: Op, text: string, n: nat, v: int)
    requires ReadsDecimals(ctx) && m < 0x8000_0000_0000_0000 && n < 0x8000_0000_0000_0000 && Named(op, text)
    ensures Whole(ctx, Dec(m) + text + Dec(n), 0) == Some(v) <==> Means(op, m, n, v)
  {
    var e := Bin(op, Num(m), Num(n));
    assert Fine(e.left) && Fine(e.right);
    TightTextComesBack(ctx, e, 0);
    NumberText(m, OpLevel(op));
    NumberText(n, OpLevel(op) + 1);
    OperatorText(Dec(m), OpText(op), [Dec(n)]);
    assert OpText(op) == text;
    assert Eval(ctx, e.left, 0) == Some(m) && Eval(ctx, e.right, 0) == Some(n);
    CombineMeans(op, m, n, v);
  }

  predicate Comparison(op: Op) {
    op.Eq? || op.Ne? || op.Le? || op.Ge? || op.Lt? || op.Gt?
  }

  predicate Sum(op: Op) {
    op.Add? || op.Sub?
  }

  predicate Product(op: Op) {
    op.Mul? || op.Div? || op.Mod?
  }

  /** From loose to tight: `||`, `&&`, comparisons, sums, products. */
  predicate Tighter(a: Op, b: Op) {
    || (a.Or? && !b.Or?)
    || (a.And? && (Comparison(b) || Sum(b) || Product(b)))
    || (Comparison(a) && (Sum(b) || Product(b)))
    || (Sum(a) && Product(b))
  }

  /** Of two operators in a row the tighter goes first, and of two that are equally tight the left one. */
  lemma {:induction false} AmongNumbers(ctx: Context, m: nat, a: Op, n: nat, b: Op, k: nat, ta: string, tb: string,
      v: int)
    requires ReadsDecimals(ctx) && Named(a, ta) && Named(b, tb)
    requires m < 0x8000_0000_0000_0000 && n < 0x8000_0000_0000_0000 && k < 0x8000_0000_0000_0000
    ensures Whole(ctx, Dec(m) + ta + Dec(n) + tb + Dec(k), 0) == Some(v) <==>
            if Tighter(a, b) then exists y :: Means(b, n, k, y) && Means(a, m, y, v)
            else exists x :: Means(a, m, n, x) && Means(b, x, k, v)
  {
    var e := if Tighter(a, b) then Bin(a, Num(m), Bin(b, Num(n), Num(k))) else Bin(b, Bin(a, Num(m), Num(n)), Num(k));
    ThreeTexts(m, a, n, b, k, ta, tb);
    assert Fine(Num(m)) && Fine(Num(n)) && Fine(Num(k)) && Fine(e.left) && Fine(e.right);
    TightTextComesBack(ctx, e, 0);
    EvalMeans(ctx, e, 0, v);
    if Tighter(a, b) {
      assert forall y :: Value(ctx, e.right, 0, y) <==> Means(b, n, k, y);
    } else {
      assert forall x :: Value(ctx, e.left, 0, x) <==> Means(a, m, n, x);
    }
  }

  lemma {:induction false} ThreeTexts(m: nat, a: Op, n: nat, b: Op, k: nat, ta: string, tb: string)
    requires Named(a, ta) && Named(b, tb)
    ensures var e := if Tighter(a, b) then Bin(a, Num(m), Bin(b, Num(n), Num(k)))
                     else Bin(b, Bin(a, Num(m), Num(n)), Num(k));
            Text(Tokens(e, 0)) == Dec(m) + ta + Dec(n) + tb + Dec(k)
  {
    assert OpText(a) == ta && OpText(b) == tb;
    FiveTexts(Dec(m), ta, Dec(n), tb, Dec(k));
    if Tighter(a, b) {
      RightTokens(m, a, n, b, k);
    } else {
      LeftTokens(m, a, n, b, k);
    }
  }

  lemma {:induction false} PairTokens(m: nat, a: Op, n: nat, level: nat)
    requires level <= OpLevel(a)
    ensures Tokens(Bin(a, Num(m), Num(n)), level) == [Dec(m)] + ([OpText(a)] + [Dec(n)])
  {
    NumberText(m, OpLevel(a));
    NumberText(n, OpLevel(a) + 1);
  }

  lemma {:induction false} RightTokens(m: nat, a: Op, n: nat, b: Op, k: nat)
    requires Tighter(a, b)
    ensures Tokens(Bin(a, Num(m), Bin(b, Num(n), Num(k))), 0) ==
            [Dec(m)] + ([OpText(a)] + ([Dec(n)] + ([OpText(b)] + [Dec(k)])))
  {
    PairTokens(n, b, k, OpLevel(a) + 1);
    NumberText(m, OpLevel(a));
  }

  lemma {:induction false} LeftTokens(m: nat, a: Op, n: nat, b: Op, k: nat)
    requires !Tighter(a, b)
    ensures Tokens(Bin(b, Bin(a, Num(m), Num(n)), Num(k)), 0) ==
            [Dec(m)] + ([OpText(a)] + ([Dec(n)] + ([OpText(b)] + [Dec(k)])))
  {
    PairTokens(m, a, n, OpLevel(b));
    NumberText(k, OpLevel(b) + 1);
  }
}

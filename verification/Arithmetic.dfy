// Shell arithmetic (internal/shell/arith.go): a precedence parser that
// evaluates as it reads, over 64-bit integers that wrap around.
//
// What a variable holds and Go's `strconv.ParseInt(_, 0, 64)` are parameters.

module Arithmetic {
  import opened Wrappers
  import opened ShellText

  datatype Context = Context(param: string -> string, parseInt: string -> Option<int>)

  /** The binary operators, by the level of the method that reads them. */
  datatype Op = Or | And | Eq | Ne | Le | Ge | Lt | Gt | Add | Sub | Mul | Div | Mod

  const MUL_LEVEL := 4
  const UNARY_LEVEL := 5
  const MAX_DEPTH := 16

  function OpLevel(op: Op): nat {
    match op
    case Or => 0
    case And => 1
    case Add | Sub => 3
    case Mul | Div | Mod => 4
    case _ => 2
  }

  predicate TwoChars(op: Op) {
    op.Or? || op.And? || op.Eq? || op.Ne? || op.Le? || op.Ge?
  }

  function OpFirst(op: Op): char {
    match op
    case Or => '|'
    case And => '&'
    case Eq => '='
    case Ne => '!'
    case Le => '<'
    case Ge => '>'
    case Lt => '<'
    case Gt => '>'
    case Add => '+'
    case Sub => '-'
    case Mul => '*'
    case Div => '/'
    case Mod => '%'
  }

  function OpSecond(op: Op): char {
    if op.Or? then '|' else if op.And? then '&' else '='
  }

  function OpText(op: Op): string {
    if TwoChars(op) then [OpFirst(op), OpSecond(op)] else [OpFirst(op)]
  }

  // ----- 64-bit values -----

  const TWO_63 := 0x8000_0000_0000_0000
  const TWO_64 := 0x1_0000_0000_0000_0000

  /** The 64-bit integer that `n` wraps around to. */
  function Wrap(n: int): (r: int)
    ensures -TWO_63 <= r < TWO_63
    ensures -TWO_63 <= n < TWO_63 ==> r == n
  {
    (n + TWO_63) % TWO_64 - TWO_63
  }

  function Abs(n: int): nat {
    if n < 0 then -n else n
  }

  /** Go's division truncates towards zero, and its remainder has the sign of the dividend. */
  function Quotient(x: int, y: int): int
    requires y != 0
  {
    var q := Abs(x) / Abs(y);
    if (x < 0) == (y < 0) then q else -q
  }

  function Remainder(x: int, y: int): int
    requires y != 0
  {
    var r := Abs(x) % Abs(y);
    if x < 0 then -r else r
  }

  function Bool(b: bool): int {
    if b then 1 else 0
  }

  /** Both sides are always evaluated: `&&` and `||` do not short-circuit. */
  function Combine(op: Op, x: int, y: int): Option<int> {
    match op
    case Or => Some(Bool(x != 0 || y != 0))
    case And => Some(Bool(x != 0 && y != 0))
    case Eq => Some(Bool(x == y))
    case Ne => Some(Bool(x != y))
    case Le => Some(Bool(x <= y))
    case Ge => Some(Bool(x >= y))
    case Lt => Some(Bool(x < y))
    case Gt => Some(Bool(x > y))
    case Add => Some(Wrap(x + y))
    case Sub => Some(Wrap(x - y))
    case Mul => Some(Wrap(x * y))
    case Div => if y == 0 then None else Some(Wrap(Quotient(x, y)))
    case Mod => if y == 0 then None else Some(Wrap(Remainder(x, y)))
  }

  // ----- the parser -----

  /** A value, whether it is one, and where the reading stopped. The value of a failure does not matter. */
  datatype Read = Read(value: Option<int>, pos: nat)

  function Skip(src: string, pos: nat): (p: nat)
    requires pos <= |src|
    ensures pos <= p <= |src|
    ensures p < |src| ==> src[p] != ' ' && src[p] != '\t'
    decreases |src| - pos
  {
    if pos < |src| && (src[pos] == ' ' || src[pos] == '\t') then Skip(src, pos + 1) else pos
  }

  predicate Has(src: string, p: nat, c: char) {
    p < |src| && src[p] == c
  }

  /** The operator of the level at `p`; the longer ones are tried first. */
  function OpAt(level: nat, src: string, p: nat): (r: Option<Op>)
    ensures r.Some? ==> p + |OpText(r.value)| <= |src|
  {
    if level == 0 then (if Has(src, p, '|') && Has(src, p + 1, '|') then Some(Or) else None)
    else if level == 1 then (if Has(src, p, '&') && Has(src, p + 1, '&') then Some(And) else None)
    else if level == 2 then
      if Has(src, p, '=') && Has(src, p + 1, '=') then Some(Eq)
      else if Has(src, p, '!') && Has(src, p + 1, '=') then Some(Ne)
      else if Has(src, p, '<') && Has(src, p + 1, '=') then Some(Le)
      else if Has(src, p, '>') && Has(src, p + 1, '=') then Some(Ge)
      else if Has(src, p, '<') then Some(Lt)
      else if Has(src, p, '>') then Some(Gt)
      else None
    else if level == 3 then
      (if Has(src, p, '+') then Some(Add) else if Has(src, p, '-') then Some(Sub) else None)
    else if Has(src, p, '*') then Some(Mul)
    else if Has(src, p, '/') then Some(Div)
    else if Has(src, p, '%') then Some(Mod)
    else None
  }

  /** `or`, `and`, `cmp`, `add`, `mul` and `unary` are the levels 0 to 5. */
  function Parse(ctx: Context, src: string, level: nat, pos: nat, depth: nat): (r: Read)
    requires level <= UNARY_LEVEL && pos <= |src| && depth <= MAX_DEPTH
    ensures pos <= r.pos <= |src|
    decreases MAX_DEPTH - depth, |src| - pos, 13 - 2 * level
  {
    if level == UNARY_LEVEL then Unary(ctx, src, pos, depth)
    else Chain(ctx, src, level, Parse(ctx, src, level + 1, pos, depth), depth)
  }

  /** The loop of a level: operators of that level after a left operand. */
  function Chain(ctx: Context, src: string, level: nat, left: Read, depth: nat): (r: Read)
    requires level < UNARY_LEVEL && left.pos <= |src| && depth <= MAX_DEPTH
    ensures left.pos <= r.pos <= |src|
    decreases MAX_DEPTH - depth, |src| - left.pos, 12 - 2 * level
  {
    if left.value.None? then left else ChainAt(ctx, src, level, left.value.value, Skip(src, left.pos), depth)
  }

  /** After the blanks, at `p`: an operator of the level and its right operand, or the end of the loop. */
  function ChainAt(ctx: Context, src: string, level: nat, x: int, p: nat, depth: nat): (r: Read)
    requires level < UNARY_LEVEL && p <= |src| && depth <= MAX_DEPTH
    ensures p <= r.pos <= |src|
    decreases MAX_DEPTH - depth, |src| - p, 11 - 2 * level
  {
    var op := OpAt(level, src, p);
    if op.None? then Read(Some(x), p)
    else
      var right := Parse(ctx, src, level + 1, p + |OpText(op.value)|, depth);
      Chain(ctx, src, level, Joined(op.value, x, right), depth)
  }

  function Joined(op: Op, x: int, right: Read): (r: Read)
    ensures r.pos == right.pos
  {
    Read(if right.value.None? then None else Combine(op, x, right.value.value), right.pos)
  }

  function Unary(ctx: Context, src: string, pos: nat, depth: nat): (r: Read)
    requires pos <= |src| && depth <= MAX_DEPTH
    ensures pos <= r.pos <= |src|
    decreases MAX_DEPTH - depth, |src| - pos, 0
  {
    var p := Skip(src, pos);
    if Has(src, p, '-') then
      var r := Unary(ctx, src, p + 1, depth);
      Read(if r.value.None? then None else Some(Wrap(-r.value.value)), r.pos)
    else if Has(src, p, '+') then Unary(ctx, src, p + 1, depth)
    else if Has(src, p, '!') then
      var r := Unary(ctx, src, p + 1, depth);
      Read(if r.value.None? then None else Some(Bool(r.value.value == 0)), r.pos)
    else if Has(src, p, '(') then Close(src, Parse(ctx, src, 0, p + 1, depth))
    else Atom(ctx, src, p, depth)
  }

  function Close(src: string, r: Read): (r': Read)
    requires r.pos <= |src|
    ensures r.pos <= r'.pos <= |src|
  {
    if r.value.None? then r
    else
      var q := Skip(src, r.pos);
      if Has(src, q, ')') then Read(r.value, q + 1) else Read(None, q)
  }

  predicate Digit(c: char) {
    '0' <= c <= '9'
  }

  function DigitsEnd(src: string, p: nat): (j: nat)
    requires p <= |src|
    ensures p <= j <= |src|
    decreases |src| - p
  {
    if p < |src| && Digit(src[p]) then DigitsEnd(src, p + 1) else p
  }

  /** A number, `$1`, `$#`, `$?`, or a variable with or without `$`. */
  function Atom(ctx: Context, src: string, p: nat, depth: nat): (r: Read)
    requires p <= |src| && depth <= MAX_DEPTH
    ensures p <= r.pos <= |src|
    decreases MAX_DEPTH - depth, |src| - p, 0, 0
  {
    var dollar := Has(src, p, '$');
    var q := if dollar then p + 1 else p;
    if q == |src| then Read(None, q)
    else if !dollar && Digit(src[q]) then
      var j := WordEnd(src, q);
      Read(ctx.parseInt(src[q..j]), j)
    else if dollar && (src[q] == '#' || src[q] == '?' || Digit(src[q])) then
      var j := if Digit(src[q]) then DigitsEnd(src, q) else q + 1;
      var v := Trim(ctx.param(src[q..j]));
      Read(if v == "" then Some(0) else ctx.parseInt(v), j)
    else if IdentStart(src[q]) then
      var j := WordEnd(src, q);
      Read(Variable(ctx, src[q..j], depth), j)
    else Read(None, q)
  }

  /** The text of a variable is a number, nothing at all, or an expression of its own. */
  function Variable(ctx: Context, name: string, depth: nat): Option<int>
    requires depth <= MAX_DEPTH
    decreases MAX_DEPTH - depth, 0, 0, 0
  {
    var v := Trim(ctx.param(name));
    if v == "" then Some(0)
    else
      var n := ctx.parseInt(v);
      if n.None? && depth < MAX_DEPTH then Whole(ctx, v, depth + 1) else n
  }

  /** The value of a text that is one expression and nothing else. */
  function Whole(ctx: Context, src: string, depth: nat): Option<int>
    requires depth <= MAX_DEPTH
    decreases MAX_DEPTH - depth, |src|, 14
  {
    var r := Parse(ctx, src, 0, 0, depth);
    if Skip(src, r.pos) == |src| then r.value else None
  }

  function EvalArith(ctx: Context, expr: string): Option<int> {
    Whole(ctx, Trim(expr), 0)
  }

  // ----- the object whose position the methods advance -----

  class Reader {
    const ctx: Context
    const src: string
    const depth: nat
    var pos: nat

    constructor (ctx: Context, src: string, depth: nat)
      requires depth <= MAX_DEPTH
      ensures Valid() && pos == 0 && this.ctx == ctx && this.src == src && this.depth == depth
    {
      this.ctx, this.src, this.depth, pos := ctx, src, depth, 0;
    }

    predicate Valid()
      reads this
    {
      pos <= |src| && depth <= MAX_DEPTH
    }

    method SkipBlanks()
      requires Valid()
      modifies this
      ensures Valid() && pos == Skip(src, old(pos))
    {
      while pos < |src| && (src[pos] == ' ' || src[pos] == '\t')
        invariant Valid() && Skip(src, pos) == Skip(src, old(pos))
      {
        pos := pos + 1;
      }
    }

    method Eat(c: char) returns (eaten: bool)
      requires Valid()
      modifies this
      ensures Valid()
      ensures var p := Skip(src, old(pos));
              eaten == Has(src, p, c) && pos == if eaten then p + 1 else p
    {
      SkipBlanks();
      eaten := pos < |src| && src[pos] == c;
      if eaten {
        pos := pos + 1;
      }
    }

    /** The operator that the loop of a level finds, if any. */
    method EatOp(level: nat) returns (op: Option<Op>)
      requires Valid() && level < UNARY_LEVEL
      modifies this
      ensures Valid()
      ensures var p := Skip(src, old(pos));
              op == OpAt(level, src, p) && pos == if op.Some? then p + |OpText(op.value)| else p
    {
      SkipBlanks();
      op := OpAt(level, src, pos);
      if op.Some? {
        pos := pos + |OpText(op.value)|;
      }
    }

    method ReadLevel(level: nat) returns (value: Option<int>)
      requires Valid() && level <= UNARY_LEVEL
      modifies this
      ensures Valid() && Read(value, pos) == Parse(ctx, src, level, old(pos), depth)
      decreases MAX_DEPTH - depth, |src| - pos, 13 - 2 * level
    {
      if level == UNARY_LEVEL {
        value := ReadUnary();
        return;
      }
      value := ReadLevel(level + 1);
      var more := true;
      while value.Some? && more
        invariant Valid() && old(pos) <= pos
        invariant if more then Chain(ctx, src, level, Read(value, pos), depth) ==
          Parse(ctx, src, level, old(pos), depth)
                  else Read(value, pos) == Parse(ctx, src, level, old(pos), depth)
        decreases |src| - pos, more
      {
        value, more := ReadOperand(level, value.value);
      }
    }

    /** An operator of the level and its right operand, if there is one more. */
    method ReadOperand(level: nat, left: int) returns (value: Option<int>, more: bool)
      requires Valid() && level < UNARY_LEVEL
      modifies this
      ensures Valid() && old(pos) <= pos && (more ==> old(pos) < pos)
      ensures Chain(ctx, src, level, Read(Some(left), old(pos)), depth) ==
              if more then Chain(ctx, src, level, Read(value, pos), depth) else Read(value, pos)
      decreases MAX_DEPTH - depth, |src| - pos, 12 - 2 * level
    {
      ghost var p := Skip(src, pos);
      assert Chain(ctx, src, level, Read(Some(left), pos), depth) == ChainAt(ctx, src, level, left, p, depth);
      var op := EatOp(level);
      if op.None? {
        return Some(left), false;
      }
      var right := ReadLevel(level + 1);
      assert ChainAt(ctx, src, level, left, p, depth) ==
             Chain(ctx, src, level, Joined(op.value, left, Read(right, pos)), depth);
      value := if right.None? then None else Combine(op.value, left, right.value);
      more := true;
    }

    method ReadUnary() returns (value: Option<int>)
      requires Valid()
      modifies this
      ensures Valid() && Read(value, pos) == Unary(ctx, src, old(pos), depth)
      decreases MAX_DEPTH - depth, |src| - pos, 0
    {
      SkipBlanks();
      if pos == |src| {
        value := ReadAtom();
      } else if src[pos] == '-' {
        pos := pos + 1;
        value := ReadUnary();
        if value.Some? {
          value := Some(Wrap(-value.value));
        }
      } else if src[pos] == '+' {
        pos := pos + 1;
        value := ReadUnary();
      } else if src[pos] == '!' {
        pos := pos + 1;
        value := ReadUnary();
        if value.Some? {
          value := Some(Bool(value.value == 0));
        }
      } else if src[pos] == '(' {
        pos := pos + 1;
        value := ReadLevel(0);
        if value.Some? {
          var closed := Eat(')');
          if !closed {
            value := None;
          }
        }
      } else {
        value := ReadAtom();
      }
    }

    method ReadAtom() returns (value: Option<int>)
      requires Valid()
      modifies this
      ensures Valid() && Read(value, pos) == Atom(ctx, src, old(pos), depth)
      decreases MAX_DEPTH - depth, |src| - pos, 0, 0
    {
      var dollar := pos < |src| && src[pos] == '$';
      if dollar {
        pos := pos + 1;
      }
      var start := pos;
      if pos == |src| {
        return None;
      }
      if !dollar && Digit(src[pos]) {
        pos := WordEnd(src, pos);
        value := ctx.parseInt(src[start..pos]);
      } else if dollar && (src[pos] == '#' || src[pos] == '?' || Digit(src[pos])) {
        pos := if Digit(src[pos]) then DigitsEnd(src, pos) else pos + 1;
        var v := Trim(ctx.param(src[start..pos]));
        value := if v == "" then Some(0) else ctx.parseInt(v);
      } else if IdentStart(src[pos]) {
        pos := WordEnd(src, pos);
        value := ReadVariable(ctx, src[start..pos], depth);
      } else {
        value := None;
      }
    }
  }

  method ReadVariable(ctx: Context, name: string, depth: nat) returns (value: Option<int>)
    requires depth <= MAX_DEPTH
    ensures value == Variable(ctx, name, depth)
    decreases MAX_DEPTH - depth, 0, 0, 0
  {
    var v := Trim(ctx.param(name));
    if v == "" {
      return Some(0);
    }
    value := ctx.parseInt(v);
    if value.None? && depth < MAX_DEPTH {
      value := ReadWhole(ctx, v, depth + 1);
    }
  }

  method ReadWhole(ctx: Context, src: string, depth: nat) returns (value: Option<int>)
    requires depth <= MAX_DEPTH
    ensures value == Whole(ctx, src, depth)
    decreases MAX_DEPTH - depth, |src|, 14
  {
    var a := new Reader(ctx, src, depth);
    value := a.ReadLevel(0);
    a.SkipBlanks();
    if a.pos != |src| {
      value := None;
    }
  }

  method Evaluate(ctx: Context, expr: string) returns (value: Option<int>)
    ensures value == EvalArith(ctx, expr)
  {
    value := ReadWhole(ctx, Trim(expr), 0);
  }
}

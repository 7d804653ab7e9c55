// What the separators of a list mean. An and-or list is a tree, nested to the
// left; a program runs its and-or lists one after the other. The evaluator,
// which walks the items and skips some, computes exactly that.

module ShellLists {
  import opened ShellSyntax
  import opened ShellMachine
  import opened ShellOutcomes
  import opened ShellRefinement
  import opened Wrappers

  datatype AndOr = One(item: Item) | AndThen(left: AndOr, item: Item) | OrElse(left: AndOr, item: Item)

  /** The left side of `&&` or `||` is exempt from `set -e`; the right side runs or its status stands. */
  function EvalAndOr(L: Lang, x: Context, st: Store, t: AndOr, exempt: bool, last: int): (Outcome, Store) {
    match t
    case One(it) => EvalItem(L, x, st, it, exempt, last)
    case AndThen(left, it) =>
      var (o, st1) := EvalAndOr(L, x, st, left, true, last);
      if o == Normal(0) then EvalItem(L, x, st1, it, exempt, 0) else (o, st1)
    case OrElse(left, it) =>
      var (o, st1) := EvalAndOr(L, x, st, left, true, last);
      if o.Normal? && o.status != 0 then EvalItem(L, x, st1, it, exempt, o.status) else (o, st1)
  }

  predicate Joined(items: seq<Item>, k: nat) {
    k < |items| && (items[k].sep == And || items[k].sep == Or)
  }

  /** The items from i up to, and without, j are one and-or list. */
  predicate Run(items: seq<Item>, i: nat, j: nat) {
    i < j <= |items| && forall k :: i < k < j ==> Joined(items, k)
  }

  function TreeOf(items: seq<Item>, i: nat, j: nat): AndOr
    requires Run(items, i, j)
    decreases j
  {
    var it := items[j - 1];
    if j == i + 1 then One(it)
    else if it.sep == And then AndThen(TreeOf(items, i, j - 1), it)
    else OrElse(TreeOf(items, i, j - 1), it)
  }

  /** Where the and-or list ends that has reached item j. */
  function End(items: seq<Item>, i: nat, j: nat): (e: nat)
    requires Run(items, i, j)
    ensures j <= e && Run(items, i, e) && !Joined(items, e)
    decreases |items| - j
  {
    if Joined(items, j) then End(items, i, j + 1) else j
  }

  /** The and-or lists from item i on, until one does not end normally. */
  function EvalProgram(L: Lang, x: Context, st: Store, items: seq<Item>, i: nat, last: int): (Outcome, Store)
    requires i <= |items|
    decreases |items| - i
  {
    if i == |items| then (Normal(last), st)
    else
      var j := End(items, i, i + 1);
      var (o, st1) := EvalAndOr(L, x, st, TreeOf(items, i, j), false, last);
      if o.Normal? then EvalProgram(L, x, st1, items, j, o.status) else (o, st1)
  }

  /** The list continues after an and-or list that has come as far as item j. */
  function Onward(L: Lang, x: Context, r: (Outcome, Store), items: seq<Item>, j: nat): (Outcome, Store)
    requires j <= |items|
  {
    if r.0.Normal? then EvalItems(L, x, r.1, items, j, r.0.status) else r
  }

  lemma {:induction false} TreeRuns(L: Lang, x: Context, st: Store, items: seq<Item>, i: nat, j: nat, last: int)
    requires Run(items, i, j) && (i == 0 || !Joined(items, i))
    ensures EvalItems(L, x, st, items, i, last) ==
            Onward(L, x, EvalAndOr(L, x, st, TreeOf(items, i, j), Joined(items, j), last), items, j)
    decreases j
  {
    if j == i + 1 {
      OneRuns(L, x, st, items, i, last);
    } else {
      TreeRuns(L, x, st, items, i, j - 1, last);
      var (o, st1) := EvalAndOr(L, x, st, TreeOf(items, i, j - 1), true, last);
      if o.Normal? {
        OneRuns(L, x, st1, items, j - 1, o.status);
      }
    }
  }

  /** An item runs, or is skipped when `&&` or `||` before it says so. */
  lemma {:induction false} OneRuns(L: Lang, x: Context, st: Store, items: seq<Item>, i: nat, last: int)
    requires i < |items|
    ensures EvalItems(L, x, st, items, i, last) ==
            if i > 0 && ((items[i].sep == And && last != 0) || (items[i].sep == Or && last == 0))
            then EvalItems(L, x, st, items, i + 1, last)
            else Onward(L, x, EvalItem(L, x, st, items[i], Joined(items, i + 1), last), items, i + 1)
  {
  }

  /** Items run as the and-or lists they form. */
  lemma {:induction false} ListsMean(L: Lang, x: Context, st: Store, items: seq<Item>, i: nat, last: int)
    requires i <= |items| && (i == 0 || !Joined(items, i))
    ensures EvalItems(L, x, st, items, i, last) == EvalProgram(L, x, st, items, i, last)
    decreases |items| - i
  {
    if i < |items| {
      var j := End(items, i, i + 1);
      TreeRuns(L, x, st, items, i, j, last);
      var (o, st1) := EvalAndOr(L, x, st, TreeOf(items, i, j), false, last);
      if o.Normal? {
        ListsMean(L, x, st1, items, j, o.status);
      }
    }
  }

  /** The evaluator with its flags runs a list as the and-or lists it forms. */
  lemma {:induction false} FlagsRunLists(L: Lang, x: Context, exec: bool, s: State, items: seq<Item>)
    requires Ready(x, exec, s)
    ensures Agree(s, EvalProgram(L, x, s.store, items, 0, 0), RunItems(L, exec, s, items, 0, 0))
  {
    ItemsAgree(L, x, exec, s, items, 0, 0);
    ListsMean(L, x, s.store, items, 0, 0);
  }

  /** `a && b`, `a || b` and `a; b`. */
  lemma {:induction false} TwoItems(L: Lang, x: Context, st: Store, a: Item, b: Item, last: int)
    ensures var (o, st1) := EvalItem(L, x, st, a, b.sep == And || b.sep == Or, last);
            EvalItems(L, x, st, [a, b], 0, last) ==
            if !o.Normal? || (b.sep == And && o.status != 0) || (b.sep == Or && o.status == 0) then (o, st1)
            else EvalItem(L, x, st1, b, false, o.status)
  {
    var items := [a, b];
    TreeRuns(L, x, st, items, 0, 1, last);
    assert TreeOf(items, 0, 1) == One(a);
    var (o, st1) := EvalItem(L, x, st, a, Joined(items, 1), last);
    if o.Normal? && Joined(items, 1) {
      TreeRuns(L, x, st, items, 0, 2, last);
      assert TreeOf(items, 0, 2).left == One(a) && TreeOf(items, 0, 2).item == b;
    } else if o.Normal? {
      TreeRuns(L, x, st1, items, 1, 2, o.status);
      assert TreeOf(items, 1, 2) == One(b);
    }
  }

  /**
   `set -e`: a statement that fails ends the shell with its status exactly
   when the option is on, no condition is being tested, and the next item is
   not joined to it by `&&` or `||`; otherwise the list goes on with `$?` set.
   */
  lemma {:induction false} SetE(L: Lang, x: Context, st: Store, items: seq<Item>, i: nat, last: int, c: int, st1: Store)
    requires i < |items| && items[i].node.Simple?
    requires i > 0 ==> !(items[i].sep == And && last != 0) && !(items[i].sep == Or && last == 0)
    requires EvalSimple(L, x, st, items[i]) == (Some(Normal(c)), st1)
    ensures EvalItems(L, x, st, items, i, last) ==
            if c != 0 && st1.errexit && !x.exempt && !Joined(items, i + 1)
            then (Exit(c, c, false, NoCtl, c), st1.(lastCode := c))
            else EvalItems(L, x, st1.(lastCode := c), items, i + 1, c)
  {
    assert EvalItem(L, x, st, items[i], Joined(items, i + 1), last) ==
           Complete(x, st1, Normal(c), Joined(items, i + 1));
  }
}

// Cohen's kappa (scripts/compute_label_agreement.py) over real numbers: the
// confusion matrix counts the pairs, kappa lies between -1 and 1, and it is 1
// exactly when the two labellers never disagree.

module Kappa {
  import opened Wrappers

  /** Row and column `i` belong to class `i`. */
  type Matrix = seq<seq<nat>>

  predicate Square(m: Matrix) {
    forall i :: 0 <= i < |m| ==> |m[i]| == |m|
  }

  // ----- the confusion matrix -----

  type Pair = (nat, nat)

  /** How often the pair occurs. */
  function Occurs(pairs: seq<Pair>, t: nat, p: nat): nat {
    if pairs == [] then 0 else (if pairs[0] == (t, p) then 1 else 0) + Occurs(pairs[1..], t, p)
  }

  predicate Counts(m: Matrix, pairs: seq<Pair>, classes: nat) {
    && |m| == classes && Square(m)
    && forall t, p :: 0 <= t < classes && 0 <= p < classes ==> m[t][p] == Occurs(pairs, t, p)
  }

  lemma {:induction false} OccursOnce(pairs: seq<Pair>, x: Pair, t: nat, p: nat)
    ensures Occurs(pairs + [x], t, p) == Occurs(pairs, t, p) + (if x == (t, p) then 1 else 0)
  {
    if pairs == [] {
      assert pairs + [x] == [x];
    } else {
      assert (pairs + [x])[1..] == pairs[1..] + [x];
      OccursOnce(pairs[1..], x, t, p);
    }
  }

  /** `matrix[true][pred]` counts the pairs; a label that is not a class is an error. */
  method ConfusionMatrix(pairs: seq<Pair>, classes: nat) returns (m: Option<Matrix>)
    ensures m.Some? <==> forall k :: 0 <= k < |pairs| ==> pairs[k].0 < classes && pairs[k].1 < classes
    ensures m.Some? ==> Counts(m.value, pairs, classes)
  {
    var matrix: Matrix := seq(classes, _ => seq(classes, _ => 0));
    for k := 0 to |pairs|
      invariant Counts(matrix, pairs[..k], classes)
      invariant forall i :: 0 <= i < k ==> pairs[i].0 < classes && pairs[i].1 < classes
    {
      var (t, p) := pairs[k];
      if t >= classes || p >= classes {
        return None;
      }
      forall i, j | 0 <= i < classes && 0 <= j < classes
        ensures Occurs(pairs[..k + 1], i, j) == Occurs(pairs[..k], i, j) + (if pairs[k] == (i, j) then 1 else 0)
      {
        assert pairs[..k + 1] == pairs[..k] + [pairs[k]];
        OccursOnce(pairs[..k], pairs[k], i, j);
      }
      matrix := matrix[t := matrix[t][p := matrix[t][p] + 1]];
    }
    assert pairs[..|pairs|] == pairs;
    return Some(matrix);
  }

  // ----- sums over classes -----

  function Sum(s: seq<int>): int {
    if s == [] then 0 else s[0] + Sum(s[1..])
  }

  lemma {:induction false} SumAdds(a: seq<int>, b: seq<int>, c: seq<int>)
    requires |a| == |b| == |c| && forall i :: 0 <= i < |a| ==> c[i] == a[i] + b[i]
    ensures Sum(c) == Sum(a) + Sum(b)
  {
    if a != [] {
      SumAdds(a[1..], b[1..], c[1..]);
    }
  }

  lemma {:induction false} SumScales(k: int, a: seq<int>, b: seq<int>)
    requires |a| == |b| && forall i :: 0 <= i < |a| ==> b[i] == k * a[i]
    ensures Sum(b) == k * Sum(a)
  {
    if a != [] {
      SumScales(k, a[1..], b[1..]);
      assert k * (a[0] + Sum(a[1..])) == k * a[0] + k * Sum(a[1..]);
    }
  }

  /** Smaller terms have a smaller sum, and the same sum only if they are the same terms. */
  lemma {:induction false} SumBelow(a: seq<int>, b: seq<int>)
    requires |a| == |b| && forall i :: 0 <= i < |a| ==> a[i] <= b[i]
    ensures Sum(a) <= Sum(b) && (Sum(a) == Sum(b) <==> a == b)
  {
    if a != [] {
      SumBelow(a[1..], b[1..]);
      assert a == [a[0]] + a[1..] && b == [b[0]] + b[1..];
    }
  }

  function Zeros(n: nat): seq<int> {
    seq(n, _ => 0)
  }

  lemma {:induction false} SumOfZeros(n: nat)
    ensures Sum(Zeros(n)) == 0
  {
    if n > 0 {
      SumOfZeros(n - 1);
      assert Zeros(n)[1..] == Zeros(n - 1);
    }
  }

  lemma {:induction false} SumUpdate(s: seq<int>, k: nat, x: int)
    requires k < |s|
    ensures Sum(s[k := x]) == Sum(s) - s[k] + x
  {
    if k > 0 {
      assert s[k := x][1..] == s[1..][k - 1 := x];
      SumUpdate(s[1..], k - 1, x);
    }
  }

  lemma {:induction false} TermBelowSum(s: seq<nat>, k: nat)
    requires k < |s|
    ensures 0 <= s[k] <= Sum(s)
  {
    SumOfZeros(|s|);
    SumBelow(Zeros(|s|), s[k := 0]);
    SumUpdate(s, k, 0);
  }

  // ----- totals of a matrix -----

  function RowTotals(rows: seq<seq<nat>>): (r: seq<int>)
    ensures |r| == |rows|
  {
    seq(|rows|, i requires 0 <= i < |rows| => Sum(rows[i]))
  }

  predicate Wide(rows: seq<seq<nat>>, k: nat) {
    forall i :: 0 <= i < |rows| ==> |rows[i]| == k
  }

  function Column(rows: seq<seq<nat>>, k: nat, j: nat): (r: seq<nat>)
    requires Wide(rows, k) && j < k
    ensures |r| == |rows| && forall i :: 0 <= i < |rows| ==> r[i] == rows[i][j]
  {
    seq(|rows|, i requires 0 <= i < |rows| => rows[i][j])
  }

  function ColumnTotals(rows: seq<seq<nat>>, k: nat): (r: seq<int>)
    requires Wide(rows, k)
    ensures |r| == k && forall j :: 0 <= j < k ==> r[j] == Sum(Column(rows, k, j))
  {
    seq(k, j requires 0 <= j < k => Sum(Column(rows, k, j)))
  }

  function Diagonal(m: Matrix): (r: seq<nat>)
    requires Square(m)
    ensures |r| == |m| && forall i :: 0 <= i < |m| ==> r[i] == m[i][i]
  {
    seq(|m|, i requires 0 <= i < |m| => m[i][i])
  }

  function Total(m: Matrix): int {
    Sum(RowTotals(m))
  }

  /** Rows first or columns first. */
  lemma {:induction false} TotalsAgree(rows: seq<seq<nat>>, k: nat)
    requires Wide(rows, k)
    ensures Sum(RowTotals(rows)) == Sum(ColumnTotals(rows, k))
  {
    if rows == [] {
      SumOfZeros(k);
      assert ColumnTotals(rows, k) == Zeros(k);
    } else {
      var rest := rows[1..];
      TotalsAgree(rest, k);
      assert RowTotals(rows)[1..] == RowTotals(rest);
      forall j | 0 <= j < k ensures ColumnTotals(rows, k)[j] == rows[0][j] + ColumnTotals(rest, k)[j] {
        assert Column(rows, k, j)[1..] == Column(rest, k, j);
      }
      SumAdds(rows[0], ColumnTotals(rest, k), ColumnTotals(rows, k));
    }
  }

  /** Row `i`, column `i` and the rest of the diagonal do not overlap. */
  lemma {:induction false} CrossFits(m: Matrix, i: nat)
    requires Square(m) && i < |m|
    ensures var k := |m|;
      RowTotals(m)[i] + ColumnTotals(m, k)[i] + Sum(Diagonal(m)) <= Total(m) + 2 * m[i][i]
  {
    var k, r, d, col := |m|, RowTotals(m), Diagonal(m), Column(m, |m|, i);
    var both: seq<int> := seq(k, t requires 0 <= t < k => col[t] + d[t]);
    SumAdds(col, d, both);
    var cross := both[i := r[i]];
    forall t | 0 <= t < k ensures cross[t] <= r[t] {
      if t != i {
        TwoTerms(m[t], i, t);
      }
    }
    SumBelow(cross, r);
    SumUpdate(both, i, r[i]);
  }

  lemma {:induction false} TwoTerms(s: seq<nat>, i: nat, j: nat)
    requires i < |s| && j < |s| && i != j
    ensures s[i] + s[j] <= Sum(s)
  {
    SumUpdate(s, i, 0);
    TermBelowSum(s[i := 0], j);
  }

  // ----- the bound, in whole numbers -----

  function Products(a: seq<int>, b: seq<int>): (r: seq<int>)
    requires |a| == |b|
    ensures |r| == |a| && forall i :: 0 <= i < |a| ==> r[i] == a[i] * b[i]
  {
    seq(|a|, i requires 0 <= i < |a| => a[i] * b[i])
  }

  /** Four times a product is at most the square of the sum. */
  lemma {:induction false} SquareBound(r: int, c: int)
    ensures 4 * (r * c) <= (r + c) * (r + c)
  {
    var e := r - c;
    assert e * e >= 0;
    assert (r + c) * (r + c) == e * e + 4 * (r * c);
  }

  lemma {:induction false} Monotone(k: int, a: int, b: int)
    requires k >= 0 && a <= b
    ensures k * a <= k * b
  {
  }

  lemma {:induction false} Spread(x: int, f: int, d: int)
    ensures x * (f + 2 * d) == x * f + 2 * (d * x)
  {
  }

  /** The two totals of a class, its diagonal cell, the total and the diagonal's. */
  lemma {:induction false} ProductBound(r: int, c: int, d: int, n: int, t: int)
    requires 0 <= d <= r && 0 <= d <= c && r + c + t <= n + 2 * d && d <= t
    ensures 4 * (r * c) <= (r + c) * (n - t) + 2 * (d * n) + 2 * (d * t)
  {
    var x, f := r + c, n - t;
    SquareBound(r, c);
    Monotone(x, x, f + 2 * d);
    Spread(x, f, d);
    Monotone(d, x, n + t);
    assert d * (n + t) == d * n + d * t;
  }

  /** With `r` and `c` the totals and `d` the diagonal: the sum of the products is bounded. */
  lemma {:induction false} ProductsBound(r: seq<int>, c: seq<int>, d: seq<int>, n: int, t: int)
    requires |r| == |c| == |d|
    requires forall i :: 0 <= i < |r| ==>
      0 <= d[i] <= r[i] && d[i] <= c[i] && r[i] + c[i] + t <= n + 2 * d[i] && d[i] <= t
    ensures 4 * Sum(Products(r, c)) <= (Sum(r) + Sum(c)) * (n - t) + 2 * (Sum(d) * n) + 2 * (Sum(d) * t)
    decreases |r|
  {
    if r == [] {
      assert Products(r, c) == [];
    } else {
      ProductsBound(r[1..], c[1..], d[1..], n, t);
      assert Products(r, c)[1..] == Products(r[1..], c[1..]);
      ProductBound(r[0], c[0], d[0], n, t);
      Gather(r[0] + c[0], Sum(r[1..]) + Sum(c[1..]), n - t);
      Gather(d[0], Sum(d[1..]), n);
      Gather(d[0], Sum(d[1..]), t);
    }
  }

  lemma {:induction false} Gather(a: int, b: int, k: int)
    ensures (a + b) * k == a * k + b * k
  {
  }

  /** What chance agreement multiplies out to: the row and column totals of each class. */
  function Chance(m: Matrix): int
    requires Square(m)
  {
    Sum(Products(RowTotals(m), ColumnTotals(m, |m|)))
  }

  function Agreed(m: Matrix): int
    requires Square(m)
  {
    Sum(Diagonal(m))
  }

  lemma {:induction false} TotalsBounds(m: Matrix, i: nat)
    requires Square(m) && i < |m|
    ensures var r, c, d := RowTotals(m)[i], ColumnTotals(m, |m|)[i], m[i][i];
      0 <= d <= r && d <= c && d <= Agreed(m) && r + c + Agreed(m) <= Total(m) + 2 * d
  {
    TermBelowSum(m[i], i);
    TermBelowSum(Column(m, |m|, i), i);
    TermBelowSum(Diagonal(m), i);
    CrossFits(m, i);
  }

  lemma {:induction false} AgreedBounds(m: Matrix)
    requires Square(m)
    ensures 0 <= Agreed(m) <= Total(m)
  {
    var d, r := Diagonal(m), RowTotals(m);
    forall i | 0 <= i < |m| ensures 0 <= d[i] <= r[i] {
      TermBelowSum(m[i], i);
    }
    SumBelow(d, r);
    SumOfZeros(|m|);
    SumBelow(Zeros(|m|), d);
  }

  /** Twice the chance agreement is at most 1 plus the observed one. */
  lemma {:induction false} ChanceBound(m: Matrix)
    requires Square(m)
    ensures var n, t := Total(m), Agreed(m); 2 * Chance(m) <= n * n + n * t
  {
    var n, t, r, c := Total(m), Agreed(m), RowTotals(m), ColumnTotals(m, |m|);
    TotalsAgree(m, |m|);
    AgreedBounds(m);
    forall i | 0 <= i < |m|
      ensures 0 <= Diagonal(m)[i] <= r[i] && Diagonal(m)[i] <= c[i] && Diagonal(m)[i] <= t
      ensures r[i] + c[i] + t <= n + 2 * Diagonal(m)[i]
    {
      TotalsBounds(m, i);
    }
    ProductsBound(r, c, Diagonal(m), n, t);
    Halve(Chance(m), n, t);
  }

  lemma {:induction false} Halve(s: int, n: int, t: int)
    requires 0 <= t <= n && 4 * s <= (n + n) * (n - t) + 2 * (t * n) + 2 * (t * t)
    ensures 2 * s <= n * n + n * t
  {
    assert (n + n) * (n - t) == 2 * (n * n) - 2 * (t * n);
    Monotone(t, t, n);
  }

  // ----- when the labellers never disagree, and when kappa is undefined -----

  predicate NeverDisagree(m: Matrix)
    requires Square(m)
  {
    forall i, j :: 0 <= i < |m| && 0 <= j < |m| && i != j ==> m[i][j] == 0
  }

  lemma {:induction false} OnlyTerm(s: seq<nat>, k: nat)
    requires k < |s|
    ensures Sum(s) == s[k] <==> forall j :: 0 <= j < |s| && j != k ==> s[j] == 0
  {
    if forall j :: 0 <= j < |s| && j != k ==> s[j] == 0 {
      SumOfZeros(|s|);
      SumUpdate(Zeros(|s|), k, s[k]);
      assert Zeros(|s|)[k := s[k]] == s;
    } else {
      var j :| 0 <= j < |s| && j != k && s[j] != 0;
      TwoTerms(s, k, j);
    }
  }

  lemma {:induction false} AllAgreed(m: Matrix)
    requires Square(m)
    ensures Agreed(m) == Total(m) <==> NeverDisagree(m)
  {
    var d: seq<int>, r := Diagonal(m), RowTotals(m);
    forall i | 0 <= i < |m|
      ensures d[i] <= r[i]
      ensures r[i] == d[i] <==> forall j :: 0 <= j < |m| && j != i ==> m[i][j] == 0
    {
      TermBelowSum(m[i], i);
      OnlyTerm(m[i], i);
    }
    SumBelow(d, r);
    assert d == r <==> forall i :: 0 <= i < |m| ==> d[i] == r[i];
  }

  /** All pairs are the same class twice. */
  predicate OneClass(m: Matrix)
    requires Square(m)
  {
    exists c :: 0 <= c < |m| && m[c][c] == Total(m)
  }

  function Scaled(n: int, r: seq<int>): (s: seq<int>)
    ensures |s| == |r| && forall i :: 0 <= i < |r| ==> s[i] == n * r[i]
  {
    seq(|r|, i requires 0 <= i < |r| => n * r[i])
  }

  /** Products with totals that stay within `n`, against `n` itself. */
  lemma {:induction false} ProductsFit(r: seq<int>, c: seq<int>, n: int)
    requires |r| == |c| && Sum(r) == n && forall i :: 0 <= i < |r| ==> 0 <= r[i] && c[i] <= n
    ensures Sum(Products(r, c)) <= n * n
    ensures Sum(Products(r, c)) == n * n ==> forall i :: 0 <= i < |r| ==> r[i] == 0 || c[i] == n
  {
    var p, q := Products(r, c), Scaled(n, r);
    SumScales(n, r, q);
    forall i | 0 <= i < |r| ensures p[i] <= q[i] && (p[i] == q[i] ==> r[i] == 0 || c[i] == n) {
      Monotone(r[i], c[i], n);
      CancelIf(r[i], c[i], n);
    }
    SumBelow(p, q);
  }

  lemma {:induction false} CancelIf(r: int, c: int, n: int)
    ensures r * c == n * r ==> r == 0 || c == n
  {
    assert r * (c - n) == r * c - n * r;
  }

  lemma {:induction false} OneClassIsCertain(m: Matrix, x: nat)
    requires Square(m) && x < |m| && m[x][x] == Total(m)
    ensures Chance(m) >= Total(m) * Total(m)
  {
    var r, c := RowTotals(m), ColumnTotals(m, |m|);
    forall i | 0 <= i < |m| ensures Products(r, c)[i] >= 0 {
      TotalsInRange(m, i);
    }
    TotalsBounds(m, x);
    TotalsInRange(m, x);
    var products: seq<nat> := Products(r, c);
    TermBelowSum(products, x);
  }

  lemma {:induction false} ChanceIsCertain(m: Matrix)
    requires Square(m) && Total(m) > 0
    ensures Chance(m) <= Total(m) * Total(m)
    ensures Chance(m) == Total(m) * Total(m) <==> OneClass(m)
  {
    var n, r, c := Total(m), RowTotals(m), ColumnTotals(m, |m|);
    forall i | 0 <= i < |m| ensures 0 <= r[i] && c[i] <= n {
      TotalsInRange(m, i);
    }
    ProductsFit(r, c, n);
    if Chance(m) == n * n {
      OneColumn(m);
    } else if OneClass(m) {
      var x :| 0 <= x < |m| && m[x][x] == n;
      OneClassIsCertain(m, x);
    }
  }

  lemma {:induction false} TotalsInRange(m: Matrix, i: nat)
    requires Square(m) && i < |m|
    ensures 0 <= RowTotals(m)[i] <= Total(m) && 0 <= ColumnTotals(m, |m|)[i] <= Total(m)
  {
    TotalsBounds(m, i);
    AgreedBounds(m);
  }

  lemma {:induction false} SomeTerm(s: seq<int>) returns (k: nat)
    requires Sum(s) != 0
    ensures k < |s| && s[k] != 0
  {
    if s[0] != 0 {
      k := 0;
    } else {
      k := SomeTerm(s[1..]);
      k := k + 1;
    }
  }

  /** If every row that is not empty has its column full, one cell of the diagonal holds everything. */
  lemma {:induction false} OneColumn(m: Matrix)
    requires Square(m) && Total(m) > 0
    requires forall i :: 0 <= i < |m| ==> RowTotals(m)[i] == 0 || ColumnTotals(m, |m|)[i] == Total(m)
    ensures OneClass(m)
  {
    var n, r, c := Total(m), RowTotals(m), ColumnTotals(m, |m|);
    var x := SomeTerm(r);
    TotalsAgree(m, |m|);
    forall i | 0 <= i < |m| ensures r[i] >= 0 && c[i] >= 0 {
      TotalsInRange(m, i);
    }
    var rows: seq<nat>, columns: seq<nat> := r, c;
    OnlyTerm(columns, x);
    forall j | 0 <= j < |m| && j != x ensures rows[j] == 0 {
      assert columns[j] == 0;
    }
    OnlyTerm(rows, x);
    TotalsBounds(m, x);
    AgreedBounds(m);
  }

  // ----- kappa -----

  function SumReal(s: seq<real>): real {
    if s == [] then 0.0 else s[0] + SumReal(s[1..])
  }

  /** `(row_totals[c] / n) * (col_totals[c] / n)` */
  function ShareOf(r: int, c: int, n: int): real
    requires n > 0
  {
    (r as real / n as real) * (c as real / n as real)
  }

  function Shares(r: seq<int>, c: seq<int>, n: int): (s: seq<real>)
    requires |r| == |c| && n > 0
    ensures |s| == |r| && forall i :: 0 <= i < |r| ==> s[i] == ShareOf(r[i], c[i], n)
  {
    seq(|r|, i requires 0 <= i < |r| => ShareOf(r[i], c[i], n))
  }

  function Observed(m: Matrix): real
    requires Square(m) && Total(m) > 0
  {
    Agreed(m) as real / Total(m) as real
  }

  function Expected(m: Matrix): real
    requires Square(m) && Total(m) > 0
  {
    SumReal(Shares(RowTotals(m), ColumnTotals(m, |m|), Total(m)))
  }

  /** `cohens_kappa`; `None` is not a number. */
  function CohensKappa(m: Matrix): Option<real>
    requires Square(m) && Total(m) >= 0
  {
    if Total(m) == 0 then None
    else if Expected(m) == 1.0 then None
    else Some((Observed(m) - Expected(m)) / (1.0 - Expected(m)))
  }

  lemma {:induction false} SharesSum(r: seq<int>, c: seq<int>, n: int, z: int)
    requires |r| == |c| && n > 0 && z == n * n && z > 0
    ensures SumReal(Shares(r, c, n)) == Sum(Products(r, c)) as real / z as real
    decreases |r|
  {
    if r == [] {
      assert Products(r, c) == [];
    } else {
      SharesSum(r[1..], c[1..], n, z);
      FirstShare(r, c, n);
      Share(r[0], c[0], n);
      AddFractions(r[0] * c[0], Sum(Products(r[1..], c[1..])), z);
    }
  }

  lemma {:induction false} FirstShare(r: seq<int>, c: seq<int>, n: int)
    requires |r| == |c| && r != [] && n > 0
    ensures SumReal(Shares(r, c, n)) == ShareOf(r[0], c[0], n) + SumReal(Shares(r[1..], c[1..], n))
    ensures Sum(Products(r, c)) == r[0] * c[0] + Sum(Products(r[1..], c[1..]))
  {
    assert Shares(r, c, n)[1..] == Shares(r[1..], c[1..], n);
    assert Products(r, c)[1..] == Products(r[1..], c[1..]);
  }

  lemma {:induction false} Share(r: int, c: int, n: int)
    requires n > 0
    ensures n * n > 0 && ShareOf(r, c, n) == (r * c) as real / (n * n) as real
  {
    var x, y, z := r as real, c as real, n as real;
    assert (r * c) as real == x * y && (n * n) as real == z * z;
    assert (x / z) * (y / z) * (z * z) == x * y by {
      assert (x / z) * z == x && (y / z) * z == y;
    }
  }

  lemma {:induction false} AddFractions(a: int, b: int, n: int)
    requires n > 0
    ensures a as real / n as real + b as real / n as real == (a + b) as real / n as real
  {
  }

  /**
   Kappa is defined unless there are no pairs or all of them are one class
   twice. It lies between -1 and 1, and it is 1 exactly when the labellers
   never disagree.
   */
  lemma {:induction false} KappaIsBounded(m: Matrix)
    requires Square(m)
    ensures Total(m) >= 0 && (CohensKappa(m).None? <==> Total(m) == 0 || OneClass(m))
    ensures var k := CohensKappa(m);
      k.Some? ==> -1.0 <= k.value <= 1.0 && (k.value == 1.0 <==> NeverDisagree(m))
  {
    AgreedBounds(m);
    var n, t, s := Total(m), Agreed(m), Chance(m);
    if n > 0 {
      Share(n, n, n);
      SharesSum(RowTotals(m), ColumnTotals(m, |m|), n, n * n);
      ChanceBound(m);
      ChanceIsCertain(m);
      AllAgreed(m);
      Ratio(n, t, s);
    }
  }

  /** The arithmetic of kappa: `t` of `n` agree, and chance agreement is `s` in `n * n`. */
  lemma {:induction false} Ratio(n: int, t: int, s: int)
    requires n > 0 && 0 <= t <= n && s <= n * n && 2 * s <= n * n + n * t
    ensures var po, pe := t as real / n as real, s as real / (n * n) as real;
      && (pe == 1.0 <==> s == n * n)
      && (pe != 1.0 ==>
            var k := (po - pe) / (1.0 - pe);
            -1.0 <= k <= 1.0 && (k == 1.0 <==> t == n))
  {
    var po, pe := t as real / n as real, s as real / (n * n) as real;
    var z := (n * n) as real;
    assert pe * z == s as real;
    Share(t, n, n);
    assert po == (t * n) as real / z;
    assert po * z == (t * n) as real;
    if pe != 1.0 {
      Quotient(po, pe, z, (t * n) as real, s as real);
      Monotone(n, t, n);
      CancelIf(n, t, n);
    }
  }

  lemma {:induction false} Compare(a: real, b: real, z: real)
    requires z > 0.0
    ensures a * z <= b * z <==> a <= b
  {
    assert (b - a) * z == b * z - a * z;
  }

  lemma {:induction false} Quotient(po: real, pe: real, z: real, a: real, b: real)
    requires z > 0.0 && po * z == a && pe * z == b && pe != 1.0 && b <= z
    requires a <= z && 2.0 * b <= z + a
    ensures var k := (po - pe) / (1.0 - pe); -1.0 <= k <= 1.0 && (k == 1.0 <==> a == z)
  {
    Compare(pe, 1.0, z);
    Compare(po, 1.0, z);
    Compare(1.0, po, z);
    assert (2.0 * pe) * z == 2.0 * b && (1.0 + po) * z == z + a;
    Compare(2.0 * pe, 1.0 + po, z);
    var k, w := (po - pe) / (1.0 - pe), 1.0 - pe;
    assert k * w == po - pe;
    Compare(k, 1.0, w);
    Compare(1.0, k, w);
    Compare(-1.0, k, w);
  }
}

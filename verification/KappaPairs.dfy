// Kappa in terms of the pairs of labels themselves: how many there are, how
// many agree, and how often each labeller used each class.

module KappaPairs {
  import opened Wrappers
  import opened Kappa

  function Agreeing(pairs: seq<Pair>): nat {
    if pairs == [] then 0 else Agreeing(pairs[1..]) + if pairs[0].0 == pairs[0].1 then 1 else 0
  }

  /** How often the first labeller chose the class. */
  function FirstChose(pairs: seq<Pair>, c: nat): nat {
    if pairs == [] then 0 else FirstChose(pairs[1..], c) + if pairs[0].0 == c then 1 else 0
  }

  function SecondChose(pairs: seq<Pair>, c: nat): nat {
    if pairs == [] then 0 else SecondChose(pairs[1..], c) + if pairs[0].1 == c then 1 else 0
  }

  /** The products of the two labellers' totals, for the classes below k. */
  function ByChance(pairs: seq<Pair>, k: nat): nat {
    if k == 0 then 0 else ByChance(pairs, k - 1) + FirstChose(pairs, k - 1) * SecondChose(pairs, k - 1)
  }

  predicate Labels(pairs: seq<Pair>, classes: nat) {
    forall k :: 0 <= k < |pairs| ==> pairs[k].0 < classes && pairs[k].1 < classes
  }

  // ----- counting cells counts pairs -----

  /** The cells of one row, one column or the diagonal, as the pairs fill them. */
  function RowOf(pairs: seq<Pair>, t: nat, n: nat): (s: seq<int>)
    ensures |s| == n && forall p :: 0 <= p < n ==> s[p] == Occurs(pairs, t, p)
  {
    seq(n, p requires 0 <= p < n => Occurs(pairs, t, p))
  }

  function ColumnOf(pairs: seq<Pair>, p: nat, n: nat): (s: seq<int>)
    ensures |s| == n && forall t :: 0 <= t < n ==> s[t] == Occurs(pairs, t, p)
  {
    seq(n, t requires 0 <= t < n => Occurs(pairs, t, p))
  }

  function DiagonalOf(pairs: seq<Pair>, n: nat): (s: seq<int>)
    ensures |s| == n && forall c :: 0 <= c < n ==> s[c] == Occurs(pairs, c, c)
  {
    seq(n, c requires 0 <= c < n => Occurs(pairs, c, c))
  }

  function FirstsOf(pairs: seq<Pair>, n: nat): (s: seq<int>)
    ensures |s| == n && forall c :: 0 <= c < n ==> s[c] == FirstChose(pairs, c)
  {
    seq(n, c requires 0 <= c < n => FirstChose(pairs, c))
  }

  lemma {:induction false} RowCounts(pairs: seq<Pair>, t: nat, n: nat)
    requires Labels(pairs, n)
    ensures Sum(RowOf(pairs, t, n)) == FirstChose(pairs, t)
  {
    if pairs == [] {
      SumOfZeros(n);
      assert RowOf(pairs, t, n) == Zeros(n);
    } else {
      RowCounts(pairs[1..], t, n);
      var p := pairs[0].1;
      var rest := RowOf(pairs[1..], t, n);
      var add := if pairs[0].0 == t then 1 else 0;
      assert RowOf(pairs, t, n) == rest[p := rest[p] + add];
      SumUpdate(rest, p, rest[p] + add);
    }
  }

  lemma {:induction false} ColumnCounts(pairs: seq<Pair>, p: nat, n: nat)
    requires Labels(pairs, n)
    ensures Sum(ColumnOf(pairs, p, n)) == SecondChose(pairs, p)
  {
    if pairs == [] {
      SumOfZeros(n);
      assert ColumnOf(pairs, p, n) == Zeros(n);
    } else {
      ColumnCounts(pairs[1..], p, n);
      var t := pairs[0].0;
      var rest := ColumnOf(pairs[1..], p, n);
      var add := if pairs[0].1 == p then 1 else 0;
      assert ColumnOf(pairs, p, n) == rest[t := rest[t] + add];
      SumUpdate(rest, t, rest[t] + add);
    }
  }

  lemma {:induction false} DiagonalCounts(pairs: seq<Pair>, n: nat)
    requires Labels(pairs, n)
    ensures Sum(DiagonalOf(pairs, n)) == Agreeing(pairs)
  {
    if pairs == [] {
      SumOfZeros(n);
      assert DiagonalOf(pairs, n) == Zeros(n);
    } else {
      DiagonalCounts(pairs[1..], n);
      var c := pairs[0].0;
      var rest := DiagonalOf(pairs[1..], n);
      var add := if pairs[0].0 == pairs[0].1 then 1 else 0;
      assert DiagonalOf(pairs, n) == rest[c := rest[c] + add];
      SumUpdate(rest, c, rest[c] + add);
    }
  }

  lemma {:induction false} FirstsCount(pairs: seq<Pair>, n: nat)
    requires Labels(pairs, n)
    ensures Sum(FirstsOf(pairs, n)) == |pairs|
  {
    if pairs == [] {
      SumOfZeros(n);
      assert FirstsOf(pairs, n) == Zeros(n);
    } else {
      FirstsCount(pairs[1..], n);
      var c := pairs[0].0;
      var rest := FirstsOf(pairs[1..], n);
      assert FirstsOf(pairs, n) == rest[c := rest[c] + 1];
      SumUpdate(rest, c, rest[c] + 1);
    }
  }

  lemma {:induction false} TotalsCount(m: Matrix, pairs: seq<Pair>, n: nat)
    requires Counts(m, pairs, n) && Labels(pairs, n)
    ensures Total(m) == |pairs| && Agreed(m) == Agreeing(pairs)
    ensures forall c :: 0 <= c < n ==> RowTotals(m)[c] == FirstChose(pairs, c)
    ensures forall c :: 0 <= c < n ==> ColumnTotals(m, n)[c] == SecondChose(pairs, c)
  {
    forall c | 0 <= c < n
      ensures RowTotals(m)[c] == FirstChose(pairs, c) && ColumnTotals(m, n)[c] == SecondChose(pairs, c)
    {
      RowCounts(pairs, c, n);
      assert RowOf(pairs, c, n) == m[c];
      ColumnCounts(pairs, c, n);
      assert ColumnOf(pairs, c, n) == Column(m, n, c);
    }
    FirstsCount(pairs, n);
    assert RowTotals(m) == FirstsOf(pairs, n);
    DiagonalCounts(pairs, n);
    assert DiagonalOf(pairs, n) == Diagonal(m);
  }

  lemma {:induction false} SumLast(s: seq<int>)
    requires s != []
    ensures Sum(s) == Sum(s[..|s| - 1]) + s[|s| - 1]
  {
    if |s| > 1 {
      SumLast(s[1..]);
      assert s[1..][..|s| - 2] == s[..|s| - 1][1..];
    }
  }

  lemma {:induction false} ChanceCounts(pairs: seq<Pair>, r: seq<int>, c: seq<int>, k: nat)
    requires |r| == |c| && k <= |r|
    requires forall i :: 0 <= i < |r| ==> r[i] == FirstChose(pairs, i) && c[i] == SecondChose(pairs, i)
    ensures Sum(Products(r, c)[..k]) == ByChance(pairs, k)
  {
    if k > 0 {
      ChanceCounts(pairs, r, c, k - 1);
      var p := Products(r, c)[..k];
      SumLast(p);
      assert p[..k - 1] == Products(r, c)[..k - 1];
    }
  }

  // ----- kappa -----

  /**
   For `n` pairs of which `a` agree and with `s` the sum of the products of the
   labellers' totals, kappa is (n a - s) / (n n - s), and not a number exactly
   when there are no pairs or the denominator is 0.
   */
  lemma {:induction false} KappaOfPairs(m: Matrix, pairs: seq<Pair>, classes: nat)
    requires Counts(m, pairs, classes) && Labels(pairs, classes)
    ensures var n, a, s := |pairs|, Agreeing(pairs), ByChance(pairs, classes);
            && Total(m) >= 0 && (CohensKappa(m).None? <==> n == 0 || n * n == s)
            && (CohensKappa(m).Some? ==> CohensKappa(m).value * (n * n - s) as real == (n * a - s) as real)
  {
    var n, a, s := |pairs|, Agreeing(pairs), ByChance(pairs, classes);
    if n == 0 {
      TotalsCount(m, pairs, classes);
      NoChance(pairs, classes);
    } else {
      KappaParts(m, pairs, classes, n, n * n, n * a, a, s);
    }
  }

  lemma {:induction false} NoChance(pairs: seq<Pair>, k: nat)
    requires pairs == []
    ensures ByChance(pairs, k) == 0
  {
    if k > 0 {
      NoChance(pairs, k - 1);
    }
  }

  lemma {:induction false} KappaParts(m: Matrix, pairs: seq<Pair>, classes: nat, n: int, z: int, b: int, a: int, s: int)
    requires Counts(m, pairs, classes) && Labels(pairs, classes) && n == |pairs| > 0 && z == n * n && b == n * a
    requires a == Agreeing(pairs) && s == ByChance(pairs, classes)
    ensures Total(m) == n && (CohensKappa(m).None? <==> z == s)
    ensures CohensKappa(m).Some? ==> CohensKappa(m).value * (z - s) as real == (b - s) as real
  {
    SharesCount(m, pairs, classes, z);
    KappaValue(m, n, z, b, a, s);
  }

  lemma {:induction false} SharesCount(m: Matrix, pairs: seq<Pair>, classes: nat, z: int)
    requires Counts(m, pairs, classes) && Labels(pairs, classes) && pairs != [] && z == |pairs| * |pairs|
    ensures Total(m) == |pairs| && z > 0
    ensures Observed(m) == Agreeing(pairs) as real / |pairs| as real
    ensures Expected(m) == ByChance(pairs, classes) as real / z as real
  {
    TotalsCount(m, pairs, classes);
    var r, c := RowTotals(m), ColumnTotals(m, classes);
    ChanceCounts(pairs, r, c, classes);
    assert Products(r, c)[..classes] == Products(r, c);
    Share(|pairs|, |pairs|, |pairs|);
    SharesSum(r, c, |pairs|, z);
  }

  lemma {:induction false} KappaValue(m: Matrix, n: int, z: int, b: int, a: int, s: int)
    requires Square(m) && Total(m) == n && n > 0 && z == n * n && z > 0 && b == n * a
    requires Observed(m) == a as real / n as real && Expected(m) == s as real / z as real
    ensures CohensKappa(m).None? <==> z == s
    ensures CohensKappa(m).Some? ==> CohensKappa(m).value * (z - s) as real == (b - s) as real
  {
    KappaArithmetic(Observed(m), Expected(m), n, z, b, a, s);
  }

  lemma {:induction false} KappaArithmetic(po: real, pe: real, n: int, z: int, b: int, a: int, s: int)
    requires n > 0 && z == n * n && z > 0 && b == n * a && po == a as real / n as real && pe == s as real / z as real
    ensures pe == 1.0 <==> z == s
    ensures pe != 1.0 ==> (po - pe) / (1.0 - pe) * (z - s) as real == (b - s) as real
  {
    SamePart(n, a, z, b);
    WholePart(s, z);
    ScaledUp(po, pe, z as real, b as real, s as real);
  }

  lemma {:induction false} WholePart(s: int, z: int)
    requires z > 0
    ensures s as real / z as real * z as real == s as real
  {
  }

  lemma {:induction false} ScaledUp(po: real, pe: real, z: real, b: real, s: real)
    requires z > 0.0 && po * z == b && pe * z == s
    ensures pe == 1.0 <==> z == s
    ensures pe != 1.0 ==> (po - pe) / (1.0 - pe) * (z - s) == b - s
  {
    assert (1.0 - pe) * z == z - s;
    if pe != 1.0 {
      Scale(po, pe, z, b, s);
    }
  }

  lemma {:induction false} SamePart(n: int, a: int, z: int, b: int)
    requires n > 0 && z == n * n && b == n * a && z > 0
    ensures a as real / n as real * z as real == b as real
  {
    var x := a as real / n as real;
    assert x * n as real == a as real;
    assert (n * n) as real == n as real * n as real && (n * a) as real == n as real * a as real;
    assert x * (n as real * n as real) == (x * n as real) * n as real;
  }

  lemma {:induction false} Scale(po: real, pe: real, z: real, a: real, s: real)
    requires po * z == a && pe * z == s && pe != 1.0
    ensures (po - pe) / (1.0 - pe) * (z - s) == a - s
  {
    var k := (po - pe) / (1.0 - pe);
    assert k * (1.0 - pe) == po - pe;
    assert (1.0 - pe) * z == z - s && (po - pe) * z == a - s;
    assert k * ((1.0 - pe) * z) == (k * (1.0 - pe)) * z;
  }
}

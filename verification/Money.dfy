/** Amounts in exact reals, rounded half to even as Python rounds, and the minor
    units that an invoice is made of. */
module Money {
  function RoundHalfEven(x: real): int {
    var f := x.Floor;
    var d := x - f as real;
    if d < 0.5 then f
    else if d > 0.5 then f + 1
    else if f % 2 == 0 then f
    else f + 1
  }

  // round(x, 2)
  function Round2(x: real): real { RoundHalfEven(x * 100.0) as real / 100.0 }

  // int(round(amount * 100))
  function MinorUnits(amount: real): int { RoundHalfEven(amount * 100.0) }

  predicate WholeCents(x: real) { (x * 100.0).Floor as real == x * 100.0 }

  function Abs(x: real): real { if x < 0.0 then -x else x }

  lemma RoundingError(x: real)
    ensures Abs(RoundHalfEven(x) as real - x) <= 0.5
    ensures x.Floor as real == x ==> RoundHalfEven(x) as real == x
  {}

  // The one nearest integer, or the even one of two.
  lemma RoundsHalfToEven(x: real, r: int)
    ensures r == RoundHalfEven(x) <==> Abs(r as real - x) < 0.5 || (Abs(r as real - x) == 0.5 && r % 2 == 0)
  {
    RoundingError(x);
    var f := x.Floor;
    assert r <= f - 1 || r == f || r == f + 1 || f + 2 <= r;
  }

  function Sum(xs: seq<real>): real {
    if xs == [] then 0.0 else Sum(xs[..|xs|-1]) + xs[|xs|-1]
  }

  // The lines that are invoiced: those above zero.
  function Billable(xs: seq<real>): seq<real> {
    if xs == [] then []
    else if xs[|xs|-1] > 0.0 then Billable(xs[..|xs|-1]) + [xs[|xs|-1]]
    else Billable(xs[..|xs|-1])
  }

  lemma {:induction false} NothingBillable(xs: seq<real>)
    ensures Billable(xs) == [] <==> forall i :: 0 <= i < |xs| ==> xs[i] <= 0.0
  {
    if xs != [] {
      var n := |xs| - 1;
      NothingBillable(xs[..n]);
      assert forall i :: 0 <= i < n ==> xs[..n][i] == xs[i];
    }
  }

  // What the invoice adds up to, in minor units.
  function InvoicedMinor(xs: seq<real>): int {
    if xs == [] then 0
    else InvoicedMinor(xs[..|xs|-1]) + (if xs[|xs|-1] > 0.0 then MinorUnits(xs[|xs|-1]) else 0)
  }

  function Total(items: seq<int>): int {
    if items == [] then 0 else Total(items[..|items|-1]) + items[|items|-1]
  }

  // The invoice items, created one at a time: one for each line above zero, in
  // order, each rounded on its own; together they are the invoice.
  method CreateInvoiceItems(lines: seq<real>) returns (items: seq<int>)
    ensures |items| == |Billable(lines)|
    ensures forall i :: 0 <= i < |items| ==> items[i] == MinorUnits(Billable(lines)[i])
    ensures Total(items) == InvoicedMinor(lines)
  {
    items := [];
    var i := 0;
    while i < |lines|
      invariant 0 <= i <= |lines|
      invariant |items| == |Billable(lines[..i])|
      invariant forall j :: 0 <= j < |items| ==> items[j] == MinorUnits(Billable(lines[..i])[j])
      invariant Total(items) == InvoicedMinor(lines[..i])
    {
      assert lines[..i + 1][..i] == lines[..i];
      if lines[i] > 0.0 {
        ghost var before := items;
        items := items + [MinorUnits(lines[i])];
        assert items[..|items|-1] == before;
      }
      i := i + 1;
    }
    assert lines[..i] == lines;
  }

  lemma SumAppend(xs: seq<real>, x: real)
    ensures Sum(xs + [x]) == Sum(xs) + x
  {
    assert (xs + [x])[..|xs|] == xs;
  }

  // Dropping the lines that are not above zero leaves the sum as it is, exactly
  // when no line is negative.
  lemma {:induction false} BillableSum(xs: seq<real>)
    ensures Sum(Billable(xs)) >= Sum(xs)
    ensures Sum(Billable(xs)) == Sum(xs) <==> forall i :: 0 <= i < |xs| ==> xs[i] >= 0.0
  {
    if xs != [] {
      var front, last := xs[..|xs|-1], xs[|xs|-1];
      BillableSum(front);
      SumAppend(Billable(front), last);
      assert forall i :: 0 <= i < |front| ==> front[i] == xs[i];
    }
  }

  lemma {:induction false} InvoiceError(xs: seq<real>)
    ensures Abs(InvoicedMinor(xs) as real - 100.0 * Sum(Billable(xs))) <= |Billable(xs)| as real / 2.0
    ensures (forall i :: 0 <= i < |xs| ==> WholeCents(xs[i])) ==> InvoicedMinor(xs) as real == 100.0 * Sum(Billable(xs))
    ensures |Billable(xs)| <= |xs|
  {
    if xs != [] {
      var front, last := xs[..|xs|-1], xs[|xs|-1];
      InvoiceError(front);
      SumAppend(Billable(front), last);
      RoundingError(last * 100.0);
      assert forall i :: 0 <= i < |front| ==> front[i] == xs[i];
    }
  }

  // The minor units of an invoice over n lines differ from 100 times the displayed
  // total by at most (n + 1) / 2, and not at all for whole-cent prices.
  lemma InvoiceVersusDisplay(xs: seq<real>)
    requires forall i :: 0 <= i < |xs| ==> xs[i] >= 0.0
    ensures Abs(InvoicedMinor(xs) as real - 100.0 * Round2(Sum(xs))) <= (|Billable(xs)| + 1) as real / 2.0
    ensures (forall i :: 0 <= i < |xs| ==> WholeCents(xs[i])) ==> InvoicedMinor(xs) as real == 100.0 * Round2(Sum(xs))
  {
    InvoiceError(xs);
    BillableSum(xs);
    RoundingError(Sum(xs) * 100.0);
    if forall i :: 0 <= i < |xs| ==> WholeCents(xs[i]) { WholeCentSum(xs); }
  }

  lemma WholeCentsAdd(x: real, y: real)
    requires WholeCents(x) && WholeCents(y)
    ensures WholeCents(x + y)
  {
    assert (x + y) * 100.0 == ((x * 100.0).Floor + (y * 100.0).Floor) as real;
  }

  lemma {:induction false} WholeCentSum(xs: seq<real>)
    requires forall i :: 0 <= i < |xs| ==> WholeCents(xs[i])
    ensures WholeCents(Sum(xs))
  {
    if xs != [] {
      WholeCentSum(xs[..|xs|-1]);
      WholeCentsAdd(Sum(xs[..|xs|-1]), xs[|xs|-1]);
    }
  }

  // n times an amount.
  function Repeated(x: real, n: nat): real { x * n as real }

  lemma RepeatedStep(x: real, n: nat)
    ensures Repeated(x, 0) == 0.0
    ensures Repeated(x, n + 1) == Repeated(x, n) + x
  {
    assert (n + 1) as real == n as real + 1.0;
    assert x * (n as real + 1.0) == x * n as real + x;
  }

  lemma {:induction false} WholeCentsRepeated(x: real, n: nat)
    requires WholeCents(x)
    ensures WholeCents(Repeated(x, n))
  {
    if n > 0 {
      WholeCentsRepeated(x, n - 1);
      RepeatedStep(x, n - 1);
      WholeCentsAdd(Repeated(x, n - 1), x);
    } else {
      RepeatedStep(x, 0);
    }
  }

  lemma Round2WholeCents(x: real)
    requires WholeCents(x)
    ensures Round2(x) == x
  {
    RoundingError(x * 100.0);
  }

  lemma Round2Error(x: real)
    ensures Abs(Round2(x) - x) <= 0.005
  {
    RoundingError(x * 100.0);
  }
}

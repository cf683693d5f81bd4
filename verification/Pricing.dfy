/** A customer's monthly charge: for each stack in use, the plan's price of it. */
module Pricing {
  import opened Money
  import opened Ingest
  import opened KbUsage

  // One entry of a plan's price list, and one line of the bill.
  datatype Price = Price(stack: Stack, cost: real)
  datatype Line = Line(stack: Stack, kbCount: nat, docCount: int, cost: real)

  // A later entry for the same stack replaces an earlier one.
  function PriceOf(prices: seq<Price>, stack: Stack): real {
    if prices == [] then 0.0
    else if prices[|prices|-1].stack == stack then prices[|prices|-1].cost
    else PriceOf(prices[..|prices|-1], stack)
  }

  function ListPrice(prices: seq<Price>): real {
    if prices == [] then 0.0 else ListPrice(prices[..|prices|-1]) + prices[|prices|-1].cost
  }

  function Lines(prices: seq<Price>, usage: seq<Usage>): seq<Line> {
    if usage == [] then []
    else
      var u := usage[|usage|-1];
      if u.kbCount == 0 then Lines(prices, usage[..|usage|-1])
      else Lines(prices, usage[..|usage|-1]) + [Line(u.stack, u.kbCount, u.docCount, PriceOf(prices, u.stack))]
  }

  function Amounts(lines: seq<Line>): seq<real> { seq(|lines|, i requires 0 <= i < |lines| => lines[i].cost) }

  function MonthlyCharge(prices: seq<Price>, usage: seq<Usage>): real { Sum(Amounts(Lines(prices, usage))) }

  ghost predicate NonNegative(prices: seq<Price>) { forall i :: 0 <= i < |prices| ==> prices[i].cost >= 0.0 }

  // A stack is in use when a usage line reports knowledge bases in it.
  predicate InUse(usage: seq<Usage>, stack: Stack) {
    exists i :: 0 <= i < |usage| && usage[i].stack == stack && usage[i].kbCount != 0
  }

  // The prices of the stacks in use, added up.
  function UsedPrices(prices: seq<Price>, usage: seq<Usage>): real {
    if usage == [] then 0.0
    else
      var u := usage[|usage|-1];
      UsedPrices(prices, usage[..|usage|-1]) + (if u.kbCount == 0 then 0.0 else PriceOf(prices, u.stack))
  }

  // What a customer is spared of the list price, entry by entry: the cost of an
  // entry whose stack is not in use, and the cost of one that a later entry replaces.
  function Spared(prices: seq<Price>, usage: seq<Usage>): real {
    if prices == [] then 0.0
    else
      var front, e := prices[..|prices|-1], prices[|prices|-1];
      Spared(front, usage) + (if InUse(usage, e.stack) then PriceOf(front, e.stack) else e.cost)
  }

  lemma {:induction false} PriceNonNegative(prices: seq<Price>, stack: Stack)
    requires NonNegative(prices)
    ensures PriceOf(prices, stack) >= 0.0
  {
    if prices != [] { PriceNonNegative(prices[..|prices|-1], stack); }
  }

  // A stack costs what its last entry says, and nothing when it has none.
  lemma {:induction false} PriceIsLastEntry(prices: seq<Price>, stack: Stack, i: nat)
    requires i < |prices| ==> prices[i].stack == stack
    requires i <= |prices| && forall j :: 0 <= j < |prices| && prices[j].stack == stack ==> j <= i < |prices|
    ensures PriceOf(prices, stack) == if i < |prices| then prices[i].cost else 0.0
  {
    if prices != [] {
      var n := |prices| - 1;
      if prices[n].stack != stack { PriceIsLastEntry(prices[..n], stack, if i == |prices| then n else i); }
    }
  }

  lemma {:induction false} ChargeIsUsedPrices(prices: seq<Price>, usage: seq<Usage>)
    ensures MonthlyCharge(prices, usage) == UsedPrices(prices, usage)
  {
    if usage != [] {
      var front, u := usage[..|usage|-1], usage[|usage|-1];
      ChargeIsUsedPrices(prices, front);
      if u.kbCount != 0 {
        var x := PriceOf(prices, u.stack);
        assert Amounts(Lines(prices, usage)) == Amounts(Lines(prices, front)) + [x];
        SumAppend(Amounts(Lines(prices, front)), x);
      }
    }
  }

  lemma {:induction false} LinesNonNegative(prices: seq<Price>, usage: seq<Usage>)
    requires NonNegative(prices)
    ensures forall l <- Lines(prices, usage) :: l.cost >= 0.0
  {
    if usage != [] {
      LinesNonNegative(prices, usage[..|usage|-1]);
      PriceNonNegative(prices, usage[|usage|-1].stack);
    }
  }

  lemma AmountsNonNegative(prices: seq<Price>, usage: seq<Usage>)
    requires NonNegative(prices)
    ensures forall i :: 0 <= i < |Amounts(Lines(prices, usage))| ==> Amounts(Lines(prices, usage))[i] >= 0.0
  {
    LinesNonNegative(prices, usage);
    var lines := Lines(prices, usage);
    forall i | 0 <= i < |lines| ensures Amounts(lines)[i] >= 0.0 { assert lines[i] in lines; }
  }

  lemma InUseBefore(usage: seq<Usage>, stack: Stack)
    requires usage != [] && DistinctStacks(usage)
    ensures var us, u := usage[..|usage|-1], usage[|usage|-1];
            && DistinctStacks(us)
            && (InUse(usage, stack) <==> InUse(us, stack) || (u.stack == stack && u.kbCount != 0))
            && (InUse(us, stack) ==> u.stack != stack)
  {
    var us, n := usage[..|usage|-1], |usage| - 1;
    if InUse(us, stack) {
      var i :| 0 <= i < n && us[i].stack == stack && us[i].kbCount != 0;
      assert usage[i] == us[i] && usage[i].stack != usage[n].stack;
    }
    if InUse(usage, stack) && !(usage[n].stack == stack && usage[n].kbCount != 0) {
      var i :| 0 <= i <= n && usage[i].stack == stack && usage[i].kbCount != 0;
      assert us[i] == usage[i];
    }
  }

  // One more entry in the list: a stack in use now costs that entry instead of the
  // one before.
  lemma {:induction false} OneEntryMore(prices: seq<Price>, usage: seq<Usage>)
    requires prices != [] && DistinctStacks(usage)
    ensures var front, e := prices[..|prices|-1], prices[|prices|-1];
            UsedPrices(prices, usage)
              == UsedPrices(front, usage) + (if InUse(usage, e.stack) then e.cost - PriceOf(front, e.stack) else 0.0)
  {
    if usage != [] {
      InUseBefore(usage, prices[|prices|-1].stack);
      OneEntryMore(prices, usage[..|usage|-1]);
    }
  }

  lemma {:induction false} EmptyListUses(usage: seq<Usage>)
    ensures UsedPrices([], usage) == 0.0
  {
    if usage != [] { EmptyListUses(usage[..|usage|-1]); }
  }

  lemma {:induction false} UsedAndSpared(prices: seq<Price>, usage: seq<Usage>)
    requires DistinctStacks(usage)
    ensures UsedPrices(prices, usage) + Spared(prices, usage) == ListPrice(prices)
  {
    if prices == [] {
      EmptyListUses(usage);
    } else {
      UsedAndSpared(prices[..|prices|-1], usage);
      OneEntryMore(prices, usage);
    }
  }

  lemma {:induction false} SparedNonNegative(prices: seq<Price>, usage: seq<Usage>)
    requires NonNegative(prices)
    ensures Spared(prices, usage) >= 0.0
  {
    if prices != [] {
      var front := prices[..|prices|-1];
      SparedNonNegative(front, usage);
      PriceNonNegative(front, prices[|prices|-1].stack);
    }
  }

  // The list price is what is charged plus what is spared, to the last entry.
  lemma ChargeAndSpared(prices: seq<Price>, usage: seq<Usage>)
    requires DistinctStacks(usage)
    ensures MonthlyCharge(prices, usage) + Spared(prices, usage) == ListPrice(prices)
  {
    ChargeIsUsedPrices(prices, usage);
    UsedAndSpared(prices, usage);
  }

  // So the unrounded charge never exceeds the plan's list price, even when the plan
  // lists a stack twice, and equals it exactly when nothing is spared.
  lemma ChargeWithinListPrice(prices: seq<Price>, usage: seq<Usage>)
    requires NonNegative(prices) && DistinctStacks(usage)
    ensures 0.0 <= MonthlyCharge(prices, usage) <= ListPrice(prices)
    ensures MonthlyCharge(prices, usage) == ListPrice(prices) <==> Spared(prices, usage) == 0.0
  {
    ChargeAndSpared(prices, usage);
    SparedNonNegative(prices, usage);
    AmountsNonNegative(prices, usage);
    SumNonNegative(Amounts(Lines(prices, usage)));
  }

  lemma {:induction false} SumNonNegative(xs: seq<real>)
    requires forall i :: 0 <= i < |xs| ==> xs[i] >= 0.0
    ensures Sum(xs) >= 0.0
  {
    if xs != [] { SumNonNegative(xs[..|xs|-1]); }
  }

  // The bill has one line for each usage line with knowledge bases, in their order, with
  // its figures and the price of its stack; and no other.
  lemma {:induction false} LinesMirrorUsage(prices: seq<Price>, usage: seq<Usage>, u: Usage)
    ensures u in usage && u.kbCount != 0 ==> Line(u.stack, u.kbCount, u.docCount, PriceOf(prices, u.stack)) in Lines(prices, usage)
    ensures forall l <- Lines(prices, usage) ::
              exists v <- usage :: v.kbCount != 0 && l == Line(v.stack, v.kbCount, v.docCount, PriceOf(prices, v.stack))
  {
    hide PriceOf;
    if usage != [] {
      var n: nat := |usage| - 1;
      LinesMirrorUsage(prices, usage[..n], u);
      assert usage == usage[..n] + [usage[n]];
      forall l | l in Lines(prices, usage)
        ensures exists v <- usage :: v.kbCount != 0 && l == Line(v.stack, v.kbCount, v.docCount, PriceOf(prices, v.stack))
      {
        if l in Lines(prices, usage[..n]) {
          var v :| v in usage[..n] && v.kbCount != 0 && l == Line(v.stack, v.kbCount, v.docCount, PriceOf(prices, v.stack));
          assert v in usage;
        } else {
          assert usage[n] in usage;
        }
      }
    }
  }

  lemma {:induction false} LinesInOrder(prices: seq<Price>, usage: seq<Usage>, more: seq<Usage>)
    ensures Lines(prices, usage + more) == Lines(prices, usage) + Lines(prices, more)
  {
    hide PriceOf;
    if more == [] {
      assert usage + more == usage;
    } else {
      var n := |more| - 1;
      LinesInOrder(prices, usage, more[..n]);
      assert (usage + more)[..|usage + more|-1] == usage + more[..n];
    }
  }

  // ---------------- whole cents ----------------

  ghost predicate WholeCentPrices(prices: seq<Price>) { forall i :: 0 <= i < |prices| ==> WholeCents(prices[i].cost) }

  lemma {:induction false} PriceWholeCents(prices: seq<Price>, stack: Stack)
    requires WholeCentPrices(prices)
    ensures WholeCents(PriceOf(prices, stack)) && WholeCents(ListPrice(prices))
  {
    if prices != [] {
      PriceWholeCents(prices[..|prices|-1], stack);
      WholeCentsAdd(ListPrice(prices[..|prices|-1]), prices[|prices|-1].cost);
    }
  }

  lemma {:induction false} LinesWholeCents(prices: seq<Price>, usage: seq<Usage>)
    requires WholeCentPrices(prices)
    ensures forall l <- Lines(prices, usage) :: WholeCents(l.cost)
  {
    if usage != [] {
      LinesWholeCents(prices, usage[..|usage|-1]);
      PriceWholeCents(prices, usage[|usage|-1].stack);
    }
  }

  // With whole-cent prices the invoice is exactly the charge, so within the list price.
  lemma InvoiceWithinListPrice(prices: seq<Price>, usage: seq<Usage>)
    requires NonNegative(prices) && DistinctStacks(usage) && WholeCentPrices(prices)
    ensures InvoicedMinor(Amounts(Lines(prices, usage))) as real == 100.0 * MonthlyCharge(prices, usage)
    ensures 0.0 <= InvoicedMinor(Amounts(Lines(prices, usage))) as real <= 100.0 * ListPrice(prices)
  {
    var xs := Amounts(Lines(prices, usage));
    AmountsNonNegative(prices, usage);
    ChargeWithinListPrice(prices, usage);
    LinesWholeCents(prices, usage);
    forall i | 0 <= i < |xs| ensures WholeCents(xs[i]) { assert Lines(prices, usage)[i] in Lines(prices, usage); }
    InvoiceError(xs);
    BillableSum(xs);
  }

  // ---------------- the loop ----------------

  method ComputeSubscription(prices: seq<Price>, usage: seq<Usage>) returns (lines: seq<Line>, monthlyTotal: real)
    ensures lines == Lines(prices, usage) && monthlyTotal == Round2(MonthlyCharge(prices, usage))
  {
    lines := [];
    var i := 0;
    while i < |usage|
      invariant 0 <= i <= |usage|
      invariant lines == Lines(prices, usage[..i])
    {
      var u := usage[i];
      assert usage[..i + 1][..i] == usage[..i];
      if u.kbCount != 0 {
        lines := lines + [Line(u.stack, u.kbCount, u.docCount, PriceOf(prices, u.stack))];
      }
      i := i + 1;
    }
    assert usage[..i] == usage;
    monthlyTotal := Round2(Sum(Amounts(lines)));
  }
}

/** Across the services: whatever charges and sweeps run, what the active
    subscribers are invoiced in one month stays within the contracted revenue. */
module BillingTotals {
  import opened Money
  import opened KbUsage
  import opened Pricing
  import opened Subscriptions
  import opened Payments
  import KnowledgeRuns

  type Customer = Payments.Id

  // Minor units invoiced to a customer in a month.
  function InvoicedTo(invoices: seq<Invoice>, key: (Customer, Period)): int {
    if invoices == [] then 0
    else InvoicedTo(invoices[..|invoices|-1], key)
         + (if KeyOf(invoices[|invoices|-1]) == key then invoices[|invoices|-1].minor else 0)
  }

  function InvoicedToAll(invoices: seq<Invoice>, join: seq<Subscription>, period: Period): int {
    if join == [] then 0
    else InvoicedToAll(invoices, join[..|join|-1], period) + InvoicedTo(invoices, (join[|join|-1].customer, period))
  }

  // A bill as the facade computes it from what the two lookups answer: the plan's
  // prices, or none when that lookup fails, and whatever usage is reported just now.
  ghost predicate BillFor(prices: seq<Price>, amounts: seq<real>) {
    exists usage: seq<Usage> :: DistinctStacks(usage)
      && (amounts == Amounts(Lines(prices, usage)) || amounts == Amounts(Lines([], usage)))
  }

  // Active subscribers are charged by their plan in the book.
  ghost predicate ChargesByPlan(b: Book, customer: Customer, amounts: seq<real>) {
    forall s <- ActiveJoin(b) :: s.customer == customer && HasPlan(b.plans, s.plan) ==>
      BillFor(PlanById(b.plans, s.plan).prices, amounts)
  }

  ghost predicate PricedSubs(b: Book, subs: seq<Subscriber>, period: Period) {
    forall i :: 0 <= i < |subs| && subs[i].customer.Some? && subs[i].period == period ==>
      ChargesByPlan(b, subs[i].customer.value, subs[i].amounts)
  }

  // The charges for the month go by the book; those for other months need not.
  ghost predicate Priced(b: Book, es: seq<Event>, period: Period) {
    forall i :: 0 <= i < |es| ==>
      match es[i]
      case Charge(customer, p, amounts, _, _) => p == period ==> ChargesByPlan(b, customer, amounts)
      case SweepAll(subs) => PricedSubs(b, subs, period)
  }

  // Every invoice of the month for an active subscriber is within its list price.
  ghost predicate InvoicesWithinPlan(b: Book, invoices: seq<Invoice>, period: Period) {
    forall i, s :: 0 <= i < |invoices| && invoices[i].period == period && s in ActiveJoin(b)
                   && s.customer == invoices[i].customer && HasPlan(b.plans, s.plan) ==>
      0.0 <= invoices[i].minor as real <= 100.0 * ListPrice(PlanById(b.plans, s.plan).prices)
  }

  ghost predicate WholeCentBook(b: Book) {
    BookOk(b) && forall i :: 0 <= i < |b.plans| ==> WholeCentPrices(b.plans[i].prices)
  }

  lemma BillWithinListPrice(prices: seq<Price>, amounts: seq<real>)
    requires NonNegative(prices) && WholeCentPrices(prices) && BillFor(prices, amounts)
    ensures 0.0 <= InvoicedMinor(amounts) as real <= 100.0 * ListPrice(prices)
  {
    var usage: seq<Usage> :| DistinctStacks(usage)
      && (amounts == Amounts(Lines(prices, usage)) || amounts == Amounts(Lines([], usage)));
    InvoiceWithinListPrice(prices, usage);
    InvoiceWithinListPrice([], usage);
  }

  lemma ChargeWithinPlan(b: Book, s: State, customer: Customer, period: Period, amounts: seq<real>, stripe: Stripe,
                         commits: bool, month: Period)
    requires WholeCentBook(b) && RunsOk(s) && InvoicesWithinPlan(b, s.invoices, month)
    requires period == month ==> ChargesByPlan(b, customer, amounts)
    ensures var t := DoCharge(s, customer, period, amounts, stripe, commits).0;
            RunsOk(t) && InvoicesWithinPlan(b, t.invoices, month)
  {
    hide DoCharge, BillFor, InvoicedMinor, ListPrice;
    ChargeShape(s, customer, period, amounts, stripe, commits);
    if period == month {
      forall sub | sub in ActiveJoin(b) && sub.customer == customer && HasPlan(b.plans, sub.plan)
        ensures 0.0 <= InvoicedMinor(amounts) as real <= 100.0 * ListPrice(PlanById(b.plans, sub.plan).prices)
      {
        PlanByIdIn(b.plans, sub.plan);
        BillWithinListPrice(PlanById(b.plans, sub.plan).prices, amounts);
      }
    }
  }

  lemma {:induction false} SweepWithinPlan(b: Book, s: State, subs: seq<Subscriber>, t: Tally, month: Period)
    requires WholeCentBook(b) && RunsOk(s) && InvoicesWithinPlan(b, s.invoices, month) && PricedSubs(b, subs, month)
    ensures var u := Sweep(s, subs, t).0; RunsOk(u) && InvoicesWithinPlan(b, u.invoices, month)
    decreases |subs|
  {
    hide DoCharge, Count, WholeCentBook, RunsOk, InvoicesWithinPlan, ChargesByPlan;
    if subs != [] {
      var sub := subs[0];
      if sub.customer.None? {
        SweepWithinPlan(b, s, subs[1..], t, month);
      } else {
        var x := ChargeOne(s, sub);
        if !sub.raises {
          ChargeWithinPlan(b, s, sub.customer.value, sub.period, sub.amounts, sub.stripe, sub.commits, month);
        }
        SweepWithinPlan(b, x.0, subs[1..], Count(t, x.1), month);
      }
    }
  }

  lemma {:induction false} RunWithinPlan(b: Book, s: State, es: seq<Event>, month: Period)
    requires WholeCentBook(b) && RunsOk(s) && InvoicesWithinPlan(b, s.invoices, month) && Priced(b, es, month)
    ensures InvoicesWithinPlan(b, Run(s, es).invoices, month)
    decreases |es|
  {
    hide DoCharge, WholeCentBook, RunsOk, InvoicesWithinPlan, ChargesByPlan, PricedSubs;
    if es != [] {
      match es[0] {
        case Charge(customer, period, amounts, stripe, commits) =>
          ChargeWithinPlan(b, s, customer, period, amounts, stripe, commits, month);
        case SweepAll(subs) => SweepWithinPlan(b, s, subs, Tally(0, 0, 0), month);
      }
      assert Priced(b, es[1..], month) by {
        assert forall i :: 0 <= i < |es| - 1 ==> es[1..][i] == es[i + 1];
      }
      RunWithinPlan(b, Next(s, es[0]), es[1..], month);
    }
  }

  // With at most one invoice for a key, the total is that invoice or nothing.
  lemma {:induction false} OnlyInvoice(invoices: seq<Invoice>, key: (Customer, Period), bound: real)
    requires forall i, j :: 0 <= i < j < |invoices| ==> KeyOf(invoices[i]) != KeyOf(invoices[j])
    requires forall i :: 0 <= i < |invoices| && KeyOf(invoices[i]) == key ==> invoices[i].minor as real <= bound
    requires 0.0 <= bound
    ensures InvoicedTo(invoices, key) as real <= bound
    ensures (forall i :: 0 <= i < |invoices| ==> KeyOf(invoices[i]) != key) ==> InvoicedTo(invoices, key) == 0
  {
    if invoices != [] {
      var n := |invoices| - 1;
      OnlyInvoice(invoices[..n], key, bound);
      if KeyOf(invoices[n]) == key {
        assert forall i :: 0 <= i < n ==> KeyOf(invoices[..n][i]) != key;
      }
    }
  }

  lemma {:induction false} JoinHasPlans(b: Book)
    ensures forall s <- ActiveJoin(b) :: HasPlan(b.plans, s.plan)
    decreases |b.subs|
  {
    if b.subs != [] { JoinHasPlans(b.(subs := b.subs[..|b.subs|-1])); }
  }

  // One subscriber's month, whatever was run.
  lemma SubscriberWithinListPrice(b: Book, es: seq<Event>, s: Subscription, period: Period)
    requires WholeCentBook(b) && Priced(b, es, period) && RunCommits(es)
    requires s in ActiveJoin(b)
    ensures HasPlan(b.plans, s.plan)
    ensures InvoicedTo(Run(EMPTY, es).invoices, (s.customer, period)) as real <= 100.0 * ListPrice(PlanById(b.plans, s.plan).prices)
  {
    JoinHasPlans(b);
    PlanByIdIn(b.plans, s.plan);
    var prices := PlanById(b.plans, s.plan).prices;
    RunKeepsInv(EMPTY, es);
    RunWithinPlan(b, EMPTY, es, period);
    ChargeWithinListPrice(prices, []);
    OnlyInvoice(Run(EMPTY, es).invoices, (s.customer, period), 100.0 * ListPrice(prices));
  }

  lemma {:induction false} MonthWithinJoinPrice(b: Book, es: seq<Event>, join: seq<Subscription>, period: Period)
    requires WholeCentBook(b) && Priced(b, es, period) && RunCommits(es)
    requires forall s <- join :: s in ActiveJoin(b)
    ensures InvoicedToAll(Run(EMPTY, es).invoices, join, period) as real <= 100.0 * JoinPrice(b.plans, join)
  {
    if join != [] {
      MonthWithinJoinPrice(b, es, join[..|join|-1], period);
      SubscriberWithinListPrice(b, es, join[|join|-1], period);
    }
  }

  // Over any run of charges and sweeps whose run records commit, each charge on
  // whatever usage is reported at its time, with whole-cent prices: what all active
  // subscribers together are invoiced in a month stays within the contracted total.
  lemma MonthWithinMrr(b: Book, es: seq<Event>, period: Period)
    requires WholeCentBook(b) && Priced(b, es, period) && RunCommits(es)
    ensures InvoicedToAll(Run(EMPTY, es).invoices, ActiveJoin(b), period) as real <= 100.0 * TotalMrr(b)
  {
    MonthWithinJoinPrice(b, es, ActiveJoin(b), period);
    TotalMrrIsJoinPrice(b);
  }

  // The usage figures that the knowledge-base service reports, after any run of
  // its operations, are such that a customer's charge stays within the list price.
  lemma ChargeOnReportedUsage(prices: seq<Price>, embed: string -> seq<real>, es: seq<KnowledgeRuns.Event>, customer: Customer)
    requires NonNegative(prices) && KnowledgeRuns.ValidRun(embed, KnowledgeRuns.EMPTY, es)
    ensures var usage := UsageByCustomer(KnowledgeRuns.Run(embed, KnowledgeRuns.EMPTY, es), customer);
            0.0 <= MonthlyCharge(prices, usage) <= ListPrice(prices)
  {
    UsageMatchesCatalogue(embed, es, customer);
    ChargeWithinListPrice(prices, UsageByCustomer(KnowledgeRuns.Run(embed, KnowledgeRuns.EMPTY, es), customer));
  }
}

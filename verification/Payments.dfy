/** Charging customers once a month: the billing-run record that makes a charge
    idempotent, the Stripe customer kept between charges, and the sweep over all
    active subscribers.  Stripe's answers are parameters. */
module Payments {
  import opened Options
  import opened Money

  type Id = nat
  type Period = nat  // a calendar month

  datatype BillingRun = BillingRun(invoiceId: string, amount: real, status: string)

  // An invoice that Stripe finalised, and what it was made of.
  datatype Invoice = Invoice(customer: Id, period: Period, id: string, minor: int)

  datatype State = State(
    runs: map<(Id, Period), BillingRun>,
    stripeIds: map<Id, string>,
    invoices: seq<Invoice>)  // history: every invoice that Stripe finalised with an id

  // How Stripe answers during one charge.
  datatype CustomerAnswer = CustomerCreated(id: string) | CustomerFails
  datatype InvoiceAnswer = Finalized(id: string, amountDue: int, status: string) | InvoiceFails
  datatype Stripe = Stripe(hasKey: bool, customer: CustomerAnswer, invoice: InvoiceAnswer)

  datatype Reply =
    | AlreadyBilled(run: BillingRun)
    | NotConfigured
    | NoStripeCustomer     // configured, but the customer's id came back empty
    | NothingToBill
    | Invoiced(id: string, amount: real)
    | Failed
    | Raised               // an exception; the run is not recorded

  // The stored customer id, "" when there is none.
  function StripeId(s: State, customer: Id): string {
    if customer in s.stripeIds then s.stripeIds[customer] else ""
  }

  // Whether Stripe is set up for the customer, and the state with its id kept.
  function EnsureCustomer(s: State, customer: Id, stripe: Stripe): (State, bool) {
    if !stripe.hasKey then (s, false)
    else if StripeId(s, customer) != "" then (s, true)
    else if stripe.customer.CustomerFails? then (s, false)
    else if stripe.customer.id == "" then (s, true)
    else (s.(stripeIds := s.stripeIds[customer := stripe.customer.id]), true)
  }

  function OrElse(a: real, b: real): real { if a != 0.0 then a else b }

  // One charge of the given line amounts for one month; `commits` says whether the
  // run of a finalised invoice reaches the database.
  function DoCharge(s: State, customer: Id, period: Period, amounts: seq<real>, stripe: Stripe, commits: bool): (State, Reply) {
    if (customer, period) in s.runs && s.runs[(customer, period)].invoiceId != "" then
      (s, AlreadyBilled(s.runs[(customer, period)]))
    else
      var (t, configured) := EnsureCustomer(s, customer, stripe);
      if !configured then (t, NotConfigured)
      else if StripeId(t, customer) == "" then (t, NoStripeCustomer)
      else if Billable(amounts) == [] then (t, NothingToBill)
      else if stripe.invoice.InvoiceFails? then (t, Failed)
      else
        var id := stripe.invoice.id;
        var amount := OrElse(stripe.invoice.amountDue as real / 100.0, Round2(Sum(amounts)));
        if id == "" then (t, Invoiced(id, amount))
        else
          var billed := t.(invoices := t.invoices + [Invoice(customer, period, id, InvoicedMinor(amounts))]);
          if (customer, period) in t.runs then (billed, Raised)  // the table's unique key
          else if !commits then (billed, Raised)
          else
            (billed.(runs := t.runs[(customer, period) := BillingRun(id, amount, OrCreated(stripe.invoice.status))]),
             Invoiced(id, amount))
  }

  function OrCreated(status: string): string { if status == "" then "created" else status }

  // ---------------- the sweep ----------------

  // One subscriber of the sweep; `raises` is an exception before the charge has any
  // effect, `commits` as for a charge.
  datatype Subscriber =
    Subscriber(customer: Option<Id>, period: Period, amounts: seq<real>, stripe: Stripe, raises: bool, commits: bool)

  datatype Tally = Tally(billed: nat, skipped: nat, failed: nat)

  function ChargeOne(s: State, sub: Subscriber): (State, Reply)
    requires sub.customer.Some?
  {
    if sub.raises then (s, Raised) else DoCharge(s, sub.customer.value, sub.period, sub.amounts, sub.stripe, sub.commits)
  }

  function Count(t: Tally, reply: Reply): Tally {
    match reply
    case Failed => t.(failed := t.failed + 1)
    case Raised => t.(failed := t.failed + 1)
    case AlreadyBilled(_) => t.(skipped := t.skipped + 1)
    case NothingToBill => t.(skipped := t.skipped + 1)
    case NotConfigured => t.(skipped := t.skipped + 1)
    case Invoiced(_, _) => t.(billed := t.billed + 1)
    case NoStripeCustomer => t.(billed := t.billed + 1)
  }

  function Sweep(s: State, subs: seq<Subscriber>, t: Tally): (State, Tally)
    decreases |subs|
  {
    if subs == [] then (s, t)
    else if subs[0].customer.None? then Sweep(s, subs[1..], t)
    else
      var (s', reply) := ChargeOne(s, subs[0]);
      Sweep(s', subs[1..], Count(t, reply))
  }

  // ---------------- runs ----------------

  datatype Event =
    | Charge(customer: Id, period: Period, amounts: seq<real>, stripe: Stripe, commits: bool)
    | SweepAll(subs: seq<Subscriber>)

  function Next(s: State, e: Event): State {
    match e
    case Charge(customer, period, amounts, stripe, commits) => DoCharge(s, customer, period, amounts, stripe, commits).0
    case SweepAll(subs) => Sweep(s, subs, Tally(0, 0, 0)).0
  }

  function Run(s: State, es: seq<Event>): State
    decreases |es|
  {
    if es == [] then s else Run(Next(s, es[0]), es[1..])
  }

  const EMPTY: State := State(map[], map[], [])

  function KeyOf(i: Invoice): (Id, Period) { (i.customer, i.period) }

  ghost predicate Recorded(invoices: seq<Invoice>, key: (Id, Period)) {
    exists i :: 0 <= i < |invoices| && KeyOf(invoices[i]) == key
  }

  // Every run row carries an invoice id, so the guard of a charge recognises it.
  ghost predicate RunsOk(s: State) {
    forall key <- s.runs :: s.runs[key].invoiceId != "" && s.runs[key].status != ""
  }

  // A charge finalises an invoice only for a month without a run, and then writes
  // the run if it commits; otherwise it leaves both tables alone.
  lemma ChargeShape(s: State, customer: Id, period: Period, amounts: seq<real>, stripe: Stripe, commits: bool)
    requires RunsOk(s)
    ensures var (t, reply) := DoCharge(s, customer, period, amounts, stripe, commits);
            if t.invoices == s.invoices then t.runs == s.runs
            else
              && (customer, period) !in s.runs
              && stripe.invoice.Finalized? && stripe.invoice.id != ""
              && t.invoices == s.invoices + [Invoice(customer, period, stripe.invoice.id, InvoicedMinor(amounts))]
              && (if commits
                  then reply.Invoiced? && reply.id == stripe.invoice.id
                    && (customer, period) in t.runs && t.runs[(customer, period)].invoiceId == reply.id
                    && t.runs[(customer, period)].amount == reply.amount && t.runs[(customer, period)].status != ""
                    && t.runs == s.runs[(customer, period) := t.runs[(customer, period)]]
                  else reply.Raised? && t.runs == s.runs)
    ensures RunsOk(DoCharge(s, customer, period, amounts, stripe, commits).0)
  {}

  // ---------------- at most one invoice a month ----------------

  // Every charge of the event gets its run into the database.
  ghost predicate AllCommit(subs: seq<Subscriber>) { forall i :: 0 <= i < |subs| ==> subs[i].commits }

  ghost predicate Commits(e: Event) { if e.Charge? then e.commits else AllCommit(e.subs) }

  ghost predicate RunCommits(es: seq<Event>) { forall i :: 0 <= i < |es| ==> Commits(es[i]) }

  // Each invoice has its own customer and month, and its record; no record is
  // without an invoice.
  ghost predicate Inv(s: State) {
    && RunsOk(s)
    && (forall i, j :: 0 <= i < j < |s.invoices| ==> KeyOf(s.invoices[i]) != KeyOf(s.invoices[j]))
    && (forall i :: 0 <= i < |s.invoices| ==>
          KeyOf(s.invoices[i]) in s.runs && s.runs[KeyOf(s.invoices[i])].invoiceId == s.invoices[i].id)
    && (forall key <- s.runs :: Recorded(s.invoices, key))
  }

  lemma ChargeKeepsInv(s: State, customer: Id, period: Period, amounts: seq<real>, stripe: Stripe)
    requires Inv(s)
    ensures Inv(DoCharge(s, customer, period, amounts, stripe, true).0)
  {
    hide DoCharge;
    ChargeShape(s, customer, period, amounts, stripe, true);
    var t := DoCharge(s, customer, period, amounts, stripe, true).0;
    if t.invoices != s.invoices {
      var n := |s.invoices|;
      forall key | key in t.runs ensures Recorded(t.invoices, key) {
        if key in s.runs {
          var i :| 0 <= i < n && KeyOf(s.invoices[i]) == key;
          assert KeyOf(t.invoices[i]) == key;
        } else {
          assert KeyOf(t.invoices[n]) == key;
        }
      }
    }
  }

  lemma {:induction false} SweepKeepsInv(s: State, subs: seq<Subscriber>, t: Tally)
    requires Inv(s) && AllCommit(subs)
    ensures Inv(Sweep(s, subs, t).0)
    decreases |subs|
  {
    hide Inv, DoCharge;
    if subs != [] {
      if subs[0].customer.None? {
        SweepKeepsInv(s, subs[1..], t);
      } else {
        var x := ChargeOne(s, subs[0]);
        if !subs[0].raises { ChargeKeepsInv(s, subs[0].customer.value, subs[0].period, subs[0].amounts, subs[0].stripe); }
        SweepKeepsInv(x.0, subs[1..], Count(t, x.1));
      }
    }
  }

  lemma {:induction false} RunKeepsInv(s: State, es: seq<Event>)
    requires Inv(s) && RunCommits(es)
    ensures Inv(Run(s, es))
    decreases |es|
  {
    hide Inv, DoCharge;
    if es != [] {
      match es[0] {
        case Charge(customer, period, amounts, stripe, _) => ChargeKeepsInv(s, customer, period, amounts, stripe);
        case SweepAll(subs) => SweepKeepsInv(s, subs, Tally(0, 0, 0));
      }
      RunKeepsInv(Next(s, es[0]), es[1..]);
    }
  }

  // Over every run of charges and sweeps whose run records commit, a customer gets
  // at most one invoice a month, a recorded run always has its invoice, and an
  // invoice always its run.
  lemma OneInvoiceAMonth(es: seq<Event>)
    requires RunCommits(es)
    ensures var s := Run(EMPTY, es);
            && (forall i, j :: 0 <= i < j < |s.invoices| ==>
                  s.invoices[i].customer != s.invoices[j].customer || s.invoices[i].period != s.invoices[j].period)
            && (forall key <- s.runs :: s.runs[key].invoiceId != "" && s.runs[key].status != "")
            && (forall i :: 0 <= i < |s.invoices| ==>
                  var key := (s.invoices[i].customer, s.invoices[i].period);
                  key in s.runs && s.runs[key].invoiceId == s.invoices[i].id)
  {
    RunKeepsInv(EMPTY, es);
    var s := Run(EMPTY, es);
    forall i, j | 0 <= i < j < |s.invoices|
      ensures s.invoices[i].customer != s.invoices[j].customer || s.invoices[i].period != s.invoices[j].period
    {
      assert KeyOf(s.invoices[i]) != KeyOf(s.invoices[j]);
    }
    forall i | 0 <= i < |s.invoices| ensures s.runs[KeyOf(s.invoices[i])].invoiceId == s.invoices[i].id {}
  }

  // A run row, once written, is never changed, nor is a stored Stripe customer.
  lemma ChargeKeepsRows(s: State, customer: Id, period: Period, amounts: seq<real>, stripe: Stripe, commits: bool)
    ensures var t := DoCharge(s, customer, period, amounts, stripe, commits).0;
            && (forall key <- s.runs :: key in t.runs && t.runs[key] == s.runs[key])
            && (forall c :: StripeId(s, c) != "" ==> StripeId(t, c) == StripeId(s, c))
            && s.invoices <= t.invoices
  {}

  lemma {:induction false} SweepKeepsRows(s: State, subs: seq<Subscriber>, t: Tally)
    ensures var u := Sweep(s, subs, t).0;
            && (forall key <- s.runs :: key in u.runs && u.runs[key] == s.runs[key])
            && (forall c :: StripeId(s, c) != "" ==> StripeId(u, c) == StripeId(s, c))
            && s.invoices <= u.invoices
    decreases |subs|
  {
    if subs != [] {
      if subs[0].customer.None? {
        SweepKeepsRows(s, subs[1..], t);
      } else {
        var x := ChargeOne(s, subs[0]);
        ChargeKeepsRows(s, subs[0].customer.value, subs[0].period, subs[0].amounts, subs[0].stripe, subs[0].commits);
        SweepKeepsRows(x.0, subs[1..], Count(t, x.1));
      }
    }
  }

  lemma {:induction false} RunKeepsRows(s: State, es: seq<Event>)
    ensures var t := Run(s, es);
            && (forall key <- s.runs :: key in t.runs && t.runs[key] == s.runs[key])
            && (forall c :: StripeId(s, c) != "" ==> StripeId(t, c) == StripeId(s, c))
            && s.invoices <= t.invoices
    decreases |es|
  {
    if es != [] {
      match es[0] {
        case Charge(customer, period, amounts, stripe, commits) => ChargeKeepsRows(s, customer, period, amounts, stripe, commits);
        case SweepAll(subs) => SweepKeepsRows(s, subs, Tally(0, 0, 0));
      }
      RunKeepsRows(Next(s, es[0]), es[1..]);
    }
  }

  // After a charge returned an invoice, every later call for that month, whatever
  // happens in between and whatever Stripe would answer, returns the same run.
  lemma LaterCallsReturnTheRun(before: seq<Event>, c: Event, between: seq<Event>, later: Event)
    requires c.Charge? && later.Charge? && later.customer == c.customer && later.period == c.period
    requires var (_, reply) := DoCharge(Run(EMPTY, before), c.customer, c.period, c.amounts, c.stripe, c.commits);
             reply.Invoiced? && reply.id != ""
    ensures var (s, reply) := DoCharge(Run(EMPTY, before), c.customer, c.period, c.amounts, c.stripe, c.commits);
            var t := Run(s, between);
            var (u, again) := DoCharge(t, later.customer, later.period, later.amounts, later.stripe, later.commits);
            again.AlreadyBilled? && again.run.invoiceId == reply.id && again.run.amount == reply.amount && u == t
  {
    var (s, reply) := DoCharge(Run(EMPTY, before), c.customer, c.period, c.amounts, c.stripe, c.commits);
    var key := (c.customer, c.period);
    assert key in s.runs && s.runs[key].invoiceId == reply.id && s.runs[key].amount == reply.amount;
    RunKeepsRows(s, between);
  }

  // When Stripe asks for what the invoice items add up to, the recorded amount is
  // the displayed total up to half a cent a line and half a cent, and exactly so
  // for whole-cent lines.
  lemma RecordedAmount(s: State, customer: Id, period: Period, amounts: seq<real>, stripe: Stripe, commits: bool)
    requires forall i :: 0 <= i < |amounts| ==> amounts[i] >= 0.0
    requires stripe.invoice.Finalized? && stripe.invoice.amountDue == InvoicedMinor(amounts)
    requires DoCharge(s, customer, period, amounts, stripe, commits).1.Invoiced?
    ensures var amount := DoCharge(s, customer, period, amounts, stripe, commits).1.amount;
            && Abs(amount - Round2(Sum(amounts))) <= (|Billable(amounts)| + 1) as real / 200.0
            && ((forall i :: 0 <= i < |amounts| ==> WholeCents(amounts[i])) ==> amount == Round2(Sum(amounts)))
  {
    hide InvoicedMinor, Sum, Round2, Billable;
    var m, display := InvoicedMinor(amounts) as real, Round2(Sum(amounts));
    InvoiceVersusDisplay(amounts);
    assert DoCharge(s, customer, period, amounts, stripe, commits).1.amount == OrElse(m / 100.0, display);
    assert Abs(m / 100.0 - display) == Abs(m - 100.0 * display) / 100.0;
  }

  // What a charge records and returns: Stripe's amount, or the displayed total when
  // Stripe asks for nothing; and Stripe's status, or "created" for an empty one.
  lemma AmountAndStatus(s: State, customer: Id, period: Period, amounts: seq<real>, stripe: Stripe, commits: bool)
    requires DoCharge(s, customer, period, amounts, stripe, commits).1.Invoiced?
    ensures var (t, reply) := DoCharge(s, customer, period, amounts, stripe, commits);
            var key := (customer, period);
            && stripe.invoice.Finalized? && reply.id == stripe.invoice.id
            && (stripe.invoice.amountDue != 0 ==> reply.amount * 100.0 == stripe.invoice.amountDue as real)
            && (stripe.invoice.amountDue == 0 ==> reply.amount == Round2(Sum(amounts)))
            && (reply.id != "" ==>
                  && key in t.runs
                  && t.runs[key] == BillingRun(reply.id, reply.amount,
                                               if stripe.invoice.status == "" then "created" else stripe.invoice.status))
  {
    hide Sum, Round2, InvoicedMinor, Billable;
  }

  // Why a charge is not made, in the order of the checks.
  lemma ChargeAnswers(s: State, customer: Id, period: Period, amounts: seq<real>, stripe: Stripe, commits: bool)
    ensures var (t, reply) := DoCharge(s, customer, period, amounts, stripe, commits);
            var key := (customer, period);
            var billed := key in s.runs && s.runs[key].invoiceId != "";
            var known := StripeId(s, customer) != "";
            var payable := exists i :: 0 <= i < |amounts| && amounts[i] > 0.0;
            && (billed <==> reply == AlreadyBilled(if billed then s.runs[key] else BillingRun("", 0.0, "")))
            && (reply == NotConfigured <==> !billed && (!stripe.hasKey || (!known && stripe.customer.CustomerFails?)))
            && (reply == NoStripeCustomer <==> !billed && stripe.hasKey && !known && stripe.customer == CustomerCreated(""))
            && (reply == NothingToBill <==>
                  !billed && stripe.hasKey && !payable
                  && (known || (stripe.customer.CustomerCreated? && stripe.customer.id != "")))
            && (reply == Failed <==>
                  !billed && stripe.hasKey && payable && stripe.invoice.InvoiceFails?
                  && (known || (stripe.customer.CustomerCreated? && stripe.customer.id != "")))
            && (reply == Raised ==> stripe.invoice.Finalized? && stripe.invoice.id != "" && (key in s.runs || !commits))
            && (reply.Invoiced? ==> stripe.invoice.Finalized? && (stripe.invoice.id == "" || (key !in s.runs && commits)))
            && (billed ==> t == s)
  {
    hide Sum, Round2, InvoicedMinor;
    NothingBillable(amounts);
  }

  // A customer without a Stripe id keeps the one that Stripe creates, and nobody else's
  // id changes.
  lemma StripeIdAfter(s: State, customer: Id, period: Period, amounts: seq<real>, stripe: Stripe, commits: bool, other: Id)
    ensures var t := DoCharge(s, customer, period, amounts, stripe, commits).0;
            var billed := (customer, period) in s.runs && s.runs[(customer, period)].invoiceId != "";
            StripeId(t, other) ==
              if other == customer && !billed && stripe.hasKey && StripeId(s, customer) == "" && stripe.customer.CustomerCreated?
              then stripe.customer.id else StripeId(s, other)
  {
    hide Sum, Round2, InvoicedMinor, Billable;
  }

  // ---------------- what a sweep counts ----------------

  // The turn gets as far as Stripe: nothing raised, no run yet, and a key is set.
  predicate ReachesStripe(s: State, sub: Subscriber)
    requires sub.customer.Some?
  {
    var key := (sub.customer.value, sub.period);
    !sub.raises && !(key in s.runs && s.runs[key].invoiceId != "") && sub.stripe.hasKey
  }

  // Stripe answers the turn with an empty id: for a new customer, or for an invoice.
  predicate AnsweredEmpty(s: State, sub: Subscriber)
    requires sub.customer.Some?
  {
    ReachesStripe(s, sub) &&
    if StripeId(s, sub.customer.value) == "" && sub.stripe.customer.CustomerCreated? && sub.stripe.customer.id == "" then true
    else
      && (StripeId(s, sub.customer.value) != "" || sub.stripe.customer.CustomerCreated?)
      && Billable(sub.amounts) != [] && sub.stripe.invoice.Finalized? && sub.stripe.invoice.id == ""
  }

  function EmptyAnswers(s: State, subs: seq<Subscriber>): nat
    decreases |subs|
  {
    if subs == [] then 0
    else if subs[0].customer.None? then EmptyAnswers(s, subs[1..])
    else (if AnsweredEmpty(s, subs[0]) then 1 else 0) + EmptyAnswers(ChargeOne(s, subs[0]).0, subs[1..])
  }

  // The turn asks Stripe for an invoice: there is a Stripe customer and a line to bill.
  predicate AsksForInvoice(s: State, sub: Subscriber)
    requires sub.customer.Some?
  {
    && ReachesStripe(s, sub)
    && (StripeId(s, sub.customer.value) != "" || (sub.stripe.customer.CustomerCreated? && sub.stripe.customer.id != ""))
    && Billable(sub.amounts) != []
  }

  // The turn fails: it raised, or Stripe refused the invoice, or its run was lost.
  predicate TurnFails(s: State, sub: Subscriber)
    requires sub.customer.Some?
  {
    sub.raises ||
    (AsksForInvoice(s, sub)
     && (sub.stripe.invoice.InvoiceFails?
         || (sub.stripe.invoice.id != "" && (!sub.commits || (sub.customer.value, sub.period) in s.runs))))
  }

  function Failures(s: State, subs: seq<Subscriber>): nat
    decreases |subs|
  {
    if subs == [] then 0
    else if subs[0].customer.None? then Failures(s, subs[1..])
    else (if TurnFails(s, subs[0]) then 1 else 0) + Failures(ChargeOne(s, subs[0]).0, subs[1..])
  }

  function Processed(subs: seq<Subscriber>): nat {
    if subs == [] then 0 else (if subs[0].customer.Some? then 1 else 0) + Processed(subs[1..])
  }

  // One charge raises one counter.
  lemma ChargeCounts(s: State, sub: Subscriber, t: Tally)
    requires sub.customer.Some?
    ensures var (u, reply) := ChargeOne(s, sub);
            var v := Count(t, reply);
            && v.billed + v.skipped + v.failed == t.billed + t.skipped + t.failed + 1
            && v.billed + |s.runs| == t.billed + |u.runs| + (if AnsweredEmpty(s, sub) then 1 else 0)
            && v.failed == t.failed + (if TurnFails(s, sub) then 1 else 0)
            && |s.runs| <= |u.runs|
  {}

  lemma {:induction false} SweepCounts(s: State, subs: seq<Subscriber>, t: Tally)
    ensures var (u, v) := Sweep(s, subs, t);
            && v.billed + v.skipped + v.failed == t.billed + t.skipped + t.failed + Processed(subs)
            && v.billed + |s.runs| == t.billed + |u.runs| + EmptyAnswers(s, subs)
            && v.failed == t.failed + Failures(s, subs)
            && |s.runs| <= |u.runs|
    decreases |subs|
  {
    hide ChargeOne, Count, AnsweredEmpty, TurnFails;
    if subs != [] {
      if subs[0].customer.None? {
        SweepCounts(s, subs[1..], t);
      } else {
        var x := ChargeOne(s, subs[0]);
        ChargeCounts(s, subs[0], t);
        SweepCounts(x.0, subs[1..], Count(t, x.1));
      }
    }
  }

  // No id that Stripe sends is empty.
  predicate SendsIds(stripe: Stripe) {
    stripe.customer != CustomerCreated("") && (stripe.invoice.Finalized? ==> stripe.invoice.id != "")
  }

  lemma {:induction false} NoEmptyAnswers(s: State, subs: seq<Subscriber>)
    requires forall i :: 0 <= i < |subs| ==> SendsIds(subs[i].stripe)
    ensures EmptyAnswers(s, subs) == 0
    decreases |subs|
  {
    hide ChargeOne;
    if subs != [] {
      if subs[0].customer.None? {
        NoEmptyAnswers(s, subs[1..]);
      } else {
        NoEmptyAnswers(ChargeOne(s, subs[0]).0, subs[1..]);
      }
    }
  }

  // A sweep whose run records commit writes one run for each invoice.
  lemma {:induction false} SweepInvoices(s: State, subs: seq<Subscriber>, t: Tally)
    requires RunsOk(s) && AllCommit(subs)
    ensures var u := Sweep(s, subs, t).0; |u.invoices| - |s.invoices| == |u.runs| - |s.runs|
    decreases |subs|
  {
    hide DoCharge, Count;
    if subs != [] {
      var sub := subs[0];
      if sub.customer.None? {
        SweepInvoices(s, subs[1..], t);
      } else {
        var x := ChargeOne(s, sub);
        if !sub.raises { ChargeShape(s, sub.customer.value, sub.period, sub.amounts, sub.stripe, true); }
        SweepInvoices(x.0, subs[1..], Count(t, x.1));
      }
    }
  }

  // billed, skipped and failed add up to the subscribers processed, failed are the
  // turns that fail, and billed is the number of new run rows, since Stripe's ids
  // are never empty; an empty one would count as billed without a row.
  lemma SweepCounters(s: State, subs: seq<Subscriber>)
    ensures var (u, v) := Sweep(s, subs, Tally(0, 0, 0));
            && v.billed + v.skipped + v.failed == Processed(subs)
            && v.failed == Failures(s, subs)
            && v.billed == |u.runs| - |s.runs| + EmptyAnswers(s, subs)
            && ((forall i :: 0 <= i < |subs| ==> SendsIds(subs[i].stripe)) ==> v.billed == |u.runs| - |s.runs|)
            && (RunsOk(s) && AllCommit(subs) ==> |u.runs| - |s.runs| == |u.invoices| - |s.invoices|)
  {
    SweepCounts(s, subs, Tally(0, 0, 0));
    if forall i :: 0 <= i < |subs| ==> SendsIds(subs[i].stripe) { NoEmptyAnswers(s, subs); }
    if RunsOk(s) && AllCommit(subs) { SweepInvoices(s, subs, Tally(0, 0, 0)); }
  }

  // ---------------- subscribers do not interfere ----------------

  function InvoicesTo(invoices: seq<Invoice>, c: Id): seq<Invoice> {
    if invoices == [] then []
    else if invoices[|invoices|-1].customer == c then InvoicesTo(invoices[..|invoices|-1], c) + [invoices[|invoices|-1]]
    else InvoicesTo(invoices[..|invoices|-1], c)
  }

  // The run rows and the Stripe customer of c.
  ghost predicate SameRecords(s: State, t: State, c: Id) {
    && (forall p: Period :: (c, p) in s.runs <==> (c, p) in t.runs)
    && (forall p: Period :: (c, p) in s.runs && (c, p) in t.runs ==> s.runs[(c, p)] == t.runs[(c, p)])
    && StripeId(s, c) == StripeId(t, c)
  }

  // The two states agree on everything about c.
  ghost predicate SameFor(s: State, t: State, c: Id) {
    && SameRecords(s, t, c)
    && InvoicesTo(s.invoices, c) == InvoicesTo(t.invoices, c)
  }

  // The subscriber list with the entries of c only.
  function OnlyFor(subs: seq<Subscriber>, c: Id): seq<Subscriber> {
    if subs == [] then []
    else if subs[0].customer == Some(c) then [subs[0]] + OnlyFor(subs[1..], c)
    else OnlyFor(subs[1..], c)
  }

  lemma InvoicesToAppend(invoices: seq<Invoice>, i: Invoice, c: Id)
    ensures InvoicesTo(invoices + [i], c) == if i.customer == c then InvoicesTo(invoices, c) + [i] else InvoicesTo(invoices, c)
  {
    assert (invoices + [i])[..|invoices|] == invoices;
  }

  // The invoice of a turn that gets one.
  lemma InvoiceOfTurn(s: State, sub: Subscriber)
    requires sub.customer.Some?
    ensures ChargeOne(s, sub).0.invoices ==
              if AsksForInvoice(s, sub) && sub.stripe.invoice.Finalized? && sub.stripe.invoice.id != ""
              then s.invoices + [Invoice(sub.customer.value, sub.period, sub.stripe.invoice.id, InvoicedMinor(sub.amounts))]
              else s.invoices
  {
    hide Billable, InvoicedMinor, Sum, Round2;
  }

  // A turn of another customer changes nothing about c.
  lemma OtherTurn(s: State, sub: Subscriber, c: Id)
    requires sub.customer.Some? && sub.customer.value != c
    ensures SameFor(s, ChargeOne(s, sub).0, c)
  {
    hide InvoicedMinor, InvoicesTo, AsksForInvoice, ChargeOne;
    InvoiceOfTurn(s, sub);
    if sub.stripe.invoice.Finalized? {
      InvoicesToAppend(s.invoices, Invoice(sub.customer.value, sub.period, sub.stripe.invoice.id, InvoicedMinor(sub.amounts)), c);
    }
    OtherRecords(s, sub, c);
  }

  lemma OtherRecords(s: State, sub: Subscriber, c: Id)
    requires sub.customer.Some? && sub.customer.value != c
    ensures SameRecords(s, ChargeOne(s, sub).0, c)
  {
    hide ChargeOne, AsksForInvoice;
    RunOfTurn(s, sub);
    StripeIdOfTurn(s, sub);
  }

  function RunFrom(sub: Subscriber): BillingRun
    requires sub.stripe.invoice.Finalized?
  {
    BillingRun(sub.stripe.invoice.id,
               OrElse(sub.stripe.invoice.amountDue as real / 100.0, Round2(Sum(sub.amounts))),
               OrCreated(sub.stripe.invoice.status))
  }

  // The run row of a turn that writes one.
  lemma RunOfTurn(s: State, sub: Subscriber)
    requires sub.customer.Some?
    ensures var key := (sub.customer.value, sub.period);
            ChargeOne(s, sub).0.runs ==
              if AsksForInvoice(s, sub) && sub.stripe.invoice.Finalized? && sub.stripe.invoice.id != ""
                 && sub.commits && key !in s.runs
              then s.runs[key := RunFrom(sub)]
              else s.runs
  {
    hide Billable, InvoicedMinor, Sum, Round2;
  }

  // The Stripe customer of a turn that creates one.
  lemma StripeIdOfTurn(s: State, sub: Subscriber)
    requires sub.customer.Some?
    ensures var c := sub.customer.value;
            ChargeOne(s, sub).0.stripeIds ==
              if ReachesStripe(s, sub) && StripeId(s, c) == "" && sub.stripe.customer.CustomerCreated? && sub.stripe.customer.id != ""
              then s.stripeIds[c := sub.stripe.customer.id]
              else s.stripeIds
  {
    hide Billable, InvoicedMinor, Sum, Round2;
  }

  lemma OwnAnswer(s: State, t: State, sub: Subscriber, c: Id)
    requires sub.customer == Some(c) && SameRecords(s, t, c)
    ensures AsksForInvoice(s, sub) == AsksForInvoice(t, sub) && ReachesStripe(s, sub) == ReachesStripe(t, sub)
    ensures ChargeOne(s, sub).1 == ChargeOne(t, sub).1
  {
    hide Billable, InvoicedMinor, Sum, Round2;
    assert (c, sub.period) in s.runs <==> (c, sub.period) in t.runs;
  }

  lemma OwnRecords(s: State, t: State, sub: Subscriber, c: Id)
    requires sub.customer == Some(c) && SameRecords(s, t, c)
    ensures SameRecords(ChargeOne(s, sub).0, ChargeOne(t, sub).0, c)
  {
    hide ChargeOne, AsksForInvoice, ReachesStripe, RunFrom;
    OwnAnswer(s, t, sub, c);
    RunOfTurn(s, sub);
    RunOfTurn(t, sub);
    StripeIdOfTurn(s, sub);
    StripeIdOfTurn(t, sub);
  }

  // A turn of c does the same wherever everything about c is the same.
  lemma OwnTurn(s: State, t: State, sub: Subscriber, c: Id)
    requires sub.customer == Some(c) && SameFor(s, t, c)
    ensures SameFor(ChargeOne(s, sub).0, ChargeOne(t, sub).0, c) && ChargeOne(s, sub).1 == ChargeOne(t, sub).1
  {
    hide InvoicedMinor, InvoicesTo, ChargeOne, AsksForInvoice;
    OwnAnswer(s, t, sub, c);
    OwnRecords(s, t, sub, c);
    InvoiceOfTurn(s, sub);
    InvoiceOfTurn(t, sub);
    if sub.stripe.invoice.Finalized? {
      var i := Invoice(c, sub.period, sub.stripe.invoice.id, InvoicedMinor(sub.amounts));
      InvoicesToAppend(s.invoices, i, c);
      InvoicesToAppend(t.invoices, i, c);
    }
  }

  lemma {:induction false} SweepSameFor(s: State, t: State, subs: seq<Subscriber>, v: Tally, w: Tally, c: Id)
    requires SameFor(s, t, c)
    ensures SameFor(Sweep(s, subs, v).0, Sweep(t, OnlyFor(subs, c), w).0, c)
    decreases |subs|
  {
    hide SameFor, ChargeOne, Count;
    if subs != [] {
      var sub := subs[0];
      if sub.customer == Some(c) {
        var rest := OnlyFor(subs[1..], c);
        assert ([sub] + rest)[1..] == rest;
        OwnTurn(s, t, sub, c);
        var x, y := ChargeOne(s, sub), ChargeOne(t, sub);
        SweepSameFor(x.0, y.0, subs[1..], Count(v, x.1), Count(w, y.1), c);
      } else if sub.customer.None? {
        SweepSameFor(s, t, subs[1..], v, w, c);
      } else {
        var x := ChargeOne(s, sub);
        OtherTurn(s, sub, c);
        SameForThrough(s, x.0, t, c);
        SweepSameFor(x.0, t, subs[1..], Count(v, x.1), w, c);
      }
    }
  }

  lemma SameForThrough(s: State, t: State, u: State, c: Id)
    requires SameFor(s, t, c) && SameFor(s, u, c)
    ensures SameFor(t, u, c)
  {}

  // One subscriber's failure, of whatever kind, never reaches another: after a sweep
  // the runs, the Stripe customer and the invoices of c are those after a sweep over
  // the entries of c alone.
  lemma FailuresAreIsolated(s: State, subs: seq<Subscriber>, t: Tally, u: Tally, c: Id)
    ensures SameFor(Sweep(s, subs, t).0, Sweep(s, OnlyFor(subs, c), u).0, c)
  {
    SweepSameFor(s, s, subs, t, u, c);
  }

  // ---------------- when a commit is lost ----------------

  function InvoicesFor(invoices: seq<Invoice>, key: (Id, Period)): nat {
    if invoices == [] then 0
    else InvoicesFor(invoices[..|invoices|-1], key) + (if KeyOf(invoices[|invoices|-1]) == key then 1 else 0)
  }

  lemma InvoicesForAppend(invoices: seq<Invoice>, i: Invoice, key: (Id, Period))
    ensures InvoicesFor(invoices + [i], key) == InvoicesFor(invoices, key) + (if KeyOf(i) == key then 1 else 0)
  {
    assert (invoices + [i])[..|invoices|] == invoices;
  }

  // The turn gets its invoice, but the run does not reach the database.
  predicate LosesRun(s: State, sub: Subscriber)
    requires sub.customer.Some?
  {
    AsksForInvoice(s, sub) && sub.stripe.invoice.Finalized? && sub.stripe.invoice.id != "" && !sub.commits
  }

  predicate LosesRunOf(s: State, sub: Subscriber, key: (Id, Period)) {
    sub.customer == Some(key.0) && sub.period == key.1 && LosesRun(s, sub)
  }

  function LostIn(s: State, subs: seq<Subscriber>, key: (Id, Period)): nat
    decreases |subs|
  {
    if subs == [] then 0
    else if subs[0].customer.None? then LostIn(s, subs[1..], key)
    else (if LosesRunOf(s, subs[0], key) then 1 else 0) + LostIn(ChargeOne(s, subs[0]).0, subs[1..], key)
  }

  // A charge as a turn of its own.
  function TurnOf(e: Event): Subscriber
    requires e.Charge?
  {
    Subscriber(Some(e.customer), e.period, e.amounts, e.stripe, false, e.commits)
  }

  // The invoices of a customer's month along a run whose runs were lost.
  function Lost(s: State, es: seq<Event>, key: (Id, Period)): nat
    decreases |es|
  {
    if es == [] then 0
    else
      (if es[0].Charge? then (if LosesRunOf(s, TurnOf(es[0]), key) then 1 else 0) else LostIn(s, es[0].subs, key))
      + Lost(Next(s, es[0]), es[1..], key)
  }

  // Each invoice of the month is the one of its run or a lost one.
  ghost predicate Accounted(s: State, key: (Id, Period), lost: nat) {
    RunsOk(s) && InvoicesFor(s.invoices, key) == lost + (if key in s.runs then 1 else 0)
  }

  lemma TurnAccounted(s: State, sub: Subscriber, key: (Id, Period), lost: nat)
    requires sub.customer.Some? && Accounted(s, key, lost)
    ensures Accounted(ChargeOne(s, sub).0, key, lost + (if LosesRunOf(s, sub, key) then 1 else 0))
  {
    hide ChargeOne, InvoicesFor, InvoicedMinor, Billable, Sum, Round2;
    InvoiceOfTurn(s, sub);
    RunOfTurn(s, sub);
    if sub.stripe.invoice.Finalized? {
      var i := Invoice(sub.customer.value, sub.period, sub.stripe.invoice.id, InvoicedMinor(sub.amounts));
      InvoicesForAppend(s.invoices, i, key);
    }
  }

  lemma {:induction false} SweepAccounted(s: State, subs: seq<Subscriber>, t: Tally, key: (Id, Period), lost: nat)
    requires Accounted(s, key, lost)
    ensures Accounted(Sweep(s, subs, t).0, key, lost + LostIn(s, subs, key))
    decreases |subs|
  {
    hide ChargeOne, Count, Accounted, LosesRunOf;
    if subs != [] {
      var sub := subs[0];
      if sub.customer.None? {
        SweepAccounted(s, subs[1..], t, key, lost);
      } else {
        var x := ChargeOne(s, sub);
        TurnAccounted(s, sub, key, lost);
        SweepAccounted(x.0, subs[1..], Count(t, x.1), key, lost + (if LosesRunOf(s, sub, key) then 1 else 0));
      }
    }
  }

  lemma {:induction false} RunAccounted(s: State, es: seq<Event>, key: (Id, Period), lost: nat)
    requires Accounted(s, key, lost)
    ensures Accounted(Run(s, es), key, lost + Lost(s, es, key))
    decreases |es|
  {
    hide DoCharge, Accounted, LosesRunOf;
    if es != [] {
      var t := Next(s, es[0]);
      if es[0].Charge? {
        assert t == ChargeOne(s, TurnOf(es[0])).0;
        TurnAccounted(s, TurnOf(es[0]), key, lost);
        RunAccounted(t, es[1..], key, lost + (if LosesRunOf(s, TurnOf(es[0]), key) then 1 else 0));
      } else {
        SweepAccounted(s, es[0].subs, Tally(0, 0, 0), key, lost);
        RunAccounted(t, es[1..], key, lost + LostIn(s, es[0].subs, key));
      }
    }
  }

  // Over every run at all, the invoices of a customer's month are the one of its run,
  // if it has one, and those whose runs were lost.
  lemma InvoicesAreRunsAndLosses(es: seq<Event>, key: (Id, Period))
    ensures InvoicesFor(Run(EMPTY, es).invoices, key)
         == Lost(EMPTY, es, key) + (if key in Run(EMPTY, es).runs then 1 else 0)
  {
    RunAccounted(EMPTY, es, key, 0);
  }

  lemma {:induction false} NothingLostIn(s: State, subs: seq<Subscriber>, key: (Id, Period))
    requires AllCommit(subs)
    ensures LostIn(s, subs, key) == 0
    decreases |subs|
  {
    hide ChargeOne, AsksForInvoice;
    if subs != [] {
      NothingLostIn(if subs[0].customer.None? then s else ChargeOne(s, subs[0]).0, subs[1..], key);
    }
  }

  lemma {:induction false} NothingLost(s: State, es: seq<Event>, key: (Id, Period))
    requires RunCommits(es)
    ensures Lost(s, es, key) == 0
    decreases |es|
  {
    hide AsksForInvoice, DoCharge;
    if es != [] {
      if es[0].SweepAll? { NothingLostIn(s, es[0].subs, key); }
      NothingLost(Next(s, es[0]), es[1..], key);
    }
  }

  // A charge of the month that Stripe answers.
  function ChargeFor(key: (Id, Period)): Event {
    Charge(key.0, key.1, [5.0], Stripe(true, CustomerCreated("cus"), Finalized("in", 500, "open")), true)
  }

  lemma ChargeForAsks(s: State, key: (Id, Period))
    requires key !in s.runs
    ensures AsksForInvoice(s, TurnOf(ChargeFor(key)))
  {
    assert Billable([5.0]) == [5.0] by {
      assert [5.0][..0] == [];
    }
  }

  lemma UnrecordedIsChargedAgain(s: State, key: (Id, Period))
    requires RunsOk(s) && key !in s.runs
    ensures InvoicesFor(Run(s, [ChargeFor(key)]).invoices, key) == InvoicesFor(s.invoices, key) + 1
  {
    hide ChargeOne, Next, AsksForInvoice, InvoicesFor, InvoicedMinor;
    var e := ChargeFor(key);
    assert [e][1..] == [];
    ChargeForAsks(s, key);
    InvoiceOfTurn(s, TurnOf(e));
    ChargeIsTurn(s, e);
    InvoicesForAppend(s.invoices, Invoice(key.0, key.1, "in", InvoicedMinor([5.0])), key);
  }

  lemma ChargeIsTurn(s: State, e: Event)
    requires e.Charge?
    ensures Next(s, e) == ChargeOne(s, TurnOf(e)).0
  {}

  // From a reachable state with at most one invoice for the month, no later run that
  // commits makes a second one exactly if none was lost before, that is, exactly if
  // no invoice of the month stands without its run row.
  lemma SecondInvoiceIff(before: seq<Event>, key: (Id, Period))
    requires InvoicesFor(Run(EMPTY, before).invoices, key) <= 1
    ensures var s := Run(EMPTY, before);
            (forall es :: RunCommits(es) ==> InvoicesFor(Run(s, es).invoices, key) <= 1) <==> Lost(EMPTY, before, key) == 0
    ensures var s := Run(EMPTY, before);
            Lost(EMPTY, before, key) == 0 <==> InvoicesFor(s.invoices, key) == 0 || key in s.runs
  {
    hide InvoicesFor, DoCharge, RunsOk;
    var s := Run(EMPTY, before);
    NothingYet(key);
    RunAccounted(EMPTY, before, key, 0);
    if Lost(EMPTY, before, key) == 0 {
      forall es | RunCommits(es) ensures InvoicesFor(Run(s, es).invoices, key) <= 1 {
        RunAccounted(s, es, key, 0);
        NothingLost(s, es, key);
      }
    } else {
      UnrecordedIsChargedAgain(s, key);
      assert RunCommits([ChargeFor(key)]) && InvoicesFor(Run(s, [ChargeFor(key)]).invoices, key) == 2;
    }
  }

  // A concrete run: one lost commit, and the next charge invoices the month again.
  const LOST := Charge(1, 1, [5.0], Stripe(true, CustomerCreated("cus"), Finalized("in_1", 500, "open")), false)

  lemma AfterLost()
    ensures Next(EMPTY, LOST) == State(map[], map[1 := "cus"], [Invoice(1, 1, "in_1", InvoicedMinor([5.0]))])
  {
    hide InvoicedMinor, Sum, Round2;
    assert Billable([5.0]) == [5.0] by {
      assert [5.0][..0] == [];
    }
  }

  lemma LostCommitBillsAgain()
    ensures InvoicesFor(Run(EMPTY, [LOST, ChargeFor((1, 1))]).invoices, (1, 1)) == 2
  {
    hide InvoicedMinor, DoCharge, InvoicesFor;
    var again := ChargeFor((1, 1));
    var i := Invoice(1, 1, "in_1", InvoicedMinor([5.0]));
    AfterLost();
    assert [LOST, again][1..] == [again];
    var s := Next(EMPTY, LOST);
    assert Run(EMPTY, [LOST, again]) == Run(s, [again]);
    UnrecordedIsChargedAgain(s, (1, 1));
    InvoicesForAppend([], i, (1, 1));
    assert [] + [i] == [i];
    NothingYet((1, 1));
  }

  lemma NothingYet(key: (Id, Period))
    ensures Accounted(EMPTY, key, 0) && InvoicesFor([], key) == 0
  {}

  // ---------------- the facade ----------------

  class PaymentsFacade {
    var runs: map<(Id, Period), BillingRun>
    var stripeIds: map<Id, string>
    ghost var invoices: seq<Invoice>

    ghost function Abs(): State
      reads this
    {
      State(runs, stripeIds, invoices)
    }

    constructor ()
      ensures Abs() == EMPTY
    {
      runs, stripeIds, invoices := map[], map[], [];
    }

    method EnsureStripeCustomer(customer: Id, stripe: Stripe) returns (cid: string, configured: bool)
      modifies this`stripeIds
      ensures (Abs(), configured) == EnsureCustomer(old(Abs()), customer, stripe)
      ensures cid == StripeId(Abs(), customer)
    {
      var existing := if customer in stripeIds then stripeIds[customer] else "";
      if !stripe.hasKey {
        return existing, false;
      }
      if existing != "" {
        return existing, true;
      }
      if stripe.customer.CustomerFails? {
        return existing, false;
      }
      if stripe.customer.id != "" {
        stripeIds := stripeIds[customer := stripe.customer.id];
      }
      return stripe.customer.id, true;
    }

    method ChargeSubscription(customer: Id, period: Period, amounts: seq<real>, stripe: Stripe, commits: bool)
      returns (reply: Reply)
      modifies this
      ensures (Abs(), reply) == DoCharge(old(Abs()), customer, period, amounts, stripe, commits)
    {
      if (customer, period) in runs && runs[(customer, period)].invoiceId != "" {
        return AlreadyBilled(runs[(customer, period)]);
      }
      var cid, configured := EnsureStripeCustomer(customer, stripe);
      if !configured {
        return NotConfigured;
      }
      if cid == "" {
        return NoStripeCustomer;
      }
      if Billable(amounts) == [] {
        return NothingToBill;
      }
      match stripe.invoice {
        case InvoiceFails =>
          return Failed;
        case Finalized(id, amountDue, status) =>
          var amount := OrElse(amountDue as real / 100.0, Round2(Sum(amounts)));
          if id != "" {
            invoices := invoices + [Invoice(customer, period, id, InvoicedMinor(amounts))];
            if (customer, period) in runs || !commits {
              return Raised;
            }
            runs := runs[(customer, period) := BillingRun(id, amount, OrCreated(status))];
          }
          return Invoiced(id, amount);
      }
    }

    // One turn of the sweep, with its own try block.
    method BillOne(sub: Subscriber, t: Tally) returns (t': Tally)
      requires sub.customer.Some?
      modifies this
      ensures Abs() == ChargeOne(old(Abs()), sub).0 && t' == Count(t, ChargeOne(old(Abs()), sub).1)
    {
      if sub.raises {
        return t.(failed := t.failed + 1);
      }
      var reply := ChargeSubscription(sub.customer.value, sub.period, sub.amounts, sub.stripe, sub.commits);
      if reply.Failed? || reply.Raised? {
        t' := t.(failed := t.failed + 1);
      } else if reply.AlreadyBilled? || reply.NothingToBill? || reply.NotConfigured? {
        t' := t.(skipped := t.skipped + 1);
      } else {
        t' := t.(billed := t.billed + 1);
      }
    }

    method RunBillingSweep(subs: seq<Subscriber>) returns (tally: Tally)
      modifies this
      ensures (Abs(), tally) == Sweep(old(Abs()), subs, Tally(0, 0, 0))
    {
      hide ChargeOne, Count;
      tally := Tally(0, 0, 0);
      var i := 0;
      while i < |subs|
        invariant 0 <= i <= |subs|
        invariant Sweep(Abs(), subs[i..], tally) == Sweep(old(Abs()), subs, Tally(0, 0, 0))
      {
        assert subs[i..][1..] == subs[i + 1..];
        if subs[i].customer.Some? {
          tally := BillOne(subs[i], tally);
        }
        i := i + 1;
      }
    }
  }
}

/** Subscription plans, who subscribes to them, and the contracted revenue. */
module Subscriptions {
  import opened Options
  import opened Money
  import opened Ingest
  import opened KbUsage
  import opened Pricing

  type Id = nat

  datatype Plan = Plan(id: Id, name: string, prices: seq<Price>)
  datatype Subscription = Subscription(customer: Id, plan: Id, active: bool)
  datatype Book = Book(plans: seq<Plan>, subs: seq<Subscription>)

  // ---------------- validation of a price list ----------------

  datatype Number = Real(value: real) | NotANumber
  datatype RawEntry = NotADict | NoStack | Entry(stack: Option<Stack>, cost: Option<Number>)
  datatype RawList = NotAList | RawList(entries: seq<RawEntry>)
  datatype Problem = NotAListOfDicts | MissingStack | UnknownStack | BadCost

  // A missing cost counts as 0.
  function EntryProblem(e: RawEntry): Option<Problem> {
    match e
    case NotADict => Some(MissingStack)
    case NoStack => Some(MissingStack)
    case Entry(stack, cost) =>
      if stack.None? then Some(UnknownStack)
      else if cost.Some? && (cost.value.NotANumber? || cost.value.value < 0.0) then Some(BadCost)
      else None
  }

  function PriceFrom(e: RawEntry): Price
    requires EntryProblem(e).None?
  {
    Price(e.stack.value, if e.cost.None? then 0.0 else e.cost.value.value)
  }

  function PricesFrom(es: seq<RawEntry>): seq<Price>
    requires forall i :: 0 <= i < |es| ==> EntryProblem(es[i]).None?
  {
    seq(|es|, i requires 0 <= i < |es| => PriceFrom(es[i]))
  }

  // An entry is good exactly if it names a known stack and its cost, if it has one, is a
  // number that is not negative; otherwise its first fault is the problem.
  lemma EntryIsGoodIff(e: RawEntry)
    ensures EntryProblem(e).None? <==>
              e.Entry? && e.stack.Some? && (e.cost.None? || (e.cost.value.Real? && 0.0 <= e.cost.value.value))
    ensures !e.Entry? ==> EntryProblem(e) == Some(MissingStack)
    ensures e.Entry? && e.stack.None? ==> EntryProblem(e) == Some(UnknownStack)
    ensures e.Entry? && e.stack.Some? && EntryProblem(e).Some? ==> EntryProblem(e) == Some(BadCost)
  {}

  // The stored prices are the entries that were sent, one for one: stack and cost, a
  // missing cost as 0.
  ghost predicate PricesAsSent(es: seq<RawEntry>, prices: seq<Price>) {
    && |prices| == |es|
    && forall i :: 0 <= i < |es| ==>
         && es[i].Entry? && es[i].stack == Some(prices[i].stack)
         && prices[i].cost == (if es[i].cost == None then 0.0
                               else if es[i].cost.value.Real? then es[i].cost.value.value else -1.0)
  }

  function CostsSent(es: seq<RawEntry>): real {
    if es == [] then 0.0
    else
      var e := es[|es|-1];
      CostsSent(es[..|es|-1]) + (if e.Entry? && e.cost.Some? && e.cost.value.Real? then e.cost.value.value else 0.0)
  }

  // So the list price of the plan is the sum of the costs sent.
  lemma {:induction false} ListPriceAsSent(es: seq<RawEntry>, prices: seq<Price>)
    requires PricesAsSent(es, prices) && forall i :: 0 <= i < |es| ==> EntryProblem(es[i]).None?
    ensures ListPrice(prices) == CostsSent(es)
  {
    if es != [] {
      var n := |es| - 1;
      EntryIsGoodIff(es[n]);
      ListPriceAsSent(es[..n], prices[..n]);
    }
  }

  // The first problem of the list, if it has one.
  method ValidateStacks(raw: RawList) returns (problem: Option<Problem>)
    ensures problem.None? <==> raw.RawList? && forall i :: 0 <= i < |raw.entries| ==> EntryProblem(raw.entries[i]).None?
    ensures problem.Some? && raw.RawList? ==>
              exists i :: 0 <= i < |raw.entries| && EntryProblem(raw.entries[i]) == problem
                && forall j :: 0 <= j < i ==> EntryProblem(raw.entries[j]).None?
  {
    if raw.NotAList? {
      return Some(NotAListOfDicts);
    }
    var i := 0;
    while i < |raw.entries|
      invariant 0 <= i <= |raw.entries|
      invariant forall j :: 0 <= j < i ==> EntryProblem(raw.entries[j]).None?
    {
      problem := EntryProblem(raw.entries[i]);
      if problem.Some? {
        return;
      }
      i := i + 1;
    }
    problem := None;
  }

  // ---------------- the book and its invariant ----------------

  ghost predicate BookOk(b: Book) {
    && (forall i, j :: 0 <= i < j < |b.plans| ==> b.plans[i].id != b.plans[j].id && b.plans[i].name != b.plans[j].name)
    && (forall i :: 0 <= i < |b.plans| ==> NonNegative(b.plans[i].prices))
    && (forall i, j :: 0 <= i < j < |b.subs| ==> b.subs[i].customer != b.subs[j].customer)
    && (forall i :: 0 <= i < |b.subs| ==> HasPlan(b.plans, b.subs[i].plan))
  }

  predicate HasPlan(plans: seq<Plan>, id: Id) { exists i :: 0 <= i < |plans| && plans[i].id == id }

  function PlanById(plans: seq<Plan>, id: Id): Plan
    requires HasPlan(plans, id)
  {
    if plans[|plans|-1].id == id then plans[|plans|-1]
    else
      assert HasPlan(plans[..|plans|-1], id) by {
        var i :| 0 <= i < |plans| && plans[i].id == id;
        assert plans[..|plans|-1][i].id == id;
      }
      PlanById(plans[..|plans|-1], id)
  }

  class SubscriptionsFacade {
    var plans: seq<Plan>
    var subs: seq<Subscription>

    ghost function Abs(): Book
      reads this
    {
      Book(plans, subs)
    }

    ghost predicate Valid()
      reads this
    {
      BookOk(Abs())
    }

    constructor ()
      ensures Valid() && Abs() == Book([], [])
    {
      plans, subs := [], [];
    }

    method CreatePlan(id: Id, name: string, stacks: RawList) returns (ok: bool)
      requires Valid() && !HasPlan(plans, id)
      modifies this
      ensures Valid() && subs == old(subs)
      ensures ok <==> stacks.RawList? && (forall i :: 0 <= i < |stacks.entries| ==> EntryProblem(stacks.entries[i]).None?)
                      && forall i :: 0 <= i < |old(plans)| ==> old(plans)[i].name != name
      ensures plans == if ok then old(plans) + [Plan(id, name, PricesFrom(stacks.entries))] else old(plans)
      ensures ok ==>
                && PricesAsSent(stacks.entries, plans[|old(plans)|].prices)
                && ListPrice(plans[|old(plans)|].prices) == CostsSent(stacks.entries)
    {
      var problem := ValidateStacks(stacks);
      if problem.Some? || exists i :: 0 <= i < |plans| && plans[i].name == name {
        return false;
      }
      assert forall i :: 0 <= i < |plans| ==> plans[i].id != id;
      ExtendPlans(plans, Plan(id, name, PricesFrom(stacks.entries)));
      ListPriceAsSent(stacks.entries, PricesFrom(stacks.entries));
      plans := plans + [Plan(id, name, PricesFrom(stacks.entries))];
      ok := true;
    }

    // Repricing a plan; the row's position stands for its primary key.
    method UpdatePrices(row: nat, stacks: RawList) returns (ok: bool)
      requires Valid()
      modifies this
      ensures Valid() && subs == old(subs)
      ensures ok <==> row < |old(plans)| && stacks.RawList?
                      && forall i :: 0 <= i < |stacks.entries| ==> EntryProblem(stacks.entries[i]).None?
      ensures plans == if ok then old(plans)[row := old(plans)[row].(prices := PricesFrom(stacks.entries))] else old(plans)
      ensures ok ==>
                && PricesAsSent(stacks.entries, plans[row].prices)
                && ListPrice(plans[row].prices) == CostsSent(stacks.entries)
    {
      var problem := ValidateStacks(stacks);
      if problem.Some? || row >= |plans| {
        return false;
      }
      ghost var before := plans;
      ListPriceAsSent(stacks.entries, PricesFrom(stacks.entries));
      plans := plans[row := plans[row].(prices := PricesFrom(stacks.entries))];
      forall id | HasPlan(before, id) ensures HasPlan(plans, id) {
        var i :| 0 <= i < |before| && before[i].id == id;
        assert plans[i].id == id;
      }
      ok := true;
    }

    method Assign(customer: Id, plan: Id) returns (ok: bool)
      requires Valid()
      modifies this
      ensures Valid() && plans == old(plans)
      ensures ok <==> HasPlan(plans, plan)
      ensures !ok ==> subs == old(subs)
      ensures ok ==>
                && (exists i :: 0 <= i < |subs| && subs[i] == Subscription(customer, plan, true))
                && (forall s :: s in subs && s.customer != customer <==> s in old(subs) && s.customer != customer)
    {
      if !HasPlan(plans, plan) {
        return false;
      }
      ok := true;
      var i := 0;
      while i < |subs|
        invariant 0 <= i <= |subs| && subs == old(subs)
        invariant forall j :: 0 <= j < i ==> subs[j].customer != customer
      {
        if subs[i].customer == customer {
          subs := subs[i := Subscription(customer, plan, true)];
          assert subs[i] == Subscription(customer, plan, true);
          forall s | s in old(subs) && s.customer != customer ensures s in subs {
            var j :| 0 <= j < |old(subs)| && old(subs)[j] == s;
            assert subs[j] == s;
          }
          return;
        }
        i := i + 1;
      }
      subs := subs + [Subscription(customer, plan, true)];
      assert subs[|subs|-1] == Subscription(customer, plan, true);
    }
  }

  lemma ExtendPlans(plans: seq<Plan>, p: Plan)
    ensures forall id :: HasPlan(plans, id) ==> HasPlan(plans + [p], id)
  {
    forall id | HasPlan(plans, id) ensures HasPlan(plans + [p], id) {
      var i :| 0 <= i < |plans| && plans[i].id == id;
      assert (plans + [p])[i].id == id;
    }
  }

  // ---------------- revenue ----------------

  function CountActive(subs: seq<Subscription>, plan: Id): nat {
    if subs == [] then 0
    else
      var s := subs[|subs|-1];
      CountActive(subs[..|subs|-1], plan) + (if s.active && s.plan == plan then 1 else 0)
  }

  function Mrr(p: Plan, subs: seq<Subscription>): real {
    Round2(Repeated(ListPrice(p.prices), CountActive(subs, p.id)))
  }

  function SumMrr(plans: seq<Plan>, subs: seq<Subscription>): real {
    if plans == [] then 0.0 else SumMrr(plans[..|plans|-1], subs) + Mrr(plans[|plans|-1], subs)
  }

  function TotalMrr(b: Book): real { Round2(SumMrr(b.plans, b.subs)) }

  // The active subscriptions whose plan exists.
  function ActiveJoin(b: Book): seq<Subscription>
    decreases |b.subs|
  {
    if b.subs == [] then []
    else
      var s, front := b.subs[|b.subs|-1], ActiveJoin(b.(subs := b.subs[..|b.subs|-1]));
      if s.active && HasPlan(b.plans, s.plan) then front + [s] else front
  }

  // What the subscribers of a list pay at list price.
  function JoinPrice(plans: seq<Plan>, join: seq<Subscription>): real {
    if join == [] then 0.0
    else
      var s := join[|join|-1];
      JoinPrice(plans, join[..|join|-1]) + (if HasPlan(plans, s.plan) then ListPrice(PlanById(plans, s.plan).prices) else 0.0)
  }

  // Unrounded revenue, plan by plan.
  function Contracted(plans: seq<Plan>, subs: seq<Subscription>): real {
    if plans == [] then 0.0
    else
      var p := plans[|plans|-1];
      Contracted(plans[..|plans|-1], subs) + Repeated(ListPrice(p.prices), CountActive(subs, p.id))
  }

  lemma {:induction false} NoSubscribers(plans: seq<Plan>)
    ensures Contracted(plans, []) == 0.0
  {
    if plans != [] {
      NoSubscribers(plans[..|plans|-1]);
      RepeatedStep(ListPrice(plans[|plans|-1].prices), 0);
    }
  }

  ghost predicate UniquePlans(plans: seq<Plan>) {
    forall i, j :: 0 <= i < j < |plans| ==> plans[i].id != plans[j].id
  }

  // One more subscriber adds its plan's list price once.
  lemma {:induction false} OneSubscriberMore(plans: seq<Plan>, subs: seq<Subscription>, s: Subscription)
    requires UniquePlans(plans)
    ensures Contracted(plans, subs + [s])
         == Contracted(plans, subs)
            + (if s.active && HasPlan(plans, s.plan) then ListPrice(PlanById(plans, s.plan).prices) else 0.0)
  {
    assert (subs + [s])[..|subs|] == subs;
    if plans != [] {
      var front, p := plans[..|plans|-1], plans[|plans|-1];
      OneSubscriberMore(front, subs, s);
      RepeatedStep(ListPrice(p.prices), CountActive(subs, p.id));
      ExtendPlans(front, p);
      assert front + [p] == plans;
      if p.id == s.plan {
        assert plans[|plans|-1].id == s.plan;
      } else if HasPlan(plans, s.plan) {
        var i :| 0 <= i < |plans| && plans[i].id == s.plan;
        assert front[i].id == s.plan;
      }
    }
  }

  // Counting by plan or by subscriber gives the same revenue.
  lemma {:induction false} ContractedByJoin(b: Book)
    requires UniquePlans(b.plans)
    ensures Contracted(b.plans, b.subs) == JoinPrice(b.plans, ActiveJoin(b))
    decreases |b.subs|
  {
    if b.subs == [] {
      NoSubscribers(b.plans);
    } else {
      var front, s := b.(subs := b.subs[..|b.subs|-1]), b.subs[|b.subs|-1];
      assert b.subs == front.subs + [s];
      ContractedByJoin(front);
      OneSubscriberMore(b.plans, front.subs, s);
      if s.active && HasPlan(b.plans, s.plan) {
        assert ActiveJoin(b)[..|ActiveJoin(b)|-1] == ActiveJoin(front);
      }
    }
  }

  lemma {:induction false} RollupRounding(plans: seq<Plan>, subs: seq<Subscription>)
    ensures Abs(SumMrr(plans, subs) - Contracted(plans, subs)) <= 0.005 * |plans| as real
  {
    if plans != [] {
      var p := plans[|plans|-1];
      RollupRounding(plans[..|plans|-1], subs);
      Round2Error(Repeated(ListPrice(p.prices), CountActive(subs, p.id)));
      assert |plans| as real == |plans[..|plans|-1]| as real + 1.0;
    }
  }

  lemma {:induction false} RollupExact(plans: seq<Plan>, subs: seq<Subscription>)
    requires forall i :: 0 <= i < |plans| ==> WholeCentPrices(plans[i].prices)
    ensures SumMrr(plans, subs) == Contracted(plans, subs) && WholeCents(SumMrr(plans, subs))
  {
    if plans != [] {
      var front, p := plans[..|plans|-1], plans[|plans|-1];
      RollupExact(front, subs);
      PriceWholeCents(p.prices, Bedrock);
      WholeCentsRepeated(ListPrice(p.prices), CountActive(subs, p.id));
      Round2WholeCents(Repeated(ListPrice(p.prices), CountActive(subs, p.id)));
      WholeCentsAdd(SumMrr(front, subs), Mrr(p, subs));
    }
  }

  // total_mrr is the list prices over the active-subscription join, up to half a
  // cent a plan and half a cent for the total; exactly so for whole-cent prices.
  lemma TotalMrrIsJoinPrice(b: Book)
    requires BookOk(b)
    ensures Abs(TotalMrr(b) - JoinPrice(b.plans, ActiveJoin(b))) <= 0.005 * (|b.plans| + 1) as real
    ensures (forall i :: 0 <= i < |b.plans| ==> WholeCentPrices(b.plans[i].prices)) ==>
              TotalMrr(b) == JoinPrice(b.plans, ActiveJoin(b))
  {
    hide SumMrr, Contracted, JoinPrice, ActiveJoin, Round2;
    ContractedByJoin(b);
    RollupRounding(b.plans, b.subs);
    Round2Error(SumMrr(b.plans, b.subs));
    assert (|b.plans| + 1) as real == |b.plans| as real + 1.0;
    if forall i :: 0 <= i < |b.plans| ==> WholeCentPrices(b.plans[i].prices) {
      RollupExact(b.plans, b.subs);
      Round2WholeCents(SumMrr(b.plans, b.subs));
    }
  }

  // What the subscribers of a list are charged, given each one's usage.
  ghost function ChargesOf(plans: seq<Plan>, join: seq<Subscription>, usage: Id -> seq<Usage>): real {
    if join == [] then 0.0
    else
      var s := join[|join|-1];
      ChargesOf(plans, join[..|join|-1], usage)
      + (if HasPlan(plans, s.plan) then MonthlyCharge(PlanById(plans, s.plan).prices, usage(s.customer)) else 0.0)
  }

  lemma {:induction false} PlanByIdIn(plans: seq<Plan>, id: Id)
    requires HasPlan(plans, id)
    ensures PlanById(plans, id) in plans && PlanById(plans, id).id == id
  {
    if plans[|plans|-1].id != id {
      var i :| 0 <= i < |plans| && plans[i].id == id;
      assert plans[..|plans|-1][i].id == id;
      PlanByIdIn(plans[..|plans|-1], id);
    }
  }

  lemma {:induction false} ChargesWithinPrices(plans: seq<Plan>, join: seq<Subscription>, usage: Id -> seq<Usage>)
    requires forall i :: 0 <= i < |plans| ==> NonNegative(plans[i].prices)
    requires forall c :: DistinctStacks(usage(c))
    ensures ChargesOf(plans, join, usage) <= JoinPrice(plans, join)
  {
    if join != [] {
      var s := join[|join|-1];
      ChargesWithinPrices(plans, join[..|join|-1], usage);
      if HasPlan(plans, s.plan) {
        PlanByIdIn(plans, s.plan);
        ChargeWithinListPrice(PlanById(plans, s.plan).prices, usage(s.customer));
      }
    }
  }

  // With whole-cent prices all active subscribers' charges together stay within
  // total_mrr.
  lemma ChargesWithinMrr(b: Book, usage: Id -> seq<Usage>)
    requires BookOk(b) && forall c :: DistinctStacks(usage(c))
    requires forall i :: 0 <= i < |b.plans| ==> WholeCentPrices(b.plans[i].prices)
    ensures ChargesOf(b.plans, ActiveJoin(b), usage) <= TotalMrr(b)
  {
    ChargesWithinPrices(b.plans, ActiveJoin(b), usage);
    TotalMrrIsJoinPrice(b);
  }

  datatype PlanRevenue = PlanRevenue(plan: Id, name: string, customers: nat, price: real, mrr: real)

  function RevenueOf(p: Plan, subs: seq<Subscription>): PlanRevenue {
    PlanRevenue(p.id, p.name, CountActive(subs, p.id), Round2(ListPrice(p.prices)), Mrr(p, subs))
  }

  // The roll-up as the loop computes it; the row order is by plan name.
  method RevenueRollup(b: Book) returns (total: real, rows: seq<PlanRevenue>)
    ensures total == TotalMrr(b)
    ensures |rows| == |b.plans|
    ensures forall i :: 0 <= i < |rows| ==>
              && rows[i].plan == b.plans[i].id && rows[i].name == b.plans[i].name
              && rows[i].customers == CountActive(b.subs, b.plans[i].id)
              && rows[i].price == Round2(ListPrice(b.plans[i].prices))
              && rows[i].mrr == Round2(Repeated(ListPrice(b.plans[i].prices), rows[i].customers))
  {
    var sum := 0.0;
    rows := [];
    var i := 0;
    while i < |b.plans|
      invariant 0 <= i <= |b.plans| && |rows| == i
      invariant sum == SumMrr(b.plans[..i], b.subs)
      invariant forall j :: 0 <= j < i ==> rows[j] == RevenueOf(b.plans[j], b.subs)
    {
      var p := b.plans[i];
      assert b.plans[..i + 1][..i] == b.plans[..i];
      var customers := CountActive(b.subs, p.id);
      var price := ListPrice(p.prices);
      var mrr := Round2(Repeated(price, customers));
      sum := sum + mrr;
      rows := rows + [PlanRevenue(p.id, p.name, customers, Round2(price), mrr)];
      i := i + 1;
    }
    assert b.plans[..i] == b.plans;
    total := Round2(sum);
  }
}

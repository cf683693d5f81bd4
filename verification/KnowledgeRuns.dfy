/** What holds over every run of the knowledge-bank operations. */
module KnowledgeRuns {
  import opened Options
  import opened VectorMath
  import opened VectorStore
  import opened Ingest
  import opened KnowledgeBank
  import Embedder

  datatype Event =
    | CreateGroup(id: Id, customer: Id)
    | CreateKb(id: Id, customer: Id, group: Id, stack: Option<Stack>, plan: Option<Plan>)
    | IngestBatch(kb: Id, customer: Id, gens: seq<Generation>, plan: Option<Plan>)
    | CreateJob(id: Id, kb: Id, customer: Id, requested: nat)
    | RunJob(id: Id, gens: seq<Generation>, plan: Option<Plan>)
    | DeleteKb(kb: Id, customer: Id)
    | DeleteGroup(group: Id, customer: Id)

  // New rows get new ids.
  ghost predicate Enabled(s: State, e: Event) {
    && (e.CreateGroup? ==> e.id !in s.groups)
    && (e.CreateKb? ==> e.id !in s.kbs)
    && (e.CreateJob? ==> e.id !in s.jobs)
  }

  function Step(embed: string -> Vector, s: State, e: Event): (State, Reply) {
    match e
    case CreateGroup(id, customer) => DoCreateGroup(s, id, customer)
    case CreateKb(id, customer, group, stack, plan) => DoCreateKb(s, id, customer, group, stack, plan)
    case IngestBatch(kb, customer, gens, plan) => DoIngest(s, kb, customer, gens, embed, plan)
    case CreateJob(id, kb, customer, requested) => DoCreateJob(s, id, kb, customer, requested)
    case RunJob(id, gens, plan) => DoRunJob(s, id, gens, embed, plan)
    case DeleteKb(kb, customer) => DoDeleteKb(s, kb, customer)
    case DeleteGroup(group, customer) => DoDeleteGroup(s, group, customer)
  }

  function Next(embed: string -> Vector, s: State, e: Event): State { Step(embed, s, e).0 }

  function Run(embed: string -> Vector, s: State, es: seq<Event>): State
    decreases |es|
  {
    if es == [] then s else Run(embed, Next(embed, s, es[0]), es[1..])
  }

  ghost predicate ValidRun(embed: string -> Vector, s: State, es: seq<Event>)
    decreases |es|
  {
    es == [] || (Enabled(s, es[0]) && ValidRun(embed, Next(embed, s, es[0]), es[1..]))
  }

  const EMPTY: State := State(map[], map[], [], [], map[], map[])

  // ---------------- the tables always agree ----------------

  lemma {:induction false} NoRows(docs: seq<Doc>, table: seq<TableRow>, kb: Id)
    requires forall i :: 0 <= i < |docs| ==> docs[i].kb != kb
    requires forall i :: 0 <= i < |table| ==> table[i].kb != kb
    ensures Catalogue(docs, kb) == [] && TableRows(table, kb) == []
    decreases |docs| + |table|
  {
    if docs != [] { NoRows(docs[..|docs|-1], table, kb); }
    if table != [] { NoRows(docs, table[..|table|-1], kb); }
  }

  lemma NewKbAgrees(s: State, id: Id, kb: Kb)
    requires NoOrphans(s.kbs, s.docs, s.table, s.memory) && id !in s.kbs && kb.docCount == 0
    ensures Agrees(s.(kbs := s.kbs[id := kb]), id)
  {
    NoRows(s.docs, s.table, id);
  }

  lemma OldKbAgrees(s: State, id: Id, kb: Kb, k: Id)
    requires id !in s.kbs && k in s.kbs && Agrees(s, k)
    ensures Agrees(s.(kbs := s.kbs[id := kb]), k)
  {}

  lemma CreateKbKeepsInv(s: State, id: Id, kb: Kb)
    requires Inv(s) && id !in s.kbs && kb.docCount == 0
    ensures Inv(s.(kbs := s.kbs[id := kb]))
  {
    hide Agrees;
    var t := s.(kbs := s.kbs[id := kb]);
    forall k | k in t.kbs ensures Agrees(t, k) {
      if k == id { NewKbAgrees(s, id, kb); } else { OldKbAgrees(s, id, kb, k); }
    }
  }

  lemma SameTablesKeepInv(s: State, t: State)
    requires Inv(s) && t == s.(groups := t.groups, jobs := t.jobs)
    ensures Inv(t)
  {
    forall k | k in t.kbs ensures Agrees(t, k) { assert Agrees(s, k); }
  }

  lemma StepKeepsInv(embed: string -> Vector, s: State, e: Event)
    requires Inv(s) && Enabled(s, e)
    ensures Inv(Next(embed, s, e))
  {
    hide Inv;
    match e
    case CreateGroup(id, customer) => SameTablesKeepInv(s, Next(embed, s, e));
    case CreateKb(id, customer, group, stack, plan) =>
      if Next(embed, s, e) != s { CreateKbKeepsInv(s, id, Kb(customer, group, stack.value, 0)); }
    case IngestBatch(kb, customer, gens, plan) => IngestKeepsInv(s, kb, customer, gens, embed, plan);
    case CreateJob(id, kb, customer, requested) => SameTablesKeepInv(s, Next(embed, s, e));
    case RunJob(id, gens, plan) =>
      if id in s.jobs {
        var job := s.jobs[id];
        IngestKeepsInv(s, job.kb, job.customer, gens, embed, plan);
        SameTablesKeepInv(DoIngest(s, job.kb, job.customer, gens, embed, plan).0, Next(embed, s, e));
      }
    case DeleteKb(kb, customer) =>
      if Owns(s, customer, kb) {
        PurgeOne(s, kb);
        PurgeIsPrecise(s, {kb});
      }
    case DeleteGroup(group, customer) =>
      if Next(embed, s, e) != s {
        PurgeIsPrecise(s, GroupKbs(s, customer, group));
        SameTablesKeepInv(PurgeSet(s, GroupKbs(s, customer, group)), Next(embed, s, e));
      }
  }

  lemma {:induction false} RunKeepsInv(embed: string -> Vector, s: State, es: seq<Event>)
    requires Inv(s) && ValidRun(embed, s, es)
    ensures Inv(Run(embed, s, es))
    decreases |es|
  {
    hide Inv;
    if es != [] {
      StepKeepsInv(embed, s, es[0]);
      RunKeepsInv(embed, Next(embed, s, es[0]), es[1..]);
    }
  }

  lemma RunInv(embed: string -> Vector, es: seq<Event>)
    requires ValidRun(embed, EMPTY, es)
    ensures Inv(Run(embed, EMPTY, es))
  {
    RunKeepsInv(embed, EMPTY, es);
  }

  // In every run from empty tables: each counter equals the number of catalogue
  // rows, a generation is catalogued at most once a knowledge base, the index holds
  // exactly the catalogued generations, and nothing refers to a deleted one.
  lemma TablesAlwaysAgree(embed: string -> Vector, es: seq<Event>)
    requires ValidRun(embed, EMPTY, es)
    ensures var s := Run(embed, EMPTY, es);
            && NoOrphans(s.kbs, s.docs, s.table, s.memory)
            && forall kb <- s.kbs ::
                 && s.kbs[kb].docCount == |Catalogue(s.docs, kb)|
                 && NoDuplicates(Catalogue(s.docs, kb))
                 && Docs(IndexOf(s, kb)) == Catalogue(s.docs, kb)
  {
    RunInv(embed, es);
    var s := Run(embed, EMPTY, es);
    forall kb | kb in s.kbs ensures Agrees(s, kb) {}
  }

  // Deleting a knowledge base or a group takes precisely its share and reports it.
  lemma DeleteTakesItsShare(embed: string -> Vector, es: seq<Event>, e: Event)
    requires ValidRun(embed, EMPTY, es) && (e.DeleteKb? || e.DeleteGroup?)
    ensures var s := Run(embed, EMPTY, es);
            var (t, reply) := Step(embed, s, e);
            var gone := if reply.NotFound? then {} else if e.DeleteKb? then {e.kb} else GroupKbs(s, e.customer, e.group);
            && t.kbs == s.kbs - gone
            && (reply.Deleted? ==> reply.kbs == |gone| && reply.docs == |s.docs| - |t.docs|)
            && (forall kb <- t.kbs :: Catalogue(t.docs, kb) == Catalogue(s.docs, kb) && IndexOf(t, kb) == IndexOf(s, kb))
            && (forall kb <- gone :: Catalogue(t.docs, kb) == [] && TableRows(t.table, kb) == []
                  && forall stack :: (stack, kb) !in t.memory)
  {
    hide Inv;
    RunInv(embed, es);
    var s := Run(embed, EMPTY, es);
    if e.DeleteKb? {
      if Owns(s, e.customer, e.kb) {
        PurgeOne(s, e.kb);
        PurgeIsPrecise(s, {e.kb});
      }
    } else {
      PurgeIsPrecise(s, GroupKbs(s, e.customer, e.group));
      DocsOutsideMembers(s.docs, GroupKbs(s, e.customer, e.group));
    }
  }

  // The customer for whom a step acts; a job acts for the one who asked for it.
  function Actor(s: State, e: Event): Option<Id> {
    if e.RunJob? then (if e.id in s.jobs then Some(s.jobs[e.id].customer) else None) else Some(e.customer)
  }

  // Another customer's knowledge base, seen from the step: its row, catalogue and index.
  ghost predicate Untouched(s: State, t: State, kb: Id)
    requires kb in s.kbs
  {
    kb in t.kbs && t.kbs[kb] == s.kbs[kb] && Catalogue(t.docs, kb) == Catalogue(s.docs, kb) && IndexOf(t, kb) == IndexOf(s, kb)
  }

  lemma IngestTouchesOwn(s: State, kb: Id, customer: Id, gens: seq<Generation>, embed: string -> Vector, plan: Option<Plan>, other: Id)
    requires Inv(s) && other in s.kbs && s.kbs[other].customer != customer
    ensures Untouched(s, DoIngest(s, kb, customer, gens, embed, plan).0, other)
  {
    hide Inv;
    if Owns(s, customer, kb) {
      IngestEffect(s, kb, customer, gens, embed, plan);
      IngestLeavesOthers(s, kb, customer, gens, embed, plan);
    }
  }

  // In every run no step of one customer touches another's knowledge bases, groups
  // or jobs.
  lemma CustomersAreIsolated(embed: string -> Vector, es: seq<Event>, e: Event)
    requires ValidRun(embed, EMPTY, es) && Enabled(Run(embed, EMPTY, es), e)
    ensures var s, t := Run(embed, EMPTY, es), Step(embed, Run(embed, EMPTY, es), e).0;
            && (forall kb <- s.kbs :: Some(s.kbs[kb].customer) != Actor(s, e) ==> Untouched(s, t, kb))
            && (forall g <- s.groups :: Some(s.groups[g]) != Actor(s, e) ==> g in t.groups && t.groups[g] == s.groups[g])
            && (forall j <- s.jobs :: Some(s.jobs[j].customer) != Actor(s, e) ==> j in t.jobs && t.jobs[j] == s.jobs[j])
  {
    hide Inv;
    RunInv(embed, es);
    var s, t := Run(embed, EMPTY, es), Step(embed, Run(embed, EMPTY, es), e).0;
    forall kb | kb in s.kbs && Some(s.kbs[kb].customer) != Actor(s, e) ensures Untouched(s, t, kb) {
      OthersUntouched(embed, s, e, kb);
    }
  }

  lemma OthersUntouched(embed: string -> Vector, s: State, e: Event, kb: Id)
    requires Inv(s) && Enabled(s, e) && kb in s.kbs && Some(s.kbs[kb].customer) != Actor(s, e)
    ensures Untouched(s, Next(embed, s, e), kb)
  {
    hide Inv;
    match e
    case IngestBatch(k, customer, gens, plan) => IngestTouchesOwn(s, k, customer, gens, embed, plan, kb);
    case RunJob(id, gens, plan) =>
      if id in s.jobs { IngestTouchesOwn(s, s.jobs[id].kb, s.jobs[id].customer, gens, embed, plan, kb); }
    case DeleteKb(k, customer) =>
      if Owns(s, customer, k) {
        PurgeOne(s, k);
        PurgeIsPrecise(s, {k});
      }
    case DeleteGroup(group, customer) => PurgeIsPrecise(s, GroupKbs(s, customer, group));
    case _ =>
  }

  // A job that runs is finished exactly if its customer still has the knowledge
  // base; then its counts add up to the batch and are what the catalogue gained,
  // and otherwise nothing but its status changes.
  lemma JobOutcome(embed: string -> Vector, es: seq<Event>, id: Id, gens: seq<Generation>, plan: Option<Plan>)
    requires ValidRun(embed, EMPTY, es) && id in Run(embed, EMPTY, es).jobs
    ensures var s := Run(embed, EMPTY, es);
            var t := DoRunJob(s, id, gens, embed, plan).0;
            var before := s.jobs[id];
            && id in t.jobs && t.jobs[id].kb == before.kb && t.jobs[id].customer == before.customer
            && t.jobs[id].requested == before.requested
            && t.jobs.Keys == s.jobs.Keys && (forall j <- s.jobs :: j != id ==> t.jobs[j] == s.jobs[j])
            && (if Owns(s, before.customer, before.kb)
                then t.jobs[id].status == Finished
                  && t.jobs[id].ingested + t.jobs[id].skipped == |gens|
                  && |Catalogue(t.docs, before.kb)| == |Catalogue(s.docs, before.kb)| + t.jobs[id].ingested
                else t == s.(jobs := s.jobs[id := before.(status := Failed)]))
  {
    hide Inv;
    RunInv(embed, es);
    var s := Run(embed, EMPTY, es);
    var job := s.jobs[id];
    if Owns(s, job.customer, job.kb) { IngestEffect(s, job.kb, job.customer, gens, embed, plan); }
  }

  // ---------------- what each call answers ----------------

  // An owner's delete always succeeds, another's never does and changes nothing; with a
  // group goes its row, and no other group's.
  lemma DeleteAnswers(embed: string -> Vector, s: State, e: Event)
    requires e.DeleteKb? || e.DeleteGroup?
    ensures var (t, reply) := Step(embed, s, e);
            && (e.DeleteKb? ==>
                  && (reply.Deleted? <==> e.kb in s.kbs && s.kbs[e.kb].customer == e.customer)
                  && t.groups == s.groups)
            && (e.DeleteGroup? ==>
                  && (reply.Deleted? <==> e.group in s.groups && s.groups[e.group] == e.customer)
                  && (reply.Deleted? ==> t.groups == s.groups - {e.group}))
            && (!reply.Deleted? ==> reply == NotFound && t == s)
            && t.jobs == s.jobs
  {}

  // A knowledge base is created exactly if its stack is known and the plan, where one is
  // asked, has a subscription, has the stack and has room; it is then the customer's, in
  // the group and stack asked for, with no documents, and nothing else changes.
  lemma CreateAnswers(embed: string -> Vector, s: State, e: Event)
    requires e.CreateKb?
    ensures var (t, reply) := Step(embed, s, e);
            && (reply == BadRequest <==> e.stack.None?)
            && (reply == Ok <==>
                  e.stack.Some? && (e.plan.None? ||
                    (&& e.plan.value.hasSubscription && e.stack.value in e.plan.value.stacks
                     && (e.plan.value.maxKbs.None?
                         || |set k | k in s.kbs && s.kbs[k].customer == e.customer| < e.plan.value.maxKbs.value))))
            && (reply == Ok ==> t == s.(kbs := s.kbs[e.id := Kb(e.customer, e.group, e.stack.value, 0)]))
            && (reply != Ok ==> (reply == BadRequest || reply == Forbidden) && t == s)
  {
    assert KbsOf(s.kbs, e.customer) == set k | k in s.kbs && s.kbs[k].customer == e.customer;
  }

  // Groups are their customer's; jobs are asked for by the owner, and wait; a job that
  // nobody asked for does nothing.
  lemma GroupAndJobAnswers(embed: string -> Vector, s: State, e: Event)
    requires e.CreateGroup? || e.CreateJob? || (e.RunJob? && e.id !in s.jobs)
    ensures var (t, reply) := Step(embed, s, e);
            && (e.CreateGroup? ==> reply == Ok && t == s.(groups := s.groups[e.id := e.customer]))
            && (e.CreateJob? ==>
                  && (reply == Ok <==> e.kb in s.kbs && s.kbs[e.kb].customer == e.customer)
                  && (reply == Ok ==> t == s.(jobs := s.jobs[e.id := Job(e.kb, e.customer, e.requested, Pending, 0, 0)]))
                  && (reply != Ok ==> reply == NotFound && t == s))
            && (e.RunJob? ==> (t, reply) == (s, NotFound))
  {}

  // An ingest answers with its counts exactly for the owner.
  lemma IngestAnswers(embed: string -> Vector, s: State, e: Event)
    requires e.IngestBatch?
    ensures var (t, reply) := Step(embed, s, e);
            && (reply.Ingested? <==> e.kb in s.kbs && s.kbs[e.kb].customer == e.customer)
            && (!reply.Ingested? ==> reply == NotFound && t == s)
            && t.groups == s.groups && t.jobs == s.jobs
  {}

  // ---------------- an interrupted job ----------------

  // What a job leaves whose ingest raises at turn n of its loop: the turns before are
  // committed with the job's error, the counter update is never reached.
  function InterruptedJob(s: State, id: Id, gens: seq<Generation>, n: nat, embed: string -> Vector, plan: Option<Plan>): State
    requires id in s.jobs && Owns(s, s.jobs[id].customer, s.jobs[id].kb) && n <= |gens|
  {
    var p := IngestAll(TargetOf(s, s.jobs[id].kb, embed, plan), Begin(s), gens[..n]);
    s.(docs := p.docs, table := p.table, memory := p.memory, jobs := s.jobs[id := s.jobs[id].(status := Failed)])
  }

  // ---------------- batches through the facade ----------------

  lemma FacadeShift(s: State, t: State, kb: Id, embed: string -> Vector, plan: Option<Plan>, p: Progress)
    requires kb in s.kbs && kb in t.kbs
    requires p.ingested >= 0 && t.kbs[kb] == s.kbs[kb].(docCount := s.kbs[kb].docCount + p.ingested)
    requires var u := TargetOf(s, kb, embed, plan); u.remaining.Some? ==> p.ingested <= u.remaining.value
    ensures TargetOf(t, kb, embed, plan) == TargetOf(s, kb, embed, plan).(remaining := Left(TargetOf(s, kb, embed, plan), p))
  {}

  // Under one plan, ingesting a + b leaves the same tables as ingesting a, then b,
  // and the counts add up.
  lemma BatchesCompose(s: State, kb: Id, customer: Id, a: seq<Generation>, b: seq<Generation>,
                       embed: string -> Vector, plan: Option<Plan>)
    requires Owns(s, customer, kb)
    ensures var first := DoIngest(s, kb, customer, a, embed, plan);
            var second := DoIngest(first.0, kb, customer, b, embed, plan);
            var both := DoIngest(s, kb, customer, a + b, embed, plan);
            && both.0 == second.0
            && both.1.ingested == first.1.ingested + second.1.ingested
            && both.1.skipped == first.1.skipped + second.1.skipped
            && both.1.docCount == second.1.docCount
  {
    var t := TargetOf(s, kb, embed, plan);
    var p := IngestAll(t, Begin(s), a);
    var s1 := DoIngest(s, kb, customer, a, embed, plan).0;
    IngestConcat(t, Begin(s), a, b);
    IngestCounts(t, Begin(s), a);
    FacadeShift(s, s1, kb, embed, plan, p);
    IngestShift(t, TargetOf(s1, kb, embed, plan), p, Begin(s1), b);
  }

  // In every run, sending a batch again under the same plan adds nothing.
  lemma RepeatedBatchAddsNothing(embed: string -> Vector, es: seq<Event>, kb: Id, customer: Id,
                                 gens: seq<Generation>, plan: Option<Plan>)
    requires ValidRun(embed, EMPTY, es) && Owns(Run(embed, EMPTY, es), customer, kb)
    ensures var once := DoIngest(Run(embed, EMPTY, es), kb, customer, gens, embed, plan);
            DoIngest(once.0, kb, customer, gens, embed, plan) == (once.0, Ingested(0, |gens|, once.1.docCount))
  {
    hide Inv;
    RunInv(embed, es);
    RepeatThroughFacade(Run(embed, EMPTY, es), kb, customer, gens, embed, plan);
  }

  lemma RepeatTables(s: State, kb: Id, customer: Id, gens: seq<Generation>, embed: string -> Vector, plan: Option<Plan>)
    requires Inv(s) && Owns(s, customer, kb)
    ensures var s1 := DoIngest(s, kb, customer, gens, embed, plan).0;
            var y := IngestAll(TargetOf(s1, kb, embed, plan), Begin(s1), gens);
            y == Begin(s1).(skipped := |gens|)
  {
    hide Inv, IngestAll, Catalogue;
    var t := TargetOf(s, kb, embed, plan);
    var p := IngestAll(t, Begin(s), gens);
    var s1 := DoIngest(s, kb, customer, gens, embed, plan).0;
    TablesAgree(s, kb);
    RepeatAddsNothing(t, Begin(s), gens);
    IngestCounts(t, Begin(s), gens);
    FacadeShift(s, s1, kb, embed, plan, p);
    IngestShift(t, TargetOf(s1, kb, embed, plan), p, Begin(s1), gens);
  }

  lemma RepeatThroughFacade(s: State, kb: Id, customer: Id, gens: seq<Generation>, embed: string -> Vector, plan: Option<Plan>)
    requires Inv(s) && Owns(s, customer, kb)
    ensures var once := DoIngest(s, kb, customer, gens, embed, plan);
            DoIngest(once.0, kb, customer, gens, embed, plan) == (once.0, Ingested(0, |gens|, once.1.docCount))
  {
    hide Inv;
    RepeatTables(s, kb, customer, gens, embed, plan);
    var s1 := DoIngest(s, kb, customer, gens, embed, plan).0;
    assert s1.kbs[kb := s1.kbs[kb]] == s1.kbs;
  }

  // ---------------- quotas ----------------

  // How the lookup of a plan is answered when it fails: no subscription, no quotas.
  const LOOKUP_FAILED: Plan := Plan(false, {}, None, None)

  // The lookup before an ingest told the plan's cap, or a smaller one.
  predicate CapKnown(answer: Option<Plan>, plan: Plan) {
    plan.maxDocsPerKb.Some? ==> Cap(answer).Some? && Cap(answer).value <= plan.maxDocsPerKb.value
  }

  // The customer's own knowledge bases are created under the plan or after a failed
  // lookup, and ingests that act for the customer know the cap.  Nothing is asked of
  // other customers.
  predicate DecidedBy(s: State, e: Event, customer: Id, plan: Plan) {
    Actor(s, e) == Some(customer) ==>
      match e
      case CreateKb(_, _, _, _, answer) => answer == Some(plan) || answer == Some(LOOKUP_FAILED)
      case IngestBatch(_, _, _, answer) => CapKnown(answer, plan)
      case RunJob(_, _, answer) => CapKnown(answer, plan)
      case _ => true
  }

  predicate UnderPlan(embed: string -> Vector, s: State, es: seq<Event>, customer: Id, plan: Plan)
    decreases |es|
  {
    es == [] || (DecidedBy(s, es[0], customer, plan) && UnderPlan(embed, Next(embed, s, es[0]), es[1..], customer, plan))
  }

  ghost predicate WithinQuota(s: State, customer: Id, plan: Plan) {
    && (plan.maxKbs.Some? ==> CountKbs(s.kbs, customer) <= plan.maxKbs.value)
    && forall kb <- s.kbs :: s.kbs[kb].customer == customer ==>
         && (plan.maxDocsPerKb.Some? ==> s.kbs[kb].docCount <= plan.maxDocsPerKb.value)
         && plan.hasSubscription && s.kbs[kb].stack in plan.stacks
  }

  lemma CountAfter(kbs: map<Id, Kb>, kbs': map<Id, Kb>, customer: Id, extra: set<Id>)
    requires KbsOf(kbs', customer) <= KbsOf(kbs, customer) + extra
    ensures CountKbs(kbs', customer) <= CountKbs(kbs, customer) + |extra|
  {
    var a, b := KbsOf(kbs', customer), KbsOf(kbs, customer) + extra;
    SubsetSize(a, b);
    UnionSize(KbsOf(kbs, customer), extra);
  }

  lemma {:induction false} SubsetSize(a: set<Id>, b: set<Id>)
    requires a <= b
    ensures |a| <= |b|
  {
    assert b == a + (b - a);
    assert |b| == |a| + |b - a|;
  }

  lemma UnionSize(a: set<Id>, b: set<Id>)
    ensures |a + b| <= |a| + |b|
  {
    assert a + b == a + (b - a);
    assert |a + (b - a)| == |a| + |b - a|;
    SubsetSize(b - a, b);
  }

  lemma IngestWithinCap(s: State, kb: Id, customer: Id, gens: seq<Generation>, embed: string -> Vector, plan: Option<Plan>)
    ensures var t := DoIngest(s, kb, customer, gens, embed, plan).0;
            && t.kbs.Keys == s.kbs.Keys
            && (forall k <- t.kbs :: s.kbs[k].customer != customer ==> t.kbs[k] == s.kbs[k])
            && (forall k <- t.kbs :: t.kbs[k].customer == s.kbs[k].customer && t.kbs[k].stack == s.kbs[k].stack
                 && (Cap(plan).Some? ==> t.kbs[k].docCount <= s.kbs[k].docCount || t.kbs[k].docCount <= Cap(plan).value))
  {
    if Owns(s, customer, kb) { IngestCounts(TargetOf(s, kb, embed, plan), Begin(s), gens); }
  }

  // The rows that a step adds to a customer's list, and that it changes in it.
  lemma StepRows(embed: string -> Vector, s: State, e: Event)
    requires Enabled(s, e)
    ensures var t := Next(embed, s, e);
            && (forall k <- t.kbs :: k !in s.kbs ==>
                  e.CreateKb? && k == e.id && t.kbs[k].customer == e.customer && t.kbs[k].docCount == 0)
            && (forall k <- t.kbs :: k !in s.kbs && e.plan.Some? ==>
                  e.plan.value.hasSubscription && t.kbs[k].stack in e.plan.value.stacks)
            && (forall k <- t.kbs :: k in s.kbs ==> t.kbs[k].customer == s.kbs[k].customer && t.kbs[k].stack == s.kbs[k].stack)
            && (e.CreateKb? && t != s && e.plan.Some? && e.plan.value.maxKbs.Some? ==>
                  CountKbs(s.kbs, e.customer) < e.plan.value.maxKbs.value)
            && (e.CreateKb? && t != s && e.plan.Some? ==> e.plan.value.hasSubscription)
  {
    match e
    case IngestBatch(kb, c, gens, p) => IngestWithinCap(s, kb, c, gens, embed, p);
    case RunJob(id, gens, p) =>
      if id in s.jobs { IngestWithinCap(s, s.jobs[id].kb, s.jobs[id].customer, gens, embed, p); }
    case _ =>
  }

  lemma StepCounters(embed: string -> Vector, s: State, e: Event, customer: Id, plan: Plan)
    requires DecidedBy(s, e, customer, plan) && plan.maxDocsPerKb.Some? && 0 <= plan.maxDocsPerKb.value
    ensures var t, cap := Next(embed, s, e), plan.maxDocsPerKb.value;
            forall k <- t.kbs :: k in s.kbs && s.kbs[k].customer == customer && s.kbs[k].docCount <= cap ==> t.kbs[k].docCount <= cap
  {
    match e
    case IngestBatch(kb, c, gens, p) => IngestWithinCap(s, kb, c, gens, embed, p);
    case RunJob(id, gens, p) =>
      if id in s.jobs { IngestWithinCap(s, s.jobs[id].kb, s.jobs[id].customer, gens, embed, p); }
    case _ =>
  }

  lemma StepWithinQuota(embed: string -> Vector, s: State, e: Event, customer: Id, plan: Plan)
    requires Enabled(s, e) && DecidedBy(s, e, customer, plan) && WithinQuota(s, customer, plan)
    requires plan.maxDocsPerKb.Some? ==> 0 <= plan.maxDocsPerKb.value
    ensures WithinQuota(Next(embed, s, e), customer, plan)
  {
    hide Next, CountKbs;
    var t := Next(embed, s, e);
    StepRows(embed, s, e);
    if plan.maxDocsPerKb.Some? { StepCounters(embed, s, e, customer, plan); }
    CountAfter(s.kbs, t.kbs, customer, if e.CreateKb? && e.customer == customer && t != s then {e.id} else {});
  }

  lemma {:induction false} RunWithinQuota(embed: string -> Vector, s: State, es: seq<Event>, customer: Id, plan: Plan)
    requires ValidRun(embed, s, es) && UnderPlan(embed, s, es, customer, plan) && WithinQuota(s, customer, plan)
    requires plan.maxDocsPerKb.Some? ==> 0 <= plan.maxDocsPerKb.value
    ensures WithinQuota(Run(embed, s, es), customer, plan)
    decreases |es|
  {
    hide WithinQuota;
    if es != [] {
      StepWithinQuota(embed, s, es[0], customer, plan);
      RunWithinQuota(embed, Next(embed, s, es[0]), es[1..], customer, plan);
    }
  }

  // Whatever other customers and their plans do, a customer never exceeds the quotas
  // of its plan, background jobs included, nor creates a knowledge base without a
  // subscription or in a stack that the plan lacks; lookups that fail included, as
  // long as each ingest is told the cap.
  lemma QuotasHold(embed: string -> Vector, es: seq<Event>, customer: Id, plan: Plan)
    requires ValidRun(embed, EMPTY, es) && UnderPlan(embed, EMPTY, es, customer, plan)
    requires plan.maxDocsPerKb.Some? ==> 0 <= plan.maxDocsPerKb.value
    requires plan.maxKbs.Some? ==> 0 <= plan.maxKbs.value
    ensures WithinQuota(Run(embed, EMPTY, es), customer, plan)
  {
    assert KbsOf(EMPTY.kbs, customer) == {};
    RunWithinQuota(embed, EMPTY, es, customer, plan);
  }

  // ---------------- an ingest that is not told the cap ----------------

  function Above(ids: seq<Id>): (b: Id)
    ensures forall x <- ids :: x < b
  {
    if ids == [] then 0
    else
      var b, last := Above(ids[..|ids|-1]), ids[|ids|-1];
      assert ids == ids[..|ids|-1] + [last];
      if b <= last then last + 1 else b
  }

  // n generations with text, with ids from b on.
  function Batch(n: nat, b: Id): seq<Generation> {
    if n == 0 then [] else [Generation(Some(b), "x", [])] + Batch(n - 1, b + 1)
  }

  lemma {:induction false} BatchIsEligible(n: nat, b: Id, known: set<Id>)
    requires forall x <- known :: x < b
    ensures Eligible(Batch(n, b), known) == Batch(n, b) && |Batch(n, b)| == n
    decreases n
  {
    if n > 0 {
      TextIsEmptyIff(Batch(n, b)[0]);
      assert Batch(n, b)[1..] == Batch(n - 1, b + 1);
      BatchIsEligible(n - 1, b + 1, known + {b});
      BatchIsEligible(n - 1, b + 1, known);
    }
  }

  // What an ingest of n new generations makes of the counter.
  lemma IngestOfBatch(s: State, kb: Id, customer: Id, n: nat, embed: string -> Vector, answer: Option<Plan>)
    requires Inv(s) && Owns(s, customer, kb)
    ensures var left := TargetOf(s, kb, embed, answer).remaining;
            var t := DoIngest(s, kb, customer, Batch(n, Above(Catalogue(s.docs, kb))), embed, answer).0;
            t.kbs == s.kbs[kb := s.kbs[kb].(docCount := s.kbs[kb].docCount + (if left.Some? && left.value < n then left.value else n))]
  {
    hide Inv, DoIngest, IngestAll, Eligible;
    var gens := Batch(n, Above(Catalogue(s.docs, kb)));
    IngestEffect(s, kb, customer, gens, embed, answer);
    BatchIsEligible(n, Above(Catalogue(s.docs, kb)), SetOf(Catalogue(s.docs, kb)));
  }

  // From a knowledge base within its cap no batch leads beyond it exactly if the
  // answer of the lookup carries a cap that is no greater; a failed one carries none.
  lemma CapHoldsIff(s: State, kb: Id, customer: Id, embed: string -> Vector, answer: Option<Plan>, cap: int)
    requires Inv(s) && Owns(s, customer, kb) && s.kbs[kb].docCount <= cap
    ensures (forall gens :: DoIngest(s, kb, customer, gens, embed, answer).0.kbs[kb].docCount <= cap)
       <==> Cap(answer).Some? && Cap(answer).value <= cap
  {
    hide Inv, IngestAll;
    if Cap(answer).Some? && Cap(answer).value <= cap {
      forall gens ensures DoIngest(s, kb, customer, gens, embed, answer).0.kbs[kb].docCount <= cap {
        IngestWithinCap(s, kb, customer, gens, embed, answer);
      }
    } else {
      var n := cap - s.kbs[kb].docCount + 1;
      var gens := Batch(n, Above(Catalogue(s.docs, kb)));
      IngestOfBatch(s, kb, customer, n, embed, answer);
      assert DoIngest(s, kb, customer, gens, embed, answer).0.kbs[kb].docCount > cap;
    }
  }

  // A concrete run: a plan of one knowledge base with one document, the lookup of the
  // ingest fails, and the knowledge base ends up with two.
  const SMALL_PLAN: Plan := Plan(true, {PgVector}, Some(1), Some(1))
  const CREATE_ONE: Event := CreateKb(1, 7, 3, Some(PgVector), Some(SMALL_PLAN))
  const INGEST_TWO: Event := IngestBatch(1, 7, Batch(2, 0), Some(LOOKUP_FAILED))

  lemma FailedLookupLiftsCap(embed: string -> Vector)
    ensures ValidRun(embed, EMPTY, [CREATE_ONE, INGEST_TWO])
    ensures var s := Run(embed, EMPTY, [CREATE_ONE, INGEST_TWO]);
            1 in s.kbs && s.kbs[1].docCount == 2 && !WithinQuota(s, 7, SMALL_PLAN)
  {
    hide Inv, DoIngest, Batch;
    assert [CREATE_ONE, INGEST_TWO][1..] == [INGEST_TWO] && [INGEST_TWO][1..] == [];
    EmptyInv();
    AfterCreate(embed);
    var s := Next(embed, EMPTY, CREATE_ONE);
    StepKeepsInv(embed, EMPTY, CREATE_ONE);
    IngestOfBatch(s, 1, 7, 2, embed, Some(LOOKUP_FAILED));
    assert ValidRun(embed, Next(embed, s, INGEST_TWO), []);
    assert ValidRun(embed, s, [INGEST_TWO]);
    assert Run(embed, s, [INGEST_TWO]) == Run(embed, Next(embed, s, INGEST_TWO), []);
    assert Run(embed, EMPTY, [CREATE_ONE, INGEST_TWO]) == Run(embed, s, [INGEST_TWO]);
  }

  lemma EmptyInv()
    ensures Inv(EMPTY)
  {}

  lemma AfterCreate(embed: string -> Vector)
    ensures Next(embed, EMPTY, CREATE_ONE) == EMPTY.(kbs := map[1 := Kb(7, 3, PgVector, 0)])
  {
    assert KbsOf(EMPTY.kbs, 7) == {};
  }

  // ---------------- search ----------------

  // The knowledge base is there at every point of the run.
  ghost predicate Stays(embed: string -> Vector, s: State, es: seq<Event>, kb: Id)
    decreases |es|
  {
    kb in s.kbs && (es == [] || Stays(embed, Next(embed, s, es[0]), es[1..], kb))
  }

  // Until it is deleted, a knowledge base only ever gains index rows.
  lemma StepExtendsIndex(embed: string -> Vector, s: State, e: Event, kb: Id)
    requires Inv(s) && Enabled(s, e) && kb in s.kbs && kb in Next(embed, s, e).kbs
    ensures IndexOf(s, kb) <= IndexOf(Next(embed, s, e), kb)
  {
    hide Inv;
    match e
    case IngestBatch(k, customer, gens, plan) =>
      if Owns(s, customer, k) {
        IngestEffect(s, k, customer, gens, embed, plan);
        IngestLeavesOthers(s, k, customer, gens, embed, plan);
      }
    case RunJob(id, gens, plan) =>
      if id in s.jobs && Owns(s, s.jobs[id].customer, s.jobs[id].kb) {
        IngestEffect(s, s.jobs[id].kb, s.jobs[id].customer, gens, embed, plan);
        IngestLeavesOthers(s, s.jobs[id].kb, s.jobs[id].customer, gens, embed, plan);
      }
    case DeleteKb(k, customer) =>
      if Owns(s, customer, k) {
        PurgeOne(s, k);
        PurgeIsPrecise(s, {k});
      }
    case DeleteGroup(group, customer) => PurgeIsPrecise(s, GroupKbs(s, customer, group));
    case _ =>
  }

  lemma {:induction false} RunExtendsIndex(embed: string -> Vector, s: State, es: seq<Event>, kb: Id)
    requires Inv(s) && ValidRun(embed, s, es) && Stays(embed, s, es, kb)
    ensures kb in Run(embed, s, es).kbs && IndexOf(s, kb) <= IndexOf(Run(embed, s, es), kb)
    decreases |es|
  {
    hide Inv;
    if es != [] {
      StepKeepsInv(embed, s, es[0]);
      StepExtendsIndex(embed, s, es[0], kb);
      RunExtendsIndex(embed, Next(embed, s, es[0]), es[1..], kb);
    }
  }

  lemma IngestedRow(s: State, kb: Id, customer: Id, gens: seq<Generation>, embed: string -> Vector, plan: Option<Plan>, i: nat)
    returns (j: nat)
    requires Inv(s) && Owns(s, customer, kb) && i < |Selected(TargetOf(s, kb, embed, plan), Begin(s), gens)|
    ensures var g := Selected(TargetOf(s, kb, embed, plan), Begin(s), gens)[i];
            var t := DoIngest(s, kb, customer, gens, embed, plan).0;
            && kb in t.kbs && j < |IndexOf(t, kb)| && IndexOf(t, kb)[j].vector == embed(Text(g))
            && g.id == Some(IndexOf(t, kb)[j].doc)
  {
    hide Inv;
    IngestEffect(s, kb, customer, gens, embed, plan);
    var chosen := Selected(TargetOf(s, kb, embed, plan), Begin(s), gens);
    j := |IndexOf(s, kb)| + i;
    assert IndexOf(DoIngest(s, kb, customer, gens, embed, plan).0, kb)[j] == RowsFor(embed, chosen)[i];
  }

  lemma FoundByOwnText(model: Embedder.Model, rows: seq<Row>, j: nat, text: string, topK: nat)
    requires model.dim > 0 && ExactRoot(model.root) && Embedder.Tokens(text) != [] && topK > 0
    requires j < |rows| && rows[j].vector == Embedder.Embed(model, text)
    ensures var hits := Query(model.root, rows, Embedder.Embed(model, text), topK);
            && hits != [] && hits[0].score == 1.0
            && (Hit(rows[j].doc, 1.0) in hits || (|hits| == topK && forall h <- hits :: h.score == 1.0))
  {
    Embedder.OwnTextScoresOne(model, text);
    PerfectMatchFirst(model.root, rows, Embedder.Embed(model, text), topK, j);
    PerfectMatchFound(model.root, rows, Embedder.Embed(model, text), topK, j);
  }

  // The tables after an ingest that follows a run.
  function AfterIngest(embed: string -> Vector, before: seq<Event>, kb: Id, customer: Id,
                       gens: seq<Generation>, plan: Option<Plan>): State
  {
    DoIngest(Run(embed, EMPTY, before), kb, customer, gens, embed, plan).0
  }

  // What that ingest added.
  function Added(embed: string -> Vector, before: seq<Event>, kb: Id, gens: seq<Generation>, plan: Option<Plan>): seq<Generation>
    requires kb in Run(embed, EMPTY, before).kbs
  {
    var s := Run(embed, EMPTY, before);
    Selected(TargetOf(s, kb, embed, plan), Begin(s), gens)
  }

  // In every run: a document that a batch added, whatever happens later short of
  // deleting its knowledge base, is found by its own text: the first hit scores 1, and
  // the document is a hit of score 1 unless all topK hits are.
  lemma OwnTextIsFound(model: Embedder.Model, embed: string -> Vector, before: seq<Event>, after: seq<Event>,
                       kb: Id, customer: Id, gens: seq<Generation>, plan: Option<Plan>, i: nat, topK: nat)
    requires model.dim > 0 && ExactRoot(model.root) && (forall text :: embed(text) == Embedder.Embed(model, text)) && topK > 0
    requires ValidRun(embed, EMPTY, before) && Owns(Run(embed, EMPTY, before), customer, kb)
    requires ValidRun(embed, AfterIngest(embed, before, kb, customer, gens, plan), after)
    requires Stays(embed, AfterIngest(embed, before, kb, customer, gens, plan), after, kb)
    requires i < |Added(embed, before, kb, gens, plan)| && Embedder.Tokens(Text(Added(embed, before, kb, gens, plan)[i])) != []
    ensures kb in Run(embed, AfterIngest(embed, before, kb, customer, gens, plan), after).kbs
    ensures var text := Text(Added(embed, before, kb, gens, plan)[i]);
            var final := Run(embed, AfterIngest(embed, before, kb, customer, gens, plan), after);
            var hits := Query(model.root, IndexOf(final, kb), embed(text), topK);
            && hits != [] && hits[0].score == 1.0
            && Added(embed, before, kb, gens, plan)[i].id.Some?
            && (Hit(Added(embed, before, kb, gens, plan)[i].id.value, 1.0) in hits
                || (|hits| == topK && forall h <- hits :: h.score == 1.0))
  {
    hide Inv;
    RunInv(embed, before);
    var s := Run(embed, EMPTY, before);
    var j := IngestedRow(s, kb, customer, gens, embed, plan, i);
    IngestKeepsInv(s, kb, customer, gens, embed, plan);
    var t := AfterIngest(embed, before, kb, customer, gens, plan);
    RunExtendsIndex(embed, t, after, kb);
    FoundByOwnText(model, IndexOf(Run(embed, t, after), kb), j, Text(Added(embed, before, kb, gens, plan)[i]), topK);
  }

  // In every run a search of a knowledge base answers with its own catalogued
  // generations, each at most once, as many as asked for and there are; and none left
  // out is more similar than one answered.
  lemma SearchIsOfItsOwn(root: real -> real, embed: string -> Vector, es: seq<Event>, kb: Id, query: string, topK: nat)
    requires ExactRoot(root) && ValidRun(embed, EMPTY, es) && kb in Run(embed, EMPTY, es).kbs
    ensures var s := Run(embed, EMPTY, es);
            var hits, known := Query(root, IndexOf(s, kb), embed(query), topK), Catalogue(s.docs, kb);
            && |hits| == (if topK < |known| then topK else |known|)
            && DistinctHits(hits) && (forall h <- hits :: h.doc in known)
            && |IndexOf(s, kb)| == |known|
            && (forall i :: 0 <= i < |known| ==>
                  var score := Cosine(root, embed(query), IndexOf(s, kb)[i].vector);
                  IndexOf(s, kb)[i].doc == known[i]
                  && (Hit(known[i], score) in hits || (|hits| == topK && forall h <- hits :: score <= h.score)))
  {
    hide Inv, Query, Catalogue, Cosine;
    RunInv(embed, es);
    var s := Run(embed, EMPTY, es);
    TablesAgree(s, kb);
    var rows, known := IndexOf(s, kb), Catalogue(s.docs, kb);
    assert forall i :: 0 <= i < |known| ==> known[i] == rows[i].doc;
    QueryIsTopK(root, rows, embed(query), topK);
    HitsAreDistinct(root, rows, embed(query), topK);
    EveryHitIsARow(root, rows, embed(query), topK);
    forall h | h in Query(root, rows, embed(query), topK) ensures h.doc in known {
      var i :| 0 <= i < |rows| && h.doc == rows[i].doc && h.score == Cosine(root, embed(query), rows[i].vector);
      assert known[i] == h.doc;
    }
    forall i | 0 <= i < |known|
      ensures var hits, score := Query(root, rows, embed(query), topK), Cosine(root, embed(query), rows[i].vector);
              Hit(known[i], score) in hits || (|hits| == topK && forall h <- hits :: score <= h.score)
    {
      EveryRowIsRanked(root, rows, embed(query), topK, i);
    }
  }
}
